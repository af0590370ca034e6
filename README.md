# Wardrobe: a verified model of the session, catalogue and outfit logic

Wardrobe is a web app for cataloguing clothes and putting outfits together.
It has two parallel back ends: Next.js route handlers and a NestJS API.
Both work over one database through Prisma, with images kept on Cloudinary.
The browser side has an axios API client and two zustand stores.

This project models the decision logic of that code in Dafny and proves
what it promises. Each source file has its own module.

- **Tables.** Prisma's `user` and `wardrobeItem` tables are sequences of
  rows. A uniqueness invariant stands in for the primary and unique keys.
- **Item table object.** The item table is an `ItemStore` object whose
  methods create, update and delete rows.
- **Handlers.** Each handler is a function, or a method where the source
  builds its result step by step. It returns a response record: status,
  JSON body, and what it does to the `refreshToken` cookie.
- **Client-side stores.** The stores and the API client are classes.
  Their fields are the variables the source reassigns.
- **Crypto.** JWT signing and verification and argon2 hashing are function
  values. Lemmas that depend on their behaviour assume it explicitly:
  - `Sound`: a token verifies, under the secret it was signed with, to its
    payload.
  - `SecretsSeparate`: a token signed with one secret does not verify
    under the other.
  - `HashVerifies`: a password checks against its own hash.
- **Environment as inputs.** Cloudinary uploads, the answers the browser
  receives, new ids and the clock are parameters.
- **Image deletions.** Deletions on the image host are recorded in a
  sequence, in call order.

Modules, by source file:

| module | source |
|---|---|
| `Wrappers`, `Strings`, `Http` | shared: `Option`/`Result`, JavaScript string operations, responses and cookies |
| `UserTable`, `ItemTable` | the two Prisma tables, the `where`/`orderBy`/`skip`/`take` query semantics |
| `AuthLib` | src/lib/auth.ts |
| `LoginRoute`, `RefreshRoute`, `LogoutRoute`, `MeRoute` | src/app/api/auth/*/route.ts |
| `SessionFlows` | end-to-end properties of those four routes |
| `AuthService`, `AuthController` | src/app/api/src/auth/ |
| `ItemDtos` | src/app/api/src/Item/dtos/ |
| `ItemService` | src/app/api/src/Item/item.service.ts |
| `ItemsRoute` | src/app/api/items/route.ts |
| `ImageUpload` | src/components/ImageUpload.tsx |
| `UploadAgreement` | the client-side and server-side upload checks compared |
| `OutfitStore` | src/store/outfitStore.ts |
| `ApiClient` | src/lib/api.ts |
| `AuthStore` | src/store/authStore.ts |

These properties are proved across modules:
- **Session flows.** After a successful login, the cookie it sets refreshes
  and the access token it returns identifies the user. A refresh rotates
  the cookie. Logout ends the session, and the next refresh is refused
  with "Refresh token not found".
- **Upload checks agree.** With its default props, the upload component
  selects exactly the files that the server's size and MIME guards
  accept.
- **Bearer header.** The client's bearer header parses back to the same
  token on the server.

## Model

| member | source | states |
|---|---|---|
| `Strings.ContainsOccurrence` | src/app/api/src/Item/item.service.ts:61-67 | `contains` finds a needle wherever it occurs in the column |
| `Strings.ContainsHasOccurrence` | src/app/api/src/Item/item.service.ts:61-67 | whatever `contains` reports is an actual occurrence at some offset |
| `Strings.Split` | src/components/ImageUpload.tsx:46 | `split` always yields at least one part |
| `Strings.SplitJoin` | src/components/ImageUpload.tsx:46 | joining the parts of `split` with the separator gives the string back, and no part contains the separator |
| `Strings.SplitNoSeparator` | src/components/ImageUpload.tsx:46 | a string without the separator splits into itself alone |
| `Strings.SplitAtFirst` | src/components/ImageUpload.tsx:46 | `split` cuts at the first separator and continues on the rest |
| `Strings.TrimStart` | src/components/ImageUpload.tsx:46 | the result is a suffix, starts with no white space, and only white space was removed |
| `Strings.TrimEnd` | src/components/ImageUpload.tsx:46 | the result is a prefix, ends with no white space, and only white space was removed |
| `Strings.TrimUnpadded` | src/components/ImageUpload.tsx:46 | a string with no white space at either end is its own trim |
| `Strings.ToLowerIdempotent` | src/store/outfitStore.ts:87 | lower-casing twice is lower-casing once, and leaves no upper-case ASCII letter |
| `Http.ApplyCookie` | src/app/api/auth/refresh/route.ts:9-71 | the browser's refresh cookie after a response: set, deleted, or kept |
| `UserTable.FindUnique` | src/app/api/auth/login/route.ts:18-21 | `findUnique` by email or by id: a found row holds that key; nothing is found exactly when no row holds it |
| `UserTable.LookupFindsRow` | src/app/api/src/auth/auth.service.ts:41-43 | with unique ids and emails, both lookups find every row of the table |
| `UserTable.AppendKeepsUnique` | src/app/api/src/auth/auth.service.ts:53-59 | inserting a user whose email and id are new keeps both unique |
| `AuthLib.VerifyAccessToken` | src/lib/auth.ts:55-61 | succeeds exactly when the verifier accepts under the access secret; any failure is "Invalid access token" |
| `AuthLib.VerifyRefreshToken` | src/lib/auth.ts:63-69 | succeeds exactly when the verifier accepts under the refresh secret; any failure is "Invalid refresh token" |
| `AuthLib.IssuedTokensVerify` | src/lib/auth.ts:31-53 | both tokens carry the payload `{sub, email, name}` under their own secret, with lifetimes 15m and 7d, and the refresh token is non-empty |
| `AuthLib.TokenKindsNotInterchangeable` | src/lib/auth.ts:42-47 | with separate secrets, neither token verifies as the other kind |
| `AuthLib.BearerToken` | src/lib/auth.ts:73-78 | a token is extracted exactly when the header starts with "Bearer ", and the header is that prefix followed by the token |
| `AuthLib.BearerRoundTrip` | src/lib/auth.ts:78 | removing the first seven characters of "Bearer " + token gives the token |
| `AuthLib.GetUserFromToken` | src/lib/auth.ts:71-94 | succeeds exactly when header, token and user lookup by `payload.sub` all succeed, returning id, email, name and createdAt; every failure is "Unauthorized" |
| `AuthLib.IssuedAccessTokenIdentifies` | src/lib/auth.ts:71-94 | the header built from a user's issued access token resolves to that user |
| `LoginRoute.Login` | src/app/api/auth/login/route.ts:5-73 | 400 exactly when a field is missing; 200 exactly when the user exists and the password checks; 401 otherwise, with "Invalid credentials"; 500 on a bad body; the cookie is set only on 200 and never deleted |
| `LoginRoute.NoAccountEnumeration` | src/app/api/auth/login/route.ts:23-41 | an unknown email and a wrong password get identical responses |
| `RefreshRoute.Refresh` | src/app/api/auth/refresh/route.ts:5-73 | 200 or 401 only; each 401 deletes the cookie with its own message, and only 200 sets one; new tokens come from the looked-up user |
| `LogoutRoute.Logout` | src/app/api/auth/logout/route.ts:3-21 | always 200 with "Logout successful", deleting the cookie whatever the request |
| `MeRoute.Me` | src/app/api/auth/me/route.ts:4-15 | 200 with the user exactly when `getUserFromToken` succeeds; otherwise 401 "Unauthorized"; never both |
| `SessionFlows.LoginThenRefreshAndMe` | src/app/api/auth/login/route.ts:43-63 | after a successful login, the stored cookie refreshes and the access token identifies the same user |
| `SessionFlows.RefreshRotates` | src/app/api/auth/refresh/route.ts:39-60 | a successful refresh leaves a cookie that refreshes again |
| `SessionFlows.LogoutEndsSession` | src/app/api/auth/logout/route.ts:3-21 | after logout the browser has no refresh cookie, logging out again changes nothing, and the next refresh gets 401 "Refresh token not found" |
| `SessionFlows.RejectedRefreshClearsCookie` | src/app/api/auth/refresh/route.ts:9-71 | after any failed refresh the browser has no refresh cookie |
| `AuthService.IssuedTokensVerify` | src/app/api/src/auth/auth.service.ts:107-133 | both tokens carry `{sub, email}` under distinct secrets, 15m and 7d; they differ and the refresh token is non-empty |
| `AuthService.AuthService.Register` | src/app/api/src/auth/auth.service.ts:39-62 | a taken email throws Conflict and leaves the table as it was; otherwise exactly one user with that email and the hashed password is appended, and logging in with the same credentials gives the same tokens |
| `AuthService.AuthService.Login` | src/app/api/src/auth/auth.service.ts:64-83 | succeeds exactly when the email is known and the password verifies; an unknown email and a wrong password both give Unauthorized("Invalid credentials") |
| `AuthService.AuthService.RefreshTokens` | src/app/api/src/auth/auth.service.ts:85-105 | succeeds exactly when the token verifies and its user exists; every failure, "User not found" included, is Unauthorized("Invalid refresh token") |
| `AuthService.AuthService.ValidateUser` | src/app/api/src/auth/auth.service.ts:135-146 | Unauthorized("User not found") exactly when no user has the id; otherwise only id, email and createdAt |
| `AuthService.IssuedRefreshTokenRefreshes` | src/app/api/src/auth/auth.service.ts:85-105 | a refresh token issued to a stored user refreshes to that user's tokens |
| `AuthController.ErrorResponse` | src/app/api/src/auth/auth.controller.ts:63-89 | an exception answers with its status and message and touches no cookie |
| `AuthController.Register` | src/app/api/src/auth/auth.controller.ts:20-39 | 201 exactly when the email is new, with the cookie set and only the access token in the body; otherwise a 409 that changes nothing |
| `AuthController.Login` | src/app/api/src/auth/auth.controller.ts:41-61 | 200 with the cookie set exactly when the service logs in; otherwise 401 "Invalid credentials" with no cookie |
| `AuthController.Refresh` | src/app/api/src/auth/auth.controller.ts:63-89 | no cookie throws before the service is called, which Nest answers with 500; otherwise 200 with a new cookie, or 401 "Invalid refresh token" |
| `AuthController.Logout` | src/app/api/src/auth/auth.controller.ts:91-101 | always clears the cookie and answers "Logout successful" |
| `AuthController.GetProfile` | src/app/api/src/auth/auth.controller.ts:103-109 | returns `{user}` of the request unchanged |
| `AuthController.BodyNeverCarriesRefreshToken` | src/app/api/src/auth/auth.controller.ts:52-62 | the body of a successful login holds the access token, which is not the refresh token set in the cookie |
| `ItemTable.ParseCategory` | src/app/api/src/Item/dtos/queryItem.dto.ts:6-8 | a string is accepted exactly when it names a `Category`, and maps to that category |
| `ItemTable.Select` | src/app/api/src/Item/item.service.ts:58-78 | the rows a `where` selects are exactly the table rows satisfying it |
| `ItemTable.SelectMultiplicity` | src/app/api/src/Item/item.service.ts:58-78 | each matching row is kept as often as the table holds it, and no other row is kept |
| `ItemTable.Insert` | src/app/api/src/Item/item.service.ts:76 | inserting into a newest-first listing keeps it newest first and adds exactly the one row |
| `ItemTable.SortNewestFirst` | src/app/api/src/Item/item.service.ts:76 | `orderBy: { createdAt: 'desc' }` gives a newest-first permutation of the selection |
| `ItemTable.Window` | src/app/api/src/Item/item.service.ts:73-75 | `skip`/`take` give at most `take` rows, the ones at positions `skip` onwards |
| `ItemTable.FindManyIsFilteredPage` | src/app/api/src/Item/item.service.ts:71-79 | a page has at most `limit` rows, no more than `count`, each a table row satisfying the filter, newest first |
| `ItemTable.ListingFilter` | src/app/api/src/Item/item.service.ts:58-68 | `userId` is always constrained; each other key is present exactly when its parameter is non-empty, with that value |
| `ItemTable.ListedRowsMatch` | src/app/api/items/route.ts:21-42 | every listed row belongs to the caller; category and season match by equality, color by case-insensitive containment, and search text in title or notes |
| `ItemTable.Skip` | src/app/api/src/Item/item.service.ts:55 | skip is never negative and counts exactly the `page - 1` full pages before the requested one (a multiple of `limit`, quotient `page - 1`) |
| `ItemTable.TotalPages` | src/app/api/src/Item/item.service.ts:88 | `totalPages * limit >= total`, `(totalPages - 1) * limit < total` when total > 0, and 0 pages for no rows |
| `ItemTable.PagesCoverListing` | src/app/api/items/route.ts:15-18 | every position of a listing is on some page no later than `totalPages`, at offset `k % limit` |
| `ItemTable.ApplyPatch` | src/app/api/src/Item/item.service.ts:134-137 | an update never changes id, owner or creation time, and keeps the image columns when the data has none |
| `ItemTable.FindOwned` | src/app/api/src/Item/item.service.ts:93-95 | `findFirst({ where: { id, userId } })` finds a row with both, and nothing exactly when there is none |
| `ItemTable.RemoveId` | src/app/api/src/Item/item.service.ts:158-160 | after `delete` the table holds exactly the rows with other ids |
| `ItemTable.ReplaceId` | src/app/api/src/Item/item.service.ts:134-137 | `update` patches the rows with that id and leaves every other row as it was |
| `ItemTable.RemoveIdRemovesOne` | src/app/api/src/Item/item.service.ts:158-160 | with distinct ids, deleting an existing row shrinks the table by exactly one |
| `ItemTable.ItemStore.Create` | src/app/api/src/Item/item.service.ts:38-45 | appends the row and keeps ids distinct |
| `ItemTable.ItemStore.Update` | src/app/api/src/Item/item.service.ts:134-137 | the table becomes the patched table and keeps ids distinct |
| `ItemTable.ItemStore.Delete` | src/app/api/src/Item/item.service.ts:158-160 | the table loses the rows with that id and keeps ids distinct |
| `ItemDtos.ValidateQuery` | src/app/api/src/Item/dtos/queryItem.dto.ts:5-33 | valid exactly when the category names a `Category` and page and limit, when given, are at least 1; page defaults to 1 and limit to 20; a failure names each broken property |
| `ItemDtos.ValidateCreateItem` | src/app/api/src/Item/dtos/createItem.dto.ts:4-23 | valid exactly when title is non-empty and category names a `Category`; color, season and notes are optional and never fail |
| `ItemDtos.CreateItemRoundTrip` | src/app/api/src/Item/dtos/createItem.dto.ts:4-23 | the fields of any DTO with a non-empty title validate back to that DTO |
| `ItemService.FormatItemWithUrls` | src/app/api/src/Item/item.service.ts:175-192 | every column but `cloudId` is kept, so the row can be rebuilt from the result and its `cloudId`; `thumbnailUrl` is the host's 300x300 URL for `cloudId` |
| `ItemService.FormatAll` | src/app/api/src/Item/item.service.ts:81 | `items.map(formatItemWithUrls)` |
| `ItemService.UpdateData` | src/app/api/src/Item/item.service.ts:119-132 | title, category, color, season and notes come from the DTO; both image columns come from the upload exactly when a file was uploaded |
| `ItemService.UpdateImageColumns` | src/app/api/src/Item/item.service.ts:119-137 | without a file the image columns stay; with one they are the upload's `secure_url` and `public_id`; `updatedAt` is the update time |
| `ItemService.ItemService.CreateItem` | src/app/api/src/Item/item.service.ts:29-48 | a failed upload creates nothing; otherwise one row with the DTO fields, the caller as owner and the upload's URL and id is appended and returned formatted |
| `ItemService.ItemService.FindAllItems` | src/app/api/src/Item/item.service.ts:50-90 | page and limit default to 1 and 20; the items are the formatted page of the filtered newest-first listing, with `count`, and `totalPages` is the ceiling of total over limit |
| `ItemService.ItemService.FindOneItem` | src/app/api/src/Item/item.service.ts:92-102 | NotFound("Item not found") exactly when the caller owns no item with that id; otherwise that item, formatted |
| `ItemService.ItemService.UpdateItem` | src/app/api/src/Item/item.service.ts:104-140 | NotFound, and a failed upload, change nothing; otherwise the row is patched, the old image is deleted from the host only when there was a new file and an old `cloudId`, and the updated row is returned |
| `ItemService.ItemService.DeleteItem` | src/app/api/src/Item/item.service.ts:142-161 | NotFound changes nothing; otherwise the image is deleted from the host when it has a `cloudId`, then the row |
| `ItemService.ItemService.GetItemsByCategory` | src/app/api/src/Item/item.service.ts:163-173 | fails with 500 exactly when the string is not a category; otherwise the formatted newest-first listing of exactly the table rows the `where` selects, as many as `count` gives, each owned by the caller and of that category |
| `ItemService.DeleteRemovesExactlyTarget` | src/app/api/src/Item/item.service.ts:142-161 | deleting an owned item shrinks the table by one, removes that item and keeps every other row |
| `ItemsRoute.Get` | src/app/api/items/route.ts:6-63 | 200 exactly when the caller is authenticated and any category names a `Category`; else 401 "Unauthorized"; page and limit default to 1 and 20; the body is the page of the filtered newest-first listing with `count` and `ceil(total/limit)` |
| `ItemsRoute.AllowedImageTypeExactly` | src/app/api/items/route.ts:94 | the anchored MIME pattern accepts exactly image/jpeg, image/jpg, image/png and image/webp |
| `ItemsRoute.CheckForm` | src/app/api/items/route.ts:78-99 | the guards run in order: required fields, then size over 5 MB, then type; each has its own message, and the form passes exactly when all three hold |
| `ItemsRoute.NullIfEmpty` | src/app/api/items/route.ts:120-122 | an empty or missing color, season or notes is stored as null |
| `ItemsRoute.Post` | src/app/api/items/route.ts:65-145 | 400 with the guard's message exactly when the caller is authenticated and the form fails; 201 exactly when the caller, form, upload and category are all good, appending the row; every other case is 500 and changes nothing |
| `ItemsRoute.SizeBoundInclusive` | src/app/api/items/route.ts:86-92 | exactly 5 MB passes, one byte more gets "File size must be less than 5MB" |
| `ImageUpload.AcceptedTypes` | src/components/ImageUpload.tsx:46 | one entry per comma-separated part, each trimmed |
| `ImageUpload.HandleFileSelect` | src/components/ImageUpload.tsx:30-56 | a null or empty list is ignored; only the first file is examined; too large comes before wrong type; selected exactly when size <= maxSize and the type equals an accepted entry |
| `ImageUpload.DefaultAcceptList` | src/components/ImageUpload.tsx:23 | the default accept string parses to the four image types |
| `ImageUpload.DefaultSizeBoundInclusive` | src/components/ImageUpload.tsx:24-43 | with the defaults, exactly 5 MB is selected and one byte more is refused |
| `ImageUpload.DropZone.HandleDrag` | src/components/ImageUpload.tsx:58-66 | dragenter and dragover highlight, dragleave clears, any other event leaves the highlight as it was |
| `ImageUpload.DropZone.HandleDrop` | src/components/ImageUpload.tsx:68-79 | a drop always clears the highlight and then does what `handleFileSelect` does |
| `UploadAgreement.ClientAndServerAgree` | src/app/api/items/route.ts:86-99 | the component with its defaults selects a file exactly when the server's size and type guards pass it |
| `OutfitStore.Select` | src/store/outfitStore.ts:46-53 | the slot holds the item; every other slot is as it was |
| `OutfitStore.Deselect` | src/store/outfitStore.ts:55-63 | the slot is empty; every other slot is as it was |
| `OutfitStore.DeselectIdempotent` | src/store/outfitStore.ts:55-63 | deselecting an empty slot changes nothing, so deselecting twice is deselecting once |
| `OutfitStore.SelectThenDeselect` | src/store/outfitStore.ts:46-63 | filling an empty slot and deselecting it gives the selection back |
| `OutfitStore.Filter` | src/store/outfitStore.ts:86-120 | a group holds exactly the input items whose lower-cased category is one of the slot's synonyms |
| `OutfitStore.FilterIsSubsequence` | src/store/outfitStore.ts:86-120 | each group keeps the input order |
| `OutfitStore.GroupItems` | src/store/outfitStore.ts:84-121 | each of the four groups is the filter for its slot |
| `OutfitStore.SynonymsDisjoint` | src/store/outfitStore.ts:86-120 | no word is a synonym of two slots |
| `OutfitStore.NoItemInTwoGroups` | src/store/outfitStore.ts:86-120 | no item lands in two groups |
| `OutfitStore.GroupedCountBounded` | src/store/outfitStore.ts:84-121 | the four groups together hold no more items than the input |
| `OutfitStore.OuterwearInNoGroup` | src/store/outfitStore.ts:86-120 | an item whose category lower-cases to "outerwear" is in no group |
| `OutfitStore.ServerCategoryGroups` | src/store/outfitStore.ts:86-120 | items with the server's category names land in top, bottom, shoes, accessories, or nowhere for OUTERWEAR |
| `OutfitStore.OutfitStore.SelectItem` | src/store/outfitStore.ts:46-53 | only the selection changes |
| `OutfitStore.OutfitStore.DeselectItem` | src/store/outfitStore.ts:55-63 | only the selection changes |
| `OutfitStore.OutfitStore.ConfirmTodaysOutfit` | src/store/outfitStore.ts:65-70 | today's outfit becomes the current selection; nothing else changes |
| `OutfitStore.OutfitStore.ResetTodaysOutfit` | src/store/outfitStore.ts:72-76 | today's outfit becomes null; nothing else changes |
| `OutfitStore.OutfitStore.ResetCurrentSelection` | src/store/outfitStore.ts:78-82 | the selection becomes empty; nothing else changes |
| `OutfitStore.OutfitStore.SetAvailableItems` | src/store/outfitStore.ts:84-126 | the groups are recomputed from the items; selection and today's outfit are untouched |
| `OutfitStore.OutfitStore.SetLoading` | src/store/outfitStore.ts:128-130 | only `isLoading` changes |
| `OutfitStore.OutfitStore.SetError` | src/store/outfitStore.ts:132-134 | only `error` changes |
| `ApiClient.AttachToken` | src/lib/api.ts:27-37 | a non-empty token sets "Bearer <token>"; otherwise the config is unchanged |
| `ApiClient.AttachedHeaderParses` | src/lib/api.ts:29-31 | the header the client attaches parses back to the same token in the server's bearer parsing |
| `ApiClient.ApiClient.SetAccessToken` | src/lib/api.ts:10-12 | the stored token becomes the given one |
| `ApiClient.ApiClient.SetThenGet` | src/lib/api.ts:7-14 | `getAccessToken` returns the last value set |
| `ApiClient.ApiClient.Outgoing` | src/lib/api.ts:27-37 | a request goes out with the stored token attached when there is one |
| `ApiClient.ApiClient.OnResponseError` | src/lib/api.ts:40-72 | only a 401 on a request not yet retried refreshes, marking it retried first; success stores the new token and replays with "Bearer <new>"; failure clears the token and rejects with the refresh error; everything else is rejected unchanged |
| `ApiClient.ReplyOf` | src/lib/api.ts:17-24 | `axios.create` keeps the default `validateStatus`: a reply resolves exactly when its status is 2xx |
| `ApiClient.Outcome` | src/lib/api.ts:40-72 | a call succeeds exactly when its first reply resolves, or it is a 401, the refresh succeeds and the replay resolves; the value is that reply's; a failure carries the refresh's error after a failed refresh, else the failing reply's message |
| `ApiClient.TokenAfter` | src/lib/api.ts:45-67 | a call leaves the module token alone unless its first reply is a 401, which replaces it with the refreshed token or clears it |
| `ApiClient.RefreshCount` | src/lib/api.ts:45-54 | a call posts to the refresh endpoint at most once, and exactly when its first reply is a 401 |
| `ApiClient.SettledTokenAgrees` | src/lib/api.ts:45-67 | for every call: after a refresh the token is set exactly when the refresh succeeded; a call that succeeds after a refresh leaves the refreshed token; a call that loses a held token fails with the refresh's error |
| `ApiClient.NonSuccessWithoutRefresh` | src/lib/api.ts:17-24 | a 302 or 304 answer is rejected with its own message and causes no refresh |
| `ApiClient.UnauthorizedReportsRefreshError` | src/lib/api.ts:62-67 | a first 401 whose refresh fails is rejected with the refresh's error, not the 401's |
| `ApiClient.ApiClient.Send` | src/lib/api.ts:40-72 | a call through both interceptors settles to `Outcome`, leaves the module token as `TokenAfter` says and adds `RefreshCount` refresh calls; a replay that fails again is rejected with its own error |
| `AuthStore.ErrorMessage` | src/store/authStore.ts:57 | the server's message when it is non-empty, the fallback otherwise |
| `AuthStore.AuthStore.SignIn` | src/store/authStore.ts:37-94 | both calls go through the client: success exactly when both settle to success, storing the profile user and the answered token; failure records the settled error's message (the refresh's after a 401), rethrows and leaves user, store token and `isAuthenticated` as they were; the client token and refresh count follow each call's `TokenAfter` and `RefreshCount` |
| `AuthStore.AuthStore.Login` | src/store/authStore.ts:37-64 | as `SignIn`, with the fallback "Login failed" |
| `AuthStore.AuthStore.Register` | src/store/authStore.ts:66-94 | as `SignIn`, with the fallback "Registration failed" |
| `AuthStore.AuthStore.Logout` | src/store/authStore.ts:96-110 | clears user, token, `isAuthenticated` and the client token whatever the server answered; the logout call may make one refresh |
| `AuthStore.AuthStore.RefreshAuth` | src/store/authStore.ts:112-137 | both calls go through the client; success stores the profile user and the token the refresh call answered, while the client keeps the token a 401 on the profile call refreshed to; any failure clears the session and the client token and rethrows the settled error |
| `AuthStore.AuthStore.ClearAuth` | src/store/authStore.ts:139-146 | clears user, token, `isAuthenticated` and the client token, nothing else |
| `AuthStore.AuthStore.InitializeAuth` | src/store/authStore.ts:148-159 | always ends with `isLoading` false and `isInitialized` true; authenticated exactly when the refresh and profile calls both settle to success |
| `AuthStore.AuthStore.ClearError` | src/store/authStore.ts:161-163 | only `error` changes |

## Left out

- Cryptography. JWT signing, verification, expiry, and argon2 hashing and
  verification are abstract function values. Their properties are
  hypotheses (`Sound`, `SecretsSeparate`, `HashVerifies`), not proofs.
- Image hosting. Cloudinary upload is an input: the upload result, or a
  failure. `getImageUrl` is an uninterpreted function. A failing
  `deleteImage` is not modelled.
- Concurrency and asynchrony.
  - The `Promise.all` of `findMany`/`count` and of the two signatures is
    sequential here.
  - src/lib/token-manager.ts, single-flight sharing of one refresh among
    concurrent callers, is not part of this model.
- UI and side effects.
  - Rendering, the camera, router redirects, `window.location`, `alert`
    texts and console logging.
  - `ImageUpload.HandleFileSelect` reports a rejection by kind, not by its
    alert text.
- Number parsing. `parseInt` producing NaN, and page or limit values below
  1 in the Next.js listing, are excluded.
  - `ItemsRoute.Get` requires page and limit of at least 1 when given.
  - The NestJS DTO reports values below 1 as validation errors.
- Library predicates. The DTO library's `IsEmail`, the auth DTOs' password
  length rule, and the NestJS item controller's file validators are not
  part of this model. The same size and type rules are modelled from the
  Next.js route.
- UpdateItemDto. src/app/api/src/Item/dtos/updateItem.dto.ts is not part of
  this model. `ItemDtos.UpdateItemDto` takes each `CreateItemDto` field as
  optional.
- Text matching. Case-insensitive matching and `toLowerCase` change only
  ASCII letters; `trim` knows a fixed set of white-space characters.
- OutfitStore.Filter: lower-cases ASCII letters only, where
  `toLowerCase` follows full Unicode case mapping.
- ItemTable.SortNewestFirst: rows with equal `createdAt` keep table order;
  the database promises no order for ties.
- Cookie lifetime. Both back ends pass `maxAge = 7*24*60*60*1000`.
  - Express reads that number as milliseconds (seven days).
  - Next.js cookies read it as seconds, about 19 years.
  - The model records the number the code passes.
- Orphaned uploads. In the Next.js `POST`, the upload happens before the
  category is checked. An invalid category therefore answers 500 after the
  image has been uploaded. The model keeps that order, but it does not
  track the upload.
- ApiClient.ApiClient.Send: follows one request through at most two
  replies. The refresh endpoint's own answer is an input, and a missing or
  malformed `accessToken` in a 2xx body is not modelled.
- Exceptions. Database and library exceptions are not modelled. These are
  Prisma failures, including a JSON field that is not a string; `argon2`
  failures on a malformed stored hash; and a throwing `jwt.sign`. What the
  source answers depends on the handler's catch-all.
  - 500: the Next.js login (src/app/api/auth/login/route.ts:66-71), items
    `POST` (src/app/api/items/route.ts:138-143), items/[id] `PUT` and
    `DELETE` (not part of this model), and the NestJS paths outside
    `refreshTokens`.
  - 401: the Next.js refresh (with the cookie deleted), me (through
    `getUserFromToken`, src/lib/auth.ts:91-93), items `GET`, items/[id]
    `GET` and items/category (neither part of this model), and the NestJS
    `refreshTokens`
    (src/app/api/src/auth/auth.service.ts:102-104, "Invalid refresh
    token").
  - For the refresh, me and items `GET` handlers, which are modelled, the
    model's existing 401 answer is the one the source gives for such an
    exception.
- LoginRoute.Login: answers 500 exactly on an unreadable body. The source
  also answers 500 when Prisma, `argon2` or `jwt` throw, which the model
  does not capture.
- Health check, app and module wiring, and type-only files are not part of
  this model.
