/** The Next.js `/api/items` handlers: `GET` lists the caller's items with
    the same filter and paging as the NestJS service, `POST` validates a
    multipart form, uploads the image and inserts a row. */
module ItemsRoute {

  import opened Wrappers
  import opened Http
  import opened UserTable
  import opened AuthLib
  import opened ItemTable

  const ThumbnailTransformation := "w_300,h_300,c_fill"

  /** `{ ...item, thumbnailUrl }`: the whole row, `cloudId` included. */
  datatype ItemJson = ItemJson(item: WardrobeItem, thumbnailUrl: string)

  datatype ItemsBody =
    | Page(items: seq<ItemJson>, total: nat, page: int, limit: int, totalPages: nat)
    | Created(item: ItemJson)
    | Error(error: string)

  function ToJson(items: seq<WardrobeItem>, urlFor: (string, string) -> string): (r: seq<ItemJson>)
    ensures |r| == |items|
    ensures forall k :: 0 <= k < |items| ==>
      r[k].item == items[k] && r[k].thumbnailUrl == urlFor(items[k].cloudId, ThumbnailTransformation)
  {
    seq(|items|, k requires 0 <= k < |items| => ItemJson(items[k], urlFor(items[k].cloudId, ThumbnailTransformation)))
  }

  /** The query string. `page` and `limit` are the parsed integers, `None`
      when the parameter is absent or empty. */
  datatype SearchParams = SearchParams(
    category: Option<string>,
    color: Option<string>,
    season: Option<string>,
    search: Option<string>,
    page: Option<int>,
    limit: Option<int>)

  const DefaultPage := 1
  const DefaultLimit := 20

  function Unauthorized401(): Response<ItemsBody> {
    Response(401, ItemsBody.Error("Unauthorized"), KeepCookie)
  }

  /** `GET`: any failure, an unknown category included (the query is
      rejected by the database client), answers 401 "Unauthorized". */
  method Get(header: Option<string>, jwt: Jwt, users: seq<User>, params: SearchParams,
             store: ItemStore, urlFor: (string, string) -> string)
    returns (r: Response<ItemsBody>)
    requires params.page.Some? ==> params.page.value >= 1
    requires params.limit.Some? ==> params.limit.value >= 1
    ensures r.cookie == KeepCookie
    ensures r.status == 200 || r == Unauthorized401()
    ensures r.status == 200 <==>
      GetUserFromToken(header, jwt, users).Success? &&
      (Truthy(params.category) ==> ParseCategory(params.category.value).Some?)
    ensures r.status == 200 ==>
      var page := params.page.GetOr(DefaultPage);
      var limit := params.limit.GetOr(DefaultLimit);
      var w := ListingFilter(GetUserFromToken(header, jwt, users).value.id,
                             params.category, params.color, params.season, params.search);
      && r.body.Page?
      && r.body.items == ToJson(FindMany(store.rows, w, Skip(page, limit), limit), urlFor)
      && r.body.total == Count(store.rows, w)
      && r.body.page == page && r.body.limit == limit
      && r.body.totalPages == TotalPages(r.body.total, limit)
  {
    var user := GetUserFromToken(header, jwt, users);
    if user.Failure? {
      return Unauthorized401();
    }
    var page := params.page.GetOr(DefaultPage);
    var limit := params.limit.GetOr(DefaultLimit);
    var skip := Skip(page, limit);
    var where := Where(user.value.id, None, None, None, None);
    if Truthy(params.category) {
      where := where.(category := params.category);
    }
    if Truthy(params.color) {
      where := where.(color := params.color);
    }
    if Truthy(params.season) {
      where := where.(season := params.season);
    }
    if Truthy(params.search) {
      where := where.(search := params.search);
    }
    if !Runnable(where) {
      return Unauthorized401();
    }
    var items := FindMany(store.rows, where, skip, limit);
    var total := Count(store.rows, where);
    r := Response(200, Page(ToJson(items, urlFor), total, page, limit, TotalPages(total, limit)), KeepCookie);
  }

  /** The `image` part of the form. */
  datatype ImageFile = ImageFile(size: int, mimeType: string)

  datatype ItemForm = ItemForm(
    title: Option<string>,
    category: Option<string>,
    color: Option<string>,
    season: Option<string>,
    notes: Option<string>,
    image: Option<ImageFile>)

  const MaxImageSize := 5 * 1024 * 1024
  const ImagePrefix := "image/"
  const RequiredMessage := "Title, category, and image are required"
  const SizeMessage := "File size must be less than 5MB"
  const TypeMessage := "Only JPEG, PNG, and WebP images are allowed"

  /** `/^image\/(jpeg|jpg|png|webp)$/`, anchored at both ends. */
  predicate AllowedImageType(t: string) {
    |t| >= |ImagePrefix| && t[..|ImagePrefix|] == ImagePrefix &&
    t[|ImagePrefix|..] in ["jpeg", "jpg", "png", "webp"]
  }

  /** The pattern accepts exactly four MIME types. */
  lemma AllowedImageTypeExactly(t: string)
    ensures AllowedImageType(t) <==> t in ["image/jpeg", "image/jpg", "image/png", "image/webp"]
  {
    if AllowedImageType(t) {
      var rest := t[|ImagePrefix|..];
      assert t == ImagePrefix + rest;
      if rest == "jpeg" {
        assert t == "image/jpeg";
      } else if rest == "jpg" {
        assert t == "image/jpg";
      } else if rest == "png" {
        assert t == "image/png";
      } else {
        assert t == "image/webp";
      }
    } else {
      forall full | full in ["image/jpeg", "image/jpg", "image/png", "image/webp"]
        ensures AllowedImageType(full)
      {
        assert full[..|ImagePrefix|] == ImagePrefix;
      }
    }
  }

  /** The guard chain of `POST`: required fields, then size, then type.
      `None` lets the request through. */
  function CheckForm(form: ItemForm): (r: Option<string>)
    ensures r.None? <==>
      Truthy(form.title) && Truthy(form.category) && form.image.Some? &&
      form.image.value.size <= MaxImageSize && AllowedImageType(form.image.value.mimeType)
    ensures !(Truthy(form.title) && Truthy(form.category) && form.image.Some?) ==>
      r == Some(RequiredMessage)
    ensures (Truthy(form.title) && Truthy(form.category) && form.image.Some? &&
             form.image.value.size > MaxImageSize) ==> r == Some(SizeMessage)
    ensures (Truthy(form.title) && Truthy(form.category) && form.image.Some? &&
             form.image.value.size <= MaxImageSize && !AllowedImageType(form.image.value.mimeType)) ==>
      r == Some(TypeMessage)
  {
    if !Truthy(form.title) || !Truthy(form.category) || form.image.None? then Some(RequiredMessage)
    else if form.image.value.size > MaxImageSize then Some(SizeMessage)
    else if !AllowedImageType(form.image.value.mimeType) then Some(TypeMessage)
    else None
  }

  /** `value || null`: an empty string is stored as null. */
  function NullIfEmpty(v: Option<string>): (r: Option<string>)
    ensures r.Some? <==> Truthy(v)
    ensures r.Some? ==> r == v
  {
    if Truthy(v) then v else None
  }

  /** The row `POST` inserts. */
  function NewRow(form: ItemForm, category: Category, userId: string, publicId: string,
                  secureUrl: string, newId: string, now: int): WardrobeItem
    requires form.title.Some?
  {
    WardrobeItem(newId, userId, form.title.value, category,
      NullIfEmpty(form.color), NullIfEmpty(form.season), NullIfEmpty(form.notes),
      secureUrl, publicId, now, now)
  }

  /** `POST`. `upload` is the image host's answer (`None` when it fails).
      Every exception, a failed authentication included, answers 500. */
  method Post(header: Option<string>, jwt: Jwt, users: seq<User>, form: ItemForm,
              upload: Option<(string, string)>, newId: string, now: int,
              store: ItemStore, urlFor: (string, string) -> string)
    returns (r: Response<ItemsBody>)
    requires store.Valid()
    requires forall x :: x in store.rows ==> x.id != newId
    modifies store
    ensures store.Valid()
    ensures r.cookie == KeepCookie
    ensures r.status in {201, 400, 500}
    ensures GetUserFromToken(header, jwt, users).Failure? ==> r.status == 500
    ensures r.status == 400 <==> GetUserFromToken(header, jwt, users).Success? && CheckForm(form).Some?
    ensures r.status == 400 ==> r.body == ItemsBody.Error(CheckForm(form).value)
    ensures r.status == 500 ==> r.body == ItemsBody.Error("Internal server error")
    ensures r.status == 201 <==>
      && GetUserFromToken(header, jwt, users).Success?
      && CheckForm(form).None?
      && upload.Some?
      && ParseCategory(form.category.value).Some?
    ensures r.status != 201 ==> store.rows == old(store.rows)
    ensures r.status == 201 ==>
      var row := NewRow(form, ParseCategory(form.category.value).value,
                        GetUserFromToken(header, jwt, users).value.id,
                        upload.value.0, upload.value.1, newId, now);
      && store.rows == old(store.rows) + [row]
      && r.body == Created(ItemJson(row, urlFor(row.cloudId, ThumbnailTransformation)))
  {
    var user := GetUserFromToken(header, jwt, users);
    if user.Failure? {
      return Response(500, ItemsBody.Error("Internal server error"), KeepCookie);
    }
    var invalid := CheckForm(form);
    if invalid.Some? {
      return Response(400, ItemsBody.Error(invalid.value), KeepCookie);
    }
    if upload.None? {
      return Response(500, ItemsBody.Error("Internal server error"), KeepCookie);
    }
    var category := ParseCategory(form.category.value);
    if category.None? {
      return Response(500, ItemsBody.Error("Internal server error"), KeepCookie);
    }
    var row := NewRow(form, category.value, user.value.id, upload.value.0, upload.value.1, newId, now);
    store.Create(row);
    r := Response(201, Created(ItemJson(row, urlFor(row.cloudId, ThumbnailTransformation))), KeepCookie);
  }

  /** The size bound is inclusive: exactly 5 MB of an allowed type passes the
      guards, one byte more does not. */
  lemma SizeBoundInclusive(title: string, category: string, mimeType: string)
    requires title != "" && category != "" && AllowedImageType(mimeType)
    ensures CheckForm(ItemForm(Some(title), Some(category), None, None, None,
                               Some(ImageFile(MaxImageSize, mimeType)))).None?
    ensures CheckForm(ItemForm(Some(title), Some(category), None, None, None,
                               Some(ImageFile(MaxImageSize + 1, mimeType)))) == Some(SizeMessage)
  {
  }
}
