/** The NestJS `ItemService`: item CRUD scoped to the owning user, over the
    item table and the image host. Uploads are an input (`None` when the
    image host fails); deletions on the image host are recorded in
    `destroyed`; `urlFor` is the host's URL builder. */
module ItemService {

  import opened Wrappers
  import opened Http
  import opened ItemTable
  import opened ItemDtos

  /** `public_id` and `secure_url` of an upload. */
  datatype UploadResult = UploadResult(publicId: string, secureUrl: string)

  const ThumbnailTransformation := "w_300,h_300,c_fill"
  const ItemNotFound := "Item not found"
  const InternalServerError := "Internal server error"

  /** `ItemWithImageUrl`: a row without `cloudId`, plus `thumbnailUrl`. */
  datatype ItemWithImageUrl = ItemWithImageUrl(
    id: string,
    userId: string,
    title: string,
    category: Category,
    color: Option<string>,
    season: Option<string>,
    notes: Option<string>,
    createdAt: int,
    updatedAt: int,
    imageUrl: string,
    thumbnailUrl: string)

  /** The row a formatted item came from, given the `cloudId` it omits. */
  function Unformat(v: ItemWithImageUrl, cloudId: string): WardrobeItem {
    WardrobeItem(v.id, v.userId, v.title, v.category, v.color, v.season, v.notes,
      v.imageUrl, cloudId, v.createdAt, v.updatedAt)
  }

  /** `formatItemWithUrls`: every column but `cloudId` survives, and the
      thumbnail is the host's URL for `cloudId`. */
  function FormatItemWithUrls(item: WardrobeItem, urlFor: (string, string) -> string): (r: ItemWithImageUrl)
    ensures Unformat(r, item.cloudId) == item
    ensures r.thumbnailUrl == urlFor(item.cloudId, ThumbnailTransformation)
  {
    ItemWithImageUrl(item.id, item.userId, item.title, item.category, item.color, item.season,
      item.notes, item.createdAt, item.updatedAt, item.imageUrl,
      urlFor(item.cloudId, ThumbnailTransformation))
  }

  function FormatAll(items: seq<WardrobeItem>, urlFor: (string, string) -> string): (r: seq<ItemWithImageUrl>)
    ensures |r| == |items|
    ensures forall k :: 0 <= k < |items| ==> r[k] == FormatItemWithUrls(items[k], urlFor)
  {
    seq(|items|, k requires 0 <= k < |items| => FormatItemWithUrls(items[k], urlFor))
  }

  datatype PaginatedItems = PaginatedItems(
    items: seq<ItemWithImageUrl>,
    total: nat,
    page: int,
    limit: int,
    totalPages: nat)

  /** The file part of an update request. */
  datatype FileOutcome = NoFile | Uploaded(result: UploadResult) | UploadFailed

  /** The `update` data: the DTO's fields, and the image columns when a file
      was uploaded. */
  function UpdateData(dto: UpdateItemDto, file: FileOutcome): (p: ItemPatch)
    requires !file.UploadFailed?
    ensures p.imageUrl == (if file.Uploaded? then Some(file.result.secureUrl) else None)
    ensures p.cloudId == (if file.Uploaded? then Some(file.result.publicId) else None)
    ensures p.title == dto.title && p.category == dto.category
    ensures p.color == dto.color && p.season == dto.season && p.notes == dto.notes
  {
    var p := ItemPatch(dto.title, dto.category, dto.color, dto.season, dto.notes, None, None);
    if file.Uploaded? then p.(imageUrl := Some(file.result.secureUrl), cloudId := Some(file.result.publicId))
    else p
  }

  /** An update without a file keeps the image; with one it points the row at
      the new upload. Identity, owner and creation time never change. */
  lemma UpdateImageColumns(it: WardrobeItem, dto: UpdateItemDto, file: FileOutcome, now: int)
    requires !file.UploadFailed?
    ensures var u := ApplyPatch(it, UpdateData(dto, file), now);
      && u.id == it.id && u.userId == it.userId && u.createdAt == it.createdAt && u.updatedAt == now
      && (file.NoFile? ==> u.imageUrl == it.imageUrl && u.cloudId == it.cloudId)
      && (file.Uploaded? ==> u.imageUrl == file.result.secureUrl && u.cloudId == file.result.publicId)
  {
  }

  class ItemService {
    const db: ItemStore
    /** Public ids passed to the image host's `deleteImage`, in call order. */
    var destroyed: seq<string>
    const urlFor: (string, string) -> string

    ghost predicate Valid()
      reads this, db
    {
      db.Valid()
    }

    constructor (db: ItemStore, urlFor: (string, string) -> string)
      requires db.Valid()
      ensures Valid() && this.db == db && this.urlFor == urlFor && destroyed == []
    {
      this.db := db;
      this.urlFor := urlFor;
      destroyed := [];
    }

    /** `createItem`: upload, then insert the DTO's fields with the caller's
        id and the image columns. */
    method CreateItem(userId: string, dto: CreateItemDto, upload: Option<UploadResult>, newId: string, now: int)
      returns (r: Result<ItemWithImageUrl, HttpException>)
      requires Valid()
      requires forall x :: x in db.rows ==> x.id != newId
      modifies db
      ensures Valid()
      ensures upload.None? ==> r == Failure(InternalError(InternalServerError)) && db.rows == old(db.rows)
      ensures upload.Some? ==>
        var row := WardrobeItem(newId, userId, dto.title, dto.category, dto.color, dto.season, dto.notes,
                                upload.value.secureUrl, upload.value.publicId, now, now);
        && db.rows == old(db.rows) + [row]
        && r == Success(FormatItemWithUrls(row, urlFor))
    {
      if upload.None? {
        return Failure(InternalError(InternalServerError));
      }
      var row := WardrobeItem(newId, userId, dto.title, dto.category, dto.color, dto.season, dto.notes,
                              upload.value.secureUrl, upload.value.publicId, now, now);
      db.Create(row);
      r := Success(FormatItemWithUrls(row, urlFor));
    }

    /** `findAllItems`: builds `where` one key at a time, then pages the
        newest-first listing. */
    method FindAllItems(userId: string, q: QueryItemDto) returns (r: PaginatedItems)
      requires ValidQuery(q)
      ensures var page := q.page.GetOr(DefaultPage);
        var limit := q.limit.GetOr(DefaultLimit);
        var w := ListingFilter(userId, if q.category.Some? then Some(CategoryName(q.category.value)) else None,
                               q.color, q.season, q.search);
        && r.page == page && r.limit == limit
        && r.total == Count(db.rows, w)
        && r.items == FormatAll(FindMany(db.rows, w, Skip(page, limit), limit), urlFor)
        && r.totalPages == TotalPages(r.total, limit)
    {
      var page := q.page.GetOr(DefaultPage);
      var limit := q.limit.GetOr(DefaultLimit);
      var skip := Skip(page, limit);
      var where := Where(userId, None, None, None, None);
      if q.category.Some? {
        where := where.(category := Some(CategoryName(q.category.value)));
      }
      if Truthy(q.color) {
        where := where.(color := q.color);
      }
      if Truthy(q.season) {
        where := where.(season := q.season);
      }
      if Truthy(q.search) {
        where := where.(search := q.search);
      }
      var items := FindMany(db.rows, where, skip, limit);
      var total := Count(db.rows, where);
      r := PaginatedItems(FormatAll(items, urlFor), total, page, limit, TotalPages(total, limit));
    }

    function FindOneItem(userId: string, itemId: string): (r: Result<ItemWithImageUrl, HttpException>)
      reads this, db
      ensures r.Failure? <==> forall x :: x in db.rows ==> !(x.id == itemId && x.userId == userId)
      ensures r.Failure? ==> r.error == NotFound(ItemNotFound)
      ensures r.Success? ==> exists x :: x in db.rows && x.id == itemId && x.userId == userId
                                         && r.value == FormatItemWithUrls(x, urlFor)
    {
      match FindOwned(db.rows, itemId, userId)
      case None => Failure(NotFound(ItemNotFound))
      case Some(item) => Success(FormatItemWithUrls(item, urlFor))
    }

    /** `updateItem`: look the row up by id and owner, upload the new image
        and delete the old one from the host if it had one, then update. */
    method UpdateItem(userId: string, itemId: string, dto: UpdateItemDto, file: FileOutcome, now: int)
      returns (r: Result<ItemWithImageUrl, HttpException>)
      requires Valid()
      modifies this, db
      ensures Valid()
      ensures FindOwned(old(db.rows), itemId, userId).None? ==>
        r == Failure(NotFound(ItemNotFound)) && db.rows == old(db.rows) && destroyed == old(destroyed)
      ensures FindOwned(old(db.rows), itemId, userId).Some? && file.UploadFailed? ==>
        r == Failure(InternalError(InternalServerError)) && db.rows == old(db.rows) && destroyed == old(destroyed)
      ensures FindOwned(old(db.rows), itemId, userId).Some? && !file.UploadFailed? ==>
        var existing := FindOwned(old(db.rows), itemId, userId).value;
        && db.rows == ReplaceId(old(db.rows), itemId, UpdateData(dto, file), now)
        && destroyed == old(destroyed) + (if file.Uploaded? && existing.cloudId != "" then [existing.cloudId] else [])
        && r == Success(FormatItemWithUrls(ApplyPatch(existing, UpdateData(dto, file), now), urlFor))
    {
      var found := FindOwned(db.rows, itemId, userId);
      if found.None? {
        return Failure(NotFound(ItemNotFound));
      }
      var existing := found.value;
      var updateData := ItemPatch(dto.title, dto.category, dto.color, dto.season, dto.notes, None, None);
      match file {
        case UploadFailed =>
          return Failure(InternalError(InternalServerError));
        case NoFile =>
        case Uploaded(upload) =>
          if existing.cloudId != "" {
            destroyed := destroyed + [existing.cloudId];
          }
          updateData := updateData.(imageUrl := Some(upload.secureUrl), cloudId := Some(upload.publicId));
      }
      ReplaceKeepsDistinct(db.rows, itemId, updateData, now);
      db.Update(itemId, updateData, now);
      r := Success(FormatItemWithUrls(ApplyPatch(existing, updateData, now), urlFor));
    }

    /** `deleteItem`: look the row up by id and owner, delete its image from
        the host if it has one, then delete the row. */
    method DeleteItem(userId: string, itemId: string) returns (r: Result<(), HttpException>)
      requires Valid()
      modifies this, db
      ensures Valid()
      ensures FindOwned(old(db.rows), itemId, userId).None? ==>
        r == Failure(NotFound(ItemNotFound)) && db.rows == old(db.rows) && destroyed == old(destroyed)
      ensures FindOwned(old(db.rows), itemId, userId).Some? ==>
        var item := FindOwned(old(db.rows), itemId, userId).value;
        && r == Success(())
        && db.rows == RemoveId(old(db.rows), itemId)
        && destroyed == old(destroyed) + (if item.cloudId != "" then [item.cloudId] else [])
    {
      var found := FindOwned(db.rows, itemId, userId);
      if found.None? {
        return Failure(NotFound(ItemNotFound));
      }
      if found.value.cloudId != "" {
        destroyed := destroyed + [found.value.cloudId];
      }
      db.Delete(itemId);
      r := Success(());
    }

    /** `getItemsByCategory`: the caller's rows of one category, newest
        first, unpaged. A string that is not a category makes the query
        fail, which Nest answers with a 500. */
    function GetItemsByCategory(userId: string, category: string): (r: Result<seq<ItemWithImageUrl>, HttpException>)
      reads this, db
      ensures r.Failure? <==> ParseCategory(category).None?
      ensures r.Failure? ==> r.error == InternalError(InternalServerError)
      ensures r.Success? ==>
        r.value == FormatAll(SortNewestFirst(Select(db.rows, Where(userId, Some(category), None, None, None))), urlFor)
      ensures r.Success? ==>
        && |r.value| == Count(db.rows, Where(userId, Some(category), None, None, None))
        && forall k :: 0 <= k < |r.value| ==>
             && r.value[k].userId == userId && CategoryName(r.value[k].category) == category
    {
      if ParseCategory(category).None? then Failure(InternalError(InternalServerError))
      else
        var w := Where(userId, Some(category), None, None, None);
        var rows := SortNewestFirst(Select(db.rows, w));
        SortedSelectionMatches(db.rows, w);
        var items := FormatAll(rows, urlFor);
        Success(items)
    }
  }

  lemma SortedSelectionMatches(rows: seq<WardrobeItem>, w: Where)
    ensures forall k :: 0 <= k < |SortNewestFirst(Select(rows, w))| ==>
      SortNewestFirst(Select(rows, w))[k] in rows && Matches(w, SortNewestFirst(Select(rows, w))[k])
  {
    var sorted := SortNewestFirst(Select(rows, w));
    forall k | 0 <= k < |sorted| ensures sorted[k] in rows && Matches(w, sorted[k]) {
      assert sorted[k] in multiset(sorted);
    }
  }

  lemma ReplaceKeepsDistinct(rows: seq<WardrobeItem>, id: string, patch: ItemPatch, now: int)
    requires IdsDistinct(rows)
    ensures IdsDistinct(ReplaceId(rows, id, patch, now))
  {
    var r := ReplaceId(rows, id, patch, now);
    forall i, j | 0 <= i < j < |r| ensures r[i].id != r[j].id {
      assert r[i].id == rows[i].id && r[j].id == rows[j].id;
    }
  }

  /** Deleting an owned item takes exactly that row out: the table shrinks
      by one, the item is gone, and every other row stays. */
  lemma DeleteRemovesExactlyTarget(rows: seq<WardrobeItem>, itemId: string, userId: string)
    requires IdsDistinct(rows) && FindOwned(rows, itemId, userId).Some?
    ensures var after := RemoveId(rows, itemId);
      && |after| == |rows| - 1
      && FindOwned(rows, itemId, userId).value !in after
      && forall x :: x in rows && x.id != itemId ==> x in after
  {
    RemoveIdRemovesOne(rows, FindOwned(rows, itemId, userId).value);
  }
}
