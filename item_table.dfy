/** The `wardrobeItem` table both back ends query through Prisma: its rows,
    the `where` filter they build, `orderBy: { createdAt: 'desc' }`,
    `skip`/`take` paging, `count`, and the row updates. */
module ItemTable {

  import opened Wrappers
  import opened Strings

  /** The Prisma `Category` enum. */
  datatype Category = TOP | BOTTOM | OUTERWEAR | FOOTWEAR | ACCESSORY

  function CategoryName(c: Category): string {
    match c
    case TOP => "TOP"
    case BOTTOM => "BOTTOM"
    case OUTERWEAR => "OUTERWEAR"
    case FOOTWEAR => "FOOTWEAR"
    case ACCESSORY => "ACCESSORY"
  }

  /** The enum check Prisma and `@IsEnum(Category)` apply to a string. */
  function ParseCategory(s: string): (r: Option<Category>)
    ensures r.Some? ==> CategoryName(r.value) == s
    ensures r.None? <==> forall c :: CategoryName(c) != s
  {
    if s == "TOP" then Some(TOP)
    else if s == "BOTTOM" then Some(BOTTOM)
    else if s == "OUTERWEAR" then Some(OUTERWEAR)
    else if s == "FOOTWEAR" then Some(FOOTWEAR)
    else if s == "ACCESSORY" then Some(ACCESSORY)
    else None
  }

  /** A row. `color`, `season` and `notes` are nullable; `cloudId` is the
      Cloudinary public id of the image, and `""` stands for a row without
      one (the column may be empty or null, which `deleteItem` tests for). */
  datatype WardrobeItem = WardrobeItem(
    id: string,
    userId: string,
    title: string,
    category: Category,
    color: Option<string>,
    season: Option<string>,
    notes: Option<string>,
    imageUrl: string,
    cloudId: string,
    createdAt: int,
    updatedAt: int)

  /** The `where` object: `userId` always, each other key only when the
      handler added it. `category` is the string the handler passed; Prisma
      rejects one that is not an enum value. */
  datatype Where = Where(
    userId: string,
    category: Option<string>,
    color: Option<string>,
    season: Option<string>,
    search: Option<string>)

  /** The query runs at all (otherwise Prisma throws a validation error). */
  predicate Runnable(w: Where) {
    w.category.Some? ==> ParseCategory(w.category.value).Some?
  }

  /** Whether a row satisfies `w`: equality on userId, category and season,
      case-insensitive containment on color, and for `search` an `OR` of
      containment in title or notes. */
  predicate Matches(w: Where, it: WardrobeItem) {
    && it.userId == w.userId
    && (w.category.Some? ==> CategoryName(it.category) == w.category.value)
    && (w.color.Some? ==> ContainsInsensitive(it.color, w.color.value))
    && (w.season.Some? ==> it.season == Some(w.season.value))
    && (w.search.Some? ==>
          ContainsInsensitive(Some(it.title), w.search.value) || ContainsInsensitive(it.notes, w.search.value))
  }

  /** The rows `w` selects, in table order. */
  function Select(rows: seq<WardrobeItem>, w: Where): (r: seq<WardrobeItem>)
    ensures |r| <= |rows|
    ensures forall x :: x in r <==> x in rows && Matches(w, x)
    ensures multiset(r) <= multiset(rows)
  {
    if rows == [] then []
    else
      assert rows == [rows[0]] + rows[1..];
      if Matches(w, rows[0]) then [rows[0]] + Select(rows[1..], w) else Select(rows[1..], w)
  }

  /** `Select` keeps every matching row as often as the table holds it
      and drops every other. */
  lemma {:induction false} SelectMultiplicity(rows: seq<WardrobeItem>, w: Where, x: WardrobeItem)
    ensures multiset(Select(rows, w))[x] == (if Matches(w, x) then multiset(rows)[x] else 0)
  {
    if rows != [] {
      assert rows == [rows[0]] + rows[1..];
      SelectMultiplicity(rows[1..], w, x);
    }
  }

  /** `orderBy: { createdAt: 'desc' }`. */
  ghost predicate NewestFirst(s: seq<WardrobeItem>) {
    forall i, j :: 0 <= i < j < |s| ==> s[i].createdAt >= s[j].createdAt
  }

  function Insert(x: WardrobeItem, s: seq<WardrobeItem>): (r: seq<WardrobeItem>)
    requires NewestFirst(s)
    ensures NewestFirst(r)
    ensures multiset(r) == multiset(s) + multiset{x}
  {
    if s == [] || x.createdAt >= s[0].createdAt then
      PrependNewest(x, s);
      [x] + s
    else
      var tail := Insert(x, s[1..]);
      assert s == [s[0]] + s[1..];
      BoundedByNewest(s);
      AllNoNewerThan(tail, s[1..], x, s[0].createdAt);
      PrependNewest(s[0], tail);
      [s[0]] + tail
  }

  /** An element no older than the head of a newest-first listing can go in
      front of it. */
  lemma PrependNewest(h: WardrobeItem, t: seq<WardrobeItem>)
    requires NewestFirst(t)
    requires t != [] ==> t[0].createdAt <= h.createdAt
    ensures NewestFirst([h] + t)
  {
    var r := [h] + t;
    forall i, j | 0 <= i < j < |r| ensures r[i].createdAt >= r[j].createdAt {
      if i == 0 {
        assert r[j] == t[j - 1];
        assert t[0].createdAt >= t[j - 1].createdAt;
      } else {
        assert r[i] == t[i - 1] && r[j] == t[j - 1];
      }
    }
  }

  /** In a newest-first listing, nothing after the head is newer than it. */
  lemma BoundedByNewest(s: seq<WardrobeItem>)
    requires NewestFirst(s) && s != []
    ensures forall y :: y in s[1..] ==> y.createdAt <= s[0].createdAt
  {
    forall y | y in s[1..] ensures y.createdAt <= s[0].createdAt {
      var m :| 0 <= m < |s[1..]| && s[1..][m] == y;
      assert s[m + 1] == y;
    }
  }

  /** The elements of `t` are those of `s` and `x`; if none of those is newer
      than `bound`, neither is the head of `t`. */
  lemma AllNoNewerThan(t: seq<WardrobeItem>, s: seq<WardrobeItem>, x: WardrobeItem, bound: int)
    requires multiset(t) == multiset(s) + multiset{x}
    requires forall y :: y in s ==> y.createdAt <= bound
    requires x.createdAt <= bound
    ensures t != [] ==> t[0].createdAt <= bound
  {
    if t != [] {
      assert t[0] in multiset(t);
      if t[0] != x {
        assert t[0] in multiset(s);
      }
    }
  }

  /** Insertion sort on `createdAt`, newest first; rows with equal
      timestamps keep table order. */
  function SortNewestFirst(s: seq<WardrobeItem>): (r: seq<WardrobeItem>)
    ensures NewestFirst(r)
    ensures multiset(r) == multiset(s)
    ensures |r| == |s|
  {
    if s == [] then []
    else
      assert s == [s[0]] + s[1..];
      Insert(s[0], SortNewestFirst(s[1..]))
  }

  function Min(a: int, b: int): int { if a <= b then a else b }

  /** `skip`/`take`: the slice after the first `skip` elements, at most
      `take` long. */
  function Window<T>(s: seq<T>, skip: nat, take: nat): (r: seq<T>)
    ensures |r| <= take
    ensures skip >= |s| ==> r == []
    ensures skip < |s| ==> |r| == Min(take, |s| - skip)
    ensures forall k :: 0 <= k < |r| ==> r[k] == s[skip + k]
  {
    if skip >= |s| then [] else s[skip..Min(skip + take, |s|)]
  }

  /** `findMany({ where, skip, take, orderBy: { createdAt: 'desc' } })`. */
  function FindMany(rows: seq<WardrobeItem>, w: Where, skip: nat, take: nat): seq<WardrobeItem> {
    Window(SortNewestFirst(Select(rows, w)), skip, take)
  }

  /** `count({ where })`. */
  function Count(rows: seq<WardrobeItem>, w: Where): nat {
    |Select(rows, w)|
  }

  /** A page holds at most `take` rows, every one of them a row of the table
      that satisfies the filter, newest first. */
  lemma FindManyIsFilteredPage(rows: seq<WardrobeItem>, w: Where, skip: nat, take: nat)
    ensures var page := FindMany(rows, w, skip, take);
      && |page| <= take
      && |page| <= Count(rows, w)
      && (forall x :: x in page ==> x in rows && Matches(w, x))
      && NewestFirst(page)
  {
    var sorted := SortNewestFirst(Select(rows, w));
    var page := FindMany(rows, w, skip, take);
    forall x | x in page ensures x in rows && Matches(w, x) {
      var k :| 0 <= k < |page| && page[k] == x;
      assert sorted[skip + k] == x;
      assert x in multiset(sorted);
    }
  }

  /** The `where` both listing handlers build: `userId` always, and each
      optional key only when its parameter is truthy (non-empty). */
  function ListingFilter(userId: string, category: Option<string>, color: Option<string>,
                         season: Option<string>, search: Option<string>): (w: Where)
    ensures w.userId == userId
    ensures w.category.Some? <==> Truthy(category)
    ensures w.color.Some? <==> Truthy(color)
    ensures w.season.Some? <==> Truthy(season)
    ensures w.search.Some? <==> Truthy(search)
    ensures w.category.Some? ==> w.category == category
    ensures w.color.Some? ==> w.color == color
    ensures w.season.Some? ==> w.season == season
    ensures w.search.Some? ==> w.search == search
  {
    Where(userId,
      if Truthy(category) then category else None,
      if Truthy(color) then color else None,
      if Truthy(season) then season else None,
      if Truthy(search) then search else None)
  }

  /** Every row of a listing page belongs to the caller and passes each
      filter whose parameter was non-empty: equality on category and season,
      case-insensitive containment on color, and on title or notes for the
      search text. An empty parameter filters nothing. */
  lemma ListedRowsMatch(rows: seq<WardrobeItem>, userId: string, category: Option<string>,
                        color: Option<string>, season: Option<string>, search: Option<string>,
                        skip: nat, take: nat, x: WardrobeItem)
    requires x in FindMany(rows, ListingFilter(userId, category, color, season, search), skip, take)
    ensures x in rows && x.userId == userId
    ensures Truthy(category) ==> CategoryName(x.category) == category.value
    ensures Truthy(season) ==> x.season == season
    ensures Truthy(color) ==> ContainsInsensitive(x.color, color.value)
    ensures Truthy(search) ==>
      ContainsInsensitive(Some(x.title), search.value) || ContainsInsensitive(x.notes, search.value)
  {
    FindManyIsFilteredPage(rows, ListingFilter(userId, category, color, season, search), skip, take);
  }

  /** A multiple of `d` divides back exactly. */
  lemma MultipleOf(q: nat, d: int)
    requires d >= 1
    ensures (q * d) % d == 0 && (q * d) / d == q
  {
    var a := q * d;
    var k := q - a / d;
    assert a == (a / d) * d + a % d;
    assert k * d == a % d;
    if k >= 1 {
      assert false;
    } else if k <= -1 {
      assert false;
    }
  }

  /** `skip = (page - 1) * limit`: the rows of the `page - 1` full pages
      before the requested one. */
  function Skip(page: int, limit: int): (r: int)
    requires page >= 1 && limit >= 1
    ensures r >= 0
    ensures r % limit == 0 && r / limit == page - 1
  {
    MultipleOf(page - 1, limit);
    (page - 1) * limit
  }

  /** `Math.ceil(total / limit)`, computed on integers. */
  function TotalPages(total: nat, limit: int): (r: nat)
    requires limit >= 1
    ensures r * limit >= total
    ensures total > 0 ==> (r - 1) * limit < total
    ensures total == 0 ==> r == 0
  {
    var q := (total + limit - 1) / limit;
    assert q * limit + (total + limit - 1) % limit == total + limit - 1;
    q
  }

  /** The pages partition the listing: the element at position `k` is on
      page `k / limit + 1`, which is no later than the last page, at
      offset `k % limit`. */
  lemma PagesCoverListing<T>(s: seq<T>, limit: int, k: nat)
    requires limit >= 1 && k < |s|
    ensures var page := k / limit + 1;
      && 1 <= page <= TotalPages(|s|, limit)
      && k % limit < |Window(s, Skip(page, limit), limit)|
      && Window(s, Skip(page, limit), limit)[k % limit] == s[k]
  {
    var page := k / limit + 1;
    var q, m := k / limit, k % limit;
    assert k == q * limit + m;
    assert Skip(page, limit) == q * limit;
  }

  /** The Prisma `update` data: keys that are present overwrite the row. */
  datatype ItemPatch = ItemPatch(
    title: Option<string>,
    category: Option<Category>,
    color: Option<string>,
    season: Option<string>,
    notes: Option<string>,
    imageUrl: Option<string>,
    cloudId: Option<string>)

  function Override<T>(old_: T, patch: Option<T>): T {
    match patch
    case Some(v) => v
    case None => old_
  }

  /** The row after `update({ data: patch })` at time `now`. */
  function ApplyPatch(it: WardrobeItem, patch: ItemPatch, now: int): (r: WardrobeItem)
    ensures r.id == it.id && r.userId == it.userId && r.createdAt == it.createdAt
    ensures patch.imageUrl.None? ==> r.imageUrl == it.imageUrl
    ensures patch.cloudId.None? ==> r.cloudId == it.cloudId
  {
    it.(
      title := Override(it.title, patch.title),
      category := Override(it.category, patch.category),
      color := if patch.color.Some? then patch.color else it.color,
      season := if patch.season.Some? then patch.season else it.season,
      notes := if patch.notes.Some? then patch.notes else it.notes,
      imageUrl := Override(it.imageUrl, patch.imageUrl),
      cloudId := Override(it.cloudId, patch.cloudId),
      updatedAt := now)
  }

  /** Primary-key uniqueness. */
  ghost predicate IdsDistinct(rows: seq<WardrobeItem>) {
    forall i, j :: 0 <= i < j < |rows| ==> rows[i].id != rows[j].id
  }

  /** `findFirst({ where: { id, userId } })`. */
  function FindOwned(rows: seq<WardrobeItem>, id: string, userId: string): (r: Option<WardrobeItem>)
    ensures r.Some? ==> r.value in rows && r.value.id == id && r.value.userId == userId
    ensures r.None? <==> forall x :: x in rows ==> !(x.id == id && x.userId == userId)
  {
    if rows == [] then None
    else if rows[0].id == id && rows[0].userId == userId then Some(rows[0])
    else FindOwned(rows[1..], id, userId)
  }

  /** `delete({ where: { id } })`. */
  function RemoveId(rows: seq<WardrobeItem>, id: string): (r: seq<WardrobeItem>)
    ensures forall x :: x in r <==> x in rows && x.id != id
    ensures |r| <= |rows|
  {
    if rows == [] then []
    else if rows[0].id == id then RemoveId(rows[1..], id)
    else [rows[0]] + RemoveId(rows[1..], id)
  }

  /** `update({ where: { id }, data })`. */
  function ReplaceId(rows: seq<WardrobeItem>, id: string, patch: ItemPatch, now: int): (r: seq<WardrobeItem>)
    ensures |r| == |rows|
    ensures forall k :: 0 <= k < |rows| ==>
      r[k] == if rows[k].id == id then ApplyPatch(rows[k], patch, now) else rows[k]
  {
    if rows == [] then []
    else [if rows[0].id == id then ApplyPatch(rows[0], patch, now) else rows[0]]
         + ReplaceId(rows[1..], id, patch, now)
  }

  /** Deleting an existing row shrinks the table by exactly one. */
  lemma {:induction false} RemoveIdRemovesOne(rows: seq<WardrobeItem>, it: WardrobeItem)
    requires IdsDistinct(rows) && it in rows
    ensures |RemoveId(rows, it.id)| == |rows| - 1
  {
    if rows[0] == it {
      NoOtherWithId(rows[1..], it.id, rows);
    } else {
      assert it in rows[1..];
      DistinctTail(rows);
      RemoveIdRemovesOne(rows[1..], it);
    }
  }

  lemma DistinctTail(rows: seq<WardrobeItem>)
    requires IdsDistinct(rows) && rows != []
    ensures IdsDistinct(rows[1..])
  {
    forall i, j | 0 <= i < j < |rows[1..]| ensures rows[1..][i].id != rows[1..][j].id {
      assert rows[1..][i] == rows[i + 1] && rows[1..][j] == rows[j + 1];
    }
  }

  lemma NoOtherWithId(tail: seq<WardrobeItem>, id: string, rows: seq<WardrobeItem>)
    requires IdsDistinct(rows) && rows != [] && rows[0].id == id && tail == rows[1..]
    ensures RemoveId(tail, id) == tail
  {
    assert forall x :: x in tail ==> x.id != id;
    RemoveNothing(tail, id);
  }

  lemma {:induction false} RemoveNothing(rows: seq<WardrobeItem>, id: string)
    requires forall x :: x in rows ==> x.id != id
    ensures RemoveId(rows, id) == rows
  {
    if rows != [] {
      RemoveNothing(rows[1..], id);
    }
  }

  /** The table object behind `prisma.wardrobeItem`. */
  class ItemStore {
    var rows: seq<WardrobeItem>

    ghost predicate Valid()
      reads this
    {
      IdsDistinct(rows)
    }

    constructor ()
      ensures Valid() && rows == []
    {
      rows := [];
    }

    /** `create({ data: item })`; the database assigns a new `id`. */
    method Create(item: WardrobeItem)
      requires Valid()
      requires forall x :: x in rows ==> x.id != item.id
      modifies this
      ensures Valid()
      ensures rows == old(rows) + [item]
    {
      rows := rows + [item];
    }

    method Update(id: string, patch: ItemPatch, now: int)
      requires Valid()
      modifies this
      ensures Valid()
      ensures rows == ReplaceId(old(rows), id, patch, now)
    {
      rows := ReplaceId(rows, id, patch, now);
    }

    method Delete(id: string)
      requires Valid()
      modifies this
      ensures Valid()
      ensures rows == RemoveId(old(rows), id)
    {
      RemoveKeepsDistinct(rows, id);
      rows := RemoveId(rows, id);
    }
  }

  lemma {:induction false} RemoveKeepsDistinct(rows: seq<WardrobeItem>, id: string)
    requires IdsDistinct(rows)
    ensures IdsDistinct(RemoveId(rows, id))
  {
    if rows != [] {
      DistinctTail(rows);
      RemoveKeepsDistinct(rows[1..], id);
    }
  }
}
