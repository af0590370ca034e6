/** The NestJS request DTOs for items: `QueryItemDto` (query string of the
    item listing) and `CreateItemDto` (form fields of a new item), as the
    validation pipe applies their constraints. A failure is a 400 whose
    body names the properties that broke a constraint. */
module ItemDtos {

  import opened Wrappers
  import opened ItemTable

  /** The query string after `parseInt` on `page` and `limit`; `None` is an
      absent parameter. */
  datatype RawQuery = RawQuery(
    category: Option<string>,
    color: Option<string>,
    season: Option<string>,
    search: Option<string>,
    page: Option<int>,
    limit: Option<int>)

  /** A validated query. `page` and `limit` carry their initialisers'
      defaults when the parameter was absent. */
  datatype QueryItemDto = QueryItemDto(
    category: Option<Category>,
    color: Option<string>,
    season: Option<string>,
    search: Option<string>,
    page: Option<int>,
    limit: Option<int>)

  const DefaultPage := 1
  const DefaultLimit := 20

  /** What the validation pipe guarantees about a `QueryItemDto`. */
  predicate ValidQuery(q: QueryItemDto) {
    && (q.page.Some? ==> q.page.value >= 1)
    && (q.limit.Some? ==> q.limit.value >= 1)
  }

  function CategoryError(c: Option<string>): seq<string> {
    if c.Some? && ParseCategory(c.value).None? then ["category"] else []
  }

  function AtLeastOneError(name: string, v: Option<int>): seq<string> {
    if v.Some? && v.value < 1 then [name] else []
  }

  /** Instantiates and validates a `QueryItemDto`. */
  function ValidateQuery(raw: RawQuery): (r: Result<QueryItemDto, seq<string>>)
    ensures r.Success? <==>
      && (raw.category.Some? ==> ParseCategory(raw.category.value).Some?)
      && (raw.page.Some? ==> raw.page.value >= 1)
      && (raw.limit.Some? ==> raw.limit.value >= 1)
    ensures r.Success? ==>
      && ValidQuery(r.value)
      && r.value.page == Some(raw.page.GetOr(DefaultPage))
      && r.value.limit == Some(raw.limit.GetOr(DefaultLimit))
      && (r.value.category.Some? <==> raw.category.Some?)
      && (r.value.category.Some? ==> CategoryName(r.value.category.value) == raw.category.value)
      && r.value.color == raw.color && r.value.season == raw.season && r.value.search == raw.search
    ensures r.Failure? ==>
      && r.error != []
      && ("category" in r.error <==> raw.category.Some? && ParseCategory(raw.category.value).None?)
      && ("page" in r.error <==> raw.page.Some? && raw.page.value < 1)
      && ("limit" in r.error <==> raw.limit.Some? && raw.limit.value < 1)
  {
    var errors := CategoryError(raw.category) + AtLeastOneError("page", raw.page) + AtLeastOneError("limit", raw.limit);
    if errors != [] then
      Failure(errors)
    else
      Success(QueryItemDto(
        if raw.category.Some? then ParseCategory(raw.category.value) else None,
        raw.color, raw.season, raw.search,
        Some(raw.page.GetOr(DefaultPage)),
        Some(raw.limit.GetOr(DefaultLimit))))
  }

  /** The fields of a create request. */
  datatype RawCreateItem = RawCreateItem(
    title: Option<string>,
    category: Option<string>,
    color: Option<string>,
    season: Option<string>,
    notes: Option<string>)

  /** A validated `CreateItemDto`: exactly these five properties. */
  datatype CreateItemDto = CreateItemDto(
    title: string,
    category: Category,
    color: Option<string>,
    season: Option<string>,
    notes: Option<string>)

  /** Instantiates and validates a `CreateItemDto`: `title` is a required
      non-empty string, `category` a required enum value; the other three are
      optional strings and never fail. */
  function ValidateCreateItem(raw: RawCreateItem): (r: Result<CreateItemDto, seq<string>>)
    ensures r.Success? <==>
      raw.title.Some? && raw.title.value != "" &&
      raw.category.Some? && ParseCategory(raw.category.value).Some?
    ensures r.Success? ==>
      && r.value.title == raw.title.value
      && CategoryName(r.value.category) == raw.category.value
      && r.value.color == raw.color && r.value.season == raw.season && r.value.notes == raw.notes
    ensures r.Failure? ==>
      && ("title" in r.error <==> !Truthy(raw.title))
      && ("category" in r.error <==> raw.category.None? || ParseCategory(raw.category.value).None?)
      && "color" !in r.error && "season" !in r.error && "notes" !in r.error
  {
    var titleError := if Truthy(raw.title) then [] else ["title"];
    var categoryError := if raw.category.Some? && ParseCategory(raw.category.value).Some? then [] else ["category"];
    if titleError + categoryError != [] then
      Failure(titleError + categoryError)
    else
      Success(CreateItemDto(raw.title.value, ParseCategory(raw.category.value).value, raw.color, raw.season, raw.notes))
  }

  /** `UpdateItemDto`: the `CreateItemDto` fields, each optional; an absent
      field leaves the column as it is. */
  datatype UpdateItemDto = UpdateItemDto(
    title: Option<string>,
    category: Option<Category>,
    color: Option<string>,
    season: Option<string>,
    notes: Option<string>)

  /** Validating the fields of a stored item's own values succeeds and gives
      those values back. */
  lemma CreateItemRoundTrip(d: CreateItemDto)
    requires d.title != ""
    ensures ValidateCreateItem(RawCreateItem(Some(d.title), Some(CategoryName(d.category)), d.color, d.season, d.notes))
            == Success(d)
  {
    assert ParseCategory(CategoryName(d.category)) == Some(d.category);
  }
}
