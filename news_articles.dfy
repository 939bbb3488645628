/** The article utilities that work on whole records: validation of an
    article draft, the blank-article template, and the search, filter and
    sort pipeline of the news pages. */
module NewsArticles {
  import opened Wrappers
  import opened Text
  import opened JsValues
  import opened Records
  import opened Sorting
  import opened Seqs

  // ---------------------------------------------------------------------------
  // Validation

  const IdRequired: string := "Article ID is required"
  const TitleRequired: string := "Title is required"
  const SummaryRequired: string := "Summary is required"
  const ContentRequired: string := "Content is required"
  const CategoryRequired: string := "Category is required"
  const DateRequired: string := "Date is required"
  const TitleTooLong: string := "Title should be under 120 characters"
  const SummaryTooLong: string := "Summary should be under 300 characters"
  const TagsNotArray: string := "Tags should be an array"
  const ImageUrlScheme: string := "Image URL should start with http/https"
  const ImageWithoutUrl: string := "Image object should have url property"

  /** The position of each message in the order the checks run; 11 for any
      other string. */
  function Rank(m: string): nat {
    if m == IdRequired then 0
    else if m == TitleRequired then 1
    else if m == SummaryRequired then 2
    else if m == ContentRequired then 3
    else if m == CategoryRequired then 4
    else if m == DateRequired then 5
    else if m == TitleTooLong then 6
    else if m == SummaryTooLong then 7
    else if m == TagsNotArray then 8
    else if m == ImageUrlScheme then 9
    else if m == ImageWithoutUrl then 10
    else 11
  }

  lemma RanksOfMessages()
    ensures Rank(IdRequired) == 0 && Rank(TitleRequired) == 1 && Rank(SummaryRequired) == 2
    ensures Rank(ContentRequired) == 3 && Rank(CategoryRequired) == 4 && Rank(DateRequired) == 5
    ensures Rank(TitleTooLong) == 6 && Rank(SummaryTooLong) == 7 && Rank(TagsNotArray) == 8
    ensures Rank(ImageUrlScheme) == 9 && Rank(ImageWithoutUrl) == 10
  {
  }

  /** The messages appear in check order, each at most once. */
  predicate InCheckOrder(errors: seq<string>) {
    forall i, j :: 0 <= i < j < |errors| ==> Rank(errors[i]) < Rank(errors[j])
  }

  /** `v.length` on a value the checks have found truthy. */
  function LengthOf(v: JsValue): JsValue {
    match v
    case Str(s) => Num(|s|)
    case Arr(items) => Num(|items|)
    case Obj(fields) => Get(fields, "length")
    case _ => Undefined
  }

  /** `!v || v.length === 0`. */
  predicate Missing(v: JsValue) {
    !Truthy(v) || StrictEquals(LengthOf(v), Num(0))
  }

  /** `v && v.length > limit`. */
  predicate TooLong(v: JsValue, limit: int) {
    Truthy(v) && var n := ToNumber(LengthOf(v)); n.Num? && n.n > limit
  }

  /** A string image whose URL does not start with "http". */
  predicate BadImageUrl(image: JsValue) {
    Truthy(image) && image.Str? && !StartsWith(image.s, "http")
  }

  /** An image object (`typeof` "object") without a truthy `url`. */
  predicate ImageLacksUrl(image: JsValue) {
    Truthy(image) && (image.Obj? || image.Arr?) && !(image.Obj? && Truthy(Get(image.fields, "url")))
  }

  method Push(errors: seq<string>, failed: bool, message: string) returns (out: seq<string>)
    requires InCheckOrder(errors) && forall e :: e in errors ==> Rank(e) < Rank(message)
    ensures InCheckOrder(out)
    ensures message in out <==> failed
    ensures forall e :: Rank(e) != Rank(message) ==> (e in out <==> e in errors)
    ensures forall e :: e in out ==> Rank(e) <= Rank(message)
  {
    out := errors;
    if failed {
      out := out + [message];
    }
  }

  /** The required-field checks. */
  method CheckRequired(article: Record) returns (errors: seq<string>)
    ensures InCheckOrder(errors) && forall e :: e in errors ==> Rank(e) <= 5
    ensures IdRequired in errors <==> !Truthy(Get(article, "id"))
    ensures TitleRequired in errors <==> Missing(Get(article, "title"))
    ensures SummaryRequired in errors <==> Missing(Get(article, "summary"))
    ensures ContentRequired in errors <==> Missing(Get(article, "content"))
    ensures CategoryRequired in errors <==> !Truthy(Get(article, "category"))
    ensures DateRequired in errors <==> !Truthy(Get(article, "date"))
  {
    RanksOfMessages();
    errors := [];
    errors := Push(errors, !Truthy(Get(article, "id")), IdRequired);
    errors := Push(errors, Missing(Get(article, "title")), TitleRequired);
    errors := Push(errors, Missing(Get(article, "summary")), SummaryRequired);
    errors := Push(errors, Missing(Get(article, "content")), ContentRequired);
    errors := Push(errors, !Truthy(Get(article, "category")), CategoryRequired);
    errors := Push(errors, !Truthy(Get(article, "date")), DateRequired);
  }

  /** The length checks, after the required-field ones. */
  method CheckLengths(article: Record, before: seq<string>) returns (errors: seq<string>)
    requires InCheckOrder(before) && forall e :: e in before ==> Rank(e) <= 5
    ensures InCheckOrder(errors) && forall e :: e in errors ==> Rank(e) <= 7
    ensures forall e :: Rank(e) <= 5 ==> (e in errors <==> e in before)
    ensures TitleTooLong in errors <==> TooLong(Get(article, "title"), 120)
    ensures SummaryTooLong in errors <==> TooLong(Get(article, "summary"), 300)
  {
    RanksOfMessages();
    errors := Push(before, TooLong(Get(article, "title"), 120), TitleTooLong);
    errors := Push(errors, TooLong(Get(article, "summary"), 300), SummaryTooLong);
  }

  /** The tag-array check and the image checks, last. */
  method CheckShapes(article: Record, before: seq<string>) returns (errors: seq<string>)
    requires InCheckOrder(before) && forall e :: e in before ==> Rank(e) <= 7
    ensures InCheckOrder(errors) && forall e :: e in errors ==> Rank(e) <= 10
    ensures forall e :: Rank(e) <= 7 ==> (e in errors <==> e in before)
    ensures TagsNotArray in errors <==> !Get(article, "tags").Arr?
    ensures ImageUrlScheme in errors <==> BadImageUrl(Get(article, "image"))
    ensures ImageWithoutUrl in errors <==> ImageLacksUrl(Get(article, "image"))
  {
    RanksOfMessages();
    errors := Push(before, !Get(article, "tags").Arr?, TagsNotArray);
    var image := Get(article, "image");
    if Truthy(image) {
      if image.Str? {
        errors := Push(errors, !StartsWith(image.s, "http"), ImageUrlScheme);
      } else if image.Obj? || image.Arr? {
        errors := Push(errors, !(image.Obj? && Truthy(Get(image.fields, "url"))), ImageWithoutUrl);
      }
    }
  }

  /** `validateArticle`: every failed check contributes its message, in the
      order the checks run, and the draft is valid exactly when none
      failed. */
  method ValidateArticle(article: Record) returns (isValid: bool, errors: seq<string>)
    ensures isValid <==> errors == []
    ensures InCheckOrder(errors)
    ensures forall e :: e in errors ==> Rank(e) < 11
    ensures IdRequired in errors <==> !Truthy(Get(article, "id"))
    ensures TitleRequired in errors <==> Missing(Get(article, "title"))
    ensures SummaryRequired in errors <==> Missing(Get(article, "summary"))
    ensures ContentRequired in errors <==> Missing(Get(article, "content"))
    ensures CategoryRequired in errors <==> !Truthy(Get(article, "category"))
    ensures DateRequired in errors <==> !Truthy(Get(article, "date"))
    ensures TitleTooLong in errors <==> TooLong(Get(article, "title"), 120)
    ensures SummaryTooLong in errors <==> TooLong(Get(article, "summary"), 300)
    ensures TagsNotArray in errors <==> !Get(article, "tags").Arr?
    ensures ImageUrlScheme in errors <==> BadImageUrl(Get(article, "image"))
    ensures ImageWithoutUrl in errors <==> ImageLacksUrl(Get(article, "image"))
  {
    RanksOfMessages();
    errors := CheckRequired(article);
    errors := CheckLengths(article, errors);
    errors := CheckShapes(article, errors);
    isValid := |errors| == 0;
  }

  // ---------------------------------------------------------------------------
  // Template

  const TemplateKeys: set<string> :=
    {"id", "title", "summary", "content", "author", "date", "lastUpdated", "tags", "image", "views", "category"}

  /** The blank article; `today` is the date part of the current ISO time stamp. */
  function Template(today: string): (t: Record)
    ensures t.Keys == TemplateKeys
    ensures t["tags"] == Arr([]) && t["views"] == Num(0) && t["date"] == Str(today)
  {
    map[
      "id" := Num(0),
      "title" := Str(""),
      "summary" := Str(""),
      "content" := Str(""),
      "author" := Obj(map["name" := Str(""), "role" := Str(""), "avatar" := Str("")]),
      "date" := Str(today),
      "lastUpdated" := Str(today),
      "tags" := Arr([]),
      "image" := Obj(map["url" := Str(""), "alt" := Str("")]),
      "views" := Num(0),
      "category" := Str("TECHNOLOGY")]
  }

  /** `createArticleTemplate`: each override wins, every other template
      field keeps its default. */
  function CreateArticleTemplate(overrides: Record, today: string): (r: Record)
    ensures r.Keys == TemplateKeys + overrides.Keys
    ensures forall k :: k in overrides ==> r[k] == overrides[k]
    ensures forall k :: k in TemplateKeys && k !in overrides ==> r[k] == Template(today)[k]
    ensures "tags" !in overrides ==> r["tags"] == Arr([])
    ensures "views" !in overrides ==> r["views"] == Num(0)
    ensures "date" !in overrides ==> r["date"] == Str(today)
  {
    Merge(Template(today), overrides)
  }

  // ---------------------------------------------------------------------------
  // Filtering

  /** The options of `filterArticles`. */
  datatype FilterOptions = FilterOptions(
    query: Option<string>,
    categories: Option<seq<string>>,
    tags: Option<seq<string>>,
    startDate: Option<string>,
    endDate: Option<string>,
    sortBy: Option<Order>)

  const NoFilters: FilterOptions := FilterOptions(None, None, None, None, None, None)

  /** The shape the `Article` type promises for the fields the filters and
      the statistics read: a string title, optional string summary and
      category, an array of string tags and an optional numeric view count. */
  predicate IsArticle(a: Record) {
    && Get(a, "title").Str?
    && (Get(a, "summary").Undefined? || Get(a, "summary").Str?)
    && (Get(a, "category").Undefined? || Get(a, "category").Str?)
    && Get(a, "tags").Arr?
    && (forall t :: t in Get(a, "tags").items ==> t.Str?)
    && (Get(a, "views").Undefined? || Get(a, "views").Num? || Get(a, "views").NaN?)
  }

  /** A string property, or "" when it is absent. */
  function StringField(a: Record, key: string): string {
    match Get(a, key)
    case Str(s) => s
    case _ => ""
  }

  function TagsOf(a: Record): seq<JsValue> {
    match Get(a, "tags")
    case Arr(items) => items
    case _ => []
  }

  /** The search predicate: the lower-cased query occurs in the lower-cased
      title, summary, category or one of the tags. */
  predicate MatchesQuery(a: Record, q: string) {
    || Contains(Lower(StringField(a, "title")), q)
    || (StringField(a, "summary") != "" && Contains(Lower(StringField(a, "summary")), q))
    || (StringField(a, "category") != "" && Contains(Lower(StringField(a, "category")), q))
    || exists t | t in TagsOf(a) :: t.Str? && Contains(Lower(t.s), q)
  }

  /** The category filter: the article has a category and it is listed. */
  predicate MatchesCategories(a: Record, categories: seq<string>) {
    StringField(a, "category") != "" && StringField(a, "category") in categories
  }

  /** The tag filter: the article carries at least one listed tag. */
  predicate MatchesTags(a: Record, tags: seq<string>) {
    exists tag | tag in tags :: Str(tag) in TagsOf(a)
  }

  /** The date filter, with dates ordered as their ISO strings. */
  predicate InDateRange(a: Record, start: string, end: string) {
    StrLe(start, DateOf(a)) && StrLe(DateOf(a), end)
  }

  predicate Given(s: Option<string>) {
    s.Some? && s.value != ""
  }

  predicate QueryActive(f: FilterOptions) { Given(f.query) }
  predicate CategoriesActive(f: FilterOptions) { f.categories.Some? && |f.categories.value| > 0 }
  predicate TagsActive(f: FilterOptions) { f.tags.Some? && |f.tags.value| > 0 }
  predicate DatesActive(f: FilterOptions) { Given(f.startDate) || Given(f.endDate) }

  function StartOf(f: FilterOptions): string {
    if Given(f.startDate) then f.startDate.value else "1900-01-01"
  }

  function EndOf(f: FilterOptions): string {
    if Given(f.endDate) then f.endDate.value else "2100-12-31"
  }

  /** The article passes the active filters among the first `stage` ones. */
  predicate PassesUpTo(a: Record, f: FilterOptions, stage: nat) {
    && (stage >= 1 && QueryActive(f) ==> MatchesQuery(a, Lower(f.query.value)))
    && (stage >= 2 && CategoriesActive(f) ==> MatchesCategories(a, f.categories.value))
    && (stage >= 3 && TagsActive(f) ==> MatchesTags(a, f.tags.value))
    && (stage >= 4 && DatesActive(f) ==> InDateRange(a, StartOf(f), EndOf(f)))
  }

  /** The article passes every active filter. */
  predicate Passes(a: Record, f: FilterOptions) {
    PassesUpTo(a, f, 4)
  }

  /** What `filterArticles` returns: the articles that pass every active
      filter, in input order, then sorted when a sort key is given. */
  function Filtered(articles: seq<Record>, f: FilterOptions): seq<Record> {
    match f.sortBy
    case Some(order) => SortBy(order, Kept(articles, f))
    case None => Kept(articles, f)
  }

  /** The articles that pass every active filter, in input order. */
  function Kept(articles: seq<Record>, f: FilterOptions): seq<Record> {
    Filter(articles, a => Passes(a, f))
  }

  /** One filter stage: narrowing the articles that pass the first `stage`
      filters by the next one, when it is active, leaves those that pass
      the first `stage + 1`. */
  lemma NarrowStage(articles: seq<Record>, f: FilterOptions, stage: nat, before: seq<Record>,
                    active: bool, p: Record -> bool, after: seq<Record>)
    requires before == Filter(articles, a => PassesUpTo(a, f, stage))
    requires forall a :: PassesUpTo(a, f, stage + 1) == (PassesUpTo(a, f, stage) && (active ==> p(a)))
    requires after == if active then Filter(before, p) else before
    ensures after == Filter(articles, a => PassesUpTo(a, f, stage + 1))
  {
    if active {
      FilterFilter(articles, a => PassesUpTo(a, f, stage), p, a => PassesUpTo(a, f, stage + 1));
    } else {
      FilterExt(articles, a => PassesUpTo(a, f, stage), a => PassesUpTo(a, f, stage + 1));
    }
  }

  /** The search stage: kept when the lower-cased query occurs somewhere. */
  method ByQuery(articles: seq<Record>, f: FilterOptions, before: seq<Record>) returns (after: seq<Record>)
    requires before == Filter(articles, a => PassesUpTo(a, f, 0))
    ensures after == Filter(articles, a => PassesUpTo(a, f, 1))
  {
    var q := if QueryActive(f) then Lower(f.query.value) else "";
    after := before;
    if QueryActive(f) {
      after := Filter(before, a => MatchesQuery(a, q));
    }
    NarrowStage(articles, f, 0, before, QueryActive(f), a => MatchesQuery(a, q), after);
  }

  /** The category stage: kept when the category is one of those listed. */
  method ByCategories(articles: seq<Record>, f: FilterOptions, before: seq<Record>) returns (after: seq<Record>)
    requires before == Filter(articles, a => PassesUpTo(a, f, 1))
    ensures after == Filter(articles, a => PassesUpTo(a, f, 2))
  {
    var cats := if CategoriesActive(f) then f.categories.value else [];
    after := before;
    if CategoriesActive(f) {
      after := Filter(before, a => MatchesCategories(a, cats));
    }
    NarrowStage(articles, f, 1, before, CategoriesActive(f), a => MatchesCategories(a, cats), after);
  }

  /** The tag stage: kept when some listed tag is carried. */
  method ByTags(articles: seq<Record>, f: FilterOptions, before: seq<Record>) returns (after: seq<Record>)
    requires before == Filter(articles, a => PassesUpTo(a, f, 2))
    ensures after == Filter(articles, a => PassesUpTo(a, f, 3))
  {
    var tags := if TagsActive(f) then f.tags.value else [];
    after := before;
    if TagsActive(f) {
      after := Filter(before, a => MatchesTags(a, tags));
    }
    NarrowStage(articles, f, 2, before, TagsActive(f), a => MatchesTags(a, tags), after);
  }

  /** The date stage: kept when the date lies in the range, a missing bound
      standing for 1900-01-01 or 2100-12-31. */
  method ByDates(articles: seq<Record>, f: FilterOptions, before: seq<Record>) returns (after: seq<Record>)
    requires before == Filter(articles, a => PassesUpTo(a, f, 3))
    ensures after == Filter(articles, a => PassesUpTo(a, f, 4))
  {
    var start, end := StartOf(f), EndOf(f);
    after := before;
    if DatesActive(f) {
      after := Filter(before, a => InDateRange(a, start, end));
    }
    NarrowStage(articles, f, 3, before, DatesActive(f), a => InDateRange(a, start, end), after);
  }

  /** `filterArticles`: the copy of the input is narrowed by each active
      filter in turn and sorted at the end. */
  method FilterArticles(articles: seq<Record>, f: FilterOptions) returns (filtered: seq<Record>)
    requires forall a :: a in articles ==> IsArticle(a)
    ensures filtered == Filtered(articles, f)
  {
    FilterAll(articles, a => PassesUpTo(a, f, 0));
    filtered := ByQuery(articles, f, articles);
    filtered := ByCategories(articles, f, filtered);
    filtered := ByTags(articles, f, filtered);
    filtered := ByDates(articles, f, filtered);
    FilterExt(articles, a => PassesUpTo(a, f, 4), a => Passes(a, f));
    if f.sortBy.Some? {
      filtered := SortBy(f.sortBy.value, filtered);
    }
  }

  /** Without a sort key the result keeps the input order. */
  lemma FilteredIsSubsequence(articles: seq<Record>, f: FilterOptions)
    requires f.sortBy.None?
    ensures IsSubsequence(Filtered(articles, f), articles)
  {
    FilterIsSubsequence(articles, a => Passes(a, f));
  }

  /** Every returned article is an input article that passes every active
      filter, and every such article is returned. */
  lemma FilteredExactly(articles: seq<Record>, f: FilterOptions, a: Record)
    ensures a in Filtered(articles, f) <==> a in articles && Passes(a, f)
  {
    var kept := Kept(articles, f);
    assert a in kept <==> a in articles && Passes(a, f);
    if f.sortBy.Some? {
      PermutationMembers(SortBy(f.sortBy.value, kept), kept, a);
    }
  }

  /** With a sort key the result is sorted by it, is a permutation of the
      filtered articles, and keeps articles that tie in input order. */
  lemma FilteredSorted(articles: seq<Record>, f: FilterOptions)
    requires f.sortBy.Some?
    ensures Sorted(f.sortBy.value, Filtered(articles, f))
    ensures multiset(Filtered(articles, f)) == multiset(Filter(articles, x => Passes(x, f)))
    ensures Stable(f.sortBy.value, Kept(articles, f), Filtered(articles, f))
  {
    SortByStable(f.sortBy.value, Kept(articles, f));
  }

  /** With no options the input comes back unchanged. */
  lemma NoFiltersIsIdentity(articles: seq<Record>)
    ensures Filtered(articles, NoFilters) == articles
  {
    FilterAll(articles, a => Passes(a, NoFilters));
  }
}
