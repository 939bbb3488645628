/** The in-memory content store: four collections (newsletters, news
    articles, available tags, testimonials) and the flag that makes the
    archive merge happen once, together with the notifications the store
    dispatches after each successful change. The module-level `cache` object
    of the store becomes a `Store` object; the browser's event dispatch
    becomes an appended log of event names. */
module Cms {
  import opened Wrappers
  import opened JsValues
  import opened Records
  import opened Sorting
  import opened Seqs
  import opened Archive
  import SeedData
  import Text

  /** The four collections, by the names the store's keys and events use. */
  datatype Section = Newsletters | News | AvailableTags | Testimonials {
    function Name(): string {
      match this
      case Newsletters => "newsletters"
      case News => "news"
      case AvailableTags => "availableTags"
      case Testimonials => "testimonials"
    }
  }

  datatype Operation = Add | Update | Delete {
    function Name(): string {
      match this
      case Add => "add"
      case Update => "update"
      case Delete => "delete"
    }
  }

  /** The collection a key of the store names, if any. */
  function SectionOf(key: string): (r: Option<Section>)
    ensures r.Some? ==> r.value.Name() == key
    ensures r.None? ==> forall s: Section :: s.Name() != key
  {
    if key == "newsletters" then Some(Newsletters)
    else if key == "news" then Some(News)
    else if key == "availableTags" then Some(AvailableTags)
    else if key == "testimonials" then Some(Testimonials)
    else None
  }

  /** The events `notifyCMSUpdate` dispatches, in order: the general one, the
      per-collection one and the per-operation one. */
  function Notification(section: Section, op: Operation): seq<string> {
    ["cmsDataUpdated", "cms" + section.Name() + "Updated", "cms" + section.Name() + op.Name()]
  }

  /** The events `updateCMSData` dispatches for the collection `key`. */
  function Replacement(key: string): seq<string> {
    ["cmsDataUpdated", "cms" + key + "Updated"]
  }

  /** The state of the store's `cache` object. */
  datatype CacheState = CacheState(
    newsletters: seq<Record>,
    news: seq<Record>,
    availableTags: seq<Record>,
    testimonials: seq<Record>,
    archiveLoaded: bool)

  /** The argument of `__seedCMS`: the parts of the cache to replace. */
  datatype CachePatch = CachePatch(
    newsletters: Option<seq<Record>>,
    news: Option<seq<Record>>,
    availableTags: Option<seq<Record>>,
    testimonials: Option<seq<Record>>,
    archiveLoaded: Option<bool>)

  /** `{...cache, ...patch}`. */
  function Patched(c: CacheState, p: CachePatch): CacheState {
    CacheState(
      match p.newsletters case Some(v) => v case None => c.newsletters,
      match p.news case Some(v) => v case None => c.news,
      match p.availableTags case Some(v) => v case None => c.availableTags,
      match p.testimonials case Some(v) => v case None => c.testimonials,
      match p.archiveLoaded case Some(v) => v case None => c.archiveLoaded)
  }

  /** The sample content seeded when the module loads. */
  function InitialPatch(): CachePatch {
    CachePatch(Some([]), Some(SeedData.SeedNews()), Some(SeedData.SeedTags()),
               Some(SeedData.SeedTestimonials()), None)
  }

  const Placeholder: string := "<p>Article content would be processed here.</p>"

  /** `processArticleContent`: a copy of the record whose `content` is never
      empty; an existing non-empty content is kept. */
  function ProcessArticleContent(article: Record): (r: Record)
    ensures r.Keys == article.Keys + {"content"}
    ensures Truthy(r["content"])
    ensures Truthy(Get(article, "content")) ==> r["content"] == article["content"]
    ensures !Truthy(Get(article, "content")) ==> r["content"] == Str(Placeholder)
    ensures forall k :: k in article && k != "content" ==> r[k] == article[k]
  {
    Merge(article, map["content" := Or(Get(article, "content"), Str(Placeholder))])
  }

  /** The record shares a tag with `tags`: `article.tags.some(t => tags.includes(t))`. */
  predicate SharesTag(r: Record, tags: seq<string>) {
    Get(r, "tags").Arr? && exists t | t in Get(r, "tags").items :: IncludesValue(tags, t)
  }

  /** The filter of `getRelatedArticles` keeps the record. */
  predicate IsRelated(r: Record, tags: seq<string>, currentId: JsValue) {
    !Matches(r, "id", currentId) && SharesTag(r, tags)
  }

  /** The filter of `getRelatedArticles` throws on the record: its identifier
      differs, so `tags.some` is reached, and `tags` is not an array. */
  predicate RelatedThrows(r: Record, currentId: JsValue) {
    !Matches(r, "id", currentId) && !Get(r, "tags").Arr?
  }

  /** The test of `getRelatedArticles`'s filter, as a function value. */
  function RelatedTest(tags: seq<string>, currentId: JsValue): Record -> bool {
    x => IsRelated(x, tags, currentId)
  }

  function Min(a: int, b: int): int {
    if a <= b then a else b
  }

  /** The first four related records (all of them when there are fewer) keep
      store order, are related, and each related record with fewer than four
      related ones before it is among them, at that position. */
  lemma FirstRelated(s: seq<Record>, tags: seq<string>, currentId: JsValue)
    ensures var all := Filter(s, RelatedTest(tags, currentId));
      var r := all[..Min(4, |all|)];
      && IsSubsequence(r, s)
      && (forall x :: x in r ==> !Matches(x, "id", currentId) && SharesTag(x, tags))
      && (forall j :: (0 <= j < |s| && IsRelated(s[j], tags, currentId)
                       && |Filter(s[..j], RelatedTest(tags, currentId))| < 4) ==>
            |Filter(s[..j], RelatedTest(tags, currentId))| < |r|
            && r[|Filter(s[..j], RelatedTest(tags, currentId))|] == s[j])
  {
    var test := RelatedTest(tags, currentId);
    var all := Filter(s, test);
    var n := Min(4, |all|);
    FilterIsSubsequence(s, test);
    SubsequencePrefix(all, s, n);
    assert forall x :: x in all[..n] ==> x in all;
    forall j | 0 <= j < |s| && IsRelated(s[j], tags, currentId) && |Filter(s[..j], test)| < 4
      ensures |Filter(s[..j], test)| < n && all[..n][|Filter(s[..j], test)|] == s[j]
    {
      FilterAt(s, test, j);
    }
  }

  /** The archive scan over one module: it imports that module's raw
      records if the module has a `newsletters` array. `ok` is false exactly
      when the whole batch fails. */
  method ScanModule(current: seq<Record>, modules: seq<JsValue>, m: nat, imported0: seq<Record>, now: int)
    returns (ok: bool, imported: seq<Record>)
    requires m < |modules|
    requires Imported(current, RawNewsletters(modules[..m]), now) == Success(imported0)
    ensures ok ==> Imported(current, RawNewsletters(modules[..m + 1]), now) == Success(imported)
    ensures !ok ==> Imported(current, RawNewsletters(modules), now).Failure?
  {
    RawNewslettersNext(modules, m);
    ok, imported := true, imported0;
    var mod := modules[m];
    if Truthy(mod) && mod.Obj? && Get(mod.fields, "newsletters").Arr? {
      var items := Get(mod.fields, "newsletters").items;
      assert items == ModuleNewsletters(mod);
      ghost var stop: nat;
      ok, imported, stop := ScanItems(current, RawNewsletters(modules[..m]), items, imported0, now);
      if !ok {
        BatchFailureSticks(current, modules, m, stop, now);
      }
    } else {
      assert ModuleNewsletters(mod) == [];
      assert RawNewsletters(modules[..m]) + [] == RawNewsletters(modules[..m]);
    }
  }

  /** The inner loop of the archive scan: the raw records `items` are
      imported one by one after the batch `seen`, each checked against the
      cache, until one throws; `stop` is then the length of the prefix of
      `items` whose import throws. */
  method ScanItems(current: seq<Record>, seen: seq<JsValue>, items: seq<JsValue>, imported0: seq<Record>, now: int)
    returns (ok: bool, imported: seq<Record>, ghost stop: nat)
    requires Imported(current, seen, now) == Success(imported0)
    ensures ok ==> Imported(current, seen + items, now) == Success(imported)
    ensures !ok ==> 0 < stop <= |items| && Imported(current, seen + items[..stop], now).Failure?
  {
    imported, stop := imported0, 0;
    assert seen + items[..0] == seen;
    var k := 0;
    while k < |items|
      invariant 0 <= k <= |items|
      invariant Imported(current, seen + items[..k], now) == Success(imported)
    {
      var step := ImportOne(current, items[k], now);
      ScanStep(current, seen, items, k, imported, now);
      if step.Failure? {
        return false, imported, k + 1;
      }
      imported := imported + step.value;
      k := k + 1;
    }
    ok := true;
    assert items[..|items|] == items;
  }

  /** One step of the inner scan: the batch so far grows by what importing
      the next raw record yields, or fails with it. */
  lemma ScanStep(current: seq<Record>, seen: seq<JsValue>, items: seq<JsValue>, k: nat, acc: seq<Record>, now: int)
    requires k < |items|
    requires Imported(current, seen + items[..k], now) == Success(acc)
    ensures ImportOne(current, items[k], now).Success? ==>
      Imported(current, seen + items[..k + 1], now) == Success(acc + ImportOne(current, items[k], now).value)
    ensures ImportOne(current, items[k], now).Failure? ==> Imported(current, seen + items[..k + 1], now).Failure?
  {
    AppendSliceNext(seen, items, k);
    var p := seen + items[..k];
    ImportedSnoc(current, p, items[k], now);
    assert Imported(current, p, now) == Success(acc);
    var step := ImportOne(current, items[k], now);
    if step.Success? {
      assert Imported(current, p + [items[k]], now) == Success(acc + step.value);
    } else {
      assert Imported(current, p + [items[k]], now).Failure?;
    }
  }

  /** The outer loop of the archive scan, over the bundled modules. `ok` is
      false when the archive source cannot be read or a record throws. */
  method ScanArchive(current: seq<Record>, modules: seq<JsValue>, sourceFails: bool, now: int)
    returns (ok: bool, imported: seq<Record>)
    ensures ok ==> !sourceFails && Imported(current, RawNewsletters(modules), now) == Success(imported)
    ensures !ok ==> sourceFails || Imported(current, RawNewsletters(modules), now).Failure?
  {
    ok := !sourceFails;
    imported := [];
    var m := 0;
    while ok && m < |modules|
      invariant 0 <= m <= |modules|
      invariant ok ==> !sourceFails && Imported(current, RawNewsletters(modules[..m]), now) == Success(imported)
      invariant !ok ==> sourceFails || Imported(current, RawNewsletters(modules), now).Failure?
    {
      ok, imported := ScanModule(current, modules, m, imported, now);
      m := m + 1;
    }
    if ok {
      assert modules[..|modules|] == modules;
    }
  }

  /** A one-digit identifier string reads as its digit. */
  lemma DigitIdNumber(d: string, v: nat)
    requires |d| == 1 && v <= 9 && d[0] as int == '0' as int + v
    ensures StringToNumber(d) == Num(v)
  {
    assert d == [d[0]];
    DigitsNumber(d);
    OneDigitValue(d[0]);
  }

  lemma OneDigitValue(c: char)
    requires '0' <= c <= '9'
    ensures AllDigits([c]) && DigitsValue([c]) == c as int - '0' as int
  {
    var t := [c];
    assert t[..0] == [];
  }

  /** A non-empty string of decimal digits reads as their value. */
  lemma DigitsNumber(s: string)
    requires s != [] && AllDigits(s)
    ensures StringToNumber(s) == Num(DigitsValue(s))
  {
    assert Text.NoWhitespace(s);
    Text.TrimNoWhitespace(s);
  }

  /** Records numbered 1, 2, ... in order have largest identifier their count. */
  lemma {:induction false} MaxIdOfNumbering(s: seq<Record>)
    requires forall k :: 0 <= k < |s| ==> IdNumber(s[k]) == Num(k + 1)
    ensures MaxId(s) == Num(|s|)
  {
    if s != [] {
      var p := s[..|s| - 1];
      assert forall k :: 0 <= k < |p| ==> p[k] == s[k];
      MaxIdOfNumbering(p);
    }
  }

  /** A record whose identifier is a one-digit string has that number. */
  lemma DigitId(r: Record, d: string, v: nat)
    requires Get(r, "id") == Str(d) && |d| == 1 && v <= 9 && d[0] as int == '0' as int + v
    ensures IdNumber(r) == Num(v)
  {
    DigitIdNumber(d, v);
  }

  /** Records with the string identifiers "1" to "5" read as 1 to 5. */
  lemma FiveIds(s: seq<Record>)
    requires |s| == 5
    requires forall k :: 0 <= k < 5 ==> Get(s[k], "id") == Str(["1", "2", "3", "4", "5"][k])
    ensures forall k :: 0 <= k < |s| ==> IdNumber(s[k]) == Num(k + 1)
  {
    var ids := ["1", "2", "3", "4", "5"];
    forall k | 0 <= k < 5 ensures IdNumber(s[k]) == Num(k + 1) {
      assert ids[k][0] as int == '0' as int + k + 1 by {
        if k == 0 {} else if k == 1 {} else if k == 2 {} else if k == 3 {} else {}
      }
      DigitId(s[k], ids[k], k + 1);
    }
  }

  /** Five records with the string identifiers "1" to "5" are followed by 6. */
  lemma NextIdAfterFive(s: seq<Record>)
    requires |s| == 5
    requires forall k :: 0 <= k < 5 ==> Get(s[k], "id") == Str(["1", "2", "3", "4", "5"][k])
    ensures NextId(s) == Num(6)
  {
    FiveIds(s);
    MaxIdOfNumbering(s);
  }

  /** The seeded articles carry the string identifiers "1" to "5", so the
      next article added to the seeded store gets the number 6. */
  lemma SeededNextNewsId()
    ensures NextId(SeedData.SeedNews()) == Num(6)
  {
    SeedData.SeedNewsIds();
    NextIdAfterFive(SeedData.SeedNews());
  }

  class Store {
    var newsletters: seq<Record>
    var news: seq<Record>
    var availableTags: seq<Record>
    var testimonials: seq<Record>
    var archiveLoaded: bool
    /** The names of the events dispatched so far, oldest first. */
    var events: seq<string>

    function Cache(): CacheState
      reads this
    {
      CacheState(newsletters, news, availableTags, testimonials, archiveLoaded)
    }

    function Collection(section: Section): seq<Record>
      reads this
    {
      match section
      case Newsletters => newsletters
      case News => news
      case AvailableTags => availableTags
      case Testimonials => testimonials
    }

    /** Loading the module: an empty cache, then `__seedCMS` with the sample content. */
    constructor ()
      ensures Cache() == CacheState([], SeedData.SeedNews(), SeedData.SeedTags(), SeedData.SeedTestimonials(), false)
      ensures events == ["cmsDataUpdated"]
    {
      newsletters, news, availableTags, testimonials := [], [], [], [];
      archiveLoaded := false;
      events := [];
      new;
      Seed(InitialPatch());
    }

    /** `clearCMSCache`: empty collections; the archive flag is dropped, so
        the next read of the newsletters merges the archive again. */
    method ClearCache()
      modifies this
      ensures Cache() == CacheState([], [], [], [], false)
      ensures events == old(events)
    {
      newsletters, news, availableTags, testimonials := [], [], [], [];
      archiveLoaded := false;
    }

    /** `__seedCMS`: the patch is spread over the cache (the archive flag is
        kept unless the patch sets it), then one general event. */
    method Seed(patch: CachePatch)
      modifies this
      ensures Cache() == Patched(old(Cache()), patch)
      ensures events == old(events) + ["cmsDataUpdated"]
    {
      if patch.newsletters.Some? { newsletters := patch.newsletters.value; }
      if patch.news.Some? { news := patch.news.value; }
      if patch.availableTags.Some? { availableTags := patch.availableTags.value; }
      if patch.testimonials.Some? { testimonials := patch.testimonials.value; }
      if patch.archiveLoaded.Some? { archiveLoaded := patch.archiveLoaded.value; }
      events := events + ["cmsDataUpdated"];
    }

    /** `notifyCMSUpdate(section, op)`. */
    method Notify(section: Section, op: Operation)
      modifies this`events
      ensures events == old(events) + Notification(section, op)
    {
      events := events + ["cmsDataUpdated"];
      events := events + ["cms" + section.Name() + "Updated"];
      events := events + ["cms" + section.Name() + op.Name()];
    }

    /** `updateCMSData(key, data)`: a collection key has its collection
        replaced and two events dispatched; any other key changes nothing. */
    method UpdateData(key: string, data: seq<Record>)
      modifies this
      ensures SectionOf(key).None? ==> Cache() == old(Cache()) && events == old(events)
      ensures SectionOf(key) == Some(Newsletters) ==> Cache() == old(Cache()).(newsletters := data)
      ensures SectionOf(key) == Some(News) ==> Cache() == old(Cache()).(news := data)
      ensures SectionOf(key) == Some(AvailableTags) ==> Cache() == old(Cache()).(availableTags := data)
      ensures SectionOf(key) == Some(Testimonials) ==> Cache() == old(Cache()).(testimonials := data)
      ensures SectionOf(key).Some? ==> events == old(events) + Replacement(key)
    {
      var section := SectionOf(key);
      if section.Some? {
        match section.value
        case Newsletters => newsletters := data;
        case News => news := data;
        case AvailableTags => availableTags := data;
        case Testimonials => testimonials := data;
      }
      if section.Some? {
        events := events + ["cmsDataUpdated", "cms" + key + "Updated"];
      }
    }

    /** `getCMSData(key)`: the current collection; the first read of the
        newsletters (while the flag is down) merges the archive first. */
    method GetData(key: Section, modules: seq<JsValue>, sourceFails: bool, now: int) returns (items: seq<Record>)
      modifies this
      ensures old(key == Newsletters && !archiveLoaded) ==>
        Cache() == old(Cache()).(newsletters := MergeArchive(old(newsletters), modules, sourceFails, now), archiveLoaded := true)
      ensures !old(key == Newsletters && !archiveLoaded) ==> Cache() == old(Cache())
      ensures events == old(events)
      ensures items == Collection(key)
    {
      if key == Newsletters && !archiveLoaded {
        LoadArchive(modules, sourceFails, now);
      }
      items := match key
        case Newsletters => newsletters
        case News => news
        case AvailableTags => availableTags
        case Testimonials => testimonials;
    }

    /** The archive branch of `getCMSData`: the nested scan of the bundled
        modules that collects the imported records, the merge and sort, and
        the flag raised in the `finally` block whatever happened. */
    method LoadArchive(modules: seq<JsValue>, sourceFails: bool, now: int)
      modifies this
      ensures Cache() == old(Cache()).(newsletters := MergeArchive(old(newsletters), modules, sourceFails, now), archiveLoaded := true)
      ensures events == old(events)
    {
      var current := newsletters;
      var ok, imported := ScanArchive(current, modules, sourceFails, now);
      if ok && |imported| > 0 {
        newsletters := SortBy(DateDesc, current + imported);
      }
      archiveLoaded := true;
    }

    // -------------------------------------------------------------------------
    // Newsletters

    /** `addNewsletter`: appended under the next identifier. */
    method AddNewsletter(newsletter: Record) returns (id: JsValue)
      modifies this
      ensures id == NextId(old(newsletters))
      ensures old(UniqueBy(newsletters, "id")) && id.Num? ==>
        UniqueBy(newsletters, "id") && FindIndex(newsletters, "id", id) == |old(newsletters)|
      ensures Cache() == old(Cache()).(newsletters := old(newsletters) + [Merge(newsletter, map["id" := id])])
      ensures events == old(events) + Notification(Newsletters, Add)
    {
      id := NextId(newsletters);
      if UniqueBy(newsletters, "id") && id.Num? {
        AppendFreshKeepsUnique(newsletters, Merge(newsletter, map["id" := id]));
      }
      newsletters := newsletters + [Merge(newsletter, map["id" := id])];
      Notify(Newsletters, Add);
    }

    /** `updateNewsletter`: the first newsletter with the identifier is
        replaced by its merge with the patch, or "Newsletter not found". */
    method UpdateNewsletter(id: JsValue, updates: Record) returns (r: Result<Record>)
      modifies this
      ensures FindIndex(old(newsletters), "id", id) == -1 ==>
        r == Failure("Newsletter not found") && Cache() == old(Cache()) && events == old(events)
      ensures var i := FindIndex(old(newsletters), "id", id);
        i != -1 ==>
          && r == Success(Merge(old(newsletters)[i], updates))
          && Cache() == old(Cache()).(newsletters := old(newsletters)[i := r.value])
          && events == old(events) + Notification(Newsletters, Update)
      ensures FindIndex(old(newsletters), "id", id) != -1 && old(UniqueBy(newsletters, "id")) && ("id" !in updates || updates["id"] == id) ==>
        UniqueBy(newsletters, "id")
    {
      var i := FindIndex(newsletters, "id", id);
      if i == -1 {
        return Failure("Newsletter not found");
      }
      if UniqueBy(newsletters, "id") && ("id" !in updates || updates["id"] == id) {
        MergeAtKeepsUnique(newsletters, "id", i, updates);
      }
      newsletters := newsletters[i := Merge(newsletters[i], updates)];
      Notify(Newsletters, Update);
      r := Success(newsletters[i]);
    }

    /** `deleteNewsletter`: the first newsletter with the identifier is
        removed, or "Newsletter not found". */
    method DeleteNewsletter(id: JsValue) returns (r: Outcome)
      modifies this
      ensures FindIndex(old(newsletters), "id", id) == -1 ==>
        r == Fail("Newsletter not found") && Cache() == old(Cache()) && events == old(events)
      ensures var i := FindIndex(old(newsletters), "id", id);
        i != -1 ==>
          && r == Pass
          && Cache() == old(Cache()).(newsletters := RemoveAt(old(newsletters), i))
          && events == old(events) + Notification(Newsletters, Delete)
    {
      var i := FindIndex(newsletters, "id", id);
      if i == -1 {
        r := Fail("Newsletter not found");
      } else {
        ghost var before := Cache();
        newsletters := RemoveAt(newsletters, i);
        assert Cache() == before.(newsletters := RemoveAt(before.newsletters, i));
        Notify(Newsletters, Delete);
        r := Pass;
      }
    }

    // -------------------------------------------------------------------------
    // News articles

    /** `addNewsArticle`: appended under the next identifier, visible, and
        positioned last, whatever the argument said about either. */
    method AddNewsArticle(article: Record) returns (id: JsValue)
      modifies this
      ensures id == NextId(old(news))
      ensures old(UniqueBy(news, "id")) && id.Num? ==>
        UniqueBy(news, "id") && FindIndex(news, "id", id) == |old(news)|
      ensures Cache() == old(Cache()).(news := old(news) + [Merge(article, map[
        "id" := id, "isVisible" := Bool(true), "position" := Num(|old(news)| + 1)])])
      ensures events == old(events) + Notification(News, Add)
    {
      id := NextId(news);
      var added := Merge(article, map["id" := id, "isVisible" := Bool(true), "position" := Num(|news| + 1)]);
      if UniqueBy(news, "id") && id.Num? {
        AppendFreshKeepsUnique(news, added);
      }
      news := news + [added];
      Notify(News, Add);
    }

    /** `updateNewsArticle`, or "Article not found". */
    method UpdateNewsArticle(id: JsValue, updates: Record) returns (r: Result<Record>)
      modifies this
      ensures FindIndex(old(news), "id", id) == -1 ==>
        r == Failure("Article not found") && Cache() == old(Cache()) && events == old(events)
      ensures var i := FindIndex(old(news), "id", id);
        i != -1 ==>
          && r == Success(Merge(old(news)[i], updates))
          && Cache() == old(Cache()).(news := old(news)[i := r.value])
          && events == old(events) + Notification(News, Update)
      ensures FindIndex(old(news), "id", id) != -1 && old(UniqueBy(news, "id")) && ("id" !in updates || updates["id"] == id) ==>
        UniqueBy(news, "id")
    {
      var i := FindIndex(news, "id", id);
      if i == -1 {
        return Failure("Article not found");
      }
      if UniqueBy(news, "id") && ("id" !in updates || updates["id"] == id) {
        MergeAtKeepsUnique(news, "id", i, updates);
      }
      news := news[i := Merge(news[i], updates)];
      Notify(News, Update);
      r := Success(news[i]);
    }

    /** `deleteNewsArticle`, or "Article not found". */
    method DeleteNewsArticle(id: JsValue) returns (r: Outcome)
      modifies this
      ensures FindIndex(old(news), "id", id) == -1 ==>
        r == Fail("Article not found") && Cache() == old(Cache()) && events == old(events)
      ensures var i := FindIndex(old(news), "id", id);
        i != -1 ==>
          && r == Pass
          && Cache() == old(Cache()).(news := RemoveAt(old(news), i))
          && events == old(events) + Notification(News, Delete)
    {
      var i := FindIndex(news, "id", id);
      if i == -1 {
        r := Fail("Article not found");
      } else {
        ghost var before := Cache();
        news := RemoveAt(news, i);
        assert Cache() == before.(news := RemoveAt(before.news, i));
        Notify(News, Delete);
        r := Pass;
      }
    }

    // -------------------------------------------------------------------------
    // Tags: keyed by name; duplicates and absent names are silently ignored

    /** `addTag`: appended unless a tag of that name exists, in which case
        nothing changes and nothing is dispatched. */
    method AddTag(tag: Record)
      modifies this
      ensures FindIndex(old(availableTags), "name", Get(tag, "name")) == -1 ==>
        Cache() == old(Cache()).(availableTags := old(availableTags) + [tag])
        && events == old(events) + Notification(AvailableTags, Add)
      ensures FindIndex(old(availableTags), "name", Get(tag, "name")) != -1 ==>
        Cache() == old(Cache()) && events == old(events)
      ensures old(UniqueBy(availableTags, "name")) ==> UniqueBy(availableTags, "name")
    {
      var i := FindIndex(availableTags, "name", Get(tag, "name"));
      if i == -1 {
        if UniqueBy(availableTags, "name") {
          AppendUnmatchedKeepsUnique(availableTags, "name", tag);
        }
        availableTags := availableTags + [tag];
        Notify(AvailableTags, Add);
      }
    }

    /** `updateTag`: the first tag named `oldName` is merged with the patch
        (which may rename it); an absent name changes nothing. */
    method UpdateTag(oldName: string, updates: Record)
      modifies this
      ensures FindIndex(old(availableTags), "name", Str(oldName)) == -1 ==>
        Cache() == old(Cache()) && events == old(events)
      ensures var i := FindIndex(old(availableTags), "name", Str(oldName));
        i != -1 ==>
          && Cache() == old(Cache()).(availableTags := old(availableTags)[i := Merge(old(availableTags)[i], updates)])
          && events == old(events) + Notification(AvailableTags, Update)
      ensures old(UniqueBy(availableTags, "name")) && ("name" !in updates || updates["name"] == Str(oldName)) ==>
        UniqueBy(availableTags, "name")
    {
      var i := FindIndex(availableTags, "name", Str(oldName));
      if i != -1 {
        if UniqueBy(availableTags, "name") && ("name" !in updates || updates["name"] == Str(oldName)) {
          MergeAtKeepsUnique(availableTags, "name", i, updates);
        }
        availableTags := availableTags[i := Merge(availableTags[i], updates)];
        Notify(AvailableTags, Update);
      }
    }

    /** `deleteTag`: the first tag named `name` is removed; an absent name
        changes nothing. */
    method DeleteTag(name: string)
      modifies this
      ensures FindIndex(old(availableTags), "name", Str(name)) == -1 ==>
        Cache() == old(Cache()) && events == old(events)
      ensures var i := FindIndex(old(availableTags), "name", Str(name));
        i != -1 ==>
          && Cache() == old(Cache()).(availableTags := RemoveAt(old(availableTags), i))
          && events == old(events) + Notification(AvailableTags, Delete)
    {
      var i := FindIndex(availableTags, "name", Str(name));
      if i != -1 {
        availableTags := RemoveAt(availableTags, i);
        assert Cache() == old(Cache()).(availableTags := RemoveAt(old(availableTags), i));
        Notify(AvailableTags, Delete);
      }
    }

    // -------------------------------------------------------------------------
    // Testimonials

    /** `addTestimonial`: appended under the next identifier. */
    method AddTestimonial(testimonial: Record) returns (id: JsValue)
      modifies this
      ensures id == NextId(old(testimonials))
      ensures old(UniqueBy(testimonials, "id")) && id.Num? ==>
        UniqueBy(testimonials, "id") && FindIndex(testimonials, "id", id) == |old(testimonials)|
      ensures Cache() == old(Cache()).(testimonials := old(testimonials) + [Merge(testimonial, map["id" := id])])
      ensures events == old(events) + Notification(Testimonials, Add)
    {
      id := NextId(testimonials);
      if UniqueBy(testimonials, "id") && id.Num? {
        AppendFreshKeepsUnique(testimonials, Merge(testimonial, map["id" := id]));
      }
      testimonials := testimonials + [Merge(testimonial, map["id" := id])];
      Notify(Testimonials, Add);
    }

    /** `updateTestimonial`, or "Testimonial not found". */
    method UpdateTestimonial(id: JsValue, updates: Record) returns (r: Result<Record>)
      modifies this
      ensures FindIndex(old(testimonials), "id", id) == -1 ==>
        r == Failure("Testimonial not found") && Cache() == old(Cache()) && events == old(events)
      ensures var i := FindIndex(old(testimonials), "id", id);
        i != -1 ==>
          && r == Success(Merge(old(testimonials)[i], updates))
          && Cache() == old(Cache()).(testimonials := old(testimonials)[i := r.value])
          && events == old(events) + Notification(Testimonials, Update)
      ensures FindIndex(old(testimonials), "id", id) != -1 && old(UniqueBy(testimonials, "id")) && ("id" !in updates || updates["id"] == id) ==>
        UniqueBy(testimonials, "id")
    {
      var i := FindIndex(testimonials, "id", id);
      if i == -1 {
        return Failure("Testimonial not found");
      }
      if UniqueBy(testimonials, "id") && ("id" !in updates || updates["id"] == id) {
        MergeAtKeepsUnique(testimonials, "id", i, updates);
      }
      testimonials := testimonials[i := Merge(testimonials[i], updates)];
      Notify(Testimonials, Update);
      r := Success(testimonials[i]);
    }

    /** `deleteTestimonial`, or "Testimonial not found". */
    method DeleteTestimonial(id: JsValue) returns (r: Outcome)
      modifies this
      ensures FindIndex(old(testimonials), "id", id) == -1 ==>
        r == Fail("Testimonial not found") && Cache() == old(Cache()) && events == old(events)
      ensures var i := FindIndex(old(testimonials), "id", id);
        i != -1 ==>
          && r == Pass
          && Cache() == old(Cache()).(testimonials := RemoveAt(old(testimonials), i))
          && events == old(events) + Notification(Testimonials, Delete)
    {
      var i := FindIndex(testimonials, "id", id);
      if i == -1 {
        r := Fail("Testimonial not found");
      } else {
        ghost var before := Cache();
        testimonials := RemoveAt(testimonials, i);
        assert Cache() == before.(testimonials := RemoveAt(before.testimonials, i));
        Notify(Testimonials, Delete);
        r := Pass;
      }
    }

    // -------------------------------------------------------------------------
    // Reading

    /** `getRelatedArticles`: the first four newsletters, in store order,
        that share a tag with `tags` and are not the current one (all of them
        when there are fewer); a TypeError when a newsletter other than the
        current one has no tag array. */
    function GetRelatedArticles(tags: seq<string>, currentId: JsValue): (r: Result<seq<Record>>)
      reads this
      ensures r.Failure? <==> exists i :: 0 <= i < |newsletters| && RelatedThrows(newsletters[i], currentId)
      ensures r.Success? ==> IsSubsequence(r.value, newsletters)
      ensures r.Success? ==> forall x :: x in r.value ==> !Matches(x, "id", currentId) && SharesTag(x, tags)
      ensures r.Success? ==> |r.value| == Min(4, |Filter(newsletters, RelatedTest(tags, currentId))|)
      ensures r.Success? ==> forall j :: (0 <= j < |newsletters| && IsRelated(newsletters[j], tags, currentId)
                                         && |Filter(newsletters[..j], RelatedTest(tags, currentId))| < 4) ==>
          |Filter(newsletters[..j], RelatedTest(tags, currentId))| < |r.value|
          && r.value[|Filter(newsletters[..j], RelatedTest(tags, currentId))|] == newsletters[j]
    {
      if exists i | 0 <= i < |newsletters| :: RelatedThrows(newsletters[i], currentId) then
        Failure("TypeError: article.tags.some is not a function")
      else
        var all := Filter(newsletters, RelatedTest(tags, currentId));
        FirstRelated(newsletters, tags, currentId);
        Success(all[..Min(4, |all|)])
    }
  }
}
