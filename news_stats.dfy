/** `getArticleStats`: one pass over the articles that counts categories and
    tags, sums the views and keeps the most viewed and the most recent
    article. Counters are maps from the property name to its count. */
module NewsStats {
  import opened Wrappers
  import opened Text
  import opened JsValues
  import opened Sorting
  import opened NewsArticles

  datatype ArticleStats = ArticleStats(
    total: nat,
    categories: map<string, nat>,
    tags: map<string, nat>,
    totalViews: int,
    averageViews: int,
    mostViewed: Option<Record>,
    mostRecent: Option<Record>)

  // ---------------------------------------------------------------------------
  // Counters

  /** `m[k] || 0`. */
  function Lookup(m: map<string, nat>, k: string): nat {
    if k in m then m[k] else 0
  }

  /** `m[k] = (m[k] || 0) + 1`. */
  function Bump(m: map<string, nat>, k: string): map<string, nat> {
    m[k := Lookup(m, k) + 1]
  }

  /** Bumping each of `ks` in turn. */
  function BumpAll(m: map<string, nat>, ks: seq<string>): map<string, nat>
    decreases |ks|
  {
    if ks == [] then m else Bump(BumpAll(m, ks[..|ks| - 1]), ks[|ks| - 1])
  }

  /** The category an article is counted under; "" when it has none. */
  function CategoryOf(a: Record): string {
    StringField(a, "category")
  }

  /** The tag names of an article. */
  function TagNames(a: Record): seq<string> {
    Names(TagsOf(a))
  }

  function Names(items: seq<JsValue>): seq<string> {
    if items == [] then []
    else (match items[0] case Str(s) => [s] case _ => []) + Names(items[1..])
  }

  /** The category counter after the articles of `s`. */
  function CategoryCounts(s: seq<Record>): map<string, nat>
    decreases |s|
  {
    if s == [] then map[]
    else
      var m := CategoryCounts(s[..|s| - 1]);
      var c := CategoryOf(s[|s| - 1]);
      if c != "" then Bump(m, c) else m
  }

  /** The tag counter after the articles of `s`. */
  function TagCounts(s: seq<Record>): map<string, nat>
    decreases |s|
  {
    if s == [] then map[] else BumpAll(TagCounts(s[..|s| - 1]), TagNames(s[|s| - 1]))
  }

  /** `article.views || 0` summed over `s`. */
  function SumViews(s: seq<Record>): int
    decreases |s|
  {
    if s == [] then 0 else SumViews(s[..|s| - 1]) + ViewsOf(s[|s| - 1])
  }

  /** The categories of the articles that have one, in order: an independent
      account of what the category counter counts. */
  function Categories(s: seq<Record>): seq<string>
    decreases |s|
  {
    if s == [] then []
    else
      var c := CategoryOf(s[|s| - 1]);
      Categories(s[..|s| - 1]) + (if c != "" then [c] else [])
  }

  /** All tag names of the articles, in order, repetitions included. */
  function AllTags(s: seq<Record>): seq<string>
    decreases |s|
  {
    if s == [] then [] else AllTags(s[..|s| - 1]) + TagNames(s[|s| - 1])
  }

  lemma {:induction false} BumpAllCounts(m: map<string, nat>, ks: seq<string>, k: string)
    ensures Lookup(BumpAll(m, ks), k) == Lookup(m, k) + multiset(ks)[k]
    ensures k in BumpAll(m, ks) <==> k in m || k in ks
    decreases |ks|
  {
    if ks != [] {
      var init := ks[..|ks| - 1];
      BumpAllCounts(m, init, k);
      assert ks == init + [ks[|ks| - 1]];
    }
  }

  /** Each category is counted once per article that has it, and the counter
      has a key exactly for the categories that occur. */
  lemma {:induction false} CategoryCountsAreOccurrences(s: seq<Record>, c: string)
    ensures Lookup(CategoryCounts(s), c) == multiset(Categories(s))[c]
    ensures c in CategoryCounts(s) <==> c in Categories(s)
    decreases |s|
  {
    if s != [] {
      CategoryCountsAreOccurrences(s[..|s| - 1], c);
    }
  }

  /** Each tag is counted once per occurrence in any article's tag list, and
      the counter has a key exactly for the tags that occur. */
  lemma {:induction false} TagCountsAreOccurrences(s: seq<Record>, t: string)
    ensures Lookup(TagCounts(s), t) == multiset(AllTags(s))[t]
    ensures t in TagCounts(s) <==> t in AllTags(s)
    decreases |s|
  {
    if s != [] {
      var init := s[..|s| - 1];
      TagCountsAreOccurrences(init, t);
      BumpAllCounts(TagCounts(init), TagNames(s[|s| - 1]), t);
    }
  }

  // ---------------------------------------------------------------------------
  // Totals of the counters

  /** The sum of the counts of a counter. */
  ghost function SumValues(m: map<string, nat>): nat
    decreases |m|
  {
    if m == map[] then 0
    else
      assert exists k :: k in m by {
        var k :| k in m.Keys;
      }
      var k :| k in m;
      m[k] + SumValues(m - {k})
  }

  lemma SumValuesRemove(m: map<string, nat>, k: string)
    requires k in m
    ensures SumValues(m) == m[k] + SumValues(m - {k})
    decreases |m|
  {
    var j :| j in m && SumValues(m) == m[j] + SumValues(m - {j});
    if j != k {
      SumValuesRemove(m - {j}, k);
      SumValuesRemove(m - {k}, j);
      assert m - {j} - {k} == m - {k} - {j};
    }
  }

  /** Every bump adds one to the sum of the counts. */
  lemma SumValuesBump(m: map<string, nat>, k: string)
    ensures SumValues(Bump(m, k)) == SumValues(m) + 1
  {
    var b := Bump(m, k);
    SumValuesRemove(b, k);
    assert b - {k} == m - {k};
    if k in m {
      SumValuesRemove(m, k);
    } else {
      assert m - {k} == m;
    }
  }

  lemma {:induction false} SumValuesBumpAll(m: map<string, nat>, ks: seq<string>)
    ensures SumValues(BumpAll(m, ks)) == SumValues(m) + |ks|
    decreases |ks|
  {
    if ks != [] {
      SumValuesBumpAll(m, ks[..|ks| - 1]);
      SumValuesBump(BumpAll(m, ks[..|ks| - 1]), ks[|ks| - 1]);
    }
  }

  /** The category counts add up to the number of articles with a category. */
  lemma {:induction false} CategoryTotal(s: seq<Record>)
    ensures SumValues(CategoryCounts(s)) == |Categories(s)|
    decreases |s|
  {
    if s != [] {
      CategoryTotal(s[..|s| - 1]);
      if CategoryOf(s[|s| - 1]) != "" {
        SumValuesBump(CategoryCounts(s[..|s| - 1]), CategoryOf(s[|s| - 1]));
      }
    }
  }

  /** The tag counts add up to the number of tag occurrences. */
  lemma {:induction false} TagTotal(s: seq<Record>)
    ensures SumValues(TagCounts(s)) == |AllTags(s)|
    decreases |s|
  {
    if s != [] {
      TagTotal(s[..|s| - 1]);
      SumValuesBumpAll(TagCounts(s[..|s| - 1]), TagNames(s[|s| - 1]));
    }
  }

  // ---------------------------------------------------------------------------
  // Averages and leaders

  /** `r` is `Math.round(t / n)`: the whole number nearest to `t / n`, halves
      rounded up. */
  predicate IsRounded(r: int, t: int, n: int) {
    2 * n * r - n <= 2 * t < 2 * n * r + n
  }

  /** `Math.round(total / n)` for a positive count. */
  function RoundedMean(total: int, n: int): (r: int)
    requires n > 0
    ensures IsRounded(r, total, n)
  {
    var d := 2 * n;
    var q := (2 * total + n) / d;
    assert 2 * total + n == q * d + (2 * total + n) % d && 0 <= (2 * total + n) % d < d;
    assert 2 * n * q == q * d;
    q
  }

  lemma MulAtLeast(n: int, d: int)
    requires n > 0 && d >= 1
    ensures n * d >= n
  {
    assert n * d == n + n * (d - 1);
  }

  /** The rounded mean is the only whole number with that property. */
  lemma RoundedUnique(r1: int, r2: int, t: int, n: int)
    requires n > 0 && IsRounded(r1, t, n) && IsRounded(r2, t, n)
    ensures r1 == r2
  {
    if r1 != r2 {
      var lo, hi := if r1 < r2 then r1 else r2, if r1 < r2 then r2 else r1;
      assert IsRounded(lo, t, n) && IsRounded(hi, t, n);
      assert 2 * n * hi == 2 * n * lo + 2 * n * (hi - lo);
      MulAtLeast(2 * n, hi - lo);
      assert false;
    }
  }

  /** The article the scan keeps as most viewed, none for no articles. */
  function MostViewed(s: seq<Record>): Option<Record> {
    if s == [] then None else Some(s[FirstBest(ViewsDesc, s)])
  }

  /** The article the scan keeps as most recent, none for no articles. */
  function MostRecent(s: seq<Record>): Option<Record> {
    if s == [] then None else Some(s[FirstBest(DateDesc, s)])
  }

  /** The most viewed article is the first one with the largest view count. */
  lemma MostViewedIsFirstMaximum(s: seq<Record>)
    ensures MostViewed(s).None? <==> s == []
    ensures MostViewed(s).Some? ==> exists k :: (
      && 0 <= k < |s| && s[k] == MostViewed(s).value
      && (forall j :: 0 <= j < |s| ==> ViewsOf(s[j]) <= ViewsOf(s[k]))
      && (forall j :: 0 <= j < k ==> ViewsOf(s[j]) < ViewsOf(s[k])))
  {
    if s != [] {
      var k := FirstBest(ViewsDesc, s);
      assert forall j :: 0 <= j < |s| ==> ViewsOf(s[j]) <= ViewsOf(s[k]) by {
        assert forall j :: 0 <= j < |s| ==> Precedes(ViewsDesc, s[k], s[j]);
      }
    }
  }

  /** The most recent article is the first one with the latest date. */
  lemma MostRecentIsFirstLatest(s: seq<Record>)
    ensures MostRecent(s).None? <==> s == []
    ensures MostRecent(s).Some? ==> exists k :: (
      && 0 <= k < |s| && s[k] == MostRecent(s).value
      && (forall j :: 0 <= j < |s| ==> StrLe(DateOf(s[j]), DateOf(s[k])))
      && (forall j :: 0 <= j < k ==> !StrLe(DateOf(s[k]), DateOf(s[j]))))
  {
    if s != [] {
      var k := FirstBest(DateDesc, s);
      assert forall j :: 0 <= j < |s| ==> StrLe(DateOf(s[j]), DateOf(s[k])) by {
        assert forall j :: 0 <= j < |s| ==> Precedes(DateDesc, s[k], s[j]);
      }
    }
  }

  /** One step of the scan: a later article replaces the most viewed one only
      when its view count is strictly larger. */
  lemma MostViewedSnoc(s: seq<Record>, x: Record)
    ensures MostViewed(s + [x]) ==
      if MostViewed(s).None? || ViewsOf(x) > ViewsOf(MostViewed(s).value) then Some(x) else MostViewed(s)
  {
    if s != [] {
      FirstBestSnoc(ViewsDesc, s, x);
      assert (s + [x])[FirstBest(ViewsDesc, s)] == s[FirstBest(ViewsDesc, s)];
    } else {
      assert FirstBest(ViewsDesc, [x]) == 0;
    }
  }

  /** One step of the scan: a later article replaces the most recent one only
      when its date is strictly later. */
  lemma MostRecentSnoc(s: seq<Record>, x: Record)
    ensures MostRecent(s + [x]) ==
      if MostRecent(s).None? || !StrLe(DateOf(x), DateOf(MostRecent(s).value)) then Some(x) else MostRecent(s)
  {
    if s != [] {
      FirstBestSnoc(DateDesc, s, x);
      assert (s + [x])[FirstBest(DateDesc, s)] == s[FirstBest(DateDesc, s)];
    } else {
      assert FirstBest(DateDesc, [x]) == 0;
    }
  }

  /** One step of the scan on the counters and the view total. */
  lemma CountsSnoc(s: seq<Record>, x: Record)
    ensures CategoryCounts(s + [x]) ==
      if CategoryOf(x) != "" then Bump(CategoryCounts(s), CategoryOf(x)) else CategoryCounts(s)
    ensures TagCounts(s + [x]) == BumpAll(TagCounts(s), TagNames(x))
    ensures SumViews(s + [x]) == SumViews(s) + ViewsOf(x)
  {
    assert (s + [x])[..|s|] == s;
  }

  // ---------------------------------------------------------------------------
  // The scan

  /** The inner `article.tags.forEach`: one bump per tag, in order. */
  method CountTags(counts: map<string, nat>, names: seq<string>) returns (r: map<string, nat>)
    ensures r == BumpAll(counts, names)
  {
    r := counts;
    var j := 0;
    while j < |names|
      invariant 0 <= j <= |names|
      invariant r == BumpAll(counts, names[..j])
    {
      assert names[..j + 1][..j] == names[..j];
      r := Bump(r, names[j]);
      j := j + 1;
    }
    assert names[..j] == names;
  }

  /** The scan's state after one more article of the input. */
  lemma ScanPrefixStep(articles: seq<Record>, i: nat)
    requires i < |articles|
    ensures var p, x, q := articles[..i], articles[i], articles[..i + 1];
      && CategoryCounts(q) == (if CategoryOf(x) != "" then Bump(CategoryCounts(p), CategoryOf(x)) else CategoryCounts(p))
      && TagCounts(q) == BumpAll(TagCounts(p), TagNames(x))
      && SumViews(q) == SumViews(p) + ViewsOf(x)
      && MostViewed(q) == (if MostViewed(p).None? || ViewsOf(x) > ViewsOf(MostViewed(p).value) then Some(x) else MostViewed(p))
      && MostRecent(q) == (if MostRecent(p).None? || !StrLe(DateOf(x), DateOf(MostRecent(p).value)) then Some(x) else MostRecent(p))
  {
    assert articles[..i + 1] == articles[..i] + [articles[i]];
    CountsSnoc(articles[..i], articles[i]);
    MostViewedSnoc(articles[..i], articles[i]);
    MostRecentSnoc(articles[..i], articles[i]);
  }

  /** The `articles.forEach` pass of `getArticleStats`. */
  method Scan(articles: seq<Record>)
    returns (categories: map<string, nat>, tags: map<string, nat>, totalViews: int,
             mostViewed: Option<Record>, mostRecent: Option<Record>)
    ensures categories == CategoryCounts(articles)
    ensures tags == TagCounts(articles)
    ensures totalViews == SumViews(articles)
    ensures mostViewed == MostViewed(articles)
    ensures mostRecent == MostRecent(articles)
  {
    categories, tags, totalViews, mostViewed, mostRecent := map[], map[], 0, None, None;
    var i := 0;
    while i < |articles|
      invariant 0 <= i <= |articles|
      invariant categories == CategoryCounts(articles[..i])
      invariant tags == TagCounts(articles[..i])
      invariant totalViews == SumViews(articles[..i])
      invariant mostViewed == MostViewed(articles[..i])
      invariant mostRecent == MostRecent(articles[..i])
    {
      var article := articles[i];
      ScanPrefixStep(articles, i);
      if CategoryOf(article) != "" {
        categories := Bump(categories, CategoryOf(article));
      }
      tags := CountTags(tags, TagNames(article));
      var views := ViewsOf(article);
      totalViews := totalViews + views;
      if mostViewed.None? || views > ViewsOf(mostViewed.value) {
        mostViewed := Some(article);
      }
      if mostRecent.None? || !StrLe(DateOf(article), DateOf(mostRecent.value)) {
        mostRecent := Some(article);
      }
      i := i + 1;
    }
    assert articles[..i] == articles;
  }

  /** `getArticleStats`: the counts, the view total, its rounded mean and the
      leaders. */
  method GetArticleStats(articles: seq<Record>) returns (stats: ArticleStats)
    requires forall a :: a in articles ==> IsArticle(a)
    ensures stats.total == |articles|
    ensures stats.categories == CategoryCounts(articles)
    ensures stats.tags == TagCounts(articles)
    ensures stats.totalViews == SumViews(articles)
    ensures |articles| > 0 ==> IsRounded(stats.averageViews, stats.totalViews, |articles|)
    ensures |articles| == 0 ==> stats.averageViews == 0
    ensures stats.mostViewed == MostViewed(articles)
    ensures stats.mostRecent == MostRecent(articles)
  {
    var categories, tags, totalViews, mostViewed, mostRecent := Scan(articles);
    var averageViews := if |articles| > 0 then RoundedMean(totalViews, |articles|) else 0;
    stats := ArticleStats(|articles|, categories, tags, totalViews, averageViews, mostViewed, mostRecent);
  }
}
