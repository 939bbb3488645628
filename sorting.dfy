/** The orders in which records are sorted (`Array.prototype.sort` with the
    comparators of the content store and of `filterArticles`) and the stable
    sort itself. Dates compare as their ISO `YYYY-MM-DD` strings, titles by
    code point, views as integers with a missing count read as 0. */
module Sorting {
  import opened Text
  import opened JsValues
  import opened Seqs

  /** The `date` property when it is a string, the empty string otherwise. */
  function DateOf(r: Record): string {
    match Get(r, "date")
    case Str(s) => s
    case _ => ""
  }

  /** The `title` property when it is a string, the empty string otherwise. */
  function TitleOf(r: Record): string {
    match Get(r, "title")
    case Str(s) => s
    case _ => ""
  }

  /** `r.views || 0`. */
  function ViewsOf(r: Record): int {
    match Get(r, "views")
    case Num(n) => n
    case _ => 0
  }

  /** The comparators: `date-desc` (also the archive merge), `date-asc`,
      `title-asc`, `title-desc` and `views-desc`. */
  datatype Order = DateDesc | DateAsc | TitleAsc | TitleDesc | ViewsDesc

  /** The comparator returns at most 0 on `(a, b)`: `a` may stand before `b`. */
  predicate Precedes(order: Order, a: Record, b: Record) {
    match order
    case DateDesc => StrLe(DateOf(b), DateOf(a))
    case DateAsc => StrLe(DateOf(a), DateOf(b))
    case TitleAsc => StrLe(TitleOf(a), TitleOf(b))
    case TitleDesc => StrLe(TitleOf(b), TitleOf(a))
    case ViewsDesc => ViewsOf(b) <= ViewsOf(a)
  }

  lemma PrecedesTotal(order: Order, a: Record, b: Record)
    ensures Precedes(order, a, b) || Precedes(order, b, a)
  {
    match order
    case DateDesc => StrLeTotal(DateOf(a), DateOf(b));
    case DateAsc => StrLeTotal(DateOf(a), DateOf(b));
    case TitleAsc => StrLeTotal(TitleOf(a), TitleOf(b));
    case TitleDesc => StrLeTotal(TitleOf(a), TitleOf(b));
    case ViewsDesc =>
  }

  lemma PrecedesTransitive(order: Order, a: Record, b: Record, c: Record)
    requires Precedes(order, a, b) && Precedes(order, b, c)
    ensures Precedes(order, a, c)
  {
    match order
    case DateDesc => StrLeTransitive(DateOf(c), DateOf(b), DateOf(a));
    case DateAsc => StrLeTransitive(DateOf(a), DateOf(b), DateOf(c));
    case TitleAsc => StrLeTransitive(TitleOf(a), TitleOf(b), TitleOf(c));
    case TitleDesc => StrLeTransitive(TitleOf(c), TitleOf(b), TitleOf(a));
    case ViewsDesc =>
  }

  predicate Sorted(order: Order, s: seq<Record>) {
    forall i, j :: 0 <= i < j < |s| ==> Precedes(order, s[i], s[j])
  }

  /** Puts `x` in front of the first element it may precede, so that it stays
      ahead of the elements it ties with. */
  function Insert(order: Order, x: Record, s: seq<Record>): (r: seq<Record>)
    ensures |r| == |s| + 1
    ensures multiset(r) == multiset(s) + multiset{x}
    ensures forall j :: 0 <= j < |r| ==> r[j] == x || r[j] in s
  {
    if s == [] then [x]
    else if Precedes(order, x, s[0]) then [x] + s
    else
      assert s == [s[0]] + s[1..];
      [s[0]] + Insert(order, x, s[1..])
  }

  lemma SortedCons(order: Order, y: Record, t: seq<Record>)
    requires Sorted(order, t)
    requires forall j :: 0 <= j < |t| ==> Precedes(order, y, t[j])
    ensures Sorted(order, [y] + t)
  {
    var u := [y] + t;
    forall i, j | 0 <= i < j < |u| ensures Precedes(order, u[i], u[j]) {
      if i == 0 {
        assert u[j] == t[j - 1];
      } else {
        assert u[i] == t[i - 1] && u[j] == t[j - 1];
      }
    }
  }

  lemma {:induction false} InsertSorted(order: Order, x: Record, s: seq<Record>)
    requires Sorted(order, s)
    ensures Sorted(order, Insert(order, x, s))
  {
    if s == [] {
    } else if Precedes(order, x, s[0]) {
      forall j | 0 <= j < |s| ensures Precedes(order, x, s[j]) {
        if j > 0 {
          PrecedesTransitive(order, x, s[0], s[j]);
        }
      }
      SortedCons(order, x, s);
    } else {
      var rest := s[1..];
      assert Sorted(order, rest) by {
        forall i, j | 0 <= i < j < |rest| ensures Precedes(order, rest[i], rest[j]) {
          assert rest[i] == s[i + 1] && rest[j] == s[j + 1];
        }
      }
      InsertSorted(order, x, rest);
      var t := Insert(order, x, rest);
      PrecedesTotal(order, x, s[0]);
      forall j | 0 <= j < |t| ensures Precedes(order, s[0], t[j]) {
        if t[j] != x {
          var k :| 0 <= k < |rest| && rest[k] == t[j];
          assert s[k + 1] == t[j];
        }
      }
      SortedCons(order, s[0], t);
    }
  }

  /** The sort of `s` under the comparator: a sorted permutation of `s`.
      JavaScript's sort is stable, so records that tie keep their relative
      order; `SortByStable` proves that of this definition. */
  function SortBy(order: Order, s: seq<Record>): (r: seq<Record>)
    ensures |r| == |s|
    ensures multiset(r) == multiset(s)
    ensures Sorted(order, r)
  {
    if s == [] then []
    else
      var t := SortBy(order, s[1..]);
      InsertSorted(order, s[0], t);
      assert s == [s[0]] + s[1..];
      Insert(order, s[0], t)
  }

  /** The records that tie with `k` under the comparator: each may stand
      before the other. */
  function TiedWith(order: Order, k: Record): Record -> bool {
    x => Precedes(order, x, k) && Precedes(order, k, x)
  }

  /** `r` lists every group of tied records of `s` in the order `s` does. */
  ghost predicate Stable(order: Order, s: seq<Record>, r: seq<Record>) {
    forall k :: Filter(r, TiedWith(order, k)) == Filter(s, TiedWith(order, k))
  }

  /** Inserting `x` only passes over records that stand strictly before it,
      so a filter that never keeps `x` together with such a record sees
      `x` in front. */
  lemma {:induction false} InsertKeepsFilter(order: Order, x: Record, t: seq<Record>, p: Record -> bool)
    requires forall y :: !Precedes(order, x, y) ==> !(p(x) && p(y))
    ensures Filter(Insert(order, x, t), p) == Filter([x] + t, p)
  {
    if t != [] && !Precedes(order, x, t[0]) {
      var y, u := t[0], t[1..];
      var rest := Insert(order, x, u);
      InsertKeepsFilter(order, x, u, p);
      assert t == [y] + u;
      assert Insert(order, x, t) == [y] + rest;
      FilterPassOver(p, x, y, rest, u);
    }
  }

  /** A record that `x` may not stand before does not tie with `x`, so the
      two cannot both tie with `k`. */
  lemma TiedNotPassed(order: Order, x: Record, y: Record, k: Record)
    requires !Precedes(order, x, y)
    ensures !(TiedWith(order, k)(x) && TiedWith(order, k)(y))
  {
    if Precedes(order, x, k) && Precedes(order, k, y) {
      PrecedesTransitive(order, x, k, y);
    }
  }

  /** The sort is stable: records that tie keep their relative order. */
  lemma {:induction false} SortByStable(order: Order, s: seq<Record>)
    ensures Stable(order, s, SortBy(order, s))
  {
    if s != [] {
      SortByStable(order, s[1..]);
      var t := SortBy(order, s[1..]);
      forall k ensures Filter(SortBy(order, s), TiedWith(order, k)) == Filter(s, TiedWith(order, k)) {
        forall y | !Precedes(order, s[0], y) ensures !(TiedWith(order, k)(s[0]) && TiedWith(order, k)(y)) {
          TiedNotPassed(order, s[0], y, k);
        }
        InsertKeepsFilter(order, s[0], t, TiedWith(order, k));
        assert s == [s[0]] + s[1..];
        FilterCons(s[0], t, TiedWith(order, k));
        FilterCons(s[0], s[1..], TiedWith(order, k));
      }
    }
  }

  /** The first element that no later or earlier element strictly beats: the
      position a left-to-right scan keeps when it replaces its candidate only
      on a strict improvement. */
  function FirstBest(order: Order, s: seq<Record>): (k: nat)
    requires s != []
    ensures k < |s|
    ensures forall j :: 0 <= j < |s| ==> Precedes(order, s[k], s[j])
    ensures forall j :: 0 <= j < k ==> !Precedes(order, s[j], s[k])
  {
    if |s| == 1 then
      PrecedesTotal(order, s[0], s[0]);
      0
    else
      var p := s[..|s| - 1];
      var k := FirstBest(order, p);
      assert forall j :: 0 <= j < |p| ==> p[j] == s[j];
      var last := |s| - 1;
      if !Precedes(order, s[k], s[last]) then
        PrecedesTotal(order, s[k], s[last]);
        assert forall j :: 0 <= j < last ==> Precedes(order, s[k], s[j]);
        PrecedesTotal(order, s[last], s[last]);
        FirstBestStep(order, s, k);
        last
      else
        k
  }

  /** The step of `FirstBest` that takes a strictly better last element. */
  lemma FirstBestStep(order: Order, s: seq<Record>, k: nat)
    requires 0 <= k < |s| - 1
    requires forall j :: 0 <= j < |s| - 1 ==> Precedes(order, s[k], s[j])
    requires !Precedes(order, s[k], s[|s| - 1])
    ensures forall j :: 0 <= j < |s| ==> Precedes(order, s[|s| - 1], s[j])
    ensures forall j :: 0 <= j < |s| - 1 ==> !Precedes(order, s[j], s[|s| - 1])
  {
    var last := |s| - 1;
    PrecedesTotal(order, s[k], s[last]);
    PrecedesTotal(order, s[last], s[last]);
    forall j | 0 <= j < last ensures Precedes(order, s[last], s[j]) && !Precedes(order, s[j], s[last]) {
      PrecedesTransitive(order, s[last], s[k], s[j]);
      if Precedes(order, s[j], s[last]) {
        PrecedesTransitive(order, s[k], s[j], s[last]);
      }
    }
  }

  /** Scanning one more element: it takes the place of the candidate exactly
      when it is strictly better. */
  lemma FirstBestSnoc(order: Order, s: seq<Record>, x: Record)
    requires s != []
    ensures FirstBest(order, s + [x]) ==
      if Precedes(order, s[FirstBest(order, s)], x) then FirstBest(order, s) else |s|
  {
    assert (s + [x])[..|s|] == s;
  }
}
