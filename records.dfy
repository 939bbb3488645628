/** Operations on the ordered collections of records the content store keeps:
    identifier assignment (`Math.max(...ids, 0) + 1`), first-match lookup
    (`findIndex`/`find` with `===`), the shallow merge of an update and
    removal of one element (`splice(i, 1)`). */
module Records {
  import opened JsValues

  /** `Number(r.id)`. */
  function IdNumber(r: Record): (x: JsValue)
    ensures x.Num? || x.NaN?
  {
    ToNumber(Get(r, "id"))
  }

  /** `Math.max(...s.map(r => Number(r.id)), 0)`: `NaN` as soon as one
      identifier is not numeric, otherwise the largest identifier or 0. */
  function MaxId(s: seq<Record>): (m: JsValue)
    ensures m.Num? || m.NaN?
    ensures m.NaN? <==> exists i :: 0 <= i < |s| && IdNumber(s[i]).NaN?
    ensures m.Num? ==> m.n >= 0 && forall i :: 0 <= i < |s| ==> IdNumber(s[i]).Num? && IdNumber(s[i]).n <= m.n
    ensures m.Num? ==> m.n == 0 || exists i :: 0 <= i < |s| && IdNumber(s[i]) == m
  {
    if s == [] then Num(0)
    else
      var m := MaxId(s[..|s| - 1]);
      var x := IdNumber(s[|s| - 1]);
      assert forall i :: 0 <= i < |s| - 1 ==> s[..|s| - 1][i] == s[i];
      if m.NaN? || x.NaN? then NaN
      else Num(if x.n > m.n then x.n else m.n)
  }

  /** The identifier the add operations assign and `generateArticleId`
      returns: one more than the largest numeric identifier, at least 1, or
      `NaN` when some identifier does not read as a number. */
  function NextId(s: seq<Record>): (r: JsValue)
    ensures r.Num? || r.NaN?
    ensures r.NaN? <==> exists i :: 0 <= i < |s| && IdNumber(s[i]).NaN?
    ensures r.Num? ==> r.n >= 1 && forall i :: 0 <= i < |s| ==> IdNumber(s[i]).Num? && IdNumber(s[i]).n < r.n
    ensures r.Num? ==> r.n == 1 || exists i :: 0 <= i < |s| && IdNumber(s[i]) == Num(r.n - 1)
    ensures s == [] ==> r == Num(1)
  {
    match MaxId(s)
    case Num(m) => Num(m + 1)
    case _ => NaN
  }

  /** The test `r.key === v` of `find` and `findIndex`. */
  predicate Matches(r: Record, key: string, v: JsValue) {
    StrictEquals(Get(r, key), v)
  }

  /** `s.findIndex(r => r.key === v)`: the first matching position, or -1. */
  function FindIndex(s: seq<Record>, key: string, v: JsValue): (i: int)
    ensures -1 <= i < |s|
    ensures i == -1 <==> forall k :: 0 <= k < |s| ==> !Matches(s[k], key, v)
    ensures 0 <= i ==> Matches(s[i], key, v) && forall k :: 0 <= k < i ==> !Matches(s[k], key, v)
  {
    if s == [] then -1
    else if Matches(s[0], key, v) then 0
    else
      var j := FindIndex(s[1..], key, v);
      assert forall k :: 1 <= k < |s| ==> s[1..][k - 1] == s[k];
      if j == -1 then -1 else j + 1
  }

  /** The object spread `{...base, ...patch}`: every property of the patch
      overwrites, every other property of the base is kept. */
  function Merge(base: Record, patch: Record): (r: Record)
    ensures r.Keys == base.Keys + patch.Keys
    ensures forall k :: k in patch ==> r[k] == patch[k]
    ensures forall k :: k in base && k !in patch ==> r[k] == base[k]
  {
    base + patch
  }

  /** `s.splice(i, 1)`: the element at `i` is removed, the others keep their order. */
  function RemoveAt(s: seq<Record>, i: int): (r: seq<Record>)
    requires 0 <= i < |s|
    ensures |r| == |s| - 1
    ensures forall k {:trigger r[k]} :: 0 <= k < i ==> r[k] == s[k]
    ensures forall k {:trigger r[k]} :: i <= k < |r| ==> r[k] == s[k + 1]
    ensures multiset(r) + multiset{s[i]} == multiset(s)
  {
    assert s == s[..i] + [s[i]] + s[i + 1..];
    s[..i] + s[i + 1..]
  }

  /** No two positions hold records whose `key` properties are `===`. */
  predicate UniqueBy(s: seq<Record>, key: string) {
    forall i, j :: 0 <= i < j < |s| ==> !Matches(s[j], key, Get(s[i], key))
  }

  /** The assigned identifier is fresh: no record already has it. */
  lemma NextIdIsFresh(s: seq<Record>)
    requires NextId(s).Num?
    ensures FindIndex(s, "id", NextId(s)) == -1
  {
    var r := NextId(s);
    assert forall k :: 0 <= k < |s| ==> IdNumber(s[k]).n < r.n;
  }

  /** Appending a record that carries the next identifier keeps identifiers
      unique, and looking that identifier up finds the appended record. */
  lemma AppendFreshKeepsUnique(s: seq<Record>, rec: Record)
    requires UniqueBy(s, "id") && NextId(s).Num? && Get(rec, "id") == NextId(s)
    ensures UniqueBy(s + [rec], "id") && FindIndex(s + [rec], "id", NextId(s)) == |s|
  {
    NextIdIsFresh(s);
    AppendUnmatchedKeepsUnique(s, "id", rec);
    FindAppended(s, "id", rec);
  }

  /** Looking up the key of a record appended after no match finds it at the end. */
  lemma FindAppended(s: seq<Record>, key: string, rec: Record)
    requires FindIndex(s, key, Get(rec, key)) == -1 && !Get(rec, key).NaN?
    ensures FindIndex(s + [rec], key, Get(rec, key)) == |s|
  {
    var t, v := s + [rec], Get(rec, key);
    assert t[|s|] == rec && Matches(rec, key, v);
    forall k | 0 <= k < |s| ensures !Matches(t[k], key, v) {
      assert t[k] == s[k];
    }
  }

  /** After removing the match of a unique key, no record has that key any more
      and the keys stay unique. */
  lemma RemoveMatchLeavesNone(s: seq<Record>, key: string, v: JsValue)
    requires UniqueBy(s, key) && FindIndex(s, key, v) >= 0
    ensures var t := RemoveAt(s, FindIndex(s, key, v));
      FindIndex(t, key, v) == -1 && UniqueBy(t, key)
  {
    var i := FindIndex(s, key, v);
    var t := RemoveAt(s, i);
    assert Get(s[i], key) == v;
    forall k | 0 <= k < |t| ensures !Matches(t[k], key, v) {
      if k < i {
        assert t[k] == s[k];
      } else {
        assert t[k] == s[k + 1];
        assert !Matches(s[k + 1], key, Get(s[i], key));
      }
    }
    forall a, b | 0 <= a < b < |t| ensures !Matches(t[b], key, Get(t[a], key)) {
      var a' := if a < i then a else a + 1;
      var b' := if b < i then b else b + 1;
      assert t[a] == s[a'] && t[b] == s[b'] && a' < b';
    }
  }

  /** A patch that does not change `key` (it leaves it out, or repeats the
      record's own value) keeps the keys of the collection unique. */
  lemma MergeAtKeepsUnique(s: seq<Record>, key: string, i: int, patch: Record)
    requires UniqueBy(s, key) && 0 <= i < |s| && (key !in patch || patch[key] == Get(s[i], key))
    ensures UniqueBy(s[i := Merge(s[i], patch)], key)
  {
    var t := s[i := Merge(s[i], patch)];
    assert Get(t[i], key) == Get(s[i], key);
    forall a, b | 0 <= a < b < |t| ensures !Matches(t[b], key, Get(t[a], key)) {
      assert Get(t[a], key) == Get(s[a], key) && Get(t[b], key) == Get(s[b], key);
    }
  }

  /** Appending a record whose key no record matches keeps the keys unique. */
  lemma AppendUnmatchedKeepsUnique(s: seq<Record>, key: string, rec: Record)
    requires UniqueBy(s, key) && FindIndex(s, key, Get(rec, key)) == -1
    ensures UniqueBy(s + [rec], key)
  {
    var t := s + [rec];
    forall i, j | 0 <= i < j < |t| ensures !Matches(t[j], key, Get(t[i], key)) {
      if j == |s| {
        assert !Matches(s[i], key, Get(rec, key));
      } else {
        assert t[i] == s[i] && t[j] == s[j];
      }
    }
  }
}
