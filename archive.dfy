/** The one-time merge of the bundled newsletter archive into the store (the
    archive branch of `getCMSData("newsletters")`): each bundled module may
    hold a `newsletters` array of raw records; each raw record is normalized,
    dropped when its identifier's string form is already in the store, and
    the survivors are appended and the whole collection re-sorted newest
    first. Any exception on the way discards the whole batch. */
module Archive {
  import opened Wrappers
  import opened Text
  import opened JsValues
  import opened Records
  import opened Sorting
  import opened Seqs

  /** The descriptive properties a normalized newsletter copies from the raw record. */
  const CopiedKeys: set<string> := {
    "title", "date", "displayDate", "keyDiscussion", "contentHtml", "image",
    "newsletterUrl", "summary", "category", "views", "author", "lastUpdated",
    "insights", "resources"
  }

  /** The properties every normalized newsletter carries (some possibly `undefined`). */
  const NormalizedKeys: set<string> := CopiedKeys + {"id", "content", "tags"}

  /** The three properties normalization computes are not among the copied ones. */
  lemma OverridesNotCopied()
    ensures "id" !in CopiedKeys && "content" !in CopiedKeys && "tags" !in CopiedKeys
  {
  }

  /** The properties of a raw value as property reads see them (only objects have any). */
  function Fields(n: JsValue): Record {
    if n.Obj? then n.fields else map[]
  }

  /** The identifier of a normalized record: `n.id || n.slug || Date.now().toString()`. */
  function FallbackId(m: Record, now: int): (id: JsValue)
    ensures Truthy(id)
    ensures id == (if Truthy(Get(m, "id")) then m["id"]
                   else if Truthy(Get(m, "slug")) then m["slug"]
                   else Str(IntToString(now)))
  {
    Or(Or(Get(m, "id"), Get(m, "slug")), Str(IntToString(now)))
  }

  /** The normalization of one raw archive record: the identifier falls back
      from `id` to `slug` to the current time in milliseconds, `content` falls
      back to `contentHtml`, `tags` defaults to `[]`, the other descriptive
      properties are copied as they are. Reading a property of `null` or
      `undefined` throws. */
  function Normalize(n: JsValue, now: int): (r: Result<Record>)
    ensures r.Failure? <==> n.Undefined? || n.Null?
    ensures r.Success? ==> r.value.Keys == NormalizedKeys
    ensures r.Success? ==> r.value["id"] == FallbackId(Fields(n), now)
    ensures r.Success? ==> Truthy(r.value["tags"])
    ensures r.Success? ==> var m := Fields(n);
      && r.value["content"] == (if Truthy(Get(m, "content")) then m["content"] else Get(m, "contentHtml"))
      && r.value["tags"] == (if Truthy(Get(m, "tags")) then m["tags"] else Arr([]))
    ensures r.Success? ==> forall k :: k in CopiedKeys ==> r.value[k] == Get(Fields(n), k)
  {
    if n.Undefined? || n.Null? then
      Failure("TypeError: cannot read properties of " + (if n.Null? then "null" else "undefined"))
    else
      var m := Fields(n);
      var copied := map k | k in CopiedKeys :: Get(m, k);
      var overrides := map[
        "id" := FallbackId(m, now),
        "content" := Or(Get(m, "content"), Get(m, "contentHtml")),
        "tags" := Or(Get(m, "tags"), Arr([]))];
      OverridesNotCopied();
      assert overrides.Keys == {"id", "content", "tags"};
      var r := copied + overrides;
      assert copied.Keys == CopiedKeys;
      assert r.Keys == CopiedKeys + overrides.Keys;
      assert forall k :: k in CopiedKeys ==> k !in overrides && r[k] == copied[k];
      Success(r)
  }

  /** `c.id.toString()`. */
  function IdString(c: Record): Option<string> {
    ToStringOf(Get(c, "id"))
  }

  /** Whether `cache.find(c => c.id.toString() === key)` finds a record; the
      search throws on a record whose identifier is `undefined` or `null`
      when no earlier record matched. */
  function ExistsId(cache: seq<Record>, key: string): (r: Result<bool>)
    ensures r == Success(true) ==> exists i :: 0 <= i < |cache| && IdString(cache[i]) == Some(key)
    ensures r == Success(false) <==> forall i :: 0 <= i < |cache| ==> IdString(cache[i]).Some? && IdString(cache[i]) != Some(key)
  {
    if cache == [] then Success(false)
    else
      assert forall i :: 1 <= i < |cache| ==> cache[1..][i - 1] == cache[i];
      match IdString(cache[0])
      case None => Failure("TypeError: cannot read properties of an identifier that is undefined or null")
      case Some(c) => if c == key then Success(true) else ExistsId(cache[1..], key)
  }

  /** One raw record of the batch: `[normalized]` when its identifier is new
      to the store, `[]` when it is already there. */
  function ImportOne(cache: seq<Record>, n: JsValue, now: int): (r: Result<seq<Record>>)
    ensures r.Success? ==> |r.value| <= 1
  {
    match Normalize(n, now)
    case Failure(e) => Failure(e)
    case Success(rec) =>
      var key := ToStringOf(rec["id"]).value;
      match ExistsId(cache, key)
      case Failure(e) => Failure(e)
      case Success(found) => Success(if found then [] else [rec])
  }

  /** The `imported` array after the raw records `raws` were processed in order. */
  function Imported(cache: seq<Record>, raws: seq<JsValue>, now: int): Result<seq<Record>> {
    if raws == [] then Success([])
    else
      match Imported(cache, raws[..|raws| - 1], now)
      case Failure(e) => Failure(e)
      case Success(acc) =>
        match ImportOne(cache, raws[|raws| - 1], now)
        case Failure(e) => Failure(e)
        case Success(more) => Success(acc + more)
  }

  /** `mod && Array.isArray(mod.newsletters) ? mod.newsletters : []`. */
  function ModuleNewsletters(mod: JsValue): seq<JsValue> {
    if Truthy(mod) && mod.Obj? && Get(mod.fields, "newsletters").Arr? then
      Get(mod.fields, "newsletters").items
    else []
  }

  /** The raw records of all bundled modules, in module order. */
  function RawNewsletters(modules: seq<JsValue>): seq<JsValue> {
    if modules == [] then []
    else RawNewsletters(modules[..|modules| - 1]) + ModuleNewsletters(modules[|modules| - 1])
  }

  /** The newsletters collection after the archive merge. When the archive
      source cannot be read, or an exception happens on the way, or nothing
      is new, the collection is left as it was. */
  function MergeArchive(cache: seq<Record>, modules: seq<JsValue>, sourceFails: bool, now: int): seq<Record> {
    if sourceFails then cache
    else
      match Imported(cache, RawNewsletters(modules), now)
      case Failure(_) => cache
      case Success(imported) => if imported == [] then cache else SortBy(DateDesc, cache + imported)
  }

  // ---------------------------------------------------------------------------
  // Properties

  /** No record of the store has the same identifier string as `r`. */
  predicate NewToStore(cache: seq<Record>, r: Record) {
    forall i :: 0 <= i < |cache| ==> IdString(cache[i]).Some? && IdString(cache[i]) != IdString(r)
  }

  /** `r` is the normalization of one of the raw records. */
  ghost predicate FromRaw(raws: seq<JsValue>, r: Record, now: int) {
    exists n :: n in raws && Normalize(n, now) == Success(r)
  }

  lemma ImportOneIsNew(cache: seq<Record>, n: JsValue, now: int)
    requires ImportOne(cache, n, now).Success?
    ensures forall r :: r in ImportOne(cache, n, now).value ==>
      Normalize(n, now) == Success(r) && NewToStore(cache, r)
  {
  }

  /** Every imported record is the normalization of some raw record, and its
      identifier's string form is not that of any record in the store. */
  lemma {:induction false} ImportedAreNew(cache: seq<Record>, raws: seq<JsValue>, now: int)
    requires Imported(cache, raws, now).Success?
    ensures forall r :: r in Imported(cache, raws, now).value ==>
      FromRaw(raws, r, now) && NewToStore(cache, r)
  {
    if raws != [] {
      var front := raws[..|raws| - 1];
      var last := raws[|raws| - 1];
      ImportedAreNew(cache, front, now);
      ImportOneIsNew(cache, last, now);
      var acc := Imported(cache, front, now).value;
      var more := ImportOne(cache, last, now).value;
      assert Imported(cache, raws, now).value == acc + more;
      assert last in raws;
      forall r | r in acc + more ensures FromRaw(raws, r, now) {
        if r in acc {
          var n :| n in front && Normalize(n, now) == Success(r);
          assert n in raws;
        }
      }
    }
  }

  /** Conversely, a raw record whose normalization is new to the store is pushed. */
  lemma ImportOneKeepsNew(cache: seq<Record>, n: JsValue, now: int, r: Record)
    requires Normalize(n, now) == Success(r) && NewToStore(cache, r)
    ensures ImportOne(cache, n, now) == Success([r])
  {
    var key := ToStringOf(r["id"]).value;
    assert IdString(r) == Some(key);
    assert ExistsId(cache, key) == Success(false);
  }

  /** Every raw record whose normalization is new to the store is imported:
      nothing new is dropped. */
  lemma ImportedKeepsNew(cache: seq<Record>, raws: seq<JsValue>, now: int, n: JsValue, r: Record)
    requires Imported(cache, raws, now).Success?
    requires n in raws && Normalize(n, now) == Success(r) && NewToStore(cache, r)
    ensures r in Imported(cache, raws, now).value
  {
    var k :| 0 <= k < |raws| && raws[k] == n;
    ImportedExactly(cache, raws, now);
    NormalizedHas(raws, now, k, r);
  }

  /** The batch is checked against the store only, not against itself: the
      same new record twice is imported twice. */
  lemma ImportedKeepsDuplicates(cache: seq<Record>, n: JsValue, now: int, r: Record)
    requires Normalize(n, now) == Success(r) && NewToStore(cache, r)
    ensures Imported(cache, [n, n], now) == Success([r, r])
  {
    var none: seq<JsValue> := [];
    var one := none + [n];
    var two := one + [n];
    ImportOneKeepsNew(cache, n, now, r);
    assert Imported(cache, none, now) == Success([]);
    ImportedSnoc(cache, none, n, now);
    assert Imported(cache, one, now) == Success([] + [r]);
    ImportedSnoc(cache, one, n, now);
    assert Imported(cache, two, now) == Success([] + [r] + [r]);
    assert two == [n, n] && [] + [r] + [r] == [r, r];
  }

  /** The normalizations of the raw records that normalize, in order. */
  function Normalized(raws: seq<JsValue>, now: int): (rs: seq<Record>)
    ensures |rs| <= |raws|
  {
    if raws == [] then []
    else
      Normalized(raws[..|raws| - 1], now) + NormalizedOne(raws[|raws| - 1], now)
  }

  /** `[normalized]` for a raw record that normalizes, `[]` for one that throws. */
  function NormalizedOne(n: JsValue, now: int): (rs: seq<Record>)
    ensures forall r :: Normalize(n, now) == Success(r) ==> rs == [r]
  {
    match Normalize(n, now)
    case Success(r) => [r]
    case Failure(_) => []
  }

  /** The normalization of each raw record that normalizes is among them. */
  lemma {:induction false} NormalizedHas(raws: seq<JsValue>, now: int, k: nat, r: Record)
    requires k < |raws| && Normalize(raws[k], now) == Success(r)
    ensures r in Normalized(raws, now)
  {
    var front := raws[..|raws| - 1];
    var prev := Normalized(front, now);
    var one := NormalizedOne(raws[|raws| - 1], now);
    assert Normalized(raws, now) == prev + one;
    if k == |raws| - 1 {
      assert one == [r];
    } else {
      assert front[k] == raws[k];
      NormalizedHas(front, now, k, r);
    }
  }

  /** Whenever the batch succeeds, the imported records are exactly the
      normalized raw records that are new to the store, in raw order. */
  lemma {:induction false} ImportedExactly(cache: seq<Record>, raws: seq<JsValue>, now: int)
    requires Imported(cache, raws, now).Success?
    ensures Imported(cache, raws, now).value == Filter(Normalized(raws, now), r => NewToStore(cache, r))
  {
    var p := r => NewToStore(cache, r);
    if raws != [] {
      var front := raws[..|raws| - 1];
      var last := raws[|raws| - 1];
      ImportedExactly(cache, front, now);
      var rl := Normalize(last, now).value;
      var more := ImportOne(cache, last, now).value;
      if NewToStore(cache, rl) {
        ImportOneKeepsNew(cache, last, now, rl);
      } else {
        ImportOneIsNew(cache, last, now);
        assert more == [];
      }
      FilterConcat(Normalized(front, now), [rl], p);
      FilterCons(rl, [], p);
      assert [rl] + [] == [rl];
    }
  }

  /** Once the batch throws, the rest of the batch does not matter. */
  lemma {:induction false} ImportedFailureSticks(cache: seq<Record>, raws: seq<JsValue>, head: seq<JsValue>, now: int)
    requires |head| <= |raws| && raws[..|head|] == head
    requires Imported(cache, head, now).Failure?
    ensures Imported(cache, raws, now).Failure?
  {
    if |head| < |raws| {
      var p := raws[..|raws| - 1];
      assert p[..|head|] == head;
      ImportedFailureSticks(cache, p, head, now);
    } else {
      assert raws == head;
    }
  }

  /** Processing one more raw record extends the batch by that record's result. */
  lemma ImportedSnoc(cache: seq<Record>, raws: seq<JsValue>, n: JsValue, now: int)
    ensures Imported(cache, raws + [n], now) ==
      match Imported(cache, raws, now)
      case Failure(e) => Failure(e)
      case Success(acc) =>
        match ImportOne(cache, n, now)
        case Failure(e) => Failure(e)
        case Success(more) => Success(acc + more)
  {
    assert (raws + [n])[..|raws + [n]| - 1] == raws;
  }

  /** The raw records of the first `m + 1` modules are those of the first `m`
      followed by those of module `m`, and those of any prefix of the modules
      are a prefix of all of them. */
  lemma RawNewslettersNext(modules: seq<JsValue>, m: nat)
    requires m < |modules|
    ensures RawNewsletters(modules[..m + 1]) == RawNewsletters(modules[..m]) + ModuleNewsletters(modules[m])
  {
    assert modules[..m + 1][..m] == modules[..m];
  }

  lemma {:induction false} RawNewslettersPrefix(modules: seq<JsValue>, m: nat)
    requires m <= |modules|
    ensures var p := RawNewsletters(modules[..m]);
      |p| <= |RawNewsletters(modules)| && RawNewsletters(modules)[..|p|] == p
  {
    if m < |modules| {
      var front := modules[..|modules| - 1];
      assert modules[..m] == front[..m];
      RawNewslettersPrefix(front, m);
      assert modules[..|modules| - 1] == front;
    } else {
      assert modules[..m] == modules;
    }
  }

  /** The merge never loses or alters a record the store already had; it adds
      exactly the imported records; and whenever it changed anything, the
      collection is sorted newest first. */
  lemma MergeKeepsExisting(cache: seq<Record>, modules: seq<JsValue>, sourceFails: bool, now: int)
    ensures var merged := MergeArchive(cache, modules, sourceFails, now);
      && multiset(cache) <= multiset(merged)
      && (merged == cache || Sorted(DateDesc, merged))
      && (merged != cache ==>
            !sourceFails && Imported(cache, RawNewsletters(modules), now).Success?
            && Imported(cache, RawNewsletters(modules), now).value != []
            && multiset(merged) == multiset(cache) + multiset(Imported(cache, RawNewsletters(modules), now).value))
  {
  }

  /** An exception while scanning module `m`, at its raw record `k - 1`,
      fails the whole batch. */
  lemma BatchFailureSticks(cache: seq<Record>, modules: seq<JsValue>, m: nat, k: nat, now: int)
    requires m < |modules| && 0 < k <= |ModuleNewsletters(modules[m])|
    requires Imported(cache, RawNewsletters(modules[..m]) + ModuleNewsletters(modules[m])[..k], now).Failure?
    ensures Imported(cache, RawNewsletters(modules), now).Failure?
  {
    var items := ModuleNewsletters(modules[m]);
    var seen := RawNewsletters(modules[..m]);
    RawNewslettersNext(modules, m);
    RawNewslettersPrefix(modules, m + 1);
    PrefixOfConcat(seen, items, RawNewsletters(modules), k);
    ImportedFailureSticks(cache, RawNewsletters(modules), seen + items[..k], now);
  }
}
