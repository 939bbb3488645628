/** The text utilities for article content: removing HTML tags, the word
    count behind the reading-time estimate, and URL slugs. Each regular
    expression replacement is written out as the left-to-right scan that a
    global replacement performs. */
module NewsText {
  import opened Text
  import Seqs

  // ---------------------------------------------------------------------------
  // Tags: `replace(/<[^>]*>/g, "")`

  /** The first position of `c` in `s`, or -1. */
  function IndexOf(s: string, c: char): (i: int)
    ensures -1 <= i < |s|
    ensures i == -1 <==> c !in s
    ensures 0 <= i ==> s[i] == c && c !in s[..i]
  {
    if s == [] then -1
    else if s[0] == c then 0
    else
      var j := IndexOf(s[1..], c);
      assert s[1..] == s[..|s|][1..];
      if j == -1 then -1
      else
        assert s[..j + 1] == [s[0]] + s[1..][..j];
        j + 1
  }

  /** No `<` is followed, anywhere later, by a `>`: the string holds no
      complete tag. */
  predicate NoTag(s: string) {
    forall i, j :: 0 <= i < j < |s| && s[i] == '<' ==> s[j] != '>'
  }

  /** `s.replace(/<[^>]*>/g, "")`: from each `<` that has a `>` after it,
      everything up to and including the first such `>` is removed; a `<`
      with no `>` after it stays. */
  function StripTags(s: string): (r: string)
    ensures forall c :: c in r ==> c in s
    ensures NoTag(r)
    decreases |s|
  {
    if s == [] then []
    else if s[0] == '<' && '>' in s[1..] then
      var j := IndexOf(s[1..], '>');
      StripTags(s[j + 2..])
    else
      var rest := StripTags(s[1..]);
      assert s[0] == '<' ==> '>' !in rest;
      [s[0]] + rest
  }

  /** Text without a complete tag passes through unchanged, so stripping
      twice is stripping once. */
  lemma {:induction false} StripTagsKeepsTagless(s: string)
    requires NoTag(s)
    ensures StripTags(s) == s
  {
    if s != [] {
      if s[0] == '<' {
        assert '>' !in s[1..] by {
          forall j | 0 <= j < |s| - 1 ensures s[1..][j] != '>' {
            assert s[1..][j] == s[j + 1];
          }
        }
      }
      assert NoTag(s[1..]) by {
        forall i, j | 0 <= i < j < |s| - 1 && s[1..][i] == '<' ensures s[1..][j] != '>' {
          assert s[1..][i] == s[i + 1] && s[1..][j] == s[j + 1];
        }
      }
      StripTagsKeepsTagless(s[1..]);
    }
  }

  lemma StripTagsIdempotent(s: string)
    ensures StripTags(StripTags(s)) == StripTags(s)
  {
    StripTagsKeepsTagless(StripTags(s));
  }

  /** Text before the first `<` is kept as it is. */
  lemma {:induction false} StripTagsKeepsText(a: string, b: string)
    requires '<' !in a
    ensures StripTags(a + b) == a + StripTags(b)
  {
    if a == [] {
      assert a + b == b;
    } else {
      var ab := a + b;
      assert ab[0] == a[0] && ab[1..] == a[1..] + b;
      StripTagsKeepsText(a[1..], b);
      assert a == [a[0]] + a[1..];
    }
  }

  /** A complete tag, from `<` to the first `>`, is removed with its contents. */
  lemma StripTagsDropsTag(t: string, b: string)
    requires '>' !in t
    ensures StripTags("<" + t + ">" + b) == StripTags(b)
  {
    var s := "<" + t + ">" + b;
    var s1 := s[1..];
    assert s1 == t + ">" + b;
    assert s1[|t|] == '>';
    assert IndexOf(s1, '>') == |t|;
    assert s[|t| + 2..] == b;
  }

  lemma NoTagSlice(s: string, i: nat, j: nat)
    requires NoTag(s) && i <= j <= |s|
    ensures NoTag(s[i..j])
  {
    var t := s[i..j];
    forall a, b | 0 <= a < b < |t| && t[a] == '<' ensures t[b] != '>' {
      assert t[a] == s[i + a] && t[b] == s[i + b];
    }
  }

  /** `extractTextContent`: the text with its tags removed and trimmed. It is
      the text outside the tags with only the whitespace at either end cut. */
  function ExtractTextContent(html: string): (r: string)
    ensures NoTag(r)
    ensures Trimmed(r)
    ensures exists i :: TrimmedSliceAt(StripTags(html), r, i)
  {
    var stripped := StripTags(html);
    TrimKeepsNoTag(stripped);
    Trim(stripped)
  }

  lemma TrimKeepsNoTag(s: string)
    requires NoTag(s)
    ensures NoTag(Trim(s))
    ensures exists i :: TrimmedSliceAt(s, Trim(s), i)
  {
    var i := TrimSlice(s);
    NoTagSlice(s, i, i + |Trim(s)|);
  }

  // ---------------------------------------------------------------------------
  // Words: `split(/\s+/)`

  /** The first whitespace position of `s`, or `|s|`. */
  function FirstWhitespace(s: string): (i: nat)
    ensures i <= |s|
    ensures forall k :: 0 <= k < i ==> !IsWhitespace(s[k])
    ensures i < |s| ==> IsWhitespace(s[i])
  {
    if s == [] || IsWhitespace(s[0]) then 0
    else 1 + FirstWhitespace(s[1..])
  }

  /** `s.split(/\s+/)`: the pieces between maximal runs of whitespace; the
      empty string gives one empty piece, and leading or trailing whitespace
      gives an empty first or last piece. */
  function Split(s: string): (r: seq<string>)
    ensures |r| >= 1
    decreases |s|
  {
    if s == [] then [""]
    else
      var i := FirstWhitespace(s);
      if i == |s| then [s]
      else [s[..i]] + Split(TrimStart(s[i..]))
  }

  /** The number of words of `s`, counted independently of `Split`: the
      positions holding a non-whitespace character right after whitespace
      (or after the start, when `afterSpace` holds). */
  function WordStarts(s: string, afterSpace: bool): nat
    decreases |s|
  {
    if s == [] then 0
    else (if afterSpace && !IsWhitespace(s[0]) then 1 else 0) + WordStarts(s[1..], IsWhitespace(s[0]))
  }

  function Words(s: string): nat {
    WordStarts(s, true)
  }

  /** Inside a word no new word starts. */
  lemma {:induction false} WordStartsInWord(s: string, k: nat)
    requires k <= |s| && forall j :: 0 <= j < k ==> !IsWhitespace(s[j])
    ensures WordStarts(s, false) == WordStarts(s[k..], false)
  {
    if k > 0 {
      WordStartsInWord(s[1..], k - 1);
      assert s[1..][k - 1..] == s[k..];
    }
  }

  /** A run of whitespace only records that a word may start after it. */
  lemma {:induction false} WordStartsInSpace(s: string, afterSpace: bool)
    requires s != [] && IsWhitespace(s[0])
    ensures WordStarts(s, afterSpace) == WordStarts(TrimStart(s), true)
    decreases |s|
  {
    if |s| > 1 && IsWhitespace(s[1]) {
      WordStartsInSpace(s[1..], true);
    }
  }

  /** A string that starts with a word counts that word, then whatever
      starts after its end. */
  lemma WordsFirst(s: string)
    requires s != [] && !IsWhitespace(s[0])
    ensures Words(s) == 1 + WordStarts(s[FirstWhitespace(s)..], false)
  {
    var i := FirstWhitespace(s);
    WordStartsInWord(s[1..], i - 1);
    assert s[1..][i - 1..] == s[i..];
  }

  /** What follows the first run of whitespace of a trimmed string is
      trimmed and not empty. */
  lemma TrimmedAfterSpace(s: string, i: nat)
    requires Trimmed(s) && i < |s| && IsWhitespace(s[i])
    ensures TrimStart(s[i..]) != []
    ensures Trimmed(TrimStart(s[i..]))
  {
    var rest := TrimStart(s[i..]);
    assert !IsWhitespace(s[i..][|s[i..]| - 1]);
    assert rest[|rest| - 1] == s[|s| - 1];
  }

  /** For text with no whitespace at either end, `split` yields one piece per word. */
  lemma {:induction false} SplitCountsWords(s: string)
    requires Trimmed(s)
    ensures |Split(s)| == if s == [] then 1 else Words(s)
    decreases |s|
  {
    if s != [] {
      var i := FirstWhitespace(s);
      WordsFirst(s);
      if i < |s| {
        WordStartsInSpace(s[i..], false);
        TrimmedAfterSpace(s, i);
        SplitCountsWords(TrimStart(s[i..]));
      }
    }
  }

  /** `content.replace(/<[^>]*>/g, "").trim().split(/\s+/).length`: the number
      of words of the text, or 1 when it has none. */
  function WordCount(content: string): (n: nat)
    ensures n >= 1
    ensures n == if Words(Trim(StripTags(content))) == 0 then 1 else Words(Trim(StripTags(content)))
  {
    var text := Trim(StripTags(content));
    SplitCountsWords(text);
    assert text == [] ==> Words(text) == 0;
    |Split(text)|
  }

  /** `q` is the ceiling of `a / b`: the least whole number with `a <= q * b`. */
  predicate IsCeiling(q: int, a: int, b: int) {
    (q - 1) * b < a <= q * b
  }

  /** `Math.ceil(a / b)` for a positive divisor. */
  function CeilDiv(a: int, b: int): (q: int)
    requires b > 0
    ensures IsCeiling(q, a, b)
    ensures a >= 1 ==> q >= 1
  {
    var n := a + b - 1;
    var q := n / b;
    assert n == q * b + n % b && 0 <= n % b < b;
    assert (q - 1) * b == q * b - b;
    assert a >= 1 ==> q >= 1;
    q
  }

  /** `estimateReadingTime`: `Math.max(1, Math.ceil(words / wordsPerMinute))`,
      i.e. the least whole number of minutes that covers every word, and at
      least one. A negative rate gives a non-positive quotient, so 1. */
  function EstimateReadingTime(content: string, wordsPerMinute: int): (minutes: int)
    requires wordsPerMinute != 0
    ensures minutes >= 1
    ensures wordsPerMinute > 0 ==> IsCeiling(minutes, WordCount(content), wordsPerMinute)
    ensures wordsPerMinute < 0 ==> minutes == 1
  {
    if wordsPerMinute > 0 then CeilDiv(WordCount(content), wordsPerMinute) else 1
  }

  // ---------------------------------------------------------------------------
  // Slugs

  /** The class `\w`: ASCII letters, digits and `_`. */
  predicate IsWordChar(c: char) {
    ('a' <= c <= 'z') || ('A' <= c <= 'Z') || ('0' <= c <= '9') || c == '_'
  }

  /** The characters a slug may hold: `[a-z0-9_-]`. */
  predicate IsSlugChar(c: char) {
    ('a' <= c <= 'z') || ('0' <= c <= '9') || c == '_' || c == '-'
  }

  predicate NoUpper(s: string) {
    forall k :: 0 <= k < |s| ==> !('A' <= s[k] <= 'Z')
  }

  predicate NoDoubleHyphen(s: string) {
    forall k :: 0 <= k < |s| - 1 ==> !(s[k] == '-' && s[k + 1] == '-')
  }

  predicate AllSlugChars(s: string) {
    forall k :: 0 <= k < |s| ==> IsSlugChar(s[k])
  }

  lemma LowerHasNoUpper(s: string)
    ensures NoUpper(Lower(s))
  {
  }

  lemma LowerKeepsLower(s: string)
    requires NoUpper(s)
    ensures Lower(s) == s
  {
  }

  /** `replace(/[^\w\s-]/g, "")`. */
  function RemoveSpecial(s: string): (r: string)
    ensures |r| <= |s|
    ensures forall c :: c in r ==> c in s && (IsWordChar(c) || IsWhitespace(c) || c == '-')
  {
    if s == [] then []
    else if IsWordChar(s[0]) || IsWhitespace(s[0]) || s[0] == '-' then [s[0]] + RemoveSpecial(s[1..])
    else RemoveSpecial(s[1..])
  }

  lemma {:induction false} RemoveSpecialKeepsClean(s: string)
    requires forall k :: 0 <= k < |s| ==> IsWordChar(s[k]) || IsWhitespace(s[k]) || s[k] == '-'
    ensures RemoveSpecial(s) == s
  {
    if s != [] {
      assert s[0] == s[0];
      RemoveSpecialKeepsClean(s[1..]);
    }
  }

  /** `replace(/\s+/g, "-")`: every maximal run of whitespace becomes one hyphen. */
  function HyphenateSpaces(s: string): (r: string)
    ensures NoWhitespace(r)
    ensures forall c :: c in r ==> c in s || c == '-'
    ensures s != [] && !IsWhitespace(s[0]) ==> r != [] && r[0] == s[0]
    decreases |s|
  {
    if s == [] then []
    else if IsWhitespace(s[0]) then "-" + HyphenateSpaces(TrimStart(s))
    else [s[0]] + HyphenateSpaces(s[1..])
  }

  lemma {:induction false} HyphenateSpacesKeepsSpaceless(s: string)
    requires NoWhitespace(s)
    ensures HyphenateSpaces(s) == s
  {
    if s != [] {
      assert !IsWhitespace(s[0]);
      HyphenateSpacesKeepsSpaceless(s[1..]);
    }
  }

  /** `s` without its leading hyphens. */
  function DropHyphens(s: string): (r: string)
    ensures |r| <= |s| && r == s[|s| - |r|..]
    ensures r == [] || r[0] != '-'
    ensures s != [] && s[0] == '-' ==> |r| < |s|
  {
    if s != [] && s[0] == '-' then DropHyphens(s[1..]) else s
  }

  /** `replace(/-+/g, "-")`: every maximal run of hyphens becomes one. */
  function CollapseHyphens(s: string): (r: string)
    ensures NoDoubleHyphen(r)
    ensures forall c :: c in r ==> c in s
    ensures s == [] <==> r == []
    ensures s != [] && s[0] != '-' ==> r[0] == s[0]
    decreases |s|
  {
    if s == [] then []
    else if s[0] == '-' then
      var rest := CollapseHyphens(DropHyphens(s));
      assert forall c :: c in DropHyphens(s) ==> c in s;
      NoDoubleHyphenCons('-', rest);
      "-" + rest
    else
      var rest := CollapseHyphens(s[1..]);
      NoDoubleHyphenCons(s[0], rest);
      [s[0]] + rest
  }

  lemma NoDoubleHyphenCons(c: char, s: string)
    requires NoDoubleHyphen(s)
    requires c == '-' ==> s == [] || s[0] != '-'
    ensures NoDoubleHyphen([c] + s)
  {
    var t := [c] + s;
    forall k | 0 <= k < |t| - 1 ensures !(t[k] == '-' && t[k + 1] == '-') {
      if k > 0 {
        assert t[k] == s[k - 1] && t[k + 1] == s[k];
      }
    }
  }

  lemma {:induction false} CollapseHyphensKeepsSingle(s: string)
    requires NoDoubleHyphen(s)
    ensures CollapseHyphens(s) == s
  {
    if s != [] {
      assert NoDoubleHyphen(s[1..]) by {
        forall k | 0 <= k < |s| - 2 ensures !(s[1..][k] == '-' && s[1..][k + 1] == '-') {
          assert s[1..][k] == s[k + 1] && s[1..][k + 1] == s[k + 2];
        }
      }
      if s[0] == '-' {
        assert |s| > 1 ==> s[1] != '-';
        assert DropHyphens(s) == s[1..];
      }
      CollapseHyphensKeepsSingle(s[1..]);
    }
  }

  /** The characters `replace(/[^\w\s-]/g, "")` keeps. */
  function KeptBySpecial(): char -> bool {
    c => IsWordChar(c) || IsWhitespace(c) || c == '-'
  }

  /** `RemoveSpecial` keeps exactly the `[\w\s-]` characters, in order. */
  lemma {:induction false} RemoveSpecialIsFilter(s: string)
    ensures RemoveSpecial(s) == Seqs.Filter(s, KeptBySpecial())
  {
    if s != [] {
      RemoveSpecialIsFilter(s[1..]);
    }
  }

  predicate WhitespaceRun(w: string) {
    w != [] && forall k :: 0 <= k < |w| ==> IsWhitespace(w[k])
  }

  predicate HyphenRun(h: string) {
    h != [] && forall k :: 0 <= k < |h| ==> h[k] == '-'
  }

  /** Leading whitespace before a non-whitespace start is what `TrimStart` drops. */
  lemma {:induction false} TrimStartRun(w: string, b: string)
    requires forall k :: 0 <= k < |w| ==> IsWhitespace(w[k])
    requires b == [] || !IsWhitespace(b[0])
    ensures TrimStart(w + b) == b
    decreases |w|
  {
    if w == [] {
      assert w + b == b;
    } else {
      assert (w + b)[1..] == w[1..] + b;
      TrimStartRun(w[1..], b);
    }
  }

  /** Regrouping a character in front of a hyphen-joined pair. */
  lemma ConsJoin(c: char, x: string, y: string)
    ensures [c] + (x + "-" + y) == ([c] + x) + "-" + y
  {
  }

  /** A character other than whitespace is copied. */
  lemma HyphenateSpacesCons(c: char, u: string)
    requires !IsWhitespace(c)
    ensures HyphenateSpaces([c] + u) == [c] + HyphenateSpaces(u)
  {
    assert ([c] + u)[1..] == u;
  }

  /** A leading whitespace run becomes one hyphen. */
  lemma HyphenateSpacesLeadingRun(w: string, b: string)
    requires WhitespaceRun(w)
    requires b == [] || !IsWhitespace(b[0])
    ensures HyphenateSpaces(w + b) == "-" + HyphenateSpaces(b)
  {
    assert IsWhitespace((w + b)[0]);
    TrimStartRun(w, b);
  }

  /** `replace(/\s+/g, "-")` puts exactly one hyphen where a maximal
      whitespace run was, and treats the text on either side on its own. */
  lemma {:induction false} HyphenateSpacesRun(a: string, w: string, b: string)
    requires NoWhitespace(a) && WhitespaceRun(w)
    requires b == [] || !IsWhitespace(b[0])
    ensures HyphenateSpaces(a + w + b) == HyphenateSpaces(a) + "-" + HyphenateSpaces(b)
    decreases |a|
  {
    if a == [] {
      assert a + w + b == w + b;
      HyphenateSpacesLeadingRun(w, b);
    } else {
      var c, u := a[0], a[1..];
      assert NoWhitespace(u) by {
        forall k | 0 <= k < |u| ensures !IsWhitespace(u[k]) {
          assert u[k] == a[k + 1];
        }
      }
      assert a == [c] + u && a + w + b == [c] + (u + w + b);
      HyphenateSpacesCons(c, u + w + b);
      HyphenateSpacesCons(c, u);
      HyphenateSpacesRun(u, w, b);
      ConsJoin(c, HyphenateSpaces(u), HyphenateSpaces(b));
    }
  }

  /** Leading hyphens before a start that is not a hyphen are what `DropHyphens` drops. */
  lemma {:induction false} DropHyphensRun(h: string, b: string)
    requires forall k :: 0 <= k < |h| ==> h[k] == '-'
    requires b == [] || b[0] != '-'
    ensures DropHyphens(h + b) == b
    decreases |h|
  {
    if h == [] {
      assert h + b == b;
    } else {
      assert (h + b)[1..] == h[1..] + b;
      DropHyphensRun(h[1..], b);
    }
  }

  /** A character other than a hyphen is copied. */
  lemma CollapseHyphensCons(c: char, u: string)
    requires c != '-'
    ensures CollapseHyphens([c] + u) == [c] + CollapseHyphens(u)
  {
    assert ([c] + u)[1..] == u;
  }

  /** A leading hyphen run becomes one hyphen. */
  lemma CollapseHyphensLeadingRun(h: string, b: string)
    requires HyphenRun(h)
    requires b == [] || b[0] != '-'
    ensures CollapseHyphens(h + b) == "-" + CollapseHyphens(b)
  {
    assert (h + b)[0] == '-';
    DropHyphensRun(h, b);
  }

  /** `replace(/-+/g, "-")` puts exactly one hyphen where a maximal hyphen
      run was, and treats the text on either side on its own. */
  lemma {:induction false} CollapseHyphensRun(a: string, h: string, b: string)
    requires '-' !in a && HyphenRun(h)
    requires b == [] || b[0] != '-'
    ensures CollapseHyphens(a + h + b) == CollapseHyphens(a) + "-" + CollapseHyphens(b)
    decreases |a|
  {
    if a == [] {
      assert a + h + b == h + b;
      CollapseHyphensLeadingRun(h, b);
    } else {
      var c, u := a[0], a[1..];
      assert '-' !in u by {
        assert forall d :: d in u ==> d in a;
      }
      assert a == [c] + u && a + h + b == [c] + (u + h + b);
      CollapseHyphensCons(c, u + h + b);
      CollapseHyphensCons(c, u);
      CollapseHyphensRun(u, h, b);
      ConsJoin(c, CollapseHyphens(u), CollapseHyphens(b));
    }
  }

  /** The word characters (`\w`) of `s`, in order. */
  function WordChars(s: string): string {
    if s == [] then [] else (if IsWordChar(s[0]) then [s[0]] else []) + WordChars(s[1..])
  }

  /** `s` without its hyphens. */
  function Unhyphenated(s: string): string {
    if s == [] then [] else (if s[0] != '-' then [s[0]] else []) + Unhyphenated(s[1..])
  }

  lemma {:induction false} RemoveSpecialKeepsWords(s: string)
    ensures WordChars(RemoveSpecial(s)) == WordChars(s)
  {
    if s != [] {
      RemoveSpecialKeepsWords(s[1..]);
      var rest := RemoveSpecial(s[1..]);
      if IsWordChar(s[0]) || IsWhitespace(s[0]) || s[0] == '-' {
        assert ([s[0]] + rest)[1..] == rest;
      }
    }
  }

  lemma {:induction false} TrimStartKeepsWords(s: string)
    ensures WordChars(TrimStart(s)) == WordChars(s)
    decreases |s|
  {
    if s != [] && IsWhitespace(s[0]) {
      TrimStartKeepsWords(s[1..]);
    }
  }

  lemma {:induction false} HyphenateSpacesKeepsWords(s: string)
    ensures WordChars(HyphenateSpaces(s)) == WordChars(s)
    decreases |s|
  {
    if s != [] {
      if IsWhitespace(s[0]) {
        var rest := HyphenateSpaces(TrimStart(s));
        HyphenateSpacesKeepsWords(TrimStart(s));
        TrimStartKeepsWords(s);
        assert ("-" + rest)[1..] == rest;
      } else {
        var rest := HyphenateSpaces(s[1..]);
        HyphenateSpacesKeepsWords(s[1..]);
        assert ([s[0]] + rest)[1..] == rest;
      }
    }
  }

  lemma {:induction false} DropHyphensKeepsWords(s: string)
    ensures WordChars(DropHyphens(s)) == WordChars(s)
    decreases |s|
  {
    if s != [] && s[0] == '-' {
      DropHyphensKeepsWords(s[1..]);
    }
  }

  lemma {:induction false} CollapseHyphensKeepsWords(s: string)
    ensures WordChars(CollapseHyphens(s)) == WordChars(s)
    decreases |s|
  {
    if s != [] {
      if s[0] == '-' {
        var rest := CollapseHyphens(DropHyphens(s));
        CollapseHyphensKeepsWords(DropHyphens(s));
        DropHyphensKeepsWords(s);
        assert ("-" + rest)[1..] == rest;
      } else {
        var rest := CollapseHyphens(s[1..]);
        CollapseHyphensKeepsWords(s[1..]);
        assert ([s[0]] + rest)[1..] == rest;
      }
    }
  }

  /** In a string of slug characters, the characters other than hyphens are
      exactly the word characters. */
  lemma {:induction false} SlugCharsUnhyphenated(s: string)
    requires AllSlugChars(s)
    ensures Unhyphenated(s) == WordChars(s)
  {
    if s != [] {
      assert IsSlugChar(s[0]);
      SlugCharsUnhyphenated(s[1..]);
    }
  }

  /** `generateSlug`: lower-case, drop every character outside `[\w\s-]`,
      turn whitespace runs into hyphens, collapse hyphen runs and trim. The
      result has no whitespace, no doubled hyphen, and only `[a-z0-9_-]`. */
  function GenerateSlug(title: string): (slug: string)
    ensures NoWhitespace(slug)
    ensures NoDoubleHyphen(slug)
    ensures AllSlugChars(slug)
  {
    var lower := Lower(title);
    LowerHasNoUpper(title);
    var cleaned := RemoveSpecial(lower);
    var hyphenated := HyphenateSpaces(cleaned);
    var collapsed := CollapseHyphens(hyphenated);
    assert NoWhitespace(collapsed) by {
      forall k | 0 <= k < |collapsed| ensures !IsWhitespace(collapsed[k]) {
        assert collapsed[k] in hyphenated;
      }
    }
    assert AllSlugChars(collapsed) by {
      forall k | 0 <= k < |collapsed| ensures IsSlugChar(collapsed[k]) {
        var c := collapsed[k];
        assert c in hyphenated;
        if c != '-' {
          assert c in cleaned && c in lower;
          var j :| 0 <= j < |lower| && lower[j] == c;
        }
      }
    }
    TrimNoWhitespace(collapsed);
    Trim(collapsed)
  }

  /** The slug is the title's words: without its hyphens it is the word
      characters of the lower-cased title, in order. */
  lemma GenerateSlugKeepsWords(title: string)
    ensures Unhyphenated(GenerateSlug(title)) == WordChars(Lower(title))
  {
    var lower := Lower(title);
    var cleaned := RemoveSpecial(lower);
    var hyphenated := HyphenateSpaces(cleaned);
    var collapsed := CollapseHyphens(hyphenated);
    SlugStages(title);
    SlugCharsUnhyphenated(collapsed);
    CollapseHyphensKeepsWords(hyphenated);
    HyphenateSpacesKeepsWords(cleaned);
    RemoveSpecialKeepsWords(lower);
  }

  /** The final `trim()` of `generateSlug` never changes anything: the
      collapsed text already has no whitespace. */
  lemma SlugStages(title: string)
    ensures GenerateSlug(title) == CollapseHyphens(HyphenateSpaces(RemoveSpecial(Lower(title))))
  {
    var hyphenated := HyphenateSpaces(RemoveSpecial(Lower(title)));
    var collapsed := CollapseHyphens(hyphenated);
    assert NoWhitespace(collapsed) by {
      forall k | 0 <= k < |collapsed| ensures !IsWhitespace(collapsed[k]) {
        assert collapsed[k] in hyphenated;
      }
    }
    TrimNoWhitespace(collapsed);
  }

  /** A lower-case `\w` character, which every stage of `generateSlug` keeps. */
  predicate IsLowerWordChar(c: char) {
    IsWordChar(c) && !('A' <= c <= 'Z')
  }

  /** A non-empty word of lower-case `\w` characters. */
  predicate LowerWord(a: string) {
    a != [] && forall k :: 0 <= k < |a| ==> IsLowerWordChar(a[k])
  }

  /** Lower-case words and whitespace, and nothing else. */
  predicate PlainTitle(s: string) {
    forall k :: 0 <= k < |s| ==> IsLowerWordChar(s[k]) || IsWhitespace(s[k])
  }

  /** On plain text, lower-casing and removing special characters change nothing. */
  lemma PlainTitleKept(s: string)
    requires PlainTitle(s)
    ensures RemoveSpecial(Lower(s)) == s
  {
    LowerKeepsLower(s);
    RemoveSpecialKeepsClean(s);
  }

  /** The slug of one lower-case word is the word. */
  lemma SlugOfWord(a: string)
    requires LowerWord(a)
    ensures GenerateSlug(a) == a
  {
    PlainTitleKept(a);
    HyphenateSpacesKeepsSpaceless(a);
    CollapseHyphensKeepsSingle(a);
    SlugStages(a);
  }

  /** A lower-case word, a whitespace run and the rest of a plain title: the
      slug is the word, one hyphen, and the slug of the rest. With
      `SlugOfWord`, the slug of lower-case words separated by whitespace runs
      is the words joined by single hyphens. */
  lemma SlugJoinsWords(a: string, w: string, rest: string)
    requires LowerWord(a) && WhitespaceRun(w)
    requires PlainTitle(rest) && rest != [] && IsLowerWordChar(rest[0])
    ensures GenerateSlug(a + w + rest) == a + "-" + GenerateSlug(rest)
  {
    var t := a + w + rest;
    assert PlainTitle(t) by {
      forall k | 0 <= k < |t| ensures IsLowerWordChar(t[k]) || IsWhitespace(t[k]) {
        if k < |a| {
          assert t[k] == a[k];
        } else if k < |a| + |w| {
          assert t[k] == w[k - |a|];
        } else {
          assert t[k] == rest[k - |a| - |w|];
        }
      }
    }
    PlainTitleKept(t);
    PlainTitleKept(rest);
    HyphenateSpacesRun(a, w, rest);
    HyphenateSpacesKeepsSpaceless(a);
    var hr := HyphenateSpaces(rest);
    assert hr != [] && hr[0] == rest[0];
    assert '-' !in a;
    CollapseHyphensRun(a, "-", hr);
    CollapseHyphensKeepsSingle(a);
    SlugStages(t);
    SlugStages(rest);
  }

  /** A slug is its own slug. */
  lemma GenerateSlugIdempotent(title: string)
    ensures GenerateSlug(GenerateSlug(title)) == GenerateSlug(title)
  {
    var s := GenerateSlug(title);
    LowerKeepsLower(s);
    RemoveSpecialKeepsClean(s);
    HyphenateSpacesKeepsSpaceless(s);
    CollapseHyphensKeepsSingle(s);
    SlugStages(s);
  }
}
