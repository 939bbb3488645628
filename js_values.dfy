/** JavaScript values as the content store sees them: the records it keeps are
    plain objects, so a record is a finite map from property names to values,
    and the object spread `{...a, ...b}` is map union with `b` winning. Numbers
    are restricted to integers; `NaN` is kept because `Number(...)` and
    `Math.max` produce it. */
module JsValues {
  import opened Wrappers
  import opened Text

  datatype JsValue =
    | Undefined
    | Null
    | Bool(b: bool)
    | Num(n: int)
    | NaN
    | Str(s: string)
    | Arr(items: seq<JsValue>)
    | Obj(fields: map<string, JsValue>)

  type Record = map<string, JsValue>

  /** JavaScript truthiness, as used by `!x`, `x && y` and `x || y`. */
  predicate Truthy(v: JsValue) {
    match v
    case Undefined => false
    case Null => false
    case Bool(b) => b
    case Num(n) => n != 0
    case NaN => false
    case Str(s) => s != []
    case Arr(_) => true
    case Obj(_) => true
  }

  /** `a || b`: the first operand when it is truthy, the second otherwise. */
  function Or(a: JsValue, b: JsValue): (r: JsValue)
    ensures Truthy(r) <==> Truthy(a) || Truthy(b)
    ensures r == a || r == b
  {
    if Truthy(a) then a else b
  }

  /** Property read `r.key` on a record; a missing property reads as `undefined`. */
  function Get(r: Record, key: string): JsValue {
    if key in r then r[key] else Undefined
  }

  /** `a === b` on the primitive values that identifiers and names are.
      `NaN` is not equal to itself. */
  predicate StrictEquals(a: JsValue, b: JsValue) {
    a == b && !a.NaN?
  }

  /** `xs.includes(v)` on an array of strings (SameValueZero). */
  predicate IncludesValue(xs: seq<string>, v: JsValue) {
    v.Str? && v.s in xs
  }

  // ---------------------------------------------------------------------------
  // Number(...) and toString()

  predicate IsDigit(c: char) {
    '0' <= c <= '9'
  }

  predicate AllDigits(s: string) {
    forall k :: 0 <= k < |s| ==> IsDigit(s[k])
  }

  function DigitsValue(s: string): (r: nat)
    requires AllDigits(s)
  {
    if s == [] then 0
    else 10 * DigitsValue(s[..|s| - 1]) + (s[|s| - 1] as int - '0' as int)
  }

  /** The value of a hexadecimal digit character, or -1. */
  function RadixDigit(c: char): int {
    if '0' <= c <= '9' then c as int - '0' as int
    else if 'a' <= c <= 'f' then c as int - 'a' as int + 10
    else if 'A' <= c <= 'F' then c as int - 'A' as int + 10
    else -1
  }

  predicate AllRadixDigits(s: string, base: nat) {
    forall k :: 0 <= k < |s| ==> 0 <= RadixDigit(s[k]) < base
  }

  function RadixValue(s: string, base: nat): nat
    requires AllRadixDigits(s, base)
  {
    if s == [] then 0
    else base * RadixValue(s[..|s| - 1], base) + RadixDigit(s[|s| - 1])
  }

  /** The base a `0x`, `0o` or `0b` prefix letter selects, or 0. */
  function RadixOf(c: char): nat {
    if c == 'x' || c == 'X' then 16
    else if c == 'o' || c == 'O' then 8
    else if c == 'b' || c == 'B' then 2
    else 0
  }

  /** `Number(s)` for integer literals: optional surrounding whitespace, then
      either an optional sign and decimal digits, or an unsigned `0x`, `0o`
      or `0b` literal; the empty (or all whitespace) string is 0; anything
      else is `NaN`. */
  function StringToNumber(s: string): (r: JsValue)
    ensures r.Num? || r.NaN?
  {
    var t := Trim(s);
    if t == [] then Num(0)
    else if |t| > 1 && t[0] == '-' && AllDigits(t[1..]) then Num(-(DigitsValue(t[1..]) as int))
    else if |t| > 1 && t[0] == '+' && AllDigits(t[1..]) then Num(DigitsValue(t[1..]))
    else if AllDigits(t) then Num(DigitsValue(t))
    else if |t| > 2 && t[0] == '0' && RadixOf(t[1]) > 0 && AllRadixDigits(t[2..], RadixOf(t[1])) then
      Num(RadixValue(t[2..], RadixOf(t[1])))
    else NaN
  }

  /** `Number(v)` (also the conversion `Math.max` applies to its arguments).
      An array converts through its string form `join(",")`, so `[]` is 0 and
      `[7]` is 7; a plain object's string form is "[object Object]", which is
      `NaN`. */
  function ToNumber(v: JsValue): (r: JsValue)
    ensures r.Num? || r.NaN?
  {
    match v
    case Num(n) => Num(n)
    case Str(s) => StringToNumber(s)
    case Null => Num(0)
    case Bool(b) => Num(if b then 1 else 0)
    case Arr(_) => StringToNumber(ToStringOf(v).value)
    case _ => NaN
  }

  /** An unsigned `0x`, `0o` or `0b` literal is read in its base. */
  lemma RadixLiteral(t: string)
    requires NoWhitespace(t) && |t| > 2 && t[0] == '0'
    requires RadixOf(t[1]) > 0 && AllRadixDigits(t[2..], RadixOf(t[1]))
    ensures StringToNumber(t) == Num(RadixValue(t[2..], RadixOf(t[1])))
  {
  }

  /** A radix literal takes no sign: `Number("-0x10")` is `NaN`. */
  lemma SignedRadixLiteral(sign: char, t: string)
    requires sign == '-' || sign == '+'
    requires NoWhitespace(t) && |t| > 1 && RadixOf(t[1]) > 0
    ensures StringToNumber([sign] + t) == NaN
  {
    var m := [sign] + t;
    assert m[1..] == t;
    assert !AllDigits(t) by { assert !IsDigit(t[1]); }
    assert !AllDigits(m) by { assert !IsDigit(m[0]); }
    assert NoWhitespace(m) by {
      forall k | 0 <= k < |m| ensures !IsWhitespace(m[k]) {
        if k > 0 { assert m[k] == t[k - 1]; }
      }
    }
    TrimNoWhitespace(m);
  }

  /** An array converts through its string form: `[]` is 0, and an array
      holding one number is that number. */
  lemma ArrayNumbers(n: int)
    ensures ToNumber(Arr([])) == Num(0)
    ensures ToNumber(Arr([Num(n)])) == Num(n)
  {
    assert ToStringOf(Arr([])) == Some("");
    var v := Arr([Num(n)]);
    assert v.items[0] == Num(n) && ToStringOf(Num(n)) == Some(IntToString(n));
    assert JoinElements(v, 1) == IntToString(n);
    assert ToStringOf(v) == Some(IntToString(n));
    IntToStringRoundTrip(n);
  }

  function DigitChar(d: nat): char
    requires d < 10
  {
    ('0' as int + d) as char
  }

  function NatToString(n: nat): (r: string)
    ensures r != [] && AllDigits(r)
  {
    if n < 10 then [DigitChar(n)] else NatToString(n / 10) + [DigitChar(n % 10)]
  }

  /** Decimal rendering of an integer, as `String(n)` gives it. */
  function IntToString(n: int): (r: string)
    ensures r != []
  {
    if n < 0 then "-" + NatToString(-n) else NatToString(n)
  }

  lemma {:induction false} NatToStringValue(n: nat)
    ensures DigitsValue(NatToString(n)) == n
  {
    if n >= 10 {
      NatToStringValue(n / 10);
      var s := NatToString(n);
      assert s[..|s| - 1] == NatToString(n / 10);
    }
  }

  lemma DigitsNoWhitespace(d: string)
    requires AllDigits(d)
    ensures NoWhitespace(d)
  {
    forall k | 0 <= k < |d| ensures !IsWhitespace(d[k]) {
      assert IsDigit(d[k]);
    }
  }

  /** Decimal digits read back as their value. */
  lemma DigitsRead(d: string)
    requires d != [] && AllDigits(d)
    ensures StringToNumber(d) == Num(DigitsValue(d))
  {
    DigitsNoWhitespace(d);
    TrimNoWhitespace(d);
    assert d[0] != '-' && d[0] != '+';
  }

  /** A minus sign before decimal digits reads back as the negated value. */
  lemma NegatedDigitsRead(d: string)
    requires d != [] && AllDigits(d)
    ensures StringToNumber("-" + d) == Num(-(DigitsValue(d) as int))
  {
    var s := "-" + d;
    assert s[1..] == d && s[0] == '-';
    assert NoWhitespace(s) by {
      DigitsNoWhitespace(d);
      forall k | 0 <= k < |s| ensures !IsWhitespace(s[k]) {
        if k > 0 { assert s[k] == d[k - 1]; }
      }
    }
    TrimNoWhitespace(s);
  }

  /** `Number(String(n)) == n`: the decimal rendering reads back as the number. */
  lemma IntToStringRoundTrip(n: int)
    ensures StringToNumber(IntToString(n)) == Num(n)
  {
    var m: nat := if n < 0 then -n else n;
    var d := NatToString(m);
    NatToStringValue(m);
    if n < 0 {
      assert IntToString(n) == "-" + d;
      NegatedDigitsRead(d);
    } else {
      assert IntToString(n) == d;
      DigitsRead(d);
    }
  }

  /** `v.toString()`: a TypeError (`None`) on `undefined` and `null`. */
  function ToStringOf(v: JsValue): (r: Option<string>)
    ensures r.None? <==> v.Undefined? || v.Null?
    decreases v, 1
  {
    match v
    case Undefined => None
    case Null => None
    case Bool(b) => Some(if b then "true" else "false")
    case Num(n) => Some(IntToString(n))
    case NaN => Some("NaN")
    case Str(s) => Some(s)
    case Arr(items) => Some(JoinElements(v, |items|))
    case Obj(_) => Some("[object Object]")
  }

  /** `Array.prototype.join(",")` on the first `k` elements of the array `v`:
      `undefined` and `null` elements render as the empty string. */
  function JoinElements(v: JsValue, k: nat): string
    requires v.Arr? && k <= |v.items|
    decreases v, 0, k
  {
    if k == 0 then ""
    else
      var e := v.items[k - 1];
      var part := match ToStringOf(e) case Some(p) => p case None => "";
      if k == 1 then part else JoinElements(v, k - 1) + "," + part
  }
}
