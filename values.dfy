/** The values that `json.loads` produces, and the two Python coercions the pipeline applies to them:
    `int(v)` and the numeric comparison `v <= 36`. */
module Values {
  import opened Optional
  import opened Text

  /** A decoded JSON value. Numbers with a fraction or exponent are `JFloat`, kept exact as a `real`. */
  datatype Json =
    | JNull
    | JBool(b: bool)
    | JInt(i: int)
    | JFloat(f: real)
    | JString(s: string)
    | JArray(items: seq<Json>)
    | JObject(fields: map<string, Json>)

  /** `d.get(key)` on a dict; `None` for a missing key or for a value that is not a dict. */
  function Get(v: Json, key: string): (r: Option<Json>)
    ensures r.Some? <==> v.JObject? && key in v.fields
    ensures r.Some? ==> r.value == v.fields[key]
  {
    if v.JObject? && key in v.fields then Some(v.fields[key]) else None
  }

  /** Python's `int(x)` on a float: the integer part, rounding toward zero. */
  function Truncate(x: real): (r: int)
    ensures 0.0 <= x ==> 0 <= r && r as real <= x < r as real + 1.0
    ensures x < 0.0 ==> r <= 0 && r as real - 1.0 < x <= r as real
  {
    if x >= 0.0 then x.Floor else -((-x).Floor)
  }

  predicate IsDigit(c: char) {
    '0' <= c <= '9'
  }

  /** The value of the decimal digits of `d` read in order, any other character skipped
      (the empty string is 0). */
  function DigitsValue(d: string): (r: nat)
    decreases |d|
  {
    if |d| == 0 then 0
    else if IsDigit(d[|d| - 1]) then
      var digit: nat := d[|d| - 1] as int - '0' as int;
      DigitsValue(d[..|d| - 1]) * 10 + digit
    else DigitsValue(d[..|d| - 1])
  }

  /** The number of decimal digits in `d`. */
  function DigitCount(d: string): (r: nat)
    ensures r <= |d|
    decreases |d|
  {
    if |d| == 0 then 0 else DigitCount(d[..|d| - 1]) + (if IsDigit(d[|d| - 1]) then 1 else 0)
  }

  /** At least one decimal digit, and nothing else. */
  predicate AllDigits(d: string) {
    |d| > 0 && forall i :: 0 <= i < |d| ==> IsDigit(d[i])
  }

  /** Position `i` of `d` holds a digit, or a `_` that a digit follows. */
  predicate GroupedAt(d: string, i: nat)
    requires i < |d|
  {
    IsDigit(d[i]) || (d[i] == '_' && i + 1 < |d| && IsDigit(d[i + 1]))
  }

  /** Digits with single `_` separators between them, as `int()` accepts them (`"1_000"`). */
  predicate Grouped(d: string) {
    && |d| > 0 && IsDigit(d[0])
    && forall i :: 0 <= i < |d| ==> GroupedAt(d, i)
  }

  /** In a text of digits only, every character counts. */
  lemma {:induction false} DigitCountOfDigits(d: string)
    requires forall i :: 0 <= i < |d| ==> IsDigit(d[i])
    ensures DigitCount(d) == |d|
    decreases |d|
  {
    if |d| > 0 {
      var front := d[..|d| - 1];
      assert forall i :: 0 <= i < |front| ==> IsDigit(front[i]);
      DigitCountOfDigits(front);
      assert IsDigit(d[|d| - 1]);
    }
  }

  /** The default bound (`sys.get_int_max_str_digits()`) on the number of digits that `int()` reads from
      a string and that `str()` writes for an integer; beyond it both raise `ValueError`. */
  const MaxStrDigits: nat := 4300

  /** What `int()` accepts after the optional sign: grouped digits, at most `MaxStrDigits` of them. */
  predicate Numeral(d: string) {
    Grouped(d) && DigitCount(d) <= MaxStrDigits
  }

  /** Plain digits are a numeral exactly when there are at most `MaxStrDigits` of them. */
  lemma NumeralOfDigits(d: string)
    requires AllDigits(d)
    ensures Numeral(d) <==> |d| <= MaxStrDigits
  {
    DigitCountOfDigits(d);
  }

  /** The whitespace that `int()` skips around a number: that of `isspace()` except the separators
      U+001C..U+001F, which `int()` hands on unchanged to its digit reader and so rejects. */
  predicate IsIntSpace(c: char) {
    IsSpace(c) && !('\U{1C}' <= c <= '\U{1F}')
  }

  /** The first position at or after `i` that is not whitespace for `int()`. */
  function SkipIntSpaces(s: string, i: nat): (a: nat)
    requires i <= |s|
    ensures i <= a <= |s|
    ensures forall k :: i <= k < a ==> IsIntSpace(s[k])
    ensures a == |s| || !IsIntSpace(s[a])
    decreases |s| - i
  {
    if i < |s| && IsIntSpace(s[i]) then SkipIntSpaces(s, i + 1) else i
  }

  /** The end of `s[lo..j]` once the whitespace for `int()` at its right end is dropped. */
  function BackIntSpaces(s: string, lo: nat, j: nat): (b: nat)
    requires lo <= j <= |s|
    ensures lo <= b <= j
    ensures forall k :: b <= k < j ==> IsIntSpace(s[k])
    ensures b == lo || !IsIntSpace(s[b - 1])
    decreases j
  {
    if j > lo && IsIntSpace(s[j - 1]) then BackIntSpaces(s, lo, j - 1) else j
  }

  /** The text that `int()` reads: `s` without the whitespace for `int()` around it. */
  function IntStrip(s: string): (r: string)
    ensures var a := SkipIntSpaces(s, 0);
      && a + |r| <= |s| && r == s[a..a + |r|]
      && (forall i :: 0 <= i < a ==> IsIntSpace(s[i]))
      && (forall i :: a + |r| <= i < |s| ==> IsIntSpace(s[i]))
    ensures r == [] || (!IsIntSpace(r[0]) && !IsIntSpace(r[|r| - 1]))
  {
    var a := SkipIntSpaces(s, 0);
    s[a..BackIntSpaces(s, a, |s|)]
  }

  /** Python's `int(s)` on a string: whitespace around, then an optional sign and a numeral.
      `None` where Python raises `ValueError`. */
  function ParseInt(s: string): (r: Option<int>)
    ensures var t := IntStrip(s);
      && (Numeral(t) ==> r == Some(DigitsValue(t)))
      && (|t| > 0 && t[0] == '+' && Numeral(t[1..]) ==> r == Some(DigitsValue(t[1..])))
      && (|t| > 0 && t[0] == '-' && Numeral(t[1..]) ==> r == Some(-(DigitsValue(t[1..]) as int)))
      && (r.Some? ==> Numeral(t) || (|t| > 0 && (t[0] == '+' || t[0] == '-') && Numeral(t[1..])))
  {
    ParseSigned(IntStrip(s))
  }

  /** An optional sign followed by a numeral, and nothing else. */
  function ParseSigned(t: string): Option<int> {
    if |t| > 0 && (t[0] == '-' || t[0] == '+') then
      match ParseDigits(t[1..])
      case Some(n) => Some(if t[0] == '-' then -n else n)
      case None => None
    else ParseDigits(t)
  }

  /** A numeral, read as the value of its digits. */
  function ParseDigits(d: string): (r: Option<int>)
    ensures r.Some? <==> Numeral(d)
    ensures r.Some? ==> r.value == DigitsValue(d)
  {
    if Numeral(d) then Some(DigitsValue(d)) else None
  }

  /** Python's `int(v)` for a decoded JSON value; `None` where Python raises
      (`TypeError` for `None`, lists and dicts; `ValueError` for a malformed string). */
  function ToInt(v: Json): (r: Option<int>)
    ensures v.JInt? ==> r == Some(v.i)
    ensures v.JBool? ==> r == Some(if v.b then 1 else 0)
    ensures v.JFloat? ==> r == Some(Truncate(v.f))
    ensures v.JString? ==> r == ParseInt(v.s)
    ensures v.JNull? || v.JArray? || v.JObject? ==> r.None?
  {
    match v
    case JInt(i) => Some(i)
    case JBool(b) => Some(if b then 1 else 0)
    case JFloat(f) => Some(Truncate(f))
    case JString(s) => ParseInt(s)
    case _ => None
  }

  /** The number a value stands for in an ordering comparison such as `v <= 36`
      (`bool` is an `int` in Python); `None` where the comparison raises `TypeError`. */
  function AsNumber(v: Json): (r: Option<real>)
    ensures r.Some? <==> v.JInt? || v.JFloat? || v.JBool?
    ensures v.JInt? ==> r == Some(v.i as real)
    ensures v.JFloat? ==> r == Some(v.f)
    ensures v.JBool? ==> r == Some(if v.b then 1.0 else 0.0)
  {
    match v
    case JInt(i) => Some(i as real)
    case JFloat(f) => Some(f)
    case JBool(b) => Some(if b then 1.0 else 0.0)
    case _ => None
  }

  /** `str(n)` for a natural number. */
  function DecimalText(n: nat): (r: string)
    ensures |r| > 0 && forall i :: 0 <= i < |r| ==> IsDigit(r[i])
    decreases n
  {
    var last := ['0' + ((n % 10) as char)];
    if n < 10 then last else DecimalText(n / 10) + last
  }

  /** Reading back the digits of `str(n)` gives `n`. */
  lemma {:induction false} DigitsValueOfDecimal(n: nat)
    ensures DigitsValue(DecimalText(n)) == n
    decreases n
  {
    var d := DecimalText(n);
    if n >= 10 {
      DigitsValueOfDecimal(n / 10);
      assert d[..|d| - 1] == DecimalText(n / 10);
    }
  }

  /** Unsigned digits parse to their value, up to the digit bound. */
  lemma UnsignedDigitsParse(d: string)
    requires AllDigits(d)
    ensures ParseSigned(d) == if |d| <= MaxStrDigits then Some(DigitsValue(d)) else None
  {
    DigitsParse(d);
    UnsignedParse(d);
  }

  /** Plain digits are read as their value, up to the digit bound. */
  lemma DigitsParse(d: string)
    requires AllDigits(d)
    ensures ParseDigits(d) == if |d| <= MaxStrDigits then Some(DigitsValue(d)) else None
  {
    if |d| <= MaxStrDigits {
      ShortDigitsParse(d);
    } else {
      LongDigitsRejected(d);
    }
  }

  /** At most `MaxStrDigits` plain digits are read as their value. */
  lemma ShortDigitsParse(d: string)
    requires AllDigits(d) && |d| <= MaxStrDigits
    ensures ParseDigits(d) == Some(DigitsValue(d))
  {
    NumeralOfDigits(d);
  }

  /** More than `MaxStrDigits` digits make `int()` raise. */
  lemma LongDigitsRejected(d: string)
    requires AllDigits(d) && |d| > MaxStrDigits
    ensures ParseDigits(d).None?
  {
    NumeralOfDigits(d);
  }

  /** Text that starts with a digit has no sign. */
  lemma UnsignedParse(t: string)
    requires |t| > 0 && IsDigit(t[0])
    ensures ParseSigned(t) == ParseDigits(t)
  {
  }

  /** `int(str(n))` gives back `n`, also when the digits are padded with whitespace, as in `" 85 "`,
      as long as `str(n)` has at most `MaxStrDigits` digits; otherwise `int()` rejects them. */
  lemma IntOfDecimalText(n: nat, pad: string)
    requires forall i :: 0 <= i < |pad| ==> IsIntSpace(pad[i])
    ensures ToInt(JString(DecimalText(n))) == if |DecimalText(n)| <= MaxStrDigits then Some(n) else None
    ensures ToInt(JString(pad + DecimalText(n) + pad)) == if |DecimalText(n)| <= MaxStrDigits then Some(n) else None
  {
    var d := DecimalText(n);
    DecimalTextParse(n);
    var v := ParseSigned(d);
    assert !IsIntSpace(d[0]) && !IsIntSpace(d[|d| - 1]) by {
      assert IsDigit(d[0]) && IsDigit(d[|d| - 1]);
    }
    IntStripUnpadded(d);
    assert ParseInt(d) == v;
    IntStripPadded(pad, d);
    assert ParseInt(pad + d + pad) == v;
  }

  /** The digits of `str(n)` are read back as `n`, within the digit bound. */
  lemma DecimalTextParse(n: nat)
    ensures ParseSigned(DecimalText(n)) == if |DecimalText(n)| <= MaxStrDigits then Some(n) else None
  {
    DigitsValueOfDecimal(n);
    UnsignedDigitsParse(DecimalText(n));
  }

  /** `int("-" + str(n))` gives back `-n`, within the digit bound. */
  lemma IntOfNegativeDecimalText(n: nat)
    ensures ToInt(JString("-" + DecimalText(n)))
         == if |DecimalText(n)| <= MaxStrDigits then Some(-(n as int)) else None
  {
    var d := DecimalText(n);
    DigitsValueOfDecimal(n);
    if |d| <= MaxStrDigits {
      ShortDigitsParse(d);
      NegatedInt(d, n);
    } else {
      LongDigitsRejected(d);
      NegatedIntRejected(d);
    }
  }

  /** `int()` reads a minus sign before a numeral as its negation. */
  lemma NegatedInt(d: string, k: int)
    requires ParseDigits(d) == Some(k)
    ensures ToInt(JString("-" + d)) == Some(-k)
  {
    var m := "-" + d;
    assert m[0] == '-' && m[1..] == d;
    assert GroupedAt(d, |d| - 1);
    assert m[|m| - 1] == d[|d| - 1];
    IntStripUnpadded(m);
  }

  /** `int()` rejects a minus sign before anything other than a numeral whose last character is a digit. */
  lemma NegatedIntRejected(d: string)
    requires ParseDigits(d).None? && |d| > 0 && IsDigit(d[|d| - 1])
    ensures ToInt(JString("-" + d)).None?
  {
    var m := "-" + d;
    assert m[0] == '-' && m[1..] == d;
    assert m[|m| - 1] == d[|d| - 1];
    IntStripUnpadded(m);
  }

  /** Unlike `strip()`, `int()` does not skip the separator U+001C: `int("\x1c85\x1c")` raises. */
  lemma SeparatorNotSkipped()
    ensures Strip("\U{1C}85\U{1C}") == "85"
    ensures ToInt(JString("\U{1C}85\U{1C}")).None?
  {
    var s := "\U{1C}85\U{1C}";
    assert s[1..3] == "85";
    assert SkipSpaces(s, 0) == 1;
    assert BackSpaces(s, 1, 4) == 3;
    assert IntStrip(s) == s;
  }

  /** `int()` reads single `_` separators between digits. */
  lemma GroupedDigits()
    ensures ToInt(JString("1_000")) == Some(1000)
  {
    var s := "1_000";
    IntStripUnpadded(s);
    ThousandValue();
    assert Numeral(s) by {
      assert forall i :: 0 <= i < |s| ==> GroupedAt(s, i);
    }
    assert ParseDigits(s) == Some(1000);
  }

  /** "1_000" has four digits, worth 1000. */
  lemma ThousandValue()
    ensures DigitsValue("1_000") == 1000 && DigitCount("1_000") == 4
  {
    assert "1_"[..1] == "1";
    assert DigitsValue("1_") == 1 && DigitCount("1_") == 1;
    assert "1_0"[..2] == "1_";
    assert DigitsValue("1_0") == 10 && DigitCount("1_0") == 2;
    assert "1_00"[..3] == "1_0";
    assert DigitsValue("1_00") == 100 && DigitCount("1_00") == 3;
    assert "1_000"[..4] == "1_00";
  }

  /** `int()` rejects a doubled separator and a leading one. */
  lemma MisplacedSeparator()
    ensures ToInt(JString("1__000")).None?
    ensures ToInt(JString("_1")).None?
  {
    var u := "1__000";
    assert IntStrip(u) == u;
    assert !Grouped(u) by {
      assert !GroupedAt(u, 1);
    }
    assert IntStrip("_1") == "_1";
  }

  /** Text whose ends are not whitespace for `int()` is read as it is. */
  lemma IntStripUnpadded(s: string)
    requires s == [] || (!IsIntSpace(s[0]) && !IsIntSpace(s[|s| - 1]))
    ensures IntStrip(s) == s
  {
  }

  /** Whitespace padding for `int()` around a text with other ends is exactly what `int()` skips. */
  lemma IntStripPadded(pad: string, t: string)
    requires forall i :: 0 <= i < |pad| ==> IsIntSpace(pad[i])
    requires |t| > 0 && !IsIntSpace(t[0]) && !IsIntSpace(t[|t| - 1])
    ensures IntStrip(pad + t + pad) == t
  {
    var s := pad + t + pad;
    var e := |pad| + |t|;
    assert forall i :: 0 <= i < |pad| ==> s[i] == pad[i];
    assert forall i :: e <= i < |s| ==> s[i] == pad[i - e];
    assert s[|pad|] == t[0] && s[e - 1] == t[|t| - 1];
    assert SkipIntSpaces(s, 0) == |pad|;
    assert BackIntSpaces(s, |pad|, |s|) == e;
    assert s[|pad|..e] == t;
  }
}
