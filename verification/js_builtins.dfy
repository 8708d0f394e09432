/**
 * The JavaScript built-ins the core relies on, over strings of Unicode
 * scalar values (Dafny's `char`): `String.prototype.trim`, `String.prototype.startsWith`, the decimal
 * rendering of an integer in a template literal, and `parseInt` without a
 * radix argument.
 */
module JsBuiltins {
  import opened KanbanTypes

  /** WhiteSpace and LineTerminator code points, as trim and parseInt skip them. */
  predicate IsWhiteSpace(c: char) {
    || c == '\t' || c == '\n' || c == '\U{000B}' || c == '\U{000C}' || c == '\r' || c == ' '
    || c == '\U{00A0}' || c == '\U{1680}' || ('\U{2000}' <= c <= '\U{200A}')
    || c == '\U{2028}' || c == '\U{2029}' || c == '\U{202F}' || c == '\U{205F}'
    || c == '\U{3000}' || c == '\U{FEFF}'
  }

  predicate AllWhiteSpace(s: string) {
    forall i :: 0 <= i < |s| ==> IsWhiteSpace(s[i])
  }

  /** Drops the leading white space of `s`. */
  function TrimStart(s: string): (r: string)
    ensures |r| <= |s| && r == s[|s| - |r|..]
    ensures AllWhiteSpace(s[..|s| - |r|])
    ensures r == [] || !IsWhiteSpace(r[0])
  {
    if s != [] && IsWhiteSpace(s[0]) then TrimStart(s[1..]) else s
  }

  /** Drops the trailing white space of `s`. */
  function TrimEnd(s: string): (r: string)
    ensures |r| <= |s| && r == s[..|r|]
    ensures AllWhiteSpace(s[|r|..])
    ensures r == [] || !IsWhiteSpace(r[|r| - 1])
  {
    if s != [] && IsWhiteSpace(s[|s| - 1]) then TrimEnd(s[..|s| - 1]) else s
  }

  /** `s.trim()`: drops the leading and the trailing white space. */
  function Trim(s: string): (r: string)
    ensures |r| <= |s|
  {
    TrimEnd(TrimStart(s))
  }

  /** A string trims to nothing exactly when every character of it is white space. */
  lemma TrimEmptyIffBlank(s: string)
    ensures Trim(s) == [] <==> AllWhiteSpace(s)
  {
    var t := TrimStart(s);
    var lo := |s| - |t|;
    if Trim(s) == [] {
      // Nothing is left after the leading white space.
      assert t[0..] == t;
      assert t == [];
      assert s[..lo] == s;
    } else {
      assert t != [] && t[0] == s[lo];
    }
  }

  /** `s.startsWith(prefix)`. */
  predicate StartsWith(s: string, prefix: string) {
    |prefix| <= |s| && s[..|prefix|] == prefix
  }

  predicate IsDecimalDigit(c: char) { '0' <= c <= '9' }

  function DecimalDigit(d: nat): (c: char)
    requires d < 10
    ensures IsDecimalDigit(c) && c as int - '0' as int == d
  {
    ['0', '1', '2', '3', '4', '5', '6', '7', '8', '9'][d]
  }

  /** The decimal rendering of a non-negative integer, without leading zeros. */
  function NatToString(n: nat): (r: string)
    ensures r != [] && forall i :: 0 <= i < |r| ==> IsDecimalDigit(r[i])
  {
    if n < 10 then [DecimalDigit(n)] else NatToString(n / 10) + [DecimalDigit(n % 10)]
  }

  /** `String(n)` for an integer `n` (below 10^21, where JavaScript switches to exponent form). */
  function IntToString(n: int): string {
    if n < 0 then "-" + NatToString(-n) else NatToString(n)
  }

  /** The value of a digit in the radices `parseInt` accepts, or 36 for any other character. */
  function DigitValue(c: char): (v: nat)
    ensures v <= 36
  {
    if '0' <= c <= '9' then c as int - '0' as int
    else if 'a' <= c <= 'z' then c as int - 'a' as int + 10
    else if 'A' <= c <= 'Z' then c as int - 'A' as int + 10
    else 36
  }

  /** The longest prefix of `s` made of digits of the given radix. */
  function DigitPrefix(s: string, radix: nat): (r: string)
    ensures |r| <= |s| && r == s[..|r|]
    ensures forall i :: 0 <= i < |r| ==> DigitValue(r[i]) < radix
    ensures |r| < |s| ==> DigitValue(s[|r|]) >= radix
  {
    if s != [] && DigitValue(s[0]) < radix then [s[0]] + DigitPrefix(s[1..], radix) else []
  }

  /** The value of a digit string in the given radix, most significant digit first. */
  function DigitsValue(ds: string, radix: nat): nat {
    if ds == [] then 0 else DigitsValue(ds[..|ds| - 1], radix) * radix + DigitValue(ds[|ds| - 1])
  }

  /**
   * The unsigned part of `parseInt`: a `0x`/`0X` prefix selects radix 16,
   * otherwise radix 10; then the longest run of digits is read, and no digits
   * at all is NaN (`None`).
   */
  function ParseMagnitude(u: string): Option<nat> {
    var hex := |u| >= 2 && u[0] == '0' && (u[1] == 'x' || u[1] == 'X');
    var radix := if hex then 16 else 10;
    var digits := DigitPrefix(if hex then u[2..] else u, radix);
    if digits == [] then None else Some(DigitsValue(digits, radix))
  }

  /**
   * `parseInt(s)` with no radix, `None` standing for NaN: skip leading white
   * space, take one `+` or `-` sign, then read the magnitude.
   */
  function ParseInt(s: string): (r: Option<int>)
    ensures AllWhiteSpace(s) ==> r.None?
  {
    var t := TrimStart(s);
    var negative := t != [] && t[0] == '-';
    var u := if t != [] && (t[0] == '-' || t[0] == '+') then t[1..] else t;
    match ParseMagnitude(u)
    case None => None
    case Some(m) => Some(if negative then -(m as int) else m)
  }

  lemma {:induction false} NatToStringValue(n: nat)
    ensures DigitsValue(NatToString(n), 10) == n
    decreases n
  {
    var q, m := n / 10, n % 10;
    var d := DecimalDigit(m);
    if n < 10 {
      assert NatToString(n) == [] + [d];
      DigitsValueAppend([], d);
    } else {
      assert NatToString(n) == NatToString(q) + [d];
      NatToStringValue(q);
      DigitsValueAppend(NatToString(q), d);
      var v := DigitsValue(NatToString(q), 10);
      assert DigitsValue(NatToString(n), 10) == v * 10 + m;
      assert v * 10 + m == q * 10 + m == n;
    }
  }

  /** Appending a digit multiplies the value by ten and adds the digit. */
  lemma DigitsValueAppend(ds: string, d: char)
    ensures DigitsValue(ds + [d], 10) == DigitsValue(ds, 10) * 10 + DigitValue(d)
  {
    assert (ds + [d])[..|ds|] == ds;
  }

  lemma {:induction false} DigitPrefixOfDigits(ds: string, tail: string)
    requires forall i :: 0 <= i < |ds| ==> IsDecimalDigit(ds[i])
    requires tail == [] || tail[0] == '-'
    ensures DigitPrefix(ds + tail, 10) == ds
  {
    if ds == [] {
      assert ds + tail == tail;
    } else {
      assert (ds + tail)[1..] == ds[1..] + tail;
      DigitPrefixOfDigits(ds[1..], tail);
      assert ds == [ds[0]] + ds[1..];
    }
  }

  lemma ParseMagnitudeOfDigits(ds: string, tail: string)
    requires ds != [] && forall i :: 0 <= i < |ds| ==> IsDecimalDigit(ds[i])
    requires tail == [] || tail[0] == '-'
    ensures ParseMagnitude(ds + tail) == Some(DigitsValue(ds, 10))
  {
    var u := ds + tail;
    var hex := |u| >= 2 && u[0] == '0' && (u[1] == 'x' || u[1] == 'X');
    assert !hex by {
      if |u| >= 2 {
        if |ds| >= 2 {
          assert u[1] == ds[1] && IsDecimalDigit(ds[1]);
        } else {
          assert u[1] == tail[0];
        }
      }
    }
    DigitPrefixOfDigits(ds, tail);
  }

  /** Leading white space and sign handling of `parseInt` on a string starting with a digit. */
  lemma ParseIntUnsigned(u: string, m: nat)
    requires u != [] && IsDecimalDigit(u[0]) && ParseMagnitude(u) == Some(m)
    ensures ParseInt(u) == Some(m)
  {
    assert !IsWhiteSpace(u[0]);
    assert TrimStart(u) == u;
  }

  /** The same after one `-` sign. */
  lemma ParseIntNegative(u: string, m: nat)
    requires u != [] && IsDecimalDigit(u[0]) && ParseMagnitude(u) == Some(m)
    ensures ParseInt("-" + u) == Some(-(m as int))
  {
    var s := "-" + u;
    assert s[0] == '-' && !IsWhiteSpace(s[0]);
    assert TrimStart(s) == s;
    assert s[1..] == u;
  }

  /**
   * `parseInt` reads back the decimal rendering of an integer, also when the
   * rendering is followed by a `-` separator and more text.
   */
  lemma ParseIntOfIntToString(n: int, tail: string)
    requires tail == [] || tail[0] == '-'
    ensures ParseInt(IntToString(n) + tail) == Some(n)
  {
    var m: nat := if n < 0 then -n else n;
    var ds := NatToString(m);
    NatToStringValue(m);
    ParseMagnitudeOfDigits(ds, tail);
    assert (ds + tail)[0] == ds[0];
    if n < 0 {
      ParseIntNegative(ds + tail, m);
      assert IntToString(n) + tail == "-" + (ds + tail);
    } else {
      ParseIntUnsigned(ds + tail, m);
    }
  }
}
