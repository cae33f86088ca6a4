/**
 * The two number/string conversions the pooled-credit page relies on:
 * `parseInt` with no radix (which is what reads the stored counter back) and
 * the decimal rendering of an integer (which is what `localStorage.setItem`
 * stores). Numbers are unbounded integers here.
 */
module JsNumber {
  import opened Common

  /** The white space and line terminators that `parseInt` skips before the number. */
  predicate IsWhiteSpace(c: char) {
    || c == '\t' || c == '\n' || c == '\U{000B}' || c == '\U{000C}' || c == '\r' || c == ' '
    || c == '\U{00A0}' || c == '\U{1680}' || ('\U{2000}' <= c <= '\U{200A}')
    || c == '\U{2028}' || c == '\U{2029}' || c == '\U{202F}' || c == '\U{205F}'
    || c == '\U{3000}' || c == '\U{FEFF}'
  }

  /** The value of `c` as a digit in base `radix` (letters count from 10), if it is one. */
  function DigitValue(c: char, radix: nat): (d: Option<nat>)
    ensures d.Some? ==> d.value < radix
  {
    var v :=
      if '0' <= c <= '9' then (c as int) - ('0' as int)
      else if 'a' <= c <= 'z' then (c as int) - ('a' as int) + 10
      else if 'A' <= c <= 'Z' then (c as int) - ('A' as int) + 10
      else -1;
    if 0 <= v < radix then Some(v) else None
  }

  /** `s` without its leading white space. */
  function TrimStart(s: string): (t: string)
    ensures IsSuffix(t, s)
    ensures |t| > 0 ==> !IsWhiteSpace(t[0])
    ensures forall i :: 0 <= i < |s| - |t| ==> IsWhiteSpace(s[i])
  {
    if |s| > 0 && IsWhiteSpace(s[0]) then TrimStart(s[1..]) else s
  }

  /** The length of the longest prefix of `s` made of digits of base `radix`. */
  function DigitRun(s: string, radix: nat): (k: nat)
    ensures k <= |s|
    ensures forall i :: 0 <= i < k ==> DigitValue(s[i], radix).Some?
    ensures k < |s| ==> DigitValue(s[k], radix).None?
  {
    if |s| > 0 && DigitValue(s[0], radix).Some? then 1 + DigitRun(s[1..], radix) else 0
  }

  /** The value of a run of digits, most significant first. */
  function DigitsValue(s: string, radix: nat): nat
    requires forall i :: 0 <= i < |s| ==> DigitValue(s[i], radix).Some?
  {
    if s == [] then 0
    else
      var init := s[..|s| - 1];
      assert forall i :: 0 <= i < |init| ==> init[i] == s[i];
      var high := DigitsValue(init, radix);
      MulNonNegative(high, radix);
      high * radix + DigitValue(s[|s| - 1], radix).value
  }

  lemma MulNonNegative(a: nat, b: nat)
    ensures a * b >= 0
  {
  }

  /**
   * The unsigned part of `parseInt`: base 16 after a `0x`/`0X` prefix and base
   * 10 otherwise, stopping at the first character that is not a digit. No digit
   * at all gives `None` (NaN).
   */
  function ParseUnsigned(u: string): Option<nat> {
    var hex := |u| >= 2 && u[0] == '0' && (u[1] == 'x' || u[1] == 'X');
    var radix := if hex then 16 else 10;
    var v := if hex then u[2..] else u;
    var k := DigitRun(v, radix);
    if k == 0 then None else Some(DigitsValue(v[..k], radix))
  }

  /** `parseInt` once the white space is gone: an optional sign, then the unsigned part. */
  function ParseSigned(t: string): (r: Option<int>)
    ensures r.Some? ==> |t| > 0
    ensures r.Some? && r.value < 0 ==> t[0] == '-'
    ensures r.Some? && t[0] == '-' ==> r.value <= 0
  {
    var negative := |t| > 0 && t[0] == '-';
    var u := if |t| > 0 && (t[0] == '-' || t[0] == '+') then t[1..] else t;
    match ParseUnsigned(u)
    case None => None
    case Some(m) =>
      var value: int := if negative then -(m as int) else m;
      Some(value)
  }

  /**
   * `parseInt(s)` with no radix: skip leading white space, take an optional
   * sign, then read the unsigned part.
   */
  function ParseInt(s: string): (r: Option<int>)
    ensures r.Some? ==> |TrimStart(s)| > 0
    ensures r.Some? && r.value < 0 ==> TrimStart(s)[0] == '-'
    ensures r.Some? && TrimStart(s)[0] == '-' ==> r.value <= 0
  {
    ParseSigned(TrimStart(s))
  }

  /** The decimal digit character for `d`. */
  function DigitChar(d: nat): char
    requires d < 10
  {
    ('0' as int + d) as char
  }

  /** The decimal rendering of a natural number, without leading zeros. */
  function NatToString(n: nat): (s: string)
    ensures |s| > 0
    ensures forall i :: 0 <= i < |s| ==> '0' <= s[i] <= '9'
    ensures |s| > 1 ==> s[0] != '0'
  {
    if n < 10 then [DigitChar(n)] else NatToString(n / 10) + [DigitChar(n % 10)]
  }

  /** `String(n)` for an integer `n`: its decimal digits, with a leading `-` when negative. */
  function ToString(n: int): (s: string)
    ensures |s| > 0
    ensures s[0] == '-' <==> n < 0
    ensures forall i :: (if n < 0 then 1 else 0) <= i < |s| ==> '0' <= s[i] <= '9'
  {
    if n < 0 then "-" + NatToString(-n) else NatToString(n)
  }

  lemma {:induction false} DigitsValueOfNatToString(n: nat)
    ensures forall i :: 0 <= i < |NatToString(n)| ==> DigitValue(NatToString(n)[i], 10).Some?
    ensures DigitsValue(NatToString(n), 10) == n
  {
    var s := NatToString(n);
    if n >= 10 {
      DigitsValueOfNatToString(n / 10);
      assert s[..|s| - 1] == NatToString(n / 10);
      assert DigitValue(s[|s| - 1], 10).value == n % 10;
    }
  }

  lemma {:induction false} DigitRunOfDigits(s: string, radix: nat)
    requires forall i :: 0 <= i < |s| ==> DigitValue(s[i], radix).Some?
    ensures DigitRun(s, radix) == |s|
  {
    if |s| > 0 {
      assert DigitValue(s[0], radix).Some?;
      DigitRunOfDigits(s[1..], radix);
    }
  }

  /** A non-empty run of decimal digits is read in base 10, in full. */
  lemma ParseUnsignedDecimal(u: string)
    requires |u| > 0
    requires forall i :: 0 <= i < |u| ==> '0' <= u[i] <= '9'
    ensures forall i :: 0 <= i < |u| ==> DigitValue(u[i], 10).Some?
    ensures ParseUnsigned(u) == Some(DigitsValue(u, 10))
  {
    assert forall i :: 0 <= i < |u| ==> DigitValue(u[i], 10).Some?;
    assert !(|u| >= 2 && u[0] == '0' && (u[1] == 'x' || u[1] == 'X')) by {
      if |u| >= 2 {
        assert '0' <= u[1] <= '9';
      }
    }
    DigitRunOfDigits(u, 10);
    assert u[..|u|] == u;
  }

  /** A rendered natural number reads back as itself. */
  lemma {:induction false} ParseUnsignedNatToString(m: nat)
    ensures ParseUnsigned(NatToString(m)) == Some(m)
  {
    DigitsValueOfNatToString(m);
    ParseUnsignedDecimal(NatToString(m));
  }

  /** Text that starts with a character other than white space is not trimmed. */
  lemma TrimStartKeeps(s: string)
    requires |s| > 0 && !IsWhiteSpace(s[0])
    ensures TrimStart(s) == s
  {
  }

  /** White space in front of the number is skipped. */
  lemma ParseIntSkipsWhiteSpace(c: char, s: string)
    requires IsWhiteSpace(c)
    ensures ParseInt([c] + s) == ParseInt(s)
  {
    assert ([c] + s)[1..] == s;
    assert TrimStart([c] + s) == TrimStart(s);
  }

  /** Text that starts with neither white space, a sign nor a digit reads as NaN. */
  lemma ParseIntNoDigit(s: string)
    requires |s| > 0 && !IsWhiteSpace(s[0])
    requires s[0] != '-' && s[0] != '+' && DigitValue(s[0], 10).None?
    ensures ParseInt(s) == None
  {
    TrimStartKeeps(s);
    assert DigitRun(s, 10) == 0;
  }

  /** A leading `-` followed by unsigned digits negates their value. */
  lemma ParseIntNegative(digits: string, m: nat)
    requires ParseUnsigned(digits) == Some(m)
    ensures ParseInt(['-'] + digits) == Some(-(m as int))
  {
    var s := ['-'] + digits;
    TrimStartKeeps(s);
    assert s[1..] == digits;
  }

  /** Text starting with a decimal digit is read as an unsigned number. */
  lemma ParseIntUnsigned(digits: string, m: nat)
    requires |digits| > 0 && '0' <= digits[0] <= '9'
    requires ParseUnsigned(digits) == Some(m)
    ensures ParseInt(digits) == Some(m as int)
  {
    TrimStartKeeps(digits);
    assert digits[0] != '-' && digits[0] != '+';
  }

  /** Reading back a rendered number gives the number: `parseInt(String(n)) == n`. */
  lemma {:induction false} ParseIntToString(n: int)
    ensures ParseInt(ToString(n)) == Some(n)
  {
    if n < 0 {
      ParseUnsignedNatToString(-n);
      ParseIntNegative(NatToString(-n), -n);
    } else {
      ParseUnsignedNatToString(n);
      ParseIntUnsigned(NatToString(n), n);
    }
  }
}
