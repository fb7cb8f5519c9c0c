/**
 Decimal conversions: `fmt.Sprintf("%d", n)` for a non-negative `n`, and
 `strconv.Atoi` on a 64-bit platform.
 */
module Strconv {
  import opened Wrappers

  /** Bounds of Go's `int` on a 64-bit platform. */
  const MaxInt: int := 0x7FFF_FFFF_FFFF_FFFF
  const MinInt: int := -0x8000_0000_0000_0000

  predicate IsDigit(c: char) {
    '0' <= c <= '9'
  }

  predicate AllDigits(s: string) {
    forall i :: 0 <= i < |s| ==> IsDigit(s[i])
  }

  function DigitValue(c: char): (d: nat)
    requires IsDigit(c)
    ensures d < 10
  {
    (c as int) - ('0' as int)
  }

  function DigitChar(d: nat): (c: char)
    requires d < 10
    ensures IsDigit(c) && DigitValue(c) == d
  {
    (('0' as int) + d) as char
  }

  /** The value of a decimal digit string, most significant digit first. */
  function DigitsValue(s: string): nat
    requires AllDigits(s)
  {
    if |s| == 0 then 0 else DigitsValue(s[..|s| - 1]) * 10 + DigitValue(s[|s| - 1])
  }

  /**
   `fmt.Sprintf("%d", n)` for `n >= 0`: a non-empty digit string without a
   leading zero (unless it is "0") whose decimal value is `n`.
   */
  function FormatNat(n: nat): (r: string)
    ensures |r| > 0 && AllDigits(r)
    ensures DigitsValue(r) == n
    ensures |r| > 1 ==> r[0] != '0'
  {
    if n < 10 then [DigitChar(n)]
    else
      var high := FormatNat(n / 10);
      var r := high + [DigitChar(n % 10)];
      assert r[..|r| - 1] == high;
      r
  }

  /**
   `strconv.Atoi`: an optional `+` or `-` followed by at least one ASCII
   digit and nothing else (no white space, no underscores), whose value
   fits a 64-bit `int`; anything else is an error, modelled as `None`.
   */
  function Atoi(s: string): (r: Option<int>)
    ensures r.Some? ==> MinInt <= r.value <= MaxInt
    ensures r.Some? ==> |s| > 0 && (IsDigit(s[0]) || s[0] == '+' || s[0] == '-')
    ensures r.Some? ==> AllDigits(s[1..]) && (!IsDigit(s[0]) ==> |s| > 1)
    ensures r.Some? && r.value < 0 ==> s[0] == '-'
  {
    var signed := |s| > 0 && (s[0] == '+' || s[0] == '-');
    var digits := if signed then s[1..] else s;
    if |digits| == 0 || !AllDigits(digits) then None
    else
      assert forall i :: 1 <= i < |s| ==> s[1..][i - 1] == s[i];
      var magnitude: int := DigitsValue(digits);
      var v := if s[0] == '-' then -magnitude else magnitude;
      if MinInt <= v <= MaxInt then Some(v) else None
  }

  /** An optional sign and a digit string in range are accepted with their value. */
  lemma AtoiAccepts(sign: string, digits: string)
    requires sign == "" || sign == "+" || sign == "-"
    requires |digits| > 0 && AllDigits(digits)
    requires MinInt <= (if sign == "-" then 0 - DigitsValue(digits) else DigitsValue(digits)) <= MaxInt
    ensures Atoi(sign + digits) == Some(if sign == "-" then 0 - DigitsValue(digits) else DigitsValue(digits))
  {
    var s := sign + digits;
    var signed := |s| > 0 && (s[0] == '+' || s[0] == '-');
    if sign == "" {
      assert s == digits;
      assert !signed;
    } else {
      assert s[0] == sign[0];
      assert s[1..] == digits;
      assert signed;
    }
    var magnitude: int := DigitsValue(digits);
    assert Atoi(s) == (var v := if s[0] == '-' then -magnitude else magnitude;
                       if MinInt <= v <= MaxInt then Some(v) else None);
  }

  /** A sign and digit string whose value does not fit a 64-bit `int` is rejected. */
  lemma AtoiRejectsOutOfRange(sign: string, digits: string)
    requires sign == "" || sign == "+" || sign == "-"
    requires |digits| > 0 && AllDigits(digits)
    requires !(MinInt <= (if sign == "-" then 0 - DigitsValue(digits) else DigitsValue(digits)) <= MaxInt)
    ensures Atoi(sign + digits) == None
  {
    var s := sign + digits;
    var signed := |s| > 0 && (s[0] == '+' || s[0] == '-');
    if sign == "" {
      assert s == digits;
      assert !signed;
    } else {
      assert s[0] == sign[0];
      assert s[1..] == digits;
      assert signed;
    }
    var magnitude: int := DigitsValue(digits);
    assert Atoi(s) == (var v := if s[0] == '-' then -magnitude else magnitude;
                       if MinInt <= v <= MaxInt then Some(v) else None);
  }

  /** `Atoi` reads back what `%d` formats, for every value in range. */
  lemma AtoiOfFormat(n: nat)
    requires n <= MaxInt
    ensures Atoi(FormatNat(n)) == Some(n)
    ensures Atoi("-" + FormatNat(n)) == Some(0 - n)
  {
    AtoiOfDigits(FormatNat(n));
  }

  lemma AtoiOfDigits(s: string)
    requires |s| > 0 && AllDigits(s) && DigitsValue(s) <= MaxInt
    ensures Atoi(s) == Some(DigitsValue(s))
    ensures Atoi("-" + s) == Some(0 - DigitsValue(s))
  {
    AtoiAccepts("", s);
    assert "" + s == s;
    AtoiAccepts("-", s);
  }

  /** A sign followed by one digit is accepted with that digit's value. */
  lemma AtoiOneDigit(sign: string, c: char)
    requires sign == "" || sign == "+" || sign == "-"
    requires IsDigit(c)
    ensures Atoi(sign + [c]) == Some(if sign == "-" then 0 - DigitValue(c) else DigitValue(c))
  {
    assert DigitsValue([c]) == DigitValue(c) by {
      assert [c][..0] == [];
    }
    AtoiAccepts(sign, [c]);
  }

  /** Quantity cells an operator may type that `Atoi` accepts. */
  lemma AtoiAcceptsExamples()
    ensures Atoi("3") == Some(3)
    ensures Atoi("+5") == Some(5)
    ensures Atoi("-2") == Some(-2)
    ensures Atoi("0") == Some(0)
  {
    AtoiOneDigit("", '3');
    assert "" + ['3'] == "3";
    AtoiOneDigit("+", '5');
    assert "+" + ['5'] == "+5";
    AtoiOneDigit("-", '2');
    assert "-" + ['2'] == "-2";
    AtoiOneDigit("", '0');
    assert "" + ['0'] == "0";
  }

  /** Leading zeros are allowed: "007" is 7. */
  lemma AtoiLeadingZeros()
    ensures Atoi("007") == Some(7)
  {
    var s := "007";
    assert s[..2][..1] == "0";
    assert DigitsValue(s[..2][..1]) == 0;
    assert DigitsValue(s[..2]) == 0;
    assert DigitsValue(s) == 7;
    AtoiAccepts("", s);
    assert "" + s == s;
  }

  /** Quantity cells that `Atoi` rejects: empty, a bare sign, spaces, letters, underscores. */
  lemma AtoiRejectsExamples()
    ensures Atoi("") == None
    ensures Atoi("+") == None
    ensures Atoi(" 3") == None
    ensures Atoi("3 ") == None
    ensures Atoi("abc") == None
    ensures Atoi("1_000") == None
  {
    assert !IsDigit(" 3"[0]);
    assert !IsDigit("3 "[1]);
    assert !IsDigit("abc"[0]);
    assert !IsDigit("1_000"[1]);
  }
}
