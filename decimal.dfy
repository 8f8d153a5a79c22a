/**
 * Base-10 rendering and parsing of integers, as done by Go's
 * `strconv.FormatInt(n, 10)` and by the digit scanners of the semantic
 * version parser.
 */
module Decimal {
  import opened Wrappers

  predicate IsDigit(c: char) { '0' <= c <= '9' }

  predicate AllDigits(s: string) { forall i :: 0 <= i < |s| ==> IsDigit(s[i]) }

  /** Digits without a superfluous leading zero: "0", "7", "120", never "012" or "". */
  predicate Canonical(s: string) { |s| > 0 && AllDigits(s) && (s[0] == '0' ==> |s| == 1) }

  function DigitChar(d: nat): (c: char)
    requires d < 10
    ensures IsDigit(c) && c as int - '0' as int == d
  {
    (d + '0' as int) as char
  }

  function DigitValue(c: char): nat
    requires IsDigit(c)
  {
    c as int - '0' as int
  }

  /** The decimal digits of `n`, most significant first. */
  function NatToString(n: nat): (s: string)
    ensures Canonical(s)
    ensures |s| == 1 <==> n < 10
    decreases n
  {
    if n < 10 then [DigitChar(n)] else NatToString(n / 10) + [DigitChar(n % 10)]
  }

  /** `strconv.FormatInt(n, 10)`: a minus sign for negative numbers, then the digits of |n|. */
  function FormatInt(n: int): (s: string)
    ensures |s| > 0
    ensures n < 0 <==> s[0] == '-'
    ensures n >= 0 ==> s == NatToString(n)
    ensures n < 0 ==> s[1..] == NatToString(-n)
  {
    if n < 0 then "-" + NatToString(-n) else NatToString(n)
  }

  /** The number a string of digits denotes. */
  function DigitsValue(s: string): nat
    requires AllDigits(s)
    decreases |s|
  {
    if s == [] then 0 else DigitsValue(s[..|s| - 1]) * 10 + DigitValue(s[|s| - 1])
  }

  /** Parses a canonical decimal numeral; anything else is rejected. */
  function ParseNat(s: string): Option<nat>
  {
    if Canonical(s) then Some(DigitsValue(s)) else None
  }

  lemma {:induction false} DigitsOfNatToString(n: nat)
    ensures DigitsValue(NatToString(n)) == n
    decreases n
  {
    var s := NatToString(n);
    if n >= 10 {
      DigitsOfNatToString(n / 10);
      assert s[..|s| - 1] == NatToString(n / 10);
    }
  }

  /** A canonical numeral of two or more digits stands for at least 10. */
  lemma {:induction false} CanonicalLongIsLarge(s: string)
    requires Canonical(s) && |s| >= 2
    ensures DigitsValue(s) >= 10
    decreases |s|
  {
    var t := s[..|s| - 1];
    assert Canonical(t);
    if |t| >= 2 {
      CanonicalLongIsLarge(t);
    } else {
      assert t[0] != '0';
    }
  }

  lemma {:induction false} NatToStringOfDigits(s: string)
    requires Canonical(s)
    ensures NatToString(DigitsValue(s)) == s
    decreases |s|
  {
    if |s| >= 2 {
      var t := s[..|s| - 1];
      assert Canonical(t);
      NatToStringOfDigits(t);
      CanonicalLongIsLarge(s);
      if |t| >= 2 { CanonicalLongIsLarge(t); } else { assert t[0] != '0'; }
      var n := DigitsValue(s);
      assert n / 10 == DigitsValue(t) && n % 10 == DigitValue(s[|s| - 1]);
      assert s == t + [s[|s| - 1]];
    }
  }

  /** Rendering then parsing a natural number gives it back. */
  lemma ParseOfNatToString(n: nat)
    ensures ParseNat(NatToString(n)) == Some(n)
  {
    DigitsOfNatToString(n);
  }

  /** Parsing then rendering gives back the same text: the rendering is the only accepted spelling. */
  lemma ParseNatCanonical(s: string)
    ensures ParseNat(s).Some? ==> NatToString(ParseNat(s).value) == s
  {
    if Canonical(s) { NatToStringOfDigits(s); }
  }

  /** Distinct numbers have distinct renderings. */
  lemma NatToStringInjective(m: nat, n: nat)
    ensures NatToString(m) == NatToString(n) ==> m == n
  {
    DigitsOfNatToString(m);
    DigitsOfNatToString(n);
  }

  // ---------------------------------------------------------------------
  // Order of numerals

  function Pow10(n: nat): (p: nat)
    ensures p >= 1
  {
    if n == 0 then 1 else 10 * Pow10(n - 1)
  }

  lemma {:induction false} Pow10Monotone(a: nat, b: nat)
    requires a <= b
    ensures Pow10(a) <= Pow10(b)
    decreases b
  {
    if a < b {
      Pow10Monotone(a, b - 1);
    }
  }

  /** n digits stand for less than 10^n. */
  lemma {:induction false} DigitsValueBelow(s: string)
    requires AllDigits(s)
    ensures DigitsValue(s) < Pow10(|s|)
    decreases |s|
  {
    if s != [] {
      DigitsValueBelow(s[..|s| - 1]);
    }
  }

  lemma ShiftDigit(v: nat, d: nat, p: nat, w: nat, e: nat)
    requires v == d * p + w
    ensures v * 10 + e == d * (10 * p) + (w * 10 + e)
  {
  }

  /** The value of a numeral read from its first digit. */
  lemma {:induction false} DigitsValueFirst(s: string)
    requires AllDigits(s) && s != []
    ensures DigitsValue(s) == DigitValue(s[0]) * Pow10(|s| - 1) + DigitsValue(s[1..])
    decreases |s|
  {
    if |s| == 1 {
      assert s[..0] == [] && s[1..] == [];
    } else {
      var t := s[..|s| - 1];
      DigitsValueFirst(t);
      assert t[0] == s[0];
      assert s[1..][..|s| - 2] == t[1..];
      ShiftDigit(DigitsValue(t), DigitValue(s[0]), Pow10(|s| - 2), DigitsValue(t[1..]), DigitValue(s[|s| - 1]));
    }
  }

  lemma LeadingTerm(d: nat, p: nat, w: nat)
    requires d >= 1
    ensures d * p + w >= p
  {
  }

  /** A canonical numeral of n >= 2 digits stands for at least 10^(n-1). */
  lemma CanonicalAtLeast(s: string)
    requires Canonical(s) && |s| >= 2
    ensures DigitsValue(s) >= Pow10(|s| - 1)
  {
    DigitsValueFirst(s);
    assert s[0] != '0';
    LeadingTerm(DigitValue(s[0]), Pow10(|s| - 1), DigitsValue(s[1..]));
  }

  /** Of two canonical numerals the shorter stands for the smaller number. */
  lemma ShorterIsSmaller(x: string, y: string)
    requires Canonical(x) && Canonical(y) && |x| < |y|
    ensures DigitsValue(x) < DigitsValue(y)
  {
    DigitsValueBelow(x);
    CanonicalAtLeast(y);
    Pow10Monotone(|x|, |y| - 1);
  }

  lemma LeadingTermsOrder(dx: nat, dy: nat, p: nat, wx: nat, wy: nat)
    requires dx < dy && wx < p
    ensures dx * p + wx < dy * p + wy
  {
    var k := dy - dx;
    LeadingTerm(k, p, 0);
    assert dy * p == dx * p + k * p;
  }

  /** Numerals of one length are ordered by their first differing digit, as their numbers are. */
  lemma SameLengthOrder(x: string, y: string)
    requires AllDigits(x) && AllDigits(y) && |x| == |y| && x != [] && x[0] < y[0]
    ensures DigitsValue(x) < DigitsValue(y)
  {
    DigitsValueFirst(x);
    DigitsValueFirst(y);
    DigitsValueBelow(x[1..]);
    LeadingTermsOrder(DigitValue(x[0]), DigitValue(y[0]), Pow10(|x| - 1), DigitsValue(x[1..]), DigitsValue(y[1..]));
  }
}
