/** Decimal numerals, as Python's `str(n)` and zero-padding format them. */
module Decimal {
  const DIGITS := "0123456789"

  predicate IsDigit(c: char) {
    '0' <= c <= '9'
  }

  lemma {:induction false} DigitsAre(c: char)
    ensures IsDigit(c) <==> c in DIGITS
  {
    if IsDigit(c) {
      assert DIGITS[c as int - '0' as int] == c;
    } else {
      assert forall k :: 0 <= k < 10 ==> '0' <= DIGITS[k] <= '9';
    }
  }

  function Numeral(n: nat): (s: string)
    ensures |s| >= 1 && forall i :: 0 <= i < |s| ==> IsDigit(s[i])
  {
    if n < 10 then [DIGITS[n]] else Numeral(n / 10) + [DIGITS[n % 10]]
  }

  function Value(s: string): nat {
    if s == [] then 0
    else Value(s[..|s| - 1]) * 10
         + (if IsDigit(s[|s| - 1]) then s[|s| - 1] as int - '0' as int else 0)
  }

  lemma {:induction false} ValueOfNumeral(n: nat)
    ensures Value(Numeral(n)) == n
  {
    if n >= 10 {
      ValueOfNumeral(n / 10);
      assert Numeral(n)[..|Numeral(n)| - 1] == Numeral(n / 10);
    }
  }

  function Zeros(k: nat): (s: string)
    ensures |s| == k && forall i :: 0 <= i < k ==> s[i] == '0'
  {
    seq(k, _ => '0')
  }

  /** `f"{n:0{width}d}"`: at least `width` characters, the sign included. */
  function Padded(n: int, width: nat): string {
    var digits := Numeral(if n < 0 then -n else n);
    var sign := if n < 0 then "-" else "";
    var used := |sign| + |digits|;
    sign + Zeros(if used < width then width - used else 0) + digits
  }

  /** The text of a number: no shorter than the width, no padding beyond it, a minus sign exactly
      for negative numbers, and digits that read as the number. */
  lemma {:induction false} PaddedReads(n: int, width: nat)
    ensures var s := Padded(n, width);
      && |s| >= width && (|s| > width && |s| > 1 ==> if n >= 0 then s[0] != '0' else s[0] == '-' && |s| > 1 && s[1] != '0')
      && (n >= 0 ==> AllDigits(s) && Value(s) == n)
      && (n < 0 ==> s != "" && s[0] == '-' && AllDigits(s[1..]) && Value(s[1..]) == -n)
  {
    PaddedParts(n, width);
    PaddedDigitsValue(if n < 0 then -n else n, if n < 0 then width - 1 else width);
    NoLeadingZero(if n < 0 then -n else n);
  }

  lemma {:induction false} NoLeadingZero(n: nat)
    ensures n > 0 ==> Numeral(n)[0] != '0'
    ensures n == 0 ==> Numeral(n) == "0"
  {
    if n >= 10 {
      NoLeadingZero(n / 10);
    }
  }

  lemma {:induction false} LeadingZeros(k: nat, s: string)
    ensures Value(Zeros(k) + s) == Value(s)
  {
    var t := Zeros(k) + s;
    if s != [] {
      assert t[..|t| - 1] == Zeros(k) + s[..|s| - 1];
      LeadingZeros(k, s[..|s| - 1]);
    } else if k > 0 {
      assert t[..|t| - 1] == Zeros(k - 1) + s;
      LeadingZeros(k - 1, s);
    }
  }

  predicate AllDigits(s: string) {
    forall i :: 0 <= i < |s| ==> IsDigit(s[i])
  }

  /** The digits of a padded number, without its sign. */
  function PaddedDigits(n: nat, width: int): (s: string)
    ensures |s| > 0 && AllDigits(s)
  {
    var digits := Numeral(n);
    Zeros(if |digits| < width then width - |digits| else 0) + digits
  }

  lemma {:induction false} PaddedParts(n: int, width: nat)
    ensures n >= 0 ==> Padded(n, width) == PaddedDigits(n, width)
    ensures n < 0 ==> Padded(n, width) == "-" + PaddedDigits(-n, width - 1)
  {
  }

  lemma {:induction false} PaddedDigitsValue(n: nat, width: int)
    ensures Value(PaddedDigits(n, width)) == n
  {
    ValueOfNumeral(n);
    LeadingZeros(if |Numeral(n)| < width then width - |Numeral(n)| else 0, Numeral(n));
  }

  /** Padding loses nothing: two numbers with the same padded form are equal. */
  lemma {:induction false} PaddedInjective(m: int, n: int, width: nat)
    requires Padded(m, width) == Padded(n, width)
    ensures m == n
  {
    hide Value, Numeral, Padded, PaddedDigits;
    PaddedParts(m, width);
    PaddedParts(n, width);
    if m >= 0 {
      assert PaddedDigits(m, width)[0] != '-';
      PaddedDigitsValue(m, width);
      PaddedDigitsValue(n, width);
    } else {
      assert Padded(m, width)[0] == '-';
      assert Padded(m, width)[1..] == PaddedDigits(-m, width - 1);
      assert Padded(n, width)[1..] == PaddedDigits(-n, width - 1);
      PaddedDigitsValue(-m, width - 1);
      PaddedDigitsValue(-n, width - 1);
    }
  }
}
