/**
 * The issuer-prefix check `is_valid_prefix`: Visa (leading 4), Mastercard
 * (51-55 and 2221-2720) and Mir (2200-2204), read from the first two and the
 * first four digits of the cleaned number.
 */
module Prefix {
  import opened Chars

  function Min(a: nat, b: nat): nat {
    if a <= b then a else b
  }

  function Pow10(n: nat): (p: nat)
    ensures p >= 1
  {
    if n == 0 then 1 else 10 * Pow10(n - 1)
  }

  /** `int(s)` for a string of ASCII digits: its value in base ten. */
  function DecimalValue(s: string): (v: nat)
    requires AllDigits(s)
    ensures v < Pow10(|s|)
  {
    if s == [] then 0 else DecimalValue(s[..|s| - 1]) * 10 + DigitValue(s[|s| - 1])
  }

  /**
   * The prefix rule. `int(s[:2])` and `int(s[:4])` read at most two and four
   * digits, fewer when s is shorter, as Python slicing does.
   */
  predicate IsValidPrefix(s: string)
    requires IsDigitString(s)
  {
    var first2 := DecimalValue(s[..Min(2, |s|)]);
    var first4 := DecimalValue(s[..Min(4, |s|)]);
    || s[0] == '4'
    || 51 <= first2 <= 55
    || 2221 <= first4 <= 2720
    || 2200 <= first4 <= 2204
  }

  /** Value of the first digits, one digit at a time. */
  lemma {:induction false} DecimalValueHead(s: string)
    requires AllDigits(s) && |s| >= 4
    ensures DecimalValue(s[..2]) == 10 * DigitValue(s[0]) + DigitValue(s[1])
    ensures DecimalValue(s[..4])
      == 1000 * DigitValue(s[0]) + 100 * DigitValue(s[1]) + 10 * DigitValue(s[2]) + DigitValue(s[3])
  {
    assert s[..2][..1] == s[..1] && s[..1][..0] == [];
    assert s[..4][..3] == s[..3] && s[..3][..2] == s[..2];
  }

  /**
   * The issuer ranges written digit by digit, as the leading digits of a
   * number of at least four digits.
   */
  predicate IssuerDigits(d0: nat, d1: nat, d2: nat, d3: nat) {
    || d0 == 4                                     // Visa
    || (d0 == 5 && 1 <= d1 <= 5)                   // Mastercard 51-55
    || (d0 == 2 && d1 == 2 && d2 == 0 && d3 <= 4)  // Mir 2200-2204
    || (d0 == 2 && d1 == 2 && d2 == 2 && d3 >= 1)  // Mastercard 2221-2229
    || (d0 == 2 && d1 == 2 && d2 >= 3)             // Mastercard 2230-2299
    || (d0 == 2 && 3 <= d1 <= 6)                   // Mastercard 2300-2699
    || (d0 == 2 && d1 == 7 && d2 <= 1)             // Mastercard 2700-2719
    || (d0 == 2 && d1 == 7 && d2 == 2 && d3 == 0)  // Mastercard 2720
  }

  /** For four digits or more, the prefix rule accepts exactly the issuer ranges. */
  lemma {:induction false} PrefixByDigits(s: string)
    requires IsDigitString(s) && |s| >= 4
    ensures IsValidPrefix(s) <==>
      IssuerDigits(DigitValue(s[0]), DigitValue(s[1]), DigitValue(s[2]), DigitValue(s[3]))
  {
    DecimalValueHead(s);
  }

  /**
   * Below four digits `int(s[:4])` is under 1000, so only the Visa digit and
   * the two-digit Mastercard range can accept.
   */
  lemma {:induction false} PrefixShort(s: string)
    requires IsDigitString(s) && |s| < 4
    ensures IsValidPrefix(s) <==>
      s[0] == '4' || (|s| >= 2 && s[0] == '5' && '1' <= s[1] <= '5')
  {
    assert s[..1][..0] == [];
    assert DecimalValue(s[..1]) == DigitValue(s[0]);
    if |s| >= 2 {
      assert s[..2][..1] == s[..1];
      assert DecimalValue(s[..2]) == 10 * DigitValue(s[0]) + DigitValue(s[1]);
    }
    assert s[..Min(4, |s|)] == s;
    assert Pow10(|s|) <= 1000 by {
      assert Pow10(1) == 10 && Pow10(2) == 100 && Pow10(3) == 1000;
    }
  }

  /** Issuer numbers the prefix rule accepts: the Visa and Mastercard unit-test numbers. */
  lemma PrefixAcceptsExamples(s: string)
    requires s == "4111111111111111" || s == "5111111111111111"
    ensures IsDigitString(s) && IsValidPrefix(s)
  {
    PrefixByDigits(s);
  }

  /** Issuer numbers the prefix rule accepts: the Mir and 2-series Mastercard unit-test numbers. */
  lemma PrefixAcceptsSeries2Examples(s: string)
    requires s == "2200111111111111" || s == "2221111111111111"
    ensures IsDigitString(s) && IsValidPrefix(s)
  {
    PrefixByDigits(s);
  }

  /** Issuer numbers the prefix rule rejects: the three rejected unit-test numbers. */
  lemma PrefixRejectsExamples(s: string)
    requires s == "1111111111111111" || s == "6111111111111111" || s == "2205111111111111"
    ensures IsDigitString(s) && !IsValidPrefix(s)
  {
    PrefixByDigits(s);
  }

  /** Mastercard 51-55: both ends are inclusive and the neighbours just outside are rejected. */
  lemma MastercardRange(lo: string, hi: string, below: string, above: string)
    requires lo == "5100000000000000" && hi == "5599999999999999"
    requires below == "5099999999999999" && above == "5600000000000000"
    ensures IsDigitString(lo) && IsValidPrefix(lo) && IsDigitString(hi) && IsValidPrefix(hi)
    ensures IsDigitString(below) && !IsValidPrefix(below)
    ensures IsDigitString(above) && !IsValidPrefix(above)
  {
    PrefixByDigits(lo);
    PrefixByDigits(hi);
    PrefixByDigits(below);
    PrefixByDigits(above);
  }

  /** Mir 2200-2204: both ends are inclusive and the neighbours just outside are rejected. */
  lemma MirRange(lo: string, hi: string, below: string, above: string)
    requires lo == "2200000000000000" && hi == "2204999999999999"
    requires below == "2199999999999999" && above == "2205000000000000"
    ensures IsDigitString(lo) && IsValidPrefix(lo) && IsDigitString(hi) && IsValidPrefix(hi)
    ensures IsDigitString(below) && !IsValidPrefix(below)
    ensures IsDigitString(above) && !IsValidPrefix(above)
  {
    PrefixByDigits(lo);
    PrefixByDigits(hi);
    PrefixByDigits(below);
    PrefixByDigits(above);
  }

  /** Mastercard 2221-2720: both ends are inclusive and the neighbours just outside are rejected. */
  lemma MastercardSeries2Range(lo: string, hi: string, below: string, above: string)
    requires lo == "2221000000000000" && hi == "2720999999999999"
    requires below == "2220999999999999" && above == "2721000000000000"
    ensures IsDigitString(lo) && IsValidPrefix(lo) && IsDigitString(hi) && IsValidPrefix(hi)
    ensures IsDigitString(below) && !IsValidPrefix(below)
    ensures IsDigitString(above) && !IsValidPrefix(above)
  {
    PrefixByDigits(lo);
    PrefixByDigits(hi);
    PrefixByDigits(below);
    PrefixByDigits(above);
  }
}
