/**
 * The Luhn checksum `luhn_validate`: reading the digits from the right,
 * every second digit is doubled (minus nine when the double exceeds nine),
 * and the number is valid when the total is a multiple of ten. Any non-empty
 * string of digits is checked, whatever its length.
 */
module Luhn {
  import opened Chars

  /**
   * What the digit d at position i, counted from the right starting at 0,
   * adds to the total.
   */
  function LuhnTerm(d: nat, i: nat): (r: nat)
    requires d <= 9
    ensures r <= 9
    ensures i % 2 == 0 ==> r == d
    ensures i % 2 == 1 ==> r == (2 * d) / 10 + (2 * d) % 10
  {
    if i % 2 == 1 then (if d * 2 > 9 then d * 2 - 9 else d * 2) else d
  }

  /** Every element is the value of one decimal digit. */
  predicate IsDigitValues(ds: seq<nat>) {
    forall k :: 0 <= k < |ds| ==> ds[k] <= 9
  }

  /** `list(map(int, s[::-1]))`: the digit values of s, last digit first. */
  function ReversedDigits(s: string): (ds: seq<nat>)
    requires AllDigits(s)
    ensures |ds| == |s| && IsDigitValues(ds)
    ensures forall k :: 0 <= k < |s| ==> ds[k] == DigitValue(s[|s| - 1 - k])
  {
    seq(|s|, k requires 0 <= k < |s| => DigitValue(s[|s| - 1 - k]))
  }

  /** The total over the first i reversed digits, each weighted by its position. */
  function TermSum(ds: seq<nat>, i: nat): (r: nat)
    requires IsDigitValues(ds) && i <= |ds|
  {
    if i == 0 then 0 else TermSum(ds, i - 1) + LuhnTerm(ds[i - 1], i - 1)
  }

  /** The verdict of `luhn_validate`. */
  predicate IsLuhnValid(s: string) {
    IsDigitString(s) && TermSum(ReversedDigits(s), |s|) % 10 == 0
  }

  /**
   * `luhn_validate`: reject what is not a non-empty digit string, then
   * accumulate over the reversed digits.
   */
  method LuhnValidate(cardNumber: string) returns (ok: bool)
    ensures ok == IsLuhnValid(cardNumber)
  {
    if !IsDigitString(cardNumber) {
      return false;
    }
    var reversedDigits := ReversedDigits(cardNumber);
    var total := 0;
    var i := 0;
    while i < |reversedDigits|
      invariant 0 <= i <= |reversedDigits|
      invariant total == TermSum(reversedDigits, i)
    {
      var d := reversedDigits[i];
      if i % 2 == 1 {
        var dbl := d * 2;
        if dbl > 9 {
          dbl := dbl - 9;
        }
        total := total + dbl;
      } else {
        total := total + d;
      }
      i := i + 1;
    }
    return total % 10 == 0;
  }

  /** Empty and non-digit strings are rejected before any arithmetic. */
  lemma LuhnNeedsDigits(s: string)
    requires !IsDigitString(s)
    ensures !IsLuhnValid(s)
  {
  }

  // ---------------------------------------------------------------------
  // Check digit: the last digit is determined by the ones before it.
  // ---------------------------------------------------------------------

  /**
   * The total over the first i reversed digits, each weighted as if it stood
   * one position further left, behind a check digit still to come.
   */
  function PayloadSum(ds: seq<nat>, i: nat): (r: nat)
    requires IsDigitValues(ds) && i <= |ds|
  {
    if i == 0 then 0 else PayloadSum(ds, i - 1) + LuhnTerm(ds[i - 1], i)
  }

  /** The digit that completes p to a Luhn-valid number. */
  function CheckDigit(p: string): (c: nat)
    requires AllDigits(p)
    ensures c <= 9
  {
    (10 - PayloadSum(ReversedDigits(p), |p|) % 10) % 10
  }

  /** Putting a digit in front of the reversed digits shifts every other weight by one. */
  lemma {:induction false} TermSumShift(d: nat, ds: seq<nat>, i: nat)
    requires d <= 9 && IsDigitValues(ds) && i <= |ds|
    ensures IsDigitValues([d] + ds)
    ensures TermSum([d] + ds, i + 1) == d + PayloadSum(ds, i)
  {
    if i > 0 {
      TermSumShift(d, ds, i - 1);
      assert ([d] + ds)[i] == ds[i - 1];
    }
  }

  lemma {:induction false} ReversedDigitsAppend(p: string, c: char)
    requires AllDigits(p) && IsDigit(c)
    ensures AllDigits(p + [c])
    ensures ReversedDigits(p + [c]) == [DigitValue(c)] + ReversedDigits(p)
  {
    var s := p + [c];
    assert forall k :: 0 <= k < |s| ==> s[k] == if k < |p| then p[k] else c;
    var ds := ReversedDigits(s);
    var es := [DigitValue(c)] + ReversedDigits(p);
    assert |ds| == |es|;
    forall k | 0 <= k < |ds|
      ensures ds[k] == es[k]
    {
      if k > 0 {
        assert s[|s| - 1 - k] == p[|p| - 1 - (k - 1)];
      }
    }
  }

  /** A digit string is Luhn-valid exactly when its last digit is the check digit of the rest. */
  lemma {:induction false} LuhnCheckDigit(p: string, c: char)
    requires AllDigits(p) && IsDigit(c)
    ensures IsLuhnValid(p + [c]) <==> DigitValue(c) == CheckDigit(p)
  {
    ReversedDigitsAppend(p, c);
    TermSumShift(DigitValue(c), ReversedDigits(p), |p|);
    CompletesToTen(PayloadSum(ReversedDigits(p), |p|), DigitValue(c));
  }

  lemma CompletesToTen(sum: nat, d: nat)
    requires d <= 9
    ensures (sum + d) % 10 == 0 <==> d == (10 - sum % 10) % 10
  {
  }

  // ---------------------------------------------------------------------
  // Error detection: changing one digit always breaks a valid number.
  // ---------------------------------------------------------------------

  /** At a fixed position, different digits contribute different terms. */
  lemma LuhnTermInjective(d: nat, e: nat, i: nat)
    requires d <= 9 && e <= 9 && d != e
    ensures LuhnTerm(d, i) != LuhnTerm(e, i)
  {
  }

  /** Two digit sequences that agree except at index j differ in total only by the term at j. */
  lemma {:induction false} TermSumDiff(ds: seq<nat>, es: seq<nat>, j: nat, i: nat)
    requires IsDigitValues(ds) && IsDigitValues(es) && |ds| == |es| && j < |ds| && i <= |ds|
    requires forall k :: 0 <= k < |ds| && k != j ==> ds[k] == es[k]
    ensures TermSum(ds, i) - TermSum(es, i) ==
      if j < i then LuhnTerm(ds[j], j) - LuhnTerm(es[j], j) else 0
  {
    if i > 0 {
      TermSumDiff(ds, es, j, i - 1);
    }
  }

  /** Luhn detects every single-digit error. */
  lemma {:induction false} LuhnDetectsSingleDigitError(s: string, u: string, j: nat)
    requires IsLuhnValid(s) && IsDigitString(u) && |s| == |u| && j < |s|
    requires forall k :: 0 <= k < |s| && k != j ==> s[k] == u[k]
    requires s[j] != u[j]
    ensures !IsLuhnValid(u)
  {
    var ds := ReversedDigits(s);
    var es := ReversedDigits(u);
    var pos := |s| - 1 - j;
    forall k | 0 <= k < |ds| && k != pos
      ensures ds[k] == es[k]
    {
      assert s[|s| - 1 - k] == u[|s| - 1 - k];
    }
    TermSumDiff(ds, es, pos, |s|);
    LuhnTermInjective(ds[pos], es[pos], pos);
    NearMultiplesOfTen(TermSum(ds, |s|), TermSum(es, |u|));
  }

  /** Two multiples of ten that are less than ten apart are equal. */
  lemma NearMultiplesOfTen(a: int, b: int)
    requires a % 10 == 0 && a != b && -10 < a - b < 10
    ensures b % 10 != 0
  {
  }
}
