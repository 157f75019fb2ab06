/**
 * Worked inputs for the Luhn check: the numbers the unit tests use, one
 * digit changed in two of them, and strings of other lengths.
 */
module LuhnCases {
  import opened Chars
  import opened Luhn

  /** The Visa test number is accepted: its total is 80. */
  lemma VisaValid(s: string)
    requires s == "4242424242424242"
    ensures IsLuhnValid(s)
  {
    assert AllDigits(s) && ReversedDigits(s) == [2, 4, 2, 4, 2, 4, 2, 4, 2, 4, 2, 4, 2, 4, 2, 4];
    VisaTotal(ReversedDigits(s));
  }

  lemma {:induction false} VisaTotal(ds: seq<nat>)
    requires ds == [2, 4, 2, 4, 2, 4, 2, 4, 2, 4, 2, 4, 2, 4, 2, 4]
    ensures IsDigitValues(ds) && TermSum(ds, 16) == 80
  {
    assert IsDigitValues(ds);
    assert TermSum(ds, 1) == 2;
    assert TermSum(ds, 2) == 10;
    assert TermSum(ds, 3) == 12;
    assert TermSum(ds, 4) == 20;
    assert TermSum(ds, 5) == 22;
    assert TermSum(ds, 6) == 30;
    assert TermSum(ds, 7) == 32;
    assert TermSum(ds, 8) == 40;
    assert TermSum(ds, 9) == 42;
    assert TermSum(ds, 10) == 50;
    assert TermSum(ds, 11) == 52;
    assert TermSum(ds, 12) == 60;
    assert TermSum(ds, 13) == 62;
    assert TermSum(ds, 14) == 70;
    assert TermSum(ds, 15) == 72;
  }

  /** The Visa test number with its last digit changed is rejected: its total is 81. */
  lemma VisaTypoInvalid(s: string)
    requires s == "4242424242424243"
    ensures !IsLuhnValid(s)
  {
    assert AllDigits(s) && ReversedDigits(s) == [3, 4, 2, 4, 2, 4, 2, 4, 2, 4, 2, 4, 2, 4, 2, 4];
    VisaTypoTotal(ReversedDigits(s));
  }

  lemma {:induction false} VisaTypoTotal(ds: seq<nat>)
    requires ds == [3, 4, 2, 4, 2, 4, 2, 4, 2, 4, 2, 4, 2, 4, 2, 4]
    ensures IsDigitValues(ds) && TermSum(ds, 16) == 81
  {
    assert IsDigitValues(ds);
    assert TermSum(ds, 1) == 3;
    assert TermSum(ds, 2) == 11;
    assert TermSum(ds, 3) == 13;
    assert TermSum(ds, 4) == 21;
    assert TermSum(ds, 5) == 23;
    assert TermSum(ds, 6) == 31;
    assert TermSum(ds, 7) == 33;
    assert TermSum(ds, 8) == 41;
    assert TermSum(ds, 9) == 43;
    assert TermSum(ds, 10) == 51;
    assert TermSum(ds, 11) == 53;
    assert TermSum(ds, 12) == 61;
    assert TermSum(ds, 13) == 63;
    assert TermSum(ds, 14) == 71;
    assert TermSum(ds, 15) == 73;
  }

  /** The Mastercard test number is accepted: its total is 60. */
  lemma MastercardValid(s: string)
    requires s == "5555555555554444"
    ensures IsLuhnValid(s)
  {
    assert AllDigits(s) && ReversedDigits(s) == [4, 4, 4, 4, 5, 5, 5, 5, 5, 5, 5, 5, 5, 5, 5, 5];
    MastercardTotal(ReversedDigits(s));
  }

  lemma {:induction false} MastercardTotal(ds: seq<nat>)
    requires ds == [4, 4, 4, 4, 5, 5, 5, 5, 5, 5, 5, 5, 5, 5, 5, 5]
    ensures IsDigitValues(ds) && TermSum(ds, 16) == 60
  {
    assert IsDigitValues(ds);
    assert TermSum(ds, 1) == 4;
    assert TermSum(ds, 2) == 12;
    assert TermSum(ds, 3) == 16;
    assert TermSum(ds, 4) == 24;
    assert TermSum(ds, 5) == 29;
    assert TermSum(ds, 6) == 30;
    assert TermSum(ds, 7) == 35;
    assert TermSum(ds, 8) == 36;
    assert TermSum(ds, 9) == 41;
    assert TermSum(ds, 10) == 42;
    assert TermSum(ds, 11) == 47;
    assert TermSum(ds, 12) == 48;
    assert TermSum(ds, 13) == 53;
    assert TermSum(ds, 14) == 54;
    assert TermSum(ds, 15) == 59;
  }

  /** The Mastercard test number with its last digit changed is rejected: its total is 59. */
  lemma MastercardTypoInvalid(s: string)
    requires s == "5555555555554443"
    ensures !IsLuhnValid(s)
  {
    assert AllDigits(s) && ReversedDigits(s) == [3, 4, 4, 4, 5, 5, 5, 5, 5, 5, 5, 5, 5, 5, 5, 5];
    MastercardTypoTotal(ReversedDigits(s));
  }

  lemma {:induction false} MastercardTypoTotal(ds: seq<nat>)
    requires ds == [3, 4, 4, 4, 5, 5, 5, 5, 5, 5, 5, 5, 5, 5, 5, 5]
    ensures IsDigitValues(ds) && TermSum(ds, 16) == 59
  {
    assert IsDigitValues(ds);
    assert TermSum(ds, 1) == 3;
    assert TermSum(ds, 2) == 11;
    assert TermSum(ds, 3) == 15;
    assert TermSum(ds, 4) == 23;
    assert TermSum(ds, 5) == 28;
    assert TermSum(ds, 6) == 29;
    assert TermSum(ds, 7) == 34;
    assert TermSum(ds, 8) == 35;
    assert TermSum(ds, 9) == 40;
    assert TermSum(ds, 10) == 41;
    assert TermSum(ds, 11) == 46;
    assert TermSum(ds, 12) == 47;
    assert TermSum(ds, 13) == 52;
    assert TermSum(ds, 14) == 53;
    assert TermSum(ds, 15) == 58;
  }

  /** The Mir test number is accepted: its total is 60. */
  lemma MirValid(s: string)
    requires s == "2200601177358396"
    ensures IsLuhnValid(s)
  {
    assert AllDigits(s) && ReversedDigits(s) == [6, 9, 3, 8, 5, 3, 7, 7, 1, 1, 0, 6, 0, 0, 2, 2];
    MirTotal(ReversedDigits(s));
  }

  lemma {:induction false} MirTotal(ds: seq<nat>)
    requires ds == [6, 9, 3, 8, 5, 3, 7, 7, 1, 1, 0, 6, 0, 0, 2, 2]
    ensures IsDigitValues(ds) && TermSum(ds, 16) == 60
  {
    assert IsDigitValues(ds);
    assert TermSum(ds, 1) == 6;
    assert TermSum(ds, 2) == 15;
    assert TermSum(ds, 3) == 18;
    assert TermSum(ds, 4) == 25;
    assert TermSum(ds, 5) == 30;
    assert TermSum(ds, 6) == 36;
    assert TermSum(ds, 7) == 43;
    assert TermSum(ds, 8) == 48;
    assert TermSum(ds, 9) == 49;
    assert TermSum(ds, 10) == 51;
    assert TermSum(ds, 11) == 51;
    assert TermSum(ds, 12) == 54;
    assert TermSum(ds, 13) == 54;
    assert TermSum(ds, 14) == 54;
    assert TermSum(ds, 15) == 56;
  }

  /** A two-digit string is accepted, since no length is checked: its total is 10. */
  lemma TwoDigitsValid(s: string)
    requires s == "18"
    ensures IsLuhnValid(s)
  {
    assert AllDigits(s) && ReversedDigits(s) == [8, 1];
    TwoDigitsTotal(ReversedDigits(s));
  }

  lemma {:induction false} TwoDigitsTotal(ds: seq<nat>)
    requires ds == [8, 1]
    ensures IsDigitValues(ds) && TermSum(ds, 2) == 10
  {
    assert IsDigitValues(ds);
    assert TermSum(ds, 1) == 8;
  }

  /** A five-digit string is rejected: its total is 21. */
  lemma FiveDigitsInvalid(s: string)
    requires s == "12345"
    ensures !IsLuhnValid(s)
  {
    assert AllDigits(s) && ReversedDigits(s) == [5, 4, 3, 2, 1];
    FiveDigitsTotal(ReversedDigits(s));
  }

  lemma {:induction false} FiveDigitsTotal(ds: seq<nat>)
    requires ds == [5, 4, 3, 2, 1]
    ensures IsDigitValues(ds) && TermSum(ds, 5) == 21
  {
    assert IsDigitValues(ds);
    assert TermSum(ds, 1) == 5;
    assert TermSum(ds, 2) == 13;
    assert TermSum(ds, 3) == 16;
    assert TermSum(ds, 4) == 20;
  }

  /** The empty string and a string of letters are rejected. */
  lemma NonDigitsInvalid(s: string)
    requires s == "" || s == "not a number"
    ensures !IsLuhnValid(s)
  {
    assert !IsDigitString(s) by {
      if s != "" {
        assert !IsDigit(s[0]);
      }
    }
  }
}
