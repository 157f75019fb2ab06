/**
 * The integration scenarios for `find_and_validate_card_numbers`: what the
 * loop makes of each number of the sample text, the list it returns for the
 * whole text, and the empty list for a text without digits.
 */
module PipelineCases {
  import opened Chars
  import opened Wrappers
  import opened Scanner
  import opened Normalizer
  import opened Prefix
  import opened Luhn
  import opened LuhnCases
  import opened Pipeline
  import opened ScannerCases

  /** A sixteen-digit match is kept as itself when both checks pass. */
  lemma {:induction false} PlainCheck(n: string)
    requires |n| == CardDigits && AllDigits(n)
    ensures Check(n) == if IsValidPrefix(n) && IsLuhnValid(n) then Some(n) else None
  {
    DigitsOnlyFixed(n);
  }

  /** Writing a number in four groups does not change what the loop makes of it. */
  lemma {:induction false} GroupedCheck(n: string, c: char)
    requires |n| == CardDigits && AllDigits(n) && !IsDigit(c)
    ensures Check(FourGroups(n, c)) == Check(n)
  {
    FourGroupsClean(n, c);
    DigitsOnlyFixed(n);
  }

  /** The Visa test number passes the prefix rule and the Luhn check. */
  lemma {:induction false} VisaAccepted(n: string)
    requires n == VisaNumber
    ensures |n| == CardDigits && AllDigits(n) && IsValidPrefix(n) && IsLuhnValid(n)
  {
    NumberDigits(n);
    PrefixByDigits(n);
    VisaValid(n);
  }

  /** The Mir test number passes the prefix rule and the Luhn check. */
  lemma {:induction false} MirAccepted(n: string)
    requires n == MirNumber
    ensures |n| == CardDigits && AllDigits(n) && IsValidPrefix(n) && IsLuhnValid(n)
  {
    NumberDigits(n);
    assert DigitValue(n[0]) == 2 && DigitValue(n[1]) == 2 && DigitValue(n[2]) == 0 && DigitValue(n[3]) == 0;
    PrefixByDigits(n);
    MirValid(n);
  }

  /** The number with a wrong check digit has a Mastercard prefix but fails the Luhn check. */
  lemma {:induction false} BadSumRejected(n: string)
    requires n == BadSumNumber
    ensures |n| == CardDigits && AllDigits(n) && !IsLuhnValid(n)
  {
    NumberDigits(n);
    MastercardTypoInvalid(n);
  }

  /** The number starting 6011 is outside every issuer range. */
  lemma {:induction false} BadPrefixRejected(n: string)
    requires n == BadPrefixNumber
    ensures |n| == CardDigits && AllDigits(n) && !IsValidPrefix(n)
  {
    NumberDigits(n);
    assert DigitValue(n[0]) == 6;
    PrefixByDigits(n);
  }

  /** The Visa number in hyphenated groups is kept, cleaned. */
  lemma VisaChecked()
    ensures Check(VisaGrouped) == Some(VisaNumber)
  {
    VisaAccepted(VisaNumber);
    GroupedCheck(VisaNumber, '-');
    PlainCheck(VisaNumber);
  }

  /** The Mir number without separators is kept as it is. */
  lemma MirChecked()
    ensures Check(MirNumber) == Some(MirNumber)
  {
    MirAccepted(MirNumber);
    PlainCheck(MirNumber);
  }

  /** The space-separated number with a wrong check digit is dropped. */
  lemma BadSumChecked()
    ensures Check(BadSumGrouped) == None
  {
    BadSumRejected(BadSumNumber);
    GroupedCheck(BadSumNumber, ' ');
    PlainCheck(BadSumNumber);
  }

  /** The hyphenated number starting 6011 is dropped. */
  lemma BadPrefixChecked()
    ensures Check(BadPrefixGrouped) == None
  {
    BadPrefixRejected(BadPrefixNumber);
    GroupedCheck(BadPrefixNumber, '-');
    PlainCheck(BadPrefixNumber);
  }

  lemma {:induction false} OutcomesFive(a: string, b: string, c: string, d: string, e: string)
    ensures Outcomes([a, b, c, d, e]) == [Check(a), Check(b), Check(c), Check(d), Check(e)]
  {
  }

  /** Reading one more outcome, from the outside. */
  lemma {:induction false} KeepSnoc(os: seq<Option<string>>, o: Option<string>)
    ensures Keep(os + [o]) == if o.Some? && o.value !in Keep(os) then Keep(os) + [o.value] else Keep(os)
  {
    assert (os + [o])[..|os|] == os;
  }

  /**
   * Two numbers kept, two rejected, then the first one again: the result is
   * the two kept numbers, once each, in order.
   */
  lemma {:induction false} KeepSample(v: string, m: string)
    requires v != m
    ensures Keep([Some(v), Some(m), None, None, Some(v)]) == [v, m]
  {
    KeepSnoc([], Some(v));
    assert [] + [Some(v)] == [Some(v)];
    KeepSnoc([Some(v)], Some(m));
    assert [Some(v)] + [Some(m)] == [Some(v), Some(m)];
    KeepSnoc([Some(v), Some(m)], None);
    assert [Some(v), Some(m)] + [None] == [Some(v), Some(m), None];
    KeepSnoc([Some(v), Some(m), None], None);
    assert [Some(v), Some(m), None] + [None] == [Some(v), Some(m), None, None];
    KeepSnoc([Some(v), Some(m), None, None], Some(v));
    assert [Some(v), Some(m), None, None] + [Some(v)] == [Some(v), Some(m), None, None, Some(v)];
  }

  lemma {:induction false} VisaIsNotMir(v: string, m: string)
    requires v == VisaNumber && m == MirNumber
    ensures v != m
  {
    assert v[0] != m[0];
  }

  /** What the loop makes of each of the five matches of the sample. */
  lemma SampleOutcomes()
    ensures Outcomes(Matches(Sample)) == [Some(VisaNumber), Some(MirNumber), None, None, Some(VisaNumber)]
  {
    SampleMatches();
    VisaChecked();
    MirChecked();
    BadSumChecked();
    BadPrefixChecked();
    OutcomesFive(VisaGrouped, MirNumber, BadSumGrouped, BadPrefixGrouped, VisaGrouped);
  }

  /**
   * The integration scenario: the valid Visa number (grouped, and repeated)
   * and the valid Mir number are returned once each, in text order; the
   * numbers with a wrong checksum, an unknown prefix or seventeen digits
   * are not.
   */
  lemma SampleResult()
    ensures Keep(Outcomes(Matches(Sample))) == [VisaNumber, MirNumber]
  {
    SampleOutcomes();
    VisaIsNotMir(VisaNumber, MirNumber);
    KeepSample(VisaNumber, MirNumber);
  }

  /** The hyphenated Visa number on its own yields its sixteen digits. */
  lemma VisaAlone()
    ensures Keep(Outcomes(Matches(VisaGrouped))) == [VisaNumber]
  {
    GroupedMatches();
    VisaChecked();
    assert Outcomes([VisaGrouped]) == [Some(VisaNumber)];
    KeepSnoc([], Some(VisaNumber));
    assert [] + [Some(VisaNumber)] == [Some(VisaNumber)];
  }

  /** The number with a wrong checksum on its own yields nothing. */
  lemma BadSumAlone()
    ensures Keep(Outcomes(Matches(BadSumGrouped))) == []
  {
    GroupedMatches();
    BadSumChecked();
    assert Outcomes([BadSumGrouped]) == [None];
    var none: Option<string> := None;
    KeepSnoc([], none);
    assert [] + [none] == [none];
  }

  /** The number starting 6011 on its own yields nothing. */
  lemma BadPrefixAlone()
    ensures Keep(Outcomes(Matches(BadPrefixGrouped))) == []
  {
    GroupedMatches();
    BadPrefixChecked();
    assert Outcomes([BadPrefixGrouped]) == [None];
    var none: Option<string> := None;
    KeepSnoc([], none);
    assert [] + [none] == [none];
  }

  /** The seventeen-digit number on its own yields nothing: it is not even matched. */
  lemma SeventeenAlone()
    ensures Keep(Outcomes(Matches(Seventeen))) == []
  {
    SeventeenNoMatch();
    assert Outcomes([]) == [];
  }

  /** A text without a single digit yields no card number. */
  lemma {:induction false} NoDigitsNoCards(t: string)
    requires forall k :: 0 <= k < |t| ==> !IsDigit(t[k])
    ensures Keep(Outcomes(Matches(t))) == []
  {
    NoDigitsNoMatches(t);
    assert Outcomes([]) == [];
  }

  /** The sentence of the no-cards scenario, in pieces of ten characters. */
  const NoCardsParts: seq<string> :=
    ["В этом тек", "сте нет ни", "каких номе", "ров, котор", "ые могли б", "ы подойти."]
  const NoCardsText: string := Join(NoCardsParts)

  lemma {:induction false} NoCardsPartNoDigits(part: string)
    requires part in NoCardsParts
    ensures forall k :: 0 <= k < |part| ==> !IsDigit(part[k])
  {
  }

  /** The no-cards scenario: a sentence without digits yields the empty list. */
  lemma NoCardsResult()
    ensures Keep(Outcomes(Matches(NoCardsText))) == []
  {
    forall i | 0 <= i < |NoCardsParts|
      ensures forall k :: 0 <= k < |NoCardsParts[i]| ==> !IsDigit(NoCardsParts[i][k])
    {
      NoCardsPartNoDigits(NoCardsParts[i]);
    }
    JoinNoDigits(NoCardsParts);
    NoDigitsNoCards(NoCardsText);
  }
}
