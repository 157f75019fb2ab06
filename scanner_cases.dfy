/**
 * Worked inputs for the scanner: the card numbers of the integration test,
 * written plain and in hyphen- or space-separated groups, a 17-digit run,
 * and a text holding all of them one per line.
 */
module ScannerCases {
  import opened Chars
  import opened Wrappers
  import opened Scanner

  const VisaNumber: string := "4242424242424242"
  const MirNumber: string := "2200601177358396"
  const BadSumNumber: string := "5555555555554443"
  const BadPrefixNumber: string := "6011000000000000"

  /** The four test numbers are sixteen ASCII digits each. */
  lemma {:induction false} NumberDigits(n: string)
    requires n == VisaNumber || n == MirNumber || n == BadSumNumber || n == BadPrefixNumber
    ensures |n| == CardDigits && AllDigits(n)
  {
  }

  /** Sixteen digits written without separators are one match. */
  lemma {:induction false} PlainNumberMatches(n: string)
    requires n == VisaNumber || n == MirNumber || n == BadSumNumber || n == BadPrefixNumber
    ensures Matches(n) == [n]
  {
    NumberDigits(n);
    DigitRunMatches(n);
  }

  const Seventeen: string := "4242-4242-4242-42421"

  /**
   * Seventeen digits in hyphenated groups yield no match: from the first
   * group the sixteenth digit is followed by a digit, and from any later
   * group fewer than sixteen digits remain.
   */
  lemma SeventeenNoMatch()
    ensures Matches(Seventeen) == []
  {
    SeventeenText(Seventeen);
  }

  lemma {:induction false} SeventeenText(t: string)
    requires t == Seventeen
    ensures Matches(t) == []
  {
    SeventeenChars(t);
    SeventeenStarts(t);
    NoMatchAtNoMatches(t);
  }

  lemma {:induction false} SeventeenChars(t: string)
    requires t == Seventeen
    ensures |t| == 20 && t[4] == '-' && t[9] == '-' && t[14] == '-'
    ensures forall k :: 0 <= k < 4 || 5 <= k < 9 || 10 <= k < 14 || 15 <= k < 20 ==> IsDigit(t[k])
  {
  }

  lemma {:induction false} SeventeenStarts(t: string)
    requires |t| == 20 && t[4] == '-' && t[9] == '-' && t[14] == '-'
    requires forall k :: 0 <= k < 4 || 5 <= k < 9 || 10 <= k < 14 || 15 <= k < 20 ==> IsDigit(t[k])
    ensures forall p :: 0 <= p < |t| ==> MatchAt(t, p).None?
  {
    forall p | 0 <= p < |t|
      ensures MatchAt(t, p).None?
    {
      if p == 0 || p == 5 || p == 10 || p == 15 {
        SeventeenGroupStart(t, p);
      } else if p == 4 || p == 9 || p == 14 {
      } else {
        assert IsDigit(t[p - 1]);
      }
    }
  }

  lemma {:induction false} SeventeenGroupStart(t: string, p: nat)
    requires |t| == 20 && t[4] == '-' && t[9] == '-' && t[14] == '-'
    requires forall k :: 0 <= k < 4 || 5 <= k < 9 || 10 <= k < 14 || 15 <= k < 20 ==> IsDigit(t[k])
    requires p == 0 || p == 5 || p == 10 || p == 15
    ensures ReadSlots(t, p, CardDigits) == if p == 0 then Some(19) else None
  {
    if p == 0 {
      ReadGroupEnd(t, 15, 5, 4);
    } else {
      ReadGroupShort(t, 15, 5, p + 1);
    }
    if p <= 10 {
      ReadGroupThenSeparator(t, 10, 4, p + 8);
    }
    if p <= 5 {
      ReadGroupThenSeparator(t, 5, 4, p + 12);
    }
    if p == 0 {
      ReadGroupThenSeparator(t, 0, 4, 16);
    }
  }

  /**
   * A fifth group after the sixteenth digit does not stop the match: the
   * lookahead sees only the hyphen, so the first sixteen digits are found.
   */
  lemma FifthGroupLeftOver()
    ensures Matches("1234-5678-9012-3456-7890") == ["1234-5678-9012-3456"]
  {
    FifthGroupText("1234-5678-9012-3456-7890");
  }

  lemma {:induction false} FifthGroupText(t: string)
    requires t == "1234-5678-9012-3456-7890"
    ensures Matches(t) == ["1234-5678-9012-3456"]
  {
    FifthGroupChars(t);
    FiveGroupsMatches(t);
    assert t[..19] == "1234-5678-9012-3456";
  }

  lemma {:induction false} FifthGroupChars(t: string)
    requires t == "1234-5678-9012-3456-7890"
    ensures FiveGroupsShape(t)
  {
  }

  /** One line of the sample: a caption, a colon, a space, a number, a full stop, then the rest. */
  function Line(caption: string, number: string, rest: string): string {
    caption + ":" + (" " + number + "." + rest)
  }

  const VisaGrouped: string := FourGroups(VisaNumber, '-')
  const BadSumGrouped: string := FourGroups(BadSumNumber, ' ')
  const BadPrefixGrouped: string := FourGroups(BadPrefixNumber, '-')

  /** Each caption followed by its number, one line each, then the text last. */
  function Lines(captions: seq<string>, numbers: seq<string>, last: string): string
    requires |captions| == |numbers|
    decreases |numbers|
  {
    if numbers == [] then last
    else Line(captions[0], numbers[0], Lines(captions[1..], numbers[1..], last))
  }

  /** The parts, one after the other. */
  function Join(parts: seq<string>): string
    decreases |parts|
  {
    if parts == [] then "" else parts[0] + Join(parts[1..])
  }

  /** Text made of digit-free parts holds no digit. */
  lemma {:induction false} JoinNoDigits(parts: seq<string>)
    requires forall i, k :: 0 <= i < |parts| && 0 <= k < |parts[i]| ==> !IsDigit(parts[i][k])
    ensures forall k :: 0 <= k < |Join(parts)| ==> !IsDigit(Join(parts)[k])
    decreases |parts|
  {
    if parts != [] {
      JoinNoDigits(parts[1..]);
      var t := Join(parts);
      forall k | 0 <= k < |t|
        ensures !IsDigit(t[k])
      {
        if k >= |parts[0]| {
          assert t[k] == Join(parts[1..])[k - |parts[0]|];
        }
      }
    }
  }

  /** The lists of mss, one after the other. */
  function Concat(mss: seq<seq<string>>): seq<string>
    decreases |mss|
  {
    if mss == [] then [] else mss[0] + Concat(mss[1..])
  }

  /** Each number has the matches listed at the same place in mss. */
  predicate EachMatches(numbers: seq<string>, mss: seq<seq<string>>)
    decreases |numbers|
  {
    |numbers| == |mss| && (numbers == [] || (Matches(numbers[0]) == mss[0] && EachMatches(numbers[1..], mss[1..])))
  }

  /**
   * The integration text: an opening sentence, then a valid Visa number in
   * hyphenated groups, a valid Mir number without separators, a number with
   * a wrong checksum in space-separated groups, a number with an unknown
   * prefix, a 17-digit number, and the Visa number again, one per line, each
   * after an indented caption and a colon and followed by a full stop. The
   * captions are written in pieces of at most ten characters.
   */
  const SampleCaptionParts: seq<seq<string>> := [
    ["\n        Э", "то комплек", "сный текст", " для прове", "рки.\n     ", "   Валидна", "я Visa с д", "ефисами"],
    ["\n        В", "алидная ка", "рта Мир бе", "з разделит", "елей"],
    ["\n        Н", "евалидный ", "номер (оши", "бка в сумм", "е)"],
    ["\n        Н", "омер с нев", "ерным преф", "иксом"],
    ["\n        С", "лишком дли", "нный номер"],
    ["\n        Т", "екст с дуб", "ликатом"]
  ]
  const SampleCaptions: seq<string> :=
    seq(|SampleCaptionParts|, i requires 0 <= i < |SampleCaptionParts| => Join(SampleCaptionParts[i]))
  const SampleNumbers: seq<string> := [VisaGrouped, MirNumber, BadSumGrouped, BadPrefixGrouped, Seventeen, VisaGrouped]
  const SampleEnd: string := "\n        "
  const Sample: string := Lines(SampleCaptions, SampleNumbers, SampleEnd)

  /** A line contributes the matches of its number, then those of the rest. */
  lemma {:induction false} LineMatches(caption: string, number: string, rest: string)
    requires forall k :: 0 <= k < |caption| ==> !IsDigit(caption[k])
    ensures Matches(Line(caption, number, rest)) == Matches(number) + Matches(rest)
  {
    NoDigitsNoMatches(caption);
    assert Line(caption, number, rest) == caption + [':'] + ([' '] + number + ['.'] + rest);
    MatchesSplit(caption, ':', [' '] + number + ['.'] + rest);
    MatchesSplit([' '] + number, '.', rest);
    MatchesAfterNonDigit(' ', number);
  }

  /**
   * When no caption holds a digit, the matches of the text are those of its
   * numbers, one number after the other.
   */
  lemma {:induction false} LinesMatches(captions: seq<string>, numbers: seq<string>, last: string, mss: seq<seq<string>>)
    requires |captions| == |numbers| == |mss|
    requires forall i, k :: 0 <= i < |captions| && 0 <= k < |captions[i]| ==> !IsDigit(captions[i][k])
    requires forall k :: 0 <= k < |last| ==> !IsDigit(last[k])
    requires EachMatches(numbers, mss)
    ensures Matches(Lines(captions, numbers, last)) == Concat(mss)
    decreases |numbers|
  {
    if numbers == [] {
      NoDigitsNoMatches(last);
    } else {
      LinesMatches(captions[1..], numbers[1..], last, mss[1..]);
      LineMatches(captions[0], numbers[0], Lines(captions[1..], numbers[1..], last));
    }
  }

  lemma {:induction false} CaptionPartsNoDigits(parts: seq<string>)
    requires parts in SampleCaptionParts
    ensures forall j, k :: 0 <= j < |parts| && 0 <= k < |parts[j]| ==> !IsDigit(parts[j][k])
  {
  }

  lemma {:induction false} SampleEndNoDigits(last: string)
    requires last == SampleEnd
    ensures forall k :: 0 <= k < |last| ==> !IsDigit(last[k])
  {
  }

  /** The grouped test numbers are matched whole. */
  lemma GroupedMatches()
    ensures Matches(VisaGrouped) == [VisaGrouped]
    ensures Matches(BadSumGrouped) == [BadSumGrouped]
    ensures Matches(BadPrefixGrouped) == [BadPrefixGrouped]
  {
    NumberDigits(VisaNumber);
    NumberDigits(BadSumNumber);
    NumberDigits(BadPrefixNumber);
    FourGroupsMatch(VisaNumber, '-');
    FourGroupsMatch(BadSumNumber, ' ');
    FourGroupsMatch(BadPrefixNumber, '-');
  }

  /**
   * `findall` on the sample returns the five 16-digit numbers in text
   * order, the repeated one twice, and nothing for the 17-digit one.
   */
  lemma SampleMatches()
    ensures Matches(Sample) == [VisaGrouped, MirNumber, BadSumGrouped, BadPrefixGrouped, VisaGrouped]
  {
    var mss := [[VisaGrouped], [MirNumber], [BadSumGrouped], [BadPrefixGrouped], [], [VisaGrouped]];
    SampleCaptionsNoDigits(SampleCaptions);
    SampleEndNoDigits(SampleEnd);
    SampleNumbersMatch(SampleNumbers, mss);
    LinesMatches(SampleCaptions, SampleNumbers, SampleEnd, mss);
    ConcatSample(VisaGrouped, MirNumber, BadSumGrouped, BadPrefixGrouped);
  }

  lemma {:induction false} SampleCaptionsNoDigits(cs: seq<string>)
    requires cs == SampleCaptions
    ensures forall i, k :: 0 <= i < |cs| && 0 <= k < |cs[i]| ==> !IsDigit(cs[i][k])
  {
    forall i | 0 <= i < |cs|
      ensures forall k :: 0 <= k < |cs[i]| ==> !IsDigit(cs[i][k])
    {
      CaptionPartsNoDigits(SampleCaptionParts[i]);
      JoinNoDigits(SampleCaptionParts[i]);
    }
  }

  lemma {:induction false} SampleNumbersMatch(ns: seq<string>, mss: seq<seq<string>>)
    requires ns == SampleNumbers
    requires mss == [[VisaGrouped], [MirNumber], [BadSumGrouped], [BadPrefixGrouped], [], [VisaGrouped]]
    ensures EachMatches(ns, mss)
  {
    GroupedMatches();
    PlainNumberMatches(MirNumber);
    SeventeenNoMatch();
    SixMatch(VisaGrouped, MirNumber, BadSumGrouped, BadPrefixGrouped, Seventeen);
  }

  lemma {:induction false} SixMatch(v: string, m: string, bs: string, bp: string, sev: string)
    requires Matches(v) == [v] && Matches(m) == [m] && Matches(bs) == [bs] && Matches(bp) == [bp]
    requires Matches(sev) == []
    ensures EachMatches([v, m, bs, bp, sev, v], [[v], [m], [bs], [bp], [], [v]])
  {
    EachCons(v, [], [v], []);
    EachCons(sev, [v], [], [[v]]);
    EachCons(bp, [sev, v], [bp], [[], [v]]);
    EachCons(bs, [bp, sev, v], [bs], [[bp], [], [v]]);
    EachCons(m, [bs, bp, sev, v], [m], [[bs], [bp], [], [v]]);
    EachCons(v, [m, bs, bp, sev, v], [v], [[m], [bs], [bp], [], [v]]);
  }

  lemma {:induction false} EachCons(n: string, ns: seq<string>, ms: seq<string>, mss: seq<seq<string>>)
    requires Matches(n) == ms && EachMatches(ns, mss)
    ensures EachMatches([n] + ns, [ms] + mss)
  {
    assert ([n] + ns)[1..] == ns && ([ms] + mss)[1..] == mss;
  }

  lemma {:induction false} ConcatSample(v: string, m: string, bs: string, bp: string)
    ensures Concat([[v], [m], [bs], [bp], [], [v]]) == [v, m, bs, bp, v]
  {
    ConcatCons([v], []);
    ConcatCons([], [[v]]);
    ConcatCons([bp], [[], [v]]);
    ConcatCons([bs], [[bp], [], [v]]);
    ConcatCons([m], [[bs], [bp], [], [v]]);
    ConcatCons([v], [[m], [bs], [bp], [], [v]]);
  }

  lemma {:induction false} ConcatCons(ms: seq<string>, mss: seq<seq<string>>)
    ensures Concat([ms] + mss) == ms + Concat(mss)
  {
    assert ([ms] + mss)[1..] == mss;
  }
}
