/**
 * The digit-sequence scanner: the matching rule of the card pattern
 * `(?<!\d)(?:\d[\s-]?){15}\d(?!\d)` and the left-to-right, non-overlapping
 * search that `findall` performs with it.
 *
 * The rule is stated twice: declaratively (IsMatch: which substrings are
 * matches) and operationally (MatchAt: what the pattern does when tried at one
 * position). The two are proved equivalent, and Scan, the search, is proved
 * to return exactly the leftmost non-overlapping matches.
 */
module Scanner {
  import opened Chars
  import opened Wrappers

  /** A card number has exactly this many digits. */
  const CardDigits: nat := 16

  /** The half-open range t[start..end] of one match. */
  datatype Span = Span(start: nat, end: nat)

  /** Number of digits in t[i..j]. */
  function DigitCount(t: string, i: nat, j: nat): (n: nat)
    requires i <= j <= |t|
    ensures n <= j - i
    decreases j - i
  {
    if i == j then 0 else (if IsDigit(t[i]) then 1 else 0) + DigitCount(t, i + 1, j)
  }

  /**
   * t[i..j] is a run of digits with at most one separator between two
   * consecutive digits and none before the first digit or after the last.
   */
  ghost predicate IsSlotRun(t: string, i: nat, j: nat)
    requires i <= j <= |t|
  {
    && i < j
    && IsDigit(t[i])
    && IsDigit(t[j - 1])
    && (forall k :: i <= k < j ==> IsDigit(t[k]) || IsSeparator(t[k]))
    && (forall k, m :: i <= k < m < j && m == k + 1 ==> IsDigit(t[k]) || IsDigit(t[m]))
  }

  /** No digit immediately before position i: the lookbehind `(?<!\d)`. */
  predicate NoDigitBefore(t: string, i: nat) {
    i == 0 || i > |t| || !IsDigit(t[i - 1])
  }

  /** No digit at position j: the lookahead `(?!\d)`. */
  predicate NoDigitAt(t: string, j: nat) {
    j >= |t| || !IsDigit(t[j])
  }

  /** A character that can be neither part of a match nor next to a digit of one. */
  predicate IsBreak(c: char) {
    !IsDigit(c) && !IsSeparator(c)
  }

  /** The declarative matching rule: t[i..j] is a match of the card pattern. */
  ghost predicate IsMatch(t: string, i: nat, j: nat) {
    && i <= j <= |t|
    && NoDigitBefore(t, i)
    && NoDigitAt(t, j)
    && IsSlotRun(t, i, j)
    && DigitCount(t, i, j) == CardDigits
  }

  /**
   * Reads n digit slots starting at position i, the body `(?:\d[\s-]?){n-1}\d`
   * of the pattern: after every digit but the last, one separator is taken
   * when present. Returns the end of the last digit read.
   */
  function ReadSlots(t: string, i: nat, n: nat): (r: Option<nat>)
    requires n >= 1
    ensures r.Some? ==> i < r.value <= |t|
    decreases n
  {
    if i >= |t| || !IsDigit(t[i]) then None
    else if n == 1 then Some(i + 1)
    else
      var k := if i + 1 < |t| && IsSeparator(t[i + 1]) then i + 2 else i + 1;
      ReadSlots(t, k, n - 1)
  }

  /** The card pattern tried at position i: the end of the match, if any. */
  function MatchAt(t: string, i: nat): (r: Option<nat>)
    ensures r.Some? ==> i < r.value <= |t|
  {
    if !NoDigitBefore(t, i) then None
    else match ReadSlots(t, i, CardDigits)
      case None => None
      case Some(j) => if NoDigitAt(t, j) then Some(j) else None
  }

  lemma {:induction false} ReadSlotsSound(t: string, i: nat, n: nat)
    requires n >= 1 && ReadSlots(t, i, n).Some?
    ensures IsSlotRun(t, i, ReadSlots(t, i, n).value)
    ensures DigitCount(t, i, ReadSlots(t, i, n).value) == n
    decreases n
  {
    var j := ReadSlots(t, i, n).value;
    if n > 1 {
      var k := if i + 1 < |t| && IsSeparator(t[i + 1]) then i + 2 else i + 1;
      ReadSlotsSound(t, k, n - 1);
      if k == i + 2 {
        assert DigitCount(t, i + 1, j) == DigitCount(t, k, j);
      }
    }
  }

  /** A slot run with at least one digit after its first holds at least two digits. */
  lemma {:induction false} DigitCountAtLeastOne(t: string, i: nat, j: nat)
    requires i < j <= |t| && IsDigit(t[j - 1])
    ensures DigitCount(t, i, j) >= 1
    decreases j - i
  {
    if i + 1 < j {
      DigitCountAtLeastOne(t, i + 1, j);
    }
  }

  lemma {:induction false} ReadSlotsComplete(t: string, i: nat, j: nat, n: nat)
    requires n >= 1 && i <= j <= |t|
    requires IsSlotRun(t, i, j) && DigitCount(t, i, j) == n
    ensures ReadSlots(t, i, n) == Some(j)
    decreases n
  {
    if j > i + 1 {
      DigitCountAtLeastOne(t, i + 1, j);
      assert n > 1;
      if IsSeparator(t[i + 1]) {
        assert IsDigit(t[i + 2]);
        ReadSlotsComplete(t, i + 2, j, n - 1);
      } else {
        assert IsDigit(t[i + 1]);
        ReadSlotsComplete(t, i + 1, j, n - 1);
      }
    }
  }

  /** The pattern matches t[i..j] at i exactly when t[i..j] satisfies the matching rule. */
  lemma {:induction false} MatchAtIsMatch(t: string, i: nat, j: nat)
    ensures MatchAt(t, i) == Some(j) <==> IsMatch(t, i, j)
  {
    if MatchAt(t, i) == Some(j) {
      MatchAtSound(t, i, j);
    }
    if IsMatch(t, i, j) {
      MatchAtComplete(t, i, j);
    }
  }

  lemma {:induction false} MatchAtSound(t: string, i: nat, j: nat)
    requires MatchAt(t, i) == Some(j)
    ensures IsMatch(t, i, j)
  {
    ReadSlotsSound(t, i, CardDigits);
  }

  lemma {:induction false} MatchAtComplete(t: string, i: nat, j: nat)
    requires IsMatch(t, i, j)
    ensures MatchAt(t, i) == Some(j)
  {
    ReadSlotsComplete(t, i, j, CardDigits);
  }

  /** A group of g digits followed by a separator is read as g slots. */
  lemma {:induction false} ReadGroupThenSeparator(t: string, i: nat, g: nat, n: nat)
    requires 1 <= g < n && i + g < |t|
    requires forall k :: i <= k < i + g ==> IsDigit(t[k])
    requires IsSeparator(t[i + g])
    ensures ReadSlots(t, i, n) == ReadSlots(t, i + g + 1, n - g)
    decreases g
  {
    if g > 1 {
      ReadGroupThenSeparator(t, i + 1, g - 1, n - 1);
    }
  }

  /** The last n slots read from a group of at least n digits end inside it. */
  lemma {:induction false} ReadGroupEnd(t: string, i: nat, g: nat, n: nat)
    requires 1 <= n <= g && i + g <= |t|
    requires forall k :: i <= k < i + g ==> IsDigit(t[k])
    ensures ReadSlots(t, i, n) == Some(i + n)
    decreases n
  {
    if n > 1 {
      ReadGroupEnd(t, i + 1, g - 1, n - 1);
    }
  }

  /** A group of fewer than n digits that ends the text, or is followed by a break, fails. */
  lemma {:induction false} ReadGroupShort(t: string, i: nat, g: nat, n: nat)
    requires 1 <= g < n && i + g <= |t|
    requires forall k :: i <= k < i + g ==> IsDigit(t[k])
    requires i + g == |t| || IsBreak(t[i + g])
    ensures ReadSlots(t, i, n) == None
    decreases g
  {
    if g > 1 {
      ReadGroupShort(t, i + 1, g - 1, n - 1);
    }
  }

  /** Sixteen slots read between the two digit boundaries form a match. */
  lemma {:induction false} SlotsMatch(t: string, i: nat, j: nat)
    requires NoDigitBefore(t, i) && ReadSlots(t, i, CardDigits) == Some(j) && NoDigitAt(t, j)
    ensures IsMatch(t, i, j)
  {
    MatchAtSound(t, i, j);
  }

  /** A text that is itself one match yields exactly itself. */
  lemma {:induction false} WholeMatch(t: string)
    requires IsMatch(t, 0, |t|)
    ensures Matches(t) == [t]
  {
    var r := [Span(0, |t|)];
    forall p: nat, e: nat | IsMatch(t, p, e)
      ensures Covered(r, p)
    {
    }
    ScanIsLeftmostMatches(t, 0, r);
    assert t[0..|t|] == t;
  }

  /** The sixteen digits of n written in four groups of four, with c between groups. */
  function FourGroups(n: string, c: char): (t: string)
    requires |n| == CardDigits
    ensures |t| == 19
  {
    n[..4] + [c] + n[4..8] + [c] + n[8..12] + [c] + n[12..]
  }

  lemma {:induction false} FourGroupsChars(n: string, c: char)
    requires |n| == CardDigits && AllDigits(n)
    ensures FourGroups(n, c)[4] == c && FourGroups(n, c)[9] == c && FourGroups(n, c)[14] == c
    ensures forall k :: 0 <= k < 4 || 5 <= k < 9 || 10 <= k < 14 || 15 <= k < 19 ==> IsDigit(FourGroups(n, c)[k])
  {
    var t := FourGroups(n, c);
    forall k | 0 <= k < 4 || 5 <= k < 9 || 10 <= k < 14 || 15 <= k < 19
      ensures IsDigit(t[k])
    {
      if k < 4 {
        assert t[k] == n[k];
      } else if k < 9 {
        assert t[k] == n[k - 1];
      } else if k < 14 {
        assert t[k] == n[k - 2];
      } else {
        assert t[k] == n[k - 3];
      }
    }
  }

  /**
   * A sixteen-digit number written in four groups of four, with one
   * separator between groups, is found whole.
   */
  lemma {:induction false} FourGroupsMatch(n: string, c: char)
    requires |n| == CardDigits && AllDigits(n) && IsSeparator(c)
    ensures Matches(FourGroups(n, c)) == [FourGroups(n, c)]
  {
    var t := FourGroups(n, c);
    FourGroupsChars(n, c);
    ReadGroupEnd(t, 15, 4, 4);
    ReadGroupThenSeparator(t, 10, 4, 8);
    ReadGroupThenSeparator(t, 5, 4, 12);
    ReadGroupThenSeparator(t, 0, 4, 16);
    SlotsMatch(t, 0, 19);
    WholeMatch(t);
  }

  /** The pattern tried at every position of t. */
  function MatchTable(t: string): (m: seq<Option<nat>>)
    ensures |m| == |t| && TableOk(m)
    ensures forall p :: 0 <= p < |t| ==> m[p] == MatchAt(t, p)
  {
    seq(|t|, p requires 0 <= p < |t| => MatchAt(t, p))
  }

  /** Every match recorded in a table ends after it starts and inside the text. */
  ghost predicate TableOk(m: seq<Option<nat>>) {
    forall p :: 0 <= p < |m| && m[p].Some? ==> p < m[p].value <= |m|
  }

  /**
   * The search `findall` performs over a table of match attempts, from
   * position i: on a match at i record it and resume at its end, otherwise
   * move one character on.
   */
  function Select(m: seq<Option<nat>>, i: nat): (r: seq<Span>)
    requires TableOk(m)
    ensures forall k :: 0 <= k < |r| ==> i <= r[k].start < r[k].end <= |m|
    decreases |m| - i
  {
    if i >= |m| then []
    else match m[i]
      case Some(j) => [Span(i, j)] + Select(m, j)
      case None => Select(m, i + 1)
  }

  /** `findall` over t from position i. */
  function Scan(t: string, i: nat): (r: seq<Span>)
    ensures forall k :: 0 <= k < |r| ==> i <= r[k].start < r[k].end <= |t|
  {
    Select(MatchTable(t), i)
  }

  /** The matched substrings, in the order `findall` returns them. */
  function Matches(t: string): (ms: seq<string>)
    ensures |ms| == |Scan(t, 0)|
  {
    Substrings(t, Scan(t, 0))
  }

  function Substrings(t: string, spans: seq<Span>): (ms: seq<string>)
    requires forall k :: 0 <= k < |spans| ==> spans[k].start <= spans[k].end <= |t|
    ensures |ms| == |spans|
    ensures forall k :: 0 <= k < |spans| ==> ms[k] == t[spans[k].start..spans[k].end]
  {
    if spans == [] then []
    else [t[spans[0].start..spans[0].end]] + Substrings(t, spans[1..])
  }

  /** Spans in left-to-right order, each ending before the next one starts. */
  predicate NonOverlapping(r: seq<Span>) {
    forall a, b :: 0 <= a < b < |r| ==> r[a].end <= r[b].start
  }

  /** Position p lies inside one of the spans of r. */
  predicate Covered(r: seq<Span>, p: nat) {
    r != [] && (r[0].start <= p < r[0].end || Covered(r[1..], p))
  }

  lemma {:induction false} CoveredIff(r: seq<Span>, p: nat)
    ensures Covered(r, p) <==> exists k :: 0 <= k < |r| && r[k].start <= p < r[k].end
  {
    if r != [] {
      CoveredIff(r[1..], p);
      if exists k :: 0 <= k < |r| && r[k].start <= p < r[k].end {
        var k :| 0 <= k < |r| && r[k].start <= p < r[k].end;
        if k > 0 {
          assert r[1..][k - 1] == r[k];
        }
      }
    }
  }

  /**
   * r is a leftmost non-overlapping selection from table m, from position i:
   * each span is a recorded match starting at or after i, the spans do not
   * overlap, and every position from i on where a match is recorded lies
   * inside some span.
   */
  ghost predicate TableLeftmost(m: seq<Option<nat>>, i: nat, r: seq<Span>) {
    && (forall k :: 0 <= k < |r| ==> i <= r[k].start < |m| && m[r[k].start] == Some(r[k].end))
    && NonOverlapping(r)
    && (forall p :: i <= p < |m| && m[p].Some? ==> Covered(r, p))
  }

  /** Select records only matches found in the table. */
  lemma {:induction false} SelectSound(m: seq<Option<nat>>, i: nat)
    requires TableOk(m)
    ensures forall k :: 0 <= k < |Select(m, i)| ==> m[Select(m, i)[k].start] == Some(Select(m, i)[k].end)
    decreases |m| - i
  {
    if i < |m| {
      match m[i]
      case Some(j) =>
        SelectSound(m, j);
      case None =>
        SelectSound(m, i + 1);
    }
  }

  /** Select returns spans in left-to-right order, without overlap. */
  lemma {:induction false} SelectOrdered(m: seq<Option<nat>>, i: nat)
    requires TableOk(m)
    ensures NonOverlapping(Select(m, i))
    decreases |m| - i
  {
    if i < |m| {
      match m[i]
      case Some(j) =>
        SelectOrdered(m, j);
      case None =>
        SelectOrdered(m, i + 1);
    }
  }

  /** Every recorded match at or after i is inside a span Select returns. */
  lemma {:induction false} SelectCovers(m: seq<Option<nat>>, i: nat, p: nat)
    requires TableOk(m) && i <= p < |m| && m[p].Some?
    ensures Covered(Select(m, i), p)
    decreases |m| - i
  {
    match m[i]
    case Some(j) =>
      if j <= p {
        SelectCovers(m, j, p);
        assert Select(m, i)[1..] == Select(m, j);
      }
    case None =>
      SelectCovers(m, i + 1, p);
  }

  /** Select is a leftmost selection, and the only one. */
  lemma {:induction false} SelectIsLeftmost(m: seq<Option<nat>>, i: nat, r: seq<Span>)
    requires TableOk(m)
    ensures TableLeftmost(m, i, Select(m, i))
    ensures TableLeftmost(m, i, r) ==> r == Select(m, i)
  {
    SelectSound(m, i);
    SelectOrdered(m, i);
    forall p | i <= p < |m| && m[p].Some?
      ensures Covered(Select(m, i), p)
    {
      SelectCovers(m, i, p);
    }
    if TableLeftmost(m, i, r) {
      SelectUnique(m, i, r);
    }
  }

  lemma {:induction false} SelectUnique(m: seq<Option<nat>>, i: nat, r: seq<Span>)
    requires TableOk(m) && TableLeftmost(m, i, r)
    ensures r == Select(m, i)
    decreases |m| - i
  {
    if i < |m| {
      match m[i]
      case Some(j) =>
        LeftmostTail(m, i, r);
        SelectUnique(m, j, r[1..]);
      case None =>
        LeftmostSkip(m, i, r);
        SelectUnique(m, i + 1, r);
    }
  }

  /** When a match is recorded at i, a leftmost selection from i starts with it. */
  lemma {:induction false} LeftmostTail(m: seq<Option<nat>>, i: nat, r: seq<Span>)
    requires TableOk(m) && TableLeftmost(m, i, r) && i < |m| && m[i].Some?
    ensures r != [] && r[0] == Span(i, m[i].value) && TableLeftmost(m, m[i].value, r[1..])
  {
    LeftmostHead(m, i, r);
    var rest := r[1..];
    forall q | 0 <= q < |rest|
      ensures m[i].value <= rest[q].start < |m| && m[rest[q].start] == Some(rest[q].end)
    {
      assert rest[q] == r[q + 1];
    }
    forall a, b | 0 <= a < b < |rest|
      ensures rest[a].end <= rest[b].start
    {
      assert rest[a] == r[a + 1] && rest[b] == r[b + 1];
    }
  }

  lemma {:induction false} LeftmostHead(m: seq<Option<nat>>, i: nat, r: seq<Span>)
    requires TableOk(m) && TableLeftmost(m, i, r) && i < |m| && m[i].Some?
    ensures r != [] && r[0] == Span(i, m[i].value)
  {
    assert Covered(r, i);
    CoveredIff(r, i);
    var k :| 0 <= k < |r| && r[k].start <= i < r[k].end;
    assert i <= r[k].start && i <= r[0].start;
    assert m[r[0].start] == Some(r[0].end);
    assert r[0].start < r[0].end;
    StartsOrdered(r, 0, k);
  }

  /** In a non-overlapping list, a non-empty span starts no later than any span after it. */
  lemma {:induction false} StartsOrdered(r: seq<Span>, a: nat, b: nat)
    requires NonOverlapping(r) && a <= b < |r| && r[a].start < r[a].end
    ensures r[a].start <= r[b].start
  {
    if a < b {
      assert r[a].end <= r[b].start;
    }
  }

  /** When no match is recorded at i, a leftmost selection from i is one from i + 1. */
  lemma {:induction false} LeftmostSkip(m: seq<Option<nat>>, i: nat, r: seq<Span>)
    requires TableOk(m) && TableLeftmost(m, i, r) && i < |m| && m[i].None?
    ensures TableLeftmost(m, i + 1, r)
  {
    forall k | 0 <= k < |r|
      ensures i + 1 <= r[k].start
    {
    }
  }

  /**
   * r is the leftmost non-overlapping list of matches of t from position i:
   * each span is a match starting at or after i, the spans do not overlap,
   * and every match of t starting at or after i begins inside some span.
   */
  ghost predicate LeftmostMatches(t: string, i: nat, r: seq<Span>) {
    && (forall k :: 0 <= k < |r| ==> i <= r[k].start && IsMatch(t, r[k].start, r[k].end))
    && NonOverlapping(r)
    && (forall p, e :: i <= p && IsMatch(t, p, e) ==> Covered(r, p))
  }

  /** The declarative and the table form of "leftmost list of matches" agree. */
  lemma {:induction false} LeftmostMatchesTable(t: string, i: nat, r: seq<Span>)
    ensures LeftmostMatches(t, i, r) <==> TableLeftmost(MatchTable(t), i, r)
  {
    var m := MatchTable(t);
    if LeftmostMatches(t, i, r) {
      forall k | 0 <= k < |r|
        ensures i <= r[k].start < |m| && m[r[k].start] == Some(r[k].end)
      {
        MatchAtComplete(t, r[k].start, r[k].end);
      }
      forall p | i <= p < |m| && m[p].Some?
        ensures Covered(r, p)
      {
        MatchAtSound(t, p, m[p].value);
      }
    }
    if TableLeftmost(m, i, r) {
      forall k | 0 <= k < |r|
        ensures IsMatch(t, r[k].start, r[k].end)
      {
        MatchAtSound(t, r[k].start, r[k].end);
      }
      forall p, e | i <= p && IsMatch(t, p, e)
        ensures Covered(r, p)
      {
        MatchAtComplete(t, p, e);
      }
    }
  }

  /**
   * Scan returns the leftmost non-overlapping matches: every span is a
   * match, they come in order without overlap, no match is skipped over;
   * and it is the only list that is.
   */
  lemma {:induction false} ScanIsLeftmostMatches(t: string, i: nat, r: seq<Span>)
    ensures LeftmostMatches(t, i, Scan(t, i))
    ensures LeftmostMatches(t, i, r) ==> r == Scan(t, i)
  {
    var m := MatchTable(t);
    SelectIsLeftmost(m, i, r);
    LeftmostMatchesTable(t, i, Scan(t, i));
    LeftmostMatchesTable(t, i, r);
  }

  /** Every span Scan returns is a match of the card pattern. */
  lemma {:induction false} ScanSound(t: string, i: nat, k: nat)
    requires k < |Scan(t, i)|
    ensures IsMatch(t, Scan(t, i)[k].start, Scan(t, i)[k].end)
  {
    ScanIsLeftmostMatches(t, i, []);
  }

  /** Text in which nothing matches yields no match. */
  lemma {:induction false} NoMatchNoMatches(t: string)
    requires forall p, e :: !IsMatch(t, p, e)
    ensures Matches(t) == []
  {
    ScanIsLeftmostMatches(t, 0, []);
  }

  /** Text where the pattern fails at every position yields no match. */
  lemma {:induction false} NoMatchAtNoMatches(t: string)
    requires forall p :: 0 <= p < |t| ==> MatchAt(t, p).None?
    ensures Matches(t) == []
  {
    SelectIsLeftmost(MatchTable(t), 0, []);
  }

  /** Text without any digit yields no match. */
  lemma {:induction false} NoDigitsNoMatches(t: string)
    requires forall k :: 0 <= k < |t| ==> !IsDigit(t[k])
    ensures Matches(t) == []
  {
    NoMatchNoMatches(t);
  }

  /**
   * A run made only of digits yields a match only when it is exactly 16
   * digits long; a 15- or 17-digit number yields nothing.
   */
  lemma {:induction false} DigitRunMatches(t: string)
    requires AllDigits(t)
    ensures Matches(t) == if |t| == CardDigits then [t] else []
  {
    if |t| == CardDigits {
      DigitRunWhole(t);
    } else {
      forall p, e | IsMatch(t, p, e)
        ensures false
      {
        AllDigitsCount(t, p, e);
      }
      NoMatchNoMatches(t);
    }
  }

  /** Sixteen digits alone are one match, the whole text. */
  lemma {:induction false} DigitRunWhole(t: string)
    requires AllDigits(t) && |t| == CardDigits
    ensures Matches(t) == [t]
  {
    var r := [Span(0, |t|)];
    AllDigitsCount(t, 0, |t|);
    assert IsMatch(t, 0, |t|);
    forall p, e | IsMatch(t, p, e)
      ensures Covered(r, p)
    {
      AllDigitsCount(t, p, e);
    }
    ScanIsLeftmostMatches(t, 0, r);
    assert t[0..|t|] == t;
  }

  lemma {:induction false} AllDigitsCount(t: string, i: nat, j: nat)
    requires i <= j <= |t| && AllDigits(t)
    ensures DigitCount(t, i, j) == j - i
    decreases j - i
  {
    if i < j {
      AllDigitsCount(t, i + 1, j);
    }
  }

  /** The spans of r moved d positions to the right. */
  function Shift(r: seq<Span>, d: nat): (r': seq<Span>)
    ensures |r'| == |r|
  {
    seq(|r|, k requires 0 <= k < |r| => Span(d + r[k].start, d + r[k].end))
  }

  /** Counting digits depends only on the characters counted. */
  lemma {:induction false} DigitCountShift(t: string, u: string, lo: nat, i: nat, j: nat)
    requires i <= j <= |u| && lo + |u| <= |t|
    requires forall k :: i <= k < j ==> t[lo + k] == u[k]
    ensures DigitCount(t, lo + i, lo + j) == DigitCount(u, i, j)
    decreases j - i
  {
    if i < j {
      DigitCountShift(t, u, lo, i + 1, j);
    }
  }

  /**
   * u occurs in t at lo, with no digit just before it and a break character
   * (or the end of t) just after it.
   */
  predicate Window(t: string, u: string, lo: nat) {
    && lo + |u| <= |t|
    && t[lo..lo + |u|] == u
    && (lo == 0 || !IsDigit(t[lo - 1]))
    && (lo + |u| == |t| || IsBreak(t[lo + |u|]))
  }

  /** A match inside a window is a match of the whole text. */
  lemma {:induction false} WindowMatchOut(t: string, u: string, lo: nat, p: nat, e: nat)
    requires Window(t, u, lo) && IsMatch(u, p, e)
    ensures IsMatch(t, lo + p, lo + e)
  {
    assert forall k :: 0 <= k < |u| ==> t[lo + k] == u[k];
    DigitCountShift(t, u, lo, p, e);
  }

  /** A match of the whole text that starts inside a window stays inside it. */
  lemma {:induction false} WindowMatchIn(t: string, u: string, lo: nat, p: nat, e: nat)
    requires Window(t, u, lo) && p < |u| && IsMatch(t, lo + p, e)
    ensures lo + p < e <= lo + |u| && IsMatch(u, p, e - lo)
  {
    assert forall k :: 0 <= k < |u| ==> t[lo + k] == u[k];
    DigitCountShift(t, u, lo, p, e - lo);
  }

  lemma {:induction false} CoveredAppend(r1: seq<Span>, r2: seq<Span>, p: nat, q: nat, d: nat)
    ensures Covered(r1, p) ==> Covered(r1 + Shift(r2, d), p)
    ensures Covered(r2, q) ==> Covered(r1 + Shift(r2, d), q + d)
  {
    var r := r1 + Shift(r2, d);
    CoveredIff(r1, p);
    CoveredIff(r2, q);
    CoveredIff(r, p);
    CoveredIff(r, q + d);
    if Covered(r1, p) {
      var k :| 0 <= k < |r1| && r1[k].start <= p < r1[k].end;
      assert r[k] == r1[k];
    }
    if Covered(r2, q) {
      var k :| 0 <= k < |r2| && r2[k].start <= q < r2[k].end;
      assert r[|r1| + k] == Shift(r2, d)[k];
    }
  }

  /** Both sides of a break character are windows of the whole text. */
  lemma {:induction false} SplitWindows(a: string, c: char, b: string)
    requires IsBreak(c)
    ensures Window(a + [c] + b, a, 0) && Window(a + [c] + b, b, |a| + 1)
  {
    var t := a + [c] + b;
    assert t[0..|a|] == a;
    assert t[|a| + 1..|a| + 1 + |b|] == b;
  }

  /**
   * Leftmost matches of the two sides of a break character, placed where
   * they sit in the whole text, are the leftmost matches of the whole text.
   */
  lemma {:induction false} JoinLeftmost(t: string, a: string, c: char, b: string, ra: seq<Span>, rb: seq<Span>)
    requires t == a + [c] + b && IsBreak(c)
    requires LeftmostMatches(a, 0, ra) && LeftmostMatches(b, 0, rb)
    ensures LeftmostMatches(t, 0, ra + Shift(rb, |a| + 1))
  {
    var off := |a| + 1;
    var r := ra + Shift(rb, off);
    SplitWindows(a, c, b);
    forall k | 0 <= k < |r|
      ensures IsMatch(t, r[k].start, r[k].end)
    {
      JoinMatch(t, a, c, b, ra, rb, off, k);
    }
    forall k | 0 <= k < |ra|
      ensures ra[k].end <= |a|
    {
      assert IsMatch(a, ra[k].start, ra[k].end);
    }
    SplitOrdered(ra, rb, |a|, off);
    forall p: nat, e: nat | IsMatch(t, p, e)
      ensures Covered(r, p)
    {
      JoinCovers(t, a, c, b, ra, rb, off, p, e);
    }
  }

  lemma {:induction false} JoinMatch(t: string, a: string, c: char, b: string, ra: seq<Span>, rb: seq<Span>, off: nat, k: nat)
    requires t == a + [c] + b && off == |a| + 1 && Window(t, a, 0) && Window(t, b, off)
    requires forall k :: 0 <= k < |ra| ==> IsMatch(a, ra[k].start, ra[k].end)
    requires forall k :: 0 <= k < |rb| ==> IsMatch(b, rb[k].start, rb[k].end)
    requires k < |ra| + |rb|
    ensures IsMatch(t, (ra + Shift(rb, off))[k].start, (ra + Shift(rb, off))[k].end)
  {
    var r := ra + Shift(rb, off);
    if k < |ra| {
      assert r[k] == ra[k];
      WindowMatchOut(t, a, 0, ra[k].start, ra[k].end);
    } else {
      var y := rb[k - |ra|];
      assert r[k] == Span(off + y.start, off + y.end);
      WindowMatchOut(t, b, off, y.start, y.end);
    }
  }

  lemma {:induction false} JoinCovers(t: string, a: string, c: char, b: string, ra: seq<Span>, rb: seq<Span>, off: nat, p: nat, e: nat)
    requires t == a + [c] + b && IsBreak(c) && off == |a| + 1 && Window(t, a, 0) && Window(t, b, off)
    requires forall p: nat, e: nat :: IsMatch(a, p, e) ==> Covered(ra, p)
    requires forall p: nat, e: nat :: IsMatch(b, p, e) ==> Covered(rb, p)
    requires IsMatch(t, p, e)
    ensures Covered(ra + Shift(rb, off), p)
  {
    if p < |a| {
      WindowMatchIn(t, a, 0, p, e);
      CoveredAppend(ra, rb, p, 0, off);
    } else {
      assert p != |a|;
      WindowMatchIn(t, b, off, p - off, e);
      CoveredAppend(ra, rb, 0, p - off, off);
    }
  }

  lemma {:induction false} SplitOrdered(ra: seq<Span>, rb: seq<Span>, n: nat, off: nat)
    requires NonOverlapping(ra) && NonOverlapping(rb) && n <= off
    requires forall k :: 0 <= k < |ra| ==> ra[k].end <= n
    ensures NonOverlapping(ra + Shift(rb, off))
  {
    var r := ra + Shift(rb, off);
    forall x, y | 0 <= x < y < |r|
      ensures r[x].end <= r[y].start
    {
      if x >= |ra| {
        assert rb[x - |ra|].end <= rb[y - |ra|].start;
      }
    }
  }

  /** The substrings of the placed spans are those of the two sides. */
  lemma {:induction false} JoinSubstrings(t: string, a: string, c: char, b: string, ra: seq<Span>, rb: seq<Span>, off: nat)
    requires t == a + [c] + b && off == |a| + 1
    requires forall k :: 0 <= k < |ra| ==> ra[k].start <= ra[k].end <= |a|
    requires forall k :: 0 <= k < |rb| ==> rb[k].start <= rb[k].end <= |b|
    ensures forall k :: 0 <= k < |ra + Shift(rb, off)| ==>
      (ra + Shift(rb, off))[k].start <= (ra + Shift(rb, off))[k].end <= |t|
    ensures Substrings(t, ra + Shift(rb, off)) == Substrings(a, ra) + Substrings(b, rb)
  {
    var r := ra + Shift(rb, off);
    forall k | 0 <= k < |r|
      ensures r[k].start <= r[k].end <= |t|
    {
      JoinSubstringAt(t, a, c, b, ra, rb, off, k);
    }
    var ms, ma, mb := Substrings(t, r), Substrings(a, ra), Substrings(b, rb);
    forall k | 0 <= k < |ms|
      ensures ms[k] == (ma + mb)[k]
    {
      JoinSubstringAt(t, a, c, b, ra, rb, off, k);
    }
  }

  lemma {:induction false} JoinSubstringAt(t: string, a: string, c: char, b: string, ra: seq<Span>, rb: seq<Span>, off: nat, k: nat)
    requires t == a + [c] + b && off == |a| + 1
    requires forall k :: 0 <= k < |ra| ==> ra[k].start <= ra[k].end <= |a|
    requires forall k :: 0 <= k < |rb| ==> rb[k].start <= rb[k].end <= |b|
    requires k < |ra| + |rb|
    ensures (ra + Shift(rb, off))[k].start <= (ra + Shift(rb, off))[k].end <= |t|
    ensures t[(ra + Shift(rb, off))[k].start..(ra + Shift(rb, off))[k].end]
      == (Substrings(a, ra) + Substrings(b, rb))[k]
  {
    var r := ra + Shift(rb, off);
    if k < |ra| {
      var s, e := ra[k].start, ra[k].end;
      assert r[k] == ra[k];
      assert forall i :: s <= i < e ==> t[i] == a[i];
      assert t[s..e] == a[s..e];
    } else {
      var s, e := rb[k - |ra|].start, rb[k - |ra|].end;
      assert r[k] == Span(off + s, off + e);
      assert forall i :: s <= i < e ==> t[off + i] == b[i];
      assert t[off + s..off + e] == b[s..e];
    }
  }

  /**
   * A break character splits the text: the matches of a + [c] + b are the
   * matches of a followed by those of b, at their places in the whole text.
   */
  lemma {:induction false} ScanSplit(a: string, c: char, b: string)
    requires IsBreak(c)
    ensures Scan(a + [c] + b, 0) == Scan(a, 0) + Shift(Scan(b, 0), |a| + 1)
    ensures Matches(a + [c] + b) == Matches(a) + Matches(b)
  {
    var t := a + [c] + b;
    var ra, rb := Scan(a, 0), Scan(b, 0);
    ScanIsLeftmostMatches(a, 0, []);
    ScanIsLeftmostMatches(b, 0, []);
    JoinLeftmost(t, a, c, b, ra, rb);
    ScanIsLeftmostMatches(t, 0, ra + Shift(rb, |a| + 1));
    JoinSubstrings(t, a, c, b, ra, rb, |a| + 1);
  }

  /** The matched substrings of a + [c] + b are those of a followed by those of b. */
  lemma {:induction false} MatchesSplit(a: string, c: char, b: string)
    requires IsBreak(c)
    ensures Matches(a + [c] + b) == Matches(a) + Matches(b)
  {
    ScanSplit(a, c, b);
  }

  /**
   * A leading non-digit, even a separator, starts no match and ends none:
   * the spans found in [c] + b are those of b, one position further right.
   */
  lemma {:induction false} ScanAfterNonDigit(c: char, b: string)
    requires !IsDigit(c)
    ensures Scan([c] + b, 0) == Shift(Scan(b, 0), 1)
  {
    var t := [c] + b;
    var rb := Scan(b, 0);
    ScanIsLeftmostMatches(b, 0, []);
    assert t[1..1 + |b|] == b;
    LeadLeftmost(t, c, b, rb);
    ScanIsLeftmostMatches(t, 0, Shift(rb, 1));
  }

  lemma {:induction false} LeadLeftmost(t: string, c: char, b: string, rb: seq<Span>)
    requires t == [c] + b && !IsDigit(c) && Window(t, b, 1)
    requires LeftmostMatches(b, 0, rb)
    ensures LeftmostMatches(t, 0, Shift(rb, 1))
  {
    var r := Shift(rb, 1);
    forall k | 0 <= k < |r|
      ensures IsMatch(t, r[k].start, r[k].end)
    {
      LeadMatch(t, b, rb, k);
    }
    SplitOrdered([], rb, 0, 1);
    assert [] + r == r;
    forall p: nat, e: nat | IsMatch(t, p, e)
      ensures Covered(r, p)
    {
      LeadCovers(t, c, b, rb, p, e);
    }
  }

  lemma {:induction false} LeadMatch(t: string, b: string, rb: seq<Span>, k: nat)
    requires Window(t, b, 1)
    requires forall k :: 0 <= k < |rb| ==> IsMatch(b, rb[k].start, rb[k].end)
    requires k < |rb|
    ensures IsMatch(t, Shift(rb, 1)[k].start, Shift(rb, 1)[k].end)
  {
    WindowMatchOut(t, b, 1, rb[k].start, rb[k].end);
  }

  lemma {:induction false} LeadCovers(t: string, c: char, b: string, rb: seq<Span>, p: nat, e: nat)
    requires t == [c] + b && !IsDigit(c) && Window(t, b, 1)
    requires forall p: nat, e: nat :: IsMatch(b, p, e) ==> Covered(rb, p)
    requires IsMatch(t, p, e)
    ensures Covered(Shift(rb, 1), p)
  {
    assert p != 0;
    WindowMatchIn(t, b, 1, p - 1, e);
    CoveredAppend([], rb, 0, p - 1, 1);
    assert [] + Shift(rb, 1) == Shift(rb, 1);
  }

  /** The matched substrings of [c] + b, for a non-digit c, are those of b. */
  lemma {:induction false} MatchesAfterNonDigit(c: char, b: string)
    requires !IsDigit(c)
    ensures Matches([c] + b) == Matches(b)
  {
    ScanAfterNonDigit(c, b);
    LeadSubstrings([c] + b, b, Scan(b, 0));
  }

  lemma {:induction false} LeadSubstrings(t: string, b: string, rb: seq<Span>)
    requires |t| == |b| + 1 && t[1..] == b
    requires forall k :: 0 <= k < |rb| ==> rb[k].start <= rb[k].end <= |b|
    ensures forall k :: 0 <= k < |rb| ==> Shift(rb, 1)[k].start <= Shift(rb, 1)[k].end <= |t|
    ensures Substrings(t, Shift(rb, 1)) == Substrings(b, rb)
  {
    var r := Shift(rb, 1);
    var ms, mb := Substrings(t, r), Substrings(b, rb);
    forall k | 0 <= k < |ms|
      ensures ms[k] == mb[k]
    {
      assert t[r[k].start..r[k].end] == b[rb[k].start..rb[k].end];
    }
  }

  /** Where the table records no match from i on, the search finds nothing more. */
  lemma {:induction false} SelectNone(m: seq<Option<nat>>, i: nat)
    requires TableOk(m)
    requires forall p :: i <= p < |m| ==> m[p].None?
    ensures Select(m, i) == []
    decreases |m| - i
  {
    if i < |m| {
      SelectNone(m, i + 1);
    }
  }

  /**
   * The lookahead sees only the next character: a number in four groups
   * followed by a separator and a short fifth group is still found, and the
   * fifth group is left over.
   */
  lemma {:induction false} FourGroupsThenGroup(n: string, c: char, g: string)
    requires |n| == CardDigits && AllDigits(n) && IsSeparator(c)
    requires 1 <= |g| < CardDigits && AllDigits(g)
    ensures Matches(FourGroups(n, c) + [c] + g) == [FourGroups(n, c)]
  {
    var u := FourGroups(n, c);
    var t := u + [c] + g;
    FourGroupsChars(n, c);
    assert forall k :: 0 <= k < 19 ==> t[k] == u[k];
    assert forall k :: 0 <= k < |g| ==> t[20 + k] == g[k];
    FiveGroupsMatches(t);
    assert t[..19] == u;
  }

  /** The same, stated on the characters of the text. */
  lemma {:induction false} FiveGroupsMatches(t: string)
    requires FiveGroupsShape(t)
    ensures Matches(t) == [t[..19]]
  {
    FiveGroupsScan(t);
    assert t[0..19] == t[..19];
  }

  /** The characters of four groups of four, a separator and a short fifth group. */
  ghost predicate FiveGroupsShape(t: string) {
    && 21 <= |t| < 20 + CardDigits
    && IsSeparator(t[4]) && IsSeparator(t[9]) && IsSeparator(t[14]) && IsSeparator(t[19])
    && (forall k :: 0 <= k < 4 || 5 <= k < 9 || 10 <= k < 14 || 15 <= k < 19 || 20 <= k < |t| ==> IsDigit(t[k]))
  }

  lemma {:induction false} FiveGroupsScan(t: string)
    requires FiveGroupsShape(t)
    ensures Scan(t, 0) == [Span(0, 19)]
  {
    FiveGroupsFirst(t);
    FiveGroupsRest(t);
    var m := MatchTable(t);
    SelectNone(m, 19);
  }

  lemma {:induction false} FiveGroupsFirst(t: string)
    requires FiveGroupsShape(t)
    ensures MatchAt(t, 0) == Some(19)
  {
    ReadGroupEnd(t, 15, 4, 4);
    ReadGroupThenSeparator(t, 10, 4, 8);
    ReadGroupThenSeparator(t, 5, 4, 12);
    ReadGroupThenSeparator(t, 0, 4, 16);
  }

  lemma {:induction false} FiveGroupsRest(t: string)
    requires FiveGroupsShape(t)
    ensures forall p :: 19 <= p < |t| ==> MatchAt(t, p).None?
  {
    ReadGroupShort(t, 20, |t| - 20, CardDigits);
    forall p | 19 <= p < |t|
      ensures MatchAt(t, p).None?
    {
      if p > 20 {
        assert IsDigit(t[p - 1]);
      }
    }
  }
}
