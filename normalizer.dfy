/**
 * The normalizer applied to every raw match: delete each character that is
 * not a digit (`re.sub(r'\D', '', match)`), then keep the result only when it
 * is exactly sixteen digits long.
 */
module Normalizer {
  import opened Chars
  import opened Wrappers
  import opened Scanner

  /** The digits of s, in order, with every other character deleted. */
  function DigitsOnly(s: string): (r: string)
    ensures AllDigits(r) && |r| <= |s|
  {
    if s == [] then []
    else if IsDigit(s[0]) then [s[0]] + DigitsOnly(s[1..])
    else DigitsOnly(s[1..])
  }

  /** The cleaned number, or None when it is not sixteen digits long. */
  function Normalize(m: string): (r: Option<string>)
    ensures r.Some? ==> |r.value| == CardDigits && AllDigits(r.value)
  {
    var cleaned := DigitsOnly(m);
    if |cleaned| != CardDigits then None else Some(cleaned)
  }

  /** Cleaning distributes over concatenation. */
  lemma {:induction false} DigitsOnlyAppend(a: string, b: string)
    ensures DigitsOnly(a + b) == DigitsOnly(a) + DigitsOnly(b)
  {
    if a != [] {
      assert (a + b)[1..] == a[1..] + b;
      DigitsOnlyAppend(a[1..], b);
    } else {
      assert a + b == b;
    }
  }

  /** Cleaning leaves s unchanged exactly when s is made of digits only. */
  lemma {:induction false} DigitsOnlyFixed(s: string)
    ensures DigitsOnly(s) == s <==> AllDigits(s)
  {
    if s != [] {
      DigitsOnlyFixed(s[1..]);
      if !IsDigit(s[0]) {
        assert |DigitsOnly(s)| < |s|;
      }
    }
  }

  /** Cleaning twice is cleaning once. */
  lemma {:induction false} DigitsOnlyIdempotent(s: string)
    ensures DigitsOnly(DigitsOnly(s)) == DigitsOnly(s)
  {
    DigitsOnlyFixed(DigitsOnly(s));
  }

  /** Cleaning keeps as many characters as there are digits. */
  lemma {:induction false} DigitsOnlyCount(t: string, i: nat, j: nat)
    requires i <= j <= |t|
    ensures |DigitsOnly(t[i..j])| == DigitCount(t, i, j)
    decreases j - i
  {
    if i < j {
      assert t[i..j][1..] == t[i + 1..j];
      DigitsOnlyCount(t, i + 1, j);
    }
  }

  /** A string without digits cleans to the empty string. */
  lemma {:induction false} DigitsOnlyNone(s: string)
    requires forall k :: 0 <= k < |s| ==> !IsDigit(s[k])
    ensures DigitsOnly(s) == []
  {
    if s != [] {
      DigitsOnlyNone(s[1..]);
    }
  }

  /** The length guard keeps exactly the strings holding sixteen digits. */
  lemma {:induction false} NormalizeKeeps(m: string)
    ensures Normalize(m).Some? <==> DigitCount(m, 0, |m|) == CardDigits
    ensures Normalize(m).Some? ==> Normalize(m).value == DigitsOnly(m)
  {
    DigitsOnlyCount(m, 0, |m|);
    assert m[0..|m|] == m;
  }

  /** The length guard never discards a match of the card pattern. */
  lemma {:induction false} NormalizeMatch(t: string, i: nat, j: nat)
    requires IsMatch(t, i, j)
    ensures Normalize(t[i..j]).Some?
  {
    DigitsOnlyCount(t, i, j);
  }

  /** Every string `findall` returns survives the length guard. */
  lemma {:induction false} NormalizeMatches(t: string)
    ensures forall k :: 0 <= k < |Matches(t)| ==> Normalize(Matches(t)[k]).Some?
  {
    forall k | 0 <= k < |Matches(t)|
      ensures Normalize(Matches(t)[k]).Some?
    {
      ScanSound(t, 0, k);
      NormalizeMatch(t, Scan(t, 0)[k].start, Scan(t, 0)[k].end);
    }
  }

  /** Cleaning undoes the grouping of a number into four groups of four. */
  lemma {:induction false} FourGroupsClean(n: string, c: char)
    requires |n| == CardDigits && AllDigits(n) && !IsDigit(c)
    ensures DigitsOnly(FourGroups(n, c)) == n
  {
    var g0, g1, g2, g3 := n[..4], n[4..8], n[8..12], n[12..];
    DigitsOnlyFixed(g0);
    var p2 := g0 + [c] + g1;
    DigitsOnlyGroup(g0, g1, c);
    var p3 := p2 + [c] + g2;
    DigitsOnlyGroup(p2, g2, c);
    DigitsOnlyGroup(p3, g3, c);
    assert FourGroups(n, c) == p3 + [c] + g3;
    assert g0 + g1 + g2 + g3 == n;
  }

  /** A separator followed by a group of digits adds just the group. */
  lemma {:induction false} DigitsOnlyGroup(p: string, g: string, c: char)
    requires AllDigits(g) && !IsDigit(c)
    ensures DigitsOnly(p + [c] + g) == DigitsOnly(p) + g
  {
    DigitsOnlyAppend(p + [c], g);
    DigitsOnlyAppend(p, [c]);
    DigitsOnlyNone([c]);
    DigitsOnlyFixed(g);
  }
}
