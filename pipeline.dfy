/**
 * `find_and_validate_card_numbers`: scan the text, clean every raw match,
 * keep the sixteen-digit results whose issuer prefix and Luhn checksum are
 * valid, and return each accepted number once, in the order it first occurs.
 */
module Pipeline {
  import opened Chars
  import opened Wrappers
  import opened Scanner
  import opened Normalizer
  import opened Prefix
  import opened Luhn

  /** A cleaned number that passes both checks. */
  predicate Accepted(c: string) {
    |c| == CardDigits && IsDigitString(c) && IsValidPrefix(c) && IsLuhnValid(c)
  }

  /** What the loop body makes of one raw match: the cleaned number if it is kept. */
  function Check(m: string): (r: Option<string>)
    ensures r.Some? <==> Normalize(m).Some? && Accepted(Normalize(m).value)
    ensures r.Some? ==> r == Normalize(m)
  {
    match Normalize(m)
    case None => None
    case Some(c) => if IsValidPrefix(c) && IsLuhnValid(c) then Some(c) else None
  }

  /** The outcome of the loop body for every raw match, in order. */
  function Outcomes(raws: seq<string>): (os: seq<Option<string>>)
    ensures |os| == |raws|
    ensures forall k :: 0 <= k < |raws| ==> os[k] == Check(raws[k])
  {
    seq(|raws|, k requires 0 <= k < |raws| => Check(raws[k]))
  }

  /** The list built from the outcomes: each kept number, unless already seen. */
  function Keep(os: seq<Option<string>>): (r: seq<string>)
  {
    if os == [] then []
    else
      var r0 := Keep(os[..|os| - 1]);
      var o := os[|os| - 1];
      if o.Some? && o.value !in r0 then r0 + [o.value] else r0
  }

  /** Outcome j keeps the number c. */
  predicate Kept(os: seq<Option<string>>, j: nat, c: string) {
    j < |os| && os[j] == Some(c)
  }

  /** No value occurs twice in r. */
  predicate Distinct(r: seq<string>) {
    forall k1, k2 :: 0 <= k1 < k2 < |r| ==> r[k1] != r[k2]
  }

  /** The loop of `find_and_validate_card_numbers` over the raw matches of text. */
  method FindAndValidateCardNumbers(text: string) returns (valid: seq<string>)
    ensures valid == Keep(Outcomes(Matches(text)))
    ensures Distinct(valid)
    ensures forall k :: 0 <= k < |valid| ==> Accepted(valid[k])
  {
    var rawMatches := Matches(text);
    ghost var os := Outcomes(rawMatches);
    valid := [];
    var seen: set<string> := {};
    for i := 0 to |rawMatches|
      invariant valid == Keep(os[..i])
      invariant forall x :: x in seen <==> x in valid
    {
      KeepStep(os, i);
      var cleaned := DigitsOnly(rawMatches[i]);
      if |cleaned| != CardDigits {
        assert os[i] == None;
        continue;
      }
      assert Normalize(rawMatches[i]) == Some(cleaned);
      if IsValidPrefix(cleaned) {
        var luhnOk := LuhnValidate(cleaned);
        if luhnOk {
          assert os[i] == Some(cleaned);
          if cleaned !in seen {
            seen := seen + {cleaned};
            valid := valid + [cleaned];
          }
        } else {
          assert os[i] == None;
        }
      } else {
        assert os[i] == None;
      }
    }
    assert os[..|rawMatches|] == os;
    KeepDistinct(os);
    forall k | 0 <= k < |valid|
      ensures Accepted(valid[k])
    {
      KeepMembers(os, valid[k]);
    }
  }

  /** Reading one more outcome appends its number when it is kept and new. */
  lemma KeepStep(os: seq<Option<string>>, i: nat)
    requires i < |os|
    ensures Keep(os[..i + 1]) ==
      if os[i].Some? && os[i].value !in Keep(os[..i]) then Keep(os[..i]) + [os[i].value] else Keep(os[..i])
  {
    assert os[..i + 1][..i] == os[..i];
  }

  // ---------------------------------------------------------------------
  // What the result is: the distinct kept numbers, first occurrence first.
  // ---------------------------------------------------------------------

  /** A number is returned exactly when some outcome keeps it. */
  lemma {:induction false} KeepMembers(os: seq<Option<string>>, c: string)
    ensures c in Keep(os) <==> exists j: nat :: Kept(os, j, c)
  {
    if os != [] {
      var n := |os| - 1;
      var pre := os[..n];
      KeepMembers(pre, c);
      if c in Keep(os) && c !in Keep(pre) {
        assert Kept(os, n, c);
      }
      if c in Keep(pre) {
        var j: nat :| Kept(pre, j, c);
        assert Kept(os, j, c);
      }
      if j: nat :| Kept(os, j, c) {
        if j < n {
          assert Kept(pre, j, c);
        }
      }
    }
  }

  /** No number is returned twice. */
  lemma {:induction false} KeepDistinct(os: seq<Option<string>>)
    ensures Distinct(Keep(os))
  {
    if os != [] {
      KeepDistinct(os[..|os| - 1]);
    }
  }

  /**
   * Numbers come out in the order of their first occurrence: whenever a
   * later-returned number is kept at index j2, an earlier-returned one was
   * already kept before j2.
   */
  lemma {:induction false} KeepOrder(os: seq<Option<string>>, k1: nat, k2: nat, j2: nat)
    requires k1 < k2 < |Keep(os)|
    requires Kept(os, j2, Keep(os)[k2])
    ensures exists j1: nat :: j1 < j2 && Kept(os, j1, Keep(os)[k1])
  {
    var n := |os| - 1;
    var pre := os[..n];
    var r := Keep(os);
    var r0 := Keep(pre);
    assert r[..|r0|] == r0;
    KeepMembers(pre, r[k1]);
    var j1: nat :| Kept(pre, j1, r[k1]);
    if j2 < n {
      assert Kept(pre, j2, r[k2]);
      if k2 < |r0| {
        KeepOrder(pre, k1, k2, j2);
        var j: nat :| j < j2 && Kept(pre, j, r[k1]);
        assert Kept(os, j, r[k1]);
      } else {
        KeepMembers(pre, r[k2]);
      }
    } else {
      assert Kept(os, j1, r[k1]);
    }
  }
}
