/** Upper bounds on the edit distance of a few misspellings the classifiers
    are meant to catch, each by an explicit alignment. */
module Spellings {
  import opened StringDistance

  /** "anoncement" is "announcement" with two runes left out. */
  lemma AnoncementNearAnnouncement()
    ensures EditDistance("anoncement", "announcement") <= 2
  {
    var s, t := "anoncement", "announcement";
    assert s[0] == t[0] && s[1] == t[1] && s[2] == t[3] && s[3..] == t[5..];
    TwoInsertions(s, t);
  }

  /** t is s with a rune inserted after s[1] and another after s[2]. */
  lemma {:induction false} TwoInsertions(s: string, t: string)
    requires |s| == 10 && |t| == 12
    requires s[0] == t[0] && s[1] == t[1] && s[2] == t[3] && s[3..] == t[5..]
    ensures Dist(s, t, 10, 12) <= 2
  {
    assert forall k :: 3 <= k < 10 ==> s[k] == t[k + 2] by {
      forall k | 3 <= k < 10 ensures s[k] == t[k + 2] {
        assert s[3..][k - 3] == t[5..][k - 3];
      }
    }
    MatchStep(s, t, 1, 1);
    MatchStep(s, t, 2, 2);
    assert Dist(s, t, 2, 3) <= Dist(s, t, 2, 2) + 1;
    MatchStep(s, t, 3, 4);
    assert Dist(s, t, 3, 5) <= Dist(s, t, 3, 4) + 1;
    MatchStep(s, t, 4, 6);
    MatchStep(s, t, 5, 7);
    MatchStep(s, t, 6, 8);
    MatchStep(s, t, 7, 9);
    MatchStep(s, t, 8, 10);
    MatchStep(s, t, 9, 11);
    MatchStep(s, t, 10, 12);
  }

  /** "uniswep" is "uniswap" with one rune replaced. */
  lemma UniswepNearUniswap()
    ensures EditDistance("uniswep", "uniswap") <= 1
  {
    var s, t := "uniswep", "uniswap";
    assert s[..5] == t[..5] && s[6] == t[6];
    OneSubstitution(s, t);
  }

  /** t is s with s[5] replaced. */
  lemma {:induction false} OneSubstitution(s: string, t: string)
    requires |s| == 7 && |t| == 7
    requires s[..5] == t[..5] && s[6] == t[6]
    ensures Dist(s, t, 7, 7) <= 1
  {
    assert forall k :: 0 <= k < 5 ==> s[k] == t[k] by {
      forall k | 0 <= k < 5 ensures s[k] == t[k] {
        assert s[..5][k] == t[..5][k];
      }
    }
    MatchStep(s, t, 1, 1);
    MatchStep(s, t, 2, 2);
    MatchStep(s, t, 3, 3);
    MatchStep(s, t, 4, 4);
    MatchStep(s, t, 5, 5);
    assert Dist(s, t, 6, 6) <= Dist(s, t, 5, 5) + 1;
    MatchStep(s, t, 7, 7);
  }

  /** "annoucenment" is "announcement" with an `n` moved: one insertion and one
      deletion. */
  lemma AnnoucenmentNearAnnouncement()
    ensures EditDistance("annoucenment", "announcement") <= 2
  {
    var s, t := "annoucenment", "announcement";
    assert s[..5] == t[..5] && s[5..7] == t[6..8] && s[8..] == t[8..];
    MovedRune(s, t);
  }

  /** t is s with s[7] taken out and another rune put in after s[4]. */
  lemma {:induction false} MovedRune(s: string, t: string)
    requires |s| == 12 && |t| == 12
    requires s[..5] == t[..5] && s[5..7] == t[6..8] && s[8..] == t[8..]
    ensures Dist(s, t, 12, 12) <= 2
  {
    MovedRuneAgrees(s, t);
    MovedRuneFront(s, t);
    MatchStep(s, t, 9, 9);
    MatchStep(s, t, 10, 10);
    MatchStep(s, t, 11, 11);
    MatchStep(s, t, 12, 12);
  }

  /** The rune-by-rune agreement the three slice equalities state. */
  lemma MovedRuneAgrees(s: string, t: string)
    requires |s| == 12 && |t| == 12
    requires s[..5] == t[..5] && s[5..7] == t[6..8] && s[8..] == t[8..]
    ensures forall k :: 0 <= k < 5 ==> s[k] == t[k]
    ensures s[5] == t[6] && s[6] == t[7]
    ensures forall k :: 8 <= k < 12 ==> s[k] == t[k]
  {
    forall k | 0 <= k < 5 ensures s[k] == t[k] {
      assert s[..5][k] == t[..5][k];
    }
    assert s[5..7][0] == t[6..8][0] && s[5..7][1] == t[6..8][1];
    forall k | 8 <= k < 12 ensures s[k] == t[k] {
      assert s[8..][k - 8] == t[8..][k - 8];
    }
  }

  /** The first eight runes of each side are two edits apart: an insertion
      after the fifth rune and a deletion of the eighth. */
  lemma {:induction false} MovedRuneFront(s: string, t: string)
    requires |s| == 12 && |t| == 12
    requires forall k :: 0 <= k < 5 ==> s[k] == t[k]
    requires s[5] == t[6] && s[6] == t[7]
    ensures Dist(s, t, 8, 8) <= 2
  {
    MatchStep(s, t, 1, 1);
    MatchStep(s, t, 2, 2);
    MatchStep(s, t, 3, 3);
    MatchStep(s, t, 4, 4);
    MatchStep(s, t, 5, 5);
    assert Dist(s, t, 5, 6) <= Dist(s, t, 5, 5) + 1;
    MatchStep(s, t, 6, 7);
    MatchStep(s, t, 7, 8);
    assert Dist(s, t, 8, 8) <= Dist(s, t, 7, 8) + 1;
  }
}
