/** Go's `slices.Sort` and `slices.Compact` on a slice of strings, together
    with what they leave in the slice's backing array, which every other
    slice sharing that array sees. */
module GoSlices {
  import opened Ordering

  /** a comes no later than b in Go's string order. */
  predicate AtMost(a: string, b: string) {
    a == b || Below(a, b)
  }

  lemma AtMostTransitive(a: string, b: string, c: string)
    requires AtMost(a, b) && AtMost(b, c)
    ensures AtMost(a, c)
  {
    if a != b && b != c {
      BelowTransitive(a, b, c);
    }
  }

  /** Ascending with repeats allowed: the order `slices.Sort` leaves. */
  predicate Sorted(s: seq<string>) {
    forall i, j :: 0 <= i < j < |s| ==> AtMost(s[i], s[j])
  }

  /** Putting h in front keeps a sequence sorted when h comes before all of it. */
  lemma ConsAtMostSorted(h: string, rest: seq<string>)
    requires Sorted(rest)
    requires forall y :: y in rest ==> AtMost(h, y)
    ensures Sorted([h] + rest)
  {
    var r := [h] + rest;
    forall i, j | 0 <= i < j < |r|
      ensures AtMost(r[i], r[j])
    {
      if i == 0 {
        assert r[j] == rest[j - 1];
      } else {
        assert r[i] == rest[i - 1] && r[j] == rest[j - 1];
      }
    }
  }

  /** Puts x in front of the first element it does not come after. */
  function Insert(x: string, s: seq<string>): (r: seq<string>)
    requires Sorted(s)
    ensures Sorted(r)
    ensures multiset(r) == multiset(s) + multiset{x}
    decreases |s|
  {
    if |s| == 0 then [x]
    else if AtMost(x, s[0]) then
      InsertFrontSorted(x, s);
      [x] + s
    else
      var rest := Insert(x, s[1..]);
      InsertLaterSorted(x, s, rest);
      assert s == [s[0]] + s[1..];
      [s[0]] + rest
  }

  lemma InsertFrontSorted(x: string, s: seq<string>)
    requires Sorted(s) && |s| > 0 && AtMost(x, s[0])
    ensures Sorted([x] + s)
  {
    forall y | y in s ensures AtMost(x, y) {
      var k :| 0 <= k < |s| && s[k] == y;
      if k > 0 {
        AtMostTransitive(x, s[0], y);
      }
    }
    ConsAtMostSorted(x, s);
  }

  lemma InsertLaterSorted(x: string, s: seq<string>, rest: seq<string>)
    requires Sorted(s) && |s| > 0 && !AtMost(x, s[0])
    requires Sorted(rest) && multiset(rest) == multiset(s[1..]) + multiset{x}
    ensures Sorted([s[0]] + rest)
  {
    BelowTotal(x, s[0]);
    forall y | y in rest ensures AtMost(s[0], y) {
      assert y in multiset(rest);
      if y != x {
        assert y in multiset(s[1..]);
        var k :| 0 <= k < |s[1..]| && s[1..][k] == y;
        assert s[k + 1] == y;
      }
    }
    ConsAtMostSorted(s[0], rest);
  }

  /** `slices.Sort`: a sorted permutation of the input. */
  function Sort(s: seq<string>): (r: seq<string>)
    ensures Sorted(r)
    ensures multiset(r) == multiset(s)
  {
    if |s| == 0 then []
    else
      assert s == [s[0]] + s[1..];
      Insert(s[0], Sort(s[1..]))
  }

  /** Sorting a sorted slice leaves it as it is. */
  lemma {:induction false} SortedIsFixed(s: seq<string>)
    requires Sorted(s)
    ensures Sort(s) == s
  {
    if |s| > 0 {
      assert Sorted(s[1..]) by {
        forall i, j | 0 <= i < j < |s[1..]| ensures AtMost(s[1..][i], s[1..][j]) {
          assert s[1..][i] == s[i + 1] && s[1..][j] == s[j + 1];
        }
      }
      SortedIsFixed(s[1..]);
      assert s == [s[0]] + s[1..];
    }
  }

  /** The tail of a sorted slice is sorted. */
  lemma SortedTail(s: seq<string>)
    requires Sorted(s) && |s| > 0
    ensures Sorted(s[1..])
  {
    forall i, j | 0 <= i < j < |s[1..]| ensures AtMost(s[1..][i], s[1..][j]) {
      assert s[1..][i] == s[i + 1] && s[1..][j] == s[j + 1];
    }
  }

  /** The head of a sorted slice comes no later than any of its elements. */
  lemma SortedHeadFirst(s: seq<string>, v: string)
    requires Sorted(s) && v in multiset(s)
    ensures AtMost(s[0], v)
  {
    var k :| 0 <= k < |s| && s[k] == v;
    if k > 0 {
      assert AtMost(s[0], s[k]);
    }
  }

  /** A sorted slice is determined by its multiset of elements: `Sort` has
      exactly one possible result. */
  lemma {:induction false} SortedPermutationUnique(x: seq<string>, y: seq<string>)
    requires Sorted(x) && Sorted(y) && multiset(x) == multiset(y)
    ensures x == y
    decreases |x|
  {
    assert |x| == |multiset(x)| == |multiset(y)| == |y|;
    if |x| > 0 {
      assert x[0] in multiset(x) && y[0] in multiset(y);
      SortedHeadFirst(y, x[0]);
      SortedHeadFirst(x, y[0]);
      if x[0] != y[0] {
        BelowAsymmetric(x[0], y[0]);
      }
      assert x == [x[0]] + x[1..] && y == [y[0]] + y[1..];
      assert x[0] == y[0];
      assert multiset(x[1..]) == multiset(y[1..]) by {
        assert multiset(x) == multiset([x[0]]) + multiset(x[1..]);
        assert multiset(y) == multiset([y[0]]) + multiset(y[1..]);
        assert multiset(x[1..]) == multiset(x) - multiset([x[0]]);
        assert multiset(y[1..]) == multiset(y) - multiset([y[0]]);
      }
      SortedTail(x);
      SortedTail(y);
      SortedPermutationUnique(x[1..], y[1..]);
    }
  }

  /** Equal multisets have equal element sets. */
  lemma SameMultisetSameElems(a: seq<string>, b: seq<string>)
    requires multiset(a) == multiset(b)
    ensures Elems(a) == Elems(b)
  {
    forall x
      ensures x in Elems(a) <==> x in Elems(b)
    {
      assert x in a <==> x in multiset(a);
      assert x in b <==> x in multiset(b);
    }
  }

  /** The reference result of compaction: s with each run of equal neighbours
      cut down to its first element. */
  function Dedup(s: seq<string>): (r: seq<string>)
    ensures |r| <= |s|
    ensures |s| > 0 ==> |r| > 0 && r[|r| - 1] == s[|s| - 1]
    ensures Elems(r) == Elems(s)
  {
    if |s| <= 1 then s
    else
      var init := s[..|s| - 1];
      assert s == init + [s[|s| - 1]];
      assert Elems(s) == Elems(init) + {s[|s| - 1]};
      if s[|s| - 1] == s[|s| - 2] then
        assert init[|init| - 1] == s[|s| - 2];
        Dedup(init)
      else
        Dedup(init) + [s[|s| - 1]]
  }

  /** Extending a prefix by one element extends its compaction by that
      element exactly when it differs from its left neighbour. */
  lemma DedupStep(s: seq<string>, m: nat)
    requires 1 <= m < |s|
    ensures Dedup(s[..m + 1]) == if s[m] == s[m - 1] then Dedup(s[..m]) else Dedup(s[..m]) + [s[m]]
  {
    assert s[..m + 1][..m] == s[..m];
  }

  /** A slice with no two equal neighbours is its own compaction. */
  lemma {:induction false} DedupNoRepeat(s: seq<string>)
    requires forall k :: 1 <= k < |s| ==> s[k] != s[k - 1]
    ensures Dedup(s) == s
  {
    if |s| > 1 {
      var init := s[..|s| - 1];
      DedupNoRepeat(init);
      assert s == init + [s[|s| - 1]];
    }
  }

  /** Appending an element above all of a strictly sorted sequence keeps it
      strictly sorted. */
  lemma SnocSorted(rest: seq<string>, x: string)
    requires StrictlySorted(rest)
    requires forall y :: y in rest ==> Below(y, x)
    ensures StrictlySorted(rest + [x])
  {
    var r := rest + [x];
    forall i, j | 0 <= i < j < |r|
      ensures Below(r[i], r[j])
    {
      assert r[i] == rest[i];
      if j < |rest| {
        assert r[j] == rest[j];
      }
    }
  }

  /** Compacting a sorted slice leaves its distinct elements, ascending. */
  lemma {:induction false} DedupSorted(s: seq<string>)
    requires Sorted(s)
    ensures StrictlySorted(Dedup(s))
  {
    if |s| > 1 {
      var init := s[..|s| - 1];
      var last := s[|s| - 1];
      assert Sorted(init);
      DedupSorted(init);
      if last != s[|s| - 2] {
        var d := Dedup(init);
        forall y | y in d ensures Below(y, last) {
          assert y in Elems(init);
          var k :| 0 <= k < |init| && init[k] == y;
          assert AtMost(s[k], s[|s| - 2]) || k == |s| - 2;
          assert Below(s[|s| - 2], last);
          if k < |s| - 2 && y != s[|s| - 2] {
            BelowTransitive(y, s[|s| - 2], last);
          }
        }
        SnocSorted(d, last);
      }
    }
  }

  /** `slices.Sort` then `slices.Compact` gives the ascending distinct
      elements, the sequence `SortCompact` describes. */
  lemma SortThenCompact(xs: seq<string>)
    ensures Dedup(Sort(xs)) == SortCompact(xs)
  {
    var sorted := Sort(xs);
    DedupSorted(sorted);
    SameMultisetSameElems(sorted, xs);
    SortedUnique(Dedup(sorted), SortCompact(xs));
  }

  /** The state `slices.Compact(s)` leaves: `slots` is the backing array and
      the returned slice is its first `len` slots. */
  datatype Compacted = Compacted(slots: seq<string>, len: nat)

  /** n empty strings: the zero value of Go's `string`, n times. */
  function Blank(n: nat): (r: seq<string>)
    ensures |r| == n
    ensures forall i :: 0 <= i < n ==> r[i] == ""
  {
    seq(n, i => "")
  }

  /** What `slices.Compact(s)` leaves behind. The returned slice is the
      compaction of s in both versions. Up to Go 1.21 the slots after it keep
      the values they had; from Go 1.22 on (`clearsTail`) they are cleared. */
  function CompactSlots(s: seq<string>, clearsTail: bool): (c: Compacted)
    ensures |c.slots| == |s| && c.len <= |s|
    ensures c.slots[..c.len] == Dedup(s)
    ensures !clearsTail ==> Elems(c.slots) == Elems(s)
    ensures clearsTail ==> Elems(c.slots) <= Elems(s) + {""}
  {
    var d := Dedup(s);
    var tail := if clearsTail then Blank(|s| - |d|) else s[|d|..];
    assert (d + tail)[..|d|] == d;
    assert Elems(d + tail) == Elems(d) + Elems(tail);
    Compacted(d + tail, |d|)
  }

  /** One pass of the compaction loops: the slots from `i` on still hold the
      input, so both neighbours read at `k` are the input's, and the kept
      prefix grows by `s[k]` exactly when it differs from its left neighbour. */
  lemma CompactStep(s: seq<string>, t: seq<string>, i: nat, k: nat)
    requires |t| == |s| && 1 <= i <= k < |s|
    requires t[..i] == Dedup(s[..k]) && t[i..] == s[i..]
    ensures t[k] == s[k] && t[k - 1] == s[k - 1]
    ensures s[k] == s[k - 1] ==> t[..i] == Dedup(s[..k + 1])
    ensures s[k] != s[k - 1] ==>
      && t[i := s[k]][..i + 1] == Dedup(s[..k + 1])
      && t[i := s[k]][i + 1..] == s[i + 1..]
  {
    assert t[k] == s[k] by { assert t[i..][k - i] == s[i..][k - i]; }
    if k - 1 >= i {
      assert t[i..][k - 1 - i] == s[i..][k - 1 - i];
    } else {
      assert t[k - 1] == t[..i][i - 1];
    }
    DedupStep(s, k);
    var t' := t[i := s[k]];
    assert t'[..i + 1] == t[..i] + [s[k]];
    assert t'[i + 1..] == t[i..][1..];
  }

  /** The loop both versions of `slices.Compact` run over a copy `t` of the
      backing array, from read position `k` and write position `i` on: a
      read element that differs from its left neighbour is written at `i`.
      Go 1.21 skips the write when `i == k`, which writes the value already
      there. */
  method KeepDistinct(s: seq<string>, t0: seq<string>, i0: nat, k0: nat) returns (t: seq<string>, i: nat)
    requires |t0| == |s| && 1 <= i0 <= k0 <= |s|
    requires t0[..i0] == Dedup(s[..k0]) && t0[i0..] == s[i0..]
    ensures |t| == |s| && i <= |s|
    ensures t[..i] == Dedup(s) && t[i..] == s[i..]
  {
    t, i := t0, i0;
    var k := k0;
    while k < |s|
      invariant |t| == |s|
      invariant 1 <= i <= k <= |s|
      invariant t[..i] == Dedup(s[..k])
      invariant t[i..] == s[i..]
    {
      CompactStep(s, t, i, k);
      if t[k] != t[k - 1] {
        assert s[k] != s[k - 1];
        t := t[i := t[k]];
        i := i + 1;
      } else {
        assert s[k] == s[k - 1];
      }
      k := k + 1;
    }
    assert s[..k] == s;
  }

  /** Go 1.21's `slices.Compact`: slices shorter than two are returned as they
      are; otherwise the loop runs from position 1, and the slots after the
      result keep what they held. */
  method CompactKeepingTail(s: seq<string>) returns (c: Compacted)
    ensures c == CompactSlots(s, false)
  {
    if |s| < 2 {
      return Compacted(s, |s|);
    }
    assert s[..1] == [s[0]];
    var t, i := KeepDistinct(s, s, 1, 1);
    assert t == t[..i] + t[i..];
    return Compacted(t, i);
  }

  /** The first scan of Go 1.22's `slices.Compact`: the first position whose
      element equals its left neighbour, or `|s|` when there is none. */
  method FirstRepeat(s: seq<string>) returns (k: nat)
    requires |s| >= 2
    ensures 1 <= k <= |s|
    ensures Dedup(s[..k]) == s[..k]
    ensures k < |s| ==> s[k] == s[k - 1]
  {
    k := 1;
    assert s[..1] == [s[0]];
    while k < |s|
      invariant 1 <= k <= |s|
      invariant Dedup(s[..k]) == s[..k]
    {
      if s[k] == s[k - 1] {
        return;
      }
      DedupStep(s, k);
      assert s[..k + 1] == s[..k] + [s[k]];
      k := k + 1;
    }
  }

  /** `slices.Compact` from Go 1.22 on: find the first element equal to its
      left neighbour; from there move every later kept element down behind
      the result (the same loop, Go's `s2[k2]` being `s[k + k2]`), then clear
      the slots after it. Without a repeat the slice is left untouched. */
  method CompactClearingTail(s: seq<string>) returns (c: Compacted)
    ensures c == CompactSlots(s, true)
  {
    if |s| < 2 {
      return Compacted(s, |s|);
    }
    var k := FirstRepeat(s);
    if k == |s| {
      assert s[..k] == s;
      assert s[|s|..] == [];
      return Compacted(s, |s|);
    }
    DedupStep(s, k);
    var t, w := KeepDistinct(s, s, k, k + 1);
    return Compacted(t[..w] + Blank(|s| - w), w);
  }
}
