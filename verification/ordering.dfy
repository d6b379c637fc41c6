/** Go's string order and the effect of `slices.Sort` followed by
    `slices.Compact` on a slice of strings: the ascending, duplicate-free
    sequence of its distinct elements. Go compares strings byte by byte; on
    UTF-8 that is the same as comparing code points, which is the order below. */
module Ordering {

  /** Strict lexicographic order on code points (Go's `a < b` on strings). */
  predicate Below(a: string, b: string)
    decreases |a|
  {
    |b| > 0 && (|a| == 0 || a[0] < b[0] || (a[0] == b[0] && Below(a[1..], b[1..])))
  }

  lemma {:induction false} BelowIrreflexive(a: string)
    ensures !Below(a, a)
    decreases |a|
  {
    if |a| > 0 {
      BelowIrreflexive(a[1..]);
    }
  }

  lemma {:induction false} BelowAsymmetric(a: string, b: string)
    requires Below(a, b)
    ensures !Below(b, a)
    decreases |a|
  {
    if |a| > 0 && a[0] == b[0] {
      BelowAsymmetric(a[1..], b[1..]);
    }
  }

  lemma {:induction false} BelowTransitive(a: string, b: string, c: string)
    requires Below(a, b) && Below(b, c)
    ensures Below(a, c)
    decreases |a|
  {
    if |a| > 0 && a[0] == b[0] && b[0] == c[0] {
      BelowTransitive(a[1..], b[1..], c[1..]);
    }
  }

  /** Any two different strings are ordered one way or the other. */
  lemma {:induction false} BelowTotal(a: string, b: string)
    ensures a == b || Below(a, b) || Below(b, a)
    decreases |a|
  {
    if |a| > 0 && |b| > 0 && a[0] == b[0] {
      BelowTotal(a[1..], b[1..]);
      if a[1..] == b[1..] {
        assert a == [a[0]] + a[1..] && b == [b[0]] + b[1..];
      }
    }
  }

  /** Ascending with no element repeated. */
  predicate StrictlySorted(s: seq<string>) {
    forall i, j :: 0 <= i < j < |s| ==> Below(s[i], s[j])
  }

  /** The set of elements of a sequence. */
  function Elems<T>(s: seq<T>): set<T> {
    set x | x in s
  }

  lemma ElemsEmpty<T>(s: seq<T>)
    ensures Elems(s) == {} <==> |s| == 0
  {
    if |s| > 0 {
      assert s[0] in Elems(s);
    }
  }

  /** Some value occurs twice. */
  predicate HasDuplicate<T(==)>(s: seq<T>) {
    exists i, j :: 0 <= i < j < |s| && s[i] == s[j]
  }

  /** A sequence has at most as many distinct elements as positions, and
      exactly as many when nothing repeats. */
  lemma {:induction false} DistinctCount<T>(s: seq<T>)
    ensures |Elems(s)| <= |s|
    ensures |Elems(s)| == |s| <==> !HasDuplicate(s)
  {
    if |s| > 0 {
      var tail := s[1..];
      DistinctCount(tail);
      assert Elems(s) == {s[0]} + Elems(tail);
      if s[0] in tail {
        var k :| 0 <= k < |tail| && tail[k] == s[0];
        assert s[0] == s[k + 1];
        assert Elems(s) == Elems(tail);
      } else {
        assert Elems(s) == Elems(tail) + {s[0]};
        assert s[0] !in Elems(tail);
        if HasDuplicate(s) {
          var i, j :| 0 <= i < j < |s| && s[i] == s[j];
          assert i > 0;
          assert tail[i - 1] == tail[j - 1];
        }
        if HasDuplicate(tail) {
          var i, j :| 0 <= i < j < |tail| && tail[i] == tail[j];
          assert s[i + 1] == s[j + 1];
        }
      }
    }
  }

  lemma StrictlySortedHasNoDuplicate(s: seq<string>)
    requires StrictlySorted(s)
    ensures !HasDuplicate(s)
  {
    if HasDuplicate(s) {
      var i, j :| 0 <= i < j < |s| && s[i] == s[j];
      BelowIrreflexive(s[i]);
    }
  }

  /** Putting h in front keeps a sequence strictly sorted when h is below all of it. */
  lemma ConsSorted(h: string, rest: seq<string>)
    requires StrictlySorted(rest)
    requires forall y :: y in rest ==> Below(h, y)
    ensures StrictlySorted([h] + rest)
  {
    var r := [h] + rest;
    forall i, j | 0 <= i < j < |r|
      ensures Below(r[i], r[j])
    {
      if i == 0 {
        assert r[j] == rest[j - 1];
      } else {
        assert r[i] == rest[i - 1] && r[j] == rest[j - 1];
      }
    }
  }

  /** Inserts x into a strictly sorted sequence, keeping it strictly sorted
      and dropping x when it is already present. */
  function InsertUnique(x: string, s: seq<string>): (r: seq<string>)
    requires StrictlySorted(s)
    ensures StrictlySorted(r)
    ensures Elems(r) == Elems(s) + {x}
    decreases |s|
  {
    if |s| == 0 then [x]
    else if x == s[0] then (assert Elems(s) == Elems(s) + {x}; s)
    else if Below(x, s[0]) then
      (forall y | y in s ensures Below(x, y) {
         if y != s[0] {
           var k :| 0 <= k < |s| && s[k] == y;
           BelowTransitive(x, s[0], y);
         }
       }
       ConsSorted(x, s);
       assert Elems([x] + s) == Elems(s) + {x};
       [x] + s)
    else
      var rest := InsertUnique(x, s[1..]);
      (BelowTotal(x, s[0]);
       assert Elems(s) == {s[0]} + Elems(s[1..]);
       forall y | y in rest ensures Below(s[0], y) {
         assert y in Elems(rest);
         if y != x {
           var k :| 0 <= k < |s[1..]| && s[1..][k] == y;
           assert s[k + 1] == y;
         }
       }
       ConsSorted(s[0], rest);
       assert Elems([s[0]] + rest) == {s[0]} + Elems(rest);
       [s[0]] + rest)
  }

  /** `slices.Sort` then `slices.Compact`: the distinct elements of xs in
      ascending order. */
  function SortCompact(xs: seq<string>): (r: seq<string>)
    ensures StrictlySorted(r)
    ensures Elems(r) == Elems(xs)
  {
    if |xs| == 0 then []
    else
      assert Elems(xs) == {xs[0]} + Elems(xs[1..]);
      InsertUnique(xs[0], SortCompact(xs[1..]))
  }

  /** The compacted slice is as long as the number of distinct elements, so it
      is shorter than the input exactly when the input repeats a value. */
  lemma SortCompactLength(xs: seq<string>)
    ensures |SortCompact(xs)| == |Elems(xs)|
    ensures |SortCompact(xs)| < |xs| <==> HasDuplicate(xs)
  {
    var r := SortCompact(xs);
    StrictlySortedHasNoDuplicate(r);
    DistinctCount(r);
    DistinctCount(xs);
  }

  /** A strictly sorted sequence is determined by its elements: whatever order
      the input came in, sorting and compacting gives the same result. */
  lemma {:induction false} SortedUnique(a: seq<string>, b: seq<string>)
    requires StrictlySorted(a) && StrictlySorted(b)
    requires Elems(a) == Elems(b)
    ensures a == b
    decreases |a|
  {
    if |a| > 0 {
      assert a[0] in Elems(b);
      assert |b| > 0;
      assert b[0] in Elems(a);
      if a[0] != b[0] {
        var ka :| 0 <= ka < |a| && a[ka] == b[0];
        var kb :| 0 <= kb < |b| && b[kb] == a[0];
        assert Below(a[0], b[0]) && Below(b[0], a[0]);
        BelowAsymmetric(a[0], b[0]);
      }
      BelowIrreflexive(a[0]);
      assert Elems(a) == {a[0]} + Elems(a[1..]);
      assert Elems(b) == {b[0]} + Elems(b[1..]);
      assert a[0] !in Elems(a[1..]);
      assert b[0] !in Elems(b[1..]);
      assert Elems(a[1..]) == Elems(b[1..]);
      SortedUnique(a[1..], b[1..]);
      assert a == [a[0]] + a[1..] && b == [b[0]] + b[1..];
    } else {
      ElemsEmpty(b);
    }
  }
}
