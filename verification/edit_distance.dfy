/** Levenshtein distance as used by the name matcher: the classical edit
    distance over runes (single-rune insertions, deletions and substitutions),
    and the single-vector `uint16` implementation that computes it. */
module StringDistance {
  import opened Text
  import opened Ordering

  /** Go's `uint16`: the element type of the rolling cost vector. */
  newtype u16 = x: int | 0 <= x < 0x1_0000

  function Min3(a: int, b: int, c: int): (m: int)
    ensures m <= a && m <= b && m <= c
    ensures m == a || m == b || m == c
  {
    if a <= b && a <= c then a else if b <= c then b else c
  }

  /** Go's three-argument `min` on `uint16`. */
  function MinU16(a: u16, b: u16, c: u16): (m: u16)
    ensures m as int == Min3(a as int, b as int, c as int)
  {
    if a <= b && a <= c then a else if b <= c then b else c
  }

  /** Edit distance between the prefixes s[..i] and t[..j]: the classical
      recurrence in which every step is a deletion, an insertion, or a
      substitution that costs nothing when the two runes agree. */
  function Dist(s: string, t: string, i: nat, j: nat): nat
    requires i <= |s| && j <= |t|
    decreases i + j
  {
    if i == 0 then j
    else if j == 0 then i
    else Min3(Dist(s, t, i - 1, j) + 1,
              Dist(s, t, i, j - 1) + 1,
              Dist(s, t, i - 1, j - 1) + (if s[i - 1] == t[j - 1] then 0 else 1))
  }

  /** The distance between two prefixes lies between the difference of their
      lengths and the larger length. */
  lemma {:induction false} DistBounds(s: string, t: string, i: nat, j: nat)
    requires i <= |s| && j <= |t|
    ensures i <= j + Dist(s, t, i, j) && j <= i + Dist(s, t, i, j)
    ensures Dist(s, t, i, j) <= (if i <= j then j else i)
    decreases i + j
  {
    if i > 0 && j > 0 {
      DistBounds(s, t, i - 1, j);
      DistBounds(s, t, i, j - 1);
      DistBounds(s, t, i - 1, j - 1);
    }
  }

  /** The edit distance between two whole rune sequences. It lies between the
      difference of their lengths and the larger length. */
  function EditDistance(s: string, t: string): (d: nat)
    ensures (if |s| <= |t| then |t| - |s| else |s| - |t|) <= d
    ensures d <= (if |s| <= |t| then |t| else |s|)
  {
    DistBounds(s, t, |s|, |t|);
    Dist(s, t, |s|, |t|)
  }

  /** The distance does not depend on which string comes first. */
  lemma {:induction false} DistSymmetric(s: string, t: string, i: nat, j: nat)
    requires i <= |s| && j <= |t|
    ensures Dist(s, t, i, j) == Dist(t, s, j, i)
    decreases i + j
  {
    if i > 0 && j > 0 {
      DistSymmetric(s, t, i - 1, j);
      DistSymmetric(s, t, i, j - 1);
      DistSymmetric(s, t, i - 1, j - 1);
      DistSymmetricStep(s, t, i, j);
    }
  }

  /** One cell of the table: when the three neighbouring cells agree with the
      transposed table, so does this one. */
  lemma DistSymmetricStep(s: string, t: string, i: nat, j: nat)
    requires 0 < i <= |s| && 0 < j <= |t|
    requires Dist(s, t, i - 1, j) == Dist(t, s, j, i - 1)
    requires Dist(s, t, i, j - 1) == Dist(t, s, j - 1, i)
    requires Dist(s, t, i - 1, j - 1) == Dist(t, s, j - 1, i - 1)
    ensures Dist(s, t, i, j) == Dist(t, s, j, i)
  {
    var cost := if s[i - 1] == t[j - 1] then 0 else 1;
    var del, ins, sub := Dist(s, t, i - 1, j) + 1, Dist(s, t, i, j - 1) + 1, Dist(s, t, i - 1, j - 1) + cost;
    assert Dist(s, t, i, j) == Min3(del, ins, sub);
    assert Dist(t, s, j, i) == Min3(ins, del, sub);
  }

  lemma EditDistanceSymmetric(s: string, t: string)
    ensures EditDistance(s, t) == EditDistance(t, s)
  {
    DistSymmetric(s, t, |s|, |t|);
  }

  /** Dropping the last rune of the first prefix changes the distance by at most one. */
  lemma {:induction false} DropFirstBound(s: string, t: string, i: nat, j: nat)
    requires 1 <= i <= |s| && j <= |t|
    ensures Dist(s, t, i - 1, j) <= Dist(s, t, i, j) + 1
    decreases j
  {
    if j > 0 {
      DropFirstBound(s, t, i, j - 1);
      if i - 1 > 0 {
        assert Dist(s, t, i - 1, j) <= Dist(s, t, i - 1, j - 1) + 1;
      }
    }
  }

  /** Dropping the last rune of the second prefix changes the distance by at most one. */
  lemma {:induction false} DropSecondBound(s: string, t: string, i: nat, j: nat)
    requires i <= |s| && 1 <= j <= |t|
    ensures Dist(s, t, i, j - 1) <= Dist(s, t, i, j) + 1
    decreases i
  {
    if i > 0 {
      DropSecondBound(s, t, i - 1, j);
      if j - 1 > 0 {
        assert Dist(s, t, i, j - 1) <= Dist(s, t, i - 1, j - 1) + 1;
      }
    }
  }

  /** When the two last runes agree, keeping them is optimal: the distance is
      that of the prefixes without them. This is the shortcut the rolling
      implementation takes on a match. */
  lemma MatchStep(s: string, t: string, i: nat, j: nat)
    requires 1 <= i <= |s| && 1 <= j <= |t|
    requires s[i - 1] == t[j - 1]
    ensures Dist(s, t, i, j) == Dist(s, t, i - 1, j - 1)
  {
    DropSecondBound(s, t, i - 1, j);
    DropFirstBound(s, t, i, j - 1);
  }

  /** A string is at distance zero from itself. */
  lemma {:induction false} DistToSelf(s: string, i: nat)
    requires i <= |s|
    ensures Dist(s, s, i, i) == 0
  {
    if i > 0 {
      DistToSelf(s, i - 1);
    }
  }

  /** Distance zero means the two prefixes are the same rune sequence. */
  lemma {:induction false} DistZeroMeansEqual(s: string, t: string, i: nat, j: nat)
    requires i <= |s| && j <= |t|
    requires Dist(s, t, i, j) == 0
    ensures i == j && s[..i] == t[..j]
    decreases i + j
  {
    if i > 0 {
      assert s[i - 1] == t[j - 1] && Dist(s, t, i - 1, j - 1) == 0;
      DistZeroMeansEqual(s, t, i - 1, j - 1);
      assert s[..i] == s[..i - 1] + [s[i - 1]];
      assert t[..j] == t[..j - 1] + [t[j - 1]];
    }
  }

  /** The distance is zero exactly between equal rune sequences. */
  lemma EditDistanceZeroIff(s: string, t: string)
    ensures EditDistance(s, t) == 0 <==> s == t
  {
    if EditDistance(s, t) == 0 {
      DistZeroMeansEqual(s, t, |s|, |t|);
      assert s == s[..|s|] && t == t[..|t|];
    }
    if s == t {
      DistToSelf(s, |s|);
    }
  }

  /** The runes of t[..j] outside `pool`, counted with repetition. */
  function Outside(t: string, j: nat, pool: set<char>): (n: nat)
    requires j <= |t|
    ensures n <= j
  {
    if j == 0 then 0 else Outside(t, j - 1, pool) + (if t[j - 1] in pool then 0 else 1)
  }

  /** A larger pool leaves fewer runes outside it. */
  lemma {:induction false} OutsideShrinks(t: string, j: nat, small: set<char>, big: set<char>)
    requires j <= |t| && small <= big
    ensures Outside(t, j, big) <= Outside(t, j, small)
  {
    if j > 0 {
      OutsideShrinks(t, j - 1, small, big);
    }
  }

  /** Every rune of t that s lacks must be produced by an edit of its own. */
  lemma {:induction false} DistAtLeastOutside(s: string, t: string, i: nat, j: nat)
    requires i <= |s| && j <= |t|
    ensures Outside(t, j, Elems(s)) <= Dist(s, t, i, j)
    decreases i + j
  {
    if i > 0 && j > 0 {
      DistAtLeastOutside(s, t, i - 1, j);
      DistAtLeastOutside(s, t, i, j - 1);
      DistAtLeastOutside(s, t, i - 1, j - 1);
      var cost := if s[i - 1] == t[j - 1] then 0 else 1;
      var del, ins, sub := Dist(s, t, i - 1, j) + 1, Dist(s, t, i, j - 1) + 1, Dist(s, t, i - 1, j - 1) + cost;
      assert Dist(s, t, i, j) == Min3(del, ins, sub);
      if s[i - 1] == t[j - 1] {
        assert t[j - 1] in Elems(s);
      }
    }
  }

  /** A lower bound on the distance that can be counted rune by rune: the runes
      of either string that never occur in the other. */
  lemma EditDistanceAtLeastOutside(s: string, t: string)
    ensures Outside(t, |t|, Elems(s)) <= EditDistance(s, t)
    ensures Outside(s, |s|, Elems(t)) <= EditDistance(s, t)
  {
    DistAtLeastOutside(s, t, |s|, |t|);
    DistAtLeastOutside(t, s, |t|, |s|);
    EditDistanceSymmetric(s, t);
  }

  /** `levenshtein(a, b)` as the Go function behaves on arguments shorter than
      65535 runes: the rune count of the other argument when one is empty,
      zero on equal arguments, and otherwise the edit distance of the
      lower-cased rune sequences. The three early exits agree with the general
      case. From 65535 runes on, Go's `uint16` costs can wrap around; this
      function keeps giving the true distance there. */
  function Levenshtein(a: string, b: string): (r: nat)
    ensures r == EditDistance(Lower(a), Lower(b))
  {
    if |a| == 0 then |b|
    else if |b| == 0 then |a|
    else if a == b then (DistToSelf(Lower(a), |a|); 0)
    else EditDistance(Lower(a), Lower(b))
  }

  /** The result does not depend on argument order (the implementation swaps
      its arguments so that the cost vector runs over the shorter one). */
  lemma LevenshteinSymmetric(a: string, b: string)
    ensures Levenshtein(a, b) == Levenshtein(b, a)
  {
    EditDistanceSymmetric(Lower(a), Lower(b));
  }

  /** One cell of the cost table as the rolling loop computes it: the
      diagonal cost when the runes agree, otherwise one more than the cheapest
      of the diagonal, left and upper neighbours. */
  lemma CellStep(s: string, t: string, i: nat, j: nat)
    requires 1 <= i <= |s| && 1 <= j <= |t|
    ensures s[i - 1] == t[j - 1] ==> Dist(s, t, i, j) == Dist(s, t, i - 1, j - 1)
    ensures s[i - 1] != t[j - 1] ==>
      Dist(s, t, i, j) == Min3(Dist(s, t, i - 1, j - 1) + 1, Dist(s, t, i, j - 1) + 1, Dist(s, t, i - 1, j) + 1)
  {
    if s[i - 1] == t[j - 1] {
      MatchStep(s, t, i, j);
    }
  }

  /** The cost the rolling loop stores for one cell, from its diagonal, left
      and upper neighbours, with Go's `uint16` arithmetic. */
  function CellCost(diag: u16, left: u16, up: u16, same: bool): u16
    requires diag < 0xFFFF && left < 0xFFFF && up < 0xFFFF
  {
    if same then diag else MinU16(diag + 1, left + 1, up + 1)
  }

  /** Fed the three neighbouring costs, the cell computation yields the edit
      distance of the cell; the neighbours are small enough that no `+ 1`
      wraps around. */
  lemma CellCostIsDist(s: string, t: string, i: nat, j: nat, diag: u16, left: u16, up: u16)
    requires 1 <= i <= |s| < 0xFFFF && 1 <= j <= |t| <= |s|
    requires diag as int == Dist(s, t, i - 1, j - 1)
    requires left as int == Dist(s, t, i, j - 1)
    requires up as int == Dist(s, t, i - 1, j)
    ensures diag < 0xFFFF && left < 0xFFFF && up < 0xFFFF
    ensures CellCost(diag, left, up, s[i - 1] == t[j - 1]) as int == Dist(s, t, i, j)
  {
    DistBounds(s, t, i - 1, j - 1);
    DistBounds(s, t, i, j - 1);
    DistBounds(s, t, i - 1, j);
    CellStep(s, t, i, j);
  }

  /** One pass of the outer loop of `levenshtein`: turns row i - 1 of the cost
      table, held in x, into row i. `prev` carries the cost of the cell to the
      left, and x[j - 1] is overwritten only once it is no longer needed as a
      diagonal. Every cost is at most the longer rune count, so below 65535
      runes no `+ 1` wraps around. */
  method AdvanceRow(x: array<u16>, s1: string, s2: string, i: nat)
    requires x.Length == |s1| + 1
    requires |s1| <= |s2| < 0xFFFF && 1 <= i <= |s2|
    requires forall q {:trigger x[q]} :: 0 <= q <= |s1| ==> x[q] as int == Dist(s2, s1, i - 1, q)
    modifies x
    ensures forall q {:trigger x[q]} :: 0 <= q <= |s1| ==> x[q] as int == Dist(s2, s1, i, q)
  {
    var lenS1 := |s1|;
    var prev := i as u16;
    var j := 1;
    while j <= lenS1
      invariant 1 <= j <= lenS1 + 1
      invariant prev as int == Dist(s2, s1, i, j - 1)
      invariant forall q {:trigger x[q]} :: 0 <= q < j - 1 ==> x[q] as int == Dist(s2, s1, i, q)
      invariant forall q {:trigger x[q]} :: j - 1 <= q <= lenS1 ==> x[q] as int == Dist(s2, s1, i - 1, q)
    {
      var diag, up := x[j - 1], x[j];
      assert diag as int == Dist(s2, s1, i - 1, j - 1) && up as int == Dist(s2, s1, i - 1, j);
      CellCostIsDist(s2, s1, i, j, diag, prev, up);
      var current := CellCost(diag, prev, up, s2[i - 1] == s1[j - 1]);
      x[j - 1] := prev;
      prev := current;
      j := j + 1;
    }
    x[lenS1] := prev;
  }

  /** `levenshtein` with its single rolling `uint16` cost vector: the early
      exits, the swap that makes the vector run over the shorter lower-cased
      string, and one row pass per rune of the longer one. */
  method RollingLevenshtein(a: string, b: string) returns (r: nat)
    requires |a| < 0xFFFF && |b| < 0xFFFF
    ensures r == EditDistance(Lower(a), Lower(b))
    ensures r == Levenshtein(a, b)
  {
    if |a| == 0 {
      return |b|;
    }
    if |b| == 0 {
      return |a|;
    }
    if a == b {
      DistToSelf(Lower(a), |a|);
      return 0;
    }

    var s1 := Lower(a);
    var s2 := Lower(b);
    ghost var swapped := false;
    if |s1| > |s2| {
      s1, s2 := s2, s1;
      swapped := true;
    }
    var lenS1 := |s1|;
    var lenS2 := |s2|;

    var x := new u16[lenS1 + 1](_ => 0);  // `make` zero-fills
    var k := 1;
    while k < x.Length
      invariant 1 <= k <= x.Length
      invariant forall q {:trigger x[q]} :: 0 <= q < k ==> x[q] as int == Dist(s2, s1, 0, q)
    {
      x[k] := k as u16;
      k := k + 1;
    }

    var i := 1;
    while i <= lenS2
      invariant 1 <= i <= lenS2 + 1
      invariant forall q {:trigger x[q]} :: 0 <= q <= lenS1 ==> x[q] as int == Dist(s2, s1, i - 1, q)
    {
      AdvanceRow(x, s1, s2, i);
      i := i + 1;
    }

    r := x[lenS1] as int;
    assert r == Dist(s2, s1, lenS2, lenS1);
    if swapped {
      assert r == EditDistance(Lower(a), Lower(b));
    } else {
      DistSymmetric(s2, s1, lenS2, lenS1);
      assert r == EditDistance(Lower(a), Lower(b));
    }
  }

  /** Every rune of the lower-cased name is one of `pool`. */
  predicate RunesFrom(raw: string, pool: set<char>) {
    forall i :: 0 <= i < |Lower(raw)| ==> Lower(raw)[i] in pool
  }

  /** A name whose lower-cased runes all come from `pool` neither contains a
      word that uses a rune outside the pool, nor lies within `bound` of it
      when the word has more than `bound` runes outside the pool or is more
      than `bound` runes shorter than the name. */
  lemma WordMissed(raw: string, w: string, k: nat, pool: set<char>, bound: nat)
    requires Lower(w) == w
    requires RunesFrom(raw, pool)
    requires k < |w| && w[k] !in pool
    requires Outside(w, |w|, pool) > bound || |raw| > |w| + bound
    ensures !Contains(Lower(raw), w) && Levenshtein(Lower(raw), w) > bound
  {
    var norm := Lower(raw);
    MissingRuneRulesOutContains(norm, w, k);
    assert Elems(norm) <= pool;
    OutsideShrinks(w, |w|, Elems(norm), pool);
    EditDistanceAtLeastOutside(norm, w);
    LowerIdempotent(raw);
  }
}
