/**
 * Dynamic time warping with absolute-difference cost: the full-matrix
 * recurrence as the specification, the source's single rolling row as the
 * implementation, and the usual facts about the distance.
 */
module Dtw {
  import opened Common

  /** Local cost of matching a[i] with b[j]. */
  function Cost(a: seq<real>, b: seq<real>, i: nat, j: nat): real
    requires i < |a| && j < |b|
  {
    Abs(a[i] - b[j])
  }

  /** Cumulative cost D[i][j] of the textbook full DTW matrix. */
  function D(a: seq<real>, b: seq<real>, i: nat, j: nat): real
    requires i < |a| && j < |b|
    decreases i + j, 0
  {
    if i == 0 && j == 0 then Cost(a, b, 0, 0)
    else if i == 0 then Prev(a, b, 0, j - 1) + Cost(a, b, 0, j)
    else if j == 0 then Prev(a, b, i - 1, 0) + Cost(a, b, i, 0)
    else Min(Min(Prev(a, b, i - 1, j - 1), Prev(a, b, i - 1, j)), Prev(a, b, i, j - 1)) + Cost(a, b, i, j)
  }

  /**
   * An already computed neighbouring entry of the matrix. Looking the
   * neighbours up through this function keeps the verifier from unfolding
   * the recurrence more than one level at a time.
   */
  function Prev(a: seq<real>, b: seq<real>, i: nat, j: nat): real
    requires i < |a| && j < |b|
    decreases i + j, 1
  {
    D(a, b, i, j)
  }

  /** DTW distance between two non-empty signatures: D[n-1][m-1]. */
  function Distance(a: seq<real>, b: seq<real>): real
    requires |a| >= 1 && |b| >= 1
  {
    D(a, b, |a| - 1, |b| - 1)
  }

  /**
   * The source's matcher: one scratch row of length m, first filled with
   * prefix sums, then advanced in place row by row. It reads a[0] and
   * dtw[m-1] unconditionally, so a must have a first slot and m >= 1; an
   * n of 0 or below runs the first loop only, which compares b with a[0]
   * as if n were 1.
   */
  method DynamicTimeWarping(a: array<real>, n: int, b: array<real>, m: int) returns (result: real)
    requires 1 <= a.Length && n <= a.Length && 1 <= m <= b.Length
    ensures n >= 1 ==> result == Distance(a[..n], b[..m])
    ensures n <= 1 ==> result == Distance([a[0]], b[..m])
  {
    ghost var rows := if n >= 1 then n else 1;
    ghost var A, B := a[..rows], b[..m];
    assert a[..1] == [a[0]];
    var dtw := new real[m];
    var j := 0;
    while j < m
      invariant 0 <= j <= m
      invariant forall k :: 0 <= k < j ==> dtw[k] == D(A, B, 0, k)
    {
      dtw[j] := Abs(a[0] - b[j]);
      if j > 0 {
        dtw[j] := dtw[j] + dtw[j - 1];
      }
      j := j + 1;
    }
    var i := 1;
    while i < n
      invariant 1 <= i <= rows
      invariant forall k :: 0 <= k < m ==> dtw[k] == D(A, B, i - 1, k)
    {
      AdvanceRow(dtw, a[i], b, A, B, i);
      i := i + 1;
    }
    result := dtw[m - 1];
  }

  /**
   * One pass of the outer loop: row i - 1 of the matrix becomes row i, with
   * `prev` carrying the old value of dtw[j - 1] (the diagonal neighbour).
   */
  method AdvanceRow(dtw: array<real>, x: real, b: array<real>, ghost A: seq<real>, ghost B: seq<real>, i: nat)
    requires 1 <= i < |A| && x == A[i] && dtw.Length == |B| && 1 <= |B| <= b.Length && B == b[..|B|]
    requires forall k :: 0 <= k < |B| ==> dtw[k] == D(A, B, i - 1, k)
    modifies dtw
    ensures forall k :: 0 <= k < |B| ==> dtw[k] == D(A, B, i, k)
  {
    var m := dtw.Length;
    var prev := dtw[0];
    dtw[0] := dtw[0] + Abs(x - b[0]);
    var j := 1;
    while j < m
      invariant 1 <= j <= m
      invariant prev == D(A, B, i - 1, j - 1)
      invariant forall k :: 0 <= k < j ==> dtw[k] == D(A, B, i, k)
      invariant forall k :: j <= k < m ==> dtw[k] == D(A, B, i - 1, k)
    {
      var temp := dtw[j];
      dtw[j] := Min(Min(prev, dtw[j]), dtw[j - 1]) + Abs(x - b[j]);
      prev := temp;
      j := j + 1;
    }
  }

  lemma {:induction false} DNonNegative(a: seq<real>, b: seq<real>, i: nat, j: nat)
    requires i < |a| && j < |b|
    ensures D(a, b, i, j) >= 0.0
    decreases i + j
  {
    if i == 0 && j == 0 {
    } else if i == 0 {
      DNonNegative(a, b, 0, j - 1);
    } else if j == 0 {
      DNonNegative(a, b, i - 1, 0);
    } else {
      DNonNegative(a, b, i - 1, j - 1);
      DNonNegative(a, b, i - 1, j);
      DNonNegative(a, b, i, j - 1);
    }
  }

  /** The distance is never negative. */
  lemma DistanceNonNegative(a: seq<real>, b: seq<real>)
    requires |a| >= 1 && |b| >= 1
    ensures Distance(a, b) >= 0.0
  {
    DNonNegative(a, b, |a| - 1, |b| - 1);
  }

  lemma {:induction false} DDiagonalOfSelf(a: seq<real>, i: nat)
    requires i < |a|
    ensures D(a, a, i, i) == 0.0
  {
    if i > 0 {
      DDiagonalOfSelf(a, i - 1);
      DNonNegative(a, a, i - 1, i);
      DNonNegative(a, a, i, i - 1);
    }
  }

  /** A signature is at distance zero from itself. */
  lemma DistanceToSelf(a: seq<real>)
    requires |a| >= 1
    ensures Distance(a, a) == 0.0
  {
    DDiagonalOfSelf(a, |a| - 1);
  }

  lemma {:induction false} DSymmetric(a: seq<real>, b: seq<real>, i: nat, j: nat)
    requires i < |a| && j < |b|
    ensures D(a, b, i, j) == D(b, a, j, i)
    decreases i + j
  {
    if i == 0 && j == 0 {
    } else if i == 0 {
      DSymmetric(a, b, 0, j - 1);
    } else if j == 0 {
      DSymmetric(a, b, i - 1, 0);
    } else {
      DSymmetric(a, b, i - 1, j - 1);
      DSymmetric(a, b, i - 1, j);
      DSymmetric(a, b, i, j - 1);
    }
  }

  /** Cost and step set are both symmetric, so the distance is too. */
  lemma DistanceSymmetric(a: seq<real>, b: seq<real>)
    requires |a| >= 1 && |b| >= 1
    ensures Distance(a, b) == Distance(b, a)
  {
    DSymmetric(a, b, |a| - 1, |b| - 1);
  }

  /** Total cost of matching the single value x against every element of b. */
  function RowCost(x: real, b: seq<real>): real
  {
    if |b| == 0 then 0.0 else RowCost(x, b[..|b| - 1]) + Abs(x - b[|b| - 1])
  }

  lemma {:induction false} FirstRowIsRowCost(a: seq<real>, b: seq<real>, j: nat)
    requires 1 <= |a| && j < |b|
    ensures D(a, b, 0, j) == RowCost(a[0], b[..j + 1])
  {
    assert b[..j + 1][..j] == b[..j];
    if j > 0 {
      FirstRowIsRowCost(a, b, j - 1);
    }
  }

  /** One-element signatures degenerate to a plain accumulation along the other one. */
  lemma DistanceFromSingleton(x: real, b: seq<real>)
    requires |b| >= 1
    ensures Distance([x], b) == RowCost(x, b)
    ensures Distance(b, [x]) == RowCost(x, b)
  {
    FirstRowIsRowCost([x], b, |b| - 1);
    assert b[..|b|] == b;
    DistanceSymmetric([x], b);
  }

  /** Two one-element signatures are at distance |x - y|. */
  lemma DistanceOfSingletons(x: real, y: real)
    ensures Distance([x], [y]) == Abs(x - y)
  {
    DistanceFromSingleton(x, [y]);
    assert [y][..0] == [];
  }

  /** Every pair of samples of a and b differs by at least c. */
  ghost predicate Separated(a: seq<real>, b: seq<real>, c: real)
  {
    forall p, q :: 0 <= p < |a| && 0 <= q < |b| ==> Abs(a[p] - b[q]) >= c
  }

  /** k copies of c added up, that is k * c (TimesIsProduct); repeated addition keeps the bounds below linear. */
  function Times(k: nat, c: real): real
  {
    if k == 0 then 0.0 else Times(k - 1, c) + c
  }

  lemma {:induction false} TimesIsProduct(k: nat, c: real)
    ensures Times(k, c) == k as real * c
  {
    if k > 0 {
      TimesIsProduct(k - 1, c);
      assert k as real * c == (k - 1) as real * c + c;
    }
  }

  lemma {:induction false} DLowerBound(a: seq<real>, b: seq<real>, c: real, i: nat, j: nat)
    requires i < |a| && j < |b|
    requires c >= 0.0 && Separated(a, b, c)
    ensures D(a, b, i, j) >= Times(i + 1, c)
    decreases i + j
  {
    var here := Cost(a, b, i, j);
    assert here >= c;
    if i == 0 && j == 0 {
    } else if i == 0 {
      DLowerBound(a, b, c, 0, j - 1);
    } else if j == 0 {
      DLowerBound(a, b, c, i - 1, 0);
    } else {
      DLowerBound(a, b, c, i - 1, j - 1);
      DLowerBound(a, b, c, i - 1, j);
      DLowerBound(a, b, c, i, j - 1);
    }
  }

  lemma SeparatedSymmetric(a: seq<real>, b: seq<real>, c: real)
    requires Separated(a, b, c)
    ensures Separated(b, a, c)
  {
    forall q, p | 0 <= q < |b| && 0 <= p < |a| ensures Abs(b[q] - a[p]) >= c {
      assert Abs(a[p] - b[q]) >= c;
    }
  }

  /** Every alignment visits each index of both signatures, so uniform separation by c costs at least c per index. */
  lemma DistanceLowerBound(a: seq<real>, b: seq<real>, c: real)
    requires |a| >= 1 && |b| >= 1
    requires c >= 0.0 && Separated(a, b, c)
    ensures Distance(a, b) >= Times(|a|, c) && Distance(a, b) >= Times(|b|, c)
  {
    DLowerBound(a, b, c, |a| - 1, |b| - 1);
    SeparatedSymmetric(a, b, c);
    DLowerBound(b, a, c, |b| - 1, |a| - 1);
    DSymmetric(a, b, |a| - 1, |b| - 1);
  }

  // ---------------------------------------------------------------------
  // Warping paths: the distance is the cheapest monotone, contiguous
  // alignment from (0, 0) to (n-1, m-1).

  /** One warping step: diagonal, vertical or horizontal. */
  predicate Step(p: (nat, nat), q: (nat, nat))
  {
    (q.0 == p.0 + 1 && q.1 == p.1 + 1) || (q.0 == p.0 + 1 && q.1 == p.1) || (q.0 == p.0 && q.1 == p.1 + 1)
  }

  predicate InBounds(a: seq<real>, b: seq<real>, path: seq<(nat, nat)>)
  {
    forall k :: 0 <= k < |path| ==> path[k].0 < |a| && path[k].1 < |b|
  }

  /** path aligns a with b from (0, 0) up to (i, j). */
  predicate IsWarpingPath(a: seq<real>, b: seq<real>, path: seq<(nat, nat)>, i: nat, j: nat)
  {
    |path| >= 1 && path[0] == (0, 0) && path[|path| - 1] == (i, j) && InBounds(a, b, path)
    && forall k :: 0 <= k < |path| - 1 ==> Step(path[k], path[k + 1])
  }

  function PathCost(a: seq<real>, b: seq<real>, path: seq<(nat, nat)>): real
    requires InBounds(a, b, path)
  {
    if |path| == 0 then 0.0
    else
      var last := path[|path| - 1];
      PathCost(a, b, path[..|path| - 1]) + Cost(a, b, last.0, last.1)
  }

  /** No warping path to (i, j) is cheaper than D[i][j]. */
  lemma {:induction false} DBelowEveryPath(a: seq<real>, b: seq<real>, path: seq<(nat, nat)>, i: nat, j: nat)
    requires IsWarpingPath(a, b, path, i, j)
    ensures i < |a| && j < |b| && D(a, b, i, j) <= PathCost(a, b, path)
    decreases |path|
  {
    assert path[|path| - 1].0 < |a| && path[|path| - 1].1 < |b|;
    if |path| > 1 {
      var prefix := path[..|path| - 1];
      var q := path[|path| - 2];
      assert prefix[|prefix| - 1] == q;
      assert IsWarpingPath(a, b, prefix, q.0, q.1) by {
        forall k | 0 <= k < |prefix| - 1 ensures Step(prefix[k], prefix[k + 1]) {
          assert prefix[k] == path[k] && prefix[k + 1] == path[k + 1];
        }
      }
      DBelowEveryPath(a, b, prefix, q.0, q.1);
      assert Step(q, (i, j));
    }
  }

  /** Appending one step to a warping path adds the cost of the new point. */
  lemma ExtendPath(a: seq<real>, b: seq<real>, prefix: seq<(nat, nat)>, q: (nat, nat), p: (nat, nat))
    requires IsWarpingPath(a, b, prefix, q.0, q.1) && Step(q, p) && p.0 < |a| && p.1 < |b|
    ensures IsWarpingPath(a, b, prefix + [p], p.0, p.1)
    ensures PathCost(a, b, prefix + [p]) == PathCost(a, b, prefix) + Cost(a, b, p.0, p.1)
  {
    var path := prefix + [p];
    assert path[..|path| - 1] == prefix;
    assert forall k :: 0 <= k < |prefix| ==> path[k] == prefix[k];
  }

  /** Some warping path to (i, j) costs exactly D[i][j]. */
  lemma {:induction false} OptimalPath(a: seq<real>, b: seq<real>, i: nat, j: nat) returns (path: seq<(nat, nat)>)
    requires i < |a| && j < |b|
    ensures IsWarpingPath(a, b, path, i, j) && PathCost(a, b, path) == D(a, b, i, j)
    decreases i + j
  {
    if i == 0 && j == 0 {
      path := [(0, 0)];
      assert path[..0] == [];
      return;
    }
    var q: (nat, nat);
    var here := Cost(a, b, i, j);
    if i == 0 {
      q := (0, j - 1);
    } else if j == 0 {
      q := (i - 1, 0);
    } else {
      var diag, up, left := D(a, b, i - 1, j - 1), D(a, b, i - 1, j), D(a, b, i, j - 1);
      assert D(a, b, i, j) == Min(Min(diag, up), left) + here;
      if diag <= up && diag <= left {
        q := (i - 1, j - 1);
      } else if up <= left {
        q := (i - 1, j);
      } else {
        q := (i, j - 1);
      }
    }
    assert D(a, b, i, j) == D(a, b, q.0, q.1) + here;
    var prefix := OptimalPath(a, b, q.0, q.1);
    ExtendPath(a, b, prefix, q, (i, j));
    path := prefix + [(i, j)];
  }

  /** The distance is the minimum cost over all warping paths from (0, 0) to (n-1, m-1). */
  lemma DistanceIsCheapestAlignment(a: seq<real>, b: seq<real>)
    requires |a| >= 1 && |b| >= 1
    ensures forall path :: IsWarpingPath(a, b, path, |a| - 1, |b| - 1) ==> Distance(a, b) <= PathCost(a, b, path)
    ensures exists path :: IsWarpingPath(a, b, path, |a| - 1, |b| - 1) && PathCost(a, b, path) == Distance(a, b)
  {
    forall path | IsWarpingPath(a, b, path, |a| - 1, |b| - 1)
      ensures Distance(a, b) <= PathCost(a, b, path)
    {
      DBelowEveryPath(a, b, path, |a| - 1, |b| - 1);
    }
    var best := OptimalPath(a, b, |a| - 1, |b| - 1);
  }
}
