/**
 The global step of ARAP, arap.js:155-228 (`updateVtxPosARAP`). The
 Calculated vertices are the unknowns, renumbered 0..m-1 in increasing id
 order. Their right-hand side b_i sums (Ri + Rj)(p_i - p_j) w_ij / 2 over the
 neighbours j; the Laplacian rows of the unknowns are split into the m x m
 system matrix (columns of Calculated vertices, as triplets) and a term moved
 to b (columns of the Fixed and Draggable vertices, at their current
 positions). Each coordinate is solved for separately and written back.
 The sparse Cholesky solve is a parameter of the model.
 */
module ArapSolve {
  import opened Mesh
  import opened Topology
  import opened Weights
  import opened Sums
  import opened Laplacian
  import opened Linalg
  import opened Rotation

  /** Lines 156-158: the ids of the Calculated vertices, in increasing order. */
  function CalculatedIds(types: seq<VertexType>): (ids: seq<nat>)
    ensures forall a, b :: 0 <= a < b < |ids| ==> ids[a] < ids[b]
    ensures forall k :: 0 <= k < |ids| ==> ids[k] < |types| && types[ids[k]] == Calculated
    ensures forall v :: 0 <= v < |types| && types[v] == Calculated ==> v in ids
  {
    if types == [] then []
    else
      var pre := CalculatedIds(types[..|types| - 1]);
      if types[|types| - 1] == Calculated then pre + [|types| - 1] else pre
  }

  /** `oriToNew` and `newToOri` are inverse renumberings: every listed vertex
      maps to its place in the list, every other vertex to -1. */
  ghost predicate Inverse(toNew: seq<int>, toOri: seq<nat>)
  {
    (forall k :: 0 <= k < |toOri| ==> toOri[k] < |toNew| && toNew[toOri[k]] == k) &&
    (forall v :: 0 <= v < |toNew| && toNew[v] != -1 ==> 0 <= toNew[v] < |toOri| && toOri[toNew[v]] == v)
  }

  /** A vertex is mapped to -1 exactly when it is not an unknown. */
  lemma InverseUnlisted(toNew: seq<int>, toOri: seq<nat>, v: nat)
    requires Inverse(toNew, toOri) && v < |toNew|
    ensures toNew[v] == -1 <==> v !in toOri
  {
    if v in toOri {
      var k :| 0 <= k < |toOri| && toOri[k] == v;
      assert toNew[v] == k;
    }
  }

  /** Lines 160-162: `oriToNew`, filled with -1 and then set from `newToOri`. */
  method IndexMap(toOri: seq<nat>, len: nat) returns (toNew: array<int>)
    requires NoDup(toOri) && forall k :: 0 <= k < |toOri| ==> toOri[k] < len
    ensures fresh(toNew) && toNew.Length == len && Inverse(toNew[..], toOri)
  {
    toNew := new int[len](_ => -1);
    var k := 0;
    while k < |toOri|
      invariant 0 <= k <= |toOri|
      invariant forall a :: 0 <= a < k ==> toNew[toOri[a]] == a
      invariant forall v :: 0 <= v < len && toNew[v] != -1 ==> 0 <= toNew[v] < k && toOri[toNew[v]] == v
    {
      toNew[toOri[k]] := k;
      k := k + 1;
    }
  }

  /** R[j] for a vertex id j (the identity past the end, which the callers rule out). */
  function RotationAt(R: seq<Mat3>, j: nat): Mat3
  {
    if j < |R| then R[j] else Identity
  }

  /** Component c of what neighbour j adds to b_i (lines 174-180):
      (Ri + Rj) applied to (p_i - p_j) scaled by w_ij / 2. */
  function RhsTerm(p: seq<real>, R: seq<Mat3>, w: WeightTable, i: nat, c: nat): nat -> real
  {
    (j: nat) => Component(Apply(Add(RotationAt(R, i), RotationAt(R, j)),
                                Scale(Sub(Position(p, i), Position(p, j)), 0.5 * Weight(w, i, j))), c)
  }

  /** b_i for the neighbours of i walked in `order`. */
  function RhsOf(p: seq<real>, R: seq<Mat3>, w: WeightTable, i: nat, order: seq<nat>): Vec3
  {
    Vec3(SumSeq(order, RhsTerm(p, R, w, i, 0)), SumSeq(order, RhsTerm(p, R, w, i, 1)),
         SumSeq(order, RhsTerm(p, R, w, i, 2)))
  }

  /** Lines 169-186 for one unknown: walks the neighbour Set of i and sums the terms. */
  method VertexRhs(p: seq<real>, R: seq<Mat3>, w: WeightTable, i: nat, nbrs: set<nat>)
    returns (bi: Vec3, ghost order: seq<nat>)
    requires |p| == 3 * |R| && i < |R| && forall j :: j in nbrs ==> j < |R| && (i, j) in w
    ensures Enumerates(order, nbrs) && bi == RhsOf(p, R, w, i, order)
    ensures bi == Vec3(SumSet(nbrs, RhsTerm(p, R, w, i, 0)), SumSet(nbrs, RhsTerm(p, R, w, i, 1)),
                       SumSet(nbrs, RhsTerm(p, R, w, i, 2)))
  {
    var bix, biy, biz := 0.0, 0.0, 0.0;
    order := [];
    var rest := nbrs;
    while rest != {}
      invariant Walked(order, nbrs, rest) && Vec3(bix, biy, biz) == RhsOf(p, R, w, i, order)
      decreases rest
    {
      var j :| j in rest;
      var rij := Add(R[i], R[j]);
      var wij := w[(i, j)];
      var bij := Apply(rij, Scale(Sub(Position(p, i), Position(p, j)), 0.5 * wij));
      RhsStep(p, R, w, i, order, j, bij);
      WalkStep(order, nbrs, rest, j);
      bix, biy, biz := bix + bij.x, biy + bij.y, biz + bij.z;
      order := order + [j];
      rest := rest - {j};
    }
    WalkDone(order, nbrs);
    bi := Vec3(bix, biy, biz);
    SumSeqOfEnumeration(order, nbrs, RhsTerm(p, R, w, i, 0));
    SumSeqOfEnumeration(order, nbrs, RhsTerm(p, R, w, i, 1));
    SumSeqOfEnumeration(order, nbrs, RhsTerm(p, R, w, i, 2));
  }

  /** Visiting neighbour j adds its term to b_i. */
  lemma RhsStep(p: seq<real>, R: seq<Mat3>, w: WeightTable, i: nat, order: seq<nat>, j: nat, bij: Vec3)
    requires bij == Apply(Add(RotationAt(R, i), RotationAt(R, j)),
                          Scale(Sub(Position(p, i), Position(p, j)), 0.5 * Weight(w, i, j)))
    ensures RhsOf(p, R, w, i, order + [j])
         == Vec3(RhsOf(p, R, w, i, order).x + bij.x, RhsOf(p, R, w, i, order).y + bij.y, RhsOf(p, R, w, i, order).z + bij.z)
  {
    SumSeqAppend(order, j, RhsTerm(p, R, w, i, 0));
    SumSeqAppend(order, j, RhsTerm(p, R, w, i, 1));
    SumSeqAppend(order, j, RhsTerm(p, R, w, i, 2));
  }

  /** b[k] is b_i of the k-th unknown i, for the walk order[k] of its neighbours. */
  ghost predicate RhsBuilt(p: seq<real>, R: seq<Mat3>, w: WeightTable, nt: NeighborTable, ids: seq<nat>,
                           b: seq<Vec3>, order: seq<seq<nat>>)
  {
    |b| == |order| <= |ids| &&
    forall k :: 0 <= k < |b| ==> ids[k] in nt && Enumerates(order[k], nt[ids[k]]) && b[k] == RhsOf(p, R, w, ids[k], order[k])
  }

  lemma RhsBuiltStep(p: seq<real>, R: seq<Mat3>, w: WeightTable, nt: NeighborTable, ids: seq<nat>,
                     b: seq<Vec3>, order: seq<seq<nat>>, bi: Vec3, ord: seq<nat>)
    requires RhsBuilt(p, R, w, nt, ids, b, order) && |b| < |ids|
    requires ids[|b|] in nt && Enumerates(ord, nt[ids[|b|]]) && bi == RhsOf(p, R, w, ids[|b|], ord)
    ensures RhsBuilt(p, R, w, nt, ids, b + [bi], order + [ord])
  {
    forall k | 0 <= k < |b| + 1
      ensures ids[k] in nt && Enumerates((order + [ord])[k], nt[ids[k]])
      ensures (b + [bi])[k] == RhsOf(p, R, w, ids[k], (order + [ord])[k])
    {
      if k < |b| {
        assert (b + [bi])[k] == b[k] && (order + [ord])[k] == order[k];
      }
    }
  }

  /** Lines 164-187: b, one row per unknown. */
  method RotationRhs(p: seq<real>, R: seq<Mat3>, w: WeightTable, nt: NeighborTable, ids: seq<nat>)
    returns (b: seq<Vec3>, ghost order: seq<seq<nat>>)
    requires |p| == 3 * |R|
    requires forall k :: 0 <= k < |ids| ==> ids[k] < |R| && ids[k] in nt
    requires forall k, j :: 0 <= k < |ids| && ids[k] in nt && j in nt[ids[k]] ==> j < |R| && (ids[k], j) in w
    ensures |b| == |ids| && RhsBuilt(p, R, w, nt, ids, b, order)
  {
    b, order := [], [];
    var k := 0;
    while k < |ids|
      invariant 0 <= k <= |ids| && |b| == k && RhsBuilt(p, R, w, nt, ids, b, order)
    {
      var bi, ord := VertexRhs(p, R, w, ids[k], nt[ids[k]]);
      RhsBuiltStep(p, R, w, nt, ids, b, order, bi, ord);
      b, order := b + [bi], order + [ord];
      k := k + 1;
    }
  }

  /** With every rotation the identity, b_i is row i of the Laplacian times
      the rest positions: b_i = sum over j of w_ij (p_i - p_j).
      `RestShapeSolves` builds on this: with the vertices that are not
      unknowns at their rest positions, the rest shape solves the system. */
  lemma RhsAtIdentity(p: seq<real>, R: seq<Mat3>, w: WeightTable, i: nat, order: seq<nat>, c: nat)
    requires c < 3 && RotationAt(R, i) == Identity
    requires forall k :: 0 <= k < |order| ==> RotationAt(R, order[k]) == Identity
    ensures Component(RhsOf(p, R, w, i, order), c) == RowTimes(LaplacianRow(w, i, order), p, c)
  {
    calc {
      Component(RhsOf(p, R, w, i, order), c);
      { ComponentRhs(p, R, w, i, order, c); }
      SumSeq(order, RhsTerm(p, R, w, i, c));
      { UnrotatedTerms(p, R, w, i, order, c); }
      SumSeq(order, RhsTerm(p, [], w, i, c));
      { IdentitySum(p, w, i, order, c); }
      SumSeq(order, RowWeight(w, i)) * Coord(p, i, c) - SumSeq(order, WeightedCoord(w, i, p, c));
      { OffDiagonalTimes(w, i, order, p, c); }
      RowTimes(OffDiagonal(w, i, order), p, c) + SumSeq(order, RowWeight(w, i)) * Coord(p, i, c);
      { RowTimesAppend(OffDiagonal(w, i, order), i, SumSeq(order, RowWeight(w, i)), p, c); }
      RowTimes(LaplacianRow(w, i, order), p, c);
    }
  }

  /** Row i of the Laplacian times x does not depend on the order in which
      the neighbour Set was walked when the row was built. */
  lemma RowTimesOrderFree(w: WeightTable, i: nat, order1: seq<nat>, order2: seq<nat>, nbrs: set<nat>,
                          x: seq<real>, c: nat)
    requires Enumerates(order1, nbrs) && Enumerates(order2, nbrs)
    ensures RowTimes(LaplacianRow(w, i, order1), x, c) == RowTimes(LaplacianRow(w, i, order2), x, c)
  {
    RowTimesAppend(OffDiagonal(w, i, order1), i, SumSeq(order1, RowWeight(w, i)), x, c);
    RowTimesAppend(OffDiagonal(w, i, order2), i, SumSeq(order2, RowWeight(w, i)), x, c);
    OffDiagonalTimes(w, i, order1, x, c);
    OffDiagonalTimes(w, i, order2, x, c);
    SumSeqOfEnumeration(order1, nbrs, RowWeight(w, i));
    SumSeqOfEnumeration(order2, nbrs, RowWeight(w, i));
    SumSeqOfEnumeration(order1, nbrs, WeightedCoord(w, i, x, c));
    SumSeqOfEnumeration(order2, nbrs, WeightedCoord(w, i, x, c));
  }

  /** Identity rotations at i and along `order` give the same terms as no
      rotations at all (an empty R, which reads as the identity everywhere). */
  lemma UnrotatedTerms(p: seq<real>, R: seq<Mat3>, w: WeightTable, i: nat, order: seq<nat>, c: nat)
    requires RotationAt(R, i) == Identity
    requires forall k :: 0 <= k < |order| ==> RotationAt(R, order[k]) == Identity
    ensures SumSeq(order, RhsTerm(p, R, w, i, c)) == SumSeq(order, RhsTerm(p, [], w, i, c))
  {
    forall k | 0 <= k < |order|
      ensures RhsTerm(p, R, w, i, c)(order[k]) == RhsTerm(p, [], w, i, c)(order[k])
    {
      assert RotationAt(R, order[k]) == RotationAt([], order[k]);
    }
    SumSeqCongruence(order, RhsTerm(p, R, w, i, c), RhsTerm(p, [], w, i, c));
  }

  lemma RowTimesAppend(row: seq<(nat, real)>, j: nat, v: real, x: seq<real>, c: nat)
    ensures RowTimes(row + [(j, v)], x, c) == RowTimes(row, x, c) + EntryTimes(j, v, x, c)
  {
    assert (row + [(j, v)])[..|row|] == row;
  }

  lemma ComponentRhs(p: seq<real>, R: seq<Mat3>, w: WeightTable, i: nat, order: seq<nat>, c: nat)
    requires c < 3
    ensures Component(RhsOf(p, R, w, i, order), c) == SumSeq(order, RhsTerm(p, R, w, i, c))
  {
  }

  /** w_ij times coordinate c of vertex j in x. */
  function WeightedCoord(w: WeightTable, i: nat, x: seq<real>, c: nat): nat -> real
  {
    (j: nat) => Weight(w, i, j) * Coord(x, j, c)
  }

  /** Row times positions for the off-diagonal part alone. */
  lemma {:induction false} OffDiagonalTimes(w: WeightTable, i: nat, order: seq<nat>, x: seq<real>, c: nat)
    ensures RowTimes(OffDiagonal(w, i, order), x, c) == -SumSeq(order, WeightedCoord(w, i, x, c))
    decreases |order|
  {
    if order != [] {
      OffDiagonalTimes(w, i, order[..|order| - 1], x, c);
      RowTimesAppend(OffDiagonal(w, i, order[..|order| - 1]), order[|order| - 1], -Weight(w, i, order[|order| - 1]), x, c);
      NegatedEntry(order[|order| - 1], Weight(w, i, order[|order| - 1]), x, c);
    }
  }

  lemma NegatedEntry(j: nat, v: real, x: seq<real>, c: nat)
    ensures EntryTimes(j, -v, x, c) == -(v * Coord(x, j, c))
  {
  }

  /** The identity plus itself doubles a vector. */
  lemma DoubleIdentity(v: Vec3, c: nat)
    requires c < 3
    ensures Component(Apply(Add(Identity, Identity), v), c) == 2.0 * Component(v, c)
  {
  }

  /** Component c of (p_i - p_j) s. */
  lemma ScaledDifference(p: seq<real>, i: nat, j: nat, s: real, c: nat)
    requires c < 3
    ensures Component(Scale(Sub(Position(p, i), Position(p, j)), s), c) == (Coord(p, i, c) - Coord(p, j, c)) * s
  {
  }

  lemma HalfWeight(a: real, b: real, w: real)
    ensures 2.0 * ((a - b) * (0.5 * w)) == w * a - w * b
  {
  }

  lemma UnrotatedTermUnfold(p: seq<real>, w: WeightTable, i: nat, j: nat, c: nat)
    ensures RhsTerm(p, [], w, i, c)(j)
         == Component(Apply(Add(Identity, Identity), Scale(Sub(Position(p, i), Position(p, j)), 0.5 * Weight(w, i, j))), c)
  {
    assert RotationAt([], i) == Identity && RotationAt([], j) == Identity;
  }

  /** Without rotations a neighbour's term is twice its scaled edge. */
  lemma IdentityTermDoubled(p: seq<real>, w: WeightTable, i: nat, j: nat, c: nat)
    requires c < 3
    ensures RhsTerm(p, [], w, i, c)(j) == 2.0 * ((Coord(p, i, c) - Coord(p, j, c)) * (0.5 * Weight(w, i, j)))
  {
    UnrotatedTermUnfold(p, w, i, j, c);
    DoubleIdentity(Scale(Sub(Position(p, i), Position(p, j)), 0.5 * Weight(w, i, j)), c);
    ScaledDifference(p, i, j, 0.5 * Weight(w, i, j), c);
  }

  /** w_ij times coordinate c of vertex i itself in x. */
  function DiagonalCoord(w: WeightTable, i: nat, x: seq<real>, c: nat): nat -> real
  {
    (j: nat) => Weight(w, i, j) * Coord(x, i, c)
  }

  /** Without rotations a neighbour's term is w_ij (p_i - p_j). */
  lemma IdentityTerm(p: seq<real>, w: WeightTable, i: nat, j: nat, c: nat)
    requires c < 3
    ensures RhsTerm(p, [], w, i, c)(j) == DiagonalCoord(w, i, p, c)(j) - WeightedCoord(w, i, p, c)(j)
  {
    calc {
      RhsTerm(p, [], w, i, c)(j);
      { IdentityTermDoubled(p, w, i, j, c); }
      2.0 * ((Coord(p, i, c) - Coord(p, j, c)) * (0.5 * Weight(w, i, j)));
      { HalfWeight(Coord(p, i, c), Coord(p, j, c), Weight(w, i, j)); }
      Weight(w, i, j) * Coord(p, i, c) - Weight(w, i, j) * Coord(p, j, c);
      DiagonalCoord(w, i, p, c)(j) - WeightedCoord(w, i, p, c)(j);
    }
  }

  /** Without rotations b_i is the weight sum times p_i less the weighted neighbours. */
  lemma IdentitySum(p: seq<real>, w: WeightTable, i: nat, order: seq<nat>, c: nat)
    requires c < 3
    ensures SumSeq(order, RhsTerm(p, [], w, i, c))
         == SumSeq(order, RowWeight(w, i)) * Coord(p, i, c) - SumSeq(order, WeightedCoord(w, i, p, c))
  {
    UnrotatedSum(p, w, i, order, c);
    DiagonalSum(w, i, order, p, c);
  }

  lemma UnrotatedSum(p: seq<real>, w: WeightTable, i: nat, order: seq<nat>, c: nat)
    requires c < 3
    ensures SumSeq(order, RhsTerm(p, [], w, i, c))
         == SumSeq(order, DiagonalCoord(w, i, p, c)) - SumSeq(order, WeightedCoord(w, i, p, c))
  {
    forall j: nat
      ensures RhsTerm(p, [], w, i, c)(j) == DiagonalCoord(w, i, p, c)(j) - WeightedCoord(w, i, p, c)(j)
    {
      IdentityTerm(p, w, i, j, c);
    }
    SumSeqDifference(order, RhsTerm(p, [], w, i, c), DiagonalCoord(w, i, p, c), WeightedCoord(w, i, p, c));
  }

  /** The diagonal part sums to the weight sum times x_i. */
  lemma DiagonalSum(w: WeightTable, i: nat, order: seq<nat>, x: seq<real>, c: nat)
    ensures SumSeq(order, DiagonalCoord(w, i, x, c)) == SumSeq(order, RowWeight(w, i)) * Coord(x, i, c)
  {
    forall j: nat
      ensures DiagonalCoord(w, i, x, c)(j) == RowWeight(w, i)(j) * Coord(x, i, c)
    {
      ProductEqual(RowWeight(w, i)(j), Weight(w, i, j), Coord(x, i, c), Coord(x, i, c));
    }
    SumSeqScale(order, DiagonalCoord(w, i, x, c), RowWeight(w, i), Coord(x, i, c));
  }

  /** Whatever order the neighbour Set yields, b_i is the same. */
  lemma RhsOrderFree(p: seq<real>, R: seq<Mat3>, w: WeightTable, i: nat,
                     order1: seq<nat>, order2: seq<nat>, nbrs: set<nat>)
    requires Enumerates(order1, nbrs) && Enumerates(order2, nbrs)
    ensures RhsOf(p, R, w, i, order1) == RhsOf(p, R, w, i, order2)
  {
    SumSeqOfEnumeration(order1, nbrs, RhsTerm(p, R, w, i, 0));
    SumSeqOfEnumeration(order2, nbrs, RhsTerm(p, R, w, i, 0));
    SumSeqOfEnumeration(order1, nbrs, RhsTerm(p, R, w, i, 1));
    SumSeqOfEnumeration(order2, nbrs, RhsTerm(p, R, w, i, 1));
    SumSeqOfEnumeration(order1, nbrs, RhsTerm(p, R, w, i, 2));
    SumSeqOfEnumeration(order2, nbrs, RhsTerm(p, R, w, i, 2));
  }

  /** `triplet.addEntry(value, row, col)`. */
  datatype Triplet = Triplet(value: real, row: nat, col: int)

  /** Every column of the sparse row is a vertex id below n. */
  ghost predicate ColumnsBelow(row: seq<(nat, real)>, n: nat)
  {
    forall k :: 0 <= k < |row| ==> row[k].0 < n
  }

  /** Every unknown has a row in L, with columns below n. */
  ghost predicate RowsFit(L: seq<seq<(nat, real)>>, ids: seq<nat>, n: nat)
  {
    forall k :: 0 <= k < |ids| ==> ids[k] < |L| && ColumnsBelow(L[ids[k]], n)
  }

  /** Row i of a sparse matrix times component c of the positions x. */
  function RowTimes(row: seq<(nat, real)>, x: seq<real>, c: nat): real
  {
    if row == [] then 0.0 else RowTimes(row[..|row| - 1], x, c) + EntryTimes(row[|row| - 1].0, row[|row| - 1].1, x, c)
  }

  /** The entry L_ij times coordinate c of x_j. */
  function EntryTimes(j: nat, lij: real, x: seq<real>, c: nat): real
  {
    lij * Coord(x, j, c)
  }

  /** The triplet entry (j, L_ij) of row newI adds (lines 195-197): one at
      column toNew[j] when j is Calculated, none otherwise. */
  function EntryTriplets(j: nat, lij: real, newI: nat, toNew: seq<int>): seq<Triplet>
    requires j < |toNew|
  {
    if toNew[j] != -1 then [Triplet(lij, newI, toNew[j])] else []
  }

  /** What entry (j, L_ij) takes off component c of b (lines 198-202): L_ij
      times the current position of j when j is not an unknown. */
  function EntryPinned(j: nat, lij: real, toNew: seq<int>, pp: seq<real>, c: nat): real
    requires j < |toNew|
  {
    if toNew[j] == -1 then lij * Coord(pp, j, c) else 0.0
  }

  /** The triplets row newI of the system gets, entry by entry. */
  function RowTriplets(row: seq<(nat, real)>, newI: nat, toNew: seq<int>): seq<Triplet>
    requires ColumnsBelow(row, |toNew|)
  {
    if row == [] then []
    else RowTriplets(row[..|row| - 1], newI, toNew) + EntryTriplets(row[|row| - 1].0, row[|row| - 1].1, newI, toNew)
  }

  /** What row i takes off component c of b, entry by entry. */
  function PinnedSum(row: seq<(nat, real)>, toNew: seq<int>, pp: seq<real>, c: nat): real
    requires ColumnsBelow(row, |toNew|)
  {
    if row == [] then 0.0
    else PinnedSum(row[..|row| - 1], toNew, pp, c) + EntryPinned(row[|row| - 1].0, row[|row| - 1].1, toNew, pp, c)
  }

  /** b_i with the pinned part of row i moved across. */
  function Reduced(bi: Vec3, row: seq<(nat, real)>, toNew: seq<int>, pp: seq<real>): Vec3
    requires ColumnsBelow(row, |toNew|)
  {
    Vec3(bi.x - PinnedSum(row, toNew, pp, 0), bi.y - PinnedSum(row, toNew, pp, 1), bi.z - PinnedSum(row, toNew, pp, 2))
  }

  /** The triplets of the whole system, row after row. */
  function SystemTriplets(L: seq<seq<(nat, real)>>, ids: seq<nat>, toNew: seq<int>): seq<Triplet>
    requires RowsFit(L, ids, |toNew|)
  {
    if ids == [] then []
    else SystemTriplets(L, ids[..|ids| - 1], toNew) + RowTriplets(L[ids[|ids| - 1]], |ids| - 1, toNew)
  }

  /** Lines 193-204 for one unknown: walks row i of L, sending each entry to
      the triplets or, for a pinned column, into b. */
  method EliminateRow(row: seq<(nat, real)>, newI: nat, toNew: seq<int>, pp: seq<real>, bi: Vec3)
    returns (ts: seq<Triplet>, r: Vec3)
    requires ColumnsBelow(row, |toNew|)
    requires |pp| % 3 == 0 && ColumnsBelow(row, |pp| / 3)
    ensures ts == RowTriplets(row, newI, toNew) && r == Reduced(bi, row, toNew, pp)
  {
    ts, r := [], bi;
    var k := 0;
    while k < |row|
      invariant 0 <= k <= |row|
      invariant ts == RowTriplets(row[..k], newI, toNew) && r == Reduced(bi, row[..k], toNew, pp)
    {
      var j, lij := row[k].0, row[k].1;
      assert row[..k + 1][..k] == row[..k];
      var newJ := toNew[j];
      if newJ != -1 {
        ts := ts + [Triplet(lij, newI, newJ)];
      } else {
        r := Vec3(r.x - lij * Coord(pp, j, 0), r.y - lij * Coord(pp, j, 1), r.z - lij * Coord(pp, j, 2));
      }
      k := k + 1;
    }
    assert row[..|row|] == row;
  }

  /** Lines 189-205: the system's triplets and b with the pinned parts moved across. */
  method Eliminate(L: seq<seq<(nat, real)>>, ids: seq<nat>, toNew: seq<int>, pp: seq<real>, b: seq<Vec3>)
    returns (ts: seq<Triplet>, rhs: seq<Vec3>)
    requires |b| == |ids| && RowsFit(L, ids, |toNew|)
    requires |pp| % 3 == 0 && RowsFit(L, ids, |pp| / 3)
    ensures ts == SystemTriplets(L, ids, toNew)
    ensures |rhs| == |b| && forall k :: 0 <= k < |b| ==> rhs[k] == Reduced(b[k], L[ids[k]], toNew, pp)
  {
    ts, rhs := [], b;
    var k := 0;
    while k < |ids|
      invariant 0 <= k <= |ids| && |rhs| == |b|
      invariant ts == SystemTriplets(L, ids[..k], toNew)
      invariant forall a :: 0 <= a < k ==> rhs[a] == Reduced(b[a], L[ids[a]], toNew, pp)
      invariant forall a :: k <= a < |b| ==> rhs[a] == b[a]
    {
      assert ids[..k + 1][..k] == ids[..k];
      var rowTs, r := EliminateRow(L[ids[k]], k, toNew, pp, rhs[k]);
      ts := ts + rowTs;
      rhs := rhs[k := r];
      k := k + 1;
    }
    assert ids[..|ids|] == ids;
  }

  /** Row r of the sparse matrix the triplets assemble (repeated entries add
      up), times x. */
  function TripletsRowTimes(ts: seq<Triplet>, r: nat, x: seq<real>): real
  {
    if ts == [] then 0.0
    else
      TripletsRowTimes(ts[..|ts| - 1], r, x) + TripletTimes(ts[|ts| - 1], r, x)
  }

  /** What one triplet adds to row r of the assembled matrix times x. */
  function TripletTimes(t: Triplet, r: nat, x: seq<real>): real
  {
    if t.row == r && 0 <= t.col < |x| then t.value * x[t.col] else 0.0
  }

  lemma {:induction false} TripletsAppend(a: seq<Triplet>, b: seq<Triplet>, r: nat, x: seq<real>)
    ensures TripletsRowTimes(a + b, r, x) == TripletsRowTimes(a, r, x) + TripletsRowTimes(b, r, x)
    decreases |b|
  {
    if b != [] {
      var pre := b[..|b| - 1];
      TripletsAppend(a, pre, r, x);
      assert (a + b)[..|a + b| - 1] == a + pre;
      assert (a + b)[|a + b| - 1] == b[|b| - 1];
    } else {
      assert a + b == a;
    }
  }

  /** Row newI's triplets lie in row newI of the system and nowhere else. */
  lemma {:induction false} RowTripletsOtherRow(row: seq<(nat, real)>, newI: nat, toNew: seq<int>, r: nat, x: seq<real>)
    requires ColumnsBelow(row, |toNew|) && r != newI
    ensures TripletsRowTimes(RowTriplets(row, newI, toNew), r, x) == 0.0
    decreases |row|
  {
    if row != [] {
      var pre := row[..|row| - 1];
      RowTripletsOtherRow(pre, newI, toNew, r, x);
      TripletsAppend(RowTriplets(pre, newI, toNew), EntryTriplets(row[|row| - 1].0, row[|row| - 1].1, newI, toNew), r, x);
    }
  }

  /** Lines 198-201: row newI's triplets are exactly its entries at
      Calculated columns, each renumbered: every triplet comes from an entry
      (j, L_ij) with j Calculated and sits at (newI, oriToNew[j]), and every
      such entry yields one. */
  lemma {:induction false} RowTripletsEntries(row: seq<(nat, real)>, newI: nat, toNew: seq<int>, toOri: seq<nat>)
    requires Inverse(toNew, toOri) && ColumnsBelow(row, |toNew|)
    ensures forall t :: t in RowTriplets(row, newI, toNew) ==>
      t.row == newI && 0 <= t.col < |toOri| && (toOri[t.col], t.value) in row
    ensures forall k :: 0 <= k < |row| && toNew[row[k].0] != -1 ==>
      Triplet(row[k].1, newI, toNew[row[k].0]) in RowTriplets(row, newI, toNew)
    decreases |row|
  {
    if row != [] {
      var pre := row[..|row| - 1];
      var last := row[|row| - 1];
      RowTripletsEntries(pre, newI, toNew, toOri);
      var ts := RowTriplets(row, newI, toNew);
      assert ts == RowTriplets(pre, newI, toNew) + EntryTriplets(last.0, last.1, newI, toNew);
      forall t | t in ts
        ensures t.row == newI && 0 <= t.col < |toOri| && (toOri[t.col], t.value) in row
      {
        if t in RowTriplets(pre, newI, toNew) {
          var k :| 0 <= k < |pre| && pre[k] == (toOri[t.col], t.value);
          assert row[k] == pre[k];
        } else {
          assert t == Triplet(last.1, newI, toNew[last.0]);
        }
      }
      forall k | 0 <= k < |row| && toNew[row[k].0] != -1
        ensures Triplet(row[k].1, newI, toNew[row[k].0]) in ts
      {
        if k < |row| - 1 {
          assert row[k] == pre[k];
        }
      }
    }
  }

  /** Row r of the assembled system is row r of its r-th unknown's triplets. */
  lemma {:induction false} SystemRow(L: seq<seq<(nat, real)>>, ids: seq<nat>, toNew: seq<int>, r: nat, x: seq<real>)
    requires RowsFit(L, ids, |toNew|)
    ensures TripletsRowTimes(SystemTriplets(L, ids, toNew), r, x)
         == if r < |ids| then TripletsRowTimes(RowTriplets(L[ids[r]], r, toNew), r, x) else 0.0
    decreases |ids|
  {
    if ids != [] {
      var pre, last := ids[..|ids| - 1], |ids| - 1;
      SystemRow(L, pre, toNew, r, x);
      TripletsAppend(SystemTriplets(L, pre, toNew), RowTriplets(L[ids[last]], last, toNew), r, x);
      if r != last {
        RowTripletsOtherRow(L[ids[last]], last, toNew, r, x);
      }
    }
  }

  /** Component c of the unknowns' positions, in the new numbering. */
  function Unknowns(x: seq<real>, toOri: seq<nat>, c: nat): (u: seq<real>)
    ensures |u| == |toOri| && forall k :: 0 <= k < |toOri| ==> u[k] == Coord(x, toOri[k], c)
  {
    seq(|toOri|, k requires 0 <= k < |toOri| => Coord(x, toOri[k], c))
  }

  /** The elimination loses nothing: row i of L times any positions x is the
      system row times the unknowns' coordinates plus the pinned part. */
  lemma {:induction false} EliminationSplit(row: seq<(nat, real)>, newI: nat, toNew: seq<int>, toOri: seq<nat>,
                                            x: seq<real>, c: nat)
    requires Inverse(toNew, toOri) && ColumnsBelow(row, |toNew|)
    ensures RowTimes(row, x, c)
         == TripletsRowTimes(RowTriplets(row, newI, toNew), newI, Unknowns(x, toOri, c)) + PinnedSum(row, toNew, x, c)
    decreases |row|
  {
    if row != [] {
      EliminationSplit(row[..|row| - 1], newI, toNew, toOri, x, c);
      EliminationStep(row, newI, toNew, toOri, x, c);
    }
  }

  /** The split of a row follows from the split of the row without its last entry. */
  lemma EliminationStep(row: seq<(nat, real)>, newI: nat, toNew: seq<int>, toOri: seq<nat>, x: seq<real>, c: nat)
    requires Inverse(toNew, toOri) && ColumnsBelow(row, |toNew|) && row != []
    requires RowTimes(row[..|row| - 1], x, c)
          == TripletsRowTimes(RowTriplets(row[..|row| - 1], newI, toNew), newI, Unknowns(x, toOri, c))
           + PinnedSum(row[..|row| - 1], toNew, x, c)
    ensures RowTimes(row, x, c)
         == TripletsRowTimes(RowTriplets(row, newI, toNew), newI, Unknowns(x, toOri, c)) + PinnedSum(row, toNew, x, c)
  {
    calc {
      RowTimes(row, x, c);
      RowTimes(row[..|row| - 1], x, c) + EntryTimes(row[|row| - 1].0, row[|row| - 1].1, x, c);
      { EntrySplit(row[|row| - 1].0, row[|row| - 1].1, newI, toNew, toOri, x, c); }
      (TripletsRowTimes(RowTriplets(row[..|row| - 1], newI, toNew), newI, Unknowns(x, toOri, c))
         + PinnedSum(row[..|row| - 1], toNew, x, c))
        + (TripletsRowTimes(EntryTriplets(row[|row| - 1].0, row[|row| - 1].1, newI, toNew), newI, Unknowns(x, toOri, c))
           + EntryPinned(row[|row| - 1].0, row[|row| - 1].1, toNew, x, c));
      { TripletsAppend(RowTriplets(row[..|row| - 1], newI, toNew),
                       EntryTriplets(row[|row| - 1].0, row[|row| - 1].1, newI, toNew), newI, Unknowns(x, toOri, c)); }
      TripletsRowTimes(RowTriplets(row, newI, toNew), newI, Unknowns(x, toOri, c)) + PinnedSum(row, toNew, x, c);
    }
  }

  /** One entry of the row, split the same way. */
  lemma EntrySplit(j: nat, lij: real, newI: nat, toNew: seq<int>, toOri: seq<nat>, x: seq<real>, c: nat)
    requires Inverse(toNew, toOri) && j < |toNew|
    ensures EntryTimes(j, lij, x, c)
         == TripletsRowTimes(EntryTriplets(j, lij, newI, toNew), newI, Unknowns(x, toOri, c))
          + EntryPinned(j, lij, toNew, x, c)
  {
    if toNew[j] != -1 {
      assert [Triplet(lij, newI, toNew[j])][..0] == [];
      ProductEqual(lij, lij, Unknowns(x, toOri, c)[toNew[j]], Coord(x, j, c));
    }
  }

  /** The pinned part reads only the positions of vertices that are not unknowns. */
  lemma {:induction false} PinnedSumFrame(row: seq<(nat, real)>, toNew: seq<int>, x0: seq<real>, x1: seq<real>, c: nat)
    requires ColumnsBelow(row, |toNew|)
    requires forall j :: 0 <= j < |toNew| && toNew[j] == -1 ==> Coord(x1, j, c) == Coord(x0, j, c)
    ensures PinnedSum(row, toNew, x1, c) == PinnedSum(row, toNew, x0, c)
    decreases |row|
  {
    if row != [] {
      PinnedSumFrame(row[..|row| - 1], toNew, x0, x1, c);
    }
  }

  /** x solves the assembled system for the right-hand side y. */
  ghost predicate Solves(ts: seq<Triplet>, x: seq<real>, y: seq<real>)
  {
    |x| == |y| && forall r :: 0 <= r < |y| ==> TripletsRowTimes(ts, r, x) == y[r]
  }

  /** Component c of every row of b, as `b.subMatrix(0, m, c, c + 1)`. */
  function ColumnOf(b: seq<Vec3>, c: nat): (col: seq<real>)
    ensures |col| == |b| && forall k :: 0 <= k < |b| ==> col[k] == Component(b[k], c)
  {
    seq(|b|, k requires 0 <= k < |b| => Component(b[k], c))
  }

  lemma ComponentReduced(bi: Vec3, row: seq<(nat, real)>, toNew: seq<int>, pp: seq<real>, c: nat)
    requires ColumnsBelow(row, |toNew|) && c < 3
    ensures Component(Reduced(bi, row, toNew, pp), c) == Component(bi, c) - PinnedSum(row, toNew, pp, c)
  {
  }

  /** The point of the global step: when the unknowns' new coordinates solve
      the reduced system and the other vertices stay where they were, row i
      of L times the new positions equals b_i at every unknown i. */
  lemma GlobalStep(L: seq<seq<(nat, real)>>, ids: seq<nat>, toNew: seq<int>, b: seq<Vec3>, rhs: seq<Vec3>,
                   x0: seq<real>, x1: seq<real>, c: nat)
    requires Inverse(toNew, ids) && RowsFit(L, ids, |toNew|) && |b| == |ids| && c < 3
    requires |rhs| == |b| && forall k :: 0 <= k < |b| ==> rhs[k] == Reduced(b[k], L[ids[k]], toNew, x0)
    requires forall j :: 0 <= j < |toNew| && toNew[j] == -1 ==> Coord(x1, j, c) == Coord(x0, j, c)
    requires Solves(SystemTriplets(L, ids, toNew), Unknowns(x1, ids, c), ColumnOf(rhs, c))
    ensures forall k :: 0 <= k < |ids| ==> RowTimes(L[ids[k]], x1, c) == Component(b[k], c)
  {
    var u := Unknowns(x1, ids, c);
    forall k | 0 <= k < |ids|
      ensures RowTimes(L[ids[k]], x1, c) == Component(b[k], c)
    {
      var row := L[ids[k]];
      SystemRow(L, ids, toNew, k, u);
      assert TripletsRowTimes(SystemTriplets(L, ids, toNew), k, u) == ColumnOf(rhs, c)[k];
      ComponentReduced(b[k], row, toNew, x0, c);
      EliminationSplit(row, k, toNew, ids, x1, c);
      PinnedSumFrame(row, toNew, x0, x1, c);
    }
  }


  /** The sparse Cholesky factorisation and solve of lines 212-218
      (`A.chol()`, `solvePositiveDefinite`): the system's triplets, its size
      m and one right-hand column give one solution column. */
  type Solver = (seq<Triplet>, nat, seq<real>) -> seq<real>

  /** The first k unknowns of s hold their solved coordinates; every entry
      outside them is as in s0. */
  ghost predicate WrittenUpTo(s: seq<real>, s0: seq<real>, ids: seq<nat>, px: seq<real>, py: seq<real>, pz: seq<real>,
                              k: nat)
    requires k <= |ids| && |px| == |ids| && |py| == |ids| && |pz| == |ids|
  {
    |s| == |s0| &&
    (forall a :: 0 <= a < k ==> Position(s, ids[a]) == Vec3(px[a], py[a], pz[a])) &&
    (forall t :: 0 <= t < |s| && t / 3 !in ids[..k] ==> s[t] == s0[t])
  }

  /** Writing the next unknown's three coordinates extends the write-back. */
  lemma WrittenStep(s: seq<real>, s0: seq<real>, ids: seq<nat>, px: seq<real>, py: seq<real>, pz: seq<real>, k: nat)
    requires k < |ids| && |px| == |ids| && |py| == |ids| && |pz| == |ids| && NoDup(ids)
    requires 3 * ids[k] + 2 < |s| && WrittenUpTo(s, s0, ids, px, py, pz, k)
    ensures WrittenUpTo(s[3 * ids[k] := px[k]][3 * ids[k] + 1 := py[k]][3 * ids[k] + 2 := pz[k]], s0, ids, px, py, pz, k + 1)
  {
    var s1 := s[3 * ids[k] := px[k]][3 * ids[k] + 1 := py[k]][3 * ids[k] + 2 := pz[k]];
    forall a | 0 <= a < k + 1
      ensures Position(s1, ids[a]) == Vec3(px[a], py[a], pz[a])
    {
      if a < k {
        assert ids[a] != ids[k];
        assert Position(s1, ids[a]) == Position(s, ids[a]);
      }
    }
    forall t | 0 <= t < |s1| && t / 3 !in ids[..k + 1]
      ensures s1[t] == s0[t]
    {
      assert ids[..k + 1] == ids[..k] + [ids[k]];
    }
  }

  /** Lines 220-225: the unknowns' solved coordinates go back into the
      position buffer; every other entry keeps its value. */
  method WriteBack(pos: array<real>, ids: seq<nat>, px: seq<real>, py: seq<real>, pz: seq<real>)
    modifies pos
    requires |px| == |ids| && |py| == |ids| && |pz| == |ids| && NoDup(ids)
    requires forall k :: 0 <= k < |ids| ==> 3 * ids[k] + 2 < pos.Length
    ensures forall k :: 0 <= k < |ids| ==> Position(pos[..], ids[k]) == Vec3(px[k], py[k], pz[k])
    ensures forall t :: 0 <= t < pos.Length && t / 3 !in ids ==> pos[t] == old(pos[t])
  {
    ghost var s0 := pos[..];
    var k := 0;
    while k < |ids|
      invariant 0 <= k <= |ids| && WrittenUpTo(pos[..], s0, ids, px, py, pz, k)
    {
      var v := ids[k];
      WrittenStep(pos[..], s0, ids, px, py, pz, k);
      pos[3 * v], pos[3 * v + 1], pos[3 * v + 2] := px[k], py[k], pz[k];
      k := k + 1;
    }
    assert ids[..|ids|] == ids;
  }

  /** A buffer holding a solution column at the unknowns reads back as that column. */
  lemma UnknownsWritten(x: seq<real>, ids: seq<nat>, col: seq<real>, c: nat)
    requires |col| == |ids| && forall k :: 0 <= k < |ids| ==> Coord(x, ids[k], c) == col[k]
    ensures Unknowns(x, ids, c) == col
  {
  }

  /** The unknowns of the written buffer are the solver's column c. */
  lemma SolvedColumn(ids: seq<nat>, rhs: seq<Vec3>, x1: seq<real>, ts: seq<Triplet>, solve: Solver, c: nat)
    requires c < 3 && forall A, m, col :: |solve(A, m, col)| == m
    requires forall k :: 0 <= k < |ids| ==>
      Position(x1, ids[k]) == Vec3(solve(ts, |ids|, ColumnOf(rhs, 0))[k], solve(ts, |ids|, ColumnOf(rhs, 1))[k],
                                   solve(ts, |ids|, ColumnOf(rhs, 2))[k])
    ensures Unknowns(x1, ids, c) == solve(ts, |ids|, ColumnOf(rhs, c))
  {
    forall k | 0 <= k < |ids|
      ensures Coord(x1, ids[k], c) == solve(ts, |ids|, ColumnOf(rhs, c))[k]
    {
      assert Component(Position(x1, ids[k]), c) == Coord(x1, ids[k], c);
    }
    UnknownsWritten(x1, ids, solve(ts, |ids|, ColumnOf(rhs, c)), c);
  }

  /** A vertex that is not an unknown keeps its coordinates through the write-back. */
  lemma PinnedKept(toNew: seq<int>, ids: seq<nat>, x0: seq<real>, x1: seq<real>, c: nat)
    requires Inverse(toNew, ids) && |x1| == |x0| && c < 3
    requires forall t :: 0 <= t < |x1| && t / 3 !in ids ==> x1[t] == x0[t]
    ensures forall j :: 0 <= j < |toNew| && toNew[j] == -1 ==> Coord(x1, j, c) == Coord(x0, j, c)
  {
    forall j | 0 <= j < |toNew| && toNew[j] == -1
      ensures Coord(x1, j, c) == Coord(x0, j, c)
    {
      InverseUnlisted(toNew, ids, j);
      assert (3 * j + c) / 3 == j;
    }
  }

  /** What lines 156-205 build from the rest positions p and the current
      positions pp: the rotations, the unknowns and their renumbering, b, the
      system's triplets, and b with the pinned part moved across. */
  ghost predicate Assembled(types: seq<VertexType>, p: seq<real>, pp: seq<real>, nt: NeighborTable, w: WeightTable,
                            L: seq<seq<(nat, real)>>, svd: Mat3 -> Option<Svd>, R: seq<Mat3>, rotOrder: seq<seq<nat>>,
                            ids: seq<nat>, toNew: seq<int>, b: seq<Vec3>, rhsOrder: seq<seq<nat>>,
                            ts: seq<Triplet>, rhs: seq<Vec3>)
  {
    |R| == |types| && Fitted(p, pp, nt, w, svd, R, rotOrder) &&
    ids == CalculatedIds(types) && Inverse(toNew, ids) && |toNew| == |pp| &&
    |b| == |ids| && RhsBuilt(p, R, w, nt, ids, b, rhsOrder) &&
    RowsFit(L, ids, |toNew|) && ts == SystemTriplets(L, ids, toNew) &&
    |rhs| == |ids| && forall k :: 0 <= k < |ids| ==> rhs[k] == Reduced(b[k], L[ids[k]], toNew, pp)
  }

  /** Lines 156-205: everything up to the solve. */
  method AssembleSystem(types: seq<VertexType>, p: seq<real>, pp: seq<real>, nt: NeighborTable, w: WeightTable,
                        L: seq<seq<(nat, real)>>, svd: Mat3 -> Option<Svd>)
    returns (ids: seq<nat>, ts: seq<Triplet>, rhs: seq<Vec3>, ghost R: seq<Mat3>, ghost rotOrder: seq<seq<nat>>,
             ghost toNew: seq<int>, ghost b: seq<Vec3>, ghost rhsOrder: seq<seq<nat>>)
    requires |p| == 3 * |types| && |pp| == |p|
    requires forall i: nat :: i < |types| ==> i in nt
    requires forall i: nat, j: nat :: i < |types| && i in nt && j in nt[i] ==> j < |types| && (i, j) in w
    requires |L| == |types| && forall i :: 0 <= i < |L| ==> ColumnsBelow(L[i], |types|)
    ensures Assembled(types, p, pp, nt, w, L, svd, R, rotOrder, ids, toNew, b, rhsOrder, ts, rhs)
    ensures ids == CalculatedIds(types) && |rhs| == |ids|
  {
    assert |p| / 3 == |types| && |pp| / 3 == |types| && |p| % 3 == 0;
    ids := CalculatedIds(types);
    var oriToNew := IndexMap(ids, |pp|);
    toNew := oriToNew[..];
    var rot, ro := CalcRotationMatrices(p, pp, nt, w, svd);
    R, rotOrder := rot, ro;
    var bs, bo := RotationRhs(p, rot, w, nt, ids);
    b, rhsOrder := bs, bo;
    assert RowsFit(L, ids, |types|);
    ts, rhs := Eliminate(L, ids, oriToNew[..], pp, bs);
  }

  /** Lines 155-228, one call of `updateVtxPosARAP`: fits the rotations to
      the current positions, builds b from the rest positions, eliminates the
      vertices that are not Calculated, solves each coordinate and writes the
      unknowns back. The ghost results name what was built on the way. */
  method UpdateVtxPosARAP(types: seq<VertexType>, p: seq<real>, pos: array<real>, nt: NeighborTable,
                          w: WeightTable, L: seq<seq<(nat, real)>>, svd: Mat3 -> Option<Svd>, solve: Solver)
    returns (ghost R: seq<Mat3>, ghost rotOrder: seq<seq<nat>>, ghost ids: seq<nat>, ghost toNew: seq<int>,
             ghost b: seq<Vec3>, ghost rhsOrder: seq<seq<nat>>, ghost ts: seq<Triplet>, ghost rhs: seq<Vec3>)
    modifies pos
    requires |p| == 3 * |types| && pos.Length == |p|
    requires forall i: nat :: i < |types| ==> i in nt
    requires forall i: nat, j: nat :: i < |types| && i in nt && j in nt[i] ==> j < |types| && (i, j) in w
    requires |L| == |types| && forall i :: 0 <= i < |L| ==> ColumnsBelow(L[i], |types|)
    requires forall A, m, col :: |solve(A, m, col)| == m
    ensures Assembled(types, p, old(pos[..]), nt, w, L, svd, R, rotOrder, ids, toNew, b, rhsOrder, ts, rhs)
    ensures forall k :: 0 <= k < |ids| ==>
      Position(pos[..], ids[k]) == Vec3(solve(ts, |ids|, ColumnOf(rhs, 0))[k], solve(ts, |ids|, ColumnOf(rhs, 1))[k],
                                        solve(ts, |ids|, ColumnOf(rhs, 2))[k])
    ensures forall v, c :: 0 <= v < |types| && types[v] != Calculated && c < 3 ==>
      Coord(pos[..], v, c) == Coord(old(pos[..]), v, c)
    ensures forall c :: 0 <= c < 3 && Solves(ts, solve(ts, |ids|, ColumnOf(rhs, c)), ColumnOf(rhs, c)) ==>
      forall k :: 0 <= k < |ids| ==> RowTimes(L[ids[k]], pos[..], c) == Component(b[k], c)
  {
    var toCalc, triplets, reduced, rot, ro, tn, bs, bo := AssembleSystem(types, p, pos[..], nt, w, L, svd);
    ids, ts, rhs, R, rotOrder, toNew, b, rhsOrder := toCalc, triplets, reduced, rot, ro, tn, bs, bo;
    var m := |toCalc|;
    var px := solve(triplets, m, ColumnOf(reduced, 0));
    var py := solve(triplets, m, ColumnOf(reduced, 1));
    var pz := solve(triplets, m, ColumnOf(reduced, 2));
    ghost var x0 := pos[..];
    WriteBack(pos, toCalc, px, py, pz);
    SolvedRows(types, p, nt, w, L, svd, R, rotOrder, ids, toNew, b, rhsOrder, ts, rhs, x0, pos[..], solve);
    OthersKept(types, x0, pos[..]);
  }

  /** Vertices that are not Calculated keep their coordinates through the write-back. */
  lemma OthersKept(types: seq<VertexType>, x0: seq<real>, x1: seq<real>)
    requires |x1| == |x0| && forall t :: 0 <= t < |x1| && t / 3 !in CalculatedIds(types) ==> x1[t] == x0[t]
    ensures forall v, c :: 0 <= v < |types| && types[v] != Calculated && c < 3 ==> Coord(x1, v, c) == Coord(x0, v, c)
  {
    forall v, c | 0 <= v < |types| && types[v] != Calculated && c < 3
      ensures Coord(x1, v, c) == Coord(x0, v, c)
    {
      assert v !in CalculatedIds(types);
      assert (3 * v + c) / 3 == v;
    }
  }

  /** Once the unknowns hold the solver's columns and the rest is untouched,
      each coordinate the solver got right satisfies L x = b at every unknown. */
  lemma SolvedRows(types: seq<VertexType>, p: seq<real>, nt: NeighborTable, w: WeightTable, L: seq<seq<(nat, real)>>,
                   svd: Mat3 -> Option<Svd>, R: seq<Mat3>, rotOrder: seq<seq<nat>>, ids: seq<nat>, toNew: seq<int>,
                   b: seq<Vec3>, rhsOrder: seq<seq<nat>>, ts: seq<Triplet>, rhs: seq<Vec3>,
                   x0: seq<real>, x1: seq<real>, solve: Solver)
    requires Assembled(types, p, x0, nt, w, L, svd, R, rotOrder, ids, toNew, b, rhsOrder, ts, rhs)
    requires forall A, m, col :: |solve(A, m, col)| == m
    requires |x1| == |x0| && forall t :: 0 <= t < |x1| && t / 3 !in ids ==> x1[t] == x0[t]
    requires forall k :: 0 <= k < |ids| ==>
      Position(x1, ids[k]) == Vec3(solve(ts, |ids|, ColumnOf(rhs, 0))[k], solve(ts, |ids|, ColumnOf(rhs, 1))[k],
                                   solve(ts, |ids|, ColumnOf(rhs, 2))[k])
    ensures forall c :: 0 <= c < 3 && Solves(ts, solve(ts, |ids|, ColumnOf(rhs, c)), ColumnOf(rhs, c)) ==>
      forall k :: 0 <= k < |ids| ==> RowTimes(L[ids[k]], x1, c) == Component(b[k], c)
  {
    forall c | 0 <= c < 3 && Solves(ts, solve(ts, |ids|, ColumnOf(rhs, c)), ColumnOf(rhs, c))
      ensures forall k :: 0 <= k < |ids| ==> RowTimes(L[ids[k]], x1, c) == Component(b[k], c)
    {
      SolvedColumn(ids, rhs, x1, ts, solve, c);
      PinnedKept(toNew, ids, x0, x1, c);
      GlobalStep(L, ids, toNew, b, rhs, x0, x1, c);
    }
  }

  /** Every vertex that is not Calculated sits at its rest position. */
  ghost predicate PinnedAtRestPositions(types: seq<VertexType>, p: seq<real>, pp: seq<real>)
  {
    forall v :: 0 <= v < |types| && types[v] != Calculated ==> Position(pp, v) == Position(p, v)
  }

  /** A vertex that is not an unknown and sits at its rest position has its
      rest coordinates in the current buffer; past the last vertex both
      buffers read 0. */
  lemma PinnedAtRest(types: seq<VertexType>, p: seq<real>, pp: seq<real>, ids: seq<nat>, toNew: seq<int>, c: nat)
    requires ids == CalculatedIds(types) && Inverse(toNew, ids) && |toNew| == |pp|
    requires |p| == 3 * |types| && |pp| == |p| && c < 3
    requires PinnedAtRestPositions(types, p, pp)
    ensures forall j :: 0 <= j < |toNew| && toNew[j] == -1 ==> Coord(pp, j, c) == Coord(p, j, c)
  {
    forall j | 0 <= j < |toNew| && toNew[j] == -1
      ensures Coord(pp, j, c) == Coord(p, j, c)
    {
      if j < |types| {
        InverseUnlisted(toNew, ids, j);
        assert types[j] != Calculated;
        PinnedCoord(types, p, pp, j, c);
      }
    }
  }

  lemma PinnedCoord(types: seq<VertexType>, p: seq<real>, pp: seq<real>, j: nat, c: nat)
    requires j < |types| && types[j] != Calculated && c < 3
    requires forall v :: 0 <= v < |types| && types[v] != Calculated ==> Position(pp, v) == Position(p, v)
    ensures Coord(pp, j, c) == Coord(p, j, c)
  {
    assert Component(Position(pp, j), c) == Component(Position(p, j), c);
  }

  /** Row k of the assembled system holds at the rest positions. */
  lemma RestRow(types: seq<VertexType>, p: seq<real>, pp: seq<real>, nt: NeighborTable, w: WeightTable,
                L: seq<seq<(nat, real)>>, Lorder: seq<seq<nat>>, R: seq<Mat3>, ids: seq<nat>, toNew: seq<int>,
                b: seq<Vec3>, rhsOrder: seq<seq<nat>>, rhs: seq<Vec3>, c: nat, k: nat)
    requires Inverse(toNew, ids) && RowsFit(L, ids, |toNew|) && |b| == |ids| && c < 3 && k < |ids|
    requires RhsBuilt(p, R, w, nt, ids, b, rhsOrder)
    requires |rhs| == |ids| && rhs[k] == Reduced(b[k], L[ids[k]], toNew, pp)
    requires forall j :: 0 <= j < |toNew| && toNew[j] == -1 ==> Coord(pp, j, c) == Coord(p, j, c)
    requires forall v :: 0 <= v < |R| ==> R[v] == Identity
    requires |Lorder| == |L| && Enumerates(Lorder[ids[k]], nt[ids[k]]) && L[ids[k]] == LaplacianRow(w, ids[k], Lorder[ids[k]])
    ensures TripletsRowTimes(SystemTriplets(L, ids, toNew), k, Unknowns(p, ids, c)) == ColumnOf(rhs, c)[k]
  {
    var i, row, u := ids[k], L[ids[k]], Unknowns(p, ids, c);
    assert ColumnsBelow(row, |toNew|);
    assert i in nt && Enumerates(rhsOrder[k], nt[i]) && b[k] == RhsOf(p, R, w, i, rhsOrder[k]);
    forall j: nat ensures RotationAt(R, j) == Identity { }
    calc {
      ColumnOf(rhs, c)[k];
      Component(rhs[k], c);
      { ComponentReduced(b[k], row, toNew, pp, c); }
      Component(b[k], c) - PinnedSum(row, toNew, pp, c);
      { PinnedSumFrame(row, toNew, p, pp, c); }
      Component(b[k], c) - PinnedSum(row, toNew, p, c);
      { RhsAtIdentity(p, R, w, i, rhsOrder[k], c); }
      RowTimes(LaplacianRow(w, i, rhsOrder[k]), p, c) - PinnedSum(row, toNew, p, c);
      { RowTimesOrderFree(w, i, Lorder[i], rhsOrder[k], nt[i], p, c); }
      RowTimes(row, p, c) - PinnedSum(row, toNew, p, c);
      { EliminationSplit(row, k, toNew, ids, p, c); }
      TripletsRowTimes(RowTriplets(row, k, toNew), k, u);
      { SystemRow(L, ids, toNew, k, u); }
      TripletsRowTimes(SystemTriplets(L, ids, toNew), k, u);
    }
  }

  /** When nothing has turned (every fitted rotation is the identity) and
      the vertices that are not unknowns sit at their rest positions, the
      rest positions of the unknowns solve the assembled system: b holds the
      Laplacian of the rest shape and the system reproduces it. */
  lemma RestShapeSolves(types: seq<VertexType>, p: seq<real>, pp: seq<real>, nt: NeighborTable, w: WeightTable,
                        L: seq<seq<(nat, real)>>, Lorder: seq<seq<nat>>, svd: Mat3 -> Option<Svd>, R: seq<Mat3>,
                        rotOrder: seq<seq<nat>>, ids: seq<nat>, toNew: seq<int>, b: seq<Vec3>,
                        rhsOrder: seq<seq<nat>>, ts: seq<Triplet>, rhs: seq<Vec3>, c: nat)
    requires Assembled(types, p, pp, nt, w, L, svd, R, rotOrder, ids, toNew, b, rhsOrder, ts, rhs)
    requires |p| == 3 * |types| && |pp| == |p| && c < 3
    requires |Lorder| == |L| &&
      forall i :: 0 <= i < |L| ==> i in nt && Enumerates(Lorder[i], nt[i]) && L[i] == LaplacianRow(w, i, Lorder[i])
    requires forall v :: 0 <= v < |R| ==> R[v] == Identity
    requires PinnedAtRestPositions(types, p, pp)
    ensures Solves(ts, Unknowns(p, ids, c), ColumnOf(rhs, c))
  {
    PinnedAtRest(types, p, pp, ids, toNew, c);
    forall k | 0 <= k < |ids|
      ensures TripletsRowTimes(ts, k, Unknowns(p, ids, c)) == ColumnOf(rhs, c)[k]
    {
      RestRow(types, p, pp, nt, w, L, Lorder, R, ids, toNew, b, rhsOrder, rhs, c, k);
    }
  }
}
