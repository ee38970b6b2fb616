/**
 The sparse cotangent Laplacian of arap.js:86-100: row i lists `[j, -w_ij]`
 for every neighbour j, in the neighbour Set's order, and then the diagonal
 `[i, sum of w_ij]`.
 */
module Laplacian {
  import opened Mesh
  import opened Topology
  import opened Weights
  import opened Sums

  /** The off-diagonal part of row i when the neighbours are visited in `order`. */
  function OffDiagonal(w: WeightTable, i: nat, order: seq<nat>): (r: seq<(nat, real)>)
    ensures |r| == |order|
    ensures forall k :: 0 <= k < |order| ==> r[k] == (order[k], -Weight(w, i, order[k]))
  {
    if order == [] then []
    else OffDiagonal(w, i, order[..|order| - 1]) + [(order[|order| - 1], -Weight(w, i, order[|order| - 1]))]
  }

  /** Row i of `matrixL` for the visiting order `order`: the off-diagonal
      entries followed by the diagonal, the running total of the weights. */
  function LaplacianRow(w: WeightTable, i: nat, order: seq<nat>): seq<(nat, real)>
  {
    OffDiagonal(w, i, order) + [(i, SumSeq(order, RowWeight(w, i)))]
  }

  /** The sum of all values of a sparse row. */
  function RowSum(row: seq<(nat, real)>): real
  {
    if row == [] then 0.0 else RowSum(row[..|row| - 1]) + row[|row| - 1].1
  }

  /** The dense entry of a sparse row at column j: the values listed for j, added up. */
  function ColumnValue(row: seq<(nat, real)>, j: nat): real
  {
    if row == [] then 0.0
    else ColumnValue(row[..|row| - 1], j) + (if row[|row| - 1].0 == j then row[|row| - 1].1 else 0.0)
  }

  lemma {:induction false} OffDiagonalSum(w: WeightTable, i: nat, order: seq<nat>)
    ensures RowSum(OffDiagonal(w, i, order)) == -SumSeq(order, RowWeight(w, i))
    decreases |order|
  {
    if order != [] {
      var pre := order[..|order| - 1];
      OffDiagonalSum(w, i, pre);
      assert OffDiagonal(w, i, order)[..|order| - 1] == OffDiagonal(w, i, pre);
    }
  }

  /** Every row of the Laplacian sums to zero: the diagonal is exactly the
      negated sum of the off-diagonal entries. */
  lemma RowSumZero(w: WeightTable, i: nat, order: seq<nat>)
    ensures RowSum(LaplacianRow(w, i, order)) == 0.0
  {
    var row := LaplacianRow(w, i, order);
    assert row[..|row| - 1] == OffDiagonal(w, i, order);
    OffDiagonalSum(w, i, order);
  }

  /** Whatever order the neighbour Set is walked in, row i has exactly one
      entry (j, -w_ij) per neighbour j, then the diagonal (i, sum of the w_ij). */
  lemma RowShape(w: WeightTable, i: nat, order: seq<nat>, nbrs: set<nat>)
    requires Enumerates(order, nbrs)
    ensures |LaplacianRow(w, i, order)| == |nbrs| + 1
    ensures LaplacianRow(w, i, order)[|nbrs|] == (i, SumSet(nbrs, RowWeight(w, i)))
    ensures forall k :: 0 <= k < |nbrs| ==>
      LaplacianRow(w, i, order)[k].0 in nbrs && LaplacianRow(w, i, order)[k].1 == -Weight(w, i, LaplacianRow(w, i, order)[k].0)
    ensures forall j :: j in nbrs ==> exists k :: 0 <= k < |nbrs| && LaplacianRow(w, i, order)[k].0 == j
    ensures forall a, b :: 0 <= a < b < |nbrs| ==> LaplacianRow(w, i, order)[a].0 != LaplacianRow(w, i, order)[b].0
  {
    EnumerationLength(order, nbrs);
    SumSeqOfEnumeration(order, nbrs, RowWeight(w, i));
    RowColumns(w, i, order, nbrs);
  }

  /** The column of entry k < |order| is order[k], so the off-diagonal
      columns are the neighbours, each once. */
  lemma RowColumns(w: WeightTable, i: nat, order: seq<nat>, nbrs: set<nat>)
    requires Enumerates(order, nbrs)
    ensures forall k :: 0 <= k < |order| ==>
      LaplacianRow(w, i, order)[k].0 == order[k] && LaplacianRow(w, i, order)[k].0 in nbrs
    ensures forall j :: j in nbrs ==> exists k :: 0 <= k < |order| && LaplacianRow(w, i, order)[k].0 == j
    ensures forall a, b :: 0 <= a < b < |order| ==> LaplacianRow(w, i, order)[a].0 != LaplacianRow(w, i, order)[b].0
  {
    var row := LaplacianRow(w, i, order);
    assert forall k :: 0 <= k < |order| ==> row[k] == OffDiagonal(w, i, order)[k];
    forall j | j in nbrs
      ensures exists k :: 0 <= k < |order| && row[k].0 == j
    {
      var k :| 0 <= k < |order| && order[k] == j;
      assert row[k].0 == j;
    }
  }

  /** Whatever order the neighbour Set yields, the diagonal entry is the sum
      of the weights of all edges at i. */
  lemma DiagonalIsNeighborSum(w: WeightTable, i: nat, order: seq<nat>, nbrs: set<nat>)
    requires Enumerates(order, nbrs)
    ensures LaplacianRow(w, i, order)[|order|] == (i, SumSet(nbrs, RowWeight(w, i)))
  {
    SumSeqOfEnumeration(order, nbrs, RowWeight(w, i));
  }

  lemma {:induction false} OffDiagonalColumn(w: WeightTable, i: nat, order: seq<nat>, j: nat)
    requires NoDup(order)
    ensures ColumnValue(OffDiagonal(w, i, order), j) == if j in order then -Weight(w, i, j) else 0.0
    decreases |order|
  {
    if order != [] {
      var pre := order[..|order| - 1];
      NoDupLast(order);
      OffDiagonalColumn(w, i, pre, j);
      assert OffDiagonal(w, i, order)[..|order| - 1] == OffDiagonal(w, i, pre);
      assert j in order <==> j in pre || j == order[|order| - 1] by {
        assert order == pre + [order[|order| - 1]];
      }
    }
  }

  /** Read as a dense matrix, row i holds the weight sum on the diagonal, the
      negated weight at each neighbour and zero elsewhere (when i is not its
      own neighbour). */
  lemma LaplacianEntry(w: WeightTable, i: nat, order: seq<nat>, nbrs: set<nat>, j: nat)
    requires Enumerates(order, nbrs) && i !in nbrs
    ensures ColumnValue(LaplacianRow(w, i, order), j) ==
      if j == i then SumSet(nbrs, RowWeight(w, i))
      else if j in nbrs then -Weight(w, i, j)
      else 0.0
  {
    var row := LaplacianRow(w, i, order);
    assert row[..|row| - 1] == OffDiagonal(w, i, order);
    OffDiagonalColumn(w, i, order, j);
    SumSeqOfEnumeration(order, nbrs, RowWeight(w, i));
  }

  /** With non-negative weights the off-diagonal entries are never positive
      and the diagonal never negative: the sign pattern of a graph Laplacian. */
  lemma RowSigns(w: WeightTable, i: nat, order: seq<nat>, nbrs: set<nat>)
    requires Enumerates(order, nbrs)
    requires forall j :: j in nbrs ==> Weight(w, i, j) >= 0.0
    ensures forall k :: 0 <= k < |order| ==> LaplacianRow(w, i, order)[k].1 <= 0.0
    ensures LaplacianRow(w, i, order)[|order|].1 >= 0.0
  {
    assert forall k :: 0 <= k < |order| ==> order[k] in nbrs;
    SumSeqNonNegative(order, RowWeight(w, i));
  }

  /** Visiting neighbour j appends its entry and adds its weight to the diagonal. */
  lemma RowStep(w: WeightTable, i: nat, order: seq<nat>, j: nat)
    ensures OffDiagonal(w, i, order + [j]) == OffDiagonal(w, i, order) + [(j, -Weight(w, i, j))]
    ensures SumSeq(order + [j], RowWeight(w, i)) == SumSeq(order, RowWeight(w, i)) + Weight(w, i, j)
  {
    assert (order + [j])[..|order|] == order;
  }

  /** The inner loop of arap.js:90-97: walks the neighbour set of i, pushing
      `[j, -w_ij]` and accumulating the diagonal, then pushes `[i, L_ii]`. */
  method BuildRow(w: WeightTable, i: nat, nbrs: set<nat>) returns (row: seq<(nat, real)>, ghost order: seq<nat>)
    requires forall j :: j in nbrs ==> (i, j) in w
    ensures Enumerates(order, nbrs) && row == LaplacianRow(w, i, order)
  {
    row, order := [], [];
    var lii := 0.0;
    var rest := nbrs;
    while rest != {}
      invariant Walked(order, nbrs, rest)
      invariant row == OffDiagonal(w, i, order) && lii == SumSeq(order, RowWeight(w, i))
      decreases rest
    {
      var j :| j in rest;
      var wij := w[(i, j)];
      row := row + [(j, -wij)];
      lii := lii + wij;
      WalkStep(order, nbrs, rest, j);
      RowStep(w, i, order, j);
      order := order + [j];
      rest := rest - {j};
    }
    row := row + [(i, lii)];
    WalkDone(order, nbrs);
    RowShape(w, i, order, nbrs);
  }

  /** arap.js:86-100. Row i is the Laplacian row for the order in which the
      neighbour Set of i is walked, returned as `order[i]`. */
  method BuildMatrixL(w: WeightTable, nV: nat, nt: NeighborTable)
    returns (L: seq<seq<(nat, real)>>, ghost order: seq<seq<nat>>)
    requires forall i: nat :: i < nV ==> i in nt
    requires forall i: nat, j: nat :: i < nV && i in nt && j in nt[i] ==> (i, j) in w
    ensures |L| == nV && |order| == nV
    ensures forall i :: 0 <= i < nV ==> Enumerates(order[i], nt[i]) && L[i] == LaplacianRow(w, i, order[i])
  {
    L, order := [], [];
    var i: nat := 0;
    while i < nV
      invariant i <= nV && |L| == i && |order| == i
      invariant forall k :: 0 <= k < i ==> Enumerates(order[k], nt[k]) && L[k] == LaplacianRow(w, k, order[k])
    {
      var row, ord := BuildRow(w, i, nt[i]);
      L, order := L + [row], order + [ord];
      i := i + 1;
    }
  }

  /** Built from a symmetric weight table over a mesh whose faces have distinct
      corners, the Laplacian is symmetric as a dense matrix. */
  lemma MatrixLSymmetric(faces: seq<nat>, w: WeightTable, L: seq<seq<(nat, real)>>, order: seq<seq<nat>>,
                         i: nat, j: nat)
    requires |faces| % 3 == 0 && DistinctCorners(faces)
    requires i in NeighborTableOf(faces) && j in NeighborTableOf(faces)
    requires forall a: nat, b: nat :: (a, b) in w ==> (b, a) in w && w[(b, a)] == w[(a, b)]
    requires i < |L| && j < |L| && |order| == |L|
    requires Enumerates(order[i], NeighborTableOf(faces)[i]) && L[i] == LaplacianRow(w, i, order[i])
    requires Enumerates(order[j], NeighborTableOf(faces)[j]) && L[j] == LaplacianRow(w, j, order[j])
    ensures ColumnValue(L[i], j) == ColumnValue(L[j], i)
  {
    var nt := NeighborTableOf(faces);
    NoSelfLoops(faces, i);
    NoSelfLoops(faces, j);
    LaplacianEntry(w, i, order[i], nt[i], j);
    LaplacianEntry(w, j, order[j], nt[j], i);
    if j in nt[i] {
      NeighborSymmetricAt(faces, i, j);
    }
    if i in nt[j] {
      NeighborSymmetricAt(faces, j, i);
    }
  }
}
