/**
 The local step of ARAP, arap.js:103-152: for every vertex i, the weighted
 covariance Si of its rest and deformed edge vectors, a small shift of the
 diagonal, a singular value decomposition Si = U S V^T with the reflection
 fix, and the rotation Ri = V U^T (the identity when the decomposition
 yields NaN). `numeric.svd` is a parameter of the model: it maps a matrix to
 its factors U and V, or to None where its output would contain NaN.
 */
module Rotation {
  import opened Mesh
  import opened Topology
  import opened Weights
  import opened Sums
  import opened Linalg

  /** Coordinate c of vertex v in a flat position buffer (0 past its end). */
  function Coord(p: seq<real>, v: nat, c: nat): real
  {
    if 3 * v + c < |p| then p[3 * v + c] else 0.0
  }

  function Position(p: seq<real>, v: nat): Vec3
  {
    Vec3(Coord(p, v, 0), Coord(p, v, 1), Coord(p, v, 2))
  }

  /** Component c of a vector: x, y, then z. */
  function Component(v: Vec3, c: nat): real
  {
    if c == 0 then v.x else if c == 1 then v.y else v.z
  }

  /** The edge vector e_ij = p_j - p_i. */
  function EdgeVector(p: seq<real>, i: nat, j: nat): Vec3
  {
    Vec3(Coord(p, j, 0) - Coord(p, i, 0), Coord(p, j, 1) - Coord(p, i, 1), Coord(p, j, 2) - Coord(p, i, 2))
  }

  /** The outer product e e', row by row: the array `outer` of lines 121-125. */
  function Outer(e: Vec3, e': Vec3): (o: seq<real>)
    ensures |o| == 9
  {
    [e.x * e'.x, e.x * e'.y, e.x * e'.z,
     e.y * e'.x, e.y * e'.y, e.y * e'.z,
     e.z * e'.x, e.z * e'.y, e.z * e'.z]
  }

  /** Entry t of the outer product (0 past the ninth). */
  function OuterAt(e: Vec3, e': Vec3, t: nat): real
  {
    if t < 9 then Outer(e, e')[t] else 0.0
  }

  /** What neighbour j adds to entry t of Si: w_ij times entry t of the
      outer product of e_ij and e'_ij (line 127). */
  function CovTerm(p: seq<real>, pp: seq<real>, w: WeightTable, i: nat, t: nat): nat -> real
  {
    (j: nat) => Weight(w, i, j) * OuterAt(EdgeVector(p, i, j), EdgeVector(pp, i, j), t)
  }

  /** Entry t of Si for the neighbours of i visited in `order`. */
  function CovEntry(p: seq<real>, pp: seq<real>, w: WeightTable, i: nat, order: seq<nat>, t: nat): real
  {
    SumSeq(order, CovTerm(p, pp, w, i, t))
  }

  /** Si, row by row. */
  function Covariance(p: seq<real>, pp: seq<real>, w: WeightTable, i: nat, order: seq<nat>): (si: seq<real>)
    ensures |si| == 9
    ensures forall t :: 0 <= t < 9 ==> si[t] == CovEntry(p, pp, w, i, order, t)
  {
    [CovEntry(p, pp, w, i, order, 0), CovEntry(p, pp, w, i, order, 1), CovEntry(p, pp, w, i, order, 2),
     CovEntry(p, pp, w, i, order, 3), CovEntry(p, pp, w, i, order, 4), CovEntry(p, pp, w, i, order, 5),
     CovEntry(p, pp, w, i, order, 6), CovEntry(p, pp, w, i, order, 7), CovEntry(p, pp, w, i, order, 8)]
  }

  /** `outer.forEach((value, index) => { Si[index] += w_ij * value; })`. */
  method AddScaled(si: seq<real>, wij: real, outer: seq<real>) returns (r: seq<real>)
    requires |si| == 9 && |outer| == 9
    ensures |r| == 9 && forall u :: 0 <= u < 9 ==> r[u] == si[u] + wij * outer[u]
  {
    r := si;
    var t := 0;
    while t < 9
      invariant 0 <= t <= 9 && |r| == 9
      invariant forall u :: 0 <= u < t ==> r[u] == si[u] + wij * outer[u]
      invariant forall u :: t <= u < 9 ==> r[u] == si[u]
    {
      r := r[t := r[t] + wij * outer[t]];
      t := t + 1;
    }
  }

  /** si holds the nine entries of Si for the neighbours visited in `order`. */
  ghost predicate Accumulated(si: seq<real>, p: seq<real>, pp: seq<real>, w: WeightTable, i: nat, order: seq<nat>)
  {
    |si| == 9 && forall t :: 0 <= t < 9 ==> si[t] == CovEntry(p, pp, w, i, order, t)
  }

  /** Adding neighbour j's weighted outer product to Si extends the visiting order by j. */
  lemma CovarianceStep(p: seq<real>, pp: seq<real>, w: WeightTable, i: nat, order: seq<nat>, j: nat,
                       si0: seq<real>, si: seq<real>)
    requires Accumulated(si0, p, pp, w, i, order)
    requires (i, j) in w
    requires |si| == 9 && forall t :: 0 <= t < 9 ==>
      si[t] == si0[t] + w[(i, j)] * Outer(EdgeVector(p, i, j), EdgeVector(pp, i, j))[t]
    ensures Accumulated(si, p, pp, w, i, order + [j])
  {
    forall t | 0 <= t < 9
      ensures si[t] == CovEntry(p, pp, w, i, order + [j], t)
    {
      SumSeqAppend(order, j, CovTerm(p, pp, w, i, t));
      CovTermAt(p, pp, w, i, j, t);
    }
  }

  lemma CovTermAt(p: seq<real>, pp: seq<real>, w: WeightTable, i: nat, j: nat, t: nat)
    requires (i, j) in w && t < 9
    ensures CovTerm(p, pp, w, i, t)(j) == w[(i, j)] * Outer(EdgeVector(p, i, j), EdgeVector(pp, i, j))[t]
  {
    calc {
      CovTerm(p, pp, w, i, t)(j);
      Weight(w, i, j) * OuterAt(EdgeVector(p, i, j), EdgeVector(pp, i, j), t);
      { ProductEqual(Weight(w, i, j), w[(i, j)], OuterAt(EdgeVector(p, i, j), EdgeVector(pp, i, j), t),
                     Outer(EdgeVector(p, i, j), EdgeVector(pp, i, j))[t]); }
      w[(i, j)] * Outer(EdgeVector(p, i, j), EdgeVector(pp, i, j))[t];
    }
  }

  lemma CovarianceExt(p: seq<real>, pp: seq<real>, w: WeightTable, i: nat, order: seq<nat>, si: seq<real>)
    requires Accumulated(si, p, pp, w, i, order)
    ensures si == Covariance(p, pp, w, i, order)
  {
  }

  /** Lines 108-128: accumulates Si over the neighbour Set of i; `order` is
      the order the Set is walked in. */
  method AccumulateCovariance(p: seq<real>, pp: seq<real>, w: WeightTable, i: nat, nbrs: set<nat>)
    returns (si: seq<real>, ghost order: seq<nat>)
    requires |p| % 3 == 0 && |pp| == |p| && i < |p| / 3
    requires forall j :: j in nbrs ==> j < |p| / 3 && (i, j) in w
    ensures Enumerates(order, nbrs) && si == Covariance(p, pp, w, i, order)
    ensures |si| == 9 && forall t :: 0 <= t < 9 ==> si[t] == SumSet(nbrs, CovTerm(p, pp, w, i, t))
  {
    si, order := [0.0, 0.0, 0.0, 0.0, 0.0, 0.0, 0.0, 0.0, 0.0], [];
    var rest := nbrs;
    while rest != {}
      invariant Walked(order, nbrs, rest)
      invariant Accumulated(si, p, pp, w, i, order)
      decreases rest
    {
      var j :| j in rest;
      var wij := w[(i, j)];
      var outer := Outer(EdgeVector(p, i, j), EdgeVector(pp, i, j));
      ghost var si0 := si;
      si := AddScaled(si, wij, outer);
      CovarianceStep(p, pp, w, i, order, j, si0, si);
      WalkStep(order, nbrs, rest, j);
      order := order + [j];
      rest := rest - {j};
    }
    CovarianceExt(p, pp, w, i, order, si);
    WalkDone(order, nbrs);
    forall t | 0 <= t < 9 ensures si[t] == SumSet(nbrs, CovTerm(p, pp, w, i, t)) {
      CovarianceOrderFree(p, pp, w, i, order, nbrs, t);
    }
  }

  /** `Math.max(...s)`: the largest entry, sign included. */
  function MaxOf(s: seq<real>): (m: real)
    requires |s| > 0
    ensures m in s
    ensures forall k :: 0 <= k < |s| ==> s[k] <= m
  {
    if |s| == 1 then s[0] else Max(MaxOf(s[..|s| - 1]), s[|s| - 1])
  }

  /** The factor 1e-6 of line 133. */
  const Shift: real := 0.000001

  /** `[Si.slice(0, 3), Si.slice(3, 6), Si.slice(6, 9)]`. */
  function Rows(si: seq<real>): Mat3
    requires |si| == 9
  {
    Mat3(si[0], si[1], si[2], si[3], si[4], si[5], si[6], si[7], si[8])
  }

  /** m with x added to its first k diagonal entries. */
  function ShiftDiagonal(m: Mat3, x: real, k: nat): Mat3
  {
    m.(m00 := if 0 < k then m.m00 + x else m.m00,
       m11 := if 1 < k then m.m11 + x else m.m11,
       m22 := if 2 < k then m.m22 + x else m.m22)
  }

  /** `SiMat[k][k] += x`. */
  function AddToDiagonal(m: Mat3, k: nat, x: real): Mat3
  {
    if k == 0 then m.(m00 := m.m00 + x) else if k == 1 then m.(m11 := m.m11 + x) else m.(m22 := m.m22 + x)
  }

  /** The matrix handed to the decomposition (lines 130-134): Si with its
      largest entry times 1e-6 added to each diagonal entry. */
  function Regularised(si: seq<real>): Mat3
    requires |si| == 9
  {
    ShiftDiagonal(Rows(si), MaxOf(si) * Shift, 3)
  }

  /** The regularisation adds the same multiple of the identity to every
      diagonal entry and leaves the rest of Si as it is. */
  lemma RegularisedIsShiftedSi(si: seq<real>)
    requires |si| == 9
    ensures Regularised(si) == Add(Rows(si), Mat3(MaxOf(si) * Shift, 0.0, 0.0, 0.0, MaxOf(si) * Shift, 0.0, 0.0, 0.0, MaxOf(si) * Shift))
    ensures forall k :: 0 <= k < 9 ==> si[k] <= MaxOf(si)
  {
  }

  /** `U[0][2] *= -1; U[1][2] *= -1; U[2][2] *= -1`: flips the sign of the third
      column of U, and so the sign of its determinant. */
  function NegateThirdColumn(u: Mat3): (r: Mat3)
    ensures Det(r) == -Det(u)
  {
    u.(m02 := -u.m02, m12 := -u.m12, m22 := -u.m22)
  }

  /** Flipping a column keeps a matrix orthogonal. */
  lemma NegateThirdColumnOrthogonal(u: Mat3)
    requires Orthogonal(u)
    ensures Orthogonal(NegateThirdColumn(u))
  {
    var flip := Mat3(1.0, 0.0, 0.0, 0.0, 1.0, 0.0, 0.0, 0.0, -1.0);
    assert NegateThirdColumn(u) == Mul(u, flip);
    assert Orthogonal(flip);
    OrthogonalMul(u, flip);
  }

  /** Lines 139-143: when det U and det V differ in sign, the third column of U
      is negated, after which they agree in sign. */
  function FixReflection(u: Mat3, v: Mat3): (r: Mat3)
    ensures Det(r) * Det(v) >= 0.0
    ensures Det(u) * Det(v) >= 0.0 ==> r == u
    ensures Det(u) * Det(v) < 0.0 ==> r == NegateThirdColumn(u)
  {
    if Det(u) * Det(v) < 0.0 then NegateThirdColumn(u) else u
  }

  /** The factors U and V of `numeric.svd`. */
  datatype Svd = Svd(u: Mat3, v: Mat3)

  /** Lines 135-150 on a given matrix: V U^T after the reflection fix, or the
      identity when the decomposition yields NaN. */
  function FitRotation(m: Mat3, svd: Mat3 -> Option<Svd>): Mat3
  {
    match svd(m)
    case None => Identity
    case Some(d) => Mul(d.v, Transpose(FixReflection(d.u, d.v)))
  }

  /** The reflection fix keeps U orthogonal. */
  lemma FixReflectionOrthogonal(u: Mat3, v: Mat3)
    requires Orthogonal(u)
    ensures Orthogonal(FixReflection(u, v))
  {
    if Det(u) * Det(v) < 0.0 {
      NegateThirdColumnOrthogonal(u);
    }
  }

  /** Two signs whose product is not negative multiply to 1. */
  lemma SignProduct(x: real, y: real)
    requires x * x == 1.0 && y * y == 1.0 && x * y >= 0.0
    ensures x * y == 1.0
  {
    var q := x * y;
    assert q * q == (x * x) * (y * y);
    assert (q - 1.0) * (q + 1.0) == 0.0;
    assert q + 1.0 > 0.0;
    assert q - 1.0 == ((q - 1.0) * (q + 1.0)) / (q + 1.0);
  }

  /** V U^T after the reflection fix is orthogonal when U and V are. */
  lemma FixedFactorsOrthogonal(u0: Mat3, v: Mat3)
    requires Orthogonal(u0) && Orthogonal(v)
    ensures Orthogonal(Mul(v, Transpose(FixReflection(u0, v))))
  {
    var u := FixReflection(u0, v);
    FixReflectionOrthogonal(u0, v);
    OrthogonalTranspose(u);
    OrthogonalMul(v, Transpose(u));
  }

  /** V U^T after the reflection fix has determinant +1 when U and V are orthogonal. */
  lemma FixedFactorsDet(u0: Mat3, v: Mat3)
    requires Orthogonal(u0) && Orthogonal(v)
    ensures Det(Mul(v, Transpose(FixReflection(u0, v)))) == 1.0
  {
    var u := FixReflection(u0, v);
    FixReflectionOrthogonal(u0, v);
    DetMul(v, Transpose(u));
    DetTranspose(u);
    OrthogonalDet(u);
    OrthogonalDet(v);
    SignProduct(Det(u), Det(v));
  }

  /** Whenever the decomposition returns orthogonal factors, the fitted
      matrix is a proper rotation: orthogonal with determinant +1, never a
      reflection. */
  lemma FitRotationIsRotation(m: Mat3, svd: Mat3 -> Option<Svd>)
    requires svd(m).Some? ==> Orthogonal(svd(m).value.u) && Orthogonal(svd(m).value.v)
    ensures Orthogonal(FitRotation(m, svd)) && Det(FitRotation(m, svd)) == 1.0
  {
    if svd(m).None? {
      MulIdentity(Identity);
    } else {
      FixedFactorsOrthogonal(svd(m).value.u, svd(m).value.v);
      FixedFactorsDet(svd(m).value.u, svd(m).value.v);
    }
  }

  /** Lines 130-151 for one vertex, from its accumulated Si. */
  method VertexRotation(si: seq<real>, svd: Mat3 -> Option<Svd>) returns (ri: Mat3)
    requires |si| == 9
    ensures ri == FitRotation(Regularised(si), svd)
  {
    var siMat := Rows(si);
    var siMax := MaxOf(si);
    var k := 0;
    while k < 3
      invariant 0 <= k <= 3 && siMat == ShiftDiagonal(Rows(si), siMax * Shift, k)
    {
      siMat := AddToDiagonal(siMat, k, siMax * Shift);
      k := k + 1;
    }
    var usv := svd(siMat);
    if usv.None? {
      ri := Identity;
    } else {
      var u, v := usv.value.u, usv.value.v;
      if Det(u) * Det(v) < 0.0 {
        u := NegateThirdColumn(u);
      }
      ri := Mul(v, Transpose(u));
    }
  }

  /** The rotation of vertex i when its neighbours are visited in `order`. */
  function RotationOf(p: seq<real>, pp: seq<real>, w: WeightTable, i: nat, order: seq<nat>,
                      svd: Mat3 -> Option<Svd>): Mat3
  {
    FitRotation(Regularised(Covariance(p, pp, w, i, order)), svd)
  }

  /** R[k] is the rotation of vertex k for the walk order[k] of its neighbour
      Set, for every k below |R|. */
  ghost predicate Fitted(p: seq<real>, pp: seq<real>, nt: NeighborTable, w: WeightTable,
                         svd: Mat3 -> Option<Svd>, R: seq<Mat3>, order: seq<seq<nat>>)
  {
    |R| == |order| &&
    forall k :: 0 <= k < |R| ==> k in nt && Enumerates(order[k], nt[k]) && R[k] == RotationOf(p, pp, w, k, order[k], svd)
  }

  lemma FittedStep(p: seq<real>, pp: seq<real>, nt: NeighborTable, w: WeightTable,
                   svd: Mat3 -> Option<Svd>, R: seq<Mat3>, order: seq<seq<nat>>, ri: Mat3, ord: seq<nat>)
    requires Fitted(p, pp, nt, w, svd, R, order)
    requires |R| in nt && Enumerates(ord, nt[|R|]) && ri == RotationOf(p, pp, w, |R|, ord, svd)
    ensures Fitted(p, pp, nt, w, svd, R + [ri], order + [ord])
  {
    forall k | 0 <= k < |R| + 1
      ensures k in nt && Enumerates((order + [ord])[k], nt[k])
      ensures (R + [ri])[k] == RotationOf(p, pp, w, k, (order + [ord])[k], svd)
    {
      if k < |R| {
        assert (R + [ri])[k] == R[k] && (order + [ord])[k] == order[k];
      }
    }
  }

  /** arap.js:103-152. R[i] is the rotation fitted to vertex i's covariance,
      accumulated in the order `order[i]` in which its neighbour Set is walked. */
  method CalcRotationMatrices(p: seq<real>, pp: seq<real>, nt: NeighborTable, w: WeightTable,
                              svd: Mat3 -> Option<Svd>)
    returns (R: seq<Mat3>, ghost order: seq<seq<nat>>)
    requires |p| % 3 == 0 && |pp| == |p|
    requires forall i: nat :: i < |p| / 3 ==> i in nt
    requires forall i: nat, j: nat :: i < |p| / 3 && i in nt && j in nt[i] ==> j < |p| / 3 && (i, j) in w
    ensures |R| == |p| / 3 && Fitted(p, pp, nt, w, svd, R, order)
  {
    var n := |p| / 3;
    R, order := [], [];
    var i: nat := 0;
    while i < n
      invariant i <= n && |R| == i && Fitted(p, pp, nt, w, svd, R, order)
    {
      var si, ord := AccumulateCovariance(p, pp, w, i, nt[i]);
      var ri := VertexRotation(si, svd);
      FittedStep(p, pp, nt, w, svd, R, order, ri, ord);
      R, order := R + [ri], order + [ord];
      i := i + 1;
    }
  }

  /** In exact arithmetic Si, and with it Ri, does not depend on the order in
      which the neighbour Set is walked: each entry is a sum over the set. */
  lemma CovarianceOrderFree(p: seq<real>, pp: seq<real>, w: WeightTable, i: nat, order: seq<nat>, nbrs: set<nat>, t: nat)
    requires Enumerates(order, nbrs) && t < 9
    ensures Covariance(p, pp, w, i, order)[t] == SumSet(nbrs, CovTerm(p, pp, w, i, t))
  {
    SumSeqOfEnumeration(order, nbrs, CovTerm(p, pp, w, i, t));
  }

  lemma RotationOrderFree(p: seq<real>, pp: seq<real>, w: WeightTable, i: nat,
                          order1: seq<nat>, order2: seq<nat>, nbrs: set<nat>, svd: Mat3 -> Option<Svd>)
    requires Enumerates(order1, nbrs) && Enumerates(order2, nbrs)
    ensures RotationOf(p, pp, w, i, order1, svd) == RotationOf(p, pp, w, i, order2, svd)
  {
    forall t | 0 <= t < 9
      ensures Covariance(p, pp, w, i, order1)[t] == Covariance(p, pp, w, i, order2)[t]
    {
      CovarianceOrderFree(p, pp, w, i, order1, nbrs, t);
      CovarianceOrderFree(p, pp, w, i, order2, nbrs, t);
    }
    assert Covariance(p, pp, w, i, order1) == Covariance(p, pp, w, i, order2);
  }

  /** The deformed positions moved by the same offset d everywhere. */
  function Translate(pp: seq<real>, d: Vec3): (r: seq<real>)
    ensures |r| == |pp|
  {
    seq(|pp|, k requires 0 <= k < |pp| => pp[k] + Component(d, k % 3))
  }

  lemma EdgeVectorTranslate(pp: seq<real>, d: Vec3, i: nat, j: nat)
    requires |pp| % 3 == 0 && i < |pp| / 3 && j < |pp| / 3
    ensures EdgeVector(Translate(pp, d), i, j) == EdgeVector(pp, i, j)
  {
    var q := Translate(pp, d);
    assert q[3 * i] == pp[3 * i] + d.x && q[3 * j] == pp[3 * j] + d.x;
    assert q[3 * i + 1] == pp[3 * i + 1] + d.y && q[3 * j + 1] == pp[3 * j + 1] + d.y;
    assert q[3 * i + 2] == pp[3 * i + 2] + d.z && q[3 * j + 2] == pp[3 * j + 2] + d.z;
  }

  lemma CovTermTranslate(p: seq<real>, pp: seq<real>, d: Vec3, w: WeightTable, i: nat, t: nat, j: nat)
    requires |pp| % 3 == 0 && i < |pp| / 3 && j < |pp| / 3
    ensures CovTerm(p, Translate(pp, d), w, i, t)(j) == CovTerm(p, pp, w, i, t)(j)
  {
    EdgeVectorTranslate(pp, d, i, j);
  }

  /** Si sees the deformed mesh only through its edge vectors: moving the
      whole deformed mesh leaves every covariance, and so every rotation,
      unchanged. */
  lemma CovarianceTranslationInvariant(p: seq<real>, pp: seq<real>, d: Vec3, w: WeightTable, i: nat, order: seq<nat>)
    requires |pp| % 3 == 0 && i < |pp| / 3
    requires forall k :: 0 <= k < |order| ==> order[k] < |pp| / 3
    ensures Covariance(p, Translate(pp, d), w, i, order) == Covariance(p, pp, w, i, order)
  {
    forall t | 0 <= t < 9
      ensures CovEntry(p, Translate(pp, d), w, i, order, t) == CovEntry(p, pp, w, i, order, t)
    {
      forall k | 0 <= k < |order|
        ensures CovTerm(p, Translate(pp, d), w, i, t)(order[k]) == CovTerm(p, pp, w, i, t)(order[k])
      {
        CovTermTranslate(p, pp, d, w, i, t, order[k]);
      }
      SumSeqCongruence(order, CovTerm(p, Translate(pp, d), w, i, t), CovTerm(p, pp, w, i, t));
    }
  }

  /** The outer product of a vector with itself is symmetric. */
  lemma OuterSymmetric(e: Vec3, r: nat, c: nat)
    requires r < 3 && c < 3
    ensures OuterAt(e, e, 3 * r + c) == OuterAt(e, e, 3 * c + r)
  {
  }

  /** At rest (deformed = original positions) Si is symmetric. */
  lemma CovarianceAtRestSymmetric(p: seq<real>, w: WeightTable, i: nat, order: seq<nat>, r: nat, c: nat)
    requires r < 3 && c < 3
    ensures Covariance(p, p, w, i, order)[3 * r + c] == Covariance(p, p, w, i, order)[3 * c + r]
  {
    forall k | 0 <= k < |order|
      ensures CovTerm(p, p, w, i, 3 * r + c)(order[k]) == CovTerm(p, p, w, i, 3 * c + r)(order[k])
    {
      OuterSymmetric(EdgeVector(p, i, order[k]), r, c);
    }
    SumSeqCongruence(order, CovTerm(p, p, w, i, 3 * r + c), CovTerm(p, p, w, i, 3 * c + r));
  }
}
