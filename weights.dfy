/**
 The cotangent edge weights of arap.js:42-83. The geometry of `calcCot`
 (lines 47-58) is abstracted: `cot(i, j, k)` stands for the quotient
 cosine / sine of the angle at k in triangle (i, j, k) over the rest
 positions, before the clamp of line 56, which the model keeps.
 */
module Weights {
  import opened Mesh
  import opened Topology

  /** Directed edge to its weight: the string-keyed map `wIJ`. */
  type WeightTable = map<Edge, real>

  /** `wIJ.get(`${i}-${j}`)`, read as 0 where the table has no such key. */
  function Weight(w: WeightTable, i: nat, j: nat): real
  {
    if (i, j) in w then w[(i, j)] else 0.0
  }

  /** The weights of the edges leaving i, as a function of the other end. */
  function RowWeight(w: WeightTable, i: nat): nat -> real
  {
    (j: nat) => Weight(w, i, j)
  }

  /** The larger and the smaller of two ids. */
  function Hi(a: nat, b: nat): nat { if a >= b then a else b }
  function Lo(a: nat, b: nat): nat { if a >= b then b else a }

  /** `calcCot(i, j, k)` with its clamp: never negative, and the cotangent itself
      whenever that is not negative. */
  function ClampedCot(cot: (nat, nat, nat) -> real, i: nat, j: nat, k: nat): (r: real)
    ensures r >= 0.0
    ensures cot(i, j, k) >= 0.0 ==> r == cot(i, j, k)
    ensures cot(i, j, k) < 0.0 ==> r == 0.0
  {
    Max(cot(i, j, k), 0.0)
  }

  /** The clamped cotangent at the vertex opposite the directed edge e, or
      undefined when the opposite table has no key e (lines 60-72). */
  function CotThrough(ot: OppositeTable, cot: (nat, nat, nat) -> real, i: nat, j: nat, e: Edge): Option<real>
  {
    if e in ot then Some(ClampedCot(cot, i, j, ot[e])) else None
  }

  /** The weight computed when vertex i visits its neighbour j (lines 60-77): the
      single clamped cotangent of a boundary edge, the mean of the two of an
      interior edge, undefined when neither direction has an opposite vertex. */
  function PairWeight(ot: OppositeTable, cot: (nat, nat, nat) -> real, i: nat, j: nat): (w: Option<real>)
    ensures w.Some? <==> (i, j) in ot || (j, i) in ot
    ensures w.Some? ==> w.value >= 0.0
    ensures (i, j) in ot && (j, i) in ot ==>
      w.value == 0.5 * (ClampedCot(cot, i, j, ot[(i, j)]) + ClampedCot(cot, i, j, ot[(j, i)]))
    ensures (i, j) in ot && (j, i) !in ot ==> w.value == ClampedCot(cot, i, j, ot[(i, j)])
    ensures (i, j) !in ot && (j, i) in ot ==> w.value == ClampedCot(cot, i, j, ot[(j, i)])
  {
    var alpha := CotThrough(ot, cot, i, j, (i, j));
    var beta := CotThrough(ot, cot, i, j, (j, i));
    if alpha.None? then beta
    else if beta.None? then alpha
    else Some(0.5 * (alpha.value + beta.value))
  }

  /** When the cotangent does not depend on the order of the edge's endpoints
      (as the geometry's dot product and cross-product length do not), the
      weight is the same whichever endpoint computes it. */
  lemma PairWeightOrientation(ot: OppositeTable, cot: (nat, nat, nat) -> real, i: nat, j: nat)
    requires forall k: nat :: cot(i, j, k) == cot(j, i, k)
    ensures PairWeight(ot, cot, i, j) == PairWeight(ot, cot, j, i)
  {
    if (i, j) in ot {
      assert ClampedCot(cot, i, j, ot[(i, j)]) == ClampedCot(cot, j, i, ot[(i, j)]);
    }
    if (j, i) in ot {
      assert ClampedCot(cot, i, j, ot[(j, i)]) == ClampedCot(cot, j, i, ot[(j, i)]);
    }
  }

  /** Directed pair a -> b has been visited once the outer loop has passed a,
      or is at a and the inner loop has passed b. */
  ghost predicate Visited(nt: NeighborTable, v: nat, done: set<nat>, a: nat, b: nat)
  {
    (a < v && a in nt && b in nt[a]) || (a == v && b in done)
  }

  /** What `wIJ` holds for the pair {a, b} at that point: each visit writes
      both directions, so the later visit, from the larger id, wins. */
  ghost function Stored(nt: NeighborTable, ot: OppositeTable, cot: (nat, nat, nat) -> real,
                        v: nat, done: set<nat>, a: nat, b: nat): Option<real>
  {
    if Visited(nt, v, done, Hi(a, b), Lo(a, b)) then PairWeight(ot, cot, Hi(a, b), Lo(a, b))
    else PairWeight(ot, cot, Lo(a, b), Hi(a, b))
  }

  /** Visiting j from v marks exactly the directed pair v -> j. */
  lemma VisitStep(nt: NeighborTable, v: nat, done: set<nat>, j: nat, a: nat, b: nat)
    ensures Visited(nt, v, done + {j}, a, b) <==> Visited(nt, v, done, a, b) || (a == v && b == j)
  {
  }

  /** Visiting j from v leaves what every other pair holds unchanged, and
      stores the weight computed at v for the pair {v, j}. */
  lemma StoredStep(nt: NeighborTable, ot: OppositeTable, cot: (nat, nat, nat) -> real,
                   v: nat, done: set<nat>, j: nat, a: nat, b: nat)
    requires v in nt && j in nt[v] && j !in done
    ensures (a, b) != (v, j) && (a, b) != (j, v) ==>
      Stored(nt, ot, cot, v, done + {j}, a, b) == Stored(nt, ot, cot, v, done, a, b)
    ensures (a, b) == (v, j) || (a, b) == (j, v) ==>
      Stored(nt, ot, cot, v, done + {j}, a, b) == PairWeight(ot, cot, v, j)
  {
    VisitStep(nt, v, done, j, Hi(a, b), Lo(a, b));
  }

  /** Finishing the neighbours of v is the same as starting v + 1. */
  lemma VisitAdvance(nt: NeighborTable, ot: OppositeTable, cot: (nat, nat, nat) -> real, v: nat, a: nat, b: nat)
    requires v in nt
    ensures Visited(nt, v, nt[v], a, b) <==> Visited(nt, v + 1, {}, a, b)
    ensures Stored(nt, ot, cot, v, nt[v], a, b) == Stored(nt, ot, cot, v + 1, {}, a, b)
  {
  }

  /** The loop invariant of `buildWij`: the table has keys exactly for the
      visited pairs, in either direction, and holds what the visits stored. */
  ghost predicate Recorded(w: WeightTable, nt: NeighborTable, ot: OppositeTable, cot: (nat, nat, nat) -> real,
                           v: nat, done: set<nat>)
  {
    (forall a: nat, b: nat :: (a, b) in w <==> Visited(nt, v, done, a, b) || Visited(nt, v, done, b, a)) &&
    (forall a: nat, b: nat :: (a, b) in w ==> Some(w[(a, b)]) == Stored(nt, ot, cot, v, done, a, b))
  }

  /** One pass of the inner loop (lines 78-79) keeps the invariant. */
  lemma {:induction false} InnerStep(w: WeightTable, nt: NeighborTable, ot: OppositeTable, cot: (nat, nat, nat) -> real,
                                     v: nat, done: set<nat>, j: nat, x: real)
    requires v in nt && j in nt[v] && j !in done
    requires Some(x) == PairWeight(ot, cot, v, j)
    requires Recorded(w, nt, ot, cot, v, done)
    ensures Recorded(w[(v, j) := x][(j, v) := x], nt, ot, cot, v, done + {j})
  {
    var w' := w[(v, j) := x][(j, v) := x];
    forall a: nat, b: nat
      ensures (a, b) in w' <==> Visited(nt, v, done + {j}, a, b) || Visited(nt, v, done + {j}, b, a)
      ensures (a, b) in w' ==> Some(w'[(a, b)]) == Stored(nt, ot, cot, v, done + {j}, a, b)
    {
      VisitStep(nt, v, done, j, a, b);
      VisitStep(nt, v, done, j, b, a);
      StoredStep(nt, ot, cot, v, done, j, a, b);
    }
  }

  /** Finishing the neighbours of v is starting v + 1. */
  lemma {:induction false} OuterStep(w: WeightTable, nt: NeighborTable, ot: OppositeTable, cot: (nat, nat, nat) -> real,
                                     v: nat)
    requires v in nt
    requires Recorded(w, nt, ot, cot, v, nt[v])
    ensures Recorded(w, nt, ot, cot, v + 1, {})
  {
    forall a: nat, b: nat
      ensures (a, b) in w <==> Visited(nt, v + 1, {}, a, b) || Visited(nt, v + 1, {}, b, a)
      ensures (a, b) in w ==> Some(w[(a, b)]) == Stored(nt, ot, cot, v + 1, {}, a, b)
    {
      VisitAdvance(nt, ot, cot, v, a, b);
      VisitAdvance(nt, ot, cot, v, b, a);
    }
  }

  /** After every vertex has been visited, the keys are the neighbour pairs and
      each pair holds the weight computed from its larger id. */
  lemma {:induction false} Finish(w: WeightTable, faces: seq<nat>, n: nat, nt: NeighborTable, ot: OppositeTable,
                                  cot: (nat, nat, nat) -> real)
    requires ValidFaces(faces, n) && nt == NeighborTableOf(faces)
    requires Recorded(w, nt, ot, cot, n, {})
    ensures forall i: nat, j: nat :: (i, j) in w <==> i in nt && j in nt[i]
    ensures forall i: nat, j: nat :: (i, j) in w ==> (j, i) in w && w[(j, i)] == w[(i, j)] && w[(i, j)] >= 0.0
    ensures forall i: nat, j: nat :: (i, j) in w ==> Some(w[(i, j)]) == PairWeight(ot, cot, Hi(i, j), Lo(i, j))
  {
    forall i: nat, j: nat
      ensures (i, j) in w <==> i in nt && j in nt[i]
      ensures (i, j) in w ==> (j, i) in w && w[(j, i)] == w[(i, j)] && w[(i, j)] >= 0.0
      ensures (i, j) in w ==> Some(w[(i, j)]) == PairWeight(ot, cot, Hi(i, j), Lo(i, j))
    {
      NeighborTableAt(faces, i, j);
      NeighborTableAt(faces, j, i);
      if i in nt && j in nt[i] {
        NeighborSymmetricAt(faces, i, j);
      }
      if j in nt && i in nt[j] {
        NeighborSymmetricAt(faces, j, i);
      }
    }
  }

  /** arap.js:42-83. Keys exist exactly for the neighbour pairs, both
      directions hold the same non-negative value, and that value is the
      weight computed from the pair's larger id, the last to write it. */
  method BuildWij(p: seq<real>, faces: seq<nat>, nt: NeighborTable, ot: OppositeTable,
                  cot: (nat, nat, nat) -> real) returns (w: WeightTable)
    requires |p| % 3 == 0 && ValidFaces(faces, |p| / 3)
    requires nt == NeighborTableOf(faces) && ot == OppositeTableOf(faces)
    ensures forall i: nat, j: nat :: (i, j) in w <==> i in nt && j in nt[i]
    ensures forall i: nat, j: nat :: (i, j) in w ==> (j, i) in w && w[(j, i)] == w[(i, j)] && w[(i, j)] >= 0.0
    ensures forall i: nat, j: nat :: (i, j) in w ==> Some(w[(i, j)]) == PairWeight(ot, cot, Hi(i, j), Lo(i, j))
  {
    var n := |p| / 3;
    w := map[];
    RecordedEmpty(nt, ot, cot);
    var v: nat := 0;
    while v < n
      invariant v <= n
      invariant Recorded(w, nt, ot, cot, v, {})
    {
      HasEntry(faces, n, v);
      w := VisitVertex(w, faces, nt, ot, cot, v);
      v := v + 1;
    }
    Finish(w, faces, n, nt, ot, cot);
  }

  /** Before any visit the empty table is what the invariant asks for. */
  lemma RecordedEmpty(nt: NeighborTable, ot: OppositeTable, cot: (nat, nat, nat) -> real)
    ensures Recorded(map[], nt, ot, cot, 0, {})
  {
  }

  /** Every vertex of a valid mesh has a neighbour entry. */
  lemma HasEntry(faces: seq<nat>, n: nat, v: nat)
    requires ValidFaces(faces, n) && v < n
    ensures v in NeighborTableOf(faces)
  {
    NeighborTableAt(faces, v, 0);
  }

  /** Lines 50-81 for one vertex v: walks its neighbour Set, writing the
      weight of every pair {v, j} in both directions. */
  method VisitVertex(w0: WeightTable, faces: seq<nat>, nt: NeighborTable, ot: OppositeTable,
                     cot: (nat, nat, nat) -> real, v: nat) returns (w: WeightTable)
    requires |faces| % 3 == 0 && nt == NeighborTableOf(faces) && ot == OppositeTableOf(faces)
    requires v in nt && Recorded(w0, nt, ot, cot, v, {})
    ensures Recorded(w, nt, ot, cot, v + 1, {})
  {
    w := w0;
    var rest := nt[v];
    ghost var done: set<nat> := {};
    while rest != {}
      invariant done + rest == nt[v] && done !! rest
      invariant Recorded(w, nt, ot, cot, v, done)
      decreases rest
    {
      var j :| j in rest;
      NeighborPairHasOpposite(faces, v, j);
      var wv := PairWeight(ot, cot, v, j);
      InnerStep(w, nt, ot, cot, v, done, j, wv.value);
      w := w[(v, j) := wv.value][(j, v) := wv.value];
      rest := rest - {j};
      done := done + {j};
    }
    OuterStep(w, nt, ot, cot, v);
  }
}
