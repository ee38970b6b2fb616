/**
 The topology builders of arap.js:12-39: the neighbour table and the table of
 the vertex opposite each directed edge, both filled face by face.
 */
module Topology {
  import opened Mesh

  /** Vertex id to the Set of its neighbours. */
  type NeighborTable = map<nat, set<nat>>

  /** Directed edge to the third vertex of the face that lists it. */
  type OppositeTable = map<Edge, nat>

  /** The entry of v, or the fresh empty Set the source creates for it. */
  function EntryOf(nt: NeighborTable, v: nat): set<nat>
  {
    if v in nt then nt[v] else {}
  }

  /** The two corners other than v that a face (a, b, c) adds to v's entry. */
  ghost predicate FaceMates(a: nat, b: nat, c: nat, v: nat, u: nat)
  {
    (v == a && (u == b || u == c)) ||
    (v == b && (u == a || u == c)) ||
    (v == c && (u == a || u == b))
  }

  /** One iteration of arap.js:14-25: each corner gets an entry (a fresh Set
      if it had none) and the other two corners are added to it. */
  function AddFace(nt: NeighborTable, a: nat, b: nat, c: nat): (r: NeighborTable)
    ensures r.Keys == nt.Keys + {a, b, c}
    ensures forall v, u :: u in EntryOf(r, v) <==> u in EntryOf(nt, v) || FaceMates(a, b, c, v, u)
  {
    var n1 := nt[a := EntryOf(nt, a) + {b, c}];
    var n2 := n1[b := EntryOf(n1, b) + {a, c}];
    n2[c := EntryOf(n2, c) + {a, b}]
  }

  /** The table after the loop of arap.js:14-25 has visited every face in order. */
  function NeighborTableOf(faces: seq<nat>): NeighborTable
    requires |faces| % 3 == 0
  {
    if |faces| == 0 then map[]
    else
      var n := |faces| - 3;
      AddFace(NeighborTableOf(faces[..n]), faces[n], faces[n + 1], faces[n + 2])
  }

  /** u and v sit at two different corners of one face. */
  ghost predicate SharesFace(faces: seq<nat>, v: nat, u: nat)
  {
    exists f: nat, c: nat, d: nat ::
      3 * f + 2 < |faces| && c < 3 && d < 3 && c != d &&
      Corner(faces, f, c) == v && Corner(faces, f, d) == u
  }

  /** Sharing a face in a face list splits into sharing one of its earlier faces
      or being mates in its last face. */
  lemma SharesFaceLast(faces: seq<nat>, v: nat, u: nat)
    requires |faces| % 3 == 0 && |faces| > 0
    ensures var n := |faces| - 3;
      SharesFace(faces, v, u) <==>
      SharesFace(faces[..n], v, u) || FaceMates(faces[n], faces[n + 1], faces[n + 2], v, u)
  {
    var n := |faces| - 3;
    var pre := faces[..n];
    var a, b, c := faces[n], faces[n + 1], faces[n + 2];
    if SharesFace(faces, v, u) {
      var f: nat, c1: nat, d1: nat :| 3 * f + 2 < |faces| && c1 < 3 && d1 < 3 && c1 != d1 &&
        Corner(faces, f, c1) == v && Corner(faces, f, d1) == u;
      if 3 * f + 2 < n {
        assert Corner(pre, f, c1) == v && Corner(pre, f, d1) == u;
        assert SharesFace(pre, v, u);
      } else {
        assert 3 * f == n;
        assert FaceMates(a, b, c, v, u);
      }
    }
    if SharesFace(pre, v, u) {
      var f: nat, c1: nat, d1: nat :| 3 * f + 2 < |pre| && c1 < 3 && d1 < 3 && c1 != d1 &&
        Corner(pre, f, c1) == v && Corner(pre, f, d1) == u;
      assert Corner(faces, f, c1) == v && Corner(faces, f, d1) == u;
    }
    if FaceMates(a, b, c, v, u) {
      var f: nat := n / 3;
      assert 3 * f == n;
      if v == a && u == b {
        assert Corner(faces, f, 0) == v && Corner(faces, f, 1) == u;
      } else if v == a {
        assert Corner(faces, f, 0) == v && Corner(faces, f, 2) == u;
      } else if v == b && u == a {
        assert Corner(faces, f, 1) == v && Corner(faces, f, 0) == u;
      } else if v == b {
        assert Corner(faces, f, 1) == v && Corner(faces, f, 2) == u;
      } else if u == a {
        assert Corner(faces, f, 2) == v && Corner(faces, f, 0) == u;
      } else {
        assert Corner(faces, f, 2) == v && Corner(faces, f, 1) == u;
      }
    }
  }

  /** The neighbour table's keys are exactly the ids occurring in the faces,
      and each entry holds exactly the ids that share a face with its key
      (arap.js:12-27). */
  lemma {:induction false} NeighborTableAt(faces: seq<nat>, v: nat, u: nat)
    requires |faces| % 3 == 0
    ensures v in NeighborTableOf(faces) <==> v in faces
    ensures v in NeighborTableOf(faces) ==> (u in NeighborTableOf(faces)[v] <==> SharesFace(faces, v, u))
  {
    if |faces| > 0 {
      var n := |faces| - 3;
      var pre := faces[..n];
      NeighborTableAt(pre, v, u);
      assert faces == pre + [faces[n], faces[n + 1], faces[n + 2]];
      SharesFaceLast(faces, v, u);
    }
  }

  /** The neighbour relation is symmetric: u is a neighbour of v iff v is a neighbour of u. */
  lemma NeighborSymmetricAt(faces: seq<nat>, v: nat, u: nat)
    requires |faces| % 3 == 0
    requires v in NeighborTableOf(faces) && u in NeighborTableOf(faces)[v]
    ensures u in NeighborTableOf(faces) && v in NeighborTableOf(faces)[u]
  {
    NeighborTableAt(faces, v, u);
    var f: nat, c: nat, d: nat :| 3 * f + 2 < |faces| && c < 3 && d < 3 && c != d &&
      Corner(faces, f, c) == v && Corner(faces, f, d) == u;
    assert faces[3 * f + d] == u;
    assert SharesFace(faces, u, v);
    NeighborTableAt(faces, u, v);
  }

  /** When every face has three distinct corners, no vertex is its own neighbour. */
  lemma NoSelfLoops(faces: seq<nat>, v: nat)
    requires |faces| % 3 == 0 && DistinctCorners(faces)
    requires v in NeighborTableOf(faces)
    ensures v !in NeighborTableOf(faces)[v]
  {
    NeighborTableAt(faces, v, v);
    forall f: nat, c: nat, d: nat | 3 * f + 2 < |faces| && c < 3 && d < 3 && c != d
      ensures Corner(faces, f, c) != Corner(faces, f, d)
    {
    }
  }

  /** The characterisation of the neighbour table, for every pair of ids at once. */
  lemma NeighborTableFacts(faces: seq<nat>)
    requires |faces| % 3 == 0
    ensures forall v :: v in NeighborTableOf(faces) <==> v in faces
    ensures forall v, u :: v in NeighborTableOf(faces) ==> (u in NeighborTableOf(faces)[v] <==> SharesFace(faces, v, u))
    ensures forall v, u :: v in NeighborTableOf(faces) && u in NeighborTableOf(faces)[v] ==>
      u in NeighborTableOf(faces) && v in NeighborTableOf(faces)[u]
  {
    var nt := NeighborTableOf(faces);
    forall v, u ensures (v in nt <==> v in faces) && (v in nt ==> (u in nt[v] <==> SharesFace(faces, v, u))) {
      NeighborTableAt(faces, v, u);
    }
    forall v, u | v in nt && u in nt[v] ensures u in nt && v in nt[u] {
      NeighborSymmetricAt(faces, v, u);
    }
  }

  /** Face f extends the table of the faces before it. */
  lemma NeighborTableStep(faces: seq<nat>, f: nat)
    requires 3 * f + 3 <= |faces|
    ensures NeighborTableOf(faces[..3 * f + 3]) ==
      AddFace(NeighborTableOf(faces[..3 * f]), faces[3 * f], faces[3 * f + 1], faces[3 * f + 2])
  {
    assert faces[..3 * f + 3][..3 * f] == faces[..3 * f];
  }

  /** arap.js:12-27: fills the table face by face. */
  method BuildNeighborTable(faces: seq<nat>) returns (nt: NeighborTable)
    requires |faces| % 3 == 0
    ensures nt == NeighborTableOf(faces)
    ensures forall v :: v in nt <==> v in faces
    ensures forall v, u :: v in nt ==> (u in nt[v] <==> SharesFace(faces, v, u))
    ensures forall v, u :: v in nt && u in nt[v] ==> u in nt && v in nt[u]
  {
    nt := map[];
    var f := 0;
    while f < |faces| / 3
      invariant f <= |faces| / 3
      invariant nt == NeighborTableOf(faces[..3 * f])
    {
      var a, b, c := faces[3 * f], faces[3 * f + 1], faces[3 * f + 2];
      NeighborTableStep(faces, f);
      nt := AddFace(nt, a, b, c);
      f := f + 1;
    }
    assert faces[..3 * f] == faces;
    NeighborTableFacts(faces);
  }

  // ---------------------------------------------------------------------------
  // Opposite-vertex table

  /** The face (a, b, c), read as a -> b -> c -> a, contains the directed edge i -> j. */
  ghost predicate HasEdge(a: nat, b: nat, c: nat, i: nat, j: nat)
  {
    (a, b) == (i, j) || (b, c) == (i, j) || (c, a) == (i, j)
  }

  /** The corner a face (a, b, c) leaves at key i -> j: the one its last matching write stores. */
  function ThirdVertex(a: nat, b: nat, c: nat, i: nat, j: nat): nat
  {
    if (c, a) == (i, j) then b else if (b, c) == (i, j) then a else c
  }

  /** One iteration of arap.js:32-37: three writes, later ones overriding. */
  function AddOpposites(ot: OppositeTable, a: nat, b: nat, c: nat): (r: OppositeTable)
    ensures r.Keys == ot.Keys + {(a, b), (b, c), (c, a)}
  {
    ot[(a, b) := c][(b, c) := a][(c, a) := b]
  }

  /** A face writes its three edges and leaves every other key as it was. */
  lemma AddOppositesAt(ot: OppositeTable, a: nat, b: nat, c: nat, i: nat, j: nat)
    ensures (i, j) in AddOpposites(ot, a, b, c) <==> (i, j) in ot || HasEdge(a, b, c, i, j)
    ensures HasEdge(a, b, c, i, j) ==> AddOpposites(ot, a, b, c)[(i, j)] == ThirdVertex(a, b, c, i, j)
    ensures !HasEdge(a, b, c, i, j) && (i, j) in ot ==> AddOpposites(ot, a, b, c)[(i, j)] == ot[(i, j)]
  {
  }

  /** The table after the loop of arap.js:32-37 has visited every face in order. */
  function OppositeTableOf(faces: seq<nat>): OppositeTable
    requires |faces| % 3 == 0
  {
    if |faces| == 0 then map[]
    else
      var n := |faces| - 3;
      AddOpposites(OppositeTableOf(faces[..n]), faces[n], faces[n + 1], faces[n + 2])
  }

  /** Face f contains the directed edge i -> j. */
  ghost predicate ListsEdge(faces: seq<nat>, f: nat, i: nat, j: nat)
    requires 3 * f + 2 < |faces|
  {
    HasEdge(Corner(faces, f, 0), Corner(faces, f, 1), Corner(faces, f, 2), i, j)
  }

  /** The vertex face f stores at key i -> j. */
  function FaceThird(faces: seq<nat>, f: nat, i: nat, j: nat): nat
    requires 3 * f + 2 < |faces|
  {
    ThirdVertex(Corner(faces, f, 0), Corner(faces, f, 1), Corner(faces, f, 2), i, j)
  }

  /** Face f is the last face, in face order, that lists i -> j. */
  ghost predicate LastFaceWith(faces: seq<nat>, f: nat, i: nat, j: nat)
  {
    3 * f + 2 < |faces| && ListsEdge(faces, f, i, j) &&
    forall g: nat :: f < g && 3 * g + 2 < |faces| ==> !ListsEdge(faces, g, i, j)
  }

  /** A face reads the same in a prefix of the face list that contains it. */
  lemma FacePrefix(faces: seq<nat>, n: nat, f: nat, i: nat, j: nat)
    requires n <= |faces| && 3 * f + 2 < n
    ensures ListsEdge(faces[..n], f, i, j) == ListsEdge(faces, f, i, j)
    ensures FaceThird(faces[..n], f, i, j) == FaceThird(faces, f, i, j)
  {
    assert Corner(faces[..n], f, 0) == Corner(faces, f, 0);
    assert Corner(faces[..n], f, 1) == Corner(faces, f, 1);
    assert Corner(faces[..n], f, 2) == Corner(faces, f, 2);
  }

  /** The opposite table has a key for exactly the directed edges a -> b,
      b -> c, c -> a of the faces (arap.js:30-39). */
  lemma {:induction false} OppositeKeysAt(faces: seq<nat>, i: nat, j: nat)
    requires |faces| % 3 == 0
    ensures (i, j) in OppositeTableOf(faces) <==>
      exists f: nat :: 3 * f + 2 < |faces| && ListsEdge(faces, f, i, j)
  {
    if |faces| > 0 {
      var n := |faces| - 3;
      var m: nat := n / 3;
      assert 3 * m == n;
      OppositeKeysAt(faces[..n], i, j);
      AddOppositesAt(OppositeTableOf(faces[..n]), faces[n], faces[n + 1], faces[n + 2], i, j);
      if (i, j) in OppositeTableOf(faces) {
        if ListsEdge(faces, m, i, j) {
        } else {
          var f: nat :| 3 * f + 2 < n && ListsEdge(faces[..n], f, i, j);
          FacePrefix(faces, n, f, i, j);
        }
      } else {
        forall f: nat | 3 * f + 2 < |faces|
          ensures !ListsEdge(faces, f, i, j)
        {
          if f < m { FacePrefix(faces, n, f, i, j); }
        }
      }
    }
  }

  /** The value at a key of the opposite table is the third vertex of the
      last face that lists it: the last write wins (arap.js:30-39). */
  lemma {:induction false} OppositeValueAt(faces: seq<nat>, i: nat, j: nat)
    requires |faces| % 3 == 0
    requires (i, j) in OppositeTableOf(faces)
    ensures exists f: nat :: LastFaceWith(faces, f, i, j) && OppositeTableOf(faces)[(i, j)] == FaceThird(faces, f, i, j)
  {
    var n := |faces| - 3;
    var pre := faces[..n];
    var m: nat := n / 3;
    assert 3 * m == n;
    AddOppositesAt(OppositeTableOf(pre), faces[n], faces[n + 1], faces[n + 2], i, j);
    if ListsEdge(faces, m, i, j) {
      assert LastFaceWith(faces, m, i, j);
    } else {
      OppositeValueAt(pre, i, j);
      var f: nat :| LastFaceWith(pre, f, i, j) && OppositeTableOf(pre)[(i, j)] == FaceThird(pre, f, i, j);
      FacePrefix(faces, n, f, i, j);
      forall g: nat | f < g && 3 * g + 2 < |faces|
        ensures !ListsEdge(faces, g, i, j)
      {
        if g < m { FacePrefix(faces, n, g, i, j); }
      }
      assert LastFaceWith(faces, f, i, j);
    }
  }

  /** Face f extends the table of the faces before it. */
  lemma OppositeTableStep(faces: seq<nat>, f: nat)
    requires 3 * f + 3 <= |faces|
    ensures OppositeTableOf(faces[..3 * f + 3]) ==
      AddOpposites(OppositeTableOf(faces[..3 * f]), faces[3 * f], faces[3 * f + 1], faces[3 * f + 2])
  {
    assert faces[..3 * f + 3][..3 * f] == faces[..3 * f];
  }

  /** arap.js:30-39: fills the table face by face. */
  method BuildOppositeVtxIdOfEdge(faces: seq<nat>) returns (ot: OppositeTable)
    requires |faces| % 3 == 0
    ensures ot == OppositeTableOf(faces)
    ensures forall i: nat, j: nat :: (i, j) in ot <==>
      exists f: nat :: 3 * f + 2 < |faces| && ListsEdge(faces, f, i, j)
    ensures forall i: nat, j: nat :: (i, j) in ot ==>
      exists f: nat :: LastFaceWith(faces, f, i, j) && ot[(i, j)] == FaceThird(faces, f, i, j)
  {
    ot := map[];
    var f := 0;
    while f < |faces| / 3
      invariant f <= |faces| / 3
      invariant ot == OppositeTableOf(faces[..3 * f])
    {
      var a, b, c := faces[3 * f], faces[3 * f + 1], faces[3 * f + 2];
      OppositeTableStep(faces, f);
      ot := AddOpposites(ot, a, b, c);
      f := f + 1;
    }
    assert faces[..3 * f] == faces;
    OppositeTableFacts(faces);
  }

  /** The characterisation of the opposite table, for every directed edge at once. */
  lemma OppositeTableFacts(faces: seq<nat>)
    requires |faces| % 3 == 0
    ensures forall i: nat, j: nat :: (i, j) in OppositeTableOf(faces) <==>
      exists f: nat :: 3 * f + 2 < |faces| && ListsEdge(faces, f, i, j)
    ensures forall i: nat, j: nat :: (i, j) in OppositeTableOf(faces) ==>
      exists f: nat :: LastFaceWith(faces, f, i, j) && OppositeTableOf(faces)[(i, j)] == FaceThird(faces, f, i, j)
  {
    var ot := OppositeTableOf(faces);
    forall i: nat, j: nat
      ensures (i, j) in ot <==> exists f: nat :: 3 * f + 2 < |faces| && ListsEdge(faces, f, i, j)
    {
      OppositeKeysAt(faces, i, j);
    }
    forall i: nat, j: nat | (i, j) in ot
      ensures exists f: nat :: LastFaceWith(faces, f, i, j) && ot[(i, j)] == FaceThird(faces, f, i, j)
    {
      OppositeValueAt(faces, i, j);
    }
  }

  /** Every neighbour pair has an opposite entry in at least one direction: two
      corners of a face are joined by one of its three directed edges one way or
      the other. This is why the weight of arap.js:74-77 is never undefined. */
  lemma NeighborPairHasOpposite(faces: seq<nat>, v: nat, u: nat)
    requires |faces| % 3 == 0
    requires v in NeighborTableOf(faces) && u in NeighborTableOf(faces)[v]
    ensures (v, u) in OppositeTableOf(faces) || (u, v) in OppositeTableOf(faces)
  {
    NeighborTableAt(faces, v, u);
    var f: nat, c: nat, d: nat :| 3 * f + 2 < |faces| && c < 3 && d < 3 && c != d &&
      Corner(faces, f, c) == v && Corner(faces, f, d) == u;
    if (c, d) == (0, 1) || (c, d) == (1, 2) || (c, d) == (2, 0) {
      assert ListsEdge(faces, f, v, u);
      OppositeKeysAt(faces, v, u);
    } else {
      assert ListsEdge(faces, f, u, v);
      OppositeKeysAt(faces, u, v);
    }
  }
}
