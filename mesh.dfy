/**
 The shared vocabulary of the ARAP core (arap.js): the vertex tag, the flat
 triangle index buffer and the directed-edge keys of its tables.
 */
module Mesh {

  datatype Option<T> = None | Some(value: T)

  /** The per-vertex tag of arap.js:5-9. */
  datatype VertexType = Fixed | Draggable | Calculated

  /** A directed edge i -> j; the source spells it as the string key `${i}-${j}`,
      which is injective on non-negative integer ids, so a pair loses nothing. */
  type Edge = (nat, nat)

  /** A triangle index buffer over the vertices 0..n-1: three ids per face,
      every id names a vertex and every vertex lies on some face (a vertex on no
      face has no neighbour entry, and the source would fail when it looks it up). */
  ghost predicate ValidFaces(faces: seq<nat>, n: nat)
  {
    |faces| % 3 == 0 && forall v: nat :: v in faces <==> v < n
  }

  /** A single triangle over three vertices is a valid mesh with distinct
      corners, so the meshes these predicates describe exist. */
  lemma OneTriangleIsValid()
    ensures ValidFaces([0, 1, 2], 3) && DistinctCorners([0, 1, 2])
  {
    forall v: nat ensures v in [0, 1, 2] <==> v < 3 {
      if v < 3 { assert [0, 1, 2][v] == v; }
    }
  }

  /** Corner c (0, 1 or 2) of face f: `faces.slice(3 * f, 3 * f + 3)[c]`. */
  function Corner(faces: seq<nat>, f: nat, c: nat): nat
    requires 3 * f + c < |faces|
  {
    faces[3 * f + c]
  }

  /** The corners of every face are pairwise distinct. */
  ghost predicate DistinctCorners(faces: seq<nat>)
  {
    forall f: nat :: 3 * f + 2 < |faces| ==>
      Corner(faces, f, 0) != Corner(faces, f, 1) &&
      Corner(faces, f, 1) != Corner(faces, f, 2) &&
      Corner(faces, f, 2) != Corner(faces, f, 0)
  }

  /** `Math.max` on two reals. */
  function Max(x: real, y: real): real
  {
    if x >= y then x else y
  }
}
