# ARAP deformation core, modelled in Dafny

This project models the As-Rigid-As-Possible (ARAP) mesh deformation of
`arap.js` and proves properties of it. The model covers each stage:

- The topology builders turn a flat triangle index buffer into a neighbour
  table (vertex id to the Set of ids it shares a face with). They also build
  an opposite-vertex table (directed edge `i-j` to the third vertex of the
  face that lists it).
- `buildWij` combines the clamped cotangents on either side of every edge
  into a symmetric, non-negative weight table.
- `buildMatrixL` assembles the sparse cotangent Laplacian, one row per vertex.
- `calcRotationMatrices` is the local step. It accumulates each vertex's
  covariance Si. It shifts the diagonal by 1e-6 times the largest entry,
  fixes reflections in the decomposition's factors, and falls back to the
  identity on NaN.
- `updateVtxPosARAP` is the global step:
  - it numbers the Calculated vertices 0..m-1 as the unknowns;
  - it builds the right-hand side b from the rotations;
  - it splits every Laplacian row into the m x m system (as triplets) and a
    pinned part moved into b;
  - it solves each coordinate and writes the unknowns back in place.

The modules follow those stages:

- `Mesh` holds the shared vocabulary.
- `Topology`, `Weights`, `Laplacian`, `Rotation` and `ArapSolve` model the
  stages.
- `Sums` covers running totals over a Set walked in an unspecified order.
- `Linalg` covers the 3x3 matrix algebra the rotation fit relies on.

The source's loops are methods with loop invariants. Each is proved against
a specification function (`NeighborTableOf`, `OppositeTableOf`,
`LaplacianRow`, `Covariance`, `FitRotation`, `RhsOf`, `RowTriplets`,
`Reduced`), and the lemmas state what those functions mean.

JavaScript Sets are modelled as `set<nat>`. A loop over a Set whose result
depends on the walk returns, as a ghost out-parameter, the order in which it
walked the Set (`BuildRow`, `AccumulateCovariance`, `VertexRhs`). The order
is left open; only `Enumerates(order, set)` is known. The walk of
`VisitVertex` writes each pair's weight under its own key, so it tracks only
the set of neighbours already visited, as a ghost `done` set. The string keys
`${i}-${j}` are modelled as pairs `(i, j)`, which is injective on
non-negative ids. Positions are flat `seq<real>` buffers (`array<real>`
where the source overwrites them in place). Arithmetic is exact (`real`).

Two behaviours of the code are easy to misread; the model follows the code
as written:

- The regularisation adds `Math.max(...Si) * 1e-6` to the diagonal. That is
  the signed maximum, not the largest magnitude (arap.js:130-133).
- There is no guard for an empty set of unknowns, and the factorisation is
  not cached between calls. Each call of `updateVtxPosARAP` refactors.

## Model

| member | source | states |
|---|---|---|
| Topology.AddFace | arap.js:15-24 | one face gives each corner an entry (a fresh Set if it had none); the other two corners are added to it, and nothing else changes |
| Topology.NeighborTableAt | arap.js:12-27 | v has an entry iff it occurs in a face; u is in v's entry iff u and v sit at two different corners of one face |
| Topology.NeighborSymmetricAt | arap.js:12-27 | u is a neighbour of v iff v is a neighbour of u |
| Topology.NoSelfLoops | arap.js:12-27 | when every face has three distinct corners, no vertex is its own neighbour |
| Topology.NeighborTableFacts | arap.js:12-27 | the key, entry and symmetry facts above, for all ids at once |
| Topology.BuildNeighborTable | arap.js:12-27 | the face-by-face loop yields the table of the whole face list: keys are the ids in the faces, entries are the face-sharing ids, and the relation is symmetric |
| Topology.SharesFaceLast | arap.js:13-24 | sharing a face in a face list is sharing one of its earlier faces or being mates in its last face |
| Topology.AddOppositesAt | arap.js:33-35 | one face writes the keys a-b, b-c and c-a (a later write overrides an earlier one) and leaves every other key as it was |
| Topology.OppositeKeysAt | arap.js:30-39 | a directed key i-j is present iff some face lists the edge i -> j |
| Topology.OppositeValueAt | arap.js:30-39 | the value at a key is the third vertex of the last face, in face order, that lists that directed edge |
| Topology.OppositeTableFacts | arap.js:30-39 | the key and value facts above, for all keys at once |
| Topology.BuildOppositeVtxIdOfEdge | arap.js:30-39 | the loop yields the table of the whole face list: keys are exactly the faces' directed edges, and each value comes from the last face listing that key |
| Topology.NeighborPairHasOpposite | arap.js:60-77 | every neighbour pair has an opposite entry in at least one direction, so a weight is always computed |
| Weights.ClampedCot | arap.js:56 | the clamped cotangent is never negative; it equals the cotangent when that is non-negative and is 0 otherwise |
| Weights.PairWeight | arap.js:60-77 | the weight is defined iff an opposite vertex exists in either direction; it is the mean of the two clamped cotangents when both exist, the single one otherwise, and never negative |
| Weights.PairWeightOrientation | arap.js:47-77 | when the cotangent does not depend on the order of the edge's ends, both ends compute the same weight |
| Weights.StoredStep | arap.js:78-79 | visiting j from v stores v's weight for {v, j} in both directions and changes no other pair |
| Weights.InnerStep | arap.js:61-79 | one pass of the inner loop keeps the invariant: keys are exactly the visited pairs in both directions, with the values the visits stored |
| Weights.OuterStep | arap.js:44-46 | finishing v's neighbours is the invariant at the start of v + 1 |
| Weights.Finish | arap.js:42-83 | after all vertices: keys exist exactly for neighbour pairs, both directions hold the same non-negative value, and that value is the weight computed from the larger id (the last writer) |
| Weights.VisitVertex | arap.js:45-80 | the inner loop over v's neighbour Set takes the invariant from v to v + 1 |
| Weights.BuildWij | arap.js:42-83 | keys exactly for neighbour pairs, symmetric, non-negative, and the value is the weight computed when the larger id visits the smaller |
| Laplacian.OffDiagonal | arap.js:91-96 | the off-diagonal part lists (j, -w_ij) for each neighbour j, in the walk order |
| Laplacian.BuildRow | arap.js:89-97 | the inner loop walks the whole neighbour Set; the row has one (j, -w_ij) per neighbour and ends with (i, the sum of the weights over the set) |
| Laplacian.BuildMatrixL | arap.js:86-100 | one row per vertex; row i is the Laplacian row for the walk of i's neighbour Set |
| Laplacian.RowShape | arap.js:86-100 | whatever the walk order, row i has exactly one entry (j, -w_ij) per neighbour j (every neighbour appears, no column twice) and then the diagonal (i, sum of the weights over the neighbour set) |
| Laplacian.RowColumns | arap.js:91-94 | the off-diagonal columns are the walked neighbours in order: every neighbour has an entry and no two entries share a column |
| Laplacian.RowSumZero | arap.js:86-100 | every row sums to zero |
| Laplacian.OffDiagonalSum | arap.js:91-96 | the off-diagonal entries sum to minus the weight total |
| Laplacian.DiagonalIsNeighborSum | arap.js:90-97 | whatever order the Set is walked in, the diagonal is the sum of the weights over the neighbour set |
| Laplacian.OffDiagonalColumn | arap.js:91-94 | read densely, the off-diagonal part holds -w_ij at each neighbour column and 0 elsewhere |
| Laplacian.LaplacianEntry | arap.js:86-100 | when i is not its own neighbour (which `NoSelfLoops` gives for faces with distinct corners), row i read densely holds the weight sum on the diagonal, -w_ij at each neighbour and 0 elsewhere |
| Laplacian.RowSigns | arap.js:86-100 | with non-negative weights, off-diagonal entries are at most 0 and the diagonal at least 0 |
| Laplacian.MatrixLSymmetric | arap.js:86-100 | built from the symmetric weights of a mesh with distinct face corners, the dense matrix is symmetric |
| Rotation.AddScaled | arap.js:124-126 | every entry of Si gains w_ij times the matching outer-product entry |
| Rotation.CovarianceStep | arap.js:111-126 | adding neighbour j's weighted outer product extends Si by j |
| Rotation.AccumulateCovariance | arap.js:110-127 | walks the whole neighbour Set; entry t of Si is the sum over the neighbour set of w_ij times entry t of the outer product of e_ij and e'_ij |
| Rotation.CovarianceOrderFree | arap.js:111 | in exact arithmetic, each entry of Si is a sum over the neighbour set, whatever order it is walked in |
| Rotation.RotationOrderFree | arap.js:109-150 | Ri does not depend on the walk order |
| Rotation.CovarianceTranslationInvariant | arap.js:115-118 | moving the whole deformed mesh by a constant offset leaves Si unchanged |
| Rotation.CovarianceAtRestSymmetric | arap.js:110-127 | at rest (deformed = original positions), Si is symmetric |
| Rotation.MaxOf | arap.js:130 | `Math.max(...Si)` is an entry of Si and at least every entry (signed, not absolute) |
| Rotation.RegularisedIsShiftedSi | arap.js:129-133 | regularisation adds the same multiple of the identity, the maximum times 1e-6, and changes only the three diagonal entries |
| Rotation.VertexRotation | arap.js:129-148 | the diagonal shift loop, the decomposition, the reflection fix and the NaN fallback compute FitRotation of the regularised Si |
| Rotation.NegateThirdColumn | arap.js:139-141 | negating U's third column flips the sign of det U |
| Rotation.NegateThirdColumnOrthogonal | arap.js:139-141 | negating a column keeps U orthogonal |
| Rotation.FixReflection | arap.js:138-142 | U is changed only when det U * det V < 0, and then only by negating its third column; afterwards det U * det V >= 0 |
| Rotation.FixReflectionOrthogonal | arap.js:138-142 | the reflection fix keeps U orthogonal |
| Rotation.FixedFactorsOrthogonal | arap.js:143-144 | V U^T after the fix is orthogonal when U and V are |
| Rotation.FixedFactorsDet | arap.js:136-144 | V U^T after the fix has determinant +1 when U and V are orthogonal |
| Rotation.FitRotationIsRotation | arap.js:134-148 | whenever the decomposition yields orthogonal factors, Ri is a proper rotation; on NaN it is the identity, also a rotation |
| Rotation.CalcRotationMatrices | arap.js:103-152 | one matrix per vertex; R[i] is the rotation fitted to the covariance of i's neighbour walk |
| Linalg.DetMul | arap.js:136-145 | the determinant is multiplicative |
| Linalg.OrthogonalDet | arap.js:136-138 | an orthogonal matrix has determinant 1 or -1 |
| Linalg.OrthogonalMul | arap.js:144 | a product of orthogonal matrices is orthogonal |
| Linalg.OrthogonalTranspose | arap.js:143 | the transpose of an orthogonal matrix is orthogonal |
| Sums.SumSeqOfEnumeration | arap.js:91-96 | a running total over any walk of a Set equals the order-free sum over the set |
| Sums.EnumerationLength | arap.js:91 | a Set walk visits as many elements as the set holds |
| ArapSolve.CalculatedIds | arap.js:156-158 | `newToOri` lists exactly the Calculated ids, strictly increasing |
| ArapSolve.IndexMap | arap.js:160-162 | `oriToNew` is -1 everywhere except at the listed ids, where it holds the id's place in `newToOri`: the two are inverse |
| ArapSolve.InverseUnlisted | arap.js:160-162 | `oriToNew[v] == -1` iff v is not Calculated |
| ArapSolve.VertexRhs | arap.js:167-186 | walks the neighbour Set of i; b_i is the sum over the set of (Ri + Rj)(p_i - p_j) w_ij / 2 |
| ArapSolve.RotationRhs | arap.js:164-190 | b has one row per unknown: the rotated right-hand side of that vertex |
| ArapSolve.RhsOrderFree | arap.js:174 | b_i does not depend on the walk order of the neighbour Set |
| ArapSolve.RhsAtIdentity | arap.js:164-187 | with every rotation the identity, b_i is row i of the Laplacian times the rest positions |
| ArapSolve.RowTimesOrderFree | arap.js:90-97 | row i of the Laplacian times any positions is the same whatever order the neighbour Set was walked in |
| ArapSolve.PinnedAtRest | arap.js:198-205 | when every vertex that is not Calculated sits at its rest position, the pinned columns read the rest coordinates |
| ArapSolve.RestRow | arap.js:164-205 | with identity rotations and the pinned vertices at rest, row k of the assembled system holds at the rest positions of the unknowns |
| ArapSolve.RestShapeSolves | arap.js:155-208 | when every fitted rotation is the identity and the vertices that are not Calculated sit at their rest positions, the unknowns' rest positions solve the assembled system, coordinate by coordinate |
| ArapSolve.EliminateRow | arap.js:197-207 | walking one row of L sends each Calculated column to a triplet and subtracts L_ij times the current position of each other column from b |
| ArapSolve.Eliminate | arap.js:192-208 | the system's triplets, row after row, and b with every row's pinned part moved across |
| ArapSolve.RowTripletsEntries | arap.js:198-201 | row newI's triplets are exactly its Calculated-column entries at (newI, oriToNew[j]) |
| ArapSolve.SystemRow | arap.js:194-208 | row r of the assembled system is made only of the r-th unknown's triplets |
| ArapSolve.EliminationSplit | arap.js:196-208 | the elimination loses nothing: a row of L times any positions is the system row times the unknowns plus the pinned part |
| ArapSolve.PinnedSumFrame | arap.js:203-205 | the pinned part reads only the positions of vertices that are not unknowns |
| ArapSolve.GlobalStep | arap.js:210-225 | when the written unknowns solve the assembled system, every unknown's row of L times the new positions equals its b |
| ArapSolve.WriteBack | arap.js:220-225 | each unknown's three coordinates become its solved values, and every other coordinate is unchanged |
| ArapSolve.AssembleSystem | arap.js:156-208 | the unknowns are the Calculated ids; rotations, renumbering, b, triplets and the reduced b are as the stages above define them |
| ArapSolve.UpdateVtxPosARAP | arap.js:155-228 | the unknowns get the solver's values, Fixed and Draggable vertices keep their coordinates, and whenever the solver's output solves the system, L times the new positions equals b on every unknown's row |
| ArapSolve.OthersKept | arap.js:220-225 | vertices that are not Calculated are never written |
| ArapSolve.SolvedRows | arap.js:210-225 | after the write-back, each solved coordinate satisfies the unknowns' rows of L x = b |

## Left out

- main.js: scene setup, input handling, loading and rendering, which call
  this core but hold no ARAP logic.
- The geometry of `calcCot` (arap.js:47-58): normalisation, cross product and
  square roots on floats. The cotangent is a parameter `cot(i, j, k)`; the
  clamp at 0 of line 56 is modelled.
- `numeric.svd` (arap.js:134): the decomposition is a parameter `svd` that
  returns U and V, or None where its output would make the determinant of Ri
  NaN. That None yields the identity (arap.js:145-148).
  `numeric.det`, `numeric.transpose`, `numeric.dot` and `numeric.add` are
  exact 3x3 arithmetic in `Linalg`.
- Weights.ClampedCot: the cotangent is taken to be a finite real. For a
  degenerate triangle (the opposite corner coinciding with i or j, or three
  collinear corners) `calcCot` (arap.js:47-58) yields NaN or +Infinity,
  which passes the clamp of line 56; such meshes are outside the model, and
  the non-negative weights and zero row sums proved here do not describe
  them.
- Rotation.FitRotationIsRotation: assumes the decomposition returns
  orthogonal factors; that is a property of `numeric.svd`, which is not part
  of this model.
- The sparse Cholesky factorisation and solve (arap.js:210-218) are a
  parameter `solve` that returns a vector of the requested length.
  ArapSolve.UpdateVtxPosARAP: that L x = b holds on the unknowns' rows is
  stated conditionally on the solver's output solving the assembled system.
  Positive definiteness of the system is not proved.
- `SparseMatrix.fromTriplet` is modelled by reading the triplets as a
  matrix whose repeated entries add (`TripletsRowTimes`). The internals of
  `DenseMatrix`, `SparseMatrix` and `Triplet` (../libs/numeric.js) are not
  part of this model.
- Floating-point rounding: all arithmetic is exact `real`, so the results on
  order independence (CovarianceOrderFree, RhsOrderFree,
  DiagonalIsNeighborSum) hold exactly, not for the source's doubles.
- The iteration order of a JavaScript Set (insertion order) is not
  modelled. Each walk yields some enumeration of the set, and every result
  is stated for any enumeration.
- `console.error` (arap.js:146) and `geometry.attributes.position.needsUpdate`
  (arap.js:227): logging and a rendering flag, with no effect on the data.
- Inputs the source would fail on are excluded by preconditions, not
  modelled as error paths:
  - every vertex id must lie on some face and name a vertex
    (`ValidFaces`); a vertex on no face has no neighbour entry, and
    `neighborTable.get(v)` would be undefined at arap.js:45, 91, 111 and 171;
  - the face list length must be a multiple of three;
  - the weight table must have a key for every neighbour pair, and every
    Laplacian column must be a vertex id.
- `Coord`, `RotationAt` and `Weight` read 0, the identity and 0 past the end
  of the buffer or table. Every method that models a loop of the source
  requires the positions, rotations and weights it reads to be in range, so
  the defaults never stand in for a value the source reads. They make the
  specification functions total, and `RotationAt` on an empty sequence
  serves in the proofs as "no rotation at all".
