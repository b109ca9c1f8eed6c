# Quality viewer of the mesh-processing course, modelled in Dafny

The quality viewer (`QualityViewer.cc`) loads a triangle mesh and runs a set of
estimation passes over it, each writing one per-element property in place:

- cotangent edge weights;
- mean curvature, both from the Laplace-Beltrami operator and from the uniform Laplacian;
- Gaussian curvature as the angle deficit;
- a triangle shape ratio: circumradius over the shortest edge.

When a mesh is drawn, the selected vertex field is colour-coded:

- the field is clipped to a robust range taken from the sorted values;
- each value is then mapped onto a blue-cyan-green-yellow-red ramp.

The triangle shape is colour-coded per face over the fixed range [0.6, 2.0] into a flat buffer of three levels per face.

The model has five modules, in five files.

- `color_ramp.dfy`, module `ColorRamp`, is `value_to_color`.
  - Colours are triples of bytes, and the truncating byte cast is floor on a value in [0, 255].
  - The ramp is proved equal to one 1020-step scale (`RampColor`/`RampPosition`), which is monotone and injective.
  - Its endpoints, its stops and the out-of-range colours are proved.
- `robust_range.dfy` has two modules.
  - `Sorting` is `std::sort`, as an insertion sort proved to give a sorted permutation.
  - `PercentileClip` is the index arithmetic of `color_coding`, both in unsigned 32-bit arithmetic and clipped.
- `halfedge_mesh.dfy`, module `HalfedgeMesh`, is the mesh as an arena.
  - Handles are indices into flat sequences: `next`, `opposite`, `from`, `to`, the boundary flag, the face of each halfedge, one halfedge per face and per edge, and the faces around each vertex.
  - `Valid` states the triangle-mesh invariants the passes rely on.
  - It also ties the stored sequences to the connectivity. Each vertex lists exactly the faces it is a corner of, each once. Each edge holds one halfedge of a pair, and every halfedge pair belongs to exactly one edge.
- `estimation.dfy`, module `Estimation`, holds the per-element estimates as functions of the mesh.
  - It also has the loop methods the passes call: the triangle-shape computation, the halfedge search and the angle sum.
  - `acos`, `1/tan`, `sqrt` and `normalize` are uninterpreted functions: fields of a `Numerics` value.
  - `FLT_MIN` (2^-126), `FLT_MAX` (2^128 - 2^104) and `M_PI` are exact real constants.
- `quality_viewer.dfy`, module `Viewer`, holds the class `QualityViewer`.
  - Its fields are the mesh and its properties.
  - Its methods are the passes as loops that write the properties element by element, `open_mesh` as the fixed order of the passes, and the colour-coding work of `draw`.
  - Each pass is proved to leave its property equal to a function of the mesh.
  - The colour coding is proved to give every vertex `ValueToColor(value, min, max)` over the robust range, and to leave the field itself unchanged.

Three behaviours of the code are worth stating, because its own comments suggest otherwise. The model follows the code.

- The comment at lines 248-249 of `QualityViewer.cc` suggests the `FLT_MAX` value for a vanishing denominator. The code applies that guard to each division on its own: `rad2` becomes `FLT_MAX` when the circumradius denominator vanishes, and the ratio becomes `FLT_MAX` only when `minLen2` does. Take three collinear, evenly spaced corners whose shortest squared edge exceeds `FLT_MIN`. Their ratio is `sqrt(FLT_MAX / minLen2)`, not the `FLT_MAX` sentinel (`Estimation.CollinearCornersTakeRootBranch`).
- The comment at line 337 says the upper and lower 5% are discarded. With `n = size - 1` and `i = n / 20`, the code takes `values[i]` and `values[n - 1 - i]`. So a unique largest value is always discarded. A unique smallest value is discarded only from 21 values on (`PercentileClip.UniqueMaxExcluded`, `PercentileClip.UniqueMinExcluded`, `PercentileClip.SmallFieldKeepsMinimum`).
- The corner angle that the Gaussian curvature sums for an incident face `f` is measured in the face across the edge `(v0, v1)`, not in `f` itself (`Estimation.GaussCornerAcrossEdge`).

## Model

| member | source | states |
|---|---|---|
| ColorRamp.Breakpoint | trunk/MeshCourse/03-Smoothing/src/QualityViewer.cc:354-358 | v0 is min and v4 is max, and for min <= max every breakpoint v0 .. v4 lies in [min, max] |
| ColorRamp.ToByte | trunk/MeshCourse/03-Smoothing/src/QualityViewer.cc:365 | the unsigned char cast of a value in [0, 255] is the byte u with u <= x < u + 1 |
| ColorRamp.BandOffset | trunk/MeshCourse/03-Smoothing/src/QualityViewer.cc:365-379 | the interpolated channel offset inside a proper band is 0 at the band's lower end and 255 exactly at its upper end |
| ColorRamp.CastBand | trunk/MeshCourse/03-Smoothing/src/QualityViewer.cc:365-379 | the band cast is undefined (0/0) exactly when the band is empty, and otherwise is the band offset |
| ColorRamp.ValueToColorAsWritten | trunk/MeshCourse/03-Smoothing/src/QualityViewer.cc:352-384 | value_to_color as written: below min is blue, above max is red, and a defined result is never the white default |
| ColorRamp.ValueToColor | trunk/MeshCourse/03-Smoothing/src/QualityViewer.cc:352-384 | the colour used throughout: below min is blue, above max is red, never white, and a value on a degenerate range min == max is blue |
| ColorRamp.RampPosition | trunk/MeshCourse/03-Smoothing/src/QualityViewer.cc:354-381 | an in-range value has a ramp position in 0..1020; min is at 0, and position 1020 is reached exactly at max |
| ColorRamp.BandScale | trunk/MeshCourse/03-Smoothing/src/QualityViewer.cc:354-358 | the four bands have equal width (max - min)/4, and the in-band fraction is the global fraction shifted by the band |
| ColorRamp.BandPosition | trunk/MeshCourse/03-Smoothing/src/QualityViewer.cc:363-381 | a value in band k has ramp position 255 k plus its offset in that band |
| ColorRamp.ValueToColorFollowsRamp | trunk/MeshCourse/03-Smoothing/src/QualityViewer.cc:361-383 | for min < max, every in-range value gets the ramp colour at its position: the branches pick exactly one band |
| ColorRamp.RampColorInjective | trunk/MeshCourse/03-Smoothing/src/QualityViewer.cc:366-380 | distinct ramp positions give distinct colours, and the same position gives the same colour |
| ColorRamp.RampMonotone | trunk/MeshCourse/03-Smoothing/src/QualityViewer.cc:363-381 | a larger value never lies earlier on the ramp |
| ColorRamp.RampEndpoints | trunk/MeshCourse/03-Smoothing/src/QualityViewer.cc:354-366 | for min < max, min is blue (0,0,255) and max is red (255,0,0) |
| ColorRamp.RampStops | trunk/MeshCourse/03-Smoothing/src/QualityViewer.cc:355-376 | the band boundaries v1, v2, v3 are cyan, green and yellow |
| ColorRamp.AsWrittenUndefinedExactly | trunk/MeshCourse/03-Smoothing/src/QualityViewer.cc:365 | the source's cast is undefined if and only if min == max == value |
| ColorRamp.ValueToColorExtendsAsWritten | trunk/MeshCourse/03-Smoothing/src/QualityViewer.cc:352-384 | wherever the source's result is defined, the model's colour is that result |
| Sorting.Insert | trunk/MeshCourse/03-Smoothing/src/QualityViewer.cc:340 | inserting into a sorted sequence keeps it sorted and adds exactly one occurrence of the value |
| Sorting.Sort | trunk/MeshCourse/03-Smoothing/src/QualityViewer.cc:340 | std::sort's result: sorted, a permutation of the input, the same length |
| PercentileClip.UnsignedClipIndices | trunk/MeshCourse/03-Smoothing/src/QualityViewer.cc:338-342 | with unsigned 32-bit n = size - 1, both indices are in bounds if and only if there are at least 2 values; then they are (size-1)/20 and size-2-(size-1)/20, and below that the upper one is at least size |
| PercentileClip.LowIndex | trunk/MeshCourse/03-Smoothing/src/QualityViewer.cc:339 | the lower clip index never passes the upper one |
| PercentileClip.RobustRange | trunk/MeshCourse/03-Smoothing/src/QualityViewer.cc:337-342 | the clipped range has min <= max, and both ends are values of the field |
| PercentileClip.UniqueMaxExcluded | trunk/MeshCourse/03-Smoothing/src/QualityViewer.cc:338-342 | a value larger than all others always lies above the clipped max |
| PercentileClip.UniqueMinExcluded | trunk/MeshCourse/03-Smoothing/src/QualityViewer.cc:338-341 | with at least 21 values, a value smaller than all others lies below the clipped min |
| PercentileClip.SmallFieldKeepsMinimum | trunk/MeshCourse/03-Smoothing/src/QualityViewer.cc:338-341 | with fewer than 21 values, the clipped min is the smallest value |
| HalfedgeMesh.FaceHalfedges | trunk/MeshCourse/03-Smoothing/src/QualityViewer.cc:213-215 | a face's halfedge cycle has three valid halfedges |
| HalfedgeMesh.FaceVertices | trunk/MeshCourse/03-Smoothing/src/QualityViewer.cc:261-266 | a face has three corner vertices, all valid handles |
| HalfedgeMesh.FaceIsTriangle | trunk/MeshCourse/03-Smoothing/src/QualityViewer.cc:158-162 | in a valid mesh, a face's three halfedges are inner halfedges of that face, chained head to tail in a closed cycle, with three distinct from-vertices |
| HalfedgeMesh.IncidentFacesListed | trunk/MeshCourse/03-Smoothing/src/QualityViewer.cc:212 | in a valid mesh, the faces the vertex-face circulator visits are exactly the faces the vertex is a corner of, each once |
| HalfedgeMesh.FaceGivesTwoVertices | trunk/MeshCourse/03-Smoothing/src/QualityViewer.cc:388-394 | a valid mesh with a face has at least two vertices, so colour coding a drawn mesh is in bounds |
| Estimation.Angle | trunk/MeshCourse/03-Smoothing/src/QualityViewer.cc:164-167 | with acos into [0, π], the clamped angle between two directions lies in [0, π] |
| Estimation.ClampDot | trunk/MeshCourse/03-Smoothing/src/QualityViewer.cc:167 | the dot product is clamped to [-0.99, 0.99]: unchanged inside, the bound outside |
| Estimation.HalfedgeWeight | trunk/MeshCourse/03-Smoothing/src/QualityViewer.cc:153-169 | a boundary halfedge has weight 0 |
| Estimation.HalfedgeWeightAtOppositeCorner | trunk/MeshCourse/03-Smoothing/src/QualityViewer.cc:158-168 | an inner halfedge's weight is the cotangent of the angle at the third corner of its face, which differs from both of its ends |
| Estimation.EdgeWeight | trunk/MeshCourse/03-Smoothing/src/QualityViewer.cc:137-144 | an edge weight is never negative, and is positive exactly when the two halfedge weights sum to a positive value |
| Estimation.EdgeWeightSymmetric | trunk/MeshCourse/03-Smoothing/src/QualityViewer.cc:137-144 | an edge's weight does not depend on which of its halfedges is taken first |
| Estimation.BoundaryEdgeWeight | trunk/MeshCourse/03-Smoothing/src/QualityViewer.cc:137-156 | a boundary halfedge contributes nothing, so a boundary edge's weight is max(0, half the inner weight), and 0 when both sides are boundary |
| Estimation.MinLength2 | trunk/MeshCourse/03-Smoothing/src/QualityViewer.cc:282-290 | minLen2 is one of the three squared lengths and no larger than any of them |
| Estimation.CircumradiusSquared | trunk/MeshCourse/03-Smoothing/src/QualityViewer.cc:272-280 | the squared circumradius is never negative, and is FLT_MAX when the denominator is at most FLT_MIN |
| Estimation.TriangleShape | trunk/MeshCourse/03-Smoothing/src/QualityViewer.cc:268-296 | a triangle whose shortest squared edge is at most FLT_MIN gets the FLT_MAX sentinel |
| Estimation.FaceShape | trunk/MeshCourse/03-Smoothing/src/QualityViewer.cc:261-297 | a face with two corners at the same position gets FLT_MAX |
| Estimation.EquilateralShape | trunk/MeshCourse/03-Smoothing/src/QualityViewer.cc:268-296 | an equilateral triangle whose squared side exceeds FLT_MIN has ratio sqrt(1/3) |
| Estimation.ComputeCircumradiusSquared | trunk/MeshCourse/03-Smoothing/src/QualityViewer.cc:272-280 | the computed rad2 is the squared circumradius above |
| Estimation.ComputeTriangleShape | trunk/MeshCourse/03-Smoothing/src/QualityViewer.cc:259-296 | the ratio computed step by step is the triangle's shape |
| Estimation.TriangleShapeRotation | trunk/MeshCourse/03-Smoothing/src/QualityViewer.cc:268-296 | the shape does not depend on which corner the face's vertex circulator starts from |
| Estimation.CoincidentCornersGiveSentinel | trunk/MeshCourse/03-Smoothing/src/QualityViewer.cc:282-296 | a triangle with two coincident corners gets FLT_MAX |
| Estimation.CollinearCornersTakeRootBranch | trunk/MeshCourse/03-Smoothing/src/QualityViewer.cc:272-292 | three distinct, evenly spaced collinear corners give sqrt(FLT_MAX / minLen2), not the sentinel |
| Estimation.CornerHalfedge | trunk/MeshCourse/03-Smoothing/src/QualityViewer.cc:213-222 | the halfedge the search stops at lies in the face and leaves v0 |
| Estimation.FindCornerHalfedge | trunk/MeshCourse/03-Smoothing/src/QualityViewer.cc:213-222 | the search loop with its break ends on the face's halfedge leaving v0 |
| Estimation.GaussCornerAcrossEdge | trunk/MeshCourse/03-Smoothing/src/QualityViewer.cc:222-229 | the corner measured for face f is at v0 between v1 and the far vertex of the face across edge (v0, v1) |
| Estimation.GaussCorner | trunk/MeshCourse/03-Smoothing/src/QualityViewer.cc:222-235 | with acos into [0, π], the corner angle summed for one incident face lies in [0, π] |
| Estimation.MeasureCorner | trunk/MeshCourse/03-Smoothing/src/QualityViewer.cc:213-236 | one step of the inner loop, the halfedge search and the angle, gives that face's corner angle |
| Estimation.SumCornerAngles | trunk/MeshCourse/03-Smoothing/src/QualityViewer.cc:211-237 | the inner loop accumulates the corner angles of all incident faces, in circulator order |
| Estimation.GaussCurvature | trunk/MeshCourse/03-Smoothing/src/QualityViewer.cc:208-239 | a vertex that is a corner of no face gets exactly 2π |
| Estimation.SumOfAnglesConcat | trunk/MeshCourse/03-Smoothing/src/QualityViewer.cc:212-237 | the angle sum over two runs of faces is the sum of the two angle sums |
| Estimation.SumOfAngles | trunk/MeshCourse/03-Smoothing/src/QualityViewer.cc:211-237 | with acos into [0, π], the angle sum over a run of faces lies between 0 and π times the number of faces |
| Estimation.GaussCurvatureBounds | trunk/MeshCourse/03-Smoothing/src/QualityViewer.cc:238 | with acos into [0, π], the Gaussian curvature lies between 2π - kπ and 2π for a vertex that is a corner of k faces |
| Viewer.ModeField | trunk/MeshCourse/03-Smoothing/src/QualityViewer.cc:392-394 | each of the three curvature draw modes selects its own field, and only that mode selects it |
| Viewer.ColorLevels | trunk/MeshCourse/03-Smoothing/src/QualityViewer.cc:319-321 | a colour becomes three levels channel/255, each in [0, 1] |
| Viewer.FaceColorBuffer | trunk/MeshCourse/03-Smoothing/src/QualityViewer.cc:307-322 | the face colour buffer holds exactly three entries per face |
| Viewer.FaceColorBufferAt | trunk/MeshCourse/03-Smoothing/src/QualityViewer.cc:310-321 | entry 3f + k is channel k of face f's shape colour over the fixed range [0.6, 2.0] |
| Viewer.FaceColorBufferLevels | trunk/MeshCourse/03-Smoothing/src/QualityViewer.cc:319-321 | every buffer entry lies in [0, 1] |
| Viewer.VertexColors | trunk/MeshCourse/03-Smoothing/src/QualityViewer.cc:345-349 | colour coding gives one colour per vertex |
| Viewer.UniqueMaxVertexIsRed | trunk/MeshCourse/03-Smoothing/src/QualityViewer.cc:341-348 | the vertex with the unique largest value is always coloured red |
| Viewer.VertexColorFollowsRamp | trunk/MeshCourse/03-Smoothing/src/QualityViewer.cc:341-348 | for a proper robust range, a vertex inside it gets the ramp colour at its position in that range |
| Viewer.ColorCodingReachesDegenerateRange | trunk/MeshCourse/03-Smoothing/src/QualityViewer.cc:338-348 | the field [1, 1, 5] has robust range (1, 1), so value_to_color as written hits its undefined cast; the model colours that vertex blue |
| Viewer.ClippedRange | trunk/MeshCourse/03-Smoothing/src/QualityViewer.cc:332-342 | copying, sorting and indexing the field gives its robust range |
| Viewer.EdgeWeightsCoverHalfedge | trunk/MeshCourse/03-Smoothing/src/QualityViewer.cc:131-147 | every halfedge belongs to exactly one edge of the edge loop, and that edge's weight is the weight computed from this halfedge |
| Viewer.EdgeWeights | trunk/MeshCourse/03-Smoothing/src/QualityViewer.cc:131-147 | one weight per edge |
| Viewer.MeanCurvatures | trunk/MeshCourse/03-Smoothing/src/QualityViewer.cc:178-182 | one mean curvature per vertex |
| Viewer.UniformMeanCurvatures | trunk/MeshCourse/03-Smoothing/src/QualityViewer.cc:193-197 | one uniform mean curvature per vertex |
| Viewer.GaussCurvatures | trunk/MeshCourse/03-Smoothing/src/QualityViewer.cc:208-240 | one Gaussian curvature per vertex |
| Viewer.TriangleShapes | trunk/MeshCourse/03-Smoothing/src/QualityViewer.cc:257-298 | one shape ratio per face |
| Viewer.QualityViewer.constructor | trunk/MeshCourse/03-Smoothing/src/QualityViewer.cc:45-61 | a new viewer has an empty mesh with its properties attached and an empty face colour buffer |
| Viewer.QualityViewer.OpenMesh | trunk/MeshCourse/03-Smoothing/src/QualityViewer.cc:106-122 | a successful load installs the mesh and leaves every property as the passes define it, in the source's order; a failed load changes nothing and returns false |
| Viewer.QualityViewer.CalcWeights | trunk/MeshCourse/03-Smoothing/src/QualityViewer.cc:124-150 | the edge loop leaves every edge's weight equal to its cotangent edge weight |
| Viewer.QualityViewer.CalcMeanCurvature | trunk/MeshCourse/03-Smoothing/src/QualityViewer.cc:171-184 | every vertex gets half the norm of the Laplace-Beltrami vector over the current edge weights |
| Viewer.QualityViewer.CalcUniformMeanCurvature | trunk/MeshCourse/03-Smoothing/src/QualityViewer.cc:186-198 | every vertex gets half the norm of the uniform Laplacian |
| Viewer.QualityViewer.CalcGaussCurvature | trunk/MeshCourse/03-Smoothing/src/QualityViewer.cc:200-242 | every vertex gets 2π minus the sum of its corner angles |
| Viewer.QualityViewer.CalcTriangleQuality | trunk/MeshCourse/03-Smoothing/src/QualityViewer.cc:244-299 | every face gets its triangle shape ratio |
| Viewer.QualityViewer.FaceColorCoding | trunk/MeshCourse/03-Smoothing/src/QualityViewer.cc:301-323 | the buffer is cleared and refilled with three levels per face, from the shape over [0.6, 2.0] |
| Viewer.QualityViewer.ColorCoding | trunk/MeshCourse/03-Smoothing/src/QualityViewer.cc:325-350 | every vertex gets the colour of its value over the robust range, and the field itself is unchanged |
| Viewer.QualityViewer.Draw | trunk/MeshCourse/03-Smoothing/src/QualityViewer.cc:386-395 | with faces to draw, the three curvature modes colour-code their field; other modes and an empty mesh leave the colours unchanged |

## Left out

- Rendering is not modelled:
  - the OpenGL and GLUT work of `init`, the destructor and the rest of `draw` (lines 396-460);
  - the draw-mode registration in the constructor;
  - `glutPostRedisplay`.
- Loading a file through the base viewer is not part of this model. `OpenMesh` takes its result as an `Option<Mesh>`, which must be a valid triangle mesh when present. A failed load is taken to leave the viewer unchanged.
- `indices_.empty()` in `draw` is modelled as the mesh having no faces. The base viewer's own drawing, the branch taken when there are no face indices, is not part of this model.
- Floating point is not modelled: values are exact reals, with no rounding, NaN or infinity, and float/double conversions are not modelled either.
  - `acos`, `tan`, `sqrt` and `normalize` are uninterpreted.
  - The Gaussian curvature bounds hold only under the stated assumption that `acos` maps into [0, π].
  - Among them, the shape ratio of collinear corners, `sqrt(FLT_MAX / minLen2)`, would overflow to +inf in `float` when `minLen2 < 1`. The model keeps the exact real.
- The Laplace-Beltrami and uniform Laplacian operators (`LaplaceBeltrami.h`, `UniformLaplacian.h`) are not part of this model. They are parameters of the viewer, and the norm of their vector is `sqrt` of its squared length.
- OpenMesh's iteration orders are not modelled:
  - edges, faces and vertices are taken in index order;
  - the faces around a vertex come from a stored sequence;
  - a face's halfedges start at its stored halfedge.
- `std::sort` is specified only by its result, a sorted permutation.
- The per-vertex weight property `vweight_` is attached but never written by these passes, so it is not modelled.
- The vertex colours a freshly loaded mesh carries are not modelled. `OpenMesh` only sizes them.
- Viewer.QualityViewer.ColorCoding: requires at least two vertices. With fewer, the source's unsigned `size - 1` wraps around and the indexing is out of bounds (`PercentileClip.UnsignedClipIndices`).
- Viewer.EdgeWeights: its contract states only the length. Its entries are `Estimation.EdgeWeight` of each edge by definition, and the properties are proved there.
- Viewer.GaussCurvatures: its contract states only the length. Its entries are `Estimation.GaussCurvature` by definition, and the properties are proved there.
- Viewer.TriangleShapes: its contract states only the length. Its entries are the shapes of the faces' corner points by definition, and the properties are proved about `Estimation.TriangleShape`.
- Viewer.MeanCurvatures: its contract states only the length, because the operators behind it are not part of this model. The same holds for Viewer.UniformMeanCurvatures.

## Findings

| source | as written | input that shows it | evidently intended | confidence | as-written member | corrected member |
|---|---|---|---|---|---|---|
| trunk/MeshCourse/03-Smoothing/src/QualityViewer.cc:365 | when min == max == value, `(value - v0) / (v1 - v0)` is 0/0, and the NaN is converted to unsigned char, which is undefined behaviour | a vertex field [1, 1, 5]: its robust range is (1, 1), and value_to_color(1, 1, 1) reaches the cast (`Viewer.ColorCodingReachesDegenerateRange`) | a value sitting on a degenerate range gets the colour of the range's minimum, blue, as it does everywhere else | not executed | ColorRamp.ValueToColorAsWritten | ColorRamp.ValueToColor |
