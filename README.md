# gjk-rs in Dafny

This project models the 2D Gilbert-Johnson-Keerthi (GJK) intersection test of
the `gjk-rs` crate. The test answers whether two convex polygons, each given
by a list of vertices, intersect. It runs a small state machine over the
Minkowski difference A - B of the two polygons:

- It seeds a search direction from the difference of the two centroids.
- It adds one support point of the difference per step to a three-slot
  simplex.
- It steers the direction with vector triple products, towards the origin.
- It returns 0 (disjoint) as soon as a support point fails to pass the
  origin.
- It returns 1 (intersecting) when a triangle of support points passes both
  of its edge tests.

The model has four modules, one per file:

- `RealArith` (`real_arith.dfy`): two sign lemmas for products over the reals.
  The solver needs them for strict signs of squares and products.
- `Vector` (`vector.dfy`): the `Vec2` primitive.
  - `Vec2` is a copyable value, so it is a `datatype`.
  - The copy operations are functions. `subtract_copy`, `negate_copy` and
    `dot_product` are single expressions, modelled as the plain functions
    `SubtractCopy`, `NegateCopy` and `DotProduct`; their properties are the
    lemmas in the table.
  - The in-place operations (`&mut self`) are methods of the class
    `Vec2Mut`, a mutable place holding `x` and `y`.
  - `average_point` and `index_of_furthest_point` are loop methods.
  - `minkowski_sum` is a method that calls `IndexOfFurthestPoint` twice.
- `Geometry` (`geometry.dfy`): the plane geometry behind the algorithm.
  - The triple product read along any direction is a product of two scalar
    cross products.
  - The two-point direction never points away from the origin.
  - A triangle whose two edge tests both pass holds the origin with
    barycentric weights s, t > 0 and s + t <= 1.
- `Intersection` (`gjk.dfy`): the `gjk` function, as the method `Gjk`.
  - It keeps a three-slot `array<Vec2>` simplex, a running `index` and a
    `while` loop.
  - Each loop body is one of two branches, written as the methods
    `LineCase` and `TriangleCase`.
  - Alongside its verdict, `Gjk` returns ghost evidence:
    - for 0, the separating direction;
    - for 1, the enclosing triangle, with the indices of the vertices each of
      its points is the difference of, and the origin's barycentric weights.

Coordinates are exact reals. Every comparison keeps the source's operator:

- `<=` for the early exits;
- `<` for the final edge test;
- `>=` for the `acperp` test;
- `== 0.0` for the squared-length test.

## Model

| member | source | states |
|---|---|---|
| Vector.PerpendicularCopy | src/lib.rs:108-110 | the perpendicular is orthogonal to the input and has the same squared length |
| Vector.PerpendicularIsCrossWithZ | src/lib.rs:108-110 | the perpendicular is the 3D cross product of the input with the unit z vector, so it is the clockwise quarter turn |
| Vector.LengthSquared | src/lib.rs:116-118 | the squared length is the dot product of the vector with itself and is never negative |
| Vector.LengthSquaredZero | src/lib.rs:116-118 | the squared length is zero exactly when the vector is the zero vector (both directions) |
| Vector.TripleProduct | src/lib.rs:120-126 | b (a.c) - a (b.c) is orthogonal to c |
| Vector.TripleProductIsDoubleCross | src/lib.rs:120-126 | the triple product is (a x b) x c of the vectors lifted to 3D, the identity its doc comment appeals to |
| Geometry.TripleProductAlong | src/lib.rs:122-126 | the triple product read along any w is cross(a, b) * cross(c, w), so it keeps to the side of c that a x b selects |
| Vector.NegateCopyInvolutive | src/lib.rs:97-99 | negating twice gives back the original vector |
| Vector.DotProductSymmetric | src/lib.rs:112-114 | the dot product is symmetric |
| Vector.DotProductLinear | src/lib.rs:112-114 | the dot product distributes over the difference and changes sign with negation |
| Vector.Vec2Mut.constructor | src/lib.rs:77-79 | the new place holds exactly the given coordinates |
| Vector.Vec2Mut.Subtract | src/lib.rs:81-85 | the in-place subtraction leaves the place holding subtract_copy of its old value and the argument |
| Vector.Vec2Mut.Negate | src/lib.rs:91-95 | the in-place negation leaves the place holding negate_copy of its old value |
| Vector.Vec2Mut.Perpendicular | src/lib.rs:101-106 | the in-place perpendicular, done through a temporary, leaves the place holding perpendicular_copy of its old value |
| Vector.AveragePoint | src/lib.rs:128-139 | for a non-empty list, the accumulating loop followed by the division returns the componentwise mean of the vertices |
| Vector.CentroidShift | src/lib.rs:128-139 | translating every vertex by -t translates the average point by -t |
| Vector.CentroidWithinSupport | src/lib.rs:128-139 | the average point is never further along a direction than the bound every vertex respects, so it lies in every supporting half-plane |
| Vector.IndexOfFurthestPoint | src/lib.rs:141-153 | for a non-empty list, returns an index in range whose vertex is furthest along d, and every earlier vertex is strictly less far (first maximum wins) |
| Vector.FurthestUnique | src/lib.rs:141-153 | maximality together with the first-maximum tie-break determines the index uniquely |
| Vector.MinkowskiSum | src/lib.rs:155-159 | returns A[i] - B[j] with i furthest along d in A and j furthest along -d in B, and no difference of vertices is further along d than the result |
| Geometry.TwoPointDirectionFacesOrigin | src/lib.rs:205-206 | the two-point direction triple(ab, ao, ab) never points away from the origin as seen from a |
| Geometry.TwoPointFallbackThroughOrigin | src/lib.rs:207-209 | when the triple product vanishes for a nonzero ab, the fallback perpendicular of ab is orthogonal to ao, so the origin lies on the line ab |
| Intersection.TwoPointTriple | src/lib.rs:205-207 | the direction is zero exactly when its squared length is, and it is orthogonal to the segment with both ends not ahead of the origin along it |
| Intersection.TwoPointFallback | src/lib.rs:207-209 | the fallback direction is nonzero, orthogonal to the segment, and the segment lies on the line through the origin |
| Geometry.TriangleNondegenerate | src/lib.rs:213-216 | a new point strictly beyond the line through two distinct points makes a proper triangle (nonzero cross product) |
| Geometry.EdgeNormalsNonzero | src/lib.rs:218-223 | on a proper triangle neither acperp nor abperp is the zero vector |
| Geometry.EnclosedOrigin | src/lib.rs:218-226 | when both edge tests pass on a proper triangle whose far edge is not ahead of the origin, the origin has barycentric weights s, t > 0 with s + t <= 1 |
| Geometry.CommonPoint | src/lib.rs:155-159 | a zero barycentric combination of differences p_k - q_k is the same combination of the p_k as of the q_k |
| Intersection.FirstStep | src/lib.rs:182-186 | after a first support point strictly ahead of the seed, the new direction -a is nonzero and a lies strictly behind it |
| Intersection.SupportSeparates | src/lib.rs:197-199 | a support point that is not ahead of the origin along d proves that d weakly separates the polygons: d.(p - q) <= 0 for every vertex pair |
| Intersection.ThreePointFacts | src/lib.rs:213-231 | on entering the three-point case the triangle is proper, both normals are nonzero, and the branch taken keeps a segment orthogonal to the new direction that is not ahead of the origin |
| Intersection.LineCase | src/lib.rs:203-211 | the new direction is triple(ab, ao, ab), or perp(ab) when that has zero squared length; with the old point strictly behind and the new point strictly ahead, the two points differ and that direction is nonzero, orthogonal to them and not ahead of them |
| Intersection.TriangleCase | src/lib.rs:213-232 | reports the origin enclosed exactly when both edge tests pass, and gives its barycentric weights; otherwise it keeps b exactly when acperp.ao < 0 (c when acperp.ao >= 0), the new direction is abperp or acperp accordingly, and the kept point with a is a two-point state along it |
| Intersection.Gjk | src/lib.rs:163-237 | every verdict is 0 or 1; 0 comes with a nonzero direction that weakly separates the polygons; 1 comes with a triangle of difference points that passes both edge tests and holds the origin; every simplex index is in bounds |
| Intersection.IntersectionHasCommonPoint | src/lib.rs:224-226 | the triangle behind a verdict of 1 names one point that both polygons contain: the same convex combination of three vertices of each |

## Left out

- Floating point: coordinates are exact reals, so `f64` rounding, overflow
  and the exactness of `== 0.0` under rounding are not modelled. The
  comparison operators are kept as written.
- The test module (`src/lib.rs:3-67`) is not part of this model. It uses the
  `rand` crate for random perturbations and checks a statistical assertion.
- Gjk: termination is not modelled. The source loop has no bound, so the
  model takes a `fuel` argument and returns `OutOfFuel` once it is spent.
- Gjk: the verdicts are proved sound only. A 0 carries a separating
  direction. A 1 carries an enclosing triangle with a common point of both
  polygons. The converse (intersecting polygons always give 1 once fuel
  suffices) is not proved.
- Gjk: touching polygons may get either verdict. A 0 means weak
  separation: the early exits use `<=`, so the polygons may meet on the
  separating line. A 1 may come from a triangle with the origin on its far
  edge (s + t = 1), since the final edge tests only cover the two edges
  through the newest point. The contracts promise exactly this much.
- Gjk: the seed direction is never zero. This is part of the 0-verdict
  contract when the first support point already exits. It is not a
  separate member.
- Gjk: the source panics on an empty vertex list through the asserts in
  `average_point` and `index_of_furthest_point`. The model states non-empty
  inputs as a precondition of `Gjk`, `AveragePoint`,
  `IndexOfFurthestPoint` and `MinkowskiSum`.
- Gjk: the two branches of the loop body are the methods `LineCase` and
  `TriangleCase`. Each gets the simplex points as values and returns the new
  direction. Gjk itself writes the simplex array, so the reads and writes of
  `simplex` and `index` are as in the source.
- The `&mut Self` return values of `subtract`, `negate` and `perpendicular`
  allow call chaining. They are not modelled; the methods return nothing.
- MinkowskiSum: the direction is a `Vec2` value here, so the promise that
  `minkowski_sum` leaves `d` unchanged despite `&mut self` holds by
  construction. It is not stated.
- Symmetry of the verdict in its two arguments and its invariance under
  translation are not proved.
