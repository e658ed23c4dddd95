/** The two-dimensional vector primitive: arithmetic on points and
    directions, the centroid of a vertex list, and the support-point search
    that the GJK test is built on. Coordinates are exact reals. */
module Vector {

  import RealArith

  /** A point or a direction in the plane. The source type is a copyable
      value, so it is a datatype here. */
  datatype Vec2 = Vec2(x: real, y: real)

  const Zero := Vec2(0.0, 0.0)

  // ---------------------------------------------------------------------
  // Copy forms: each builds a new vector.
  // ---------------------------------------------------------------------

  function SubtractCopy(a: Vec2, b: Vec2): Vec2 {
    Vec2(a.x - b.x, a.y - b.y)
  }

  function NegateCopy(v: Vec2): Vec2 {
    Vec2(-v.x, -v.y)
  }

  /** The fixed quarter turn (x, y) -> (y, -x): orthogonal to v and of the
      same length (its orientation is pinned by PerpendicularIsCrossWithZ). */
  function PerpendicularCopy(v: Vec2): (r: Vec2)
    ensures DotProduct(r, v) == 0.0
    ensures LengthSquared(r) == LengthSquared(v)
  {
    Vec2(v.y, -v.x)
  }

  function DotProduct(a: Vec2, b: Vec2): real {
    a.x * b.x + a.y * b.y
  }

  /** The squared length is the dot product of v with itself and is never
      negative (LengthSquaredZero: it is zero only for the zero vector). */
  function LengthSquared(v: Vec2): (r: real)
    ensures r == DotProduct(v, v)
    ensures r >= 0.0
  {
    v.x * v.x + v.y * v.y
  }

  /** b (a.c) - a (b.c): a vector orthogonal to c (it is (a x b) x c, see
      TripleProductIsDoubleCross). */
  function TripleProduct(a: Vec2, b: Vec2, c: Vec2): (r: Vec2)
    ensures DotProduct(r, c) == 0.0
  {
    var ac := DotProduct(a, c);
    var bc := DotProduct(b, c);
    Vec2(b.x * ac - a.x * bc, b.y * ac - a.y * bc)
  }

  // ---------------------------------------------------------------------
  // Algebraic facts about the copy forms.
  // ---------------------------------------------------------------------

  lemma LengthSquaredZero(v: Vec2)
    ensures LengthSquared(v) == 0.0 <==> v == Zero
  {
    var sx := RealArith.Square(v.x);
    var sy := RealArith.Square(v.y);
    assert v != Zero ==> v.x != 0.0 || v.y != 0.0;
  }

  lemma NegateCopyInvolutive(v: Vec2)
    ensures NegateCopy(NegateCopy(v)) == v
  {
  }

  lemma DotProductSymmetric(a: Vec2, b: Vec2)
    ensures DotProduct(a, b) == DotProduct(b, a)
  {
  }

  /** Projection onto a direction distributes over subtraction and negation. */
  lemma DotProductLinear(d: Vec2, a: Vec2, b: Vec2)
    ensures DotProduct(d, SubtractCopy(a, b)) == DotProduct(d, a) - DotProduct(d, b)
    ensures DotProduct(NegateCopy(d), a) == -DotProduct(d, a)
  {
  }

  /** Three-dimensional vectors, only as an independent reference for the
      perpendicular and the triple product. */
  datatype Vec3 = Vec3(x: real, y: real, z: real)

  ghost function Lift(v: Vec2): Vec3 {
    Vec3(v.x, v.y, 0.0)
  }

  ghost function Cross3(a: Vec3, b: Vec3): Vec3 {
    Vec3(a.y * b.z - a.z * b.y, a.z * b.x - a.x * b.z, a.x * b.y - a.y * b.x)
  }

  /** The perpendicular is the clockwise quarter turn: v x z-hat. */
  lemma PerpendicularIsCrossWithZ(v: Vec2)
    ensures Lift(PerpendicularCopy(v)) == Cross3(Lift(v), Vec3(0.0, 0.0, 1.0))
  {
  }

  /** The triple product is the double cross product (a x b) x c of the
      vectors lifted into the plane z = 0. */
  lemma TripleProductIsDoubleCross(a: Vec2, b: Vec2, c: Vec2)
    ensures Lift(TripleProduct(a, b, c)) == Cross3(Cross3(Lift(a), Lift(b)), Lift(c))
  {
    var k := a.x * b.y - a.y * b.x;
    var r := TripleProduct(a, b, c);
    assert Cross3(Lift(a), Lift(b)) == Vec3(0.0, 0.0, k);
    assert r.x == b.x * (a.x * c.x + a.y * c.y) - a.x * (b.x * c.x + b.y * c.y);
    assert r.x == -(k * c.y);
    assert r.y == b.y * (a.x * c.x + a.y * c.y) - a.y * (b.x * c.x + b.y * c.y);
    assert r.y == k * c.x;
  }

  // ---------------------------------------------------------------------
  // In-place forms: a vector held in a mutable place.
  // ---------------------------------------------------------------------

  /** A Vec2 whose coordinates are updated in place; each in-place operation
      leaves the same value the copy form computes from the old value. */
  class Vec2Mut {
    var x: real
    var y: real

    function Value(): Vec2
      reads this
    {
      Vec2(x, y)
    }

    constructor (x: real, y: real)
      ensures Value() == Vec2(x, y)
    {
      this.x := x;
      this.y := y;
    }

    method Subtract(a: Vec2)
      modifies this
      ensures Value() == SubtractCopy(old(Value()), a)
    {
      x := x - a.x;
      y := y - a.y;
    }

    method Negate()
      modifies this
      ensures Value() == NegateCopy(old(Value()))
    {
      x := -x;
      y := -y;
    }

    method Perpendicular()
      modifies this
      ensures Value() == PerpendicularCopy(old(Value()))
    {
      var tempX := x;
      x := y;
      y := -tempX;
    }
  }

  // ---------------------------------------------------------------------
  // Centroid.
  // ---------------------------------------------------------------------

  /** Componentwise sum, accumulated front to back. */
  ghost function Sum(vs: seq<Vec2>): Vec2 {
    if vs == [] then Zero
    else
      var s := Sum(vs[..|vs| - 1]);
      Vec2(s.x + vs[|vs| - 1].x, s.y + vs[|vs| - 1].y)
  }

  /** The componentwise mean of a non-empty vertex list. */
  ghost function Centroid(vs: seq<Vec2>): Vec2
    requires |vs| > 0
  {
    Vec2(Sum(vs).x / |vs| as real, Sum(vs).y / |vs| as real)
  }

  /** The centroid of a non-empty vertex list (the source asserts that the
      list is non-empty). */
  method AveragePoint(vertices: seq<Vec2>) returns (avg: Vec2)
    requires |vertices| > 0
    ensures avg == Centroid(vertices)
  {
    avg := Vec2(0.0, 0.0);
    var i := 0;
    while i < |vertices|
      invariant 0 <= i <= |vertices|
      invariant avg == Sum(vertices[..i])
    {
      var vert := vertices[i];
      assert vertices[..i + 1][..i] == vertices[..i];
      avg := avg.(x := avg.x + vert.x);
      avg := avg.(y := avg.y + vert.y);
      i := i + 1;
    }
    assert vertices[..i] == vertices;
    avg := avg.(x := avg.x / |vertices| as real);
    avg := avg.(y := avg.y / |vertices| as real);
  }

  /** Every vertex shifted by -t. */
  ghost function Shift(vs: seq<Vec2>, t: Vec2): (r: seq<Vec2>)
    ensures |r| == |vs|
  {
    seq(|vs|, k requires 0 <= k < |vs| => SubtractCopy(vs[k], t))
  }

  lemma {:induction false} SumShift(vs: seq<Vec2>, t: Vec2)
    ensures Sum(Shift(vs, t)) == Vec2(Sum(vs).x - |vs| as real * t.x, Sum(vs).y - |vs| as real * t.y)
  {
    if vs != [] {
      var n := |vs|;
      assert Shift(vs, t)[..n - 1] == Shift(vs[..n - 1], t);
      SumShift(vs[..n - 1], t);
    }
  }

  /** Translating every vertex translates the centroid by the same amount. */
  lemma CentroidShift(vs: seq<Vec2>, t: Vec2)
    requires |vs| > 0
    ensures Centroid(Shift(vs, t)) == SubtractCopy(Centroid(vs), t)
  {
    var n := |vs| as real;
    SumShift(vs, t);
    var s := Sum(vs);
    DivideShifted(s.x, t.x, n);
    DivideShifted(s.y, t.y, n);
  }

  lemma DivideShifted(a: real, b: real, n: real)
    requires n > 0.0
    ensures (a - n * b) / n == a / n - b
  {
    assert (a - n * b) / n * n == a - n * b;
    assert (a / n - b) * n == a - n * b;
  }

  lemma {:induction false} SumBelow(d: Vec2, vs: seq<Vec2>, m: real)
    requires forall k :: 0 <= k < |vs| ==> DotProduct(d, vs[k]) <= m
    ensures DotProduct(d, Sum(vs)) <= |vs| as real * m
  {
    if vs != [] {
      var n := |vs|;
      var front := vs[..n - 1];
      assert forall k :: 0 <= k < |front| ==> front[k] == vs[k];
      SumBelow(d, front, m);
      var s := Sum(front);
      var v := vs[n - 1];
      assert Sum(vs) == Vec2(s.x + v.x, s.y + v.y);
      DotProductAdditive(d, s, v);
      assert (n as real) * m == ((n - 1) as real) * m + m;
    }
  }

  lemma DotProductAdditive(d: Vec2, s: Vec2, v: Vec2)
    ensures DotProduct(d, Vec2(s.x + v.x, s.y + v.y)) == DotProduct(d, s) + DotProduct(d, v)
  {
  }

  lemma DotProductScaled(d: Vec2, s: Vec2, n: real)
    requires n > 0.0
    ensures DotProduct(d, Vec2(s.x / n, s.y / n)) == DotProduct(d, s) / n
  {
    assert d.x * (s.x / n) == (d.x * s.x) / n;
    assert d.y * (s.y / n) == (d.y * s.y) / n;
  }

  lemma DivideBelow(x: real, n: real, m: real)
    requires n > 0.0 && x <= n * m
    ensures x / n <= m
  {
    assert x / n * n == x;
    var p := RealArith.Product(x / n - m, n);
  }

  /** The centroid is never further along a direction than the furthest
      vertex: it lies inside every supporting half-plane of the vertices. */
  lemma CentroidWithinSupport(d: Vec2, vs: seq<Vec2>, m: real)
    requires |vs| > 0
    requires forall k :: 0 <= k < |vs| ==> DotProduct(d, vs[k]) <= m
    ensures DotProduct(d, Centroid(vs)) <= m
  {
    var n := |vs| as real;
    var s := Sum(vs);
    SumBelow(d, vs, m);
    DotProductScaled(d, s, n);
    DivideBelow(DotProduct(d, s), n, m);
  }

  // ---------------------------------------------------------------------
  // Support-point search.
  // ---------------------------------------------------------------------

  /** i is the first index whose vertex is furthest along d: no vertex is
      further, and every vertex before i is strictly less far. */
  ghost predicate IsFurthest(d: Vec2, vertices: seq<Vec2>, i: int) {
    && 0 <= i < |vertices|
    && (forall k {:trigger DotProduct(d, vertices[k])} :: 0 <= k < |vertices| ==> DotProduct(d, vertices[k]) <= DotProduct(d, vertices[i]))
    && (forall k {:trigger DotProduct(d, vertices[k])} :: 0 <= k < i ==> DotProduct(d, vertices[k]) < DotProduct(d, vertices[i]))
  }

  /** Maximality and the first-wins tie-break determine the index. */
  lemma FurthestUnique(d: Vec2, vertices: seq<Vec2>, i: int, j: int)
    requires IsFurthest(d, vertices, i) && IsFurthest(d, vertices, j)
    ensures i == j
  {
    assert DotProduct(d, vertices[j]) <= DotProduct(d, vertices[i]);
    assert DotProduct(d, vertices[i]) <= DotProduct(d, vertices[j]);
  }

  /** The index of the vertex furthest along d; on a tie the lowest index
      wins, because a later vertex replaces the best only when strictly
      further. */
  method IndexOfFurthestPoint(d: Vec2, vertices: seq<Vec2>) returns (idx: nat)
    requires |vertices| > 0
    ensures IsFurthest(d, vertices, idx)
  {
    var maxProduct := DotProduct(d, vertices[0]);
    idx := 0;
    var i := 0;
    while i < |vertices|
      invariant 0 <= i <= |vertices|
      invariant idx < |vertices| && idx <= i
      invariant maxProduct == DotProduct(d, vertices[idx])
      invariant forall k :: 0 <= k < i ==> DotProduct(d, vertices[k]) <= maxProduct
      invariant forall k :: 0 <= k < idx ==> DotProduct(d, vertices[k]) < maxProduct
    {
      var product := DotProduct(d, vertices[i]);
      if product > maxProduct {
        maxProduct := product;
        idx := i;
      }
      i := i + 1;
    }
  }

  /** The support point of the Minkowski difference A - B along d: the
      vertex of A furthest along d minus the vertex of B furthest along -d.
      No difference of vertices is further along d. The direction is a value
      and is left as it was. */
  method MinkowskiSum(d: Vec2, vertices1: seq<Vec2>, vertices2: seq<Vec2>)
    returns (r: Vec2, ghost i: nat, ghost j: nat)
    requires |vertices1| > 0 && |vertices2| > 0
    ensures IsFurthest(d, vertices1, i) && IsFurthest(NegateCopy(d), vertices2, j)
    ensures r == SubtractCopy(vertices1[i], vertices2[j])
    ensures forall p, q {:trigger DotProduct(d, SubtractCopy(vertices1[p], vertices2[q]))} ::
              0 <= p < |vertices1| && 0 <= q < |vertices2| ==>
              DotProduct(d, SubtractCopy(vertices1[p], vertices2[q])) <= DotProduct(d, r)
  {
    var i1 := IndexOfFurthestPoint(d, vertices1);
    var j1 := IndexOfFurthestPoint(NegateCopy(d), vertices2);
    r := SubtractCopy(vertices1[i1], vertices2[j1]);
    i, j := i1, j1;
    forall p, q | 0 <= p < |vertices1| && 0 <= q < |vertices2|
      ensures DotProduct(d, SubtractCopy(vertices1[p], vertices2[q])) <= DotProduct(d, r)
    {
      DotProductLinear(d, vertices1[p], vertices2[q]);
      DotProductLinear(d, vertices2[q], vertices2[j]);
      DotProductLinear(d, vertices1[i], vertices2[j]);
      assert DotProduct(NegateCopy(d), vertices2[q]) <= DotProduct(NegateCopy(d), vertices2[j]);
    }
  }
}
