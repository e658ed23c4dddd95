/** Plane geometry behind the GJK direction updates: the scalar cross
    product, what the triple product measures, and the facts that turn the
    simplex tests into statements about where the origin lies. */
module Geometry {

  import opened Vector
  import RealArith

  /** The scalar (z-component) cross product of two plane vectors. */
  ghost function Cross(u: Vec2, v: Vec2): real {
    u.x * v.y - u.y * v.x
  }

  /** a + s (b - a) + t (c - a): the point with barycentric weights
      (1 - s - t, s, t) on the triangle a, b, c. */
  ghost function Barycentric(a: Vec2, b: Vec2, c: Vec2, s: real, t: real): Vec2 {
    Vec2(a.x + s * (b.x - a.x) + t * (c.x - a.x), a.y + s * (b.y - a.y) + t * (c.y - a.y))
  }

  /** The origin lies in the closed triangle a, b, c, strictly off the edges
      ab and ac, with weights s and t. */
  ghost predicate OriginInTriangle(a: Vec2, b: Vec2, c: Vec2, s: real, t: real) {
    0.0 < s && 0.0 < t && s + t <= 1.0 && Barycentric(a, b, c, s, t) == Zero
  }

  /** Both edge tests of the three-point simplex fail to find the origin
      outside: with A the newest point, the normal of AC pointing away from B
      and the normal of AB pointing away from C both point away from O. */
  ghost predicate EdgeTestsPass(a: Vec2, b: Vec2, c: Vec2) {
    var ab := SubtractCopy(b, a);
    var ac := SubtractCopy(c, a);
    var ao := NegateCopy(a);
    DotProduct(TripleProduct(ab, ac, ac), ao) < 0.0 &&
    DotProduct(TripleProduct(ac, ab, ab), ao) < 0.0
  }

  lemma CrossIsDotPerpendicular(u: Vec2, v: Vec2)
    ensures DotProduct(u, PerpendicularCopy(v)) == Cross(u, v)
  {
  }

  /** Binet-Cauchy in the plane. */
  lemma BinetCauchy(a: Vec2, b: Vec2, c: Vec2, w: Vec2)
    ensures DotProduct(a, c) * DotProduct(b, w) - DotProduct(a, w) * DotProduct(b, c)
         == Cross(a, b) * Cross(c, w)
  {
    assert DotProduct(a, c) * DotProduct(b, w)
        == a.x * c.x * b.x * w.x + a.x * c.x * b.y * w.y + a.y * c.y * b.x * w.x + a.y * c.y * b.y * w.y;
    assert DotProduct(a, w) * DotProduct(b, c)
        == a.x * w.x * b.x * c.x + a.x * w.x * b.y * c.y + a.y * w.y * b.x * c.x + a.y * w.y * b.y * c.y;
    assert Cross(a, b) * Cross(c, w)
        == a.x * b.y * c.x * w.y - a.x * b.y * c.y * w.x - a.y * b.x * c.x * w.y + a.y * b.x * c.y * w.x;
  }

  /** The triple product b (a.c) - a (b.c), read along any w, is
      cross(a, b) cross(c, w). */
  lemma TripleProductAlong(a: Vec2, b: Vec2, c: Vec2, w: Vec2)
    ensures DotProduct(TripleProduct(a, b, c), w) == Cross(a, b) * Cross(c, w)
  {
    var ac := DotProduct(a, c);
    var bc := DotProduct(b, c);
    var r := TripleProduct(a, b, c);
    assert DotProduct(r, w) == (b.x * ac - a.x * bc) * w.x + (b.y * ac - a.y * bc) * w.y;
    assert DotProduct(r, w) == ac * DotProduct(b, w) - bc * DotProduct(a, w);
    BinetCauchy(a, b, c, w);
  }

  /** The two-point direction triple(ab, ao, ab) never points away from the
      origin: it is the component of ao orthogonal to ab, scaled by |ab|^2. */
  lemma TwoPointDirectionFacesOrigin(ab: Vec2, ao: Vec2)
    ensures DotProduct(TripleProduct(ab, ao, ab), ao) >= 0.0
  {
    TripleProductAlong(ab, ao, ab, ao);
    var k := RealArith.Square(Cross(ab, ao));
  }

  /** When triple(ab, ao, ab) vanishes and ab does not, ao lies along ab, so
      the fallback perpendicular of ab is orthogonal to ao. */
  lemma TwoPointFallbackThroughOrigin(ab: Vec2, ao: Vec2)
    requires ab != Zero
    requires TripleProduct(ab, ao, ab) == Zero
    ensures DotProduct(ao, PerpendicularCopy(ab)) == 0.0
  {
    var n := PerpendicularCopy(ab);
    TripleProductAlong(ab, ao, ab, n);
    assert Cross(ab, n) == -LengthSquared(ab);
    LengthSquaredZero(ab);
    var l := LengthSquared(ab);
    var k := Cross(ab, ao);
    assert k * l == 0.0;
    var p := RealArith.Product(l, k);
    var q := RealArith.Product(l, -k);
    CrossIsDotPerpendicular(ao, ab);
    assert Cross(ao, ab) == -k;
  }

  /** d split along e and its perpendicular, read along u. */
  lemma Decompose(u: Vec2, e: Vec2, d: Vec2)
    ensures LengthSquared(e) * DotProduct(u, d)
         == DotProduct(d, e) * DotProduct(u, e) + Cross(d, e) * Cross(u, e)
  {
    assert LengthSquared(e) * DotProduct(u, d)
        == e.x * e.x * u.x * d.x + e.x * e.x * u.y * d.y + e.y * e.y * u.x * d.x + e.y * e.y * u.y * d.y;
    assert DotProduct(d, e) * DotProduct(u, e)
        == d.x * e.x * u.x * e.x + d.x * e.x * u.y * e.y + d.y * e.y * u.x * e.x + d.y * e.y * u.y * e.y;
    assert Cross(d, e) * Cross(u, e)
        == d.x * e.y * u.x * e.y - d.x * e.y * u.y * e.x - d.y * e.x * u.x * e.y + d.y * e.x * u.y * e.x;
  }

  /** A new point a strictly beyond the line through two distinct points b
      and c that d is orthogonal to makes a proper triangle. */
  lemma TriangleNondegenerate(a: Vec2, b: Vec2, c: Vec2, d: Vec2)
    requires b != c
    requires DotProduct(b, d) == DotProduct(c, d)
    requires DotProduct(b, d) < DotProduct(a, d)
    ensures Cross(SubtractCopy(b, a), SubtractCopy(c, a)) != 0.0
  {
    var u := SubtractCopy(b, a);
    var e := SubtractCopy(c, b);
    assert DotProduct(d, e) == 0.0;
    assert DotProduct(u, d) < 0.0;
    assert Cross(u, SubtractCopy(c, a)) == Cross(u, e);
    assert e != Zero;
    LengthSquaredZero(e);
    Decompose(u, e, d);
    var p := RealArith.Product(LengthSquared(e), DotProduct(u, d));
    assert Cross(d, e) * Cross(u, e) < 0.0;
  }

  /** Facts about the two edge normals of a proper triangle, with
      K = cross(ab, ac). */
  lemma EdgeNormals(a: Vec2, b: Vec2, c: Vec2)
    ensures var ab, ac, ao := SubtractCopy(b, a), SubtractCopy(c, a), NegateCopy(a);
      var k := Cross(ab, ac);
      && DotProduct(TripleProduct(ab, ac, ac), ab) == -(k * k)
      && DotProduct(TripleProduct(ac, ab, ab), ac) == -(k * k)
      && DotProduct(TripleProduct(ab, ac, ac), ao) == k * Cross(ac, ao)
      && DotProduct(TripleProduct(ac, ab, ab), ao) == -(k * Cross(ab, ao))
  {
    var ab, ac, ao := SubtractCopy(b, a), SubtractCopy(c, a), NegateCopy(a);
    TripleProductAlong(ab, ac, ac, ab);
    TripleProductAlong(ac, ab, ab, ac);
    TripleProductAlong(ab, ac, ac, ao);
    TripleProductAlong(ac, ab, ab, ao);
    assert Cross(ac, ab) == -Cross(ab, ac);
  }

  /** A normal built from a proper triangle is never the zero vector. */
  lemma EdgeNormalsNonzero(a: Vec2, b: Vec2, c: Vec2)
    requires Cross(SubtractCopy(b, a), SubtractCopy(c, a)) != 0.0
    ensures TripleProduct(SubtractCopy(b, a), SubtractCopy(c, a), SubtractCopy(c, a)) != Zero
    ensures TripleProduct(SubtractCopy(c, a), SubtractCopy(b, a), SubtractCopy(b, a)) != Zero
  {
    var k := Cross(SubtractCopy(b, a), SubtractCopy(c, a));
    EdgeNormals(a, b, c);
    var kk := RealArith.Square(k);
  }

  /** If k x == q with k nonzero then x is q / k. */
  lemma Quotient(k: real, x: real, q: real)
    requires k != 0.0 && k * x == q
    ensures x == q / k
  {
  }

  /** Cramer's rule: w in the basis u, v. */
  lemma Cramer(u: Vec2, v: Vec2, w: Vec2)
    ensures Cross(u, v) * w.x == Cross(w, v) * u.x + Cross(u, w) * v.x
    ensures Cross(u, v) * w.y == Cross(w, v) * u.y + Cross(u, w) * v.y
  {
  }

  /** The sign of q / k when k q is positive. */
  lemma QuotientPositive(q: real, k: real)
    requires k * q > 0.0
    ensures q / k > 0.0
  {
    var r := q / k;
    assert k != 0.0;
    assert r * k == q;
    var kk := RealArith.Square(k);
    var p := RealArith.Product(r, kk);
    assert p == k * q by {
      assert r * (k * k) == (r * k) * k;
    }
    if r < 0.0 {
      var n := RealArith.Product(kk, r);
    }
    assert r != 0.0;
  }

  /** The weights Cramer's rule gives the origin on a proper triangle, and
      their signs: each edge test that fails to find the origin outside
      makes one of them positive. */
  lemma EdgeWeights(a: Vec2, b: Vec2, c: Vec2) returns (s: real, t: real)
    requires EdgeTestsPass(a, b, c)
    requires Cross(SubtractCopy(b, a), SubtractCopy(c, a)) != 0.0
    ensures var ab, ac, ao := SubtractCopy(b, a), SubtractCopy(c, a), NegateCopy(a);
      && Cross(ab, ac) * s == Cross(ao, ac)
      && Cross(ab, ac) * t == Cross(ab, ao)
    ensures 0.0 < s && 0.0 < t
  {
    var ab, ac, ao := SubtractCopy(b, a), SubtractCopy(c, a), NegateCopy(a);
    var k := Cross(ab, ac);
    EdgeNormals(a, b, c);
    // The two tests say k cross(ac, ao) < 0 and -k cross(ab, ao) < 0.
    var cs := Cross(ao, ac);
    var ct := Cross(ab, ao);
    assert k * cs > 0.0 by {
      assert Cross(ac, ao) == -cs;
    }
    assert k * ct > 0.0;
    s := cs / k;
    t := ct / k;
    QuotientPositive(cs, k);
    QuotientPositive(ct, k);
  }

  /** One coordinate of Cramer's rule solved: if k w = cs u + ct v with
      k s = cs and k t = ct, and k is nonzero, then w = s u + t v. */
  lemma SolveComponent(k: real, s: real, t: real, cs: real, ct: real, u: real, v: real, w: real)
    requires k != 0.0 && k * s == cs && k * t == ct
    requires k * w == cs * u + ct * v
    ensures w == s * u + t * v
  {
    var e := s * u + t * v - w;
    assert k * e == 0.0 by {
      calc {
        k * e;
        (k * s) * u + (k * t) * v - k * w;
        cs * u + ct * v - k * w;
        0.0;
      }
    }
    Quotient(k, e, 0.0);
  }

  /** Both edge tests of a proper triangle write the origin as a + s (b - a)
      + t (c - a) with s, t > 0. */
  lemma OriginCombination(a: Vec2, b: Vec2, c: Vec2) returns (s: real, t: real)
    requires EdgeTestsPass(a, b, c)
    requires Cross(SubtractCopy(b, a), SubtractCopy(c, a)) != 0.0
    ensures 0.0 < s && 0.0 < t
    ensures NegateCopy(a) == Vec2(s * (b.x - a.x) + t * (c.x - a.x), s * (b.y - a.y) + t * (c.y - a.y))
  {
    var ab, ac, ao := SubtractCopy(b, a), SubtractCopy(c, a), NegateCopy(a);
    var k := Cross(ab, ac);
    s, t := EdgeWeights(a, b, c);
    Cramer(ab, ac, ao);
    SolveComponent(k, s, t, Cross(ao, ac), Cross(ab, ao), ab.x, ac.x, ao.x);
    SolveComponent(k, s, t, Cross(ao, ac), Cross(ab, ao), ab.y, ac.y, ao.y);
  }

  /** Along d the origin is -(a . d) = (s + t) (b . d - a . d) ahead of a;
      with b and c equally far and not ahead of the origin, and a strictly
      ahead, that puts s + t at most 1. */
  lemma WeightsBoundedAlong(a: Vec2, b: Vec2, c: Vec2, d: Vec2, s: real, t: real)
    requires NegateCopy(a) == Vec2(s * (b.x - a.x) + t * (c.x - a.x), s * (b.y - a.y) + t * (c.y - a.y))
    requires DotProduct(b, d) == DotProduct(c, d)
    requires DotProduct(b, d) <= 0.0 < DotProduct(a, d)
    ensures s + t <= 1.0
  {
    var ab, ac := SubtractCopy(b, a), SubtractCopy(c, a);
    var m := DotProduct(b, d) - DotProduct(a, d);
    CombinationAlong(ab, ac, d, s, t);
    assert DotProduct(ab, d) == m && DotProduct(ac, d) == m;
    WeightsAtMostOne(s, t, m, DotProduct(a, d));
  }

  /** Both edge tests of a proper triangle whose far edge bc lies on a line
      d . p == m with m <= 0 < d . a enclose the origin: it has barycentric
      weights s, t > 0 with s + t <= 1. */
  lemma EnclosedOrigin(a: Vec2, b: Vec2, c: Vec2, d: Vec2) returns (s: real, t: real)
    requires EdgeTestsPass(a, b, c)
    requires Cross(SubtractCopy(b, a), SubtractCopy(c, a)) != 0.0
    requires DotProduct(b, d) == DotProduct(c, d)
    requires DotProduct(b, d) <= 0.0 < DotProduct(a, d)
    ensures OriginInTriangle(a, b, c, s, t)
  {
    s, t := OriginCombination(a, b, c);
    BarycentricOfOrigin(a, b, c, s, t);
    WeightsBoundedAlong(a, b, c, d, s, t);
  }

  /** -a = s (b - a) + t (c - a) says that the weights s and t put the
      origin at a + s (b - a) + t (c - a). */
  lemma BarycentricOfOrigin(a: Vec2, b: Vec2, c: Vec2, s: real, t: real)
    requires NegateCopy(a) == Vec2(s * (b.x - a.x) + t * (c.x - a.x), s * (b.y - a.y) + t * (c.y - a.y))
    ensures Barycentric(a, b, c, s, t) == Zero
  {
  }

  /** Reading s u + t v along d. */
  lemma CombinationAlong(u: Vec2, v: Vec2, d: Vec2, s: real, t: real)
    ensures DotProduct(Vec2(s * u.x + t * v.x, s * u.y + t * v.y), d)
         == s * DotProduct(u, d) + t * DotProduct(v, d)
  {
  }

  /** If -h = (s + t) m with m <= -h < 0 then s + t <= 1. */
  lemma WeightsAtMostOne(s: real, t: real, m: real, h: real)
    requires 0.0 < h && m <= -h
    requires -h == s * m + t * m
    ensures s + t <= 1.0
  {
    if s + t > 1.0 {
      var p := RealArith.Product(s + t - 1.0, m);
    }
  }

  /** A zero barycentric combination of three differences p_i - q_i is a
      point both triangles p and q contain, with the same weights. */
  lemma CommonPoint(p1: Vec2, p2: Vec2, p3: Vec2, q1: Vec2, q2: Vec2, q3: Vec2, s: real, t: real)
    requires Barycentric(SubtractCopy(p1, q1), SubtractCopy(p2, q2), SubtractCopy(p3, q3), s, t) == Zero
    ensures Barycentric(p1, p2, p3, s, t) == Barycentric(q1, q2, q3, s, t)
  {
    var z := Barycentric(SubtractCopy(p1, q1), SubtractCopy(p2, q2), SubtractCopy(p3, q3), s, t);
    var bp := Barycentric(p1, p2, p3, s, t);
    var bq := Barycentric(q1, q2, q3, s, t);
    assert z.x == bp.x - bq.x;
    assert z.y == bp.y - bq.y;
  }
}
