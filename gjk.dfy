/** The Gilbert-Johnson-Keerthi intersection test for two convex polygons
    given by their vertices. The test walks a simplex of at most three points
    of the Minkowski difference A - B towards the origin; the polygons
    intersect exactly when that difference contains the origin. */
module Intersection {

  import opened Vector
  import opened Geometry

  /** The verdicts the test returns. */
  const DISJOINT: int := 0
  const INTERSECTING: int := 1

  /** The test either returns a verdict or, in this model, runs out of the
      iterations it was given. */
  datatype Outcome = Done(code: int) | OutOfFuel

  /** Why a verdict is right. A separating direction for DISJOINT; for
      INTERSECTING, a triangle of difference points with the barycentric
      weights of the origin in it. */
  datatype Evidence =
    | NoEvidence
    | Separation(d: Vec2)
    | Enclosure(a: Witness, b: Witness, c: Witness, s: real, t: real)

  /** A point of the Minkowski difference together with the indices of the
      two vertices it is the difference of. */
  datatype Witness = Witness(p: Vec2, i: nat, j: nat)

  /** w.p is vertex w.i of the first polygon minus vertex w.j of the
      second. */
  ghost predicate InDifference(vertices1: seq<Vec2>, vertices2: seq<Vec2>, w: Witness) {
    w.i < |vertices1| && w.j < |vertices2| && w.p == SubtractCopy(vertices1[w.i], vertices2[w.j])
  }

  /** What an INTERSECTING verdict proves: a triangle of points of the
      Minkowski difference that passed both edge tests and holds the origin
      with barycentric weights s and t. */
  ghost predicate Encloses(vertices1: seq<Vec2>, vertices2: seq<Vec2>, ev: Evidence) {
    && ev.Enclosure?
    && InDifference(vertices1, vertices2, ev.a)
    && InDifference(vertices1, vertices2, ev.b)
    && InDifference(vertices1, vertices2, ev.c)
    && EdgeTestsPass(ev.a.p, ev.b.p, ev.c.p)
    && OriginInTriangle(ev.a.p, ev.b.p, ev.c.p, ev.s, ev.t)
  }

  /** No vertex of the first polygon is further along d than any vertex of
      the second, so the line orthogonal to d through the furthest vertex of
      the first polygon separates them (they may touch on it). */
  ghost predicate Separates(d: Vec2, vertices1: seq<Vec2>, vertices2: seq<Vec2>) {
    forall i, j :: 0 <= i < |vertices1| && 0 <= j < |vertices2| ==>
      DotProduct(d, SubtractCopy(vertices1[i], vertices2[j])) <= 0.0
  }

  /** The loop's state with one point: the direction is nonzero and the
      point lies strictly behind it. */
  ghost predicate PointReady(s0: Vec2, d: Vec2) {
    d != Zero && DotProduct(s0, d) < 0.0
  }

  /** The loop's state with two points: they differ, the direction is
      nonzero and orthogonal to the segment between them, and the segment
      does not lie ahead of the origin along it. */
  ghost predicate LineReady(s0: Vec2, s1: Vec2, d: Vec2) {
    s0 != s1 && d != Zero && DotProduct(s0, d) == DotProduct(s1, d) <= 0.0
  }

  /** After the first support point a lies strictly ahead along d, the
      search turns towards the origin as seen from a. */
  lemma FirstStep(a: Vec2, d: Vec2)
    requires DotProduct(a, d) > 0.0
    ensures PointReady(a, NegateCopy(a))
  {
    assert a != Zero;
    LengthSquaredZero(a);
  }

  /** The line case: with the old point b strictly behind d and the new
      point a strictly ahead, the segment from a to b is proper. */
  lemma TwoPointDistinct(a: Vec2, b: Vec2, d: Vec2)
    requires DotProduct(b, d) < 0.0 < DotProduct(a, d)
    ensures a != b
    ensures SubtractCopy(b, a) != Zero
  {
    assert DotProduct(b, d) != DotProduct(a, d);
  }

  /** The direction the line case picks first, triple(ab, ao, ab), is zero
      exactly when its squared length is, and when it is not zero it is
      orthogonal to the segment and does not point away from the origin as
      seen from a. */
  lemma TwoPointTriple(a: Vec2, b: Vec2)
    ensures var ab := SubtractCopy(b, a);
      var n := TripleProduct(ab, NegateCopy(a), ab);
      && (LengthSquared(n) == 0.0 <==> n == Zero)
      && DotProduct(b, n) == DotProduct(a, n) <= 0.0
  {
    var ab := SubtractCopy(b, a);
    var n := TripleProduct(ab, NegateCopy(a), ab);
    LengthSquaredZero(n);
    TwoPointDirectionFacesOrigin(ab, NegateCopy(a));
    BehindAlongEdge(a, b, n);
  }

  /** When the triple product vanishes for a proper segment, the fallback
      perpendicular of ab is nonzero, orthogonal to the segment and passes
      through the origin as seen from a. */
  lemma TwoPointFallback(a: Vec2, b: Vec2)
    requires SubtractCopy(b, a) != Zero
    requires TripleProduct(SubtractCopy(b, a), NegateCopy(a), SubtractCopy(b, a)) == Zero
    ensures var p := PerpendicularCopy(SubtractCopy(b, a));
      p != Zero && DotProduct(b, p) == DotProduct(a, p) == 0.0
  {
    var ab := SubtractCopy(b, a);
    TwoPointFallbackThroughOrigin(ab, NegateCopy(a));
    LengthSquaredZero(ab);
    LengthSquaredZero(PerpendicularCopy(ab));
    BehindAlongEdge(a, b, PerpendicularCopy(ab));
  }

  /** For a direction n orthogonal to the edge from a to b, both ends lie
      equally far along n, and a lies behind n exactly when n does not
      point away from the origin as seen from a. */
  lemma BehindAlongEdge(a: Vec2, b: Vec2, n: Vec2)
    ensures DotProduct(n, SubtractCopy(b, a)) == 0.0 ==> DotProduct(b, n) == DotProduct(a, n)
    ensures DotProduct(a, n) == -DotProduct(n, NegateCopy(a))
  {
  }

  /** The triangle case. With b and c distinct on a line orthogonal to d
      that does not lie ahead of the origin, and a strictly ahead, a differs
      from both, both edge normals are nonzero and orthogonal to their edge,
      and the one the code keeps does not point away from the origin as seen
      from a. */
  lemma ThreePointFacts(a: Vec2, b: Vec2, c: Vec2, d: Vec2)
    requires b != c
    requires DotProduct(b, d) == DotProduct(c, d) <= 0.0 < DotProduct(a, d)
    ensures a != b && a != c
    ensures Cross(SubtractCopy(b, a), SubtractCopy(c, a)) != 0.0
    ensures var ab, ac, ao := SubtractCopy(b, a), SubtractCopy(c, a), NegateCopy(a);
      var acperp := TripleProduct(ab, ac, ac);
      && acperp != Zero
      && (DotProduct(acperp, ao) >= 0.0 ==> DotProduct(c, acperp) == DotProduct(a, acperp) <= 0.0)
    ensures var ab, ac, ao := SubtractCopy(b, a), SubtractCopy(c, a), NegateCopy(a);
      var abperp := TripleProduct(ac, ab, ab);
      && abperp != Zero
      && (DotProduct(abperp, ao) >= 0.0 ==> DotProduct(b, abperp) == DotProduct(a, abperp) <= 0.0)
  {
    TriangleNondegenerate(a, b, c, d);
    EdgeNormalsNonzero(a, b, c);
  }

  /** A support point along d that does not lie ahead of the origin
      proves that d separates the two polygons. */
  lemma SupportSeparates(d: Vec2, vertices1: seq<Vec2>, vertices2: seq<Vec2>, a: Vec2)
    requires forall p, q {:trigger DotProduct(d, SubtractCopy(vertices1[p], vertices2[q]))} ::
      0 <= p < |vertices1| && 0 <= q < |vertices2| ==>
      DotProduct(d, SubtractCopy(vertices1[p], vertices2[q])) <= DotProduct(d, a)
    requires DotProduct(a, d) <= 0.0
    ensures Separates(d, vertices1, vertices2)
  {
    DotProductSymmetric(a, d);
  }

  /** The line branch of the loop body: the simplex is the old point b
      and the new support point a, which lies strictly ahead along the old
      direction d. The new direction is triple(ab, ao, ab), or the
      perpendicular of ab when that has zero length; either way the two
      points form a two-point state along it. */
  method LineCase(a: Vec2, b: Vec2, ghost d: Vec2) returns (next: Vec2)
    requires PointReady(b, d) && DotProduct(a, d) > 0.0
    ensures LineReady(b, a, next)
    ensures var ab := SubtractCopy(b, a);
      var n := TripleProduct(ab, NegateCopy(a), ab);
      next == (if LengthSquared(n) == 0.0 then PerpendicularCopy(ab) else n)
  {
    TwoPointDistinct(a, b, d);
    TwoPointTriple(a, b);
    var ao := NegateCopy(a);
    var ab := SubtractCopy(b, a);
    next := TripleProduct(ab, ao, ab);
    if LengthSquared(next) == 0.0 {
      TwoPointFallback(a, b);
      next := PerpendicularCopy(ab);
    }
  }

  /** The triangle branch of the loop body: the simplex is c, b (a
      two-point state along the old direction d) and the new support point
      a, strictly ahead along d. It reports the origin enclosed exactly when
      both edge tests pass, and then gives its barycentric weights;
      otherwise it keeps c (when the normal of AC faces the origin) or b,
      together with a, as a two-point state along the new direction. */
  method TriangleCase(a: Vec2, b: Vec2, c: Vec2, ghost d: Vec2)
    returns (enclosed: bool, keepB: bool, next: Vec2, ghost s: real, ghost t: real)
    requires LineReady(c, b, d) && DotProduct(a, d) > 0.0
    ensures enclosed <==> EdgeTestsPass(a, b, c)
    ensures enclosed ==> OriginInTriangle(a, b, c, s, t)
    ensures !enclosed && !keepB ==> LineReady(c, a, next)
    ensures !enclosed && keepB ==> LineReady(b, a, next)
    ensures var ab, ac := SubtractCopy(b, a), SubtractCopy(c, a);
      !enclosed ==> (keepB <==> DotProduct(TripleProduct(ab, ac, ac), NegateCopy(a)) < 0.0)
    ensures var ab, ac := SubtractCopy(b, a), SubtractCopy(c, a);
      !enclosed ==> next == (if keepB then TripleProduct(ac, ab, ab) else TripleProduct(ab, ac, ac))
  {
    ThreePointFacts(a, b, c, d);
    s, t := 0.0, 0.0;
    enclosed, keepB := false, false;
    var ao := NegateCopy(a);
    var ab := SubtractCopy(b, a);
    var ac := SubtractCopy(c, a);

    var acperp := TripleProduct(ab, ac, ac);

    if DotProduct(acperp, ao) >= 0.0 {
      next := acperp;
    } else {
      var abperp := TripleProduct(ac, ab, ab);

      if DotProduct(abperp, ao) < 0.0 {
        enclosed := true;
        s, t := EnclosedOrigin(a, b, c, d);
        next := abperp;
        return;
      }

      keepB := true;
      next := abperp;
    }
  }

  /** Runs the test for at most `fuel` iterations of its main loop. A
      DISJOINT verdict comes with a nonzero direction along which no vertex
      of the first polygon lies ahead of any vertex of the second (the two
      may touch); an INTERSECTING verdict comes with a triangle of difference
      points that passed both edge tests and holds the origin. */
  method Gjk(vertices1: seq<Vec2>, vertices2: seq<Vec2>, fuel: nat)
    returns (r: Outcome, ghost ev: Evidence)
    requires |vertices1| > 0 && |vertices2| > 0
    ensures r.Done? ==> r.code == DISJOINT || r.code == INTERSECTING
    ensures r == Done(DISJOINT) ==>
      ev.Separation? && ev.d != Zero && Separates(ev.d, vertices1, vertices2)
    ensures r == Done(INTERSECTING) ==> Encloses(vertices1, vertices2, ev)
  {
    ev := NoEvidence;
    var index: nat := 0;

    var position1 := AveragePoint(vertices1);
    var position2 := AveragePoint(vertices2);

    var d := SubtractCopy(position1, position2);

    if d.x == 0.0 && d.y == 0.0 {
      d := d.(x := 1.0);
    }

    var simplex := new Vec2[3][Zero, Zero, Zero];

    var a: Vec2;
    ghost var i: nat, j: nat;
    a, i, j := MinkowskiSum(d, vertices1, vertices2);
    // Which vertices each simplex point is the difference of.
    ghost var w0 := Witness(a, i, j);
    ghost var w1 := w0;

    simplex[0] := a;

    if DotProduct(a, d) <= 0.0 {
      SupportSeparates(d, vertices1, vertices2, a);
      r, ev := Done(DISJOINT), Separation(d);
      return;
    }

    FirstStep(a, d);
    d := NegateCopy(a);

    var remaining := fuel;
    while remaining > 0
      invariant index <= 1
      invariant simplex.Length == 3
      invariant InDifference(vertices1, vertices2, w0) && w0.p == simplex[0]
      invariant index == 1 ==> InDifference(vertices1, vertices2, w1) && w1.p == simplex[1]
      invariant index == 0 ==> PointReady(simplex[0], d)
      invariant index == 1 ==> LineReady(simplex[0], simplex[1], d)
      decreases remaining
    {
      remaining := remaining - 1;
      index := index + 1;

      var support: Vec2;
      support, i, j := MinkowskiSum(d, vertices1, vertices2);
      ghost var w2 := Witness(support, i, j);
      simplex[index] := support;

      a := simplex[index];

      if DotProduct(a, d) <= 0.0 {
        SupportSeparates(d, vertices1, vertices2, a);
        r, ev := Done(DISJOINT), Separation(d);
        return;
      }

      if index < 2 {
        d := LineCase(a, simplex[0], d);
        w1 := w2;
        continue;
      }

      var enclosed, keepB;
      ghost var s, t;
      enclosed, keepB, d, s, t := TriangleCase(a, simplex[1], simplex[0], d);

      if enclosed {
        r, ev := Done(INTERSECTING), Enclosure(w2, w1, w0, s, t);
        return;
      }

      if keepB {
        simplex[0] := simplex[1];
        w0 := w1;
      }

      simplex[1] := simplex[2];
      w1 := w2;
      index := index - 1;
    }
    r := OutOfFuel;
  }

  /** An INTERSECTING verdict names a point that both polygons contain:
      the same convex combination (weights 1 - s - t, s and t, all
      nonnegative) of three vertices of each. */
  lemma IntersectionHasCommonPoint(vertices1: seq<Vec2>, vertices2: seq<Vec2>, ev: Evidence)
    requires Encloses(vertices1, vertices2, ev)
    ensures Barycentric(vertices1[ev.a.i], vertices1[ev.b.i], vertices1[ev.c.i], ev.s, ev.t)
         == Barycentric(vertices2[ev.a.j], vertices2[ev.b.j], vertices2[ev.c.j], ev.s, ev.t)
  {
    CommonPoint(vertices1[ev.a.i], vertices1[ev.b.i], vertices1[ev.c.i],
                vertices2[ev.a.j], vertices2[ev.b.j], vertices2[ev.c.j], ev.s, ev.t);
  }
}
