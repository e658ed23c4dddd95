/** Sign facts about products of reals. Each lemma names its result: the
    solver's nonlinear arithmetic does not reliably pick up a sign fact stated
    on a product term, but does use one stated on a variable equal to it. A
    caller binds the result (`var p := Product(x, y);`) only to bring that
    equation and its sign facts into scope, and often never reads it. */
module RealArith {

  /** p is a * b, positive when the factors share a strict sign. */
  lemma Product(a: real, b: real) returns (p: real)
    ensures p == a * b
    ensures a > 0.0 && b > 0.0 ==> p > 0.0
    ensures a < 0.0 && b < 0.0 ==> p > 0.0
    ensures a > 0.0 && b < 0.0 ==> p < 0.0
  {
    p := a * b;
    if a < 0.0 && b < 0.0 {
      assert (-a) * (-b) > 0.0;
    } else if a > 0.0 && b < 0.0 {
      assert a * (-b) > 0.0;
    }
  }

  /** s is a * a: never negative, and zero only when a is. */
  lemma Square(a: real) returns (s: real)
    ensures s == a * a
    ensures s >= 0.0
    ensures a != 0.0 ==> s > 0.0
  {
    s := Product(a, a);
  }
}
