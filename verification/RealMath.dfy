/** The facts about products and quotients of reals that the image arithmetic needs. */
module RealMath {
  function Mul(a: real, b: real): real { a * b }

  function Div(a: real, b: real): real
    requires b != 0.0
  {
    a / b
  }

  lemma MulDiv(a: real, b: real)
    requires a > 0.0
    ensures Mul(a, Div(b, a)) == b
  {
  }

  lemma MulUnits(a: real)
    ensures Mul(a, 0.0) == 0.0 && Mul(0.0, a) == 0.0 && Mul(a, 1.0) == a && Mul(1.0, a) == a
  {
  }

  lemma MulMonotone(a: real, x: real, y: real)
    requires a >= 0.0 && x <= y
    ensures Mul(a, x) <= Mul(a, y)
  {
  }

  lemma MulStrict(a: real, x: real, y: real)
    requires a > 0.0 && x < y
    ensures Mul(a, x) < Mul(a, y)
  {
  }

  lemma MulCommutes(a: real, b: real)
    ensures Mul(a, b) == Mul(b, a)
  {
  }

  lemma MulAssociates(a: real, b: real, c: real)
    ensures Mul(Mul(a, b), c) == Mul(a, Mul(b, c))
  {
  }

  lemma DivAtMostOne(a: real, b: real)
    requires a > 0.0 && b <= a
    ensures Div(b, a) <= 1.0
  {
    MulDiv(a, b);
    MulUnits(a);
    if Div(b, a) > 1.0 {
      MulStrict(a, 1.0, Div(b, a));
      assert false;
    }
  }

  lemma DivPositive(a: real, b: real)
    requires a > 0.0 && b > 0.0
    ensures Div(b, a) > 0.0
  {
  }
}
