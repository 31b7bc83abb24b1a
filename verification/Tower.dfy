// The tower over the integers: i^2 = -1, tau^3 = xi = i + 9, omega^2 = tau, with schoolbook products.
module Tower {
  import opened Arith

  /** x * i + y. */
  datatype Z2 = Z2(x: int, y: int)

  function Add2(a: Z2, b: Z2): Z2 { Z2(a.x + b.x, a.y + b.y) }

  function Sub2(a: Z2, b: Z2): Z2 { Z2(a.x - b.x, a.y - b.y) }

  function Neg2(a: Z2): Z2 { Z2(-a.x, -a.y) }

  function Mul2(a: Z2, b: Z2): Z2 { Z2(a.x * b.y + a.y * b.x, a.y * b.y - a.x * b.x) }

  const XI: Z2 := Z2(1, 9)

  function Xi2(a: Z2): Z2 { Mul2(a, XI) }

  const ZERO2: Z2 := Z2(0, 0)
  const ONE2: Z2 := Z2(0, 1)

  /** x * tau^2 + y * tau + z. */
  datatype Z6 = Z6(x: Z2, y: Z2, z: Z2)

  function Add6(a: Z6, b: Z6): Z6 { Z6(Add2(a.x, b.x), Add2(a.y, b.y), Add2(a.z, b.z)) }

  function Sub6(a: Z6, b: Z6): Z6 { Z6(Sub2(a.x, b.x), Sub2(a.y, b.y), Sub2(a.z, b.z)) }

  function Neg6(a: Z6): Z6 { Z6(Neg2(a.x), Neg2(a.y), Neg2(a.z)) }

  function Mul6(a: Z6, b: Z6): Z6 {
    Z6(Add2(Add2(Mul2(a.x, b.z), Mul2(a.y, b.y)), Mul2(a.z, b.x)),
       Add2(Add2(Xi2(Mul2(a.x, b.x)), Mul2(a.y, b.z)), Mul2(a.z, b.y)),
       Add2(Xi2(Add2(Mul2(a.x, b.y), Mul2(a.y, b.x))), Mul2(a.z, b.z)))
  }

  const TAU: Z6 := Z6(ZERO2, ONE2, ZERO2)
  const ZERO6: Z6 := Z6(ZERO2, ZERO2, ZERO2)
  const ONE6: Z6 := Z6(ZERO2, ZERO2, ONE2)

  /** x * omega + y. */
  datatype Z12 = Z12(x: Z6, y: Z6)

  function Mul12(a: Z12, b: Z12): Z12 {
    Z12(Add6(Mul6(a.x, b.y), Mul6(a.y, b.x)), Add6(Mul6(a.y, b.y), Mul6(Mul6(a.x, b.x), TAU)))
  }

  const ONE12: Z12 := Z12(ZERO6, ONE6)

  // ---------------------------------------------------------------------------------
  // Ring laws
  // ---------------------------------------------------------------------------------

  lemma Mul2Comm(a: Z2, b: Z2)
    ensures Mul2(a, b) == Mul2(b, a)
  {
  }

  lemma Turn(a: int, b: int, c: int)
    ensures (b * c) * a == (a * b) * c
  {
  }

  lemma Mul2Terms(a: Z2, b: Z2, c: Z2)
    ensures Mul2(Mul2(a, b), c).x == (a.x * b.y) * c.y + (a.y * b.x) * c.y + (a.y * b.y) * c.x - (a.x * b.x) * c.x
    ensures Mul2(Mul2(a, b), c).y == (a.y * b.y) * c.y - (a.x * b.x) * c.y - (a.x * b.y) * c.x - (a.y * b.x) * c.x
  {
  }

  lemma Mul2Assoc(a: Z2, b: Z2, c: Z2)
    ensures Mul2(Mul2(a, b), c) == Mul2(a, Mul2(b, c))
  {
    Mul2Comm(a, Mul2(b, c));
    hide Mul2;
    Mul2Terms(a, b, c);
    Mul2Terms(b, c, a);
    Turn(a.x, b.x, c.x);
    Turn(a.x, b.x, c.y);
    Turn(a.x, b.y, c.x);
    Turn(a.x, b.y, c.y);
    Turn(a.y, b.x, c.x);
    Turn(a.y, b.x, c.y);
    Turn(a.y, b.y, c.x);
    Turn(a.y, b.y, c.y);
  }

  lemma Mul2Distrib(a: Z2, b: Z2, c: Z2)
    ensures Mul2(a, Add2(b, c)) == Add2(Mul2(a, b), Mul2(a, c))
    ensures Mul2(a, Sub2(b, c)) == Sub2(Mul2(a, b), Mul2(a, c))
    ensures Mul2(Add2(b, c), a) == Add2(Mul2(b, a), Mul2(c, a))
    ensures Mul2(Sub2(b, c), a) == Sub2(Mul2(b, a), Mul2(c, a))
    ensures Mul2(a, Neg2(b)) == Neg2(Mul2(a, b)) && Mul2(Neg2(a), b) == Neg2(Mul2(a, b))
  {
    hide Mul2;
    Mul2Sum(a, b, c);
    Mul2Difference(a, b, c);
    Mul2Comm(a, Add2(b, c));
    Mul2Comm(a, Sub2(b, c));
    Mul2Comm(a, b);
    Mul2Comm(a, c);
    Mul2Neg(a, b);
    Mul2Neg(b, a);
    Mul2Comm(Neg2(a), b);
  }

  lemma Mul2Sum(a: Z2, b: Z2, c: Z2)
    ensures Mul2(a, Add2(b, c)) == Add2(Mul2(a, b), Mul2(a, c))
  {
    Distribute(a.x, b.y, c.y);
    Distribute(a.y, b.x, c.x);
    Distribute(a.y, b.y, c.y);
    Distribute(a.x, b.x, c.x);
  }

  lemma Mul2Neg(a: Z2, b: Z2)
    ensures Mul2(a, Neg2(b)) == Neg2(Mul2(a, b))
  {
  }

  lemma Mul2Difference(a: Z2, b: Z2, c: Z2)
    ensures Mul2(a, Sub2(b, c)) == Sub2(Mul2(a, b), Mul2(a, c))
  {
    hide Mul2;
    assert Sub2(b, c) == Add2(b, Neg2(c)) && Sub2(Mul2(a, b), Mul2(a, c)) == Add2(Mul2(a, b), Neg2(Mul2(a, c)));
    Mul2Sum(a, b, Neg2(c));
    Mul2Neg(a, c);
  }

  lemma Mul2Units(a: Z2)
    ensures Mul2(a, ONE2) == a && Mul2(a, ZERO2) == ZERO2
  {
  }

  lemma Mul6Comm(a: Z6, b: Z6)
    ensures Mul6(a, b) == Mul6(b, a)
  {
    hide Mul2, Add2;
    Mul2Comm(a.x, b.x);
    Mul2Comm(a.x, b.y);
    Mul2Comm(a.x, b.z);
    Mul2Comm(a.y, b.x);
    Mul2Comm(a.y, b.y);
    Mul2Comm(a.y, b.z);
    Mul2Comm(a.z, b.x);
    Mul2Comm(a.z, b.y);
    Mul2Comm(a.z, b.z);
    Add2Laws(Mul2(a.x, b.z), Mul2(a.y, b.y), Mul2(a.z, b.x));
    Add2Laws(Mul2(a.x, b.y), Mul2(a.y, b.x), ZERO2);
    Add2Laws(Xi2(Mul2(a.x, b.x)), Mul2(a.y, b.z), Mul2(a.z, b.y));
  }

  lemma Add2Laws(a: Z2, b: Z2, c: Z2)
    ensures Add2(a, b) == Add2(b, a)
    ensures Add2(Add2(a, b), c) == Add2(Add2(c, b), a)
    ensures Add2(Add2(a, b), c) == Add2(Add2(a, c), b)
  {
  }

  lemma Add6Laws(a: Z6, b: Z6, c: Z6)
    ensures Add6(a, b) == Add6(b, a) && Add6(Add6(a, b), c) == Add6(a, Add6(b, c))
  {
  }

  lemma Mul6Distrib(a: Z6, b: Z6, c: Z6)
    ensures Mul6(a, Add6(b, c)) == Add6(Mul6(a, b), Mul6(a, c))
    ensures Mul6(Add6(b, c), a) == Add6(Mul6(b, a), Mul6(c, a))
  {
    Mul6Left(a, b, c);
    hide Mul2, Mul6;
    Mul6Comm(a, b);
    Mul6Comm(a, c);
    Mul6Comm(a, Add6(b, c));
  }

  lemma Mul6Left(a: Z6, b: Z6, c: Z6)
    ensures Mul6(a, Add6(b, c)) == Add6(Mul6(a, b), Mul6(a, c))
  {
    hide Mul2, Xi2;
    Mul2Distrib(a.x, b.x, c.x);
    Mul2Distrib(a.x, b.y, c.y);
    Mul2Distrib(a.x, b.z, c.z);
    Mul2Distrib(a.y, b.x, c.x);
    Mul2Distrib(a.y, b.y, c.y);
    Mul2Distrib(a.y, b.z, c.z);
    Mul2Distrib(a.z, b.x, c.x);
    Mul2Distrib(a.z, b.y, c.y);
    Mul2Distrib(a.z, b.z, c.z);
    XiSum(Mul2(a.x, b.x), Mul2(a.x, c.x));
    var (m, n) := (Add2(Mul2(a.x, b.y), Mul2(a.y, b.x)), Add2(Mul2(a.x, c.y), Mul2(a.y, c.x)));
    XiSum(m, n);
    Add2Four(Mul2(a.x, b.y), Mul2(a.x, c.y), Mul2(a.y, b.x), Mul2(a.y, c.x));
  }

  lemma Add2Four(a: Z2, b: Z2, c: Z2, d: Z2)
    ensures Add2(Add2(a, b), Add2(c, d)) == Add2(Add2(a, c), Add2(b, d))
  {
  }

  function Scale6(s: Z2, a: Z6): Z6 { Z6(Mul2(s, a.x), Mul2(s, a.y), Mul2(s, a.z)) }

  function Tau6(a: Z6): Z6 { Z6(a.y, a.z, Xi2(a.x)) }

  lemma XiUnits()
    ensures Xi2(ZERO2) == ZERO2 && Xi2(ONE2) == XI
  {
    hide Mul2;
    Mul2Comm(ZERO2, XI);
    Mul2Comm(ONE2, XI);
    Mul2Units(XI);
  }

  lemma Add2Zero(a: Z2)
    ensures Add2(a, ZERO2) == a && Add2(ZERO2, a) == a
  {
  }

  lemma TauIs(a: Z6)
    ensures Mul6(a, TAU) == Tau6(a)
  {
    hide Mul2, Xi2, Add2;
    Mul2Units(a.x);
    Mul2Units(a.y);
    Mul2Units(a.z);
    XiUnits();
    Add2Zero(a.x);
    Add2Zero(a.y);
    Add2Zero(a.z);
    Add2Zero(ZERO2);
    Add2Zero(Xi2(a.x));
  }

  lemma ImaginaryUnit()
    ensures Mul2(Z2(1, 0), Z2(1, 0)) == Neg2(ONE2)
  {
  }

  /** The squares of the generators are what the tower says. */
  lemma Generators()
    ensures Mul2(Z2(1, 0), Z2(1, 0)) == Neg2(ONE2)
    ensures Mul6(TAU, Mul6(TAU, TAU)) == Z6(ZERO2, ZERO2, XI)
    ensures Mul12(Z12(ONE6, ZERO6), Z12(ONE6, ZERO6)) == Z12(ZERO6, TAU)
  {
    hide Mul2, Mul6, Xi2, Add2;
    ImaginaryUnit();
    XiUnits();
    Mul6Comm(TAU, Mul6(TAU, TAU));
    TauIs(TAU);
    TauIs(Mul6(TAU, TAU));
    Mul6Units(ONE6);
    Mul6Units(ZERO6);
    Mul6Units(TAU);
    Mul6Comm(ONE6, TAU);
    Mul6Comm(ONE6, ZERO6);
    Add2Zero(ZERO2);
    Add2Zero(ONE2);
  }

  lemma Mul6Units(a: Z6)
    ensures Mul6(a, ONE6) == a && Mul6(a, ZERO6) == ZERO6
  {
    hide Mul2, Xi2, Add2;
    Mul2Units(a.x);
    Mul2Units(a.y);
    Mul2Units(a.z);
    XiUnits();
    Add2Zero(a.x);
    Add2Zero(a.y);
    Add2Zero(a.z);
    Add2Zero(ZERO2);
  }

  lemma Scale3(s: Z2, p: Z2, q: Z2, r: Z2)
    ensures Mul2(s, Add2(Add2(p, q), r)) == Add2(Add2(Mul2(s, p), Mul2(s, q)), Mul2(s, r))
  {
    hide Mul2;
    Mul2Distrib(s, Add2(p, q), r);
    Mul2Distrib(s, p, q);
  }

  lemma XiScale(s: Z2, p: Z2)
    ensures Xi2(Mul2(s, p)) == Mul2(s, Xi2(p))
  {
    Mul2Assoc(s, p, XI);
  }

  /** Scaling by an element of the field below commutes with products. */
  lemma ScaleMul(s: Z2, a: Z6, b: Z6)
    ensures Mul6(Scale6(s, a), b) == Scale6(s, Mul6(a, b))
  {
    hide Mul2, Add2, Xi2;
    Mul2Assoc(s, a.x, b.x);
    Mul2Assoc(s, a.x, b.y);
    Mul2Assoc(s, a.x, b.z);
    Mul2Assoc(s, a.y, b.x);
    Mul2Assoc(s, a.y, b.y);
    Mul2Assoc(s, a.y, b.z);
    Mul2Assoc(s, a.z, b.x);
    Mul2Assoc(s, a.z, b.y);
    Mul2Assoc(s, a.z, b.z);
    Scale3(s, Mul2(a.x, b.z), Mul2(a.y, b.y), Mul2(a.z, b.x));
    Scale3(s, Xi2(Mul2(a.x, b.x)), Mul2(a.y, b.z), Mul2(a.z, b.y));
    var m := Add2(Mul2(a.x, b.y), Mul2(a.y, b.x));
    Mul2Distrib(s, Mul2(a.x, b.y), Mul2(a.y, b.x));
    Mul2Distrib(s, Xi2(m), Mul2(a.z, b.z));
    XiScale(s, Mul2(a.x, b.x));
    XiScale(s, m);
  }

  lemma TauMul(a: Z6, b: Z6)
    ensures Mul6(Tau6(a), b) == Tau6(Mul6(a, b))
  {
  }

  lemma Mul6Horner(a: Z6, b: Z6)
    ensures Mul6(a, b) == Add6(Scale6(a.z, b), Tau6(Add6(Scale6(a.y, b), Tau6(Scale6(a.x, b)))))
  {
  }

  lemma Mul6Assoc(a: Z6, b: Z6, c: Z6)
    ensures Mul6(Mul6(a, b), c) == Mul6(a, Mul6(b, c))
  {
    hide Mul2, Add2, Mul6, Scale6, Tau6, Add6;
    var (u, v, w) := (Scale6(a.z, b), Scale6(a.y, b), Tau6(Scale6(a.x, b)));
    Mul6Horner(a, b);
    Mul6Horner(a, Mul6(b, c));
    Mul6Distrib(c, u, Tau6(Add6(v, w)));
    TauMul(Add6(v, w), c);
    Mul6Distrib(c, v, w);
    TauMul(Scale6(a.x, b), c);
    ScaleMul(a.x, b, c);
    ScaleMul(a.y, b, c);
    ScaleMul(a.z, b, c);
  }

  // ---------------------------------------------------------------------------------
  // The shortcuts
  // ---------------------------------------------------------------------------------

  /** Karatsuba: three products and the sums' products make all nine. */
  lemma Karatsuba(a: Z6, b: Z6)
    ensures var (v0, v1, v2) := (Mul2(a.z, b.z), Mul2(a.y, b.y), Mul2(a.x, b.x));
            Mul6(a, b) == Z6(
              Sub2(Add2(Sub2(Mul2(Add2(a.x, a.z), Add2(b.x, b.z)), v0), v1), v2),
              Add2(Sub2(Sub2(Mul2(Add2(a.y, a.z), Add2(b.y, b.z)), v0), v1), Xi2(v2)),
              Add2(Xi2(Sub2(Sub2(Mul2(Add2(a.x, a.y), Add2(b.x, b.y)), v1), v2)), v0))
  {
    SumProduct(a.x, a.z, b.x, b.z);
    SumProduct(a.y, a.z, b.y, b.z);
    SumProduct(a.x, a.y, b.x, b.y);
    XiSum(Mul2(a.x, b.y), Mul2(a.y, b.x));
    hide Mul2;
  }

  lemma SumProduct(a: Z2, b: Z2, c: Z2, d: Z2)
    ensures Mul2(Add2(a, b), Add2(c, d)) == Add2(Add2(Mul2(a, c), Mul2(b, d)), Add2(Mul2(a, d), Mul2(b, c)))
  {
    hide Mul2;
    Mul2Distrib(Add2(a, b), c, d);
    Mul2Distrib(c, a, b);
    Mul2Distrib(d, a, b);
  }

  lemma XiSum(p: Z2, q: Z2)
    ensures Xi2(Add2(p, q)) == Add2(Xi2(p), Xi2(q))
  {
  }

  /** (ix + y)^2 from two products instead of three. */
  lemma ComplexSquare2(a: Z2)
    ensures Mul2(a, a) == Z2(a.x * a.y + a.x * a.y, (a.y - a.x) * (a.x + a.y))
  {
  }

  lemma ComplexSquare12(a: Z12)
    ensures var v0 := Mul6(a.x, a.y);
            Mul12(a, a) == Z12(Add6(v0, v0),
              Sub6(Sub6(Mul6(Add6(a.x, a.y), Add6(a.y, Tau6(a.x))), v0), Tau6(v0)))
  {
    hide Mul2, Mul6, Xi2;
    var (x, y, t, v0) := (a.x, a.y, Tau6(a.x), Mul6(a.x, a.y));
    Mul6Distrib(Add6(x, y), y, t);
    Mul6Distrib(y, x, y);
    Mul6Distrib(t, x, y);
    Mul6Comm(x, y);
    TauIs(x);
    TauIs(v0);
    TauIs(Mul6(x, x));
    Mul6Assoc(x, x, TAU);
    Mul6Assoc(y, x, TAU);
    hide Tau6;
  }

  // ---------------------------------------------------------------------------------
  // Inverses
  // ---------------------------------------------------------------------------------

  /** What the inverse of a sextic element is made of, before dividing by the norm. */
  function Adjoint(a: Z6): Z6 {
    Z6(Sub2(Mul2(a.y, a.y), Mul2(a.x, a.z)),
       Sub2(Xi2(Mul2(a.x, a.x)), Mul2(a.y, a.z)),
       Sub2(Mul2(a.z, a.z), Xi2(Mul2(a.x, a.y))))
  }

  function Norm6(a: Z6): Z2 {
    var c := Adjoint(a);
    Add2(Add2(Xi2(Mul2(c.x, a.y)), Mul2(c.z, a.z)), Xi2(Mul2(c.y, a.x)))
  }

  lemma Swap(p: Z2, q: Z2, r: Z2)
    ensures Mul2(p, Mul2(q, r)) == Mul2(q, Mul2(p, r))
  {
    hide Mul2;
    Mul2Assoc(p, q, r);
    Mul2Assoc(q, p, r);
    Mul2Comm(p, q);
  }

  /** An element times its adjoint is its norm. */
  lemma AdjointNorm(a: Z6)
    ensures Mul6(a, Adjoint(a)) == Z6(ZERO2, ZERO2, Norm6(a))
  {
    hide Mul2, Xi2;
    var (p, q, r) := (a.x, a.y, a.z);
    AdjointX(p, q, r);
    AdjointY(p, q, r);
    Mul2Comm(a.x, Adjoint(a).y);
    Mul2Comm(a.y, Adjoint(a).x);
    Mul2Comm(a.z, Adjoint(a).z);
    XiSum(Mul2(Adjoint(a).y, a.x), Mul2(Adjoint(a).x, a.y));
  }

  lemma AdjointX(p: Z2, q: Z2, r: Z2)
    ensures Add2(Add2(Mul2(p, Sub2(Mul2(r, r), Xi2(Mul2(p, q)))), Mul2(q, Sub2(Xi2(Mul2(p, p)), Mul2(q, r)))),
                 Mul2(r, Sub2(Mul2(q, q), Mul2(p, r)))) == ZERO2
  {
    hide Mul2, Xi2;
    Mul2Distrib(p, Mul2(r, r), Xi2(Mul2(p, q)));
    Mul2Distrib(q, Xi2(Mul2(p, p)), Mul2(q, r));
    Mul2Distrib(r, Mul2(q, q), Mul2(p, r));
    Swap(p, r, r);
    Swap(q, r, q);
    Mul2Comm(q, r);
    XiScale(p, Mul2(p, q));
    XiScale(q, Mul2(p, p));
    Swap(p, q, p);
    Mul2Comm(p, q);
  }

  lemma AdjointY(p: Z2, q: Z2, r: Z2)
    ensures Add2(Add2(Xi2(Mul2(p, Sub2(Mul2(q, q), Mul2(p, r)))), Mul2(q, Sub2(Mul2(r, r), Xi2(Mul2(p, q))))),
                 Mul2(r, Sub2(Xi2(Mul2(p, p)), Mul2(q, r)))) == ZERO2
  {
    hide Mul2;
    Mul2Distrib(p, Mul2(q, q), Mul2(p, r));
    XiDifference(Mul2(p, Mul2(q, q)), Mul2(p, Mul2(p, r)));
    hide Xi2;
    Mul2Distrib(q, Mul2(r, r), Xi2(Mul2(p, q)));
    Mul2Distrib(r, Xi2(Mul2(p, p)), Mul2(q, r));
    XiScale(q, Mul2(p, q));
    XiScale(r, Mul2(p, p));
    Swap(p, q, q);
    Swap(p, r, p);
    Mul2Comm(p, r);
    Swap(q, r, r);
  }

  lemma XiDifference(p: Z2, q: Z2)
    ensures Xi2(Sub2(p, q)) == Sub2(Xi2(p), Xi2(q))
  {
  }

  function Norm2(a: Z2): int { a.x * a.x + a.y * a.y }

  /** What is inverted in the sextic field for an element of the whole tower. */
  function Norm12(a: Z12): Z6 { Sub6(Mul6(a.y, a.y), Tau6(Mul6(a.x, a.x))) }

  lemma XiNeg(p: Z2)
    ensures Xi2(Neg2(p)) == Neg2(Xi2(p))
  {
  }

  lemma Mul6Neg(a: Z6, b: Z6)
    ensures Mul6(a, Neg6(b)) == Neg6(Mul6(a, b))
  {
    hide Mul2, Xi2;
    Mul2Distrib(a.x, b.x, b.x);
    Mul2Distrib(a.x, b.y, b.y);
    Mul2Distrib(a.x, b.z, b.z);
    Mul2Distrib(a.y, b.x, b.x);
    Mul2Distrib(a.y, b.y, b.y);
    Mul2Distrib(a.y, b.z, b.z);
    Mul2Distrib(a.z, b.x, b.x);
    Mul2Distrib(a.z, b.y, b.y);
    Mul2Distrib(a.z, b.z, b.z);
    XiNeg(Mul2(a.x, b.x));
    XiNeg(Add2(Mul2(a.x, b.y), Mul2(a.y, b.x)));
    NegSum(Mul2(a.x, b.y), Mul2(a.y, b.x));
  }

  lemma NegSum(p: Z2, q: Z2)
    ensures Neg2(Add2(p, q)) == Add2(Neg2(p), Neg2(q))
  {
  }

  lemma Conjugate12(a: Z12)
    ensures Mul12(a, Z12(Neg6(a.x), a.y)) == Z12(ZERO6, Norm12(a))
  {
    Mul6Neg(a.y, a.x);
    Mul6Neg(a.x, a.x);
    hide Mul6, Mul2;
    Mul6Comm(a.x, a.y);
    TauIs(Neg6(Mul6(a.x, a.x)));
    TauNeg(Mul6(a.x, a.x));
    hide Tau6;
  }

  lemma TauNeg(a: Z6)
    ensures Tau6(Neg6(a)) == Neg6(Tau6(a))
  {
  }

  // ---------------------------------------------------------------------------------
  // Powers
  // ---------------------------------------------------------------------------------

  function Add12(a: Z12, b: Z12): Z12 { Z12(Add6(a.x, b.x), Add6(a.y, b.y)) }

  function Scale12(s: Z6, a: Z12): Z12 { Z12(Mul6(s, a.x), Mul6(s, a.y)) }

  function Omega12(a: Z12): Z12 { Z12(a.y, Mul6(a.x, TAU)) }

  lemma Mul12Horner(a: Z12, b: Z12)
    ensures Mul12(a, b) == Add12(Scale12(a.y, b), Omega12(Scale12(a.x, b)))
  {
    hide Mul6, Add6;
    Add6Laws(Mul6(a.x, b.y), Mul6(a.y, b.x), ZERO6);
  }

  lemma Mul12Distrib(a: Z12, b: Z12, c: Z12)
    ensures Mul12(Add12(a, b), c) == Add12(Mul12(a, c), Mul12(b, c))
  {
    hide Mul6, Add6;
    Mul6Distrib(c.y, a.x, b.x);
    Mul6Distrib(c.x, a.y, b.y);
    Mul6Distrib(c.y, a.y, b.y);
    Mul6Distrib(c.x, a.x, b.x);
    Mul6Distrib(TAU, Mul6(a.x, c.x), Mul6(b.x, c.x));
    Regroup(Mul6(a.x, c.y), Mul6(b.x, c.y), Mul6(a.y, c.x), Mul6(b.y, c.x));
    Regroup(Mul6(a.y, c.y), Mul6(b.y, c.y), Mul6(Mul6(a.x, c.x), TAU), Mul6(Mul6(b.x, c.x), TAU));
  }

  lemma Regroup(p: Z6, q: Z6, r: Z6, s: Z6)
    ensures Add6(Add6(p, q), Add6(r, s)) == Add6(Add6(p, r), Add6(q, s))
  {
  }

  lemma Scale12Mul(s: Z6, a: Z12, b: Z12)
    ensures Mul12(Scale12(s, a), b) == Scale12(s, Mul12(a, b))
  {
    hide Mul6, Add6;
    Mul6Assoc(s, a.x, b.y);
    Mul6Assoc(s, a.y, b.x);
    Mul6Assoc(s, a.y, b.y);
    Mul6Assoc(s, a.x, b.x);
    Mul6Assoc(s, Mul6(a.x, b.x), TAU);
    Mul6Distrib(s, Mul6(a.x, b.y), Mul6(a.y, b.x));
    Mul6Distrib(s, Mul6(a.y, b.y), Mul6(Mul6(a.x, b.x), TAU));
  }

  lemma OmegaMul(a: Z12, b: Z12)
    ensures Mul12(Omega12(a), b) == Omega12(Mul12(a, b))
  {
    hide Mul6, Add6;
    TauThrough(a.x, b.x);
    TauThrough(a.x, b.y);
    Mul6Distrib(TAU, Mul6(a.x, b.y), Mul6(a.y, b.x));
    Add6Laws(Mul6(a.y, b.y), Mul6(Mul6(a.x, b.x), TAU), ZERO6);
    Add6Laws(Mul6(Mul6(a.x, b.y), TAU), Mul6(Mul6(a.y, b.x), TAU), ZERO6);
  }

  lemma TauThrough(a: Z6, b: Z6)
    ensures Mul6(Mul6(a, TAU), b) == Mul6(Mul6(a, b), TAU)
  {
    hide Mul6;
    Mul6Assoc(a, TAU, b);
    Mul6Assoc(a, b, TAU);
    Mul6Comm(TAU, b);
  }

  lemma Mul12Assoc(a: Z12, b: Z12, c: Z12)
    ensures Mul12(Mul12(a, b), c) == Mul12(a, Mul12(b, c))
  {
    hide Mul12, Add12, Scale12, Omega12;
    var (u, v) := (Scale12(a.y, b), Scale12(a.x, b));
    Mul12Horner(a, b);
    Mul12Horner(a, Mul12(b, c));
    Mul12Distrib(u, Omega12(v), c);
    OmegaMul(v, c);
    Scale12Mul(a.y, b, c);
    Scale12Mul(a.x, b, c);
  }

  lemma Mul12Units(a: Z12)
    ensures Mul12(a, ONE12) == a && Mul12(ONE12, a) == a
  {
    hide Mul6, Add6;
    Mul6Units(a.x);
    Mul6Units(a.y);
    Mul6Comm(a.x, ONE6);
    Mul6Comm(a.y, ONE6);
    Mul6Comm(a.x, ZERO6);
    Mul6Comm(a.y, ZERO6);
    Mul6Units(TAU);
    Mul6Comm(TAU, ZERO6);
    Add6Zero(a.x);
    Add6Zero(a.y);
  }

  lemma Add6Zero(a: Z6)
    ensures Add6(a, ZERO6) == a && Add6(ZERO6, a) == a
  {
  }

  function Power12(a: Z12, n: nat): Z12 {
    if n == 0 then ONE12 else Mul12(Power12(a, n - 1), a)
  }

  lemma {:induction false} Power12Sum(a: Z12, m: nat, n: nat)
    ensures Power12(a, m + n) == Mul12(Power12(a, m), Power12(a, n))
  {
    hide Mul12;
    if n == 0 {
      Mul12Units(Power12(a, m));
    } else {
      Power12Sum(a, m, n - 1);
      Mul12Assoc(Power12(a, m), Power12(a, n - 1), a);
    }
  }
}
