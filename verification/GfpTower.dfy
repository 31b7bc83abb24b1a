// The extension fields of bn256, each element written in place, possibly over an operand. Every
// object is the residue of an exact element of the tower; operations keep track of which.
module GfpTower {
  import opened Arith
  import opened Common
  import opened Gfp
  import opened Modular
  import opened Tower

  /** A base field element, by its value. */
  type fp = x: int | 0 <= x < P

  // ---------------------------------------------------------------------------------
  // Residues
  // ---------------------------------------------------------------------------------

  lemma ModSum(a: int, b: int, m: nat)
    requires m > 0
    ensures (a % m + b % m) % m == (a + b) % m && (a % m - b % m) % m == (a - b) % m
  {
    CongMod(a, m);
    CongMod(b, m);
    CongAdd(a % m, a, b % m, b, m);
    CongUnique(a % m + b % m, a + b, m);
    CongUnique(a % m - b % m, a - b, m);
  }

  lemma ModProduct(a: int, b: int, m: nat)
    requires m > 0
    ensures ((a % m) * (b % m)) % m == (a * b) % m
  {
    CongMod(a, m);
    CongMod(b, m);
    CongMul(a % m, a, b % m, b, m);
    CongUnique((a % m) * (b % m), a * b, m);
  }

  lemma ModAgain(a: int, m: nat)
    requires m > 0
    ensures a % m % m == a % m && (0 <= a < m ==> a % m == a)
  {
    DivModFacts(a, m);
    QuotientUnique(a % m, m, 0, a % m);
    if 0 <= a < m {
      QuotientUnique(a, m, 0, a);
    }
  }

  function Residue(a: int): fp { DivModFacts(a, P); a % P }

  function Sum(a: fp, b: fp): fp { Residue(a + b) }

  function Difference(a: fp, b: fp): fp { Residue(a - b) }

  function Negative(a: fp): fp { Residue(0 - a) }

  function Product(a: fp, b: fp): fp { Residue(a * b) }

  function Inverse(a: fp): fp { Residue(Pow(a, P - 2)) }

  /** Base field operations on residues. */
  lemma Residues(a: int, b: int)
    ensures Sum(Residue(a), Residue(b)) == Residue(a + b)
    ensures Difference(Residue(a), Residue(b)) == Residue(a - b)
    ensures Product(Residue(a), Residue(b)) == Residue(a * b)
    ensures Negative(Residue(a)) == Residue(-a)
  {
    ModSum(a, b, P);
    ModProduct(a, b, P);
    ModSum(0, a, P);
    ModAgain(0, P);
  }

  function Red2(e: Z2): Z2 { Z2(Residue(e.x), Residue(e.y)) }

  function Red6(e: Z6): Z6 { Z6(Red2(e.x), Red2(e.y), Red2(e.z)) }

  function Red12(e: Z12): Z12 { Z12(Red6(e.x), Red6(e.y)) }

  /** Fermat's little theorem at n. */
  ghost predicate Fermat(n: int) { Residue(Pow(Residue(n), P - 1)) == 1 }

  lemma FermatInverse(n: int)
    requires Fermat(n)
    ensures Residue(n * Inverse(Residue(n))) == 1
  {
    var x := Residue(n);
    assert Pow(x, P - 1) == x * Pow(x, P - 2);
    hide Pow;
    ModAgain(n, P);
    ModAgain(Pow(x, P - 2), P);
    ModProduct(x, Pow(x, P - 2), P);
    ModProduct(n, Inverse(x), P);
  }

  // ---------------------------------------------------------------------------------
  // The quadratic field
  // ---------------------------------------------------------------------------------

  class GfP2 {
    var x: fp
    var y: fp

    /** This is the residue of e. */
    ghost predicate Is(e: Z2)
      reads this
    {
      x == Residue(e.x) && y == Residue(e.y)
    }

    constructor ()
      ensures Is(ZERO2)
    {
      x, y := 0, 0;
      new;
      ModAgain(0, P);
    }

    method SetZero()
      modifies this
      ensures Is(ZERO2)
    {
      x, y := 0, 0;
      ModAgain(0, P);
    }

    method SetOne()
      modifies this
      ensures Is(ONE2)
    {
      x, y := 0, 1;
      ModAgain(0, P);
      ModAgain(1, P);
    }

    method Set(a: GfP2, ghost e: Z2)
      requires a.Is(e)
      modifies this
      ensures Is(e)
    {
      x := a.x;
      y := a.y;
    }

    method Neg(a: GfP2, ghost e: Z2)
      requires a.Is(e)
      modifies this
      ensures Is(Neg2(e))
    {
      hide Residue;
      Residues(e.x, e.x);
      Residues(e.y, e.y);
      x := Negative(a.x);
      y := Negative(a.y);
    }

    method Add(a: GfP2, b: GfP2, ghost e: Z2, ghost f: Z2)
      requires a.Is(e) && b.Is(f)
      modifies this
      ensures Is(Add2(e, f))
    {
      hide Residue, Sum;
      Residues(e.x, f.x);
      Residues(e.y, f.y);
      x := Sum(a.x, b.x);
      y := Sum(a.y, b.y);
    }

    method Sub(a: GfP2, b: GfP2, ghost e: Z2, ghost f: Z2)
      requires a.Is(e) && b.Is(f)
      modifies this
      ensures Is(Sub2(e, f))
    {
      hide Residue, Difference;
      Residues(e.x, f.x);
      Residues(e.y, f.y);
      x := Difference(a.x, b.x);
      y := Difference(a.y, b.y);
    }

    method Mul(a: GfP2, b: GfP2, ghost e: Z2, ghost f: Z2)
      requires a.Is(e) && b.Is(f)
      modifies this
      ensures Is(Mul2(e, f))
    {
      hide Residue, Product, Sum, Difference;
      Residues(e.x, f.y);
      Residues(f.x, e.y);
      Residues(e.y, f.y);
      Residues(e.x, f.x);
      Residues(e.x * f.y, f.x * e.y);
      Residues(e.y * f.y, e.x * f.x);
      Commute(f.x, e.y);
      var tx := Product(a.x, b.y);
      var t := Product(b.x, a.y);
      tx := Sum(tx, t);
      var ty := Product(a.y, b.y);
      t := Product(a.x, b.x);
      ty := Difference(ty, t);
      x := tx;
      y := ty;
    }

    method MulXi(a: GfP2, ghost e: Z2)
      requires a.Is(e)
      modifies this
      ensures Is(Xi2(e))
    {
      hide Residue, Sum, Difference;
      var tx := Nine(a.x, e.x);
      Residues(9 * e.x, e.y);
      tx := Sum(tx, a.y);
      var ty := Nine(a.y, e.y);
      Residues(9 * e.y, e.x);
      ty := Difference(ty, a.x);
      x := tx;
      y := ty;
    }

    method Square(a: GfP2, ghost e: Z2)
      requires a.Is(e)
      modifies this
      ensures Is(Mul2(e, e))
    {
      hide Residue, Product, Sum, Difference;
      ComplexSquare2(e);
      hide Mul2;
      Residues(e.y, e.x);
      Residues(e.x, e.y);
      Residues(e.y - e.x, e.x + e.y);
      Residues(e.x * e.y, e.x * e.y);
      var tx := Difference(a.y, a.x);
      var ty := Sum(a.x, a.y);
      ty := Product(tx, ty);
      tx := Product(a.x, a.y);
      tx := Sum(tx, tx);
      x := tx;
      y := ty;
    }

    /** The conjugate over the norm. */
    method Invert(a: GfP2, ghost e: Z2) returns (ghost r: Z2)
      requires a.Is(e)
      modifies this
      ensures Is(r) && r == Z2(-e.x * Inverse(Residue(Norm2(e))), e.y * Inverse(Residue(Norm2(e))))
      ensures Fermat(Norm2(e)) ==> Red2(Mul2(e, r)) == ONE2
    {
      hide Residue, Product, Sum, Negative, Inverse, Fermat;
      Residues(e.x, e.x);
      Residues(e.y, e.y);
      Residues(e.x * e.x, e.y * e.y);
      var t1 := Product(a.x, a.x);
      var t2 := Product(a.y, a.y);
      t1 := Sum(t1, t2);
      var inv := Inverse(t1);
      ghost var i: int := inv;
      Itself(inv);
      t1 := Negative(a.x);
      Residues(-e.x, i);
      Residues(e.y, i);
      x := Product(t1, inv);
      y := Product(a.y, inv);
      r := Z2(-e.x * i, e.y * i);
      if Fermat(Norm2(e)) {
        Inverse2(e, i);
      }
    }
  }

  lemma Commute(a: int, b: int)
    ensures a * b == b * a
  {
  }

  lemma Itself(a: fp)
    ensures Residue(a) == a
  {
    ModAgain(a, P);
  }

  /** Nine times a, by doubling three times. */
  method Nine(a: fp, ghost e: int) returns (t: fp)
    requires a == Residue(e)
    ensures t == Residue(9 * e)
  {
    hide Residue, Sum;
    Residues(e, e);
    Residues(2 * e, 2 * e);
    Residues(4 * e, 4 * e);
    Residues(8 * e, e);
    t := Sum(a, a);
    t := Sum(t, t);
    t := Sum(t, t);
    t := Sum(t, a);
  }

  lemma Inverse2(e: Z2, i: int)
    requires Fermat(Norm2(e)) && i == Inverse(Residue(Norm2(e)))
    ensures Red2(Mul2(e, Z2(-e.x * i, e.y * i))) == ONE2
  {
    hide Residue, Inverse, Fermat;
    FermatInverse(Norm2(e));
    InverseProducts(e.x, e.y, i);
    Itself(0);
  }

  lemma InverseProducts(x: int, y: int, i: int)
    ensures x * (y * i) + y * (-x * i) == 0
    ensures y * (y * i) - x * (-x * i) == (x * x + y * y) * i
  {
    assert x * (y * i) == y * (x * i);
    assert x * (-x * i) == -(x * x * i);
  }

  // ---------------------------------------------------------------------------------
  // The sextic field
  // ---------------------------------------------------------------------------------

  /** (a + b) * (c + d). */
  method SumTimes(a: GfP2, b: GfP2, c: GfP2, d: GfP2, ghost e: Z2, ghost f: Z2, ghost g: Z2, ghost h: Z2)
    returns (t: GfP2)
    requires a.Is(e) && b.Is(f) && c.Is(g) && d.Is(h)
    ensures fresh(t) && t.Is(Mul2(Add2(e, f), Add2(g, h)))
  {
    hide Mul2, Add2, GfP2.Is;
    var t0 := new GfP2();
    t0.Add(a, b, e, f);
    var t1 := new GfP2();
    t1.Add(c, d, g, h);
    t := new GfP2();
    t.Mul(t0, t1, Add2(e, f), Add2(g, h));
  }

  /** (a + b)^2. */
  method SumSquared(a: GfP2, b: GfP2, ghost e: Z2, ghost f: Z2) returns (t: GfP2)
    requires a.Is(e) && b.Is(f)
    ensures fresh(t) && t.Is(Mul2(Add2(e, f), Add2(e, f)))
  {
    hide Mul2, Add2, GfP2.Is;
    t := new GfP2();
    t.Add(a, b, e, f);
    t.Square(t, Add2(e, f));
  }

  /** xi * (t - v1 - v2) + v0. */
  method LastPart(t: GfP2, v0: GfP2, v1: GfP2, v2: GfP2, ghost w: Z2, ghost u0: Z2, ghost u1: Z2, ghost u2: Z2)
    requires t.Is(w) && v0.Is(u0) && v1.Is(u1) && v2.Is(u2) && t != v0 && t != v1 && t != v2
    modifies t
    ensures t.Is(Add2(Xi2(Sub2(Sub2(w, u1), u2)), u0))
  {
    hide Mul2, Add2, Sub2, Xi2, GfP2.Is;
    t.Sub(t, v1, w, u1);
    t.Sub(t, v2, Sub2(w, u1), u2);
    t.MulXi(t, Sub2(Sub2(w, u1), u2));
    t.Add(t, v0, Xi2(Sub2(Sub2(w, u1), u2)), u0);
  }

  /** t - v0 - v1 + xi * v2. */
  method MiddlePart(t: GfP2, v0: GfP2, v1: GfP2, v2: GfP2, ghost w: Z2, ghost u0: Z2, ghost u1: Z2, ghost u2: Z2)
    requires t.Is(w) && v0.Is(u0) && v1.Is(u1) && v2.Is(u2) && t != v0 && t != v1 && t != v2
    modifies t
    ensures t.Is(Add2(Sub2(Sub2(w, u0), u1), Xi2(u2)))
  {
    hide Mul2, Add2, Sub2, Xi2, GfP2.Is;
    var xiV2 := new GfP2();
    xiV2.MulXi(v2, u2);
    t.Sub(t, v0, w, u0);
    t.Sub(t, v1, Sub2(w, u0), u1);
    t.Add(t, xiV2, Sub2(Sub2(w, u0), u1), Xi2(u2));
  }

  /** t - v0 + v1 - v2. */
  method FirstPart(t: GfP2, v0: GfP2, v1: GfP2, v2: GfP2, ghost w: Z2, ghost u0: Z2, ghost u1: Z2, ghost u2: Z2)
    requires t.Is(w) && v0.Is(u0) && v1.Is(u1) && v2.Is(u2) && t != v0 && t != v1 && t != v2
    modifies t
    ensures t.Is(Sub2(Add2(Sub2(w, u0), u1), u2))
  {
    hide Mul2, Add2, Sub2, GfP2.Is;
    t.Sub(t, v0, w, u0);
    t.Add(t, v1, Sub2(w, u0), u1);
    t.Sub(t, v2, Add2(Sub2(w, u0), u1), u2);
  }

  class GfP6 {
    const x: GfP2
    const y: GfP2
    const z: GfP2

    ghost predicate Apart() { x != y && y != z && x != z }

    ghost predicate Is(e: Z6)
      reads x, y, z
    {
      x.Is(e.x) && y.Is(e.y) && z.Is(e.z)
    }

    ghost function Parts(): set<GfP2> { {x, y, z} }

    constructor ()
      ensures Apart() && Is(ZERO6) && fresh(Parts())
    {
      x := new GfP2();
      y := new GfP2();
      z := new GfP2();
    }

    method SetZero()
      requires Apart()
      modifies Parts()
      ensures Is(ZERO6)
    {
      hide GfP2.Is;
      x.SetZero();
      y.SetZero();
      z.SetZero();
    }

    method SetOne()
      requires Apart()
      modifies Parts()
      ensures Is(ONE6)
    {
      hide GfP2.Is;
      x.SetZero();
      y.SetZero();
      z.SetOne();
    }

    method Set(a: GfP6, ghost e: Z6)
      requires Apart() && a.Is(e) && (a == this || Parts() !! a.Parts())
      modifies Parts()
      ensures Is(e)
    {
      x.Set(a.x, e.x);
      y.Set(a.y, e.y);
      z.Set(a.z, e.z);
    }

    method Neg(a: GfP6, ghost e: Z6)
      requires Apart() && a.Is(e) && (a == this || Parts() !! a.Parts())
      modifies Parts()
      ensures Is(Neg6(e))
    {
      x.Neg(a.x, e.x);
      y.Neg(a.y, e.y);
      z.Neg(a.z, e.z);
    }

    method Add(a: GfP6, b: GfP6, ghost e: Z6, ghost f: Z6)
      requires Apart() && a.Is(e) && b.Is(f)
      requires (a == this || Parts() !! a.Parts()) && (b == this || Parts() !! b.Parts())
      modifies Parts()
      ensures Is(Add6(e, f))
    {
      x.Add(a.x, b.x, e.x, f.x);
      y.Add(a.y, b.y, e.y, f.y);
      z.Add(a.z, b.z, e.z, f.z);
    }

    method Sub(a: GfP6, b: GfP6, ghost e: Z6, ghost f: Z6)
      requires Apart() && a.Is(e) && b.Is(f)
      requires (a == this || Parts() !! a.Parts()) && (b == this || Parts() !! b.Parts())
      modifies Parts()
      ensures Is(Sub6(e, f))
    {
      x.Sub(a.x, b.x, e.x, f.x);
      y.Sub(a.y, b.y, e.y, f.y);
      z.Sub(a.z, b.z, e.z, f.z);
    }

    /** Karatsuba multiplication; a and b may share parts with this in any way. */
    method Mul(a: GfP6, b: GfP6, ghost e: Z6, ghost f: Z6)
      requires Apart() && a.Is(e) && b.Is(f)
      modifies Parts()
      ensures Is(Mul6(e, f))
    {
      hide Mul6, GfP2.Is;
      var tx, ty, tz := ProductParts(a, b, e, f);
      ghost var r := Mul6(e, f);
      x.Set(tx, r.x);
      y.Set(ty, r.y);
      z.Set(tz, r.z);
    }

    /** tau * (a tau^2 + b tau + c). */
    method MulTau(a: GfP6, ghost e: Z6)
      requires Apart() && a.Is(e) && (a == this || Parts() !! a.Parts())
      modifies Parts()
      ensures Is(Tau6(e))
    {
      hide Xi2, GfP2.Is;
      var tz := new GfP2();
      tz.MulXi(a.x, e.x);
      var ty := new GfP2();
      ty.Set(a.y, e.y);
      y.Set(a.z, e.z);
      x.Set(ty, e.y);
      z.Set(tz, Xi2(e.x));
    }

    method Square(a: GfP6, ghost e: Z6)
      requires Apart() && a.Is(e)
      modifies Parts()
      ensures Is(Mul6(e, e))
    {
      hide Mul2, Add2, Sub2, Xi2, Mul6, GfP2.Is;
      ghost var u0, u1, u2 := Mul2(e.z, e.z), Mul2(e.y, e.y), Mul2(e.x, e.x);
      Karatsuba(e, e);
      var v0 := new GfP2();
      v0.Square(a.z, e.z);
      var v1 := new GfP2();
      v1.Square(a.y, e.y);
      var v2 := new GfP2();
      v2.Square(a.x, e.x);
      ghost var w := Mul2(Add2(e.x, e.y), Add2(e.x, e.y));
      var c0 := SumSquared(a.x, a.y, e.x, e.y);
      LastPart(c0, v0, v1, v2, w, u0, u1, u2);
      w := Mul2(Add2(e.y, e.z), Add2(e.y, e.z));
      var c1 := SumSquared(a.y, a.z, e.y, e.z);
      MiddlePart(c1, v0, v1, v2, w, u0, u1, u2);
      w := Mul2(Add2(e.x, e.z), Add2(e.x, e.z));
      var c2 := SumSquared(a.x, a.z, e.x, e.z);
      FirstPart(c2, v0, v1, v2, w, u0, u1, u2);
      ghost var r := Mul6(e, e);
      x.Set(c2, r.x);
      y.Set(c1, r.y);
      z.Set(c0, r.z);
    }

    /** The adjoint over the norm. */
    method Invert(a: GfP6, ghost e: Z6) returns (ghost r: Z6)
      requires Apart() && a.Is(e)
      modifies Parts()
      ensures Is(r)
      ensures Fermat(Norm2(Norm6(e))) ==> Red6(Mul6(e, r)) == ONE6
    {
      hide Mul2, Add2, Sub2, Xi2, Mul6, GfP2.Is, Fermat, Adjoint, Norm6, Norm2;
      ghost var c := Adjoint(e);
      var A, B, C := AdjointOf(a, e);
      var F := NormOf(a, A, B, C, e);
      ghost var i := F.Invert(F, Norm6(e));
      x.Mul(C, F, c.x, i);
      y.Mul(B, F, c.y, i);
      z.Mul(A, F, c.z, i);
      r := Z6(Mul2(c.x, i), Mul2(c.y, i), Mul2(c.z, i));
      if Fermat(Norm2(Norm6(e))) {
        Inverse6(e, i);
      }
    }
  }

  /** The three parts of a product, from three products and the sums' products. */
  method ProductParts(a: GfP6, b: GfP6, ghost e: Z6, ghost f: Z6) returns (tx: GfP2, ty: GfP2, tz: GfP2)
    requires a.Is(e) && b.Is(f)
    ensures fresh(tx) && fresh(ty) && fresh(tz)
    ensures tx.Is(Mul6(e, f).x) && ty.Is(Mul6(e, f).y) && tz.Is(Mul6(e, f).z)
  {
    hide Mul2, Add2, Sub2, Xi2, Mul6, GfP2.Is;
    ghost var u0, u1, u2 := Mul2(e.z, f.z), Mul2(e.y, f.y), Mul2(e.x, f.x);
    Karatsuba(e, f);
    var v0 := new GfP2();
    v0.Mul(a.z, b.z, e.z, f.z);
    var v1 := new GfP2();
    v1.Mul(a.y, b.y, e.y, f.y);
    var v2 := new GfP2();
    v2.Mul(a.x, b.x, e.x, f.x);
    tz := SumTimes(a.x, a.y, b.x, b.y, e.x, e.y, f.x, f.y);
    LastPart(tz, v0, v1, v2, Mul2(Add2(e.x, e.y), Add2(f.x, f.y)), u0, u1, u2);
    ty := SumTimes(a.y, a.z, b.y, b.z, e.y, e.z, f.y, f.z);
    MiddlePart(ty, v0, v1, v2, Mul2(Add2(e.y, e.z), Add2(f.y, f.z)), u0, u1, u2);
    tx := SumTimes(a.x, a.z, b.x, b.z, e.x, e.z, f.x, f.z);
    FirstPart(tx, v0, v1, v2, Mul2(Add2(e.x, e.z), Add2(f.x, f.z)), u0, u1, u2);
  }

  method AdjointOf(a: GfP6, ghost e: Z6) returns (A: GfP2, B: GfP2, C: GfP2)
    requires a.Is(e)
    ensures fresh(A) && fresh(B) && fresh(C) && A != B && B != C && A != C
    ensures C.Is(Adjoint(e).x) && B.Is(Adjoint(e).y) && A.Is(Adjoint(e).z)
  {
    hide Mul2, Sub2, Xi2, GfP2.Is;
    var t1 := new GfP2();
    t1.Mul(a.x, a.y, e.x, e.y);
    t1.MulXi(t1, Mul2(e.x, e.y));
    A := new GfP2();
    A.Square(a.z, e.z);
    A.Sub(A, t1, Mul2(e.z, e.z), Xi2(Mul2(e.x, e.y)));
    B := new GfP2();
    B.Square(a.x, e.x);
    B.MulXi(B, Mul2(e.x, e.x));
    t1.Mul(a.y, a.z, e.y, e.z);
    B.Sub(B, t1, Xi2(Mul2(e.x, e.x)), Mul2(e.y, e.z));
    C := new GfP2();
    C.Square(a.y, e.y);
    t1.Mul(a.x, a.z, e.x, e.z);
    C.Sub(C, t1, Mul2(e.y, e.y), Mul2(e.x, e.z));
  }

  method NormOf(a: GfP6, A: GfP2, B: GfP2, C: GfP2, ghost e: Z6) returns (F: GfP2)
    requires a.Is(e) && C.Is(Adjoint(e).x) && B.Is(Adjoint(e).y) && A.Is(Adjoint(e).z)
    ensures fresh(F) && F.Is(Norm6(e))
  {
    hide Mul2, Add2, Xi2, GfP2.Is, Adjoint;
    ghost var c := Adjoint(e);
    F := new GfP2();
    F.Mul(C, a.y, c.x, e.y);
    F.MulXi(F, Mul2(c.x, e.y));
    var t1 := new GfP2();
    t1.Mul(A, a.z, c.z, e.z);
    F.Add(F, t1, Xi2(Mul2(c.x, e.y)), Mul2(c.z, e.z));
    t1.Mul(B, a.x, c.y, e.x);
    t1.MulXi(t1, Mul2(c.y, e.x));
    F.Add(F, t1, Add2(Xi2(Mul2(c.x, e.y)), Mul2(c.z, e.z)), Xi2(Mul2(c.y, e.x)));
  }

  lemma Inverse6(e: Z6, i: Z2)
    requires Red2(Mul2(Norm6(e), i)) == ONE2
    ensures var c := Adjoint(e); Red6(Mul6(e, Z6(Mul2(c.x, i), Mul2(c.y, i), Mul2(c.z, i)))) == ONE6
  {
    hide Mul2, Add2, Xi2, Mul6, Residue;
    var c := Adjoint(e);
    var n := Norm6(e);
    Mul2Comm(c.x, i);
    Mul2Comm(c.y, i);
    Mul2Comm(c.z, i);
    assert Z6(Mul2(c.x, i), Mul2(c.y, i), Mul2(c.z, i)) == Scale6(i, c);
    Mul6Comm(e, Scale6(i, c));
    ScaleMul(i, c, e);
    Mul6Comm(c, e);
    AdjointNorm(e);
    Mul2Units(i);
    Mul2Comm(i, n);
    Itself(0);
  }

  // ---------------------------------------------------------------------------------
  // The whole tower
  // ---------------------------------------------------------------------------------

  method NewProduct(a: GfP6, b: GfP6, ghost e: Z6, ghost f: Z6) returns (t: GfP6)
    requires a.Is(e) && b.Is(f)
    ensures fresh(t) && fresh(t.Parts()) && t.Apart() && t.Is(Mul6(e, f))
  {
    hide Mul6, GfP2.Is;
    t := new GfP6();
    t.Mul(a, b, e, f);
  }

  /** a.x * b.y + b.x * a.y. */
  method CrossSum(a: GfP12, b: GfP12, ghost e: Z12, ghost f: Z12) returns (t: GfP6)
    requires a.Is(e) && b.Is(f)
    ensures fresh(t) && fresh(t.Parts()) && t.Apart() && t.Is(Add6(Mul6(e.x, f.y), Mul6(f.x, e.y)))
  {
    hide Mul6, Add6, GfP2.Is, GfP6.Is;
    t := NewProduct(a.x, b.y, e.x, f.y);
    var u := NewProduct(b.x, a.y, f.x, e.y);
    t.Add(t, u, Mul6(e.x, f.y), Mul6(f.x, e.y));
  }

  /** (x + y) * (y + tau * x). */
  method MixedProduct(a: GfP12, ghost e: Z12) returns (t: GfP6)
    requires a.Is(e)
    ensures fresh(t) && fresh(t.Parts()) && t.Apart()
    ensures t.Is(Mul6(Add6(e.x, e.y), Add6(e.y, Tau6(e.x))))
  {
    hide Mul6, Add6, Tau6, GfP2.Is, GfP6.Is;
    var u := new GfP6();
    u.MulTau(a.x, e.x);
    u.Add(a.y, u, e.y, Tau6(e.x));
    t := new GfP6();
    t.Add(a.x, a.y, e.x, e.y);
    t.Mul(t, u, Add6(e.x, e.y), Add6(e.y, Tau6(e.x)));
  }

  class GfP12 {
    const x: GfP6
    const y: GfP6

    ghost function Parts(): set<GfP2> { x.Parts() + y.Parts() }

    ghost predicate Apart() { x.Apart() && y.Apart() && x.Parts() !! y.Parts() && x != y }

    ghost predicate Is(e: Z12)
      reads Parts()
    {
      x.Is(e.x) && y.Is(e.y)
    }

    /** a is this very element or shares nothing with it. */
    ghost predicate Sameness(a: GfP12) { a == this || Parts() !! a.Parts() }

    constructor ()
      ensures Apart() && Is(Z12(ZERO6, ZERO6)) && fresh(Parts())
    {
      x := new GfP6();
      y := new GfP6();
    }

    method Set(a: GfP12, ghost e: Z12)
      requires Apart() && a.Is(e) && Sameness(a)
      modifies Parts()
      ensures Is(e)
    {
      hide GfP2.Is;
      x.Set(a.x, e.x);
      y.Set(a.y, e.y);
    }

    method Mul(a: GfP12, b: GfP12, ghost e: Z12, ghost f: Z12)
      requires Apart() && a.Is(e) && b.Is(f)
      modifies Parts()
      ensures Is(Mul12(e, f))
    {
      hide Mul6, Add6, Tau6, GfP2.Is, GfP6.Is;
      Mul6Comm(f.x, e.y);
      TauIs(Mul6(e.x, f.x));
      var tx := CrossSum(a, b, e, f);
      var ty := NewProduct(a.y, b.y, e.y, f.y);
      var t := NewProduct(a.x, b.x, e.x, f.x);
      t.MulTau(t, Mul6(e.x, f.x));
      x.Set(tx, Add6(Mul6(e.x, f.y), Mul6(f.x, e.y)));
      y.Add(ty, t, Mul6(e.y, f.y), Tau6(Mul6(e.x, f.x)));
    }

    /** Multiplies this element, not a, by b. */
    method MulScalar(a: GfP12, b: GfP6, ghost own: Z12, ghost f: Z6)
      requires Apart() && Is(own) && b.Is(f) && Parts() !! b.Parts()
      modifies Parts()
      ensures Is(Z12(Mul6(own.x, f), Mul6(own.y, f)))
    {
      hide Mul6, GfP2.Is;
      x.Mul(x, b, own.x, f);
      y.Mul(y, b, own.y, f);
    }

    method SetOne()
      requires Apart()
      modifies Parts()
      ensures Is(ONE12)
    {
      hide GfP2.Is;
      x.SetZero();
      y.SetOne();
    }

    /** Square and multiply, from the highest bit of the exponent down. */
    method Exp(a: GfP12, power: nat, ghost e: Z12)
      requires Apart() && a.Is(e)
      modifies Parts()
      ensures Is(Power12(e, power))
    {
      hide GfP2.Is, GfP6.Is, GfP12.Is, BitLength, Mul12;
      assert forall o <- a.Parts() :: allocated(o);
      var sum := NewOne();
      var t := new GfP12();
      var i := BitLength(power);
      NoPrefix(power);
      while i != 0
        invariant sum.Is(Power12(e, Prefix(power, i))) && a.Is(e)
        invariant sum.Apart() && t.Apart() && sum.Parts() !! t.Parts()
        invariant fresh(sum.Parts()) && fresh(t.Parts())
      {
        i := i - 1;
        ExpStep(sum, t, a, power, i, e);
      }
      Set(sum, Power12(e, power));
    }

    method Square(a: GfP12, ghost e: Z12)
      requires Apart() && a.Is(e)
      modifies Parts()
      ensures Is(Mul12(e, e))
    {
      hide Mul6, Add6, Sub6, Tau6, Mul12, GfP2.Is, GfP6.Is;
      ComplexSquare12(e);
      ghost var w := Mul6(e.x, e.y);
      var v0 := NewProduct(a.x, a.y, e.x, e.y);
      ghost var p := Mul6(Add6(e.x, e.y), Add6(e.y, Tau6(e.x)));
      var ty := MixedProduct(a, e);
      ty.Sub(ty, v0, p, w);
      var t := new GfP6();
      t.MulTau(v0, w);
      ty.Sub(ty, t, Sub6(p, w), Tau6(w));
      x.Add(v0, v0, w, w);
      y.Set(ty, Sub6(Sub6(p, w), Tau6(w)));
    }

    /** The conjugate times the inverse of the norm. */
    method Invert(a: GfP12, ghost e: Z12) returns (ghost r: Z12)
      requires Apart() && a.Is(e) && Sameness(a)
      modifies Parts()
      ensures Is(r)
      ensures Fermat(Norm2(Norm6(Norm12(e)))) ==> Red12(Mul12(e, r)) == ONE12
    {
      hide Mul6, Neg6, Mul12, GfP2.Is, GfP6.Is, Fermat, Norm12, Norm6, Norm2, Red6;
      var t2, i := InverseOfNorm(a, e);
      x.Neg(a.x, e.x);
      y.Set(a.y, e.y);
      MulScalar(this, t2, Z12(Neg6(e.x), e.y), i);
      r := Z12(Mul6(Neg6(e.x), i), Mul6(e.y, i));
      if Fermat(Norm2(Norm6(Norm12(e)))) {
        Inverse12(e, i);
      }
    }
  }

  /** The inverse of y^2 - tau x^2. */
  method InverseOfNorm(a: GfP12, ghost e: Z12) returns (t2: GfP6, ghost i: Z6)
    requires a.Is(e)
    ensures fresh(t2) && fresh(t2.Parts()) && t2.Is(i)
    ensures Fermat(Norm2(Norm6(Norm12(e)))) ==> Red6(Mul6(Norm12(e), i)) == ONE6
  {
    hide Mul6, Sub6, Tau6, GfP2.Is, GfP6.Is, Fermat, Norm6, Norm2, Red6;
    var t1 := new GfP6();
    t1.Square(a.x, e.x);
    t2 := new GfP6();
    t2.Square(a.y, e.y);
    t1.MulTau(t1, Mul6(e.x, e.x));
    t1.Sub(t2, t1, Mul6(e.y, e.y), Tau6(Mul6(e.x, e.x)));
    i := t2.Invert(t1, Norm12(e));
  }

  lemma Inverse12(e: Z12, i: Z6)
    requires Red6(Mul6(Norm12(e), i)) == ONE6
    ensures Red12(Mul12(e, Z12(Mul6(Neg6(e.x), i), Mul6(e.y, i)))) == ONE12
  {
    hide Mul6, Add6, Neg6, Tau6, Norm12, Red6;
    var c := Z12(Neg6(e.x), e.y);
    Conjugate12(e);
    ScaleMul12(e, c, i);
    Mul6Comm(ZERO6, i);
    Mul6Units(i);
    ZeroResidue();
  }

  lemma ZeroResidue()
    ensures Red6(ZERO6) == ZERO6
  {
    Itself(0);
  }

  // ---------------------------------------------------------------------------------
  // What MulScalar is good for
  // ---------------------------------------------------------------------------------

  /** Operations on residues give the residues of the operations. */
  lemma Red2Sum(a: Z2, b: Z2, c: Z2, d: Z2)
    requires Red2(a) == Red2(b) && Red2(c) == Red2(d)
    ensures Red2(Add2(a, c)) == Red2(Add2(b, d))
  {
    hide Residue;
    Residues(a.x, c.x);
    Residues(a.y, c.y);
    Residues(b.x, d.x);
    Residues(b.y, d.y);
  }

  lemma Red2Product(a: Z2, b: Z2, f: Z2)
    requires Red2(a) == Red2(b)
    ensures Red2(Mul2(a, f)) == Red2(Mul2(b, f))
  {
    hide Residue;
    Residues(a.x, f.x);
    Residues(a.x, f.y);
    Residues(a.y, f.x);
    Residues(a.y, f.y);
    Residues(b.x, f.x);
    Residues(b.x, f.y);
    Residues(b.y, f.x);
    Residues(b.y, f.y);
    Residues(a.x * f.y, a.y * f.x);
    Residues(b.x * f.y, b.y * f.x);
    Residues(a.y * f.y, a.x * f.x);
    Residues(b.y * f.y, b.x * f.x);
  }

  lemma Red6Product(a: Z6, b: Z6, f: Z6)
    requires Red6(a) == Red6(b)
    ensures Red6(Mul6(a, f)) == Red6(Mul6(b, f))
  {
    hide Red2, Mul2, Add2;
    Red2Product(a.x, b.x, f.x);
    Red2Product(a.x, b.x, f.y);
    Red2Product(a.x, b.x, f.z);
    Red2Product(a.y, b.y, f.x);
    Red2Product(a.y, b.y, f.y);
    Red2Product(a.y, b.y, f.z);
    Red2Product(a.z, b.z, f.x);
    Red2Product(a.z, b.z, f.y);
    Red2Product(a.z, b.z, f.z);
    Red2Sum(Mul2(a.x, f.z), Mul2(b.x, f.z), Mul2(a.y, f.y), Mul2(b.y, f.y));
    Red2Sum(Add2(Mul2(a.x, f.z), Mul2(a.y, f.y)), Add2(Mul2(b.x, f.z), Mul2(b.y, f.y)), Mul2(a.z, f.x), Mul2(b.z, f.x));
    Red2Product(Mul2(a.x, f.x), Mul2(b.x, f.x), XI);
    Red2Sum(Xi2(Mul2(a.x, f.x)), Xi2(Mul2(b.x, f.x)), Mul2(a.y, f.z), Mul2(b.y, f.z));
    Red2Sum(Add2(Xi2(Mul2(a.x, f.x)), Mul2(a.y, f.z)), Add2(Xi2(Mul2(b.x, f.x)), Mul2(b.y, f.z)),
            Mul2(a.z, f.y), Mul2(b.z, f.y));
    var (m, n) := (Add2(Mul2(a.x, f.y), Mul2(a.y, f.x)), Add2(Mul2(b.x, f.y), Mul2(b.y, f.x)));
    Red2Sum(Mul2(a.x, f.y), Mul2(b.x, f.y), Mul2(a.y, f.x), Mul2(b.y, f.x));
    Red2Product(m, n, XI);
    Red2Sum(Xi2(m), Xi2(n), Mul2(a.z, f.z), Mul2(b.z, f.z));
  }

  lemma OneIsItsResidue()
    ensures Red6(ONE6) == ONE6
  {
    Itself(0);
    Itself(1);
  }

  /** Multiplying by an invertible element keeps different residues apart. */
  lemma ScaledApart(a: Z6, b: Z6, f: Z6, i: Z6)
    requires Red6(Mul6(f, i)) == ONE6
    ensures Red6(Mul6(a, f)) == Red6(Mul6(b, f)) <==> Red6(a) == Red6(b)
  {
    hide Red6, Mul6;
    if Red6(a) == Red6(b) {
      Red6Product(a, b, f);
    }
    if Red6(Mul6(a, f)) == Red6(Mul6(b, f)) {
      Red6Product(Mul6(a, f), Mul6(b, f), i);
      Undone(a, f, i);
      Undone(b, f, i);
    }
  }

  lemma Undone(a: Z6, f: Z6, i: Z6)
    requires Red6(Mul6(f, i)) == ONE6
    ensures Red6(Mul6(Mul6(a, f), i)) == Red6(a)
  {
    hide Red6, Mul6;
    OneIsItsResidue();
    Mul6Assoc(a, f, i);
    Mul6Comm(a, Mul6(f, i));
    Red6Product(Mul6(f, i), ONE6, a);
    Mul6Comm(a, ONE6);
    Mul6Units(a);
  }

  /** MulScalar gives the product of its operands exactly when the receiver was, up to residue, the first of them. */
  lemma MulScalarIff(own: Z12, e: Z12, f: Z6, i: Z6)
    requires Red6(Mul6(f, i)) == ONE6
    ensures Red12(Z12(Mul6(own.x, f), Mul6(own.y, f))) == Red12(Z12(Mul6(e.x, f), Mul6(e.y, f)))
       <==> Red12(own) == Red12(e)
  {
    hide Red6, Mul6;
    ScaledApart(own.x, e.x, f, i);
    ScaledApart(own.y, e.y, f, i);
  }

  /** Scaling by an element of the sextic field commutes with products. */
  lemma ScaleMul12(a: Z12, b: Z12, s: Z6)
    ensures Mul12(a, Z12(Mul6(b.x, s), Mul6(b.y, s))) == Z12(Mul6(Mul12(a, b).x, s), Mul6(Mul12(a, b).y, s))
  {
    hide Mul6, Add6;
    Mul6Assoc(a.x, b.y, s);
    Mul6Assoc(a.y, b.x, s);
    Mul6Assoc(a.y, b.y, s);
    Mul6Assoc(a.x, b.x, s);
    Mul6Distrib(s, Mul6(a.x, b.y), Mul6(a.y, b.x));
    Mul6Distrib(s, Mul6(a.y, b.y), Mul6(Mul6(a.x, b.x), TAU));
    Mul6Assoc(Mul6(a.x, b.x), TAU, s);
    Mul6Assoc(Mul6(a.x, b.x), s, TAU);
    Mul6Comm(s, TAU);
  }

  method NewOne() returns (r: GfP12)
    ensures fresh(r) && fresh(r.Parts()) && r.Apart() && r.Is(ONE12)
  {
    hide GfP12.Is;
    r := new GfP12();
    r.SetOne();
  }

  function BitLength(n: nat): nat {
    if n == 0 then 0 else 1 + BitLength(n / 2)
  }

  /** What is left of n without its i lowest bits. */
  function Prefix(n: nat, i: nat): nat {
    if i == 0 then n else Prefix(n / 2, i - 1)
  }

  lemma {:induction false} NoPrefix(n: nat)
    ensures Prefix(n, BitLength(n)) == 0
  {
    if n != 0 {
      NoPrefix(n / 2);
    }
  }

  lemma {:induction false} NextPrefix(n: nat, i: nat)
    ensures Prefix(n, i) == 2 * Prefix(n, i + 1) + Prefix(n, i) % 2
  {
    if i == 0 {
      assert Prefix(n / 2, 0) == n / 2;
    } else {
      NextPrefix(n / 2, i - 1);
    }
  }

  /** Reading one more bit of the exponent squares the power and takes the base in when the bit is set. */
  lemma NextPower(e: Z12, n: nat, i: nat, r: Z12)
    requires r == Power12(e, Prefix(n, i + 1))
    ensures Power12(e, Prefix(n, i)) == if Prefix(n, i) % 2 != 0 then Mul12(Mul12(r, r), e) else Mul12(r, r)
  {
    hide Mul12, Power12;
    NextPrefix(n, i);
    var q := Prefix(n, i + 1);
    hide Prefix;
    Power12Sum(e, q, q);
    if Prefix(n, i) % 2 != 0 {
      PowerNext(e, 2 * q);
    }
  }

  lemma PowerNext(e: Z12, n: nat)
    ensures Power12(e, n + 1) == Mul12(Power12(e, n), e)
  {
  }

  /** One turn of the loop in Exp. */
  method ExpStep(sum: GfP12, t: GfP12, a: GfP12, power: nat, i: nat, ghost e: Z12)
    requires sum.Apart() && t.Apart() && sum.Parts() !! t.Parts()
    requires a.Is(e) && a.Parts() !! sum.Parts() && a.Parts() !! t.Parts()
    requires sum.Is(Power12(e, Prefix(power, i + 1)))
    modifies sum.Parts(), t.Parts()
    ensures sum.Is(Power12(e, Prefix(power, i)))
  {
    hide GfP2.Is, GfP6.Is, GfP12.Is, Mul12, Power12, Prefix;
    ghost var r := Power12(e, Prefix(power, i + 1));
    NextPower(e, power, i, r);
    t.Square(sum, r);
    if Prefix(power, i) % 2 != 0 {
      sum.Mul(t, a, Mul12(r, r), e);
    } else {
      sum.Set(t, Mul12(r, r));
    }
  }
}
