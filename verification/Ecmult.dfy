// Multiplying points by scalars: tables of odd multiples and the two double-and-add loops, over
// any abelian group whose order is that of secp256k1.
module Ecmult {
  import opened Arith
  import opened Common
  import opened Wnaf

  datatype Group<!P(!new)> = Group(zero: P, add: (P, P) -> P, neg: P -> P)

  ghost predicate Abelian<P(!new)>(g: Group<P>) {
    (forall x, y, z :: g.add(g.add(x, y), z) == g.add(x, g.add(y, z)))
    && (forall x, y :: g.add(x, y) == g.add(y, x))
    && (forall x :: g.add(x, g.zero) == x)
    && (forall x :: g.add(x, g.neg(x)) == g.zero)
  }

  lemma Assoc<P(!new)>(g: Group<P>, x: P, y: P, z: P)
    requires Abelian(g)
    ensures g.add(g.add(x, y), z) == g.add(x, g.add(y, z))
  {
  }

  lemma Comm<P(!new)>(g: Group<P>, x: P, y: P)
    requires Abelian(g)
    ensures g.add(x, y) == g.add(y, x)
  {
  }

  lemma Zero<P(!new)>(g: Group<P>, x: P)
    requires Abelian(g)
    ensures g.add(x, g.zero) == x && g.add(g.zero, x) == x && g.add(x, g.neg(x)) == g.zero
  {
    Comm(g, x, g.zero);
  }

  /** What cancels x is its negation. */
  lemma NegUnique<P(!new)>(g: Group<P>, x: P, y: P)
    requires Abelian(g) && g.add(x, y) == g.zero
    ensures y == g.neg(x)
  {
    Zero(g, y);
    Zero(g, x);
    Zero(g, g.neg(x));
    Assoc(g, g.neg(x), x, y);
    Comm(g, g.neg(x), x);
  }

  lemma Swap4<P(!new)>(g: Group<P>, a: P, b: P, c: P, d: P)
    requires Abelian(g)
    ensures g.add(g.add(a, b), g.add(c, d)) == g.add(g.add(a, c), g.add(b, d))
  {
    Assoc(g, a, b, g.add(c, d));
    Assoc(g, b, c, d);
    Comm(g, b, c);
    Assoc(g, c, b, d);
    Assoc(g, a, c, g.add(b, d));
  }

  // ---------------------------------------------------------------------------------
  // Multiples
  // ---------------------------------------------------------------------------------

  function Times<P(!new)>(g: Group<P>, n: nat, a: P): P {
    if n == 0 then g.zero else g.add(Times(g, n - 1, a), a)
  }

  function Mult<P(!new)>(g: Group<P>, k: int, a: P): P {
    if k >= 0 then Times(g, k, a) else g.neg(Times(g, -k, a))
  }

  lemma {:induction false} TimesSum<P(!new)>(g: Group<P>, m: nat, n: nat, a: P)
    requires Abelian(g)
    ensures Times(g, m + n, a) == g.add(Times(g, m, a), Times(g, n, a))
  {
    hide Abelian;
    if n == 0 {
      Zero(g, Times(g, m, a));
    } else {
      TimesSum(g, m, n - 1, a);
      Assoc(g, Times(g, m, a), Times(g, n - 1, a), a);
    }
  }

  /** One more multiple, on either side of zero. */
  lemma MultSucc<P(!new)>(g: Group<P>, k: int, a: P)
    requires Abelian(g)
    ensures Mult(g, k + 1, a) == g.add(Mult(g, k, a), a)
  {
    hide Abelian;
    if k < 0 {
      var x := Times(g, -k - 1, a);
      assert Times(g, -k, a) == g.add(x, a);
      hide Times;
      NegSum(g, x, a);
      Assoc(g, g.neg(x), g.neg(a), a);
      Comm(g, g.neg(a), a);
      Zero(g, a);
      Zero(g, g.neg(x));
      if k == -1 {
        NoTimes(g, a);
        NegZero(g);
      }
    }
  }

  lemma NoTimes<P(!new)>(g: Group<P>, a: P)
    ensures Times(g, 0, a) == g.zero
  {
  }

  lemma NegZero<P(!new)>(g: Group<P>)
    requires Abelian(g)
    ensures g.neg(g.zero) == g.zero
  {
    Zero(g, g.zero);
    NegUnique(g, g.zero, g.zero);
  }

  lemma NegSum<P(!new)>(g: Group<P>, x: P, y: P)
    requires Abelian(g)
    ensures g.neg(g.add(x, y)) == g.add(g.neg(x), g.neg(y))
  {
    hide Abelian;
    Swap4(g, x, y, g.neg(x), g.neg(y));
    Zero(g, x);
    Zero(g, y);
    Zero(g, g.zero);
    NegUnique(g, g.add(x, y), g.add(g.neg(x), g.neg(y)));
  }

  lemma {:induction false} MultSumNat<P(!new)>(g: Group<P>, j: int, n: nat, a: P)
    requires Abelian(g)
    ensures Mult(g, j + n, a) == g.add(Mult(g, j, a), Mult(g, n, a))
  {
    hide Abelian;
    if n == 0 {
      NoTimes(g, a);
      hide Times;
      Zero(g, Mult(g, j, a));
    } else {
      hide Times, Mult;
      MultSumNat(g, j, n - 1, a);
      MultSucc(g, j + n - 1, a);
      MultSucc(g, n - 1, a);
      Assoc(g, Mult(g, j, a), Mult(g, n - 1, a), a);
    }
  }

  lemma MultNeg<P(!new)>(g: Group<P>, k: int, a: P)
    requires Abelian(g)
    ensures Mult(g, -k, a) == g.neg(Mult(g, k, a))
  {
    if k > 0 {
    } else {
      var n := -k;
      MultSumNat(g, k, n, a);
      NoTimes(g, a);
      hide Abelian, Times;
      NegUnique(g, Mult(g, k, a), Mult(g, n, a));
    }
  }

  /** Multiples of a point add up like their factors. */
  lemma MultSum<P(!new)>(g: Group<P>, j: int, k: int, a: P)
    requires Abelian(g)
    ensures Mult(g, j + k, a) == g.add(Mult(g, j, a), Mult(g, k, a))
  {
    hide Abelian, Mult;
    if k >= 0 {
      MultSumNat(g, j, k, a);
    } else {
      MultSumNat(g, j + k, -k, a);
      MultNeg(g, k, a);
      Assoc(g, Mult(g, j + k, a), g.neg(Mult(g, k, a)), Mult(g, k, a));
      Comm(g, g.neg(Mult(g, k, a)), Mult(g, k, a));
      Zero(g, Mult(g, k, a));
      Zero(g, Mult(g, j + k, a));
    }
  }

  lemma MultOne<P(!new)>(g: Group<P>, a: P)
    requires Abelian(g)
    ensures Mult(g, 1, a) == a && Mult(g, 0, a) == g.zero
  {
    hide Abelian;
    NoTimes(g, a);
    assert Times(g, 1, a) == g.add(Times(g, 0, a), a);
    Zero(g, a);
  }

  lemma {:induction false} MultTwice<P(!new)>(g: Group<P>, k: int, a: P)
    requires Abelian(g)
    ensures g.add(Mult(g, k, a), Mult(g, k, a)) == Mult(g, 2 * k, a)
  {
    MultSum(g, k, k, a);
  }

  /** Whole multiples of the order do not matter. */
  lemma MultOrder<P(!new)>(g: Group<P>, k: int, a: P)
    requires Abelian(g) && Mult(g, ORDER, a) == g.zero
    ensures Mult(g, k - ORDER, a) == Mult(g, k, a)
  {
    hide Abelian, Mult;
    var order: int := ORDER;
    MultSum(g, k, -order, a);
    MultNeg(g, order, a);
    NegZero(g);
    Zero(g, Mult(g, k, a));
  }

  // ---------------------------------------------------------------------------------
  // Tables of odd multiples
  // ---------------------------------------------------------------------------------

  /** pre holds a, 3a, 5a and so on. */
  ghost predicate OddMultiples<P(!new)>(g: Group<P>, pre: seq<P>, a: P) {
    forall i :: 0 <= i < |pre| ==> pre[i] == Mult(g, 2 * i + 1, a)
  }

  method OddMultiplesTable<P(!new)>(g: Group<P>, a: P, n: nat) returns (pre: seq<P>)
    requires Abelian(g) && n >= 1
    ensures |pre| == n && OddMultiples(g, pre, a)
  {
    hide Abelian, Mult;
    MultOne(g, a);
    MultTwice(g, 1, a);
    var d := g.add(a, a);
    pre := [a];
    for i := 1 to n
      invariant |pre| == i && OddMultiples(g, pre, a)
    {
      MultSum(g, 2 * (i - 1) + 1, 2, a);
      pre := pre + [g.add(pre[i - 1], d)];
    }
  }

  /** The table's entry for an odd digit, negated for a negative one. */
  method TableGet<P(!new)>(g: Group<P>, pre: seq<P>, n: int, ghost a: P) returns (r: P)
    requires Abelian(g) && OddMultiples(g, pre, a) && OddBelow(n, 2 * |pre|)
    ensures r == Mult(g, n, a)
  {
    hide Abelian, Mult;
    if n > 0 {
      r := pre[(n - 1) / 2];
    } else {
      MultNeg(g, -n, a);
      r := g.neg(pre[(-n - 1) / 2]);
    }
  }

  // ---------------------------------------------------------------------------------
  // The interleaved loop
  // ---------------------------------------------------------------------------------

  lemma HornerFrom(s: seq<int>, i: nat, b: nat)
    requires i < |s|
    ensures Horner(s[i..], b) == s[i] + b * Horner(s[i + 1..], b)
  {
    assert s[i..][1..] == s[i + 1..];
  }

  /** Doubling a sum of two multiples. */
  lemma DoubleSum<P(!new)>(g: Group<P>, j: int, a: P, k: int, b: P)
    requires Abelian(g)
    ensures var r := g.add(Mult(g, j, a), Mult(g, k, b)); g.add(r, r) == g.add(Mult(g, 2 * j, a), Mult(g, 2 * k, b))
  {
    hide Abelian, Mult;
    Swap4(g, Mult(g, j, a), Mult(g, k, b), Mult(g, j, a), Mult(g, k, b));
    MultTwice(g, j, a);
    MultTwice(g, k, b);
  }

  /** Adding a multiple of the first or of the second point to such a sum. */
  lemma AddFirst<P(!new)>(g: Group<P>, j: int, a: P, k: int, b: P, n: int)
    requires Abelian(g)
    ensures g.add(g.add(Mult(g, j, a), Mult(g, k, b)), Mult(g, n, a)) == g.add(Mult(g, j + n, a), Mult(g, k, b))
  {
    hide Abelian, Mult;
    var (x, y, z) := (Mult(g, j, a), Mult(g, k, b), Mult(g, n, a));
    Assoc(g, x, y, z);
    Comm(g, y, z);
    Assoc(g, x, z, y);
    MultSum(g, j, n, a);
  }

  lemma AddSecond<P(!new)>(g: Group<P>, j: int, a: P, k: int, b: P, n: int)
    requires Abelian(g)
    ensures g.add(g.add(Mult(g, j, a), Mult(g, k, b)), Mult(g, n, b)) == g.add(Mult(g, j, a), Mult(g, k + n, b))
  {
    hide Abelian, Mult;
    Assoc(g, Mult(g, j, a), Mult(g, k, b), Mult(g, n, b));
    MultSum(g, k, n, b);
  }

  lemma DigitFits(s: seq<int>, w: nat, i: nat)
    requires w >= 2 && WidthForm(s, w) && i < |s| && s[i] != 0
    ensures OddBelow(s[i], 2 * Pow2(w - 2))
  {
    Halves(w - 1);
  }

  lemma {:induction false} ZerosFrom(s: seq<int>, i: nat)
    requires i <= |s| && forall k :: i <= k < |s| ==> s[k] == 0
    ensures Horner(s[i..], 2) == 0
    decreases |s| - i
  {
    if i < |s| {
      HornerFrom(s, i, 2);
      ZerosFrom(s, i + 1);
    }
  }

  /** na times a plus ng times the generator, doubling once per bit for both. */
  method EcmultLoop<P(!new)>(g: Group<P>, a: P, gen: P, preA: seq<P>, preG: seq<P>, wA: nat, wG: nat,
                             wnafNa: seq<int>, bitsNa: nat, wnafNg: seq<int>, bitsNg: nat)
    returns (r: P)
    requires Abelian(g) && OddMultiples(g, preA, a) && OddMultiples(g, preG, gen) && wA >= 2 && wG >= 2
    requires |preA| == Pow2(wA - 2) && |preG| == Pow2(wG - 2)
    requires |wnafNa| == |wnafNg| && WidthForm(wnafNa, wA) && WidthForm(wnafNg, wG)
    requires bitsNa <= |wnafNa| && forall i :: bitsNa <= i < |wnafNa| ==> wnafNa[i] == 0
    requires bitsNg <= |wnafNg| && forall i :: bitsNg <= i < |wnafNg| ==> wnafNg[i] == 0
    ensures r == g.add(Mult(g, Horner(wnafNa, 2), a), Mult(g, Horner(wnafNg, 2), gen))
  {
    hide Abelian, Mult, Horner, Pow2, WidthForm, OddBelow;
    var bits := if bitsNg > bitsNa then bitsNg else bitsNa;
    r := g.zero;
    ZerosFrom(wnafNa, bits);
    ZerosFrom(wnafNg, bits);
    MultOne(g, a);
    MultOne(g, gen);
    Zero(g, g.zero);
    for i := bits downto 0
      invariant r == g.add(Mult(g, Horner(wnafNa[i..], 2), a), Mult(g, Horner(wnafNg[i..], 2), gen))
    {
      ghost var (j, k) := (Horner(wnafNa[i + 1..], 2), Horner(wnafNg[i + 1..], 2));
      HornerFrom(wnafNa, i, 2);
      HornerFrom(wnafNg, i, 2);
      DoubleSum(g, j, a, k, gen);
      r := g.add(r, r);
      if i < bitsNa && wnafNa[i] != 0 {
        DigitFits(wnafNa, wA, i);
        var tmpa := TableGet(g, preA, wnafNa[i], a);
        AddFirst(g, 2 * j, a, 2 * k, gen, wnafNa[i]);
        r := g.add(r, tmpa);
      }
      if i < bitsNg && wnafNg[i] != 0 {
        DigitFits(wnafNg, wG, i);
        var tmpa := TableGet(g, preG, wnafNg[i], gen);
        AddSecond(g, 2 * j + wnafNa[i], a, 2 * k, gen, wnafNg[i]);
        r := g.add(r, tmpa);
      }
    }
    assert wnafNa[0..] == wnafNa && wnafNg[0..] == wnafNg;
  }

  /** na * a + ng * gen, for every pair of scalars. */
  method Ecmult<P(!new)>(g: Group<P>, a: P, gen: P, na: scalar, ng: scalar, wA: nat, wG: nat) returns (r: P)
    requires Abelian(g) && Mult(g, ORDER, a) == g.zero && Mult(g, ORDER, gen) == g.zero
    requires 2 <= wA <= 31 && 2 <= wG <= 31
    ensures r == g.add(Mult(g, na, a), Mult(g, ng, gen))
  {
    hide Abelian, Mult, Horner, Pow2, WidthForm, OddMultiples;
    var wnafNa, wnafNg := new int[256], new int[256];
    var bitsNa := EcmultWnaf(wnafNa, na, wA);
    var bitsNg := EcmultWnaf(wnafNg, ng, wG);
    var preA := OddMultiplesTable(g, a, Pow2(wA - 2));
    var preG := OddMultiplesTable(g, gen, Pow2(wG - 2));
    r := EcmultLoop(g, a, gen, preA, preG, wA, wG, wnafNa[..], bitsNa, wnafNg[..], bitsNg);
    MultOrder(g, na, a);
    MultOrder(g, ng, gen);
  }

  // ---------------------------------------------------------------------------------
  // The constant-time loop
  // ---------------------------------------------------------------------------------

  const WINDOW_A: nat := 5

  lemma {:induction false} ScaleHorner<P(!new)>(g: Group<P>, k: int, n: nat, a: P)
    requires Abelian(g)
    ensures Doubled(g, Mult(g, k, a), n) == Mult(g, Pow2(n) * k, a)
  {
    hide Abelian, Mult, Pow2;
    if n == 0 {
      SkewPowers();
    } else {
      ScaleHorner(g, k, n - 1, a);
      MultTwice(g, Pow2(n - 1) * k, a);
      Halves(n);
      TwiceProduct(Pow2(n - 1), k);
    }
  }

  lemma TwiceProduct(p: int, k: int)
    ensures 2 * (p * k) == (2 * p) * k
  {
  }

  function Doubled<P(!new)>(g: Group<P>, x: P, n: nat): P {
    if n == 0 then x
    else
      var y := Doubled(g, x, n - 1);
      g.add(y, y)
  }

  /** scalar times a: odd digits only, and the skew taken off at the end. */
  method EcmultConst<P(!new)>(g: Group<P>, a: P, q: scalar) returns (r: P)
    requires Abelian(g) && Mult(g, ORDER, a) == g.zero
    ensures r == Mult(g, q, a)
  {
    hide Abelian, Mult, Horner, Pow2, OddBelow;
    var size := WnafSize(WINDOW_A - 1);
    var wnaf := new int[size + 1];
    var skew := WnafConst(wnaf, q, WINDOW_A - 1);
    var digits := wnaf[..];
    WindowPowers();
    var pre := OddMultiplesTable(g, a, 8);
    r := TableGet(g, pre, digits[size], a);
    LastDigit(digits, Pow2(WINDOW_A - 1));
    for i := size downto 0
      invariant r == Mult(g, Horner(digits[i..], Pow2(WINDOW_A - 1)), a)
    {
      ghost var k := Horner(digits[i + 1..], Pow2(WINDOW_A - 1));
      ghost var r0 := r;
      for j := 0 to WINDOW_A - 1
        invariant r == Doubled(g, r0, j)
      {
        r := g.add(r, r);
      }
      ScaleHorner(g, k, WINDOW_A - 1, a);
      HornerFrom(digits, i, Pow2(WINDOW_A - 1));
      assert OddBelow(digits[i], 16);
      var tmpa := TableGet(g, pre, digits[i], a);
      MultSum(g, Pow2(WINDOW_A - 1) * k, digits[i], a);
      r := g.add(r, tmpa);
    }
    assert digits[0..] == digits;
    MultOne(g, a);
    MultTwice(g, 1, a);
    var correction := if skew == 2 then g.add(a, a) else a;
    ghost var sum := Horner(digits, Pow2(WINDOW_A - 1));
    MultNeg(g, skew, a);
    MultSum(g, sum, -skew, a);
    assert correction == Mult(g, skew, a);
    r := g.add(r, g.neg(correction));
    assert r == Mult(g, sum - skew, a);
    MultOrder(g, q, a);
  }

  lemma WindowPowers()
    ensures Pow2(WINDOW_A - 1) == 16
  {
    SkewPowers();
    Halves(2);
    Halves(3);
    Halves(4);
  }

  lemma LastDigit(s: seq<int>, b: nat)
    requires s != []
    ensures Horner(s[|s| - 1..], b) == s[|s| - 1]
  {
    HornerFrom(s, |s| - 1, b);
    assert s[|s|..] == [];
    assert Horner([], b) == 0;
    TimesZero(b);
  }
}
