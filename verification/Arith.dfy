// Integer division, powers of two and other small facts used across the project.
module Arith {

  lemma MulMonotone(a: int, x: int, y: int)
    requires 0 <= a && x <= y
    ensures a * x <= a * y
  {
  }

  lemma TimesZero(x: int)
    ensures x * 0 == 0 && 0 * x == 0
  {
  }

  lemma Distribute(a: int, x: int, y: int)
    ensures a * (x + y) == a * x + a * y
  {
  }

  lemma DistributeOver(b: int, v: int, p: int, d: int)
    ensures b * (v + p * d) == b * v + (b * p) * d
  {
  }

  function Pow(b: nat, n: nat): nat {
    if n == 0 then 1 else b * Pow(b, n - 1)
  }

  lemma DivModFacts(i: int, d: int)
    requires d > 0
    ensures i == d * (i / d) + i % d && 0 <= i % d < d
  {
  }

  lemma QuotientUnique(i: int, d: int, q: int, r: int)
    requires d > 0 && i == d * q + r && 0 <= r < d
    ensures i / d == q && i % d == r
  {
    var q0, r0 := i / d, i % d;
    DivModFacts(i, d);
    UniqueAux(d, q, r, q0, r0);
  }

  lemma UniqueAux(d: int, q: int, r: int, q0: int, r0: int)
    requires d > 0 && d * q + r == d * q0 + r0 && 0 <= r < d && 0 <= r0 < d
    ensures q == q0 && r == r0
  {
    if q0 > q {
      assert d * (q + 1) == d * q + d;
      MulMonotone(d, q + 1, q0);
    } else if q0 < q {
      assert d * (q0 + 1) == d * q0 + d;
      MulMonotone(d, q0 + 1, q);
    }
  }

  lemma DivDivAux(i: int, a: int, b: int, q: int, s: int, r: int, t: int)
    requires a > 0 && b > 0 && i == a * q + s && 0 <= s < a && q == b * r + t && 0 <= t < b
    ensures i == (a * b) * r + (a * t + s) && 0 <= a * t + s < a * b
  {
    assert a * q == a * (b * r) + a * t;
    assert a * (b * r) == (a * b) * r;
    MulMonotone(a, t, b - 1);
    assert a * (b - 1) == a * b - a;
    MulMonotone(a, 0, t);
  }

  lemma DivDiv(i: int, a: int, b: int)
    requires a > 0 && b > 0
    ensures a * b > 0 && (i / a) / b == i / (a * b)
  {
    var q := i / a;
    var r := q / b;
    DivModFacts(i, a);
    DivModFacts(q, b);
    MulMonotone(a, 1, b);
    DivDivAux(i, a, b, q, i % a, r, q % b);
    QuotientUnique(i, a * b, r, a * (q % b) + i % a);
  }

  lemma ConcatAssoc<T>(a: seq<T>, b: seq<T>, c: seq<T>)
    ensures a + b + c == a + (b + c)
  {
  }
}
