// Congruence of integers modulo m.
module Modular {
  import opened Arith

  /** x and y differ by a multiple of m. */
  ghost predicate Cong(x: int, y: int, m: nat)
    requires m > 0
  {
    exists k: int :: Multiple(x, y, m, k)
  }

  ghost predicate Multiple(x: int, y: int, m: nat, k: int) { x == y + m * k }

  lemma CongOf(x: int, y: int, m: nat, k: int)
    requires m > 0 && x == y + m * k
    ensures Cong(x, y, m)
  {
    assert Multiple(x, y, m, k);
  }

  lemma CongRefl(x: int, m: nat)
    requires m > 0
    ensures Cong(x, x, m)
  {
    CongOf(x, x, m, 0);
  }

  lemma CongMod(x: int, m: nat)
    requires m > 0
    ensures Cong(x % m, x, m) && Cong(x, x % m, m)
  {
    DivModFacts(x, m);
    CongOf(x, x % m, m, x / m);
    CongSym(x, x % m, m);
  }

  lemma CongSym(x: int, y: int, m: nat)
    requires m > 0 && Cong(x, y, m)
    ensures Cong(y, x, m)
  {
    var k :| Multiple(x, y, m, k);
    assert m * (-k) == -(m * k);
    CongOf(y, x, m, -k);
  }

  lemma CongTrans(x: int, y: int, z: int, m: nat)
    requires m > 0 && Cong(x, y, m) && Cong(y, z, m)
    ensures Cong(x, z, m)
  {
    var k :| Multiple(x, y, m, k);
    var l :| Multiple(y, z, m, l);
    assert m * (k + l) == m * k + m * l;
    CongOf(x, z, m, k + l);
  }

  lemma CongAdd(x: int, y: int, u: int, v: int, m: nat)
    requires m > 0 && Cong(x, y, m) && Cong(u, v, m)
    ensures Cong(x + u, y + v, m) && Cong(x - u, y - v, m)
  {
    var k :| Multiple(x, y, m, k);
    var l :| Multiple(u, v, m, l);
    assert m * (k + l) == m * k + m * l;
    assert m * (k - l) == m * k - m * l;
    CongOf(x + u, y + v, m, k + l);
    CongOf(x - u, y - v, m, k - l);
  }

  lemma CongMul(x: int, y: int, u: int, v: int, m: nat)
    requires m > 0 && Cong(x, y, m) && Cong(u, v, m)
    ensures Cong(x * u, y * v, m)
  {
    var k :| Multiple(x, y, m, k);
    var l :| Multiple(u, v, m, l);
    ProductOfSums(y, v, m, k, l);
    CongOf(x * u, y * v, m, k * v + l * y + m * (k * l));
  }

  lemma ProductOfSums(y: int, v: int, m: int, k: int, l: int)
    ensures (y + m * k) * (v + m * l) == y * v + m * (k * v + l * y + m * (k * l))
  {
    assert (y + m * k) * (v + m * l) == y * v + y * (m * l) + (m * k) * v + (m * k) * (m * l);
    assert y * (m * l) == m * (l * y);
    assert (m * k) * v == m * (k * v);
    assert (m * k) * (m * l) == m * (m * (k * l));
    Factor(m, k * v, l * y, m * (k * l));
  }

  lemma Factor(m: int, x: int, y: int, z: int)
    ensures m * x + m * y + m * z == m * (x + y + z)
  {
  }

  /** Congruent residues are equal. */
  lemma CongUnique(x: int, y: int, m: nat)
    requires m > 0 && Cong(x, y, m)
    ensures x % m == y % m
    ensures 0 <= x < m && 0 <= y < m ==> x == y
  {
    var k :| Multiple(x, y, m, k);
    DivModFacts(y, m);
    DivModFacts(x, m);
    assert m * (y / m + k) == m * (y / m) + m * k;
    QuotientUnique(x, m, y / m + k, y % m);
    if 0 <= x < m {
      QuotientUnique(x, m, 0, x);
    }
    if 0 <= y < m {
      QuotientUnique(y, m, 0, y);
    }
  }

  lemma CongFromMod(x: int, y: int, m: nat)
    requires m > 0 && x % m == y % m
    ensures Cong(x, y, m)
  {
    CongMod(x, m);
    CongMod(y, m);
    CongTrans(x, x % m, y, m);
  }

  /** Multiplying by a number with an inverse can be undone. */
  lemma CongCancel(x: int, y: int, r: int, ri: int, m: nat)
    requires m > 0 && Cong(x * r, y * r, m) && Cong(r * ri, 1, m)
    ensures Cong(x, y, m)
  {
    CongRefl(ri, m);
    CongMul(x * r, y * r, ri, ri, m);
    Rearrange(x, r, ri);
    Rearrange(y, r, ri);
    CongRefl(x, m);
    CongRefl(y, m);
    CongMul(x, x, r * ri, 1, m);
    CongMul(y, y, r * ri, 1, m);
    CongSym(x * (r * ri), x, m);
    CongTrans(x, x * (r * ri), y * (r * ri), m);
    CongTrans(x, y * (r * ri), y, m);
  }

  lemma Rearrange(x: int, r: int, ri: int)
    ensures (x * r) * ri == x * (r * ri)
  {
  }
}
