// The bn256 base field on four 64-bit limbs: carries, products from 16x32-bit pieces, and
// Montgomery multiplication.
module Gfp {
  import opened Arith
  import opened Common
  import opened Words

  /** R, the Montgomery radix 2^256. */
  const R: nat := 0x1_0000_0000_0000_0000_0000_0000_0000_0000_0000_0000_0000_0000_0000_0000_0000_0000

  /** The field prime. */
  const P: nat := 21888242871839275222246405745257275088696311157297823662689037894645226208583

  /** P on four limbs: Num(P2) == P by PrimeLimbs. */
  const P2: seq<word> := [0x3c208c16d87cfd47, 0x97816a916871ca8d, 0xb85045b68181585d, 0x30644e72e131a029]

  /** The factor by which the low limbs are cancelled: Num(NP) * P + 1 is a multiple of R. */
  const NP: seq<word> := [0x87d20782e4866389, 0x9ede7d651eca6ac9, 0xd8afcbd01833da80, 0xf57a22b791888c6b]

  // ---------------------------------------------------------------------------------
  // The number held by limbs
  // ---------------------------------------------------------------------------------

  /** The number whose base-b digits are s, least significant first. */
  function Val(s: seq<nat>, b: nat): nat {
    if s == [] then 0 else s[0] + b * Val(s[1..], b)
  }

  function Num(s: seq<nat>): nat { Val(s, TWO_64) }

  lemma {:induction false} ValSnoc(s: seq<nat>, x: nat, b: nat)
    ensures Val(s + [x], b) == Val(s, b) + Pow(b, |s|) * x
  {
    if s == [] {
      assert Val([x], b) == x + b * Val([], b);
    } else {
      assert (s + [x])[1..] == s[1..] + [x];
      ValSnoc(s[1..], x, b);
      DistributeOver(b, Val(s[1..], b), Pow(b, |s| - 1), x);
    }
  }

  lemma {:induction false} ValUpdate(s: seq<nat>, k: nat, d: nat, b: nat)
    requires k < |s|
    ensures Val(s[k := s[k] + d], b) == Val(s, b) + Pow(b, k) * d
  {
    var t := s[k := s[k] + d];
    if k == 0 {
      assert t[1..] == s[1..];
    } else {
      assert t[1..] == s[1..][k - 1 := s[1..][k - 1] + d];
      ValUpdate(s[1..], k - 1, d, b);
      DistributeOver(b, Val(s[1..], b), Pow(b, k - 1), d);
    }
  }

  lemma {:induction false} ValBound(s: seq<nat>, b: nat)
    requires b >= 1 && forall i :: 0 <= i < |s| ==> s[i] < b
    ensures Val(s, b) < Pow(b, |s|)
  {
    if s != [] {
      ValBound(s[1..], b);
      var v := Val(s[1..], b);
      MulMonotone(b, v + 1, Pow(b, |s| - 1));
      assert b * (v + 1) == b * v + b;
    }
  }

  lemma PowersOf64()
    ensures Pow(TWO_64, 4) == R && Pow(TWO_64, 8) == R * R
  {
    assert Pow(TWO_64, 1) == TWO_64;
    assert Pow(TWO_64, 2) == TWO_64 * TWO_64;
    assert Pow(TWO_64, 3) == TWO_64 * (TWO_64 * TWO_64);
    assert Pow(TWO_64, 4) == TWO_64 * (TWO_64 * (TWO_64 * TWO_64));
    assert Pow(TWO_64, 5) == TWO_64 * R;
    assert Pow(TWO_64, 6) == TWO_64 * (TWO_64 * R);
    assert Pow(TWO_64, 7) == TWO_64 * (TWO_64 * (TWO_64 * R));
    assert Pow(TWO_64, 8) == TWO_64 * (TWO_64 * (TWO_64 * (TWO_64 * R)));
  }

  lemma PrimeLimbs()
    ensures Num(P2) == P && P < R && (Num(NP) * P) % R == R - 1 && Num(NP) < R
  {
    assert P2[1..] == [0x97816a916871ca8d, 0xb85045b68181585d, 0x30644e72e131a029];
    assert P2[1..][1..] == [0xb85045b68181585d, 0x30644e72e131a029];
    assert P2[1..][1..][1..] == [0x30644e72e131a029];
    assert P2[1..][1..][1..][1..] == [];
    assert NP[1..] == [0x9ede7d651eca6ac9, 0xd8afcbd01833da80, 0xf57a22b791888c6b];
    assert NP[1..][1..] == [0xd8afcbd01833da80, 0xf57a22b791888c6b];
    assert NP[1..][1..][1..] == [0xf57a22b791888c6b];
    assert NP[1..][1..][1..][1..] == [];
  }

  // ---------------------------------------------------------------------------------
  // Limb-wise addition and subtraction
  // ---------------------------------------------------------------------------------

  /** c = a + b over n limbs, returning the carry; c may be a or b. */
  method AddLimbs(c: array<word>, a: array<word>, b: array<word>, n: nat) returns (carry: word)
    requires n <= a.Length && n <= b.Length && n <= c.Length
    modifies c
    ensures carry <= 1 && c[n..] == old(c[n..])
    ensures Num(c[..n]) + Pow(TWO_64, n) * carry == Num(old(a[..n])) + Num(old(b[..n]))
  {
    ghost var a0, b0 := a[..], b[..];
    carry := 0;
    for i := 0 to n
      invariant carry <= 1 && c[n..] == old(c[n..])
      invariant forall k :: i <= k < n ==> a[k] == a0[k] && b[k] == b0[k]
      invariant Num(c[..i]) + Pow(TWO_64, i) * carry == Num(a0[..i]) + Num(b0[..i])
    {
      var ai, bi := a[i], b[i];
      var ci := Add(Add(ai, bi), carry);
      CarryIsExact(ai, bi, carry, ci);
      ghost var c0 := c[..i];
      AddStep(c0, a0[..i], b0[..i], carry, ai, bi, ci, CarryBit(ai, bi, ci));
      c[i] := ci;
      carry := CarryBit(ai, bi, ci);
      assert c[..i + 1] == c0 + [ci] && a0[..i + 1] == a0[..i] + [ai] && b0[..i + 1] == b0[..i] + [bi];
    }
  }

  lemma AddStep(c: seq<nat>, a: seq<nat>, b: seq<nat>, carry: nat, ai: nat, bi: nat, ci: nat, next: nat)
    requires |a| == |b| == |c| && ai + bi + carry == ci + TWO_64 * next
    requires Num(c) + Pow(TWO_64, |c|) * carry == Num(a) + Num(b)
    ensures Num(c + [ci]) + Pow(TWO_64, |c| + 1) * next == Num(a + [ai]) + Num(b + [bi])
  {
    ValSnoc(c, ci, TWO_64);
    ValSnoc(a, ai, TWO_64);
    ValSnoc(b, bi, TWO_64);
    CarryOver(Pow(TWO_64, |c|), ai, bi, carry, ci, next);
    assert Pow(TWO_64, |c| + 1) == TWO_64 * Pow(TWO_64, |c|);
    hide Val, Pow;
  }

  lemma CarryOver(p: nat, ai: int, bi: int, carry: int, ci: int, next: int)
    requires ai + bi + carry == ci + TWO_64 * next
    ensures p * ai + p * bi + p * carry == p * ci + (TWO_64 * p) * next
  {
    assert p * (ai + bi + carry) == p * (ci + TWO_64 * next);
    assert p * (TWO_64 * next) == (TWO_64 * p) * next;
  }

  /** c = x - y over four limbs, returning the borrow; c may be x or y. */
  method SubLimbs(c: array<word>, x: array<word>, y: array<word>) returns (borrow: word)
    requires x.Length == y.Length == c.Length == 4
    modifies c
    ensures borrow <= 1
    ensures Num(c[..]) - R * borrow == Num(old(x[..])) - Num(old(y[..]))
  {
    ghost var x0, y0 := x[..], y[..];
    borrow := 0;
    for i := 0 to 4
      invariant borrow <= 1
      invariant forall k :: i <= k < 4 ==> x[k] == x0[k] && y[k] == y0[k]
      invariant Num(c[..i]) + Num(y0[..i]) == Num(x0[..i]) + Pow(TWO_64, i) * borrow
    {
      var xi, yi := x[i], y[i];
      var ci := Sub(Sub(xi, yi), borrow);
      BorrowIsExact(xi, yi, borrow, ci);
      ghost var c0 := c[..i];
      SubStep(c0, x0[..i], y0[..i], borrow, xi, yi, ci, BorrowBit(xi, yi, ci));
      c[i] := ci;
      borrow := BorrowBit(xi, yi, ci);
      assert c[..i + 1] == c0 + [ci] && x0[..i + 1] == x0[..i] + [xi] && y0[..i + 1] == y0[..i] + [yi];
    }
    assert c[..4] == c[..] && x0[..4] == x0 && y0[..4] == y0;
    PowersOf64();
  }

  lemma SubStep(c: seq<nat>, x: seq<nat>, y: seq<nat>, borrow: nat, xi: nat, yi: nat, ci: nat, next: nat)
    requires |x| == |y| == |c| && xi - yi - borrow == ci - TWO_64 * next
    requires Num(c) + Num(y) == Num(x) + Pow(TWO_64, |c|) * borrow
    ensures Num(c + [ci]) + Num(y + [yi]) == Num(x + [xi]) + Pow(TWO_64, |c| + 1) * next
  {
    ValSnoc(c, ci, TWO_64);
    ValSnoc(x, xi, TWO_64);
    ValSnoc(y, yi, TWO_64);
    BorrowOver(Pow(TWO_64, |c|), xi, yi, borrow, ci, next);
    assert Pow(TWO_64, |c| + 1) == TWO_64 * Pow(TWO_64, |c|);
    hide Val, Pow;
  }

  lemma BorrowOver(p: nat, xi: int, yi: int, borrow: int, ci: int, next: int)
    requires xi - yi - borrow == ci - TWO_64 * next
    ensures p * ci + p * yi + p * borrow == p * xi + (TWO_64 * p) * next
  {
    assert p * (ci + yi + borrow) == p * (xi + TWO_64 * next);
    assert p * (TWO_64 * next) == (TWO_64 * p) * next;
  }

  // ---------------------------------------------------------------------------------
  // Products: 16x32-bit pieces collected in 16-bit columns
  // ---------------------------------------------------------------------------------

  const MASK16: word := 0xffff
  const MASK32: word := 0xffff_ffff
  const B16: nat := 0x1_0000
  const B32: nat := 0x1_0000_0000
  const B48: nat := 0x1_0000_0000_0000

  lemma PowersOfTwo()
    ensures Pow2(16) == B16 && Pow2(32) == B32 && Pow2(48) == B48
  {
    Pow2Of8();
    hide Pow2;
    Pow2Sum(8, 8);
    Pow2Sum(16, 16);
    Pow2Sum(16, 32);
  }

  /** The 16-bit pieces of a word. */
  lemma Pieces16(x: word)
    ensures var (x0, x1, x2, x3) := (And(x, MASK16), And(Shr(x, 16), MASK16), And(Shr(x, 32), MASK16), Shr(x, 48));
            x == x0 + B16 * x1 + B32 * x2 + B48 * x3 && x0 < B16 && x1 < B16 && x2 < B16 && x3 < B16
  {
    hide Pow2, And;
    PowersOfTwo();
    Mask(x, 16);
    Mask(Shr(x, 16), 16);
    Mask(Shr(x, 32), 16);
    SplitTwice(x);
  }

  lemma SplitTwice(x: word)
    ensures x == x % B16 + B16 * ((x / B16) % B16) + B32 * ((x / B32) % B16) + B48 * (x / B48)
    ensures 0 <= x / B48 < B16
  {
    DivDiv(x, B16, B16);
    DivDiv(x, B32, B16);
  }

  /** The 32-bit pieces of a word. */
  lemma Pieces32(x: word)
    ensures var (x0, x2) := (And(x, MASK32), Shr(x, 32)); x == x0 + B32 * x2 && x0 < B32 && x2 < B32
  {
    hide Pow2, And;
    PowersOfTwo();
    Mask(x, 32);
  }

  lemma PieceProduct(a0: nat, a1: nat, a2: nat, a3: nat, b0: nat, b2: nat)
    ensures (a0 + B16 * a1 + B32 * a2 + B48 * a3) * (b0 + B32 * b2)
         == a0 * b0 + B16 * (a1 * b0) + B32 * (a2 * b0 + a0 * b2) + B48 * (a3 * b0 + a1 * b2)
            + TWO_64 * (a2 * b2) + (B16 * TWO_64) * (a3 * b2)
  {
  }

  lemma SmallProduct(x: nat, y: nat)
    requires x < B16 && y < B32
    ensures 0 <= x * y < B48
  {
    MulMonotone(x, y, B32 - 1);
    assert x * (B32 - 1) <= (B16 - 1) * (B32 - 1);
    MulMonotone(x, 0, y);
  }

  /** buff[k] += d, when that does not overflow. */
  method Bump(buff: array<word>, k: nat, d: word)
    requires k < buff.Length && buff[k] + d < TWO_64
    modifies buff
    ensures forall j :: 0 <= j < buff.Length ==> buff[j] == old(buff[j]) + if j == k then d else 0
    ensures Val(buff[..], B16) == Val(old(buff[..]), B16) + Pow(B16, k) * d
  {
    ValUpdate(buff[..], k, d, B16);
    buff[k] := Add(buff[k], d);
  }

  /** Adds the product of two words to the columns from off on. */
  method AddProduct(buff: array<word>, off: nat, ai: word, bj: word, ghost limit: nat)
    requires off + 5 < buff.Length && limit + 2 * B48 < TWO_64
    requires forall k :: 0 <= k < buff.Length ==> buff[k] <= limit
    modifies buff
    ensures forall k :: 0 <= k < buff.Length ==> buff[k] <= limit + 2 * B48
    ensures Val(buff[..], B16) == Val(old(buff[..]), B16) + Pow(B16, off) * (ai * bj)
  {
    hide And, Shr, Val, Pow, Mul, Add;
    var a0, a1, a2, a3 := And(ai, MASK16), And(Shr(ai, 16), MASK16), And(Shr(ai, 32), MASK16), Shr(ai, 48);
    var b0, b2 := And(bj, MASK32), Shr(bj, 32);
    Pieces16(ai);
    Pieces32(bj);
    var d0, d1, d4, d5 := Mul(a0, b0), Mul(a1, b0), Mul(a2, b2), Mul(a3, b2);
    var d2, d3 := Add(Mul(a2, b0), Mul(a0, b2)), Add(Mul(a3, b0), Mul(a1, b2));
    PieceMul(a0, b0);
    PieceMul(a1, b0);
    PieceMul(a2, b2);
    PieceMul(a3, b2);
    PieceMulAdd(a2, b0, a0, b2);
    PieceMulAdd(a3, b0, a1, b2);
    ProductColumns(off, ai, bj, a0, a1, a2, a3, b0, b2);
    BumpSix(buff, off, d0, d1, d2, d3, d4, d5, limit);
  }

  lemma ProductColumns(off: nat, a: nat, b: nat, a0: nat, a1: nat, a2: nat, a3: nat, b0: nat, b2: nat)
    requires a == a0 + B16 * a1 + B32 * a2 + B48 * a3 && b == b0 + B32 * b2
    ensures Pow(B16, off) * (a0 * b0) + Pow(B16, off + 1) * (a1 * b0) + Pow(B16, off + 2) * (a2 * b0 + a0 * b2)
            + Pow(B16, off + 3) * (a3 * b0 + a1 * b2) + Pow(B16, off + 4) * (a2 * b2) + Pow(B16, off + 5) * (a3 * b2)
         == Pow(B16, off) * (a * b)
  {
    hide Pow;
    PieceProduct(a0, a1, a2, a3, b0, b2);
    NatProducts(a0, a1, a2, a3, b0, b2);
    SixColumns(off, a0 * b0, a1 * b0, a2 * b0 + a0 * b2, a3 * b0 + a1 * b2, a2 * b2, a3 * b2);
  }

  lemma NatProducts(a0: nat, a1: nat, a2: nat, a3: nat, b0: nat, b2: nat)
    ensures 0 <= a0 * b0 && 0 <= a1 * b0 && 0 <= a2 * b0 && 0 <= a3 * b0
    ensures 0 <= a0 * b2 && 0 <= a1 * b2 && 0 <= a2 * b2 && 0 <= a3 * b2
  {
  }

  lemma PieceMul(x: word, y: word)
    requires x < B16 && y < B32
    ensures Mul(x, y) == x * y < B48
  {
    SmallProduct(x, y);
    hide Mul;
    MulInRange(x, y);
  }

  lemma MulInRange(x: word, y: word)
    requires 0 <= x * y < TWO_64
    ensures Mul(x, y) == x * y
  {
  }

  lemma PieceMulAdd(x: word, y: word, z: word, t: word)
    requires x < B16 && y < B32 && z < B16 && t < B32
    ensures Add(Mul(x, y), Mul(z, t)) == x * y + z * t <= 2 * B48
  {
    hide Mul;
    PieceMul(x, y);
    PieceMul(z, t);
  }

  method BumpSix(buff: array<word>, off: nat, d0: word, d1: word, d2: word, d3: word, d4: word, d5: word,
                 ghost limit: nat)
    requires off + 5 < buff.Length && limit + 2 * B48 < TWO_64
    requires forall k :: 0 <= k < buff.Length ==> buff[k] <= limit
    requires d0 <= 2 * B48 && d1 <= 2 * B48 && d2 <= 2 * B48 && d3 <= 2 * B48 && d4 <= 2 * B48 && d5 <= 2 * B48
    modifies buff
    ensures forall k :: 0 <= k < buff.Length ==> buff[k] <= limit + 2 * B48
    ensures Val(buff[..], B16)
         == Val(old(buff[..]), B16) + Pow(B16, off) * d0 + Pow(B16, off + 1) * d1 + Pow(B16, off + 2) * d2
            + Pow(B16, off + 3) * d3 + Pow(B16, off + 4) * d4 + Pow(B16, off + 5) * d5
  {
    hide Val, Pow;
    Bump(buff, off, d0);
    Bump(buff, off + 1, d1);
    Bump(buff, off + 2, d2);
    Bump(buff, off + 3, d3);
    Bump(buff, off + 4, d4);
    Bump(buff, off + 5, d5);
  }

  lemma SixColumns(off: nat, d0: nat, d1: nat, d2: nat, d3: nat, d4: nat, d5: nat)
    ensures Pow(B16, off) * d0 + Pow(B16, off + 1) * d1 + Pow(B16, off + 2) * d2 + Pow(B16, off + 3) * d3
            + Pow(B16, off + 4) * d4 + Pow(B16, off + 5) * d5
         == Pow(B16, off) * (d0 + B16 * d1 + B32 * d2 + B48 * d3 + TWO_64 * d4 + (B16 * TWO_64) * d5)
  {
    var p := Pow(B16, off);
    assert Pow(B16, off + 1) == B16 * p;
    assert Pow(B16, off + 2) == B32 * p;
    assert Pow(B16, off + 3) == B48 * p;
    assert Pow(B16, off + 4) == TWO_64 * p;
    assert Pow(B16, off + 5) == (B16 * TWO_64) * p;
    hide Pow;
    Spread(p, d0, d1, d2, d3, d4, d5);
  }

  lemma Spread(p: nat, d0: nat, d1: nat, d2: nat, d3: nat, d4: nat, d5: nat)
    ensures p * d0 + (B16 * p) * d1 + (B32 * p) * d2 + (B48 * p) * d3 + (TWO_64 * p) * d4 + ((B16 * TWO_64) * p) * d5
         == p * (d0 + B16 * d1 + B32 * d2 + B48 * d3 + TWO_64 * d4 + (B16 * TWO_64) * d5)
  {
  }

  lemma {:induction false} PowSum(b: nat, m: nat, n: nat)
    ensures Pow(b, m + n) == Pow(b, m) * Pow(b, n)
  {
    if m > 0 {
      PowSum(b, m - 1, n);
      Reassociate(b, Pow(b, m - 1), Pow(b, n));
    }
  }

  lemma Reassociate(x: int, y: int, z: int)
    ensures x * (y * z) == (x * y) * z
  {
  }

  /** Four 16-bit columns make one word. */
  lemma {:induction false} PowQuad(n: nat)
    ensures Pow(B16, 4 * n) == Pow(TWO_64, n)
  {
    if n > 0 {
      PowQuad(n - 1);
      var p := Pow(B16, 4 * (n - 1));
      assert Pow(B16, 4 * (n - 1) + 1) == B16 * p;
      assert Pow(B16, 4 * (n - 1) + 2) == B32 * p;
      assert Pow(B16, 4 * (n - 1) + 3) == B48 * p;
    }
  }

  /** Adds one row, ai * b[..n], to the columns. */
  method AddRow(buff: array<word>, i: nat, ai: word, b: seq<word>, n: nat, ghost limit: nat)
    requires n <= |b| && n <= 4 && (n > 0 ==> 4 * (i + n - 1) + 5 < buff.Length) && limit + 8 * B48 < TWO_64
    requires forall k :: 0 <= k < buff.Length ==> buff[k] <= limit
    modifies buff
    ensures forall k :: 0 <= k < buff.Length ==> buff[k] <= limit + 2 * n * B48
    ensures Val(buff[..], B16) == Val(old(buff[..]), B16) + Pow(TWO_64, i) * (ai * Num(b[..n]))
  {
    hide Val, Pow;
    ghost var v0 := Val(buff[..], B16);
    NumOfNothing(b, i, ai);
    for j := 0 to n
      invariant forall k :: 0 <= k < buff.Length ==> buff[k] <= limit + 2 * j * B48
      invariant Val(buff[..], B16) == v0 + Pow(TWO_64, i) * (ai * Num(b[..j]))
    {
      AddProduct(buff, 4 * (i + j), ai, b[j], limit + 2 * j * B48);
      RowStep(b, i, j, ai);
    }
  }

  lemma NumOfNothing(b: seq<word>, i: nat, ai: word)
    ensures Pow(TWO_64, i) * (ai * Num(b[..0])) == 0
  {
  }

  lemma RowStep(b: seq<word>, i: nat, j: nat, ai: word)
    requires j < |b|
    ensures Pow(TWO_64, i) * (ai * Num(b[..j + 1]))
         == Pow(TWO_64, i) * (ai * Num(b[..j])) + Pow(B16, 4 * (i + j)) * (ai * b[j])
  {
    hide Val, Pow;
    assert b[..j + 1] == b[..j] + [b[j]];
    ValSnoc(b[..j], b[j], TWO_64);
    PowQuad(i + j);
    PowSum(TWO_64, i, j);
    RowAlgebra(Pow(TWO_64, i), Pow(TWO_64, j), ai, Num(b[..j]), b[j]);
  }

  lemma RowAlgebra(p: int, q: int, x: int, v: int, y: int)
    ensures p * (x * (v + q * y)) == p * (x * v) + (p * q) * (x * y)
  {
    assert x * (v + q * y) == x * v + x * (q * y);
    assert x * (q * y) == q * (x * y);
    assert p * (q * (x * y)) == (p * q) * (x * y);
  }

  /** The number held by every fourth column from r on, n of them. */
  ghost function Lane(s: seq<nat>, r: nat, n: nat): nat
    requires n > 0 ==> 4 * (n - 1) + r < |s|
  {
    if n == 0 then 0 else Lane(s, r, n - 1) + Pow(TWO_64, n - 1) * s[4 * (n - 1) + r]
  }

  lemma {:induction false} LaneSame(s: seq<nat>, t: seq<nat>, r: nat, n: nat)
    requires n > 0 ==> 4 * (n - 1) + r < |s| && 4 * (n - 1) + r < |t|
    requires forall k :: 0 <= k < n ==> s[4 * k + r] == t[4 * k + r]
    ensures Lane(s, r, n) == Lane(t, r, n)
  {
    if n > 0 {
      LaneSame(s, t, r, n - 1);
    }
  }

  /** The columns, taken four apart. */
  lemma {:induction false} LanesOfColumns(s: seq<nat>, n: nat)
    requires 4 * n <= |s|
    ensures Val(s[..4 * n], B16) == if n == 0 then 0
              else Lane(s, 0, n) + B16 * Lane(s, 1, n) + B32 * Lane(s, 2, n) + B48 * Lane(s, 3, n)
  {
    if n > 0 {
      LanesOfColumns(s, n - 1);
      var m := 4 * (n - 1);
      var p := Pow(TWO_64, n - 1);
      PowQuad(n - 1);
      ValFour(s[..m], s[m], s[m + 1], s[m + 2], s[m + 3]);
      assert s[..4 * n] == s[..m] + [s[m], s[m + 1], s[m + 2], s[m + 3]];
      hide Val, Pow;
      if n == 1 {
        assert Lane(s, 0, 0) == 0 && Lane(s, 1, 0) == 0 && Lane(s, 2, 0) == 0 && Lane(s, 3, 0) == 0;
      }
      FourLanes(p, s[m], s[m + 1], s[m + 2], s[m + 3]);
    }
  }

  lemma NextColumns(n: nat)
    ensures Pow(B16, n + 1) == B16 * Pow(B16, n) && Pow(B16, n + 2) == B32 * Pow(B16, n)
    ensures Pow(B16, n + 3) == B48 * Pow(B16, n)
  {
    var p := Pow(B16, n);
    assert Pow(B16, n + 1) == B16 * p;
    assert Pow(B16, n + 2) == B16 * Pow(B16, n + 1);
    assert Pow(B16, n + 3) == B16 * Pow(B16, n + 2);
  }

  lemma ValFour(s: seq<nat>, x0: nat, x1: nat, x2: nat, x3: nat)
    ensures Val(s + [x0, x1, x2, x3], B16)
         == Val(s, B16) + Pow(B16, |s|) * x0 + (B16 * Pow(B16, |s|)) * x1
            + (B32 * Pow(B16, |s|)) * x2 + (B48 * Pow(B16, |s|)) * x3
  {
    hide Val, Pow;
    NextColumns(|s|);
    ValSnoc(s, x0, B16);
    ValSnoc(s + [x0], x1, B16);
    ValSnoc(s + [x0] + [x1], x2, B16);
    ValSnoc(s + [x0] + [x1] + [x2], x3, B16);
    assert s + [x0, x1, x2, x3] == s + [x0] + [x1] + [x2] + [x3];
  }

  lemma FourLanes(p: nat, x0: nat, x1: nat, x2: nat, x3: nat)
    ensures p * x0 + (B16 * p) * x1 + (B32 * p) * x2 + (B48 * p) * x3
         == p * x0 + B16 * (p * x1) + B32 * (p * x2) + B48 * (p * x3)
  {
  }

  /** s with only the words before block j of lane 0 replaced, by those of t. */
  ghost predicate AgreesPast(s: seq<nat>, t: seq<nat>, j: nat) {
    |s| == |t| && (forall k :: 0 <= k < |s| && k % 4 != 0 ==> t[k] == s[k])
    && forall k :: 4 * j <= k < |s| ==> t[k] == s[k]
  }

  lemma AgreesStep(s: seq<nat>, t: seq<nat>, u: seq<nat>, j: nat)
    requires AgreesPast(s, t, j) && 4 * j < |s| && |u| == |t| && u == t[4 * j := u[4 * j]]
    ensures AgreesPast(s, u, j + 1)
  {
  }

  lemma AgreesAt(s: seq<nat>, t: seq<nat>, j: nat, i: nat)
    requires AgreesPast(s, t, j) && 1 <= i < 4 && 4 * j + 3 < |s|
    ensures |t| == |s| && t[4 * j] == s[4 * j] && t[4 * j + i] == s[4 * j + i]
  {
  }

  /** One word of the merge: nothing overflows but into carry and head. */
  lemma MergeWord(x: word, c: word, head: word, carry: word, s: nat, y: word, z: word)
    requires 0 < s < 64 && head < Pow2(s) && carry <= 1
    requires y == Add(Shl(c, s), head) && z == Add(Add(x, y), carry)
    ensures z + TWO_64 * (Shr(c, 64 - s) + CarryBit(x, y, z)) == x + c * Pow2(s) + (head + carry)
    ensures CarryBit(x, y, z) <= 1 && Shr(c, 64 - s) < Pow2(s)
  {
    hide Pow2, Shl, Shr, CarryBit;
    ShiftSplit(c, s);
    AddInRange(Shl(c, s), head);
    CarryIsExact(x, y, carry, z);
    hide Add;
  }

  lemma AddInRange(x: word, y: word)
    requires x + y < TWO_64
    ensures Add(x, y) == x + y
  {
  }

  /** Adds lane i, shifted by 16 * i bits, to lane 0; what leaves the top is lost. */
  method Merge(buff: array<word>, i: nat, n: nat) returns (ghost lost: nat)
    requires 1 <= i < 4 && 4 * n <= buff.Length
    modifies buff
    ensures AgreesPast(old(buff[..]), buff[..], n)
    ensures Lane(buff[..], 0, n) + Pow(TWO_64, n) * lost
         == Lane(old(buff[..]), 0, n) + Pow2(16 * i) * Lane(old(buff[..]), i, n)
  {
    hide Pow2, Pow, Lane, Val, Shl, Shr, Add, CarryBit, AgreesPast;
    var shift := 16 * i;
    var head: word, carry: word := 0, 0;
    ghost var s := buff[..];
    MergeStart(s, i);
    for j := 0 to n
      invariant AgreesPast(s, buff[..], j)
      invariant carry <= 1 && head < Pow2(shift)
      invariant Lane(buff[..], 0, j) + Pow(TWO_64, j) * (head + carry)
             == Lane(s, 0, j) + Pow2(shift) * Lane(s, i, j)
    {
      var block := 4 * j;
      ghost var before := buff[..];
      AgreesAt(s, before, j, i);
      var xi := buff[block];
      var yi := Add(Shl(buff[block + i], shift), head);
      var zi := Add(Add(xi, yi), carry);
      MergeWord(xi, buff[block + i], head, carry, shift, yi, zi);
      buff[block] := zi;
      ghost var after := buff[..];
      assert after == before[block := zi];
      AgreesStep(s, before, after, j);
      MergeStep(before, after, s, i, j, head + carry, Shr(s[block + i], 64 - shift) + CarryBit(xi, yi, zi));
      carry := CarryBit(xi, yi, zi);
      head := Shr(buff[block + i], 64 - shift);
    }
    lost := head + carry;
  }

  lemma MergeStart(s: seq<nat>, i: nat)
    ensures Lane(s, 0, 0) + Pow(TWO_64, 0) * (0 + 0) == Lane(s, 0, 0) + Pow2(16 * i) * Lane(s, i, 0)
    ensures AgreesPast(s, s, 0)
  {
  }

  lemma MergeStep(before: seq<nat>, after: seq<nat>, s: seq<nat>, i: nat, j: nat, h: nat, h1: nat)
    requires 1 <= i < 4 && 4 * j + 3 < |before| == |after| == |s|
    requires forall k :: 0 <= k < |s| && k != 4 * j ==> after[k] == before[k]
    requires after[4 * j] + TWO_64 * h1 == s[4 * j] + s[4 * j + i] * Pow2(16 * i) + h
    requires Lane(before, 0, j) + Pow(TWO_64, j) * h == Lane(s, 0, j) + Pow2(16 * i) * Lane(s, i, j)
    ensures Lane(after, 0, j + 1) + Pow(TWO_64, j + 1) * h1
         == Lane(s, 0, j + 1) + Pow2(16 * i) * Lane(s, i, j + 1)
  {
    LaneSame(before, after, 0, j);
    assert Pow(TWO_64, j + 1) == TWO_64 * Pow(TWO_64, j);
    var p, q := Pow(TWO_64, j), Pow2(16 * i);
    hide Pow2, Pow;
    MergeAlgebra(p, q, after[4 * j], h1, s[4 * j], s[4 * j + i], h, Lane(s, i, j));
  }

  lemma MergeAlgebra(p: int, q: int, z: int, h1: int, x: int, c: int, h: int, l: int)
    requires z + TWO_64 * h1 == x + c * q + h
    ensures p * z + (TWO_64 * p) * h1 == p * x + q * (l + p * c) - q * l + p * h
  {
    assert p * (z + TWO_64 * h1) == p * (x + c * q + h);
    assert p * (TWO_64 * h1) == (TWO_64 * p) * h1;
    assert p * (x + c * q + h) == p * x + p * (c * q) + p * h;
    assert p * (c * q) == q * (p * c);
  }

  /** Columns summing up the rows of a product, merged into words, keep its value. */
  lemma MergedValue(s: seq<nat>, s1: seq<nat>, s2: seq<nat>, s3: seq<nat>, n: nat, l1: nat, l2: nat, l3: nat)
    requires n > 0 && 4 * n <= |s| && |s1| == |s2| == |s3| == |s|
    requires AgreesPast(s, s1, n) && AgreesPast(s1, s2, n)
    requires Lane(s1, 0, n) + Pow(TWO_64, n) * l1 == Lane(s, 0, n) + Pow2(16) * Lane(s, 1, n)
    requires Lane(s2, 0, n) + Pow(TWO_64, n) * l2 == Lane(s1, 0, n) + Pow2(32) * Lane(s1, 2, n)
    requires Lane(s3, 0, n) + Pow(TWO_64, n) * l3 == Lane(s2, 0, n) + Pow2(48) * Lane(s2, 3, n)
    ensures Lane(s3, 0, n) + Pow(TWO_64, n) * (l1 + l2 + l3) == Val(s[..4 * n], B16)
  {
    hide Pow2, Pow, Lane, Val;
    PowersOfTwo();
    LanesOfColumns(s, n);
    LaneKept(s, s1, 2, n);
    LaneKept(s, s1, 3, n);
    LaneKept(s1, s2, 3, n);
    hide AgreesPast;
    ThreeWays(Pow(TWO_64, n), l1, l2, l3);
  }

  lemma LaneKept(s: seq<nat>, t: seq<nat>, r: nat, n: nat)
    requires AgreesPast(s, t, n) && 1 <= r < 4 && 4 * n <= |s|
    ensures Lane(s, r, n) == Lane(t, r, n)
  {
    forall k | 0 <= k < n ensures s[4 * k + r] == t[4 * k + r] {
      assert (4 * k + r) % 4 == r;
    }
    LaneSame(s, t, r, n);
  }

  lemma ThreeWays(p: int, x: int, y: int, z: int)
    ensures p * (x + y + z) == p * x + p * y + p * z
  {
  }

  /** The words of lane 0, as a sequence. */
  lemma {:induction false} LaneIsNum(s: seq<nat>, ws: seq<nat>, n: nat)
    requires |ws| == n && (n > 0 ==> 4 * (n - 1) < |s|)
    requires forall k :: 0 <= k < n ==> ws[k] == s[4 * k]
    ensures Lane(s, 0, n) == Num(ws)
  {
    if n > 0 {
      LaneIsNum(s, ws[..n - 1], n - 1);
      assert ws == ws[..n - 1] + [ws[n - 1]];
      ValSnoc(ws[..n - 1], ws[n - 1], TWO_64);
    }
  }

  lemma {:induction false} ValZero(s: seq<nat>, b: nat)
    requires forall k :: 0 <= k < |s| ==> s[k] == 0
    ensures Val(s, b) == 0
  {
    if s != [] {
      ValZero(s[1..], b);
    }
  }

  /** One more row of the product. */
  lemma NumSnoc(a: seq<nat>, i: nat, b: nat)
    requires i < |a|
    ensures Num(a[..i + 1]) * b == Num(a[..i]) * b + Pow(TWO_64, i) * (a[i] * b)
  {
    assert a[..i + 1] == a[..i] + [a[i]];
    ValSnoc(a[..i], a[i], TWO_64);
    hide Val, Pow;
    var p, v, x := Pow(TWO_64, i), Num(a[..i]), a[i];
    assert (v + p * x) * b == v * b + (p * x) * b;
    Reassociate(p, x, b);
  }

  /** The exact 512-bit product of two four-limb numbers. */
  method Multiply(a: seq<word>, b: seq<word>) returns (c: seq<word>)
    requires |a| == |b| == 4
    ensures |c| == 8 && Num(c) == Num(a) * Num(b)
  {
    hide Val, Pow, Pow2, Lane;
    var buff := new word[32](_ => 0);
    ValZero(buff[..], B16);
    NumOfEmpty(a, Num(b));
    for i := 0 to 4
      invariant forall k :: 0 <= k < 32 ==> buff[k] <= 8 * i * B48
      invariant Val(buff[..], B16) == Num(a[..i]) * Num(b)
    {
      AddRow(buff, i, a[i], b, 4, 8 * i * B48);
      assert b[..4] == b;
      NumSnoc(a, i, Num(b));
    }
    assert a[..4] == a;
    ghost var s := buff[..];
    assert s[..32] == s;
    ghost var l1 := Merge(buff, 1, 8);
    ghost var s1 := buff[..];
    ghost var l2 := Merge(buff, 2, 8);
    ghost var s2 := buff[..];
    ghost var l3 := Merge(buff, 3, 8);
    c := [buff[0], buff[4], buff[8], buff[12], buff[16], buff[20], buff[24], buff[28]];
    MergedValue(s, s1, s2, buff[..], 8, l1, l2, l3);
    LaneIsNum(buff[..], c, 8);
    NothingLost(a, b, Num(c), l1 + l2 + l3);
  }

  lemma NumOfEmpty(a: seq<nat>, b: nat)
    ensures Num(a[..0]) * b == 0
  {
  }

  lemma NothingLost(a: seq<word>, b: seq<word>, c: nat, lost: nat)
    requires |a| == |b| == 4 && c + Pow(TWO_64, 8) * lost == Num(a) * Num(b)
    ensures lost == 0 && c == Num(a) * Num(b)
  {
    ValBound(a, TWO_64);
    ValBound(b, TWO_64);
    PowersOf64();
    hide Val, Pow;
    ProductBound(Num(a), Num(b), R);
    NoMultiple(R * R, lost, Num(a) * Num(b));
  }

  lemma ProductBound(x: nat, y: nat, r: nat)
    requires x < r && y < r
    ensures 0 <= x * y < r * r
  {
    MulMonotone(x, y, r);
    MulMonotone(r, x + 1, r);
    assert r * (x + 1) == x * r + r;
    MulMonotone(x, 0, y);
  }

  lemma NoMultiple(d: nat, k: nat, n: nat)
    requires n < d && d * k <= n
    ensures k == 0
  {
    if k >= 1 {
      MulMonotone(d, 1, k);
    }
  }

  /** The product of two four-limb numbers modulo 2^256. */
  method HalfMultiply(a: seq<word>, b: seq<word>) returns (c: seq<word>)
    requires |a| == |b| == 4
    ensures |c| == 4 && Num(c) == (Num(a) * Num(b)) % R
  {
    hide Val, Pow, Pow2, Lane;
    var buff := new word[18](_ => 0);
    ValZero(buff[..], B16);
    NumOfEmpty(a, Num(b));
    ghost var dropped: nat := 0;
    for i := 0 to 4
      invariant forall k :: 0 <= k < 18 ==> buff[k] <= 8 * i * B48
      invariant Val(buff[..], B16) + R * dropped == Num(a[..i]) * Num(b)
    {
      AddRow(buff, i, a[i], b, 4 - i, 8 * i * B48);
      DroppedHalf(a[i], b, i);
      NatProducts(a[i], 0, 0, 0, Num(b[4 - i..]), 0);
      NumSnoc(a, i, Num(b));
      dropped := dropped + a[i] * Num(b[4 - i..]);
    }
    assert a[..4] == a;
    ghost var s := buff[..];
    ghost var l1 := Merge(buff, 1, 4);
    ghost var s1 := buff[..];
    ghost var l2 := Merge(buff, 2, 4);
    ghost var s2 := buff[..];
    ghost var l3 := Merge(buff, 3, 4);
    c := [buff[0], buff[4], buff[8], buff[12]];
    MergedValue(s, s1, s2, buff[..], 4, l1, l2, l3);
    LaneIsNum(buff[..], c, 4);
    ghost var high := TopColumns(s);
    HalfRemains(c, Num(a) * Num(b), dropped, high, l1 + l2 + l3);
  }

  /** Columns 16 and 17 only weigh multiples of 2^256. */
  lemma TopColumns(s: seq<nat>) returns (high: nat)
    requires |s| == 18
    ensures Val(s, B16) == Val(s[..16], B16) + R * high
  {
    hide Val, Pow;
    high := s[16] + B16 * s[17];
    ValSnoc(s[..16], s[16], B16);
    ValSnoc(s[..16] + [s[16]], s[17], B16);
    assert s == s[..16] + [s[16]] + [s[17]];
    PowersOf64();
    PowQuad(4);
    PowSum(B16, 1, 16);
    assert Pow(B16, 1) == B16 by { PowOne(B16); }
  }

  lemma PowOne(b: nat)
    ensures Pow(b, 1) == b && Pow(b, 0) == 1
  {
  }

  lemma {:induction false} NumSplit(s: seq<nat>, k: nat)
    requires k <= |s|
    ensures Num(s) == Num(s[..k]) + Pow(TWO_64, k) * Num(s[k..])
  {
    if k == 0 {
      assert s[0..] == s;
    } else {
      NumSplit(s[1..], k - 1);
      assert s[1..][..k - 1] == s[..k][1..];
      assert s[1..][k - 1..] == s[k..];
      DistributeOver(TWO_64, Num(s[1..][..k - 1]), Pow(TWO_64, k - 1), Num(s[k..]));
    }
  }

  lemma DroppedHalf(x: word, b: seq<word>, i: nat)
    requires |b| == 4 && i < 4
    ensures Pow(TWO_64, i) * (x * Num(b))
         == Pow(TWO_64, i) * (x * Num(b[..4 - i])) + R * (x * Num(b[4 - i..]))
  {
    hide Val, Pow;
    NumSplit(b, 4 - i);
    PowSum(TWO_64, i, 4 - i);
    PowersOf64();
    RowAlgebra(Pow(TWO_64, i), Pow(TWO_64, 4 - i), x, Num(b[..4 - i]), Num(b[4 - i..]));
  }

  lemma HalfRemains(c: seq<word>, n: nat, dropped: nat, high: nat, lost: nat)
    requires |c| == 4 && Num(c) + Pow(TWO_64, 4) * lost + R * high + R * dropped == n
    ensures Num(c) == n % R
  {
    ValBound(c, TWO_64);
    PowersOf64();
    hide Val, Pow;
    QuotientUnique(n, R, lost + high + dropped, Num(c));
  }

  /** The prime is that of the curve with parameter u. */
  lemma PrimeOfCurve()
    ensures var u := 4965661367192848881; P == 36 * u * u * u * u + 36 * u * u * u + 24 * u * u + 6 * u + 1
  {
  }
}
