// 64-bit machine words as integers: bitwise operations, shifts, and what the carry formulas
// built from them compute.
module Words {
  import opened Arith
  import opened Common

  type word = x: int | 0 <= x < TWO_64

  const MAX64: word := 0xFFFF_FFFF_FFFF_FFFF

  /** Bitwise and of the low n bits. */
  function AndBits(x: nat, y: nat, n: nat): (r: nat)
    ensures r < Pow2(n)
  {
    if n == 0 then 0
    else 2 * AndBits(x / 2, y / 2, n - 1) + (if x % 2 == 1 && y % 2 == 1 then 1 else 0)
  }

  /** Bitwise or of the low n bits. */
  function OrBits(x: nat, y: nat, n: nat): (r: nat)
    ensures r < Pow2(n)
  {
    if n == 0 then 0
    else 2 * OrBits(x / 2, y / 2, n - 1) + (if x % 2 == 1 || y % 2 == 1 then 1 else 0)
  }

  function And(x: word, y: word): word { Pow2Of64(); AndBits(x, y, 64) }

  function Or(x: word, y: word): word { Pow2Of64(); OrBits(x, y, 64) }

  function Not(x: word): word { MAX64 - x }

  function AndNot(x: word, y: word): word { And(x, Not(y)) }

  function Add(x: word, y: word): word { (x + y) % TWO_64 }

  function Sub(x: word, y: word): word { (x - y) % TWO_64 }

  function Mul(x: word, y: word): word { (x * y) % TWO_64 }

  function Shl(x: word, s: nat): word
  {
    (x * Pow2(s)) % TWO_64
  }

  function Shr(x: word, s: nat): word
  {
    ShrInRange(x, Pow2(s));
    x / Pow2(s)
  }

  lemma ShrInRange(x: nat, d: nat)
    requires d >= 1
    ensures 0 <= x / d <= x
  {
    DivModFacts(x, d);
    MulMonotone(x / d, 1, d);
    MulMonotone(d, x / d, if x / d < 0 then -1 else x / d);
  }

  lemma {:induction false} Pow2Of64()
    ensures Pow2(64) == TWO_64 && Pow2(63) == TWO_63
  {
    hide Pow2;
    Pow2Of8();
    Pow2Sum(8, 8);
    Pow2Sum(16, 16);
    Pow2Sum(32, 32);
    Pow2Sum(1, 63);
    Pow2Of1();
  }

  // ---------------------------------------------------------------------------------
  // The top bit
  // ---------------------------------------------------------------------------------

  lemma {:induction false} TopOfAnd(x: nat, y: nat, n: nat)
    requires n >= 1 && x < Pow2(n) && y < Pow2(n)
    ensures AndBits(x, y, n) >= Pow2(n - 1) <==> x >= Pow2(n - 1) && y >= Pow2(n - 1)
  {
    if n == 1 {
      assert AndBits(x / 2, y / 2, 0) == 0;
    } else {
      TopOfAnd(x / 2, y / 2, n - 1);
    }
  }

  lemma {:induction false} TopOfOr(x: nat, y: nat, n: nat)
    requires n >= 1 && x < Pow2(n) && y < Pow2(n)
    ensures OrBits(x, y, n) >= Pow2(n - 1) <==> x >= Pow2(n - 1) || y >= Pow2(n - 1)
  {
    if n == 1 {
      assert OrBits(x / 2, y / 2, 0) == 0;
    } else {
      TopOfOr(x / 2, y / 2, n - 1);
    }
  }

  function Top(x: word): bool { x >= TWO_63 }

  lemma TopBits(x: word, y: word)
    ensures Top(And(x, y)) <==> Top(x) && Top(y)
    ensures Top(Or(x, y)) <==> Top(x) || Top(y)
    ensures Top(Not(x)) <==> !Top(x)
    ensures Shr(x, 63) == if Top(x) then 1 else 0
  {
    hide Pow2, AndBits, OrBits;
    Pow2Of64();
    TopOfAnd(x, y, 64);
    TopOfOr(x, y, 64);
    ShrTop(x);
  }

  lemma ShrTop(x: word)
    ensures Shr(x, 63) == if x >= TWO_63 then 1 else 0
  {
    hide Pow2;
    Pow2Of64();
  }

  /** The carry out of x + y + carry-in, read off the top bits of x, y and the sum z. */
  function CarryBit(x: word, y: word, z: word): word {
    Shr(Or(And(x, y), AndNot(Or(x, y), z)), 63)
  }

  /** The borrow out of x - y - borrow-in, read off the top bits of x, y and the difference z. */
  function BorrowBit(x: word, y: word, z: word): word {
    Shr(Or(AndNot(y, x), And(Or(y, Not(x)), z)), 63)
  }

  lemma CarryIsExact(x: word, y: word, c: word, z: word)
    requires c <= 1 && z == Add(Add(x, y), c)
    ensures x + y + c == z + TWO_64 * CarryBit(x, y, z) && CarryBit(x, y, z) <= 1
  {
    TopBits(x, y);
    TopBits(Or(x, y), Not(z));
    TopBits(z, z);
    TopBits(And(x, y), AndNot(Or(x, y), z));
    TopBits(Or(And(x, y), AndNot(Or(x, y), z)), 0);
    hide And, Or, Shr, Not;
    SumWraps(x, y, c);
  }

  lemma BorrowIsExact(x: word, y: word, c: word, z: word)
    requires c <= 1 && z == Sub(Sub(x, y), c)
    ensures x - y - c == z - TWO_64 * BorrowBit(x, y, z) && BorrowBit(x, y, z) <= 1
  {
    TopBits(x, x);
    TopBits(y, Not(x));
    TopBits(Or(y, Not(x)), z);
    TopBits(AndNot(y, x), And(Or(y, Not(x)), z));
    TopBits(Or(AndNot(y, x), And(Or(y, Not(x)), z)), 0);
    hide And, Or, Shr, Not;
    DifferenceWraps(x, y, c);
  }

  lemma SumWraps(x: word, y: word, c: word)
    requires c <= 1
    ensures Add(Add(x, y), c) == x + y + c - (if x + y + c >= TWO_64 then TWO_64 else 0)
  {
  }

  lemma DifferenceWraps(x: word, y: word, c: word)
    requires c <= 1
    ensures Sub(Sub(x, y), c) == x - y - c + (if x < y + c then TWO_64 else 0)
  {
  }

  // ---------------------------------------------------------------------------------
  // Masks and shifts
  // ---------------------------------------------------------------------------------

  lemma {:induction false} AndLowBits(x: nat, k: nat, n: nat)
    requires k <= n
    ensures AndBits(x, Pow2(k) - 1, n) == x % Pow2(k)
  {
    hide AndBits;
    if k == 0 {
      AndZero(x, n);
      OneDivides(x);
    } else {
      AndLowBits(x / 2, k - 1, n - 1);
      LowBitsStep(x, Pow2(k - 1), n);
    }
  }

  lemma LowBitsStep(x: nat, d: nat, n: nat)
    requires d >= 1 && n >= 1 && AndBits(x / 2, d - 1, n - 1) == (x / 2) % d
    ensures AndBits(x, 2 * d - 1, n) == x % (2 * d)
  {
    hide AndBits;
    AndStep(x, d, n);
    ModDouble(x, d);
  }

  lemma OneDivides(x: nat)
    ensures x % 1 == 0
  {
  }

  lemma AndStep(x: nat, d: nat, n: nat)
    requires d >= 1 && n >= 1
    ensures AndBits(x, 2 * d - 1, n) == 2 * AndBits(x / 2, d - 1, n - 1) + x % 2
  {
    HalfMask(d);
  }

  lemma HalfMask(d: nat)
    requires d >= 1
    ensures (2 * d - 1) / 2 == d - 1 && (2 * d - 1) % 2 == 1
  {
  }

  lemma ModDouble(x: nat, d: nat)
    requires d >= 1
    ensures x % (2 * d) == 2 * ((x / 2) % d) + x % 2
  {
    var q, r := (x / 2) / d, (x / 2) % d;
    DivModFacts(x / 2, d);
    assert x == 2 * (x / 2) + x % 2;
    assert 2 * (d * q) == (2 * d) * q;
    QuotientUnique(x, 2 * d, q, 2 * r + x % 2);
  }

  lemma {:induction false} AndZero(x: nat, n: nat)
    ensures AndBits(x, 0, n) == 0
  {
    if n > 0 {
      AndZero(x / 2, n - 1);
    }
  }

  lemma {:induction false} OrZero(x: nat, n: nat)
    requires x < Pow2(n)
    ensures OrBits(x, 0, n) == x && OrBits(0, x, n) == x
  {
    if n > 0 {
      OrZero(x / 2, n - 1);
    }
  }

  /** Choosing between two words with an all-ones or all-zeros mask. */
  lemma Select(a: word, b: word, keepA: bool)
    ensures var mask := if keepA then MAX64 else 0;
            Or(And(a, mask), And(b, Not(mask))) == if keepA then a else b
  {
    MaskFacts(a);
    MaskFacts(b);
    hide And, Or;
  }

  lemma MaskFacts(x: word)
    ensures And(x, MAX64) == x && And(x, 0) == 0
    ensures Or(x, 0) == x && Or(0, x) == x
  {
    hide Pow2, AndBits, OrBits;
    Pow2Of64();
    AndLowBits(x, 64, 64);
    AndZero(x, 64);
    OrZero(x, 64);
  }

  lemma Mask(x: word, k: nat)
    requires k < 64
    ensures Pow2(k) <= TWO_63 && And(x, Pow2(k) - 1) == x % Pow2(k)
  {
    hide Pow2, AndBits;
    Pow2Of64();
    Pow2Monotone(k, 63);
    AndLowBits(x, k, 64);
  }

  /** A left shift and the bits it drops. */
  lemma ShiftSplit(x: word, s: nat)
    requires 0 < s < 64
    ensures x * Pow2(s) == Shl(x, s) + TWO_64 * Shr(x, 64 - s)
    ensures Shr(x, 64 - s) < Pow2(s) && Shl(x, s) <= TWO_64 - Pow2(s)
  {
    hide Pow2;
    var p, q := Pow2(s), Pow2(64 - s);
    Pow2Of64();
    Pow2Sum(s, 64 - s);
    DivModFacts(x, q);
    ShiftParts(x, p, q, x / q, x % q);
    QuotientUnique(x * p, TWO_64, x / q, (x % q) * p);
  }

  lemma ShiftParts(x: nat, p: nat, q: nat, h: int, l: nat)
    requires p >= 1 && q >= 1 && p * q == TWO_64 && x < TWO_64 && x == q * h + l && l < q
    ensures x * p == TWO_64 * h + l * p && 0 <= l * p <= TWO_64 - p && h < p
  {
    assert (q * h + l) * p == (q * h) * p + l * p;
    assert (q * h) * p == (p * q) * h;
    MulMonotone(p, l, q - 1);
    assert p * (q - 1) == p * q - p;
    MulMonotone(p, 0, l);
    if h >= p {
      MulMonotone(q, p, h);
    }
  }
}
