// Arithmetic of the bn256 base field in Montgomery form: an element x is held as x * R mod p.
module Montgomery {
  import opened Arith
  import opened Common
  import opened Gfp
  import opened Modular
  import opened Words

  /** R^-1 mod p, and its limbs rN1; likewise R^2 and R^3. */
  const RI: nat := 20988524275117001072002809824448087578619730785600314334253784976379291040311
  const RN1: seq<word> := [0xed84884a014afa37, 0xeb2022850278edf8, 0xcf63e9cfb74492d9, 0x2e67157159e5c639]
  const R2: seq<word> := [0xf32cfc5b538afa89, 0xb5e71911d44501fb, 0x47ab1eff0a417ff6, 0x06d89f71cab8351f]
  const R3: seq<word> := [0xb1cd6dafda1530df, 0x62f210e6a7283db6, 0xef7f0b0c0ada0afb, 0x20fd6e902d592544]

  ghost predicate Reduced(s: seq<word>) { |s| == 4 && Num(s) < P }

  method PrimeLimbArray() returns (p: array<word>)
    ensures fresh(p) && p.Length == 4 && p[..] == P2
  {
    p := new word[4](i requires 0 <= i < 4 => P2[i]);
  }

  /** head is 0 or 1, so is borrow: borrow and not head. */
  lemma ClearByHead(borrow: word, head: word)
    requires borrow <= 1 && head <= 1
    ensures AndNot(borrow, head) == if borrow == 1 && head == 0 then 1 else 0
  {
    assert borrow / 2 == 0;
    AndZeroLeft(Not(head) / 2, 63);
  }

  lemma {:induction false} AndZeroLeft(y: nat, n: nat)
    ensures AndBits(0, y, n) == 0
  {
    if n > 0 {
      AndZeroLeft(y / 2, n - 1);
    }
  }

  lemma Negate(bit: word)
    requires bit <= 1
    ensures Sub(0, bit) == (if bit == 1 then MAX64 else 0) && Not(0) == MAX64 && Not(MAX64) == 0
  {
  }

  /** Subtracts p once when the value, with head as its fifth limb, is at least p. */
  method GfpCarry(a: array<word>, head: word)
    requires a.Length == 4 && head <= 1 && Num(a[..]) + R * head < R + P
    modifies a
    ensures Num(a[..])
         == var v := Num(old(a[..])) + R * head; if v >= P then v - P else v
  {
    hide Num, And, Or, Sub, Not, AndNot;
    var b := new word[4];
    var p := PrimeLimbArray();
    ghost var a0 := a[..];
    var carry := SubLimbs(b, a, p);
    PrimeLimbs();
    FourLimbs(a0);
    FourLimbs(b[..]);
    ClearByHead(carry, head);
    carry := AndNot(carry, head);
    Negate(carry);
    SelectLimbs(a, b, Sub(0, carry));
  }

  /** Keeps a under an all-ones mask, replaces it by b under a zero mask. */
  method SelectLimbs(a: array<word>, b: array<word>, carry: word)
    requires a.Length == b.Length == 4 && a != b && (carry == MAX64 || carry == 0)
    modifies a
    ensures a[..] == if carry == MAX64 then old(a[..]) else old(b[..])
  {
    hide And, Or;
    var ncarry := Not(carry);
    ghost var a0 := a[..];
    for i := 0 to 4
      invariant forall k :: 0 <= k < i ==> a[k] == if carry == MAX64 then a0[k] else b[k]
      invariant forall k :: i <= k < 4 ==> a[k] == a0[k]
    {
      Select(a[i], b[i], carry == MAX64);
      a[i] := Or(And(a[i], carry), And(b[i], ncarry));
    }
  }

  lemma FourLimbs(s: seq<word>)
    requires |s| == 4
    ensures Num(s) < R
  {
    ValBound(s, TWO_64);
    PowersOf64();
  }

  method GfpNeg(c: array<word>, a: array<word>)
    requires a.Length == c.Length == 4 && Reduced(a[..])
    modifies c
    ensures Num(c[..]) == (P - Num(old(a[..]))) % P
  {
    hide Num;
    var p := PrimeLimbArray();
    PrimeLimbs();
    var carry := SubLimbs(c, p, a);
    FourLimbs(c[..]);
    GfpCarry(c, 0);
  }

  method GfpAdd(c: array<word>, a: array<word>, b: array<word>)
    requires a.Length == b.Length == c.Length == 4 && Reduced(a[..]) && Reduced(b[..])
    modifies c
    ensures Num(c[..]) == (Num(old(a[..])) + Num(old(b[..]))) % P
  {
    hide Num, Pow;
    var carry := AddLimbs(c, a, b, 4);
    WholeArrays(c, old(a[..]), old(b[..]));
    PrimeLimbs();
    GfpCarry(c, carry);
  }

  lemma WholeArrays(c: array<word>, a: seq<word>, b: seq<word>)
    requires c.Length == |a| == |b| == 4
    ensures c[..4] == c[..] && a[..4] == a && b[..4] == b && Pow(TWO_64, 4) == R
  {
    PowersOf64();
  }

  method GfpSub(c: array<word>, a: array<word>, b: array<word>)
    requires a.Length == b.Length == c.Length == 4 && Reduced(a[..]) && Reduced(b[..])
    modifies c
    ensures Num(c[..]) == (Num(old(a[..])) - Num(old(b[..]))) % P
  {
    hide Num, Pow;
    var t := new word[4];
    var p := PrimeLimbArray();
    PrimeLimbs();
    var carry := SubLimbs(t, p, b);
    FourLimbs(t[..]);
    ghost var t0 := t[..];
    carry := AddLimbs(c, a, t, 4);
    WholeArrays(c, old(a[..]), t0);
    GfpCarry(c, carry);
    ReducedOnce(Num(old(a[..])) - Num(old(b[..])), P);
  }

  lemma ReducedOnce(v: int, p: int)
    requires -p < v < p
    ensures v % p == if v >= 0 then v else v + p
  {
    QuotientUnique(v, p, if v >= 0 then 0 else -1, if v >= 0 then v else v + p);
  }

  // ---------------------------------------------------------------------------------
  // Montgomery multiplication
  // ---------------------------------------------------------------------------------

  /** Adding m * p clears the low 256 bits of n. */
  lemma LowLimbsCancel(n: int, lo: int, hi: int, np: int, m: int, p: int, r: nat)
    requires r > 1 && n == lo + r * hi && (np * p) % r == r - 1 && m == (lo * np) % r
    ensures (n + m * p) % r == 0
  {
    hide Cong;
    NegativeInverse(np * p, r);
    CongMod(lo * np, r);
    CongRefl(p, r);
    CongMul(m, lo * np, p, p, r);
    Rearrange(lo, np, p);
    TimesMinusOne(lo, np * p, r);
    CongTrans(m * p, lo * (np * p), -lo, r);
    CongOf(n, lo, r, hi);
    Cancels(n, m * p, lo, r);
  }

  lemma NegativeInverse(x: int, r: nat)
    requires r > 1 && x % r == r - 1
    ensures Cong(x, -1, r)
  {
    CongMod(x, r);
    CongOf(r - 1, -1, r, 1);
    CongTrans(x, r - 1, -1, r);
  }

  lemma TimesMinusOne(lo: int, x: int, r: nat)
    requires r > 1 && Cong(x, -1, r)
    ensures Cong(lo * x, -lo, r)
  {
    CongRefl(lo, r);
    CongMul(lo, lo, x, -1, r);
  }

  lemma Cancels(n: int, t: int, lo: int, r: nat)
    requires r > 1 && Cong(n, lo, r) && Cong(t, -lo, r)
    ensures (n + t) % r == 0
  {
    CongAdd(n, lo, t, -lo, r);
    CongUnique(n + t, 0, r);
  }

  /** What is left after dropping the low limbs: (n + m * p) / R, before the last subtraction. */
  lemma HighLimbs(t: seq<word>, carry: nat, n: nat, m: nat)
    requires |t| == 8 && Num(t) + R * R * carry == n + m * P && (n + m * P) % R == 0 && m < R && n < R * R
    ensures var v := Num(t[4..]) + R * carry;
            R * v == n + m * P && v < R + P && (n < P * R ==> v < 2 * P)
  {
    NumSplit(t, 4);
    PowersOf64();
    FourLimbs(t[..4]);
    hide Num, Pow;
    var v := Num(t[4..]) + R * carry;
    assert R * v == R * Num(t[4..]) + R * R * carry;
    QuotientUnique(n + m * P, R, v, Num(t[..4]));
    Quotients(v, n, m, R, P);
  }

  lemma Quotients(v: nat, n: nat, m: nat, r: nat, p: nat)
    requires r * v == n + m * p && m < r && n < r * r
    ensures v < r + p && (n < p * r ==> v < 2 * p)
  {
    MulMonotone(p, m, r);
    assert r * (r + p) == r * r + r * p && r * (2 * p) == 2 * (p * r);
    if v >= r + p {
      MulMonotone(r, r + p, v);
    }
    if n < p * r && v >= 2 * p {
      MulMonotone(r, 2 * p, v);
    }
  }

  /** Adds the multiple of p that clears the low limbs of a product. */
  method AddMultipleOfP(wide: seq<word>) returns (t: array<word>, carry: word, ghost m: nat)
    requires |wide| == 8
    ensures fresh(t) && t.Length == 8 && carry <= 1 && m < R
    ensures Num(t[..]) + R * R * carry == Num(wide) + m * P && (Num(wide) + m * P) % R == 0
  {
    hide Num, Pow;
    var mm := HalfMultiply(wide[..4], NP);
    var multiple := Multiply(mm, P2);
    PrimeLimbs();
    m := Num(mm);
    t := new word[8](i requires 0 <= i < 8 => wide[i]);
    var low := new word[8](i requires 0 <= i < 8 => multiple[i]);
    assert t[..8] == wide && low[..8] == multiple;
    carry := AddLimbs(t, t, low, 8);
    assert t[..8] == t[..];
    Reduction(wide, m, t[..], carry);
  }

  /** c = a * b / R mod p; c may be a or b. */
  method GfpMul(c: array<word>, a: array<word>, b: array<word>)
    requires a.Length == b.Length == c.Length == 4
    modifies c
    ensures Cong(Num(c[..]) * R, Num(old(a[..])) * Num(old(b[..])), P)
    ensures Num(old(a[..])) * Num(old(b[..])) < P * R ==> Reduced(c[..])
  {
    hide Num, Pow;
    PrimeLimbs();
    ProductOfLimbs(a[..], b[..]);
    var wide := Multiply(a[..], b[..]);
    var t, carry, m := AddMultipleOfP(wide);
    HighLimbs(t[..], carry, Num(wide), m);
    c[0], c[1], c[2], c[3] := t[4], t[5], t[6], t[7];
    assert c[..] == t[..][4..];
    GfpCarry(c, carry);
    RepresentsQuotient(Num(t[..][4..]) + R * carry, Num(wide), m, Num(c[..]));
  }

  lemma ProductOfLimbs(a: seq<word>, b: seq<word>)
    requires |a| == |b| == 4
    ensures 0 <= Num(a) * Num(b) < R * R
  {
    FourLimbs(a);
    FourLimbs(b);
    ProductBound(Num(a), Num(b), R);
  }

  lemma Reduction(wide: seq<word>, m: nat, total: seq<word>, carry: nat)
    requires |wide| == |total| == 8 && m == (Num(wide[..4]) * Num(NP)) % R
    requires Num(total) + Pow(TWO_64, 8) * carry == Num(wide) + m * P
    ensures Num(total) + R * R * carry == Num(wide) + m * P && (Num(wide) + m * P) % R == 0
  {
    hide Num, Pow;
    PrimeLimbs();
    PowersOf64();
    NumSplit(wide, 4);
    LowLimbsCancel(Num(wide), Num(wide[..4]), Num(wide[4..]), Num(NP), m, P, R);
  }

  lemma RepresentsQuotient(v: nat, n: nat, m: nat, c: nat)
    requires R * v == n + m * P && c == if v >= P then v - P else v
    ensures Cong(c * R, n, P)
  {
    var k := if v >= P then m - R else m;
    assert (v - P) * R == R * v - P * R;
    assert P * (m - R) == m * P - P * R;
    CongOf(c * R, n, P, k);
  }

  // ---------------------------------------------------------------------------------
  // The elements that Montgomery numbers stand for
  // ---------------------------------------------------------------------------------

  /** The field element held as x. */
  function Real(x: nat): (r: nat)
    ensures r < P
  {
    (x * RI) % P
  }

  lemma RadixInverse()
    ensures Cong(R * RI, 1, P) && Cong(RI * R, 1, P)
    ensures Num(RN1) == RI && Cong(Num(R2), R * R, P) && Cong(Num(R3), R * R * R, P)
    ensures Num(R2) < P && Num(R3) < P
  {
    NumOfFour(RN1);
    NumOfFour(R2);
    NumOfFour(R3);
    assert (R * RI) % P == 1 % P;
    assert Num(R2) % P == (R * R) % P;
    assert Num(R3) % P == (R * R * R) % P;
    CongFromMod(R * RI, 1, P);
    CongFromMod(Num(R2), R * R, P);
    CongFromMod(Num(R3), R * R * R, P);
  }

  lemma NumOfFour(s: seq<word>)
    requires |s| == 4
    ensures Num(s) == s[0] + TWO_64 * (s[1] + TWO_64 * (s[2] + TWO_64 * s[3]))
  {
    NumHead(s);
    NumHead(s[1..]);
    NumHead(s[1..][1..]);
    NumHead(s[1..][1..][1..]);
    assert Num(s[1..][1..][1..][1..]) == 0;
  }

  lemma NumHead(s: seq<nat>)
    requires s != []
    ensures Num(s) == s[0] + TWO_64 * Num(s[1..])
  {
  }

  /** y is the Montgomery form of x. */
  ghost predicate Holds(y: int, x: int) { Cong(y, x * R, P) }

  lemma RealIff(x: nat, y: nat)
    requires x < P
    ensures Real(y) == x <==> Holds(y, x)
  {
    RadixInverse();
    CongMod(y * RI, P);
    if Real(y) == x {
      CongRefl(R, P);
      CongMul(y * RI, x, R, R, P);
      UndoRadix(y);
      CongTrans(y, y * RI * R, x * R, P);
    }
    if Cong(y, x * R, P) {
      CongRefl(RI, P);
      CongMul(y, x * R, RI, RI, P);
      CongTrans(Real(y), y * RI, x * R * RI, P);
      Rearrange(x, R, RI);
      CongRefl(x, P);
      CongMul(x, x, R * RI, 1, P);
      CongTrans(Real(y), x * (R * RI), x, P);
      CongUnique(Real(y), x, P);
    }
  }

  lemma UndoRadix(y: nat)
    ensures Cong(y, y * RI * R, P)
  {
    RadixInverse();
    Rearrange(y, RI, R);
    CongRefl(y, P);
    CongMul(y, y, RI * R, 1, P);
    CongSym(y * (RI * R), y, P);
  }

  lemma CancelRadix(x: int, y: int)
    requires Cong(x * R, y * R, P)
    ensures Cong(x, y, P)
  {
    RadixInverse();
    CongCancel(x, y, R, RI, P);
  }

  lemma RealOfReduced(c: int, x: int)
    requires Holds(c, x)
    ensures Real(c % P) == x % P
  {
    hide Cong, Real;
    CongMod(c, P);
    CongMod(x, P);
    CongRefl(R, P);
    CongMul(x, x % P, R, R, P);
    CongTrans(c % P, c, x * R, P);
    CongTrans(c % P, x * R, (x % P) * R, P);
    RealIff(x % P, c % P);
  }

  lemma TimesRadix(x: int, y: int)
    ensures x * R + y * R == (x + y) * R && x * R - y * R == (x - y) * R
  {
  }

  /** What sums, differences and negations hold is the sum, difference and negation of what is held. */
  lemma RealSums(a: nat, b: nat)
    ensures Real((a + b) % P) == (Real(a) + Real(b)) % P
    ensures Real((a - b) % P) == (Real(a) - Real(b)) % P
    ensures Real((P - a) % P) == (0 - Real(a)) % P
  {
    hide Cong, Real;
    var (x, y) := (Real(a), Real(b));
    RealIff(x, a);
    RealIff(y, b);
    CongAdd(a, x * R, b, y * R, P);
    TimesRadix(x, y);
    RealOfReduced(a + b, x + y);
    RealOfReduced(a - b, x - y);
    CongOf(P, 0, P, 1);
    CongAdd(P, 0, a, x * R, P);
    TimesRadix(0, x);
    RealOfReduced(P - a, 0 - x);
  }

  /** A Montgomery product holds the product of what its factors hold. */
  lemma HoldsProduct(a: int, x: int, b: int, y: int, c: int)
    requires Holds(a, x) && Holds(b, y) && Cong(c * R, a * b, P)
    ensures Holds(c, x * y)
  {
    CongMul(a, x * R, b, y * R, P);
    CongTrans(c * R, a * b, (x * R) * (y * R), P);
    FourFactors(x, y, R);
    CancelRadix(c, (x * y) * R);
  }

  lemma FourFactors(x: int, y: int, r: int)
    ensures (x * r) * (y * r) == ((x * y) * r) * r
  {
    assert (x * r) * (y * r) == x * (r * (y * r));
    assert x * (r * (y * r)) == ((x * y) * r) * r;
  }

  lemma MontgomeryProduct(a: nat, b: nat, c: nat)
    requires Cong(c * R, a * b, P)
    ensures Real(c) == (Real(a) * Real(b)) % P
  {
    hide Real, Holds;
    RealIff(Real(a), a);
    RealIff(Real(b), b);
    var x, y := Real(a), Real(b);
    HoldsProduct(a, x, b, y, c);
    HoldsReduced(c, x * y);
    RealIff((x * y) % P, c);
  }

  lemma HoldsReduced(c: int, x: int)
    requires Holds(c, x)
    ensures Holds(c, x % P) && 0 <= x % P < P
  {
    CongMod(x, P);
    CongRefl(R, P);
    CongMul(x, x % P, R, R, P);
    CongTrans(c, x * R, (x % P) * R, P);
  }

  // ---------------------------------------------------------------------------------
  // Conversions and inverses
  // ---------------------------------------------------------------------------------

  method LimbArray(s: seq<word>) returns (p: array<word>)
    requires |s| == 4
    ensures fresh(p) && p.Length == 4 && p[..] == s
  {
    p := new word[4](i requires 0 <= i < 4 => s[i]);
  }

  method MontEncode(c: array<word>, a: array<word>)
    requires c.Length == a.Length == 4
    modifies c
    ensures Reduced(c[..]) && Real(Num(c[..])) == Num(old(a[..])) % P
  {
    hide Num, Real;
    RadixInverse();
    var r2 := LimbArray(R2);
    ghost var a0 := Num(a[..]);
    FourLimbs(a[..]);
    MulMonotone(R, Num(R2), P);
    ProductMonotone(a0, R, Num(R2), P);
    GfpMul(c, a, r2);
    EncodeHolds(a0, Num(c[..]));
  }

  lemma ProductMonotone(x: nat, r: nat, y: nat, p: nat)
    requires x < r && y < p
    ensures x * y < p * r
  {
    MulMonotone(x, y, p);
    assert x * p == p * x;
    MulMonotone(p, x + 1, r);
    assert p * (x + 1) == p * x + p;
  }

  lemma EncodeHolds(a: nat, c: nat)
    requires Cong(c * R, a * Num(R2), P)
    ensures Real(c) == a % P
  {
    hide Num, Real;
    RadixInverse();
    CongRefl(a, P);
    CongMul(a, a, Num(R2), R * R, P);
    CongTrans(c * R, a * Num(R2), a * (R * R), P);
    Rearrange(a, R, R);
    CancelRadix(c, a * R);
    HoldsReduced(c, a);
    RealIff(a % P, c);
  }

  method MontDecode(c: array<word>, a: array<word>)
    requires c.Length == a.Length == 4
    modifies c
    ensures Num(c[..]) == Real(Num(old(a[..])))
  {
    hide Num, Real;
    var one := LimbArray([1, 0, 0, 0]);
    NumOfFour([1, 0, 0, 0]);
    ghost var a0 := Num(a[..]);
    FourLimbs(a[..]);
    ProductMonotone(a0, R, 1, P);
    GfpMul(c, a, one);
    DecodeHolds(a0, Num(c[..]));
  }

  lemma DecodeHolds(a: nat, c: nat)
    requires Cong(c * R, a, P) && c < P
    ensures c == Real(a)
  {
    CongSym(c * R, a, P);
    RealIff(c, a);
  }

  /** p - 2, the exponent of Invert. */
  const BITS: seq<word> := [0x3c208c16d87cfd45, 0x97816a916871ca8d, 0xb85045b68181585d, 0x30644e72e131a029]

  lemma ExponentLimbs()
    ensures Num(BITS) == P - 2
  {
    NumOfFour(BITS);
  }

  /** The exponent's bits below the given one. */
  ghost function BitsBelow(w: nat, bit: nat): nat
    requires w < 4
  {
    Num(BITS[..w]) + Pow(TWO_64, w) * (BITS[w] % Pow2(bit))
  }

  ghost function BitWeight(w: nat, bit: nat): nat { Pow(TWO_64, w) * Pow2(bit) }

  /** The bit the loop reads is the next one of the exponent. */
  lemma NextBit(w: nat, bit: nat)
    requires w < 4 && bit < 64
    ensures BitsBelow(w, bit + 1)
         == BitsBelow(w, bit) + if And(Shr(BITS[w], bit), 1) == 1 then BitWeight(w, bit) else 0
    ensures BitWeight(w, bit + 1) == BitWeight(w, bit) + BitWeight(w, bit)
  {
    var x, d := BITS[w], Pow2(bit);
    assert Pow2(bit + 1) == 2 * d && Pow2(1) == 2;
    Mask(Shr(x, bit), 1);
    hide Pow, Pow2, And;
    BitOf(x, d);
    WeighBit(Pow(TWO_64, w), d, x % d, (x / d) % 2);
    assert Shr(x, bit) == x / d;
    Doubled(Pow(TWO_64, w), d);
  }

  lemma BitOf(x: nat, d: nat)
    requires d > 0
    ensures x % (2 * d) == x % d + d * ((x / d) % 2)
  {
    DivModFacts(x, d);
    DivModFacts(x / d, 2);
    BitQuotient(x, d, x / d / 2, (x / d) % 2, x % d);
  }

  lemma BitQuotient(x: int, d: int, q: int, b: int, r: int)
    requires d > 0 && x == d * (2 * q + b) + r && 0 <= b < 2 && 0 <= r < d
    ensures x % (2 * d) == r + d * b
  {
    assert d * (2 * q + b) == (2 * d) * q + d * b;
    QuotientUnique(x, 2 * d, q, r + d * b);
  }

  lemma WeighBit(p: nat, d: nat, r: nat, b: nat)
    ensures p * (r + d * b) == p * r + (p * d) * b
  {
  }

  lemma Doubled(p: nat, d: nat)
    ensures p * (2 * d) == p * d + p * d
  {
  }

  lemma NextLimb(w: nat)
    requires w < 4
    ensures BitsBelow(w, 0) == Num(BITS[..w]) && BitWeight(w, 0) == Pow(TWO_64, w)
    ensures BitsBelow(w, 64) == Num(BITS[..w + 1]) && BitWeight(w, 64) == Pow(TWO_64, w + 1)
  {
    hide Pow, Pow2, Num;
    Pow2Of64();
    NoBits(BITS[w], Pow(TWO_64, w));
    assert BITS[..w + 1] == BITS[..w] + [BITS[w]];
    LimbAppended(BITS[..w], BITS[w]);
  }

  lemma NoBits(x: word, p: nat)
    ensures x % Pow2(0) == 0 && p * Pow2(0) == p && p * (x % Pow2(0)) == 0
    ensures x % TWO_64 == x
  {
    assert Pow2(0) == 1;
    assert x % 1 == 0;
  }

  lemma LimbAppended(s: seq<word>, x: word)
    ensures Num(s + [x]) == Num(s) + Pow(TWO_64, |s|) * x
    ensures Pow(TWO_64, |s| + 1) == Pow(TWO_64, |s|) * TWO_64
  {
    ValSnoc(s, x, TWO_64);
  }

  /** sum holds x^n / R^2 and power holds x^e: what one multiplication and one squaring do. */
  ghost predicate Powers(x: nat, sum: nat, n: nat, power: nat, e: nat) {
    sum < P && power < P && Cong(sum * R, Pow(x, n), P) && Holds(power, Pow(x, e))
  }

  lemma SumStep(x: nat, sum: nat, n: nat, power: nat, e: nat, sum1: nat)
    requires Powers(x, sum, n, power, e) && Cong(sum1 * R, sum * power, P) && sum1 < P
    ensures Powers(x, sum1, n + e, power, e)
  {
    hide Pow, Cong;
    CongRefl(sum, P);
    CongMul(sum, sum, power, Pow(x, e) * R, P);
    CongTrans(sum1 * R, sum * power, sum * (Pow(x, e) * R), P);
    SwapFactors(sum, Pow(x, e), R);
    CongRefl(Pow(x, e), P);
    CongMul(sum * R, Pow(x, n), Pow(x, e), Pow(x, e), P);
    CongTrans(sum1 * R, (sum * R) * Pow(x, e), Pow(x, n) * Pow(x, e), P);
    PowSum(x, n, e);
  }

  lemma SwapFactors(a: int, b: int, c: int)
    ensures a * (b * c) == (a * c) * b
  {
  }

  lemma CubeApart(a: int, r: int)
    ensures a * (r * r * r) == (a * r) * (r * r)
  {
    Rearrange(a, r, r * r);
    Rearrange(r, r, r);
  }

  lemma PowerStep(x: nat, sum: nat, n: nat, power: nat, e: nat, power1: nat)
    requires Powers(x, sum, n, power, e) && Cong(power1 * R, power * power, P) && power1 < P
    ensures Powers(x, sum, n, power1, e + e)
  {
    hide Pow;
    HoldsProduct(power, Pow(x, e), power, Pow(x, e), power1);
    PowSum(x, e, e);
  }

  lemma SmallProducts(a: nat, b: nat)
    requires a < P && b < P
    ensures a * b < P * R
  {
    ProductMonotone(a, P, b, P);
    MulMonotone(P, P, R);
  }

  /** One turn of Invert's inner loop. */
  method InvertStep(sum: array<word>, power: array<word>, w: nat, bit: nat, ghost x: nat)
    requires sum.Length == power.Length == 4 && sum != power && w < 4 && bit < 64
    requires Powers(x, Num(sum[..]), BitsBelow(w, bit), Num(power[..]), BitWeight(w, bit))
    modifies sum, power
    ensures Powers(x, Num(sum[..]), BitsBelow(w, bit + 1), Num(power[..]), BitWeight(w, bit + 1))
  {
    hide Num, Pow, BitsBelow, BitWeight, Cong, Shr, And;
    NextBit(w, bit);
    ghost var n, e := BitsBelow(w, bit), BitWeight(w, bit);
    ghost var s0, p0 := Num(sum[..]), Num(power[..]);
    if And(Shr(BITS[w], bit), 1) == 1 {
      SmallProducts(s0, p0);
      GfpMul(sum, sum, power);
      SumStep(x, s0, n, p0, e, Num(sum[..]));
      n := n + e;
    }
    SmallProducts(p0, p0);
    GfpMul(power, power, power);
    PowerStep(x, Num(sum[..]), n, p0, e, Num(power[..]));
  }

  /** e = f^(p-2), both in Montgomery form; e may be f. */
  method Invert(e: array<word>, f: array<word>)
    requires e.Length == f.Length == 4 && Reduced(f[..])
    modifies e
    ensures Reduced(e[..]) && Real(Num(e[..])) == Pow(Real(Num(old(f[..]))), P - 2) % P
  {
    hide Num, Pow, BitsBelow, BitWeight, Powers, Real;
    ghost var x := Real(Num(f[..]));
    var sum := LimbArray(RN1);
    var power := LimbArray(f[..]);
    InvertStart(Num(f[..]));
    for w := 0 to 4
      invariant Powers(x, Num(sum[..]), Num(BITS[..w]), Num(power[..]), Pow(TWO_64, w))
    {
      NextLimb(w);
      for bit := 0 to 64
        invariant Powers(x, Num(sum[..]), BitsBelow(w, bit), Num(power[..]), BitWeight(w, bit))
      {
        InvertStep(sum, power, w, bit, x);
      }
    }
    var r3 := LimbArray(R3);
    ghost var s0 := Num(sum[..]);
    InvertEnd(x, s0, Num(BITS[..4]), Num(power[..]), Pow(TWO_64, 4));
    GfpMul(sum, sum, r3);
    assert BITS[..4] == BITS;
    ExponentLimbs();
    InvertHolds(x, s0, P - 2, Num(sum[..]));
    e[0], e[1], e[2], e[3] := sum[0], sum[1], sum[2], sum[3];
    assert e[..] == sum[..];
  }

  lemma InvertStart(f: nat)
    requires f < P
    ensures Powers(Real(f), Num(RN1), Num(BITS[..0]), f, Pow(TWO_64, 0))
  {
    RadixInverse();
    RealIff(Real(f), f);
    PowOne(TWO_64);
    PowOne(Real(f));
    assert Num(BITS[..0]) == 0;
    hide Num, Pow, Real;
  }

  lemma InvertEnd(x: nat, sum: nat, n: nat, power: nat, e: nat)
    requires Powers(x, sum, n, power, e)
    ensures Cong(sum * R, Pow(x, n), P) && sum * Num(R3) < P * R
  {
    RadixInverse();
    SmallProducts(sum, Num(R3));
  }

  lemma InvertHolds(x: nat, sum: nat, n: nat, e: nat)
    requires Cong(sum * R, Pow(x, n), P) && Cong(e * R, sum * Num(R3), P) && e < P
    ensures Real(e) == Pow(x, n) % P
  {
    hide Pow, Num, Real, Cong;
    var y := Pow(x, n);
    RadixInverse();
    CongRefl(sum, P);
    CongMul(sum, sum, Num(R3), R * R * R, P);
    CongTrans(e * R, sum * Num(R3), sum * (R * R * R), P);
    CubeApart(sum, R);
    CongRefl(R * R, P);
    CongMul(sum * R, y, R * R, R * R, P);
    CongTrans(e * R, (sum * R) * (R * R), y * (R * R), P);
    Rearrange(y, R, R);
    CancelRadix(e, y * R);
    HoldsReduced(e, y);
    RealIff(y % P, e);
  }

  /** Where Fermat's little theorem holds for the element, Invert's result is its inverse. */
  lemma InverseByFermat(x: nat, y: nat)
    requires y == Pow(x, P - 2) % P && Pow(x, P - 1) % P == 1
    ensures (x * y) % P == 1
  {
    assert Pow(x, P - 1) == x * Pow(x, P - 2);
    hide Pow;
    CongMod(Pow(x, P - 2), P);
    CongRefl(x, P);
    CongMul(x, x, y, Pow(x, P - 2), P);
    CongUnique(x * y, x * Pow(x, P - 2), P);
  }
}
