// Signed-digit recodings of secp256k1 scalars.
module Wnaf {
  import opened Arith
  import opened Common

  /** The order of the group. */
  const ORDER: nat := 0xFFFFFFFF_FFFFFFFF_FFFFFFFF_FFFFFFFE_BAAEDCE6_AF48A03B_BFD25E8C_D0364141

  /** Scalars are numbers below the order. */
  type scalar = x: int | 0 <= x < ORDER

  const HALF: nat := 0x8000_0000_0000_0000_0000_0000_0000_0000_0000_0000_0000_0000_0000_0000_0000_0000

  function Negate(s: scalar): scalar { if s == 0 then 0 else ORDER - s }

  /** The bits of s from offset on, count of them. */
  function GetBits(s: nat, offset: nat, count: nat): nat { (s / Pow2(offset)) % Pow2(count) }

  /** The number with these digits in base b, least significant first. */
  function Horner(s: seq<int>, b: nat): int {
    if s == [] then 0 else s[0] + b * Horner(s[1..], b)
  }

  lemma {:induction false} HornerSnoc(s: seq<int>, x: int, b: nat)
    ensures Horner(s + [x], b) == Horner(s, b) + Pow(b, |s|) * x
  {
    if s == [] {
      assert Horner([x], b) == x + b * Horner([], b);
    } else {
      assert (s + [x])[1..] == s[1..] + [x];
      HornerSnoc(s[1..], x, b);
      DistributeOver(b, Horner(s[1..], b), Pow(b, |s| - 1), x);
    }
  }

  lemma {:induction false} PowIsPow2(n: nat)
    ensures Pow(2, n) == Pow2(n)
  {
    if n > 0 {
      PowIsPow2(n - 1);
    }
  }

  lemma {:induction false} HornerZeros(s: seq<int>, t: seq<int>, b: nat)
    decreases |t|
    requires forall i :: 0 <= i < |t| ==> t[i] == 0
    ensures Horner(s + t, b) == Horner(s, b)
  {
    if t == [] {
      assert s + t == s;
    } else {
      HornerSnoc(s, t[0], b);
      TimesZero(Pow(b, |s|));
      HornerZeros(s + [t[0]], t[1..], b);
      assert s + t == (s + [t[0]]) + t[1..];
    }
  }

  // ---------------------------------------------------------------------------------
  // Bits
  // ---------------------------------------------------------------------------------

  /** The low n + count bits are the low n and the next count. */
  lemma LowBitsSplit(s: nat, n: nat, count: nat)
    ensures s % Pow2(n + count) == s % Pow2(n) + Pow2(n) * GetBits(s, n, count)
    ensures GetBits(s, n, count) < Pow2(count)
  {
    hide Pow2;
    Pow2Sum(n, count);
    SplitMod(s, Pow2(n), Pow2(count));
  }

  lemma SplitMod(s: nat, a: nat, b: nat)
    requires a > 0 && b > 0
    ensures s % (a * b) == s % a + a * ((s / a) % b)
  {
    var q, r := s / a, s % a;
    DivModFacts(s, a);
    DivModFacts(q, b);
    var (h, l) := (q / b, q % b);
    Regroup(a, b, h, l);
    MulMonotone(a, l, b - 1);
    Last(a, b);
    NotNegative(a, l);
    QuotientUnique(s, a * b, h, r + a * l);
  }

  lemma NotNegative(a: nat, l: int)
    requires l >= 0
    ensures a * l >= 0
  {
  }

  lemma Regroup(a: int, b: int, h: int, l: int)
    ensures a * (b * h + l) == (a * b) * h + a * l
  {
  }

  lemma Last(a: int, b: int)
    ensures a * (b - 1) == a * b - a
  {
  }

  lemma OneBit(s: nat, n: nat)
    ensures GetBits(s, n, 1) <= 1 && s % Pow2(n + 1) == s % Pow2(n) + Pow2(n) * GetBits(s, n, 1)
  {
    LowBitsSplit(s, n, 1);
    assert Pow2(1) == 2;
  }

  /** A field of bits starts with the first of them and its top bit decides its upper half. */
  lemma FieldBits(s: nat, n: nat, count: nat)
    requires count >= 1
    ensures GetBits(s, n, count) % 2 == GetBits(s, n, 1)
    ensures GetBits(s, n, count) >= Pow2(count - 1) <==> GetBits(s, n + count - 1, 1) == 1
  {
    var x := s / Pow2(n);
    assert Pow2(count) == 2 * Pow2(count - 1) && Pow2(1) == 2;
    hide Pow2;
    SplitMod(x, 2, Pow2(count - 1));
    var h := (x / 2) % Pow2(count - 1);
    EvenPart(x % 2, h);
    SplitMod(x, Pow2(count - 1), 2);
    Pow2Sum(n, count - 1);
    DivDiv(s, Pow2(n), Pow2(count - 1));
    TopPart(x % Pow2(count - 1), Pow2(count - 1), (x / Pow2(count - 1)) % 2);
    SwapProduct(Pow2(count - 1));
  }

  lemma SwapProduct(d: int)
    ensures d * 2 == 2 * d
  {
  }

  lemma EvenPart(l: int, h: int)
    requires 0 <= l < 2
    ensures (l + 2 * h) % 2 == l
  {
  }

  lemma TopPart(r: int, d: int, b: int)
    requires 0 <= r < d && 0 <= b < 2
    ensures r + d * b >= d <==> b == 1
  {
    if b == 0 {
      TimesZero(d);
    }
  }

  // ---------------------------------------------------------------------------------
  // The width-w form
  // ---------------------------------------------------------------------------------

  /** An odd number of magnitude below d. */
  predicate OddBelow(x: int, d: int) { x % 2 == 1 && -d < x < d }

  /** Digits are zero, or odd and below half the window; those not zero are at least w apart. */
  ghost predicate WidthForm(s: seq<int>, w: nat)
    requires w >= 1
  {
    (forall i :: 0 <= i < |s| && s[i] != 0 ==> OddBelow(s[i], Pow2(w - 1)))
    && forall i, j :: 0 <= i < j < |s| && s[i] != 0 && s[j] != 0 ==> j - i >= w
  }

  /** What the loop has recoded so far: the low bits of s, but for a carry into the next. */
  ghost predicate Recoded(s: nat, digits: seq<int>, sign: int, carry: int)
  {
    (sign == 1 || sign == -1) && (carry == 0 || carry == 1)
    && s % Pow2(|digits|) == sign * Horner(digits, 2) + carry * Pow2(|digits|)
    && (carry == 1 ==> |digits| >= 1 && GetBits(s, |digits| - 1, 1) == 1)
  }

  /** The window's bits with the carry, the carry they leave, and the digit. */
  function Word(s: nat, bit: nat, now: nat, carry: int): int { GetBits(s, bit, now) + carry }

  function Next(s: nat, bit: nat, now: nat, w: nat, carry: int): int
    requires w >= 1
  {
    if Word(s, bit, now, carry) >= Pow2(w - 1) then 1 else 0
  }

  function Digit(s: nat, bit: nat, now: nat, w: nat, carry: int): int
    requires w >= 1
  {
    Word(s, bit, now, carry) - Next(s, bit, now, w, carry) * Pow2(w)
  }

  lemma Halves(w: nat)
    requires w >= 1
    ensures Pow2(w) == 2 * Pow2(w - 1)
  {
  }

  /** A digit is odd and within the window; it carries only out of a whole window whose top bit is set. */
  lemma DigitFacts(s: nat, bit: nat, now: nat, w: nat, carry: int)
    requires 2 <= w && 1 <= now <= w && (carry == 0 || carry == 1) && GetBits(s, bit, 1) != carry
    ensures OddBelow(Digit(s, bit, now, w, carry), Pow2(w - 1))
    ensures 0 <= Word(s, bit, now, carry) < Pow2(w)
    ensures Next(s, bit, now, w, carry) == 1 ==> now == w && GetBits(s, bit + now - 1, 1) == 1
  {
    hide Pow2, GetBits;
    var field := GetBits(s, bit, now);
    FieldBits(s, bit, now);
    LowBitsSplit(s, bit, now);
    OneBit(s, bit);
    Halves(w);
    Halves(w - 1);
    Halves(now);
    OddSum(field, carry);
    if now < w {
      Pow2Monotone(now, w - 1);
      ShortWord(field, carry, Pow2(now), Pow2(w - 1), Pow2(now - 1));
    } else {
      WholeWord(field, carry, Pow2(w - 1), Pow2(w - 2));
    }
  }

  lemma ShortWord(field: int, carry: int, d: int, h: int, e: int)
    requires 0 <= field < d <= h && (carry == 0 || carry == 1) && (field + carry) % 2 == 1 && d == 2 * e
    ensures 0 <= field + carry < h && OddBelow(field + carry, h)
  {
  }

  lemma WholeWord(field: int, carry: int, h: int, e: int)
    requires 0 <= field < 2 * h && (carry == 0 || carry == 1) && (field + carry) % 2 == 1 && h == 2 * e
    ensures 0 <= field + carry < 2 * h
    ensures OddBelow(if field + carry >= h then field + carry - 2 * h else field + carry, h)
    ensures field + carry >= h ==> field >= h
  {
  }

  lemma OddSum(field: int, carry: int)
    requires field >= 0 && (carry == 0 || carry == 1) && field % 2 != carry
    ensures (field + carry) % 2 == 1
  {
  }

  lemma SkipStep(s: nat, digits: seq<int>, sign: int, carry: int)
    requires Recoded(s, digits, sign, carry) && GetBits(s, |digits|, 1) == carry
    ensures Recoded(s, digits + [0], sign, carry)
  {
    hide Pow2, GetBits, Horner;
    var n := |digits|;
    OneBit(s, n);
    HornerSnoc(digits, 0, 2);
    TimesZero(Pow(2, n));
    Doubles(n);
    CarryAgain(carry, Pow2(n));
  }

  lemma Doubles(n: nat)
    ensures Pow2(n + 1) == 2 * Pow2(n)
  {
  }

  lemma CarryAgain(carry: int, p: int)
    ensures carry * p + p * carry == carry * (2 * p)
  {
  }

  /** A digit and the zeros after it recode now more bits. */
  lemma DigitStep(s: nat, digits: seq<int>, sign: int, carry: int, now: nat, w: nat)
    requires Recoded(s, digits, sign, carry) && 2 <= w && 1 <= now <= w && GetBits(s, |digits|, 1) != carry
    ensures Recoded(s, digits + [sign * Digit(s, |digits|, now, w, carry)] + Zeros(now - 1), sign,
                    Next(s, |digits|, now, w, carry))
  {
    hide Pow2, GetBits, Horner;
    var n := |digits|;
    var (word, next) := (Word(s, n, now, carry), Next(s, n, now, w, carry));
    var digit := sign * Digit(s, n, now, w, carry);
    DigitFacts(s, n, now, w, carry);
    LowBitsSplit(s, n, now);
    HornerSnoc(digits, digit, 2);
    HornerZeros(digits + [digit], Zeros(now - 1), 2);
    PowIsPow2(n);
    Pow2Sum(n, now);
    DigitSum(sign, Horner(digits, 2), carry, Pow2(n), word, next, Pow2(w));
    WordSplit(Pow2(n), GetBits(s, n, now), carry);
    if next == 0 {
      TimesZero(Pow2(n));
    }
  }

  lemma WordSplit(p: int, field: int, carry: int)
    ensures p * (field + carry) == p * field + carry * p
  {
  }

  lemma DigitSum(sign: int, h: int, carry: int, p: int, word: int, next: int, q: int)
    requires sign == 1 || sign == -1
    ensures sign * (h + p * (sign * (word - next * q))) == sign * h + p * word - next * (p * q)
  {
    assert sign * (p * (sign * (word - next * q))) == p * (word - next * q) by { Signs(sign, p, word - next * q); }
    Signed(sign, h, p * (sign * (word - next * q)));
    Product(p, word, next, q);
  }

  lemma Signs(sign: int, p: int, x: int)
    requires sign == 1 || sign == -1
    ensures sign * (p * (sign * x)) == p * x
  {
  }

  lemma Signed(sign: int, x: int, y: int)
    ensures sign * (x + y) == sign * x + sign * y
  {
  }

  lemma Product(p: int, word: int, next: int, q: int)
    ensures p * (word - next * q) == p * word - next * (p * q)
  {
  }

  function Zeros(n: nat): (r: seq<int>)
    ensures |r| == n && forall i :: 0 <= i < n ==> r[i] == 0
  {
    seq(n, _ => 0)
  }

  /** The number recoded: a scalar of the upper half is replaced by its negation. */
  function Folded(a: scalar): nat { if GetBits(a, 255, 1) == 1 then Negate(a) else a }

  function Sign(a: scalar): int { if GetBits(a, 255, 1) == 1 then -1 else 1 }

  lemma PowersOf255()
    ensures Pow2(255) == HALF && Pow2(256) == 2 * HALF && ORDER < 2 * HALF && ORDER - HALF < HALF
  {
    hide Pow2;
    Pow2Of8();
    Pow2Sum(8, 8);
    Pow2Sum(16, 16);
    Pow2Sum(32, 32);
    Pow2Sum(64, 64);
    Pow2Sum(128, 127);
    Pow2Sum(64, 63);
    Pow2Sum(32, 31);
    Pow2Sum(16, 15);
    Pow2Sum(8, 7);
    Halves(256);
    Halves(8);
  }

  /** The folded scalar has at most 255 bits. */
  lemma FoldedIsLow(a: scalar)
    ensures GetBits(a, 255, 1) == (if a >= HALF then 1 else 0) && 0 <= Folded(a) < Pow2(255)
  {
    hide Pow2;
    PowersOf255();
    assert Pow2(1) == 2 by { Pow2Of1(); }
    TopBit(a);
  }

  lemma TopBit(a: nat)
    requires a < 2 * HALF
    ensures (a / HALF) % 2 == if a >= HALF then 1 else 0
  {
    if a >= HALF {
      QuotientUnique(a, HALF, 1, a - HALF);
    } else {
      QuotientUnique(a, HALF, 0, a);
    }
  }

  /** wnaf holds digits up to bit and zeros from there on, the last digit being at last. */
  ghost predicate Partial(wnaf: seq<int>, w: nat, bit: nat, last: int)
    requires w >= 1
  {
    bit <= |wnaf| && -1 <= last < bit && WidthForm(wnaf, w)
    && (forall i :: last < i < |wnaf| ==> wnaf[i] == 0)
    && (last >= 0 ==> wnaf[last] != 0 && (last + w <= bit || bit == |wnaf|))
  }

  lemma PartialDigit(wnaf: seq<int>, w: nat, bit: nat, last: int, digit: int, now: nat)
    requires w >= 1 && Partial(wnaf, w, bit, last) && bit < |wnaf| && OddBelow(digit, Pow2(w - 1))
    requires now == if w > |wnaf| - bit then |wnaf| - bit else w
    ensures Partial(wnaf[bit := digit], w, bit + now, bit)
  {
  }

  lemma PartialSkip(wnaf: seq<int>, w: nat, bit: nat, last: int)
    requires w >= 1 && Partial(wnaf, w, bit, last) && bit < |wnaf|
    ensures Partial(wnaf, w, bit + 1, last)
  {
  }

  lemma SignedOdd(sign: int, x: int, d: int)
    requires (sign == 1 || sign == -1) && OddBelow(x, d)
    ensures OddBelow(sign * x, d)
  {
  }

  lemma DigitPrefix(wnaf: seq<int>, bit: nat, digit: int, now: nat)
    requires now >= 1 && bit + now <= |wnaf| && forall i :: bit <= i < |wnaf| ==> wnaf[i] == 0
    ensures wnaf[bit := digit][..bit + now] == wnaf[..bit] + [digit] + Zeros(now - 1)
  {
  }

  lemma RecodingStart(s: nat, digits: seq<int>, sign: int)
    requires digits == [] && (sign == 1 || sign == -1)
    ensures Recoded(s, digits, sign, 0)
  {
  }

  /**
   * Recodes a scalar into digits of the width-w form. Where the number has fewer bits than there is room
   * for, as every scalar has with 256, the digits stand for exactly it.
   */
  method EcmultWnaf(wnaf: array<int>, a: scalar, w: nat) returns (bits: int)
    requires wnaf.Length <= 256 && 2 <= w <= 31
    modifies wnaf
    ensures WidthForm(wnaf[..], w)
    ensures 0 <= bits <= wnaf.Length && (bits > 0 ==> wnaf[bits - 1] != 0)
    ensures forall i :: bits <= i < wnaf.Length ==> wnaf[i] == 0
    ensures wnaf.Length >= 1 && Folded(a) < Pow2(wnaf.Length - 1) ==> Horner(wnaf[..], 2) == Sign(a) * Folded(a)
    ensures wnaf.Length == 256 ==> Horner(wnaf[..], 2) == if a >= HALF then a - ORDER else a
  {
    hide Pow2, GetBits, Horner, Recoded, Partial, Digit, Next, WidthForm;
    FoldedIsLow(a);
    var s, lastSetBit, bit, sign, carry := a, -1, 0, 1, 0;
    for i := 0 to wnaf.Length
      invariant forall k :: 0 <= k < i ==> wnaf[k] == 0
    {
      wnaf[i] := 0;
    }
    if GetBits(s, 255, 1) == 1 {
      s := Negate(s);
      sign := -1;
    }
    RecodingStart(s, wnaf[..bit], sign);
    NothingYet(wnaf[..], w);
    while bit < wnaf.Length
      invariant 0 <= bit <= wnaf.Length && Recoded(s, wnaf[..bit], sign, carry) && (carry == 0 || carry == 1)
      invariant Partial(wnaf[..], w, bit, lastSetBit) && -1 <= lastSetBit < bit
      invariant forall i :: bit <= i < wnaf.Length ==> wnaf[i] == 0
      decreases wnaf.Length - bit
    {
      if GetBits(s, bit, 1) == carry {
        SkipStep(s, wnaf[..bit], sign, carry);
        PartialSkip(wnaf[..], w, bit, lastSetBit);
        assert wnaf[..bit + 1] == wnaf[..bit] + [0];
        bit := bit + 1;
        continue;
      }
      var now := w;
      if now > wnaf.Length - bit {
        now := wnaf.Length - bit;
      }
      var word := GetBits(s, bit, now) + carry;
      ghost var was := wnaf[..];
      DigitFacts(s, bit, now, w, carry);
      DigitStep(s, wnaf[..bit], sign, carry, now, w);
      SignedOdd(sign, Digit(s, bit, now, w, carry), Pow2(w - 1));
      NextCarry(s, bit, now, w, carry);
      carry := (word / Pow2(w - 1)) % 2;
      word := word - carry * Pow2(w);
      wnaf[bit] := sign * word;
      PartialDigit(was, w, bit, lastSetBit, sign * word, now);
      DigitPrefix(was, bit, sign * word, now);
      assert wnaf[..] == was[bit := sign * word] && was[..bit] == wnaf[..bit];
      lastSetBit := bit;
      bit := bit + now;
    }
    bits := lastSetBit + 1;
    assert wnaf[..bit] == wnaf[..];
    PartialEnd(wnaf[..], w, bit, lastSetBit);
    if wnaf.Length >= 1 && s < Pow2(wnaf.Length - 1) {
      NoCarryLeft(s, wnaf[..], sign, carry);
    }
    PowersOf255();
  }

  lemma NothingYet(wnaf: seq<int>, w: nat)
    requires w >= 1 && forall i :: 0 <= i < |wnaf| ==> wnaf[i] == 0
    ensures Partial(wnaf, w, 0, -1)
  {
  }

  lemma PartialEnd(wnaf: seq<int>, w: nat, bit: nat, last: int)
    requires w >= 1 && Partial(wnaf, w, bit, last)
    ensures WidthForm(wnaf, w) && (last >= 0 ==> wnaf[last] != 0) && forall i :: last < i < |wnaf| ==> wnaf[i] == 0
  {
  }

  /** The carry is the top bit of the word. */
  lemma NextCarry(s: nat, bit: nat, now: nat, w: nat, carry: int)
    requires w >= 1 && 0 <= Word(s, bit, now, carry) < Pow2(w)
    ensures (Word(s, bit, now, carry) / Pow2(w - 1)) % 2 == Next(s, bit, now, w, carry)
    ensures Digit(s, bit, now, w, carry) == Word(s, bit, now, carry) - Next(s, bit, now, w, carry) * Pow2(w)
    ensures Next(s, bit, now, w, carry) == 0 || Next(s, bit, now, w, carry) == 1
  {
    hide Pow2, GetBits;
    Halves(w);
    var word, h := Word(s, bit, now, carry), Pow2(w - 1);
    if word >= h {
      QuotientUnique(word, h, 1, word - h);
    } else {
      QuotientUnique(word, h, 0, word);
    }
  }

  /** A carry out of the last bit would need that bit set. */
  lemma NoCarryLeft(s: nat, digits: seq<int>, sign: int, carry: int)
    requires Recoded(s, digits, sign, carry) && |digits| >= 1 && s < Pow2(|digits| - 1)
    ensures carry == 0 && Horner(digits, 2) == sign * s
  {
    hide Pow2, Horner;
    Halves(|digits|);
    QuotientUnique(s, Pow2(|digits| - 1), 0, s);
    QuotientUnique(s, Pow2(|digits|), 0, s);
    Pow2Of1();
    assert GetBits(s, |digits| - 1, 1) == 0;
    hide GetBits;
    SignTwice(sign, Horner(digits, 2), s);
  }

  lemma SignTwice(sign: int, h: int, s: int)
    requires sign == 1 || sign == -1
    ensures sign * h == s <==> h == sign * s
  {
  }

  // ---------------------------------------------------------------------------------
  // The constant-time form
  // ---------------------------------------------------------------------------------

  function WnafSize(w: nat): nat
    requires w >= 1
  {
    (256 + w - 1) / w
  }

  predicate IsHigh(s: scalar) { s > (ORDER - 1) / 2 }

  /** Which bit is added to make the number odd once it may have been negated. */
  function SkewBit(s: scalar): nat { if IsHigh(s) != (s % 2 == 1) then 1 else 0 }

  /** The odd number that is recoded, and the sign its digits get. */
  function Skewed(s: scalar): int {
    var added := if s == ORDER - 1 then s else s + Pow2(SkewBit(s));
    if IsHigh(s) then ORDER - added else added
  }

  function GlobalSign(s: scalar): int { if IsHigh(s) && s != ORDER - 1 then -1 else 1 }

  lemma SkewPowers()
    ensures Pow2(0) == 1 && Pow2(1) == 2
  {
  }

  /** Skewing makes the number odd and positive, and undoing it gives the scalar back. */
  lemma SkewedFacts(s: scalar)
    ensures Skewed(s) % 2 == 1 && 1 <= Skewed(s) < ORDER && (s != ORDER - 1 ==> s + Pow2(SkewBit(s)) < ORDER)
    ensures GlobalSign(s) * Skewed(s) - Pow2(SkewBit(s)) == if IsHigh(s) then s - ORDER else s
  {
    SkewPowers();
    hide Pow2;
  }

  /** The loop's sum: digits written, the digit in hand and what is still to be shifted out. */
  ghost predicate Pending(t: int, digits: seq<int>, sign: int, base: nat, last: int, rest: int) {
    sign * Horner(digits, base) + Pow(base, |digits|) * (last + base * rest) == t
  }

  /** The digit in hand: odd, and minus one only where the next digit lent it. */
  predicate InHand(u: int, base: int) { u % 2 == 1 && (u == -1 || 1 <= u < base) }

  /** One turn of the loop, on the numbers. */
  lemma PendingStep(t: int, digits: seq<int>, sign: int, base: nat, last: int, rest: nat, u: int, even: int, lent: int)
    requires Pending(t, digits, sign, base, last, rest) && (sign == 1 || sign == -1) && base >= 2
    requires u == rest % base && lent == (if last > 0 then 1 else -1) * even
    ensures Pending(t, digits + [(last - lent * base) * sign], sign, base, u + lent, rest / base)
  {
    hide Horner;
    var d := last - lent * base;
    HornerSnoc(digits, d * sign, base);
    DivModFacts(rest, base);
    var p := Pow(base, |digits|);
    assert Pow(base, |digits| + 1) == base * p;
    hide Pow;
    StepSum(sign, Horner(digits, base), p, d, last, lent, base, u, rest / base, rest);
  }

  lemma StepSum(sign: int, h: int, p: int, d: int, last: int, lent: int, base: int, u: int, q: int, rest: int)
    requires (sign == 1 || sign == -1) && d == last - lent * base && rest == base * q + u
    ensures sign * (h + p * (d * sign)) + (base * p) * (u + lent + base * q) == sign * h + p * (last + base * rest)
  {
    assert sign * (p * (d * sign)) == p * d by { Twice(sign, p, d); }
    Signed(sign, h, p * (d * sign));
    StepProducts(p, d, last, lent, base, u, q, rest);
  }

  lemma Twice(sign: int, p: int, d: int)
    requires sign == 1 || sign == -1
    ensures sign * (p * (d * sign)) == p * d
  {
    if sign == -1 {
      assert p * (d * -1) == -(p * d);
    }
  }

  lemma StepProducts(p: int, d: int, last: int, lent: int, base: int, u: int, q: int, rest: int)
    requires d == last - lent * base && rest == base * q + u
    ensures p * d + (base * p) * (u + lent + base * q) == p * (last + base * rest)
  {
    assert (base * p) * (u + lent + base * q) == p * (base * (u + lent + base * q)) by { Commute(base, p, u + lent + base * q); }
    assert base * (u + lent + base * q) == base * lent + base * rest by { Split(base, lent, u, q, rest); }
    Gather(p, d, base * lent + base * rest);
    assert d + (base * lent + base * rest) == last + base * rest by { SwapProducts(lent, base); }
  }

  lemma SwapProducts(x: int, y: int)
    ensures x * y == y * x
  {
  }

  lemma Commute(b: int, p: int, x: int)
    ensures (b * p) * x == p * (b * x)
  {
  }

  lemma Split(base: int, lent: int, u: int, q: int, rest: int)
    requires rest == base * q + u
    ensures base * (u + lent + base * q) == base * lent + base * rest
  {
    Gather(base, lent, base * q + u);
  }

  lemma Gather(p: int, x: int, y: int)
    ensures p * x + p * y == p * (x + y)
  {
  }

  /** The digit written is odd and below the base, and the next in hand is odd again. */
  lemma DigitInRange(base: int, half: int, last: int, u: int, even: int, lent: int)
    requires base == 2 * half && half >= 1 && InHand(last, base) && 0 <= u < base
    requires even == (if u % 2 == 0 then 1 else 0) && lent == (if last > 0 then 1 else -1) * even
    ensures OddBelow(last - lent * base, base) && last - lent * base != 0 && InHand(u + lent, base)
  {
    if even == 0 {
      assert lent == 0;
    } else if last > 0 {
      assert lent == 1;
    } else {
      assert lent == -1;
    }
  }

  /** After shifting out enough windows nothing is left. */
  lemma NothingRemains(t: nat, w: nat, words: nat)
    requires t < ORDER && w >= 1 && words * w >= 256
    ensures t / Pow2(w * (words + 1)) == 0
  {
    hide Pow2;
    PowersOf255();
    SwapProducts(words, w);
    assert w * (words + 1) == w * words + w;
    Pow2Monotone(256, w * (words + 1));
    QuotientUnique(t, Pow2(w * (words + 1)), 0, t);
  }

  lemma ShiftedAgain(t: nat, w: nat, words: nat, rest: nat)
    requires rest == t / Pow2(w * words)
    ensures rest / Pow2(w) == t / Pow2(w * (words + 1))
  {
    hide Pow2;
    assert w * (words + 1) == w * words + w;
    Pow2Sum(w * words, w);
    DivDiv(t, Pow2(w * words), Pow2(w));
  }

  lemma PendingStart(t: nat, digits: seq<int>, sign: int, base: nat)
    requires digits == [] && base >= 2
    ensures Pending(t, digits, sign, base, t % base, t / base)
  {
    DivModFacts(t, base);
    TimesZero(sign);
  }

  lemma PendingEnd(t: int, digits: seq<int>, sign: int, base: nat, last: int)
    requires Pending(t, digits, sign, base, last, 0) && (sign == 1 || sign == -1)
    ensures Horner(digits + [last * sign], base) == sign * t
  {
    hide Horner;
    HornerSnoc(digits, last * sign, base);
    hide Pow;
    EndSum(sign, Horner(digits, base), Pow(base, |digits|), last, t);
    TimesZero(base);
  }

  lemma EndSum(sign: int, h: int, p: int, last: int, t: int)
    requires (sign == 1 || sign == -1) && sign * h + p * (last + 0) == t
    ensures h + p * (last * sign) == sign * t
  {
    if sign == -1 {
      assert p * (last * -1) == -(p * last);
    }
  }

  lemma WordCount(w: nat, word: nat)
    requires w >= 1 && word <= WnafSize(w)
    ensures word * w < 256 <==> word < WnafSize(w)
  {
    var n := WnafSize(w);
    DivModFacts(256 + w - 1, w);
    SwapProducts(n, w);
    SwapProducts(word, w);
    if word < n {
      MulMonotone(w, word, n - 1);
      assert w * (n - 1) == w * n - w;
    }
  }

  predicate AllOdd(digits: seq<int>, base: int) {
    forall i :: 0 <= i < |digits| ==> OddBelow(digits[i], base) && digits[i] != 0
  }

  /** Adds one or two to make the number odd, negates it if it is high. */
  method Skew(scalar0: scalar) returns (s: nat, globalSign: int, skew: int)
    ensures s == Skewed(scalar0) && globalSign == GlobalSign(scalar0) && skew == Pow2(SkewBit(scalar0))
    ensures skew == 1 || skew == 2
  {
    SkewedFacts(scalar0);
    SkewPowers();
    hide Pow2;
    var flip := IsHigh(scalar0);
    var bit := if flip != (scalar0 % 2 != 0) then 1 else 0;
    var notNegOne := Negate(scalar0) != 1;
    s := scalar0;
    if notNegOne {
      s := s + Pow2(bit);
    }
    if flip {
      s := ORDER - s;
    }
    globalSign := if flip then -1 else 1;
    globalSign := globalSign * (if notNegOne then 1 else -1);
    skew := Pow2(bit);
  }

  /** The next digit in hand, the digit to be written and what is left to shift out. */
  method NextDigit(s: nat, uLast: int, w: nat, ghost t: nat, ghost digits: seq<int>, ghost sign: int)
    returns (rest: nat, u: int, digit: int)
    requires 1 <= w && (sign == 1 || sign == -1) && InHand(uLast, Pow2(w)) && s == t / Pow2(w * (|digits| + 1))
    requires Pending(t, digits, sign, Pow2(w), uLast, s)
    ensures rest == t / Pow2(w * (|digits| + 2)) && InHand(u, Pow2(w)) && OddBelow(digit, Pow2(w)) && digit != 0
    ensures Pending(t, digits + [digit * sign], sign, Pow2(w), u, rest)
  {
    hide Pow2, Horner, Pending, Pow, OddBelow, InHand;
    Halves(w);
    ShiftedAgain(t, w, |digits| + 1, s);
    DivModFacts(s, Pow2(w));
    u := s % Pow2(w);
    rest := s / Pow2(w);
    var even := if u % 2 == 0 then 1 else 0;
    var lend := if uLast > 0 then 1 else -1;
    PendingStep(t, digits, sign, Pow2(w), uLast, s, u, even, lend * even);
    DigitInRange(Pow2(w), Pow2(w - 1), uLast, u, even, lend * even);
    u := u + lend * even;
    digit := uLast - lend * even * Pow2(w);
  }

  /** Recodes any scalar, zero and minus one included, into odd digits that stand for it plus the skew. */
  method WnafConst(wnaf: array<int>, scalar0: scalar, w: nat) returns (skew: int)
    requires 1 <= w <= 15 && wnaf.Length == WnafSize(w) + 1
    modifies wnaf
    ensures AllOdd(wnaf[..], Pow2(w))
    ensures skew == 1 || skew == 2
    ensures Horner(wnaf[..], Pow2(w)) - skew == if IsHigh(scalar0) then scalar0 - ORDER else scalar0
  {
    hide Pow2, Horner, Pending, Pow, OddBelow, InHand, Skewed, GlobalSign, SkewBit;
    SkewedFacts(scalar0);
    var s, globalSign;
    s, globalSign, skew := Skew(scalar0);
    SignIsOne(scalar0);
    ghost var t := s;
    Halves(w);
    PendingStart(t, wnaf[..0], globalSign, Pow2(w));
    FirstInHand(t, Pow2(w), Pow2(w - 1));
    var uLast := s % Pow2(w);
    s := s / Pow2(w);
    var word := 0;
    assert w * (0 + 1) == w;
    WordCount(w, 0);
    while word * w < 256
      invariant 0 <= word <= WnafSize(w) && s == t / Pow2(w * (word + 1))
      invariant Pending(t, wnaf[..word], globalSign, Pow2(w), uLast, s) && InHand(uLast, Pow2(w))
      invariant AllOdd(wnaf[..word], Pow2(w))
      decreases WnafSize(w) - word
    {
      WordCount(w, word);
      ghost var digits := wnaf[..word];
      var rest, u, digit := NextDigit(s, uLast, w, t, digits, globalSign);
      SignedDigit(globalSign, digit, Pow2(w));
      wnaf[word] := digit * globalSign;
      word := word + 1;
      assert wnaf[..word] == digits + [digit * globalSign];
      s, uLast := rest, u;
    }
    WordCount(w, word);
    NothingRemains(t, w, word);
    HandIsDigit(uLast, Pow2(w), globalSign);
    PendingEnd(t, wnaf[..word], globalSign, Pow2(w), uLast);
    wnaf[word] := uLast * globalSign;
    assert wnaf[..] == wnaf[..word] + [uLast * globalSign];
  }

  lemma SignIsOne(s: scalar)
    ensures GlobalSign(s) == 1 || GlobalSign(s) == -1
  {
  }

  lemma FirstInHand(t: int, base: int, half: int)
    requires t % 2 == 1 && base == 2 * half && half >= 1
    ensures InHand(t % base, base) && 0 <= t % base
  {
    DivModFacts(t, base);
    OddPart(t, half, t / base, t % base);
  }

  lemma OddPart(t: int, half: int, q: int, r: int)
    requires t == (2 * half) * q + r && t % 2 == 1 && r >= 0
    ensures r % 2 == 1
  {
    assert (2 * half) * q == 2 * (half * q);
  }

  lemma SignedDigit(sign: int, d: int, base: int)
    requires (sign == 1 || sign == -1) && OddBelow(d, base) && d != 0
    ensures OddBelow(d * sign, base) && d * sign != 0
  {
  }

  lemma HandIsDigit(u: int, base: int, sign: int)
    requires InHand(u, base) && (sign == 1 || sign == -1) && base >= 2
    ensures OddBelow(u * sign, base) && u * sign != 0
  {
  }
}
