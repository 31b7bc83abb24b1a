// What the step mappings do to single bits, as FIPS 202, section 3.2, states them, and the first lanes
// of the permutation of the zero state.
module KeccakBits {
  import opened Keccak

  // ---------------------------------------------------------------------------------
  // Bits
  // ---------------------------------------------------------------------------------

  predicate Odd(x: lane) { x & 1 == 1 }

  function Half(x: lane): lane { x >> 1 }

  /** Bit z of a lane, the least significant one first. */
  predicate Lit(x: lane, z: nat) { if z == 0 then Odd(x) else Lit(Half(x), z - 1) }

  lemma ShiftsXor(x: lane, y: lane)
    ensures Half(x ^ y) == Half(x) ^ Half(y)
    ensures Odd(x ^ y) <==> (Odd(x) != Odd(y))
  {
  }

  lemma XorHalves(x: lane, y: lane)
    ensures Half(Xor(x, y)) == Xor(Half(x), Half(y))
    ensures Odd(Xor(x, y)) <==> (Odd(x) != Odd(y))
  {
    ShiftsXor(x, y);
    hide Half, Odd;
  }

  lemma {:induction false} XorLit(x: lane, y: lane, z: nat)
    ensures Lit(Xor(x, y), z) <==> (Lit(x, z) != Lit(y, z))
    decreases z
  {
    hide Half, Odd, Xor;
    XorHalves(x, y);
    if z > 0 {
      XorLit(Half(x), Half(y), z - 1);
    }
  }

  lemma ShiftsMix(b0: lane, b1: lane, b2: lane)
    ensures Half(b0 ^ (b2 & !b1)) == Half(b0) ^ (Half(b2) & !Half(b1))
    ensures Odd(b0 ^ (b2 & !b1)) <==> (Odd(b0) != (!Odd(b1) && Odd(b2)))
  {
  }

  lemma MixHalves(b0: lane, b1: lane, b2: lane)
    ensures Half(Mix(b0, b1, b2)) == Mix(Half(b0), Half(b1), Half(b2))
    ensures Odd(Mix(b0, b1, b2)) <==> (Odd(b0) != (!Odd(b1) && Odd(b2)))
  {
    ShiftsMix(b0, b1, b2);
    hide Half, Odd;
  }

  /** A bit of the chi step: the bit, and the two to its right. */
  lemma {:induction false} MixLit(b0: lane, b1: lane, b2: lane, z: nat)
    ensures Lit(Mix(b0, b1, b2), z) <==> (Lit(b0, z) != (!Lit(b1, z) && Lit(b2, z)))
    decreases z
  {
    hide Half, Odd, Mix;
    MixHalves(b0, b1, b2);
    if z > 0 {
      MixLit(Half(b0), Half(b1), Half(b2), z - 1);
    }
  }

  // ---------------------------------------------------------------------------------
  // Rotation
  // ---------------------------------------------------------------------------------

  function And(x: lane, y: lane): lane { x & y }

  /** The k lowest bits. */
  function Low(k: nat): lane { if k == 0 then 0 else (Low(k - 1) << 1) | 1 }

  lemma LowShifts(x: lane, l: lane)
    ensures (x & ((l << 1) | 1)) >> 1 == (x >> 1) & l
    ensures (x & ((l << 1) | 1)) & 1 == x & 1
  {
  }

  function Longer(l: lane): lane { (l << 1) | 1 }

  lemma LowHalves(x: lane, l: lane)
    ensures Half(And(x, Longer(l))) == And(Half(x), l)
    ensures Odd(And(x, Longer(l))) == Odd(x)
  {
    LowShifts(x, l);
  }

  lemma LowLonger(k: nat)
    ensures Low(k) == if k == 0 then 0 else Longer(Low(k - 1))
  {
  }

  lemma {:induction false} NoBits(z: nat)
    ensures !Lit(0, z)
  {
    assert Half(0) == 0 && !Odd(0);
    hide Half, Odd;
    if z > 0 {
      NoBits(z - 1);
    }
  }

  lemma Nothing(x: lane)
    ensures And(x, 0) == 0
  {
  }

  /** Masking with the k lowest bits keeps them and clears the others. */
  lemma {:induction false} LowLit(x: lane, k: nat, z: nat)
    ensures Lit(And(x, Low(k)), z) <==> z < k && Lit(x, z)
    decreases z
  {
    LowLonger(k);
    hide Half, Odd, And, Low, Longer;
    if k == 0 {
      Nothing(x);
      NoBits(z);
    } else {
      LowHalves(x, Low(k - 1));
      if z > 0 {
        LowLit(Half(x), k - 1, z - 1);
      }
    }
  }

  lemma LowOfLane()
    ensures Low(63) == 0x7fff_ffff_ffff_ffff
  {
    assert Low(8) == 0xff;
    assert Low(16) == 0xffff;
    assert Low(24) == 0xff_ffff;
    assert Low(32) == 0xffff_ffff;
    assert Low(40) == 0xff_ffff_ffff;
    assert Low(48) == 0xffff_ffff_ffff;
    assert Low(56) == 0xff_ffff_ffff_ffff;
  }

  lemma TopAlone()
    ensures Lit(0x8000_0000_0000_0000, 63)
  {
    assert Lit(0x80, 7);
    assert Lit(0x8000, 15);
    assert Lit(0x80_0000, 23);
    assert Lit(0x8000_0000, 31);
    assert Lit(0x80_0000_0000, 39);
    assert Lit(0x8000_0000_0000, 47);
    assert Lit(0x80_0000_0000_0000, 55);
  }

  lemma WithoutTop(x: lane)
    requires x < 0x8000_0000_0000_0000
    ensures x == (x & 0x7fff_ffff_ffff_ffff) ^ 0
  {
  }

  lemma WithTop(x: lane)
    requires x >= 0x8000_0000_0000_0000
    ensures x == (x & 0x7fff_ffff_ffff_ffff) ^ 0x8000_0000_0000_0000
  {
  }

  lemma Parts(x: lane)
    ensures x == Xor(And(x, 0x7fff_ffff_ffff_ffff), if x < 0x8000_0000_0000_0000 then 0 else 0x8000_0000_0000_0000)
  {
    if x < 0x8000_0000_0000_0000 {
      WithoutTop(x);
    } else {
      WithTop(x);
    }
  }

  lemma TopBit(x: lane)
    ensures Lit(x, 63) <==> x >= 0x8000_0000_0000_0000
  {
    Parts(x);
    LowOfLane();
    LowLit(x, 63, 63);
    TopAlone();
    NoBits(63);
    var low, top := And(x, 0x7fff_ffff_ffff_ffff), if x < 0x8000_0000_0000_0000 then 0 else 0x8000_0000_0000_0000;
    XorLit(low, top, 63);
    hide Half, Odd, And, Low, Xor, Lit;
  }

  lemma TurnShifts(x: lane)
    ensures Half((x << 1) | (x >> 63)) == And(x, 0x7fff_ffff_ffff_ffff)
    ensures Odd((x << 1) | (x >> 63)) <==> x >= 0x8000_0000_0000_0000
  {
  }

  lemma TurnHalves(x: lane)
    ensures Half(Rotl(x, 1)) == And(x, 0x7fff_ffff_ffff_ffff)
    ensures Odd(Rotl(x, 1)) <==> x >= 0x8000_0000_0000_0000
  {
    TurnShifts(x);
    assert Rotl(x, 1) == (x << 1) | (x >> 63);
    hide Half, Odd, And, Rotl;
  }

  lemma LitFirst(x: lane)
    ensures Lit(x, 0) <==> Odd(x)
  {
  }

  lemma LitNext(x: lane, z: nat)
    ensures Lit(x, z + 1) <==> Lit(Half(x), z)
  {
  }

  lemma LowKept(x: lane, z: nat)
    requires z < 63
    ensures Lit(And(x, 0x7fff_ffff_ffff_ffff), z) <==> Lit(x, z)
  {
    LowOfLane();
    hide Lit, And, Low;
    LowLit(x, 63, z);
  }

  lemma TurnLitNext(x: lane, z: nat)
    requires z < 63
    ensures Lit(Rotl(x, 1), z + 1) <==> Lit(x, z)
  {
    hide Half, Odd, And, Rotl, Lit;
    TurnHalves(x);
    LitNext(Rotl(x, 1), z);
    LowKept(x, z);
  }

  lemma TurnLitFirst(x: lane)
    ensures Lit(Rotl(x, 1), 0) <==> Lit(x, 63)
  {
    hide Half, Odd, And, Rotl, Lit;
    TurnHalves(x);
    LitFirst(Rotl(x, 1));
    TopBit(x);
  }

  /** Rotating by one moves every bit one place up, and the last to the front. */
  lemma TurnLit(x: lane, z: nat)
    requires z < 64
    ensures Lit(Rotl(x, 1), (z + 1) % 64) <==> Lit(x, z)
  {
    hide Rotl, Lit;
    if z == 63 {
      TurnLitFirst(x);
    } else {
      TurnLitNext(x, z);
    }
  }

  lemma NoTurn(x: lane)
    ensures Rotl(x, 0) == x
  {
  }

  lemma Shifts1(x: lane)
    ensures Rotl(x, 1) == (x << 1) | (x >> 63) && Rotl((x << 1) | (x >> 63), 1) == (x << 2) | (x >> 62)
    ensures Rotl(x, 2) == (x << 2) | (x >> 62) && Rotl((x << 2) | (x >> 62), 1) == (x << 3) | (x >> 61)
    ensures Rotl(x, 3) == (x << 3) | (x >> 61) && Rotl((x << 3) | (x >> 61), 1) == (x << 4) | (x >> 60)
    ensures Rotl(x, 4) == (x << 4) | (x >> 60) && Rotl((x << 4) | (x >> 60), 1) == (x << 5) | (x >> 59)
    ensures Rotl(x, 5) == (x << 5) | (x >> 59) && Rotl((x << 5) | (x >> 59), 1) == (x << 6) | (x >> 58)
    ensures Rotl(x, 6) == (x << 6) | (x >> 58) && Rotl((x << 6) | (x >> 58), 1) == (x << 7) | (x >> 57)
    ensures Rotl(x, 7) == (x << 7) | (x >> 57) && Rotl((x << 7) | (x >> 57), 1) == (x << 8) | (x >> 56)
    ensures Rotl(x, 8) == (x << 8) | (x >> 56) && Rotl((x << 8) | (x >> 56), 1) == (x << 9) | (x >> 55)
    ensures Rotl(x, 9) == (x << 9) | (x >> 55) && Rotl((x << 9) | (x >> 55), 1) == (x << 10) | (x >> 54)
    ensures Rotl(x, 10) == (x << 10) | (x >> 54) && Rotl((x << 10) | (x >> 54), 1) == (x << 11) | (x >> 53)
    ensures Rotl(x, 11) == (x << 11) | (x >> 53) && Rotl((x << 11) | (x >> 53), 1) == (x << 12) | (x >> 52)
    ensures Rotl(x, 12) == (x << 12) | (x >> 52) && Rotl((x << 12) | (x >> 52), 1) == (x << 13) | (x >> 51)
    ensures Rotl(x, 13) == (x << 13) | (x >> 51) && Rotl((x << 13) | (x >> 51), 1) == (x << 14) | (x >> 50)
    ensures Rotl(x, 14) == (x << 14) | (x >> 50) && Rotl((x << 14) | (x >> 50), 1) == (x << 15) | (x >> 49)
    ensures Rotl(x, 15) == (x << 15) | (x >> 49) && Rotl((x << 15) | (x >> 49), 1) == (x << 16) | (x >> 48)
  {
  }

  lemma Shifts2(x: lane)
    ensures Rotl(x, 16) == (x << 16) | (x >> 48) && Rotl((x << 16) | (x >> 48), 1) == (x << 17) | (x >> 47)
    ensures Rotl(x, 17) == (x << 17) | (x >> 47) && Rotl((x << 17) | (x >> 47), 1) == (x << 18) | (x >> 46)
    ensures Rotl(x, 18) == (x << 18) | (x >> 46) && Rotl((x << 18) | (x >> 46), 1) == (x << 19) | (x >> 45)
    ensures Rotl(x, 19) == (x << 19) | (x >> 45) && Rotl((x << 19) | (x >> 45), 1) == (x << 20) | (x >> 44)
    ensures Rotl(x, 20) == (x << 20) | (x >> 44) && Rotl((x << 20) | (x >> 44), 1) == (x << 21) | (x >> 43)
    ensures Rotl(x, 21) == (x << 21) | (x >> 43) && Rotl((x << 21) | (x >> 43), 1) == (x << 22) | (x >> 42)
    ensures Rotl(x, 22) == (x << 22) | (x >> 42) && Rotl((x << 22) | (x >> 42), 1) == (x << 23) | (x >> 41)
    ensures Rotl(x, 23) == (x << 23) | (x >> 41) && Rotl((x << 23) | (x >> 41), 1) == (x << 24) | (x >> 40)
    ensures Rotl(x, 24) == (x << 24) | (x >> 40) && Rotl((x << 24) | (x >> 40), 1) == (x << 25) | (x >> 39)
    ensures Rotl(x, 25) == (x << 25) | (x >> 39) && Rotl((x << 25) | (x >> 39), 1) == (x << 26) | (x >> 38)
    ensures Rotl(x, 26) == (x << 26) | (x >> 38) && Rotl((x << 26) | (x >> 38), 1) == (x << 27) | (x >> 37)
    ensures Rotl(x, 27) == (x << 27) | (x >> 37) && Rotl((x << 27) | (x >> 37), 1) == (x << 28) | (x >> 36)
    ensures Rotl(x, 28) == (x << 28) | (x >> 36) && Rotl((x << 28) | (x >> 36), 1) == (x << 29) | (x >> 35)
    ensures Rotl(x, 29) == (x << 29) | (x >> 35) && Rotl((x << 29) | (x >> 35), 1) == (x << 30) | (x >> 34)
    ensures Rotl(x, 30) == (x << 30) | (x >> 34) && Rotl((x << 30) | (x >> 34), 1) == (x << 31) | (x >> 33)
    ensures Rotl(x, 31) == (x << 31) | (x >> 33) && Rotl((x << 31) | (x >> 33), 1) == (x << 32) | (x >> 32)
  {
  }

  lemma Shifts3(x: lane)
    ensures Rotl(x, 32) == (x << 32) | (x >> 32) && Rotl((x << 32) | (x >> 32), 1) == (x << 33) | (x >> 31)
    ensures Rotl(x, 33) == (x << 33) | (x >> 31) && Rotl((x << 33) | (x >> 31), 1) == (x << 34) | (x >> 30)
    ensures Rotl(x, 34) == (x << 34) | (x >> 30) && Rotl((x << 34) | (x >> 30), 1) == (x << 35) | (x >> 29)
    ensures Rotl(x, 35) == (x << 35) | (x >> 29) && Rotl((x << 35) | (x >> 29), 1) == (x << 36) | (x >> 28)
    ensures Rotl(x, 36) == (x << 36) | (x >> 28) && Rotl((x << 36) | (x >> 28), 1) == (x << 37) | (x >> 27)
    ensures Rotl(x, 37) == (x << 37) | (x >> 27) && Rotl((x << 37) | (x >> 27), 1) == (x << 38) | (x >> 26)
    ensures Rotl(x, 38) == (x << 38) | (x >> 26) && Rotl((x << 38) | (x >> 26), 1) == (x << 39) | (x >> 25)
    ensures Rotl(x, 39) == (x << 39) | (x >> 25) && Rotl((x << 39) | (x >> 25), 1) == (x << 40) | (x >> 24)
    ensures Rotl(x, 40) == (x << 40) | (x >> 24) && Rotl((x << 40) | (x >> 24), 1) == (x << 41) | (x >> 23)
    ensures Rotl(x, 41) == (x << 41) | (x >> 23) && Rotl((x << 41) | (x >> 23), 1) == (x << 42) | (x >> 22)
    ensures Rotl(x, 42) == (x << 42) | (x >> 22) && Rotl((x << 42) | (x >> 22), 1) == (x << 43) | (x >> 21)
    ensures Rotl(x, 43) == (x << 43) | (x >> 21) && Rotl((x << 43) | (x >> 21), 1) == (x << 44) | (x >> 20)
    ensures Rotl(x, 44) == (x << 44) | (x >> 20) && Rotl((x << 44) | (x >> 20), 1) == (x << 45) | (x >> 19)
    ensures Rotl(x, 45) == (x << 45) | (x >> 19) && Rotl((x << 45) | (x >> 19), 1) == (x << 46) | (x >> 18)
    ensures Rotl(x, 46) == (x << 46) | (x >> 18) && Rotl((x << 46) | (x >> 18), 1) == (x << 47) | (x >> 17)
    ensures Rotl(x, 47) == (x << 47) | (x >> 17) && Rotl((x << 47) | (x >> 17), 1) == (x << 48) | (x >> 16)
  {
  }

  lemma Shifts4(x: lane)
    ensures Rotl(x, 48) == (x << 48) | (x >> 16) && Rotl((x << 48) | (x >> 16), 1) == (x << 49) | (x >> 15)
    ensures Rotl(x, 49) == (x << 49) | (x >> 15) && Rotl((x << 49) | (x >> 15), 1) == (x << 50) | (x >> 14)
    ensures Rotl(x, 50) == (x << 50) | (x >> 14) && Rotl((x << 50) | (x >> 14), 1) == (x << 51) | (x >> 13)
    ensures Rotl(x, 51) == (x << 51) | (x >> 13) && Rotl((x << 51) | (x >> 13), 1) == (x << 52) | (x >> 12)
    ensures Rotl(x, 52) == (x << 52) | (x >> 12) && Rotl((x << 52) | (x >> 12), 1) == (x << 53) | (x >> 11)
    ensures Rotl(x, 53) == (x << 53) | (x >> 11) && Rotl((x << 53) | (x >> 11), 1) == (x << 54) | (x >> 10)
    ensures Rotl(x, 54) == (x << 54) | (x >> 10) && Rotl((x << 54) | (x >> 10), 1) == (x << 55) | (x >> 9)
    ensures Rotl(x, 55) == (x << 55) | (x >> 9) && Rotl((x << 55) | (x >> 9), 1) == (x << 56) | (x >> 8)
    ensures Rotl(x, 56) == (x << 56) | (x >> 8) && Rotl((x << 56) | (x >> 8), 1) == (x << 57) | (x >> 7)
    ensures Rotl(x, 57) == (x << 57) | (x >> 7) && Rotl((x << 57) | (x >> 7), 1) == (x << 58) | (x >> 6)
    ensures Rotl(x, 58) == (x << 58) | (x >> 6) && Rotl((x << 58) | (x >> 6), 1) == (x << 59) | (x >> 5)
    ensures Rotl(x, 59) == (x << 59) | (x >> 5) && Rotl((x << 59) | (x >> 5), 1) == (x << 60) | (x >> 4)
    ensures Rotl(x, 60) == (x << 60) | (x >> 4) && Rotl((x << 60) | (x >> 4), 1) == (x << 61) | (x >> 3)
    ensures Rotl(x, 61) == (x << 61) | (x >> 3) && Rotl((x << 61) | (x >> 3), 1) == (x << 62) | (x >> 2)
    ensures Rotl(x, 62) == (x << 62) | (x >> 2) && Rotl((x << 62) | (x >> 2), 1) == (x << 63) | (x >> 1)
    ensures Rotl(x, 63) == (x << 63) | (x >> 1)
  {
  }

  /** One more place is one more rotation by one. */
  predicate Turns(x: lane, n: nat) { n < 63 && Rotl(x, n + 1) == Rotl(Rotl(x, n), 1) }

  lemma Turned1(x: lane, n: nat)
    requires 1 <= n < 16
    ensures Turns(x, n)
  {
    hide Rotl;
    Shifts1(x);
    Shifts2(x);
    assert Turns(x, 1) && Turns(x, 2) && Turns(x, 3) && Turns(x, 4);
    assert Turns(x, 5) && Turns(x, 6) && Turns(x, 7) && Turns(x, 8);
    assert Turns(x, 9) && Turns(x, 10) && Turns(x, 11) && Turns(x, 12) && Turns(x, 13) && Turns(x, 14) && Turns(x, 15);
    hide Turns;
  }

  lemma Turned2(x: lane, n: nat)
    requires 16 <= n < 32
    ensures Turns(x, n)
  {
    hide Rotl;
    Shifts2(x);
    Shifts3(x);
    assert Turns(x, 16) && Turns(x, 17) && Turns(x, 18) && Turns(x, 19);
    assert Turns(x, 20) && Turns(x, 21) && Turns(x, 22) && Turns(x, 23);
    assert Turns(x, 24) && Turns(x, 25) && Turns(x, 26) && Turns(x, 27);
    assert Turns(x, 28) && Turns(x, 29) && Turns(x, 30) && Turns(x, 31);
    hide Turns;
  }

  lemma Turned3(x: lane, n: nat)
    requires 32 <= n < 48
    ensures Turns(x, n)
  {
    hide Rotl;
    Shifts3(x);
    Shifts4(x);
    assert Turns(x, 32) && Turns(x, 33) && Turns(x, 34) && Turns(x, 35);
    assert Turns(x, 36) && Turns(x, 37) && Turns(x, 38) && Turns(x, 39);
    assert Turns(x, 40) && Turns(x, 41) && Turns(x, 42) && Turns(x, 43);
    assert Turns(x, 44) && Turns(x, 45) && Turns(x, 46) && Turns(x, 47);
    hide Turns;
  }

  lemma Turned4(x: lane, n: nat)
    requires 48 <= n < 63
    ensures Turns(x, n)
  {
    hide Rotl;
    Shifts4(x);
    assert Turns(x, 48) && Turns(x, 49) && Turns(x, 50) && Turns(x, 51);
    assert Turns(x, 52) && Turns(x, 53) && Turns(x, 54) && Turns(x, 55);
    assert Turns(x, 56) && Turns(x, 57) && Turns(x, 58) && Turns(x, 59) && Turns(x, 60) && Turns(x, 61) && Turns(x, 62);
    hide Turns;
  }

  lemma OneMore(x: lane, n: nat)
    requires n < 63
    ensures Rotl(x, n + 1) == Rotl(Rotl(x, n), 1)
  {
    NoTurn(x);
    hide Rotl;
    if 1 <= n < 16 {
      Turned1(x, n);
    } else if 16 <= n < 32 {
      Turned2(x, n);
    } else if 32 <= n < 48 {
      Turned3(x, n);
    } else if 48 <= n {
      Turned4(x, n);
    }
  }

  lemma OnePlaceMore(z: nat, n: nat)
    ensures ((z + n) % 64 + 1) % 64 == (z + n + 1) % 64
  {
  }

  /** Rotating by n moves every bit n places up, and the last n to the front. */
  lemma {:induction false} RotlLit(x: lane, n: nat, z: nat)
    requires n < 64 && z < 64
    ensures Lit(Rotl(x, n), (z + n) % 64) <==> Lit(x, z)
  {
    hide Rotl, Lit;
    if n == 0 {
      NoTurn(x);
    } else {
      RotlLit(x, n - 1, z);
      OneMore(x, n - 1);
      TurnLit(Rotl(x, n - 1), (z + n - 1) % 64);
      OnePlaceMore(z, n - 1);
    }
  }

  lemma Doubled(x: lane)
    ensures ((x << 1) | (x >> 63)) as nat
         == if x as nat < 0x8000_0000_0000_0000 then 2 * (x as nat) else 2 * (x as nat) + 1 - 0x1_0000_0000_0000_0000
  {
  }

  /** As a number, rotating by one doubles modulo the lane size and adds the top bit. */
  lemma RotlNumber(x: lane)
    ensures Rotl(x, 1) as nat == (2 * (x as nat)) % 0x1_0000_0000_0000_0000 + (x as nat) / 0x8000_0000_0000_0000
  {
    Doubled(x);
    assert Rotl(x, 1) == (x << 1) | (x >> 63);
    hide Rotl;
    WrapsOnce(x as nat, Rotl(x, 1) as nat);
  }

  lemma WrapsOnce(n: nat, r: nat)
    requires n < 0x1_0000_0000_0000_0000
    requires r == if n < 0x8000_0000_0000_0000 then 2 * n else 2 * n + 1 - 0x1_0000_0000_0000_0000
    ensures r == (2 * n) % 0x1_0000_0000_0000_0000 + n / 0x8000_0000_0000_0000
  {
  }

  // ---------------------------------------------------------------------------------
  // The step mappings, bit (x, y, z) of a state being bit z of lane x + 5 * y
  // ---------------------------------------------------------------------------------

  /** The sum of the five bits of a column. */
  predicate Sum5(s: State, x: nat, z: nat)
    requires x < 5
  {
    Lit(s[x], z) != (Lit(s[x + 5], z) != (Lit(s[x + 10], z) != (Lit(s[x + 15], z) != Lit(s[x + 20], z))))
  }

  lemma ColumnLit(s: State, x: nat, z: nat)
    requires x < 5
    ensures Lit(Column(s, x), z) <==> Sum5(s, x, z)
  {
    hide Xor, Lit;
    var (a, b, c, d) := (s[x], s[x + 5], s[x + 10], s[x + 15]);
    XorLit(a, b, z);
    XorLit(Xor(a, b), c, z);
    XorLit(Xor(Xor(a, b), c), d, z);
    XorLit(Xor(Xor(Xor(a, b), c), d), s[x + 20], z);
  }

  lemma ParityLit(s: State, x: nat, z: nat)
    requires x < 5 && z < 64
    ensures Lit(Parity(s, x), z) <==> (Sum5(s, (x + 4) % 5, z) != Sum5(s, (x + 1) % 5, (z + 63) % 64))
  {
    hide Xor, Lit, Rotl, Column, Sum5;
    var (left, right) := ((x + 4) % 5, (x + 1) % 5);
    XorLit(Column(s, left), Rotl(Column(s, right), 1), z);
    ColumnLit(s, left, z);
    ColumnLit(s, right, (z + 63) % 64);
    RotlLit(Column(s, right), 1, (z + 63) % 64);
    OnePlaceBack(z);
  }

  lemma OnePlaceBack(z: nat)
    requires z < 64
    ensures ((z + 63) % 64 + 1) % 64 == z
  {
  }

  /** Theta adds to a bit the column to its left, and the column to its right one place lower. */
  lemma ThetaLit(s: State, x: nat, y: nat, z: nat)
    requires x < 5 && y < 5 && z < 64
    ensures Lit(Theta(s)[x + 5 * y], z)
       <==> (Lit(s[x + 5 * y], z) != (Sum5(s, (x + 4) % 5, z) != Sum5(s, (x + 1) % 5, (z + 63) % 64)))
  {
    hide Xor, Lit, Parity, Sum5, Theta;
    assert (x + 5 * y) % 5 == x;
    ThetaAt(s, x + 5 * y);
    XorLit(s[x + 5 * y], Parity(s, x), z);
    ParityLit(s, x, z);
  }

  lemma {:induction false} TriangleIs(t: nat)
    ensures Triangle(t) == (t + 1) * (t + 2) / 2
  {
    if t > 0 {
      TriangleIs(t - 1);
      assert (t + 1) * (t + 2) == t * (t + 1) + 2 * (t + 1);
    }
  }

  /** Rho moves the bits of the lane reached in step t of the walk up by the triangular number of t + 1. */
  lemma RhoLit(s: State, t: nat, z: nat)
    requires t < 24 && z < 64
    ensures var (x, y) := Walk(t);
            x < 5 && y < 5
            && (Lit(Rho(s)[x + 5 * y], (z + (t + 1) * (t + 2) / 2) % 64) <==> Lit(s[x + 5 * y], z))
    ensures Rho(s)[0] == s[0]
  {
    hide Lit, Walk, Triangle, Rotl;
    OffsetsFollowWalk(t);
    TriangleIs(t);
    var (x, y) := Walk(t);
    NoTurn(s[0]);
    RotlLit(s[x + 5 * y], OFFSETS[x + 5 * y], z);
    SameTurn(z, (t + 1) * (t + 2) / 2);
  }

  lemma SameTurn(z: nat, m: nat)
    ensures (z + m % 64) % 64 == (z + m) % 64
  {
  }

  /** Pi moves whole lanes. */
  lemma PiMoves(s: State, x: nat, y: nat)
    requires x < 5 && y < 5
    ensures Pi(s)[x + 5 * y] == s[(x + 3 * y) % 5 + 5 * x]
  {
    assert (x + 5 * y) % 5 == x && (x + 5 * y) / 5 == y;
  }

  lemma Rights(x: nat, y: nat)
    requires x < 5 && y < 5
    ensures Right(x + 5 * y) == (x + 1) % 5 + 5 * y && Right((x + 1) % 5 + 5 * y) == (x + 2) % 5 + 5 * y
  {
  }

  /** Chi adds to a bit the conjunction of the opposite of its right neighbour and the bit to the right of that. */
  lemma ChiLit(s: State, x: nat, y: nat, z: nat)
    requires x < 5 && y < 5 && z < 64
    ensures Lit(Chi(s)[x + 5 * y], z)
       <==> (Lit(s[x + 5 * y], z) != (!Lit(s[(x + 1) % 5 + 5 * y], z) && Lit(s[(x + 2) % 5 + 5 * y], z)))
  {
    hide Mix, Lit, Chi;
    var j := x + 5 * y;
    Rights(x, y);
    ChiAt(s, j);
    hide Right;
    MixLit(s[j], s[Right(j)], s[Right(Right(j))], z);
  }

  /** Iota adds the round constant to lane (0, 0) and leaves the others. */
  lemma IotaLit(s: State, rc: lane, j: nat, z: nat)
    requires j < 25
    ensures Lit(Iota(s, rc)[j], z) <==> (Lit(s[j], z) != (j == 0 && Lit(rc, z)))
  {
    hide Xor, Lit;
    XorLit(s[0], rc, z);
  }

  // ---------------------------------------------------------------------------------
  // The zero state
  // ---------------------------------------------------------------------------------

  predicate IsZero(s: State) { forall j :: 0 <= j < 25 ==> s[j] == 0 }

  predicate OnlyFirst(s: State) { s[0] == 1 && forall j :: 1 <= j < 25 ==> s[j] == 0 }

  lemma FewBits()
    ensures Xor(0, 0) == 0 && Xor(1, 0) == 1 && Xor(0, 1) == 1 && Xor(0, 2) == 2 && Mix(0, 0, 0) == 0
    ensures Rotl(0, 1) == 0 && Rotl(1, 1) == 2 && Xor(1, 0x8082) == 0x8083
  {
  }

  lemma FirstConstants()
    ensures |RC| == 24 && RC[0] == 1 && RC[1] == 0x8082
  {
  }

  lemma ZeroTurned(n: nat)
    requires n < 64
    ensures Turned(0, 0, n) == 0
  {
  }

  lemma ZeroParity(s: State, x: nat)
    requires IsZero(s) && x < 5
    ensures Parity(s, x) == 0
  {
    assert Xor(0, 0) == 0 && Rotl(0, 1) == 0;
    hide Xor, Rotl;
  }

  lemma ZeroMoved(s: State, j: nat)
    requires IsZero(s) && j < 25
    ensures Moved(s)[j] == 0
  {
    hide Turned, Parity, Moved;
    MovedAt(s, j);
    ZeroParity(s, Source(j) % 5);
    ZeroTurned(OFFSETS[Source(j)]);
  }

  /** After the first round the first lane is 1 and all others are still 0. */
  lemma FirstRound(s: State)
    requires IsZero(s)
    ensures OnlyFirst(Round(s, RC[0]))
  {
    hide Mix, Xor, Moved, Chi, Theta, Rho, Pi, Right, RC, Round;
    FewBits();
    FirstConstants();
    RoundIs(s, 1);
    forall j | 0 <= j < 25
      ensures Chi(Moved(s))[j] == 0
    {
      ChiAt(Moved(s), j);
      ZeroMoved(s, j);
      ZeroMoved(s, Right(j));
      ZeroMoved(s, Right(Right(j)));
    }
  }

  lemma RoundIs(s: State, rc: lane)
    ensures Round(s, rc) == Iota(Chi(Moved(s)), rc)
  {
    hide Iota, Chi, Pi, Rho, Theta;
  }

  lemma FirstColumns(s: State)
    requires OnlyFirst(s)
    ensures Column(s, 0) == 1 && Column(s, 1) == 0 && Column(s, 2) == 0 && Column(s, 3) == 0 && Column(s, 4) == 0
  {
    hide Xor;
    FewBits();
  }

  lemma FirstParity(s: State, x: nat)
    requires OnlyFirst(s) && x < 5
    ensures Parity(s, x) == if x == 1 then 1 else if x == 4 then 2 else 0
  {
    hide Xor, Rotl, Column, OnlyFirst;
    FewBits();
    FirstColumns(s);
  }

  /** In the second round theta adds 1 to the lanes of column 1 and 2 to those of column 4. */
  lemma FirstParities(s: State)
    requires OnlyFirst(s)
    ensures ParitiesOf(s) == Parities(0, 1, 0, 0, 2)
  {
    hide Parity, OnlyFirst;
    FirstParity(s, 0);
    FirstParity(s, 1);
    FirstParity(s, 2);
    FirstParity(s, 3);
    FirstParity(s, 4);
  }

  lemma Before0Is()
    ensures Before0(Five(1, 0, 0, 0, 0), Parities(0, 1, 0, 0, 2)) == Five(1, 0x100000000000, 0, 0, 0x8000)
  {
    assert Turned(1, 0, 0) == 1 && Turned(0, 1, 44) == 0x100000000000 && Turned(0, 0, 43) == 0;
    assert Turned(0, 0, 21) == 0 && Turned(0, 2, 14) == 0x8000;
    hide Turned;
  }

  lemma SecondRow0(c: State)
    requires RowIs(c, 0, Five(1, 0x100000000000, 0, 0, 0x8000))
    ensures c[0] == 1 && c[1] == 0x100000000000 && c[2] == 0x8000 && c[3] == 1 && c[4] == 0x100000008000
  {
    assert Mix(1, 0x100000000000, 0) == 1 && Mix(0x100000000000, 0, 0) == 0x100000000000;
    assert Mix(0, 0, 0x8000) == 0x8000 && Mix(0, 0x8000, 1) == 1;
    assert Mix(0x8000, 1, 0x100000000000) == 0x100000008000;
    hide Mix;
  }

  lemma Before1Is()
    ensures Before1(Five(0, 0, 0, 0, 0), Parities(0, 1, 0, 0, 2)) == Five(0, 0x200000, 0, 0x200000000000, 0)
  {
    assert Turned(0, 0, 28) == 0 && Turned(0, 2, 20) == 0x200000 && Turned(0, 0, 3) == 0;
    assert Turned(0, 1, 45) == 0x200000000000 && Turned(0, 0, 61) == 0;
    hide Turned;
  }

  lemma SecondRow1(c: State)
    requires RowIs(c, 1, Five(0, 0x200000, 0, 0x200000000000, 0))
    ensures c[5] == 0 && c[6] == 0x200000200000 && c[7] == 0 && c[8] == 0x200000000000 && c[9] == 0x200000
  {
    assert Mix(0, 0x200000, 0) == 0 && Mix(0x200000, 0, 0x200000000000) == 0x200000200000;
    assert Mix(0, 0x200000000000, 0) == 0 && Mix(0x200000000000, 0, 0) == 0x200000000000;
    assert Mix(0, 0, 0x200000) == 0x200000;
    hide Mix;
  }

  lemma Before2Is()
    ensures Before2(Five(0, 0, 0, 0, 0), Parities(0, 1, 0, 0, 2)) == Five(2, 0, 0, 0x200, 0)
  {
    assert Turned(0, 1, 1) == 2 && Turned(0, 0, 6) == 0 && Turned(0, 0, 25) == 0;
    assert Turned(0, 2, 8) == 0x200 && Turned(0, 0, 18) == 0;
    hide Turned;
  }

  lemma SecondRow2(c: State)
    requires RowIs(c, 2, Five(2, 0, 0, 0x200, 0))
    ensures c[10] == 2 && c[11] == 0x200 && c[12] == 0 && c[13] == 0x202 && c[14] == 0
  {
    assert Mix(2, 0, 0) == 2 && Mix(0, 0, 0x200) == 0x200;
    assert Mix(0, 0x200, 0) == 0 && Mix(0x200, 0, 2) == 0x202;
    assert Mix(0, 2, 0) == 0;
    hide Mix;
  }

  lemma Before3Is()
    ensures Before3(Five(0, 0, 0, 0, 0), Parities(0, 1, 0, 0, 2)) == Five(0x10000000, 0, 0x400, 0, 0)
  {
    assert Turned(0, 2, 27) == 0x10000000 && Turned(0, 0, 36) == 0 && Turned(0, 1, 10) == 0x400;
    assert Turned(0, 0, 15) == 0 && Turned(0, 0, 56) == 0;
    hide Turned;
  }

  lemma SecondRow3(c: State)
    requires RowIs(c, 3, Five(0x10000000, 0, 0x400, 0, 0))
    ensures c[15] == 0x10000400 && c[16] == 0 && c[17] == 0x400 && c[18] == 0x10000000 && c[19] == 0
  {
    assert Mix(0x10000000, 0, 0x400) == 0x10000400 && Mix(0, 0x400, 0) == 0;
    assert Mix(0x400, 0, 0) == 0x400 && Mix(0, 0, 0x10000000) == 0x10000000;
    assert Mix(0, 0x10000000, 0) == 0;
    hide Mix;
  }

  lemma Before4Is()
    ensures Before4(Five(0, 0, 0, 0, 0), Parities(0, 1, 0, 0, 2)) == Five(0, 0, 0x10000000000, 0, 4)
  {
    assert Turned(0, 0, 62) == 0 && Turned(0, 0, 55) == 0 && Turned(0, 2, 39) == 0x10000000000;
    assert Turned(0, 0, 41) == 0 && Turned(0, 1, 2) == 4;
    hide Turned;
  }

  lemma SecondRow4(c: State)
    requires RowIs(c, 4, Five(0, 0, 0x10000000000, 0, 4))
    ensures c[20] == 0x10000000000 && c[21] == 0 && c[22] == 0x10000000004 && c[23] == 0 && c[24] == 4
  {
    assert Mix(0, 0, 0x10000000000) == 0x10000000000 && Mix(0, 0x10000000000, 0) == 0;
    assert Mix(0x10000000000, 0, 4) == 0x10000000004 && Mix(0, 4, 0) == 0;
    assert Mix(4, 0, 0) == 4;
    hide Mix;
  }

  /** The lanes of the permutation of the zero state after two of its rounds. */
  lemma TwoRounds(s: State)
    requires IsZero(s)
    ensures OnlyFirst(Rounds(s, 1))
    ensures var r := Rounds(s, 2);
            r[0] == 0x8083 && r[1] == 0x100000000000 && r[2] == 0x8000 && r[3] == 1 && r[4] == 0x100000008000
            && r[5] == 0 && r[6] == 0x200000200000 && r[7] == 0 && r[8] == 0x200000000000 && r[9] == 0x200000
            && r[10] == 2 && r[11] == 0x200 && r[12] == 0 && r[13] == 0x202 && r[14] == 0
            && r[15] == 0x10000400 && r[16] == 0 && r[17] == 0x400 && r[18] == 0x10000000 && r[19] == 0
            && r[20] == 0x10000000000 && r[21] == 0 && r[22] == 0x10000000004 && r[23] == 0 && r[24] == 4
  {
    hide Xor, Mix, Chi, Moved, Round, Rounds, OnlyFirst, RC, RowIs, ParitiesOf, Before0, Before1, Before2, Before3, Before4;
    FewBits();
    FirstConstants();
    NoRounds(s);
    RoundsStep(s, 0);
    RoundsStep(s, 1);
    FirstRound(s);
    var f := Rounds(s, 1);
    RoundIs(f, RC[1]);
    SecondRows(f);
  }

  lemma FirstLanes(s: State)
    requires OnlyFirst(s)
    ensures Five(s[0], s[6], s[12], s[18], s[24]) == Five(1, 0, 0, 0, 0)
    ensures Five(s[10], s[16], s[22], s[3], s[9]) == Five(0, 0, 0, 0, 0)
    ensures Five(s[20], s[1], s[7], s[13], s[19]) == Five(0, 0, 0, 0, 0)
    ensures Five(s[5], s[11], s[17], s[23], s[4]) == Five(0, 0, 0, 0, 0)
    ensures Five(s[15], s[21], s[2], s[8], s[14]) == Five(0, 0, 0, 0, 0)
  {
  }

  /** The second round before its constant is added. */
  lemma SecondRows(s: State)
    requires OnlyFirst(s)
    ensures var c := Chi(Moved(s));
            c[0] == 1 && c[1] == 0x100000000000 && c[2] == 0x8000 && c[3] == 1 && c[4] == 0x100000008000
            && c[5] == 0 && c[6] == 0x200000200000 && c[7] == 0 && c[8] == 0x200000000000 && c[9] == 0x200000
            && c[10] == 2 && c[11] == 0x200 && c[12] == 0 && c[13] == 0x202 && c[14] == 0
            && c[15] == 0x10000400 && c[16] == 0 && c[17] == 0x400 && c[18] == 0x10000000 && c[19] == 0
            && c[20] == 0x10000000000 && c[21] == 0 && c[22] == 0x10000000004 && c[23] == 0 && c[24] == 4
  {
    hide Mix, Chi, Moved, OnlyFirst, RowIs, ParitiesOf, Before0, Before1, Before2, Before3, Before4;
    FirstLanes(s);
    FirstParities(s);
    MovedRow0(s);
    MovedRow1(s);
    MovedRow2(s);
    MovedRow3(s);
    MovedRow4(s);
    Before0Is();
    Before1Is();
    Before2Is();
    Before3Is();
    Before4Is();
    SecondRow0(Chi(Moved(s)));
    SecondRow1(Chi(Moved(s)));
    SecondRow2(Chi(Moved(s)));
    SecondRow3(Chi(Moved(s)));
    SecondRow4(Chi(Moved(s)));
  }
}
