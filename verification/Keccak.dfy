// The Keccak-f[1600] permutation, in place and four rounds at a time, and the standard's step
// mappings it computes (FIPS 202, sections 3.2 and 3.3).
module Keccak {
  import opened Common

  type lane = bv64

  function Xor(x: lane, y: lane): lane { x ^ y }

  function Rotl(x: lane, n: nat): lane
    requires n < 64
  {
    if n == 0 then x else (x << n) | (x >> (64 - n))
  }

  /** One lane of the chi step: the lane, and the two to its right. */
  function Mix(b0: lane, b1: lane, b2: lane): lane { b0 ^ (b2 & !b1) }

  function Xor5(a: lane, b: lane, c: lane, d: lane, e: lane): lane { Xor(Xor(Xor(Xor(a, b), c), d), e) }

  // ---------------------------------------------------------------------------------
  // The standard
  // ---------------------------------------------------------------------------------

  /** A state: lane (x, y) at x + 5 * y. */
  type State = s: seq<lane> | |s| == 25 witness seq(25, _ => 0)

  function Column(s: State, x: nat): lane
    requires x < 5
  {
    Xor5(s[x], s[x + 5], s[x + 10], s[x + 15], s[x + 20])
  }

  function Parity(s: State, x: nat): lane
    requires x < 5
  {
    Xor(Column(s, (x + 4) % 5), Rotl(Column(s, (x + 1) % 5), 1))
  }

  function Theta(s: State): State { seq(25, j requires 0 <= j < 25 => Xor(s[j], Parity(s, j % 5))) }

  /** The offsets of the rho step, by lane. */
  const OFFSETS: seq<nat> :=
    [0, 1, 62, 28, 27, 36, 44, 6, 55, 20, 3, 10, 43, 25, 39, 41, 45, 15, 21, 8, 18, 2, 61, 56, 14]

  /** The walk that defines them: from (1, 0), (x, y) goes to (y, 2x + 3y). */
  function Walk(t: nat): (nat, nat) {
    if t == 0 then (1, 0)
    else
      var (x, y) := Walk(t - 1);
      (y, (2 * x + 3 * y) % 5)
  }

  function Rho(s: State): State {
    seq(25, j requires 0 <= j < 25 => if OFFSETS[j] < 64 then Rotl(s[j], OFFSETS[j]) else s[j])
  }

  /** Where the lane that pi moves to j comes from: (x + 3y, x) for j = (x, y). */
  function Source(j: nat): (i: nat)
    requires j < 25
    ensures i < 25
  {
    (j % 5 + 3 * (j / 5)) % 5 + 5 * (j % 5)
  }

  /** The lane to the right of j in its row. */
  function Right(j: nat): (i: nat)
    requires j < 25
    ensures i < 25
  {
    if j % 5 == 4 then j - 4 else j + 1
  }

  function Pi(s: State): State { seq(25, j requires 0 <= j < 25 => s[Source(j)]) }

  function Chi(s: State): State {
    seq(25, j requires 0 <= j < 25 => Mix(s[j], s[Right(j)], s[Right(Right(j))]))
  }

  function Iota(s: State, rc: lane): State { s[0 := Xor(s[0], rc)] }

  function Round(s: State, rc: lane): State { Iota(Chi(Pi(Rho(Theta(s)))), rc) }

  const RC: seq<lane> := [
    0x0000000000000001, 0x0000000000008082, 0x800000000000808A, 0x8000000080008000, 0x000000000000808B,
    0x0000000080000001, 0x8000000080008081, 0x8000000000008009, 0x000000000000008A, 0x0000000000000088,
    0x0000000080008009, 0x000000008000000A, 0x000000008000808B, 0x800000000000008B, 0x8000000000008089,
    0x8000000000008003, 0x8000000000008002, 0x8000000000000080, 0x000000000000800A, 0x800000008000000A,
    0x8000000080008081, 0x8000000000008080, 0x0000000080000001, 0x8000000080008008]

  function Rounds(s: State, n: nat): State
    requires n <= |RC|
    decreases n, |s|
  {
    if n == 0 then s else Round(Rounds(s, n - 1), RC[n - 1])
  }

  /** The permutation: a round for every constant, 24 of them. */
  function KeccakF(s: State): State { Rounds(s, |RC|) }

  /** The offset of the lane reached in step t: the triangular number of t + 1. */
  function Triangle(t: nat): nat {
    if t == 0 then 1 else Triangle(t - 1) + t + 1
  }

  /** The table of offsets is what the walk gives, modulo the lane size, and nothing for lane (0, 0). */
  lemma OffsetsFollowWalk(t: nat)
    requires t < 24
    ensures var (x, y) := Walk(t); x < 5 && y < 5 && OFFSETS[x + 5 * y] == Triangle(t) % 64
    ensures OFFSETS[0] == 0
  {
    WalkSteps();
    hide Walk, Triangle;
  }

  lemma WalkSteps()
    ensures Walk(0) == (1, 0) && Triangle(0) == 1
    ensures Walk(1) == (0, 2) && Triangle(1) == 3
    ensures Walk(2) == (2, 1) && Triangle(2) == 6
    ensures Walk(3) == (1, 2) && Triangle(3) == 10
    ensures Walk(4) == (2, 3) && Triangle(4) == 15
    ensures Walk(5) == (3, 3) && Triangle(5) == 21
    ensures Walk(6) == (3, 0) && Triangle(6) == 28
    ensures Walk(7) == (0, 1) && Triangle(7) == 36
    ensures Walk(8) == (1, 3) && Triangle(8) == 45
    ensures Walk(9) == (3, 1) && Triangle(9) == 55
    ensures Walk(10) == (1, 4) && Triangle(10) == 66
    ensures Walk(11) == (4, 4) && Triangle(11) == 78
    ensures Walk(12) == (4, 0) && Triangle(12) == 91
    ensures Walk(13) == (0, 3) && Triangle(13) == 105
    ensures Walk(14) == (3, 4) && Triangle(14) == 120
    ensures Walk(15) == (4, 3) && Triangle(15) == 136
    ensures Walk(16) == (3, 2) && Triangle(16) == 153
    ensures Walk(17) == (2, 2) && Triangle(17) == 171
    ensures Walk(18) == (2, 0) && Triangle(18) == 190
    ensures Walk(19) == (0, 4) && Triangle(19) == 210
    ensures Walk(20) == (4, 2) && Triangle(20) == 231
    ensures Walk(21) == (2, 4) && Triangle(21) == 253
    ensures Walk(22) == (4, 1) && Triangle(22) == 276
    ensures Walk(23) == (1, 1) && Triangle(23) == 300
  {
  }

  /** The register of the round constants: a shift left, with what leaves the top fed back. */
  function Shifted(r: bv8): bv8 { if r & 0x80 != 0 then (r << 1) ^ 0x71 else r << 1 }

  function Register(t: nat): bv8 {
    if t == 0 then 1 else Shifted(Register(t - 1))
  }

  function Bit(r: bv8, place: nat): lane
    requires place < 64
  {
    if r & 1 != 0 then 1 << place else 0
  }

  /** A round's constant: the low bits of seven states of the register, at places 2^j - 1. */
  function Constant(r: bv8): lane {
    var r1 := Shifted(r);
    var r2 := Shifted(r1);
    var r3 := Shifted(r2);
    var r4 := Shifted(r3);
    var r5 := Shifted(r4);
    var r6 := Shifted(r5);
    Bit(r, 0) | Bit(r1, 1) | Bit(r2, 3) | Bit(r3, 7) | Bit(r4, 15) | Bit(r5, 31) | Bit(r6, 63)
  }

  function Seventh(r: bv8): bv8 { Shifted(Shifted(Shifted(Shifted(Shifted(Shifted(Shifted(r))))))) }

  /** The register at the start of each round. */
  const REGISTERS: seq<bv8> := [1, 128, 216, 26, 223, 9, 53, 79, 202, 112, 65, 236, 213, 205, 99, 171, 170, 42, 242,
                                232, 55, 62, 11, 68]

  lemma RegistersStep(i: nat)
    requires i < 23
    ensures REGISTERS[i + 1] == Seventh(REGISTERS[i])
  {
    hide Seventh;
    if i < 12 {
      RegistersFirst(i);
    } else {
      RegistersSecond(i);
    }
  }

  lemma RegistersFirst(i: nat)
    requires i < 12
    ensures REGISTERS[i + 1] == Seventh(REGISTERS[i])
  {
  }

  lemma RegistersSecond(i: nat)
    requires 12 <= i < 23
    ensures REGISTERS[i + 1] == Seventh(REGISTERS[i])
  {
  }

  lemma SevenSteps(t: nat)
    ensures Register(t + 7) == Seventh(Register(t))
  {
    hide Shifted;
    assert Register(t + 1) == Shifted(Register(t)) && Register(t + 2) == Shifted(Register(t + 1));
    assert Register(t + 3) == Shifted(Register(t + 2)) && Register(t + 4) == Shifted(Register(t + 3));
    assert Register(t + 5) == Shifted(Register(t + 4)) && Register(t + 6) == Shifted(Register(t + 5));
  }

  lemma {:induction false} RegistersAre(i: nat)
    requires i < 24
    ensures Register(7 * i) == REGISTERS[i]
  {
    if i > 0 {
      RegistersAre(i - 1);
      hide Register, Seventh;
      SevenSteps(7 * (i - 1));
      RegistersStep(i - 1);
    }
  }

  lemma Constants0(i: nat)
    requires i < 2
    ensures RC[i] == Constant(REGISTERS[i])
  {
  }

  lemma Constants2(i: nat)
    requires 2 <= i < 4
    ensures RC[i] == Constant(REGISTERS[i])
  {
  }

  lemma Constants4(i: nat)
    requires 4 <= i < 6
    ensures RC[i] == Constant(REGISTERS[i])
  {
  }

  lemma Constants6(i: nat)
    requires 6 <= i < 8
    ensures RC[i] == Constant(REGISTERS[i])
  {
  }

  lemma Constants8(i: nat)
    requires 8 <= i < 10
    ensures RC[i] == Constant(REGISTERS[i])
  {
  }

  lemma Constants10(i: nat)
    requires 10 <= i < 12
    ensures RC[i] == Constant(REGISTERS[i])
  {
  }

  lemma Constants12(i: nat)
    requires 12 <= i < 14
    ensures RC[i] == Constant(REGISTERS[i])
  {
  }

  lemma Constants14(i: nat)
    requires 14 <= i < 16
    ensures RC[i] == Constant(REGISTERS[i])
  {
  }

  lemma Constants16(i: nat)
    requires 16 <= i < 18
    ensures RC[i] == Constant(REGISTERS[i])
  {
  }

  lemma Constants18(i: nat)
    requires 18 <= i < 20
    ensures RC[i] == Constant(REGISTERS[i])
  {
  }

  lemma Constants20(i: nat)
    requires 20 <= i < 22
    ensures RC[i] == Constant(REGISTERS[i])
  {
  }

  lemma Constants22(i: nat)
    requires 22 <= i < 24
    ensures RC[i] == Constant(REGISTERS[i])
  {
  }

  /** The table of round constants is what the register gives. */
  lemma ConstantsFollowRegister(i: nat)
    requires i < 24
    ensures RC[i] == Constant(Register(7 * i))
  {
    hide Constant, Register;
    RegistersAre(i);
    if i < 2 {
      Constants0(i);
    } else if i < 4 {
      Constants2(i);
    } else if i < 6 {
      Constants4(i);
    } else if i < 8 {
      Constants6(i);
    } else if i < 10 {
      Constants8(i);
    } else if i < 12 {
      Constants10(i);
    } else if i < 14 {
      Constants12(i);
    } else if i < 16 {
      Constants14(i);
    } else if i < 18 {
      Constants16(i);
    } else if i < 20 {
      Constants18(i);
    } else if i < 22 {
      Constants20(i);
    } else {
      Constants22(i);
    }
  }

  // ---------------------------------------------------------------------------------
  // Lanes out of place
  // ---------------------------------------------------------------------------------

  /** Where the array holds lane j after r of the four unrolled rounds. */
  function Place(r: nat, j: nat): nat
    requires r <= 4 && j < 25
  {
    var (x, y) := (j % 5, j / 5);
    var row := if r == 0 || r == 4 then y else if r == 1 then x + 2 * y else if r == 2 then 3 * x + 4 * y else 2 * x + 3 * y;
    x + 5 * (row % 5)
  }

  /** The array is state s with its lanes in the places of round r. */
  ghost predicate Represents(a: seq<lane>, s: State, r: nat)
    requires r <= 4
  {
    |a| == 25 && forall j :: 0 <= j < 25 ==> a[Place(r, j)] == s[j]
  }

  lemma HomeAgain(a: seq<lane>, s: State, r: nat)
    requires r == 0 || r == 4
    ensures Represents(a, s, r) <==> a == s
  {
    forall j | 0 <= j < 25
      ensures Place(r, j) == j
    {
    }
    if Represents(a, s, r) {
      forall j | 0 <= j < 25
        ensures a[j] == s[j]
      {
        assert a[Place(r, j)] == s[j];
      }
    }
  }

  // ---------------------------------------------------------------------------------
  // A row of a round: five lanes rotated into place and mixed where they were
  // ---------------------------------------------------------------------------------

  /** The five parities of a round, by column. */
  datatype Parities = Parities(d0: lane, d1: lane, d2: lane, d3: lane, d4: lane)

  /** Five lanes of a row. */
  datatype Five = Five(b0: lane, b1: lane, b2: lane, b3: lane, b4: lane)

  function Turned(a: lane, d: lane, n: nat): lane
    requires n < 64
  {
    Rotl(Xor(a, d), n)
  }

  /** Row 0 before chi, made of one lane of each column. */
  function Before0(c: Five, d: Parities): Five {
    Five(Turned(c.b0, d.d0, 0), Turned(c.b1, d.d1, 44), Turned(c.b2, d.d2, 43), Turned(c.b3, d.d3, 21), Turned(c.b4, d.d4, 14))
  }

  /** Row 1 before chi, made of one lane of each column. */
  function Before1(c: Five, d: Parities): Five {
    Five(Turned(c.b3, d.d3, 28), Turned(c.b4, d.d4, 20), Turned(c.b0, d.d0, 3), Turned(c.b1, d.d1, 45), Turned(c.b2, d.d2, 61))
  }

  /** Row 2 before chi, made of one lane of each column. */
  function Before2(c: Five, d: Parities): Five {
    Five(Turned(c.b1, d.d1, 1), Turned(c.b2, d.d2, 6), Turned(c.b3, d.d3, 25), Turned(c.b4, d.d4, 8), Turned(c.b0, d.d0, 18))
  }

  /** Row 3 before chi, made of one lane of each column. */
  function Before3(c: Five, d: Parities): Five {
    Five(Turned(c.b4, d.d4, 27), Turned(c.b0, d.d0, 36), Turned(c.b1, d.d1, 10), Turned(c.b2, d.d2, 15), Turned(c.b3, d.d3, 56))
  }

  /** Row 4 before chi, made of one lane of each column. */
  function Before4(c: Five, d: Parities): Five {
    Five(Turned(c.b2, d.d2, 62), Turned(c.b3, d.d3, 55), Turned(c.b4, d.d4, 39), Turned(c.b0, d.d0, 41), Turned(c.b1, d.d1, 2))
  }

  /** What stands at p0 to p4 after a row of the round: the mixes of b. */
  ghost predicate Mixed(was: seq<lane>, now: seq<lane>, p0: nat, p1: nat, p2: nat, p3: nat, p4: nat, b: Five)
    requires |was| == |now| == 25 && p0 < 25 && p1 < 25 && p2 < 25 && p3 < 25 && p4 < 25
  {
    now[p0] == Mix(b.b0, b.b1, b.b2) && now[p1] == Mix(b.b1, b.b2, b.b3) && now[p2] == Mix(b.b2, b.b3, b.b4)
    && now[p3] == Mix(b.b3, b.b4, b.b0) && now[p4] == Mix(b.b4, b.b0, b.b1)
    && forall i :: 0 <= i < 25 && i != p0 && i != p1 && i != p2 && i != p3 && i != p4 ==> now[i] == was[i]
  }

  predicate Apart(p0: nat, p1: nat, p2: nat, p3: nat, p4: nat) {
    p0 < 25 && p1 < 25 && p2 < 25 && p3 < 25 && p4 < 25
    && p0 != p1 && p0 != p2 && p0 != p3 && p0 != p4 && p1 != p2 && p1 != p3 && p1 != p4
    && p2 != p3 && p2 != p4 && p3 != p4
  }

  method Row0(a: array<lane>, d: Parities, p0: nat, p1: nat, p2: nat, p3: nat, p4: nat)
    requires a.Length == 25 && Apart(p0, p1, p2, p3, p4)
    modifies a
    ensures Mixed(old(a[..]), a[..], p0, p1, p2, p3, p4,
                  Before0(Five(old(a[p0]), old(a[p1]), old(a[p2]), old(a[p3]), old(a[p4])), d))
  {
    hide Xor, Rotl, Mix;
    var bc0 := Rotl(Xor(a[p0], d.d0), 0);
    var bc1 := Rotl(Xor(a[p1], d.d1), 44);
    var bc2 := Rotl(Xor(a[p2], d.d2), 43);
    var bc3 := Rotl(Xor(a[p3], d.d3), 21);
    var bc4 := Rotl(Xor(a[p4], d.d4), 14);
    a[p0] := Mix(bc0, bc1, bc2);
    a[p1] := Mix(bc1, bc2, bc3);
    a[p2] := Mix(bc2, bc3, bc4);
    a[p3] := Mix(bc3, bc4, bc0);
    a[p4] := Mix(bc4, bc0, bc1);
  }

  method Row1(a: array<lane>, d: Parities, p0: nat, p1: nat, p2: nat, p3: nat, p4: nat)
    requires a.Length == 25 && Apart(p0, p1, p2, p3, p4)
    modifies a
    ensures Mixed(old(a[..]), a[..], p0, p1, p2, p3, p4,
                  Before1(Five(old(a[p0]), old(a[p1]), old(a[p2]), old(a[p3]), old(a[p4])), d))
  {
    hide Xor, Rotl, Mix;
    var bc2 := Rotl(Xor(a[p0], d.d0), 3);
    var bc3 := Rotl(Xor(a[p1], d.d1), 45);
    var bc4 := Rotl(Xor(a[p2], d.d2), 61);
    var bc0 := Rotl(Xor(a[p3], d.d3), 28);
    var bc1 := Rotl(Xor(a[p4], d.d4), 20);
    a[p0] := Mix(bc0, bc1, bc2);
    a[p1] := Mix(bc1, bc2, bc3);
    a[p2] := Mix(bc2, bc3, bc4);
    a[p3] := Mix(bc3, bc4, bc0);
    a[p4] := Mix(bc4, bc0, bc1);
  }

  method Row2(a: array<lane>, d: Parities, p0: nat, p1: nat, p2: nat, p3: nat, p4: nat)
    requires a.Length == 25 && Apart(p0, p1, p2, p3, p4)
    modifies a
    ensures Mixed(old(a[..]), a[..], p0, p1, p2, p3, p4,
                  Before2(Five(old(a[p0]), old(a[p1]), old(a[p2]), old(a[p3]), old(a[p4])), d))
  {
    hide Xor, Rotl, Mix;
    var bc4 := Rotl(Xor(a[p0], d.d0), 18);
    var bc0 := Rotl(Xor(a[p1], d.d1), 1);
    var bc1 := Rotl(Xor(a[p2], d.d2), 6);
    var bc2 := Rotl(Xor(a[p3], d.d3), 25);
    var bc3 := Rotl(Xor(a[p4], d.d4), 8);
    a[p0] := Mix(bc0, bc1, bc2);
    a[p1] := Mix(bc1, bc2, bc3);
    a[p2] := Mix(bc2, bc3, bc4);
    a[p3] := Mix(bc3, bc4, bc0);
    a[p4] := Mix(bc4, bc0, bc1);
  }

  method Row3(a: array<lane>, d: Parities, p0: nat, p1: nat, p2: nat, p3: nat, p4: nat)
    requires a.Length == 25 && Apart(p0, p1, p2, p3, p4)
    modifies a
    ensures Mixed(old(a[..]), a[..], p0, p1, p2, p3, p4,
                  Before3(Five(old(a[p0]), old(a[p1]), old(a[p2]), old(a[p3]), old(a[p4])), d))
  {
    hide Xor, Rotl, Mix;
    var bc1 := Rotl(Xor(a[p0], d.d0), 36);
    var bc2 := Rotl(Xor(a[p1], d.d1), 10);
    var bc3 := Rotl(Xor(a[p2], d.d2), 15);
    var bc4 := Rotl(Xor(a[p3], d.d3), 56);
    var bc0 := Rotl(Xor(a[p4], d.d4), 27);
    a[p0] := Mix(bc0, bc1, bc2);
    a[p1] := Mix(bc1, bc2, bc3);
    a[p2] := Mix(bc2, bc3, bc4);
    a[p3] := Mix(bc3, bc4, bc0);
    a[p4] := Mix(bc4, bc0, bc1);
  }

  method Row4(a: array<lane>, d: Parities, p0: nat, p1: nat, p2: nat, p3: nat, p4: nat)
    requires a.Length == 25 && Apart(p0, p1, p2, p3, p4)
    modifies a
    ensures Mixed(old(a[..]), a[..], p0, p1, p2, p3, p4,
                  Before4(Five(old(a[p0]), old(a[p1]), old(a[p2]), old(a[p3]), old(a[p4])), d))
  {
    hide Xor, Rotl, Mix;
    var bc3 := Rotl(Xor(a[p0], d.d0), 41);
    var bc4 := Rotl(Xor(a[p1], d.d1), 2);
    var bc0 := Rotl(Xor(a[p2], d.d2), 62);
    var bc1 := Rotl(Xor(a[p3], d.d3), 55);
    var bc2 := Rotl(Xor(a[p4], d.d4), 39);
    a[p0] := Mix(bc0, bc1, bc2);
    a[p1] := Mix(bc1, bc2, bc3);
    a[p2] := Mix(bc2, bc3, bc4);
    a[p3] := Mix(bc3, bc4, bc0);
    a[p4] := Mix(bc4, bc0, bc1);
  }

  /** The column sums, and from them the parities, whatever the order of the rows. */
  method ColumnParities(a: array<lane>) returns (d: Parities)
    requires a.Length == 25
    ensures d == ParitiesOf(a[..])
  {
    hide Xor, Rotl;
    var bc0 := Xor(Xor(Xor(Xor(a[0], a[5]), a[10]), a[15]), a[20]);
    var bc1 := Xor(Xor(Xor(Xor(a[1], a[6]), a[11]), a[16]), a[21]);
    var bc2 := Xor(Xor(Xor(Xor(a[2], a[7]), a[12]), a[17]), a[22]);
    var bc3 := Xor(Xor(Xor(Xor(a[3], a[8]), a[13]), a[18]), a[23]);
    var bc4 := Xor(Xor(Xor(Xor(a[4], a[9]), a[14]), a[19]), a[24]);
    d := Parities(Xor(bc4, Rotl(bc1, 1)), Xor(bc0, Rotl(bc2, 1)), Xor(bc1, Rotl(bc3, 1)),
                  Xor(bc2, Rotl(bc4, 1)), Xor(bc3, Rotl(bc0, 1)));
  }

  function ParitiesOf(a: seq<lane>): Parities
    requires |a| == 25
  {
    Parities(Parity(a, 0), Parity(a, 1), Parity(a, 2), Parity(a, 3), Parity(a, 4))
  }

  lemma XorSwap(x: lane, y: lane, z: lane)
    ensures Xor(Xor(x, y), z) == Xor(Xor(x, z), y) && Xor(x, y) == Xor(y, x)
  {
  }

  /** Five lanes added from the second on, with the first last. */
  lemma Xor5Turn(a: lane, b: lane, c: lane, d: lane, e: lane)
    ensures Xor5(b, c, d, e, a) == Xor5(a, b, c, d, e)
  {
    hide Xor;
    XorSwap(Xor(Xor(b, c), d), e, a);
    XorSwap(Xor(b, c), d, a);
    XorSwap(b, c, a);
    XorSwap(a, b, c);
  }

  /** Every second of them. */
  lemma Xor5Twice(a: lane, b: lane, c: lane, d: lane, e: lane)
    ensures Xor5(a, c, e, b, d) == Xor5(a, b, c, d, e)
  {
    hide Xor;
    XorSwap(Xor(a, c), e, b);
    XorSwap(a, c, b);
    XorSwap(Xor(Xor(a, b), c), e, d);
  }

  /** Five lanes may be added in any of the orders the places give. */
  lemma Xor5Orders(v0: lane, v1: lane, v2: lane, v3: lane, v4: lane)
    ensures Xor5(v0, v2, v4, v1, v3) == Xor5(v0, v1, v2, v3, v4)
    ensures Xor5(v1, v3, v0, v2, v4) == Xor5(v0, v1, v2, v3, v4)
    ensures Xor5(v2, v4, v1, v3, v0) == Xor5(v0, v1, v2, v3, v4)
    ensures Xor5(v3, v0, v2, v4, v1) == Xor5(v0, v1, v2, v3, v4)
    ensures Xor5(v4, v1, v3, v0, v2) == Xor5(v0, v1, v2, v3, v4)
    ensures Xor5(v0, v3, v1, v4, v2) == Xor5(v0, v1, v2, v3, v4)
    ensures Xor5(v1, v4, v2, v0, v3) == Xor5(v0, v1, v2, v3, v4)
    ensures Xor5(v2, v0, v3, v1, v4) == Xor5(v0, v1, v2, v3, v4)
    ensures Xor5(v3, v1, v4, v2, v0) == Xor5(v0, v1, v2, v3, v4)
    ensures Xor5(v4, v2, v0, v3, v1) == Xor5(v0, v1, v2, v3, v4)
    ensures Xor5(v0, v4, v3, v2, v1) == Xor5(v0, v1, v2, v3, v4)
    ensures Xor5(v1, v0, v4, v3, v2) == Xor5(v0, v1, v2, v3, v4)
    ensures Xor5(v2, v1, v0, v4, v3) == Xor5(v0, v1, v2, v3, v4)
    ensures Xor5(v3, v2, v1, v0, v4) == Xor5(v0, v1, v2, v3, v4)
    ensures Xor5(v4, v3, v2, v1, v0) == Xor5(v0, v1, v2, v3, v4)
  {
    hide Xor5;
    Xor5Turn(v0, v1, v2, v3, v4);
    Xor5Turn(v1, v2, v3, v4, v0);
    Xor5Turn(v2, v3, v4, v0, v1);
    Xor5Turn(v3, v4, v0, v1, v2);
    Xor5Twice(v0, v1, v2, v3, v4);
    Xor5Twice(v1, v2, v3, v4, v0);
    Xor5Twice(v2, v3, v4, v0, v1);
    Xor5Twice(v3, v4, v0, v1, v2);
    Xor5Twice(v4, v0, v1, v2, v3);
    Xor5Twice(v0, v2, v4, v1, v3);
    Xor5Twice(v1, v3, v0, v2, v4);
    Xor5Twice(v2, v4, v1, v3, v0);
    Xor5Twice(v3, v0, v2, v4, v1);
    Xor5Twice(v4, v1, v3, v0, v2);
    Xor5Twice(v0, v4, v3, v2, v1);
    Xor5Twice(v1, v0, v4, v3, v2);
    Xor5Twice(v2, v1, v0, v4, v3);
    Xor5Twice(v3, v2, v1, v0, v4);
    Xor5Twice(v4, v3, v2, v1, v0);
  }
  // ---------------------------------------------------------------------------------
  // The standard's rounds, row by row
  // ---------------------------------------------------------------------------------

  lemma OffsetsBelow(i: nat)
    requires i < 25
    ensures OFFSETS[i] < 64
  {
  }

  /** The lanes before chi, by the standard. */
  function Moved(s: State): State { Pi(Rho(Theta(s))) }

  lemma MovedAt(s: State, j: nat)
    requires j < 25
    ensures OFFSETS[Source(j)] < 64
    ensures Moved(s)[j] == Turned(s[Source(j)], Parity(s, Source(j) % 5), OFFSETS[Source(j)])
  {
    hide Xor, Rotl, Parity;
    OffsetsBelow(Source(j));
    ThetaAt(s, Source(j));
    RhoAt(Theta(s), Source(j));
    PiAt(Rho(Theta(s)), j);
  }

  /** Pi moves lane i, of column x and turned by n, to j. */
  ghost predicate Moves(j: nat, i: nat, x: nat, n: nat) {
    j < 25 && i < 25 && x < 5 && n < 64 && Source(j) == i && i % 5 == x && OFFSETS[i] == n
  }

  lemma MovedFrom(s: State, j: nat, i: nat, x: nat, n: nat)
    requires Moves(j, i, x, n)
    ensures Moved(s)[j] == Turned(s[i], Parity(s, x), n)
  {
    hide Turned, Parity, Moved, Source;
    MovedAt(s, j);
  }

  lemma MovedFirst(s: State)
    ensures Moved(s)[0] == Turned(s[0], Parity(s, 0), 0)
  {
    hide Turned, Parity, Moved;
    MovedAt(s, 0);
  }

  lemma ParityFields(s: State)
    ensures var d := ParitiesOf(s);
            d.d0 == Parity(s, 0) && d.d1 == Parity(s, 1) && d.d2 == Parity(s, 2) && d.d3 == Parity(s, 3)
            && d.d4 == Parity(s, 4)
  {
    hide Parity;
  }

  lemma ThetaAt(s: State, i: nat)
    requires i < 25
    ensures Theta(s)[i] == Xor(s[i], Parity(s, i % 5))
  {
    hide Xor, Parity;
  }

  lemma RhoAt(s: State, i: nat)
    requires i < 25 && OFFSETS[i] < 64
    ensures Rho(s)[i] == Rotl(s[i], OFFSETS[i])
  {
    hide Rotl;
  }

  lemma PiAt(s: State, j: nat)
    requires j < 25
    ensures Pi(s)[j] == s[Source(j)]
  {
    hide Source;
  }

  lemma ChiAt(s: State, j: nat)
    requires j < 25
    ensures Chi(s)[j] == Mix(s[j], s[Right(j)], s[Right(Right(j))])
  {
    hide Mix, Right;
  }

  /** Row y of a state is the mixes of b. */
  ghost predicate RowIs(s: State, y: nat, b: Five)
    requires y < 5
  {
    s[5 * y] == Mix(b.b0, b.b1, b.b2) && s[5 * y + 1] == Mix(b.b1, b.b2, b.b3)
    && s[5 * y + 2] == Mix(b.b2, b.b3, b.b4) && s[5 * y + 3] == Mix(b.b3, b.b4, b.b0)
    && s[5 * y + 4] == Mix(b.b4, b.b0, b.b1)
  }

  lemma Sources0()
    ensures Source(0) == 0 && Source(1) == 6 && Source(2) == 12 && Source(3) == 18 && Source(4) == 24
  {
  }

  lemma Sources1()
    ensures Source(5) == 3 && Source(6) == 9 && Source(7) == 10 && Source(8) == 16 && Source(9) == 22
  {
  }

  lemma Sources2()
    ensures Source(10) == 1 && Source(11) == 7 && Source(12) == 13 && Source(13) == 19 && Source(14) == 20
  {
  }

  lemma Sources3()
    ensures Source(15) == 4 && Source(16) == 5 && Source(17) == 11 && Source(18) == 17 && Source(19) == 23
  {
  }

  lemma Sources4()
    ensures Source(20) == 2 && Source(21) == 8 && Source(22) == 14 && Source(23) == 15 && Source(24) == 21
  {
  }

  lemma Moves0()
    ensures Moves(1, 6, 1, 44)
    ensures Moves(2, 12, 2, 43)
    ensures Moves(3, 18, 3, 21)
    ensures Moves(4, 24, 4, 14)
  {
    hide Source;
    Sources0();
  }

  lemma Moves1()
    ensures Moves(5, 3, 3, 28)
    ensures Moves(6, 9, 4, 20)
    ensures Moves(7, 10, 0, 3)
    ensures Moves(8, 16, 1, 45)
    ensures Moves(9, 22, 2, 61)
  {
    hide Source;
    Sources1();
  }

  lemma Moves2()
    ensures Moves(10, 1, 1, 1)
    ensures Moves(11, 7, 2, 6)
    ensures Moves(12, 13, 3, 25)
    ensures Moves(13, 19, 4, 8)
    ensures Moves(14, 20, 0, 18)
  {
    hide Source;
    Sources2();
  }

  lemma Moves3()
    ensures Moves(15, 4, 4, 27)
    ensures Moves(16, 5, 0, 36)
    ensures Moves(17, 11, 1, 10)
    ensures Moves(18, 17, 2, 15)
    ensures Moves(19, 23, 3, 56)
  {
    hide Source;
    Sources3();
  }

  lemma Moves4()
    ensures Moves(20, 2, 2, 62)
    ensures Moves(21, 8, 3, 55)
    ensures Moves(22, 14, 4, 39)
    ensures Moves(23, 15, 0, 41)
    ensures Moves(24, 21, 1, 2)
  {
    hide Source;
    Sources4();
  }

  lemma Rights0()
    ensures Right(0) == 1 && Right(1) == 2 && Right(2) == 3 && Right(3) == 4 && Right(4) == 0
  {
  }

  lemma Rights1()
    ensures Right(5) == 6 && Right(6) == 7 && Right(7) == 8 && Right(8) == 9 && Right(9) == 5
  {
  }

  lemma Rights2()
    ensures Right(10) == 11 && Right(11) == 12 && Right(12) == 13 && Right(13) == 14 && Right(14) == 10
  {
  }

  lemma Rights3()
    ensures Right(15) == 16 && Right(16) == 17 && Right(17) == 18 && Right(18) == 19 && Right(19) == 15
  {
  }

  lemma Rights4()
    ensures Right(20) == 21 && Right(21) == 22 && Right(22) == 23 && Right(23) == 24 && Right(24) == 20
  {
  }

  lemma ChiRow0(s: State)
    ensures RowIs(Chi(s), 0, Five(s[0], s[1], s[2], s[3], s[4]))
  {
    hide Mix, Chi, Right;
    Rights0();
    ChiAt(s, 0);
    ChiAt(s, 1);
    ChiAt(s, 2);
    ChiAt(s, 3);
    ChiAt(s, 4);
  }

  lemma ChiRow1(s: State)
    ensures RowIs(Chi(s), 1, Five(s[5], s[6], s[7], s[8], s[9]))
  {
    hide Mix, Chi, Right;
    Rights1();
    ChiAt(s, 5);
    ChiAt(s, 6);
    ChiAt(s, 7);
    ChiAt(s, 8);
    ChiAt(s, 9);
  }

  lemma ChiRow2(s: State)
    ensures RowIs(Chi(s), 2, Five(s[10], s[11], s[12], s[13], s[14]))
  {
    hide Mix, Chi, Right;
    Rights2();
    ChiAt(s, 10);
    ChiAt(s, 11);
    ChiAt(s, 12);
    ChiAt(s, 13);
    ChiAt(s, 14);
  }

  lemma ChiRow3(s: State)
    ensures RowIs(Chi(s), 3, Five(s[15], s[16], s[17], s[18], s[19]))
  {
    hide Mix, Chi, Right;
    Rights3();
    ChiAt(s, 15);
    ChiAt(s, 16);
    ChiAt(s, 17);
    ChiAt(s, 18);
    ChiAt(s, 19);
  }

  lemma ChiRow4(s: State)
    ensures RowIs(Chi(s), 4, Five(s[20], s[21], s[22], s[23], s[24]))
  {
    hide Mix, Chi, Right;
    Rights4();
    ChiAt(s, 20);
    ChiAt(s, 21);
    ChiAt(s, 22);
    ChiAt(s, 23);
    ChiAt(s, 24);
  }

  lemma MovedRow0(s: State)
    ensures RowIs(Chi(Moved(s)), 0, Before0(Five(s[0], s[6], s[12], s[18], s[24]), ParitiesOf(s)))
  {
    hide Xor, Rotl, Mix, Parity, Moved, Chi, Turned, ParitiesOf, RowIs, Moves;
    Moves0();
    ParityFields(s);
    MovedFirst(s);
    MovedFrom(s, 1, 6, 1, 44);
    MovedFrom(s, 2, 12, 2, 43);
    MovedFrom(s, 3, 18, 3, 21);
    MovedFrom(s, 4, 24, 4, 14);
    ChiRow0(Moved(s));
  }

  lemma MovedRow1(s: State)
    ensures RowIs(Chi(Moved(s)), 1, Before1(Five(s[10], s[16], s[22], s[3], s[9]), ParitiesOf(s)))
  {
    hide Xor, Rotl, Mix, Parity, Moved, Chi, Turned, ParitiesOf, RowIs, Moves;
    Moves1();
    ParityFields(s);
    MovedFrom(s, 5, 3, 3, 28);
    MovedFrom(s, 6, 9, 4, 20);
    MovedFrom(s, 7, 10, 0, 3);
    MovedFrom(s, 8, 16, 1, 45);
    MovedFrom(s, 9, 22, 2, 61);
    ChiRow1(Moved(s));
  }

  lemma MovedRow2(s: State)
    ensures RowIs(Chi(Moved(s)), 2, Before2(Five(s[20], s[1], s[7], s[13], s[19]), ParitiesOf(s)))
  {
    hide Xor, Rotl, Mix, Parity, Moved, Chi, Turned, ParitiesOf, RowIs, Moves;
    Moves2();
    ParityFields(s);
    MovedFrom(s, 10, 1, 1, 1);
    MovedFrom(s, 11, 7, 2, 6);
    MovedFrom(s, 12, 13, 3, 25);
    MovedFrom(s, 13, 19, 4, 8);
    MovedFrom(s, 14, 20, 0, 18);
    ChiRow2(Moved(s));
  }

  lemma MovedRow3(s: State)
    ensures RowIs(Chi(Moved(s)), 3, Before3(Five(s[5], s[11], s[17], s[23], s[4]), ParitiesOf(s)))
  {
    hide Xor, Rotl, Mix, Parity, Moved, Chi, Turned, ParitiesOf, RowIs, Moves;
    Moves3();
    ParityFields(s);
    MovedFrom(s, 15, 4, 4, 27);
    MovedFrom(s, 16, 5, 0, 36);
    MovedFrom(s, 17, 11, 1, 10);
    MovedFrom(s, 18, 17, 2, 15);
    MovedFrom(s, 19, 23, 3, 56);
    ChiRow3(Moved(s));
  }

  lemma MovedRow4(s: State)
    ensures RowIs(Chi(Moved(s)), 4, Before4(Five(s[15], s[21], s[2], s[8], s[14]), ParitiesOf(s)))
  {
    hide Xor, Rotl, Mix, Parity, Moved, Chi, Turned, ParitiesOf, RowIs, Moves;
    Moves4();
    ParityFields(s);
    MovedFrom(s, 20, 2, 2, 62);
    MovedFrom(s, 21, 8, 3, 55);
    MovedFrom(s, 22, 14, 4, 39);
    MovedFrom(s, 23, 15, 0, 41);
    MovedFrom(s, 24, 21, 1, 2);
    ChiRow4(Moved(s));
  }

  // ---------------------------------------------------------------------------------
  // The unrolled rounds
  // ---------------------------------------------------------------------------------

  /** Row y of s is held at p0 to p4. */
  ghost predicate RowAt(a: seq<lane>, p0: nat, p1: nat, p2: nat, p3: nat, p4: nat, s: State, y: nat) {
    |a| == 25 && y < 5 && p0 < 25 && p1 < 25 && p2 < 25 && p3 < 25 && p4 < 25
    && a[p0] == s[5 * y] && a[p1] == s[5 * y + 1] && a[p2] == s[5 * y + 2]
    && a[p3] == s[5 * y + 3] && a[p4] == s[5 * y + 4]
  }

  lemma Places1()
    ensures Place(1, 0) == 0 && Place(1, 1) == 6 && Place(1, 2) == 12 && Place(1, 3) == 18 && Place(1, 4) == 24
    ensures Place(1, 5) == 10 && Place(1, 6) == 16 && Place(1, 7) == 22 && Place(1, 8) == 3 && Place(1, 9) == 9
    ensures Place(1, 10) == 20 && Place(1, 11) == 1 && Place(1, 12) == 7 && Place(1, 13) == 13 && Place(1, 14) == 19
    ensures Place(1, 15) == 5 && Place(1, 16) == 11 && Place(1, 17) == 17 && Place(1, 18) == 23 && Place(1, 19) == 4
    ensures Place(1, 20) == 15 && Place(1, 21) == 21 && Place(1, 22) == 2 && Place(1, 23) == 8 && Place(1, 24) == 14
  {
  }

  lemma Places2a()
    ensures Place(2, 0) == 0 && Place(2, 1) == 16 && Place(2, 2) == 7 && Place(2, 3) == 23 && Place(2, 4) == 14
    ensures Place(2, 5) == 20 && Place(2, 6) == 11 && Place(2, 7) == 2 && Place(2, 8) == 18 && Place(2, 9) == 9
    ensures Place(2, 10) == 15 && Place(2, 11) == 6 && Place(2, 12) == 22 && Place(2, 13) == 13 && Place(2, 14) == 4
  {
  }

  lemma Places2b()
    ensures Place(2, 15) == 10 && Place(2, 16) == 1 && Place(2, 17) == 17 && Place(2, 18) == 8 && Place(2, 19) == 24
    ensures Place(2, 20) == 5 && Place(2, 21) == 21 && Place(2, 22) == 12 && Place(2, 23) == 3 && Place(2, 24) == 19
  {
  }

  lemma Places3a()
    ensures Place(3, 0) == 0 && Place(3, 1) == 11 && Place(3, 2) == 22 && Place(3, 3) == 8 && Place(3, 4) == 19
    ensures Place(3, 5) == 15 && Place(3, 6) == 1 && Place(3, 7) == 12 && Place(3, 8) == 23 && Place(3, 9) == 9
    ensures Place(3, 10) == 5 && Place(3, 11) == 16 && Place(3, 12) == 2 && Place(3, 13) == 13 && Place(3, 14) == 24
  {
  }

  lemma Places3b()
    ensures Place(3, 15) == 20 && Place(3, 16) == 6 && Place(3, 17) == 17 && Place(3, 18) == 3 && Place(3, 19) == 14
    ensures Place(3, 20) == 10 && Place(3, 21) == 21 && Place(3, 22) == 7 && Place(3, 23) == 18 && Place(3, 24) == 4
  {
  }

  /** The rows of a state after 1 of the four rounds. */
  lemma RowsHeld1(a: seq<lane>, s: State)
    ensures Represents(a, s, 1) <==>
            RowAt(a, 0, 6, 12, 18, 24, s, 0)
            && RowAt(a, 10, 16, 22, 3, 9, s, 1)
            && RowAt(a, 20, 1, 7, 13, 19, s, 2)
            && RowAt(a, 5, 11, 17, 23, 4, s, 3)
            && RowAt(a, 15, 21, 2, 8, 14, s, 4)
  {
    hide Place;
    Places1();
  }

  /** The rows of a state after 2 of the four rounds. */
  lemma RowsHeld2(a: seq<lane>, s: State)
    ensures Represents(a, s, 2) <==>
            RowAt(a, 0, 16, 7, 23, 14, s, 0)
            && RowAt(a, 20, 11, 2, 18, 9, s, 1)
            && RowAt(a, 15, 6, 22, 13, 4, s, 2)
            && RowAt(a, 10, 1, 17, 8, 24, s, 3)
            && RowAt(a, 5, 21, 12, 3, 19, s, 4)
  {
    hide Place;
    Places2a();
    Places2b();
  }

  /** The rows of a state after 3 of the four rounds. */
  lemma RowsHeld3(a: seq<lane>, s: State)
    ensures Represents(a, s, 3) <==>
            RowAt(a, 0, 11, 22, 8, 19, s, 0)
            && RowAt(a, 15, 1, 12, 23, 9, s, 1)
            && RowAt(a, 5, 16, 2, 13, 24, s, 2)
            && RowAt(a, 20, 6, 17, 3, 14, s, 3)
            && RowAt(a, 10, 21, 7, 18, 4, s, 4)
  {
    hide Place;
    Places3a();
    Places3b();
  }

  /** Five lanes at five places. */
  ghost predicate LanesAt(a: seq<lane>, p0: nat, p1: nat, p2: nat, p3: nat, p4: nat, c: Five) {
    |a| == 25 && p0 < 25 && p1 < 25 && p2 < 25 && p3 < 25 && p4 < 25
    && a[p0] == c.b0 && a[p1] == c.b1 && a[p2] == c.b2 && a[p3] == c.b3 && a[p4] == c.b4
  }

  lemma RowDone(was: seq<lane>, now: seq<lane>, p0: nat, p1: nat, p2: nat, p3: nat, p4: nat, b: Five, m: State, y: nat)
    requires |was| == |now| == 25 && p0 < 25 && p1 < 25 && p2 < 25 && p3 < 25 && p4 < 25 && y < 5
    requires Mixed(was, now, p0, p1, p2, p3, p4, b) && RowIs(m, y, b)
    ensures RowAt(now, p0, p1, p2, p3, p4, m, y)
  {
    hide Mix;
  }

  predicate Off(p0: nat, p1: nat, p2: nat, p3: nat, p4: nat, q: nat) {
    q != p0 && q != p1 && q != p2 && q != p3 && q != p4
  }

  /** Mixing a row leaves another as it is. */
  lemma RowKept(was: seq<lane>, now: seq<lane>, p0: nat, p1: nat, p2: nat, p3: nat, p4: nat, b: Five,
                q0: nat, q1: nat, q2: nat, q3: nat, q4: nat, s: State, y: nat)
    requires |was| == |now| == 25 && p0 < 25 && p1 < 25 && p2 < 25 && p3 < 25 && p4 < 25
    requires Mixed(was, now, p0, p1, p2, p3, p4, b) && RowAt(was, q0, q1, q2, q3, q4, s, y)
    requires Off(p0, p1, p2, p3, p4, q0) && Off(p0, p1, p2, p3, p4, q1) && Off(p0, p1, p2, p3, p4, q2)
    requires Off(p0, p1, p2, p3, p4, q3) && Off(p0, p1, p2, p3, p4, q4)
    ensures RowAt(now, q0, q1, q2, q3, q4, s, y)
  {
    hide Mix;
  }

  /** The constant goes to the first lane of the first row. */
  lemma IotaFirst(a: seq<lane>, c: seq<lane>, p1: nat, p2: nat, p3: nat, p4: nat, m: State, rc: lane)
    requires |a| == 25 && c == a[0 := Xor(a[0], rc)] && p1 > 0 && p2 > 0 && p3 > 0 && p4 > 0
    requires RowAt(a, 0, p1, p2, p3, p4, m, 0)
    ensures RowAt(c, 0, p1, p2, p3, p4, Iota(m, rc), 0)
  {
    hide Xor;
  }

  lemma RowOf(a: seq<lane>, s: State, y: nat)
    requires y < 5 && RowAt(a, 5 * y, 5 * y + 1, 5 * y + 2, 5 * y + 3, 5 * y + 4, s, y)
    ensures |a| == 25 && forall i :: 5 * y <= i < 5 * y + 5 ==> a[i] == s[i]
  {
  }

  lemma RowsHome(a: seq<lane>, s: State)
    requires RowAt(a, 0, 1, 2, 3, 4, s, 0) && RowAt(a, 5, 6, 7, 8, 9, s, 1) && RowAt(a, 10, 11, 12, 13, 14, s, 2)
    requires RowAt(a, 15, 16, 17, 18, 19, s, 3) && RowAt(a, 20, 21, 22, 23, 24, s, 4)
    ensures a == s
  {
    hide RowAt;
    RowOf(a, s, 0);
    RowOf(a, s, 1);
    RowOf(a, s, 2);
    RowOf(a, s, 3);
    RowOf(a, s, 4);
  }

  /** The five rows of a round, mixed one after another, with the constant added to the first lane. */
  ghost predicate Steps(a0: seq<lane>, a1: seq<lane>, c1: seq<lane>, rc: lane) {
    |a0| == |a1| == |c1| == 25 && c1 == a1[0 := Xor(a1[0], rc)]
  }

  lemma IotaRow(m: State, rc: lane, y: nat, b: Five)
    requires 1 <= y < 5 && RowIs(m, y, b)
    ensures RowIs(Iota(m, rc), y, b)
  {
    hide Mix, Xor;
  }

  /** The first three rows of round 1. */
  lemma Begin1(a0: seq<lane>, a1: seq<lane>, c1: seq<lane>, a2: seq<lane>, a3: seq<lane>, rc: lane, m: State,
               b0: Five, b1: Five, b2: Five)
    requires Steps(a0, a1, c1, rc) && |a2| == |a3| == 25
    requires Mixed(a0, a1, 0, 6, 12, 18, 24, b0) && RowIs(m, 0, b0)
    requires Mixed(c1, a2, 10, 16, 22, 3, 9, b1) && RowIs(m, 1, b1)
    requires Mixed(a2, a3, 20, 1, 7, 13, 19, b2) && RowIs(m, 2, b2)
    ensures RowAt(a3, 0, 6, 12, 18, 24, Iota(m, rc), 0) && RowAt(a3, 10, 16, 22, 3, 9, Iota(m, rc), 1)
    ensures RowAt(a3, 20, 1, 7, 13, 19, Iota(m, rc), 2)
  {
    hide Mix, Xor, Mixed, RowAt, RowIs, Iota;
    var n := Iota(m, rc);
    RowDone(a0, a1, 0, 6, 12, 18, 24, b0, m, 0);
    IotaFirst(a1, c1, 6, 12, 18, 24, m, rc);
    IotaRow(m, rc, 1, b1);
    RowDone(c1, a2, 10, 16, 22, 3, 9, b1, n, 1);
    RowKept(c1, a2, 10, 16, 22, 3, 9, b1, 0, 6, 12, 18, 24, n, 0);
    IotaRow(m, rc, 2, b2);
    RowDone(a2, a3, 20, 1, 7, 13, 19, b2, n, 2);
    RowKept(a2, a3, 20, 1, 7, 13, 19, b2, 0, 6, 12, 18, 24, n, 0);
    RowKept(a2, a3, 20, 1, 7, 13, 19, b2, 10, 16, 22, 3, 9, n, 1);
  }

  lemma Finish1(a0: seq<lane>, a1: seq<lane>, c1: seq<lane>, a2: seq<lane>, a3: seq<lane>, a4: seq<lane>,
                a5: seq<lane>, rc: lane, m: State, b0: Five, b1: Five, b2: Five, b3: Five, b4: Five)
    requires Steps(a0, a1, c1, rc) && |a2| == |a3| == |a4| == |a5| == 25
    requires Mixed(a0, a1, 0, 6, 12, 18, 24, b0) && RowIs(m, 0, b0)
    requires Mixed(c1, a2, 10, 16, 22, 3, 9, b1) && RowIs(m, 1, b1)
    requires Mixed(a2, a3, 20, 1, 7, 13, 19, b2) && RowIs(m, 2, b2)
    requires Mixed(a3, a4, 5, 11, 17, 23, 4, b3) && RowIs(m, 3, b3)
    requires Mixed(a4, a5, 15, 21, 2, 8, 14, b4) && RowIs(m, 4, b4)
    ensures Represents(a5, Iota(m, rc), 1)
  {
    hide Mix, Xor, Represents, Mixed, RowAt, RowIs, Iota;
    var n := Iota(m, rc);
    Begin1(a0, a1, c1, a2, a3, rc, m, b0, b1, b2);
    IotaRow(m, rc, 3, b3);
    RowDone(a3, a4, 5, 11, 17, 23, 4, b3, n, 3);
    RowKept(a3, a4, 5, 11, 17, 23, 4, b3, 0, 6, 12, 18, 24, n, 0);
    RowKept(a3, a4, 5, 11, 17, 23, 4, b3, 10, 16, 22, 3, 9, n, 1);
    RowKept(a3, a4, 5, 11, 17, 23, 4, b3, 20, 1, 7, 13, 19, n, 2);
    IotaRow(m, rc, 4, b4);
    RowDone(a4, a5, 15, 21, 2, 8, 14, b4, n, 4);
    RowKept(a4, a5, 15, 21, 2, 8, 14, b4, 0, 6, 12, 18, 24, n, 0);
    RowKept(a4, a5, 15, 21, 2, 8, 14, b4, 10, 16, 22, 3, 9, n, 1);
    RowKept(a4, a5, 15, 21, 2, 8, 14, b4, 20, 1, 7, 13, 19, n, 2);
    RowKept(a4, a5, 15, 21, 2, 8, 14, b4, 5, 11, 17, 23, 4, n, 3);
    RowsHeld1(a5, n);
  }

  /** Rows of round 1 find the lanes the standard moves there. */
  lemma Inputs1a(a0: seq<lane>, a1: seq<lane>, c1: seq<lane>, a2: seq<lane>, rc: lane, s: State,
                 b0: Five, b1: Five)
    requires Steps(a0, a1, c1, rc) && |a2| == 25 && Represents(a0, s, 0)
    requires Mixed(a0, a1, 0, 6, 12, 18, 24, b0)
    requires Mixed(c1, a2, 10, 16, 22, 3, 9, b1)
    ensures LanesAt(a0, 0, 6, 12, 18, 24, Five(s[0], s[6], s[12], s[18], s[24]))
    ensures LanesAt(c1, 10, 16, 22, 3, 9, Five(s[10], s[16], s[22], s[3], s[9]))
    ensures LanesAt(a2, 20, 1, 7, 13, 19, Five(s[20], s[1], s[7], s[13], s[19]))
  {
    hide Mix, Xor, Represents;
    HomeAgain(a0, s, 0);
  }

  /** Rows of round 1 find the lanes the standard moves there. */
  lemma Inputs1b(a0: seq<lane>, a1: seq<lane>, c1: seq<lane>, a2: seq<lane>, a3: seq<lane>, a4: seq<lane>, rc: lane, s: State,
                 b0: Five, b1: Five, b2: Five, b3: Five)
    requires Steps(a0, a1, c1, rc) && |a2| == |a3| == |a4| == 25 && Represents(a0, s, 0)
    requires Mixed(a0, a1, 0, 6, 12, 18, 24, b0)
    requires Mixed(c1, a2, 10, 16, 22, 3, 9, b1)
    requires Mixed(a2, a3, 20, 1, 7, 13, 19, b2)
    requires Mixed(a3, a4, 5, 11, 17, 23, 4, b3)
    ensures LanesAt(a3, 5, 11, 17, 23, 4, Five(s[5], s[11], s[17], s[23], s[4]))
    ensures LanesAt(a4, 15, 21, 2, 8, 14, Five(s[15], s[21], s[2], s[8], s[14]))
  {
    hide Mix, Xor, Represents;
    HomeAgain(a0, s, 0);
  }

  /** The first three rows of round 2. */
  lemma Begin2(a0: seq<lane>, a1: seq<lane>, c1: seq<lane>, a2: seq<lane>, a3: seq<lane>, rc: lane, m: State,
               b0: Five, b1: Five, b2: Five)
    requires Steps(a0, a1, c1, rc) && |a2| == |a3| == 25
    requires Mixed(a0, a1, 0, 16, 7, 23, 14, b0) && RowIs(m, 0, b0)
    requires Mixed(c1, a2, 20, 11, 2, 18, 9, b1) && RowIs(m, 1, b1)
    requires Mixed(a2, a3, 15, 6, 22, 13, 4, b2) && RowIs(m, 2, b2)
    ensures RowAt(a3, 0, 16, 7, 23, 14, Iota(m, rc), 0) && RowAt(a3, 20, 11, 2, 18, 9, Iota(m, rc), 1)
    ensures RowAt(a3, 15, 6, 22, 13, 4, Iota(m, rc), 2)
  {
    hide Mix, Xor, Mixed, RowAt, RowIs, Iota;
    var n := Iota(m, rc);
    RowDone(a0, a1, 0, 16, 7, 23, 14, b0, m, 0);
    IotaFirst(a1, c1, 16, 7, 23, 14, m, rc);
    IotaRow(m, rc, 1, b1);
    RowDone(c1, a2, 20, 11, 2, 18, 9, b1, n, 1);
    RowKept(c1, a2, 20, 11, 2, 18, 9, b1, 0, 16, 7, 23, 14, n, 0);
    IotaRow(m, rc, 2, b2);
    RowDone(a2, a3, 15, 6, 22, 13, 4, b2, n, 2);
    RowKept(a2, a3, 15, 6, 22, 13, 4, b2, 0, 16, 7, 23, 14, n, 0);
    RowKept(a2, a3, 15, 6, 22, 13, 4, b2, 20, 11, 2, 18, 9, n, 1);
  }

  lemma Finish2(a0: seq<lane>, a1: seq<lane>, c1: seq<lane>, a2: seq<lane>, a3: seq<lane>, a4: seq<lane>,
                a5: seq<lane>, rc: lane, m: State, b0: Five, b1: Five, b2: Five, b3: Five, b4: Five)
    requires Steps(a0, a1, c1, rc) && |a2| == |a3| == |a4| == |a5| == 25
    requires Mixed(a0, a1, 0, 16, 7, 23, 14, b0) && RowIs(m, 0, b0)
    requires Mixed(c1, a2, 20, 11, 2, 18, 9, b1) && RowIs(m, 1, b1)
    requires Mixed(a2, a3, 15, 6, 22, 13, 4, b2) && RowIs(m, 2, b2)
    requires Mixed(a3, a4, 10, 1, 17, 8, 24, b3) && RowIs(m, 3, b3)
    requires Mixed(a4, a5, 5, 21, 12, 3, 19, b4) && RowIs(m, 4, b4)
    ensures Represents(a5, Iota(m, rc), 2)
  {
    hide Mix, Xor, Represents, Mixed, RowAt, RowIs, Iota;
    var n := Iota(m, rc);
    Begin2(a0, a1, c1, a2, a3, rc, m, b0, b1, b2);
    IotaRow(m, rc, 3, b3);
    RowDone(a3, a4, 10, 1, 17, 8, 24, b3, n, 3);
    RowKept(a3, a4, 10, 1, 17, 8, 24, b3, 0, 16, 7, 23, 14, n, 0);
    RowKept(a3, a4, 10, 1, 17, 8, 24, b3, 20, 11, 2, 18, 9, n, 1);
    RowKept(a3, a4, 10, 1, 17, 8, 24, b3, 15, 6, 22, 13, 4, n, 2);
    IotaRow(m, rc, 4, b4);
    RowDone(a4, a5, 5, 21, 12, 3, 19, b4, n, 4);
    RowKept(a4, a5, 5, 21, 12, 3, 19, b4, 0, 16, 7, 23, 14, n, 0);
    RowKept(a4, a5, 5, 21, 12, 3, 19, b4, 20, 11, 2, 18, 9, n, 1);
    RowKept(a4, a5, 5, 21, 12, 3, 19, b4, 15, 6, 22, 13, 4, n, 2);
    RowKept(a4, a5, 5, 21, 12, 3, 19, b4, 10, 1, 17, 8, 24, n, 3);
    RowsHeld2(a5, n);
  }

  /** Rows of round 2 find the lanes the standard moves there. */
  lemma Inputs2a(a0: seq<lane>, a1: seq<lane>, c1: seq<lane>, a2: seq<lane>, rc: lane, s: State,
                 b0: Five, b1: Five)
    requires Steps(a0, a1, c1, rc) && |a2| == 25 && Represents(a0, s, 1)
    requires Mixed(a0, a1, 0, 16, 7, 23, 14, b0)
    requires Mixed(c1, a2, 20, 11, 2, 18, 9, b1)
    ensures LanesAt(a0, 0, 16, 7, 23, 14, Five(s[0], s[6], s[12], s[18], s[24]))
    ensures LanesAt(c1, 20, 11, 2, 18, 9, Five(s[10], s[16], s[22], s[3], s[9]))
    ensures LanesAt(a2, 15, 6, 22, 13, 4, Five(s[20], s[1], s[7], s[13], s[19]))
  {
    hide Mix, Xor, Represents;
    RowsHeld1(a0, s);
  }

  /** Rows of round 2 find the lanes the standard moves there. */
  lemma Inputs2b(a0: seq<lane>, a1: seq<lane>, c1: seq<lane>, a2: seq<lane>, a3: seq<lane>, a4: seq<lane>, rc: lane, s: State,
                 b0: Five, b1: Five, b2: Five, b3: Five)
    requires Steps(a0, a1, c1, rc) && |a2| == |a3| == |a4| == 25 && Represents(a0, s, 1)
    requires Mixed(a0, a1, 0, 16, 7, 23, 14, b0)
    requires Mixed(c1, a2, 20, 11, 2, 18, 9, b1)
    requires Mixed(a2, a3, 15, 6, 22, 13, 4, b2)
    requires Mixed(a3, a4, 10, 1, 17, 8, 24, b3)
    ensures LanesAt(a3, 10, 1, 17, 8, 24, Five(s[5], s[11], s[17], s[23], s[4]))
    ensures LanesAt(a4, 5, 21, 12, 3, 19, Five(s[15], s[21], s[2], s[8], s[14]))
  {
    hide Mix, Xor, Represents;
    RowsHeld1(a0, s);
  }

  /** The first three rows of round 3. */
  lemma Begin3(a0: seq<lane>, a1: seq<lane>, c1: seq<lane>, a2: seq<lane>, a3: seq<lane>, rc: lane, m: State,
               b0: Five, b1: Five, b2: Five)
    requires Steps(a0, a1, c1, rc) && |a2| == |a3| == 25
    requires Mixed(a0, a1, 0, 11, 22, 8, 19, b0) && RowIs(m, 0, b0)
    requires Mixed(c1, a2, 15, 1, 12, 23, 9, b1) && RowIs(m, 1, b1)
    requires Mixed(a2, a3, 5, 16, 2, 13, 24, b2) && RowIs(m, 2, b2)
    ensures RowAt(a3, 0, 11, 22, 8, 19, Iota(m, rc), 0) && RowAt(a3, 15, 1, 12, 23, 9, Iota(m, rc), 1)
    ensures RowAt(a3, 5, 16, 2, 13, 24, Iota(m, rc), 2)
  {
    hide Mix, Xor, Mixed, RowAt, RowIs, Iota;
    var n := Iota(m, rc);
    RowDone(a0, a1, 0, 11, 22, 8, 19, b0, m, 0);
    IotaFirst(a1, c1, 11, 22, 8, 19, m, rc);
    IotaRow(m, rc, 1, b1);
    RowDone(c1, a2, 15, 1, 12, 23, 9, b1, n, 1);
    RowKept(c1, a2, 15, 1, 12, 23, 9, b1, 0, 11, 22, 8, 19, n, 0);
    IotaRow(m, rc, 2, b2);
    RowDone(a2, a3, 5, 16, 2, 13, 24, b2, n, 2);
    RowKept(a2, a3, 5, 16, 2, 13, 24, b2, 0, 11, 22, 8, 19, n, 0);
    RowKept(a2, a3, 5, 16, 2, 13, 24, b2, 15, 1, 12, 23, 9, n, 1);
  }

  lemma Finish3(a0: seq<lane>, a1: seq<lane>, c1: seq<lane>, a2: seq<lane>, a3: seq<lane>, a4: seq<lane>,
                a5: seq<lane>, rc: lane, m: State, b0: Five, b1: Five, b2: Five, b3: Five, b4: Five)
    requires Steps(a0, a1, c1, rc) && |a2| == |a3| == |a4| == |a5| == 25
    requires Mixed(a0, a1, 0, 11, 22, 8, 19, b0) && RowIs(m, 0, b0)
    requires Mixed(c1, a2, 15, 1, 12, 23, 9, b1) && RowIs(m, 1, b1)
    requires Mixed(a2, a3, 5, 16, 2, 13, 24, b2) && RowIs(m, 2, b2)
    requires Mixed(a3, a4, 20, 6, 17, 3, 14, b3) && RowIs(m, 3, b3)
    requires Mixed(a4, a5, 10, 21, 7, 18, 4, b4) && RowIs(m, 4, b4)
    ensures Represents(a5, Iota(m, rc), 3)
  {
    hide Mix, Xor, Represents, Mixed, RowAt, RowIs, Iota;
    var n := Iota(m, rc);
    Begin3(a0, a1, c1, a2, a3, rc, m, b0, b1, b2);
    IotaRow(m, rc, 3, b3);
    RowDone(a3, a4, 20, 6, 17, 3, 14, b3, n, 3);
    RowKept(a3, a4, 20, 6, 17, 3, 14, b3, 0, 11, 22, 8, 19, n, 0);
    RowKept(a3, a4, 20, 6, 17, 3, 14, b3, 15, 1, 12, 23, 9, n, 1);
    RowKept(a3, a4, 20, 6, 17, 3, 14, b3, 5, 16, 2, 13, 24, n, 2);
    IotaRow(m, rc, 4, b4);
    RowDone(a4, a5, 10, 21, 7, 18, 4, b4, n, 4);
    RowKept(a4, a5, 10, 21, 7, 18, 4, b4, 0, 11, 22, 8, 19, n, 0);
    RowKept(a4, a5, 10, 21, 7, 18, 4, b4, 15, 1, 12, 23, 9, n, 1);
    RowKept(a4, a5, 10, 21, 7, 18, 4, b4, 5, 16, 2, 13, 24, n, 2);
    RowKept(a4, a5, 10, 21, 7, 18, 4, b4, 20, 6, 17, 3, 14, n, 3);
    RowsHeld3(a5, n);
  }

  /** Rows of round 3 find the lanes the standard moves there. */
  lemma Inputs3a(a0: seq<lane>, a1: seq<lane>, c1: seq<lane>, a2: seq<lane>, rc: lane, s: State,
                 b0: Five, b1: Five)
    requires Steps(a0, a1, c1, rc) && |a2| == 25 && Represents(a0, s, 2)
    requires Mixed(a0, a1, 0, 11, 22, 8, 19, b0)
    requires Mixed(c1, a2, 15, 1, 12, 23, 9, b1)
    ensures LanesAt(a0, 0, 11, 22, 8, 19, Five(s[0], s[6], s[12], s[18], s[24]))
    ensures LanesAt(c1, 15, 1, 12, 23, 9, Five(s[10], s[16], s[22], s[3], s[9]))
    ensures LanesAt(a2, 5, 16, 2, 13, 24, Five(s[20], s[1], s[7], s[13], s[19]))
  {
    hide Mix, Xor, Represents;
    RowsHeld2(a0, s);
  }

  /** Rows of round 3 find the lanes the standard moves there. */
  lemma Inputs3b(a0: seq<lane>, a1: seq<lane>, c1: seq<lane>, a2: seq<lane>, a3: seq<lane>, a4: seq<lane>, rc: lane, s: State,
                 b0: Five, b1: Five, b2: Five, b3: Five)
    requires Steps(a0, a1, c1, rc) && |a2| == |a3| == |a4| == 25 && Represents(a0, s, 2)
    requires Mixed(a0, a1, 0, 11, 22, 8, 19, b0)
    requires Mixed(c1, a2, 15, 1, 12, 23, 9, b1)
    requires Mixed(a2, a3, 5, 16, 2, 13, 24, b2)
    requires Mixed(a3, a4, 20, 6, 17, 3, 14, b3)
    ensures LanesAt(a3, 20, 6, 17, 3, 14, Five(s[5], s[11], s[17], s[23], s[4]))
    ensures LanesAt(a4, 10, 21, 7, 18, 4, Five(s[15], s[21], s[2], s[8], s[14]))
  {
    hide Mix, Xor, Represents;
    RowsHeld2(a0, s);
  }

  /** The first three rows of round 4. */
  lemma Begin4(a0: seq<lane>, a1: seq<lane>, c1: seq<lane>, a2: seq<lane>, a3: seq<lane>, rc: lane, m: State,
               b0: Five, b1: Five, b2: Five)
    requires Steps(a0, a1, c1, rc) && |a2| == |a3| == 25
    requires Mixed(a0, a1, 0, 1, 2, 3, 4, b0) && RowIs(m, 0, b0)
    requires Mixed(c1, a2, 5, 6, 7, 8, 9, b1) && RowIs(m, 1, b1)
    requires Mixed(a2, a3, 10, 11, 12, 13, 14, b2) && RowIs(m, 2, b2)
    ensures RowAt(a3, 0, 1, 2, 3, 4, Iota(m, rc), 0) && RowAt(a3, 5, 6, 7, 8, 9, Iota(m, rc), 1)
    ensures RowAt(a3, 10, 11, 12, 13, 14, Iota(m, rc), 2)
  {
    hide Mix, Xor, Mixed, RowAt, RowIs, Iota;
    var n := Iota(m, rc);
    RowDone(a0, a1, 0, 1, 2, 3, 4, b0, m, 0);
    IotaFirst(a1, c1, 1, 2, 3, 4, m, rc);
    IotaRow(m, rc, 1, b1);
    RowDone(c1, a2, 5, 6, 7, 8, 9, b1, n, 1);
    RowKept(c1, a2, 5, 6, 7, 8, 9, b1, 0, 1, 2, 3, 4, n, 0);
    IotaRow(m, rc, 2, b2);
    RowDone(a2, a3, 10, 11, 12, 13, 14, b2, n, 2);
    RowKept(a2, a3, 10, 11, 12, 13, 14, b2, 0, 1, 2, 3, 4, n, 0);
    RowKept(a2, a3, 10, 11, 12, 13, 14, b2, 5, 6, 7, 8, 9, n, 1);
  }

  lemma Finish4(a0: seq<lane>, a1: seq<lane>, c1: seq<lane>, a2: seq<lane>, a3: seq<lane>, a4: seq<lane>,
                a5: seq<lane>, rc: lane, m: State, b0: Five, b1: Five, b2: Five, b3: Five, b4: Five)
    requires Steps(a0, a1, c1, rc) && |a2| == |a3| == |a4| == |a5| == 25
    requires Mixed(a0, a1, 0, 1, 2, 3, 4, b0) && RowIs(m, 0, b0)
    requires Mixed(c1, a2, 5, 6, 7, 8, 9, b1) && RowIs(m, 1, b1)
    requires Mixed(a2, a3, 10, 11, 12, 13, 14, b2) && RowIs(m, 2, b2)
    requires Mixed(a3, a4, 15, 16, 17, 18, 19, b3) && RowIs(m, 3, b3)
    requires Mixed(a4, a5, 20, 21, 22, 23, 24, b4) && RowIs(m, 4, b4)
    ensures a5 == Iota(m, rc)
  {
    hide Mix, Xor, Represents, Mixed, RowAt, RowIs, Iota;
    var n := Iota(m, rc);
    Begin4(a0, a1, c1, a2, a3, rc, m, b0, b1, b2);
    IotaRow(m, rc, 3, b3);
    RowDone(a3, a4, 15, 16, 17, 18, 19, b3, n, 3);
    RowKept(a3, a4, 15, 16, 17, 18, 19, b3, 0, 1, 2, 3, 4, n, 0);
    RowKept(a3, a4, 15, 16, 17, 18, 19, b3, 5, 6, 7, 8, 9, n, 1);
    RowKept(a3, a4, 15, 16, 17, 18, 19, b3, 10, 11, 12, 13, 14, n, 2);
    IotaRow(m, rc, 4, b4);
    RowDone(a4, a5, 20, 21, 22, 23, 24, b4, n, 4);
    RowKept(a4, a5, 20, 21, 22, 23, 24, b4, 0, 1, 2, 3, 4, n, 0);
    RowKept(a4, a5, 20, 21, 22, 23, 24, b4, 5, 6, 7, 8, 9, n, 1);
    RowKept(a4, a5, 20, 21, 22, 23, 24, b4, 10, 11, 12, 13, 14, n, 2);
    RowKept(a4, a5, 20, 21, 22, 23, 24, b4, 15, 16, 17, 18, 19, n, 3);
    RowsHome(a5, n);
  }

  /** Rows of round 4 find the lanes the standard moves there. */
  lemma Inputs4a(a0: seq<lane>, a1: seq<lane>, c1: seq<lane>, a2: seq<lane>, rc: lane, s: State,
                 b0: Five, b1: Five)
    requires Steps(a0, a1, c1, rc) && |a2| == 25 && Represents(a0, s, 3)
    requires Mixed(a0, a1, 0, 1, 2, 3, 4, b0)
    requires Mixed(c1, a2, 5, 6, 7, 8, 9, b1)
    ensures LanesAt(a0, 0, 1, 2, 3, 4, Five(s[0], s[6], s[12], s[18], s[24]))
    ensures LanesAt(c1, 5, 6, 7, 8, 9, Five(s[10], s[16], s[22], s[3], s[9]))
    ensures LanesAt(a2, 10, 11, 12, 13, 14, Five(s[20], s[1], s[7], s[13], s[19]))
  {
    hide Mix, Xor, Represents;
    RowsHeld3(a0, s);
  }

  /** Rows of round 4 find the lanes the standard moves there. */
  lemma Inputs4b(a0: seq<lane>, a1: seq<lane>, c1: seq<lane>, a2: seq<lane>, a3: seq<lane>, a4: seq<lane>, rc: lane, s: State,
                 b0: Five, b1: Five, b2: Five, b3: Five)
    requires Steps(a0, a1, c1, rc) && |a2| == |a3| == |a4| == 25 && Represents(a0, s, 3)
    requires Mixed(a0, a1, 0, 1, 2, 3, 4, b0)
    requires Mixed(c1, a2, 5, 6, 7, 8, 9, b1)
    requires Mixed(a2, a3, 10, 11, 12, 13, 14, b2)
    requires Mixed(a3, a4, 15, 16, 17, 18, 19, b3)
    ensures LanesAt(a3, 15, 16, 17, 18, 19, Five(s[5], s[11], s[17], s[23], s[4]))
    ensures LanesAt(a4, 20, 21, 22, 23, 24, Five(s[15], s[21], s[2], s[8], s[14]))
  {
    hide Mix, Xor, Represents;
    RowsHeld3(a0, s);
  }

  lemma ParitiesHeld1(a: seq<lane>, s: State)
    requires |a| == 25 && Represents(a, s, 1)
    ensures ParitiesOf(a) == ParitiesOf(s)
  {
    hide Xor5, Xor, Rotl, Represents;
    RowsHeld1(a, s);
    Xor5Orders(s[0], s[5], s[10], s[15], s[20]);
    Xor5Orders(s[1], s[6], s[11], s[16], s[21]);
    Xor5Orders(s[2], s[7], s[12], s[17], s[22]);
    Xor5Orders(s[3], s[8], s[13], s[18], s[23]);
    Xor5Orders(s[4], s[9], s[14], s[19], s[24]);
  }

  lemma ParitiesHeld2(a: seq<lane>, s: State)
    requires |a| == 25 && Represents(a, s, 2)
    ensures ParitiesOf(a) == ParitiesOf(s)
  {
    hide Xor5, Xor, Rotl, Represents;
    RowsHeld2(a, s);
    Xor5Orders(s[0], s[5], s[10], s[15], s[20]);
    Xor5Orders(s[1], s[6], s[11], s[16], s[21]);
    Xor5Orders(s[2], s[7], s[12], s[17], s[22]);
    Xor5Orders(s[3], s[8], s[13], s[18], s[23]);
    Xor5Orders(s[4], s[9], s[14], s[19], s[24]);
  }

  lemma ParitiesHeld3(a: seq<lane>, s: State)
    requires |a| == 25 && Represents(a, s, 3)
    ensures ParitiesOf(a) == ParitiesOf(s)
  {
    hide Xor5, Xor, Rotl, Represents;
    RowsHeld3(a, s);
    Xor5Orders(s[0], s[5], s[10], s[15], s[20]);
    Xor5Orders(s[1], s[6], s[11], s[16], s[21]);
    Xor5Orders(s[2], s[7], s[12], s[17], s[22]);
    Xor5Orders(s[3], s[8], s[13], s[18], s[23]);
    Xor5Orders(s[4], s[9], s[14], s[19], s[24]);
  }

  method Round1(a: array<lane>, rc: lane, ghost s: State)
    requires a.Length == 25 && Represents(a[..], s, 0)
    modifies a
    ensures Represents(a[..], Round(s, rc), 1)
  {
    hide Xor, Represents, ParitiesOf, Before0, Before1, Before2, Before3, Before4, Mixed, RowIs, Chi, Pi, Rho, Theta, Iota;
    ghost var a0 := a[..];
    HomeAgain(a0, s, 0);
    var d := ColumnParities(a);
    Row0(a, d, 0, 6, 12, 18, 24);
    ghost var a1 := a[..];
    a[0] := Xor(a[0], rc);
    ghost var c1 := a[..];
    Row1(a, d, 10, 16, 22, 3, 9);
    ghost var a2 := a[..];
    Row2(a, d, 20, 1, 7, 13, 19);
    ghost var a3 := a[..];
    Row3(a, d, 5, 11, 17, 23, 4);
    ghost var a4 := a[..];
    Row4(a, d, 15, 21, 2, 8, 14);
    ghost var a5 := a[..];
    ghost var b0 := Before0(Five(a0[0], a0[6], a0[12], a0[18], a0[24]), d);
    ghost var b1 := Before1(Five(c1[10], c1[16], c1[22], c1[3], c1[9]), d);
    ghost var b2 := Before2(Five(a2[20], a2[1], a2[7], a2[13], a2[19]), d);
    ghost var b3 := Before3(Five(a3[5], a3[11], a3[17], a3[23], a3[4]), d);
    ghost var b4 := Before4(Five(a4[15], a4[21], a4[2], a4[8], a4[14]), d);
    Inputs1a(a0, a1, c1, a2, rc, s, b0, b1);
    Inputs1b(a0, a1, c1, a2, a3, a4, rc, s, b0, b1, b2, b3);
    MovedRow0(s);
    MovedRow1(s);
    MovedRow2(s);
    MovedRow3(s);
    MovedRow4(s);
    Finish1(a0, a1, c1, a2, a3, a4, a5, rc, Chi(Moved(s)), b0, b1, b2, b3, b4);
  }

  method Round2(a: array<lane>, rc: lane, ghost s: State)
    requires a.Length == 25 && Represents(a[..], s, 1)
    modifies a
    ensures Represents(a[..], Round(s, rc), 2)
  {
    hide Xor, Represents, ParitiesOf, Before0, Before1, Before2, Before3, Before4, Mixed, RowIs, Chi, Pi, Rho, Theta, Iota;
    ghost var a0 := a[..];
    ParitiesHeld1(a0, s);
    var d := ColumnParities(a);
    Row0(a, d, 0, 16, 7, 23, 14);
    ghost var a1 := a[..];
    a[0] := Xor(a[0], rc);
    ghost var c1 := a[..];
    Row1(a, d, 20, 11, 2, 18, 9);
    ghost var a2 := a[..];
    Row2(a, d, 15, 6, 22, 13, 4);
    ghost var a3 := a[..];
    Row3(a, d, 10, 1, 17, 8, 24);
    ghost var a4 := a[..];
    Row4(a, d, 5, 21, 12, 3, 19);
    ghost var a5 := a[..];
    ghost var b0 := Before0(Five(a0[0], a0[16], a0[7], a0[23], a0[14]), d);
    ghost var b1 := Before1(Five(c1[20], c1[11], c1[2], c1[18], c1[9]), d);
    ghost var b2 := Before2(Five(a2[15], a2[6], a2[22], a2[13], a2[4]), d);
    ghost var b3 := Before3(Five(a3[10], a3[1], a3[17], a3[8], a3[24]), d);
    ghost var b4 := Before4(Five(a4[5], a4[21], a4[12], a4[3], a4[19]), d);
    Inputs2a(a0, a1, c1, a2, rc, s, b0, b1);
    Inputs2b(a0, a1, c1, a2, a3, a4, rc, s, b0, b1, b2, b3);
    MovedRow0(s);
    MovedRow1(s);
    MovedRow2(s);
    MovedRow3(s);
    MovedRow4(s);
    Finish2(a0, a1, c1, a2, a3, a4, a5, rc, Chi(Moved(s)), b0, b1, b2, b3, b4);
  }

  method Round3(a: array<lane>, rc: lane, ghost s: State)
    requires a.Length == 25 && Represents(a[..], s, 2)
    modifies a
    ensures Represents(a[..], Round(s, rc), 3)
  {
    hide Xor, Represents, ParitiesOf, Before0, Before1, Before2, Before3, Before4, Mixed, RowIs, Chi, Pi, Rho, Theta, Iota;
    ghost var a0 := a[..];
    ParitiesHeld2(a0, s);
    var d := ColumnParities(a);
    Row0(a, d, 0, 11, 22, 8, 19);
    ghost var a1 := a[..];
    a[0] := Xor(a[0], rc);
    ghost var c1 := a[..];
    Row1(a, d, 15, 1, 12, 23, 9);
    ghost var a2 := a[..];
    Row2(a, d, 5, 16, 2, 13, 24);
    ghost var a3 := a[..];
    Row3(a, d, 20, 6, 17, 3, 14);
    ghost var a4 := a[..];
    Row4(a, d, 10, 21, 7, 18, 4);
    ghost var a5 := a[..];
    ghost var b0 := Before0(Five(a0[0], a0[11], a0[22], a0[8], a0[19]), d);
    ghost var b1 := Before1(Five(c1[15], c1[1], c1[12], c1[23], c1[9]), d);
    ghost var b2 := Before2(Five(a2[5], a2[16], a2[2], a2[13], a2[24]), d);
    ghost var b3 := Before3(Five(a3[20], a3[6], a3[17], a3[3], a3[14]), d);
    ghost var b4 := Before4(Five(a4[10], a4[21], a4[7], a4[18], a4[4]), d);
    Inputs3a(a0, a1, c1, a2, rc, s, b0, b1);
    Inputs3b(a0, a1, c1, a2, a3, a4, rc, s, b0, b1, b2, b3);
    MovedRow0(s);
    MovedRow1(s);
    MovedRow2(s);
    MovedRow3(s);
    MovedRow4(s);
    Finish3(a0, a1, c1, a2, a3, a4, a5, rc, Chi(Moved(s)), b0, b1, b2, b3, b4);
  }

  method Round4(a: array<lane>, rc: lane, ghost s: State)
    requires a.Length == 25 && Represents(a[..], s, 3)
    modifies a
    ensures Represents(a[..], Round(s, rc), 4)
  {
    hide Xor, Represents, ParitiesOf, Before0, Before1, Before2, Before3, Before4, Mixed, RowIs, Chi, Pi, Rho, Theta, Iota;
    ghost var a0 := a[..];
    ParitiesHeld3(a0, s);
    var d := ColumnParities(a);
    Row0(a, d, 0, 1, 2, 3, 4);
    ghost var a1 := a[..];
    a[0] := Xor(a[0], rc);
    ghost var c1 := a[..];
    Row1(a, d, 5, 6, 7, 8, 9);
    ghost var a2 := a[..];
    Row2(a, d, 10, 11, 12, 13, 14);
    ghost var a3 := a[..];
    Row3(a, d, 15, 16, 17, 18, 19);
    ghost var a4 := a[..];
    Row4(a, d, 20, 21, 22, 23, 24);
    ghost var a5 := a[..];
    ghost var b0 := Before0(Five(a0[0], a0[1], a0[2], a0[3], a0[4]), d);
    ghost var b1 := Before1(Five(c1[5], c1[6], c1[7], c1[8], c1[9]), d);
    ghost var b2 := Before2(Five(a2[10], a2[11], a2[12], a2[13], a2[14]), d);
    ghost var b3 := Before3(Five(a3[15], a3[16], a3[17], a3[18], a3[19]), d);
    ghost var b4 := Before4(Five(a4[20], a4[21], a4[22], a4[23], a4[24]), d);
    Inputs4a(a0, a1, c1, a2, rc, s, b0, b1);
    Inputs4b(a0, a1, c1, a2, a3, a4, rc, s, b0, b1, b2, b3);
    MovedRow0(s);
    MovedRow1(s);
    MovedRow2(s);
    MovedRow3(s);
    MovedRow4(s);
    Finish4(a0, a1, c1, a2, a3, a4, a5, rc, Chi(Moved(s)), b0, b1, b2, b3, b4);
    HomeAgain(a5, Round(s, rc), 4);
  }

  lemma RoundsStep(s: State, n: nat)
    requires n < |RC|
    ensures Rounds(s, n + 1) == Round(Rounds(s, n), RC[n])
  {
  }

  /** The rounds with constants i to i + 3. */
  function FourMore(s: State, i: nat): State
    requires i + 4 <= |RC|
  {
    Round(Round(Round(Round(s, RC[i]), RC[i + 1]), RC[i + 2]), RC[i + 3])
  }

  /** Four rounds in place bring every lane home. */
  method FourRounds(a: array<lane>, i: nat)
    requires a.Length == 25 && i + 4 <= 24
    modifies a
    ensures a[..] == FourMore(old(a[..]), i)
  {
    hide Round, Represents;
    ghost var s0 := a[..];
    HomeAgain(s0, s0, 0);
    Round1(a, RC[i], s0);
    ghost var s1 := Round(s0, RC[i]);
    Round2(a, RC[i + 1], s1);
    ghost var s2 := Round(s1, RC[i + 1]);
    Round3(a, RC[i + 2], s2);
    ghost var s3 := Round(s2, RC[i + 2]);
    Round4(a, RC[i + 3], s3);
    HomeAgain(a[..], Round(s3, RC[i + 3]), 4);
  }

  lemma Constants()
    ensures |RC| == 24
  {
  }

  lemma NoRounds(s: State)
    ensures Rounds(s, 0) == s
  {
  }

  /** Six times four rounds, in place: the permutation of the standard. */
  method KeccakF1600(a: array<lane>)
    requires a.Length == 25
    modifies a
    ensures a[..] == KeccakF(old(a[..]))
  {
    hide Rounds, Round, RC;
    ghost var s := a[..];
    NoRounds(s);
    assert |RC| == 24 by { Constants(); }
    for k := 0 to 6
      invariant a[..] == Rounds(s, 4 * k)
    {
      FourRounds(a, 4 * k);
      RoundsStep(s, 4 * k);
      RoundsStep(s, 4 * k + 1);
      RoundsStep(s, 4 * k + 2);
      RoundsStep(s, 4 * k + 3);
    }
  }
}
