// The sponge over the permutation: absorbing a message in pieces, padding, squeezing output in
// pieces (FIPS 202, sections 4 and 5.1).
module Sponge {
  import opened Common
  import opened Keccak
  import Arith

  type octet = bv8
  type bytes = seq<octet>

  /** The rates in use, all whole numbers of lanes. */
  predicate IsRate(rate: nat) { rate == 72 || rate == 104 || rate == 136 || rate == 144 || rate == 168 }

  function Lanes(rate: nat): (n: nat)
    requires IsRate(rate)
    ensures 8 * n == rate && n <= 21
  {
    rate / 8
  }

  // ---------------------------------------------------------------------------------
  // Lanes and bytes
  // ---------------------------------------------------------------------------------

  /** Eight bytes as a lane, the first least significant. */
  function LaneOf(b: bytes): lane
    requires |b| == 8
  {
    (b[0] as lane) | ((b[1] as lane) << 8) | ((b[2] as lane) << 16) | ((b[3] as lane) << 24)
    | ((b[4] as lane) << 32) | ((b[5] as lane) << 40) | ((b[6] as lane) << 48) | ((b[7] as lane) << 56)
  }

  function BytesOf(x: lane): (b: bytes)
    ensures |b| == 8
  {
    [(x & 0xff) as octet, ((x >> 8) & 0xff) as octet, ((x >> 16) & 0xff) as octet, ((x >> 24) & 0xff) as octet,
     ((x >> 32) & 0xff) as octet, ((x >> 40) & 0xff) as octet, ((x >> 48) & 0xff) as octet, ((x >> 56) & 0xff) as octet]
  }

  lemma LaneRoundTrip(x: lane)
    ensures LaneOf(BytesOf(x)) == x
  {
  }

  lemma Weighed(b0: octet, b1: octet, b2: octet, b3: octet, b4: octet, b5: octet, b6: octet, b7: octet)
    ensures ((b0 as lane) | ((b1 as lane) << 8) | ((b2 as lane) << 16) | ((b3 as lane) << 24)
             | ((b4 as lane) << 32) | ((b5 as lane) << 40) | ((b6 as lane) << 48) | ((b7 as lane) << 56)) as nat
         == (b0 as nat) + 0x100 * (b1 as nat) + 0x1_0000 * (b2 as nat) + 0x100_0000 * (b3 as nat)
            + 0x1_0000_0000 * (b4 as nat) + 0x100_0000_0000 * (b5 as nat) + 0x1_0000_0000_0000 * (b6 as nat)
            + 0x100_0000_0000_0000 * (b7 as nat)
  {
  }

  lemma LaneIs(b: bytes)
    requires |b| == 8
    ensures LaneOf(b)
         == (b[0] as lane) | ((b[1] as lane) << 8) | ((b[2] as lane) << 16) | ((b[3] as lane) << 24)
            | ((b[4] as lane) << 32) | ((b[5] as lane) << 40) | ((b[6] as lane) << 48) | ((b[7] as lane) << 56)
  {
  }

  /** A lane is the number its bytes write, the first byte least significant. */
  lemma LaneNumber(b: bytes)
    requires |b| == 8
    ensures LaneOf(b) as nat
         == (b[0] as nat) + 0x100 * (b[1] as nat) + 0x1_0000 * (b[2] as nat) + 0x100_0000 * (b[3] as nat)
            + 0x1_0000_0000 * (b[4] as nat) + 0x100_0000_0000 * (b[5] as nat) + 0x1_0000_0000_0000 * (b[6] as nat)
            + 0x100_0000_0000_0000 * (b[7] as nat)
  {
    LaneIs(b);
    hide LaneOf;
    Weighed(b[0], b[1], b[2], b[3], b[4], b[5], b[6], b[7]);
  }

  /** The bytes of a lane write the number it is. */
  lemma BytesNumber(x: lane)
    ensures var b := BytesOf(x);
            x as nat
              == (b[0] as nat) + 0x100 * (b[1] as nat) + 0x1_0000 * (b[2] as nat) + 0x100_0000 * (b[3] as nat)
                 + 0x1_0000_0000 * (b[4] as nat) + 0x100_0000_0000 * (b[5] as nat) + 0x1_0000_0000_0000 * (b[6] as nat)
                 + 0x100_0000_0000_0000 * (b[7] as nat)
  {
    hide LaneOf, BytesOf;
    LaneRoundTrip(x);
    LaneNumber(BytesOf(x));
  }

  /** The first n bytes of a state. */
  function StateBytes(s: State, lanes: nat): (b: bytes)
    requires lanes <= 25
    ensures |b| == 8 * lanes
  {
    if lanes == 0 then [] else StateBytes(s, lanes - 1) + BytesOf(s[lanes - 1])
  }

  /** Byte k of a state is byte k % 8 of lane k / 8. */
  lemma {:induction false} StateByte(s: State, lanes: nat, k: nat)
    requires lanes <= 25 && k < 8 * lanes
    ensures k / 8 < 25 && StateBytes(s, lanes)[k] == BytesOf(s[k / 8])[k % 8]
  {
    hide BytesOf;
    if k < 8 * (lanes - 1) {
      StateByte(s, lanes - 1, k);
    }
  }

  function LaneAt(block: bytes, i: nat): lane
    requires 8 * i + 8 <= |block|
  {
    LaneOf(block[8 * i..8 * i + 8])
  }

  // ---------------------------------------------------------------------------------
  // The sponge of the standard, over any permutation f
  // ---------------------------------------------------------------------------------

  function ZeroState(): State { seq(25, _ => 0) }

  /** A block added to the front of the state. */
  function XorBlock(s: State, block: bytes): State
    requires |block| <= 200
  {
    seq(25, i requires 0 <= i < 25 => if 8 * i + 8 <= |block| then Xor(s[i], LaneAt(block, i)) else s[i])
  }

  function Absorb(f: State -> State, s: State, block: bytes): State
    requires |block| <= 200
  {
    f(XorBlock(s, block))
  }

  /** The state after all whole blocks of a message, and what is left of it. */
  function AbsorbAll(f: State -> State, s: State, msg: bytes, rate: nat): State
    requires 0 < rate <= 200
    decreases |msg|
  {
    if |msg| < rate then s else AbsorbAll(f, Absorb(f, s, msg[..rate]), msg[rate..], rate)
  }

  function Rest(msg: bytes, rate: nat): (r: bytes)
    requires 0 < rate
    ensures |r| < rate
  {
    if |msg| < rate then msg else Rest(msg[rate..], rate)
  }

  /** The last block: domain bits with the first one bit of the padding, zeros, and the final one bit. */
  function Pad(rest: bytes, rate: nat, dsbyte: octet): (b: bytes)
    requires |rest| < rate
    ensures |b| == rate
  {
    var b := rest + [dsbyte] + seq(rate - |rest| - 1, _ => 0);
    b[rate - 1 := b[rate - 1] ^ 0x80]
  }

  /** The padding begins with the domain byte and ends with the final bit, in one byte where there is room for one only. */
  lemma PadShape(rest: bytes, rate: nat, dsbyte: octet, k: nat)
    requires |rest| < rate && k < rate
    ensures Pad(rest, rate, dsbyte)[k]
         == if k < |rest| then rest[k]
            else if k == |rest| then (if |rest| == rate - 1 then dsbyte ^ 0x80 else dsbyte)
            else if k == rate - 1 then 0x80
            else 0
  {
  }

  /** The state once the padded message is absorbed. */
  function Absorbed(f: State -> State, msg: bytes, rate: nat, dsbyte: octet): State
    requires 0 < rate <= 200
  {
    Absorb(f, AbsorbAll(f, ZeroState(), msg, rate), Pad(Rest(msg, rate), rate, dsbyte))
  }

  function Iterate(f: State -> State, s: State, n: nat): State {
    if n == 0 then s else f(Iterate(f, s, n - 1))
  }

  function OutBlock(f: State -> State, s: State, n: nat, rate: nat): (b: bytes)
    requires IsRate(rate)
    ensures |b| == rate
  {
    StateBytes(Iterate(f, s, n), Lanes(rate))
  }

  function OutBlocks(f: State -> State, s: State, n: nat, rate: nat): (b: bytes)
    requires IsRate(rate)
    ensures |b| == n * rate
  {
    if n == 0 then []
    else
      OneMore(n, rate);
      OutBlocks(f, s, n - 1, rate) + OutBlock(f, s, n - 1, rate)
  }

  lemma OneMore(n: nat, rate: nat)
    requires n >= 1
    ensures (n - 1) * rate + rate == n * rate
  {
  }

  /** The first n bytes the standard's sponge gives. */
  function Output(f: State -> State, s: State, n: nat, rate: nat): (b: bytes)
    requires IsRate(rate)
    ensures |b| == n
  {
    Enough(n, rate);
    OutBlocks(f, s, n / rate + 1, rate)[..n]
  }

  lemma Enough(n: nat, rate: nat)
    requires rate > 0
    ensures 0 <= n / rate && n <= (n / rate + 1) * rate
  {
    Arith.DivModFacts(n, rate);
  }

  /** The hash functions of the standard are sponges over Keccak-f. */
  function Hash(msg: bytes, rate: nat, dsbyte: octet, n: nat): bytes
    requires IsRate(rate)
  {
    Output(KeccakF, Absorbed(KeccakF, msg, rate, dsbyte), n, rate)
  }

  // ---------------------------------------------------------------------------------
  // Pieces
  // ---------------------------------------------------------------------------------

  /** More of a message within a block only waits; filling the block absorbs it. */
  lemma {:induction false} AbsorbPiece(f: State -> State, s: State, msg: bytes, x: bytes, rate: nat)
    requires 0 < rate <= 200 && |Rest(msg, rate)| + |x| <= rate
    ensures |Rest(msg, rate)| + |x| < rate ==>
      AbsorbAll(f, s, msg + x, rate) == AbsorbAll(f, s, msg, rate) && Rest(msg + x, rate) == Rest(msg, rate) + x
    ensures |Rest(msg, rate)| + |x| == rate ==>
      AbsorbAll(f, s, msg + x, rate) == Absorb(f, AbsorbAll(f, s, msg, rate), Rest(msg, rate) + x) && Rest(msg + x, rate) == []
    decreases |msg|
  {
    hide Absorb;
    if |msg| < rate {
      if |msg| + |x| == rate {
        assert (msg + x)[..rate] == msg + x && (msg + x)[rate..] == [];
      }
    } else {
      assert (msg + x)[..rate] == msg[..rate] && (msg + x)[rate..] == msg[rate..] + x;
      AbsorbPiece(f, Absorb(f, s, msg[..rate]), msg[rate..], x, rate);
    }
  }

  /** Whole blocks and the beginning of the next are what the sponge gives first. */
  lemma OutputIs(f: State -> State, s: State, n: nat, k: nat, rate: nat)
    requires IsRate(rate) && k <= rate
    ensures OutBlocks(f, s, n, rate) + OutBlock(f, s, n, rate)[..k] == Output(f, s, n * rate + k, rate)
  {
    hide OutBlock, OutBlocks;
    if k < rate {
      Quotient(n, k, rate);
      BlocksNext(f, s, n, rate);
    } else {
      Quotient(n + 1, 0, rate);
      BlocksNext(f, s, n, rate);
      BlocksNext(f, s, n + 1, rate);
      assert (n + 1) * rate == n * rate + rate;
    }
  }

  lemma Quotient(n: nat, k: nat, rate: nat)
    requires k < rate
    ensures (n * rate + k) / rate == n
  {
    Arith.QuotientUnique(n * rate + k, rate, n, k);
  }

  lemma BlocksNext(f: State -> State, s: State, n: nat, rate: nat)
    requires IsRate(rate)
    ensures OutBlocks(f, s, n + 1, rate) == OutBlocks(f, s, n, rate) + OutBlock(f, s, n, rate)
  {
    hide OutBlock;
  }

  // ---------------------------------------------------------------------------------
  // The hash state
  // ---------------------------------------------------------------------------------

  lemma FirstBlock(f: State -> State, s: State, rate: nat)
    requires IsRate(rate)
    ensures Iterate(f, s, 0) == s && OutBlock(f, s, 0, rate) == StateBytes(s, Lanes(rate))
  {
    hide StateBytes;
  }

  lemma NothingAbsorbed(f: State -> State, rate: nat)
    requires IsRate(rate)
    ensures AbsorbAll(f, ZeroState(), [], rate) == ZeroState() && Rest([], rate) == []
  {
    hide ZeroState;
  }

  lemma AllZero(s: seq<lane>)
    requires |s| == 25 && forall i :: 0 <= i < 25 ==> s[i] == 0
    ensures s == ZeroState()
  {
  }

  method XorLanes(a: array<lane>, buf: bytes, from: nat, to: nat)
    requires a.Length == 25 && from <= to <= 25 && 8 * to <= |buf|
    modifies a
    ensures forall i :: 0 <= i < 25 ==>
      a[i] == if from <= i < to then Xor(old(a[i]), LaneAt(buf, i)) else old(a[i])
  {
    hide Xor, LaneAt;
    for k := from to to
      invariant forall i :: 0 <= i < 25 ==>
        a[i] == if from <= i < k then Xor(old(a[i]), LaneAt(buf, i)) else old(a[i])
    {
      a[k] := Xor(a[k], LaneAt(buf, k));
    }
  }

  /** Adds as many lanes as the rates in use have. */
  method XorIn(a: array<lane>, buf: bytes)
    requires a.Length == 25 && IsRate(|buf|)
    modifies a
    ensures a[..] == XorBlock(old(a[..]), buf)
  {
    hide Xor, LaneAt;
    var n := |buf|;
    if n >= 72 {
      XorLanes(a, buf, 0, 9);
    }
    if n >= 104 {
      XorLanes(a, buf, 9, 13);
    }
    if n >= 136 {
      XorLanes(a, buf, 13, 17);
    }
    if n >= 144 {
      XorLanes(a, buf, 17, 18);
    }
    if n >= 168 {
      XorLanes(a, buf, 18, 21);
    }
  }

  method CopyOut(a: array<lane>, rate: nat) returns (buf: bytes)
    requires a.Length == 25 && IsRate(rate)
    ensures buf == StateBytes(a[..], Lanes(rate))
  {
    buf := [];
    for i := 0 to Lanes(rate)
      invariant buf == StateBytes(a[..], i)
    {
      buf := buf + BytesOf(a[i]);
    }
  }

  class Hasher {
    const rate: nat
    const dsbyte: octet
    const outputLen: nat
    const a: array<lane>
    /** While absorbing, what waits for a full block; while squeezing, what of a block is still to be read. */
    var buf: bytes
    var squeezing: bool
    /** All that was written, and the number of the block being read. */
    ghost var msg: bytes
    ghost var blocks: nat

    ghost predicate Valid()
      reads this, a
    {
      IsRate(rate) && a.Length == 25
      && (!squeezing ==> a[..] == AbsorbAll(KeccakF, ZeroState(), msg, rate) && buf == Rest(msg, rate))
      && (squeezing ==>
            a[..] == Iterate(KeccakF, Absorbed(KeccakF, msg, rate, dsbyte), blocks) && 0 < |buf| <= rate
            && buf == OutBlock(KeccakF, Absorbed(KeccakF, msg, rate, dsbyte), blocks, rate)[rate - |buf|..])
    }

    /** How many bytes have been read. */
    ghost function Read(): nat
      requires Valid() && squeezing
      reads this, a
    {
      blocks * rate + (rate - |buf|)
    }

    constructor (rate: nat, dsbyte: octet, outputLen: nat)
      requires IsRate(rate)
      ensures Valid() && !squeezing && msg == [] && fresh(a)
      ensures this.rate == rate && this.dsbyte == dsbyte && this.outputLen == outputLen
    {
      hide AbsorbAll, Rest, Absorb, Absorbed, Iterate, OutBlock, ZeroState;
      NothingAbsorbed(KeccakF, rate);
      this.rate, this.dsbyte, this.outputLen := rate, dsbyte, outputLen;
      a := new lane[25](_ => 0);
      buf, squeezing, msg, blocks := [], false, [], 0;
      new;
      AllZero(a[..]);
    }

    /** Forgets everything written. */
    method Reset()
      requires Valid()
      modifies this, a
      ensures Valid() && !squeezing && msg == []
    {
      hide AbsorbAll, Rest, Absorb, Absorbed, Iterate, OutBlock, ZeroState;
      NothingAbsorbed(KeccakF, rate);
      for i := 0 to 25
        invariant forall k :: 0 <= k < i ==> a[k] == 0
      {
        a[i] := 0;
      }
      squeezing, buf, msg := false, [], [];
      AllZero(a[..]);
    }

    /** Absorbs a full block. */
    method AbsorbBlock(block: bytes)
      requires IsRate(rate) && a.Length == 25 && |block| == rate
      modifies a
      ensures a[..] == Absorb(KeccakF, old(a[..]), block)
    {
      hide XorBlock, KeccakF;
      XorIn(a, block);
      KeccakF1600(a);
    }

    /** Absorbs more; any split of a message into writes comes to the same. */
    method Write(p: bytes)
      requires Valid() && !squeezing
      modifies this, a
      ensures Valid() && !squeezing && msg == old(msg) + p
    {
      hide AbsorbAll, Rest, Absorb, Iterate, OutBlock, Absorbed;
      var q := p;
      while |q| > 0
        invariant Valid() && !squeezing && msg + q == old(msg) + p
        decreases |q|
      {
        if |buf| == 0 && |q| >= rate {
          AbsorbPiece(KeccakF, ZeroState(), msg, q[..rate], rate);
          AbsorbBlock(q[..rate]);
          assert buf + q[..rate] == q[..rate];
          TakeOver(q, rate);
          msg := msg + q[..rate];
          q := q[rate..];
        } else {
          var todo := rate - |buf|;
          if todo > |q| {
            todo := |q|;
          }
          AbsorbPiece(KeccakF, ZeroState(), msg, q[..todo], rate);
          TakeOver(q, todo);
          buf := buf + q[..todo];
          msg := msg + q[..todo];
          q := q[todo..];
          if |buf| == rate {
            AbsorbBlock(buf);
            buf := [];
          }
        }
      }
    }

    lemma TakeOver(q: bytes, n: nat)
      requires n <= |q|
      ensures (msg + q[..n]) + q[n..] == msg + q
    {
      assert q == q[..n] + q[n..];
    }

    /** The last block. */
    method PadBlock() returns (padded: bytes)
      requires IsRate(rate) && |buf| < rate
      ensures padded == Pad(buf, rate, dsbyte)
    {
      padded := buf + [dsbyte];
      for i := |padded| to rate
        invariant padded == buf + [dsbyte] + seq(i - |buf| - 1, _ => 0)
      {
        padded := padded + [0];
      }
      padded := padded[rate - 1 := padded[rate - 1] ^ 0x80];
    }

    /** Pads the message, and makes the first block of output ready. */
    method PadAndPermute()
      requires Valid() && !squeezing
      modifies this, a
      ensures Valid() && squeezing && msg == old(msg) && blocks == 0 && |buf| == rate
    {
      hide AbsorbAll, Rest, Absorb, Iterate, OutBlock, Pad;
      FirstBlock(KeccakF, Absorbed(KeccakF, msg, rate, dsbyte), rate);
      var padded := PadBlock();
      AbsorbBlock(padded);
      squeezing, blocks := true, 0;
      buf := CopyOut(a, rate);
    }

    /** Squeezes the next n bytes; any split of the output into reads is the same stream. */
    method Squeeze(n: nat) returns (out: bytes)
      requires Valid()
      modifies this, a
      ensures Valid() && squeezing && msg == old(msg)
      ensures var start := if old(squeezing) then old(Read()) else 0;
              Read() == start + n && |out| == n
              && Output(KeccakF, Absorbed(KeccakF, msg, rate, dsbyte), start, rate) + out
                 == Output(KeccakF, Absorbed(KeccakF, msg, rate, dsbyte), start + n, rate)
    {
      hide AbsorbAll, Rest, Absorb, Absorbed, Iterate, OutBlock, OutBlocks, Output, KeccakF;
      if !squeezing {
        PadAndPermute();
      }
      ghost var s, start := Absorbed(KeccakF, msg, rate, dsbyte), Read();
      out := [];
      while |out| < n
        invariant Valid() && squeezing && msg == old(msg) && |out| <= n
        invariant Read() == start + |out| && Output(KeccakF, s, start, rate) + out == Output(KeccakF, s, start + |out|, rate)
        decreases n - |out|
      {
        var k := if n - |out| < |buf| then n - |out| else |buf|;
        ghost var before := out;
        var piece := Take(k);
        ConcatOut(s, start, before, piece);
        out := out + piece;
      }
    }

    /** Hands out bytes of the current block, permuting once it is used up. */
    method Take(k: nat) returns (piece: bytes)
      requires Valid() && squeezing && k <= |buf|
      modifies this, a
      ensures Valid() && squeezing && msg == old(msg) && |piece| == k && Read() == old(Read()) + k
      ensures Output(KeccakF, Absorbed(KeccakF, msg, rate, dsbyte), old(Read()), rate) + piece
           == Output(KeccakF, Absorbed(KeccakF, msg, rate, dsbyte), Read(), rate)
    {
      hide AbsorbAll, Rest, Absorb, Absorbed, Iterate, OutBlock, OutBlocks, Output, KeccakF;
      ghost var s := Absorbed(KeccakF, msg, rate, dsbyte);
      Further(s, k);
      piece := buf[..k];
      if k < |buf| {
        buf := buf[k..];
      } else {
        NextBlock(s);
        KeccakF1600(a);
        blocks := blocks + 1;
        buf := CopyOut(a, rate);
      }
    }

    /** The next k bytes. */
    lemma Further(s: State, k: nat)
      requires Valid() && squeezing && s == Absorbed(KeccakF, msg, rate, dsbyte) && k <= |buf|
      ensures Output(KeccakF, s, Read(), rate) + buf[..k] == Output(KeccakF, s, Read() + k, rate)
    {
      hide AbsorbAll, Rest, Absorb, Absorbed, Iterate, OutBlock, OutBlocks, Output;
      var block := OutBlock(KeccakF, s, blocks, rate);
      var at := rate - |buf|;
      OutputIs(KeccakF, s, blocks, at, rate);
      OutputIs(KeccakF, s, blocks, at + k, rate);
      assert block[..at + k] == block[..at] + buf[..k];
      Arith.ConcatAssoc(OutBlocks(KeccakF, s, blocks, rate), block[..at], buf[..k]);
    }

    lemma ConcatOut(s: State, start: nat, before: bytes, more: bytes)
      requires IsRate(rate) && Output(KeccakF, s, start, rate) + before == Output(KeccakF, s, start + |before|, rate)
      requires Output(KeccakF, s, start + |before|, rate) + more == Output(KeccakF, s, start + |before| + |more|, rate)
      ensures Output(KeccakF, s, start, rate) + (before + more) == Output(KeccakF, s, start + |before + more|, rate)
    {
      hide Output;
      Arith.ConcatAssoc(Output(KeccakF, s, start, rate), before, more);
    }

    lemma NextBlock(s: State)
      requires IsRate(rate)
      ensures Iterate(KeccakF, s, blocks + 1) == KeccakF(Iterate(KeccakF, s, blocks))
      ensures OutBlock(KeccakF, s, blocks + 1, rate) == StateBytes(Iterate(KeccakF, s, blocks + 1), Lanes(rate))
    {
    }

    /** A copy in the same state. */
    method Clone() returns (dup: Hasher)
      requires Valid() && !squeezing
      ensures dup.Valid() && !dup.squeezing && dup.msg == msg && fresh(dup) && fresh(dup.a)
      ensures dup.rate == rate && dup.dsbyte == dsbyte && dup.outputLen == outputLen
    {
      hide AbsorbAll, Rest, Absorb, Absorbed, Iterate, OutBlock, ZeroState;
      dup := new Hasher(rate, dsbyte, outputLen);
      for i := 0 to 25
        invariant dup.a.Length == 25 && forall k :: 0 <= k < i ==> dup.a[k] == a[k]
        invariant dup.rate == rate && dup.dsbyte == dsbyte && dup.outputLen == outputLen && !dup.squeezing
      {
        dup.a[i] := a[i];
      }
      dup.buf, dup.msg := buf, msg;
      assert dup.a[..] == a[..];
    }

    /** The hash of all that was written so far, appended to input; writing can go on as if nothing happened. */
    method Sum(input: bytes) returns (r: bytes)
      requires Valid() && !squeezing
      ensures r == input + Hash(msg, rate, dsbyte, outputLen)
    {
      hide Output, Absorbed;
      var dup := Clone();
      var hash := dup.Squeeze(outputLen);
      assert Output(KeccakF, Absorbed(KeccakF, msg, rate, dsbyte), 0, rate) + hash == hash;
      r := input + hash;
    }
  }
}
