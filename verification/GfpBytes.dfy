// The 32-byte big-endian form of a base field element.
module GfpBytes {
  import opened Arith
  import opened Common
  import opened Gfp
  import opened Montgomery
  import opened RlpFormat
  import opened Words

  function LowByte(x: word): byte { x % 256 }

  lemma {:induction false} BigEndianSnoc(s: seq<byte>, x: byte)
    ensures FromBigEndian(s + [x]) == 256 * FromBigEndian(s) + x
  {
    assert (s + [x])[..|s|] == s;
  }

  /** One more byte of a word. */
  lemma NextByte(x: word, b: nat)
    requires b < 8
    ensures x / Pow2(56 - 8 * b) == 256 * (x / Pow2(64 - 8 * b)) + LowByte(Shr(x, 56 - 8 * b))
  {
    hide Pow2;
    var d := Pow2(56 - 8 * b);
    Pow2Of8();
    Pow2Sum(56 - 8 * b, 8);
    DivDiv(x, d, 256);
    DivModFacts(x / d, 256);
  }

  /** Prepending a more significant limb's worth of bytes. */
  lemma MarshalStart(high: nat, x: word)
    ensures high * Pow2(0) + x / Pow2(64) == high && Pow2(0) == 1
  {
    hide Pow2;
    Pow2Of64();
    QuotientUnique(x, TWO_64, 0, x);
    assert Pow2(0) == 1 by { PowZero(); }
  }

  lemma PowZero()
    ensures Pow2(0) == 1
  {
  }

  lemma MarshalStep(high: nat, x: word, b: nat, s: seq<byte>)
    requires b < 8 && FromBigEndian(s) == high * Pow2(8 * b) + x / Pow2(64 - 8 * b)
    ensures FromBigEndian(s + [LowByte(Shr(x, 56 - 8 * b))])
         == high * Pow2(8 * (b + 1)) + x / Pow2(64 - 8 * (b + 1))
  {
    hide Pow2, Shr;
    NextByte(x, b);
    BigEndianSnoc(s, LowByte(Shr(x, 56 - 8 * b)));
    Pow2Of8();
    Pow2Sum(8, 8 * b);
    ScaleSum(high, Pow2(8 * b), 0);
  }

  lemma LimbsFrom(e: seq<word>, w: nat)
    requires |e| == 4 && w < 4
    ensures Num(e[3 - w..]) == Num(e[4 - w..]) * Pow2(64) + e[3 - w] / Pow2(0)
  {
    hide Pow2;
    Pow2Of64();
    PowZero();
    assert e[3 - w..][1..] == e[4 - w..];
    NumHead(e[3 - w..]);
    hide Num;
    OneQuotient(e[3 - w]);
  }

  lemma OneQuotient(x: int)
    ensures x / 1 == x
  {
  }

  method Marshal(e: array<word>, out: array<byte>)
    requires e.Length == 4 && out.Length >= 32
    modifies out
    ensures FromBigEndian(out[..32]) == Num(e[..]) && out[32..] == old(out[32..])
  {
    hide Num, FromBigEndian;
    ghost var limbs := e[..];
    EmptyNumbers(out[..0], limbs[4..]);
    for w := 0 to 4
      invariant out[32..] == old(out[32..])
      invariant FromBigEndian(out[..8 * w]) == Num(limbs[4 - w..])
    {
      MarshalLimb(e[3 - w], out, w, Num(limbs[4 - w..]));
      LimbsFrom(limbs, w);
    }
    assert limbs[0..] == limbs;
  }

  method MarshalLimb(x: word, out: array<byte>, w: nat, ghost high: nat)
    requires w < 4 && out.Length >= 32 && FromBigEndian(out[..8 * w]) == high
    modifies out
    ensures FromBigEndian(out[..8 * w + 8]) == high * Pow2(64) + x / Pow2(0)
    ensures out[32..] == old(out[32..])
  {
    hide Pow2, FromBigEndian, Shr;
    MarshalStart(high, x);
    for b := 0 to 8
      invariant out[32..] == old(out[32..])
      invariant FromBigEndian(out[..8 * w + b]) == high * Pow2(8 * b) + x / Pow2(64 - 8 * b)
    {
      ghost var s := out[..8 * w + b];
      out[8 * w + b] := LowByte(Shr(x, 56 - 8 * b));
      assert out[..8 * w + b + 1] == s + [LowByte(Shr(x, 56 - 8 * b))];
      MarshalStep(high, x, b, s);
    }
  }

  lemma EmptyNumbers(s: seq<byte>, t: seq<word>)
    requires s == [] && t == []
    ensures FromBigEndian(s) == 0 && Num(t) == 0
  {
  }

  datatype Coordinate = InField | EqualsModulus | ExceedsModulus

  /** What Unmarshal adds to limb 3 - w. */
  ghost function Chunk(bytes: seq<byte>, w: nat): nat
    requires 8 * w + 8 <= |bytes|
  {
    FromBigEndian(bytes[8 * w..8 * w + 8])
  }

  lemma UnmarshalStep(s: seq<byte>, b: nat, x: byte, was: word, now: word)
    requires b < 8 && now == (was + FromBigEndian(s) * Pow2(64 - 8 * b)) % TWO_64
    ensures Add(now, Shl(x, 56 - 8 * b)) == (was + FromBigEndian(s + [x]) * Pow2(64 - 8 * (b + 1))) % TWO_64
  {
    hide Pow2, FromBigEndian;
    BigEndianSnoc(s, x);
    var d := Pow2(56 - 8 * b);
    Pow2Of8();
    Pow2Sum(8, 56 - 8 * b);
    var v := FromBigEndian(s);
    assert (256 * v + x) * d == v * (256 * d) + x * d;
    WrappedSum(was + v * (256 * d), x * d);
  }

  lemma WrappedSum(a: nat, b: nat)
    ensures (a % TWO_64 + b % TWO_64) % TWO_64 == (a + b) % TWO_64
  {
  }

  /** Where the number in e stands with respect to the modulus p. */
  ghost predicate Compares(e: seq<word>, p: seq<word>, r: Coordinate) {
    r == if Num(e) < Num(p) then InField else if Num(e) == Num(p) then EqualsModulus else ExceedsModulus
  }

  /** Limbs from the top down to limb i have received their bytes, the others are as they were. */
  ghost predicate Received(was: seq<word>, now: seq<word>, bytes: seq<byte>, i: nat)
    requires |bytes| >= 32
  {
    |was| == |now| == 4
    && (forall k :: i <= k < 4 ==> now[k] == (was[k] + Chunk(bytes, 3 - k)) % TWO_64)
    && forall k :: 0 <= k < i && k < 4 ==> now[k] == was[k]
  }

  /** e += the number sent, limb by limb; the answer compares the outcome with p. */
  method Unmarshal(e: array<word>, bytes: seq<byte>) returns (r: Coordinate)
    requires e.Length == 4 && |bytes| >= 32
    modifies e
    ensures Received(old(e[..]), e[..], bytes, 0) && Compares(e[..], P2, r)
  {
    hide Num, Compares;
    for w := 0 to 4
      invariant Received(old(e[..]), e[..], bytes, 4 - w)
    {
      ReadLimb(e, bytes, w);
    }
    r := CompareLimbs(e, P2);
  }

  method ReadLimb(e: array<word>, bytes: seq<byte>, w: nat)
    requires e.Length == 4 && |bytes| >= 32 && w < 4
    modifies e
    ensures e[3 - w] == (old(e[3 - w]) + Chunk(bytes, w)) % TWO_64
    ensures forall k :: 0 <= k < 4 && k != 3 - w ==> e[k] == old(e[k])
  {
    hide Pow2, FromBigEndian, Add, Shl;
    ghost var was := e[3 - w];
    ChunkStart(bytes[8 * w..8 * w], was);
    for b := 0 to 8
      invariant forall k :: 0 <= k < 4 && k != 3 - w ==> e[k] == old(e[k])
      invariant e[3 - w] == (was + FromBigEndian(bytes[8 * w..8 * w + b]) * Pow2(64 - 8 * b)) % TWO_64
    {
      assert bytes[8 * w..8 * w + b + 1] == bytes[8 * w..8 * w + b] + [bytes[8 * w + b]];
      UnmarshalStep(bytes[8 * w..8 * w + b], b, bytes[8 * w + b], was, e[3 - w]);
      e[3 - w] := Add(e[3 - w], Shl(bytes[8 * w + b], 56 - 8 * b));
    }
    ChunkEnd(Chunk(bytes, w));
  }

  lemma ChunkStart(s: seq<byte>, was: word)
    requires s == []
    ensures was == (was + FromBigEndian(s) * Pow2(64)) % TWO_64
  {
    hide Pow2;
  }

  lemma ChunkEnd(c: nat)
    ensures c * Pow2(0) == c
  {
  }

  method CompareLimbs(e: array<word>, p: seq<word>) returns (r: Coordinate)
    requires e.Length == |p| == 4
    ensures Compares(e[..], p, r)
  {
    hide Num, Compares;
    ghost var s := e[..];
    for i := 4 downto 0
      invariant s[i..] == p[i..]
    {
      if e[i] != p[i] {
        Decided(s, p, i);
      }
      if e[i] < p[i] {
        return InField;
      }
      if e[i] > p[i] {
        return ExceedsModulus;
      }
      NextSuffix(s, p, i);
    }
    AllEqual(s, p);
    return EqualsModulus;
  }

  lemma NextSuffix(s: seq<word>, t: seq<word>, i: nat)
    requires |s| == |t| && i < |s| && s[i] == t[i] && s[i + 1..] == t[i + 1..]
    ensures s[i..] == t[i..]
  {
    assert s[i..] == [s[i]] + s[i + 1..];
    assert t[i..] == [t[i]] + t[i + 1..];
  }

  lemma AllEqual(e: seq<word>, p: seq<word>)
    requires e[0..] == p[0..]
    ensures Compares(e, p, EqualsModulus)
  {
    hide Num;
    assert e[0..] == e && p[0..] == p;
  }

  /** The most significant limb that differs decides. */
  lemma Decided(e: seq<word>, p: seq<word>, i: nat)
    requires |e| == |p| && i < |p| && e[i + 1..] == p[i + 1..] && e[i] != p[i]
    ensures Compares(e, p, if e[i] < p[i] then InField else ExceedsModulus)
  {
    hide Num, Pow;
    NumSplit(e, i);
    NumSplit(p, i);
    NumHead(e[i..]);
    NumHead(p[i..]);
    assert e[i..][1..] == e[i + 1..] && p[i..][1..] == p[i + 1..];
    Below(e[..i]);
    Below(p[..i]);
    var t := TWO_64 * Num(e[i + 1..]);
    LeadingDigit(Pow(TWO_64, i), e[i] + t, p[i] + t, Num(e[..i]), Num(p[..i]));
  }

  lemma Below(s: seq<word>)
    ensures Num(s) < Pow(TWO_64, |s|)
  {
    ValBound(s, TWO_64);
  }

  lemma LeadingDigit(p: nat, x: nat, y: nat, l: nat, m: nat)
    requires l < p && m < p && x != y
    ensures l + p * x < m + p * y <==> x < y
    ensures l + p * x != m + p * y
  {
    if x < y {
      MulMonotone(p, x + 1, y);
      assert p * (x + 1) == p * x + p;
    } else {
      MulMonotone(p, y + 1, x);
      assert p * (y + 1) == p * y + p;
    }
  }

  /** Into cleared limbs, Unmarshal reads the big-endian number. */
  lemma UnmarshalValue(e: seq<word>, bytes: seq<byte>)
    requires |bytes| == 32 && Received([0, 0, 0, 0], e, bytes, 0)
    ensures Num(e) == FromBigEndian(bytes)
  {
    hide Num, FromBigEndian;
    assert bytes[8 * 0..8 * 0 + 8] == bytes[..8] && bytes[..32] == bytes;
    EmptyNumbers(bytes[..0], e[4..]);
    assert bytes[..0] == [];
    JoinChunk(e, bytes, 0);
    JoinChunk(e, bytes, 1);
    JoinChunk(e, bytes, 2);
    JoinChunk(e, bytes, 3);
    assert e[0..] == e;
  }

  /** Limbs determine the number and are determined by it. */
  lemma {:induction false} NumUnique(s: seq<word>, t: seq<word>)
    requires |s| == |t| && Num(s) == Num(t)
    ensures s == t
  {
    if s != [] {
      NumHead(s);
      NumHead(t);
      var (m, n) := (Num(s[1..]), Num(t[1..]));
      hide Num;
      QuotientUnique(Num(s), TWO_64, m, s[0]);
      QuotientUnique(Num(s), TWO_64, n, t[0]);
      NumUnique(s[1..], t[1..]);
      assert s == [s[0]] + s[1..] && t == [t[0]] + t[1..];
    }
  }

  lemma ChunkBound(bytes: seq<byte>, w: nat)
    requires |bytes| >= 32 && w < 4
    ensures Chunk(bytes, w) < TWO_64
  {
    hide FromBigEndian;
    FromBigEndianBound(bytes[8 * w..8 * w + 8]);
    ByteRangeEight();
  }

  lemma AddedLimb(was: word, chunk: nat)
    requires chunk < TWO_64
    ensures (was + chunk) % TWO_64 == chunk <==> was == 0
  {
  }

  /** Unmarshal reads the big-endian number exactly into cleared limbs. */
  lemma UnmarshalIff(was: seq<word>, e: seq<word>, bytes: seq<byte>)
    requires |bytes| == 32 && Received(was, e, bytes, 0)
    ensures Num(e) == FromBigEndian(bytes) <==> was == [0, 0, 0, 0]
  {
    hide Num, FromBigEndian, Chunk;
    forall w | 0 <= w < 4
      ensures Chunk(bytes, w) < TWO_64
    {
      ChunkBound(bytes, w);
    }
    var z: seq<word> := [Chunk(bytes, 3), Chunk(bytes, 2), Chunk(bytes, 1), Chunk(bytes, 0)];
    forall k | 0 <= k < 4
      ensures z[k] == Chunk(bytes, 3 - k) && (z[k] == (was[k] + Chunk(bytes, 3 - k)) % TWO_64 <==> was[k] == 0)
    {
      AddedLimb(was[k], Chunk(bytes, 3 - k));
      AddedLimb(0, Chunk(bytes, 3 - k));
    }
    UnmarshalValue(z, bytes);
    if Num(e) == Num(z) {
      NumUnique(e, z);
    }
    if was == [0, 0, 0, 0] {
      assert e == z;
    }
  }

  lemma JoinChunk(e: seq<word>, bytes: seq<byte>, w: nat)
    requires |e| == 4 && |bytes| == 32 && w < 4 && Received([0, 0, 0, 0], e, bytes, 0)
    requires Num(e[4 - w..]) == FromBigEndian(bytes[..8 * w])
    ensures Num(e[3 - w..]) == FromBigEndian(bytes[..8 * w + 8])
  {
    hide Num, FromBigEndian;
    assert bytes[..8 * w + 8] == bytes[..8 * w] + bytes[8 * w..8 * w + 8];
    BigEndianConcat(bytes[..8 * w], bytes[8 * w..8 * w + 8]);
    FromBigEndianBound(bytes[8 * w..8 * w + 8]);
    ByteRangeEight();
    QuotientUnique(Chunk(bytes, w), TWO_64, 0, Chunk(bytes, w));
    NumHead(e[3 - w..]);
    assert e[3 - w..][1..] == e[4 - w..];
  }

  lemma {:induction false} BigEndianConcat(s: seq<byte>, t: seq<byte>)
    ensures FromBigEndian(s + t) == FromBigEndian(s) * ByteRange(|t|) + FromBigEndian(t)
  {
    if t == [] {
      assert s + t == s;
    } else {
      var init := t[..|t| - 1];
      assert (s + t)[..|s + t| - 1] == s + init;
      BigEndianConcat(s, init);
      ScaleSum(FromBigEndian(s), ByteRange(|init|), FromBigEndian(init));
    }
  }

  lemma ScaleSum(a: nat, r: nat, b: nat)
    ensures 256 * (a * r + b) == a * (256 * r) + 256 * b
  {
  }
}
