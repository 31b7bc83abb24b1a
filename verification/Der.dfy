// ECDSA signatures in DER (X.690, sections 8.1.3 and 8.3): what is written, what is read, and that
// each undoes the other.
module Der {
  import opened Arith
  import opened Common
  import opened RlpFormat
  import opened Wnaf

  // ---------------------------------------------------------------------------------
  // What the encodings say
  // ---------------------------------------------------------------------------------

  /** A definite length in its shortest form that fits what follows: the length and the bytes it takes. */
  function Length(w: seq<byte>): Option<(nat, nat)> {
    if w == [] || w[0] == 0xFF then None
    else if w[0] < 0x80 then Some((w[0], 1))
    else
      var k := w[0] - 0x80;
      if k == 0 || k > |w| - 1 || w[1] == 0 || k > 8 then None
      else
        var n := FromBigEndian(w[1..1 + k]);
        if n > |w| - 1 - k || n < 128 then None else Some((n, 1 + k))
  }

  /** The integer that content bytes hold, in two's complement. */
  function Signed(c: seq<byte>): int
    requires c != []
  {
    if c[0] >= 0x80 then FromBigEndian(c) - ByteRange(|c|) else FromBigEndian(c)
  }

  /** Neither a zero byte before a clear top bit, nor an all-ones byte before a set one. */
  predicate Minimal(c: seq<byte>) {
    c != [] && !(|c| > 1 && c[0] == 0 && c[1] < 0x80) && !(|c| > 1 && c[0] == 0xFF && c[1] >= 0x80)
  }

  /** A DER integer at the start of w: its value and the bytes it takes. */
  function Integer(w: seq<byte>): Option<(int, nat)> {
    if w == [] || w[0] != 0x02 then None
    else
      match Length(w[1..])
      case None => None
      case Some((n, used)) =>
        if n == 0 || 1 + used + n > |w| || !Minimal(w[1 + used..1 + used + n]) then None
        else Some((Signed(w[1 + used..1 + used + n]), 1 + used + n))
  }

  /** The two integers of a signature and nothing else. */
  function Signature(w: seq<byte>): Option<(int, int)> {
    if w == [] || w[0] != 0x30 then None
    else
      match Length(w[1..])
      case None => None
      case Some((n, used)) =>
        if 1 + used + n != |w| then None
        else
          var body := w[1 + used..];
          match Integer(body)
          case None => None
          case Some((r, m)) =>
            if m > |body| then None
            else
              match Integer(body[m..])
              case None => None
              case Some((s, l)) => if m + l != |body| then None else Some((r, s))
  }

  /** Integers outside the scalars' range are read as zero. */
  function ToScalar(x: int): scalar { if 0 <= x < ORDER then x else 0 }

  // ---------------------------------------------------------------------------------
  // Encoding
  // ---------------------------------------------------------------------------------

  function ToBytes(n: nat, k: nat): (b: seq<byte>)
    ensures |b| == k
  {
    if k == 0 then [] else ToBytes(n / 256, k - 1) + [n % 256]
  }

  /** Drops leading zeros that are not needed to keep the top bit clear. */
  function Strip(b: seq<byte>): (r: seq<byte>)
    ensures |r| <= |b| && (b != [] ==> r != [])
  {
    if |b| > 1 && b[0] == 0 && b[1] < 0x80 then Strip(b[1..]) else b
  }

  function Content(n: scalar): seq<byte> { Strip([0] + ToBytes(n, 32)) }

  function Encoding(r: scalar, s: scalar): seq<byte> {
    var (cr, cs) := (Content(r), Content(s));
    [0x30, 4 + |cr| + |cs|, 0x02, |cr|] + cr + [0x02, |cs|] + cs
  }

  lemma {:induction false} FromToBytes(n: nat, k: nat)
    requires n < ByteRange(k)
    ensures FromBigEndian(ToBytes(n, k)) == n
  {
    if k > 0 {
      FromToBytes(n / 256, k - 1);
      assert ToBytes(n, k)[..k - 1] == ToBytes(n / 256, k - 1);
    } else {
      assert ByteRange(0) == 1;
    }
  }

  /** As many bytes of the same value are the same bytes. */
  lemma {:induction false} SameBytes(a: seq<byte>, b: seq<byte>)
    requires |a| == |b| && FromBigEndian(a) == FromBigEndian(b)
    ensures a == b
  {
    if a != [] {
      var n := |a| - 1;
      LastByte(FromBigEndian(a[..n]), a[n], FromBigEndian(b[..n]), b[n]);
      SameBytes(a[..n], b[..n]);
      assert a == a[..n] + [a[n]] && b == b[..n] + [b[n]];
    }
  }

  lemma LastByte(x: nat, i: byte, y: nat, j: byte)
    requires 256 * x + i == 256 * y + j
    ensures x == y && i == j
  {
  }

  lemma {:induction false} ZerosInFront(k: nat, c: seq<byte>)
    ensures FromBigEndian(Padding(k) + c) == FromBigEndian(c)
  {
    if c == [] {
      AllZeros(k);
      assert Padding(k) + c == Padding(k);
    } else {
      var n := |c| - 1;
      assert (Padding(k) + c)[..k + n] == Padding(k) + c[..n];
      ZerosInFront(k, c[..n]);
    }
  }

  function Padding(k: nat): (b: seq<byte>)
    ensures |b| == k && forall i :: 0 <= i < k ==> b[i] == 0
  {
    seq(k, _ => 0)
  }

  lemma {:induction false} AllZeros(k: nat)
    ensures FromBigEndian(Padding(k)) == 0
  {
    if k > 0 {
      AllZeros(k - 1);
      assert Padding(k)[..k - 1] == Padding(k - 1);
    }
  }

  /** Content with a clear top bit and no superfluous zero survives stripping any zeros put before it. */
  lemma {:induction false} StripPadding(k: nat, c: seq<byte>)
    requires Minimal(c) && c[0] < 0x80
    ensures Strip(Padding(k) + c) == c
  {
    if k == 0 {
      assert Padding(0) + c == c;
    } else {
      assert (Padding(k) + c)[1..] == Padding(k - 1) + c;
      StripPadding(k - 1, c);
    }
  }

  lemma {:induction false} StripKeeps(b: seq<byte>)
    requires b != [] && b[0] < 0x80
    ensures FromBigEndian(Strip(b)) == FromBigEndian(b) && Strip(b)[0] < 0x80 && Minimal(Strip(b))
  {
    if |b| > 1 && b[0] == 0 && b[1] < 0x80 {
      StripKeeps(b[1..]);
      assert b == Padding(1) + b[1..];
      ZerosInFront(1, b[1..]);
    }
  }

  lemma OrderFits()
    ensures ORDER < ByteRange(32)
  {
    ByteRangeEight();
    hide ByteRange;
    ByteRangeSum(8, 8);
    ByteRangeSum(16, 16);
  }

  lemma {:induction false} ByteRangeSum(m: nat, n: nat)
    ensures ByteRange(m + n) == ByteRange(m) * ByteRange(n)
  {
    if m > 0 {
      ByteRangeSum(m - 1, n);
    }
  }

  /** The content of a scalar is minimal, positive, at most 33 bytes, and holds it. */
  lemma ContentFacts(n: scalar)
    ensures var c := Content(n);
            1 <= |c| <= 33 && Minimal(c) && c[0] < 0x80 && FromBigEndian(c) == n && Signed(c) == n
  {
    hide ToBytes, FromBigEndian, Strip, ByteRange;
    OrderFits();
    FromToBytes(n, 32);
    var b := [0] + ToBytes(n, 32);
    assert b == Padding(1) + ToBytes(n, 32);
    ZerosInFront(1, ToBytes(n, 32));
    StripKeeps(b);
  }

  lemma {:induction false} LargeBytes(c: seq<byte>)
    requires c != []
    ensures FromBigEndian(c) >= c[0] * ByteRange(|c| - 1)
  {
    if |c| > 1 {
      LargeBytes(c[..|c| - 1]);
      NextRange(c[0], ByteRange(|c| - 2));
    }
  }

  lemma NextRange(x: int, r: int)
    ensures 256 * (x * r) == x * (256 * r)
  {
  }

  lemma {:induction false} ByteRangeGrows(m: nat, n: nat)
    requires m <= n
    ensures ByteRange(m) <= ByteRange(n)
  {
    if m < n {
      ByteRangeGrows(m, n - 1);
    }
  }

  lemma AtLeast(x: int, r: int)
    requires x >= 1 && r >= 0
    ensures x * r >= r
  {
    MulMonotone(r, 1, x);
  }

  /** Minimal content of a number in range takes at most 33 bytes. */
  lemma ShortContent(c: seq<byte>)
    requires Minimal(c) && c[0] < 0x80 && FromBigEndian(c) < ORDER
    ensures |c| <= 33
  {
    hide FromBigEndian, ByteRange;
    OrderFits();
    if |c| > 33 {
      ByteRangeGrows(32, |c| - 2);
      if c[0] >= 1 {
        LargeBytes(c);
        ByteRangeGrows(32, |c| - 1);
        AtLeast(c[0], ByteRange(|c| - 1));
      } else {
        assert c == Padding(1) + c[1..];
        ZerosInFront(1, c[1..]);
        LargeBytes(c[1..]);
        AtLeast(c[1], ByteRange(|c| - 2));
      }
    }
  }

  /** The only minimal content of a number in range is the one the serializer writes. */
  lemma ContentUnique(c: seq<byte>)
    requires Minimal(c) && 0 <= Signed(c) < ORDER
    ensures c[0] < 0x80 && |c| <= 33 && c == Content(Signed(c))
  {
    hide FromBigEndian, ByteRange, ToBytes, Strip;
    if c[0] >= 0x80 {
      FromBigEndianBound(c);
    }
    ShortContent(c);
    var n: scalar := Signed(c);
    var k := 33 - |c|;
    OrderFits();
    FromToBytes(n, 32);
    assert [0] + ToBytes(n, 32) == Padding(1) + ToBytes(n, 32);
    ZerosInFront(1, ToBytes(n, 32));
    ZerosInFront(k, c);
    SameBytes([0] + ToBytes(n, 32), Padding(k) + c);
    StripPadding(k, c);
  }

  // ---------------------------------------------------------------------------------
  // Strict parsing and serializing
  // ---------------------------------------------------------------------------------

  lemma ShortLength(w: seq<byte>)
    requires w != [] && w[0] < 0x80
    ensures Length(w) == Some((w[0], 1))
  {
  }

  /** A written integer is read back, whatever follows. */
  lemma IntegerRoundTrip(n: scalar, rest: seq<byte>)
    ensures var c := Content(n); Integer([0x02, |c|] + c + rest) == Some((n, 2 + |c|))
  {
    hide FromBigEndian, Strip, ToBytes, Length;
    ContentFacts(n);
    var c := Content(n);
    var w := [0x02, |c|] + c + rest;
    assert w[1..] == [|c|] + c + rest;
    ShortLength(w[1..]);
    assert w[2..2 + |c|] == c;
  }

  /** Parsing what was serialized gives the scalars back. */
  lemma SignatureRoundTrip(r: scalar, s: scalar)
    ensures Signature(Encoding(r, s)) == Some((r, s))
    ensures 8 <= |Encoding(r, s)| == 6 + |Content(r)| + |Content(s)| <= 72
  {
    hide FromBigEndian, Strip, ToBytes, Length, Integer, Content;
    ContentFacts(r);
    ContentFacts(s);
    var (cr, cs) := (Content(r), Content(s));
    var w := Encoding(r, s);
    var body := w[2..];
    assert body == [0x02, |cr|] + cr + ([0x02, |cs|] + cs);
    assert w[1..] == [4 + |cr| + |cs|] + body;
    ShortLength(w[1..]);
    IntegerRoundTrip(r, [0x02, |cs|] + cs);
    assert body[2 + |cr|..] == [0x02, |cs|] + cs + [];
    IntegerRoundTrip(s, []);
  }

  /** A long form is only used from 128 on. */
  lemma LengthForm(w: seq<byte>)
    requires Length(w).Some?
    ensures var (n, used) := Length(w).value;
            1 <= used <= |w| && (n < 128 ==> used == 1 && w[0] == n) && (w[0] >= 0x80 ==> n + used <= |w|)
  {
    hide FromBigEndian;
  }

  /** An integer in range takes the bytes the serializer gives it. */
  lemma IntegerIsCanonical(w: seq<byte>)
    requires Integer(w).Some? && 0 <= Integer(w).value.0 < ORDER
    ensures var (x, m) := Integer(w).value; var c := Content(x);
            m == 2 + |c| <= |w| && w[..m] == [0x02, |c|] + c
  {
    hide FromBigEndian, Strip, ToBytes, Length, Signed, Minimal;
    LengthForm(w[1..]);
    var (n, used) := Length(w[1..]).value;
    var c := w[1 + used..1 + used + n];
    ContentUnique(c);
    assert w[..2] == [0x02, n];
    assert w[..2 + n] == w[..2] + w[2..2 + n];
  }

  /** An accepted input with both integers in range is the serializer's output, byte for byte. */
  lemma SignatureIsCanonical(w: seq<byte>)
    requires Signature(w).Some?
    requires var (r, s) := Signature(w).value; 0 <= r < ORDER && 0 <= s < ORDER
    ensures var (r, s) := Signature(w).value; w == Encoding(r, s)
  {
    hide FromBigEndian, Strip, ToBytes, Length, Integer, Content;
    LengthForm(w[1..]);
    var (n, used) := Length(w[1..]).value;
    var body := w[1 + used..];
    IntegerIsCanonical(body);
    var (r, m) := Integer(body).value;
    IntegerIsCanonical(body[m..]);
    var (s, l) := Integer(body[m..]).value;
    ContentFacts(r);
    ContentFacts(s);
    assert body == body[..m] + body[m..] && body[m..][..l] == body[m..];
    assert w == [0x30, n] + body;
  }

  /** Strict acceptance in range, both ways. */
  lemma SignatureIff(w: seq<byte>, r: scalar, s: scalar)
    ensures Signature(w) == Some((r, s)) <==> w == Encoding(r, s)
  {
    hide Signature, Encoding;
    if Signature(w) == Some((r, s)) {
      SignatureIsCanonical(w);
    }
    SignatureRoundTrip(r, s);
  }

  /** The pair of 1 and 128, whose top bit would make it negative without a zero before it. */
  lemma KnownSignature()
    ensures Encoding(1, 128) == [0x30, 7, 0x02, 1, 1, 0x02, 2, 0, 128]
  {
    hide Content;
    assert [1][..0] == [] && FromBigEndian([1]) == 1;
    assert [0, 128][..1] == [0] && [0][..0] == [] && FromBigEndian([0, 128]) == 128;
    ContentUnique([1]);
    ContentUnique([0, 128]);
  }
}
