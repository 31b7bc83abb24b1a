// The RLP wire format (Ethereum Yellow Paper, Appendix B): the recursive encoding of a
// value tree, and a reader that says, byte string by byte string, what a decoder must answer.
module RlpFormat {
  import opened Common

  datatype Item = Str(bytes: seq<byte>) | List(items: seq<Item>)

  datatype Kind = KByte | KString | KList

  datatype Error =
    | Eof | Eol | UnexpectedEof
    | ElemTooLarge | ValueTooLarge | MoreThanOneValue
    | CanonSize | CanonInt | UintOverflow
    | ExpectedString | ExpectedList
    | NotInList | NotAtEol

  // ---------------------------------------------------------------------------------
  // Big-endian integers
  // ---------------------------------------------------------------------------------

  /** The shortest big-endian form of n; the empty string for 0. */
  function BigEndian(n: nat): seq<byte> {
    if n == 0 then [] else BigEndian(n / 256) + [n % 256]
  }

  function FromBigEndian(s: seq<byte>): nat {
    if s == [] then 0 else 256 * FromBigEndian(s[..|s| - 1]) + s[|s| - 1]
  }

  lemma {:induction false} BigEndianInverse(n: nat)
    ensures FromBigEndian(BigEndian(n)) == n
    ensures n > 0 ==> |BigEndian(n)| > 0 && BigEndian(n)[0] != 0
  {
    if n > 0 {
      BigEndianInverse(n / 256);
      assert BigEndian(n)[..|BigEndian(n)| - 1] == BigEndian(n / 256);
    }
  }

  lemma {:induction false} FromBigEndianInverse(s: seq<byte>)
    requires s != [] ==> s[0] != 0
    ensures BigEndian(FromBigEndian(s)) == s
    ensures s != [] ==> FromBigEndian(s) > 0
  {
    if s != [] {
      var init := s[..|s| - 1];
      FromBigEndianInverse(init);
      assert s == init + [s[|s| - 1]];
      if init == [] {
        assert FromBigEndian(s) == s[0];
        assert BigEndian(s[0]) == BigEndian(0) + [s[0]];
      } else {
        assert FromBigEndian(s) / 256 == FromBigEndian(init);
      }
    }
  }

  /** 256^k, the number of values of a k-byte integer. */
  function ByteRange(k: nat): (r: nat)
    ensures r >= 1
  {
    if k == 0 then 1 else 256 * ByteRange(k - 1)
  }

  lemma {:induction false} BigEndianLength(n: nat, k: nat)
    ensures n < ByteRange(k) <==> |BigEndian(n)| <= k
  {
    if n > 0 && k > 0 {
      BigEndianLength(n / 256, k - 1);
    }
  }

  lemma {:induction false} FromBigEndianBound(s: seq<byte>)
    ensures FromBigEndian(s) < ByteRange(|s|)
  {
    if s != [] {
      FromBigEndianBound(s[..|s| - 1]);
    }
  }

  lemma ByteRangeEight()
    ensures ByteRange(8) == TWO_64
  {
    assert ByteRange(2) == 65536;
    assert ByteRange(4) == 65536 * 65536;
    assert ByteRange(6) == 65536 * 65536 * 65536;
  }

  // ---------------------------------------------------------------------------------
  // The recursive encoding
  // ---------------------------------------------------------------------------------

  /** A header: the small form below 56, otherwise a tag counting the size bytes, and the size. */
  function Header(small: byte, large: byte, size: nat): (h: seq<byte>)
    requires small <= 0xC0
    ensures |h| >= 1
  {
    if size < 56 then [small + size]
    else [(large + |BigEndian(size)|) % 256] + BigEndian(size)
  }

  function StringHeader(size: nat): seq<byte> { Header(0x80, 0xB7, size) }

  function ListHeader(size: nat): seq<byte> { Header(0xC0, 0xF7, size) }

  function EncodeString(b: seq<byte>): (e: seq<byte>)
    ensures |e| >= 1
  {
    if |b| == 1 && b[0] <= 0x7F then b else StringHeader(|b|) + b
  }

  function Encode(it: Item): (e: seq<byte>)
    ensures |e| >= 1
    decreases it, 0
  {
    match it
    case Str(b) => EncodeString(b)
    case List(items) => ListHeader(|EncodeAll(items)|) + EncodeAll(items)
  }

  function EncodeAll(items: seq<Item>): seq<byte>
    decreases items, 1
  {
    if items == [] then [] else Encode(items[0]) + EncodeAll(items[1..])
  }

  lemma {:induction false} EncodeAllAppend(xs: seq<Item>, ys: seq<Item>)
    ensures EncodeAll(xs + ys) == EncodeAll(xs) + EncodeAll(ys)
  {
    if xs == [] {
      assert xs + ys == ys;
    } else {
      assert (xs + ys)[1..] == xs[1..] + ys;
      EncodeAllAppend(xs[1..], ys);
    }
  }

  // ---------------------------------------------------------------------------------
  // Reading: w is what is left of the innermost list, or of the input when top holds
  // ---------------------------------------------------------------------------------

  datatype Head = Head(kind: Kind, tagLen: nat, size: nat)

  function TooLarge(top: bool): Error {
    if top then ValueTooLarge else ElemTooLarge
  }

  /** The size that follows a long-form tag in n bytes. */
  function LongSize(w: seq<byte>, n: nat, top: bool): (r: Result<nat, Error>)
    requires |w| >= 1 && n >= 1
  {
    if n > |w| - 1 then Err(TooLarge(top))
    else if n >= 2 && w[1] == 0 then Err(CanonSize)
    else if FromBigEndian(w[1..1 + n]) < 56 then Err(CanonSize)
    else Ok(FromBigEndian(w[1..1 + n]))
  }

  /** The integer held by the next n bytes; from two bytes on no leading zero is allowed. */
  function UintAt(w: seq<byte>, n: nat, top: bool): Result<nat, Error> {
    if n > |w| then Err(TooLarge(top))
    else if n >= 2 && w[0] == 0 then Err(CanonSize)
    else Ok(FromBigEndian(w[..n]))
  }

  lemma LongSizeIsUint(w: seq<byte>, n: nat, top: bool)
    requires |w| >= 1 && n >= 1
    ensures LongSize(w, n, top)
         == match UintAt(w[1..], n, top)
            case Ok(v) => if v < 56 then Err(CanonSize) else Ok(v)
            case Err(e) => Err(e)
  {
    if n <= |w| - 1 {
      assert w[1..][..n] == w[1..1 + n];
    }
  }

  lemma {:induction false} LeadingZeros(z: seq<byte>, s: seq<byte>)
    requires forall i :: 0 <= i < |z| ==> z[i] == 0
    ensures FromBigEndian(z + s) == FromBigEndian(s)
  {
    if s != [] {
      assert (z + s)[..|z + s| - 1] == z + s[..|s| - 1];
      LeadingZeros(z, s[..|s| - 1]);
    } else if z != [] {
      assert z + s == z;
      LeadingZeros(z[..|z| - 1], []);
      assert z[..|z| - 1] + [] == z[..|z| - 1];
    }
  }

  function LongHead(w: seq<byte>, n: nat, kind: Kind, top: bool): (r: Result<Head, Error>)
    requires |w| >= 1 && n >= 1
  {
    match LongSize(w, n, top)
    case Ok(size) => Ok(Head(kind, 1 + n, size))
    case Err(e) => Err(e)
  }

  function ReadTag(w: seq<byte>, top: bool): Result<Head, Error>
    requires |w| >= 1
  {
    var b := w[0];
    if b < 0x80 then Ok(Head(KByte, 1, 0))
    else if b < 0xB8 then Ok(Head(KString, 1, b - 0x80))
    else if b < 0xC0 then LongHead(w, b - 0xB7, KString, top)
    else if b < 0xF8 then Ok(Head(KList, 1, b - 0xC0))
    else LongHead(w, b - 0xF7, KList, top)
  }

  /** The head of the next value, checked against the room there is for it. */
  function ReadHead(w: seq<byte>, top: bool): (r: Result<Head, Error>)
    ensures r.Ok? ==> 1 <= r.value.tagLen && r.value.tagLen + r.value.size <= |w|
  {
    if w == [] then Err(if top then Eof else Eol)
    else
      match ReadTag(w, top)
      case Err(e) => Err(e)
      case Ok(h) => if h.size > |w| - h.tagLen then Err(TooLarge(top)) else Ok(h)
  }

  function StringContent(w: seq<byte>, h: Head): Result<seq<byte>, Error>
    requires h.kind != KList
    requires 1 <= h.tagLen && h.tagLen + h.size <= |w|
  {
    if h.kind == KByte then Ok([w[0]])
    else if h.size == 1 && w[h.tagLen] < 128 then Err(CanonSize)
    else Ok(w[h.tagLen..h.tagLen + h.size])
  }

  /** The first value of the window and its length. */
  function DecodeItem(w: seq<byte>, top: bool): (r: Result<(Item, nat), Error>)
    ensures r.Ok? ==> 1 <= r.value.1 <= |w|
    decreases |w|, 0
  {
    match ReadHead(w, top)
    case Err(e) => Err(e)
    case Ok(h) =>
      var n := h.tagLen + h.size;
      if h.kind == KList then
        match DecodeItems(w[h.tagLen..n])
        case Err(e) => Err(e)
        case Ok(items) => Ok((List(items), n))
      else
        match StringContent(w, h)
        case Err(e) => Err(e)
        case Ok(b) => Ok((Str(b), n))
  }

  /** All values of a list whose content is w. */
  function DecodeItems(w: seq<byte>): Result<seq<Item>, Error>
    decreases |w|, 1
  {
    if w == [] then Ok([])
    else
      match DecodeItem(w, false)
      case Err(e) => Err(e)
      case Ok(p) =>
        match DecodeItems(w[p.1..])
        case Err(e) => Err(e)
        case Ok(rest) => Ok([p.0] + rest)
  }

  /** What an integer reader for maxBytes bytes must answer: value and length, or the refusal. */
  function DecodeUint(w: seq<byte>, top: bool, maxBytes: nat): Result<(nat, nat), Error> {
    match ReadHead(w, top)
    case Err(e) => Err(e)
    case Ok(h) =>
      match h.kind
      case KByte => if w[0] == 0 then Err(CanonInt) else Ok((w[0], 1))
      case KList => Err(ExpectedString)
      case KString =>
        if h.size > maxBytes then Err(UintOverflow)
        else
          match UintAt(w[h.tagLen..], h.size, top)
          case Err(e) => Err(if e == CanonSize then CanonInt else e)
          case Ok(v) => if h.size > 0 && v < 128 then Err(CanonSize) else Ok((v, h.tagLen + h.size))
  }

  /** Exactly one value and nothing after it. */
  function DecodeWhole(b: seq<byte>): Result<Item, Error> {
    match DecodeItem(b, true)
    case Err(e) => Err(e)
    case Ok(p) => if p.1 < |b| then Err(MoreThanOneValue) else Ok(p.0)
  }

  // ---------------------------------------------------------------------------------
  // Canonicality: what is accepted is the encoding of what is returned
  // ---------------------------------------------------------------------------------

  /** A long-form tag is accepted only in the form Header writes. */
  lemma LongHeadIsHeader(w: seq<byte>, n: nat, top: bool, small: byte, large: byte)
    requires |w| >= 1 && 1 <= n <= 8 && small <= 0xC0 && large + 8 <= 255
    requires w[0] == large + n
    requires LongSize(w, n, top).Ok?
    ensures w[..1 + n] == Header(small, large, LongSize(w, n, top).value)
  {
    var s := w[1..1 + n];
    if n == 1 {
      assert s == [w[1]];
      assert FromBigEndian(s) == 256 * FromBigEndian([]) + w[1];
    }
    FromBigEndianInverse(s);
    assert w[..1 + n] == [w[0]] + s;
  }

  lemma HeadIsCanonical(w: seq<byte>, top: bool)
    requires ReadHead(w, top).Ok?
    ensures var h := ReadHead(w, top).value;
            h.kind == KString ==> w[..h.tagLen] == StringHeader(h.size)
    ensures var h := ReadHead(w, top).value;
            h.kind == KList ==> w[..h.tagLen] == ListHeader(h.size)
    ensures var h := ReadHead(w, top).value;
            h.kind == KByte ==> h.tagLen == 1 && h.size == 0 && w[0] < 128
  {
    hide FromBigEndian, BigEndian;
    var b := w[0];
    assert w[..1] == [b];
    if 0xB8 <= b < 0xC0 {
      LongHeadIsHeader(w, b - 0xB7, top, 0x80, 0xB7);
    } else if 0xF8 <= b {
      LongHeadIsHeader(w, b - 0xF7, top, 0xC0, 0xF7);
    }
  }

  lemma {:induction false} DecodeIsCanonical(w: seq<byte>, top: bool)
    requires DecodeItem(w, top).Ok?
    ensures var (it, n) := DecodeItem(w, top).value; w[..n] == Encode(it)
    decreases |w|, 0
  {
    hide Header, ReadTag, ReadHead, DecodeItems, EncodeAll;
    HeadIsCanonical(w, top);
    var h := ReadHead(w, top).value;
    var n := h.tagLen + h.size;
    assert w[..n] == w[..h.tagLen] + w[h.tagLen..n];
    match h.kind {
      case KByte => assert w[..1] == [w[0]];
      case KString =>
        var b := w[h.tagLen..n];
        assert |b| == h.size;
        assert h.size == 1 ==> b[0] == w[h.tagLen];
      case KList => DecodeItemsIsCanonical(w[h.tagLen..n]);
    }
  }

  lemma {:induction false} DecodeItemsIsCanonical(w: seq<byte>)
    requires DecodeItems(w).Ok?
    ensures w == EncodeAll(DecodeItems(w).value)
    decreases |w|, 1
  {
    hide DecodeItem, Encode;
    if w != [] {
      DecodeIsCanonical(w, false);
      var (it, n) := DecodeItem(w, false).value;
      DecodeItemsIsCanonical(w[n..]);
      var rest := DecodeItems(w[n..]).value;
      assert DecodeItems(w).value == [it] + rest;
      assert ([it] + rest)[1..] == rest;
      assert w == w[..n] + w[n..];
    }
  }

  // ---------------------------------------------------------------------------------
  // Round trip: every encoding shorter than 2^64 bytes is read back, whatever follows it
  // ---------------------------------------------------------------------------------

  lemma LongSizeOfHeader(size: nat, small: byte, large: byte, rest: seq<byte>, top: bool)
    requires 56 <= size < TWO_64 && small <= 0xC0 && large + 8 <= 255
    ensures var k := |BigEndian(size)|; var w := Header(small, large, size) + rest;
            1 <= k <= 8 && w[0] == large + k && LongSize(w, k, top) == Ok(size)
  {
    var be := BigEndian(size);
    ByteRangeEight();
    BigEndianLength(size, 8);
    BigEndianInverse(size);
    var w := Header(small, large, size) + rest;
    assert w[1..1 + |be|] == be;
    assert w[1] == be[0];
  }

  lemma HeadOfHeader(size: nat, kind: Kind, rest: seq<byte>, top: bool)
    requires kind != KByte && size < TWO_64 && size <= |rest|
    ensures var h := if kind == KString then StringHeader(size) else ListHeader(size);
            ReadHead(h + rest, top) == Ok(Head(kind, |h|, size))
  {
    if size >= 56 {
      if kind == KString {
        LongSizeOfHeader(size, 0x80, 0xB7, rest, top);
      } else {
        LongSizeOfHeader(size, 0xC0, 0xF7, rest, top);
      }
    }
  }

  lemma StringRoundTrip(b: seq<byte>, rest: seq<byte>, top: bool)
    requires |b| < TWO_64
    ensures DecodeItem(EncodeString(b) + rest, top) == Ok((Str(b), |EncodeString(b)|))
  {
    var w := EncodeString(b) + rest;
    if |b| == 1 && b[0] <= 0x7F {
      assert w[0] == b[0];
      assert ReadHead(w, top) == Ok(Head(KByte, 1, 0));
      assert [w[0]] == b;
    } else {
      HeadOfHeader(|b|, KString, b + rest, top);
      var h := StringHeader(|b|);
      assert w == h + (b + rest);
      assert w[|h|..|h| + |b|] == b;
      assert |b| == 1 ==> w[|h|] == b[0];
    }
  }

  lemma DecodeListStep(w: seq<byte>, top: bool, h: Head, items: seq<Item>)
    requires ReadHead(w, top) == Ok(h) && h.kind == KList
    requires DecodeItems(w[h.tagLen..h.tagLen + h.size]) == Ok(items)
    ensures DecodeItem(w, top) == Ok((List(items), h.tagLen + h.size))
  {
  }

  lemma {:induction false} ListRoundTrip(c: seq<byte>, items: seq<Item>, rest: seq<byte>, top: bool)
    requires |c| < TWO_64 && DecodeItems(c) == Ok(items)
    ensures DecodeItem(ListHeader(|c|) + c + rest, top) == Ok((List(items), |ListHeader(|c|) + c|))
  {
    var h := ListHeader(|c|);
    HeadOfHeader(|c|, KList, c + rest, top);
    var w := h + c + rest;
    assert w == h + (c + rest);
    assert w[|h|..|h| + |c|] == c;
    DecodeListStep(w, top, Head(KList, |h|, |c|), items);
  }

  lemma {:induction false} EncodeRoundTrip(it: Item, rest: seq<byte>, top: bool)
    requires |Encode(it)| < TWO_64
    ensures DecodeItem(Encode(it) + rest, top) == Ok((it, |Encode(it)|))
    decreases it, 0
  {
    match it {
      case Str(b) => StringRoundTrip(b, rest, top);
      case List(items) =>
        EncodeAllRoundTrip(items);
        ListRoundTrip(EncodeAll(items), items, rest, top);
    }
  }

  lemma {:induction false} EncodeAllRoundTrip(items: seq<Item>)
    requires |EncodeAll(items)| < TWO_64
    ensures DecodeItems(EncodeAll(items)) == Ok(items)
    decreases items, 1
  {
    if items != [] {
      var w := EncodeAll(items);
      var rest := EncodeAll(items[1..]);
      EncodeRoundTrip(items[0], rest, false);
      assert w[|Encode(items[0])|..] == rest;
      EncodeAllRoundTrip(items[1..]);
      assert items == [items[0]] + items[1..];
    }
  }

  /** A byte string is accepted with value `it` exactly when it is the encoding of `it`. */
  lemma DecodeWholeIff(b: seq<byte>, it: Item)
    requires |b| < TWO_64
    ensures DecodeWhole(b) == Ok(it) <==> b == Encode(it)
  {
    if DecodeWhole(b) == Ok(it) {
      DecodeIsCanonical(b, true);
      assert b[..|b|] == b;
    }
    if b == Encode(it) {
      EncodeRoundTrip(it, [], true);
      assert b + [] == b;
    }
  }

  /** No encoding is a proper prefix of another, and different values encode differently. */
  lemma EncodePrefixFree(x: Item, y: Item, p: seq<byte>, q: seq<byte>)
    requires |Encode(x)| < TWO_64 && |Encode(y)| < TWO_64
    requires Encode(x) + p == Encode(y) + q
    ensures x == y && p == q
  {
    EncodeRoundTrip(x, p, true);
    EncodeRoundTrip(y, q, true);
    assert p == (Encode(x) + p)[|Encode(x)|..];
    assert q == (Encode(y) + q)[|Encode(y)|..];
  }

  // ---------------------------------------------------------------------------------
  // Unsigned integers: the string holding the shortest big-endian form
  // ---------------------------------------------------------------------------------

  function EncodeUint(v: nat): seq<byte> {
    EncodeString(BigEndian(v))
  }

  lemma SmallBigEndian(v: nat)
    requires 0 < v < 256
    ensures BigEndian(v) == [v]
  {
    assert BigEndian(v / 256) == [];
  }

  lemma UintOfBigEndian(v: nat, rest: seq<byte>, top: bool)
    ensures UintAt(BigEndian(v) + rest, |BigEndian(v)|, top) == Ok(v)
  {
    BigEndianInverse(v);
    assert (BigEndian(v) + rest)[..|BigEndian(v)|] == BigEndian(v);
  }

  lemma UintRoundTrip(v: nat, rest: seq<byte>, top: bool, maxBytes: nat)
    requires 1 <= maxBytes <= 8 && v < ByteRange(maxBytes)
    ensures DecodeUint(EncodeUint(v) + rest, top, maxBytes) == Ok((v, |EncodeUint(v)|))
  {
    var be := BigEndian(v);
    BigEndianLength(v, maxBytes);
    if 0 < v < 128 {
      SmallBigEndian(v);
    } else {
      hide BigEndian;
      if v != 0 {
        BigEndianAbove(v);
      }
      UintOfBigEndian(v, rest, top);
      LongUint(be, rest, top, maxBytes, v);
    }
  }

  lemma LongUint(be: seq<byte>, rest: seq<byte>, top: bool, maxBytes: nat, v: nat)
    requires |be| <= maxBytes <= 8 && UintAt(be + rest, |be|, top) == Ok(v)
    requires be == [] || v >= 128
    requires |be| == 1 ==> be[0] >= 128
    ensures DecodeUint(EncodeString(be) + rest, top, maxBytes) == Ok((v, |EncodeString(be)|))
  {
    hide UintAt;
    var h := StringHeader(|be|);
    var w := EncodeString(be) + rest;
    assert w == h + (be + rest) && w[|h|..] == be + rest;
    HeadOfHeader(|be|, KString, be + rest, top);
    hide ReadHead, Header;
  }

  lemma BigEndianAbove(v: nat)
    requires v >= 128
    ensures |BigEndian(v)| >= 1 && (|BigEndian(v)| == 1 ==> BigEndian(v)[0] >= 128)
  {
    if v < 256 {
      SmallBigEndian(v);
    }
  }

  lemma UintIsCanonical(w: seq<byte>, top: bool, maxBytes: nat)
    requires DecodeUint(w, top, maxBytes).Ok? && 1 <= maxBytes <= 8
    ensures var (v, n) := DecodeUint(w, top, maxBytes).value;
            n <= |w| && w[..n] == EncodeUint(v) && v < ByteRange(maxBytes)
  {
    var (v, n) := DecodeUint(w, top, maxBytes).value;
    HeadIsCanonical(w, top);
    var h := ReadHead(w, top).value;
    if h.kind == KByte {
      SmallBigEndian(v);
      BigEndianLength(v, maxBytes);
      assert w[..1] == [w[0]];
    } else {
      var s := w[h.tagLen..][..h.size];
      if h.size == 1 {
        assert s == [s[0]] && FromBigEndian(s) == 256 * FromBigEndian([]) + s[0];
      }
      FromBigEndianInverse(s);
      BigEndianLength(v, maxBytes);
      assert n == h.tagLen + h.size && s == w[h.tagLen..n];
      assert w[..n] == w[..h.tagLen] + w[h.tagLen..n];
    }
  }

  /** The integer decoder accepts exactly the encodings of integers that fit. */
  lemma DecodeUintIff(w: seq<byte>, top: bool, maxBytes: nat, v: nat, n: nat)
    requires 1 <= maxBytes <= 8
    ensures DecodeUint(w, top, maxBytes) == Ok((v, n))
       <==> n <= |w| && w[..n] == EncodeUint(v) && v < ByteRange(maxBytes)
  {
    hide DecodeUint, EncodeUint, ByteRange;
    if DecodeUint(w, top, maxBytes) == Ok((v, n)) {
      UintIsCanonical(w, top, maxBytes);
    }
    if n <= |w| && w[..n] == EncodeUint(v) && v < ByteRange(maxBytes) {
      UintRoundTrip(v, w[n..], top, maxBytes);
      assert EncodeUint(v) + w[n..] == w;
    }
  }

  // ---------------------------------------------------------------------------------
  // Known encodings
  // ---------------------------------------------------------------------------------

  /** The first byte weighs most. */
  lemma {:induction false} FirstWeighs(x: byte, s: seq<byte>)
    ensures FromBigEndian([x] + s) == x * ByteRange(|s|) + FromBigEndian(s)
  {
    if s == [] {
      assert [x] + s == [x] && [x][..0] == [];
    } else {
      var n := |s| - 1;
      assert ([x] + s)[..n + 1] == [x] + s[..n];
      FirstWeighs(x, s[..n]);
    }
  }

  lemma KnownStrings(b: seq<byte>)
    ensures Encode(Str([])) == [0x80] && Encode(Str([0x0F])) == [0x0F] && Encode(Str([0x80])) == [0x81, 0x80]
    ensures Encode(Str([100, 111, 103])) == [0x83, 100, 111, 103]
    ensures |b| == 55 ==> Encode(Str(b)) == [0xB7] + b
    ensures |b| == 56 ==> Encode(Str(b)) == [0xB8, 56] + b
    ensures |b| == 1024 ==> Encode(Str(b)) == [0xB9, 4, 0] + b
  {
  }

  lemma KnownList()
    ensures Encode(List([])) == [0xC0]
    ensures Encode(List([Str([99, 97, 116]), Str([100, 111, 103])])) == [0xC8, 0x83, 99, 97, 116, 0x83, 100, 111, 103]
  {
  }

  /** The set-theoretical representation of three. */
  lemma KnownNesting()
    ensures Encode(List([List([]), List([List([])]), List([List([]), List([List([])])])]))
         == [0xC7, 0xC0, 0xC1, 0xC0, 0xC3, 0xC0, 0xC1, 0xC0]
  {
  }

  /** What malformed inputs are refused with. */
  lemma KnownErrors()
    ensures DecodeWhole([]) == Err(Eof) && DecodeWhole([0x00, 0x00]) == Err(MoreThanOneValue)
    ensures DecodeWhole([0x81, 0x05]) == Err(CanonSize) && DecodeWhole([0x81, 0x7F]) == Err(CanonSize)
    ensures DecodeWhole([0xB8, 0x02, 0x00, 0x04]) == Err(CanonSize) && DecodeWhole([0xF8, 0x02, 0x00, 0x04]) == Err(CanonSize)
    ensures DecodeWhole([0x82, 0x01]) == Err(ValueTooLarge) && DecodeWhole([0xC1, 0x82]) == Err(ElemTooLarge)
  {
  }

  /** What is refused where an integer of at most four bytes is read. */
  lemma KnownUintErrors()
    ensures DecodeUint([0x85, 5, 5, 5, 5, 5], true, 4) == Err(UintOverflow)
    ensures DecodeUint([0xC0], true, 4) == Err(ExpectedString) && DecodeUint([0x00], true, 4) == Err(CanonInt)
    ensures DecodeUint([0x81, 0x05], true, 4) == Err(CanonSize)
    ensures DecodeUint([0x82, 0x00, 0x04], true, 4) == Err(CanonInt)
    ensures DecodeUint([0xB8, 0x02, 0x00, 0x04], true, 4) == Err(CanonSize)
  {
  }
}
