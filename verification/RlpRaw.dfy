// Splitting encoded values without a stream: the slice-based reader of rlp/raw.go.
module RlpRaw {
  import opened Arith
  import opened Common
  import opened RlpFormat

  /** Sizes as raw.go counts them: a single byte has no tag and one byte of content. */
  datatype RawHead = RawHead(kind: Kind, tagsize: nat, contentsize: nat)

  function ReadSize(b: seq<byte>, slen: nat): Result<nat, Error>
    requires slen >= 1
  {
    if slen > |b| then Err(UnexpectedEof)
    else if FromBigEndian(b[..slen]) < 56 || b[0] == 0 then Err(CanonSize)
    else Ok(FromBigEndian(b[..slen]))
  }

  function ReadTagAndSize(buf: seq<byte>): Result<RawHead, Error>
    requires buf != []
  {
    var b := buf[0];
    if b < 0x80 then Ok(RawHead(KByte, 0, 1))
    else if b < 0xB8 then
      // One byte below 128 has a shorter form, its own.
      if b == 0x81 && |buf| > 1 && buf[1] < 128 then Err(CanonSize)
      else Ok(RawHead(KString, 1, b - 0x80))
    else if b < 0xC0 then
      match ReadSize(buf[1..], b - 0xB7)
      case Ok(size) => Ok(RawHead(KString, b - 0xB7 + 1, size))
      case Err(e) => Err(e)
    else if b < 0xF8 then Ok(RawHead(KList, 1, b - 0xC0))
    else
      match ReadSize(buf[1..], b - 0xF7)
      case Ok(size) => Ok(RawHead(KList, b - 0xF7 + 1, size))
      case Err(e) => Err(e)
  }

  function ReadKind(buf: seq<byte>): (r: Result<RawHead, Error>)
    ensures r.Ok? ==> 1 <= r.value.tagsize + r.value.contentsize <= |buf|
  {
    if buf == [] then Err(UnexpectedEof)
    else
      match ReadTagAndSize(buf)
      case Err(e) => Err(e)
      case Ok(h) =>
        // With this, slicing out the content is safe.
        if h.tagsize > |buf| || h.contentsize > |buf| - h.tagsize then Err(ValueTooLarge) else Ok(h)
  }

  /** The content of the first value and what follows it. */
  function Split(b: seq<byte>): Result<(Kind, seq<byte>, seq<byte>), Error> {
    match ReadKind(b)
    case Err(e) => Err(e)
    case Ok(h) =>
      Ok((h.kind, b[h.tagsize..h.tagsize + h.contentsize], b[h.tagsize + h.contentsize..]))
  }

  function Count(b: seq<byte>): Result<nat, Error>
    decreases |b|
  {
    if b == [] then Ok(0)
    else
      match ReadKind(b)
      case Err(e) => Err(e)
      case Ok(h) =>
        match Count(b[h.tagsize + h.contentsize..])
        case Err(e) => Err(e)
        case Ok(n) => Ok(n + 1)
  }

  function Plus(n: nat, r: Result<nat, Error>): Result<nat, Error> {
    match r
    case Ok(c) => Ok(n + c)
    case Err(e) => Err(e)
  }

  /** The loop form of Count. */
  method CountValues(b: seq<byte>) returns (n: nat, err: Option<Error>)
    ensures match Count(b)
            case Ok(c) => err == None && n == c
            case Err(e) => err == Some(e)
  {
    var rest := b;
    n := 0;
    while |rest| > 0
      invariant Count(b) == Plus(n, Count(rest))
      decreases |rest|
    {
      hide ReadKind;
      match ReadKind(rest) {
        case Err(e) => return 0, Some(e);
        case Ok(h) => rest := rest[h.tagsize + h.contentsize..];
      }
      n := n + 1;
    }
    err := None;
  }

  /** The slice reader accepts a head exactly when the stream reader accepts it and, for a string,
      its content; the two then agree. */
  lemma RawAgreesWithStream(b: seq<byte>, top: bool)
    ensures ReadKind(b).Ok?
       <==> ReadHead(b, top).Ok? && (ReadHead(b, top).value.kind != KList ==> StringContent(b, ReadHead(b, top).value).Ok?)
    ensures ReadKind(b).Ok? ==>
              var r, h := ReadKind(b).value, ReadHead(b, top).value;
              r.kind == h.kind && r.tagsize + r.contentsize == h.tagLen + h.size
              && (h.kind != KByte ==> r.tagsize == h.tagLen)
              && (h.kind != KList ==> StringContent(b, h) == Ok(b[r.tagsize..r.tagsize + r.contentsize]))
  {
    if b != [] {
      if 0xB8 <= b[0] < 0xC0 {
        SizesAgree(b, b[0] - 0xB7, top);
      } else if 0xF8 <= b[0] {
        SizesAgree(b, b[0] - 0xF7, top);
      }
      hide ReadSize, LongSize, FromBigEndian;
      assert b[..1] == [b[0]];
    }
  }

  lemma SizesAgree(b: seq<byte>, n: nat, top: bool)
    requires b != [] && 1 <= n <= 8
    ensures ReadSize(b[1..], n).Ok? <==> LongSize(b, n, top).Ok?
    ensures ReadSize(b[1..], n).Ok? ==>
              ReadSize(b[1..], n) == LongSize(b, n, top) && LongSize(b, n, top).value >= 56 && n < |b|
  {
    if n <= |b| - 1 {
      assert b[1..][..n] == b[1..1 + n];
      if n == 1 {
        assert b[1..2] == [b[1]];
        assert FromBigEndian([b[1]]) == 256 * FromBigEndian([]) + b[1];
      }
    }
  }

  /** The content a value's header announces. */
  function Content(it: Item): seq<byte> {
    match it
    case Str(b) => b
    case List(items) => EncodeAll(items)
  }

  function KindOf(it: Item): Kind {
    match it
    case Str(b) => if |b| == 1 && b[0] <= 0x7F then KByte else KString
    case List(_) => KList
  }

  /** Splitting an encoding gives the value's content and exactly what followed. */
  lemma SplitOfEncoding(it: Item, rest: seq<byte>)
    requires |Encode(it)| < TWO_64
    ensures Split(Encode(it) + rest) == Ok((KindOf(it), Content(it), rest))
  {
    var c := Content(it);
    match KindOf(it) {
      case KByte =>
        assert Encode(it) == c;
        SplitByte(c[0], rest);
        assert [c[0]] == c;
      case KString =>
        HeadOfHeader(|c|, KString, c + rest, true);
        SplitAfterHeader(StringHeader(|c|), KString, c, rest);
      case KList =>
        HeadOfHeader(|c|, KList, c + rest, true);
        SplitAfterHeader(ListHeader(|c|), KList, c, rest);
    }
  }

  lemma SplitByte(b: byte, rest: seq<byte>)
    requires b < 128
    ensures Split([b] + rest) == Ok((KByte, [b], rest))
  {
    var w := [b] + rest;
    assert w[0] == b && w[0..1] == [b] && w[1..] == rest;
  }

  lemma SplitAfterHeader(h: seq<byte>, kind: Kind, c: seq<byte>, rest: seq<byte>)
    requires kind != KByte && ReadHead(h + (c + rest), true) == Ok(Head(kind, |h|, |c|))
    requires kind == KString ==> !(|c| == 1 && c[0] < 128)
    ensures Split(h + c + rest) == Ok((kind, c, rest))
  {
    var w := h + (c + rest);
    assert h + c + rest == w;
    RawAgreesWithStream(w, true);
    hide ReadKind, ReadHead;
    assert |c| == 1 ==> w[|h|] == c[0];
    assert w[|h|..|h| + |c|] == c && w[|h| + |c|..] == rest;
  }

  lemma {:induction false} CountOfEncoding(items: seq<Item>)
    requires |EncodeAll(items)| < TWO_64
    ensures Count(EncodeAll(items)) == Ok(|items|)
  {
    if items != [] {
      var b := EncodeAll(items);
      SplitOfEncoding(items[0], EncodeAll(items[1..]));
      CountOfEncoding(items[1..]);
      var h := ReadKind(b).value;
      assert b[h.tagsize + h.contentsize..] == EncodeAll(items[1..]);
    }
  }
}
