// The RLP encoder: string data is collected in one buffer, list headers are recorded beside it
// and spliced in when the result is produced.
module RlpEncoder {
  import opened Arith
  import opened Common
  import opened RlpFormat
  import opened RlpLayout

  // ---------------------------------------------------------------------------------
  // putint, intsize, puthead, headsize
  // ---------------------------------------------------------------------------------

  /** Byte j of the k-byte big-endian form of i. */
  function ByteAt(i: nat, k: nat, j: nat): byte
    requires j < k
  {
    (i / ByteRange(k - 1 - j)) % 256
  }

  lemma ByteAtShift(i: nat, k: nat, j: nat)
    requires j + 1 < k
    ensures ByteAt(i / 256, k - 1, j) == ByteAt(i, k, j)
  {
    var r := ByteRange(k - 2 - j);
    assert ByteRange(k - 1 - j) == 256 * r;
    DivDiv(i, 256, r);
  }

  lemma ByteAtLast(i: nat, k: nat)
    requires k >= 1
    ensures ByteAt(i, k, k - 1) == i % 256
  {
    assert ByteRange(0) == 1;
  }

  lemma DivRange(i: nat, a: nat, b: nat)
    requires 256 * a <= i < 256 * b
    ensures a <= i / 256 < b
  {
  }

  lemma {:induction false} BigEndianDigits(i: nat, k: nat)
    requires k >= 1 && ByteRange(k - 1) <= i < ByteRange(k)
    ensures |BigEndian(i)| == k
    ensures forall j :: 0 <= j < k ==> BigEndian(i)[j] == ByteAt(i, k, j)
  {
    hide ByteAt;
    ByteAtLast(i, k);
    if k == 1 {
      assert BigEndian(i) == BigEndian(0) + [i];
    } else {
      DivRange(i, ByteRange(k - 2), ByteRange(k - 1));
      BigEndianDigits(i / 256, k - 1);
      forall j | 0 <= j < k - 1
        ensures BigEndian(i)[j] == ByteAt(i, k, j)
      {
        ByteAtShift(i, k, j);
        assert BigEndian(i)[j] == BigEndian(i / 256)[j];
      }
    }
  }

  /** Conversion to a byte keeps the low eight bits. */
  function Low(i: nat): byte { i % 256 }

  lemma ByteRanges()
    ensures ByteRange(0) == 1 && ByteRange(1) == 0x100 && ByteRange(2) == 0x1_0000 && ByteRange(3) == 0x100_0000
    ensures ByteRange(4) == 0x1_0000_0000 && ByteRange(5) == 0x100_0000_0000
    ensures ByteRange(6) == 0x1_0000_0000_0000 && ByteRange(7) == 0x100_0000_0000_0000
    ensures ByteRange(8) == TWO_64
  {
    assert ByteRange(1) == 256 * ByteRange(0);
    assert ByteRange(2) == 256 * ByteRange(1);
    assert ByteRange(3) == 256 * ByteRange(2);
    assert ByteRange(4) == 256 * ByteRange(3);
    assert ByteRange(5) == 256 * ByteRange(4);
    assert ByteRange(6) == 256 * ByteRange(5);
    assert ByteRange(7) == 256 * ByteRange(6);
    assert ByteRange(8) == 256 * ByteRange(7);
  }

  function Width(i: nat): nat {
    if i < 0x100 then 1
    else if i < 0x1_0000 then 2
    else if i < 0x100_0000 then 3
    else if i < 0x1_0000_0000 then 4
    else if i < 0x100_0000_0000 then 5
    else if i < 0x1_0000_0000_0000 then 6
    else if i < 0x100_0000_0000_0000 then 7
    else 8
  }

  lemma Digits(i: nat)
    requires i < TWO_64
    ensures i > 0 ==> |BigEndian(i)| == Width(i)
    ensures i > 0 ==> forall j :: 0 <= j < Width(i) ==> BigEndian(i)[j] == ByteAt(i, Width(i), j)
    ensures ByteRange(0) == 1 && ByteRange(1) == 0x100 && ByteRange(2) == 0x1_0000 && ByteRange(3) == 0x100_0000
    ensures ByteRange(4) == 0x1_0000_0000 && ByteRange(5) == 0x100_0000_0000
    ensures ByteRange(6) == 0x1_0000_0000_0000 && ByteRange(7) == 0x100_0000_0000_0000
  {
    ByteRanges();
    if i > 0 {
      BigEndianDigits(i, Width(i));
    }
  }

  /** The bytes of i, most significant first and without leading zeros; 0 takes one byte. */
  method IntBytes(i: nat) returns (bytes: seq<byte>)
    requires i < TWO_64
    ensures bytes == if i == 0 then [0] else BigEndian(i)
  {
    if i < 0x100 {
      bytes := [Low(i)];
    } else if i < 0x1_0000 {
      bytes := [Low(i / 0x100), Low(i)];
    } else if i < 0x100_0000 {
      bytes := [Low(i / 0x1_0000), Low(i / 0x100), Low(i)];
    } else if i < 0x1_0000_0000 {
      bytes := [Low(i / 0x100_0000), Low(i / 0x1_0000), Low(i / 0x100), Low(i)];
    } else if i < 0x100_0000_0000 {
      bytes := [Low(i / 0x1_0000_0000), Low(i / 0x100_0000), Low(i / 0x1_0000), Low(i / 0x100),
                Low(i)];
    } else if i < 0x1_0000_0000_0000 {
      bytes := [Low(i / 0x100_0000_0000), Low(i / 0x1_0000_0000), Low(i / 0x100_0000), Low(i / 0x1_0000),
                Low(i / 0x100), Low(i)];
    } else if i < 0x100_0000_0000_0000 {
      bytes := [Low(i / 0x1_0000_0000_0000), Low(i / 0x100_0000_0000), Low(i / 0x1_0000_0000), Low(i / 0x100_0000),
                Low(i / 0x1_0000), Low(i / 0x100), Low(i)];
    } else {
      bytes := [Low(i / 0x100_0000_0000_0000), Low(i / 0x1_0000_0000_0000), Low(i / 0x100_0000_0000), Low(i / 0x1_0000_0000),
                Low(i / 0x100_0000), Low(i / 0x1_0000), Low(i / 0x100), Low(i)];
    }
    Digits(i);
    assert i > 0 ==> bytes == BigEndian(i);
  }

  /** Writes i at b[off..] in the fewest big-endian bytes; 0 takes one byte. */
  method PutInt(b: array<byte>, off: nat, i: nat) returns (size: nat)
    requires i < TWO_64
    requires off + (if i == 0 then 1 else |BigEndian(i)|) <= b.Length
    modifies b
    ensures size == if i == 0 then 1 else |BigEndian(i)|
    ensures b[off..off + size] == if i == 0 then [0] else BigEndian(i)
    ensures b[..off] == old(b[..off]) && b[off + size..] == old(b[off + size..])
  {
    hide BigEndian;
    var bytes := IntBytes(i);
    size := |bytes|;
    CopyInto(b, off, bytes);
    assert b[off..off + size] == b[..off + size][off..];
    assert b[..off] == b[..off + size][..off];
  }

  method IntSize(i: nat) returns (size: nat)
    ensures size == if i == 0 then 1 else |BigEndian(i)|
  {
    size := 1;
    var rest: nat := i / 256;
    while rest != 0
      invariant if i == 0 then size == 1 && rest == 0 else size + |BigEndian(rest)| == |BigEndian(i)|
      decreases rest
    {
      rest := rest / 256;
      size := size + 1;
    }
  }

  method HeadSize(size: nat) returns (n: nat)
    ensures n == |StringHeader(size)| == |ListHeader(size)|
  {
    if size < 56 {
      return 1;
    }
    n := IntSize(size);
    n := n + 1;
  }

  method PutHead(buf: array<byte>, off: nat, small: byte, large: byte, size: nat) returns (n: nat)
    requires size < TWO_64 && small <= 0xC0
    requires off + |Header(small, large, size)| <= buf.Length
    modifies buf
    ensures n == |Header(small, large, size)|
    ensures buf[off..off + n] == Header(small, large, size)
    ensures buf[..off] == old(buf[..off]) && buf[off + n..] == old(buf[off + n..])
  {
    hide BigEndian;
    if size < 56 {
      buf[off] := small + size;
      assert buf[off..off + 1] == [small + size];
      return 1;
    }
    n := PutLongHead(buf, off, large, size);
  }

  method PutLongHead(buf: array<byte>, off: nat, large: byte, size: nat) returns (n: nat)
    requires 56 <= size < TWO_64 && off + 1 + |BigEndian(size)| <= buf.Length
    modifies buf
    ensures n == 1 + |BigEndian(size)|
    ensures buf[off..off + n] == [(large + |BigEndian(size)|) % 256] + BigEndian(size)
    ensures buf[..off] == old(buf[..off]) && buf[off + n..] == old(buf[off + n..])
  {
    hide BigEndian;
    var sizesize := PutInt(buf, off + 1, size);
    n := sizesize + 1;
    ghost var mid := buf[..];
    buf[off] := (large + sizesize) % 256;
    SetBefore(old(buf[..]), mid, buf[..], off, n);
  }

  lemma SetBefore(was: seq<byte>, mid: seq<byte>, now: seq<byte>, off: nat, n: nat)
    requires |was| == |mid| == |now| && n >= 1 && off + n <= |was|
    requires mid[..off + 1] == was[..off + 1] && mid[off + n..] == was[off + n..]
    requires now == mid[off := now[off]]
    ensures now[..off] == was[..off] && now[off + n..] == was[off + n..]
    ensures now[off..off + n] == [now[off]] + mid[off + 1..off + n]
  {
    assert now[..off] == mid[..off + 1][..off];
  }

  // ---------------------------------------------------------------------------------
  // The encoder buffer
  // ---------------------------------------------------------------------------------

  /** A list header under construction: until listEnd, size holds the header bytes seen before. */
  class ListHead {
    var offset: nat
    var size: nat

    constructor (offset: nat, size: nat)
      ensures this.offset == offset && this.size == size
    {
      this.offset, this.size := offset, size;
    }
  }

  /** The forms of an integer's encoding: one byte below 128, otherwise a short string. */
  lemma UintForms(i: nat)
    requires i < TWO_64
    ensures i == 0 ==> EncodeUint(i) == [0x80]
    ensures 0 < i < 128 ==> EncodeUint(i) == [i]
    ensures i != 0 ==> |BigEndian(i)| <= 8
    ensures i >= 128 ==> EncodeUint(i) == [0x80 + |BigEndian(i)|] + BigEndian(i)
  {
    hide BigEndian, ByteRange, FromBigEndian;
    ByteRangeEight();
    BigEndianLength(i, 8);
    BigEndianInverse(i);
    if i == 0 {
      NoDigits();
    } else if i < 128 {
      SmallBigEndian(i);
    } else {
      OneDigit(BigEndian(i));
    }
  }

  lemma NoDigits()
    ensures BigEndian(0) == []
  {
  }

  lemma OneDigit(b: seq<byte>)
    ensures |b| == 1 ==> FromBigEndian(b) == b[0]
  {
    if |b| == 1 {
      assert b[..0] == [] && FromBigEndian([]) == 0;
    }
  }

  class EncBuf {
    var str: seq<byte>         // Data of the values written
    var lheads: seq<ListHead>  // in the order the lists were opened
    var lhsize: nat            // bytes the headers of closed lists will take
    const sizebuf: array<byte> // room for one header of any size

    ghost var vals: seq<HeadVal> // the headers as values

    ghost predicate Valid()
      reads this, lheads
    {
      && sizebuf.Length == 9
      && |vals| == |lheads|
      && (forall i :: 0 <= i < |lheads| ==> vals[i] == HeadVal(lheads[i].offset, lheads[i].size))
      && Ascending(vals, |str|)
    }

    ghost function Now(): View
      reads this
    {
      View(str, vals, lhsize)
    }

    /** Every list has been ended, so every recorded size is final. */
    ghost predicate Closed()
      reads this, lheads
    {
      Valid() && lhsize == HeaderBytes(vals) && forall h :: h in vals ==> h.size < TWO_63
    }

    constructor ()
      ensures Closed() && Now() == View([], [], 0) && lheads == [] && fresh(sizebuf)
    {
      str, lheads, lhsize, vals := [], [], 0, [];
      sizebuf := new byte[9];
    }

    method LongStringHeader(size: nat) returns (head: seq<byte>)
      requires sizebuf.Length == 9 && 56 <= size < TWO_63
      modifies sizebuf
      ensures head == StringHeader(size)
    {
      ByteRangeEight();
      BigEndianLength(size, 8);
      hide BigEndian, ByteRange;
      var sizesize := PutInt(sizebuf, 1, size);
      var be := sizebuf[1..1 + sizesize];
      sizebuf[0] := 0xB7 + sizesize;
      assert sizebuf[..sizesize + 1] == [sizebuf[0]] + be;
      head := sizebuf[..sizesize + 1];
    }

    method EncodeStringHeader(size: nat)
      requires Valid() && size < TWO_63
      modifies this`str, sizebuf
      ensures Valid()
      ensures Now() == old(Now()).(str := old(str) + StringHeader(size))
    {
      if size < 56 {
        str := str + [0x80 + size];
      } else {
        var head := LongStringHeader(size);
        str := str + head;
        StillAscending(vals, |old(str)|, |str|);
      }
    }

    method EncodeString(b: seq<byte>)
      requires Valid() && |b| < TWO_63
      modifies this`str, sizebuf
      ensures Valid()
      ensures Now() == old(Now()).(str := old(str) + RlpFormat.EncodeString(b))
    {
      if |b| == 1 && b[0] <= 0x7F {
        str := str + [b[0]];
      } else {
        ghost var was := str;
        EncodeStringHeader(|b|);
        str := str + b;
        ConcatAssoc(was, StringHeader(|b|), b);
      }
    }

    method WriteUint(i: nat)
      requires Valid() && i < TWO_64
      modifies this`str, sizebuf
      ensures Valid()
      ensures Now() == old(Now()).(str := old(str) + EncodeUint(i))
    {
      UintForms(i);
      hide BigEndian, Ascending, EncodeUint;
      if i == 0 {
        str := str + [0x80];
      } else if i < 128 {
        str := str + [i];
      } else {
        var s := PutInt(sizebuf, 1, i);
        var be := sizebuf[1..1 + s];
        sizebuf[0] := 0x80 + s;
        assert sizebuf[..s + 1] == [sizebuf[0]] + be;
        str := str + sizebuf[..s + 1];
      }
      StillAscending(vals, |old(str)|, |str|);
    }

    method Size() returns (n: nat)
      ensures n == |str| + lhsize
    {
      n := |str| + lhsize;
    }

    method List() returns (lh: ListHead)
      requires Valid()
      modifies this`lheads, this`vals
      ensures Valid() && fresh(lh) && lheads == old(lheads) + [lh]
      ensures lh.offset == |str| && lh.size == lhsize
      ensures Now() == Open(old(Now()))
    {
      lh := new ListHead(|str|, lhsize);
      lheads := lheads + [lh];
      vals := vals + [HeadVal(|str|, lhsize)];
    }

    /** Fixes the size of the list begun at index k: what was written since, with its headers. */
    method ListEnd(lh: ListHead, ghost k: nat)
      requires Valid() && k < |lheads| && lheads[k] == lh
      requires forall j :: 0 <= j < |lheads| && j != k ==> lheads[j] != lh
      requires lh.offset + lh.size <= |str| + lhsize
      modifies this`lhsize, this`vals, lh`size
      ensures Valid()
      ensures Now() == Close(old(Now()), k)
    {
      var size := Size();
      lh.size := size - lh.offset - lh.size;
      if lh.size < 56 {
        lhsize := lhsize + 1;
      } else {
        var n := IntSize(lh.size);
        lhsize := lhsize + 1 + n;
      }
      vals := vals[k := HeadVal(lh.offset, lh.size)];
    }

    /** Heads recorded before are still there, and those added since are new objects. */
    twostate predicate Grown()
      reads this
    {
      |lheads| >= |old(lheads)| && lheads[..|old(lheads)|] == old(lheads)
      && forall k :: |old(lheads)| <= k < |lheads| ==> fresh(lheads[k])
    }

    method WriteItem(it: Item)
      requires Valid() && |Encode(it)| < TWO_63
      modifies this, sizebuf
      ensures Valid() && Grown()
      ensures Now() == Put(old(Now()), it)
      decreases it, 1
    {
      match it {
        case Str(b) => EncodeString(b);
        case List(items) =>
          var lh := List();
          ghost var heads0, n0 := lheads, |lheads| - 1;
          WriteElems(items);
          assert lheads[n0] == heads0[n0] == lh;
          ListEnd(lh, n0);
      }
    }

    /** The loop of the slice writer. */
    method WriteElems(items: seq<Item>)
      requires Valid() && |EncodeAll(items)| < TWO_63
      modifies this, sizebuf
      ensures Valid() && Grown()
      ensures Now() == PutAll(old(Now()), items)
      decreases items, 0
    {
      var i := 0;
      while i < |items|
        invariant 0 <= i <= |items|
        invariant Valid() && Grown()
        invariant Now() == PutAll(old(Now()), items[..i])
      {
        ElementShorter(items, i);
        WriteItem(items[i]);
        assert items[..i + 1][..i] == items[..i];
        i := i + 1;
      }
      assert items[..i] == items;
    }

    /** Copies the data before header i, and the header. */
    method CopyNext(out: array<byte>, pos: nat, i: nat, strpos: nat) returns (next: nat)
      requires Closed() && i < |lheads| && At(str, vals, i, strpos)
      requires out.Length == |Splice(str, vals)| && pos <= out.Length && out[..pos] == Done(str, vals, i, strpos)
      modifies out
      ensures At(str, vals, i + 1, lheads[i].offset)
      ensures next <= out.Length && out[..next] == Done(str, vals, i + 1, lheads[i].offset)
    {
      hide Splice, Done, HeaderBytes;
      var head := lheads[i];
      PassData(str, vals, i, strpos, head.offset);
      PassHead(str, vals, i);
      DoneIsPrefix(str, vals, i + 1, head.offset);
      assert vals[i] in vals;
      next := CopyWithHead(out, pos, str[strpos..head.offset], head.size);
    }

    /** The whole encoding, as a fresh array. */
    method ToBytes() returns (out: array<byte>)
      requires Closed()
      ensures fresh(out) && out[..] == Splice(str, vals)
    {
      hide Splice, Done, HeaderBytes, At;
      SpliceLength(str, vals);
      AtStart(str, vals);
      var size := Size();
      out := new byte[size];
      var strpos: nat, pos: nat, i: nat := 0, 0, 0;
      while i < |lheads|
        invariant i <= |lheads| && At(str, vals, i, strpos)
        invariant pos <= out.Length && out[..pos] == Done(str, vals, i, strpos)
      {
        pos := CopyNext(out, pos, i, strpos);
        strpos := lheads[i].offset;
        i := i + 1;
      }
      CopyRest(out, pos, strpos);
    }

    method CopyRest(out: array<byte>, pos: nat, strpos: nat)
      requires Closed() && At(str, vals, |lheads|, strpos)
      requires out.Length == |Splice(str, vals)| && pos <= out.Length && out[..pos] == Done(str, vals, |lheads|, strpos)
      modifies out
      ensures out[..] == Splice(str, vals)
    {
      hide Splice, Done, HeaderBytes;
      PassData(str, vals, |lheads|, strpos, |str|);
      AtEnd(str, vals);
      CopyInto(out, pos, str[strpos..]);
      assert out[..pos + |str[strpos..]|] == Splice(str, vals);
      assert pos + |str[strpos..]| == out.Length;
      assert out[..out.Length] == out[..];
    }

    /** Writes the encoding piece by piece; on an error a prefix of it has been written. */
    method ToWriter(out: Writer) returns (failed: bool)
      requires Closed()
      modifies out, sizebuf
      ensures old(out.data) <= out.data <= old(out.data) + Splice(str, vals)
      ensures !failed ==> out.data == old(out.data) + Splice(str, vals)
    {
      hide Splice, Done, HeaderBytes, Ascending;
      ghost var was, all := out.data, Splice(str, vals);
      AtStart(str, vals);
      var strpos: nat, i: nat := 0, 0;
      while i < |lheads|
        invariant Closed() && At(str, vals, i, strpos)
        invariant out.data == was + Done(str, vals, i, strpos)
      {
        var head := lheads[i];
        OffsetBound(vals, i, |str|);
        PassData(str, vals, i, strpos, head.offset);
        DoneIsPrefix(str, vals, i, head.offset);
        PassHead(str, vals, i);
        DoneIsPrefix(str, vals, i + 1, head.offset);
        assert vals[i] in vals;
        if head.offset - strpos > 0 {
          failed := out.Put(str[strpos..head.offset], was, Done(str, vals, i, strpos), all);
          if failed {
            return;
          }
        }
        var n := PutListHead(sizebuf, head.size);
        failed := out.Put(sizebuf[..n], was, Done(str, vals, i, head.offset), all);
        if failed {
          return;
        }
        strpos := head.offset;
        i := i + 1;
      }
      failed := false;
      PassData(str, vals, i, strpos, |str|);
      AtEnd(str, vals);
      if strpos < |str| {
        failed := out.Put(str[strpos..], was, Done(str, vals, i, strpos), all);
      }
    }
  }

  /** An output that takes `room` bytes and then reports an error. */
  class Writer {
    var data: seq<byte>
    var room: nat

    constructor (room: nat)
      ensures data == [] && this.room == room
    {
      data, this.room := [], room;
    }

    method Write(p: seq<byte>) returns (n: nat, failed: bool)
      modifies this
      ensures n == Min(|p|, old(room)) && data == old(data) + p[..n] && room == old(room) - n
      ensures failed <==> n < |p|
    {
      n := Min(|p|, room);
      data, room, failed := data + p[..n], room - n, n < |p|;
    }

    /** Writes the piece p that follows `done` in `all`, when `was` and `done` are already out. */
    method Put(p: seq<byte>, ghost was: seq<byte>, ghost done: seq<byte>, ghost all: seq<byte>) returns (failed: bool)
      requires data == was + done && done + p <= all
      modifies this
      ensures was <= data <= was + all
      ensures !failed ==> data == was + (done + p)
    {
      var n;
      n, failed := Write(p);
      assert data == was + (done + p[..n]);
      assert done + p[..n] == (done + p)[..|done| + n] == all[..|done| + n];
      assert !failed ==> p[..n] == p;
    }
  }

  method PutListHead(buf: array<byte>, size: nat) returns (n: nat)
    requires size < TWO_63 && buf.Length == 9
    modifies buf
    ensures n <= 9 && buf[..n] == ListHeader(size)
  {
    ByteRangeEight();
    BigEndianLength(size, 8);
    n := PutHead(buf, 0, 0xC0, 0xF7, size);
  }

  /** Copies a piece of string data and writes a list header behind it. */
  method CopyWithHead(out: array<byte>, pos: nat, piece: seq<byte>, size: nat) returns (next: nat)
    requires size < TWO_64 && pos + |piece| + |ListHeader(size)| <= out.Length
    modifies out
    ensures next == pos + |piece| + |ListHeader(size)|
    ensures out[..next] == old(out[..pos]) + piece + ListHeader(size)
  {
    CopyInto(out, pos, piece);
    var n := PutHead(out, pos + |piece|, 0xC0, 0xF7, size);
    next := pos + |piece| + n;
    assert out[..next] == out[..pos + |piece|] + out[pos + |piece|..next];
  }

  method CopyInto(out: array<byte>, pos: nat, piece: seq<byte>)
    requires pos + |piece| <= out.Length
    modifies out
    ensures out[..pos + |piece|] == old(out[..pos]) + piece
    ensures out[pos + |piece|..] == old(out[pos + |piece|..])
  {
    forall k | 0 <= k < |piece| {
      out[pos + k] := piece[k];
    }
  }

  /** A fresh buffer holding one value splices to that value's encoding. */
  method Fill(it: Item) returns (eb: EncBuf)
    requires |Encode(it)| < TWO_63
    ensures fresh(eb) && fresh(eb.sizebuf) && (forall h :: h in eb.lheads ==> fresh(h))
    ensures eb.Closed() && Splice(eb.str, eb.vals) == Encode(it)
  {
    eb := new EncBuf();
    eb.WriteItem(it);
    PutIntoEmpty(it);
    HeadSizes(it, 0);
  }

  method EncodeToBytes(it: Item) returns (out: array<byte>)
    requires |Encode(it)| < TWO_63
    ensures fresh(out) && out[..] == Encode(it)
  {
    var eb := Fill(it);
    out := eb.ToBytes();
  }

  /** The reader returned by EncodeToReader: hands out the encoding in pieces of any size. */
  class EncReader {
    var buf: EncBuf?              // null once everything has been handed out
    var lhpos: nat                // headers before this one have been passed
    var strpos: nat               // and so has str[..strpos]
    var piece: Option<seq<byte>>  // passed, but not handed out yet; never empty

    ghost function Position(p: Option<seq<byte>>): Cursor
      reads this
    {
      Cursor(lhpos, strpos, if p.Some? then p.value else [])
    }

    ghost predicate Valid()
      reads this, buf, if buf == null then {} else set h | h in buf.lheads
    {
      ValidFor(piece)
    }

    /** The state is right when p is taken as the next piece. */
    ghost predicate ValidFor(p: Option<seq<byte>>)
      reads this, buf, if buf == null then {} else set h | h in buf.lheads
    {
      (p.Some? ==> p.value != [])
      && (buf != null ==> buf.Closed() && CursorOk(buf.str, buf.vals, Position(p)))
    }

    /** What is still to be read, when p is taken as the next piece. */
    ghost function RemainingAfter(p: Option<seq<byte>>): seq<byte>
      requires ValidFor(p)
      reads this, buf, if buf == null then {} else set h | h in buf.lheads
    {
      if buf == null then [] else Rest(buf.str, buf.vals, Position(p))
    }

    ghost function Remaining(): seq<byte>
      requires Valid()
      reads this, buf, if buf == null then {} else set h | h in buf.lheads
    {
      RemainingAfter(piece)
    }

    constructor (eb: EncBuf)
      requires eb.Closed()
      ensures Valid() && buf == eb && Remaining() == Splice(eb.str, eb.vals)
    {
      hide Splice, Rest, CursorOk, Done, HeaderBytes, Header;
      buf, lhpos, strpos, piece := eb, 0, 0, None;
      new;
      RestAtStart(eb.str, eb.vals);
    }

    /** The next piece; None at the end. */
    method Next() returns (p: Option<seq<byte>>)
      requires Valid()
      modifies this`lhpos, this`strpos, if buf == null then {} else {buf.sizebuf}
      ensures ValidFor(p) && RemainingAfter(p) == old(Remaining())
      ensures p.None? ==> RemainingAfter(p) == []
      ensures p.Some? ==> buf != null
    {
      hide EncBuf.Closed, Splice, Rest, CursorOk, Done, HeaderBytes, Header;
      if buf == null {
        return None;
      }
      if piece.Some? {
        return piece;
      }
      if lhpos < |buf.lheads| {
        var q := NextAtHead();
        return Some(q);
      }
      CursorFacts(buf.str, buf.vals, Position(None));
      ClosedFacts();
      if strpos < |buf.str| {
        var q := NextAtTail();
        return Some(q);
      }
      NothingLeft(buf.str, buf.vals, Position(None));
      p := None;
    }

    lemma ClosedFacts()
      requires buf != null && buf.Closed()
      ensures |buf.vals| == |buf.lheads|
    {
    }

    method NextAtHead() returns (p: seq<byte>)
      requires Valid() && piece.None? && buf != null && lhpos < |buf.lheads|
      modifies this`lhpos, this`strpos, buf.sizebuf
      ensures ValidFor(Some(p)) && RemainingAfter(Some(p)) == old(Remaining())
    {
      hide Splice, Rest, CursorOk, Done, HeaderBytes, Header;
      ghost var str, vals, c := buf.str, buf.vals, Position(None);
      CursorFacts(str, vals, c);
      var head := buf.lheads[lhpos];
      var sizebefore := head.offset - strpos;
      if sizebefore > 0 {
        PassData(str, vals, lhpos, strpos, head.offset);
        p := buf.str[strpos..head.offset];
        strpos := strpos + sizebefore;
      } else {
        PassHead(str, vals, lhpos);
        assert vals[lhpos] in vals;
        lhpos := lhpos + 1;
        var n := PutListHead(buf.sizebuf, head.size);
        p := buf.sizebuf[..n];
      }
      NextPiece(str, vals, c, lhpos, strpos, p);
    }

    method NextAtTail() returns (p: seq<byte>)
      requires Valid() && piece.None? && buf != null && lhpos == |buf.lheads| && strpos < |buf.str|
      modifies this`strpos
      ensures ValidFor(Some(p)) && RemainingAfter(Some(p)) == old(Remaining())
    {
      hide Splice, Rest, CursorOk, Done, HeaderBytes, Header;
      ghost var str, vals, c := buf.str, buf.vals, Position(None);
      CursorFacts(str, vals, c);
      PassData(str, vals, lhpos, strpos, |str|);
      p := buf.str[strpos..];
      strpos := |buf.str|;
      NextPiece(str, vals, c, lhpos, strpos, p);
    }

    /** Fills b as far as the remaining bytes go; eof is reported with the last of them. */
    method Read(b: array<byte>) returns (n: nat, eof: bool)
      requires Valid() && (buf != null ==> b != buf.sizebuf)
      modifies this, b, if buf == null then {} else {buf.sizebuf}
      ensures Valid()
      ensures n == Min(b.Length, |old(Remaining())|)
      ensures b[..n] == old(Remaining())[..n] && b[n..] == old(b[n..])
      ensures Remaining() == old(Remaining())[n..]
      ensures eof <==> Remaining() == []
      ensures buf == null || buf == old(buf)
    {
      hide EncBuf.Closed, Splice, Rest, CursorOk, Done, HeaderBytes, Header, HandedOut;
      ghost var all, b0 := Remaining(), b[..];
      n := 0;
      NothingHandedOut(all, b0);
      while true
        invariant Valid() && n <= b.Length
        invariant buf == old(buf)
        invariant HandedOut(all, b0, b[..], n, Remaining())
        decreases |Remaining()|
      {
        var p := Next();
        if p.None? {
          HandedOutFacts(all, b0, b[..], n, []);
          piece, buf := None, null;
          return n, true;
        }
        ghost var left, was := RemainingAfter(p), b[..];
        var nn := HandOver(p.value, b, n);
        Advance(all, b0, was, n, left, p.value, nn, b[..]);
        n := n + nn;
        if nn < |p.value| {
          HandedOutFacts(all, b0, b[..], n, Remaining());
          return n, false;
        }
      }
    }

    /** Copies what fits of the piece p to b[n..] and keeps the rest of it for later. */
    method HandOver(p: seq<byte>, b: array<byte>, n: nat) returns (nn: nat)
      requires buf != null && p != [] && ValidFor(Some(p)) && n <= b.Length && b != buf.sizebuf
      modifies this`piece, b
      ensures Valid() && buf != null && buf == old(buf)
      ensures nn == Min(b.Length - n, |p|)
      ensures b[..n + nn] == old(b[..n]) + p[..nn] && b[n + nn..] == old(b[n + nn..])
      ensures p <= old(RemainingAfter(Some(p))) && Remaining() == old(RemainingAfter(Some(p)))[nn..]
    {
      hide EncBuf.Closed, Splice, Rest, CursorOk, Done, HeaderBytes, Header;
      nn := Min(b.Length - n, |p|);
      HandOut(buf.str, buf.vals, Position(Some(p)), nn);
      CopyInto(b, n, p[..nn]);
      piece := if nn < |p| then Some(p[nn..]) else None;
    }
  }

  /** n bytes of all have been written to the front of what was b0; left is the rest of them. */
  ghost predicate HandedOut(all: seq<byte>, b0: seq<byte>, now: seq<byte>, n: nat, left: seq<byte>) {
    n <= |all| && n <= |now| == |b0| && now[..n] == all[..n] && now[n..] == b0[n..] && left == all[n..]
  }

  lemma NothingHandedOut(all: seq<byte>, b0: seq<byte>)
    ensures HandedOut(all, b0, b0, 0, all)
  {
  }

  lemma Advance(all: seq<byte>, b0: seq<byte>, was: seq<byte>, n: nat, left: seq<byte>, p: seq<byte>, nn: nat, now: seq<byte>)
    requires HandedOut(all, b0, was, n, left) && p <= left && nn <= |p| && n + nn <= |now| == |b0|
    requires now[..n + nn] == was[..n] + p[..nn] && now[n + nn..] == was[n + nn..]
    ensures HandedOut(all, b0, now, n + nn, left[nn..])
  {
    assert p[..nn] == left[..nn] == all[n..n + nn];
    assert was[n + nn..] == was[n..][nn..] == b0[n..][nn..] == b0[n + nn..];
  }

  lemma HandedOutFacts(all: seq<byte>, b0: seq<byte>, now: seq<byte>, n: nat, left: seq<byte>)
    requires HandedOut(all, b0, now, n, left)
    ensures n <= |all| && now[..n] == all[..n] && now[n..] == b0[n..] && left == all[n..]
  {
  }
}
