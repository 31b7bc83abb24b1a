// The RLP stream decoder: a machine with a stack of open lists, a cached kind, a sticky error
// and a byte budget. Its results are those of the reader in RlpFormat.
module RlpDecoder {
  import opened Arith
  import opened Common
  import opened RlpFormat

  /** An open list: bytes read of it, and its size. */
  datatype ListPos = ListPos(pos: nat, size: nat)

  /** Bytes of the innermost open list that are yet to come; nothing without one. */
  function Left(stack: seq<ListPos>): int {
    if stack == [] then 0 else stack[|stack| - 1].size - stack[|stack| - 1].pos
  }

  lemma LeftIs(stack: seq<ListPos>)
    ensures stack != [] ==> Left(stack) == stack[|stack| - 1].size - stack[|stack| - 1].pos
  {
  }

  /** Every open list is read within bounds and lies in what was left of the one around it. */
  predicate Nested(stack: seq<ListPos>) {
    stack != [] ==>
      var outer := stack[..|stack| - 1];
      0 <= Left(stack) && Nested(outer) && (outer != [] ==> stack[|stack| - 1].size <= Left(outer))
  }

  /** Input bytes still owed to all open lists together. */
  function Owed(stack: seq<ListPos>): int {
    if |stack| <= 1 then Left(stack)
    else Owed(stack[..|stack| - 1]) - stack[|stack| - 1].size + Left(stack)
  }

  lemma {:induction false} OwedCoversInnermost(stack: seq<ListPos>)
    requires Nested(stack)
    ensures 0 <= Left(stack) <= Owed(stack)
  {
    if |stack| > 1 {
      OwedCoversInnermost(stack[..|stack| - 1]);
    }
  }

  /** The innermost list, n bytes further. */
  function Advance(stack: seq<ListPos>, n: nat): (r: seq<ListPos>)
    ensures |r| == |stack| && (stack != [] ==> Left(r) == Left(stack) - n)
  {
    if stack == [] then []
    else stack[..|stack| - 1] + [ListPos(stack[|stack| - 1].pos + n, stack[|stack| - 1].size)]
  }

  lemma AdvanceFacts(stack: seq<ListPos>, n: nat)
    requires Nested(stack) && (stack != [] ==> n <= Left(stack))
    ensures Nested(Advance(stack, n))
    ensures stack != [] ==> Owed(Advance(stack, n)) == Owed(stack) - n
  {
    if stack != [] {
      assert Advance(stack, n)[..|stack| - 1] == stack[..|stack| - 1];
    }
  }

  lemma AdvanceTwice(stack: seq<ListPos>, m: nat, n: nat)
    ensures Advance(Advance(stack, m), n) == Advance(stack, m + n)
  {
  }

  function Push(stack: seq<ListPos>, size: nat): seq<ListPos> {
    stack + [ListPos(0, size)]
  }

  lemma PushFacts(stack: seq<ListPos>, size: nat)
    requires Nested(stack) && (stack != [] ==> size <= Left(stack))
    ensures Nested(Push(stack, size)) && Left(Push(stack, size)) == size
    ensures Owed(Push(stack, size)) == if stack == [] then size else Owed(stack)
  {
    assert Push(stack, size)[..|stack|] == stack;
  }

  /** Leaving a finished list counts all of it in the enclosing one. */
  function Pop(stack: seq<ListPos>): seq<ListPos>
    requires stack != []
  {
    Advance(stack[..|stack| - 1], stack[|stack| - 1].size)
  }

  lemma PopFacts(stack: seq<ListPos>)
    requires Nested(stack) && stack != [] && Left(stack) == 0
    ensures Nested(Pop(stack)) && (Pop(stack) != [] ==> Owed(Pop(stack)) == Owed(stack))
  {
    var n := |stack| - 1;
    AdvanceFacts(stack[..n], stack[n].size);
  }

  lemma PopPushed(stack: seq<ListPos>, size: nat)
    ensures Pop(Advance(Push(stack, size), size)) == Advance(stack, size)
  {
    assert Push(stack, size)[..|stack|] == stack;
    assert Advance(Push(stack, size), size)[..|stack|] == stack;
  }

  class Stream {
    const input: seq<byte>      // everything the underlying reader will ever deliver
    var rpos: nat               // how much of that it has delivered
    var remaining: nat          // the budget, meaningful only when limited
    var limited: bool
    const uintbuf: array<byte>  // eight bytes, overwritten by every integer
    var kind: Option<Kind>      // None: the next head is still in the input
    var size: nat               // content bytes announced by the cached head
    var byteval: byte           // the content of a KByte, which is its own tag
    var kinderr: Option<Error>  // why the cached head was refused, if it was
    var stack: seq<ListPos>

    ghost predicate Valid()
      reads this
    {
      && uintbuf.Length == 8
      && rpos <= |input|
      && Nested(stack)
      && (limited && stack != [] ==> Owed(stack) <= remaining)
      && (kind.Some? && kinderr.None? && (limited || stack != []) ==> size <= Room())
    }

    /** The budget is set and the input is at least that long, as for a byte slice. */
    ghost predicate Backed()
      reads this
    {
      limited && rpos + remaining <= |input|
    }

    /** What may still be read before the innermost list, or the budget, is used up. */
    ghost function Room(): int
      reads this
    {
      if stack == [] then remaining else Left(stack)
    }

    ghost function Window(): seq<byte>
      requires Valid() && Backed()
      reads this
    {
      RoomBacked();
      input[rpos..rpos + Room()]
    }

    lemma RoomBacked()
      requires Valid()
      ensures 0 <= Room()
      ensures limited ==> Room() <= remaining
    {
      OwedCoversInnermost(stack);
    }

    /** Exactly the next n bytes of the window have been read. */
    twostate predicate Consumed(n: int)
      requires old(Valid()) && old(Backed())
      reads this
    {
      && Valid() && Backed()
      && 0 <= n <= |old(Window())|
      && rpos == old(rpos) + n
      && remaining == old(remaining) - n
      && stack == Advance(old(stack), n)
      && Window() == old(Window())[n..]
    }

    /** A limit of zero stands for none given, and then the data itself is the limit. */
    constructor (input: seq<byte>, inputLimit: nat)
      ensures Valid() && fresh(uintbuf)
      ensures this.input == input && rpos == 0 && stack == [] && kind == None
      ensures limited && remaining == if inputLimit > 0 then inputLimit else |input|
    {
      this.input, rpos := input, 0;
      remaining, limited := if inputLimit > 0 then inputLimit else |input|, true;
      uintbuf := new byte[8];
      kind, size, byteval, kinderr, stack := None, 0, 0, None, [];
    }

    /** Accounts for n bytes about to be read. */
    method WillRead(n: nat) returns (err: Option<Error>)
      requires Valid()
      modifies this`kind, this`stack, this`remaining
      ensures Valid() && kind == None && |stack| == |old(stack)|
      ensures limited || stack != [] ==> (err.None? <==> n <= old(Room()))
      ensures !limited && stack == [] ==> err.None?
      ensures err.None? ==> stack == Advance(old(stack), n)
      ensures err.None? ==> remaining == old(remaining) - if limited then n else 0
      ensures err.Some? ==> stack == old(stack) && remaining == old(remaining)
      ensures err.Some? ==> err.value == TooLarge(stack == [])
    {
      hide Nested, Owed, Left;
      RoomBacked();
      LeftIs(stack);
      kind := None;
      if |stack| > 0 {
        // what the innermost open list still has room for
        var tos := stack[|stack| - 1];
        if n > tos.size - tos.pos {
          return Some(ElemTooLarge);
        }
        AdvanceFacts(stack, n);
        stack := stack[..|stack| - 1] + [ListPos(tos.pos + n, tos.size)];
      }
      if limited {
        if n > remaining {
          return Some(ValueTooLarge);
        }
        remaining := remaining - n;
      }
      err := None;
    }

    /** One read of the underlying reader: any non-zero number of the bytes it has. */
    method Underlying(buf: array<byte>, lo: nat, hi: nat) returns (nn: nat, eof: bool)
      requires lo < hi <= buf.Length && rpos <= |input|
      modifies this`rpos, buf
      ensures rpos <= |input| && nn <= hi - lo && rpos == old(rpos) + nn
      ensures eof <==> old(rpos) == |input|
      ensures !eof ==> nn > 0
      ensures buf[lo..lo + nn] == input[old(rpos)..rpos]
      ensures buf[..lo] == old(buf[..lo]) && buf[lo + nn..] == old(buf[lo + nn..])
    {
      if rpos == |input| {
        return 0, true;
      }
      nn :| 1 <= nn <= hi - lo && nn <= |input| - rpos;
      forall k | 0 <= k < nn {
        buf[lo + k] := input[rpos + k];
      }
      rpos, eof := rpos + nn, false;
    }

    /** Reads until buf[lo..hi] is full or the reader is exhausted. */
    method Drain(buf: array<byte>, lo: nat, hi: nat) returns (eof: bool)
      requires lo <= hi <= buf.Length && rpos <= |input|
      modifies this`rpos, buf
      ensures old(rpos) <= rpos <= |input|
      ensures eof <==> |input| - old(rpos) < hi - lo
      ensures !eof ==> rpos == old(rpos) + (hi - lo) && buf[lo..hi] == input[old(rpos)..rpos]
      ensures buf[..lo] == old(buf[..lo]) && buf[hi..] == old(buf[hi..])
    {
      var n := lo;
      eof := false;
      while n < hi && !eof
        invariant lo <= n <= hi && old(rpos) <= rpos <= |input| && rpos == old(rpos) + (n - lo)
        invariant buf[lo..n] == input[old(rpos)..rpos]
        invariant buf[..lo] == old(buf[..lo]) && buf[hi..] == old(buf[hi..])
        invariant eof ==> rpos == |input| && n < hi
        decreases hi - n, !eof
      {
        var nn;
        ghost var was := buf[..];
        nn, eof := Underlying(buf, n, hi);
        ReadMore(was, buf[..], lo, n, nn, hi);
        assert input[old(rpos)..rpos] == input[old(rpos)..rpos - nn] + input[rpos - nn..rpos];
        n := n + nn;
      }
    }

    /** Fills buf[lo..hi]. */
    method ReadFull(buf: array<byte>, lo: nat, hi: nat) returns (err: Option<Error>)
      requires Valid() && lo <= hi <= buf.Length
      modifies this`kind, this`stack, this`remaining, this`rpos, buf
      ensures Valid() && kind == None && rpos >= old(rpos) && |stack| == |old(stack)|
      ensures buf[..lo] == old(buf[..lo]) && buf[hi..] == old(buf[hi..])
      ensures old(Backed()) ==> Backed() && (err.None? <==> hi - lo <= old(Room()))
      ensures old(Backed()) && err.None? ==> Consumed(hi - lo) && buf[lo..hi] == old(Window())[..hi - lo]
      ensures old(Backed()) && err.Some? ==> err.value == TooLarge(stack == [])
    {
      hide Nested, Owed, Left;
      RoomBacked();
      err := WillRead(hi - lo);
      if err.Some? {
        return;
      }
      RoomBacked();
      var eof := Drain(buf, lo, hi);
      if eof {
        return Some(UnexpectedEof);
      }
    }

    method ReadByte() returns (b: byte, err: Option<Error>)
      requires Valid()
      modifies this`kind, this`stack, this`remaining, this`rpos
      ensures Valid() && kind == None && rpos >= old(rpos)
      ensures err.None? ==> rpos > old(rpos)
      ensures old(Backed()) ==> Backed() && (err.None? <==> 1 <= |old(Window())|)
      ensures old(Backed()) && err.None? ==> Consumed(1) && b == old(Window())[0]
      ensures old(Backed()) && err.Some? ==> err.value == TooLarge(stack == [])
      ensures |stack| == |old(stack)|
    {
      hide Nested, Owed, Left;
      RoomBacked();
      b := 0;
      err := WillRead(1);
      if err.Some? {
        return;
      }
      RoomBacked();
      if rpos == |input| {
        return 0, Some(UnexpectedEof);
      }
      b, rpos := input[rpos], rpos + 1;
    }

    /** An n-byte big-endian integer. */
    method ReadUint(n: nat) returns (v: nat, err: Option<Error>)
      requires Valid() && n <= 8
      modifies this`kind, this`stack, this`remaining, this`rpos, uintbuf
      ensures Valid() && kind == None && rpos >= old(rpos)
      ensures |stack| == |old(stack)| && (old(Backed()) ==> Backed())
      ensures old(Backed()) ==>
                match UintAt(old(Window()), n, stack == [])
                case Ok(u) => err == None && v == u && Consumed(n)
                case Err(e) => err == Some(e)
    {
      hide Nested, Owed, Left, FromBigEndian;
      ghost var w := if Backed() then Window() else [];
      RoomBacked();
      if n == 0 {
        kind := None;
        EmptyUint(w, stack == []);
        assert old(Backed()) ==> Advance(stack, 0) == stack;
        return 0, None;
      }
      if n == 1 {
        var b;
        b, err := ReadByte();
        v := b;
        OneByteUint(w, stack == []);
        return;
      }
      v, err := ReadWide(n);
    }

    method ReadWide(n: nat) returns (v: nat, err: Option<Error>)
      requires Valid() && 2 <= n <= 8
      modifies this`kind, this`stack, this`remaining, this`rpos, uintbuf
      ensures Valid() && kind == None && rpos >= old(rpos)
      ensures |stack| == |old(stack)| && (old(Backed()) ==> Backed())
      ensures old(Backed()) ==>
                match UintAt(old(Window()), n, stack == [])
                case Ok(u) => err == None && v == u && Consumed(n)
                case Err(e) => err == Some(e)
    {
      hide Nested, Owed, Left, FromBigEndian, Advance;
      ghost var w := if Backed() then Window() else [];
      RoomBacked();
      ZeroFill(8 - n);
      assert Valid() && (Backed() ==> Window() == w && |w| == Room());
      err := ReadFull(uintbuf, 8 - n, 8);
      if err.Some? {
        return 0, err;
      }
      v := FromBigEndian(uintbuf[..]);
      Padded(uintbuf[..], n);
      assert old(Backed()) ==> uintbuf[8 - n..] == w[..n] && uintbuf[8 - n] == w[0];
      if uintbuf[8 - n] == 0 {
        return 0, Some(CanonSize);
      }
    }

    method ZeroFill(n: nat)
      requires n <= uintbuf.Length
      modifies uintbuf
      ensures forall k :: 0 <= k < n ==> uintbuf[k] == 0
    {
      for i := 0 to n
        invariant forall k :: 0 <= k < i ==> uintbuf[k] == 0
      {
        uintbuf[i] := 0;
      }
    }

    /** The head as ReadTag sees it, taken off the window. */
    method ReadKind() returns (k: Kind, sz: nat, err: Option<Error>)
      requires Valid()
      modifies this`kind, this`stack, this`remaining, this`rpos, this`byteval, uintbuf
      ensures Valid() && kind == None && rpos >= old(rpos)
      ensures err.None? ==> rpos > old(rpos)
      ensures |stack| == |old(stack)| && (old(Backed()) ==> Backed())
      ensures old(Backed()) && old(Window()) == [] ==> err == Some(if stack == [] then Eof else ElemTooLarge)
      ensures old(Backed()) && old(Window()) != [] ==>
                match ReadTag(old(Window()), stack == [])
                case Ok(h) => err == None && k == h.kind && sz == h.size && Consumed(h.tagLen)
                              && byteval == TagValue(old(Window()), h.kind)
                case Err(e) => err == Some(e)
    {
      hide Nested, Owed, Left, ReadTag, Advance;
      var b;
      b, err := ReadByte();
      if err.Some? {
        if |stack| == 0 && (err == Some(UnexpectedEof) || err == Some(ValueTooLarge)) {
          err := Some(Eof);
        }
        return KByte, 0, err;
      }
      ghost var w := if old(Backed()) then old(Window()) else [b];
      k, sz, err := Classify(b, old(Backed()), w);
      AdvanceTwice(old(stack), 1, rpos - old(rpos) - 1);
    }

    /** The cases of the tag byte b, with which w begins. */
    method Classify(b: byte, ghost backed: bool, ghost w: seq<byte>) returns (k: Kind, sz: nat, err: Option<Error>)
      requires Valid() && kind == None && w != [] && w[0] == b
      requires backed ==> Backed() && Window() == w[1..]
      modifies this`kind, this`stack, this`remaining, this`rpos, this`byteval, uintbuf
      ensures Valid() && kind == None && rpos >= old(rpos)
      ensures |stack| == |old(stack)| && (backed ==> Backed())
      ensures backed ==>
                match ReadTag(w, stack == [])
                case Ok(h) => err == None && k == h.kind && sz == h.size && Consumed(h.tagLen - 1)
                              && byteval == TagValue(w, h.kind)
                case Err(e) => err == Some(e)
    {
      hide Nested, Owed, Left, UintAt, LongSize, Advance;
      AdvanceNone(stack);
      assert backed ==> Window() == Window()[0..];
      byteval := 0;
      if b < 0x80 {
        byteval := b;
        return KByte, 0, None;
      } else if b < 0xB8 {
        return KString, b - 0x80, None;
      } else if b < 0xC0 {
        k := KString;
        sz, err := ReadSize(b - 0xB7, backed, w);
      } else if b < 0xF8 {
        return KList, b - 0xC0, None;
      } else {
        k := KList;
        sz, err := ReadSize(b - 0xF7, backed, w);
      }
    }

    /** The size after a long-form tag: at least 56, with no leading zero. w begins with the tag. */
    method ReadSize(n: nat, ghost backed: bool, ghost w: seq<byte>) returns (v: nat, err: Option<Error>)
      requires Valid() && 1 <= n <= 8 && w != []
      requires backed ==> Backed() && Window() == w[1..]
      modifies this`kind, this`stack, this`remaining, this`rpos, uintbuf
      ensures Valid() && kind == None && rpos >= old(rpos)
      ensures |stack| == |old(stack)| && (backed ==> Backed())
      ensures backed ==>
                match LongSize(w, n, stack == [])
                case Ok(u) => err == None && v == u && Consumed(n)
                case Err(e) => err == Some(e)
    {
      hide Nested, Owed, Left, UintAt, LongSize;
      LongSizeIsUint(w, n, stack == []);
      v, err := ReadUint(n);
      if err.None? && v < 56 {
        err := Some(CanonSize);
      }
    }

    /** Answers with ReadHead of the window the first time, and with the cache from then on. */
    method Kind() returns (k: Kind, sz: nat, err: Option<Error>)
      requires Valid()
      modifies this`kind, this`size, this`kinderr, this`stack, this`remaining, this`rpos, this`byteval, uintbuf
      ensures Valid() && rpos >= old(rpos)
      ensures old(kind).Some? ==> unchanged(this) && (k, sz, err) == (kind.value, size, kinderr)
      ensures err.None? ==> kind == Some(k) && size == sz && kinderr == None
      ensures old(kind).None? && err.None? ==> rpos > old(rpos)
      ensures old(Backed()) && old(kind).None? && old(stack) != [] && old(Window()) == [] ==> kind == None && Consumed(0)
      ensures |stack| == |old(stack)| && (old(Backed()) ==> Backed())
      ensures old(Backed()) && old(kind).None? ==>
                match ReadHead(old(Window()), stack == [])
                case Ok(h) => err == None && k == h.kind && sz == h.size && Consumed(h.tagLen)
                              && byteval == TagValue(old(Window()), h.kind)
                case Err(e) => err == Some(e)
    {
      hide Nested, Owed, ReadTag, ReadHead, Left;
      RoomBacked();
      if kind.None? {
        kinderr := None;
        AdvanceNone(stack);
        LeftIs(stack);
        // An exhausted list has no next head; nothing is cached, so that ListEnd can follow.
        if |stack| > 0 && stack[|stack| - 1].pos == stack[|stack| - 1].size {
          AtListEnd();
          return KByte, 0, Some(Eol);
        }
        k, sz, err := NextHead();
        kind, size, kinderr := Some(k), sz, err;
      }
      // Either way the cached head is the answer, a refusal included.
      return kind.value, size, kinderr;
    }

    lemma AtListEnd()
      requires Valid() && stack != [] && Left(stack) == 0
      ensures Backed() ==> Window() == [] && ReadHead(Window(), false) == Err(Eol)
    {
      hide Nested, Owed;
    }

    /** The head ahead, checked against the room there is for the value. */
    method NextHead() returns (k: Kind, sz: nat, err: Option<Error>)
      requires Valid() && kind.None? && (stack != [] ==> Left(stack) != 0)
      modifies this`kind, this`stack, this`remaining, this`rpos, this`byteval, uintbuf
      ensures Valid() && kind == None && rpos >= old(rpos) && (err.None? ==> rpos > old(rpos))
      ensures err.None? && (limited || stack != []) ==> sz <= Room()
      ensures |stack| == |old(stack)| && (old(Backed()) ==> Backed())
      ensures old(Backed()) ==>
                match ReadHead(old(Window()), stack == [])
                case Ok(h) => err == None && k == h.kind && sz == h.size && Consumed(h.tagLen)
                              && byteval == TagValue(old(Window()), h.kind)
                case Err(e) => err == Some(e)
    {
      hide Nested, Owed, ReadTag;
      RoomBacked();
      k, sz, err := ReadKind();
      RoomBacked();
      if err.None? {
        if |stack| == 0 {
          // Without a list around it a value is bounded by the budget alone.
          if limited && sz > remaining {
            err := Some(ValueTooLarge);
          }
        } else {
          // Keeps sz <= Room(), which Nested needs when the value turns out to be a list.
          var tos := stack[|stack| - 1];
          if sz > tos.size - tos.pos {
            err := Some(ElemTooLarge);
          }
        }
      }
    }

    /** What StringAhead promises of the window and the cached head. */
    method Bytes() returns (b: seq<byte>, err: Option<Error>)
      requires Valid()
      modifies this`kind, this`size, this`kinderr, this`stack, this`remaining, this`rpos, this`byteval, uintbuf
      ensures Valid() && rpos >= old(rpos)
      ensures |stack| == |old(stack)| && (old(Backed()) ==> Backed())
      ensures old(Backed()) ==>
                match StringAhead(old(Window()), stack == [], old(Head()))
                case Ok(p) => err == None && b == p.0 && kind == None && Consumed(p.1)
                case Err(e) => err == Some(e)
    {
      hide Nested, Owed, Left, CachedString, ReadHead, CachedLength, Advance;
      var k, sz;
      k, sz, err := Kind();
      if err.Some? {
        return [], err;
      }
      if old(kind).None? {
        AdvanceTwice(old(stack), rpos - old(rpos), CachedLength(k, sz));
      }
      b, err := CachedBytes();
    }

    ghost function Head(): CachedHead
      reads this
    {
      if kind.None? then NoHead
      else if kinderr.Some? then Sticky(kinderr.value)
      else Cached(kind.value, size, byteval)
    }

    /** Bytes, once the head is known. */
    method CachedBytes() returns (b: seq<byte>, err: Option<Error>)
      requires Valid() && kind.Some? && kinderr.None?
      modifies this`kind, this`stack, this`remaining, this`rpos
      ensures Valid() && rpos >= old(rpos)
      ensures |stack| == |old(stack)| && (old(Backed()) ==> Backed())
      ensures old(Backed()) ==>
                match CachedString(old(Window()), old(kind).value, old(size), old(byteval))
                case Ok(c) => err == None && b == c && kind == None && Consumed(CachedLength(old(kind).value, old(size)))
                case Err(e) => err == Some(e)
    {
      hide Nested, Owed, Left, Advance;
      RoomBacked();
      ghost var w := if Backed() then Window() else [];
      match kind.value {
        case KByte =>
          kind := None;
          AdvanceNone(stack);
          assert Backed() ==> Window() == w == w[0..];
          return [byteval], None;
        case KString =>
          assert Backed() ==> size <= |w|;
          b, err := ReadString(size);
        case KList =>
          return [], Some(ExpectedString);
      }
    }

    method ReadString(n: nat) returns (b: seq<byte>, err: Option<Error>)
      requires Valid() && (Backed() ==> n <= |Window()|)
      modifies this`kind, this`stack, this`remaining, this`rpos
      ensures Valid() && rpos >= old(rpos) && kind == None
      ensures |stack| == |old(stack)| && (old(Backed()) ==> Backed())
      ensures old(Backed()) ==>
                if n == 1 && old(Window())[0] < 128 then err == Some(CanonSize)
                else err == None && b == old(Window())[..n] && Consumed(n)
    {
      hide Nested, Owed, Left, Advance;
      RoomBacked();
      var buf := new byte[n];
      err := ReadFull(buf, 0, n);
      if err.Some? {
        return [], err;
      }
      assert buf[..] == buf[0..n];
      if n == 1 && buf[0] < 128 {
        return [], Some(CanonSize);
      }
      b := buf[..];
    }

    /** Reads a value without decoding it: its content, with its header put back in front. */
    method Raw() returns (r: seq<byte>, err: Option<Error>)
      requires Valid()
      modifies this`kind, this`size, this`kinderr, this`stack, this`remaining, this`rpos, this`byteval, uintbuf
      ensures Valid() && rpos >= old(rpos)
      ensures |stack| == |old(stack)| && (old(Backed()) ==> Backed())
      ensures old(Backed()) && old(kind).None? && |old(Window())| < TWO_64 ==>
                match ReadHead(old(Window()), old(stack) == [])
                case Ok(h) => err == None && r == old(Window())[..h.tagLen + h.size] && kind == None
                              && Consumed(h.tagLen + h.size)
                case Err(e) => err == Some(e)
    {
      hide Nested, Owed, Left, ReadHead, Advance, HeaderOf;
      ghost var w, top := if Backed() then Window() else [], stack == [];
      var k, sz;
      k, sz, err := Kind();
      if err.Some? {
        return [], err;
      }
      if old(Backed()) && old(kind).None? {
        RawIsPrefix(w, top);
        AdvanceTwice(old(stack), rpos - old(rpos), sz);
      }
      r, err := CachedRaw();
    }

    /** Raw, once the head is known. */
    method CachedRaw() returns (r: seq<byte>, err: Option<Error>)
      requires Valid() && kind.Some? && kinderr.None?
      modifies this`kind, this`stack, this`remaining, this`rpos
      ensures Valid() && rpos >= old(rpos)
      ensures |stack| == |old(stack)| && (old(Backed()) ==> Backed())
      ensures old(Backed()) && old(kind) == Some(KByte) ==>
                err == None && r == [byteval] && kind == None && Consumed(0)
      ensures old(Backed()) && old(kind) != Some(KByte) ==>
                old(size) <= |old(Window())|
                && err == None && r == HeaderOf(old(kind).value, old(size)) + old(Window())[..old(size)]
                && kind == None && Consumed(old(size))
    {
      hide Nested, Owed, Left, Advance, Header;
      RoomBacked();
      if kind == Some(KByte) {
        kind := None;
        AdvanceNone(stack);
        assert Backed() ==> Window() == Window()[0..];
        return [byteval], None;
      }
      // The head is gone from the window, but RawIsPrefix says that kind and size determine it.
      var content := new byte[size];
      r := HeaderOf(kind.value, size);
      err := ReadFull(content, 0, size);
      if err.Some? {
        return [], err;
      }
      assert content[..] == content[0..size];
      r := r + content[..];
    }

    /** Reads an unsigned integer of up to maxbits bits. */
    method Uint(maxbits: nat) returns (v: nat, err: Option<Error>)
      requires Valid() && maxbits <= 64
      modifies this`kind, this`size, this`kinderr, this`stack, this`remaining, this`rpos, this`byteval, uintbuf
      ensures Valid() && rpos >= old(rpos)
      ensures |stack| == |old(stack)| && (old(Backed()) ==> Backed())
      ensures old(Backed()) && old(kind).None? ==>
                match DecodeUint(old(Window()), old(stack) == [], maxbits / 8)
                case Ok(p) => err == None && v == p.0 && kind == None && Consumed(p.1)
                case Err(e) => err == Some(e)
    {
      hide Nested, Owed, Left, ReadHead, Advance, CachedUint, DecodeUint;
      ghost var w, top := if Backed() then Window() else [], stack == [];
      UintAtHead(w, top, maxbits / 8);
      var k, sz;
      k, sz, err := Kind();
      if err.Some? {
        return 0, err;
      }
      AdvanceTwice(old(stack), rpos - old(rpos), CachedLength(k, sz));
      v, err := UintBody(maxbits);
    }

    /** Uint, once the head is known. */
    method UintBody(maxbits: nat) returns (v: nat, err: Option<Error>)
      requires Valid() && maxbits <= 64 && kind.Some? && kinderr.None?
      modifies this`kind, this`stack, this`remaining, this`rpos, uintbuf
      ensures Valid() && rpos >= old(rpos)
      ensures |stack| == |old(stack)| && (old(Backed()) ==> Backed())
      ensures old(Backed()) ==>
                match CachedUint(old(Window()), old(stack) == [], maxbits / 8, old(kind).value, old(size), old(byteval))
                case Ok(u) => err == None && v == u && kind == None && Consumed(CachedLength(old(kind).value, old(size)))
                case Err(e) => err == Some(e)
    {
      hide Nested, Owed, Left, Advance, UintAt;
      match kind.value {
        case KByte =>
          if byteval == 0 {
            return 0, Some(CanonInt);
          }
          kind := None;
          AdvanceNone(stack);
          assert Backed() ==> Window() == Window()[0..];
          return byteval, None;
        case KString =>
          if size > maxbits / 8 {
            return 0, Some(UintOverflow);
          }
          v, err := ReadUint(size);
          if err == Some(CanonSize) {
            // Here the integer is a value, not a length: the refusal is about its form.
            return 0, Some(CanonInt);
          } else if err.Some? {
            return 0, err;
          } else if size > 0 && v < 128 {
            return 0, Some(CanonSize);
          }
        case KList =>
          return 0, Some(ExpectedString);
      }
    }

    /** Enters the list ahead. */
    method List() returns (sz: nat, err: Option<Error>)
      requires Valid()
      modifies this`kind, this`size, this`kinderr, this`stack, this`remaining, this`rpos, this`byteval, uintbuf
      ensures Valid() && rpos >= old(rpos)
      ensures err.None? ==> kind == None && |stack| == |old(stack)| + 1 && stack[|stack| - 1] == ListPos(0, sz)
      ensures err.Some? ==> |stack| == |old(stack)|
      ensures old(Backed()) ==> Backed()
      ensures old(Backed()) && old(kind) == Some(KList) && old(kinderr) == None ==>
                err == None && sz == old(size) && stack == Push(old(stack), sz)
                && rpos == old(rpos) && remaining == old(remaining)
                && sz <= |old(Window())| && Window() == old(Window())[..sz]
    {
      hide Nested, Owed, Advance, ReadHead, Left;
      var k;
      k, sz, err := Kind();
      if err.Some? {
        return 0, err;
      }
      if k != KList {
        return 0, Some(ExpectedList);
      }
      Enter(sz);
    }

    /** Opens the list whose head has been read. */
    method Enter(sz: nat)
      requires Valid() && kind.Some? && kinderr.None? && size == sz
      modifies this`kind, this`size, this`stack
      ensures Valid() && kind == None && stack == Push(old(stack), sz)
      ensures old(Backed()) ==> Backed() && sz <= |old(Window())| && Window() == old(Window())[..sz]
    {
      hide Nested, Owed, Advance;
      RoomBacked();
      PushFacts(stack, sz);
      stack := stack + [ListPos(0, sz)];
      kind := None;
      size := 0;
    }

    /** Pops a list none of which is left; anything else is refused without a change. */
    method ListEnd() returns (err: Option<Error>)
      requires Valid()
      modifies this`kind, this`size, this`stack
      ensures Valid()
      ensures err == if old(stack) == [] then Some(NotInList)
                     else if Left(old(stack)) != 0 then Some(NotAtEol) else None
      ensures err.None? ==> stack == Pop(old(stack)) && kind == None
      ensures err.Some? ==> stack == old(stack) && kind == old(kind)
    {
      hide Nested, Owed, Advance;
      if |stack| == 0 {
        return Some(NotInList);
      }
      var tos := stack[|stack| - 1];
      if tos.pos != tos.size {
        return Some(NotAtEol);
      }
      PopFacts(stack);
      PopIs(stack);
      stack := stack[..|stack| - 1];
      if |stack| > 0 {
        stack := stack[..|stack| - 1] + [ListPos(stack[|stack| - 1].pos + tos.size, stack[|stack| - 1].size)];
      }
      kind := None;
      size := 0;
      err := None;
    }

    /** Decodes the next value, of any shape. */
    method DecodeInterface() returns (v: Item, err: Option<Error>)
      requires Valid() && Backed() && kind == None
      modifies this`kind, this`size, this`kinderr, this`stack, this`remaining, this`rpos, this`byteval, uintbuf
      ensures Valid() && Backed()
      ensures match DecodeItem(old(Window()), old(stack) == [])
              case Ok(p) => err == None && v == p.0 && kind == None && Consumed(p.1)
              case Err(e) => err == Some(e)
      ensures old(stack) != [] && old(Window()) == [] ==> kind == None && Consumed(0)
      decreases |input| - rpos, 0
    {
      hide Nested, Owed, Left, ReadHead, Advance, DecodeItem, DecodeRest;
      ghost var w, top := Window(), stack == [];
      DecodeAtHead(w, top);
      var k, sz;
      k, sz, err := Kind();
      if err.Some? {
        return Str([]), err;
      }
      ghost var m, rest := rpos - old(rpos), DecodeRest(Window(), k, sz, byteval);
      v, err := DecodeValue(k, sz);
      if rest.Ok? {
        AdvanceTwice(old(stack), m, rest.value.1);
      }
    }

    /** Decodes the value whose head has been read. */
    method DecodeValue(k: Kind, sz: nat) returns (v: Item, err: Option<Error>)
      requires Valid() && Backed() && kind == Some(k) && size == sz && kinderr == None && sz <= |Window()|
      modifies this`kind, this`size, this`kinderr, this`stack, this`remaining, this`rpos, this`byteval, uintbuf
      ensures Valid() && Backed()
      ensures match DecodeRest(old(Window()), k, sz, old(byteval))
              case Ok(p) => err == None && v == p.0 && kind == None && Consumed(p.1)
              case Err(e) => err == Some(e)
      decreases |input| - rpos, 3
    {
      hide Nested, Owed, Left, Advance, DecodeItem, DecodeItems, CachedString, CachedLength;
      if k == KList {
        var items;
        items, err := DecodeListSlice();
        v := Item.List(items);
      } else {
        var b;
        b, err := CachedBytes();
        v := Str(b);
      }
    }

    /** Decodes the list whose head has been read. */
    method DecodeListSlice() returns (items: seq<Item>, err: Option<Error>)
      requires Valid() && Backed() && kind == Some(KList) && kinderr == None && size <= |Window()|
      modifies this`kind, this`size, this`kinderr, this`stack, this`remaining, this`rpos, this`byteval, uintbuf
      ensures Valid() && Backed()
      ensures match DecodeItems(old(Window())[..old(size)])
              case Ok(r) => err == None && items == r && kind == None && Consumed(old(size))
              case Err(e) => err == Some(e)
      decreases |input| - rpos, 2
    {
      hide Nested, Owed, Left, Advance, DecodeItem, DecodeItems, Push;
      RoomBacked();
      var sz;
      sz, err := List();
      if err.Some? {
        return [], err;
      }
      items := [];
      if sz != 0 {
        items, err := DecodeSliceElems();
        if err.Some? {
          return;
        }
      } else {
        AdvanceNone(stack);
        NoItems();
      }
      err := Leave(sz, old(stack));
      RoomBacked();
    }

    /** Leaves a list that has been read to its end. */
    method Leave(sz: nat, ghost outer: seq<ListPos>) returns (err: Option<Error>)
      requires Valid() && Backed() && kind == None && stack == Advance(Push(outer, sz), sz)
      modifies this`kind, this`size, this`stack
      ensures Valid() && Backed() && err == None && kind == None && stack == Advance(outer, sz)
    {
      hide Nested, Owed;
      PopPushed(outer, sz);
      err := ListEnd();
    }

    /** Everything in the window, as DecodeItems reads it. */
    method DecodeSliceElems() returns (val: seq<Item>, err: Option<Error>)
      requires Valid() && Backed() && kind == None && stack != []
      modifies this`kind, this`size, this`kinderr, this`stack, this`remaining, this`rpos, this`byteval, uintbuf
      ensures Valid() && Backed()
      ensures match DecodeItems(old(Window()))
              case Ok(r) => err == None && val == r && kind == None && Consumed(|old(Window())|)
              case Err(e) => err == Some(e)
      decreases |input| - rpos, 1
    {
      hide Nested, Owed, Left, Advance, DecodeItem;
      ghost var w := Window();
      ghost var n := 0;
      val := [];
      AdvanceNone(stack);
      assert w[0..] == w;
      PrependNothing(DecodeItems(w));
      while true
        invariant Valid() && Backed() && kind == None && n <= |w| && Consumed(n)
        invariant DecodeItems(w) == Prepend(val, DecodeItems(w[n..]))
        decreases |w| - n
      {
        var it, e;
        EolAtEnd(w[n..]);
        AdvanceNone(stack);
        if n < |w| {
          DecodeItemsStep(w[n..], val);
        }
        it, e := DecodeInterface();
        if e == Some(Eol) {
          return val, None;
        } else if e.Some? {
          return val, e;
        }
        ghost var m := DecodeItem(w[n..], false).value.1;
        AdvanceTwice(old(stack), n, m);
        assert w[n..][m..] == w[n + m..];
        n := n + m;
        val := val + [it];
      }
    }
  }

  /** A value whose head has been read, when w is what follows the head, and how much of that it takes. */
  function DecodeRest(w: seq<byte>, k: Kind, sz: nat, byteval: byte): Result<(Item, nat), Error>
    requires sz <= |w|
  {
    if k == KList then
      match DecodeItems(w[..sz])
      case Ok(items) => Ok((List(items), sz))
      case Err(e) => Err(e)
    else
      match CachedString(w, k, sz, byteval)
      case Ok(c) => Ok((Str(c), CachedLength(k, sz)))
      case Err(e) => Err(e)
  }

  lemma DecodeAtHead(w: seq<byte>, top: bool)
    ensures DecodeItem(w, top)
         == match ReadHead(w, top)
            case Err(e) => Err(e)
            case Ok(h) =>
              match DecodeRest(w[h.tagLen..], h.kind, h.size, TagValue(w, h.kind))
              case Ok(p) => Ok((p.0, h.tagLen + p.1))
              case Err(e) => Err(e)
  {
    hide DecodeItems, ReadTag;
    if ReadHead(w, top).Ok? {
      var h := ReadHead(w, top).value;
      if h.kind == KList {
        assert w[h.tagLen..][..h.size] == w[h.tagLen..h.tagLen + h.size];
      } else {
        CachedContent(w, top);
      }
    }
  }

  /** Values decoded before those of r. */
  function Prepend(xs: seq<Item>, r: Result<seq<Item>, Error>): Result<seq<Item>, Error> {
    match r
    case Ok(ys) => Ok(xs + ys)
    case Err(e) => Err(e)
  }

  lemma PrependNothing(r: Result<seq<Item>, Error>)
    ensures Prepend([], r) == r
  {
    if r.Ok? {
      assert [] + r.value == r.value;
    }
  }

  lemma DecodeItemsStep(w: seq<byte>, xs: seq<Item>)
    requires w != []
    ensures DecodeItem(w, false).Ok? ==>
              Prepend(xs, DecodeItems(w))
              == Prepend(xs + [DecodeItem(w, false).value.0], DecodeItems(w[DecodeItem(w, false).value.1..]))
    ensures DecodeItem(w, false).Err? ==> DecodeItems(w) == Err(DecodeItem(w, false).error)
  {
    hide DecodeItem;
    if DecodeItem(w, false).Ok? {
      var p := DecodeItem(w, false).value;
      if DecodeItems(w[p.1..]).Ok? {
        ConcatAssoc(xs, [p.0], DecodeItems(w[p.1..]).value);
      }
    }
  }

  /** Eol, and no other error, marks an empty window. */
  lemma EolAtEnd(w: seq<byte>)
    ensures DecodeItem(w, false) == Err(Eol) <==> w == []
  {
    if w != [] && DecodeItem(w, false).Err? {
      NoEolInside(w, false);
    }
  }

  lemma {:induction false} NoEolInside(w: seq<byte>, top: bool)
    requires w != []
    ensures DecodeItem(w, top) != Err(Eol)
    decreases |w|, 0
  {
    match ReadHead(w, top) {
      case Err(_) =>
      case Ok(h) =>
        if h.kind == KList {
          NoEolInItems(w[h.tagLen..h.tagLen + h.size]);
        }
    }
  }

  lemma {:induction false} NoEolInItems(w: seq<byte>)
    ensures DecodeItems(w) != Err(Eol)
    decreases |w|, 1
  {
    if w != [] {
      NoEolInside(w, false);
      if DecodeItem(w, false).Ok? {
        NoEolInItems(w[DecodeItem(w, false).value.1..]);
      }
    }
  }

  /** Decodes exactly one value from b, with no trailing data. */
  method DecodeBytes(b: seq<byte>) returns (v: Item, err: Option<Error>)
    ensures match DecodeWhole(b)
            case Ok(it) => err == None && v == it
            case Err(e) => err == Some(e)
  {
    var s := new Stream(b, |b|);
    assert s.Window() == b;
    v, err := s.DecodeInterface();
    if err.Some? {
      return;
    }
    if s.rpos < |b| {
      err := Some(MoreThanOneValue);
    }
  }

  lemma NoItems()
    ensures DecodeItems([]) == Ok([])
  {
  }

  lemma PopIs(stack: seq<ListPos>)
    requires stack != []
    ensures var outer := stack[..|stack| - 1];
            Pop(stack) == if outer == [] then []
                          else outer[..|outer| - 1]
                               + [ListPos(outer[|outer| - 1].pos + stack[|stack| - 1].size, outer[|outer| - 1].size)]
  {
  }

  /** The string whose head has been read, when w is what follows the head. */
  function CachedString(w: seq<byte>, k: Kind, size: nat, byteval: byte): Result<seq<byte>, Error> {
    if k == KList then Err(ExpectedString)
    else if k == KByte || size > |w| then Ok([byteval])
    else if size == 1 && w[0] < 128 then Err(CanonSize)
    else Ok(w[..size])
  }

  /** What the stream knows of the value ahead: nothing, an error, or its head. */
  datatype CachedHead = NoHead | Sticky(error: Error) | Cached(kind: Kind, size: nat, byteval: byte)

  /** The answer Bytes owes, and how far it moves the window, for each state of the cache. */
  function StringAhead(w: seq<byte>, top: bool, head: CachedHead): Result<(seq<byte>, nat), Error> {
    match head
    case Sticky(e) => Err(e)
    case Cached(k, size, byteval) =>
      (match CachedString(w, k, size, byteval)
       case Ok(c) => Ok((c, CachedLength(k, size)))
       case Err(e) => Err(e))
    case NoHead =>
      match ReadHead(w, top)
      case Err(e) => Err(e)
      case Ok(h) =>
        match CachedString(w[h.tagLen..], h.kind, h.size, TagValue(w, h.kind))
        case Ok(c) => Ok((c, h.tagLen + CachedLength(h.kind, h.size)))
        case Err(e) => Err(e)
  }

  function TagValue(w: seq<byte>, k: Kind): byte
    requires w != []
  {
    if k == KByte then w[0] else 0
  }

  function HeaderOf(k: Kind, size: nat): seq<byte> {
    if k == KString then StringHeader(size) else ListHeader(size)
  }

  /** A value with its header rebuilt is the value as it stood in the input. */
  lemma RawIsPrefix(w: seq<byte>, top: bool)
    ensures ReadHead(w, top).Ok? ==>
              var h := ReadHead(w, top).value;
              if h.kind == KByte then h.tagLen + h.size == 1 && [TagValue(w, KByte)] == w[..1]
              else HeaderOf(h.kind, h.size) + w[h.tagLen..][..h.size] == w[..h.tagLen + h.size]
  {
    if ReadHead(w, top).Ok? {
      HeadIsCanonical(w, top);
      hide ReadTag, Header;
      var h := ReadHead(w, top).value;
      assert w[..h.tagLen + h.size] == w[..h.tagLen] + w[h.tagLen..][..h.size];
    }
  }

  /** The integer whose head has been read, when w is what follows the head. */
  function CachedUint(w: seq<byte>, top: bool, maxBytes: nat, k: Kind, size: nat, byteval: byte): Result<nat, Error> {
    match k
    case KByte => if byteval == 0 then Err(CanonInt) else Ok(byteval)
    case KList => Err(ExpectedString)
    case KString =>
      if size > maxBytes then Err(UintOverflow)
      else
        match UintAt(w, size, top)
        case Err(e) => Err(if e == CanonSize then CanonInt else e)
        case Ok(v) => if size > 0 && v < 128 then Err(CanonSize) else Ok(v)
  }

  lemma UintAtHead(w: seq<byte>, top: bool, maxBytes: nat)
    ensures DecodeUint(w, top, maxBytes)
         == match ReadHead(w, top)
            case Err(e) => Err(e)
            case Ok(h) =>
              match CachedUint(w[h.tagLen..], top, maxBytes, h.kind, h.size, TagValue(w, h.kind))
              case Ok(v) => Ok((v, h.tagLen + CachedLength(h.kind, h.size)))
              case Err(e) => Err(e)
  {
    hide UintAt;
    if ReadHead(w, top).Ok? && ReadHead(w, top).value.kind == KByte {
      HeadIsCanonical(w, top);
      hide ReadHead;
    }
  }

  lemma CachedContent(w: seq<byte>, top: bool)
    requires ReadHead(w, top).Ok? && ReadHead(w, top).value.kind != KList
    ensures var h := ReadHead(w, top).value;
            StringContent(w, h) == CachedString(w[h.tagLen..], h.kind, h.size, TagValue(w, h.kind))
            && h.size == CachedLength(h.kind, h.size)
  {
    hide LongSize;
    var h := ReadHead(w, top).value;
    assert w[h.tagLen..][..h.size] == w[h.tagLen..h.tagLen + h.size];
  }

  function CachedLength(k: Kind, size: nat): nat {
    if k == KString then size else 0
  }

  lemma AdvanceNone(stack: seq<ListPos>)
    ensures Advance(stack, 0) == stack
  {
  }

  lemma Padded(buf: seq<byte>, n: nat)
    requires |buf| == 8 && 1 <= n <= 8 && forall k :: 0 <= k < 8 - n ==> buf[k] == 0
    ensures FromBigEndian(buf) == FromBigEndian(buf[8 - n..])
  {
    assert buf == buf[..8 - n] + buf[8 - n..];
    LeadingZeros(buf[..8 - n], buf[8 - n..]);
  }

  lemma EmptyUint(w: seq<byte>, top: bool)
    ensures UintAt(w, 0, top) == Ok(0)
  {
  }

  lemma OneByteUint(w: seq<byte>, top: bool)
    ensures w != [] ==> UintAt(w, 1, top) == Ok(w[0])
    ensures w == [] ==> UintAt(w, 1, top) == Err(TooLarge(top))
  {
    if w != [] {
      assert FromBigEndian(w[..1]) == 256 * FromBigEndian([]) + w[0];
    }
  }

  lemma ReadMore(was: seq<byte>, now: seq<byte>, lo: nat, n: nat, nn: nat, hi: nat)
    requires |was| == |now| && lo <= n && n + nn <= hi <= |now|
    requires now[..n] == was[..n] && now[n + nn..] == was[n + nn..]
    ensures now[lo..n + nn] == was[lo..n] + now[n..n + nn]
    ensures now[..lo] == was[..lo] && now[hi..] == was[hi..]
  {
    assert now[..lo] == now[..n][..lo];
    assert now[lo..n] == now[..n][lo..];
    assert was[lo..n] == was[..n][lo..];
    assert now[hi..] == now[n + nn..][hi - n - nn..];
    assert was[hi..] == was[n + nn..][hi - n - nn..];
  }
}
