// The strict parser, the serializer and the lax parser as they walk their buffers.
module DerParsers {
  import opened Common
  import opened Der
  import opened RlpFormat
  import opened Wnaf

  // ---------------------------------------------------------------------------------
  // Strict
  // ---------------------------------------------------------------------------------

  /** Reading more length bytes never makes the number smaller. */
  lemma {:induction false} PrefixNotLarger(s: seq<byte>, i: nat)
    requires i <= |s|
    ensures FromBigEndian(s[..i]) <= FromBigEndian(s)
    decreases |s|
  {
    if i == |s| {
      assert s[..i] == s;
    } else {
      var n := |s| - 1;
      PrefixNotLarger(s[..n], i);
      assert s[..n][..i] == s[..i];
    }
  }

  lemma NextDigit(s: seq<byte>, from: nat, i: nat)
    requires from <= i < |s|
    ensures FromBigEndian(s[from..i + 1]) == 256 * FromBigEndian(s[from..i]) + s[i]
  {
    assert s[from..i + 1][..i - from] == s[from..i];
  }

  /** The length at pos, or -1, and the position after it. */
  method ReadLen(sig: seq<byte>, pos: nat) returns (len: int, next: nat)
    requires pos <= |sig|
    ensures pos <= next <= |sig|
    ensures Length(sig[pos..]).None? ==> len == -1
    ensures Length(sig[pos..]).Some? ==> (len, next - pos) == Length(sig[pos..]).value
  {
    hide FromBigEndian;
    next := pos;
    if pos >= |sig| {
      return -1, next;
    }
    var b1 := sig[next];
    next := next + 1;
    if b1 == 0xFF {
      return -1, next;
    }
    if b1 < 0x80 {
      return b1, next;
    }
    if b1 == 0x80 {
      return -1, next;
    }
    var lenleft := b1 - 0x80;
    if lenleft > |sig| - next {
      return -1, next;
    }
    if sig[next] == 0 {
      return -1, next;
    }
    if lenleft > 8 {
      return -1, next;
    }
    ghost var w, k := sig[pos..], b1 - 0x80;
    assert w[1..1 + k] == sig[pos + 1..pos + 1 + k];
    var ret := 0;
    assert FromBigEndian(sig[pos + 1..pos + 1]) == 0 by { Nothing(sig, pos + 1); }
    while lenleft > 0
      invariant 0 <= lenleft <= k && next == pos + 1 + k - lenleft <= |sig|
      invariant ret == FromBigEndian(sig[pos + 1..next]) && 0 <= ret
      invariant lenleft < k ==> ret + lenleft <= |sig| - next
      decreases lenleft
    {
      NextDigit(sig, pos + 1, next);
      ret := 256 * ret + sig[next];
      if ret + lenleft > |sig| - next {
        PrefixNotLarger(sig[pos + 1..pos + 1 + k], next - pos);
        assert sig[pos + 1..pos + 1 + k][..next - pos] == sig[pos + 1..next + 1];
        return -1, next;
      }
      next := next + 1;
      lenleft := lenleft - 1;
    }
    if ret < 128 {
      return -1, next;
    }
    return ret, next;
  }

  lemma Nothing(s: seq<byte>, i: nat)
    requires i <= |s|
    ensures FromBigEndian(s[i..i]) == 0
  {
  }

  /** The bytes of a content from its first one that is not zero. */
  function SkipZeros(c: seq<byte>): (r: seq<byte>)
    ensures |r| <= |c| && (r != [] ==> r[0] != 0)
  {
    if c != [] && c[0] == 0 then SkipZeros(c[1..]) else c
  }

  lemma {:induction false} SkipZerosKeeps(c: seq<byte>)
    ensures FromBigEndian(SkipZeros(c)) == FromBigEndian(c)
  {
    if c != [] && c[0] == 0 {
      SkipZerosKeeps(c[1..]);
      assert c == Padding(1) + c[1..];
      ZerosInFront(1, c[1..]);
    }
  }

  /** More than 32 bytes without leading zeros do not fit a scalar. */
  lemma LongIsLarge(c: seq<byte>)
    requires |c| > 32 && c[0] != 0
    ensures FromBigEndian(c) >= ORDER
  {
    hide FromBigEndian, ByteRange;
    OrderFits();
    ByteRangeGrows(32, |c| - 1);
    LargeBytes(c);
    AtLeast(c[0], ByteRange(|c| - 1));
  }

  method SkipLeadingZeros(sig: seq<byte>, pos: nat, len: nat) returns (p: nat, n: nat)
    requires pos + len <= |sig|
    ensures p + n == pos + len && sig[p..p + n] == SkipZeros(sig[pos..pos + len])
  {
    p, n := pos, len;
    while n > 0 && sig[p] == 0
      invariant p + n == pos + len && SkipZeros(sig[p..p + n]) == SkipZeros(sig[pos..pos + len])
      decreases n
    {
      assert sig[p..p + n][1..] == sig[p + 1..p + n];
      n := n - 1;
      p := p + 1;
    }
  }

  /** An integer at pos: the scalar it stands for, zero if it is none, and the position after it. */
  method ParseInteger(sig: seq<byte>, pos: nat) returns (ok: bool, r: scalar, next: nat)
    requires pos <= |sig|
    ensures ok <==> Integer(sig[pos..]).Some?
    ensures pos <= next <= |sig|
    ensures ok ==> (r, next - pos) == (ToScalar(Integer(sig[pos..]).value.0), Integer(sig[pos..]).value.1)
  {
    hide FromBigEndian, Length, SkipZeros, ByteRange;
    ok, r, next := false, 0, pos;
    if pos == |sig| || sig[pos] != 0x02 {
      return;
    }
    var rlen, at := ReadLen(sig, pos + 1);
    ghost var w := sig[pos..];
    assert w[1..] == sig[pos + 1..];
    if rlen <= 0 || at + rlen > |sig| {
      return;
    }
    ghost var c := sig[at..at + rlen];
    assert c == w[at - pos..at - pos + rlen];
    if sig[at] == 0 && rlen > 1 && sig[at + 1] < 0x80 {
      return;
    }
    if sig[at] == 0xFF && rlen > 1 && sig[at + 1] >= 0x80 {
      return;
    }
    var overflow := sig[at] >= 0x80;
    var p, n := SkipLeadingZeros(sig, at, rlen);
    SkipZerosKeeps(c);
    FromBigEndianBound(c);
    if n > 32 {
      LongIsLarge(sig[p..p + n]);
      overflow := true;
    }
    if !overflow {
      var x := FromBigEndian(sig[p..p + n]);
      r := if x < ORDER then x else 0;
    }
    next := at + rlen;
    ok := true;
  }

  /** Both integers of a signature, if it is one from end to end. */
  method SigParse(sig: seq<byte>) returns (ok: bool, rr: scalar, rs: scalar)
    ensures ok <==> Signature(sig).Some?
    ensures ok ==> (rr, rs) == (ToScalar(Signature(sig).value.0), ToScalar(Signature(sig).value.1))
  {
    hide Length, Integer;
    ok, rr, rs := false, 0, 0;
    if |sig| == 0 || sig[0] != 0x30 {
      return;
    }
    var rlen, pos := ReadLen(sig, 1);
    if rlen < 0 || pos + rlen > |sig| {
      return;
    }
    if pos + rlen != |sig| {
      return;
    }
    ghost var body := sig[pos..];
    var parsed, next;
    parsed, rr, next := ParseInteger(sig, pos);
    if !parsed {
      return;
    }
    assert body[next - pos..] == sig[next..];
    parsed, rs, pos := ParseInteger(sig, next);
    if !parsed {
      return;
    }
    if pos != |sig| {
      return;
    }
    ok := true;
  }

  method Stripped(b: seq<byte>) returns (r: seq<byte>)
    requires b != []
    ensures r == Strip(b)
  {
    r := b;
    while |r| > 1 && r[0] == 0 && r[1] < 0x80
      invariant r != [] && Strip(r) == Strip(b)
      decreases |r|
    {
      r := r[1..];
    }
  }

  method Fill(sig: array<byte>, at: nat, b: seq<byte>)
    requires at + |b| <= sig.Length
    modifies sig
    ensures sig[..] == old(sig[..at]) + b + old(sig[at + |b|..])
  {
    for i := 0 to |b|
      invariant sig[..] == old(sig[..at]) + b[..i] + old(sig[at + i..])
    {
      sig[at + i] := b[i];
      assert b[..i + 1] == b[..i] + [b[i]];
    }
    assert b[..|b|] == b;
  }

  /** Writes a signature if there is room, and says how much it takes either way. */
  method SigSerialize(sig: array<byte>, size: nat, r: scalar, s: scalar) returns (ok: bool, newSize: nat)
    requires size <= sig.Length
    modifies sig
    ensures newSize == |Encoding(r, s)| && (ok <==> newSize <= size)
    ensures ok ==> sig[..] == Encoding(r, s) + old(sig[newSize..])
    ensures !ok ==> sig[..] == old(sig[..])
  {
    hide ToBytes, Strip, Content;
    ContentFacts(r);
    ContentFacts(s);
    var rp := Stripped([0] + ToBytes(r, 32));
    var sp := Stripped([0] + ToBytes(s, 32));
    ContentIs(r);
    ContentIs(s);
    newSize := 6 + |sp| + |rp|;
    if size < newSize {
      return false, newSize;
    }
    Fill(sig, 0, [0x30, 4 + |sp| + |rp|, 0x02, |rp|] + rp + [0x02, |sp|] + sp);
    ok := true;
  }

  lemma ContentIs(n: scalar)
    ensures Content(n) == Strip([0] + ToBytes(n, 32))
  {
  }

  // ---------------------------------------------------------------------------------
  // Lax
  // ---------------------------------------------------------------------------------

  /** A length in any definite form that fits seven bytes, and the bytes it takes. */
  function LaxLength(w: seq<byte>): Option<(nat, nat)> {
    if w == [] then None
    else if w[0] < 0x80 then Some((w[0], 1))
    else
      var k := w[0] - 0x80;
      if 1 + k > |w| || |SkipZeros(w[1..1 + k])| >= 8 then None
      else Some((FromBigEndian(w[1..1 + k]), 1 + k))
  }

  /** An integer with any padding, read as unsigned. */
  function LaxInteger(w: seq<byte>): Option<(nat, nat)> {
    if w == [] || w[0] != 0x02 then None
    else
      match LaxLength(w[1..])
      case None => None
      case Some((n, used)) =>
        if 1 + used + n > |w| then None else Some((FromBigEndian(w[1 + used..1 + used + n]), 1 + used + n))
  }

  /** The bytes a sequence header takes; the length it gives is not looked at. */
  function LaxHeader(w: seq<byte>): Option<nat> {
    if |w| < 2 || w[0] != 0x30 then None
    else if w[1] < 0x80 then Some(2)
    else if 2 + (w[1] - 0x80) > |w| then None
    else Some(2 + (w[1] - 0x80))
  }

  /** Both integers, whatever follows; zeros if either is not below the order. */
  function LaxSignature(w: seq<byte>): Option<(scalar, scalar)> {
    match LaxHeader(w)
    case None => None
    case Some(h) =>
      if h > |w| then None
      else
        match LaxInteger(w[h..])
        case None => None
        case Some((r, m)) =>
          if h + m > |w| then None
          else
            match LaxInteger(w[h + m..])
            case None => None
            case Some((s, _)) => Some(if r < ORDER && s < ORDER then (r, s) else (0, 0))
  }

  /** A length at pos; none if it runs out of bytes or is too long. */
  method LaxReadLen(input: seq<byte>, pos: nat) returns (ok: bool, len: nat, next: nat)
    requires pos <= |input|
    ensures pos <= next <= |input| && (ok <==> LaxLength(input[pos..]).Some?)
    ensures ok ==> (len, next - pos) == LaxLength(input[pos..]).value
  {
    hide FromBigEndian;
    ok, len, next := false, 0, pos;
    if pos == |input| {
      return;
    }
    var lenbyte := input[next];
    next := next + 1;
    if lenbyte < 0x80 {
      return true, lenbyte, next;
    }
    lenbyte := lenbyte - 0x80;
    if next + lenbyte > |input| {
      return;
    }
    ghost var k, w := lenbyte, input[pos..];
    assert w[1..1 + k] == input[pos + 1..pos + 1 + k];
    var at, left := SkipLeadingZeros(input, next, lenbyte);
    next := at;
    SkipZerosKeeps(input[pos + 1..pos + 1 + k]);
    if left >= 8 {
      return;
    }
    Nothing(input, at);
    while left > 0
      invariant next + left == pos + 1 + k && at <= next
      invariant len == FromBigEndian(input[at..next])
      decreases left
    {
      NextDigit(input, at, next);
      len := 256 * len + input[next];
      next := next + 1;
      left := left - 1;
    }
    ok := true;
  }

  /** An integer's content at pos: where it is, and the position after it. */
  method LaxReadInteger(input: seq<byte>, pos: nat) returns (ok: bool, at: nat, len: nat, next: nat)
    requires pos <= |input|
    ensures pos <= next <= |input| && (ok <==> LaxInteger(input[pos..]).Some?)
    ensures ok ==> at + len == next
    ensures ok ==> (FromBigEndian(input[at..at + len]), next - pos) == LaxInteger(input[pos..]).value
  {
    hide FromBigEndian, LaxLength;
    ok, at, len, next := false, 0, 0, pos;
    if pos == |input| || input[pos] != 0x02 {
      return;
    }
    ghost var w := input[pos..];
    assert w[1..] == input[pos + 1..];
    ok, len, at := LaxReadLen(input, pos + 1);
    if !ok {
      return;
    }
    if len > |input| - at {
      ok := false;
      return;
    }
    next := at + len;
    assert input[at..next] == w[at - pos..at - pos + len];
  }

  /** A number from content bytes without leading zeros, if it has at most 32. */
  method Collect(input: seq<byte>, at: nat, len: nat) returns (overflow: bool, x: nat)
    requires at + len <= |input|
    ensures overflow ==> FromBigEndian(input[at..at + len]) >= ORDER
    ensures !overflow ==> x == FromBigEndian(input[at..at + len])
  {
    hide FromBigEndian, SkipZeros;
    var p, n := SkipLeadingZeros(input, at, len);
    SkipZerosKeeps(input[at..at + len]);
    if n > 32 {
      LongIsLarge(input[p..p + n]);
      return true, 0;
    }
    return false, FromBigEndian(input[p..p + n]);
  }

  method SigParseLax(input: seq<byte>) returns (ok: bool, rr: scalar, rs: scalar)
    ensures ok <==> LaxSignature(input).Some?
    ensures ok ==> (rr, rs) == LaxSignature(input).value
  {
    hide FromBigEndian, LaxInteger;
    ok, rr, rs := false, 0, 0;
    if |input| == 0 || input[0] != 0x30 {
      return;
    }
    if |input| == 1 {
      return;
    }
    var pos, lenbyte := 2, input[1];
    if lenbyte >= 0x80 {
      lenbyte := lenbyte - 0x80;
      if pos + lenbyte > |input| {
        return;
      }
      pos := pos + lenbyte;
    }
    var found, rpos, rlen, next := LaxReadInteger(input, pos);
    if !found {
      return;
    }
    var spos, slen, end;
    found, spos, slen, end := LaxReadInteger(input, next);
    if !found {
      return;
    }
    var overflowR, r := Collect(input, rpos, rlen);
    var overflowS, s := Collect(input, spos, slen);
    if !overflowR && !overflowS && r < ORDER && s < ORDER {
      rr, rs := r, s;
    }
    ok := true;
  }

  // ---------------------------------------------------------------------------------
  // The parsers agree
  // ---------------------------------------------------------------------------------

  lemma ShortLax(w: seq<byte>)
    requires w != [] && w[0] < 0x80
    ensures LaxLength(w) == Some((w[0], 1))
  {
  }

  lemma LaxContent(n: scalar, rest: seq<byte>)
    ensures var c := Content(n); LaxInteger([0x02, |c|] + c + rest) == Some((n, 2 + |c|))
  {
    hide FromBigEndian, Strip, ToBytes, LaxLength;
    ContentFacts(n);
    var c := Content(n);
    var w := [0x02, |c|] + c + rest;
    assert w[1..] == [|c|] + c + rest;
    ShortLax(w[1..]);
    assert w[2..2 + |c|] == c;
  }

  /** On what the strict parser accepts with both integers in range, the lax parser gives the same. */
  lemma LaxAgrees(w: seq<byte>)
    requires Signature(w).Some?
    requires var (r, s) := Signature(w).value; 0 <= r < ORDER && 0 <= s < ORDER
    ensures LaxSignature(w) == Some(Signature(w).value)
  {
    hide FromBigEndian, Strip, ToBytes, Signature, LaxInteger, Content;
    SignatureIsCanonical(w);
    var (r, s) := Signature(w).value;
    ContentFacts(r);
    ContentFacts(s);
    var (cr, cs) := (Content(r), Content(s));
    assert w[2..] == [0x02, |cr|] + cr + ([0x02, |cs|] + cs);
    LaxContent(r, [0x02, |cs|] + cs);
    assert w[4 + |cr|..] == [0x02, |cs|] + cs + [];
    LaxContent(s, []);
  }
}
