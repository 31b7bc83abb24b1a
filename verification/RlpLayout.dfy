// What the encoder's two buffers hold for a value, as data: string bytes without list headers,
// the headers recorded beside them, and how splicing the two gives the recursive encoding.
module RlpLayout {
  import opened Arith
  import opened Common
  import opened RlpFormat


  // ---------------------------------------------------------------------------------
  // What the buffers hold for a value, and what splicing them gives
  // ---------------------------------------------------------------------------------

  datatype HeadVal = HeadVal(offset: nat, size: nat)

  /** The bytes of all strings in a value, each with its own header. */
  function Data(it: Item): seq<byte>
    decreases it, 0
  {
    match it
    case Str(b) => EncodeString(b)
    case List(items) => DataAll(items)
  }

  function DataAll(items: seq<Item>): seq<byte>
    decreases items, 1
  {
    if items == [] then [] else Data(items[0]) + DataAll(items[1..])
  }

  /** The list headers of a value whose data starts at base, outermost first. */
  function Heads(it: Item, base: nat): seq<HeadVal>
    decreases it, 0
  {
    match it
    case Str(_) => []
    case List(items) => [HeadVal(base, |EncodeAll(items)|)] + HeadsAll(items, base)
  }

  function HeadsAll(items: seq<Item>, base: nat): seq<HeadVal>
    decreases items, 1
  {
    if items == [] then []
    else Heads(items[0], base) + HeadsAll(items[1..], base + |Data(items[0])|)
  }

  /** String data with every header put back where it belongs. */
  function Splice(str: seq<byte>, heads: seq<HeadVal>): seq<byte>
    decreases |heads|
  {
    if heads == [] then str
    else
      var h := heads[|heads| - 1];
      if h.offset > |str| then []
      else Splice(str[..h.offset], heads[..|heads| - 1]) + ListHeader(h.size) + str[h.offset..]
  }

  /** No header lies beyond position len. */
  predicate Within(heads: seq<HeadVal>, len: nat) {
    heads != [] ==> heads[|heads| - 1].offset <= len
  }

  lemma SpliceMoreData(str: seq<byte>, heads: seq<HeadVal>, d: seq<byte>)
    requires Within(heads, |str|)
    ensures Splice(str + d, heads) == Splice(str, heads) + d
  {
    if heads != [] {
      var h := heads[|heads| - 1];
      assert (str + d)[..h.offset] == str[..h.offset];
      assert (str + d)[h.offset..] == str[h.offset..] + d;
    }
  }

  lemma SpliceMoreHead(str: seq<byte>, heads: seq<HeadVal>, size: nat)
    ensures Splice(str, heads + [HeadVal(|str|, size)]) == Splice(str, heads) + ListHeader(size)
  {
    assert (heads + [HeadVal(|str|, size)])[..|heads|] == heads;
    assert str[..|str|] == str;
  }

  /** Adding a value's data and headers at the end adds its encoding at the end. */
  lemma {:induction false} SpliceItem(it: Item, str: seq<byte>, heads: seq<HeadVal>)
    requires Within(heads, |str|)
    ensures Within(heads + Heads(it, |str|), |str + Data(it)|)
    ensures Splice(str + Data(it), heads + Heads(it, |str|)) == Splice(str, heads) + Encode(it)
    decreases it, 0
  {
    if it.Str? {
      SpliceMoreData(str, heads, Data(it));
      assert heads + Heads(it, |str|) == heads;
    } else {
      var c := EncodeAll(it.items);
      var h := [HeadVal(|str|, |c|)];
      SpliceItems(it.items, str, heads + h);
      SpliceMoreHead(str, heads, |c|);
      ConcatAssoc(heads, h, HeadsAll(it.items, |str|));
      ConcatAssoc(Splice(str, heads), ListHeader(|c|), c);
    }
  }

  lemma {:induction false} SpliceItems(items: seq<Item>, str: seq<byte>, heads: seq<HeadVal>)
    requires Within(heads, |str|)
    ensures Within(heads + HeadsAll(items, |str|), |str + DataAll(items)|)
    ensures Splice(str + DataAll(items), heads + HeadsAll(items, |str|)) == Splice(str, heads) + EncodeAll(items)
    decreases items, 1
  {
    hide Splice, Data, Heads, Encode, Within;
    if items == [] {
      assert str + DataAll(items) == str && heads + HeadsAll(items, |str|) == heads;
    } else {
      var d0, h0 := Data(items[0]), Heads(items[0], |str|);
      SpliceItem(items[0], str, heads);
      SpliceItems(items[1..], str + d0, heads + h0);
      SplicePair(str, heads, d0, h0, Encode(items[0]),
                 DataAll(items[1..]), HeadsAll(items[1..], |str + d0|), EncodeAll(items[1..]));
    }
  }

  lemma SplicePair(str: seq<byte>, heads: seq<HeadVal>, d0: seq<byte>, h0: seq<HeadVal>, e0: seq<byte>,
                   ds: seq<byte>, hs: seq<HeadVal>, es: seq<byte>)
    requires Splice(str + d0, heads + h0) == Splice(str, heads) + e0
    requires Splice(str + d0 + ds, heads + h0 + hs) == Splice(str + d0, heads + h0) + es
    requires Within(heads + h0 + hs, |str + d0 + ds|)
    ensures Splice(str + (d0 + ds), heads + (h0 + hs)) == Splice(str, heads) + (e0 + es)
    ensures Within(heads + (h0 + hs), |str + (d0 + ds)|)
  {
    ConcatAssoc(str, d0, ds);
    ConcatAssoc(heads, h0, hs);
    ConcatAssoc(Splice(str, heads), e0, es);
  }

  /** The deferred headers, spliced in, give exactly the recursive encoding. */
  lemma SpliceIsEncode(it: Item)
    ensures Splice(Data(it), Heads(it, 0)) == Encode(it)
  {
    SpliceItem(it, [], []);
    assert [] + Data(it) == Data(it) && [] + Heads(it, 0) == Heads(it, 0);
  }

  /** How many bytes the recorded headers add when spliced in. */
  function HeaderBytes(heads: seq<HeadVal>): nat {
    if heads == [] then 0
    else HeaderBytes(heads[..|heads| - 1]) + |ListHeader(heads[|heads| - 1].size)|
  }

  lemma {:induction false} HeaderBytesAppend(xs: seq<HeadVal>, ys: seq<HeadVal>)
    ensures HeaderBytes(xs + ys) == HeaderBytes(xs) + HeaderBytes(ys)
  {
    if ys == [] {
      assert xs + ys == xs;
    } else {
      assert (xs + ys)[..|xs + ys| - 1] == xs + ys[..|ys| - 1];
      HeaderBytesAppend(xs, ys[..|ys| - 1]);
    }
  }

  predicate Ascending(heads: seq<HeadVal>, len: nat) {
    forall i, j :: 0 <= i <= j < |heads| ==> heads[i].offset <= heads[j].offset <= len
  }

  lemma StillAscending(heads: seq<HeadVal>, len: nat, more: nat)
    requires Ascending(heads, len) && len <= more
    ensures Ascending(heads, more)
  {
  }

  lemma OffsetBound(heads: seq<HeadVal>, i: nat, len: nat)
    requires Ascending(heads, len) && i < |heads|
    ensures heads[i].offset <= len && (i + 1 < |heads| ==> heads[i].offset <= heads[i + 1].offset)
  {
  }

  lemma {:induction false} SpliceLength(str: seq<byte>, heads: seq<HeadVal>)
    requires Ascending(heads, |str|)
    ensures |Splice(str, heads)| == |str| + HeaderBytes(heads)
    decreases |heads|
  {
    if heads != [] {
      var n := |heads| - 1;
      SpliceLength(str[..heads[n].offset], heads[..n]);
    }
  }

  lemma {:induction false} EncodeSize(it: Item, base: nat)
    ensures |Encode(it)| == |Data(it)| + HeaderBytes(Heads(it, base))
    decreases it, 0
  {
    match it {
      case Str(_) =>
      case List(items) =>
        EncodeAllSize(items, base);
        HeaderBytesAppend([HeadVal(base, |EncodeAll(items)|)], HeadsAll(items, base));
    }
  }

  lemma {:induction false} EncodeAllSize(items: seq<Item>, base: nat)
    ensures |EncodeAll(items)| == |DataAll(items)| + HeaderBytes(HeadsAll(items, base))
    decreases items, 1
  {
    if items != [] {
      var next := base + |Data(items[0])|;
      EncodeSize(items[0], base);
      EncodeAllSize(items[1..], next);
      HeaderBytesAppend(Heads(items[0], base), HeadsAll(items[1..], next));
    }
  }

  /** One more element at the end of a list. */
  lemma {:induction false} AppendOne(items: seq<Item>, it: Item, base: nat)
    ensures DataAll(items + [it]) == DataAll(items) + Data(it)
    ensures HeadsAll(items + [it], base) == HeadsAll(items, base) + Heads(it, base + |DataAll(items)|)
  {
    hide Data, Heads, Encode, EncodeAll;
    if items == [] {
      assert items + [it] == [it];
      assert [it][1..] == [];
    } else {
      var rest, next := items[1..], base + |Data(items[0])|;
      assert (items + [it])[1..] == rest + [it];
      AppendOne(rest, it, next);
      ConcatAssoc(Data(items[0]), DataAll(rest), Data(it));
      ConcatAssoc(Heads(items[0], base), HeadsAll(rest, next), Heads(it, next + |DataAll(rest)|));
    }
  }

  // ---------------------------------------------------------------------------------
  // The buffer as a value
  // ---------------------------------------------------------------------------------

  datatype View = View(str: seq<byte>, heads: seq<HeadVal>, lhsize: nat)

  /** Writing a value: a list records its header first and fixes its size last. */
  function Put(v: View, it: Item): (w: View)
    ensures |w.str| >= |v.str| && w.lhsize >= v.lhsize
    ensures |w.heads| >= |v.heads| && w.heads[..|v.heads|] == v.heads
    decreases it, 1
  {
    match it
    case Str(b) => v.(str := v.str + RlpFormat.EncodeString(b))
    case List(items) => Close(PutAll(Open(v), items), |v.heads|)
  }

  function Open(v: View): View {
    v.(heads := v.heads + [HeadVal(|v.str|, v.lhsize)])
  }

  function Close(w: View, k: nat): View
    requires k < |w.heads| && w.heads[k].offset + w.heads[k].size <= |w.str| + w.lhsize
  {
    var size := |w.str| + w.lhsize - w.heads[k].offset - w.heads[k].size;
    w.(heads := w.heads[k := HeadVal(w.heads[k].offset, size)], lhsize := w.lhsize + |ListHeader(size)|)
  }

  function PutAll(v: View, items: seq<Item>): (w: View)
    ensures |w.str| >= |v.str| && w.lhsize >= v.lhsize
    ensures |w.heads| >= |v.heads| && w.heads[..|v.heads|] == v.heads
    decreases items, 0
  {
    if items == [] then v
    else Put(PutAll(v, items[..|items| - 1]), items[|items| - 1])
  }

  /** What writing a value adds: its data, its headers, and the size of its headers. */
  function Layout(v: View, it: Item): View {
    View(v.str + Data(it), v.heads + Heads(it, |v.str|), v.lhsize + HeaderBytes(Heads(it, |v.str|)))
  }

  function LayoutAll(v: View, items: seq<Item>): View {
    View(v.str + DataAll(items), v.heads + HeadsAll(items, |v.str|),
         v.lhsize + HeaderBytes(HeadsAll(items, |v.str|)))
  }

  lemma {:induction false} PutIsLayout(v: View, it: Item)
    ensures Put(v, it) == Layout(v, it)
    decreases it, 1
  {
    if it.Str? {
      assert v.heads + Heads(it, |v.str|) == v.heads;
    } else {
      var items, base := it.items, |v.str|;
      PutAllIsLayout(Open(v), items);
      var hs := HeadsAll(items, base);
      EncodeAllSize(items, base);
      ReplaceMark(v.heads, HeadVal(base, v.lhsize), hs, HeadVal(base, |EncodeAll(items)|));
      HeaderBytesAppend([HeadVal(base, |EncodeAll(items)|)], hs);
    }
  }

  lemma {:induction false} PutAllIsLayout(v: View, items: seq<Item>)
    ensures PutAll(v, items) == LayoutAll(v, items)
    decreases items, 0
  {
    if items == [] {
      assert v.str + DataAll(items) == v.str && v.heads + HeadsAll(items, |v.str|) == v.heads;
    } else {
      PutAllIsLayout(v, items[..|items| - 1]);
      PutIsLayout(LayoutAll(v, items[..|items| - 1]), items[|items| - 1]);
      LayoutOneMore(v, items);
    }
  }

  lemma LayoutOneMore(v: View, items: seq<Item>)
    requires items != []
    ensures LayoutAll(v, items) == Layout(LayoutAll(v, items[..|items| - 1]), items[|items| - 1])
  {
    hide Data, DataAll, Heads, HeadsAll, HeaderBytes, Encode, EncodeAll;
    var n := |items| - 1;
    var w := LayoutAll(v, items[..n]);
    OneMore(items, n, |v.str|);
    assert items[..n + 1] == items;
    ConcatAssoc(v.str, DataAll(items[..n]), Data(items[n]));
    ConcatAssoc(v.heads, HeadsAll(items[..n], |v.str|), Heads(items[n], |w.str|));
  }

  lemma ReplaceMark(xs: seq<HeadVal>, mark: HeadVal, ys: seq<HeadVal>, h: HeadVal)
    ensures (xs + [mark] + ys)[|xs| := h] == xs + ([h] + ys)
  {
  }

  lemma OneMore(items: seq<Item>, i: nat, base: nat)
    requires i < |items|
    ensures DataAll(items[..i + 1]) == DataAll(items[..i]) + Data(items[i])
    ensures HeadsAll(items[..i + 1], base)
         == HeadsAll(items[..i], base) + Heads(items[i], base + |DataAll(items[..i])|)
    ensures HeaderBytes(HeadsAll(items[..i + 1], base))
         == HeaderBytes(HeadsAll(items[..i], base)) + HeaderBytes(Heads(items[i], base + |DataAll(items[..i])|))
  {
    hide Data, DataAll, Heads, HeadsAll, HeaderBytes;
    assert items[..i + 1] == items[..i] + [items[i]];
    AppendOne(items[..i], items[i], base);
    HeaderBytesAppend(HeadsAll(items[..i], base), Heads(items[i], base + |DataAll(items[..i])|));
  }

  lemma {:induction false} HeadSizes(it: Item, base: nat)
    ensures forall h :: h in Heads(it, base) ==> h.size < |Encode(it)|
    decreases it, 0
  {
    if it.List? {
      HeadSizesAll(it.items, base);
    }
  }

  lemma {:induction false} HeadSizesAll(items: seq<Item>, base: nat)
    ensures forall h :: h in HeadsAll(items, base) ==> h.size < |EncodeAll(items)|
    decreases items, 1
  {
    if items != [] {
      HeadSizes(items[0], base);
      HeadSizesAll(items[1..], base + |Data(items[0])|);
    }
  }

  lemma PutIntoEmpty(it: Item)
    ensures Put(View([], [], 0), it) == View(Data(it), Heads(it, 0), HeaderBytes(Heads(it, 0)))
    ensures Splice(Data(it), Heads(it, 0)) == Encode(it)
  {
    PutIsLayout(View([], [], 0), it);
    assert [] + Data(it) == Data(it) && [] + Heads(it, 0) == Heads(it, 0);
    SpliceIsEncode(it);
  }

  lemma {:induction false} ElementShorter(items: seq<Item>, i: nat)
    requires i < |items|
    ensures |Encode(items[i])| <= |EncodeAll(items)|
  {
    if i > 0 {
      ElementShorter(items[1..], i - 1);
    }
  }

  // ---------------------------------------------------------------------------------
  // Reading the two buffers front to back
  // ---------------------------------------------------------------------------------

  /** Position (i, pos): headers before i and string data before pos have been passed. */
  predicate At(str: seq<byte>, vals: seq<HeadVal>, i: nat, pos: nat) {
    Ascending(vals, |str|) && i <= |vals| && pos <= |str| && Within(vals[..i], pos)
    && (i < |vals| ==> pos <= vals[i].offset)
  }

  /** What has been passed. */
  function Done(str: seq<byte>, vals: seq<HeadVal>, i: nat, pos: nat): seq<byte>
    requires At(str, vals, i, pos)
  {
    Splice(str[..pos], vals[..i])
  }

  lemma AtStart(str: seq<byte>, vals: seq<HeadVal>)
    requires Ascending(vals, |str|)
    ensures At(str, vals, 0, 0) && Done(str, vals, 0, 0) == []
  {
    assert vals[..0] == [];
  }

  lemma PassData(str: seq<byte>, vals: seq<HeadVal>, i: nat, pos: nat, to: nat)
    requires At(str, vals, i, pos) && pos <= to <= |str| && (i < |vals| ==> to <= vals[i].offset)
    ensures At(str, vals, i, to) && Done(str, vals, i, to) == Done(str, vals, i, pos) + str[pos..to]
  {
    SpliceMoreData(str[..pos], vals[..i], str[pos..to]);
    assert str[..pos] + str[pos..to] == str[..to];
  }

  lemma PassHead(str: seq<byte>, vals: seq<HeadVal>, i: nat)
    requires i < |vals| && At(str, vals, i, vals[i].offset)
    ensures At(str, vals, i + 1, vals[i].offset)
    ensures Done(str, vals, i + 1, vals[i].offset) == Done(str, vals, i, vals[i].offset) + ListHeader(vals[i].size)
  {
    var o := vals[i].offset;
    assert vals[..i] + [HeadVal(|str[..o]|, vals[i].size)] == vals[..i + 1];
    SpliceMoreHead(str[..o], vals[..i], vals[i].size);
  }

  lemma AtEnd(str: seq<byte>, vals: seq<HeadVal>)
    requires At(str, vals, |vals|, |str|)
    ensures Done(str, vals, |vals|, |str|) == Splice(str, vals)
  {
    assert str[..|str|] == str && vals[..|vals|] == vals;
  }

  /** What has been passed is always a prefix of the whole. */
  lemma {:induction false} DoneIsPrefix(str: seq<byte>, vals: seq<HeadVal>, i: nat, pos: nat)
    requires At(str, vals, i, pos)
    ensures Done(str, vals, i, pos) <= Splice(str, vals)
    decreases |vals| - i
  {
    hide Splice, Done;
    if i == |vals| {
      PassData(str, vals, i, pos, |str|);
      AtEnd(str, vals);
    } else {
      PassData(str, vals, i, pos, vals[i].offset);
      PassHead(str, vals, i);
      DoneIsPrefix(str, vals, i + 1, vals[i].offset);
    }
  }

  /** A reader's position, with the last `piece` of what was passed not yet handed out. */
  datatype Cursor = Cursor(i: nat, pos: nat, piece: seq<byte>)

  predicate CursorOk(str: seq<byte>, vals: seq<HeadVal>, c: Cursor) {
    At(str, vals, c.i, c.pos)
    && |c.piece| <= |Done(str, vals, c.i, c.pos)|
    && Done(str, vals, c.i, c.pos) <= Splice(str, vals)
    && c.piece == Done(str, vals, c.i, c.pos)[|Done(str, vals, c.i, c.pos)| - |c.piece|..]
  }

  /** What is still to be handed out. */
  function Rest(str: seq<byte>, vals: seq<HeadVal>, c: Cursor): seq<byte>
    requires CursorOk(str, vals, c)
  {
    Splice(str, vals)[|Done(str, vals, c.i, c.pos)| - |c.piece|..]
  }

  lemma RestAtStart(str: seq<byte>, vals: seq<HeadVal>)
    requires Ascending(vals, |str|)
    ensures CursorOk(str, vals, Cursor(0, 0, [])) && Rest(str, vals, Cursor(0, 0, [])) == Splice(str, vals)
  {
    hide Splice, At, Done;
    AtStart(str, vals);
    DoneIsPrefix(str, vals, 0, 0);
  }

  /** Passing one more piece, and keeping it to be handed out, changes nothing. */
  lemma NextPiece(str: seq<byte>, vals: seq<HeadVal>, c: Cursor, i: nat, pos: nat, piece: seq<byte>)
    requires CursorOk(str, vals, c) && c.piece == []
    requires At(str, vals, i, pos) && Done(str, vals, i, pos) == Done(str, vals, c.i, c.pos) + piece
    ensures CursorOk(str, vals, Cursor(i, pos, piece))
    ensures Rest(str, vals, Cursor(i, pos, piece)) == Rest(str, vals, c)
  {
    hide Splice, At;
    DoneIsPrefix(str, vals, i, pos);
  }

  lemma CursorFacts(str: seq<byte>, vals: seq<HeadVal>, c: Cursor)
    requires CursorOk(str, vals, c)
    ensures At(str, vals, c.i, c.pos)
  {
  }

  lemma NothingLeft(str: seq<byte>, vals: seq<HeadVal>, c: Cursor)
    requires CursorOk(str, vals, c) && c.piece == [] && c.i == |vals| && c.pos == |str|
    ensures Rest(str, vals, c) == []
  {
    AtEnd(str, vals);
  }

  lemma HandOut(str: seq<byte>, vals: seq<HeadVal>, c: Cursor, k: nat)
    requires CursorOk(str, vals, c) && k <= |c.piece|
    ensures CursorOk(str, vals, c.(piece := c.piece[k..]))
    ensures c.piece <= Rest(str, vals, c)
    ensures Rest(str, vals, c.(piece := c.piece[k..])) == Rest(str, vals, c)[k..]
  {
    hide Splice, At;
    var d, all := Done(str, vals, c.i, c.pos), Splice(str, vals);
    assert all[..|d|] == d;
    assert all[|d| - |c.piece|..|d|] == c.piece;
  }
}
