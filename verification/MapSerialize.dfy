/** The byte format of stored house items: a container is written with its children in reverse, and
    read back by putting every child in front of the ones already read. */
module MapSerialize {
  import opened Forest
  import opened ForestTree
  import opened Ledger
  import opened ItemRows
  import opened Streams

  const ATTR_CONTAINER_ITEMS: byte := 23

  /** One attribute: its tag and the raw bytes of its value. */
  datatype Attr = Attr(tag: byte, body: seq<byte>)

  datatype Format = Bytes(n: nat) | Text | Unknown

  /** How many bytes the reader takes for each attribute. */
  function FormatOf(tag: byte): Format {
    if tag in {12, 14, 15, 17, 32, 33, 37, 39, 41} then Bytes(1)
    else if tag in {4, 5, 10, 22, 36} then Bytes(2)
    else if tag in {16, 18, 20, 21, 27, 28, 29, 30, 31, 35, 38} then Bytes(4)
    else if tag == 8 then Bytes(5)
    else if tag == 40 then Bytes(15)
    else if tag in {6, 7, 19, 24, 25, 26} then Text
    else Unknown
  }

  datatype Made = Made(kind: Kind, count: nat)

  /** The item types: which attributes describe an item, and which item an id and a list of
      attributes make. */
  datatype Catalogue = Catalogue(
    describe: (Kind, nat) -> seq<Attr>, make: (nat, seq<Attr>) -> Made, isContainer: nat -> bool)
  {
    ghost predicate Sound() {
      forall id, attrs {:trigger make(id, attrs)} ::
        var m := make(id, attrs);
        && m.kind.container == isContainer(id)
        && (m.kind.stackable ==> 1 <= m.count <= 100 && !m.kind.container)
    }
  }

  // ---------------------------------------------------------------- writing

  function AttrBytes(a: Attr): seq<byte> {
    [a.tag] + if FormatOf(a.tag).Text? then StringBytes(a.body) else a.body
  }

  function AttrsBytes(attrs: seq<Attr>): seq<byte> {
    if attrs == [] then [] else AttrBytes(attrs[0]) + AttrsBytes(attrs[1..])
  }

  function HeadBytes(cat: Catalogue, kind: Kind, count: nat): seq<byte> {
    LE(kind.id, 2) + AttrsBytes(cat.describe(kind, count))
  }

  function ItemBytes(cat: Catalogue, d: Data): seq<byte>
    decreases d
  {
    HeadBytes(cat, d.kind, d.count)
    + (if d.kind.container then [ATTR_CONTAINER_ITEMS] + LE(|d.kids|, 4) + KidsBytes(cat, d.kids) else [])
    + [0]
  }

  /** The children, last one first. */
  function KidsBytes(cat: Catalogue, kids: seq<Data>): seq<byte>
    decreases kids
  {
    if kids == [] then [] else ItemBytes(cat, kids[|kids| - 1]) + KidsBytes(cat, kids[..|kids| - 1])
  }

  // ---------------------------------------------------------------- reading

  datatype Body = NoBody | HasBody(body: seq<byte>, rest: seq<byte>)

  function ReadBody(tag: byte, b: seq<byte>): (r: Body)
    ensures r.HasBody? ==> |r.rest| <= |b|
  {
    match FormatOf(tag)
    case Bytes(n) => if |b| < n then NoBody else HasBody(b[..n], b[n..])
    case Text => if CanReadString(b) then HasBody(StringIn(b), b[2 + |StringIn(b)|..]) else NoBody
    case Unknown => NoBody
  }

  datatype Props = BadProps | Props(attrs: seq<Attr>, count: nat, rest: seq<byte>)

  /** Attributes up to a zero byte, the end of the data, or the announcement of a container's items. */
  function ReadProps(container: bool, b: seq<byte>, attrs: seq<Attr>): (r: Props)
    ensures r.Props? ==> |r.rest| <= |b|
    decreases |b|
  {
    if b == [] then Props(attrs, 0, [])
    else if b[0] == 0 then Props(attrs, 0, b[1..])
    else if b[0] == ATTR_CONTAINER_ITEMS then
      if container && |b| >= 5 then Props(attrs, FromLE(b[1..5]), b[5..]) else BadProps
    else match ReadBody(b[0], b[1..])
      case NoBody => BadProps
      case HasBody(body, rest) => ReadProps(container, rest, attrs + [Attr(b[0], body)])
  }

  datatype Parsed = Failed | Parsed(data: Data, rest: seq<byte>)
  datatype ParsedKids = KidsFailed | ParsedKids(kids: seq<Data>, rest: seq<byte>)

  function ParseItem(cat: Catalogue, b: seq<byte>): (r: Parsed)
    ensures r.Parsed? ==> |r.rest| + 2 <= |b|
    decreases |b|, 0
  {
    if |b| < 2 then Failed
    else
      var id := FromLE(b[..2]);
      match ReadProps(cat.isContainer(id), b[2..], [])
      case BadProps => Failed
      case Props(attrs, n, rest) =>
        var m := cat.make(id, attrs);
        if !cat.isContainer(id) then Parsed(Data(m.kind, m.count, []), rest)
        else Closed(m, ParseKids(cat, rest, n, []))
  }

  /** n items, each put in front of those already read. */
  function ParseKids(cat: Catalogue, b: seq<byte>, n: nat, kids: seq<Data>): (r: ParsedKids)
    ensures r.ParsedKids? ==> |r.rest| <= |b|
    decreases |b|, 1
  {
    if n == 0 then ParsedKids(kids, b)
    else match ParseItem(cat, b)
      case Failed => KidsFailed
      case Parsed(d, rest) => ParseKids(cat, rest, n - 1, [d] + kids)
  }

  /** A container's items must be followed by a zero byte. */
  function Closed(m: Made, p: ParsedKids): (r: Parsed)
    ensures r.Parsed? ==> p.ParsedKids? && |r.rest| <= |p.rest|
  {
    if p.ParsedKids? && p.rest != [] && p.rest[0] == 0
    then Parsed(Data(m.kind, m.count, p.kids), p.rest[1..])
    else Failed
  }

  // ---------------------------------------------------------------- the round trip

  /** Every value fits the field it is written to, and the attributes that describe the item make
      it again. */
  ghost predicate Fits(cat: Catalogue, kind: Kind, count: nat) {
    && kind.id < 0x1_0000 && cat.isContainer(kind.id) == kind.container
    && cat.make(kind.id, cat.describe(kind, count)) == Made(kind, count)
    && forall i :: 0 <= i < |cat.describe(kind, count)| ==> GoodAttr(cat.describe(kind, count)[i])
  }

  predicate GoodAttr(a: Attr) {
    match FormatOf(a.tag)
    case Bytes(n) => |a.body| == n
    case Text => |a.body| <= MAX_STRING
    case Unknown => false
  }

  ghost predicate Storable(cat: Catalogue, d: Data)
    decreases d
  {
    && Fits(cat, d.kind, d.count) && |d.kids| < 0x1_0000_0000 && (!d.kind.container ==> d.kids == [])
    && forall i :: 0 <= i < |d.kids| ==> Storable(cat, d.kids[i])
  }

  lemma AttrReadBack(a: Attr, suffix: seq<byte>)
    requires GoodAttr(a)
    ensures var b := AttrBytes(a) + suffix;
      b[0] == a.tag && ReadBody(b[0], b[1..]) == HasBody(a.body, suffix)
  {
    var b := AttrBytes(a) + suffix;
    if FormatOf(a.tag).Text? {
      assert b[1..] == StringBytes(a.body) + suffix;
      StringReadBack(a.body, suffix);
    } else {
      assert b[1..] == a.body + suffix;
    }
  }

  /** Reading the attributes that were written arrives at what follows them. */
  lemma {:induction false} AttrsReadBack(container: bool, done: seq<Attr>, attrs: seq<Attr>, suffix: seq<byte>)
    requires forall i :: 0 <= i < |attrs| ==> GoodAttr(attrs[i])
    ensures ReadProps(container, AttrsBytes(attrs) + suffix, done) == ReadProps(container, suffix, done + attrs)
    decreases |attrs|
  {
    hide AttrBytes, ReadBody, GoodAttr;
    if attrs == [] {
      assert done + attrs == done && AttrsBytes(attrs) + suffix == suffix;
    } else {
      var a, more := attrs[0], AttrsBytes(attrs[1..]) + suffix;
      var b := AttrsBytes(attrs) + suffix;
      assert b == AttrBytes(a) + more;
      AttrReadBack(a, more);
      TagIsPlain(a);
      AttrsReadBack(container, done + [a], attrs[1..], suffix);
      assert done + [a] + attrs[1..] == done + attrs;
    }
  }

  lemma TagIsPlain(a: Attr)
    requires GoodAttr(a)
    ensures a.tag != 0 && a.tag != ATTR_CONTAINER_ITEMS && |AttrBytes(a)| > 0
  {
  }

  lemma HeadReadBack(cat: Catalogue, kind: Kind, count: nat, suffix: seq<byte>)
    requires Fits(cat, kind, count)
    ensures var b := HeadBytes(cat, kind, count) + suffix;
      && |b| >= 2 && FromLE(b[..2]) == kind.id
      && ReadProps(kind.container, b[2..], []) == ReadProps(kind.container, suffix, cat.describe(kind, count))
  {
    hide ReadProps, AttrsBytes, GoodAttr, LE, FromLE;
    var attrs := cat.describe(kind, count);
    var b := HeadBytes(cat, kind, count) + suffix;
    Sizes();
    ReadBack(kind.id, 2);
    assert b[..2] == LE(kind.id, 2) && b[2..] == AttrsBytes(attrs) + suffix;
    AttrsReadBack(kind.container, [], attrs, suffix);
    assert [] + attrs == attrs;
  }

  lemma CountReadBack(n: nat, attrs: seq<Attr>, suffix: seq<byte>)
    requires n < 0x1_0000_0000
    ensures ReadProps(true, [ATTR_CONTAINER_ITEMS] + LE(n, 4) + suffix, attrs) == Props(attrs, n, suffix)
  {
    var b := [ATTR_CONTAINER_ITEMS] + LE(n, 4) + suffix;
    Sizes();
    ReadBack(n, 4);
    assert b[1..5] == LE(n, 4) && b[5..] == suffix;
  }

  /** Loading what was saved, followed by anything, gives the item back and stops right behind it. */
  lemma {:induction false} LoadAfterSave(cat: Catalogue, d: Data, suffix: seq<byte>)
    requires Storable(cat, d)
    ensures ParseItem(cat, ItemBytes(cat, d) + suffix) == Parsed(d, suffix)
    decreases d, 0
  {
    hide HeadBytes, ReadProps, Fits, LE, FromLE;
    var b, attrs := ItemBytes(cat, d) + suffix, cat.describe(d.kind, d.count);
    FitsFields(cat, d.kind, d.count);
    if d.kind.container {
      var tail := [0] + suffix;
      var inner := KidsBytes(cat, d.kids) + tail;
      var middle := [ATTR_CONTAINER_ITEMS] + LE(|d.kids|, 4) + inner;
      assert b == HeadBytes(cat, d.kind, d.count) + middle;
      HeadReadBack(cat, d.kind, d.count, middle);
      CountReadBack(|d.kids|, attrs, inner);
      KidsAfterSave(cat, d.kids, tail, []);
      assert d.kids + [] == d.kids && tail[1..] == suffix;
    } else {
      assert b == HeadBytes(cat, d.kind, d.count) + ([0] + suffix);
      HeadReadBack(cat, d.kind, d.count, [0] + suffix);
      PropsEnd(attrs, suffix);
    }
  }

  lemma PropsEnd(attrs: seq<Attr>, suffix: seq<byte>)
    ensures ReadProps(false, [0] + suffix, attrs) == Props(attrs, 0, suffix)
  {
    assert ([0] + suffix)[1..] == suffix;
  }

  lemma FitsFields(cat: Catalogue, kind: Kind, count: nat)
    requires Fits(cat, kind, count)
    ensures cat.isContainer(kind.id) == kind.container
    ensures cat.make(kind.id, cat.describe(kind, count)) == Made(kind, count)
  {
  }

  /** Writing last to first and inserting at the front cancel. */
  lemma {:induction false} KidsAfterSave(cat: Catalogue, kids: seq<Data>, suffix: seq<byte>, acc: seq<Data>)
    requires forall i :: 0 <= i < |kids| ==> Storable(cat, kids[i])
    ensures ParseKids(cat, KidsBytes(cat, kids) + suffix, |kids|, acc) == ParsedKids(kids + acc, suffix)
    decreases kids, 1
  {
    hide ParseItem, ItemBytes, Storable;
    if kids == [] {
      assert KidsBytes(cat, kids) + suffix == suffix && kids + acc == acc;
    } else {
      var n := |kids| - 1;
      var more := KidsBytes(cat, kids[..n]) + suffix;
      assert KidsBytes(cat, kids) + suffix == ItemBytes(cat, kids[n]) + more;
      LoadAfterSave(cat, kids[n], more);
      KidsAfterSave(cat, kids[..n], suffix, [kids[n]] + acc);
      assert kids[..n] + ([kids[n]] + acc) == kids + acc;
    }
  }

  // ---------------------------------------------------------------- writing the heap

  method WriteAttrs(stream: PropWriteStream, attrs: seq<Attr>)
    modifies stream
    ensures stream.buffer == old(stream.buffer) + AttrsBytes(attrs)
  {
    var n := 0;
    while n < |attrs|
      invariant 0 <= n <= |attrs|
      invariant stream.buffer + AttrsBytes(attrs[n..]) == old(stream.buffer) + AttrsBytes(attrs)
    {
      var a := attrs[n];
      ghost var before := stream.buffer;
      assert attrs[n..][1..] == attrs[n + 1..];
      stream.Write(a.tag, 1);
      assert LE(a.tag, 1) == [a.tag] + LE(a.tag / 256, 0) == [a.tag];
      if FormatOf(a.tag).Text? {
        stream.WriteString(a.body);
      } else {
        stream.buffer := stream.buffer + a.body;
      }
      assert stream.buffer == before + AttrBytes(a);
      n := n + 1;
    }
  }

  /** Appends the bytes of an item and everything below it. */
  method SaveItem(stream: PropWriteStream, item: Item, cat: Catalogue, ghost s: set<Item>)
    requires Shaped(Snapshot(s)) && item in s
    modifies stream
    ensures stream.buffer == old(stream.buffer) + ItemBytes(cat, DataOf(Snapshot(s), item))
    decreases Rest(Snapshot(s), item), 1
  {
    hide Shaped, AttrsBytes, LE, KidsBytes, DataOf;
    ghost var d := DataOf(Snapshot(s), item);
    KidsCount(Snapshot(s), item);
    stream.Write(item.kind.id, 2);
    WriteAttrs(stream, cat.describe(item.kind, item.count));
    assert stream.buffer == old(stream.buffer) + HeadBytes(cat, d.kind, d.count);
    if item.kind.container {
      SaveKids(stream, item, cat, s);
    }
    stream.buffer := stream.buffer + [0];
  }

  method SaveKids(stream: PropWriteStream, c: Item, cat: Catalogue, ghost s: set<Item>)
    requires Shaped(Snapshot(s)) && c in s
    modifies stream
    ensures var kids := DataOf(Snapshot(s), c).kids;
      stream.buffer == old(stream.buffer) + ([ATTR_CONTAINER_ITEMS] + LE(|kids|, 4) + KidsBytes(cat, kids))
    decreases Rest(Snapshot(s), c), 0
  {
    hide Shaped, DataOf, ItemBytes, LE;
    ghost var kids, h := DataOf(Snapshot(s), c).kids, Snapshot(s);
    KidsCount(h, c);
    stream.buffer := stream.buffer + [ATTR_CONTAINER_ITEMS];
    stream.Write(|c.items|, 4);
    ghost var head := stream.buffer;
    var n := |c.items|;
    assert kids[..n] == kids;
    while n > 0
      invariant 0 <= n <= |c.items| == |kids|
      invariant stream.buffer + KidsBytes(cat, kids[..n]) == head + KidsBytes(cat, kids)
    {
      n := n - 1;
      KidsAt(h, c, n);
      KidIsBelow(h, c, n);
      SaveItem(stream, c.items[n], cat, s);
      assert kids[..n + 1][..n] == kids[..n];
    }
    assert kids[..0] == [] && stream.buffer + [] == stream.buffer;
    assert head == old(stream.buffer) + ([ATTR_CONTAINER_ITEMS] + LE(|kids|, 4));
  }

  lemma KidIsBelow(h: Heap, c: Item, i: nat)
    requires Shaped(h) && c in h && i < |h[c].items|
    ensures h[c].items[i] in h && Rest(h, h[c].items[i]) < Rest(h, c)
  {
    assert h[h[c].items[i]].parent == c;
    ChildAbove(h, c, h[c].items[i]);
  }

  // ---------------------------------------------------------------- building the heap

  /** Nothing that was there has changed. */
  ghost predicate Extends(h: Heap, g: Heap) {
    h.Keys <= g.Keys && forall y {:trigger g[y]} :: y in h ==> g[y] == h[y]
  }

  /** The heap g holds x, loose and described by d, beside everything in h; in h' it hangs in front. */
  ghost predicate Delivered(h: Heap, g: Heap, h': Heap, parent: Item, x: Item, d: Data) {
    && Valid(g) && Extends(h, g) && x in g && x !in h && CanHang(g, parent, x)
    && DataOf(g, x) == d && h' == Attached(g, parent, 0, x)
  }

  /** The root c has been filled with the given children and nothing else has changed. */
  ghost predicate Filled(h: Heap, g: Heap, c: Item, kids: seq<Data>) {
    && Valid(g) && c in h && h.Keys <= g.Keys
    && (forall y {:trigger g[y]} :: y in h && y != c ==> g[y] == h[y])
    && g[c].kind == h[c].kind && g[c].count == h[c].count && g[c].parent == null && DataOf(g, c).kids == kids
  }

  lemma {:induction false} ExtendsChain(h: Heap, g: Heap, c: Item, n: nat)
    requires AtDepth(h, c, n) && Extends(h, g)
    ensures AtDepth(g, c, n) && Chain(g, c, n) == Chain(h, c, n) <= h.Keys
    decreases n
  {
    if h[c].parent != null {
      ExtendsChain(h, g, h[c].parent, n - 1);
    }
  }

  lemma FreshHangs(h: Heap, g: Heap, c: Item, x: Item)
    requires Shaped(h) && Extends(h, g) && c in h && h[c].kind.container && x !in h && x in g && g[x].parent == null
    ensures CanHang(g, c, x)
  {
    assert Rooted(h, c);
    var n := Depth(h, c);
    ExtendsChain(h, g, c, n);
    AboveIsChain(g, c, n);
  }

  /** An item's content depends only on the items below it, so changing a root leaves the rest. */
  lemma {:induction false} DataSame(h: Heap, g: Heap, c: Item, x: Item)
    requires Shaped(h) && Shaped(g) && x in h && x != c && h.Keys <= g.Keys
    requires c in h ==> h[c].parent == null
    requires forall y {:trigger g[y]} :: y in h && y != c ==>
      g[y].kind == h[y].kind && g[y].count == h[y].count && g[y].items == h[y].items
    ensures DataOf(g, x) == DataOf(h, x)
    decreases Rest(h, x)
  {
    hide Valid;
    KidsCount(h, x);
    KidsCount(g, x);
    forall i | 0 <= i < |h[x].items| ensures DataOf(g, x).kids[i] == DataOf(h, x).kids[i] {
      KidsAt(h, x, i);
      KidsAt(g, x, i);
      KidIsBelow(h, x, i);
      assert h[h[x].items[i]].parent == x;
      DataSame(h, g, c, h[x].items[i]);
    }
    assert DataOf(g, x).kids == DataOf(h, x).kids;
  }

  lemma AttachedToRoot(h: Heap, c: Item, x: Item)
    requires Valid(h) && CanHang(h, c, x) && h[c].parent == null
    ensures forall y :: y in h && y != c && y != x ==> Attached(h, c, 0, x)[y] == h[y]
  {
    LinkAbove(h, c, 0, x);
    AboveIsChain(h, c, 0);
  }

  lemma DataParts(h: Heap, x: Item)
    requires Shaped(h) && x in h
    ensures DataOf(h, x) == Data(h[x].kind, h[x].count, DataOf(h, x).kids)
  {
  }

  lemma DeliveredFacts(h: Heap, g: Heap, h': Heap, c: Item, x: Item, d: Data)
    requires Delivered(h, g, h', c, x, d) && c in h && h[c].parent == null
    ensures Valid(g) && Shaped(g) && Valid(h') && Shaped(h') && h'.Keys == g.Keys && h.Keys <= g.Keys && x in g && x !in h
    ensures c in g && g[c] == h[c] && h'[c].items == [x] + h[c].items && DataOf(g, x) == d
    ensures h'[c].kind == h[c].kind && h'[c].count == h[c].count && h'[c].parent == null
    ensures forall y {:trigger h'[y]} :: y in h && y != c ==> h'[y] == h[y]
    ensures forall y {:trigger h'[y]} :: y in g && y != c ==>
      h'[y].kind == g[y].kind && h'[y].count == g[y].count && h'[y].items == g[y].items
  {
    hide Attached, AtDepth, Chain, Above, DataOf;
    AttachedFields(g, c, x);
    AttachedToRoot(g, c, x);
    AttachedValid(g, c, 0, x);
  }

  /** One more item delivered in front of those already there. */
  lemma FilledMore(h: Heap, h1: Heap, g: Heap, h2: Heap, c: Item, x: Item, d: Data, kids: seq<Data>)
    requires Filled(h, h1, c, kids) && Delivered(h1, g, h2, c, x, d)
    ensures Filled(h, h2, c, [d] + kids)
  {
    hide Delivered, Valid, DataOf, Shaped;
    FilledShape(h, h1, c, kids);
    DeliveredFacts(h1, g, h2, c, x, d);
    KidsCount(h2, c);
    KidsCount(h1, c);
    forall i | 0 <= i < |h2[c].items| ensures DataOf(h2, c).kids[i] == ([d] + kids)[i] {
      KidsAt(h2, c, i);
      if i == 0 {
        DataSame(g, h2, c, x);
      } else {
        OldKid(h1, g, h2, c, x, d, i - 1);
      }
    }
    assert DataOf(h2, c).kids == [d] + kids;
  }

  lemma FilledShape(h: Heap, g: Heap, c: Item, kids: seq<Data>)
    requires Filled(h, g, c, kids)
    ensures Valid(g) && Shaped(g) && c in g && g[c].parent == null
  {
  }

  lemma OldKid(h: Heap, g: Heap, h': Heap, c: Item, x: Item, d: Data, i: nat)
    requires Shaped(h) && Delivered(h, g, h', c, x, d) && c in h && h[c].parent == null && i < |h[c].items|
    ensures h[c].items[i] in h' && Shaped(h') && DataOf(h', h[c].items[i]) == DataOf(h, c).kids[i]
  {
    hide Delivered, Valid, DataOf, Shaped;
    DeliveredFacts(h, g, h', c, x, d);
    KidsAt(h, c, i);
    var k := h[c].items[i];
    ChildIsNoRoot(h, c, i);
    DataSame(h, h', c, k);
  }

  lemma ChildIsNoRoot(h: Heap, c: Item, i: nat)
    requires Shaped(h) && c in h && i < |h[c].items|
    ensures h[c].items[i] in h && h[h[c].items[i]].parent == c
  {
  }

  datatype PropsRead = PropsRead(ok: bool, attrs: seq<Attr>, count: nat)

  method ReadOneBody(stream: PropStream, tag: byte) returns (ok: bool, body: seq<byte>)
    requires stream.Valid()
    modifies stream
    ensures stream.Valid()
    ensures var r := ReadBody(tag, old(stream.Rest())); ok == r.HasBody? && (ok ==> body == r.body && stream.Rest() == r.rest)
  {
    match FormatOf(tag)
    case Bytes(n) =>
      ghost var b := stream.Rest();
      body := if |stream.data| - stream.p < n then [] else stream.data[stream.p..stream.p + n];
      ok := stream.Skip(n);
      assert ok ==> body == b[..n];
    case Text =>
      ok, body := stream.ReadString();
    case Unknown =>
      ok, body := false, [];
  }

  /** Reads attributes until they end. */
  method UnserializeAttr(stream: PropStream, container: bool) returns (r: PropsRead)
    requires stream.Valid()
    modifies stream
    ensures stream.Valid()
    ensures var p := ReadProps(container, old(stream.Rest()), []);
      r.ok == p.Props? && (r.ok ==> r.attrs == p.attrs && r.count == p.count && stream.Rest() == p.rest)
  {
    hide ReadBody, FromLE;
    ghost var b := stream.Rest();
    r := PropsRead(true, [], 0);
    var more := true;
    while more
      invariant stream.Valid()
      invariant more ==> r.ok && r.count == 0 && ReadProps(container, b, []) == ReadProps(container, stream.Rest(), r.attrs)
      invariant !more && r.ok ==> ReadProps(container, b, []) == Props(r.attrs, r.count, stream.Rest())
      invariant !r.ok ==> ReadProps(container, b, []) == BadProps
      decreases more, |stream.Rest()|
    {
      r, more := ReadOneAttr(stream, container, r.attrs);
    }
  }

  /** One step of the attribute loop. */
  method ReadOneAttr(stream: PropStream, container: bool, attrs: seq<Attr>) returns (r: PropsRead, more: bool)
    requires stream.Valid()
    modifies stream
    ensures stream.Valid() && (more ==> |stream.Rest()| < |old(stream.Rest())|)
    ensures var p := ReadProps(container, old(stream.Rest()), attrs);
      && (more ==> r.ok && r.count == 0 && p == ReadProps(container, stream.Rest(), r.attrs))
      && (!more && r.ok ==> p == Props(r.attrs, r.count, stream.Rest()))
      && (!r.ok ==> p == BadProps)
  {
    hide ReadBody, FromLE;
    ghost var b := stream.Rest();
    if stream.p == |stream.data| {
      return PropsRead(true, attrs, 0), false;
    }
    var tag := stream.data[stream.p];
    assert tag == b[0];
    var ok := stream.Skip(1);
    if tag == 0 {
      return PropsRead(true, attrs, 0), false;
    }
    if tag == ATTR_CONTAINER_ITEMS {
      if !container {
        return PropsRead(false, attrs, 0), false;
      }
      var n;
      ok, n := stream.Read(4);
      assert ok ==> b[1..][..4] == b[1..5] && b[1..][4..] == b[5..];
      return PropsRead(ok, attrs, if ok then n else 0), false;
    }
    var body;
    ok, body := ReadOneBody(stream, tag);
    r, more := PropsRead(ok, attrs + [Attr(tag, body)], 0), ok;
  }

  /** Reads one item from the stream and puts it in front of what the parent holds. On failure the
      heap is as before. */
  method LoadItem(stream: PropStream, parent: Item, cat: Catalogue, ghost s: set<Item>)
    returns (ok: bool, ghost x: Item?, ghost g: Heap, ghost s': set<Item>)
    requires Valid(Snapshot(s)) && parent in s && parent.kind.container && cat.Sound() && stream.Valid()
    modifies stream, s
    ensures stream.Valid() && s <= s' && fresh(s' - s)
    ensures var p := ParseItem(cat, old(stream.Rest()));
      && ok == p.Parsed?
      && (ok ==> x != null && stream.Rest() == p.rest)
      && (ok ==> Delivered(old(Snapshot(s)), g, Snapshot(s'), parent, x, p.data))
    ensures !ok ==> s' == s && Snapshot(s) == old(Snapshot(s))
    decreases |stream.Rest()|, 0
  {
    hide ReadProps, FromLE, Valid, Delivered, DataOf, ParseKids, WithItem, Filled;
    ghost var h, b := Snapshot(s), stream.Rest();
    ok, x, g, s' := false, null, h, s;
    var id: nat;
    var read;
    read, id := stream.Read(2);
    if !read {
      return;
    }
    var props := UnserializeAttr(stream, cat.isContainer(id));
    if !props.ok {
      return;
    }
    var m := cat.make(id, props.attrs);
    MadeWell(cat, id, props.attrs);
    ok, x, g, s' := Assemble(stream, m, props.count, parent, cat, s);
  }

  /** What the rest of the stream makes of an item whose attributes have been read. */
  function Assembled(cat: Catalogue, m: Made, n: nat, b: seq<byte>): Parsed {
    if m.kind.container then Closed(m, ParseKids(cat, b, n, [])) else Parsed(Data(m.kind, m.count, []), b)
  }

  method Assemble(stream: PropStream, m: Made, n: nat, parent: Item, cat: Catalogue, ghost s: set<Item>)
    returns (ok: bool, ghost x: Item?, ghost g: Heap, ghost s': set<Item>)
    requires Valid(Snapshot(s)) && parent in s && parent.kind.container && cat.Sound() && stream.Valid()
    requires m.kind.stackable ==> 1 <= m.count <= 100 && !m.kind.container
    modifies stream, s
    ensures stream.Valid() && s <= s' && fresh(s' - s)
    ensures var p := Assembled(cat, m, n, old(stream.Rest()));
      && ok == p.Parsed?
      && (ok ==> x != null && stream.Rest() == p.rest)
      && (ok ==> Delivered(old(Snapshot(s)), g, Snapshot(s'), parent, x, p.data))
    ensures !ok ==> s' == s && Snapshot(s) == old(Snapshot(s))
    decreases |stream.Rest()|, 2
  {
    hide Valid, Delivered, DataOf, ParseKids, WithItem, Filled, CanHang, Attached;
    ghost var h, b := Snapshot(s), stream.Rest();
    var item := CreateItem(m.kind, m.count, s);
    ghost var s1, h0 := s + {item}, Snapshot(s + {item});
    NewIsFilled(h, item, m.kind, m.count);
    assert h0[item] == item.State();
    ghost var kids: seq<Data> := [];
    if m.kind.container {
      var filled := false;
      filled, s1 := LoadContainer(stream, item, n, cat, s1);
      if !filled {
        assert forall y :: y in s ==> y.State() == h[y];
        return false, null, h, s;
      }
      kids := ParseKids(cat, b, n, []).kids;
    }
    g := Snapshot(s1);
    FilledCanHang(h, h0, g, item, m.kind, m.count, kids, parent);
    Deliver(h, h0, g, Attached(g, parent, 0, item), item, m.kind, m.count, kids, parent);
    parent.InternalAddThing(item, s1);
    ok, x, s' := true, item, s1;
  }

  lemma MadeWell(cat: Catalogue, id: nat, attrs: seq<Attr>)
    requires cat.Sound()
    ensures var m := cat.make(id, attrs);
      && m.kind.container == cat.isContainer(id)
      && (m.kind.stackable ==> 1 <= m.count <= 100 && !m.kind.container)
  {
  }

  lemma NewIsFilled(h: Heap, x: Item, kind: Kind, count: nat)
    requires Valid(h) && x !in h && (kind.stackable ==> !kind.container && 1 <= count <= 100)
    ensures var g := WithItem(h, x, kind, count); Valid(g) && Filled(g, g, x, []) && x in g && g[x].kind == kind
  {
    WithItemValid(h, x, kind, count);
    KidsCount(WithItem(h, x, kind, count), x);
  }

  lemma FilledCanHang(h: Heap, h0: Heap, g: Heap, x: Item, kind: Kind, count: nat, kids: seq<Data>, c: Item)
    requires Valid(h) && c in h && h[c].kind.container && x !in h && h0 == WithItem(h, x, kind, count)
    requires Filled(h0, g, x, kids)
    ensures Valid(g) && CanHang(g, c, x) && Extends(h, g) && x in g
    ensures Shaped(g) && DataOf(g, x) == Data(kind, count, kids)
  {
    hide CanHang, DataOf;
    DataParts(g, x);
    FreshHangs(h, g, c, x);
  }

  lemma Deliver(h: Heap, h0: Heap, g: Heap, h': Heap, x: Item, kind: Kind, count: nat, kids: seq<Data>, c: Item)
    requires Valid(h) && c in h && h[c].kind.container && x !in h && h0 == WithItem(h, x, kind, count)
    requires Filled(h0, g, x, kids) && CanHang(g, c, x) && Shaped(g) && h' == Attached(g, c, 0, x)
    ensures Delivered(h, g, h', c, x, Data(kind, count, kids))
  {
    hide CanHang, DataOf, Filled, Valid, WithItem, Attached;
    FilledCanHang(h, h0, g, x, kind, count, kids, c);
  }

  /** Reads n items into an empty loose container and the zero byte that closes it. */
  method LoadContainer(stream: PropStream, c: Item, n: nat, cat: Catalogue, ghost s: set<Item>)
    returns (ok: bool, ghost s': set<Item>)
    requires Valid(Snapshot(s)) && c in s && c.kind.container && Filled(Snapshot(s), Snapshot(s), c, [])
    requires cat.Sound() && stream.Valid()
    modifies stream, s
    ensures stream.Valid() && s <= s' && fresh(s' - s)
    ensures var p := ParseKids(cat, old(stream.Rest()), n, []);
      && ok == (p.ParsedKids? && p.rest != [] && p.rest[0] == 0)
      && (ok ==> stream.Rest() == p.rest[1..] && Filled(old(Snapshot(s)), Snapshot(s'), c, p.kids))
    ensures !ok ==> forall y :: y in s && y != c ==> y.State() == old(y.State())
    decreases |stream.Rest()|, 1
  {
    hide Filled, Valid, Delivered, ParseItem;
    ghost var h, b := Snapshot(s), stream.Rest();
    ghost var kids: seq<Data> := [];
    s' := s;
    var left := n;
    while left > 0
      invariant stream.Valid() && s <= s' && fresh(s' - s) && |stream.Rest()| <= |b|
      invariant Filled(h, Snapshot(s'), c, kids)
      invariant ParseKids(cat, b, n, []) == ParseKids(cat, stream.Rest(), left, kids)
    {
      FilledRoom(h, Snapshot(s'), c, kids);
      ghost var h1 := Snapshot(s');
      ghost var d := ParseItem(cat, stream.Rest());
      ghost var x, g, s2;
      ok, x, g, s2 := LoadItem(stream, c, cat, s');
      if !ok {
        FilledOthers(h, h1, c, kids);
        assert forall y :: y in s ==> y.State() == h1[y];
        return;
      }
      FilledMore(h, h1, g, Snapshot(s2), c, x, d.data, kids);
      s', kids := s2, [d.data] + kids;
      left := left - 1;
    }
    FilledOthers(h, Snapshot(s'), c, kids);
    if stream.p == |stream.data| || stream.data[stream.p] != 0 {
      assert forall y :: y in s ==> y.State() == Snapshot(s')[y];
      return false, s';
    }
    ok := stream.Skip(1);
  }

  lemma FilledRoom(h: Heap, g: Heap, c: Item, kids: seq<Data>)
    requires Filled(h, g, c, kids) && h[c].kind.container
    ensures Valid(g) && c in g && g[c].kind.container
  {
  }

  lemma FilledOthers(h: Heap, g: Heap, c: Item, kids: seq<Data>)
    requires Filled(h, g, c, kids)
    ensures h.Keys <= g.Keys && forall y {:trigger g[y]} :: y in h && y != c ==> g[y] == h[y]
  {
  }

  /** Saving an item and loading the bytes, whatever follows them, puts an exact copy of it in front
      of what the parent holds and leaves the stream at what follows. */
  method SaveThenLoadItem(item: Item, parent: Item, suffix: seq<byte>, cat: Catalogue, ghost s: set<Item>)
    returns (left: seq<byte>, ghost x: Item, ghost g: Heap, ghost s': set<Item>)
    requires Valid(Snapshot(s)) && item in s && parent in s && parent.kind.container && cat.Sound()
    requires Shaped(Snapshot(s)) && Storable(cat, DataOf(Snapshot(s), item))
    modifies s
    ensures left == suffix && s <= s' && fresh(s' - s)
    ensures Delivered(old(Snapshot(s)), g, Snapshot(s'), parent, x, old(DataOf(Snapshot(s), item)))
  {
    hide Valid, Shaped, Delivered, Storable, DataOf, ParseItem, ItemBytes;
    ghost var h := Snapshot(s);
    var out := new PropWriteStream();
    SaveItem(out, item, cat, s);
    LoadAfterSave(cat, DataOf(h, item), suffix);
    assert [] + ItemBytes(cat, DataOf(h, item)) == ItemBytes(cat, DataOf(h, item));
    var stream := new PropStream(out.buffer + suffix);
    var ok;
    ghost var x';
    ok, x', g, s' := LoadItem(stream, parent, cat, s);
    x := x';
    left := stream.data[stream.p..];
  }
}
