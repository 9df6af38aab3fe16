/** The bracketed, escaped byte format of the item and map files, and its stack parser. */
module Otb {
  import opened Streams

  const ESCAPE: byte := 0xFD
  const START: byte := 0xFE
  const END: byte := 0xFF
  const IDENTIFIER := 4
  const MINIMAL := 7

  /** What a file describes. */
  datatype Tree = Tree(kind: byte, props: seq<byte>, kids: seq<Tree>)

  // ---------------------------------------------------------------- the format

  predicate Special(c: byte) {
    c >= ESCAPE
  }

  function Escape(props: seq<byte>): seq<byte> {
    if props == [] then []
    else (if Special(props[0]) then [ESCAPE, props[0]] else [props[0]]) + Escape(props[1..])
  }

  /** Type bytes are written raw. */
  function Encode(t: Tree): (b: seq<byte>)
    ensures |b| >= 3 && b[0] == START && b[1] == t.kind
    decreases t
  {
    [START, t.kind] + Escape(t.props) + EncodeKids(t.kids) + [END]
  }

  function EncodeKids(kids: seq<Tree>): seq<byte>
    decreases kids
  {
    if kids == [] then [] else Encode(kids[0]) + EncodeKids(kids[1..])
  }

  /** Drops every escape byte that does not itself follow one. */
  function Unescape(b: seq<byte>, lastEscaped: bool): seq<byte> {
    if b == [] then []
    else
      var escaped := b[0] == ESCAPE && !lastEscaped;
      (if escaped then [] else [b[0]]) + Unescape(b[1..], escaped)
  }

  lemma UnescapeStep(c: byte, rest: seq<byte>, lastEscaped: bool)
    ensures var escaped := c == ESCAPE && !lastEscaped;
      Unescape([c] + rest, lastEscaped) == (if escaped then [] else [c]) + Unescape(rest, escaped)
  {
    assert ([c] + rest)[1..] == rest;
  }

  lemma EscapeStep(props: seq<byte>)
    requires props != []
    ensures var more := Escape(props[1..]);
      Escape(props) == if Special(props[0]) then [ESCAPE] + ([props[0]] + more) else [props[0]] + more
  {
    assert [ESCAPE, props[0]] + Escape(props[1..]) == [ESCAPE] + ([props[0]] + Escape(props[1..]));
  }

  lemma {:induction false} UnescapeInverts(props: seq<byte>)
    ensures Unescape(Escape(props), false) == props
    decreases |props|
  {
    hide Unescape, Escape;
    if props == [] {
      NothingEscaped();
    } else {
      var more := Escape(props[1..]);
      EscapeStep(props);
      UnescapeInverts(props[1..]);
      if Special(props[0]) {
        UnescapeStep(ESCAPE, [props[0]] + more, false);
        UnescapeStep(props[0], more, true);
        assert [] + ([props[0]] + props[1..]) == props;
      } else {
        UnescapeStep(props[0], more, false);
      }
      assert [props[0]] + props[1..] == props;
    }
  }

  lemma NothingEscaped()
    ensures Escape([]) == [] && Unescape([], false) == []
  {
  }

  // ---------------------------------------------------------------- the parser, as a function

  /** A finished node: its type, the range of its raw property bytes, and its children. */
  datatype Parsed = Parsed(kind: byte, begin: nat, end: nat, kids: seq<Parsed>)

  /** A node still open on the stack. */
  type Frame = Parsed

  datatype Result = Invalid | Ok(root: Parsed)

  function Opened(kind: byte, begin: nat): Frame {
    Parsed(kind, begin, begin, [])
  }

  /** The properties end where the first child begins, or else where the node ends. */
  function EndProps(f: Frame, it: nat): Frame {
    if f.kids == [] then f.(end := it) else f
  }

  /** The innermost open node is finished: it becomes the last child of the one around it, or the root. */
  function Popped(frames: seq<Frame>, root: Parsed, it: nat): (seq<Frame>, Parsed)
    requires frames != []
  {
    var n := |frames| - 1;
    var done := EndProps(frames[n], it);
    if n == 0 then ([], done)
    else (frames[..n - 1] + [frames[n - 1].(kids := frames[n - 1].kids + [done])], root)
  }

  function Scan(b: seq<byte>, it: nat, frames: seq<Frame>, root: Parsed): Result
    requires it <= |b|
    decreases |b| - it
  {
    if it == |b| then (if frames == [] then Ok(root) else Invalid)
    else if b[it] == START then
      if frames == [] || it + 1 == |b| then Invalid
      else
        var n := |frames| - 1;
        Scan(b, it + 2, frames[..n] + [EndProps(frames[n], it), Opened(b[it + 1], it + 2)], root)
    else if b[it] == END then
      if frames == [] then Invalid
      else
        var (more, root') := Popped(frames, root, it);
        Scan(b, it + 1, more, root')
    else if b[it] == ESCAPE then
      if it + 1 == |b| then Invalid else Scan(b, it + 2, frames, root)
    else Scan(b, it + 1, frames, root)
  }

  const NO_NODE := Parsed(0, 0, 0, [])

  function ParsedFile(b: seq<byte>): Result {
    if |b| <= MINIMAL || b[IDENTIFIER] != START then Invalid
    else Scan(b, IDENTIFIER + 2, [Opened(b[IDENTIFIER + 1], IDENTIFIER + 2)], NO_NODE)
  }

  // ---------------------------------------------------------------- which files are accepted

  /** From it on, with depth nodes open, brackets match and no escape or type byte is missing. */
  predicate Balanced(b: seq<byte>, it: nat, depth: nat)
    requires it <= |b|
    decreases |b| - it
  {
    if it == |b| then depth == 0
    else if b[it] == START then depth > 0 && it + 1 < |b| && Balanced(b, it + 2, depth + 1)
    else if b[it] == END then depth > 0 && Balanced(b, it + 1, depth - 1)
    else if b[it] == ESCAPE then it + 1 < |b| && Balanced(b, it + 2, depth)
    else Balanced(b, it + 1, depth)
  }

  /** A file is accepted exactly when its brackets match. */
  lemma {:induction false} AcceptedIffBalanced(b: seq<byte>, it: nat, frames: seq<Frame>, root: Parsed)
    requires it <= |b|
    ensures Scan(b, it, frames, root).Ok? <==> Balanced(b, it, |frames|)
    decreases |b| - it
  {
    if it < |b| {
      if b[it] == START {
        if frames != [] && it + 1 < |b| {
          var n := |frames| - 1;
          AcceptedIffBalanced(b, it + 2, frames[..n] + [EndProps(frames[n], it), Opened(b[it + 1], it + 2)], root);
        }
      } else if b[it] == END {
        if frames != [] {
          var (more, root') := Popped(frames, root, it);
          AcceptedIffBalanced(b, it + 1, more, root');
        }
      } else if b[it] == ESCAPE {
        if it + 1 < |b| {
          AcceptedIffBalanced(b, it + 2, frames, root);
        }
      } else {
        AcceptedIffBalanced(b, it + 1, frames, root);
      }
    }
  }

  // ---------------------------------------------------------------- the round trip

  /** The parsed node describes the tree. */
  predicate Denotes(b: seq<byte>, p: Parsed, t: Tree)
    decreases t
  {
    && p.kind == t.kind && p.begin <= p.end <= |b| && b[p.begin..p.end] == Escape(t.props)
    && DenoteAll(b, p.kids, t.kids)
  }

  predicate DenoteAll(b: seq<byte>, ps: seq<Parsed>, ts: seq<Tree>)
    decreases ts
  {
    |ps| == |ts| && (ts != [] ==> Denotes(b, ps[0], ts[0]) && DenoteAll(b, ps[1..], ts[1..]))
  }

  predicate At(b: seq<byte>, it: nat, s: seq<byte>) {
    it + |s| <= |b| && b[it..it + |s|] == s
  }

  lemma AtSplit(b: seq<byte>, it: nat, s: seq<byte>, t: seq<byte>)
    requires At(b, it, s + t)
    ensures At(b, it, s) && At(b, it + |s|, t)
  {
    assert (s + t)[..|s|] == s && (s + t)[|s|..] == t;
  }

  lemma AtByte(b: seq<byte>, it: nat, c: byte, t: seq<byte>)
    requires At(b, it, [c] + t)
    ensures it < |b| && b[it] == c && At(b, it + 1, t)
  {
    AtSplit(b, it, [c], t);
    assert b[it..it + 1][0] == c;
  }

  /** Escaped property bytes are passed over. */
  lemma {:induction false} ScanProps(b: seq<byte>, it: nat, props: seq<byte>, frames: seq<Frame>, root: Parsed)
    requires At(b, it, Escape(props))
    ensures Scan(b, it, frames, root) == Scan(b, it + |Escape(props)|, frames, root)
    decreases |props|
  {
    if props != [] {
      var more := Escape(props[1..]);
      EscapeStep(props);
      if Special(props[0]) {
        AtByte(b, it, ESCAPE, [props[0]] + more);
        AtByte(b, it + 1, props[0], more);
        ScanProps(b, it + 2, props[1..], frames, root);
      } else {
        AtByte(b, it, props[0], more);
        ScanProps(b, it + 1, props[1..], frames, root);
      }
    }
  }

  /** With f innermost, the bytes of a tree add one finished child to f. */
  lemma {:induction false} ScanTree(b: seq<byte>, it: nat, t: Tree, fs: seq<Frame>, f: Frame, root: Parsed)
    returns (p: Parsed)
    requires At(b, it, Encode(t))
    ensures Denotes(b, p, t)
    ensures var g := EndProps(f, it);
      Scan(b, it, fs + [f], root) == Scan(b, it + |Encode(t)|, fs + [g.(kids := g.kids + [p])], root)
    decreases t, 0
  {
    hide Scan, Escape, Encode, EncodeKids, Denotes, At;
    var g, props, kids := EndProps(f, it), Escape(t.props), EncodeKids(t.kids);
    Layout(b, it, t);
    StepStart(b, it, fs, f, root);
    var fs1, h := fs + [g], Opened(t.kind, it + 2);
    assert fs + [g, h] == fs1 + [h];
    ScanProps(b, it + 2, t.props, fs1 + [h], root);
    var ps, h' := ScanKids(b, it + 2 + |props|, t.kids, fs1, h, root);
    assert h'.kids == ps;
    p := EndProps(h', it + 2 + |props| + |kids|);
    StepEnd(b, it + 2 + |props| + |kids|, fs, g, h', root);
    PropsDenoted(b, it + 2, t, ps, p);
  }

  /** Where the parts of an encoded tree stand. */
  lemma Layout(b: seq<byte>, it: nat, t: Tree)
    requires At(b, it, Encode(t))
    ensures var props, kids := Escape(t.props), EncodeKids(t.kids);
      && |Encode(t)| == 3 + |props| + |kids| && it + |Encode(t)| <= |b|
      && b[it] == START && b[it + 1] == t.kind && At(b, it + 2, props) && At(b, it + 2 + |props|, kids)
      && b[it + 2 + |props| + |kids|] == END
  {
    hide Escape, EncodeKids;
    var props, kids := Escape(t.props), EncodeKids(t.kids);
    assert Encode(t) == [START] + ([t.kind] + (props + (kids + ([END] + []))));
    Parts(b, it, t.kind, props, kids);
  }

  lemma Parts(b: seq<byte>, it: nat, kind: byte, props: seq<byte>, kids: seq<byte>)
    requires At(b, it, [START] + ([kind] + (props + (kids + ([END] + [])))))
    ensures it + 3 + |props| + |kids| <= |b|
    ensures b[it] == START && b[it + 1] == kind && At(b, it + 2, props) && At(b, it + 2 + |props|, kids)
    ensures b[it + 2 + |props| + |kids|] == END
  {
    hide At;
    AtByte(b, it, START, [kind] + (props + (kids + ([END] + []))));
    AtByte(b, it + 1, kind, props + (kids + ([END] + [])));
    AtSplit(b, it + 2, props, kids + ([END] + []));
    AtSplit(b, it + 2 + |props|, kids, [END] + []);
    AtByte(b, it + 2 + |props| + |kids|, END, []);
  }

  lemma AtMiddle(a: seq<byte>, s: seq<byte>, c: seq<byte>)
    ensures At(a + s + c, |a|, s) && (a + s + c)[|a| + |s|..] == c
  {
  }

  /** A node whose properties end where its first child, or its end mark, stands. */
  lemma PropsDenoted(b: seq<byte>, begin: nat, t: Tree, ps: seq<Parsed>, p: Parsed)
    requires At(b, begin, Escape(t.props)) && DenoteAll(b, ps, t.kids)
    requires p.kind == t.kind && p.kids == ps && p.begin == begin
    requires p.end == begin + |Escape(t.props)| + if t.kids == [] then |EncodeKids(t.kids)| else 0
    ensures Denotes(b, p, t)
  {
    hide Escape;
  }

  lemma StepStart(b: seq<byte>, it: nat, fs: seq<Frame>, f: Frame, root: Parsed)
    requires it + 1 < |b| && b[it] == START
    ensures Scan(b, it, fs + [f], root) == Scan(b, it + 2, fs + [EndProps(f, it), Opened(b[it + 1], it + 2)], root)
  {
    assert (fs + [f])[..|fs|] == fs;
  }

  lemma StepEnd(b: seq<byte>, it: nat, fs: seq<Frame>, g: Frame, h: Frame, root: Parsed)
    requires it < |b| && b[it] == END
    ensures Scan(b, it, fs + [g] + [h], root) == Scan(b, it + 1, fs + [g.(kids := g.kids + [EndProps(h, it)])], root)
  {
    var frames := fs + [g] + [h];
    assert frames[..|frames| - 2] == fs && frames[|frames| - 2] == g;
  }

  /** ... and so do the bytes of a row of trees. */
  lemma {:induction false} ScanKids(b: seq<byte>, it: nat, ts: seq<Tree>, fs: seq<Frame>, f: Frame, root: Parsed)
    returns (ps: seq<Parsed>, g: Frame)
    requires At(b, it, EncodeKids(ts))
    ensures DenoteAll(b, ps, ts) && g.kind == f.kind && g.begin == f.begin && g.kids == f.kids + ps
    ensures g.end == if f.kids == [] && ts != [] then it else f.end
    ensures Scan(b, it, fs + [f], root) == Scan(b, it + |EncodeKids(ts)|, fs + [g], root)
    decreases ts, 1
  {
    hide Scan, Encode, Denotes;
    if ts == [] {
      ps, g := [], f;
      assert f.kids + [] == f.kids;
    } else {
      AtSplit(b, it, Encode(ts[0]), EncodeKids(ts[1..]));
      var p := ScanTree(b, it, ts[0], fs, f, root);
      var f0 := EndProps(f, it);
      var f1 := f0.(kids := f0.kids + [p]);
      var more;
      more, g := ScanKids(b, it + |Encode(ts[0])|, ts[1..], fs, f1, root);
      ps := [p] + more;
      assert f.kids + [p] + more == f.kids + ps && ps[1..] == more;
    }
  }

  predicate Plain(s: seq<byte>) {
    forall i :: 0 <= i < |s| ==> !Special(s[i])
  }

  /** Plain bytes behind the root are passed over. */
  lemma {:induction false} ScanTrail(b: seq<byte>, it: nat, root: Parsed)
    requires it <= |b| && Plain(b[it..])
    ensures Scan(b, it, [], root) == Ok(root)
    decreases |b| - it
  {
    if it < |b| {
      assert !Special(b[it..][0]);
      assert b[it + 1..] == b[it..][1..];
      ScanTrail(b, it + 1, root);
    }
  }

  /** Parsing the encoding of any tree recovers it: types, order of children, properties. */
  lemma ParseInvertsEncode(id: seq<byte>, t: Tree, trail: seq<byte>) returns (p: Parsed)
    requires |id| == IDENTIFIER && Plain(trail) && |id + Encode(t) + trail| > MINIMAL
    ensures ParsedFile(id + Encode(t) + trail) == Ok(p) && Denotes(id + Encode(t) + trail, p, t)
  {
    hide Scan, Escape, Encode, EncodeKids, Denotes, At;
    var b := id + Encode(t) + trail;
    var props, kids := Escape(t.props), EncodeKids(t.kids);
    AtMiddle(id, Encode(t), trail);
    Layout(b, IDENTIFIER, t);
    var h := Opened(t.kind, 6);
    assert [] + [h] == [h];
    ScanProps(b, 6, t.props, [h], NO_NODE);
    var ps, h' := ScanKids(b, 6 + |props|, t.kids, [], h, NO_NODE);
    assert [] + [h'] == [h'];
    var it := 6 + |props| + |kids|;
    p := EndProps(h', it);
    StepRoot(b, it, h', NO_NODE);
    assert b[it + 1..] == trail;
    ScanTrail(b, it + 1, p);
    assert h'.kids == ps;
    PropsDenoted(b, 6, t, ps, p);
  }

  lemma StepRoot(b: seq<byte>, it: nat, h: Frame, root: Parsed)
    requires it < |b| && b[it] == END
    ensures Scan(b, it, [h], root) == Scan(b, it + 1, [], EndProps(h, it))
  {
  }

  /** The smallest file, a root with nothing in it, is refused for its length alone. */
  lemma BareRootRefused(id: seq<byte>, kind: byte)
    requires |id| == IDENTIFIER
    ensures ParsedFile(id + Encode(Tree(kind, [], []))) == Invalid
  {
  }

  // ---------------------------------------------------------------- the parser

  /** A node as it is stored: children are given by their places in the store. */
  datatype Node = Node(kind: byte, begin: nat, end: nat, children: seq<nat>)

  function Count(p: Parsed): nat
    decreases p
  {
    1 + Counts(p.kids)
  }

  function Counts(ps: seq<Parsed>): nat
    decreases ps
  {
    if ps == [] then 0 else Count(ps[0]) + Counts(ps[1..])
  }

  /** The finished node p is stored at place c, its descendants right behind it. */
  ghost predicate Stored(nodes: seq<Node>, c: nat, p: Parsed)
    decreases p
  {
    && c < |nodes| && nodes[c] == Node(p.kind, p.begin, p.end, nodes[c].children)
    && StoredKids(nodes, c + 1, nodes[c].children, p.kids)
  }

  ghost predicate StoredKids(nodes: seq<Node>, at: nat, children: seq<nat>, ps: seq<Parsed>)
    decreases ps
  {
    && |children| == |ps|
    && (ps != [] ==>
          children[0] == at && Stored(nodes, at, ps[0])
          && StoredKids(nodes, at + Count(ps[0]), children[1..], ps[1..]))
  }

  /** The s-th node of the stack. All but its last child are finished when another node is open
      above it, and that node is its last child. */
  ghost predicate OpenAt(nodes: seq<Node>, stack: seq<nat>, frames: seq<Frame>, s: nat)
    requires s < |stack| == |frames|
  {
    && stack[s] < |nodes|
    && var n, f := nodes[stack[s]], frames[s];
    && n.kind == f.kind && n.begin == f.begin && (f.kids != [] || s + 1 < |stack| ==> n.end == f.end)
    && if s + 1 < |stack| then
         && n.children != [] && n.children[|n.children| - 1] == stack[s + 1]
         && StoredKids(nodes, stack[s] + 1, n.children[..|n.children| - 1], f.kids)
         && stack[s] + 1 + Counts(f.kids) == stack[s + 1]
       else
         StoredKids(nodes, stack[s] + 1, n.children, f.kids) && stack[s] + 1 + Counts(f.kids) == |nodes|
  }

  ghost predicate Open(nodes: seq<Node>, stack: seq<nat>, frames: seq<Frame>) {
    && |stack| == |frames|
    && (stack != [] ==> stack[0] == 0)
    && (forall i, j :: 0 <= i < j < |stack| ==> stack[i] < stack[j])
    && forall s {:trigger OpenAt(nodes, stack, frames, s)} :: 0 <= s < |stack| ==> OpenAt(nodes, stack, frames, s)
  }

  /** Every node on the stack is the last child of the node below it. */
  lemma StackIsLastChildren(nodes: seq<Node>, stack: seq<nat>, frames: seq<Frame>, s: nat)
    requires Open(nodes, stack, frames) && s + 1 < |stack|
    ensures stack[s] < |nodes| && nodes[stack[s]].children != []
    ensures stack[s + 1] == nodes[stack[s]].children[|nodes[stack[s]].children| - 1]
  {
    assert OpenAt(nodes, stack, frames, s);
  }

  /** n steps from parent to child lead from a to c. */
  ghost predicate Leads(nodes: seq<Node>, a: nat, c: nat, n: nat)
    decreases n
  {
    && a < |nodes|
    && if n == 0 then a == c
       else exists i :: 0 <= i < |nodes[a].children| && Leads(nodes, nodes[a].children[i], c, n - 1)
  }

  /** A finished child and its descendants keep to the places of its parent's children. */
  lemma {:induction false} ChildStored(nodes: seq<Node>, at: nat, children: seq<nat>, ps: seq<Parsed>, i: nat)
    requires StoredKids(nodes, at, children, ps) && i < |children|
    ensures i < |ps| && Stored(nodes, children[i], ps[i])
    ensures at <= children[i] && children[i] + Count(ps[i]) <= at + Counts(ps)
    decreases i
  {
    hide Stored;
    if i > 0 {
      ChildStored(nodes, at + Count(ps[0]), children[1..], ps[1..], i - 1);
    }
  }

  lemma {:induction false} LeadsWithin(nodes: seq<Node>, a: nat, p: Parsed, c: nat, n: nat)
    requires Stored(nodes, a, p) && Leads(nodes, a, c, n)
    ensures a <= c < a + Count(p)
    decreases n
  {
    hide StoredKids;
    if n > 0 {
      var i :| 0 <= i < |nodes[a].children| && Leads(nodes, nodes[a].children[i], c, n - 1);
      ChildStored(nodes, a + 1, nodes[a].children, p.kids, i);
      LeadsWithin(nodes, nodes[a].children[i], p.kids[i], c, n - 1);
    }
  }

  /** No node of the stack is a child of the innermost one or lies below such a child, so what
      appending a child there moves about is never pointed at by the stack. */
  lemma AppendMovesNoStacked(nodes: seq<Node>, stack: seq<nat>, frames: seq<Frame>, i: nat, c: nat, n: nat)
    requires Open(nodes, stack, frames) && stack != []
    requires var top := stack[|stack| - 1];
      top < |nodes| && i < |nodes[top].children| && Leads(nodes, nodes[top].children[i], c, n)
    ensures c !in stack
  {
    hide StoredKids, Counts, Leads;
    var top, f := stack[|stack| - 1], frames[|stack| - 1];
    assert OpenAt(nodes, stack, frames, |stack| - 1);
    ChildStored(nodes, top + 1, nodes[top].children, f.kids, i);
    LeadsWithin(nodes, nodes[top].children[i], f.kids[i], c, n);
  }

  /** A finished node only depends on its own places. */
  lemma {:induction false} StoredFrame(nodes: seq<Node>, more: seq<Node>, c: nat, p: Parsed)
    requires Stored(nodes, c, p) && |nodes| <= |more|
    requires forall k :: c <= k < c + Count(p) && k < |nodes| ==> more[k] == nodes[k]
    ensures Stored(more, c, p)
    decreases p, 0
  {
    KidsFrame(nodes, more, c + 1, nodes[c].children, p.kids);
  }

  lemma {:induction false} KidsFrame(nodes: seq<Node>, more: seq<Node>, at: nat, children: seq<nat>, ps: seq<Parsed>)
    requires StoredKids(nodes, at, children, ps) && |nodes| <= |more|
    requires forall k :: at <= k < at + Counts(ps) && k < |nodes| ==> more[k] == nodes[k]
    ensures StoredKids(more, at, children, ps)
    decreases ps, 1
  {
    hide Stored;
    if ps != [] {
      StoredFrame(nodes, more, at, ps[0]);
      KidsFrame(nodes, more, at + Count(ps[0]), children[1..], ps[1..]);
    }
  }

  /** One more finished child behind the others. */
  lemma {:induction false} KidsMore(nodes: seq<Node>, at: nat, children: seq<nat>, ps: seq<Parsed>, p: Parsed)
    requires StoredKids(nodes, at, children, ps) && Stored(nodes, at + Counts(ps), p)
    ensures StoredKids(nodes, at, children + [at + Counts(ps)], ps + [p])
    ensures Counts(ps + [p]) == Counts(ps) + Count(p)
    decreases ps
  {
    hide Stored;
    if ps == [] {
      assert Counts([p]) == Count(p) + Counts([]);
      assert ps + [p] == [p] && [p][1..] == [] && (children + [at])[1..] == [];
    } else {
      KidsMore(nodes, at + Count(ps[0]), children[1..], ps[1..], p);
      assert (ps + [p])[1..] == ps[1..] + [p];
      assert (children + [at + Counts(ps)])[1..] == children[1..] + [at + Counts(ps)];
    }
  }

  function EndNode(n: Node, it: nat): Node {
    if n.children == [] then n.(end := it) else n
  }

  /** A node opens as the last child of the innermost one. */
  lemma OpenMore(nodes: seq<Node>, stack: seq<nat>, frames: seq<Frame>, it: nat, kind: byte)
    requires Open(nodes, stack, frames) && stack != []
    ensures var n := |stack| - 1; stack[n] < |nodes|
    ensures var n := |stack| - 1; var top := EndNode(nodes[stack[n]], it);
      Open(nodes[stack[n] := top.(children := top.children + [|nodes|])] + [Node(kind, it + 2, it + 2, [])],
           stack + [|nodes|], frames[..n] + [EndProps(frames[n], it), Opened(kind, it + 2)])
  {
    hide StoredKids, Counts;
    var n := |stack| - 1;
    assert OpenAt(nodes, stack, frames, n);
    var top := EndNode(nodes[stack[n]], it);
    var nodes' := nodes[stack[n] := top.(children := top.children + [|nodes|])] + [Node(kind, it + 2, it + 2, [])];
    var stack', frames' := stack + [|nodes|], frames[..n] + [EndProps(frames[n], it), Opened(kind, it + 2)];
    forall s | 0 <= s < |stack'| ensures OpenAt(nodes', stack', frames', s) {
      OpenMoreAt(nodes, stack, frames, it, kind, s);
    }
    SortedMore(nodes, stack, frames);
  }

  lemma SortedMore(nodes: seq<Node>, stack: seq<nat>, frames: seq<Frame>)
    requires Open(nodes, stack, frames) && stack != []
    ensures forall i, j :: 0 <= i < j < |stack + [|nodes|]| ==> (stack + [|nodes|])[i] < (stack + [|nodes|])[j]
  {
    hide StoredKids, Counts;
    forall i | 0 <= i < |stack| ensures stack[i] < |nodes| {
      assert OpenAt(nodes, stack, frames, i);
    }
  }

  lemma NoKids(nodes: seq<Node>, at: nat)
    ensures StoredKids(nodes, at, [], []) && Counts([]) == 0
  {
  }

  lemma SameNumber(nodes: seq<Node>, at: nat, children: seq<nat>, ps: seq<Parsed>)
    requires StoredKids(nodes, at, children, ps)
    ensures |children| == |ps|
  {
  }

  lemma OpenMoreAt(nodes: seq<Node>, stack: seq<nat>, frames: seq<Frame>, it: nat, kind: byte, s: nat)
    requires Open(nodes, stack, frames) && stack != [] && s <= |stack|
    ensures var n := |stack| - 1; stack[n] < |nodes|
    ensures var n := |stack| - 1; var top := EndNode(nodes[stack[n]], it);
      OpenAt(nodes[stack[n] := top.(children := top.children + [|nodes|])] + [Node(kind, it + 2, it + 2, [])],
             stack + [|nodes|], frames[..n] + [EndProps(frames[n], it), Opened(kind, it + 2)], s)
  {
    hide StoredKids, Counts;
    var n := |stack| - 1;
    assert OpenAt(nodes, stack, frames, n);
    var top := EndNode(nodes[stack[n]], it);
    var nodes' := nodes[stack[n] := top.(children := top.children + [|nodes|])] + [Node(kind, it + 2, it + 2, [])];
    NoKids(nodes', |nodes| + 1);
    SameNumber(nodes, stack[n] + 1, nodes[stack[n]].children, frames[n].kids);
    if s < n {
      assert OpenAt(nodes, stack, frames, s);
      var m := nodes[stack[s]];
      KidsFrame(nodes, nodes', stack[s] + 1, m.children[..|m.children| - 1], frames[s].kids);
    } else if s == n {
      KidsFrame(nodes, nodes', stack[n] + 1, nodes[stack[n]].children, frames[n].kids);
      assert (top.children + [|nodes|])[..|top.children|] == top.children;
    }
  }

  /** The innermost node closes. */
  lemma OpenLess(nodes: seq<Node>, stack: seq<nat>, frames: seq<Frame>, it: nat, root: Parsed)
    requires Open(nodes, stack, frames) && stack != []
    ensures var n := |stack| - 1; stack[n] < |nodes|
    ensures var n := |stack| - 1;
      var nodes', next := nodes[stack[n] := EndNode(nodes[stack[n]], it)], Popped(frames, root, it);
      && Open(nodes', stack[..n], next.0) && (n == 0 ==> Stored(nodes', 0, next.1))
  {
    hide StoredKids, Counts, Stored;
    var n := |stack| - 1;
    assert OpenAt(nodes, stack, frames, n);
    var nodes', next := nodes[stack[n] := EndNode(nodes[stack[n]], it)], Popped(frames, root, it);
    TopStored(nodes, stack, frames, it);
    forall s | 0 <= s < n ensures OpenAt(nodes', stack[..n], next.0, s) {
      OpenLessAt(nodes, stack, frames, it, root, s);
    }
  }

  lemma TopStored(nodes: seq<Node>, stack: seq<nat>, frames: seq<Frame>, it: nat)
    requires Open(nodes, stack, frames) && stack != []
    ensures var n := |stack| - 1; stack[n] < |nodes|
    ensures var n := |stack| - 1; var done := EndProps(frames[n], it);
      && Stored(nodes[stack[n] := EndNode(nodes[stack[n]], it)], stack[n], done)
      && stack[n] + Count(done) == |nodes|
  {
    hide StoredKids, Counts;
    var n := |stack| - 1;
    assert OpenAt(nodes, stack, frames, n);
    var nodes' := nodes[stack[n] := EndNode(nodes[stack[n]], it)];
    SameNumber(nodes, stack[n] + 1, nodes[stack[n]].children, frames[n].kids);
    KidsFrame(nodes, nodes', stack[n] + 1, nodes[stack[n]].children, frames[n].kids);
  }

  lemma OpenLessAt(nodes: seq<Node>, stack: seq<nat>, frames: seq<Frame>, it: nat, root: Parsed, s: nat)
    requires Open(nodes, stack, frames) && s < |stack| - 1
    ensures var n := |stack| - 1; stack[n] < |nodes|
    ensures var n := |stack| - 1;
      OpenAt(nodes[stack[n] := EndNode(nodes[stack[n]], it)], stack[..n], Popped(frames, root, it).0, s)
  {
    hide StoredKids, Counts, Stored;
    var n := |stack| - 1;
    assert OpenAt(nodes, stack, frames, n) && OpenAt(nodes, stack, frames, s);
    var nodes' := nodes[stack[n] := EndNode(nodes[stack[n]], it)];
    var m := nodes[stack[s]];
    var done := EndProps(frames[n], it);
    KidsFrame(nodes, nodes', stack[s] + 1, m.children[..|m.children| - 1], frames[s].kids);
    if s == n - 1 {
      TopStored(nodes, stack, frames, it);
      KidsMore(nodes', stack[s] + 1, m.children[..|m.children| - 1], frames[s].kids, done);
      assert m.children[..|m.children| - 1] + [stack[n]] == m.children;
    }
  }

  lemma OpenTop(nodes: seq<Node>, stack: seq<nat>, frames: seq<Frame>)
    requires Open(nodes, stack, frames)
    ensures |stack| == |frames| && (stack != [] ==> stack[|stack| - 1] < |nodes|)
  {
    if stack != [] {
      assert OpenAt(nodes, stack, frames, |stack| - 1);
    }
  }

  lemma OpenRoot(kind: byte)
    ensures Open([Node(kind, IDENTIFIER + 2, IDENTIFIER + 2, [])], [0], [Opened(kind, IDENTIFIER + 2)])
  {
  }

  predicate Recognised(b: seq<byte>, accepted: seq<byte>) {
    |b| > MINIMAL && (b[..IDENTIFIER] == accepted || b[..IDENTIFIER] == [0, 0, 0, 0])
  }

  class Loader {
    const fileContents: seq<byte>
    var nodes: seq<Node>
    var parseStack: seq<nat>

    constructor (fileContents: seq<byte>)
      ensures this.fileContents == fileContents
    {
      this.fileContents, nodes, parseStack := fileContents, [], [];
    }

    method OpenNode(it: nat, ghost frames: seq<Frame>)
      requires it + 1 < |fileContents| && parseStack != [] && Open(nodes, parseStack, frames)
      modifies this
      ensures var n := |frames| - 1;
        Open(nodes, parseStack, frames[..n] + [EndProps(frames[n], it), Opened(fileContents[it + 1], it + 2)])
    {
      hide Open;
      OpenTop(nodes, parseStack, frames);
      OpenMore(nodes, parseStack, frames, it, fileContents[it + 1]);
      var current := parseStack[|parseStack| - 1];
      var node := nodes[current];
      if node.children == [] {
        node := node.(end := it);
      }
      var child := |nodes|;
      nodes := nodes[current := node.(children := node.children + [child])] + [Node(fileContents[it + 1], it + 2, it + 2, [])];
      parseStack := parseStack + [child];
    }

    method CloseNode(it: nat, ghost frames: seq<Frame>, ghost root: Parsed)
      requires parseStack != [] && Open(nodes, parseStack, frames)
      modifies this
      ensures frames != [] && var next := Popped(frames, root, it);
        Open(nodes, parseStack, next.0) && (next.0 == [] ==> Stored(nodes, 0, next.1))
    {
      hide Open, Stored;
      OpenTop(nodes, parseStack, frames);
      OpenLess(nodes, parseStack, frames, it, root);
      var current := parseStack[|parseStack| - 1];
      assert nodes[current := nodes[current]] == nodes;
      assert Popped(frames, root, it).0 == [] ==> |parseStack| == 1;
      if nodes[current].children == [] {
        nodes := nodes[current := nodes[current].(end := it)];
      }
      parseStack := parseStack[..|parseStack| - 1];
    }

    /** Parses the whole file, keeping the open nodes on a stack. */
    method ParseTree() returns (ok: bool)
      requires |fileContents| > MINIMAL
      modifies this
      ensures ok == ParsedFile(fileContents).Ok?
      ensures ok ==> Stored(nodes, 0, ParsedFile(fileContents).root)
    {
      hide Open, Stored, Popped;
      ghost var goal := ParsedFile(fileContents);
      if fileContents[IDENTIFIER] != START {
        return false;
      }
      var it := IDENTIFIER + 2;
      var kind := fileContents[IDENTIFIER + 1];
      nodes, parseStack := [Node(kind, it, it, [])], [0];
      ghost var frames, root := [Opened(kind, it)], NO_NODE;
      OpenRoot(kind);
      while it < |fileContents|
        invariant it <= |fileContents| && goal == Scan(fileContents, it, frames, root)
        invariant Open(nodes, parseStack, frames) && (frames == [] ==> Stored(nodes, 0, root))
      {
        OpenTop(nodes, parseStack, frames);
        var c := fileContents[it];
        if c == START {
          if parseStack == [] || it + 1 == |fileContents| {
            return false;
          }
          OpenNode(it, frames);
          ghost var n := |frames| - 1;
          frames := frames[..n] + [EndProps(frames[n], it), Opened(fileContents[it + 1], it + 2)];
          it := it + 2;
        } else if c == END {
          if parseStack == [] {
            return false;
          }
          CloseNode(it, frames, root);
          ghost var next := Popped(frames, root, it);
          frames, root := next.0, next.1;
          it := it + 1;
        } else if c == ESCAPE {
          if it + 1 == |fileContents| {
            return false;
          }
          it := it + 2;
        } else {
          it := it + 1;
        }
      }
      OpenTop(nodes, parseStack, frames);
      ok := parseStack == [];
    }

    /** The unescaped property bytes of a node, if it has any. */
    method GetProps(node: Node) returns (ok: bool, props: seq<byte>)
      requires node.begin <= node.end <= |fileContents|
      ensures ok == (node.begin < node.end)
      ensures props == Unescape(fileContents[node.begin..node.end], false)
    {
      ghost var raw := fileContents[node.begin..node.end];
      if node.begin == node.end {
        return false, [];
      }
      var lastEscaped := false;
      props := [];
      var it := node.begin;
      while it < node.end
        invariant node.begin <= it <= node.end
        invariant props + Unescape(fileContents[it..node.end], lastEscaped) == Unescape(raw, false)
      {
        var c := fileContents[it];
        assert fileContents[it..node.end] == [c] + fileContents[it + 1..node.end];
        lastEscaped := c == ESCAPE && !lastEscaped;
        if !lastEscaped {
          props := props + [c];
        }
        it := it + 1;
      }
      ok := true;
    }
  }

  /** A stored node that denotes a tree gives the tree's properties, and reports none exactly when
      the tree has none. */
  lemma NodeGivesProps(b: seq<byte>, nodes: seq<Node>, c: nat, p: Parsed, t: Tree)
    requires Stored(nodes, c, p) && Denotes(b, p, t)
    ensures c < |nodes| && nodes[c].kind == t.kind && |nodes[c].children| == |t.kids|
    ensures nodes[c].begin <= nodes[c].end <= |b| && Unescape(b[nodes[c].begin..nodes[c].end], false) == t.props
    ensures nodes[c].begin == nodes[c].end <==> t.props == []
  {
    UnescapeInverts(t.props);
    if t.props != [] {
      EscapeStep(t.props);
    }
  }

  /** A file is opened when it is long enough and carries the expected identifier, or none. */
  method OpenFile(contents: seq<byte>, accepted: seq<byte>) returns (loader: Loader?)
    ensures loader != null <==> Recognised(contents, accepted)
    ensures loader != null ==> fresh(loader) && loader.fileContents == contents
  {
    if |contents| <= MINIMAL {
      return null;
    }
    var identifier := contents[..IDENTIFIER];
    if identifier != accepted && identifier != [0, 0, 0, 0] {
      return null;
    }
    loader := new Loader(contents);
  }

  /** Writing a tree to a file and parsing it: the store holds the tree from place 0 on. */
  method ParseEncoded(id: seq<byte>, t: Tree, trail: seq<byte>) returns (loader: Loader)
    requires |id| == IDENTIFIER && Plain(trail) && |Encode(t)| + |trail| > MINIMAL - IDENTIFIER
    ensures loader.fileContents == id + Encode(t) + trail
    ensures exists p :: Stored(loader.nodes, 0, p) && Denotes(loader.fileContents, p, t)
  {
    hide Stored, Denotes, Encode, ParsedFile, Plain;
    ghost var p := ParseInvertsEncode(id, t, trail);
    assert (id + Encode(t) + trail)[..IDENTIFIER] == id;
    var found := OpenFile(id + Encode(t) + trail, id);
    loader := found;
    var ok := loader.ParseTree();
  }
}
