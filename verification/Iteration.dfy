/** The container iterator: a queue of containers and a cursor into the front one. */
module Iteration {
  import opened Forest
  import opened ForestTree

  // ---------------------------------------------------------------- orders on trees

  function Roots(ts: seq<Tree>): (s: seq<Item>)
    ensures |s| == |ts|
  {
    if ts == [] then [] else [ts[0].item] + Roots(ts[1..])
  }

  function AllKids(ts: seq<Tree>): seq<Tree> {
    if ts == [] then [] else ts[0].kids + AllKids(ts[1..])
  }

  function Size(t: Tree): nat {
    1 + Sizes(t.kids)
  }

  function Sizes(ts: seq<Tree>): nat {
    if ts == [] then 0 else Size(ts[0]) + Sizes(ts[1..])
  }

  lemma {:induction false} SizesSplit(a: seq<Tree>, b: seq<Tree>)
    ensures Sizes(a + b) == Sizes(a) + Sizes(b)
    decreases |a|
  {
    if a == [] {
      assert a + b == b;
    } else {
      SizesSplit(a[1..], b);
      assert (a + b)[1..] == a[1..] + b;
    }
  }

  lemma {:induction false} SizesByLevel(ts: seq<Tree>)
    ensures Sizes(ts) == |ts| + Sizes(AllKids(ts))
    decreases |ts|
  {
    if ts != [] {
      SizesByLevel(ts[1..]);
      SizesSplit(ts[0].kids, AllKids(ts[1..]));
    }
  }

  /** Breadth first, level by level. */
  function LevelOrder(ts: seq<Tree>): seq<Item>
    decreases Sizes(ts)
  {
    if ts == [] then [] else SizesByLevel(ts); Roots(ts) + LevelOrder(AllKids(ts))
  }

  /** Breadth first with a queue: the children of the tree visited go to the end. */
  function QueueOrder(ts: seq<Tree>): seq<Item>
    decreases Sizes(ts)
  {
    if ts == [] then []
    else
      SizesSplit(ts[1..], ts[0].kids);
      assert Sizes(ts) == Size(ts[0]) + Sizes(ts[1..]) && Size(ts[0]) == 1 + Sizes(ts[0].kids);
      [ts[0].item] + QueueOrder(ts[1..] + ts[0].kids)
  }

  /** Depth first: every tree in turn, an item before what it holds. */
  function DepthOrder(ts: seq<Tree>): seq<Item> {
    if ts == [] then [] else [ts[0].item] + DepthOrder(ts[0].kids) + DepthOrder(ts[1..])
  }

  lemma {:induction false} QueueServesFront(a: seq<Tree>, b: seq<Tree>)
    ensures QueueOrder(a + b) == Roots(a) + QueueOrder(b + AllKids(a))
    decreases |a|
  {
    if a == [] {
      assert a + b == b && b + AllKids(a) == b;
      assert Roots(a) + QueueOrder(b) == QueueOrder(b);
    } else {
      assert (a + b)[1..] + a[0].kids == a[1..] + (b + a[0].kids);
      QueueServesFront(a[1..], b + a[0].kids);
      assert b + a[0].kids + AllKids(a[1..]) == b + AllKids(a);
      assert Roots(a) == [a[0].item] + Roots(a[1..]);
      assert [a[0].item] + (Roots(a[1..]) + QueueOrder(b + AllKids(a))) == Roots(a) + QueueOrder(b + AllKids(a));
    }
  }

  /** The queue visits level after level. */
  lemma {:induction false} QueueIsLevelOrder(ts: seq<Tree>)
    ensures QueueOrder(ts) == LevelOrder(ts)
    decreases Sizes(ts)
  {
    if ts != [] {
      SizesByLevel(ts);
      assert ts + [] == ts && [] + AllKids(ts) == AllKids(ts);
      QueueServesFront(ts, []);
      QueueIsLevelOrder(AllKids(ts));
    }
  }

  lemma {:induction false} DepthSplit(a: seq<Tree>, b: seq<Tree>)
    ensures DepthOrder(a + b) == DepthOrder(a) + DepthOrder(b)
    decreases |a|
  {
    if a == [] {
      assert a + b == b;
    } else {
      DepthSplit(a[1..], b);
      assert (a + b)[1..] == a[1..] + b && (a + b)[0] == a[0];
      assert [a[0].item] + DepthOrder(a[0].kids) + (DepthOrder(a[1..]) + DepthOrder(b))
        == [a[0].item] + DepthOrder(a[0].kids) + DepthOrder(a[1..]) + DepthOrder(b);
    }
  }

  lemma QueueStep(ts: seq<Tree>)
    requires ts != []
    ensures Sizes(ts[1..] + ts[0].kids) == Sizes(ts) - 1
    ensures QueueOrder(ts) == [ts[0].item] + QueueOrder(ts[1..] + ts[0].kids)
  {
    SizesSplit(ts[1..], ts[0].kids);
    assert Sizes(ts) == Size(ts[0]) + Sizes(ts[1..]) && Size(ts[0]) == 1 + Sizes(ts[0].kids);
  }

  /** Breadth first and depth first visit the same items equally often. */
  lemma {:induction false} QueueVisitsAll(ts: seq<Tree>)
    ensures multiset(QueueOrder(ts)) == multiset(DepthOrder(ts))
    ensures |QueueOrder(ts)| == Sizes(ts)
    decreases Sizes(ts)
  {
    if ts != [] {
      var t, rest := ts[0], ts[1..];
      QueueStep(ts);
      QueueVisitsAll(rest + t.kids);
      DepthSplit(rest, t.kids);
      assert multiset(DepthOrder(ts)) == multiset([t.item]) + multiset(DepthOrder(t.kids)) + multiset(DepthOrder(rest));
    }
  }

  // ---------------------------------------------------------------- the heap as trees

  lemma ItemsAreChildren(h: Heap, c: Item)
    requires Shaped(h) && c in h
    ensures ChildrenOf(h, c, h[c].items)
    ensures forall i :: 0 <= i <= |h[c].items| ==> ChildrenOf(h, c, h[c].items[i..])
  {
  }

  /** The subtrees still to be visited: the rest of the front container, then the others. */
  ghost function PendingAll(h: Heap, over: seq<Item>): seq<Tree>
    requires Shaped(h) && forall i :: 0 <= i < |over| ==> over[i] in h
    decreases |over|
  {
    if over == [] then [] else TreeOf(h, over[0]).kids + PendingAll(h, over[1..])
  }

  lemma {:induction false} PendingSnoc(h: Heap, over: seq<Item>, c: Item)
    requires Shaped(h) && c in h && forall i :: 0 <= i < |over| ==> over[i] in h
    ensures PendingAll(h, over + [c]) == PendingAll(h, over) + TreeOf(h, c).kids
    decreases |over|
  {
    if over == [] {
      assert over + [c] == [c] && [c][1..] == [];
    } else {
      PendingSnoc(h, over[1..], c);
      assert (over + [c])[1..] == over[1..] + [c];
    }
  }

  ghost predicate Ready(h: Heap, over: seq<Item>, cur: nat) {
    && (forall i :: 0 <= i < |over| ==> over[i] in h && h[over[i]].items != [])
    && (over != [] ==> cur < |h[over[0]].items|)
  }

  ghost function Pending(h: Heap, over: seq<Item>, cur: nat): seq<Tree>
    requires Shaped(h) && Ready(h, over, cur)
  {
    if over == [] then []
    else ItemsAreChildren(h, over[0]); TreesOf(h, over[0], h[over[0]].items[cur..]) + PendingAll(h, over[1..])
  }

  lemma PendingCons(h: Heap, over: seq<Item>, cur: nat)
    requires Shaped(h) && Ready(h, over, cur) && over != []
    ensures h[over[0]].items[cur] in h && ChildrenOf(h, over[0], h[over[0]].items[cur + 1..])
    ensures Pending(h, over, cur) == [TreeOf(h, h[over[0]].items[cur])]
      + (TreesOf(h, over[0], h[over[0]].items[cur + 1..]) + PendingAll(h, over[1..]))
  {
    var c, x := over[0], h[over[0]].items[cur];
    ItemsAreChildren(h, c);
    var s := h[c].items[cur..];
    assert s[0] == x && s[1..] == h[c].items[cur + 1..];
    ChildAbove(h, c, x);
    assert TreesOf(h, c, s) == [TreeOf(h, x)] + TreesOf(h, c, s[1..]);
  }

  /** The queue of containers after visiting x. */
  ghost function Queued(h: Heap, over: seq<Item>, x: Item): seq<Item>
    requires x in h
  {
    if h[x].items != [] then over + [x] else over
  }

  lemma QueuedPending(h: Heap, over: seq<Item>, x: Item)
    requires Shaped(h) && x in h && over != [] && forall i :: 0 <= i < |over| ==> over[i] in h
    ensures Queued(h, over, x)[0] == over[0]
    ensures PendingAll(h, Queued(h, over, x)[1..]) == PendingAll(h, over[1..]) + TreeOf(h, x).kids
  {
    if h[x].items != [] {
      PendingSnoc(h, over[1..], x);
      assert (over + [x])[1..] == over[1..] + [x];
    } else {
      assert TreeOf(h, x).kids == [];
    }
  }

  lemma Reassociate(p: seq<Tree>, t: Tree, a: seq<Tree>, b: seq<Tree>)
    requires p == [t] + (a + b)
    ensures p != [] && p[0] == t && p[1..] + t.kids == a + (b + t.kids)
  {
    assert p[1..] == a + b;
  }

  /** Moving on serves the front of the queue of pending subtrees. */
  lemma AdvancePending(h: Heap, over: seq<Item>, cur: nat)
    requires Shaped(h) && Ready(h, over, cur) && over != []
    ensures h[over[0]].items[cur] in h
    ensures var x, p := h[over[0]].items[cur], Pending(h, over, cur);
      var more := Queued(h, over, x);
      && p != [] && p[0] == TreeOf(h, x)
      && if cur + 1 < |h[over[0]].items| then Ready(h, more, cur + 1) && Pending(h, more, cur + 1) == p[1..] + p[0].kids
         else Ready(h, more[1..], 0) && Pending(h, more[1..], 0) == p[1..] + p[0].kids
  {
    hide TreeOf, TreesOf, PendingAll, Shaped;
    var c, x := over[0], h[over[0]].items[cur];
    PendingCons(h, over, cur);
    QueuedPending(h, over, x);
    var more := Queued(h, over, x);
    var a := TreesOf(h, c, h[c].items[cur + 1..]);
    Reassociate(Pending(h, over, cur), TreeOf(h, x), a, PendingAll(h, over[1..]));
    if cur + 1 >= |h[c].items| {
      NoTrees(h, c, h[c].items[cur + 1..]);
      assert a + PendingAll(h, more[1..]) == PendingAll(h, more[1..]);
      FrontOfPending(h, more[1..]);
    }
  }

  lemma NoTrees(h: Heap, c: Item, s: seq<Item>)
    requires Shaped(h) && c in h && ChildrenOf(h, c, s) && s == []
    ensures TreesOf(h, c, s) == []
  {
  }

  lemma FrontOfPending(h: Heap, over: seq<Item>)
    requires Shaped(h) && Ready(h, over, 0)
    ensures Pending(h, over, 0) == PendingAll(h, over)
  {
    if over != [] {
      ItemsAreChildren(h, over[0]);
      assert h[over[0]].items[0..] == h[over[0]].items;
    }
  }

  // ---------------------------------------------------------------- every descendant, once

  lemma {:induction false} ChainUp(h: Heap, y: Item, n: nat, z: Item)
    requires AtDepth(h, y, n) && z in Chain(h, y, n) && z in h && h[z].parent != null
    ensures h[z].parent in Chain(h, y, n)
    decreases n
  {
    if z != y {
      ChainUp(h, h[y].parent, n - 1, z);
    }
  }

  /** The item just below x on the way from y up to x. */
  lemma {:induction false} ChainDown(h: Heap, y: Item, n: nat, x: Item) returns (z: Item)
    requires AtDepth(h, y, n) && x in Chain(h, y, n) && x != y
    ensures z in Chain(h, y, n) && z in h && h[z].parent == x
    decreases n
  {
    if h[y].parent == x {
      z := y;
    } else {
      z := ChainDown(h, h[y].parent, n - 1, x);
    }
  }

  lemma AboveIsShallower(h: Heap, y: Item, n: nat, z: Item, m: nat)
    requires AtDepth(h, y, n) && z in Chain(h, y, n) && z != y && AtDepth(h, z, m)
    ensures m < n
  {
    ChainDepth(h, y, n, z);
    var k: nat :| k <= n && AtDepth(h, z, k) && (z == y || k < n);
    DepthUnique(h, z, k, m);
  }

  lemma {:induction false} ChainSameDepth(h: Heap, y: Item, n: nat, a: Item, b: Item, m: nat)
    requires AtDepth(h, y, n) && a in Chain(h, y, n) && b in Chain(h, y, n) && AtDepth(h, a, m) && AtDepth(h, b, m)
    ensures a == b
    decreases n
  {
    if a == y || b == y {
      DepthUnique(h, y, n, m);
      if a != y {
        AboveIsShallower(h, y, n, a, m);
      } else if b != y {
        AboveIsShallower(h, y, n, b, m);
      }
    } else {
      ChainSameDepth(h, h[y].parent, n - 1, a, b, m);
    }
  }

  ghost predicate Leads(h: Heap, s: seq<Item>, y: Item)
    requires Rooted(h, y)
  {
    exists i :: 0 <= i < |s| && s[i] in Above(h, y)
  }

  lemma ChildrenLead(h: Heap, x: Item, y: Item)
    requires Shaped(h) && x in h && y in h && Rooted(h, y)
    ensures Leads(h, h[x].items, y) <==> x != y && x in Above(h, y)
  {
    var n := Depth(h, y);
    if x != y && x in Above(h, y) {
      var z := ChainDown(h, y, n, x);
      var i :| 0 <= i < |h[x].items| && h[x].items[i] == z;
    }
    if Leads(h, h[x].items, y) {
      var i :| 0 <= i < |h[x].items| && h[x].items[i] in Above(h, y);
      ChainUp(h, y, n, h[x].items[i]);
      ChildOffPath(h, x, i);
    }
  }

  lemma SiblingsApart(h: Heap, c: Item, s: seq<Item>, y: Item)
    requires Shaped(h) && c in h && y in h && Rooted(h, y) && ChildrenOf(h, c, s) && NoDup(s) && s != [] && s[0] in Above(h, y)
    ensures !Leads(h, s[1..], y)
  {
    if Leads(h, s[1..], y) {
      var i :| 0 <= i < |s[1..]| && s[1..][i] in Above(h, y);
      assert Rooted(h, c);
      var m := Depth(h, c) + 1;
      assert AtDepth(h, s[0], m) && AtDepth(h, s[i + 1], m);
      ChainSameDepth(h, y, Depth(h, y), s[0], s[i + 1], m);
    }
  }

  /** The trees below some children of c visit y once if one of those children is y or above it,
      and never otherwise. */
  lemma {:induction false} VisitedOnce(h: Heap, c: Item, s: seq<Item>, y: Item)
    requires Shaped(h) && c in h && y in h && Rooted(h, y) && ChildrenOf(h, c, s) && NoDup(s)
    ensures multiset(DepthOrder(TreesOf(h, c, s)))[y] == if Leads(h, s, y) then 1 else 0
    decreases Rest(h, c), |s|
  {
    hide Above, Acyclic, ChildrenLinked, ParentsLinked, ListsDistinct, Rest, Leads, DepthOrder;
    if s == [] {
      NothingLeads(h, y);
    } else {
      var x, rest := s[0], s[1..];
      FirstChild(h, c, s);
      ItemsAreChildren(h, x);
      ListedOnce(h, x);
      VisitedOnce(h, x, h[x].items, y);
      VisitedOnce(h, c, rest, y);
      ChildrenLead(h, x, y);
      LeadsSplit(h, s, y);
      if x in Above(h, y) {
        SiblingsApart(h, c, s, y);
      }
      SelfAbove(h, y);
      VisitCons(TreeOf(h, x), TreesOf(h, c, rest), y);
    }
  }

  lemma NothingLeads(h: Heap, y: Item)
    requires Rooted(h, y)
    ensures !Leads(h, [], y) && DepthOrder([]) == []
  {
  }

  lemma RestShrinks(h: Heap, c: Item, x: Item)
    requires Shaped(h) && c in h && x in h && h[x].parent == c
    ensures Rest(h, x) < Rest(h, c)
  {
    ChildAbove(h, c, x);
  }

  lemma ListedOnce(h: Heap, x: Item)
    requires Shaped(h) && x in h
    ensures NoDup(h[x].items)
  {
  }

  lemma SelfAbove(h: Heap, y: Item)
    requires Rooted(h, y)
    ensures y in Above(h, y)
  {
  }

  lemma LeadsSplit(h: Heap, s: seq<Item>, y: Item)
    requires Rooted(h, y) && s != []
    ensures Leads(h, s, y) <==> s[0] in Above(h, y) || Leads(h, s[1..], y)
  {
    if Leads(h, s[1..], y) {
      var i :| 0 <= i < |s[1..]| && s[1..][i] in Above(h, y);
      assert s[i + 1] in Above(h, y);
    }
    if Leads(h, s, y) && s[0] !in Above(h, y) {
      var i :| 0 <= i < |s| && s[i] in Above(h, y);
      assert s[1..][i - 1] in Above(h, y);
    }
  }

  lemma VisitCons(t: Tree, ts: seq<Tree>, y: Item)
    ensures multiset(DepthOrder([t] + ts))[y]
      == (if t.item == y then 1 else 0) + multiset(DepthOrder(t.kids))[y] + multiset(DepthOrder(ts))[y]
  {
    assert ([t] + ts)[1..] == ts;
    assert multiset(DepthOrder([t] + ts)) == multiset([t.item]) + multiset(DepthOrder(t.kids)) + multiset(DepthOrder(ts));
  }

  /** The items strictly below c. */
  ghost function Below(h: Heap, c: Item): set<Item>
    requires Acyclic(h)
  {
    set y | y in h && y != c && (assert Rooted(h, y); c in Above(h, y))
  }

  /** Listing what c holds visits exactly the items strictly below c, each of them once. */
  lemma HoldsDescendantsOnce(h: Heap, c: Item)
    requires Shaped(h) && c in h
    ensures forall y :: y in h ==> multiset(DepthOrder(TreeOf(h, c).kids))[y] == if y in Below(h, c) then 1 else 0
  {
    forall y | y in h ensures multiset(DepthOrder(TreeOf(h, c).kids))[y] == if y in Below(h, c) then 1 else 0 {
      assert Rooted(h, y);
      ItemsAreChildren(h, c);
      ListedOnce(h, c);
      VisitedOnce(h, c, h[c].items, y);
      ChildrenLead(h, c, y);
    }
  }

  lemma {:induction false} VisitsStayInHeap(h: Heap, c: Item, s: seq<Item>)
    requires Shaped(h) && c in h && ChildrenOf(h, c, s)
    ensures forall y :: y in DepthOrder(TreesOf(h, c, s)) ==> y in h
    decreases Rest(h, c), |s|
  {
    if s != [] {
      RestShrinks(h, c, s[0]);
      ItemsAreChildren(h, s[0]);
      VisitsStayInHeap(h, s[0], h[s[0]].items);
      VisitsStayInHeap(h, c, s[1..]);
      var t := TreeOf(h, s[0]);
      assert TreesOf(h, c, s) == [t] + TreesOf(h, c, s[1..]);
      assert DepthOrder(TreesOf(h, c, s)) == [t.item] + DepthOrder(t.kids) + DepthOrder(TreesOf(h, c, s[1..]));
    }
  }

  /** The holding count is the number of items strictly below. */
  lemma HoldingCountIsBelow(h: Heap, c: Item)
    requires Shaped(h) && c in h
    ensures Sizes(TreeOf(h, c).kids) == |Below(h, c)|
    ensures multiset(DepthOrder(TreeOf(h, c).kids)) == multiset(Below(h, c))
  {
    hide TreeOf, DepthOrder, QueueOrder, Sizes, ChildrenLinked, ParentsLinked;
    var ts := TreeOf(h, c).kids;
    HoldsDescendantsOnce(h, c);
    TreeItems(h, c);
    QueueVisitsAll(ts);
    SameLength(QueueOrder(ts), DepthOrder(ts));
    OncePerElement(DepthOrder(ts), Below(h, c));
  }

  lemma TreeItems(h: Heap, c: Item)
    requires Shaped(h) && c in h
    ensures forall i :: 0 <= i < |DepthOrder(TreeOf(h, c).kids)| ==> DepthOrder(TreeOf(h, c).kids)[i] in Below(h, c)
  {
    ItemsAreChildren(h, c);
    VisitsStayInHeap(h, c, h[c].items);
    HoldsDescendantsOnce(h, c);
    var s := DepthOrder(TreeOf(h, c).kids);
    forall i | 0 <= i < |s| ensures s[i] in Below(h, c) {
      assert s[i] in s && s[i] in multiset(s);
    }
  }

  lemma SameLength(a: seq<Item>, b: seq<Item>)
    requires multiset(a) == multiset(b)
    ensures |a| == |b|
  {
    assert |multiset(a)| == |a| && |multiset(b)| == |b|;
  }

  /** A list that has every element of a set once, and nothing else. */
  lemma {:induction false} OncePerElement(s: seq<Item>, b: set<Item>)
    requires forall i :: 0 <= i < |s| ==> s[i] in b
    requires forall y :: y in b ==> multiset(s)[y] == 1
    ensures |s| == |b| && multiset(s) == multiset(b)
    decreases |s|
  {
    if s == [] {
      assert b == {} by {
        assert forall y :: y in b ==> y in multiset(s);
      }
    } else {
      var x, rest := s[0], s[1..];
      assert s == [x] + rest && multiset(s) == multiset([x]) + multiset(rest);
      assert x in b && multiset(rest)[x] == 0;
      forall i | 0 <= i < |rest| ensures rest[i] in b - {x} {
        assert rest[i] == s[i + 1] && rest[i] in multiset(rest);
      }
      OncePerElement(rest, b - {x});
      assert multiset(b) == multiset{x} + multiset(b - {x});
    }
  }

  // ---------------------------------------------------------------- the iterator

  class ContainerIterator {
    var over: seq<Item>
    var cur: nat

    constructor (c: Item, ghost s: set<Item>)
      requires Shaped(Snapshot(s)) && c in s
      ensures Ready(Snapshot(s), over, cur) && Pending(Snapshot(s), over, cur) == TreeOf(Snapshot(s), c).kids
    {
      over, cur := if c.items != [] then [c] else [], 0;
      new;
      FrontOfPending(Snapshot(s), over);
      assert [c][1..] == [];
    }

    predicate HasNext()
      reads this
    {
      over != []
    }

    method Current(ghost s: set<Item>) returns (x: Item)
      requires Shaped(Snapshot(s)) && Ready(Snapshot(s), over, cur) && HasNext()
      ensures var p := Pending(Snapshot(s), over, cur); p != [] && x == p[0].item && x in s
    {
      AdvancePending(Snapshot(s), over, cur);
      assert Snapshot(s)[over[0]] == over[0].State();
      x := over[0].items[cur];
    }

    method Advance(ghost s: set<Item>)
      requires Shaped(Snapshot(s)) && Ready(Snapshot(s), over, cur) && HasNext()
      modifies this
      ensures Ready(Snapshot(s), over, cur)
      ensures var p := old(Pending(Snapshot(s), over, cur));
        p != [] && Pending(Snapshot(s), over, cur) == p[1..] + p[0].kids
    {
      hide Pending;
      ghost var h := Snapshot(s);
      AdvancePending(h, over, cur);
      assert h[over[0]] == over[0].State();
      var i := over[0].items[cur];
      assert h[i] == i.State();
      if i.kind.container {
        if i.items != [] {
          over := over + [i];
        }
      }
      assert over == Queued(h, old(over), i);
      cur := cur + 1;
      if cur == |over[0].items| {
        over, cur := over[1..], 0;
      }
      assert Snapshot(s) == h;
    }
  }

  // ---------------------------------------------------------------- its users

  /** The number of items held, at any depth. */
  method GetItemHoldingCount(c: Item, ghost s: set<Item>) returns (counter: nat)
    requires Shaped(Snapshot(s)) && c in s
    ensures counter == Sizes(TreeOf(Snapshot(s), c).kids)
  {
    hide Shaped, TreeOf, Pending, Ready, Sizes;
    ghost var h := Snapshot(s);
    counter := 0;
    var it := new ContainerIterator(c, s);
    while it.HasNext()
      invariant Snapshot(s) == h && Ready(h, it.over, it.cur)
      invariant counter + Sizes(Pending(h, it.over, it.cur)) == Sizes(TreeOf(h, c).kids)
      decreases Sizes(Pending(h, it.over, it.cur))
    {
      ghost var p := Pending(h, it.over, it.cur);
      it.Advance(s);
      QueueStep(p);
      counter := counter + 1;
    }
    NothingPending(h, it.over, it.cur);
  }

  lemma NothingPending(h: Heap, over: seq<Item>, cur: nat)
    requires Shaped(h) && Ready(h, over, cur) && over == []
    ensures Pending(h, over, cur) == [] && Sizes([]) == 0 && QueueOrder([]) == []
  {
  }

  method IsHoldingItem(c: Item, item: Item, ghost s: set<Item>) returns (found: bool)
    requires Shaped(Snapshot(s)) && c in s
    ensures found <==> item in DepthOrder(TreeOf(Snapshot(s), c).kids)
  {
    hide Shaped, TreeOf, Pending, Ready, QueueOrder, DepthOrder, Sizes;
    ghost var h := Snapshot(s);
    ghost var ts := TreeOf(h, c).kids;
    QueueVisitsAll(ts);
    SameMembers(QueueOrder(ts), DepthOrder(ts), item);
    var it := new ContainerIterator(c, s);
    while it.HasNext()
      invariant Snapshot(s) == h && Ready(h, it.over, it.cur)
      invariant item in QueueOrder(ts) <==> item in QueueOrder(Pending(h, it.over, it.cur))
      decreases Sizes(Pending(h, it.over, it.cur))
    {
      ghost var p := Pending(h, it.over, it.cur);
      var x := it.Current(s);
      QueueStep(p);
      if x == item {
        return true;
      }
      it.Advance(s);
    }
    NothingPending(h, it.over, it.cur);
    found := false;
  }

  lemma SameMembers(a: seq<Item>, b: seq<Item>, x: Item)
    requires multiset(a) == multiset(b)
    ensures x in a <==> x in b
  {
    assert x in a <==> x in multiset(a);
    assert x in b <==> x in multiset(b);
  }

  /** Every item held, once, level by level. */
  method GetItems(c: Item, ghost s: set<Item>) returns (list: seq<Item>)
    requires Shaped(Snapshot(s)) && c in s
    ensures list == LevelOrder(TreeOf(Snapshot(s), c).kids)
    ensures multiset(list) == multiset(DepthOrder(TreeOf(Snapshot(s), c).kids))
  {
    hide Shaped, TreeOf, Pending, Ready, QueueOrder, DepthOrder, LevelOrder, Sizes;
    ghost var h := Snapshot(s);
    ghost var ts := TreeOf(h, c).kids;
    QueueIsLevelOrder(ts);
    QueueVisitsAll(ts);
    list := [];
    var it := new ContainerIterator(c, s);
    while it.HasNext()
      invariant Snapshot(s) == h && Ready(h, it.over, it.cur)
      invariant list + QueueOrder(Pending(h, it.over, it.cur)) == QueueOrder(ts)
      decreases Sizes(Pending(h, it.over, it.cur))
    {
      ghost var p := Pending(h, it.over, it.cur);
      var x := it.Current(s);
      QueueStep(p);
      it.Advance(s);
      assert list + QueueOrder(p) == list + [x] + QueueOrder(p[1..] + p[0].kids);
      list := list + [x];
    }
    NothingPending(h, it.over, it.cur);
    assert list + [] == list;
  }
}
