/** What the cached weights come to, item by item: a stack weighs its count times the weight of its kind,
    anything else the weight of its kind. */
module Weights {
  import opened Forest
  import opened Ledger
  import opened ForestTree
  import opened Iteration

  /** The weights of some items, each for itself, without what they hold. */
  ghost function Mass(h: Heap, s: seq<Item>): int
    requires forall i :: 0 <= i < |s| ==> s[i] in h
  {
    if s == [] then 0
    else
      (if h[s[0]].kind.stackable then h[s[0]].kind.weight * h[s[0]].count else h[s[0]].kind.weight) + Mass(h, s[1..])
  }

  lemma {:induction false} MassSplit(h: Heap, a: seq<Item>, b: seq<Item>)
    requires (forall i :: 0 <= i < |a| ==> a[i] in h) && forall i :: 0 <= i < |b| ==> b[i] in h
    ensures Mass(h, a + b) == Mass(h, a) + Mass(h, b)
    decreases |a|
  {
    if a == [] {
      assert a + b == b;
    } else {
      MassSplit(h, a[1..], b);
      assert (a + b)[1..] == a[1..] + b;
    }
  }

  lemma MassAt(h: Heap, s: seq<Item>, i: nat)
    requires (forall k :: 0 <= k < |s| ==> s[k] in h) && i < |s|
    ensures var rest := s[..i] + s[i + 1..];
      (forall k :: 0 <= k < |rest| ==> rest[k] in h) && Mass(h, s) == Mass(h, [s[i]]) + Mass(h, rest)
  {
    var a, b := s[..i], s[i + 1..];
    assert s == a + ([s[i]] + b);
    MassSplit(h, a, [s[i]] + b);
    MassSplit(h, [s[i]], b);
    MassSplit(h, a, b);
  }

  lemma WithoutOne(a: seq<Item>, b: seq<Item>, i: nat)
    requires multiset(a) == multiset(b) && a != [] && i < |b| && b[i] == a[0]
    ensures multiset(a[1..]) == multiset(b[..i] + b[i + 1..])
  {
    OneOut(a, 0);
    assert a[..0] + a[0 + 1..] == a[1..];
    var m := multiset(a)[a[0] := multiset(a)[a[0]] - 1];
    assert multiset(a[1..]) == m;
    OneOut(b, i);
  }

  lemma OneOut(s: seq<Item>, i: nat)
    requires i < |s|
    ensures multiset(s[..i] + s[i + 1..]) == multiset(s)[s[i] := multiset(s)[s[i]] - 1]
  {
    var a, b := s[..i], s[i + 1..];
    assert s == a + ([s[i]] + b);
    assert multiset(s) == multiset(a) + (multiset([s[i]]) + multiset(b));
    assert multiset(a + b) == multiset(a) + multiset(b);
  }

  /** The order does not matter. */
  lemma {:induction false} MassSame(h: Heap, a: seq<Item>, b: seq<Item>)
    requires (forall i :: 0 <= i < |a| ==> a[i] in h) && forall i :: 0 <= i < |b| ==> b[i] in h
    requires multiset(a) == multiset(b)
    ensures Mass(h, a) == Mass(h, b)
    decreases |a|
  {
    hide Mass;
    SameLength(a, b);
    if a == [] {
      assert b == [];
    } else {
      assert a[0] in multiset(a) && a[0] in multiset(b);
      var i :| 0 <= i < |b| && b[i] == a[0];
      WithoutOne(a, b, i);
      MassAt(h, a, 0);
      MassAt(h, b, i);
      assert a[..0] + a[0 + 1..] == a[1..];
      MassSame(h, a[1..], b[..i] + b[i + 1..]);
    }
  }

  lemma OwnMass(h: Heap, x: Item)
    requires StackBounds(h) && x in h
    ensures StackWeight(h[x].kind, h[x].count) ==
      Wrap(if h[x].kind.stackable then h[x].kind.weight * h[x].count else h[x].kind.weight)
  {
  }

  lemma WrapSum(a: int, b: int, c: int, a': int, b': int, c': int)
    requires Wrap(a) == Wrap(a') && Wrap(b) == Wrap(b') && Wrap(c) == Wrap(c')
    ensures Wrap(a + b + c) == Wrap(a' + b' + c')
  {
    WrapCongruent(a, a', b + c);
    WrapCongruent(b, b', a' + c);
    WrapCongruent(c, c', a' + b');
  }

  /** The recursive weight of some subtrees is the mass of everything in them. */
  lemma {:induction false} TreesMass(h: Heap, c: Item, s: seq<Item>)
    requires Shaped(h) && StackBounds(h) && c in h && ChildrenOf(h, c, s)
    ensures var order := DepthOrder(TreesOf(h, c, s));
      (forall i :: 0 <= i < |order| ==> order[i] in h) && Wrap(TreesWeight(TreesOf(h, c, s))) == Wrap(Mass(h, order))
    decreases Rest(h, c), |s|
  {
    hide Above, Acyclic, ChildrenLinked, ParentsLinked, ListsDistinct, StackBounds, Rest, StackWeight;
    if s != [] {
      var x, rest := s[0], s[1..];
      FirstChild(h, c, s);
      ItemsAreChildren(h, x);
      TreesMass(h, x, h[x].items);
      TreesMass(h, c, rest);
      OwnMass(h, x);
      TreeFields(h, x);
      var t := TreeOf(h, x);
      var below, behind := DepthOrder(t.kids), DepthOrder(TreesOf(h, c, rest));
      FirstMass(h, t, TreesOf(h, c, rest));
      var own := if h[x].kind.stackable then h[x].kind.weight * h[x].count else h[x].kind.weight;
      WrapSum(t.own, TreesWeight(t.kids), TreesWeight(TreesOf(h, c, rest)), own, Mass(h, below), Mass(h, behind));
    }
  }

  lemma TreeFields(h: Heap, x: Item)
    requires Shaped(h) && x in h
    ensures var t := TreeOf(h, x);
      ChildrenOf(h, x, h[x].items) && t.item == x && t.kids == TreesOf(h, x, h[x].items) && t.own == StackWeight(h[x].kind, h[x].count)
  {
  }

  lemma FirstMass(h: Heap, t: Tree, ts: seq<Tree>)
    requires t.item in h
    requires forall i :: 0 <= i < |DepthOrder(t.kids)| ==> DepthOrder(t.kids)[i] in h
    requires forall i :: 0 <= i < |DepthOrder(ts)| ==> DepthOrder(ts)[i] in h
    ensures DepthOrder([t] + ts) == [t.item] + DepthOrder(t.kids) + DepthOrder(ts)
    ensures var order := DepthOrder([t] + ts); var x := t.item;
      && (forall i :: 0 <= i < |order| ==> order[i] in h)
      && Mass(h, order) == (if h[x].kind.stackable then h[x].kind.weight * h[x].count else h[x].kind.weight)
                             + Mass(h, DepthOrder(t.kids)) + Mass(h, DepthOrder(ts))
    ensures TreesWeight([t] + ts) == t.own + TreesWeight(t.kids) + TreesWeight(ts)
  {
    var x, below, behind := t.item, DepthOrder(t.kids), DepthOrder(ts);
    assert ([t] + ts)[1..] == ts;
    MassSplit(h, [x] + below, behind);
    MassSplit(h, [x], below);
    assert [x][1..] == [];
  }

  /** The cached weight of every container is, modulo 2^32, the weight of all items below it. */
  lemma TotalIsMassBelow(h: Heap, c: Item, s: seq<Item>)
    requires Valid(h) && c in h && h[c].kind.container && multiset(s) == multiset(Below(h, c))
    ensures forall i :: 0 <= i < |s| ==> s[i] in h
    ensures h[c].total == Mass(h, s) % 0x1_0000_0000
  {
    hide Above, Acyclic, ChildrenLinked, ParentsLinked, ListsDistinct, StackBounds, CachesAgree, StackWeight;
    ItemsAreChildren(h, c);
    CachedWeightIsRecursive(h, c);
    TreesMass(h, c, h[c].items);
    TreeFields(h, c);
    HoldingCountIsBelow(h, c);
    var order := DepthOrder(TreeOf(h, c).kids);
    forall i | 0 <= i < |s| ensures s[i] in h {
      assert s[i] in multiset(s) && s[i] in Below(h, c);
    }
    MassSame(h, s, order);
    assert Wrap(Mass(h, s)) == Mass(h, s) % 0x1_0000_0000;
    TotalInRange(h, c);
  }

  lemma TotalInRange(h: Heap, c: Item)
    requires Valid(h) && c in h && h[c].kind.container
    ensures Wrap(h[c].total) == h[c].total
  {
    assert CacheOff(h, c, 0);
  }

  /** A listed stack that gains n items, or loses them, makes every container above it heavier, or
      lighter, by exactly their weight, and no other container. */
  lemma StackMoves(h: Heap, c: Item, x: Item, count: nat)
    requires Valid(h) && c in h && x in h && x in h[c].items && h[x].kind.stackable && 1 <= count <= 100
    ensures Rooted(h, c)
    ensures var g := Recounted(h, c, x, h[x].kind, count); g.Keys == h.Keys && g[x].count == count
    ensures var g := Recounted(h, c, x, h[x].kind, count); forall a {:trigger g[a].total} :: a in h ==>
      g[a].total == if a in Above(h, c) then (h[a].total + (count - h[x].count) * h[x].kind.weight) % 0x1_0000_0000 else h[a].total
  {
    hide Recounted, Above, ParentsLinked, ListsDistinct, CachesAgree, StackWeight;
    assert Rooted(h, c);
    RecountedTotals(h, c, x, count);
    StackWeights(h[x].kind, h[x].count, count);
    forall a | a in h && a in Above(h, c) {
      WrapDifference(h[a].total, h[x].kind.weight * count, h[x].kind.weight * h[x].count);
    }
  }

  lemma RecountedTotals(h: Heap, c: Item, x: Item, count: nat)
    requires Rooted(h, c) && x in h && !h[x].kind.container
    ensures var g := Recounted(h, c, x, h[x].kind, count); g.Keys == h.Keys && g[x].count == count
    ensures var g := Recounted(h, c, x, h[x].kind, count); forall a {:trigger g[a].total} :: a in h ==>
      g[a].total == if a in Above(h, c)
                    then Wrap(h[a].total + (StackWeight(h[x].kind, count) - StackWeight(h[x].kind, h[x].count))) else h[a].total
  {
    hide StackWeight;
    RecountAbove(h, c, x, h[x].kind, count);
  }

  lemma StackWeights(kind: Kind, a: nat, b: nat)
    requires kind.stackable && a > 0 && b > 0
    ensures StackWeight(kind, a) == Wrap(kind.weight * a) && StackWeight(kind, b) == Wrap(kind.weight * b)
    ensures kind.weight * b as int - kind.weight * a as int == (b as int - a as int) * kind.weight
  {
  }

  lemma WrapDifference(t: int, a: int, b: int)
    ensures Wrap(t + (Wrap(a) - Wrap(b))) == (t + (a - b)) % 0x1_0000_0000
  {
  }

  /** What an item adds to the containers it lies in: its own weight, and if it is a container the weight
      of what it holds. */
  ghost function Burden(n: Node): int {
    (if n.kind.stackable then n.count * n.kind.weight else n.kind.weight) + if n.kind.container then n.total else 0
  }

  /** An item that is put into a container makes it and every container above it heavier by that. */
  lemma ItemArrives(h: Heap, c: Item, x: Item)
    requires Valid(h) && CanHang(h, c, x)
    ensures var g := Attached(h, c, 0, x); forall a {:trigger g[a].total} :: a in h ==>
      g[a].total == if a in Above(h, c) then (h[a].total + Burden(h[x])) % 0x1_0000_0000 else h[a].total
  {
    hide Attached, Above, ParentsLinked, ListsDistinct, CachesAgree, StackWeight, WeightOf, Burden;
    AttachedTotals(h, c, x);
    BurdenIs(h, x);
    forall a | a in h && a in Above(h, c) {
      WrapDifference(h[a].total, Burden(h[x]), 0);
    }
  }

  /** An item that is taken out makes them lighter by that. */
  lemma ItemLeaves(h: Heap, c: Item, i: nat)
    requires Valid(h) && c in h && i < |h[c].items| && h[c].items[i] in h
    ensures Rooted(h, c)
    ensures var g := Removed(h, c, i); forall a {:trigger g[a].total} :: a in h ==>
      g[a].total == if a in Above(h, c) then (h[a].total - Burden(h[h[c].items[i]])) % 0x1_0000_0000 else h[a].total
  {
    hide Removed, Above, ParentsLinked, ListsDistinct, CachesAgree, StackWeight, WeightOf, Burden;
    assert Rooted(h, c);
    RemovedTotals(h, c, i);
    BurdenIs(h, h[c].items[i]);
    forall a | a in h && a in Above(h, c) {
      WrapDifference(h[a].total, 0, Burden(h[h[c].items[i]]));
    }
  }

  lemma BurdenIs(h: Heap, x: Item)
    requires Valid(h) && x in h
    ensures WeightOf(h[x]) == Wrap(Burden(h[x]))
  {
    OwnMass(h, x);
    assert h[x].kind.weight * h[x].count == h[x].count * h[x].kind.weight;
    if h[x].kind.container {
      WrapCongruent(StackWeight(h[x].kind, h[x].count), h[x].kind.weight, h[x].total);
    }
  }

  lemma AttachedTotals(h: Heap, c: Item, x: Item)
    requires Shaped(h) && CanHang(h, c, x)
    ensures Attached(h, c, 0, x).Keys == h.Keys
    ensures var g := Attached(h, c, 0, x); forall a {:trigger g[a].total} :: a in h ==>
      g[a].total == if a in Above(h, c) then Wrap(h[a].total + WeightOf(h[x])) else h[a].total
  {
    hide WeightOf;
    LinkAbove(h, c, 0, x);
  }

  lemma RemovedTotals(h: Heap, c: Item, i: nat)
    requires Shaped(h) && c in h && i < |h[c].items| && h[c].items[i] in h
    ensures Rooted(h, c) && Removed(h, c, i).Keys == h.Keys
    ensures var g := Removed(h, c, i); forall a {:trigger g[a].total} :: a in h ==>
      g[a].total == if a in Above(h, c) then Wrap(h[a].total - WeightOf(h[h[c].items[i]])) else h[a].total
  {
    hide WeightOf;
    UnlinkAbove(h, c, i);
  }

  lemma TwoShifts(t: int, u: int, v: int)
    ensures ((t + u) % 0x1_0000_0000 + v) % 0x1_0000_0000 == (t + u + v) % 0x1_0000_0000
  {
  }

  /** m of a stack split off into another container: their weight leaves one chain of containers and
      comes to the other. */
  lemma SplitMovesWeight(h: Heap, source: Item, x: Item, m: nat, y: Item, target: Item)
    requires Valid(h) && source in h && target in h && x in h && x in h[source].items && h[x].kind.stackable
    requires 1 <= m < h[x].count && y !in h && h[target].kind.container
    ensures Rooted(h, source) && Rooted(h, target)
    ensures var g := WithItem(Recounted(h, source, x, h[x].kind, h[x].count - m), y, h[x].kind, m);
      && Shaped(g) && CanHang(g, target, y) && Attached(g, target, 0, y).Keys == g.Keys
      && forall a {:trigger Attached(g, target, 0, y)[a].total} :: a in h ==>
           Attached(g, target, 0, y)[a].total == (h[a].total
             - (if a in Above(h, source) then m * h[x].kind.weight else 0)
             + (if a in Above(h, target) then m * h[x].kind.weight else 0)) % 0x1_0000_0000
  {
    hide Valid, Attached, Recounted, Above, Rooted;
    assert m * h[x].kind.weight == Burden(Node(h[x].kind, m, null, [], 0)) by { StacksBounded(h, x); }
    StacksBounded(h, x);
    BothRooted(h, source, target);
    var k, w := h[x].kind, m * h[x].kind.weight;
    StackMoves(h, source, x, h[x].count - m);
    RecountedValid(h, source, x, k, h[x].count - m);
    RecountedAbove(h, source, x, h[x].count - m, target);
    var r := Recounted(h, source, x, k, h[x].count - m);
    KindsKept(h, source, x, h[x].count - m);
    WithItemValid(r, y, k, m);
    BothRooted(r, source, target);
    WithItemHang(r, y, k, m, target);
    WithItemAbove(r, y, k, m, target);
    var g := WithItem(r, y, k, m);
    BothRooted(g, source, target);
    ItemArrives(g, target, y);
    AttachedKeys(g, target, y);
    forall a {:trigger Attached(g, target, 0, y)[a].total} | a in h
      ensures Attached(g, target, 0, y)[a].total == (h[a].total
             - (if a in Above(h, source) then w else 0) + (if a in Above(h, target) then w else 0)) % 0x1_0000_0000
    {
      TotalWraps(h, a);
      ArrivesAfter(h[a].total, r[a].total, if a in Above(h, source) then -w else 0, if a in Above(h, target) then w else 0);
    }
  }

  lemma ArrivesAfter(t: int, m: int, u: int, v: int)
    requires m == (t + u) % 0x1_0000_0000
    ensures (m + v) % 0x1_0000_0000 == (t + u + v) % 0x1_0000_0000
  {
    TwoShifts(t, u, v);
  }

  lemma BothRooted(h: Heap, c: Item, d: Item)
    requires Valid(h) && c in h && d in h
    ensures Shaped(h) && Rooted(h, c) && Rooted(h, d)
  {
  }

  lemma AttachedKeys(h: Heap, c: Item, x: Item)
    requires Shaped(h) && CanHang(h, c, x)
    ensures Attached(h, c, 0, x).Keys == h.Keys
  {
  }

  lemma StacksBounded(h: Heap, x: Item)
    requires Valid(h) && x in h && h[x].kind.stackable
    ensures 1 <= h[x].count <= 100 && !h[x].kind.container
  {
  }

  lemma TotalWraps(h: Heap, a: Item)
    requires Valid(h) && a in h
    ensures h[a].total == h[a].total % 0x1_0000_0000
  {
    assert CacheOff(h, a, 0);
  }

  lemma KindsKept(h: Heap, c: Item, x: Item, count: nat)
    requires Rooted(h, c) && x in h
    ensures var g := Recounted(h, c, x, h[x].kind, count);
      g.Keys == h.Keys && forall a :: a in h ==> g[a].kind == h[a].kind && g[a].parent == h[a].parent && g[a].items == h[a].items
  {
    RecountAbove(h, c, x, h[x].kind, count);
  }

  lemma RecountedAbove(h: Heap, c: Item, x: Item, count: nat, d: Item)
    requires Rooted(h, c) && x in h && Rooted(h, d)
    ensures var g := Recounted(h, c, x, h[x].kind, count); Rooted(g, d) && Above(g, d) == Above(h, d)
  {
    KindsKept(h, c, x, count);
    var g, n := Recounted(h, c, x, h[x].kind, count), Depth(h, d);
    SameParentsKeepDepth(h, g, d, n);
    SameParentsKeepChain(h, g, d, n);
    AboveIsChain(g, d, n);
  }

  lemma WithItemAbove(h: Heap, y: Item, kind: Kind, count: nat, d: Item)
    requires Rooted(h, d) && y !in h
    ensures var g := WithItem(h, y, kind, count); Rooted(g, d) && Above(g, d) == Above(h, d)
  {
    var g, n := WithItem(h, y, kind, count), Depth(h, d);
    WithItemDepth(h, y, kind, count, d, n);
    AboveIsChain(g, d, n);
  }
}
