/** Items and containers as a mutable heap tree with parent links and a cached
    content weight, and the value-level view of that heap the proofs reason about. */
module Forest {

  /** Weights are 32-bit unsigned integers; every sum wraps. */
  const WORD := 0x1_0000_0000

  function Wrap(n: int): (w: nat)
    ensures w < WORD
  {
    n % WORD
  }

  /** What an item's type and its attributes fix together. Two items can be stacked
      exactly when these agree. */
  datatype Kind = Kind(
    id: nat, attributes: int,
    stackable: bool, container: bool, maxItems: nat, weight: nat, worth: nat,
    pickupable: bool, moveable: bool, storeItem: bool)

  /** The fields of one item, as a value. */
  datatype Node = Node(kind: Kind, count: nat, parent: Item?, items: seq<Item>, total: nat)

  type Heap = map<Item, Node>

  function StackWeight(kind: Kind, count: nat): nat {
    Wrap(if kind.stackable then kind.weight * (if count == 0 then 1 else count) else kind.weight)
  }

  function WeightOf(n: Node): nat {
    if n.kind.container then Wrap(StackWeight(n.kind, n.count) + n.total) else StackWeight(n.kind, n.count)
  }

  class Item {
    var kind: Kind
    var count: nat
    var parent: Item?
    var items: seq<Item>
    var totalWeight: nat
    const capacity: nat
    const unlocked: bool

    constructor (kind: Kind, count: nat, capacity: nat, unlocked: bool)
      ensures State() == Node(kind, count, null, [], 0)
      ensures this.capacity == capacity && this.unlocked == unlocked
    {
      this.kind, this.count, this.capacity, this.unlocked := kind, count, capacity, unlocked;
      parent, items, totalWeight := null, [], 0;
    }

    function State(): Node
      reads this
    {
      Node(kind, count, parent, items, totalWeight)
    }

    function GetWeight(): nat
      reads this
    {
      WeightOf(State())
    }

    method SetParent(p: Item?, ghost s: set<Item>)
      requires this in s
      modifies this`parent
      ensures var h := old(Snapshot(s)); Snapshot(s) == h[this := h[this].(parent := p)]
    {
      parent := p;
    }

    method SetIdAndSubType(newKind: Kind, newCount: nat, ghost s: set<Item>)
      requires this in s
      modifies this`kind, this`count
      ensures Snapshot(s) == Recount(old(Snapshot(s)), this, newKind, newCount)
      ensures GetWeight() == WeightOf(old(State()).(kind := newKind, count := newCount))
    {
      kind, count := newKind, newCount;
    }

    method SetItems(list: seq<Item>, ghost s: set<Item>)
      requires this in s
      modifies this`items
      ensures var h := old(Snapshot(s)); Snapshot(s) == h[this := h[this].(items := list)]
    {
      items := list;
    }

    /** Adds diff to the cached weight here and in every container above. */
    method UpdateItemWeight(diff: int, ghost s: set<Item>, ghost n: nat)
      requires AtDepth(Snapshot(s), this, n)
      modifies s`totalWeight
      ensures Snapshot(s) == old(Bump(Snapshot(s), Chain(Snapshot(s), this, n), diff))
      decreases n
    {
      BumpUnroll(Snapshot(s), this, diff, n);
      AddToTotal(diff, s);
      if parent != null {
        parent.UpdateItemWeight(diff, s, n - 1);
      }
    }

    method AddToTotal(diff: int, ghost s: set<Item>)
      requires this in s
      modifies this`totalWeight
      ensures Snapshot(s) == AddTotal(old(Snapshot(s)), this, diff)
    {
      totalWeight := Wrap(totalWeight + diff);
    }

    method GetThingIndex(thing: Item) returns (index: int)
      ensures index == -1 ==> thing !in items
      ensures index != -1 ==> 0 <= index < |items| && items[index] == thing && thing !in items[..index]
    {
      index := 0;
      while index < |items|
        invariant 0 <= index <= |items|
        invariant thing !in items[..index]
      {
        if items[index] == thing {
          return;
        }
        index := index + 1;
      }
      index := -1;
    }

    /** Silently drops the call when index lies beyond the capacity. */
    method AddThing(index: int, item: Item, ghost s: set<Item>)
      requires Valid(Snapshot(s)) && CanHang(Snapshot(s), this, item)
      modifies s
      ensures Snapshot(s) ==
        if index >= capacity then old(Snapshot(s)) else Attached(old(Snapshot(s)), this, 0, item)
      ensures Valid(Snapshot(s))
    {
      if index >= capacity {
        return;
      }
      InternalAddThing(item, s);
    }

    method InternalAddThing(item: Item, ghost s: set<Item>)
      requires Valid(Snapshot(s)) && CanHang(Snapshot(s), this, item)
      modifies s
      ensures Snapshot(s) == Attached(old(Snapshot(s)), this, 0, item)
      ensures Valid(Snapshot(s))
    {
      AttachedValid(Snapshot(s), this, 0, item);
      Hang(item, 0, s);
    }

    method AddItemBack(item: Item, ghost s: set<Item>)
      requires Valid(Snapshot(s)) && CanHang(Snapshot(s), this, item)
      modifies s
      ensures Snapshot(s) == Attached(old(Snapshot(s)), this, |old(items)|, item)
      ensures Valid(Snapshot(s))
    {
      AttachedValid(Snapshot(s), this, |items|, item);
      Hang(item, |items|, s);
    }

    /** Sets the parent, lists the item and propagates its weight. */
    method Hang(item: Item, k: nat, ghost s: set<Item>)
      requires CanHang(Snapshot(s), this, item) && item != this && k <= |items|
      requires Rooted(Link(Snapshot(s), this, k, item), this)
      modifies s
      ensures Snapshot(s) == old(Reweigh(Link(Snapshot(s), this, k, item), this, item.GetWeight()))
    {
      ghost var n := Depth(Link(Snapshot(s), this, k, item), this);
      SetLink(item, k, s);
      UpdateItemWeight(item.GetWeight(), s, n);
    }

    method SetLink(item: Item, k: nat, ghost s: set<Item>)
      requires this in s && item in s && item != this && k <= |items|
      modifies this`items, item`parent
      ensures Snapshot(s) == Link(old(Snapshot(s)), this, k, item)
      ensures item.GetWeight() == old(item.GetWeight())
    {
      item.SetParent(this, s);
      SetItems(InsertAt(items, k, item), s);
    }

    /** Gives a listed item another kind and count and propagates the difference in weight. */
    method UpdateThing(thing: Item, newKind: Kind, newCount: nat, ghost s: set<Item>)
      requires Valid(Snapshot(s)) && this in s && thing in s
      requires newKind.container == thing.kind.container
      requires newKind.stackable ==> 1 <= newCount <= 100 && !newKind.container
      modifies s
      ensures old(thing in items) ==>
        Rooted(old(Snapshot(s)), this) && Snapshot(s) == Recounted(old(Snapshot(s)), this, thing, newKind, newCount)
      ensures old(thing !in items) ==> Snapshot(s) == old(Snapshot(s))
      ensures Valid(Snapshot(s))
    {
      var index := GetThingIndex(thing);
      if index != -1 {
        assert thing in items;
        RecountedValid(Snapshot(s), this, thing, newKind, newCount);
        ChangeCount(thing, newKind, newCount, s);
      }
    }

    method ChangeCount(thing: Item, newKind: Kind, newCount: nat, ghost s: set<Item>)
      requires Rooted(Snapshot(s), this) && thing in s
      modifies s
      ensures Snapshot(s) == old(Recounted(Snapshot(s), this, thing, newKind, newCount))
    {
      hide Chain;
      ghost var h := Snapshot(s);
      ghost var g := Recount(h, thing, newKind, newCount);
      RecountAbove(h, this, thing, newKind, newCount);
      var oldWeight := thing.GetWeight();
      thing.SetIdAndSubType(newKind, newCount, s);
      var diff := thing.GetWeight() - oldWeight;
      assert diff == WeightOf(g[thing]) - WeightOf(h[thing]);
      UpdateItemWeight(diff, s, Depth(g, this));
    }

    /** Puts item in place of the index-th child, which becomes loose. */
    method ReplaceThing(index: nat, item: Item, ghost s: set<Item>)
      requires Valid(Snapshot(s)) && CanHang(Snapshot(s), this, item)
      modifies s
      ensures Snapshot(s) ==
        if index < |old(items)| then Replaced(old(Snapshot(s)), this, index, item) else old(Snapshot(s))
      ensures Valid(Snapshot(s))
    {
      if index >= |items| {
        return;
      }
      ReplacedValid(Snapshot(s), this, index, item);
      Exchange(index, item, s);
    }

    method Exchange(index: nat, item: Item, ghost s: set<Item>)
      requires Shaped(Snapshot(s)) && CanHang(Snapshot(s), this, item) && index < |items|
      modifies s
      ensures Snapshot(s) == old(Replaced(Snapshot(s), this, index, item))
    {
      hide Shaped, Replaced, Exchanged, Bump, Chain, Orphaned, AtDepth, Above, Rooted, ChildrenLinked, ParentsLinked, ListsDistinct, Acyclic;
      ghost var h := Snapshot(s);
      ReplacedBySteps(h, this, index, item);
      var replaced := items[index];
      assert h[item] == item.State() && h[replaced] == replaced.State();
      var diff := item.GetWeight() - replaced.GetWeight();
      ExchangeSteps(replaced, index, item, diff, s, Depth(h, this));
    }

    /** Lists item in place of replaced, which loses its parent after the propagation. */
    method ExchangeSteps(replaced: Item, index: nat, item: Item, diff: int, ghost s: set<Item>, ghost n: nat)
      requires this in s && item in s && replaced in s && item != this && index < |items| && items[index] == replaced
      requires AtDepth(Exchanged(Snapshot(s), this, index, item), this, n)
      modifies s
      ensures var g := old(Exchanged(Snapshot(s), this, index, item));
        Snapshot(s) == Orphaned(Bump(g, Chain(g, this, n), diff), replaced)
    {
      SetExchange(index, item, s);
      UpdateItemWeight(diff, s, n);
      replaced.SetParent(null, s);
    }

    method SetExchange(index: nat, item: Item, ghost s: set<Item>)
      requires this in s && item in s && item != this && index < |items| && items[index] in s
      modifies this`items, item`parent
      ensures Snapshot(s) == old(Exchanged(Snapshot(s), this, index, item))
    {
      SetItems(items[index := item], s);
      item.SetParent(this, s);
    }

    /** Lowers the count of a larger stack, otherwise takes the item out. */
    method RemoveThing(item: Item, removeCount: nat, ghost s: set<Item>)
      requires Valid(Snapshot(s)) && this in s && item in s
      requires item.kind.stackable ==> 1 <= removeCount <= item.count
      modifies s
      ensures item in old(items) ==>
        Snapshot(s) == Taken(old(Snapshot(s)), this, IndexOf(old(items), item), removeCount)
      ensures item !in old(items) ==> Snapshot(s) == old(Snapshot(s))
      ensures Valid(Snapshot(s))
    {
      hide Acyclic, ParentsLinked, ListsDistinct, CachesAgree, Bump, Chain, Unlink, Above, Recounted, Removed;
      var index := GetThingIndex(item);
      if index == -1 {
        return;
      }
      assert IndexOf(items, item) == index;
      TakenValid(Snapshot(s), this, index, removeCount);
      if item.kind.stackable && removeCount != item.count {
        ChangeCount(item, item.kind, item.count - removeCount, s);
      } else {
        TakeOut(index, s);
      }
    }

    /** Takes the index-th child out. */
    method TakeOut(index: nat, ghost s: set<Item>)
      requires Shaped(Snapshot(s)) && this in s && index < |items|
      modifies s
      ensures Snapshot(s) == old(Removed(Snapshot(s), this, index))
    {
      hide ParentsLinked, Bump;
      ghost var n := Depth(Snapshot(s), this);
      UnlinkAbove(Snapshot(s), this, index);
      BumpUnlink(Snapshot(s), this, index, Above(Snapshot(s), this), 0 - items[index].GetWeight());
      TakeOutSteps(index, s, n);
    }

    /** Propagates the loss of weight, then clears the parent and erases the list entry. */
    method TakeOutSteps(index: nat, ghost s: set<Item>, ghost n: nat)
      requires AtDepth(Snapshot(s), this, n) && index < |items| && items[index] in s && items[index] != this
      modifies s
      ensures var h := old(Snapshot(s));
        Snapshot(s) == Unlink(Bump(h, Chain(h, this, n), 0 - old(items[index].GetWeight())), this, index)
    {
      hide Bump, Chain, Unlink;
      var item := items[index];
      UpdateItemWeight(0 - item.GetWeight(), s, n);
      CutLink(item, index, s);
    }

    method CutLink(item: Item, index: nat, ghost s: set<Item>)
      requires this in s && index < |items| && items[index] == item && item in s && item != this
      modifies this`items, item`parent
      ensures Snapshot(s) == old(Unlink(Snapshot(s), this, index))
    {
      item.SetParent(null, s);
      SetItems(EraseAt(items, index), s);
    }
  }

  /** The value of the heap restricted to a set of items. */
  ghost function Snapshot(s: set<Item>): (h: Heap)
    reads s
    ensures h.Keys == s
    ensures forall x :: x in s ==> h[x] == x.State()
  {
    map x | x in s :: x.State()
  }

  // ---------------------------------------------------------------- well-formed heaps

  ghost predicate NoDup(s: seq<Item>) {
    forall i, j :: 0 <= i < j < |s| ==> s[i] != s[j]
  }

  /** Every listed child is in the heap and names its container as parent. */
  ghost predicate ChildrenLinked(h: Heap) {
    forall c, i {:trigger h[c].items[i]} :: c in h && 0 <= i < |h[c].items| ==>
      h[c].items[i] in h && h[h[c].items[i]].parent == c
  }

  /** Every item with a parent is listed by it. */
  ghost predicate ParentsLinked(h: Heap) {
    forall x {:trigger h[x].parent} :: x in h && h[x].parent != null ==>
      h[x].parent in h && x in h[h[x].parent].items
  }

  ghost predicate ListsDistinct(h: Heap) {
    forall c {:trigger h[c].items} :: c in h ==> NoDup(h[c].items) && (h[c].items != [] ==> h[c].kind.container)
  }

  /** Stacks hold 1 to 100 items and are never containers. */
  ghost predicate StackBounds(h: Heap) {
    forall x :: x in h && h[x].kind.stackable ==> 1 <= h[x].count <= 100 && !h[x].kind.container
  }

  /** x reaches a root after exactly n parent steps. */
  ghost predicate AtDepth(h: Heap, x: Item, n: nat)
    decreases n
  {
    x in h && if h[x].parent == null then n == 0 else n > 0 && AtDepth(h, h[x].parent, n - 1)
  }

  ghost predicate Rooted(h: Heap, x: Item) {
    exists n: nat :: AtDepth(h, x, n)
  }

  ghost predicate Acyclic(h: Heap) {
    forall x {:trigger Rooted(h, x)} :: x in h ==> Rooted(h, x)
  }

  ghost function SumWeights(h: Heap, s: seq<Item>): int {
    if s == [] then 0
    else (if s[0] in h then WeightOf(h[s[0]]) else 0) + SumWeights(h, s[1..])
  }

  /** The cached weight of c agrees with its listed children, off by diff. */
  ghost predicate CacheOff(h: Heap, c: Item, diff: int)
    requires c in h
  {
    h[c].total == Wrap(h[c].total) && Wrap(h[c].total + diff) == Wrap(SumWeights(h, h[c].items))
  }

  ghost predicate CachesAgree(h: Heap) {
    forall c {:trigger CacheOff(h, c, 0)} :: c in h ==> CacheOff(h, c, 0)
  }

  ghost predicate Shaped(h: Heap) {
    ChildrenLinked(h) && ParentsLinked(h) && ListsDistinct(h) && Acyclic(h)
  }

  /** The heap invariant every container operation keeps. */
  ghost predicate Valid(h: Heap) {
    Shaped(h) && StackBounds(h) && CachesAgree(h)
  }

  // ---------------------------------------------------------------- depth

  lemma {:induction false} DepthUnique(h: Heap, x: Item, m: nat, n: nat)
    requires AtDepth(h, x, m) && AtDepth(h, x, n)
    ensures m == n
    decreases m
  {
    if h[x].parent != null {
      DepthUnique(h, h[x].parent, m - 1, n - 1);
    }
  }

  ghost function Depth(h: Heap, x: Item): (n: nat)
    requires Rooted(h, x)
    ensures AtDepth(h, x, n)
  {
    var n: nat :| AtDepth(h, x, n); n
  }

  ghost predicate SameParents(h: Heap, g: Heap) {
    h.Keys == g.Keys && forall x :: x in h ==> h[x].parent == g[x].parent
  }

  lemma {:induction false} SameParentsKeepDepth(h: Heap, g: Heap, x: Item, n: nat)
    requires SameParents(h, g) && AtDepth(h, x, n)
    ensures AtDepth(g, x, n)
    decreases n
  {
    if h[x].parent != null {
      SameParentsKeepDepth(h, g, h[x].parent, n - 1);
    }
  }

  lemma SameParentsKeepAcyclic(h: Heap, g: Heap)
    requires SameParents(h, g) && Acyclic(h)
    ensures Acyclic(g)
  {
    forall x | x in g ensures Rooted(g, x) {
      SameParentsKeepDepth(h, g, x, Depth(h, x));
    }
  }

  /** The item itself and everything above it. */
  ghost function Chain(h: Heap, x: Item, n: nat): set<Item>
    requires AtDepth(h, x, n)
    decreases n
  {
    {x} + if h[x].parent == null then {} else Chain(h, h[x].parent, n - 1)
  }

  lemma {:induction false} ChainDepth(h: Heap, x: Item, n: nat, y: Item)
    requires AtDepth(h, x, n) && y in Chain(h, x, n)
    ensures exists m: nat :: m <= n && AtDepth(h, y, m) && (y == x || m < n)
    decreases n
  {
    if y == x {
      assert AtDepth(h, y, n);
    } else {
      ChainDepth(h, h[x].parent, n - 1, y);
    }
  }

  lemma {:induction false} ChainInHeap(h: Heap, x: Item, n: nat)
    requires AtDepth(h, x, n)
    ensures Chain(h, x, n) <= h.Keys
    decreases n
  {
    if h[x].parent != null {
      ChainInHeap(h, h[x].parent, n - 1);
    }
  }

  // ---------------------------------------------------------------- attaching and detaching

  /** Detaching x leaves an acyclic heap. */
  lemma {:induction false} DetachRooted(h: Heap, g: Heap, x: Item, y: Item, n: nat)
    requires x in h && h.Keys == g.Keys && g[x].parent == null
    requires forall z :: z in h && z != x ==> g[z].parent == h[z].parent
    requires AtDepth(h, y, n)
    ensures Rooted(g, y)
    decreases n
  {
    if g[y].parent == null {
      assert AtDepth(g, y, 0);
    } else {
      DetachRooted(h, g, x, h[y].parent, n - 1);
      assert AtDepth(g, y, Depth(g, h[y].parent) + 1);
    }
  }

  /** A chain that avoids x is not disturbed when x gets a parent. */
  lemma {:induction false} ChainAvoids(h: Heap, g: Heap, x: Item, c: Item, n: nat)
    requires x in h && h.Keys == g.Keys
    requires forall z :: z in h && z != x ==> g[z].parent == h[z].parent
    requires AtDepth(h, c, n) && x !in Chain(h, c, n)
    ensures AtDepth(g, c, n) && Chain(g, c, n) == Chain(h, c, n)
    decreases n
  {
    if h[c].parent != null {
      ChainAvoids(h, g, x, h[c].parent, n - 1);
    }
  }

  /** Hanging the root x under c keeps every item rooted when x is not above c. */
  lemma {:induction false} AttachRooted(h: Heap, g: Heap, x: Item, c: Item, y: Item, n: nat)
    requires x in h && h[x].parent == null && h.Keys == g.Keys && g[x].parent == c
    requires forall z :: z in h && z != x ==> g[z].parent == h[z].parent
    requires Rooted(g, c)
    requires AtDepth(h, y, n)
    ensures Rooted(g, y)
    decreases n
  {
    if y == x {
      assert AtDepth(g, y, Depth(g, c) + 1);
    } else if h[y].parent == null {
      assert AtDepth(g, y, 0);
    } else {
      AttachRooted(h, g, x, c, h[y].parent, n - 1);
      assert AtDepth(g, y, Depth(g, h[y].parent) + 1);
    }
  }

  // ---------------------------------------------------------------- sums of weights

  lemma {:induction false} SumSplit(h: Heap, s: seq<Item>, t: seq<Item>)
    ensures SumWeights(h, s + t) == SumWeights(h, s) + SumWeights(h, t)
    decreases |s|
  {
    if s == [] {
      assert s + t == t;
    } else {
      SumSplit(h, s[1..], t);
      assert (s + t)[1..] == s[1..] + t;
    }
  }

  lemma {:induction false} SumFrame(h: Heap, g: Heap, s: seq<Item>)
    requires forall i :: 0 <= i < |s| ==> s[i] in h && s[i] in g && WeightOf(h[s[i]]) == WeightOf(g[s[i]])
    ensures SumWeights(h, s) == SumWeights(g, s)
    decreases |s|
  {
    if s != [] {
      SumFrame(h, g, s[1..]);
    }
  }

  /** Changing the weight of the one occurrence of x shifts the sum by as much. */
  lemma {:induction false} SumShift(h: Heap, g: Heap, s: seq<Item>, x: Item)
    requires NoDup(s) && x in s
    requires forall i :: 0 <= i < |s| ==> s[i] in h && s[i] in g && (s[i] != x ==> WeightOf(h[s[i]]) == WeightOf(g[s[i]]))
    ensures SumWeights(g, s) == SumWeights(h, s) - WeightOf(h[x]) + WeightOf(g[x])
    decreases |s|
  {
    if s[0] == x {
      SumFrame(h, g, s[1..]);
    } else {
      SumShift(h, g, s[1..], x);
    }
  }

  // ---------------------------------------------------------------- weight propagation

  /** diff added to every cached weight in a set of items. */
  ghost function Bump(h: Heap, above: set<Item>, diff: int): (g: Heap)
    ensures SameButTotals(h, g)
  {
    map x | x in h :: if x in above then h[x].(total := Wrap(h[x].total + diff)) else h[x]
  }

  lemma WrapCongruent(a: int, b: int, c: int)
    requires Wrap(a) == Wrap(b)
    ensures Wrap(a + c) == Wrap(b + c)
  {
  }

  lemma WeightShift(n: Node, diff: int)
    requires n.kind.container
    ensures Wrap(WeightOf(n.(total := Wrap(n.total + diff)))) == Wrap(WeightOf(n) + diff)
  {
  }

  lemma NotOwnChild(h: Heap, c: Item)
    requires ChildrenLinked(h) && c in h && Rooted(h, c)
    ensures c !in h[c].items
    ensures h[c].parent != c
  {
    var n := Depth(h, c);
    if h[c].parent == c {
      DepthUnique(h, c, n, n - 1);
    }
  }

  /** g is h with other cached weights. */
  ghost predicate SameButTotals(h: Heap, g: Heap) {
    h.Keys == g.Keys && forall x :: x in h ==> g[x] == h[x].(total := g[x].total)
  }

  lemma SameButTotalsShaped(h: Heap, g: Heap)
    requires SameButTotals(h, g) && Shaped(h)
    ensures Shaped(g)
    ensures StackBounds(h) ==> StackBounds(g)
  {
    SameParentsKeepAcyclic(h, g);
  }

  ghost function AddTotal(h: Heap, c: Item, diff: int): (g: Heap)
    requires c in h
    ensures SameButTotals(h, g)
  {
    h[c := h[c].(total := Wrap(h[c].total + diff))]
  }

  /** A cached weight is undisturbed when no listed child changed weight. */
  lemma CacheFrame(h: Heap, g: Heap, y: Item, diff: int)
    requires y in h && y in g && g[y].items == h[y].items && g[y].total == h[y].total && CacheOff(h, y, diff)
    requires forall i :: 0 <= i < |h[y].items| ==>
      h[y].items[i] in h && h[y].items[i] in g && WeightOf(h[h[y].items[i]]) == WeightOf(g[h[y].items[i]])
    ensures CacheOff(g, y, diff)
  {
    SumFrame(h, g, h[y].items);
  }

  /** The cached weight of y goes off by diff when one listed child x gains diff. */
  lemma CacheShift(h: Heap, g: Heap, y: Item, x: Item, diff: int)
    requires y in h && y in g && g[y].items == h[y].items && g[y].total == h[y].total && CacheOff(h, y, 0)
    requires NoDup(h[y].items) && x in h[y].items
    requires forall i :: 0 <= i < |h[y].items| ==>
      h[y].items[i] in h && h[y].items[i] in g
      && (h[y].items[i] != x ==> WeightOf(h[h[y].items[i]]) == WeightOf(g[h[y].items[i]]))
    requires Wrap(WeightOf(g[x])) == Wrap(WeightOf(h[x]) + diff)
    ensures CacheOff(g, y, diff)
  {
    SumShift(h, g, h[y].items, x);
    var sum := SumWeights(h, h[y].items);
    WrapCongruent(WeightOf(g[x]), WeightOf(h[x]) + diff, sum - WeightOf(h[x]));
    WrapCongruent(h[y].total, sum, diff);
  }

  /** The propagation step repairs c itself ... */
  lemma BumpSelf(h: Heap, c: Item, diff: int)
    requires ChildrenLinked(h) && c in h && c !in h[c].items && CacheOff(h, c, diff)
    ensures CacheOff(AddTotal(h, c, diff), c, 0)
  {
    SumFrame(h, AddTotal(h, c, diff), h[c].items);
  }

  /** ... leaves containers that do not list c alone ... */
  lemma BumpOther(h: Heap, c: Item, diff: int, y: Item)
    requires ChildrenLinked(h) && c in h && y in h && y != c && c !in h[y].items && CacheOff(h, y, 0)
    ensures CacheOff(AddTotal(h, c, diff), y, 0)
  {
    CacheFrame(h, AddTotal(h, c, diff), y, 0);
  }

  /** ... and puts the parent of c off by diff in turn. */
  lemma BumpParent(h: Heap, c: Item, diff: int, p: Item)
    requires ChildrenLinked(h) && c in h && p in h && p != c && c in h[p].items
    requires h[c].kind.container && NoDup(h[p].items) && CacheOff(h, p, 0)
    ensures CacheOff(AddTotal(h, c, diff), p, diff)
  {
    WeightShift(h[c], diff);
    CacheShift(h, AddTotal(h, c, diff), p, c, diff);
  }

  lemma BumpSingle(h: Heap, c: Item, diff: int)
    requires c in h
    ensures Bump(h, {c}, diff) == AddTotal(h, c, diff)
  {
  }

  lemma BumpInsert(h: Heap, c: Item, above: set<Item>, diff: int)
    requires c in h && c !in above
    ensures Bump(h, {c} + above, diff) == Bump(AddTotal(h, c, diff), above, diff)
  {
  }

  /** The propagation is one step at c followed by the propagation from its parent. */
  lemma BumpUnroll(h: Heap, c: Item, diff: int, n: nat)
    requires AtDepth(h, c, n)
    ensures h[c].parent == null ==> Bump(h, Chain(h, c, n), diff) == AddTotal(h, c, diff)
    ensures h[c].parent != null ==>
      && AtDepth(AddTotal(h, c, diff), h[c].parent, n - 1)
      && Bump(h, Chain(h, c, n), diff)
         == Bump(AddTotal(h, c, diff), Chain(AddTotal(h, c, diff), h[c].parent, n - 1), diff)
  {
    var p := h[c].parent;
    if p == null {
      BumpSingle(h, c, diff);
      assert Chain(h, c, n) == {c};
    } else {
      var g := AddTotal(h, c, diff);
      SameParentsKeepDepth(h, g, p, n - 1);
      SameParentsKeepChain(h, g, p, n - 1);
      NotAboveParent(h, c, n);
      BumpInsert(h, c, Chain(h, p, n - 1), diff);
      assert Chain(h, c, n) == {c} + Chain(h, p, n - 1);
    }
  }

  lemma NotAboveParent(h: Heap, c: Item, n: nat)
    requires AtDepth(h, c, n) && h[c].parent != null
    ensures c !in Chain(h, h[c].parent, n - 1)
  {
    if c in Chain(h, h[c].parent, n - 1) {
      ChainDepth(h, h[c].parent, n - 1, c);
      var m: nat :| m <= n - 1 && AtDepth(h, c, m);
      DepthUnique(h, c, m, n);
    }
  }

  lemma {:induction false} SameParentsKeepChain(h: Heap, g: Heap, c: Item, n: nat)
    requires SameParents(h, g) && AtDepth(h, c, n) && AtDepth(g, c, n)
    ensures Chain(h, c, n) == Chain(g, c, n)
    decreases n
  {
    if h[c].parent != null {
      SameParentsKeepChain(h, g, h[c].parent, n - 1);
    }
  }

  /** The propagation repairs every cached weight on the way to the root. */
  lemma {:induction false} BumpRepairs(h: Heap, c: Item, diff: int, n: nat)
    requires OffAt(h, c, diff) && AtDepth(h, c, n)
    ensures Valid(Bump(h, Chain(h, c, n), diff))
    decreases n
  {
    BumpUnroll(h, c, diff, n);
    StepOff(h, c, diff);
    if h[c].parent != null {
      BumpRepairs(AddTotal(h, c, diff), h[c].parent, diff, n - 1);
    } else {
      AllCachesAgree(AddTotal(h, c, diff), c);
    }
  }

  /** Everything is in order except that the cached weight of c is off by diff. */
  ghost predicate OffAt(h: Heap, c: Item, diff: int) {
    && Shaped(h) && StackBounds(h) && c in h && h[c].kind.container
    && CacheOff(h, c, diff) && forall y {:trigger CacheOff(h, y, 0)} :: y in h && y != c ==> CacheOff(h, y, 0)
  }

  lemma AllCachesAgree(h: Heap, c: Item)
    requires OffAt(h, c, 0)
    ensures Valid(h)
  {
    forall y | y in h ensures CacheOff(h, y, 0) {}
  }

  lemma ValidIsOffByZero(h: Heap, c: Item)
    requires Valid(h) && c in h && h[c].kind.container
    ensures OffAt(h, c, 0)
  {
    forall y | y in h ensures CacheOff(h, y, 0) {}
  }

  lemma StepOff(h: Heap, c: Item, diff: int)
    requires OffAt(h, c, diff)
    ensures if h[c].parent == null then OffAt(AddTotal(h, c, diff), c, 0)
            else OffAt(AddTotal(h, c, diff), h[c].parent, diff)
  {
    var h1, p := AddTotal(h, c, diff), h[c].parent;
    SameButTotalsShaped(h, h1);
    assert Rooted(h, c);
    NotOwnChild(h, c);
    BumpSelf(h, c, diff);
    forall y | y in h && y != c && y != p ensures CacheOff(h1, y, 0) {
      StepOther(h, c, diff, y);
    }
    if p != null {
      StepParent(h, c, diff, p);
    }
  }

  lemma StepOther(h: Heap, c: Item, diff: int, y: Item)
    requires OffAt(h, c, diff) && y in h && y != c && y != h[c].parent
    ensures CacheOff(AddTotal(h, c, diff), y, 0)
  {
    assert CacheOff(h, y, 0);
    assert c !in h[y].items;
    BumpOther(h, c, diff, y);
  }

  lemma StepParent(h: Heap, c: Item, diff: int, p: Item)
    requires OffAt(h, c, diff) && p == h[c].parent && p != c
    ensures p in h && h[p].kind.container && CacheOff(AddTotal(h, c, diff), p, diff)
  {
    assert CacheOff(h, p, 0);
    assert NoDup(h[p].items) && h[p].items != [];
    BumpParent(h, c, diff, p);
  }

  /** c and everything above it. */
  ghost function Above(h: Heap, c: Item): set<Item>
    requires Rooted(h, c)
  {
    Chain(h, c, Depth(h, c))
  }

  lemma AboveIsChain(h: Heap, c: Item, n: nat)
    requires AtDepth(h, c, n)
    ensures Rooted(h, c) && Above(h, c) == Chain(h, c, n)
  {
    DepthUnique(h, c, n, Depth(h, c));
  }

  ghost function Reweigh(h: Heap, c: Item, diff: int): (g: Heap)
    requires Rooted(h, c)
    ensures SameButTotals(h, g)
  {
    Bump(h, Above(h, c), diff)
  }

  // ---------------------------------------------------------------- links

  /** x is a root that may be hung under c. */
  ghost predicate CanHang(h: Heap, c: Item, x: Item) {
    && c in h && x in h && h[c].kind.container && h[x].parent == null
    && Rooted(h, c) && x !in Above(h, c)
  }

  /** The first position of x in s. */
  function IndexOf(s: seq<Item>, x: Item): (i: nat)
    requires x in s
    ensures i < |s| && s[i] == x && x !in s[..i]
  {
    if s[0] == x then 0 else
      var j := IndexOf(s[1..], x);
      assert s[..1 + j] == [s[0]] + s[1..][..j];
      1 + j
  }

  function InsertAt(s: seq<Item>, k: nat, x: Item): seq<Item>
    requires k <= |s|
  {
    s[..k] + [x] + s[k..]
  }

  function EraseAt(s: seq<Item>, i: nat): seq<Item>
    requires i < |s|
  {
    s[..i] + s[i + 1..]
  }

  ghost function Link(h: Heap, c: Item, k: nat, x: Item): Heap
    requires c in h && x in h && x != c && k <= |h[c].items|
  {
    h[x := h[x].(parent := c)][c := h[c].(items := InsertAt(h[c].items, k, x))]
  }

  ghost function Unlink(h: Heap, c: Item, i: nat): Heap
    requires c in h && i < |h[c].items| && h[c].items[i] in h && h[c].items[i] != c
  {
    h[h[c].items[i] := h[h[c].items[i]].(parent := null)][c := h[c].(items := EraseAt(h[c].items, i))]
  }

  lemma InsertFacts(s: seq<Item>, k: nat, x: Item)
    requires k <= |s| && NoDup(s) && x !in s
    ensures NoDup(InsertAt(s, k, x))
    ensures forall y :: y in InsertAt(s, k, x) <==> y == x || y in s
  {
    var t := InsertAt(s, k, x);
    assert forall j :: 0 <= j < |t| ==> t[j] == if j < k then s[j] else if j == k then x else s[j - 1];
    assert t[k] == x;
    forall y | y in s ensures y in t {
      var j :| 0 <= j < |s| && s[j] == y;
      assert t[if j < k then j else j + 1] == y;
    }
  }

  lemma EraseFacts(s: seq<Item>, i: nat)
    requires i < |s| && NoDup(s)
    ensures NoDup(EraseAt(s, i)) && s[i] !in EraseAt(s, i)
    ensures forall y :: y in EraseAt(s, i) <==> y != s[i] && y in s
  {
    var t := EraseAt(s, i);
    assert forall j :: 0 <= j < |t| ==> t[j] == if j < i then s[j] else s[j + 1];
    forall y | y in s && y != s[i] ensures y in t {
      var j :| 0 <= j < |s| && s[j] == y;
      assert t[if j < i then j else j - 1] == y;
    }
  }

  lemma SumInsert(h: Heap, s: seq<Item>, k: nat, x: Item)
    requires k <= |s| && x in h
    ensures SumWeights(h, InsertAt(s, k, x)) == SumWeights(h, s) + WeightOf(h[x])
  {
    SumSplit(h, s[..k] + [x], s[k..]);
    SumSplit(h, s[..k], [x]);
    SumSplit(h, s[..k], s[k..]);
    assert s == s[..k] + s[k..];
  }

  lemma SumErase(h: Heap, s: seq<Item>, i: nat)
    requires i < |s| && s[i] in h
    ensures SumWeights(h, EraseAt(s, i)) == SumWeights(h, s) - WeightOf(h[s[i]])
  {
    SumInsert(h, EraseAt(s, i), i, s[i]);
    assert InsertAt(EraseAt(s, i), i, s[i]) == s;
  }

  lemma RootIsUnlisted(h: Heap, x: Item, c: Item)
    requires ChildrenLinked(h) && x in h && h[x].parent == null && c in h
    ensures x !in h[c].items
  {
  }

  lemma HangableDiffers(h: Heap, c: Item, x: Item)
    requires CanHang(h, c, x)
    ensures x != c
  {
  }

  lemma LinkLists(h: Heap, c: Item, k: nat, x: Item)
    requires Shaped(h) && CanHang(h, c, x) && x != c && k <= |h[c].items|
    ensures var g := Link(h, c, k, x); ChildrenLinked(g) && ParentsLinked(g) && ListsDistinct(g)
  {
    var g := Link(h, c, k, x);
    RootIsUnlisted(h, x, c);
    InsertFacts(h[c].items, k, x);
    forall d, i | d in g && 0 <= i < |g[d].items| ensures g[d].items[i] in g && g[g[d].items[i]].parent == d {
      var y := g[d].items[i];
      if d == c {
        assert y in InsertAt(h[c].items, k, x);
      } else {
        assert y == h[d].items[i];
        RootIsUnlisted(h, x, d);
      }
    }
  }

  lemma LinkShaped(h: Heap, c: Item, k: nat, x: Item)
    requires Shaped(h) && CanHang(h, c, x) && x != c && k <= |h[c].items|
    ensures Shaped(Link(h, c, k, x))
  {
    var g := Link(h, c, k, x);
    LinkLists(h, c, k, x);
    ChainAvoids(h, g, x, c, Depth(h, c));
    forall y | y in g ensures Rooted(g, y) {
      assert Rooted(h, y);
      AttachRooted(h, g, x, c, y, Depth(h, y));
    }
  }

  lemma LinkCacheSelf(h: Heap, c: Item, k: nat, x: Item, diff: int)
    requires ChildrenLinked(h) && c in h && x in h && x != c && k <= |h[c].items| && c !in h[c].items
    requires CacheOff(h, c, diff)
    ensures CacheOff(Link(h, c, k, x), c, diff + WeightOf(h[x]))
  {
    var g := Link(h, c, k, x);
    SumInsert(h, h[c].items, k, x);
    WrapCongruent(h[c].total + diff, SumWeights(h, h[c].items), WeightOf(h[x]));
    forall i | 0 <= i < |g[c].items| ensures g[c].items[i] in h && WeightOf(h[g[c].items[i]]) == WeightOf(g[g[c].items[i]]) {
      assert g[c].items[i] == if i < k then h[c].items[i] else if i == k then x else h[c].items[i - 1];
    }
    SumFrame(h, g, g[c].items);
  }

  lemma LinkCaches(h: Heap, c: Item, k: nat, x: Item, diff: int)
    requires ChildrenLinked(h) && c in h && x in h && x != c && k <= |h[c].items| && c !in h[c].items
    requires CacheOff(h, c, diff) && forall y :: y in h && y != c ==> CacheOff(h, y, 0)
    ensures var g := Link(h, c, k, x);
      CacheOff(g, c, diff + WeightOf(h[x])) && forall y :: y in g && y != c ==> CacheOff(g, y, 0)
  {
    var g := Link(h, c, k, x);
    LinkCacheSelf(h, c, k, x, diff);
    forall y | y in g && y != c ensures CacheOff(g, y, 0) {
      CacheFrame(h, g, y, 0);
    }
  }

  lemma UnlinkLists(h: Heap, c: Item, i: nat)
    requires Shaped(h) && c in h && i < |h[c].items| && h[c].items[i] != c
    ensures var g := Unlink(h, c, i); ChildrenLinked(g) && ParentsLinked(g) && ListsDistinct(g)
  {
    var g := Unlink(h, c, i);
    var x := h[c].items[i];
    EraseFacts(h[c].items, i);
    forall d, j | d in g && 0 <= j < |g[d].items| ensures g[d].items[j] in g && g[g[d].items[j]].parent == d {
      var y := g[d].items[j];
      if d == c {
        assert y in EraseAt(h[c].items, i);
      } else {
        assert y == h[d].items[j];
      }
    }
  }

  lemma UnlinkShaped(h: Heap, c: Item, i: nat)
    requires Shaped(h) && c in h && i < |h[c].items| && h[c].items[i] != c
    ensures Shaped(Unlink(h, c, i))
  {
    var g := Unlink(h, c, i);
    UnlinkLists(h, c, i);
    forall y | y in g ensures Rooted(g, y) {
      assert Rooted(h, y);
      DetachRooted(h, g, h[c].items[i], y, Depth(h, y));
    }
  }

  lemma UnlinkCacheSelf(h: Heap, c: Item, i: nat, diff: int)
    requires ChildrenLinked(h) && c in h && i < |h[c].items| && c !in h[c].items
    requires CacheOff(h, c, diff)
    ensures CacheOff(Unlink(h, c, i), c, diff - WeightOf(h[h[c].items[i]]))
  {
    var g := Unlink(h, c, i);
    var x := h[c].items[i];
    SumErase(h, h[c].items, i);
    WrapCongruent(h[c].total + diff, SumWeights(h, h[c].items), 0 - WeightOf(h[x]));
    forall j | 0 <= j < |g[c].items| ensures g[c].items[j] in h && WeightOf(h[g[c].items[j]]) == WeightOf(g[g[c].items[j]]) {
      assert g[c].items[j] == if j < i then h[c].items[j] else h[c].items[j + 1];
    }
    SumFrame(h, g, g[c].items);
  }

  lemma UnlinkCaches(h: Heap, c: Item, i: nat, diff: int)
    requires ChildrenLinked(h) && c in h && i < |h[c].items| && c !in h[c].items
    requires CacheOff(h, c, diff) && forall y :: y in h && y != c ==> CacheOff(h, y, 0)
    ensures var g := Unlink(h, c, i);
      CacheOff(g, c, diff - WeightOf(h[h[c].items[i]])) && forall y :: y in g && y != c ==> CacheOff(g, y, 0)
  {
    var g := Unlink(h, c, i);
    UnlinkCacheSelf(h, c, i, diff);
    forall y | y in g && y != c ensures CacheOff(g, y, 0) {
      CacheFrame(h, g, y, 0);
    }
  }

  // ---------------------------------------------------------------- the container operations, as values

  /** x hung under c at position k. */
  ghost function Attached(h: Heap, c: Item, k: nat, x: Item): Heap
    requires Shaped(h) && CanHang(h, c, x) && k <= |h[c].items|
  {
    LinkAbove(h, c, k, x);
    Reweigh(Link(h, c, k, x), c, WeightOf(h[x]))
  }

  /** The i-th child of c taken out. */
  ghost function Removed(h: Heap, c: Item, i: nat): Heap
    requires Shaped(h) && c in h && i < |h[c].items|
  {
    UnlinkAbove(h, c, i);
    Reweigh(Unlink(h, c, i), c, 0 - WeightOf(h[h[c].items[i]]))
  }

  /** The i-th child of c taken out and x put in its place. */
  ghost function Replaced(h: Heap, c: Item, i: nat, x: Item): Heap
    requires Shaped(h) && CanHang(h, c, x) && i < |h[c].items|
  {
    SwapAbove(h, c, i, x);
    Reweigh(Link(Unlink(h, c, i), c, i, x), c, WeightOf(h[x]) - WeightOf(h[h[c].items[i]]))
  }

  ghost function Recount(h: Heap, x: Item, kind: Kind, count: nat): Heap
    requires x in h
  {
    h[x := h[x].(kind := kind, count := count)]
  }

  /** x, a child of c, given another kind and count. */
  ghost function Recounted(h: Heap, c: Item, x: Item, kind: Kind, count: nat): Heap
    requires Rooted(h, c) && x in h
  {
    RecountAbove(h, c, x, kind, count);
    var g := Recount(h, x, kind, count);
    Reweigh(g, c, WeightOf(g[x]) - WeightOf(h[x]))
  }

  lemma NotOwnChildOf(h: Heap, c: Item)
    requires Shaped(h) && c in h
    ensures Rooted(h, c) && c !in h[c].items && h[c].parent != c
  {
    assert Rooted(h, c);
    NotOwnChild(h, c);
  }

  lemma ChildOffPath(h: Heap, c: Item, i: nat)
    requires Shaped(h) && c in h && i < |h[c].items|
    ensures Rooted(h, c) && h[c].items[i] !in Above(h, c)
  {
    assert Rooted(h, c);
    var x, n := h[c].items[i], Depth(h, c);
    assert h[x].parent == c && AtDepth(h, x, n + 1);
    NotAboveParent(h, x, n + 1);
  }

  lemma LinkAbove(h: Heap, c: Item, k: nat, x: Item)
    requires CanHang(h, c, x) && k <= |h[c].items|
    ensures x != c && Rooted(Link(h, c, k, x), c) && Above(Link(h, c, k, x), c) == Above(h, c)
  {
    HangableDiffers(h, c, x);
    var g, n := Link(h, c, k, x), Depth(h, c);
    ChainAvoids(h, g, x, c, n);
    AboveIsChain(g, c, n);
  }

  lemma UnlinkAbove(h: Heap, c: Item, i: nat)
    requires Shaped(h) && c in h && i < |h[c].items|
    ensures Rooted(h, c) && h[c].items[i] != c && h[c].items[i] !in Above(h, c)
    ensures Rooted(Unlink(h, c, i), c) && Above(Unlink(h, c, i), c) == Above(h, c)
  {
    NotOwnChildOf(h, c);
    ChildOffPath(h, c, i);
    var g, n := Unlink(h, c, i), Depth(h, c);
    ChainAvoids(h, g, h[c].items[i], c, n);
    AboveIsChain(g, c, n);
  }

  lemma SwapAbove(h: Heap, c: Item, i: nat, x: Item)
    requires Shaped(h) && CanHang(h, c, x) && i < |h[c].items|
    ensures h[c].items[i] != c && h[c].items[i] != x && x != c && CanHang(Unlink(h, c, i), c, x)
    ensures h[c].items[i] !in Above(h, c)
    ensures var g := Link(Unlink(h, c, i), c, i, x); Rooted(g, c) && Above(g, c) == Above(h, c)
  {
    UnlinkAbove(h, c, i);
    RootIsUnlisted(h, x, c);
    LinkAbove(Unlink(h, c, i), c, i, x);
  }

  lemma RecountAbove(h: Heap, c: Item, x: Item, kind: Kind, count: nat)
    requires Rooted(h, c) && x in h
    ensures Rooted(Recount(h, x, kind, count), c) && Above(Recount(h, x, kind, count), c) == Above(h, c)
  {
    var g, n := Recount(h, x, kind, count), Depth(h, c);
    SameParentsKeepDepth(h, g, c, n);
    SameParentsKeepChain(h, g, c, n);
    AboveIsChain(g, c, n);
  }

  lemma LinkOff(h: Heap, c: Item, k: nat, x: Item, diff: int)
    requires OffAt(h, c, diff) && CanHang(h, c, x) && x != c && k <= |h[c].items|
    ensures OffAt(Link(h, c, k, x), c, diff + WeightOf(h[x]))
  {
    NotOwnChildOf(h, c);
    LinkShaped(h, c, k, x);
    forall y | y in h && y != c ensures CacheOff(h, y, 0) {}
    LinkCaches(h, c, k, x, diff);
  }

  lemma UnlinkOff(h: Heap, c: Item, i: nat, diff: int)
    requires OffAt(h, c, diff) && i < |h[c].items| && h[c].items[i] != c
    ensures OffAt(Unlink(h, c, i), c, diff - WeightOf(h[h[c].items[i]]))
  {
    NotOwnChildOf(h, c);
    UnlinkShaped(h, c, i);
    forall y | y in h && y != c ensures CacheOff(h, y, 0) {}
    UnlinkCaches(h, c, i, diff);
  }

  lemma ReweighValid(h: Heap, c: Item, diff: int)
    requires OffAt(h, c, diff) && Rooted(h, c)
    ensures Valid(Reweigh(h, c, diff))
  {
    BumpRepairs(h, c, diff, Depth(h, c));
  }

  lemma AttachedValid(h: Heap, c: Item, k: nat, x: Item)
    requires Valid(h) && CanHang(h, c, x) && k <= |h[c].items|
    ensures Valid(Attached(h, c, k, x))
  {
    hide Acyclic, ParentsLinked, ListsDistinct, CachesAgree, StackBounds, OffAt, Link;
    LinkAbove(h, c, k, x);
    ValidIsOffByZero(h, c);
    LinkOff(h, c, k, x, 0);
    ReweighValid(Link(h, c, k, x), c, WeightOf(h[x]));
  }

  lemma RemovedValid(h: Heap, c: Item, i: nat)
    requires Valid(h) && c in h && i < |h[c].items|
    ensures Valid(Removed(h, c, i))
  {
    hide OffAt, Unlink;
    UnlinkAbove(h, c, i);
    assert h[c].items != [];
    ValidIsOffByZero(h, c);
    UnlinkOff(h, c, i, 0);
    ReweighValid(Unlink(h, c, i), c, 0 - WeightOf(h[h[c].items[i]]));
  }

  lemma SwapOff(h: Heap, c: Item, i: nat, x: Item)
    requires Valid(h) && CanHang(h, c, x) && i < |h[c].items|
    requires x != c && h[c].items[i] != c && h[c].items[i] != x && CanHang(Unlink(h, c, i), c, x)
    ensures OffAt(Link(Unlink(h, c, i), c, i, x), c, WeightOf(h[x]) - WeightOf(h[h[c].items[i]]))
  {
    hide Acyclic, ParentsLinked, ListsDistinct, CachesAgree, StackBounds, Above, OffAt, Link;
    ValidIsOffByZero(h, c);
    UnlinkOff(h, c, i, 0);
    LinkOff(Unlink(h, c, i), c, i, x, 0 - WeightOf(h[h[c].items[i]]));
  }

  lemma ReplacedValid(h: Heap, c: Item, i: nat, x: Item)
    requires Valid(h) && CanHang(h, c, x) && i < |h[c].items|
    ensures Valid(Replaced(h, c, i, x))
  {
    hide Acyclic, ParentsLinked, ListsDistinct, CachesAgree, StackBounds, OffAt, Link;
    SwapAbove(h, c, i, x);
    SwapOff(h, c, i, x);
    ReweighValid(Link(Unlink(h, c, i), c, i, x), c, WeightOf(h[x]) - WeightOf(h[h[c].items[i]]));
  }

  lemma RecountShaped(h: Heap, x: Item, kind: Kind, count: nat)
    requires Shaped(h) && x in h && kind.container == h[x].kind.container
    ensures Shaped(Recount(h, x, kind, count))
  {
    SameParentsKeepAcyclic(h, Recount(h, x, kind, count));
  }

  lemma RecountCaches(h: Heap, c: Item, x: Item, kind: Kind, count: nat)
    requires ChildrenLinked(h) && ListsDistinct(h) && c in h && x in h && x in h[c].items && x != c
    requires CacheOff(h, c, 0) && forall y :: y in h && y != c ==> CacheOff(h, y, 0)
    ensures var g := Recount(h, x, kind, count);
      CacheOff(g, c, WeightOf(g[x]) - WeightOf(h[x])) && forall y :: y in h && y != c ==> CacheOff(g, y, 0)
  {
    var g := Recount(h, x, kind, count);
    CacheShift(h, g, c, x, WeightOf(g[x]) - WeightOf(h[x]));
    forall y | y in h && y != c ensures CacheOff(g, y, 0) {
      RecountElsewhere(h, c, x, kind, count, y);
    }
  }

  lemma RecountElsewhere(h: Heap, c: Item, x: Item, kind: Kind, count: nat, y: Item)
    requires ChildrenLinked(h) && c in h && x in h && x in h[c].items && x != c
    requires y in h && y != c && CacheOff(h, y, 0)
    ensures CacheOff(Recount(h, x, kind, count), y, 0)
  {
    CacheFrame(h, Recount(h, x, kind, count), y, 0);
  }

  lemma RecountOff(h: Heap, c: Item, x: Item, kind: Kind, count: nat)
    requires OffAt(h, c, 0) && x in h && x in h[c].items
    requires kind.container == h[x].kind.container
    requires kind.stackable ==> 1 <= count <= 100 && !kind.container
    ensures var g := Recount(h, x, kind, count); OffAt(g, c, WeightOf(g[x]) - WeightOf(h[x]))
  {
    NotOwnChildOf(h, c);
    RecountShaped(h, x, kind, count);
    forall y | y in h && y != c ensures CacheOff(h, y, 0) {}
    RecountCaches(h, c, x, kind, count);
  }

  lemma RecountedValid(h: Heap, c: Item, x: Item, kind: Kind, count: nat)
    requires Valid(h) && c in h && x in h && x in h[c].items
    requires kind.container == h[x].kind.container
    requires kind.stackable ==> 1 <= count <= 100 && !kind.container
    ensures Rooted(h, c) && Valid(Recounted(h, c, x, kind, count))
  {
    hide Acyclic, ParentsLinked, CachesAgree, Above;
    NotOwnChildOf(h, c);
    assert h[c].items != [];
    ValidIsOffByZero(h, c);
    RecountAbove(h, c, x, kind, count);
    RecountOff(h, c, x, kind, count);
    var g := Recount(h, x, kind, count);
    ReweighValid(g, c, WeightOf(g[x]) - WeightOf(h[x]));
  }

  /** Item i of c losing removeCount of its count, or leaving altogether. */
  ghost function Taken(h: Heap, c: Item, i: nat, removeCount: nat): Heap
    requires Shaped(h) && c in h && i < |h[c].items|
    requires var n := h[h[c].items[i]]; n.kind.stackable ==> removeCount <= n.count
  {
    NotOwnChildOf(h, c);
    var n := h[h[c].items[i]];
    if n.kind.stackable && removeCount != n.count
    then Recounted(h, c, h[c].items[i], n.kind, n.count - removeCount)
    else Removed(h, c, i)
  }

  // ---------------------------------------------------------------- the order of the heap steps

  /** Propagating the loss first and unlinking afterwards gives the same heap. */
  lemma BumpUnlink(h: Heap, c: Item, i: nat, above: set<Item>, diff: int)
    requires c in h && i < |h[c].items| && h[c].items[i] in h && h[c].items[i] != c
    ensures Unlink(Bump(h, above, diff), c, i) == Bump(Unlink(h, c, i), above, diff)
  {
  }

  /** x listed in place of the i-th child, which still names c as its parent. */
  ghost function Exchanged(h: Heap, c: Item, i: nat, x: Item): Heap
    requires c in h && x in h && x != c && i < |h[c].items|
  {
    h[x := h[x].(parent := c)][c := h[c].(items := h[c].items[i := x])]
  }

  ghost function Orphaned(h: Heap, x: Item): Heap
    requires x in h
  {
    h[x := h[x].(parent := null)]
  }

  /** Exchanging, propagating and then clearing the parent is unlink, link and propagate. */
  lemma BumpExchange(h: Heap, c: Item, i: nat, x: Item, above: set<Item>, diff: int)
    requires c in h && x in h && x != c && i < |h[c].items|
    requires h[c].items[i] in h && h[c].items[i] != c && h[c].items[i] != x
    ensures Orphaned(Bump(Exchanged(h, c, i, x), above, diff), h[c].items[i])
         == Bump(Link(Unlink(h, c, i), c, i, x), above, diff)
  {
    assert InsertAt(EraseAt(h[c].items, i), i, x) == h[c].items[i := x];
  }

  lemma ReplacedBySteps(h: Heap, c: Item, i: nat, x: Item)
    requires Shaped(h) && CanHang(h, c, x) && i < |h[c].items|
    ensures x != c && h[c].items[i] in h && Rooted(h, c)
    ensures var g, old' := Exchanged(h, c, i, x), h[c].items[i];
      && AtDepth(g, c, Depth(h, c)) && old' in g
      && Replaced(h, c, i, x) == Orphaned(Bump(g, Chain(g, c, Depth(h, c)), WeightOf(h[x]) - WeightOf(h[old'])), old')
  {
    hide Bump, Orphaned, Link, Unlink, Chain;
    SwapAbove(h, c, i, x);
    ExchangedAbove(h, c, i, x);
    BumpExchange(h, c, i, x, Above(h, c), WeightOf(h[x]) - WeightOf(h[h[c].items[i]]));
  }

  lemma ExchangedAbove(h: Heap, c: Item, i: nat, x: Item)
    requires Shaped(h) && CanHang(h, c, x) && x != c && i < |h[c].items|
    ensures AtDepth(Exchanged(h, c, i, x), c, Depth(h, c))
    ensures Chain(Exchanged(h, c, i, x), c, Depth(h, c)) == Above(h, c)
  {
    ChainAvoids(h, Exchanged(h, c, i, x), x, c, Depth(h, c));
  }

  lemma TakenValid(h: Heap, c: Item, i: nat, removeCount: nat)
    requires Valid(h) && c in h && i < |h[c].items|
    requires var n := h[h[c].items[i]]; n.kind.stackable ==> 1 <= removeCount <= n.count
    ensures Rooted(h, c) && Valid(Taken(h, c, i, removeCount))
  {
    hide Acyclic, ParentsLinked, ListsDistinct, CachesAgree, Recounted, Removed, Above;
    NotOwnChildOf(h, c);
    var n := h[h[c].items[i]];
    if n.kind.stackable && removeCount != n.count {
      RecountedValid(h, c, h[c].items[i], n.kind, n.count - removeCount);
    } else {
      RemovedValid(h, c, i);
    }
  }
}
