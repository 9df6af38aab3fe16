/** Moving items between containers: splitting, merging and the ledger of what went where. */
module Moves {
  import opened Forest
  import opened Ledger
  import opened Queries

  const MAP_MAX_LAYERS := 16

  // ---------------------------------------------------------------- what a move does

  /** source lost `moved` of kind k, target gained `gained`; no other count changed anywhere. */
  ghost predicate Transferred(h: Heap, g: Heap, source: Item, target: Item, k: Kind, moved: int, gained: int) {
    && h.Keys <= g.Keys
    && forall c: Item, j: Kind {:trigger Holds(g, c, j)} :: c in h && c in g ==>
         Holds(g, c, j) == Holds(h, c, j)
           - (if c == source && j == k then moved else 0) + (if c == target && j == k then gained else 0)
  }

  lemma BookedBoth(h: Heap, m: Heap, g: Heap, source: Item, target: Item, k: Kind, moved: int, gained: int)
    requires Booked(h, m, source, k, -moved) && Booked(m, g, target, k, gained)
    ensures Transferred(h, g, source, target, k, moved, gained)
  {
    forall c: Item, j: Kind | c in h && c in g
      ensures Holds(g, c, j) == Holds(h, c, j)
        - (if c == source && j == k then moved else 0) + (if c == target && j == k then gained else 0)
    {
      assert c in m && Holds(m, c, j) == Holds(m, c, j);
    }
  }

  /** No item list got longer, except that of c0 by at most d. */
  ghost predicate Grows(h: Heap, g: Heap, c0: Item, d: nat) {
    forall c {:trigger g[c].items} :: c in h && c in g ==> |g[c].items| <= |h[c].items| + if c == c0 then d else 0
  }

  /** Only stacks of kind k changed count, nothing changed kind, nothing already placed moved or got less, and
      nothing was placed but the item that is added. */
  ghost predicate KeepsOthers(h: Heap, g: Heap, k: Kind, added: Item?) {
    && h.Keys <= g.Keys
    && forall x {:trigger g[x]} :: x in h ==>
         && g[x].kind == h[x].kind && (h[x].kind != k ==> g[x].count == h[x].count)
         && (h[x].parent != null ==> g[x].parent == h[x].parent && g[x].count >= h[x].count)
         && (h[x].parent == null && x != added ==> g[x].parent == null)
  }

  // ---------------------------------------------------------------- taking out and putting in

  lemma TakenSizes(h: Heap, c: Item, i: nat, removeCount: nat)
    requires Valid(h) && c in h && i < |h[c].items|
    requires var n := h[h[c].items[i]]; n.kind.stackable ==> 1 <= removeCount <= n.count
    ensures Rooted(h, c) && Grows(h, Taken(h, c, i, removeCount), c, 0)
    ensures Taken(h, c, i, removeCount).Keys == h.Keys
  {
    UnlinkAbove(h, c, i);
  }

  /** After a whole item left its container it can be hung anywhere it could be asked to go. */
  lemma RemovedHangs(h: Heap, c: Item, i: nat, target: Item)
    requires Valid(h) && c in h && i < |h[c].items| && target in h && h[target].kind.container
    requires Rooted(h, target) && h[c].items[i] !in Above(h, target)
    ensures CanHang(Removed(h, c, i), target, h[c].items[i])
    ensures var g, x := Removed(h, c, i), h[c].items[i]; g[x].kind == h[x].kind && g[x].count == h[x].count
  {
    UnlinkAbove(h, c, i);
    var x, u, n := h[c].items[i], Unlink(h, c, i), Depth(h, target);
    ChainAvoids(h, u, x, target, n);
    var g := Removed(h, c, i);
    SameParentsKeepDepth(u, g, target, n);
    SameParentsKeepChain(u, g, target, n);
    AboveIsChain(g, target, n);
  }

  method TakeFrom(source: Item, item: Item, m: nat, ghost s: set<Item>)
    requires Valid(Snapshot(s)) && source in s && item in s && item in source.items
    requires item.kind.stackable ==> 1 <= m <= item.count
    modifies s
    ensures Valid(Snapshot(s))
    ensures Snapshot(s) == Taken(old(Snapshot(s)), source, IndexOf(old(source.items), item), m)
    ensures Booked(old(Snapshot(s)), Snapshot(s), source, old(item.kind), -(TakenAmount(old(item.State()), m) as int))
    ensures Grows(old(Snapshot(s)), Snapshot(s), source, 0)
  {
    ghost var i := IndexOf(source.items, item);
    TakenBooked(Snapshot(s), source, i, m);
    TakenSizes(Snapshot(s), source, i, m);
    source.RemoveThing(item, m, s);
  }

  /** Moving a whole item: the object itself changes place. */
  method MoveWhole(source: Item, target: Item, index: int, item: Item, m: nat, ghost s: set<Item>)
    requires Valid(Snapshot(s)) && source in s && target in s && item in s && item in source.items
    requires !item.kind.stackable && target.kind.container && index < target.capacity
    requires Rooted(Snapshot(s), target) && item !in Above(Snapshot(s), target)
    modifies s
    ensures Valid(Snapshot(s)) && Snapshot(s).Keys == s
    ensures Transferred(old(Snapshot(s)), Snapshot(s), source, target, old(item.kind), old(item.count), old(item.count))
    ensures Grows(old(Snapshot(s)), Snapshot(s), target, 1)
    ensures item.parent == target
  {
    hide Valid, Booked, Transferred, Removed;
    ghost var h := Snapshot(s);
    ghost var i := IndexOf(source.items, item);
    RemovedHangs(h, source, i, target);
    TakeFrom(source, item, m, s);
    ghost var h1 := Snapshot(s);
    LinkedShape(h);
    assert h1 == Taken(h, source, i, m) == Removed(h, source, i);
    assert item.State() == h1[item];
    PutWhole(target, index, item, s);
    BookedBoth(h, h1, Snapshot(s), source, target, h[item].kind, h[item].count, h[item].count);
  }

  lemma PutFacts(h: Heap, c: Item, x: Item)
    requires Valid(h) && CanHang(h, c, x)
    ensures var g := Attached(h, c, 0, x);
      && Booked(h, g, c, h[x].kind, h[x].count) && Grows(h, g, c, 1) && KeepsOthers(h, g, h[x].kind, x)
      && x in g && g[x].parent == c
  {
    hide Booked, Acyclic, CachesAgree, StackBounds, ListsDistinct, ParentsLinked, ChildrenLinked;
    AttachedBooked(h, c, 0, x);
    LinkAbove(h, c, 0, x);
  }

  method PutWhole(target: Item, index: int, item: Item, ghost s: set<Item>)
    requires Valid(Snapshot(s)) && CanHang(Snapshot(s), target, item) && index < target.capacity
    modifies s
    ensures Valid(Snapshot(s))
    ensures Booked(old(Snapshot(s)), Snapshot(s), target, old(item.kind), old(item.count))
    ensures Grows(old(Snapshot(s)), Snapshot(s), target, 1)
    ensures KeepsOthers(old(Snapshot(s)), Snapshot(s), old(item.kind), item)
    ensures item.parent == target
  {
    hide Valid, Booked, Grows, KeepsOthers, Attached;
    PutFacts(Snapshot(s), target, item);
    target.AddThing(index, item, s);
    assert item.State() == Snapshot(s)[item];
  }

  lemma TopUpBooked(h: Heap, c: Item, x: Item, n: nat)
    requires Valid(h) && c in h && x in h && x in h[c].items && h[x].kind.stackable
    ensures Rooted(h, c) && !h[x].kind.container
    ensures var g := Recounted(h, c, x, h[x].kind, h[x].count + n);
      && Booked(h, g, c, h[x].kind, n) && Grows(h, g, c, 0) && KeepsOthers(h, g, h[x].kind, null)
      && c in g && g[c].kind == h[c].kind
  {
    hide Booked, Grows, KeepsOthers, Recounted;
    assert Rooted(h, c);
    TopUpKeeps(h, c, x, h[x].count + n);
    RecountedBooked(h, c, x, h[x].count + n);
  }

  lemma TopUpKeeps(h: Heap, c: Item, x: Item, count: nat)
    requires Rooted(h, c) && c in h && x in h
    ensures var g := Recounted(h, c, x, h[x].kind, count);
      Grows(h, g, c, 0) && (h[x].kind.stackable && count >= h[x].count ==> KeepsOthers(h, g, h[x].kind, null)) && c in g && g[c].kind == h[c].kind
  {
    RecountAbove(h, c, x, h[x].kind, count);
  }

  /** Topping up a listed stack. */
  method TopUp(target: Item, toItem: Item, n: nat, ghost s: set<Item>)
    requires Valid(Snapshot(s)) && target in s && toItem in s && toItem in target.items
    requires toItem.kind.stackable && 1 <= toItem.count + n <= MAX_STACK
    modifies s
    ensures Valid(Snapshot(s))
    ensures Booked(old(Snapshot(s)), Snapshot(s), target, old(toItem.kind), n)
    ensures Grows(old(Snapshot(s)), Snapshot(s), target, 0)
    ensures KeepsOthers(old(Snapshot(s)), Snapshot(s), old(toItem.kind), null)
    ensures target.kind == old(target.kind)
  {
    hide Valid, Booked, Grows, KeepsOthers, Recounted;
    assert !toItem.kind.container by { StackBound(Snapshot(s), toItem); }
    TopUpBooked(Snapshot(s), target, toItem, n);
    target.UpdateThing(toItem, toItem.kind, toItem.count + n, s);
    assert Snapshot(s)[target] == target.State();
  }

  lemma StackBound(h: Heap, x: Item)
    requires Valid(h) && x in h && h[x].kind.stackable
    ensures 1 <= h[x].count <= MAX_STACK && !h[x].kind.container
  {
  }

  lemma LinkedShape(h: Heap)
    requires Valid(h)
    ensures Shaped(h)
  {
  }

  lemma NewStackGrows(h: Heap, x: Item, kind: Kind, count: nat, c: Item)
    requires Valid(h) && x !in h && c in h && CanHang(WithItem(h, x, kind, count), c, x)
    requires Valid(WithItem(h, x, kind, count))
    ensures var h1 := WithItem(h, x, kind, count);
      Grows(h, h1, c, 0) && Grows(h, Attached(h1, c, 0, x), c, 1)
      && Booked(h1, Attached(h1, c, 0, x), c, kind, count) && Attached(h1, c, 0, x)[x].kind == kind
      && Attached(h1, c, 0, x)[x].count == count
  {
    LinkAbove(WithItem(h, x, kind, count), c, 0, x);
    AttachedBooked(WithItem(h, x, kind, count), c, 0, x);
  }

  /** Adding a fresh stack; the call is dropped when index lies beyond the capacity. */
  method AddStack(target: Item, index: int, kind: Kind, count: nat, ghost s: set<Item>)
    returns (x: Item, ghost s': set<Item>)
    requires Valid(Snapshot(s)) && target in s && target.kind.container
    requires kind.stackable && !kind.container && 1 <= count <= MAX_STACK
    modifies s
    ensures fresh(x) && s' == s + {x} && x.kind == kind && x.count == count
    ensures Valid(Snapshot(s'))
    ensures Booked(old(Snapshot(s)), Snapshot(s'), target, kind, if index < target.capacity then count else 0)
    ensures Grows(old(Snapshot(s)), Snapshot(s'), target, if index < target.capacity then 1 else 0)
  {
    hide Valid, Booked, Grows;
    ghost var h := Snapshot(s);
    LinkedShape(h);
    x := new Item(kind, count, 0, true);
    s' := s + {x};
    ghost var h1 := WithItem(h, x, kind, count);
    assert Snapshot(s') == h1;
    WithItemValid(h, x, kind, count);
    WithItemHang(h, x, kind, count, target);
    WithItemBooked(h, x, kind, count, target, kind);
    NewStackGrows(h, x, kind, count, target);
    target.AddThing(index, x, s');
    if index < target.capacity {
      BookedTwice(h, h1, Snapshot(s'), target, kind, 0, count);
    }
    assert x.State() == Snapshot(s')[x];
  }

  /** Free places on the stack lying at the destination. */
  ghost function Room(h: Heap, k: Kind, toItem: Item?): nat {
    if toItem != null && toItem in h && h[toItem].kind == k && h[toItem].count <= MAX_STACK
    then MAX_STACK - h[toItem].count else 0
  }

  function Min(a: nat, b: nat): nat {
    if a < b then a else b
  }

  /** Moving m of a stack: first onto the stack at the destination, the rest as a new stack. */
  method MoveStack(source: Item, target: Item, index: int, toItem: Item?, item: Item, m: nat, ghost s: set<Item>)
    returns (moveItem: Item?, ghost s': set<Item>)
    requires Valid(Snapshot(s)) && source in s && target in s && item in s && item in source.items
    requires item.kind.stackable && 1 <= m <= item.count && target.kind.container
    requires toItem != null ==> toItem != item && toItem in s && toItem in target.items
    modifies s
    ensures s <= s' && fresh(s' - s) && Valid(Snapshot(s'))
    ensures var h, k := old(Snapshot(s)), old(item.kind);
      && Transferred(h, Snapshot(s'), source, target, k, m,
           if index < target.capacity then m else Min(Room(h, k, toItem), m))
      && Grows(h, Snapshot(s'), target, if index < target.capacity && m > Room(h, k, toItem) then 1 else 0)
  {
    hide Valid, Booked, Transferred, Taken;
    ghost var h := Snapshot(s);
    StackBound(h, item);
    var kind := item.kind;
    TakeFrom(source, item, m, s);
    ghost var h1 := Snapshot(s);
    TakenElsewhere(h, source, IndexOf(h[source].items, item), m);
    ghost var gained: nat, added: bool;
    moveItem, s', gained, added := PutStack(target, index, toItem, kind, m, s);
    BookedBoth(h, h1, Snapshot(s'), source, target, kind, m, gained);
  }

  /** Taking from a container leaves the stacks and lists it does not touch. */
  lemma TakenElsewhere(h: Heap, c: Item, i: nat, removeCount: nat)
    requires Valid(h) && c in h && i < |h[c].items|
    requires var n := h[h[c].items[i]]; n.kind.stackable ==> 1 <= removeCount <= n.count
    ensures var g := Taken(h, c, i, removeCount);
      && g.Keys == h.Keys
      && (forall x :: x in h && x != h[c].items[i] ==> g[x].kind == h[x].kind && g[x].count == h[x].count)
      && (forall d, x :: d in h && x in h[d].items && x != h[c].items[i] ==> x in g[d].items)
      && (forall d :: d in h ==> g[d].kind == h[d].kind)
  {
    UnlinkAbove(h, c, i);
    EraseFacts(h[c].items, i);
  }

  method PutStack(target: Item, index: int, toItem: Item?, kind: Kind, m: nat, ghost s: set<Item>)
    returns (moveItem: Item?, ghost s': set<Item>, ghost gained: nat, ghost added: bool)
    requires Valid(Snapshot(s)) && target in s && target.kind.container
    requires kind.stackable && !kind.container && 1 <= m <= MAX_STACK
    requires toItem != null ==> toItem in s && toItem in target.items
    modifies s
    ensures s <= s' && fresh(s' - s) && Valid(Snapshot(s'))
    ensures var room := Room(old(Snapshot(s)), kind, toItem);
      && gained == (if index < target.capacity then m else Min(room, m))
      && added == (index < target.capacity && m > room)
    ensures Booked(old(Snapshot(s)), Snapshot(s'), target, kind, gained)
    ensures Grows(old(Snapshot(s)), Snapshot(s'), target, if added then 1 else 0)
  {
    hide Booked, Valid, Holds, Grows, KeepsOthers;
    var n := 0;
    ghost var h := Snapshot(s);
    BookedSame(h, target, kind);
    NothingGrows(h, target);
    if toItem != null && toItem.kind == kind {
      StackBound(h, toItem);
      n := Min(MAX_STACK - toItem.count, m);
      TopUp(target, toItem, n, s);
    }
    s', moveItem := s, null;
    gained, added := n, false;
    ghost var h1 := Snapshot(s);
    assert n == Min(Room(h, kind, toItem), m);
    if m - n > 0 {
      moveItem, s' := AddStack(target, index, kind, m - n, s);
      if index < target.capacity {
        gained, added := m, true;
      }
      BookedTwice(h, h1, Snapshot(s'), target, kind, n, gained - n);
      GrowsBoth(h, h1, Snapshot(s'), target, if added then 1 else 0);
    }
  }

  lemma NothingGrows(h: Heap, c: Item)
    ensures Grows(h, h, c, 0)
  {
  }

  lemma GrowsBoth(h: Heap, m: Heap, g: Heap, c: Item, d: nat)
    requires Grows(h, m, c, 0) && Grows(m, g, c, d) && h.Keys <= m.Keys
    ensures Grows(h, g, c, d)
  {
  }

  // ---------------------------------------------------------------- finding the destination

  /** What the move relies on: the slot named and the item lying there agree. */
  ghost predicate Settled(h: Heap, d: Destination) {
    && d.cylinder in h && h[d.cylinder].kind.container
    && (d.toItem != null ==>
          d.cylinder.unlocked && 0 <= d.index < |h[d.cylinder].items| && h[d.cylinder].items[d.index] == d.toItem
          && d.toItem in h && !h[d.toItem].kind.container)
    && (d.cylinder.unlocked && 0 <= d.index < |h[d.cylinder].items| ==> d.toItem == h[d.cylinder].items[d.index])
    && (d.cylinder.unlocked ==> d.index < d.cylinder.capacity || 0 <= d.index < |h[d.cylinder].items|)
  }

  /** A slot beyond the capacity is only ever named to merge a stack. */
  ghost predicate InRange(h: Heap, d: Destination, item: Item) {
    item in h && (d.cylinder.unlocked && !h[item].kind.stackable ==> d.index < d.cylinder.capacity)
  }

  /** The first container asked either keeps the item or names one other container, which then
      keeps it: the walk never takes a third step. */
  ghost function Resolved(h: Heap, to: Item, index: int, item: Item, flags: Flags): Destination
    requires ChildrenLinked(h) && ParentsLinked(h) && to in h && item in h
  {
    var d := DestinationOf(h, to, index, item, flags);
    if d.cylinder == to then d else DestinationOf(h, d.cylinder, WHEREEVER, item, flags)
  }

  lemma WhereeverStays(h: Heap, c: Item, item: Item, flags: Flags)
    requires Valid(h) && c in h && item in h && h[c].kind.container
    ensures var d := DestinationOf(h, c, WHEREEVER, item, flags); d.cylinder == c && Settled(h, d) && InRange(h, d, item)
  {
    var n := FirstStack(h, item, h[c].items);
    if n < |h[c].items| {
      assert Mergeable(h, item, h[c].items[n]);
    }
  }

  lemma DestinationSettled(h: Heap, c: Item, index: int, item: Item, flags: Flags)
    requires Valid(h) && c in h && item in h && h[c].kind.container
    ensures var d := DestinationOf(h, c, index, item, flags);
      if d.cylinder == c then Settled(h, d) && InRange(h, d, item)
      else d.cylinder in h && h[d.cylinder].kind.container && d.index == WHEREEVER && d.toItem == null
  {
    var n := FirstStack(h, item, h[c].items);
    if n < |h[c].items| {
      assert Mergeable(h, item, h[c].items[n]);
    }
    if h[c].parent != null {
      assert h[h[c].parent].items != [];
    }
  }

  method ResolveDestination(target: Item, toIndex: int, item: Item, flags: Flags, ghost s: set<Item>)
    returns (d: Destination)
    requires Valid(Snapshot(s)) && target in s && item in s && target.kind.container
    ensures d == Resolved(Snapshot(s), target, toIndex, item, flags) && Settled(Snapshot(s), d)
    ensures InRange(Snapshot(s), d, item)
  {
    ghost var h := Snapshot(s);
    var to := target;
    DestinationSettled(h, target, toIndex, item, flags);
    d := QueryDestination(to, toIndex, item, flags, s);
    var floorN := 0;
    while d.cylinder != to
      invariant to in s && floorN <= 1
      invariant floorN == 0 ==> to == target && d == DestinationOf(h, target, toIndex, item, flags)
      invariant floorN == 1 ==> d.cylinder == to && d == Resolved(h, target, toIndex, item, flags)
      invariant floorN == 1 ==> Settled(h, d) && InRange(h, d, item)
      decreases 1 - floorN
    {
      to := d.cylinder;
      WhereeverStays(h, to, item, flags);
      floorN := floorN + 1;
      if floorN >= MAP_MAX_LAYERS {
        break;
      }
      d := QueryDestination(to, d.index, item, flags, s);
    }
  }

  // ---------------------------------------------------------------- internalMoveItem

  /** The outcome of the checks: an answer, or the go-ahead for m items. */
  datatype Plan = Stop(ret: ReturnValue) | Go(m: nat, ret: ReturnValue)

  ghost function PlanOf(h: Heap, source: Item, d: Destination, item: Item, count: nat, flags: Flags, tradeItem: Item?): Plan
    requires Rooted(h, d.cylinder) && item in h && source in h
  {
    var c := d.cylinder;
    var max := MaxCount(h, c, d.index, item, count, flags);
    var retMax := MaxVerdict(h, c, d.index, item, count, flags);
    var m := if h[item].kind.stackable then Min(count, max) else max;
    if item == d.toItem then Stop(NoError)
    else if AddVerdict(h, c, d.index, item, flags) != NoError then Stop(AddVerdict(h, c, d.index, item, flags))
    else if retMax != NoError && max == 0 then Stop(retMax)
    else if RemoveVerdict(h, source, item, m, flags) != NoError then Stop(RemoveVerdict(h, source, item, m, flags))
    else if tradeItem != null && tradeItem in Above(h, c) then Stop(NotEnoughRoom)
    else Go(m, if h[item].kind.stackable && max < count then retMax else NoError)
  }

  method CheckMove(source: Item, d: Destination, item: Item, count: nat, flags: Flags, tradeItem: Item?, ghost s: set<Item>)
    returns (plan: Plan)
    requires Shaped(Snapshot(s)) && source in s && d.cylinder in s && item in s
    ensures Rooted(Snapshot(s), d.cylinder)
    ensures plan == PlanOf(Snapshot(s), source, d, item, count, flags, tradeItem)
  {
    assert Rooted(Snapshot(s), d.cylinder);
    if item == d.toItem {
      return Stop(NoError);
    }
    var ret := QueryAdd(d.cylinder, d.index, item, flags, false, s);
    if ret != NoError {
      return Stop(ret);
    }
    var retMax, max := QueryMaxCount(d.cylinder, d.index, item, count, flags, s);
    if retMax != NoError && max == 0 {
      return Stop(retMax);
    }
    var m := if item.kind.stackable then Min(count, max) else max;
    ret := QueryRemove(source, item, m, flags, s);
    if ret != NoError {
      return Stop(ret);
    }
    if tradeItem != null {
      if d.cylinder == tradeItem {
        return Stop(NotEnoughRoom);
      }
      var above := IsAbove(d.cylinder, tradeItem, s);
      if above {
        return Stop(NotEnoughRoom);
      }
    }
    plan := Go(m, if item.kind.stackable && max < count then retMax else NoError);
  }

  /** What the checks have established once they let a move go ahead. */
  lemma PlanFacts(h: Heap, source: Item, d: Destination, item: Item, count: nat, flags: Flags, tradeItem: Item?)
    requires Valid(h) && Settled(h, d) && item in h && source in h && Rooted(h, d.cylinder)
    requires InRange(h, d, item) && PlanOf(h, source, d, item, count, flags, tradeItem).Go?
    ensures var m, c := PlanOf(h, source, d, item, count, flags, tradeItem).m, d.cylinder;
      && item in h[source].items && item != d.toItem && item !in Above(h, c)
      && (h[item].kind.stackable ==>
            && 1 <= m <= h[item].count && m == Min(count, MaxCount(h, c, d.index, item, count, flags))
            && (m > Room(h, h[item].kind, d.toItem) && !flags.noLimit ==> |h[c].items| < c.capacity)
            && (d.index >= c.capacity && (!flags.noLimit || |h[c].items| <= c.capacity) ==>
                  Min(Room(h, h[item].kind, d.toItem), m) == m))
      && (!h[item].kind.stackable ==> d.index < c.capacity && (!flags.noLimit ==> |h[c].items| < c.capacity))
  {
    var c := d.cylinder;
    assert c in Above(h, c);
    if d.toItem != null {
      assert h[d.toItem].kind.stackable ==> h[d.toItem].count <= 100;
    }
  }

  /** How many of the items that leave the source arrive: all of them when the slot lies within the
      capacity, and otherwise what fits on the stack lying there. */
  ghost function Arriving(h: Heap, d: Destination, item: Item, moved: nat): nat
    requires item in h
  {
    if !h[item].kind.stackable || d.index < d.cylinder.capacity then moved else Min(Room(h, h[item].kind, d.toItem), moved)
  }

  /** The destination finally used, whether the move went ahead, how many items left the source
      and how many arrived. */
  datatype Report = Report(dest: Item, index: int, acted: bool, moved: nat, gained: nat)

  /** Lists only got longer up to the capacity of their container. */
  ghost predicate WithinCapacity(h: Heap, g: Heap) {
    forall c {:trigger g[c].items} :: c in h && c in g ==> |g[c].items| <= |h[c].items| || |g[c].items| <= c.capacity
  }

  method ExecuteMove(source: Item, d: Destination, item: Item, m: nat, ghost count: nat, ghost flags: Flags,
                     ghost tradeItem: Item?, ghost s: set<Item>)
    returns (moveItem: Item?, ghost report: Report, ghost s': set<Item>)
    requires Valid(Snapshot(s)) && source in s && item in s && Settled(Snapshot(s), d) && InRange(Snapshot(s), d, item)
    requires Rooted(Snapshot(s), d.cylinder)
    requires var p := PlanOf(Snapshot(s), source, d, item, count, flags, tradeItem); p.Go? && p.m == m
    modifies s
    ensures s <= s' && fresh(s' - s) && Valid(Snapshot(s'))
    ensures Transferred(old(Snapshot(s)), Snapshot(s'), source, d.cylinder, old(item.kind), report.moved, report.gained)
    ensures report.dest == d.cylinder && report.index == d.index && report.acted
    ensures report.gained <= report.moved == if old(item.kind.stackable) then m else old(item.count)
    ensures report.gained < report.moved ==>
      flags.noLimit && |old(Snapshot(s))[d.cylinder].items| > d.cylinder.capacity
    ensures report.gained == Arriving(old(Snapshot(s)), d, item, report.moved)
    ensures old(item.kind.stackable) ==> 0 < m == Min(count, MaxCount(old(Snapshot(s)), d.cylinder, d.index, item, count, flags))
    ensures !old(item.kind.stackable) ==> item.parent == d.cylinder
    ensures !flags.noLimit ==> WithinCapacity(old(Snapshot(s)), Snapshot(s'))
  {
    ghost var h := Snapshot(s);
    PlanFacts(h, source, d, item, count, flags, tradeItem);
    if item.kind.stackable {
      moveItem, s' := MoveStack(source, d.cylinder, d.index, d.toItem, item, m, s);
      report := Report(d.cylinder, d.index, true, m,
        if d.index < d.cylinder.capacity then m else Min(Room(h, h[item].kind, d.toItem), m));
    } else {
      MoveWhole(source, d.cylinder, d.index, item, m, s);
      moveItem, s', report := item, s, Report(d.cylinder, d.index, true, h[item].count, h[item].count);
    }
  }

  lemma NothingTransferred(h: Heap, source: Item, target: Item, k: Kind)
    ensures Transferred(h, h, source, target, k, 0, 0) && WithinCapacity(h, h)
  {
  }

  /** What a plan answers. */
  lemma PlanAnswer(h: Heap, source: Item, d: Destination, item: Item, count: nat, flags: Flags, tradeItem: Item?)
    requires Rooted(h, d.cylinder) && item in h && source in h
    ensures var p := PlanOf(h, source, d, item, count, flags, tradeItem);
      && (p.Stop? && p.ret == NoError ==> item == d.toItem)
      && (p.Go? && !h[item].kind.stackable ==> p.ret == NoError)
      && (p.Go? && h[item].kind.stackable ==> p.ret == if p.m < count then ContainerNotEnoughRoom else NoError)
  {
  }

  method InternalMoveItem(source: Item, target: Item, toIndex: int, item: Item, count: nat, flags: Flags,
                          tradeItem: Item?, ghost s: set<Item>)
    returns (ret: ReturnValue, moveItem: Item?, ghost report: Report, ghost s': set<Item>)
    requires Valid(Snapshot(s)) && source in s && target in s && item in s && target.kind.container
    modifies s
    ensures s <= s' && fresh(s' - s) && Valid(Snapshot(s'))
    // the destination is the one the containers name
    ensures var d := Resolved(old(Snapshot(s)), target, toIndex, item, flags);
      d.cylinder == report.dest && d.index == report.index && report.dest in s
    // the ledger, on every return path
    ensures Transferred(old(Snapshot(s)), Snapshot(s'), source, report.dest, old(item.kind), report.moved, report.gained)
    ensures !report.acted ==> report.moved == 0 && s' == s && Snapshot(s) == old(Snapshot(s))
    ensures report.gained <= report.moved
    ensures report.gained < report.moved ==>
      report.dest in old(Snapshot(s)) && flags.noLimit && |old(Snapshot(s))[report.dest].items| > report.dest.capacity
    ensures report.acted ==>
      report.gained == Arriving(old(Snapshot(s)), Resolved(old(Snapshot(s)), target, toIndex, item, flags), item, report.moved)
    // whether it goes ahead, how much was moved, and what is answered
    ensures var h := old(Snapshot(s)); var d := Resolved(h, target, toIndex, item, flags);
      && Rooted(h, d.cylinder)
      && report.acted == PlanOf(h, source, d, item, count, flags, tradeItem).Go?
      && ret == PlanOf(h, source, d, item, count, flags, tradeItem).ret
    ensures ret == NoError ==>
      || (report.acted && report.moved == if old(item.kind.stackable) then count else old(item.count))
      || Resolved(old(Snapshot(s)), target, toIndex, item, flags).toItem == item
    ensures report.acted && old(item.kind.stackable) ==>
      && Rooted(old(Snapshot(s)), report.dest)
      && 0 < report.moved == Min(count, MaxCount(old(Snapshot(s)), report.dest, report.index, item, count, flags))
      && (ret == if report.moved < count then ContainerNotEnoughRoom else NoError)
    ensures report.acted && !old(item.kind.stackable) ==>
      ret == NoError && item.parent == report.dest && report.moved == old(item.count)
    // capacity
    ensures !flags.noLimit ==> WithinCapacity(old(Snapshot(s)), Snapshot(s'))
  {
    hide Transferred, WithinCapacity, Arriving, PlanOf;
    ghost var h := Snapshot(s);
    var d := ResolveDestination(target, toIndex, item, flags, s);
    var plan := CheckMove(source, d, item, count, flags, tradeItem, s);
    NothingTransferred(h, source, d.cylinder, item.kind);
    PlanAnswer(h, source, d, item, count, flags, tradeItem);
    if plan.Stop? {
      return plan.ret, null, Report(d.cylinder, d.index, false, 0, 0), s;
    }
    moveItem, report, s' := ExecuteMove(source, d, item, plan.m, count, flags, tradeItem, s);
    ret := plan.ret;
  }
}
