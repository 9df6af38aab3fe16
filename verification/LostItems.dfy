/** Two calls that lose part of a stack, on heaps built from nothing. */
module LostItems {
  import opened Forest
  import opened Ledger
  import opened Queries
  import opened Moves
  import opened AddItems
  import opened ItemRows

  const COIN := Kind(1, 0, true, false, 0, 1, 1, true, true, false)
  const BOX := Kind(2, 0, false, true, 0, 1, 0, true, true, false)

  lemma NoItems()
    ensures Valid(map[])
  {
  }

  method MakeBox(capacity: nat, ghost s: set<Item>) returns (box: Item, ghost s': set<Item>)
    requires Valid(Snapshot(s))
    ensures fresh(box) && s' == s + {box} && Valid(Snapshot(s'))
    ensures box.kind == BOX && box.count == 1 && box.parent == null && box.items == [] && box.capacity == capacity && box.unlocked
  {
    box := new Item(BOX, 1, capacity, true);
    s' := s + {box};
    WithItemValid(old(Snapshot(s)), box, BOX, 1);
    assert Snapshot(s') == WithItem(old(Snapshot(s)), box, BOX, 1);
  }

  /** Puts a new stack in front of a box that stands alone. */
  method MakeStack(count: nat, box: Item, ghost s: set<Item>) returns (stack: Item, ghost s': set<Item>)
    requires Valid(Snapshot(s)) && box in s && box.kind.container && box.capacity > 0 && 1 <= count <= 100
    modifies s
    ensures fresh(stack) && s' == s + {stack} && Valid(Snapshot(s'))
    ensures stack.kind == COIN && stack.count == count && stack.parent == box
    ensures box.items == [stack] + old(box.items) && box.kind == old(box.kind) && box.parent == old(box.parent)
    ensures forall x :: x in s ==> x.kind == old(x.kind) && x.count == old(x.count) && x.parent == old(x.parent)
    ensures forall x :: x in s && x != box ==> x.items == old(x.items)
  {
    stack := new Item(COIN, count, 0, true);
    s' := s + {stack};
    ghost var h := old(Snapshot(s));
    assert Snapshot(s') == WithItem(h, stack, COIN, count);
    WithItemValid(h, stack, COIN, count);
    WithItemHang(h, stack, COIN, count, box);
    AttachedFields(Snapshot(s'), box, stack);
    ghost var g := Snapshot(s');
    box.AddThing(0, stack, s');
    assert Snapshot(s') == Attached(g, box, 0, stack);
    assert Snapshot(s')[box] == box.State() && Snapshot(s')[stack] == stack.State();
    forall x | x in s ensures x.kind == old(x.kind) && x.count == old(x.count) {
      assert Snapshot(s')[x] == x.State() && g[x] == h[x];
    }
  }

  /** A box that lies in nothing lies below nothing but itself. */
  lemma AboveRoot(h: Heap, c: Item)
    requires c in h && h[c].parent == null
    ensures Rooted(h, c) && Above(h, c) == {c}
  {
    assert AtDepth(h, c, 0);
    AboveIsChain(h, c, 0);
  }

  lemma RoomOnTwo(h: Heap, item: Item, a: Item, b: Item)
    requires item in h && a in h && b in h && item != a && item != b
    requires h[a].kind == h[b].kind == h[item].kind && h[a].count == 99 && h[b].count == 1
    ensures Slack(h, item, [a, b]) == 100
  {
    assert Slack(h, item, [b]) == 99;
    assert [a, b][1..] == [b];
  }

  /** Why the call is let through, and what it loses. */
  lemma OneTooMany(h: Heap, box: Item, a: Item, b: Item, item: Item)
    requires ChildrenLinked(h) && box in h && a in h && b in h && item in h && item !in {a, b, box}
    requires box.unlocked && box.capacity == 2 && h[box] == Node(BOX, 1, null, [a, b], h[box].total)
    requires h[a].kind == h[b].kind == h[item].kind == COIN && h[a].count == 99 && h[b].count == 1 && h[item].count == 2
    ensures Rooted(h, box)
    ensures var flags := Flags(false, false, true); var d := DestinationOf(h, box, 0, item, flags);
      d.cylinder == box && Welcome(h, box, d, item, flags) && Remainder(h, box, d, item, flags) == 1
  {
    AboveRoot(h, box);
    RoomOnTwo(h, item, a, b);
  }

  /** A box with one stack. */
  method OneStack(capacity: nat, count: nat, ghost s0: set<Item>) returns (box: Item, b: Item, ghost s: set<Item>)
    requires capacity > 0 && 1 <= count <= 100 && Valid(Snapshot(s0))
    modifies s0
    ensures s == s0 + {box, b} && fresh(box) && fresh(b) && box != b && Valid(Snapshot(s))
    ensures box.unlocked && box.capacity == capacity && box.kind == BOX && box.count == 1 && box.parent == null && box.items == [b]
    ensures b.kind == COIN && b.count == count && b.parent == box
    ensures forall x :: x in s0 ==> x.kind == old(x.kind) && x.count == old(x.count) && x.parent == old(x.parent) && x.items == old(x.items)
  {
    hide Valid, Snapshot;
    box, s := MakeBox(capacity, s0);
    b, s := MakeStack(count, box, s);
  }

  /** A box of the given capacity that lists a stack of first coins and one of second. */
  method TwoStacks(capacity: nat, first: nat, second: nat)
    returns (box: Item, a: Item, b: Item, ghost s: set<Item>)
    requires capacity > 0 && 1 <= first <= 100 && 1 <= second <= 100
    ensures s == {box, a, b} && fresh(s) && Valid(Snapshot(s))
    ensures box.unlocked && box.capacity == capacity && box.kind == BOX && box.count == 1 && box.parent == null && box.items == [a, b]
    ensures a.kind == b.kind == COIN && a.count == first && b.count == second && a != b
  {
    hide Valid, Snapshot;
    NoItems();
    EmptySnapshot();
    box, b, s := OneStack(capacity, second, {});
    a, s := MakeStack(first, box, s);
  }

  /** A loose stack. */
  method LooseStack(count: nat, ghost s0: set<Item>) returns (item: Item, ghost s: set<Item>)
    requires 1 <= count <= 100 && Valid(Snapshot(s0))
    ensures fresh(item) && s == s0 + {item} && Valid(Snapshot(s))
    ensures item.State() == Node(COIN, count, null, [], 0)
  {
    item := new Item(COIN, count, 0, true);
    WithItemValid(old(Snapshot(s0)), item, COIN, count);
    s := s0 + {item};
    assert Snapshot(s) == WithItem(old(Snapshot(s0)), item, COIN, count);
  }

  /** Two coins go to a stack of 99 in a full box with auto-stacking ignored. There is room on
      another stack, so the call succeeds, and one coin is gone. */
  method SpillLoses() returns (box: Item, item: Item, ret: ReturnValue, remainder: nat)
    ensures ret == NoError && remainder == 1
  {
    hide Valid, Welcome, Remainder, DestinationOf, KeepsOthers, Booked, Snapshot;
    ghost var s, s';
    var a, b;
    box, a, b, s := TwoStacks(2, 99, 1);
    item, s := LooseStack(2, s);
    StatesOf(s);
    ValidLinks(Snapshot(s));
    OneTooMany(Snapshot(s), box, a, b, item);
    ret, remainder, s' := InternalAddItem(box, item, 0, Flags(false, false, true), false, s);
  }

  /** Without a limit, a stack in a slot past the capacity takes what fits on it, and no more. */
  lemma OneDoesNotFit(h: Heap, source: Item, box: Item, a: Item, b: Item, item: Item)
    requires ChildrenLinked(h) && ParentsLinked(h) && source in h && box in h && a in h && b in h && item in h && item !in {a, b, box}
    requires box.unlocked && box.capacity == 1 && h[box] == Node(BOX, 1, null, [b, a], h[box].total) && source != box
    requires h[a].kind == h[b].kind == h[item].kind == COIN && h[a].count == 99 && h[b].count == 100 && h[item].count == 2
    requires h[source].items == [item] && h[item].parent == source
    ensures Rooted(h, box)
    ensures var flags := Flags(true, false, false); var d := Resolved(h, box, WHEREEVER, item, flags);
      d.cylinder == box && PlanOf(h, source, d, item, 2, flags, null) == Go(2, NoError) && Arriving(h, d, item, 2) == 1
  {
    AboveRoot(h, box);
    assert FirstStack(h, item, [b, a][1..]) == 0;
  }

  /** Two coins move, without a limit, into a box that is already over its capacity, onto a stack
      of 99 behind the capacity. Two leave and one arrives. */
  method MoveLoses() returns (source: Item, box: Item, item: Item, ret: ReturnValue, ghost report: Report)
    ensures ret == NoError && report.dest == box && report.moved == 2 && report.gained == 1
  {
    hide Valid, Resolved, PlanOf, Arriving, Transferred, WithinCapacity, MaxCount, Snapshot;
    ghost var s, s';
    var a, b, moved;
    box, b, a, s := TwoStacks(1, 100, 99);
    source, item, s := OneStack(1, 2, s);
    StatesOf(s);
    ValidLinks(Snapshot(s));
    OneDoesNotFit(Snapshot(s), source, box, a, b, item);
    ret, moved, report, s' := InternalMoveItem(source, box, WHEREEVER, item, 2, Flags(true, false, false), null, s);
  }

  lemma EmptySnapshot()
    ensures Snapshot({}) == map[]
  {
  }

  lemma StatesOf(s: set<Item>)
    ensures Snapshot(s).Keys == s && forall x :: x in s ==> Snapshot(s)[x] == x.State()
  {
  }

  lemma ValidLinks(h: Heap)
    requires Valid(h)
    ensures ChildrenLinked(h) && ParentsLinked(h)
  {
  }
}
