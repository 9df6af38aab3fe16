/** The questions a container answers before anything is added to it or removed from it. */
module Queries {
  import opened Forest

  datatype ReturnValue =
    | NoError | NotPossible | CannotPickup | ThisIsImpossible | ItemCannotBeMovedThere
    | ContainerNotEnoughRoom | NotMoveable | NotEnoughRoom

  /** The flag by which a child container asks its carrier is not a caller's flag; it is a
      separate argument of QueryAdd. */
  datatype Flags = Flags(noLimit: bool, ignoreNotMoveable: bool, ignoreAutoStack: bool)

  const WHEREEVER := -1
  const MOVE_UP := 254
  const ADD_WHEREEVER := 255
  const MAX_STACK := 100

  // ---------------------------------------------------------------- the answers, as values

  /** May item go into c at index? */
  ghost function AddVerdict(h: Heap, c: Item, index: int, item: Item, flags: Flags): ReturnValue
    requires Rooted(h, c) && item in h
  {
    if !c.unlocked then NotPossible
    else if !h[item].kind.pickupable then CannotPickup
    else if item == c then ThisIsImpossible
    else if h[item].kind.storeItem then ItemCannotBeMovedThere
    else if item in Above(h, c) then ThisIsImpossible
    else if !flags.noLimit && index == WHEREEVER && |h[c].items| >= c.capacity then ContainerNotEnoughRoom
    else NoError
  }

  /** A listed stack item can be merged into. */
  ghost predicate Mergeable(h: Heap, item: Item, other: Item) {
    item in h && other in h && other != item && h[other].kind == h[item].kind && h[other].count < MAX_STACK
  }

  /** Free places on the stacks of s that item can be merged into. */
  ghost function Slack(h: Heap, item: Item, s: seq<Item>): nat {
    if s == [] then 0
    else (if Mergeable(h, item, s[0]) then MAX_STACK - h[s[0]].count else 0) + Slack(h, item, s[1..])
  }

  ghost function FreeSlots(h: Heap, c: Item): nat
    requires c in h
  {
    if c.capacity > |h[c].items| then c.capacity - |h[c].items| else 0
  }

  /** Free places on stacks that queryMaxCount counts. */
  ghost function StackRoom(h: Heap, c: Item, index: int, item: Item, flags: Flags): nat
    requires Rooted(h, c) && item in h
  {
    if index == WHEREEVER then
      if AddVerdict(h, c, 0, item, flags) == NoError then Slack(h, item, h[c].items) else 0
    else if 0 <= index < |h[c].items| && h[c].items[index] in h
         && h[h[c].items[index]].kind == h[item].kind && h[h[c].items[index]].count < MAX_STACK
         && AddVerdict(h, c, index, item, flags) == NoError then
      MAX_STACK - h[h[c].items[index]].count
    else 0
  }

  /** How many of item c can take at index. */
  ghost function MaxCount(h: Heap, c: Item, index: int, item: Item, count: nat, flags: Flags): nat
    requires Rooted(h, c) && item in h
  {
    if flags.noLimit then (if count == 0 then 1 else count)
    else if h[item].kind.stackable then FreeSlots(h, c) * MAX_STACK + StackRoom(h, c, index, item, flags)
    else FreeSlots(h, c)
  }

  ghost function MaxVerdict(h: Heap, c: Item, index: int, item: Item, count: nat, flags: Flags): ReturnValue
    requires Rooted(h, c) && item in h
  {
    if flags.noLimit then NoError
    else
      var max := MaxCount(h, c, index, item, count, flags);
      if h[item].kind.stackable then (if max < count then ContainerNotEnoughRoom else NoError)
      else if max == 0 then ContainerNotEnoughRoom else NoError
  }

  /** May count of item be taken out of c? */
  ghost function RemoveVerdict(h: Heap, c: Item, item: Item, count: nat, flags: Flags): ReturnValue
    requires c in h && item in h
  {
    if item !in h[c].items then NotPossible
    else if count == 0 || (h[item].kind.stackable && count > h[item].count) then NotPossible
    else if !h[item].kind.moveable && !flags.ignoreNotMoveable then NotMoveable
    else NoError
  }

  // ---------------------------------------------------------------- the queries

  method IsAbove(c: Item, item: Item, ghost s: set<Item>) returns (above: bool)
    requires Rooted(Snapshot(s), c) && item != c
    ensures above == (item in Above(Snapshot(s), c))
  {
    ghost var h := Snapshot(s);
    var cylinder := c.parent;
    ghost var n := Depth(h, c);
    above := false;
    while cylinder != null
      invariant cylinder != null ==> n > 0 && AtDepth(h, cylinder, n - 1)
      invariant item in Above(h, c) <==> cylinder != null && item in Chain(h, cylinder, n - 1)
      decreases n
    {
      if cylinder == item {
        return true;
      }
      cylinder := cylinder.parent;
      n := n - 1;
    }
  }

  /** The item below the root on the way to c, or c itself when it is the root. */
  method GetTopParent(c: Item, ghost s: set<Item>) returns (top: Item)
    requires Rooted(Snapshot(s), c)
    ensures top in Above(Snapshot(s), c)
    ensures c.parent != null ==> top.parent != null && top.parent.parent == null
    ensures c.parent == null ==> top == c
  {
    ghost var h := Snapshot(s);
    ghost var n := Depth(h, c);
    top := c;
    if c.parent == null {
      return;
    }
    var aux := c.parent;
    while aux.parent != null
      invariant n > 0 && AtDepth(h, top, n) && top.parent == aux
      invariant top in Above(h, c) && Chain(h, top, n) <= Above(h, c)
      decreases n
    {
      top := aux;
      aux := aux.parent;
      n := n - 1;
    }
  }

  method QueryAdd(c: Item, index: int, item: Item, flags: Flags, childIsOwner: bool, ghost s: set<Item>)
    returns (r: ReturnValue)
    requires Shaped(Snapshot(s)) && c in s && item in s
    ensures r == if childIsOwner then NoError
                 else assert Rooted(Snapshot(s), c); AddVerdict(Snapshot(s), c, index, item, flags)
    decreases !childIsOwner
  {
    assert Rooted(Snapshot(s), c);
    if childIsOwner {
      return NoError;
    }
    if !c.unlocked {
      return NotPossible;
    }
    if !item.kind.pickupable {
      return CannotPickup;
    }
    if item == c {
      return ThisIsImpossible;
    }
    if item.kind.storeItem {
      return ItemCannotBeMovedThere;
    }
    var above := IsAbove(c, item, s);
    if above {
      return ThisIsImpossible;
    }
    if !flags.noLimit && index == WHEREEVER && |c.items| >= c.capacity {
      return ContainerNotEnoughRoom;
    }
    var top := GetTopParent(c, s);
    if top != c {
      ChainInHeap(Snapshot(s), c, Depth(Snapshot(s), c));
      r := QueryAdd(top, WHEREEVER, item, flags, true, s);
    } else {
      r := NoError;
    }
  }

  method QueryMaxCount(c: Item, index: int, item: Item, count: nat, flags: Flags, ghost s: set<Item>)
    returns (r: ReturnValue, max: nat)
    requires Shaped(Snapshot(s)) && c in s && item in s
    ensures Rooted(Snapshot(s), c)
    ensures r == MaxVerdict(Snapshot(s), c, index, item, count, flags)
    ensures max == MaxCount(Snapshot(s), c, index, item, count, flags)
  {
    ghost var h := Snapshot(s);
    assert Rooted(h, c);
    if flags.noLimit {
      return NoError, if count == 0 then 1 else count;
    }
    var freeSlots := if c.capacity > |c.items| then c.capacity - |c.items| else 0;
    if item.kind.stackable {
      var n: nat;
      if index == WHEREEVER {
        n := QueryStackRoom(c, item, flags, s);
      } else {
        n := 0;
        if 0 <= index < |c.items| {
          var dest := c.items[index];
          if dest.kind == item.kind && dest.count < MAX_STACK {
            var v := QueryAdd(c, index, item, flags, false, s);
            if v == NoError {
              n := MAX_STACK - dest.count;
            }
          }
        }
      }
      max := freeSlots * MAX_STACK + n;
      r := if max < count then ContainerNotEnoughRoom else NoError;
    } else {
      max := freeSlots;
      r := if max == 0 then ContainerNotEnoughRoom else NoError;
    }
  }

  /** Walks the list adding up the free places on stacks; slotIndex only counts the stacks seen. */
  method QueryStackRoom(c: Item, item: Item, flags: Flags, ghost s: set<Item>) returns (n: nat)
    requires Shaped(Snapshot(s)) && c in s && item in s
    ensures Rooted(Snapshot(s), c) && n == StackRoom(Snapshot(s), c, WHEREEVER, item, flags)
  {
    ghost var h := Snapshot(s);
    assert Rooted(h, c);
    n := 0;
    var slotIndex := 0;
    var i := 0;
    while i < |c.items|
      invariant 0 <= i <= |c.items| && 0 <= slotIndex
      invariant StackRoom(h, c, WHEREEVER, item, flags) ==
        n + if AddVerdict(h, c, 0, item, flags) == NoError then Slack(h, item, c.items[i..]) else 0
    {
      var other := c.items[i];
      assert h[c].items[i] in h && c.items[i..][1..] == c.items[i + 1..];
      if other != item && other.kind == item.kind && other.count < MAX_STACK {
        var v := QueryAdd(c, slotIndex, item, flags, false, s);
        slotIndex := slotIndex + 1;
        if v == NoError {
          n := n + (MAX_STACK - other.count);
        }
      }
      i := i + 1;
    }
  }

  method QueryRemove(c: Item, item: Item, count: nat, flags: Flags, ghost s: set<Item>) returns (r: ReturnValue)
    requires c in s && item in s
    ensures r == RemoveVerdict(Snapshot(s), c, item, count, flags)
  {
    var index := c.GetThingIndex(item);
    if index == -1 {
      return NotPossible;
    }
    if count == 0 || (item.kind.stackable && count > item.count) {
      return NotPossible;
    }
    if !item.kind.moveable && !flags.ignoreNotMoveable {
      return NotMoveable;
    }
    return NoError;
  }

  /** Where an item dropped on a container really goes, and the item lying there. */
  datatype Destination = Destination(cylinder: Item, index: int, toItem: Item?)

  /** The position of the first stack of s that item can be merged into, or |s|. */
  ghost function FirstStack(h: Heap, item: Item, s: seq<Item>): (n: nat)
    ensures n <= |s|
    ensures n < |s| ==> Mergeable(h, item, s[n])
  {
    if s == [] || Mergeable(h, item, s[0]) then 0 else 1 + FirstStack(h, item, s[1..])
  }

  ghost function DestinationOf(h: Heap, c: Item, index: int, item: Item, flags: Flags): Destination
    requires ChildrenLinked(h) && c in h && item in h
  {
    if !c.unlocked then Destination(c, index, null)
    else if index == MOVE_UP then Destination(if h[c].parent != null then h[c].parent else c, WHEREEVER, null)
    else
      var at := if index == ADD_WHEREEVER || index >= c.capacity then WHEREEVER else index;
      if 0 <= at < |h[c].items| && h[h[c].items[at]].kind.container then Destination(h[c].items[at], WHEREEVER, null)
      else
        var toItem: Item? := if 0 <= at < |h[c].items| then h[c].items[at] else null;
        var n := FirstStack(h, item, h[c].items);
        if flags.ignoreAutoStack || !h[item].kind.stackable || h[item].parent == c then Destination(c, at, toItem)
        else if toItem != null && h[toItem].kind == h[item].kind && h[toItem].count < MAX_STACK then Destination(c, at, toItem)
        else if n < |h[c].items| then Destination(c, n, h[c].items[n])
        else Destination(c, at, toItem)
  }

  method QueryDestination(c: Item, index: int, item: Item, flags: Flags, ghost s: set<Item>) returns (d: Destination)
    requires Shaped(Snapshot(s)) && c in s && item in s
    ensures d == DestinationOf(Snapshot(s), c, index, item, flags)
  {
    if !c.unlocked {
      return Destination(c, index, null);
    }
    if index == MOVE_UP {
      return Destination(if c.parent != null then c.parent else c, WHEREEVER, null);
    }
    var at := if index == ADD_WHEREEVER || index >= c.capacity then WHEREEVER else index;
    var toItem: Item? := null;
    if 0 <= at < |c.items| {
      toItem := c.items[at];
      assert Snapshot(s)[c].items[at] == toItem;
      if toItem.kind.container {
        return Destination(toItem, WHEREEVER, null);
      }
    }
    if !flags.ignoreAutoStack && item.kind.stackable && item.parent != c {
      if toItem != null && toItem.kind == item.kind && toItem.count < MAX_STACK {
        return Destination(c, at, toItem);
      }
      var n := FindStack(c, item, s);
      if n < |c.items| {
        return Destination(c, n, c.items[n]);
      }
    }
    return Destination(c, at, toItem);
  }

  method FindStack(c: Item, item: Item, ghost s: set<Item>) returns (n: nat)
    requires ChildrenLinked(Snapshot(s)) && c in s && item in s
    ensures n == FirstStack(Snapshot(s), item, c.items)
  {
    n := 0;
    while n < |c.items|
      invariant n <= |c.items|
      invariant FirstStack(Snapshot(s), item, c.items) == n + FirstStack(Snapshot(s), item, c.items[n..])
    {
      var other := c.items[n];
      assert Snapshot(s)[c].items[n] == other && c.items[n..][1..] == c.items[n + 1..];
      if other != item && other.kind == item.kind && other.count < MAX_STACK {
        return;
      }
      n := n + 1;
    }
  }
}
