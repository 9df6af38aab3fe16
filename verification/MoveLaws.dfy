/** Which moves between plain containers go ahead, in terms of the containers and the item alone. */
module MoveLaws {
  import opened Forest
  import opened Queries
  import opened Moves

  /** The item and the two containers let it pass: the destination is open, the item can be picked up, belongs
      to no store, may be moved and does not hold the destination. */
  ghost predicate Movable(h: Heap, target: Item, item: Item, flags: Flags)
    requires item in h && Rooted(h, target)
  {
    && target.unlocked && h[item].kind.pickupable && !h[item].kind.storeItem
    && (h[item].kind.moveable || flags.ignoreNotMoveable) && item !in Above(h, target)
  }

  lemma SelfAbove(h: Heap, c: Item)
    requires Rooted(h, c)
    ensures c in Above(h, c)
  {
    AboveIsChain(h, c, Depth(h, c));
  }

  /** Where an item goes that may go anywhere in an open container. */
  lemma Anywhere(h: Heap, target: Item, item: Item, flags: Flags)
    requires ChildrenLinked(h) && ParentsLinked(h) && target in h && item in h && target.unlocked
    ensures var d := Resolved(h, target, WHEREEVER, item, flags);
      && d.cylinder == target
      && (!h[item].kind.stackable || flags.ignoreAutoStack || h[item].parent == target ==> d.index == WHEREEVER && d.toItem == null)
      && (d.toItem != null ==>
            d.toItem in h[target].items && d.toItem in h && d.toItem != item
            && h[d.toItem].kind == h[item].kind && h[d.toItem].count < 100
            && 0 <= d.index < |h[target].items| && h[target].items[d.index] == d.toItem)
      && (d.toItem == null ==> d.index == WHEREEVER)
      && (h[item].kind.stackable && !flags.ignoreAutoStack && h[item].parent != target && d.toItem == null ==>
            forall i :: 0 <= i < |h[target].items| ==> !Mergeable(h, item, h[target].items[i]))
  {
    NoStackMeans(h, item, h[target].items);
  }

  /** Where an item goes that is dropped on a place of a container: up, into the container that lies there, onto
      the stack that lies there, or anywhere, when the place is past the capacity. */
  lemma PlaceLaw(h: Heap, target: Item, index: int, item: Item, flags: Flags)
    requires ChildrenLinked(h) && ParentsLinked(h) && target in h && item in h && index >= -1
    ensures var d := Resolved(h, target, index, item, flags); var up := h[target].parent;
      var listed := 0 <= index < |h[target].items| && index < target.capacity && index != 254 && index != 255;
      && (!target.unlocked ==> d == Destination(target, index, null))
      && (target.unlocked && index == 254 ==> d.cylinder == if up != null then up else target)
      && (target.unlocked && (index == 255 || (index >= target.capacity && index != 254)) ==>
            d == Resolved(h, target, WHEREEVER, item, flags))
      && (target.unlocked && listed && h[h[target].items[index]].kind.container ==>
            d.cylinder == h[target].items[index])
      && (target.unlocked && listed && !h[h[target].items[index]].kind.container ==>
            var there := h[target].items[index];
            && d.cylinder == target
            && (!h[item].kind.stackable ==> d.index == index && d.toItem == there)
            && (h[there].kind == h[item].kind && h[there].count < 100 ==> d.index == index && d.toItem == there))
  {
    hide FirstStack;
  }

  lemma {:induction false} NoStackMeans(h: Heap, item: Item, s: seq<Item>)
    ensures FirstStack(h, item, s) == |s| ==> forall i :: 0 <= i < |s| ==> !Mergeable(h, item, s[i])
    decreases |s|
  {
    if s != [] {
      NoStackMeans(h, item, s[1..]);
      if FirstStack(h, item, s) == |s| {
        forall i | 0 <= i < |s| ensures !Mergeable(h, item, s[i]) {
          assert i > 0 ==> s[i] == s[1..][i - 1];
        }
      }
    }
  }

  /** A single item that is to go anywhere in a container is moved exactly when it lies in the source, the
      item and the destination let it pass, and there is a free slot or no limit. The answer is then that
      nothing went wrong. */
  lemma SingleMoves(h: Heap, source: Item, target: Item, item: Item, count: nat, flags: Flags)
    requires Valid(h) && source in h && target in h && item in h && !h[item].kind.stackable && count > 0
    ensures Rooted(h, target)
    ensures var d := Resolved(h, target, WHEREEVER, item, flags);
      Rooted(h, d.cylinder) && d.cylinder == target &&
      (PlanOf(h, source, d, item, count, flags, null).Go? <==>
         && item in h[source].items && Movable(h, target, item, flags)
         && (flags.noLimit || |h[target].items| < target.capacity))
    ensures var d := Resolved(h, target, WHEREEVER, item, flags); var p := PlanOf(h, source, d, item, count, flags, null);
      p.Go? ==> p.ret == NoError
  {
    hide CachesAgree, Above;
    assert Rooted(h, target);
    SelfAbove(h, target);
    if target.unlocked {
      Anywhere(h, target, item, flags);
    }
  }

  /** Of a stack that is to go anywhere in another container, as many are moved as are asked for and have
      room, on free slots and on the stack they are merged with. Something is moved exactly when the item
      and the destination let it pass, the source has so many, and there is room for one. */
  lemma StackMoves(h: Heap, source: Item, target: Item, item: Item, count: nat, flags: Flags)
    requires Valid(h) && source in h && target in h && item in h && h[item].kind.stackable && count > 0
    requires item in h[source].items && source != target && 1 <= count <= h[item].count
    ensures Rooted(h, target)
    ensures var d := Resolved(h, target, WHEREEVER, item, flags);
      Rooted(h, d.cylinder) && d.cylinder == target
    ensures var d := Resolved(h, target, WHEREEVER, item, flags); var p := PlanOf(h, source, d, item, count, flags, null);
      var free := if target.capacity > |h[target].items| then target.capacity - |h[target].items| else 0;
      && (p.Go? <==> Movable(h, target, item, flags) && (flags.noLimit || free > 0 || d.toItem != null))
      && (p.Go? && flags.noLimit ==> p.m == count && p.ret == NoError)
      && (p.Go? && !flags.noLimit && d.toItem != null ==>
            p.m == Min(count, free * 100 + (100 - h[d.toItem].count)))
      && (p.Go? && !flags.noLimit && free > 0 ==> p.m == count && p.ret == NoError)
      && (p.Go? && p.m < count ==> p.ret == ContainerNotEnoughRoom)
  {
    hide CachesAgree, Above, Slack, FirstStack;
    assert Rooted(h, target);
    SelfAbove(h, target);
    assert h[item].parent == source && 1 <= h[item].count <= 100;
    if target.unlocked {
      Anywhere(h, target, item, flags);
    }
  }
}
