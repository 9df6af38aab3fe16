/** Adding an item to a container, spilling over onto existing stacks. */
module AddItems {
  import opened Forest
  import opened Ledger
  import opened Queries
  import opened Moves

  // ---------------------------------------------------------------- room left on the stacks

  lemma {:induction false} NoStackNoSlack(h: Heap, item: Item, s: seq<Item>)
    requires FirstStack(h, item, s) == |s|
    ensures Slack(h, item, s) == 0
  {
    if s != [] {
      NoStackNoSlack(h, item, s[1..]);
    }
  }

  lemma {:induction false} SlackFrame(h: Heap, g: Heap, a: Item, b: Item, s: seq<Item>)
    requires a in h && b in g && h[a].kind == g[b].kind && a !in s && b !in s
    requires forall i :: 0 <= i < |s| ==> s[i] in h && s[i] in g && h[s[i]].kind == g[s[i]].kind && h[s[i]].count == g[s[i]].count
    ensures Slack(h, a, s) == Slack(g, b, s)
  {
    if s != [] {
      SlackFrame(h, g, a, b, s[1..]);
    }
  }

  /** Filling n places of one stack leaves n fewer. */
  lemma {:induction false} SlackFilled(h: Heap, g: Heap, a: Item, b: Item, s: seq<Item>, x: Item, n: nat)
    requires NoDup(s) && x in s && a in h && b in g && h[a].kind == g[b].kind && a !in s && b !in s
    requires forall i :: 0 <= i < |s| ==> s[i] in h && s[i] in g && h[s[i]].kind == g[s[i]].kind
    requires forall i :: 0 <= i < |s| && s[i] != x ==> h[s[i]].count == g[s[i]].count
    requires Mergeable(h, a, x) && g[x].count == h[x].count + n <= MAX_STACK
    ensures Slack(g, b, s) == Slack(h, a, s) - n
  {
    if s[0] == x {
      SlackFrame(h, g, a, b, s[1..]);
    } else {
      SlackFilled(h, g, a, b, s[1..], x, n);
    }
  }

  /** Both questions asked at the top were answered in the affirmative. */
  ghost predicate Welcome(h: Heap, target: Item, d: Destination, item: Item, flags: Flags)
    requires Rooted(h, target) && Rooted(h, d.cylinder) && item in h
  {
    && AddVerdict(h, d.cylinder, d.index, item, flags) == NoError
    && MaxVerdict(h, target, WHEREEVER, item, h[item].count, flags) == NoError
  }

  /** The heap after n of a stack went onto toItem and a clone holds the rest. */
  ghost function Split(h: Heap, c: Item, toItem: Item, n: nat, x: Item, kind: Kind, rest: nat): Heap
    requires Rooted(h, c) && toItem in h
  {
    WithItem(Recounted(h, c, toItem, h[toItem].kind, h[toItem].count + n), x, kind, rest)
  }

  lemma SplitAbove(h: Heap, c: Item, toItem: Item, n: nat, x: Item, kind: Kind, rest: nat)
    requires Rooted(h, c) && toItem in h && x !in h
    ensures var g := Split(h, c, toItem, n, x, kind, rest);
      Rooted(g, c) && Above(g, c) == Above(h, c) && x !in Above(g, c)
  {
    var k := h[toItem].kind;
    RecountAbove(h, c, toItem, k, h[toItem].count + n);
    var r, m := Recount(h, toItem, k, h[toItem].count + n), Recounted(h, c, toItem, k, h[toItem].count + n);
    var n0 := Depth(h, c);
    SameParentsKeepDepth(h, m, c, n0);
    SameParentsKeepChain(h, m, c, n0);
    WithItemDepth(m, x, kind, rest, c, n0);
    AboveIsChain(Split(h, c, toItem, n, x, kind, rest), c, n0);
  }

  /** The stacks lost exactly the places the rest no longer needs; the free slots are unchanged. */
  lemma SplitRoom(h: Heap, c: Item, toItem: Item, item: Item, n: nat, x: Item, rest: nat)
    requires Valid(h) && Rooted(h, c) && item in h && h[item].parent == null && x !in h
    requires toItem in h[c].items && Mergeable(h, item, toItem) && h[toItem].count + n <= MAX_STACK
    ensures var g := Split(h, c, toItem, n, x, h[item].kind, rest);
      && FreeSlots(g, c) == FreeSlots(h, c) && g[c].items == h[c].items
      && Slack(g, x, g[c].items) == Slack(h, item, h[c].items) - n
  {
    var g := Split(h, c, toItem, n, x, h[item].kind, rest);
    RecountAbove(h, c, toItem, h[toItem].kind, h[toItem].count + n);
    RootIsUnlisted(h, item, c);
    assert NoDup(h[c].items) && h[c].items == g[c].items;
    SlackFilled(h, g, item, x, h[c].items, toItem, n);
  }

  /** The answers for the rest depend only on those for the whole and on the room left. */
  lemma RestVerdicts(h: Heap, g: Heap, c: Item, item: Item, flags: Flags, x: Item)
    requires Rooted(h, c) && item in h && Rooted(g, c) && x in g && x !in Above(g, c) && x != c
    requires h[item].kind == g[x].kind && g[c].items == h[c].items
    requires AddVerdict(h, c, 0, item, flags) == NoError
    ensures AddVerdict(g, c, 0, x, flags) == NoError
    ensures AddVerdict(g, c, WHEREEVER, x, flags) ==
      if flags.noLimit || FreeSlots(h, c) > 0 then NoError else ContainerNotEnoughRoom
  {
  }

  lemma FirstStackIndex(h: Heap, c: Item, item: Item, flags: Flags)
    requires ChildrenLinked(h) && c in h && item in h && h[item].parent == null && c.unlocked && h[item].kind.stackable
    ensures var d, n := DestinationOf(h, c, WHEREEVER, item, flags), FirstStack(h, item, h[c].items);
      && d.cylinder == c && d.index == (if flags.ignoreAutoStack || n == |h[c].items| then WHEREEVER else n)
      && (flags.ignoreAutoStack ==> d.toItem == null)
  {
  }

  /** The rest of the stack is turned away in one case only: stacks must be filled by hand and
      no slot is free. */
  lemma RestIsWelcome(h: Heap, g: Heap, c: Item, d: Destination, item: Item, flags: Flags, n: nat, x: Item, rest: nat)
    requires Valid(h) && Rooted(h, c) && item in h && h[item].parent == null && x !in h && d.cylinder == c
    requires d.toItem != null && d.toItem in h[c].items && Mergeable(h, item, d.toItem)
    requires h[item].kind.stackable && Welcome(h, c, d, item, flags)
    requires n == MAX_STACK - h[d.toItem].count && rest == h[item].count - n && rest > 0
    requires g == Split(h, c, d.toItem, n, x, h[item].kind, rest) && ChildrenLinked(g)
    ensures Rooted(g, c)
    ensures var e := DestinationOf(g, c, WHEREEVER, x, flags);
      && e.cylinder == c && Remainder(g, c, e, x, flags) == 0
      && (Welcome(g, c, e, x, flags) <==> flags.noLimit || !flags.ignoreAutoStack || FreeSlots(h, c) > 0)
  {
    hide StackBounds, CachesAgree, DestinationOf;
    SplitAbove(h, c, d.toItem, n, x, h[item].kind, rest);
    SplitRoom(h, c, d.toItem, item, n, x, rest);
    assert AddVerdict(h, c, 0, item, flags) == NoError;
    ChainInHeap(h, c, Depth(h, c));
    assert c in Above(h, c) && x != c;
    RestVerdicts(h, g, c, item, flags, x);
    FirstStackIndex(g, c, x, flags);
    assert StackBounds(h);
    RestFits(h, g, c, d, item, flags, n, x, rest);
  }

  lemma RestFits(h: Heap, g: Heap, c: Item, d: Destination, item: Item, flags: Flags, n: nat, x: Item, rest: nat)
    requires StackBounds(h) && Rooted(h, c) && item in h && d.cylinder == c && Rooted(g, c) && x in g
    requires h[item].kind.stackable && g[x].kind == h[item].kind && g[x].count == rest && Welcome(h, c, d, item, flags)
    requires rest == h[item].count - n && rest > 0 && g[c].items == h[c].items
    requires Slack(g, x, g[c].items) == Slack(h, item, h[c].items) - n
    requires AddVerdict(g, c, 0, x, flags) == NoError
    ensures MaxVerdict(g, c, WHEREEVER, x, rest, flags) == NoError
    ensures FirstStack(g, x, g[c].items) == |g[c].items| && !flags.noLimit ==> FreeSlots(h, c) > 0
  {
    assert AddVerdict(h, c, 0, item, flags) == NoError;
    if FirstStack(g, x, g[c].items) == |g[c].items| {
      NoStackNoSlack(g, x, g[c].items);
    }
  }

  // ---------------------------------------------------------------- internalAddItem

  method AddWhole(target: Item, index: int, item: Item, ghost s: set<Item>)
    requires Valid(Snapshot(s)) && target in s && item in s && item.parent == null && target.kind.container
    requires Rooted(Snapshot(s), target) && item !in Above(Snapshot(s), target) && index < target.capacity
    modifies s
    ensures Valid(Snapshot(s))
    ensures Booked(old(Snapshot(s)), Snapshot(s), target, old(item.kind), old(item.count))
    ensures Grows(old(Snapshot(s)), Snapshot(s), target, 1)
    ensures KeepsOthers(old(Snapshot(s)), Snapshot(s), old(item.kind), item)
  {
    PutWhole(target, index, item, s);
  }

  lemma CloneBooked(h: Heap, m: Heap, c: Item, n: nat, x: Item, kind: Kind, rest: nat)
    requires Valid(m) && Booked(h, m, c, kind, n) && Grows(h, m, c, 0) && KeepsOthers(h, m, kind, null) && x !in m && c in m
    requires kind.stackable && !kind.container && 1 <= rest <= MAX_STACK
    ensures var g := WithItem(m, x, kind, rest);
      Valid(g) && Booked(h, g, c, kind, n) && Grows(h, g, c, 0) && KeepsOthers(h, g, kind, null)
  {
    WithItemValid(m, x, kind, rest);
    WithItemBooked(m, x, kind, rest, c, kind);
    BookedTwice(h, m, WithItem(m, x, kind, rest), c, kind, n, 0);
  }

  lemma SplitBooked(h: Heap, c: Item, toItem: Item, n: nat, x: Item, rest: nat)
    requires Valid(h) && c in h && toItem in h && toItem in h[c].items && x !in h
    requires h[toItem].kind.stackable && 1 <= h[toItem].count + n <= MAX_STACK && 1 <= rest <= MAX_STACK
    ensures Rooted(h, c)
    ensures var g := Split(h, c, toItem, n, x, h[toItem].kind, rest);
      && Valid(g) && Booked(h, g, c, h[toItem].kind, n) && Grows(h, g, c, 0) && KeepsOthers(h, g, h[toItem].kind, null)
      && c in g && g[c].kind == h[c].kind
  {
    hide Shaped, CachesAgree, Booked, Grows, Above, Rooted;
    TopUpBooked(h, c, toItem, n);
    RecountedValid(h, c, toItem, h[toItem].kind, h[toItem].count + n);
    CloneBooked(h, Recounted(h, c, toItem, h[toItem].kind, h[toItem].count + n), c, n, x, h[toItem].kind, rest);
  }

  /** Fills the stack toItem with n and leaves the rest on a fresh clone. */
  method SplitOff(target: Item, toItem: Item, n: nat, rest: nat, ghost s: set<Item>)
    returns (x: Item, ghost s': set<Item>)
    requires Valid(Snapshot(s)) && target in s && toItem in s && toItem in target.items
    requires toItem.kind.stackable && 1 <= toItem.count + n <= MAX_STACK && 1 <= rest <= MAX_STACK
    modifies s
    ensures fresh(x) && s' == s + {x}
    ensures Rooted(old(Snapshot(s)), target)
    ensures Snapshot(s') == Split(old(Snapshot(s)), target, toItem, n, x, old(toItem.kind), rest)
    ensures Valid(Snapshot(s')) && Booked(old(Snapshot(s)), Snapshot(s'), target, old(toItem.kind), n)
    ensures Grows(old(Snapshot(s)), Snapshot(s'), target, 0)
    ensures KeepsOthers(old(Snapshot(s)), Snapshot(s'), old(toItem.kind), null)
    ensures target.kind == old(target.kind)
  {
    hide Valid, Booked, Grows, KeepsOthers, Recounted;
    ghost var h := Snapshot(s);
    var kind, count := toItem.kind, toItem.count + n;
    StackBound(h, toItem);
    target.UpdateThing(toItem, kind, count, s);
    x := NewStack(kind, rest, s);
    s' := s + {x};
    SplitBooked(h, target, toItem, n, x, rest);
    assert target.State() == Snapshot(s')[target];
  }

  method NewStack(kind: Kind, count: nat, ghost s: set<Item>) returns (x: Item)
    ensures fresh(x)
    ensures Snapshot(s + {x}) == WithItem(old(Snapshot(s)), x, kind, count)
  {
    x := new Item(kind, count, 0, true);
  }

  /** Is toItem a stack that item goes onto, at least in part? */
  ghost predicate Merges(h: Heap, d: Destination, item: Item)
    requires item in h
  {
    h[item].kind.stackable && d.toItem != null && d.toItem in h && h[d.toItem].kind == h[item].kind
  }

  /** The part of a stack that neither an existing stack nor a free slot takes. */
  ghost function Remainder(h: Heap, target: Item, d: Destination, item: Item, flags: Flags): nat
    requires item in h && target in h
  {
    if Merges(h, d, item) && flags.ignoreAutoStack && !flags.noLimit && FreeSlots(h, target) == 0
       && h[d.toItem].count < MAX_STACK < h[d.toItem].count + h[item].count
    then h[d.toItem].count + h[item].count - MAX_STACK else 0
  }

  /** What the two affirmative answers mean for the rest of the call. */
  lemma AddFacts(h: Heap, target: Item, index: int, item: Item, flags: Flags)
    requires Valid(h) && target in h && item in h && h[item].parent == null && h[target].kind.container
    requires Rooted(h, target)
    requires var d := DestinationOf(h, target, index, item, flags);
      d.cylinder in h && Rooted(h, d.cylinder) && Welcome(h, target, d, item, flags)
    ensures var d := DestinationOf(h, target, index, item, flags);
      && h[d.cylinder].kind.container && item !in Above(h, d.cylinder) && (d.toItem != null ==> d.toItem in h)
      && (Merges(h, d, item) ==> d.cylinder == target && d.toItem in h[target].items && d.toItem != item)
      && (Merges(h, d, item) && h[d.toItem].count < MAX_STACK ==> Mergeable(h, item, d.toItem))
      && (!Merges(h, d, item) || h[d.toItem].count == MAX_STACK ==>
            && d.index < d.cylinder.capacity
            && (!flags.noLimit && !flags.ignoreAutoStack ==> |h[d.cylinder].items| < d.cylinder.capacity))
  {
    hide CachesAgree;
    var d := DestinationOf(h, target, index, item, flags);
    DestinationSettled(h, target, index, item, flags);
    assert d.cylinder in Above(h, d.cylinder);
    RootIsUnlisted(h, item, target);
    if h[item].kind.stackable && FirstStack(h, item, h[target].items) == |h[target].items| {
      NoStackNoSlack(h, item, h[target].items);
      StackBound(h, item);
    }
  }

  /** Adds the loose item to target. A stack first fills the stack at the destination; what is left
      is added again from the top, as a fresh clone, and so on until it is gone. */
  method InternalAddItem(target: Item, item: Item, index: int, flags: Flags, test: bool, ghost s: set<Item>)
    returns (ret: ReturnValue, remainder: nat, ghost s': set<Item>)
    requires Valid(Snapshot(s)) && target in s && item in s && item.parent == null && target.kind.container
    modifies s
    ensures s <= s' && fresh(s' - s) && Valid(Snapshot(s'))
    ensures var h := old(Snapshot(s)); ChildrenLinked(h) && Rooted(h, target)
    ensures var h := old(Snapshot(s)); var d := DestinationOf(h, target, index, item, flags);
      d.cylinder in h && Rooted(h, d.cylinder) && (ret == NoError <==> Welcome(h, target, d, item, flags))
    ensures ret != NoError || test ==> s' == s && Snapshot(s) == old(Snapshot(s)) && remainder == 0
    ensures ret == NoError && !test ==>
      var h := old(Snapshot(s)); var d := DestinationOf(h, target, index, item, flags);
      && remainder == Remainder(h, target, d, item, flags) <= h[item].count
      && Booked(h, Snapshot(s'), d.cylinder, h[item].kind, h[item].count - remainder)
      && Grows(h, Snapshot(s'), d.cylinder, 1)
    ensures KeepsOthers(old(Snapshot(s)), Snapshot(s'), old(item.kind), item)
    ensures !flags.noLimit && !flags.ignoreAutoStack ==> WithinCapacity(old(Snapshot(s)), Snapshot(s'))
    decreases item.count
  {
    ghost var h := Snapshot(s);
    var d := AskDestination(target, item, index, flags, s);
    remainder, s' := 0, s;
    ret := QueryAdd(d.cylinder, d.index, item, flags, false, s);
    if ret != NoError {
      return;
    }
    var max: nat;
    ret, max := QueryMaxCount(target, WHEREEVER, item, item.count, flags, s);
    if ret != NoError || test {
      return;
    }
    remainder, s' := PutItem(target, d, item, index, max, flags, s);
  }

  method AskDestination(target: Item, item: Item, index: int, flags: Flags, ghost s: set<Item>) returns (d: Destination)
    requires Valid(Snapshot(s)) && target in s && item in s && target.kind.container
    ensures d == DestinationOf(Snapshot(s), target, index, item, flags)
    ensures d.cylinder in s && Rooted(Snapshot(s), target) && Rooted(Snapshot(s), d.cylinder)
  {
    assert Rooted(Snapshot(s), target);
    DestinationSettled(Snapshot(s), target, index, item, flags);
    d := QueryDestination(target, index, item, flags, s);
    assert Rooted(Snapshot(s), d.cylinder);
  }

  method PutItem(target: Item, d: Destination, item: Item, ghost index: int, max: nat, flags: Flags, ghost s: set<Item>)
    returns (remainder: nat, ghost s': set<Item>)
    requires Valid(Snapshot(s)) && target in s && item in s && item.parent == null && target.kind.container
    requires d == DestinationOf(Snapshot(s), target, index, item, flags)
    requires d.cylinder in s && Rooted(Snapshot(s), target) && Rooted(Snapshot(s), d.cylinder)
    requires Welcome(Snapshot(s), target, d, item, flags)
    requires max == MaxCount(Snapshot(s), target, WHEREEVER, item, item.count, flags)
    modifies s
    ensures s <= s' && fresh(s' - s) && Valid(Snapshot(s'))
    ensures remainder == Remainder(old(Snapshot(s)), target, d, item, flags) <= old(item.count)
    ensures Booked(old(Snapshot(s)), Snapshot(s'), d.cylinder, old(item.kind), old(item.count) - remainder)
    ensures Grows(old(Snapshot(s)), Snapshot(s'), d.cylinder, 1)
    ensures KeepsOthers(old(Snapshot(s)), Snapshot(s'), old(item.kind), item)
    ensures !flags.noLimit && !flags.ignoreAutoStack ==> WithinCapacity(old(Snapshot(s)), Snapshot(s'))
    decreases item.count, 1
  {
    hide Valid, Booked, DestinationOf, AddVerdict, Above, Rooted, Grows, KeepsOthers, WithinCapacity;
    ghost var h := Snapshot(s);
    AddFacts(h, target, index, item, flags);
    remainder, s' := 0, s;
    if item.kind.stackable && d.toItem != null && d.toItem.kind == item.kind {
      StackBound(h, item);
      StackBound(h, d.toItem);
      var m := Min(item.count, max);
      var n := Min(MAX_STACK - d.toItem.count, m);
      if m - n > 0 {
        if item.count != m - n {
          remainder, s' := SpillOver(target, d, item, n, m - n, flags, s);
        } else {
          AddWhole(d.cylinder, d.index, item, s);
          GrownWithin(h, Snapshot(s), d.cylinder, 1);
        }
      } else {
        TopUp(target, d.toItem, n, s);
        ToppedUp(h, Snapshot(s), target, old(item.kind), item);
        GrownWithin(h, Snapshot(s), target, 0);
      }
    } else {
      AddWhole(d.cylinder, d.index, item, s);
      GrownWithin(h, Snapshot(s), d.cylinder, 1);
    }
  }

  lemma ToppedUp(h: Heap, g: Heap, c: Item, k: Kind, item: Item)
    requires Grows(h, g, c, 0) && KeepsOthers(h, g, k, null)
    ensures Grows(h, g, c, 1) && KeepsOthers(h, g, k, item)
  {
  }

  lemma GrownWithin(h: Heap, g: Heap, c: Item, d: nat)
    requires Grows(h, g, c, d) && c in h
    ensures d == 0 || |h[c].items| + d <= c.capacity ==> WithinCapacity(h, g)
  {
  }

  method SpillOver(target: Item, d: Destination, item: Item, n: nat, rest: nat, flags: Flags, ghost s: set<Item>)
    returns (remainder: nat, ghost s': set<Item>)
    requires Valid(Snapshot(s)) && target in s && item in s && item.parent == null && target.kind.container
    requires Rooted(Snapshot(s), target) && d.cylinder == target && d.toItem != null && d.toItem in target.items
    requires Mergeable(Snapshot(s), item, d.toItem) && item.kind.stackable
    requires Welcome(Snapshot(s), target, d, item, flags)
    requires n == MAX_STACK - d.toItem.count && rest == item.count - n && rest > 0
    modifies s
    ensures s <= s' && fresh(s' - s) && Valid(Snapshot(s'))
    ensures remainder == (if flags.ignoreAutoStack && !flags.noLimit && FreeSlots(old(Snapshot(s)), target) == 0 then rest else 0)
    ensures Booked(old(Snapshot(s)), Snapshot(s'), target, old(item.kind), old(item.count) - remainder)
    ensures Grows(old(Snapshot(s)), Snapshot(s'), target, 1)
    ensures KeepsOthers(old(Snapshot(s)), Snapshot(s'), old(item.kind), item)
    ensures !flags.noLimit && !flags.ignoreAutoStack ==> WithinCapacity(old(Snapshot(s)), Snapshot(s'))
    decreases item.count, 0
  {
    hide Valid, Booked, Welcome, DestinationOf, Split, Above, Rooted, Remainder, FreeSlots, Grows, KeepsOthers, WithinCapacity;
    ghost var h := Snapshot(s);
    ghost var kind := item.kind;
    StackBound(h, item);
    assert h[item].kind == h[d.toItem].kind;
    var x, s1 := SplitOff(target, d.toItem, n, rest, s);
    ghost var g := Snapshot(s1);
    LinkedIfValid(g);
    RestIsWelcome(h, g, target, d, item, flags, n, x, rest);
    SplitFields(h, target, d.toItem, n, x, kind, rest);
    assert x.State() == g[x] && target.State() == g[target];
    var ret, ignored;
    ret, ignored, s' := InternalAddItem(target, x, WHEREEVER, flags, false, s1);
    remainder := if ret != NoError then rest else 0;
    Spilled(h, g, Snapshot(s'), target, kind, x, item, n, rest, ret == NoError);
  }

  lemma Spilled(h: Heap, m: Heap, g: Heap, c: Item, kind: Kind, x: Item, item: Item, n: nat, rest: nat, took: bool)
    requires Booked(h, m, c, kind, n) && Grows(h, m, c, 0) && KeepsOthers(h, m, kind, null)
    requires h.Keys <= m.Keys && c in m && x !in h && KeepsOthers(m, g, kind, x)
    requires if took then Booked(m, g, c, kind, rest) && Grows(m, g, c, 1) else g == m
    ensures Booked(h, g, c, kind, n + if took then rest else 0) && Grows(h, g, c, 1) && KeepsOthers(h, g, kind, item)
    ensures WithinCapacity(m, g) || g == m ==> WithinCapacity(h, g)
  {
    hide Booked, Grows, KeepsOthers, WithinCapacity;
    BookedSame(m, c, kind);
    CapacityTwice(h, m, g, c);
    KeepsTwice(h, m, g, kind, x, item);
    GrowsTwice(h, m, g, c, 0, if took then 1 else 0);
    BookedTwice(h, m, g, c, kind, n, if took then rest else 0);
  }

  lemma CapacityTwice(h: Heap, m: Heap, g: Heap, c: Item)
    requires Grows(h, m, c, 0) && h.Keys <= m.Keys
    ensures WithinCapacity(m, g) || g == m ==> WithinCapacity(h, g)
  {
  }

  lemma GrowsTwice(h: Heap, m: Heap, g: Heap, c: Item, a: nat, b: nat)
    requires Grows(h, m, c, a) && (if b == 0 then g == m else Grows(m, g, c, b)) && h.Keys <= m.Keys
    ensures Grows(h, g, c, a + b) && (a + b <= 1 ==> Grows(h, g, c, 1))
  {
  }

  lemma KeepsTwice(h: Heap, m: Heap, g: Heap, k: Kind, clone: Item, added: Item?)
    requires KeepsOthers(h, m, k, null) && KeepsOthers(m, g, k, clone) && clone !in h
    ensures KeepsOthers(h, g, k, added)
  {
    forall x | x in h
      ensures && g[x].kind == h[x].kind && (h[x].kind != k ==> g[x].count == h[x].count)
              && (h[x].parent != null ==> g[x].parent == h[x].parent && g[x].count >= h[x].count)
              && (h[x].parent == null ==> g[x].parent == null)
    {
      assert m[x].kind == h[x].kind && g[x].kind == m[x].kind;
    }
  }

  lemma LinkedIfValid(h: Heap)
    requires Valid(h)
    ensures ChildrenLinked(h)
  {
  }

  lemma SplitFields(h: Heap, c: Item, toItem: Item, n: nat, x: Item, kind: Kind, rest: nat)
    requires Rooted(h, c) && c in h && toItem in h && x !in h
    ensures var g := Split(h, c, toItem, n, x, kind, rest);
      && g[x] == Node(kind, rest, null, [], 0) && |g[c].items| == |h[c].items|
      && forall y :: y in h ==> g[y].items == h[y].items
  {
    RecountAbove(h, c, toItem, h[toItem].kind, h[toItem].count + n);
  }

  // ---------------------------------------------------------------- when an item is taken in

  /** Places left on the stacks of one kind. */
  ghost function StackPlaces(h: Heap, kind: Kind, s: seq<Item>): nat {
    if s == [] then 0
    else (if s[0] in h && h[s[0]].kind == kind && h[s[0]].count < 100 then 100 - h[s[0]].count else 0) + StackPlaces(h, kind, s[1..])
  }

  /** A container takes in a loose item when it is open, the item can be picked up, belongs to no store and
      does not hold the container; and if there is a limit, when there is room: for a stack on free slots
      and on the stacks of its kind, but only on free slots if it may not be merged; for anything else one
      free slot. */
  ghost predicate TakesIn(h: Heap, c: Item, kind: Kind, count: nat, holds: bool, flags: Flags)
    requires c in h
  {
    var free := if c.capacity > |h[c].items| then c.capacity - |h[c].items| else 0;
    && c.unlocked && kind.pickupable && !kind.storeItem && !holds
    && (flags.noLimit
        || if kind.stackable then
             count <= free * 100 + StackPlaces(h, kind, h[c].items) && (flags.ignoreAutoStack ==> free > 0)
           else free > 0)
  }

  lemma {:induction false} SlackIsPlaces(h: Heap, item: Item, s: seq<Item>)
    requires item in h && item !in s
    ensures Slack(h, item, s) == StackPlaces(h, h[item].kind, s)
    decreases |s|
  {
    if s != [] {
      SlackIsPlaces(h, item, s[1..]);
    }
  }

  lemma {:induction false} SlackMeansStack(h: Heap, item: Item, s: seq<Item>)
    ensures Slack(h, item, s) > 0 <==> FirstStack(h, item, s) < |s|
    decreases |s|
  {
    if s != [] {
      SlackMeansStack(h, item, s[1..]);
    }
  }

  /** Whether internalAddItem takes in a loose item that is to go anywhere in a container. */
  lemma WelcomeLaw(h: Heap, c: Item, item: Item, flags: Flags)
    requires Valid(h) && c in h && item in h && item != c && h[item].parent == null && h[item].count > 0
    ensures Rooted(h, c)
    ensures var d := DestinationOf(h, c, WHEREEVER, item, flags);
      && d.cylinder == c
      && (Welcome(h, c, d, item, flags) <==> TakesIn(h, c, h[item].kind, h[item].count, item in Above(h, c), flags))
  {
    hide CachesAgree, Above, Slack, FirstStack, StackPlaces;
    assert Rooted(h, c);
    RootIsUnlisted(h, item, c);
    SlackIsPlaces(h, item, h[c].items);
    SlackMeansStack(h, item, h[c].items);
  }
}
