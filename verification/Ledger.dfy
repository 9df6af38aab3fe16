/** How many items of each kind a container holds directly, and what each container
    operation does to those counts everywhere in the heap. */
module Ledger {
  import opened Forest

  ghost function CountIn(h: Heap, s: seq<Item>, k: Kind): nat {
    if s == [] then 0
    else (if s[0] in h && h[s[0]].kind == k then h[s[0]].count else 0) + CountIn(h, s[1..], k)
  }

  /** The number of items of kind k lying directly in c. */
  ghost function Holds(h: Heap, c: Item, k: Kind): nat
    requires c in h
  {
    CountIn(h, h[c].items, k)
  }

  /** The same, and nothing for what is not there. */
  ghost function HeldBefore(h: Heap, c: Item, k: Kind): int {
    if c in h then Holds(h, c, k) else 0
  }

  /** From h to g, c0 gained delta of kind k0 and no other count of any container changed. */
  ghost predicate Booked(h: Heap, g: Heap, c0: Item, k0: Kind, delta: int) {
    && h.Keys <= g.Keys
    && forall c: Item, k: Kind {:trigger Holds(g, c, k)} :: c in g ==>
         Holds(g, c, k) == HeldBefore(h, c, k) + if c == c0 && k == k0 then delta else 0
  }

  lemma {:induction false} CountSplit(h: Heap, s: seq<Item>, t: seq<Item>, k: Kind)
    ensures CountIn(h, s + t, k) == CountIn(h, s, k) + CountIn(h, t, k)
    decreases |s|
  {
    if s == [] {
      assert s + t == t;
    } else {
      CountSplit(h, s[1..], t, k);
      assert (s + t)[1..] == s[1..] + t;
    }
  }

  lemma {:induction false} CountFrame(h: Heap, g: Heap, s: seq<Item>, k: Kind)
    requires forall i :: 0 <= i < |s| ==> s[i] in h && s[i] in g && h[s[i]].kind == g[s[i]].kind && h[s[i]].count == g[s[i]].count
    ensures CountIn(h, s, k) == CountIn(g, s, k)
    decreases |s|
  {
    if s != [] {
      CountFrame(h, g, s[1..], k);
    }
  }

  lemma {:induction false} CountShift(h: Heap, g: Heap, s: seq<Item>, x: Item, k: Kind)
    requires NoDup(s) && x in s
    requires forall i :: 0 <= i < |s| ==> s[i] in h && s[i] in g && h[s[i]].kind == g[s[i]].kind
    requires forall i :: 0 <= i < |s| && s[i] != x ==> h[s[i]].count == g[s[i]].count
    ensures CountIn(g, s, k) == CountIn(h, s, k) + if h[x].kind == k then g[x].count - h[x].count else 0
    decreases |s|
  {
    if s[0] == x {
      CountFrame(h, g, s[1..], k);
    } else {
      CountShift(h, g, s[1..], x, k);
    }
  }

  lemma CountInsert(h: Heap, s: seq<Item>, i: nat, x: Item, k: Kind)
    requires i <= |s| && x in h
    ensures CountIn(h, InsertAt(s, i, x), k) == CountIn(h, s, k) + if h[x].kind == k then h[x].count else 0
  {
    CountSplit(h, s[..i] + [x], s[i..], k);
    CountSplit(h, s[..i], [x], k);
    CountSplit(h, s[..i], s[i..], k);
    assert s == s[..i] + s[i..];
  }

  lemma CountErase(h: Heap, s: seq<Item>, i: nat, k: Kind)
    requires i < |s| && s[i] in h
    ensures CountIn(h, EraseAt(s, i), k) == CountIn(h, s, k) - if h[s[i]].kind == k then h[s[i]].count else 0
  {
    CountInsert(h, EraseAt(s, i), i, s[i], k);
    assert InsertAt(EraseAt(s, i), i, s[i]) == s;
  }

  /** Kinds and counts of all items of h are unchanged in g. */
  ghost predicate SameCounts(h: Heap, g: Heap) {
    h.Keys <= g.Keys && forall x :: x in h ==> g[x].kind == h[x].kind && g[x].count == h[x].count
  }

  lemma HoldsFrame(h: Heap, g: Heap, c: Item, k: Kind)
    requires ChildrenLinked(h) && SameCounts(h, g) && c in h && g[c].items == h[c].items
    ensures Holds(g, c, k) == Holds(h, c, k)
  {
    CountFrame(h, g, h[c].items, k);
  }

  lemma AttachedBooked(h: Heap, c: Item, i: nat, x: Item)
    requires Shaped(h) && CanHang(h, c, x) && i <= |h[c].items|
    ensures Booked(h, Attached(h, c, i, x), c, h[x].kind, h[x].count)
  {
    LinkAbove(h, c, i, x);
    var g := Attached(h, c, i, x);
    forall d: Item, k: Kind | d in h
      ensures Holds(g, d, k) == Holds(h, d, k) + if d == c && k == h[x].kind then h[x].count else 0
    {
      if d == c {
        CountInsert(h, h[c].items, i, x, k);
        ListedInHeap(h, c, i, x);
        CountFrame(h, g, InsertAt(h[c].items, i, x), k);
      } else {
        HoldsFrame(h, g, d, k);
      }
    }
  }

  lemma ListedInHeap(h: Heap, c: Item, i: nat, x: Item)
    requires ChildrenLinked(h) && c in h && x in h && i <= |h[c].items|
    ensures forall j :: 0 <= j < |InsertAt(h[c].items, i, x)| ==> InsertAt(h[c].items, i, x)[j] in h
  {
    forall j | 0 <= j < |InsertAt(h[c].items, i, x)| ensures InsertAt(h[c].items, i, x)[j] in h {
      assert InsertAt(h[c].items, i, x)[j] == if j < i then h[c].items[j] else if j == i then x else h[c].items[j - 1];
    }
  }

  lemma RemovedFromSelf(h: Heap, c: Item, i: nat, k: Kind)
    requires Shaped(h) && c in h && i < |h[c].items|
    ensures Holds(Removed(h, c, i), c, k) ==
      Holds(h, c, k) - if k == h[h[c].items[i]].kind then h[h[c].items[i]].count else 0
  {
    UnlinkAbove(h, c, i);
    CountErase(h, h[c].items, i, k);
    forall j | 0 <= j < |EraseAt(h[c].items, i)| ensures EraseAt(h[c].items, i)[j] in h {
      assert EraseAt(h[c].items, i)[j] == if j < i then h[c].items[j] else h[c].items[j + 1];
    }
    CountFrame(h, Removed(h, c, i), EraseAt(h[c].items, i), k);
  }

  lemma RemovedBooked(h: Heap, c: Item, i: nat)
    requires Shaped(h) && c in h && i < |h[c].items|
    ensures Booked(h, Removed(h, c, i), c, h[h[c].items[i]].kind, -(h[h[c].items[i]].count as int))
  {
    UnlinkAbove(h, c, i);
    var g, x := Removed(h, c, i), h[c].items[i];
    forall d: Item, k: Kind | d in h
      ensures Holds(g, d, k) == Holds(h, d, k) + if d == c && k == h[x].kind then -(h[x].count as int) else 0
    {
      if d == c {
        RemovedFromSelf(h, c, i, k);
      } else {
        HoldsFrame(h, g, d, k);
      }
    }
  }

  lemma RecountedBooked(h: Heap, c: Item, x: Item, count: nat)
    requires Shaped(h) && c in h && x in h && x in h[c].items && Rooted(h, c)
    ensures Booked(h, Recounted(h, c, x, h[x].kind, count), c, h[x].kind, count - h[x].count)
  {
    RecountAbove(h, c, x, h[x].kind, count);
    var g := Recounted(h, c, x, h[x].kind, count);
    forall d: Item, k: Kind | d in h
      ensures Holds(g, d, k) == Holds(h, d, k) + if d == c && k == h[x].kind then count - h[x].count else 0
    {
      if d == c {
        CountShift(h, g, h[c].items, x, k);
      } else {
        assert x !in h[d].items;
        CountFrame(h, g, h[d].items, k);
      }
    }
  }

  /** What RemoveThing takes: removeCount from a stack, otherwise the whole item. */
  function TakenAmount(n: Node, removeCount: nat): nat {
    if n.kind.stackable then removeCount else n.count
  }

  lemma TakenBooked(h: Heap, c: Item, i: nat, removeCount: nat)
    requires Valid(h) && c in h && i < |h[c].items|
    requires var n := h[h[c].items[i]]; n.kind.stackable ==> 1 <= removeCount <= n.count
    ensures var n := h[h[c].items[i]];
      Booked(h, Taken(h, c, i, removeCount), c, n.kind, -(TakenAmount(n, removeCount) as int))
  {
    hide Booked, Recounted, Removed, StackBounds, CachesAgree;
    NotOwnChildOf(h, c);
    var n := h[h[c].items[i]];
    if n.kind.stackable && removeCount != n.count {
      RecountedBooked(h, c, h[c].items[i], n.count - removeCount);
    } else {
      RemovedBooked(h, c, i);
    }
  }

  // ---------------------------------------------------------------- new items

  /** h with a fresh, loose item. */
  ghost function WithItem(h: Heap, x: Item, kind: Kind, count: nat): Heap {
    h[x := Node(kind, count, null, [], 0)]
  }

  lemma WithItemShaped(h: Heap, x: Item, kind: Kind, count: nat)
    requires Shaped(h) && x !in h
    ensures Shaped(WithItem(h, x, kind, count))
  {
    var g := WithItem(h, x, kind, count);
    assert AtDepth(g, x, 0);
    forall y | y in g ensures Rooted(g, y) {
      if y != x {
        assert Rooted(h, y);
        WithItemDepth(h, x, kind, count, y, Depth(h, y));
      }
    }
  }

  lemma {:induction false} WithItemDepth(h: Heap, x: Item, kind: Kind, count: nat, c: Item, n: nat)
    requires AtDepth(h, c, n) && x !in h
    ensures AtDepth(WithItem(h, x, kind, count), c, n)
    ensures Chain(WithItem(h, x, kind, count), c, n) == Chain(h, c, n) <= h.Keys
    decreases n
  {
    if h[c].parent != null {
      WithItemDepth(h, x, kind, count, h[c].parent, n - 1);
    }
  }

  lemma WithItemValid(h: Heap, x: Item, kind: Kind, count: nat)
    requires Valid(h) && x !in h && (kind.stackable ==> !kind.container && 1 <= count <= 100)
    ensures Valid(WithItem(h, x, kind, count))
  {
    var g := WithItem(h, x, kind, count);
    WithItemShaped(h, x, kind, count);
    forall y | y in g ensures CacheOff(g, y, 0) {
      if y != x {
        assert CacheOff(h, y, 0);
        SumFrame(h, g, h[y].items);
      }
    }
  }

  lemma WithItemHang(h: Heap, x: Item, kind: Kind, count: nat, c: Item)
    requires Shaped(h) && x !in h && c in h && h[c].kind.container
    ensures CanHang(WithItem(h, x, kind, count), c, x)
  {
    assert Rooted(h, c);
    var g, n := WithItem(h, x, kind, count), Depth(h, c);
    WithItemDepth(h, x, kind, count, c, n);
    AboveIsChain(g, c, n);
  }

  lemma WithItemBooked(h: Heap, x: Item, kind: Kind, count: nat, c: Item, k: Kind)
    requires Shaped(h) && x !in h
    ensures Booked(h, WithItem(h, x, kind, count), c, k, 0)
  {
    var g := WithItem(h, x, kind, count);
    forall d: Item, k2: Kind | d in g ensures Holds(g, d, k2) == HeldBefore(h, d, k2) {
      if d in h {
        HoldsFrame(h, g, d, k2);
      }
    }
  }

  lemma BookedSame(h: Heap, c: Item, k: Kind)
    ensures Booked(h, h, c, k, 0)
  {
  }

  lemma BookedTwice(h: Heap, m: Heap, g: Heap, c: Item, k: Kind, a: int, b: int)
    requires Booked(h, m, c, k, a) && Booked(m, g, c, k, b) && c in m
    ensures Booked(h, g, c, k, a + b)
  {
    forall d: Item, k2: Kind | d in g
      ensures Holds(g, d, k2) == HeldBefore(h, d, k2) + if d == c && k2 == k then a + b else 0
    {
      assert d in m ==> Holds(m, d, k2) == Holds(m, d, k2);
    }
  }
}
