/** What the list operations of containers do to the lists and the parent links. */
module ListLaws {
  import opened Forest

  /** Everything but the lists of c and the totals above c, and the parents of the given items. */
  ghost predicate OnlyListed(h: Heap, g: Heap, c: Item, moved: set<Item>) {
    && g.Keys == h.Keys
    && (forall y {:trigger g[y].kind} :: y in h ==> g[y].kind == h[y].kind && g[y].count == h[y].count)
    && (forall y {:trigger g[y].items} :: y in h && y != c ==> g[y].items == h[y].items)
    && (forall y {:trigger g[y].parent} :: y in h && y !in moved ==> g[y].parent == h[y].parent)
  }

  /** An item put in at a place stands there, before what stood there. */
  lemma AttachedLists(h: Heap, c: Item, k: nat, x: Item)
    requires Shaped(h) && CanHang(h, c, x) && k <= |h[c].items|
    ensures var g := Attached(h, c, k, x);
      OnlyListed(h, g, c, {x}) && g[c].items == h[c].items[..k] + [x] + h[c].items[k..] && g[x].parent == c
  {
    LinkAbove(h, c, k, x);
  }

  /** An item taken out leaves the others in their order and becomes a root. */
  lemma RemovedLists(h: Heap, c: Item, i: nat)
    requires Shaped(h) && c in h && i < |h[c].items|
    ensures h[c].items[i] in h
    ensures var g := Removed(h, c, i); var x := h[c].items[i];
      OnlyListed(h, g, c, {x}) && g[c].items == h[c].items[..i] + h[c].items[i + 1..] && g[x].parent == null
  {
    UnlinkAbove(h, c, i);
  }

  /** An item put in the place of another one: that one becomes a root. */
  lemma ReplacedLists(h: Heap, c: Item, i: nat, x: Item)
    requires Shaped(h) && CanHang(h, c, x) && i < |h[c].items|
    ensures h[c].items[i] in h
    ensures var g := Replaced(h, c, i, x); var y := h[c].items[i];
      OnlyListed(h, g, c, {x, y}) && g[c].items == h[c].items[i := x] && g[x].parent == c && g[y].parent == null
  {
    hide Acyclic, Rooted, Above, Link, OnlyListed;
    SwapAbove(h, c, i, x);
    SwappedLists(h, c, i, x);
    ReweighedLists(h, Link(Unlink(h, c, i), c, i, x), c, WeightOf(h[x]) - WeightOf(h[h[c].items[i]]), {x, h[c].items[i]});
  }

  lemma SwappedLists(h: Heap, c: Item, i: nat, x: Item)
    requires c in h && x in h && x != c && i < |h[c].items| && h[c].items[i] in h && h[c].items[i] != c && h[c].items[i] != x
    ensures var g := Link(Unlink(h, c, i), c, i, x); var y := h[c].items[i];
      OnlyListed(h, g, c, {x, y}) && g[c].items == h[c].items[i := x] && g[x].parent == c && g[y].parent == null
  {
    assert InsertAt(EraseAt(h[c].items, i), i, x) == h[c].items[i := x];
  }

  lemma ReweighedLists(h: Heap, g: Heap, c: Item, diff: int, moved: set<Item>)
    requires c in g && Rooted(g, c) && OnlyListed(h, g, c, moved)
    ensures OnlyListed(h, Reweigh(g, c, diff), c, moved) && SameButTotals(g, Reweigh(g, c, diff))
  {
  }

  /** Part of a stack taken out lowers its count; the whole of it, or anything else, leaves. */
  lemma TakenLists(h: Heap, c: Item, i: nat, removeCount: nat)
    requires Valid(h) && c in h && i < |h[c].items| && h[c].items[i] in h
    requires h[h[c].items[i]].kind.stackable ==> 1 <= removeCount <= h[h[c].items[i]].count
    ensures var x, g := h[c].items[i], Taken(h, c, i, removeCount);
      if h[x].kind.stackable && removeCount < h[x].count then
        && g.Keys == h.Keys && g[x].count == h[x].count - removeCount && g[x].kind == h[x].kind
        && (forall y :: y in h ==> g[y].items == h[y].items && g[y].parent == h[y].parent)
        && (forall y :: y in h && y != x ==> g[y].kind == h[y].kind && g[y].count == h[y].count)
      else g[c].items == h[c].items[..i] + h[c].items[i + 1..] && g[x].parent == null && OnlyListed(h, g, c, {x})
  {
    hide CachesAgree, ListsDistinct;
    assert Rooted(h, c);
    var x := h[c].items[i];
    if h[x].kind.stackable && removeCount < h[x].count {
      RecountAbove(h, c, x, h[x].kind, h[x].count - removeCount);
    } else {
      RemovedLists(h, c, i);
    }
  }
}
