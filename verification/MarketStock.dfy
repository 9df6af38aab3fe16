/** Finding the units of a ware in a player's depot and inbox, and taking exactly as many as are sold. */
module MarketStock {
  import opened Forest
  import opened Ledger
  import opened Queries
  import opened Moves
  import opened Money
  import ForestTree
  import Iteration
  import Payment

  /** Which ware an item counts as, and whether its attributes leave it marketable. */
  datatype Goods = Goods(wareOf: Kind -> nat, marketable: Kind -> bool)

  /** Full containers are searched, not sold; resized ones are neither. */
  ghost predicate Eligible(h: Heap, x: Item, ware: nat, goods: Goods) {
    && x in h && (h[x].kind.container ==> h[x].items == [] && x.capacity == h[x].kind.maxItems)
    && goods.wareOf(h[x].kind) == ware && goods.marketable(h[x].kind)
  }

  ghost function UnitsOf(h: Heap, list: seq<Item>): nat {
    if list == [] then 0 else (if list[0] in h then h[list[0]].count else 0) + UnitsOf(h, list[1..])
  }

  /** The eligible units among some items. */
  ghost function EligibleIn(h: Heap, s: seq<Item>, ware: nat, goods: Goods): nat {
    if s == [] then 0
    else (if Eligible(h, s[0], ware, goods) then h[s[0]].count else 0) + EligibleIn(h, s[1..], ware, goods)
  }

  /** The eligible units lying directly in some containers. */
  ghost function EligibleUnder(h: Heap, boxes: seq<Item>, ware: nat, goods: Goods): nat {
    if boxes == [] then 0
    else (if boxes[0] in h then EligibleIn(h, h[boxes[0]].items, ware, goods) else 0) + EligibleUnder(h, boxes[1..], ware, goods)
  }

  // ---------------------------------------------------------------- the search

  /** boxes starts with the depot and the inbox and goes on with filled containers met below them,
      without repetition; all filled containers met so far are listed. */
  ghost predicate Searched(h: Heap, depot: Item, inbox: Item, boxes: seq<Item>, p: nat, n: nat) {
    && |boxes| >= 2 && boxes[0] == depot && boxes[1] == inbox && NoDup(boxes) && p <= |boxes|
    && (forall i :: 0 <= i < |boxes| ==> boxes[i] in h && h[boxes[i]].kind.container)
    && (forall i :: 2 <= i < |boxes| ==> Payment.ListedFrom(h, boxes, p, n, boxes[i]) && h[boxes[i]].items != [])
    && (p < |boxes| ==> n <= |h[boxes[p]].items|)
    && (forall j, y :: 0 <= j < p && y in h[boxes[j]].items && y in h && h[y].items != [] ==> y in boxes)
    && (p < |boxes| ==> forall m :: 0 <= m < n && h[boxes[p]].items[m] in h && h[h[boxes[p]].items[m]].items != [] ==>
          h[boxes[p]].items[m] in boxes)
  }

  /** The depot and the inbox are separate roots. */
  ghost predicate Separate(h: Heap, depot: Item, inbox: Item) {
    && depot in h && inbox in h && depot != inbox && h[depot].kind.container && h[inbox].kind.container
    && h[depot].parent == null && h[inbox].parent == null
  }

  /** The list holds the eligible items met so far, each once. */
  ghost predicate Gathered(h: Heap, boxes: seq<Item>, p: nat, n: nat, list: seq<Item>, count: nat, ware: nat, goods: Goods) {
    && NoDup(list) && p <= |boxes| && (forall i :: 0 <= i < |boxes| ==> boxes[i] in h)
    && (p < |boxes| ==> n <= |h[boxes[p]].items|)
    && (forall i :: 0 <= i < |list| ==>
          Eligible(h, list[i], ware, goods) && h[list[i]].parent != null && Payment.ListedFrom(h, boxes, p, n, list[i]))
    && count == UnitsOf(h, list)
    && count == EligibleUnder(h, boxes[..p], ware, goods) + if p < |boxes| then EligibleIn(h, h[boxes[p]].items[..n], ware, goods) else 0
  }

  lemma {:induction false} EligibleSplit(h: Heap, a: seq<Item>, b: seq<Item>, ware: nat, goods: Goods)
    ensures EligibleIn(h, a + b, ware, goods) == EligibleIn(h, a, ware, goods) + EligibleIn(h, b, ware, goods)
    ensures EligibleUnder(h, a + b, ware, goods) == EligibleUnder(h, a, ware, goods) + EligibleUnder(h, b, ware, goods)
    decreases |a|
  {
    hide Eligible;
    if a == [] {
      assert a + b == b;
    } else {
      EligibleSplit(h, a[1..], b, ware, goods);
      assert (a + b)[1..] == a[1..] + b;
    }
  }

  lemma EligibleNext(h: Heap, s: seq<Item>, n: nat, ware: nat, goods: Goods)
    requires n < |s|
    ensures EligibleIn(h, s[..n + 1], ware, goods)
      == EligibleIn(h, s[..n], ware, goods) + if Eligible(h, s[n], ware, goods) then h[s[n]].count else 0
  {
    hide Eligible;
    assert s[..n + 1] == s[..n] + [s[n]];
    EligibleSplit(h, s[..n], [s[n]], ware, goods);
    EligibleOne(h, s[n], ware, goods);
  }

  lemma EligibleOne(h: Heap, x: Item, ware: nat, goods: Goods)
    ensures EligibleIn(h, [x], ware, goods) == if Eligible(h, x, ware, goods) then h[x].count else 0
  {
    assert EligibleIn(h, [x][1..], ware, goods) == 0;
  }

  /** The next child is new: it has not been met before and is neither depot nor inbox. */
  lemma NextIsNew(h: Heap, depot: Item, inbox: Item, boxes: seq<Item>, p: nat, n: nat)
    requires Shaped(h) && Separate(h, depot, inbox) && Searched(h, depot, inbox, boxes, p, n)
    requires p < |boxes| && n < |h[boxes[p]].items|
    ensures var x := h[boxes[p]].items[n];
      x in h && h[x].parent == boxes[p] && x !in boxes && !Payment.ListedFrom(h, boxes, p, n, x)
  {
    var x := h[boxes[p]].items[n];
    assert h[x].parent == boxes[p];
    Payment.NotListedYet(h, boxes, p, n, x);
  }

  lemma SearchedBox(h: Heap, depot: Item, inbox: Item, boxes: seq<Item>, p: nat, n: nat)
    requires Shaped(h) && Separate(h, depot, inbox) && Searched(h, depot, inbox, boxes, p, n)
    requires p < |boxes| && n < |h[boxes[p]].items| && h[h[boxes[p]].items[n]].items != []
    ensures Searched(h, depot, inbox, boxes + [h[boxes[p]].items[n]], p, n + 1)
  {
    var x := h[boxes[p]].items[n];
    NextIsNew(h, depot, inbox, boxes, p, n);
    FilledIsContainer(h, x);
    Payment.ListedGrow(h, boxes, x, p, n);
    var more := boxes + [x];
    assert more[p] == boxes[p] && |more| == |boxes| + 1 && more[|boxes|] == x;
    assert forall i :: 0 <= i < |boxes| ==> more[i] == boxes[i];
  }

  lemma FilledIsContainer(h: Heap, x: Item)
    requires Shaped(h) && x in h && h[x].items != []
    ensures h[x].kind.container
  {
  }

  lemma SearchedOther(h: Heap, depot: Item, inbox: Item, boxes: seq<Item>, p: nat, n: nat)
    requires Shaped(h) && Searched(h, depot, inbox, boxes, p, n)
    requires p < |boxes| && n < |h[boxes[p]].items| && h[boxes[p]].items[n] in h && h[h[boxes[p]].items[n]].items == []
    ensures Searched(h, depot, inbox, boxes, p, n + 1)
  {
    Payment.ListedGrow(h, boxes, depot, p, n);
  }

  lemma SearchedNext(h: Heap, depot: Item, inbox: Item, boxes: seq<Item>, p: nat)
    requires p < |boxes| && boxes[p] in h && Searched(h, depot, inbox, boxes, p, |h[boxes[p]].items|)
    ensures Searched(h, depot, inbox, boxes, p + 1, 0)
  {
    forall i | 2 <= i < |boxes| ensures Payment.ListedFrom(h, boxes, p + 1, 0, boxes[i]) {
      Payment.ListedNext(h, boxes, p, boxes[i]);
    }
    forall j, y | 0 <= j < p + 1 && y in h[boxes[j]].items && y in h && h[y].items != [] ensures y in boxes {
      if j == p {
        var m :| 0 <= m < |h[boxes[p]].items| && h[boxes[p]].items[m] == y;
      }
    }
  }

  lemma GatheredNext(h: Heap, boxes: seq<Item>, p: nat, list: seq<Item>, count: nat, ware: nat, goods: Goods)
    requires p < |boxes| && boxes[p] in h && Gathered(h, boxes, p, |h[boxes[p]].items|, list, count, ware, goods)
    ensures Gathered(h, boxes, p + 1, 0, list, count, ware, goods)
  {
    hide Eligible;
    forall i | 0 <= i < |list| ensures Payment.ListedFrom(h, boxes, p + 1, 0, list[i]) {
      Payment.ListedNext(h, boxes, p, list[i]);
    }
    var c := boxes[p];
    assert boxes[..p + 1] == boxes[..p] + [c] && h[c].items[..|h[c].items|] == h[c].items;
    EligibleSplit(h, boxes[..p], [c], ware, goods);
    assert EligibleUnder(h, [c], ware, goods) == EligibleIn(h, h[c].items, ware, goods) + EligibleUnder(h, [], ware, goods);
  }

  /** A child that is not for sale is passed over. */
  lemma GatheredSkip(h: Heap, boxes: seq<Item>, more: seq<Item>, p: nat, n: nat, list: seq<Item>, count: nat, ware: nat, goods: Goods)
    requires Shaped(h) && p < |boxes| && boxes[p] in h && n < |h[boxes[p]].items| && h[boxes[p]].items[n] in h
    requires Gathered(h, boxes, p, n, list, count, ware, goods) && !Eligible(h, h[boxes[p]].items[n], ware, goods)
    requires more == boxes || more == boxes + [h[boxes[p]].items[n]]
    ensures Gathered(h, more, p, n + 1, list, count, ware, goods)
  {
    hide Eligible;
    Payment.ListedGrow(h, boxes, h[boxes[p]].items[n], p, n);
    EligibleNext(h, h[boxes[p]].items, n, ware, goods);
    assert more[..p] == boxes[..p] && more[p] == boxes[p];
  }

  /** A child for sale goes to the front of the list. */
  lemma GatheredOne(h: Heap, boxes: seq<Item>, p: nat, n: nat, list: seq<Item>, count: nat, ware: nat, goods: Goods)
    requires Shaped(h) && p < |boxes| && boxes[p] in h && n < |h[boxes[p]].items|
    requires var x := h[boxes[p]].items[n];
      x in h && h[x].parent == boxes[p] && !Payment.ListedFrom(h, boxes, p, n, x) && Eligible(h, x, ware, goods)
    requires Gathered(h, boxes, p, n, list, count, ware, goods)
    ensures var x := h[boxes[p]].items[n]; Gathered(h, boxes, p, n + 1, [x] + list, count + h[x].count, ware, goods)
  {
    hide Eligible;
    var x := h[boxes[p]].items[n];
    Payment.ListedGrow(h, boxes, x, p, n);
    EligibleNext(h, h[boxes[p]].items, n, ware, goods);
    var t := [x] + list;
    assert t[1..] == list;
    assert forall i :: 0 <= i < |list| ==> list[i] != x;
    forall i | 0 <= i < |t|
      ensures Eligible(h, t[i], ware, goods) && h[t[i]].parent != null && Payment.ListedFrom(h, boxes, p, n + 1, t[i])
    {
      if i > 0 {
        assert t[i] == list[i - 1];
      }
    }
  }

  // ---------------------------------------------------------------- where the search looks

  /** The depot, the inbox and the filled containers below them. */
  ghost function StockBoxes(h: Heap, depot: Item, inbox: Item): set<Item>
    requires Acyclic(h)
  {
    {depot, inbox} + set y | y in Iteration.Below(h, depot) + Iteration.Below(h, inbox) && y in h && h[y].items != []
  }

  /** Going up from a listed box, one arrives at the depot or the inbox. */
  lemma {:induction false} BoxInStock(h: Heap, depot: Item, inbox: Item, boxes: seq<Item>, p: nat, n: nat, x: Item)
    requires Shaped(h) && Separate(h, depot, inbox) && Searched(h, depot, inbox, boxes, p, n) && x in boxes
    ensures x in StockBoxes(h, depot, inbox) && Rooted(h, x) && (depot in Above(h, x) || inbox in Above(h, x))
    decreases Above(h, x)
  {
    hide Above, ChildrenLinked, ParentsLinked, ListsDistinct, Separate;
    SelfInAbove(h, x);
    var i :| 0 <= i < |boxes| && boxes[i] == x;
    if i >= 2 {
      assert Payment.ListedFrom(h, boxes, p, n, x);
      var c := h[x].parent;
      ForestTree.ChildAbove(h, c, x);
      BoxInStock(h, depot, inbox, boxes, p, n, c);
    }
  }

  lemma SelfInAbove(h: Heap, x: Item)
    requires Acyclic(h) && x in h
    ensures Rooted(h, x) && x in Above(h, x)
  {
    assert Rooted(h, x);
    AboveIsChain(h, x, Depth(h, x));
  }

  /** Going up from a filled container below the depot or the inbox, one arrives at a listed box. */
  lemma {:induction false} StockReached(h: Heap, depot: Item, inbox: Item, boxes: seq<Item>, root: Item, y: Item)
    requires Shaped(h) && Searched(h, depot, inbox, boxes, |boxes|, 0) && (root == depot || root == inbox)
    requires y in h && (y == root || h[y].items != []) && Rooted(h, y) && root in Above(h, y)
    ensures y in boxes
    decreases Above(h, y)
  {
    hide Above, Shaped;
    if y == root {
      assert boxes[0] == depot && boxes[1] == inbox;
    } else {
      Payment.StepUp(h, root, y);
      StockReached(h, depot, inbox, boxes, root, h[y].parent);
      var j :| 0 <= j < |boxes| && boxes[j] == h[y].parent;
    }
  }

  /** When the search has ended, it has looked into the depot, the inbox and exactly the filled
      containers below them. */
  lemma SearchedExactly(h: Heap, depot: Item, inbox: Item, boxes: seq<Item>)
    requires Shaped(h) && Separate(h, depot, inbox) && Searched(h, depot, inbox, boxes, |boxes|, 0)
    ensures Payment.Members(boxes) == StockBoxes(h, depot, inbox)
  {
    hide Above, Payment.ListedFrom, Separate;
    forall y | y in boxes ensures y in StockBoxes(h, depot, inbox) {
      BoxInStock(h, depot, inbox, boxes, |boxes|, 0, y);
    }
    forall y | y in StockBoxes(h, depot, inbox) ensures y in boxes {
      if y == depot || y == inbox {
        assert boxes[0] == depot && boxes[1] == inbox;
      } else if y in Iteration.Below(h, depot) {
        StockReached(h, depot, inbox, boxes, depot, y);
      } else {
        StockReached(h, depot, inbox, boxes, inbox, y);
      }
    }
  }

  /** What is found: distinct eligible items lying in some of the given containers. */
  ghost predicate OnSale(h: Heap, list: seq<Item>, ware: nat, goods: Goods, from: set<Item>) {
    NoDup(list) && forall i :: 0 <= i < |list| ==> Eligible(h, list[i], ware, goods) && h[list[i]].parent in from
  }

  lemma GatheredOnSale(h: Heap, depot: Item, inbox: Item, boxes: seq<Item>, p: nat, n: nat, list: seq<Item>, count: nat, ware: nat, goods: Goods)
    requires Shaped(h) && Separate(h, depot, inbox) && Searched(h, depot, inbox, boxes, p, n)
    requires Gathered(h, boxes, p, n, list, count, ware, goods)
    ensures OnSale(h, list, ware, goods, StockBoxes(h, depot, inbox)) && UnitsOf(h, list) == count
    ensures p == |boxes| ==> count == EligibleUnder(h, boxes, ware, goods)
  {
    hide Eligible, Acyclic, ChildrenLinked, ParentsLinked, ListsDistinct, Separate;
    assert boxes[..|boxes|] == boxes;
    forall i | 0 <= i < |list| ensures h[list[i]].parent in StockBoxes(h, depot, inbox) {
      assert Payment.ListedFrom(h, boxes, p, n, list[i]);
      BoxInStock(h, depot, inbox, boxes, p, n, h[list[i]].parent);
    }
  }

  lemma SearchedNow(h: Heap, depot: Item, inbox: Item, boxes: seq<Item>, p: nat, n: nat)
    requires Searched(h, depot, inbox, boxes, p, n)
    ensures NoDup(boxes) && |boxes| >= 2 && p <= |boxes| && forall i :: 0 <= i < |boxes| ==> boxes[i] in h
  {
  }

  lemma SearchStarts(h: Heap, depot: Item, inbox: Item, ware: nat, goods: Goods)
    requires Separate(h, depot, inbox)
    ensures Searched(h, depot, inbox, [depot, inbox], 0, 0) && Gathered(h, [depot, inbox], 0, 0, [], 0, ware, goods)
  {
    assert [depot, inbox][..0] == [] && h[depot].items[..0] == [];
  }

  /** Whether a child is offered, and whether it is a filled container to be searched later. */
  method Judge(x: Item, ware: nat, goods: Goods, ghost s: set<Item>) returns (filled: bool, forSale: bool)
    requires Shaped(Snapshot(s)) && x in s
    ensures filled == (x.items != []) && forSale == Eligible(Snapshot(s), x, ware, goods)
  {
    FilledMeansContainer(Snapshot(s), x);
    filled := x.kind.container && |x.items| > 0;
    if filled {
      return true, false;
    }
    forSale := goods.wareOf(x.kind) == ware && (x.kind.container ==> x.capacity == x.kind.maxItems) && goods.marketable(x.kind);
  }

  lemma FilledMeansContainer(h: Heap, x: Item)
    requires Shaped(h) && x in h
    ensures h[x].items != [] ==> h[x].kind.container
  {
  }

  /** Looks through one container until enough has been found. */
  method ScanContainer(p: nat, boxes0: seq<Item>, list0: seq<Item>, count0: nat, ware: nat, sufficientCount: nat, goods: Goods,
                       ghost depot: Item, ghost inbox: Item, ghost s: set<Item>)
    returns (enough: bool, boxes: seq<Item>, list: seq<Item>, count: nat)
    requires Shaped(Snapshot(s)) && Separate(Snapshot(s), depot, inbox) && p < |boxes0| && count0 < sufficientCount
    requires Searched(Snapshot(s), depot, inbox, boxes0, p, 0)
    requires Gathered(Snapshot(s), boxes0, p, 0, list0, count0, ware, goods)
    ensures enough ==>
      && list != [] && OnSale(Snapshot(s), list, ware, goods, StockBoxes(Snapshot(s), depot, inbox))
      && UnitsOf(Snapshot(s), list[1..]) < sufficientCount <= UnitsOf(Snapshot(s), list)
    ensures !enough ==>
      && count < sufficientCount && |boxes0| <= |boxes|
      && Searched(Snapshot(s), depot, inbox, boxes, p + 1, 0)
      && Gathered(Snapshot(s), boxes, p + 1, 0, list, count, ware, goods)
  {
    hide Searched, Gathered, Shaped, Separate, Eligible, OnSale, UnitsOf;
    ghost var h := Snapshot(s);
    SearchedNow(h, depot, inbox, boxes0, p, 0);
    var c := boxes0[p];
    enough, boxes, list, count := false, boxes0, list0, count0;
    var n := 0;
    while n < |c.items|
      invariant 0 <= n <= |c.items| && |boxes0| <= |boxes| && boxes[p] == c && count < sufficientCount && !enough
      invariant Searched(h, depot, inbox, boxes, p, n) && Gathered(h, boxes, p, n, list, count, ware, goods)
    {
      var item := c.items[n];
      NextIsNew(h, depot, inbox, boxes, p, n);
      assert h[item] == item.State();
      var filled, forSale := Judge(item, ware, goods, s);
      if filled {
        SearchedBox(h, depot, inbox, boxes, p, n);
        FilledNotForSale(h, item, ware, goods);
        GatheredSkip(h, boxes, boxes + [item], p, n, list, count, ware, goods);
        boxes := boxes + [item];
      } else {
        SearchedOther(h, depot, inbox, boxes, p, n);
        if forSale {
          GatheredOnSale(h, depot, inbox, boxes, p, n, list, count, ware, goods);
          GatheredOne(h, boxes, p, n, list, count, ware, goods);
          list := [item] + list;
          count := count + item.count;
          if count >= sufficientCount {
            GatheredOnSale(h, depot, inbox, boxes, p, n + 1, list, count, ware, goods);
            enough := true;
            return;
          }
        } else {
          GatheredSkip(h, boxes, boxes, p, n, list, count, ware, goods);
        }
      }
      n := n + 1;
    }
    SearchedNow(h, depot, inbox, boxes, p, n);
    SearchedNext(h, depot, inbox, boxes, p);
    GatheredNext(h, boxes, p, list, count, ware, goods);
  }

  lemma FilledNotForSale(h: Heap, x: Item, ware: nat, goods: Goods)
    requires Shaped(h) && x in h && h[x].items != []
    ensures !Eligible(h, x, ware, goods)
  {
  }

  /** Enough units of a ware, newest find first; nothing when the depot and the inbox, with all the
      filled containers below them, hold fewer. */
  method GetMarketItemList(ware: nat, sufficientCount: nat, depot: Item, inbox: Item, goods: Goods, ghost s: set<Item>)
    returns (list: seq<Item>, ghost searched: seq<Item>)
    requires Shaped(Snapshot(s)) && Separate(Snapshot(s), depot, inbox) && sufficientCount > 0
    ensures list != [] ==>
      && OnSale(Snapshot(s), list, ware, goods, StockBoxes(Snapshot(s), depot, inbox))
      && UnitsOf(Snapshot(s), list[1..]) < sufficientCount <= UnitsOf(Snapshot(s), list)
    ensures list == [] ==>
      && Searched(Snapshot(s), depot, inbox, searched, |searched|, 0)
      && Payment.Members(searched) == StockBoxes(Snapshot(s), depot, inbox)
      && EligibleUnder(Snapshot(s), searched, ware, goods) < sufficientCount
  {
    hide Searched, Gathered, Shaped, Separate, OnSale, UnitsOf, EligibleUnder;
    ghost var h := Snapshot(s);
    SearchStarts(h, depot, inbox, ware, goods);
    var boxes, count := [depot, inbox], 0;
    list, searched := [], boxes;
    var i := 0;
    SearchedNow(h, depot, inbox, boxes, 0, 0);
    Payment.NoDupBound(boxes, s);
    while i < |boxes|
      invariant 0 <= i <= |boxes| && |boxes| <= |s| && 0 <= count < sufficientCount
      invariant Searched(h, depot, inbox, boxes, i, 0) && Gathered(h, boxes, i, 0, list, count, ware, goods)
      decreases |s| - i
    {
      var enough;
      enough, boxes, list, count := ScanContainer(i, boxes, list, count, ware, sufficientCount, goods, depot, inbox, s);
      if enough {
        return;
      }
      i := i + 1;
      SearchedNow(h, depot, inbox, boxes, i, 0);
      Payment.NoDupBound(boxes, s);
    }
    GatheredOnSale(h, depot, inbox, boxes, i, 0, list, count, ware, goods);
    SearchedExactly(h, depot, inbox, boxes);
    list, searched := [], boxes;
  }

  /** What lies in a searched container, counts as the ware, has nothing special about it and is no filled or
      resized container, is there to be sold. */
  lemma {:induction false} DirectStock(h: Heap, boxes: seq<Item>, c: Item, i: nat, ware: nat, goods: Goods)
    requires c in boxes && c in h && i < |h[c].items| && h[c].items[i] in h
    requires var x := h[c].items[i];
      && goods.wareOf(h[x].kind) == ware && goods.marketable(h[x].kind)
      && (h[x].kind.container ==> h[x].items == [] && x.capacity == h[x].kind.maxItems)
    ensures EligibleUnder(h, boxes, ware, goods) >= h[h[c].items[i]].count
    decreases |boxes|
  {
    if boxes[0] == c {
      DirectStockIn(h, h[c].items, i, ware, goods);
    } else {
      DirectStock(h, boxes[1..], c, i, ware, goods);
    }
  }

  lemma {:induction false} DirectStockIn(h: Heap, s: seq<Item>, i: nat, ware: nat, goods: Goods)
    requires i < |s| && Eligible(h, s[i], ware, goods)
    ensures EligibleIn(h, s, ware, goods) >= h[s[i]].count
    decreases |s|
  {
    if i > 0 {
      DirectStockIn(h, s[1..], i - 1, ware, goods);
    }
  }

  // ---------------------------------------------------------------- taking what is sold

  /** Some units of one kind taken out of one container. */
  datatype Deal = Deal(parent: Item, kind: Kind, units: nat)

  function DealtUnits(deals: seq<Deal>): nat {
    if deals == [] then 0 else deals[0].units + DealtUnits(deals[1..])
  }

  function DealtFrom(deals: seq<Deal>, c: Item, k: Kind): nat {
    if deals == [] then 0
    else (if deals[0].parent == c && deals[0].kind == k then deals[0].units else 0) + DealtFrom(deals[1..], c, k)
  }

  /** Every container has lost exactly what was dealt from it, kind by kind, and nothing else. */
  ghost predicate Sold(h: Heap, g: Heap, deals: seq<Deal>, ware: nat, goods: Goods, from: set<Item>) {
    && h.Keys == g.Keys && (forall i :: 0 <= i < |deals| ==> goods.wareOf(deals[i].kind) == ware && deals[i].parent in from)
    && forall c: Item, k: Kind {:trigger Holds(g, c, k)} :: c in h && c in g ==>
         Holds(g, c, k) == Holds(h, c, k) - DealtFrom(deals, c, k)
  }

  lemma SoldOne(h: Heap, m: Heap, g: Heap, deals: seq<Deal>, d: Deal, ware: nat, goods: Goods, from: set<Item>)
    requires Sold(h, m, deals, ware, goods, from) && Booked(m, g, d.parent, d.kind, -(d.units as int)) && m.Keys == g.Keys
    requires goods.wareOf(d.kind) == ware && d.parent in from
    ensures Sold(h, g, [d] + deals, ware, goods, from) && DealtUnits([d] + deals) == d.units + DealtUnits(deals)
  {
    var t := [d] + deals;
    assert t[1..] == deals;
    forall c: Item, k: Kind | c in h && c in g ensures Holds(g, c, k) == Holds(h, c, k) - DealtFrom(t, c, k) {
      assert c in m && Holds(m, c, k) == Holds(m, c, k);
    }
  }

  lemma NothingSold(h: Heap, ware: nat, goods: Goods, from: set<Item>)
    ensures Sold(h, h, [], ware, goods, from)
  {
    forall c: Item, k: Kind | c in h ensures Holds(h, c, k) == Holds(h, c, k) - DealtFrom([], c, k) {
    }
  }

  /** The items of the list from j on are still as they were. */
  ghost predicate StillOnSale(h: Heap, g: Heap, list: seq<Item>, j: nat, ware: nat, goods: Goods, from: set<Item>) {
    && OnSale(h, list, ware, goods, from) && j <= |list| && h.Keys == g.Keys
    && forall i :: j <= i < |list| ==>
         g[list[i]].kind == h[list[i]].kind && g[list[i]].count == h[list[i]].count && g[list[i]].parent == h[list[i]].parent
  }

  lemma SaleGoesOn(h: Heap, m: Heap, g: Heap, list: seq<Item>, j: nat, ware: nat, goods: Goods, from: set<Item>)
    requires StillOnSale(h, m, list, j, ware, goods, from) && j < |list| && KeepsExcept(m, g, list[j])
    ensures StillOnSale(h, g, list, j + 1, ware, goods, from)
  {
    hide Eligible;
    forall i | 0 <= i < |list| ensures list[i] in h {
      assert Eligible(h, list[i], ware, goods);
      InHeap(h, list[i], ware, goods);
    }
    forall i | j + 1 <= i < |list|
      ensures g[list[i]].kind == h[list[i]].kind && g[list[i]].count == h[list[i]].count && g[list[i]].parent == h[list[i]].parent
    {
      assert list[i] != list[j];
    }
  }

  lemma InHeap(h: Heap, x: Item, ware: nat, goods: Goods)
    requires Eligible(h, x, ware, goods)
    ensures x in h && goods.wareOf(h[x].kind) == ware
  {
  }

  lemma OneOnSale(h: Heap, g: Heap, list: seq<Item>, j: nat, ware: nat, goods: Goods, from: set<Item>)
    requires StillOnSale(h, g, list, j, ware, goods, from) && j < |list|
    ensures list[j] in g && g[list[j]].parent != null && g[list[j]].parent in from && goods.wareOf(g[list[j]].kind) == ware && g[list[j]].count == h[list[j]].count
    ensures g[list[j]].kind == h[list[j]].kind && list[j] in h
  {
    assert Eligible(h, list[j], ware, goods);
  }

  lemma UnitsNext(h: Heap, list: seq<Item>, j: nat)
    requires j < |list| && list[j] in h
    ensures UnitsOf(h, list[j..]) == h[list[j]].count + UnitsOf(h, list[j + 1..])
  {
    assert list[j..][1..] == list[j + 1..];
  }

  ghost predicate AllStack(h: Heap, list: seq<Item>) {
    forall i :: 0 <= i < |list| && list[i] in h ==> h[list[i]].kind.stackable
  }

  ghost predicate AllSingle(h: Heap, list: seq<Item>) {
    forall i :: 0 <= i < |list| && list[i] in h ==> !h[list[i]].kind.stackable && h[list[i]].count == 1
  }

  /** Takes exactly the amount from the stacks found, the last one only in part if need be. */
  method SellStacks(list: seq<Item>, amount: nat, ware: nat, ghost goods: Goods, ghost from: set<Item>, ghost s: set<Item>) returns (ghost deals: seq<Deal>)
    requires Valid(Snapshot(s)) && OnSale(Snapshot(s), list, ware, goods, from) && AllStack(Snapshot(s), list)
    requires 0 < amount <= UnitsOf(Snapshot(s), list)
    modifies s
    ensures Valid(Snapshot(s)) && Sold(old(Snapshot(s)), Snapshot(s), deals, ware, goods, from) && DealtUnits(deals) == amount
  {
    hide Valid, OnSale, StillOnSale, Sold, Booked, KeepsExcept, UnitsOf, DealtUnits;
    ghost var h := Snapshot(s);
    NothingSold(h, ware, goods, from);
    SaleStarts(h, list, ware, goods, from);
    deals := [];
    NoUnits(h);
    var tmpAmount := amount;
    var j := 0;
    assert list[0..] == list;
    while j < |list|
      invariant 0 <= j <= |list| && 0 < tmpAmount <= amount && tmpAmount <= UnitsOf(h, list[j..])
      invariant Valid(Snapshot(s)) && StillOnSale(h, Snapshot(s), list, j, ware, goods, from)
      invariant Sold(h, Snapshot(s), deals, ware, goods, from) && DealtUnits(deals) == amount - tmpAmount
    {
      var item := list[j];
      ghost var m := Snapshot(s);
      OneOnSale(h, m, list, j, ware, goods, from);
      UnitsNext(h, list, j);
      assert m[item] == item.State();
      StackBound(m, item);
      var removeCount := Min(tmpAmount, item.count);
      ghost var d := Deal(item.parent, item.kind, removeCount);
      tmpAmount := tmpAmount - removeCount;
      var ret := InternalRemoveItem(item, removeCount, false, Flags(false, false, false), s);
      KeepsKeys(m, Snapshot(s), item);
      SoldOne(h, m, Snapshot(s), deals, d, ware, goods, from);
      SaleGoesOn(h, m, Snapshot(s), list, j, ware, goods, from);
      deals := [d] + deals;
      if tmpAmount == 0 {
        return;
      }
      j := j + 1;
    }
    NothingLeft(h, list);
  }

  lemma NothingLeft(h: Heap, list: seq<Item>)
    ensures UnitsOf(h, list[|list|..]) == 0
  {
  }

  lemma KeepsKeys(m: Heap, g: Heap, x: Item)
    requires KeepsExcept(m, g, x)
    ensures m.Keys == g.Keys
  {
  }

  lemma SaleStarts(h: Heap, list: seq<Item>, ware: nat, goods: Goods, from: set<Item>)
    requires OnSale(h, list, ware, goods, from)
    ensures StillOnSale(h, h, list, 0, ware, goods, from)
  {
    forall i | 0 <= i < |list| ensures list[i] in h {
      assert Eligible(h, list[i], ware, goods);
    }
  }

  lemma NoUnits(h: Heap)
    ensures UnitsOf(h, []) == 0 && DealtUnits([]) == 0
  {
  }

  /** Takes every item found. */
  method SellSingles(list: seq<Item>, ware: nat, ghost goods: Goods, ghost from: set<Item>, ghost s: set<Item>) returns (ghost deals: seq<Deal>)
    requires Valid(Snapshot(s)) && OnSale(Snapshot(s), list, ware, goods, from) && AllSingle(Snapshot(s), list)
    modifies s
    ensures Valid(Snapshot(s)) && Sold(old(Snapshot(s)), Snapshot(s), deals, ware, goods, from)
    ensures DealtUnits(deals) == old(UnitsOf(Snapshot(s), list))
  {
    hide Valid, OnSale, StillOnSale, Sold, Booked, KeepsExcept, UnitsOf, DealtUnits;
    ghost var h := Snapshot(s);
    NothingSold(h, ware, goods, from);
    SaleStarts(h, list, ware, goods, from);
    deals := [];
    NoUnits(h);
    var j := 0;
    assert list[0..] == list;
    while j < |list|
      invariant 0 <= j <= |list| && DealtUnits(deals) + UnitsOf(h, list[j..]) == UnitsOf(h, list)
      invariant Valid(Snapshot(s)) && StillOnSale(h, Snapshot(s), list, j, ware, goods, from)
      invariant Sold(h, Snapshot(s), deals, ware, goods, from)
    {
      var item := list[j];
      ghost var m := Snapshot(s);
      OneOnSale(h, m, list, j, ware, goods, from);
      UnitsNext(h, list, j);
      assert m[item] == item.State();
      ghost var d := Deal(item.parent, item.kind, item.count);
      var ret := InternalRemoveItem(item, -1, false, Flags(false, false, false), s);
      KeepsKeys(m, Snapshot(s), item);
      SoldOne(h, m, Snapshot(s), deals, d, ware, goods, from);
      SaleGoesOn(h, m, Snapshot(s), list, j, ware, goods, from);
      deals := [d] + deals;
      j := j + 1;
    }
    NothingLeft(h, list);
  }

  /** When every item counts for one, exactly as many are found as are asked for. */
  lemma {:induction false} SinglesExact(h: Heap, list: seq<Item>, amount: nat, ware: nat, goods: Goods, from: set<Item>)
    requires list != [] && OnSale(h, list, ware, goods, from) && AllSingle(h, list)
    requires UnitsOf(h, list[1..]) < amount <= UnitsOf(h, list)
    ensures UnitsOf(h, list) == amount
  {
    assert Eligible(h, list[0], ware, goods);
  }

  /** A ware is stackable or it is not, and what is not stackable counts for one. */
  ghost predicate WareStacks(h: Heap, ware: nat, goods: Goods, stackable: bool) {
    forall x {:trigger h[x].kind} :: x in h && goods.wareOf(h[x].kind) == ware ==>
      h[x].kind.stackable == stackable && (!stackable ==> h[x].count == 1)
  }

  /** Handing over an amount of a ware: either the depot and the inbox hold too little and nothing
      happens, or exactly that many units of the ware leave the containers and nothing else does. */
  method HandOverWares(ware: nat, amount: nat, stackable: bool, depot: Item, inbox: Item, goods: Goods, ghost s: set<Item>)
    returns (ok: bool, ghost deals: seq<Deal>, ghost searched: seq<Item>)
    requires Valid(Snapshot(s)) && Separate(Snapshot(s), depot, inbox) && amount > 0
    requires WareStacks(Snapshot(s), ware, goods, stackable)
    modifies s
    ensures Valid(Snapshot(s))
    ensures Acyclic(old(Snapshot(s)))
    ensures ok ==>
      && Sold(old(Snapshot(s)), Snapshot(s), deals, ware, goods, StockBoxes(old(Snapshot(s)), depot, inbox))
      && DealtUnits(deals) == amount
    ensures !ok ==>
      && Snapshot(s) == old(Snapshot(s))
      && Searched(Snapshot(s), depot, inbox, searched, |searched|, 0)
      && Payment.Members(searched) == StockBoxes(old(Snapshot(s)), depot, inbox)
      && EligibleUnder(Snapshot(s), searched, ware, goods) < amount
  {
    hide Valid, Shaped, OnSale, Separate, Searched, UnitsOf, EligibleUnder, Sold, DealtUnits, AllStack, AllSingle, WareStacks;
    ghost var h := Snapshot(s);
    Payment.ValidShaped(h);
    var list;
    list, searched := GetMarketItemList(ware, amount, depot, inbox, goods, s);
    ok, deals := list != [], [];
    if !ok {
      return;
    }
    ghost var from := StockBoxes(h, depot, inbox);
    SameWare(h, list, ware, goods, from, stackable);
    if stackable {
      deals := SellStacks(list, amount, ware, goods, from, s);
    } else {
      SinglesExact(h, list, amount, ware, goods, from);
      deals := SellSingles(list, ware, goods, from, s);
    }
  }

  lemma SameWare(h: Heap, list: seq<Item>, ware: nat, goods: Goods, from: set<Item>, stackable: bool)
    requires OnSale(h, list, ware, goods, from) && WareStacks(h, ware, goods, stackable)
    ensures if stackable then AllStack(h, list) else AllSingle(h, list)
  {
    forall i | 0 <= i < |list| ensures list[i] in h && goods.wareOf(h[list[i]].kind) == ware {
      assert Eligible(h, list[i], ware, goods);
    }
  }
}
