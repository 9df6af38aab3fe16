/** Finding the coins in a tree of containers and paying with them. */
module Payment {
  import opened Forest
  import opened Ledger
  import opened Queries
  import opened Moves
  import opened Purse
  import opened Money
  import ForestTree
  import Iteration

  // ---------------------------------------------------------------- the coins found

  datatype Entry = Entry(worth: nat, item: Item)

  function UpperBound(s: seq<Entry>, w: nat): (k: nat)
    ensures k <= |s| && (forall i :: 0 <= i < k ==> s[i].worth <= w) && (k < |s| ==> s[k].worth > w)
  {
    if s == [] || w < s[0].worth then 0 else 1 + UpperBound(s[1..], w)
  }

  /** Insertion into the ordered multimap: behind every entry that is worth no more. */
  function Emplace(s: seq<Entry>, e: Entry): seq<Entry> {
    var k := UpperBound(s, e.worth);
    s[..k] + [e] + s[k..]
  }

  function SumEntries(s: seq<Entry>): nat {
    if s == [] then 0 else s[0].worth + SumEntries(s[1..])
  }

  ghost predicate Ascending(s: seq<Entry>) {
    forall i, j :: 0 <= i < j < |s| ==> s[i].worth <= s[j].worth
  }

  ghost predicate Distinct(s: seq<Entry>) {
    forall i, j :: 0 <= i < j < |s| ==> s[i].item != s[j].item
  }

  lemma {:induction false} SumEntriesSplit(s: seq<Entry>, t: seq<Entry>)
    ensures SumEntries(s + t) == SumEntries(s) + SumEntries(t)
    decreases |s|
  {
    if s == [] {
      assert s + t == t;
    } else {
      SumEntriesSplit(s[1..], t);
      assert (s + t)[1..] == s[1..] + t;
    }
  }

  lemma EmplaceSum(s: seq<Entry>, e: Entry)
    ensures SumEntries(Emplace(s, e)) == SumEntries(s) + e.worth
  {
    var k := UpperBound(s, e.worth);
    SumEntriesSplit(s[..k] + [e], s[k..]);
    SumEntriesSplit(s[..k], [e]);
    SumEntriesSplit(s[..k], s[k..]);
    assert s[..k] + s[k..] == s;
  }

  lemma EmplaceAt(s: seq<Entry>, e: Entry, i: nat)
    requires i <= |s|
    ensures var k, t := UpperBound(s, e.worth), Emplace(s, e);
      |t| == |s| + 1 && t[i] == if i < k then s[i] else if i == k then e else s[i - 1]
  {
  }

  lemma EmplaceAscending(s: seq<Entry>, e: Entry)
    requires Ascending(s)
    ensures Ascending(Emplace(s, e))
  {
    hide Emplace;
    var k, t := UpperBound(s, e.worth), Emplace(s, e);
    EmplaceAt(s, e, 0);
    forall i, j | 0 <= i < j < |t| ensures t[i].worth <= t[j].worth {
      EmplaceAt(s, e, i);
      EmplaceAt(s, e, j);
    }
  }

  lemma EmplaceDistinct(s: seq<Entry>, e: Entry)
    requires Distinct(s) && forall i :: 0 <= i < |s| ==> s[i].item != e.item
    ensures Distinct(Emplace(s, e))
  {
    hide Emplace;
    var k, t := UpperBound(s, e.worth), Emplace(s, e);
    EmplaceAt(s, e, 0);
    forall i, j | 0 <= i < j < |t| ensures t[i].item != t[j].item {
      EmplaceAt(s, e, i);
      EmplaceAt(s, e, j);
    }
  }

  /** Coin stacks are small enough for their worth to fit 32 bits, and what cannot be stacked
      comes one at a time. */
  ghost predicate PlainCoins(h: Heap) {
    forall x {:trigger h[x].count} :: x in h && !h[x].kind.container ==>
      CoinValue(h[x].kind) * h[x].count < WORD && (!h[x].kind.stackable ==> h[x].count <= 1)
  }

  /** What is in an entry: a loose coin's worth and where it lies. */
  ghost predicate CoinEntry(h: Heap, e: Entry) {
    && e.item in h && !h[e.item].kind.container && h[e.item].parent != null
    && e.worth == CoinValue(h[e.item].kind) * h[e.item].count && e.worth > 0
  }

  // ---------------------------------------------------------------- the containers found

  /** boxes are containers at or below root, without repetition; those before position p have all
      their child containers listed, the one at p those among its first n children. */
  ghost predicate Found(h: Heap, root: Item, boxes: seq<Item>, p: nat, n: nat) {
    && boxes != [] && boxes[0] == root && NoDup(boxes) && p <= |boxes|
    && (forall i :: 0 <= i < |boxes| ==>
          boxes[i] in h && h[boxes[i]].kind.container && Rooted(h, boxes[i]) && root in Above(h, boxes[i]))
    && (forall i :: 1 <= i < |boxes| ==> ListedFrom(h, boxes, p, n, boxes[i]))
    && (forall j, y :: 0 <= j < p && y in h[boxes[j]].items && y in h && h[y].kind.container ==> y in boxes)
    && (p < |boxes| ==> n <= |h[boxes[p]].items|)
    && (p < |boxes| ==>
          forall m :: 0 <= m < n && h[boxes[p]].items[m] in h && h[h[boxes[p]].items[m]].kind.container ==>
            h[boxes[p]].items[m] in boxes)
  }

  /** x was met while looking through boxes[..p] or through the first n children of boxes[p]. */
  ghost predicate ListedFrom(h: Heap, boxes: seq<Item>, p: nat, n: nat, x: Item) {
    x in h && exists j ::
      (0 <= j <= p && j < |boxes| && boxes[j] in h && h[x].parent == boxes[j]
       && (j == p ==> n <= |h[boxes[p]].items| && x in h[boxes[p]].items[..n]))
  }

  /** The coins collected are those of boxes[..p] and of the first n children of boxes[p]. */
  ghost predicate Collected(h: Heap, boxes: seq<Item>, p: nat, n: nat, coins: seq<Entry>) {
    && Ascending(coins) && Distinct(coins)
    && (forall i :: 0 <= i < |coins| ==> CoinEntry(h, coins[i]) && ListedFrom(h, boxes, p, n, coins[i].item))
    && p <= |boxes| && AllIn(h, boxes)
    && (p < |boxes| ==> n <= |h[boxes[p]].items|)
    && SumEntries(coins) == PurseOf(h, boxes[..p]) + if p < |boxes| then WorthOf(h, h[boxes[p]].items[..n]) else 0
  }

  lemma WorthSnoc(h: Heap, s: seq<Item>, n: nat)
    requires n < |s| && s[n] in h
    ensures WorthOf(h, s[..n + 1]) == WorthOf(h, s[..n]) + CoinValue(h[s[n]].kind) * h[s[n]].count
  {
    assert s[..n + 1] == s[..n] + [s[n]];
    WorthSplit(h, s[..n], [s[n]]);
  }

  lemma ListedFurther(h: Heap, boxes: seq<Item>, more: seq<Item>, p: nat, n: nat, x: Item)
    requires ListedFrom(h, boxes, p, n, x) && p < |boxes| && boxes[p] in h && n < |h[boxes[p]].items|
    ensures ListedFrom(h, boxes + more, p, n + 1, x)
  {
    var j :| 0 <= j <= p && j < |boxes| && boxes[j] in h && h[x].parent == boxes[j]
      && (j == p ==> n <= |h[boxes[p]].items| && x in h[boxes[p]].items[..n]);
    assert (boxes + more)[j] == boxes[j] && (boxes + more)[p] == boxes[p];
    if j == p {
      var i :| 0 <= i < n && h[boxes[p]].items[..n][i] == x;
      assert h[boxes[p]].items[..n + 1][i] == x;
    }
  }

  lemma JustListed(h: Heap, boxes: seq<Item>, p: nat, n: nat)
    requires ChildrenLinked(h) && p < |boxes| && boxes[p] in h && n < |h[boxes[p]].items|
    ensures ListedFrom(h, boxes, p, n + 1, h[boxes[p]].items[n])
  {
    assert h[boxes[p]].items[..n + 1][n] == h[boxes[p]].items[n];
  }

  /** The n-th child of boxes[p] has not been met before. */
  lemma NotListedYet(h: Heap, boxes: seq<Item>, p: nat, n: nat, x: Item)
    requires Shaped(h) && NoDup(boxes) && p < |boxes| && boxes[p] in h && n < |h[boxes[p]].items|
    requires x == h[boxes[p]].items[n]
    ensures !ListedFrom(h, boxes, p, n, x)
  {
  }

  // ---------------------------------------------------------------- the search

  /** The list of boxes may grow while one of them is looked through. */
  lemma ListedGrow(h: Heap, boxes: seq<Item>, x: Item, p: nat, n: nat)
    requires Shaped(h) && p < |boxes| && boxes[p] in h && n < |h[boxes[p]].items|
    ensures forall y: Item :: ListedFrom(h, boxes, p, n, y) ==>
      ListedFrom(h, boxes, p, n + 1, y) && ListedFrom(h, boxes + [x], p, n + 1, y)
    ensures ListedFrom(h, boxes, p, n + 1, h[boxes[p]].items[n])
    ensures ListedFrom(h, boxes + [x], p, n + 1, h[boxes[p]].items[n])
  {
    forall y: Item | ListedFrom(h, boxes, p, n, y)
      ensures ListedFrom(h, boxes, p, n + 1, y) && ListedFrom(h, boxes + [x], p, n + 1, y)
    {
      assert boxes + [] == boxes;
      ListedFurther(h, boxes, [], p, n, y);
      ListedFurther(h, boxes, [x], p, n, y);
    }
    JustListed(h, boxes, p, n);
    assert (boxes + [x])[p] == boxes[p];
    JustListed(h, boxes + [x], p, n);
  }

  lemma NewBox(h: Heap, root: Item, boxes: seq<Item>, p: nat, n: nat)
    requires Shaped(h) && Found(h, root, boxes, p, n) && p < |boxes| && n < |h[boxes[p]].items|
    ensures var x := h[boxes[p]].items[n];
      && x in h && x !in boxes && Rooted(h, x) && root in Above(h, x)
  {
    var c, x := boxes[p], h[boxes[p]].items[n];
    assert Rooted(h, c) && h[x].parent == c;
    var d := Depth(h, c);
    assert AtDepth(h, x, d + 1);
    AboveIsChain(h, x, d + 1);
    ChildOffPath(h, c, n);
    if x in boxes {
      var i :| 0 <= i < |boxes| && boxes[i] == x;
      NotListedYet(h, boxes, p, n, x);
    }
  }

  lemma FoundBox(h: Heap, root: Item, boxes: seq<Item>, p: nat, n: nat)
    requires Shaped(h) && Found(h, root, boxes, p, n) && p < |boxes| && n < |h[boxes[p]].items|
    requires h[h[boxes[p]].items[n]].kind.container
    ensures Found(h, root, boxes + [h[boxes[p]].items[n]], p, n + 1)
  {
    var x := h[boxes[p]].items[n];
    NewBox(h, root, boxes, p, n);
    ListedGrow(h, boxes, x, p, n);
    var more := boxes + [x];
    assert more[p] == boxes[p] && |more| == |boxes| + 1 && more[|boxes|] == x;
    assert forall i :: 0 <= i < |boxes| ==> more[i] == boxes[i];
  }

  lemma FoundCoin(h: Heap, root: Item, boxes: seq<Item>, p: nat, n: nat)
    requires Shaped(h) && Found(h, root, boxes, p, n) && p < |boxes| && n < |h[boxes[p]].items|
    requires !h[h[boxes[p]].items[n]].kind.container
    ensures Found(h, root, boxes, p, n + 1)
  {
    ListedGrow(h, boxes, root, p, n);
  }

  lemma CollectedSkip(h: Heap, boxes: seq<Item>, p: nat, n: nat, more: seq<Item>, coins: seq<Entry>)
    requires Shaped(h) && Collected(h, boxes, p, n, coins) && p < |boxes| && n < |h[boxes[p]].items|
    requires var x := h[boxes[p]].items[n]; x in h && CoinValue(h[x].kind) * h[x].count == 0
    requires more == boxes || more == boxes + [h[boxes[p]].items[n]]
    ensures Collected(h, more, p, n + 1, coins)
  {
    var x := h[boxes[p]].items[n];
    ListedGrow(h, boxes, x, p, n);
    WorthSnoc(h, h[boxes[p]].items, n);
    assert more[..p] == boxes[..p] && more[p] == boxes[p];
  }

  lemma IsCoin(h: Heap, e: Entry)
    requires e.item in h && !h[e.item].kind.container && h[e.item].parent != null
    requires e.worth == CoinValue(h[e.item].kind) * h[e.item].count && e.worth > 0
    ensures CoinEntry(h, e)
  {
  }

  lemma CollectedCoin(h: Heap, boxes: seq<Item>, p: nat, n: nat, coins: seq<Entry>)
    requires Shaped(h) && Collected(h, boxes, p, n, coins) && p < |boxes| && n < |h[boxes[p]].items| && NoDup(boxes)
    requires var x := h[boxes[p]].items[n];
      x in h && !h[x].kind.container && CoinValue(h[x].kind) * h[x].count > 0
    ensures var x := h[boxes[p]].items[n];
      Collected(h, boxes, p, n + 1, Emplace(coins, Entry(CoinValue(h[x].kind) * h[x].count, x)))
  {
    hide Ascending, Distinct, Emplace, ListedFrom, CoinEntry, Acyclic, ParentsLinked, ListsDistinct, PurseOf, CoinValue;
    var x := h[boxes[p]].items[n];
    var e := Entry(CoinValue(h[x].kind) * h[x].count, x);
    NotListedYet(h, boxes, p, n, x);
    assert forall i :: 0 <= i < |coins| ==> coins[i].item != x;
    EmplaceSum(coins, e);
    EmplaceAscending(coins, e);
    EmplaceDistinct(coins, e);
    var t := Emplace(coins, e);
    EmplaceAt(coins, e, 0);
    forall i | 0 <= i < |t| ensures t[i] == e || t[i] in coins {
      EmplaceAt(coins, e, i);
    }
    ListedGrow(h, boxes, x, p, n);
    WorthSnoc(h, h[boxes[p]].items, n);
    IsCoin(h, e);
  }

  lemma ListedNext(h: Heap, boxes: seq<Item>, p: nat, x: Item)
    requires p < |boxes| && boxes[p] in h && ListedFrom(h, boxes, p, |h[boxes[p]].items|, x)
    requires p + 1 < |boxes| ==> boxes[p + 1] in h
    ensures ListedFrom(h, boxes, p + 1, 0, x)
  {
  }

  lemma FoundNext(h: Heap, root: Item, boxes: seq<Item>, p: nat)
    requires p < |boxes| && boxes[p] in h && Found(h, root, boxes, p, |h[boxes[p]].items|)
    ensures Found(h, root, boxes, p + 1, 0)
  {
    forall i | 1 <= i < |boxes| ensures ListedFrom(h, boxes, p + 1, 0, boxes[i]) {
      ListedNext(h, boxes, p, boxes[i]);
    }
    forall j, y | 0 <= j < p + 1 && y in h[boxes[j]].items && y in h && h[y].kind.container ensures y in boxes {
      if j == p {
        var m :| 0 <= m < |h[boxes[p]].items| && h[boxes[p]].items[m] == y;
      }
    }
  }

  lemma CollectedNext(h: Heap, boxes: seq<Item>, p: nat, coins: seq<Entry>)
    requires p < |boxes| && boxes[p] in h && Collected(h, boxes, p, |h[boxes[p]].items|, coins)
    ensures Collected(h, boxes, p + 1, 0, coins)
  {
    forall i | 0 <= i < |coins| ensures ListedFrom(h, boxes, p + 1, 0, coins[i].item) {
      ListedNext(h, boxes, p, coins[i].item);
    }
    var c := boxes[p];
    assert boxes[..p + 1] == boxes[..p] + [c];
    PurseSplit(h, boxes[..p], [c]);
    assert h[c].items[..|h[c].items|] == h[c].items;
  }

  lemma {:induction false} NoDupBound(boxes: seq<Item>, s: set<Item>)
    requires NoDup(boxes) && forall i :: 0 <= i < |boxes| ==> boxes[i] in s
    ensures |boxes| <= |s|
    decreases |boxes|
  {
    if boxes != [] {
      var last, rest := boxes[|boxes| - 1], boxes[..|boxes| - 1];
      NoDupBound(rest, s - {last});
    }
  }

  /** Looks through the children of one box: containers are queued, coins are collected. */
  method ScanBox(p: nat, boxes0: seq<Item>, coins0: seq<Entry>, count0: nat, ghost root: Item, ghost s: set<Item>)
    returns (boxes: seq<Item>, coins: seq<Entry>, moneyCount: nat)
    requires Shaped(Snapshot(s)) && PlainCoins(Snapshot(s)) && p < |boxes0|
    requires Found(Snapshot(s), root, boxes0, p, 0) && Collected(Snapshot(s), boxes0, p, 0, coins0)
    requires Complete(Snapshot(s), boxes0, p, 0, coins0)
    requires count0 == SumEntries(coins0)
    ensures |boxes0| <= |boxes| && Found(Snapshot(s), root, boxes, p + 1, 0)
    ensures Collected(Snapshot(s), boxes, p + 1, 0, coins) && moneyCount == SumEntries(coins)
    ensures Complete(Snapshot(s), boxes, p + 1, 0, coins)
  {
    hide Found, Collected, Complete, CoinValue, PlainCoins, Shaped, IsCoinItem;
    ghost var h := Snapshot(s);
    FoundNow(h, root, boxes0, p, 0);
    var c := boxes0[p];
    boxes, coins, moneyCount := boxes0, coins0, count0;
    var n := 0;
    while n < |c.items|
      invariant 0 <= n <= |c.items| && |boxes0| <= |boxes| && boxes[p] == c
      invariant Found(h, root, boxes, p, n) && Collected(h, boxes, p, n, coins) && Complete(h, boxes, p, n, coins)
      invariant moneyCount == SumEntries(coins)
    {
      FoundNow(h, root, boxes, p, n);
      var item := c.items[n];
      assert h[c].items[n] == item && item in h && h[item] == item.State() by { ChildIn(h, c, n); }
      ShapedLinks(h);
      if item.kind.container {
        FoundBox(h, root, boxes, p, n);
        ContainerIsNoCoin(h, item);
        CollectedSkip(h, boxes, p, n, boxes + [item], coins);
        CompleteSkip(h, boxes, boxes + [item], p, n, coins);
        boxes := boxes + [item];
      } else {
        PlainWorth(h, item);
        var worth := Wrap(item.kind.worth * item.count);
        FoundCoin(h, root, boxes, p, n);
        if worth != 0 {
          EmplaceSum(coins, Entry(worth, item));
          CollectedCoin(h, boxes, p, n, coins);
          CompleteCoin(h, boxes, p, n, coins, Entry(worth, item));
          moneyCount := moneyCount + worth;
          coins := Emplace(coins, Entry(worth, item));
        } else {
          CollectedSkip(h, boxes, p, n, boxes, coins);
          CompleteSkip(h, boxes, boxes, p, n, coins);
        }
      }
      n := n + 1;
    }
    FoundNow(h, root, boxes, p, n);
    FoundNext(h, root, boxes, p);
    CollectedNext(h, boxes, p, coins);
    CompleteNext(h, boxes, p, coins);
  }

  lemma ShapedLinks(h: Heap)
    requires Shaped(h)
    ensures ChildrenLinked(h)
  {
  }

  lemma FoundNow(h: Heap, root: Item, boxes: seq<Item>, p: nat, n: nat)
    requires Found(h, root, boxes, p, n)
    ensures NoDup(boxes) && forall i :: 0 <= i < |boxes| ==> boxes[i] in h && h[boxes[i]].kind.container
    ensures boxes != [] && boxes[0] == root && p <= |boxes|
  {
  }

  lemma ChildIn(h: Heap, c: Item, n: nat)
    requires Shaped(h) && c in h && n < |h[c].items|
    ensures h[c].items[n] in h
  {
  }

  lemma ContainerIsNoCoin(h: Heap, x: Item)
    requires x in h && h[x].kind.container
    ensures CoinValue(h[x].kind) * h[x].count == 0 && !IsCoinItem(h, x)
  {
  }

  lemma PlainWorth(h: Heap, x: Item)
    requires PlainCoins(h) && x in h && !h[x].kind.container
    ensures Wrap(h[x].kind.worth * h[x].count) == CoinValue(h[x].kind) * h[x].count
    ensures IsCoinItem(h, x) <==> Wrap(h[x].kind.worth * h[x].count) != 0
  {
    assert h[x].count == h[x].count;
  }

  // ---------------------------------------------------------------- nothing is missed

  ghost function Members(s: seq<Item>): set<Item> {
    set x | x in s
  }

  /** root and the containers below it. */
  ghost function BoxesOf(h: Heap, root: Item): set<Item>
    requires Acyclic(h)
  {
    {root} + set y | y in Iteration.Below(h, root) && y in h && h[y].kind.container
  }

  /** The coins below root. */
  ghost function CoinsOf(h: Heap, root: Item): set<Item>
    requires Acyclic(h)
  {
    set y | y in Iteration.Below(h, root) && IsCoinItem(h, y)
  }

  ghost predicate IsCoinItem(h: Heap, x: Item) {
    x in h && !h[x].kind.container && CoinValue(h[x].kind) * h[x].count > 0
  }

  ghost predicate HasEntry(coins: seq<Entry>, x: Item) {
    exists i :: 0 <= i < |coins| && coins[i].item == x
  }

  /** Every coin met so far is among the entries. */
  ghost predicate Complete(h: Heap, boxes: seq<Item>, p: nat, n: nat, coins: seq<Entry>) {
    forall x {:trigger HasEntry(coins, x)} {:trigger ListedFrom(h, boxes, p, n, x)} ::
      x in h && ListedFrom(h, boxes, p, n, x) && IsCoinItem(h, x) ==> HasEntry(coins, x)
  }

  /** What has been met after one more child was met before or is that child. */
  lemma ListedBack(h: Heap, boxes: seq<Item>, more: seq<Item>, p: nat, n: nat, y: Item)
    requires ChildrenLinked(h) && p < |boxes| && boxes[p] in h && n < |h[boxes[p]].items|
    requires boxes <= more && ListedFrom(h, more, p, n + 1, y)
    ensures ListedFrom(h, boxes, p, n, y) || y == h[boxes[p]].items[n]
  {
    var j :| 0 <= j <= p && j < |more| && more[j] in h && h[y].parent == more[j]
      && (j == p ==> n + 1 <= |h[more[p]].items| && y in h[more[p]].items[..n + 1]);
    assert more[j] == boxes[j] && more[p] == boxes[p];
    if j == p && y != h[boxes[p]].items[n] {
      var i :| 0 <= i < n + 1 && h[boxes[p]].items[..n + 1][i] == y;
      assert h[boxes[p]].items[..n][i] == y;
    }
  }

  lemma CompleteSkip(h: Heap, boxes: seq<Item>, more: seq<Item>, p: nat, n: nat, coins: seq<Entry>)
    requires ChildrenLinked(h) && p < |boxes| && boxes[p] in h && n < |h[boxes[p]].items| && boxes <= more
    requires Complete(h, boxes, p, n, coins) && !IsCoinItem(h, h[boxes[p]].items[n])
    ensures Complete(h, more, p, n + 1, coins)
  {
    hide ListedFrom, ChildrenLinked, HasEntry;
    forall x | x in h && ListedFrom(h, more, p, n + 1, x) && IsCoinItem(h, x) ensures HasEntry(coins, x) {
      ListedBack(h, boxes, more, p, n, x);
    }
  }

  lemma EmplaceHas(coins: seq<Entry>, e: Entry, x: Item)
    requires x == e.item || HasEntry(coins, x)
    ensures HasEntry(Emplace(coins, e), x)
  {
    hide Emplace;
    var k, t := UpperBound(coins, e.worth), Emplace(coins, e);
    EmplaceAt(coins, e, 0);
    if x == e.item {
      EmplaceAt(coins, e, k);
      assert t[k].item == x;
    } else {
      var i :| 0 <= i < |coins| && coins[i].item == x;
      EmplaceAt(coins, e, i);
      EmplaceAt(coins, e, i + 1);
      assert t[if i < k then i else i + 1].item == x;
    }
  }

  lemma CompleteCoin(h: Heap, boxes: seq<Item>, p: nat, n: nat, coins: seq<Entry>, e: Entry)
    requires ChildrenLinked(h) && p < |boxes| && boxes[p] in h && n < |h[boxes[p]].items|
    requires Complete(h, boxes, p, n, coins) && e.item == h[boxes[p]].items[n]
    ensures Complete(h, boxes, p, n + 1, Emplace(coins, e))
  {
    hide ListedFrom, ChildrenLinked, HasEntry, Emplace;
    forall x | x in h && ListedFrom(h, boxes, p, n + 1, x) && IsCoinItem(h, x) ensures HasEntry(Emplace(coins, e), x) {
      ListedBack(h, boxes, boxes, p, n, x);
      EmplaceHas(coins, e, x);
    }
  }

  lemma CompleteNext(h: Heap, boxes: seq<Item>, p: nat, coins: seq<Entry>)
    requires Shaped(h) && p < |boxes| && boxes[p] in h && Complete(h, boxes, p, |h[boxes[p]].items|, coins)
    ensures Complete(h, boxes, p + 1, 0, coins)
  {
    hide HasEntry, Acyclic;
    forall x | x in h && ListedFrom(h, boxes, p + 1, 0, x) && IsCoinItem(h, x) ensures HasEntry(coins, x) {
      var j :| 0 <= j <= p + 1 && j < |boxes| && boxes[j] in h && h[x].parent == boxes[j]
        && (j == p + 1 ==> 0 <= |h[boxes[p + 1]].items| && x in h[boxes[p + 1]].items[..0]);
      assert h[boxes[p]].items[..|h[boxes[p]].items|] == h[boxes[p]].items;
      assert ListedFrom(h, boxes, p, |h[boxes[p]].items|, x);
    }
  }

  /** x, below root, has a parent at or below root. */
  lemma StepUp(h: Heap, root: Item, x: Item)
    requires Shaped(h) && x in h && x != root && Rooted(h, x) && root in Above(h, x)
    ensures var c := h[x].parent;
      && c != null && c in h && h[c].kind.container && x in h[c].items && Rooted(h, c)
      && root in Above(h, c) && Above(h, c) < Above(h, x)
  {
    RootAlone(h, x);
    if h[x].parent != null {
      ForestTree.ChildAbove(h, h[x].parent, x);
    }
  }

  lemma RootAlone(h: Heap, x: Item)
    requires x in h && Rooted(h, x)
    ensures h[x].parent == null ==> Above(h, x) == {x}
  {
    if h[x].parent == null {
      AboveIsChain(h, x, 0);
    }
  }

  /** Going up from any container below root, one arrives at a box that is listed. */
  lemma {:induction false} BoxReached(h: Heap, root: Item, boxes: seq<Item>, y: Item)
    requires Shaped(h) && Found(h, root, boxes, |boxes|, 0)
    requires y in h && h[y].kind.container && Rooted(h, y) && root in Above(h, y)
    ensures y in boxes
    decreases Above(h, y)
  {
    hide Shaped, Above;
    if y == root {
      assert boxes[0] == y;
    } else {
      StepUp(h, root, y);
      BoxReached(h, root, boxes, h[y].parent);
      var j :| 0 <= j < |boxes| && boxes[j] == h[y].parent;
    }
  }

  /** When the search has ended, the boxes are exactly root and the containers below it. */
  lemma FoundExactly(h: Heap, root: Item, boxes: seq<Item>)
    requires Shaped(h) && Found(h, root, boxes, |boxes|, 0)
    ensures Members(boxes) == BoxesOf(h, root)
  {
    hide Above, ListedFrom;
    forall y | y in boxes ensures y in BoxesOf(h, root) {
      var i :| 0 <= i < |boxes| && boxes[i] == y;
    }
    forall y | y in BoxesOf(h, root) ensures y in boxes {
      if y == root {
        assert boxes[0] == y;
      } else {
        BoxReached(h, root, boxes, y);
      }
    }
  }

  /** ... and the entries are exactly the coins below it. */
  lemma CoinsExactly(h: Heap, root: Item, boxes: seq<Item>, coins: seq<Entry>)
    requires Shaped(h) && Found(h, root, boxes, |boxes|, 0)
    requires Collected(h, boxes, |boxes|, 0, coins) && Complete(h, boxes, |boxes|, 0, coins)
    ensures (set i | 0 <= i < |coins| :: coins[i].item) == CoinsOf(h, root)
  {
    hide Above, ChildrenLinked, ParentsLinked, ListsDistinct;
    forall i | 0 <= i < |coins| ensures coins[i].item in CoinsOf(h, root) {
      assert CoinEntry(h, coins[i]) && ListedFrom(h, boxes, |boxes|, 0, coins[i].item);
      BelowBox(h, root, boxes, coins[i].item);
    }
    forall y | y in CoinsOf(h, root) ensures HasEntry(coins, y) {
      StepUp(h, root, y);
      BoxReached(h, root, boxes, h[y].parent);
      var j :| 0 <= j < |boxes| && boxes[j] == h[y].parent;
      assert ListedFrom(h, boxes, |boxes|, 0, y);
    }
  }

  lemma BelowBox(h: Heap, root: Item, boxes: seq<Item>, x: Item)
    requires Shaped(h) && Found(h, root, boxes, |boxes|, 0) && ListedFrom(h, boxes, |boxes|, 0, x)
    ensures x in Iteration.Below(h, root)
  {
    var j :| 0 <= j < |boxes| && h[x].parent == boxes[j];
    ForestTree.ChildAbove(h, boxes[j], x);
  }

  /** All coins at or below the cylinder, in ascending order of worth. */
  method GatherMoney(cylinder: Item, ghost s: set<Item>)
    returns (boxes: seq<Item>, coins: seq<Entry>, moneyCount: nat)
    requires Shaped(Snapshot(s)) && PlainCoins(Snapshot(s)) && cylinder in s && cylinder.kind.container
    ensures Found(Snapshot(s), cylinder, boxes, |boxes|, 0)
    ensures Collected(Snapshot(s), boxes, |boxes|, 0, coins) && moneyCount == SumEntries(coins)
    ensures Acyclic(Snapshot(s)) && Members(boxes) == BoxesOf(Snapshot(s), cylinder)
    ensures (set i | 0 <= i < |coins| :: coins[i].item) == CoinsOf(Snapshot(s), cylinder)
  {
    hide Found, Collected, Complete, PlainCoins, BoxesOf, CoinsOf, Acyclic, ChildrenLinked, ParentsLinked, ListsDistinct;
    ghost var h := Snapshot(s);
    FoundRoot(h, cylinder);
    boxes, coins, moneyCount := [cylinder], [], 0;
    var i := 0;
    while i < |boxes|
      invariant 0 <= i <= |boxes| <= |s|
      invariant Found(h, cylinder, boxes, i, 0) && Collected(h, boxes, i, 0, coins) && moneyCount == SumEntries(coins)
      invariant Complete(h, boxes, i, 0, coins)
      decreases |s| - i
    {
      boxes, coins, moneyCount := ScanBox(i, boxes, coins, moneyCount, cylinder, s);
      i := i + 1;
      FoundNow(h, cylinder, boxes, i, 0);
      NoDupBound(boxes, s);
    }
    FoundExactly(h, cylinder, boxes);
    CoinsExactly(h, cylinder, boxes, coins);
  }

  lemma FoundRoot(h: Heap, c: Item)
    requires Shaped(h) && c in h && h[c].kind.container
    ensures Found(h, c, [c], 0, 0) && Collected(h, [c], 0, 0, []) && Complete(h, [c], 0, 0, []) && 1 <= |h.Keys|
  {
    assert Rooted(h, c);
    assert [c][..0] == [] && h[c].items[..0] == [];
    NoDupBound([c], h.Keys);
  }

  // ---------------------------------------------------------------- paying

  /** The entries from j on still describe the coins they were made from. */
  ghost predicate StillThere(h: Heap, g: Heap, coins: seq<Entry>, j: nat) {
    && h.Keys <= g.Keys && j <= |coins|
    && forall i :: j <= i < |coins| ==>
         coins[i].item in h && g[coins[i].item].kind == h[coins[i].item].kind
         && g[coins[i].item].count == h[coins[i].item].count && g[coins[i].item].parent == h[coins[i].item].parent
  }

  /** The first j coins have been taken. */
  ghost predicate Spent(g: Heap, coins: seq<Entry>, j: nat) {
    j <= |coins| && forall i :: 0 <= i < j ==> coins[i].item in g && g[coins[i].item].parent == null
  }

  /** No item but x has been moved or, if it has a place, got less. */
  ghost predicate OnlyTakes(h: Heap, g: Heap, x: Item) {
    && h.Keys <= g.Keys
    && forall y {:trigger g[y]} :: y in h && y != x ==>
         g[y].parent == h[y].parent && (h[y].parent != null ==> g[y].count >= h[y].count)
  }

  /** How many of a coin are left where it was. */
  ghost function LeftOf(g: Heap, x: Item): nat {
    if x !in g || g[x].parent == null then 0 else g[x].count
  }

  /** The amount has been paid with the first coins, the cheapest stacks: all before the last one are gone and
      would not have been enough, the last one has given what covers the rest, with the change, and none
      behind it is gone or has got less. */
  ghost predicate PaidWith(h: Heap, g: Heap, coins: seq<Entry>, last: nat, amount: nat, change: nat) {
    && h.Keys <= g.Keys && last < |coins| && Spent(g, coins, last) && SumEntries(coins[..last]) < amount
    && (forall i :: last < i < |coins| ==>
          && coins[i].item in h && g[coins[i].item].parent == h[coins[i].item].parent
          && g[coins[i].item].count >= h[coins[i].item].count)
    && var x := coins[last].item;
       && x in h && LeftOf(g, x) <= h[x].count && (change == 0 || change < CoinValue(h[x].kind))
       && SumEntries(coins[..last]) + CoinValue(h[x].kind) * (h[x].count - LeftOf(g, x)) == amount + change
  }

  lemma ExceptTakes(h: Heap, g: Heap, x: Item)
    requires KeepsExcept(h, g, x)
    ensures OnlyTakes(h, g, x)
  {
  }

  lemma ChangeThenTakes(h: Heap, m: Heap, g: Heap, x: Item, money: nat)
    requires KeepsDearer(h, m, money) && KeepsExcept(m, g, x)
    ensures OnlyTakes(h, g, x)
  {
    forall y | y in h && y != x
      ensures y in g && g[y].parent == h[y].parent && (h[y].parent != null ==> g[y].count >= h[y].count)
    {
      assert m[y].parent == h[y].parent;
    }
  }

  lemma NoneLeft(g: Heap, x: Item)
    requires x in g && g[x].parent == null
    ensures LeftOf(g, x) == 0
  {
  }

  lemma SpentMore(m: Heap, g: Heap, coins: seq<Entry>, j: nat, x: Item)
    requires Spent(m, coins, j) && OnlyTakes(m, g, x) && j < |coins| && coins[j].item == x && Distinct(coins)
    requires x in g && g[x].parent == null
    ensures Spent(g, coins, j + 1)
  {
  }

  lemma SumNext(coins: seq<Entry>, j: nat)
    requires j < |coins|
    ensures SumEntries(coins[..j + 1]) == SumEntries(coins[..j]) + coins[j].worth
  {
    assert coins[..j + 1] == coins[..j] + [coins[j]];
    SumEntriesSplit(coins[..j], [coins[j]]);
  }

  lemma SumRest(coins: seq<Entry>, j: nat)
    requires j < |coins|
    ensures SumEntries(coins[j..]) == coins[j].worth + SumEntries(coins[j + 1..])
  {
    assert coins[j..][1..] == coins[j + 1..];
  }

  lemma LastPaid(h: Heap, m: Heap, g: Heap, coins: seq<Entry>, j: nat, x: Item, amount: nat, money: nat, change: nat)
    requires Spent(m, coins, j) && StillThere(h, m, coins, j) && OnlyTakes(m, g, x) && j < |coins| && coins[j].item == x
    requires Distinct(coins) && SumEntries(coins[..j]) == amount - money && 0 < money <= amount
    requires forall i :: 0 <= i < |coins| ==> coins[i].item in h && h[coins[i].item].parent != null
    requires LeftOf(g, x) <= m[x].count && (change == 0 || change < CoinValue(m[x].kind))
    requires CoinValue(m[x].kind) * (m[x].count - LeftOf(g, x)) == money + change
    ensures PaidWith(h, g, coins, j, amount, change)
  {
    hide SumEntries, CoinValue, LeftOf;
    forall i | j < i < |coins|
      ensures && coins[i].item in h && g[coins[i].item].parent == h[coins[i].item].parent
              && g[coins[i].item].count >= h[coins[i].item].count
    {
      assert coins[i].item != x && m[coins[i].item].parent == h[coins[i].item].parent;
    }
  }

  /** What is known of one entry when its turn comes. */
  ghost predicate CoinNow(g: Heap, boxes: seq<Item>, e: Entry) {
    && e.item in g && !g[e.item].kind.container && g[e.item].parent != null
    && (exists b :: 0 <= b < |boxes| && g[e.item].parent == boxes[b])
    && e.worth == CoinValue(g[e.item].kind) * g[e.item].count && e.worth > 0 && g[e.item].count > 0
    && (g[e.item].kind.stackable || g[e.item].count == 1)
  }

  lemma CoinStillThere(h: Heap, g: Heap, boxes: seq<Item>, coins: seq<Entry>, j: nat)
    requires Collected(h, boxes, |boxes|, 0, coins) && StillThere(h, g, coins, j) && j < |coins| && PlainCoins(h)
    ensures CoinNow(g, boxes, coins[j])
  {
    var e := coins[j];
    assert CoinEntry(h, e) && ListedFrom(h, boxes, |boxes|, 0, e.item);
    assert h[e.item].count == h[e.item].count;
  }

  lemma StillThereTaken(h: Heap, m: Heap, g: Heap, coins: seq<Entry>, j: nat)
    requires StillThere(h, m, coins, j) && j < |coins| && Distinct(coins) && KeepsExcept(m, g, coins[j].item)
    ensures StillThere(h, g, coins, j + 1)
  {
    forall i | j + 1 <= i < |coins|
      ensures coins[i].item in h && g[coins[i].item].kind == h[coins[i].item].kind
        && g[coins[i].item].count == h[coins[i].item].count && g[coins[i].item].parent == h[coins[i].item].parent
    {
      assert coins[i].item != coins[j].item && m[coins[i].item].kind == h[coins[i].item].kind;
    }
  }

  /** The smallest number of coins covering the money, and the change it leaves. */
  lemma CoinsNeeded(money: nat, unit: nat, count: nat)
    requires 0 < money < unit * count
    ensures unit > 0
    ensures var n := (money + unit - 1) / unit; 1 <= n <= count && money <= unit * n < money + unit
  {
    var n := (money + unit - 1) / unit;
    QuotientBound(money + unit - 1, unit, n);
    assert n * unit == unit * n;
    assert (n - 1) * unit == n * unit - unit;
    if n > count {
      MulMono(count, n - 1, unit);
    }
  }

  lemma UnitWorth(v: nat, count: nat, worth: nat)
    requires count > 0 && worth == v * count
    ensures worth / count == v
  {
    QuotientBound(worth, count, worth / count);
    if worth / count < v {
      MulMono(worth / count + 1, v, count);
    } else if worth / count > v {
      MulMono(v + 1, worth / count, count);
    }
  }

  /** Taking a whole coin stack out of a box. */
  method SpendAll(item: Item, ghost e: Entry, ghost boxes: seq<Item>, ghost s: set<Item>)
    requires Valid(Snapshot(s)) && item in s && e.item == item && CoinNow(Snapshot(s), boxes, e)
    requires AllIn(Snapshot(s), boxes) && NoDup(boxes)
    modifies s
    ensures Valid(Snapshot(s)) && KeepsExcept(old(Snapshot(s)), Snapshot(s), item)
    ensures PurseOf(Snapshot(s), boxes) == old(PurseOf(Snapshot(s), boxes)) - e.worth
    ensures forall c :: c in s ==> |c.items| <= |old(c.items)|
    ensures OnlyTakes(old(Snapshot(s)), Snapshot(s), item) && item.parent == null
  {
    hide Valid, Booked, KeepsExcept, PurseOf, CoinValue, Grows;
    ghost var h := Snapshot(s);
    ghost var c, k, n := item.parent, item.kind, item.count;
    var ret := InternalRemoveItem(item, -1, false, Flags(false, false, false), s);
    BookedIsRicher(h, Snapshot(s), c, k, -(n as int));
    assert CoinValue(k) * -(n as int) == -(e.worth as int) by { MulNeg(CoinValue(k), n); }
    PurseShift(h, Snapshot(s), boxes, c, -(e.worth as int));
    ExceptTakes(h, Snapshot(s), item);
    NoneGrows(h, Snapshot(s), c);
    forall d | d in s ensures |d.items| <= |old(d.items)| {
      assert h[d] == old(d.State()) && Snapshot(s)[d] == d.State();
    }
  }

  lemma NoneGrows(h: Heap, g: Heap, c: Item)
    requires Grows(h, g, c, 0) && h.Keys == g.Keys
    ensures forall d :: d in h ==> |g[d].items| <= |h[d].items|
  {
  }

  lemma MulNeg(a: int, b: int)
    ensures a * -b == -(a * b)
  {
  }

  /** The table can make any change below 2^32: it has a coin of worth 1 and none too large. */
  ghost predicate MakesChange(currency: seq<Kind>) {
    && GoodCurrency(currency) && currency != []
    && currency[|currency| - 1].worth == 1 && currency[0].worth <= WORD
  }

  lemma ChangeInFull(currency: seq<Kind>, change: nat)
    requires MakesChange(currency) && change < WORD
    ensures Leftover(change, currency) == 0
  {
    PaidInFullIff(change, currency);
    SmallQuotient(change, currency[0].worth);
  }

  lemma StillPlaced(h: Heap, g: Heap, x: Item, money: nat)
    requires KeepsDearer(h, g, money) && x in h && CoinValue(h[x].kind) > money && h[x].parent != null
    ensures x in g && g[x].kind == h[x].kind && g[x].count == h[x].count && g[x].parent == h[x].parent
  {
  }

  /** Paying with part of a stack: the change goes to the cylinder, or else onto the ground, before
      the coins are taken. */
  method SpendPart(cylinder: Item, item: Item, worth: nat, money: nat, currency: seq<Kind>, flags: Flags,
                   ghost boxes: seq<Item>, ghost s: set<Item>)
    returns (dropped: seq<Stack>, ghost change: nat, ghost s': set<Item>)
    requires Valid(Snapshot(s)) && cylinder in s && cylinder.kind.container && item in s
    requires CoinNow(Snapshot(s), boxes, Entry(worth, item)) && 0 < money < worth < WORD && MakesChange(currency)
    requires AllIn(Snapshot(s), boxes) && NoDup(boxes) && cylinder in boxes
    modifies s
    ensures s <= s' && fresh(s' - s) && Valid(Snapshot(s')) && Handy(dropped)
    ensures PurseOf(Snapshot(s'), boxes) + DroppedWorth(dropped) == old(PurseOf(Snapshot(s), boxes)) - money
    ensures change < CoinValue(old(item.kind)) && RoomForChange(cylinder, |old(cylinder.items)|, change, currency, flags) ==> dropped == []
    ensures change < CoinValue(old(item.kind))
    ensures OnlyTakes(old(Snapshot(s)), Snapshot(s'), item) && LeftOf(Snapshot(s'), item) <= old(item.count)
    ensures CoinValue(old(item.kind)) * (old(item.count) - LeftOf(Snapshot(s'), item)) == money + change
  {
    hide Valid, Booked, KeepsExcept, KeepsDearer, PurseOf, CoinValue, Richer, Leftover, GoodCurrency, DroppedWorth, Handy, StacksNeeded;
    ghost var h := Snapshot(s);
    ghost var c, k, v := item.parent, item.kind, CoinValue(item.kind);
    var count := item.count;
    UnitWorth(v, count, worth);
    var unit := worth / count;
    CoinsNeeded(money, unit, count);
    var removeCount := (money + unit - 1) / unit;
    var returned := unit * removeCount - money;
    change := returned;
    assert unit <= worth by { MulMono(1, count, unit); }
    ChangeInFull(currency, change);
    ghost var stored: nat;
    dropped, stored, s' := AddMoney(cylinder, returned, currency, flags, s);
    ghost var m := Snapshot(s');
    PurseShift(h, m, boxes, cylinder, stored);
    StillPlaced(h, m, item, change);
    assert m[item] == item.State();
    var ret := InternalRemoveItem(item, removeCount, false, Flags(false, false, false), s');
    ghost var taken: nat := if k.stackable then removeCount else count;
    assert taken == removeCount;
    BookedIsRicher(m, Snapshot(s'), c, k, -(removeCount as int));
    MulNeg(v, removeCount);
    AllStillIn(h, m, boxes);
    PurseShift(m, Snapshot(s'), boxes, c, v * -(removeCount as int));
    ChangeThenTakes(h, m, Snapshot(s'), item, change);
    assert Snapshot(s')[item] == item.State();
    assert LeftOf(Snapshot(s'), item) == count - removeCount;
  }

  lemma AllStillIn(h: Heap, m: Heap, boxes: seq<Item>)
    requires AllIn(h, boxes) && h.Keys <= m.Keys
    ensures AllIn(m, boxes)
  {
  }

  /** Takes coins worth exactly money out of the tree of containers below the cylinder. */
  method RemoveMoney(cylinder: Item, money: nat, currency: seq<Kind>, flags: Flags, ghost s: set<Item>)
    returns (ok: bool, dropped: seq<Stack>, ghost boxes: seq<Item>, ghost coins: seq<Entry>, ghost last: nat, ghost change: nat, ghost s': set<Item>)
    requires Valid(Snapshot(s)) && PlainCoins(Snapshot(s)) && cylinder in s && cylinder.kind.container
    requires MakesChange(currency)
    modifies s
    ensures s <= s' && fresh(s' - s) && Valid(Snapshot(s')) && Handy(dropped)
    ensures Found(old(Snapshot(s)), cylinder, boxes, |boxes|, 0)
    ensures Acyclic(old(Snapshot(s))) && Members(boxes) == BoxesOf(old(Snapshot(s)), cylinder)
    ensures ok <==> money <= old(PurseOf(Snapshot(s), boxes))
    ensures !ok ==> s' == s && Snapshot(s) == old(Snapshot(s)) && dropped == []
    ensures ok ==> PurseOf(Snapshot(s'), boxes) + DroppedWorth(dropped) == old(PurseOf(Snapshot(s), boxes)) - money
    ensures Collected(old(Snapshot(s)), boxes, |boxes|, 0, coins)
    ensures (set i | 0 <= i < |coins| :: coins[i].item) == CoinsOf(old(Snapshot(s)), cylinder)
    ensures ok && money > 0 ==> PaidWith(old(Snapshot(s)), Snapshot(s'), coins, last, money, change)
    ensures RoomForChange(cylinder, |old(cylinder.items)|, change, currency, flags) ==> dropped == []
  {
    hide Valid, PlainCoins, Found, Collected, PurseOf, DroppedWorth, Handy, MakesChange, StacksNeeded, CoinsOf;
    ghost var h := Snapshot(s);
    ValidShaped(h);
    var found, moneyMap, moneyCount := GatherMoney(cylinder, s);
    boxes, coins := found, moneyMap;
    dropped, last, change, s' := [], 0, 0, s;
    EmptyDrop();
    AllCoins(h, boxes, coins);
    if money == 0 {
      return true, [], boxes, coins, 0, 0, s;
    }
    if moneyCount < money {
      return false, [], boxes, coins, 0, 0, s;
    }
    FoundNow(h, cylinder, boxes, |boxes|, 0);
    dropped, change, last, s' := Pay(cylinder, moneyMap, money, currency, flags, boxes, s);
    ok := true;
  }

  lemma ValidShaped(h: Heap)
    requires Valid(h)
    ensures Shaped(h)
  {
  }

  lemma AllCoins(h: Heap, boxes: seq<Item>, coins: seq<Entry>)
    requires Collected(h, boxes, |boxes|, 0, coins)
    ensures SumEntries(coins) == PurseOf(h, boxes) && Distinct(coins) && StillThere(h, h, coins, 0) && AllIn(h, boxes)
    ensures (forall i :: 0 <= i < |coins| ==> coins[i].item in h && h[coins[i].item].parent != null)
    ensures Spent(h, coins, 0) && SumEntries(coins[..0]) == 0 && SumEntries(coins[|coins|..]) == 0
  {
    assert boxes[..|boxes|] == boxes;
    forall i | 0 <= i < |coins| ensures coins[i].item in h {
      assert CoinEntry(h, coins[i]);
    }
  }

  /** The ascending scan: whole stacks while they are worth less than what is still owed, then one
      last stack that covers the rest. It cannot run out of coins. */
  method Pay(cylinder: Item, coins: seq<Entry>, amount: nat, currency: seq<Kind>, flags: Flags,
             ghost boxes: seq<Item>, ghost s: set<Item>)
    returns (dropped: seq<Stack>, ghost change: nat, ghost last: nat, ghost s': set<Item>)
    requires Valid(Snapshot(s)) && PlainCoins(Snapshot(s)) && cylinder in s && cylinder.kind.container
    requires MakesChange(currency) && 0 < amount <= SumEntries(coins)
    requires Collected(Snapshot(s), boxes, |boxes|, 0, coins) && NoDup(boxes) && cylinder in boxes
    modifies s
    ensures s <= s' && fresh(s' - s) && Valid(Snapshot(s')) && Handy(dropped)
    ensures PurseOf(Snapshot(s'), boxes) + DroppedWorth(dropped) == old(PurseOf(Snapshot(s), boxes)) - amount
    ensures PaidWith(old(Snapshot(s)), Snapshot(s'), coins, last, amount, change)
    ensures RoomForChange(cylinder, |old(cylinder.items)|, change, currency, flags) ==> dropped == []
  {
    hide Valid, PlainCoins, Collected, PurseOf, DroppedWorth, Handy, MakesChange, CoinNow, StillThere, KeepsExcept, CoinValue, StacksNeeded,
      Spent, OnlyTakes, LeftOf, PaidWith, SumEntries, Distinct;
    ghost var h := Snapshot(s);
    AllCoins(h, boxes, coins);
    EmptyDrop();
    dropped, change, last, s' := [], 0, 0, s;
    var money: nat := amount;
    var j := 0;
    while j < |coins|
      invariant 0 <= j <= |coins| && 0 < money <= SumEntries(coins[j..])
      invariant Valid(Snapshot(s)) && StillThere(h, Snapshot(s), coins, j) && cylinder.kind.container
      invariant PurseOf(Snapshot(s), boxes) == PurseOf(h, boxes) - (amount - money)
      invariant |cylinder.items| <= |old(cylinder.items)|
      invariant Spent(Snapshot(s), coins, j) && SumEntries(coins[..j]) == amount - money
    {
      var e := coins[j];
      SumRest(coins, j);
      CoinStillThere(h, Snapshot(s), boxes, coins, j);
      CoinIn(h, Snapshot(s), boxes, coins, j);
      ghost var m := Snapshot(s);
      assert m[cylinder] == cylinder.State() && m[e.item] == e.item.State() && h[e.item] == old(coins[j].item.State());
      last := j;
      if e.worth < money {
        SpendAll(e.item, e, boxes, s);
        assert Snapshot(s)[e.item] == e.item.State();
        OneSpent(h, m, Snapshot(s), coins, j, cylinder);
        assert Snapshot(s)[cylinder] == cylinder.State();
        money := money - e.worth;
      } else if e.worth > money {
        dropped, change, s' := SpendPart(cylinder, e.item, e.worth, money, currency, flags, boxes, s);
        LastPaid(h, m, Snapshot(s'), coins, j, e.item, amount, money, change);
        return;
      } else {
        SpendAll(e.item, e, boxes, s);
        assert Snapshot(s)[e.item] == e.item.State();
        NoneLeft(Snapshot(s), e.item);
        LastPaid(h, m, Snapshot(s), coins, j, e.item, amount, money, 0);
        return;
      }
      j := j + 1;
    }
  }

  lemma CoinIn(h: Heap, g: Heap, boxes: seq<Item>, coins: seq<Entry>, j: nat)
    requires j < |coins| && CoinNow(g, boxes, coins[j]) && StillThere(h, g, coins, j) && PlainCoins(h) && AllIn(h, boxes)
    ensures coins[j].item in g && coins[j].worth < WORD && AllIn(g, boxes)
    ensures coins[j].item in h && h[coins[j].item].kind == g[coins[j].item].kind
  {
    var x := coins[j].item;
    assert h[x].count == g[x].count && h[x].kind == g[x].kind;
  }

  lemma OneSpent(h: Heap, m: Heap, g: Heap, coins: seq<Entry>, j: nat, c: Item)
    requires StillThere(h, m, coins, j) && Spent(m, coins, j) && j < |coins| && Distinct(coins)
    requires var x := coins[j].item;
      KeepsExcept(m, g, x) && x in g && g[x].parent == null && x in m && !m[x].kind.container
    requires c in m && m[c].kind.container
    ensures StillThere(h, g, coins, j + 1) && Spent(g, coins, j + 1)
    ensures SumEntries(coins[..j + 1]) == SumEntries(coins[..j]) + coins[j].worth
    ensures c in g && g[c].kind == m[c].kind
  {
    var x := coins[j].item;
    ExceptTakes(m, g, x);
    SpentMore(m, g, coins, j, x);
    SumNext(coins, j);
    StillThereTaken(h, m, g, coins, j);
    KeptKind(m, g, x, c);
  }

  lemma KeptKind(m: Heap, g: Heap, x: Item, c: Item)
    requires KeepsExcept(m, g, x) && c in m && m[c].kind.container && x in m && !m[x].kind.container
    ensures c in g && g[c].kind == m[c].kind
  {
  }
}
