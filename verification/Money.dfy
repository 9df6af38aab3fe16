/** Paying and receiving coins out of a tree of containers. */
module Money {
  import opened Forest
  import opened Ledger
  import opened Queries
  import opened Moves
  import opened AddItems
  import opened Purse

  // ---------------------------------------------------------------- taking one item away

  /** Every item but x is as it was. */
  ghost predicate KeepsExcept(h: Heap, g: Heap, x: Item) {
    && h.Keys == g.Keys
    && forall y {:trigger g[y]} :: y in h && y != x ==>
         g[y].kind == h[y].kind && g[y].count == h[y].count && g[y].parent == h[y].parent
  }

  lemma TakenKeeps(h: Heap, c: Item, i: nat, removeCount: nat)
    requires Valid(h) && c in h && i < |h[c].items|
    requires var n := h[h[c].items[i]]; n.kind.stackable ==> 1 <= removeCount <= n.count
    ensures KeepsExcept(h, Taken(h, c, i, removeCount), h[c].items[i])
    ensures var x := h[c].items[i]; var n := h[x]; var g := Taken(h, c, i, removeCount);
      && x in g
      && if n.kind.stackable && removeCount < n.count then g[x].parent == n.parent && g[x].count == n.count - removeCount
         else g[x].parent == null
  {
    UnlinkAbove(h, c, i);
  }

  lemma ListedByParent(h: Heap, x: Item)
    requires Valid(h) && x in h && h[x].parent != null
    ensures h[x].parent in h && x in h[h[x].parent].items
  {
  }

  method InternalRemoveItem(item: Item, count: int, test: bool, flags: Flags, ghost s: set<Item>)
    returns (ret: ReturnValue)
    requires Valid(Snapshot(s)) && item in s && count >= -1
    modifies s
    ensures Valid(Snapshot(s))
    ensures var n: nat := if count == -1 then old(item.count) else count;
      ret == NoError <==> old(item.parent) != null && n > 0 && (old(item.kind.stackable) ==> n <= old(item.count))
    ensures ret != NoError || test ==> Snapshot(s) == old(Snapshot(s))
    ensures ret == NoError && !test ==>
      var n: nat := if count == -1 then old(item.count) else count;
      && KeepsExcept(old(Snapshot(s)), Snapshot(s), item)
      && Booked(old(Snapshot(s)), Snapshot(s), old(item.parent), old(item.kind), -(TakenAmount(old(item.State()), n) as int))
      && Grows(old(Snapshot(s)), Snapshot(s), old(item.parent), 0)
      && (if old(item.kind.stackable) && n < old(item.count)
          then item.parent == old(item.parent) && item.count == old(item.count) - n else item.parent == null)
  {
    hide Valid, Booked, KeepsExcept, Taken, Grows;
    var cylinder := item.parent;
    if cylinder == null {
      return NotPossible;
    }
    ListedByParent(Snapshot(s), item);
    var n: nat := if count == -1 then item.count else count;
    ret := QueryRemove(cylinder, item, n, flags.(ignoreNotMoveable := true), s);
    if ret != NoError || test {
      return;
    }
    TakenKeeps(Snapshot(s), cylinder, IndexOf(cylinder.items, item), n);
    TakeFrom(cylinder, item, n, s);
    assert Snapshot(s)[item] == item.State();
  }

  // ---------------------------------------------------------------- making change

  /** A stack left on the ground because the container would not take it. */
  datatype Stack = Stack(kind: Kind, count: nat)

  function DroppedWorth(d: seq<Stack>): nat {
    if d == [] then 0 else CoinValue(d[0].kind) * d[0].count + DroppedWorth(d[1..])
  }

  lemma {:induction false} DropOne(d: seq<Stack>, x: Stack)
    ensures DroppedWorth(d + [x]) == DroppedWorth(d) + CoinValue(x.kind) * x.count
    decreases |d|
  {
    if d == [] {
      assert d + [x] == [x];
    } else {
      DropOne(d[1..], x);
      assert (d + [x])[1..] == d[1..] + [x];
    }
  }

  ghost predicate Handy(d: seq<Stack>) {
    forall i :: 0 <= i < |d| ==> 1 <= d[i].count <= MAX_STACK
  }

  /** The currency table: coin kinds in strictly descending order of worth. */
  ghost predicate GoodCurrency(currency: seq<Kind>) {
    && (forall i :: 0 <= i < |currency| ==>
          currency[i].stackable && !currency[i].container && currency[i].worth > 0)
    && (forall i, j :: 0 <= i < j < |currency| ==> currency[i].worth > currency[j].worth)
  }

  /** How many coins of one worth are emitted: the quotient is cut down to 32 bits. */
  function Coins(money: nat, worth: nat): nat
    requires worth > 0
  {
    Wrap(money / worth)
  }

  /** What is left of the money after handing out coins of every worth in the table. */
  ghost function Leftover(money: nat, currency: seq<Kind>): nat
    requires GoodCurrency(currency)
    decreases |currency|
  {
    if currency == [] then money
    else
      var w := currency[0].worth;
      CoinsCover(money, w);
      Leftover(money - Coins(money, w) * w, currency[1..])
  }

  lemma CoinsCover(money: nat, w: nat)
    requires w > 0
    ensures Coins(money, w) * w <= money
  {
    var q := money / w;
    assert q == Coins(money, w) + (q / WORD) * WORD;
    QuotientBound(money, w, q);
    MulMono(Coins(money, w), q, w);
  }

  lemma QuotientBound(money: nat, w: nat, q: nat)
    requires w > 0 && q == money / w
    ensures q * w <= money < q * w + w
  {
  }

  lemma MulMono(a: nat, b: nat, w: nat)
    requires a <= b
    ensures a * w <= b * w
  {
  }

  /** With a coin of worth 1 in the table and its largest coin worth at most 2^32, exactly the
      amounts below 2^32 largest coins are handed out in full. */
  lemma {:induction false} PaidInFullIff(money: nat, currency: seq<Kind>)
    requires GoodCurrency(currency) && currency != []
    requires currency[|currency| - 1].worth == 1 && currency[0].worth <= WORD
    ensures Leftover(money, currency) == 0 <==> money / currency[0].worth < WORD
    ensures money / currency[0].worth >= WORD ==> Leftover(money, currency) >= WORD
    decreases |currency|
  {
    var w := currency[0].worth;
    var q, c := money / w, Coins(money, w);
    CoinsCover(money, w);
    QuotientBound(money, w, q);
    var rest := money - c * w;
    if |currency| == 1 {
      assert w == 1 && c * w == c && currency[1..] == [];
    } else {
      var v := currency[1].worth;
      assert currency[1..][0] == currency[1] && currency[1..][|currency| - 2] == currency[|currency| - 1];
      PaidInFullIff(rest, currency[1..]);
      if q < WORD {
        assert c == q;
        SmallQuotient(rest, v);
      } else {
        CutQuotient(money, w, v);
      }
    }
  }

  lemma CutQuotient(money: nat, w: nat, v: nat)
    requires 0 < v <= w && money / w >= WORD
    ensures Coins(money, w) * w <= money
    ensures (money - Coins(money, w) * w) / v >= WORD
  {
    CoinsCover(money, w);
    QuotientBound(money, w, money / w);
    var q, c := money / w, Coins(money, w);
    var high := q - c;
    assert high >= WORD by { assert q == c + (q / WORD) * WORD; }
    MulMono(WORD, high, w);
    MulSum(w, c, high, q);
    LargeQuotient(money - c * w, v, w);
  }

  /** With coins of worth 10000, 100 and 1, an amount of 10000 times 2^32 is lost altogether. */
  lemma GreatSumVanishes(crystal: Kind, platinum: Kind, gold: Kind)
    requires GoodCurrency([crystal, platinum, gold])
    requires crystal.worth == 10_000 && platinum.worth == 100 && gold.worth == 1
    ensures Leftover(10_000 * WORD, [crystal, platinum, gold]) == 10_000 * WORD
  {
    hide Leftover, Coins;
    var money := 10_000 * WORD;
    NoCoins(money, 10_000);
    NoCoins(money, 100);
    NoCoins(money, 1);
    PassedOver(money, [crystal, platinum, gold]);
    assert [crystal, platinum, gold][1..] == [platinum, gold] && [platinum, gold][1..] == [gold];
    PassedOver(money, [platinum, gold]);
    PassedOver(money, [gold]);
  }

  lemma NoCoins(money: nat, w: nat)
    requires w > 0 && money / w % WORD == 0
    ensures Coins(money, w) == 0
  {
  }

  lemma PassedOver(money: nat, currency: seq<Kind>)
    requires GoodCurrency(currency) && currency != [] && Coins(money, currency[0].worth) == 0
    ensures Leftover(money, currency) == Leftover(money, currency[1..])
    ensures |currency| == 1 ==> Leftover(money, currency) == money
  {
  }

  lemma SmallQuotient(rest: nat, v: nat)
    requires v > 0 && rest < WORD
    ensures rest / v < WORD
  {
    QuotientBound(rest, v, rest / v);
    MulMono(1, v, rest / v);
  }

  lemma NextMultiple(q: nat, v: nat)
    requires q < WORD
    ensures q * v + v <= WORD * v
  {
    MulMono(q + 1, WORD, v);
  }

  lemma LargeQuotient(rest: nat, v: nat, w: nat)
    requires 0 < v <= w && rest >= WORD * w
    ensures rest / v >= WORD
  {
    QuotientBound(rest, v, rest / v);
    MulMono(v, w, WORD);
    if rest / v < WORD {
      NextMultiple(rest / v, v);
    }
  }

  /** Nothing worth more than `money` a piece changed count, nothing moved, and nothing already placed got less. */
  ghost predicate KeepsDearer(h: Heap, g: Heap, money: nat) {
    && h.Keys <= g.Keys
    && forall x {:trigger g[x]} :: x in h ==>
         && g[x].kind == h[x].kind && (CoinValue(h[x].kind) > money ==> g[x].count == h[x].count)
         && g[x].parent == h[x].parent && (h[x].parent != null ==> g[x].count >= h[x].count)
  }

  lemma KeepsDearerTwice(h: Heap, m: Heap, g: Heap, money: nat)
    requires KeepsDearer(h, m, money) && KeepsDearer(m, g, money)
    ensures KeepsDearer(h, g, money)
  {
    forall x | x in h
      ensures && g[x].kind == h[x].kind && (CoinValue(h[x].kind) > money ==> g[x].count == h[x].count)
              && g[x].parent == h[x].parent && (h[x].parent != null ==> g[x].count >= h[x].count)
    {
      assert m[x].kind == h[x].kind && g[x].kind == m[x].kind;
    }
  }

  /** One freshly created stack of coins: into the container, or else onto the ground. */
  method HandOut(cylinder: Item, kind: Kind, count: nat, flags: Flags, ghost s: set<Item>)
    returns (stored: bool, ghost s': set<Item>)
    requires Valid(Snapshot(s)) && cylinder in s && cylinder.kind.container
    requires kind.stackable && !kind.container && 1 <= count <= MAX_STACK
    modifies s
    ensures s <= s' && fresh(s' - s) && Valid(Snapshot(s'))
    ensures cylinder.kind == old(cylinder.kind)
    ensures Richer(old(Snapshot(s)), Snapshot(s'), cylinder, if stored then CoinValue(kind) * count else 0)
    ensures KeepsDearer(old(Snapshot(s)), Snapshot(s'), CoinValue(kind))
    ensures stored <==> TakesIn(old(Snapshot(s)), cylinder, kind, count, false, flags)
    ensures |cylinder.items| <= |old(cylinder.items)| + if stored then 1 else 0
    ensures Booked(old(Snapshot(s)), Snapshot(s'), cylinder, kind, if stored then count else 0)
  {
    hide Valid, Booked, Richer, Welcome, DestinationOf, Remainder, KeepsDearer, KeepsOthers, CoinValue, WithItem, TakesIn, Rooted, Above,
      ChildrenLinked, WithinCapacity;
    ghost var h := Snapshot(s);
    var x := NewStack(kind, count, s);
    ghost var s1 := s + {x};
    ghost var m := Snapshot(s1);
    FreshStack(h, x, kind, count, cylinder);
    FreshTakesIn(h, x, kind, count, cylinder, flags);
    assert x.State() == m[x] && cylinder.State() == m[cylinder];
    var ret, remainder;
    ret, remainder, s' := InternalAddItem(cylinder, x, WHEREEVER, flags, false, s1);
    stored := ret == NoError;
    ghost var g := Snapshot(s');
    assert cylinder.State() == g[cylinder];
    HandedOut(h, m, g, cylinder, x, kind, count, flags, stored, remainder);
  }

  lemma FreshStack(h: Heap, x: Item, kind: Kind, count: nat, c: Item)
    requires Valid(h) && x !in h && c in h && kind.stackable && !kind.container && 1 <= count <= MAX_STACK
    ensures var m := WithItem(h, x, kind, count);
      && Valid(m) && Booked(h, m, c, kind, 0) && KeepsOthers(h, m, kind, null) && m[c] == h[c]
      && m[x] == Node(kind, count, null, [], 0)
  {
    WithItemValid(h, x, kind, count);
    WithItemBooked(h, x, kind, count, c, kind);
  }

  /** Whether a fresh stack is taken in can be told before it is made. */
  lemma FreshTakesIn(h: Heap, x: Item, kind: Kind, count: nat, c: Item, flags: Flags)
    requires Valid(h) && x !in h && c in h && h[c].kind.container && kind.stackable && !kind.container && 1 <= count <= MAX_STACK
    ensures var m := WithItem(h, x, kind, count); var d := DestinationOf(m, c, WHEREEVER, x, flags);
      && ChildrenLinked(m) && Rooted(m, c) && d.cylinder == c
      && (Welcome(m, c, d, x, flags) <==> TakesIn(h, c, kind, count, false, flags))
  {
    hide Welcome, DestinationOf, CachesAgree, Above;
    var m := WithItem(h, x, kind, count);
    WithItemValid(h, x, kind, count);
    WithItemHang(h, x, kind, count, c);
    WelcomeLaw(m, c, x, flags);
    PlacesFrame(h, m, kind, h[c].items, x);
  }

  lemma {:induction false} PlacesFrame(h: Heap, m: Heap, kind: Kind, s: seq<Item>, x: Item)
    requires (forall i :: 0 <= i < |s| ==> s[i] in h) && x !in h && forall y :: y in h ==> y in m && m[y] == h[y]
    ensures StackPlaces(m, kind, s) == StackPlaces(h, kind, s)
    decreases |s|
  {
    if s != [] {
      PlacesFrame(h, m, kind, s[1..], x);
    }
  }

  lemma HandedOut(h: Heap, m: Heap, g: Heap, c: Item, x: Item, kind: Kind, count: nat, flags: Flags, stored: bool, remainder: nat)
    requires Valid(m) && Booked(h, m, c, kind, 0) && KeepsOthers(h, m, kind, null) && KeepsOthers(m, g, kind, x) && x !in h
    requires c in m && x in m && h.Keys <= m.Keys && m[x].kind == kind && m[x].parent == null && kind.stackable && c in h
    requires ChildrenLinked(m)
    requires var d := DestinationOf(m, c, WHEREEVER, x, flags);
      if stored then Booked(m, g, d.cylinder, kind, count - remainder) && remainder == Remainder(m, c, d, x, flags)
      else g == m
    requires var d := DestinationOf(m, c, WHEREEVER, x, flags);
      stored ==> d.cylinder in m && Rooted(m, c) && Rooted(m, d.cylinder) && Welcome(m, c, d, x, flags)
    ensures Richer(h, g, c, if stored then CoinValue(kind) * count else 0)
    ensures KeepsDearer(h, g, CoinValue(kind))
    ensures g[c].kind == h[c].kind
    ensures Booked(h, g, c, kind, if stored then count else 0)
  {
    hide Valid, Booked, Richer, CoinValue;
    BookedIsRicher(h, m, c, kind, 0);
    assert CoinValue(kind) * 0 == 0;
    if stored {
      StaysInside(m, c, x, flags);
      BookedTwice(h, m, g, c, kind, 0, count);
      BookedIsRicher(m, g, c, kind, count);
      RicherTwice(h, m, g, c, 0, CoinValue(kind) * count);
    }
  }

  lemma StaysInside(m: Heap, c: Item, x: Item, flags: Flags)
    requires ChildrenLinked(m) && c in m && x in m && m[x].parent == null && m[x].kind.stackable && c.unlocked
    ensures var d := DestinationOf(m, c, WHEREEVER, x, flags); d.cylinder == c && Remainder(m, c, d, x, flags) == 0
  {
    FirstStackIndex(m, c, x, flags);
  }

  lemma NothingYet(h: Heap, c: Item, money: nat)
    ensures Richer(h, h, c, 0) && KeepsDearer(h, h, money)
  {
  }

  lemma DearerStill(h: Heap, g: Heap, a: nat, b: nat)
    requires KeepsDearer(h, g, a) && a <= b
    ensures KeepsDearer(h, g, b)
  {
  }

  /** How many stacks of at most 100 some coins make. */
  function Stacks(coins: nat): nat {
    (coins + 99) / 100
  }

  lemma NoStacks()
    ensures Stacks(0) == 0
  {
  }

  lemma OneStackLess(left: nat, count: nat)
    requires left > 0 && count == if left < MAX_STACK then left else MAX_STACK
    ensures Stacks(left) == Stacks(left - count) + 1
  {
  }

  /** An open container, and coins that can be picked up and belong to no store. */
  predicate Carried(c: Item, kind: Kind) {
    c.unlocked && kind.pickupable && !kind.storeItem
  }

  /** A free slot takes any stack of them. */
  lemma FitsOne(h: Heap, c: Item, kind: Kind, count: nat, flags: Flags)
    requires c in h && count <= MAX_STACK && kind.stackable
    ensures Carried(c, kind) && (flags.noLimit || |h[c].items| < c.capacity) ==> TakesIn(h, c, kind, count, false, flags)
  {
  }

  function DroppedOf(d: seq<Stack>, k: Kind): nat {
    if d == [] then 0 else (if d[0].kind == k then d[0].count else 0) + DroppedOf(d[1..], k)
  }

  lemma {:induction false} DropOneOf(d: seq<Stack>, x: Stack, k: Kind)
    ensures DroppedOf(d + [x], k) == DroppedOf(d, k) + if x.kind == k then x.count else 0
    decreases |d|
  {
    if d == [] {
      assert d + [x] == [x];
    } else {
      DropOneOf(d[1..], x, k);
      assert (d + [x])[1..] == d[1..] + [x];
    }
  }

  /** n coins of one kind, and nothing else, have come to the container or to what was dropped before. */
  ghost predicate Handed(h: Heap, g: Heap, c: Item, before: seq<Stack>, after: seq<Stack>, kind: Kind, n: nat) {
    && c in h && c in g
    && forall k: Kind :: Holds(g, c, k) + DroppedOf(after, k) == Holds(h, c, k) + DroppedOf(before, k) + if k == kind then n else 0
  }

  lemma NoneHanded(h: Heap, c: Item, d: seq<Stack>, kind: Kind)
    requires c in h
    ensures Handed(h, h, c, d, d, kind, 0)
  {
  }

  lemma HandedMore(h: Heap, m: Heap, g: Heap, c: Item, d0: seq<Stack>, d: seq<Stack>, kind: Kind, n: nat, count: nat, stored: bool)
    requires Handed(h, m, c, d0, d, kind, n) && Booked(m, g, c, kind, if stored then count else 0)
    ensures Handed(h, g, c, d0, if stored then d else d + [Stack(kind, count)], kind, n + count)
  {
    hide Holds, DroppedOf;
    var d' := if stored then d else d + [Stack(kind, count)];
    forall k: Kind
      ensures Holds(g, c, k) + DroppedOf(d', k) == Holds(h, c, k) + DroppedOf(d0, k) + if k == kind then n + count else 0
    {
      DropOneOf(d, Stack(kind, count), k);
      assert Holds(m, c, k) + DroppedOf(d, k) == Holds(h, c, k) + DroppedOf(d0, k) + if k == kind then n else 0;
    }
  }

  /** Hands out a number of coins of one kind in stacks of at most 100. */
  method EmitCoins(cylinder: Item, kind: Kind, coins: nat, dropped: seq<Stack>, flags: Flags, ghost s: set<Item>)
    returns (d: seq<Stack>, ghost stored: nat, ghost s': set<Item>)
    requires Valid(Snapshot(s)) && cylinder in s && cylinder.kind.container && Handy(dropped)
    requires kind.stackable && !kind.container
    modifies s
    ensures s <= s' && fresh(s' - s) && Valid(Snapshot(s')) && cylinder.kind == old(cylinder.kind)
    ensures Richer(old(Snapshot(s)), Snapshot(s'), cylinder, stored)
    ensures KeepsDearer(old(Snapshot(s)), Snapshot(s'), CoinValue(kind))
    ensures Handy(d) && stored + DroppedWorth(d) == DroppedWorth(dropped) + CoinValue(kind) * coins
    ensures Carried(cylinder, kind) && (flags.noLimit || |old(cylinder.items)| + Stacks(coins) <= cylinder.capacity) ==>
      d == dropped && |cylinder.items| <= |old(cylinder.items)| + Stacks(coins)
    ensures Handed(old(Snapshot(s)), Snapshot(s'), cylinder, dropped, d, kind, coins)
  {
    hide Valid, Richer, KeepsDearer, CoinValue, DroppedWorth, TakesIn, Stacks, Booked, Handed;
    ghost var h := Snapshot(s);
    var left: nat := coins;
    d, stored, s' := dropped, 0, s;
    NothingYet(h, cylinder, CoinValue(kind));
    NoneHanded(h, cylinder, d, kind);
    NoStacks();
    ghost var fits := Carried(cylinder, kind) && (flags.noLimit || |cylinder.items| + Stacks(coins) <= cylinder.capacity);
    while left > 0
      invariant s <= s' && fresh(s' - s) && Valid(Snapshot(s')) && cylinder.kind == old(cylinder.kind)
      invariant Richer(h, Snapshot(s'), cylinder, stored) && KeepsDearer(h, Snapshot(s'), CoinValue(kind))
      invariant Handy(d) && stored + DroppedWorth(d) + CoinValue(kind) * left == DroppedWorth(dropped) + CoinValue(kind) * coins
      invariant fits ==> d == dropped && |cylinder.items| + Stacks(left) <= |old(cylinder.items)| + Stacks(coins)
      invariant 0 <= left <= coins && Handed(h, Snapshot(s'), cylinder, dropped, d, kind, coins - left)
    {
      var count := if left < MAX_STACK then left else MAX_STACK;
      ghost var m := Snapshot(s');
      assert m[cylinder] == cylinder.State();
      FitsOne(m, cylinder, kind, count, flags);
      OneStackLess(left, count);
      var ok;
      ok, s' := HandOut(cylinder, kind, count, flags, s');
      KeepsDearerTwice(h, m, Snapshot(s'), CoinValue(kind));
      MulSum(CoinValue(kind), count, left - count, left);
      ghost var worth := CoinValue(kind) * count;
      RicherTwice(h, m, Snapshot(s'), cylinder, stored, if ok then worth else 0);
      HandedMore(h, m, Snapshot(s'), cylinder, dropped, d, kind, coins - left, count, ok);
      if ok {
        stored := stored + worth;
      } else {
        DropOne(d, Stack(kind, count));
        d := d + [Stack(kind, count)];
      }
      left := left - count;
    }
    assert CoinValue(kind) * 0 == 0;
  }

  /** Hands out money in coins, the dearest kind first. */
  method AddMoney(cylinder: Item, amount: nat, currency: seq<Kind>, flags: Flags, ghost s: set<Item>)
    returns (dropped: seq<Stack>, ghost stored: nat, ghost s': set<Item>)
    requires Valid(Snapshot(s)) && cylinder in s && cylinder.kind.container && GoodCurrency(currency)
    modifies s
    ensures s <= s' && fresh(s' - s) && Valid(Snapshot(s')) && cylinder.kind == old(cylinder.kind)
    ensures Richer(old(Snapshot(s)), Snapshot(s'), cylinder, stored)
    ensures KeepsDearer(old(Snapshot(s)), Snapshot(s'), amount)
    ensures Handy(dropped) && stored + DroppedWorth(dropped) == amount - Leftover(amount, currency)
    ensures RoomForChange(cylinder, |old(cylinder.items)|, amount, currency, flags) ==>
      dropped == [] && stored == amount - Leftover(amount, currency)
    ensures PaidOut(old(Snapshot(s)), Snapshot(s'), cylinder, dropped, amount, currency)
  {
    hide Changed, PaidOut, Handed, CoinsOut, Valid, Richer, KeepsDearer, DroppedWorth, Leftover, GoodCurrency, CoinValue, Handy, StacksNeeded, Stacks, Carried;
    ghost var h := Snapshot(s);
    var money: nat := amount;
    dropped, stored, s' := [], 0, s;
    NothingYet(h, cylinder, amount);
    EmptyDrop();
    assert currency[0..] == currency;
    NoneChanged(h, cylinder, amount, currency);
    ghost var fits := RoomForChange(cylinder, |cylinder.items|, amount, currency, flags);
    var i := 0;
    while i < |currency|
      invariant 0 <= i <= |currency| && money <= amount
      invariant s <= s' && fresh(s' - s) && Valid(Snapshot(s')) && cylinder.kind == old(cylinder.kind)
      invariant Richer(h, Snapshot(s'), cylinder, stored) && KeepsDearer(h, Snapshot(s'), amount)
      invariant Handy(dropped) && stored + DroppedWorth(dropped) == amount - money
      invariant GoodCurrency(currency[i..]) && Leftover(amount, currency) == Leftover(money, currency[i..])
      invariant fits ==> dropped == []
      invariant fits && !flags.noLimit ==> |cylinder.items| + StacksNeeded(money, currency[i..]) <= cylinder.capacity
      invariant Changed(h, Snapshot(s'), cylinder, dropped, amount, currency, money, currency[i..])
    {
      var kind := currency[i];
      LeftoverStep(money, currency, i);
      NeededStep(money, currency, i);
      var coins := Coins(money, kind.worth);
      CoinsCover(money, kind.worth);
      CoinsOutStep(money, currency, i);
      if coins > 0 {
        MulMono(1, coins, kind.worth);
        ghost var m := Snapshot(s');
        ghost var more: nat;
        ghost var d := dropped;
        dropped, more, s' := EmitCoins(cylinder, kind, coins, dropped, flags, s');
        ChangedMore(h, m, Snapshot(s'), cylinder, d, dropped, amount, currency, money, i, coins);
        DearerStill(m, Snapshot(s'), CoinValue(kind), amount);
        KeepsDearerTwice(h, m, Snapshot(s'), amount);
        RicherTwice(h, m, Snapshot(s'), cylinder, stored, more);
        stored := stored + more;
        money := money - coins * kind.worth;
      } else {
        NoneOfKind(h, Snapshot(s'), cylinder, dropped, amount, currency, money, i);
      }
      i := i + 1;
    }
    NothingLeft(money, currency[i..]);
    AllChanged(h, Snapshot(s'), cylinder, dropped, amount, currency, money, currency[i..]);
  }

  /** How many coins of a kind an amount makes, the dearest kind first. */
  ghost function CoinsOut(money: nat, currency: seq<Kind>, k: Kind): nat
    requires GoodCurrency(currency)
    decreases |currency|
  {
    if currency == [] then 0
    else
      var w := currency[0].worth;
      CoinsCover(money, w);
      (if currency[0] == k then Coins(money, w) else 0) + CoinsOut(money - Coins(money, w) * w, currency[1..], k)
  }

  lemma {:induction false} NoneOutside(money: nat, currency: seq<Kind>, k: Kind)
    requires GoodCurrency(currency) && k !in currency
    ensures CoinsOut(money, currency, k) == 0
    decreases |currency|
  {
    if currency != [] {
      CoinsCover(money, currency[0].worth);
      NoneOutside(money - Coins(money, currency[0].worth) * currency[0].worth, currency[1..], k);
    }
  }

  /** As many of the dearest coins as go into the amount; the rest is made up in the same way from the others.
      Only numbers of 32 bits and more are cut. */
  lemma DearestFirst(money: nat, currency: seq<Kind>, k: Kind)
    requires GoodCurrency(currency) && currency != [] && money / currency[0].worth < 0x1_0000_0000
    ensures CoinsOut(money, currency, k) ==
      if k == currency[0] then money / k.worth else CoinsOut(money % currency[0].worth, currency[1..], k)
  {
    var w := currency[0].worth;
    CoinsCover(money, w);
    RestIsRemainder(money, w);
    assert Coins(money, w) == money / w;
    if k == currency[0] {
      assert k !in currency[1..];
      NoneOutside(money - money / w * w, currency[1..], k);
    }
  }

  lemma RestIsRemainder(money: nat, w: nat)
    requires w > 0
    ensures money - money / w * w == money % w
  {
  }

  /** Of every kind, the container and the ground together have got the coins the amount makes, but for those the
      money that is left still makes of the rest of the table. */
  ghost predicate Changed(h: Heap, g: Heap, c: Item, dropped: seq<Stack>, amount: nat, currency: seq<Kind>, money: nat, rest: seq<Kind>)
    requires GoodCurrency(currency) && GoodCurrency(rest)
  {
    && c in h && c in g
    && forall k: Kind :: Holds(g, c, k) + DroppedOf(dropped, k) + CoinsOut(money, rest, k) == Holds(h, c, k) + CoinsOut(amount, currency, k)
  }

  /** Of every kind, the container and the ground together have got the coins the amount makes. */
  ghost predicate PaidOut(h: Heap, g: Heap, c: Item, dropped: seq<Stack>, amount: nat, currency: seq<Kind>)
    requires GoodCurrency(currency)
  {
    && c in h && c in g
    && forall k: Kind :: Holds(g, c, k) + DroppedOf(dropped, k) == Holds(h, c, k) + CoinsOut(amount, currency, k)
  }

  lemma NoneOfKind(h: Heap, g: Heap, c: Item, d: seq<Stack>, amount: nat, currency: seq<Kind>, money: nat, i: nat)
    requires GoodCurrency(currency) && i < |currency| && GoodCurrency(currency[i..]) && GoodCurrency(currency[i + 1..])
    requires Changed(h, g, c, d, amount, currency, money, currency[i..])
    requires currency[i].worth > 0 && Coins(money, currency[i].worth) == 0
    ensures Changed(h, g, c, d, amount, currency, money, currency[i + 1..])
  {
    NoneHanded(g, c, d, currency[i]);
    ChangedMore(h, g, g, c, d, d, amount, currency, money, i, 0);
  }

  lemma NoneChanged(h: Heap, c: Item, amount: nat, currency: seq<Kind>)
    requires c in h && GoodCurrency(currency)
    ensures Changed(h, h, c, [], amount, currency, amount, currency)
  {
  }

  lemma CoinsOutStep(money: nat, currency: seq<Kind>, i: nat)
    requires i < |currency| && GoodCurrency(currency[i..])
    ensures currency[i].worth > 0 && GoodCurrency(currency[i + 1..])
    ensures Coins(money, currency[i].worth) * currency[i].worth <= money
    ensures forall k: Kind ::
      CoinsOut(money, currency[i..], k) == (if currency[i] == k then Coins(money, currency[i].worth) else 0)
        + CoinsOut(money - Coins(money, currency[i].worth) * currency[i].worth, currency[i + 1..], k)
  {
    assert currency[i..][0] == currency[i] && currency[i..][1..] == currency[i + 1..];
    CoinsCover(money, currency[i].worth);
  }

  lemma ChangedMore(h: Heap, m: Heap, g: Heap, c: Item, d: seq<Stack>, dropped: seq<Stack>, amount: nat, currency: seq<Kind>, money: nat, i: nat, coins: nat)
    requires GoodCurrency(currency) && i < |currency| && GoodCurrency(currency[i..]) && GoodCurrency(currency[i + 1..])
    requires Changed(h, m, c, d, amount, currency, money, currency[i..]) && Handed(m, g, c, d, dropped, currency[i], coins)
    requires currency[i].worth > 0 && coins == Coins(money, currency[i].worth) && coins * currency[i].worth <= money
    ensures Changed(h, g, c, dropped, amount, currency, money - coins * currency[i].worth, currency[i + 1..])
  {
    hide GoodCurrency, Coins, CoinsOut, Holds, DroppedOf;
    var left: nat := money - coins * currency[i].worth;
    forall k: Kind
      ensures Holds(g, c, k) + DroppedOf(dropped, k) + CoinsOut(left, currency[i + 1..], k) == Holds(h, c, k) + CoinsOut(amount, currency, k)
    {
      CoinsOutStep(money, currency, i);
      assert Holds(m, c, k) + DroppedOf(d, k) + CoinsOut(money, currency[i..], k) == Holds(h, c, k) + CoinsOut(amount, currency, k);
    }
  }

  lemma AllChanged(h: Heap, g: Heap, c: Item, dropped: seq<Stack>, amount: nat, currency: seq<Kind>, money: nat, rest: seq<Kind>)
    requires GoodCurrency(currency) && rest == [] && GoodCurrency(rest) && Changed(h, g, c, dropped, amount, currency, money, rest)
    ensures PaidOut(h, g, c, dropped, amount, currency)
  {
    forall k: Kind ensures Holds(g, c, k) + DroppedOf(dropped, k) == Holds(h, c, k) + CoinsOut(amount, currency, k) {
      assert CoinsOut(money, rest, k) == 0;
    }
  }

  /** How many stacks of coins an amount makes. */
  ghost function StacksNeeded(money: nat, currency: seq<Kind>): nat
    requires GoodCurrency(currency)
    decreases |currency|
  {
    if currency == [] then 0
    else
      var w := currency[0].worth;
      CoinsCover(money, w);
      Stacks(Coins(money, w)) + StacksNeeded(money - Coins(money, w) * w, currency[1..])
  }

  /** The container is open, its n items leave a free slot for every stack of coins, unless there is no
      limit, and the coins are ordinary. */
  ghost predicate RoomForChange(c: Item, n: nat, amount: nat, currency: seq<Kind>, flags: Flags)
    requires GoodCurrency(currency)
  {
    && (forall i :: 0 <= i < |currency| ==> Carried(c, currency[i]))
    && (flags.noLimit || n + StacksNeeded(amount, currency) <= c.capacity)
  }

  lemma NeededStep(money: nat, currency: seq<Kind>, i: nat)
    requires i < |currency| && GoodCurrency(currency[i..])
    ensures currency[i].worth > 0 && GoodCurrency(currency[i + 1..])
    ensures Coins(money, currency[i].worth) * currency[i].worth <= money
    ensures StacksNeeded(money, currency[i..]) == Stacks(Coins(money, currency[i].worth))
      + StacksNeeded(money - Coins(money, currency[i].worth) * currency[i].worth, currency[i + 1..])
    ensures Stacks(0) == 0
  {
    assert currency[i..][0] == currency[i] && currency[i..][1..] == currency[i + 1..];
    CoinsCover(money, currency[i].worth);
  }

  lemma EmptyDrop()
    ensures DroppedWorth([]) == 0 && Handy([])
  {
  }

  lemma NothingLeft(money: nat, rest: seq<Kind>)
    requires rest == []
    ensures GoodCurrency(rest) && Leftover(money, rest) == money
  {
  }

  lemma LeftoverStep(money: nat, currency: seq<Kind>, i: nat)
    requires i < |currency| && GoodCurrency(currency[i..])
    ensures currency[i].worth > 0 && currency[i].stackable && !currency[i].container
    ensures CoinValue(currency[i]) == currency[i].worth
    ensures GoodCurrency(currency[i + 1..]) && Coins(money, currency[i].worth) * currency[i].worth <= money
    ensures Leftover(money, currency[i..]) ==
      Leftover(money - Coins(money, currency[i].worth) * currency[i].worth, currency[i + 1..])
  {
    assert currency[i..][0] == currency[i] && currency[i..][1..] == currency[i + 1..];
    CoinsCover(money, currency[i].worth);
  }
}
