/** The market's deliveries and payments on the item heap: what `Market` counts is what happens to the
    items. */
module MarketHeap {
  import opened Forest
  import opened Ledger
  import opened Queries
  import opened Moves
  import opened Purse
  import opened Money
  import Payment
  import Market

  // ---------------------------------------------------------------- deliveries

  /** An inbox is asked without a limit: it takes whatever can be picked up, as a new entry in front.
      It never merges stacks. */
  method InboxAddItem(inbox: Item, kind: Kind, count: nat, capacity: nat, ghost s: set<Item>) returns (ok: bool, ghost s': set<Item>)
    requires Valid(Snapshot(s)) && inbox in s && inbox.kind.container
    requires kind.stackable ==> 1 <= count <= MAX_STACK && !kind.container
    modifies s
    ensures ok == kind.pickupable && s <= s' && fresh(s' - s) && Valid(Snapshot(s'))
    ensures ok ==> Booked(old(Snapshot(s)), Snapshot(s'), inbox, kind, count) && KeepsOthers(old(Snapshot(s)), Snapshot(s'), kind, null)
    ensures !ok ==> s' == s && Snapshot(s) == old(Snapshot(s))
    ensures inbox.kind == old(inbox.kind)
  {
    hide Valid, Booked, KeepsOthers, CanHang;
    ghost var h := Snapshot(s);
    var item := new Item(kind, count, capacity, true);
    s' := s;
    if !kind.pickupable {
      return false, s;
    }
    s' := s + {item};
    assert Snapshot(s') == WithItem(h, item, kind, count);
    NewInHeap(h, Snapshot(s'), item, kind, count, inbox);
    ghost var m := Snapshot(s');
    PutWhole(inbox, WHEREEVER, item, s');
    NewBooked(h, m, Snapshot(s'), item, kind, count, inbox);
    assert h[inbox] == old(inbox.State()) && Snapshot(s')[inbox] == inbox.State();
    ok := true;
  }

  lemma NewInHeap(h: Heap, m: Heap, x: Item, kind: Kind, count: nat, c: Item)
    requires Valid(h) && x !in h && c in h && h[c].kind.container && m == WithItem(h, x, kind, count)
    requires kind.stackable ==> 1 <= count <= MAX_STACK && !kind.container
    ensures Valid(m) && CanHang(m, c, x)
  {
    WithItemValid(h, x, kind, count);
    WithItemHang(h, x, kind, count, c);
  }

  lemma NewBooked(h: Heap, m: Heap, g: Heap, x: Item, kind: Kind, count: nat, c: Item)
    requires Valid(h) && x !in h && c in h && m == WithItem(h, x, kind, count)
    requires Booked(m, g, c, kind, count) && KeepsOthers(m, g, kind, x)
    ensures Booked(h, g, c, kind, count) && KeepsOthers(h, g, kind, null) && g[c].kind == h[c].kind
  {
    hide CachesAgree, StackBounds, Holds;
    WithItemBooked(h, x, kind, count, c, kind);
    BookedTwice(h, m, g, c, kind, 0, count);
    forall y | y in h ensures m[y] == h[y] {}
  }

  /** All of the amount arrives in the inbox, in stacks of at most 100 or one by one, or nothing does. */
  method Deliver(inbox: Item, kind: Kind, amount: nat, capacity: nat, ghost s: set<Item>) returns (ghost s': set<Item>)
    requires Valid(Snapshot(s)) && inbox in s && inbox.kind.container && (kind.stackable ==> !kind.container)
    modifies s
    ensures s <= s' && fresh(s' - s) && Valid(Snapshot(s'))
    ensures kind.pickupable ==>
      Booked(old(Snapshot(s)), Snapshot(s'), inbox, kind, amount) && KeepsOthers(old(Snapshot(s)), Snapshot(s'), kind, null)
    ensures !kind.pickupable ==> s' == s && Snapshot(s) == old(Snapshot(s))
  {
    hide Valid, Booked, KeepsOthers;
    ghost var h := Snapshot(s);
    s' := s;
    var tmpAmount := amount;
    NothingBooked(h, inbox, kind);
    while tmpAmount > 0
      invariant 0 <= tmpAmount <= amount && s <= s' && fresh(s' - s) && Valid(Snapshot(s')) && inbox.kind.container
      invariant Booked(h, Snapshot(s'), inbox, kind, amount - tmpAmount) && KeepsOthers(h, Snapshot(s'), kind, null)
      invariant !kind.pickupable ==> s' == s && Snapshot(s) == h
      invariant inbox in s'
    {
      var stackCount := if kind.stackable then Min(MAX_STACK, tmpAmount) else 1;
      ghost var m := Snapshot(s');
      var ok;
      ok, s' := InboxAddItem(inbox, kind, stackCount, capacity, s');
      if !ok {
        return;
      }
      MoreBooked(h, m, Snapshot(s'), inbox, kind, amount - tmpAmount, stackCount);
      tmpAmount := tmpAmount - stackCount;
    }
  }

  lemma NothingBooked(h: Heap, c: Item, k: Kind)
    ensures Booked(h, h, c, k, 0) && KeepsOthers(h, h, k, null)
  {
  }

  lemma MoreBooked(h: Heap, m: Heap, g: Heap, c: Item, k: Kind, a: nat, b: nat)
    requires Booked(h, m, c, k, a) && Booked(m, g, c, k, b) && KeepsOthers(h, m, k, null) && KeepsOthers(m, g, k, null) && c in m
    ensures Booked(h, g, c, k, a + b) && KeepsOthers(h, g, k, null)
  {
    hide Holds;
    BookedTwice(h, m, g, c, k, a, b);
    forall x | x in h ensures m[x].kind == h[x].kind && g[x].kind == m[x].kind {}
  }

  // ---------------------------------------------------------------- payments

  /** The worth of some containers does not depend on the order in which they are listed. */
  lemma {:induction false} PurseSameSet(h: Heap, a: seq<Item>, b: seq<Item>)
    requires NoDup(a) && NoDup(b) && Payment.Members(a) == Payment.Members(b)
    ensures PurseOf(h, a) == PurseOf(h, b)
    decreases |a|
  {
    if a == [] {
      SomeMember(b);
    } else {
      var x := a[0];
      assert x in Payment.Members(b);
      var i :| 0 <= i < |b| && b[i] == x;
      var rest := b[..i] + b[i + 1..];
      SameRest(a, b, i);
      PurseSameSet(h, a[1..], rest);
      PurseSplit(h, b[..i], b[i + 1..]);
      PurseSplit(h, b[..i], [x] + b[i + 1..]);
      assert b == b[..i] + ([x] + b[i + 1..]) && ([x] + b[i + 1..])[1..] == b[i + 1..];
    }
  }

  lemma SomeMember(b: seq<Item>)
    ensures b != [] ==> b[0] in Payment.Members(b)
  {
  }

  lemma SameRest(a: seq<Item>, b: seq<Item>, i: nat)
    requires NoDup(a) && NoDup(b) && Payment.Members(a) == Payment.Members(b) && a != [] && i < |b| && b[i] == a[0]
    ensures var rest := b[..i] + b[i + 1..]; NoDup(a[1..]) && NoDup(rest) && Payment.Members(a[1..]) == Payment.Members(rest)
  {
    var rest := b[..i] + b[i + 1..];
    forall y | y in a[1..] ensures y in rest {
      assert y in Payment.Members(b);
      var j :| 0 <= j < |b| && b[j] == y;
      assert rest[if j < i then j else j - 1] == y;
    }
    forall y | y in rest ensures y in a[1..] {
      var j :| 0 <= j < |rest| && rest[j] == y;
      assert y == b[if j < i then j else j + 1];
      assert y in Payment.Members(a);
      var k :| 0 <= k < |a| && a[k] == y;
      assert a[1..][k - 1] == y;
    }
  }

  /** A sum is taken from the coins carried as far as they go and from the bank for the rest. */
  method Debit(cylinder: Item, bank: nat, sum: nat, currency: seq<Kind>, flags: Flags, ghost s: set<Item>)
    returns (ok: bool, bank': nat, dropped: seq<Stack>, ghost boxes: seq<Item>, ghost s': set<Item>)
    requires Valid(Snapshot(s)) && Payment.PlainCoins(Snapshot(s)) && cylinder in s && cylinder.kind.container
    requires Payment.MakesChange(currency)
    modifies s
    ensures s <= s' && fresh(s' - s) && Valid(Snapshot(s')) && Handy(dropped)
    ensures Payment.Found(old(Snapshot(s)), cylinder, boxes, |boxes|, 0)
    ensures PurseOf(old(Snapshot(s)), boxes) >= 0
    ensures ok <==> sum <= PurseOf(old(Snapshot(s)), boxes) + bank
    ensures ok ==> PurseOf(Snapshot(s'), boxes) + DroppedWorth(dropped) >= 0
    ensures ok ==>
      Market.Account(PurseOf(Snapshot(s'), boxes) + DroppedWorth(dropped), bank', map[])
        == Market.Paid(Market.Account(PurseOf(old(Snapshot(s)), boxes), bank, map[]), sum)
    ensures !ok ==> s' == s && Snapshot(s) == old(Snapshot(s)) && bank' == bank && dropped == []
  {
    hide Valid, Payment.PlainCoins, Payment.Found, Payment.Collected, Payment.BoxesOf, Payment.CoinsOf, PurseOf, DroppedWorth, Handy, Payment.MakesChange;
    ghost var h := Snapshot(s);
    Payment.ValidShaped(h);
    var found, coins, money := Payment.GatherMoney(cylinder, s);
    Payment.AllCoins(h, found, coins);
    Payment.FoundNow(h, cylinder, found, |found|, 0);
    boxes, bank', dropped, s' := found, bank, [], s;
    NothingDropped();
    if sum > money + bank {
      return false, bank, [], boxes, s;
    }
    var debitCash := Min(money, sum);
    var paid;
    ghost var change, last, spent;
    paid, dropped, boxes, spent, last, change, s' := Payment.RemoveMoney(cylinder, debitCash, currency, flags, s);
    Payment.FoundNow(h, cylinder, boxes, |boxes|, 0);
    PurseSameSet(h, found, boxes);
    ok, bank' := true, bank - (sum - debitCash);
  }

  lemma NothingDropped()
    ensures DroppedWorth([]) == 0 && Handy([])
  {
  }
}
