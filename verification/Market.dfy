/** The market: offers are created, accepted, cancelled and expire; money and wares move between
    players' accounts and the open offers. */
module Market {

  datatype Action = BUY | SELL

  /** A row of the offer table. */
  datatype Offer = Offer(id: nat, owner: nat, action: Action, item: nat, amount: nat, price: nat)

  /** A player: coins carried, bank balance, and marketable units in depot and inbox by ware. */
  datatype Account = Account(cash: nat, bank: nat, stock: map<nat, nat>)

  /** The whole market. Rows selected for expiry wait for their turn with the amounts they had then. */
  datatype Market = Market(accounts: seq<Account>, offers: seq<Offer>, selected: seq<Offer>, nextId: nat, fees: nat)

  /** The item types and what each player is: which ware an item counts as (0 for none), whether it
      is still a known type, stacks and can be picked up; which account a player belongs to and
      whether the player can be loaded. */
  datatype World = World(
    wareOf: nat -> nat, known: nat -> bool, stackable: nat -> bool, pickupable: nat -> bool,
    accountOf: nat -> nat, loadable: nat -> bool)

  const MAX_AMOUNT := 64000
  const MAX_PRICE := 999999999
  const MAX_UNSTACKABLE := 2000
  const MIN_FEE := 20
  const MAX_FEE := 1000

  function Min(a: nat, b: nat): nat {
    if a < b then a else b
  }

  // ---------------------------------------------------------------- totals

  function Units(a: Account, ware: nat): nat {
    if ware in a.stock then a.stock[ware] else 0
  }

  function Wealth(accounts: seq<Account>): nat {
    if accounts == [] then 0 else accounts[0].cash + accounts[0].bank + Wealth(accounts[1..])
  }

  function Stocked(accounts: seq<Account>, ware: nat): nat {
    if accounts == [] then 0 else Units(accounts[0], ware) + Stocked(accounts[1..], ware)
  }

  /** Money put down for one offer, and units put down. */
  function Deposit(o: Offer): nat {
    if o.action == BUY then o.price * o.amount else 0
  }

  function Consigned(o: Offer, ware: nat, w: World): nat {
    if o.action == SELL && w.wareOf(o.item) == ware then o.amount else 0
  }

  function Deposits(offers: seq<Offer>): nat {
    if offers == [] then 0 else Deposit(offers[0]) + Deposits(offers[1..])
  }

  function AllConsigned(offers: seq<Offer>, ware: nat, w: World): nat {
    if offers == [] then 0 else Consigned(offers[0], ware, w) + AllConsigned(offers[1..], ware, w)
  }

  /** All cash and bank balances, the money put down for buy offers, and the fees paid. */
  function Money(m: Market): nat {
    Wealth(m.accounts) + Deposits(m.offers) + m.fees
  }

  /** All units of a ware, in stock and on offer. */
  function Wares(m: Market, ware: nat, w: World): nat {
    Stocked(m.accounts, ware) + AllConsigned(m.offers, ware, w)
  }

  // ---------------------------------------------------------------- accounts

  function Paid(a: Account, sum: nat): Account
    requires sum <= a.cash + a.bank
  {
    var debitCash := Min(a.cash, sum);
    a.(cash := a.cash - debitCash, bank := a.bank - (sum - debitCash))
  }

  function Credited(a: Account, sum: nat): Account {
    a.(bank := a.bank + sum)
  }

  function Taken(a: Account, ware: nat, amount: nat): Account
    requires amount <= Units(a, ware)
  {
    a.(stock := a.stock[ware := Units(a, ware) - amount])
  }

  /** New items go to the inbox, which only takes what can be picked up. */
  function Received(a: Account, item: nat, amount: nat, w: World): Account {
    if w.pickupable(item) && amount > 0 then a.(stock := a.stock[w.wareOf(item) := Units(a, w.wareOf(item)) + amount]) else a
  }

  // ---------------------------------------------------------------- the steps

  datatype Op =
    | Create(player: nat, action: Action, item: nat, amount: nat, price: nat, rawFee: nat, admitted: bool)
    | Cancel(player: nat, row: nat)
    | Accept(player: nat, row: nat, amount: nat, hasDepot: bool)
    | Select(expired: nat -> bool)
    | Expire

  function Fee(rawFee: nat): nat {
    if rawFee < MIN_FEE then MIN_FEE else if rawFee > MAX_FEE then MAX_FEE else rawFee
  }

  predicate MayCreate(item: nat, amount: nat, price: nat, w: World) {
    && 1 <= amount <= MAX_AMOUNT && 1 <= price <= MAX_PRICE
    && w.known(item) && w.wareOf(item) != 0 && (!w.stackable(item) ==> amount <= MAX_UNSTACKABLE)
  }

  /** A seller puts down the wares and pays the fee; a buyer puts down the price as well. */
  function Created(m: Market, p: nat, action: Action, item: nat, amount: nat, price: nat, fee: nat, w: World): Market
    requires p < |m.accounts|
  {
    var a, o := m.accounts[p], Offer(m.nextId, p, action, item, amount, price);
    if action == SELL then
      if fee > a.cash + a.bank || amount > Units(a, w.wareOf(item)) then m
      else Opened(m, p, Paid(Taken(a, w.wareOf(item), amount), fee), o, fee)
    else if price * amount + fee > a.cash + a.bank then m
    else Opened(m, p, Paid(a, price * amount + fee), o, fee)
  }

  function Opened(m: Market, p: nat, a: Account, o: Offer, fee: nat): Market
    requires p < |m.accounts|
  {
    m.(accounts := m.accounts[p := a], offers := m.offers + [o], nextId := m.nextId + 1, fees := m.fees + fee)
  }

  function Without(offers: seq<Offer>, i: nat): seq<Offer>
    requires i < |offers|
  {
    offers[..i] + offers[i + 1..]
  }

  /** The offer is returned to its owner and closed. */
  function Returned(m: Market, i: nat, amount: nat, w: World): Market
    requires i < |m.offers| && m.offers[i].owner < |m.accounts|
  {
    var o := m.offers[i];
    var a := m.accounts[o.owner];
    var a' := if o.action == BUY then Credited(a, o.price * amount) else Received(a, o.item, amount, w);
    m.(accounts := m.accounts[o.owner := a'], offers := Without(m.offers, i))
  }

  function Cancelled(m: Market, p: nat, i: nat, w: World): Market
    requires i < |m.offers| && m.offers[i].owner < |m.accounts|
  {
    var o := m.offers[i];
    if o.owner != p then m
    else if o.action == SELL && !w.known(o.item) then m
    else Returned(m, i, o.amount, w)
  }

  function Reduced(offers: seq<Offer>, i: nat, amount: nat): seq<Offer>
    requires i < |offers| && amount <= offers[i].amount
  {
    if amount == offers[i].amount then Without(offers, i)
    else offers[i := offers[i].(amount := offers[i].amount - amount)]
  }

  /** The amount is on offer, the two players have different accounts, and p has what the other
      side asks for: the wares, or the money. */
  predicate MayAccept(m: Market, p: nat, i: nat, amount: nat, hasDepot: bool, w: World)
    requires p < |m.accounts| && i < |m.offers| && m.offers[i].owner < |m.accounts|
  {
    var o := m.offers[i];
    && 1 <= amount <= MAX_AMOUNT && amount <= o.amount && w.known(o.item) && w.accountOf(o.owner) != w.accountOf(p)
    && if o.action == BUY then hasDepot && amount <= Units(m.accounts[p], w.wareOf(o.item)) && w.loadable(o.owner)
       else o.price * amount <= m.accounts[p].cash + m.accounts[p].bank
  }

  /** p sells to a buy offer, or buys from a sell offer. */
  function Accepted(m: Market, p: nat, i: nat, amount: nat, hasDepot: bool, w: World): Market
    requires p < |m.accounts| && i < |m.offers| && m.offers[i].owner < |m.accounts|
  {
    var o := m.offers[i];
    if !MayAccept(m, p, i, amount, hasDepot, w) then m
    else if o.action == BUY then
      Traded(m, i, amount, p, Credited(Taken(m.accounts[p], w.wareOf(o.item), amount), o.price * amount),
             o.owner, Received(m.accounts[o.owner], o.item, amount, w))
    else
      Traded(m, i, amount, p, Received(Paid(m.accounts[p], o.price * amount), o.item, amount, w),
             o.owner, Credited(m.accounts[o.owner], o.price * amount))
  }

  function Traded(m: Market, i: nat, amount: nat, p: nat, a: Account, q: nat, b: Account): Market
    requires p < |m.accounts| && q < |m.accounts| && i < |m.offers| && amount <= m.offers[i].amount
  {
    m.(accounts := m.accounts[p := a][q := b], offers := Reduced(m.offers, i, amount))
  }

  function Filtered(offers: seq<Offer>, expired: nat -> bool): seq<Offer> {
    if offers == [] then [] else (if expired(offers[0].id) then [offers[0]] else []) + Filtered(offers[1..], expired)
  }

  /** The row with the given id, or the length of the list. */
  function RowOf(offers: seq<Offer>, id: nat): (i: nat)
    ensures i <= |offers| && (i < |offers| ==> offers[i].id == id)
    ensures forall j :: 0 <= j < i ==> offers[j].id != id
  {
    if offers == [] || offers[0].id == id then 0 else 1 + RowOf(offers[1..], id)
  }

  /** Whether the wares of an expired sell offer reach their owner. */
  predicate Deliverable(o: Offer, w: World) {
    w.known(o.item) && w.loadable(o.owner) && w.pickupable(o.item)
  }

  /** The first selected row expires: the offer is closed, and what the row says is returned. */
  function Expired(m: Market, w: World): Market
    requires m.selected != [] && forall i :: 0 <= i < |m.offers| ==> m.offers[i].owner < |m.accounts|
  {
    var row, rest := m.selected[0], m.(selected := m.selected[1..]);
    var i := RowOf(m.offers, row.id);
    if i == |m.offers| then rest
    else if row.action == SELL && !Deliverable(row, w) then rest.(offers := Without(m.offers, i))
    else Returned(rest, i, row.amount, w)
  }

  /** Owners exist, rows have their own ids, and a selected row differs from its offer at most in
      the amount, which can only have gone down. */
  predicate Sound(m: Market) {
    && (forall i :: 0 <= i < |m.offers| ==> m.offers[i].owner < |m.accounts| && m.offers[i].id < m.nextId)
    && (forall i, j :: 0 <= i < j < |m.offers| ==> m.offers[i].id != m.offers[j].id)
    && (forall k :: 0 <= k < |m.selected| ==> m.selected[k].id < m.nextId)
    && forall k, i :: 0 <= k < |m.selected| && 0 <= i < |m.offers| && m.selected[k].id == m.offers[i].id ==>
         Snapshot(m.selected[k], m.offers[i])
  }

  /** The row is what the offer was at some time before. */
  predicate Snapshot(row: Offer, o: Offer) {
    o == row.(amount := o.amount) && o.amount <= row.amount
  }

  function Step(m: Market, op: Op, w: World): Market
    requires Sound(m)
  {
    match op
    case Create(p, action, item, amount, price, rawFee, admitted) =>
      if p < |m.accounts| && admitted && MayCreate(item, amount, price, w)
      then Created(m, p, action, item, amount, price, Fee(rawFee), w) else m
    case Cancel(p, row) => if row < |m.offers| then Cancelled(m, p, row, w) else m
    case Accept(p, row, amount, hasDepot) =>
      if p < |m.accounts| && row < |m.offers| then Accepted(m, p, row, amount, hasDepot, w) else m
    case Select(expired) => m.(selected := m.selected + Filtered(m.offers, expired))
    case Expire => if m.selected != [] then Expired(m, w) else m
  }

  // ---------------------------------------------------------------- sums under change

  lemma {:induction false} WealthChanged(accounts: seq<Account>, p: nat, a: Account)
    requires p < |accounts|
    ensures Wealth(accounts[p := a]) == Wealth(accounts) - (accounts[p].cash + accounts[p].bank) + (a.cash + a.bank)
    ensures Wealth(accounts) >= accounts[p].cash + accounts[p].bank
    decreases p
  {
    if p > 0 {
      WealthChanged(accounts[1..], p - 1, a);
      assert accounts[p := a][1..] == accounts[1..][p - 1 := a];
    } else {
      assert accounts[p := a][1..] == accounts[1..];
    }
  }

  lemma {:induction false} StockedChanged(accounts: seq<Account>, p: nat, a: Account, ware: nat)
    requires p < |accounts|
    ensures Stocked(accounts[p := a], ware) == Stocked(accounts, ware) - Units(accounts[p], ware) + Units(a, ware)
    ensures Stocked(accounts, ware) >= Units(accounts[p], ware)
    decreases p
  {
    hide Units;
    if p > 0 {
      StockedChanged(accounts[1..], p - 1, a, ware);
      assert accounts[p := a][1..] == accounts[1..][p - 1 := a];
    } else {
      assert accounts[p := a][1..] == accounts[1..];
    }
  }

  lemma {:induction false} OffersSplit(a: seq<Offer>, b: seq<Offer>, ware: nat, w: World)
    ensures Deposits(a + b) == Deposits(a) + Deposits(b)
    ensures AllConsigned(a + b, ware, w) == AllConsigned(a, ware, w) + AllConsigned(b, ware, w)
    decreases |a|
  {
    hide Deposit, Consigned;
    if a == [] {
      assert a + b == b;
    } else {
      OffersSplit(a[1..], b, ware, w);
      assert (a + b)[1..] == a[1..] + b;
    }
  }

  lemma OffersMore(offers: seq<Offer>, o: Offer, ware: nat, w: World)
    ensures Deposits(offers + [o]) == Deposits(offers) + Deposit(o)
    ensures AllConsigned(offers + [o], ware, w) == AllConsigned(offers, ware, w) + Consigned(o, ware, w)
  {
    hide Deposit, Consigned;
    OffersSplit(offers, [o], ware, w);
    assert Deposits([o]) == Deposit(o) + Deposits([]) && AllConsigned([o], ware, w) == Consigned(o, ware, w) + AllConsigned([], ware, w);
  }

  lemma OffersWithout(offers: seq<Offer>, i: nat, ware: nat, w: World)
    requires i < |offers|
    ensures Deposits(Without(offers, i)) == Deposits(offers) - Deposit(offers[i])
    ensures AllConsigned(Without(offers, i), ware, w) == AllConsigned(offers, ware, w) - Consigned(offers[i], ware, w)
  {
    hide Deposit, Consigned;
    var a, b := offers[..i], offers[i + 1..];
    OffersSplit(a, [offers[i]] + b, ware, w);
    OffersSplit([offers[i]], b, ware, w);
    OffersSplit(a, b, ware, w);
    assert a + ([offers[i]] + b) == offers;
    OffersMore([], offers[i], ware, w);
    assert [] + [offers[i]] == [offers[i]];
  }

  lemma Difference(p: nat, a: nat, b: nat)
    requires b <= a
    ensures p * (a - b) == p * a - p * b && p * b <= p * a
  {
  }

  /** What an offer of some units more or less puts down. */
  lemma DepositLess(o: Offer, amount: nat, ware: nat, w: World)
    requires amount <= o.amount
    ensures var o' := o.(amount := o.amount - amount);
      && Deposit(o') == Deposit(o) - (if o.action == BUY then o.price * amount else 0)
      && Consigned(o', ware, w) == Consigned(o, ware, w) - (if o.action == SELL && w.wareOf(o.item) == ware then amount else 0)
    ensures amount == o.amount ==> Deposit(o) == if o.action == BUY then o.price * amount else 0
  {
    Difference(o.price, o.amount, amount);
  }

  lemma OffersReduced(offers: seq<Offer>, i: nat, amount: nat, ware: nat, w: World)
    requires i < |offers| && amount <= offers[i].amount
    ensures var o := offers[i];
      && Deposits(Reduced(offers, i, amount)) == Deposits(offers) - (if o.action == BUY then o.price * amount else 0)
      && AllConsigned(Reduced(offers, i, amount), ware, w)
         == AllConsigned(offers, ware, w) - (if o.action == SELL && w.wareOf(o.item) == ware then amount else 0)
  {
    hide Deposit, Deposits, AllConsigned;
    var o := offers[i];
    var o' := o.(amount := o.amount - amount);
    DepositLess(o, amount, ware, w);
    OffersWithout(offers, i, ware, w);
    OffersWithout(offers[i := o'], i, ware, w);
    assert Without(offers[i := o'], i) == Without(offers, i);
  }

  // ---------------------------------------------------------------- one account

  lemma PaidParts(a: Account, sum: nat)
    requires sum <= a.cash + a.bank
    ensures var b := Paid(a, sum); b.cash + b.bank == a.cash + a.bank - sum && b.stock == a.stock
  {
  }

  lemma ReceivedParts(a: Account, item: nat, amount: nat, w: World, ware: nat)
    ensures var b := Received(a, item, amount, w);
      && b.cash == a.cash && b.bank == a.bank
      && Units(b, ware) == Units(a, ware) + if w.pickupable(item) && w.wareOf(item) == ware then amount else 0
  {
  }

  lemma TakenParts(a: Account, ware': nat, amount: nat, ware: nat)
    requires amount <= Units(a, ware')
    ensures var b := Taken(a, ware', amount);
      && b.cash == a.cash && b.bank == a.bank
      && Units(b, ware) == Units(a, ware) - if ware' == ware then amount else 0
  {
  }

  // ---------------------------------------------------------------- what each step keeps

  /** Money that appears, or disappears, in a step: none but when an offer expires that was partly
      accepted after its row had been selected. */
  function Excess(m: Market, op: Op): int {
    if op.Expire? && m.selected != [] && RowOf(m.offers, m.selected[0].id) < |m.offers| && m.selected[0].action == BUY
    then m.selected[0].price * (m.selected[0].amount - m.offers[RowOf(m.offers, m.selected[0].id)].amount)
    else 0
  }

  /** Units of a ware that appear, or, when negative, get lost in a step. */
  function Gain(m: Market, op: Op, ware: nat, w: World): int
    requires Sound(m)
  {
    match op
    case Create(_, _, _, _, _, _, _) => 0
    case Cancel(p, row) =>
      if row < |m.offers| && m.offers[row].owner == p && m.offers[row].action == SELL && w.known(m.offers[row].item)
         && !w.pickupable(m.offers[row].item) && w.wareOf(m.offers[row].item) == ware
      then 0 - m.offers[row].amount else 0
    case Accept(p, row, amount, hasDepot) =>
      if p < |m.accounts| && row < |m.offers| && MayAccept(m, p, row, amount, hasDepot, w)
         && !w.pickupable(m.offers[row].item) && w.wareOf(m.offers[row].item) == ware
      then 0 - amount else 0
    case Select(_) => 0
    case Expire =>
      if m.selected == [] then 0
      else
        var row := m.selected[0];
        var i := RowOf(m.offers, row.id);
        if i == |m.offers| || row.action == BUY || w.wareOf(row.item) != ware then 0
        else if Deliverable(row, w) then row.amount - m.offers[i].amount
        else 0 - m.offers[i].amount
  }

  lemma CreatedKeeps(m: Market, p: nat, action: Action, item: nat, amount: nat, price: nat, fee: nat, w: World, ware: nat)
    requires p < |m.accounts|
    ensures var m' := Created(m, p, action, item, amount, price, fee, w);
      Money(m') == Money(m) && Wares(m', ware, w) == Wares(m, ware, w)
  {
    hide Units, Paid, Taken, Wealth, Stocked, Deposits, AllConsigned;
    var a, o := m.accounts[p], Offer(m.nextId, p, action, item, amount, price);
    OffersMore(m.offers, o, ware, w);
    if action == SELL {
      if fee <= a.cash + a.bank && amount <= Units(a, w.wareOf(item)) {
        var b := Taken(a, w.wareOf(item), amount);
        TakenParts(a, w.wareOf(item), amount, ware);
        PaidParts(b, fee);
        SameStock(b, Paid(b, fee), ware);
        WealthChanged(m.accounts, p, Paid(b, fee));
        StockedChanged(m.accounts, p, Paid(b, fee), ware);
      }
    } else if price * amount + fee <= a.cash + a.bank {
      PaidParts(a, price * amount + fee);
      SameStock(a, Paid(a, price * amount + fee), ware);
      WealthChanged(m.accounts, p, Paid(a, price * amount + fee));
      StockedChanged(m.accounts, p, Paid(a, price * amount + fee), ware);
    }
  }

  lemma SameStock(a: Account, b: Account, ware: nat)
    requires a.stock == b.stock
    ensures Units(a, ware) == Units(b, ware)
  {
  }

  /** Closing an offer and returning some amount to its owner. */
  lemma ReturnedKeeps(m: Market, i: nat, amount: nat, w: World, ware: nat)
    requires i < |m.offers| && m.offers[i].owner < |m.accounts|
    ensures var o, m' := m.offers[i], Returned(m, i, amount, w);
      && Money(m') == Money(m) + (if o.action == BUY then o.price * amount - o.price * o.amount else 0)
      && Wares(m', ware, w) == Wares(m, ware, w) +
           (if o.action == SELL && w.wareOf(o.item) == ware then (if w.pickupable(o.item) then amount else 0) - o.amount else 0)
  {
    hide Units, Received, Wealth, Stocked, Deposits, AllConsigned, Without;
    var o := m.offers[i];
    var a := m.accounts[o.owner];
    OffersWithout(m.offers, i, ware, w);
    ReceivedParts(a, o.item, amount, w, ware);
    SameStock(a, Credited(a, o.price * amount), ware);
    var a' := if o.action == BUY then Credited(a, o.price * amount) else Received(a, o.item, amount, w);
    WealthChanged(m.accounts, o.owner, a');
    StockedChanged(m.accounts, o.owner, a', ware);
  }

  lemma TradedKeeps(m: Market, i: nat, amount: nat, p: nat, a: Account, q: nat, b: Account, w: World, ware: nat)
    requires p < |m.accounts| && q < |m.accounts| && p != q && i < |m.offers| && amount <= m.offers[i].amount
    ensures var o, m' := m.offers[i], Traded(m, i, amount, p, a, q, b);
      && Money(m') == Money(m) - (m.accounts[p].cash + m.accounts[p].bank) + (a.cash + a.bank)
           - (m.accounts[q].cash + m.accounts[q].bank) + (b.cash + b.bank)
           - (if o.action == BUY then o.price * amount else 0)
      && Wares(m', ware, w) == Wares(m, ware, w) - Units(m.accounts[p], ware) + Units(a, ware)
           - Units(m.accounts[q], ware) + Units(b, ware)
           - (if o.action == SELL && w.wareOf(o.item) == ware then amount else 0)
  {
    hide Units, Wealth, Stocked, Deposits, AllConsigned, Reduced;
    OffersReduced(m.offers, i, amount, ware, w);
    WealthChanged(m.accounts, p, a);
    WealthChanged(m.accounts[p := a], q, b);
    StockedChanged(m.accounts, p, a, ware);
    StockedChanged(m.accounts[p := a], q, b, ware);
  }

  lemma AcceptedKeeps(m: Market, p: nat, i: nat, amount: nat, hasDepot: bool, w: World, ware: nat)
    requires p < |m.accounts| && i < |m.offers| && m.offers[i].owner < |m.accounts|
    ensures var o, m' := m.offers[i], Accepted(m, p, i, amount, hasDepot, w);
      && Money(m') == Money(m)
      && Wares(m', ware, w) == Wares(m, ware, w) -
           (if MayAccept(m, p, i, amount, hasDepot, w) && !w.pickupable(o.item) && w.wareOf(o.item) == ware then amount else 0)
  {
    hide Units, Received, Taken, Paid, Money, Wares, Traded;
    var o := m.offers[i];
    if MayAccept(m, p, i, amount, hasDepot, w) {
      var a, b, total := m.accounts[p], m.accounts[o.owner], o.price * amount;
      if o.action == BUY {
        var a1, b1 := Taken(a, w.wareOf(o.item), amount), Received(b, o.item, amount, w);
        TakenParts(a, w.wareOf(o.item), amount, ware);
        SameStock(a1, Credited(a1, total), ware);
        ReceivedParts(b, o.item, amount, w, ware);
        TradedKeeps(m, i, amount, p, Credited(a1, total), o.owner, b1, w, ware);
      } else {
        var a1 := Paid(a, total);
        PaidParts(a, total);
        SameStock(a, a1, ware);
        ReceivedParts(a1, o.item, amount, w, ware);
        SameStock(b, Credited(b, total), ware);
        TradedKeeps(m, i, amount, p, Received(a1, o.item, amount, w), o.owner, Credited(b, total), w, ware);
      }
    }
  }

  lemma ExpiredKeeps(m: Market, w: World, ware: nat)
    requires Sound(m) && m.selected != []
    ensures var m' := Expired(m, w);
      Money(m') == Money(m) + Excess(m, Expire) && Wares(m', ware, w) == Wares(m, ware, w) + Gain(m, Expire, ware, w)
  {
    hide Wealth, Stocked, Deposits, AllConsigned, Without, Returned;
    var row, rest := m.selected[0], m.(selected := m.selected[1..]);
    var i := RowOf(m.offers, row.id);
    if i < |m.offers| {
      var o := m.offers[i];
      assert Snapshot(row, o);
      Difference(o.price, row.amount, o.amount);
      ReturnedKeeps(rest, i, row.amount, w, ware);
      OffersWithout(m.offers, i, ware, w);
    }
  }

  /** In every step the money stays the same but for the excess, and each ware but for the gain. */
  lemma StepKeeps(m: Market, op: Op, w: World, ware: nat)
    requires Sound(m)
    ensures Money(Step(m, op, w)) == Money(m) + Excess(m, op)
    ensures Wares(Step(m, op, w), ware, w) == Wares(m, ware, w) + Gain(m, op, ware, w)
  {
    match op
    case Create(p, action, item, amount, price, rawFee, admitted) =>
      if p < |m.accounts| && admitted && MayCreate(item, amount, price, w) {
        CreatedKeeps(m, p, action, item, amount, price, Fee(rawFee), w, ware);
      }
    case Cancel(p, row) =>
      if row < |m.offers| {
        ReturnedKeeps(m, row, m.offers[row].amount, w, ware);
      }
    case Accept(p, row, amount, hasDepot) =>
      if p < |m.accounts| && row < |m.offers| {
        AcceptedKeeps(m, p, row, amount, hasDepot, w, ware);
      }
    case Select(_) =>
    case Expire =>
      if m.selected != [] {
        ExpiredKeeps(m, w, ware);
      }
  }

  // ---------------------------------------------------------------- the tables stay sound

  ghost predicate Stems(offers: seq<Offer>, o: Offer) {
    exists i :: 0 <= i < |offers| && Snapshot(offers[i], o)
  }

  lemma StemsFrom(offers: seq<Offer>, i: nat, o: Offer)
    requires i < |offers| && Snapshot(offers[i], o)
    ensures Stems(offers, o)
  {
  }

  /** Every offer of the new list is an offer of the old one, with the same or a smaller amount, and
      rows keep their own ids. */
  ghost predicate Shrunk(offers: seq<Offer>, more: seq<Offer>) {
    && (forall j {:trigger more[j]} :: 0 <= j < |more| ==> Stems(offers, more[j]))
    && (forall i, j :: 0 <= i < j < |more| ==> more[i].id != more[j].id)
  }

  lemma ShrunkSound(m: Market, m': Market)
    requires Sound(m) && |m'.accounts| == |m.accounts| && m'.nextId == m.nextId && Shrunk(m.offers, m'.offers)
    requires m'.selected == m.selected || (m.selected != [] && m'.selected == m.selected[1..])
    ensures Sound(m')
  {
    forall j | 0 <= j < |m'.offers| ensures m'.offers[j].owner < |m'.accounts| && m'.offers[j].id < m'.nextId {
      var i :| 0 <= i < |m.offers| && Snapshot(m.offers[i], m'.offers[j]);
    }
    forall k, j | 0 <= k < |m'.selected| && 0 <= j < |m'.offers| && m'.selected[k].id == m'.offers[j].id
      ensures Snapshot(m'.selected[k], m'.offers[j])
    {
      var i :| 0 <= i < |m.offers| && Snapshot(m.offers[i], m'.offers[j]);
      var k' := if m'.selected == m.selected then k else k + 1;
      assert m.selected[k'] == m'.selected[k];
      assert Snapshot(m.selected[k'], m.offers[i]);
    }
  }

  lemma WithoutShrunk(m: Market, i: nat)
    requires Sound(m) && i < |m.offers|
    ensures Shrunk(m.offers, Without(m.offers, i))
  {
    var more := Without(m.offers, i);
    forall j | 0 <= j < |more| ensures Stems(m.offers, more[j]) {
      StemsFrom(m.offers, if j < i then j else j + 1, more[j]);
    }
  }

  lemma ReducedShrunk(m: Market, i: nat, amount: nat)
    requires Sound(m) && i < |m.offers| && amount <= m.offers[i].amount
    ensures Shrunk(m.offers, Reduced(m.offers, i, amount))
  {
    WithoutShrunk(m, i);
    if amount != m.offers[i].amount {
      var more := Reduced(m.offers, i, amount);
      forall j | 0 <= j < |more| ensures Stems(m.offers, more[j]) {
        StemsFrom(m.offers, j, more[j]);
      }
    }
  }

  lemma SameShrunk(m: Market)
    requires Sound(m)
    ensures Shrunk(m.offers, m.offers)
  {
    forall j | 0 <= j < |m.offers| ensures Stems(m.offers, m.offers[j]) {
      StemsFrom(m.offers, j, m.offers[j]);
    }
  }

  lemma {:induction false} FilteredFrom(offers: seq<Offer>, expired: nat -> bool, k: nat) returns (i: nat)
    requires k < |Filtered(offers, expired)|
    ensures i < |offers| && offers[i] == Filtered(offers, expired)[k]
    decreases |offers|
  {
    if expired(offers[0].id) {
      if k == 0 {
        i := 0;
      } else {
        i := FilteredFrom(offers[1..], expired, k - 1);
        i := i + 1;
      }
    } else {
      i := FilteredFrom(offers[1..], expired, k);
      i := i + 1;
    }
  }

  lemma SelectSound(m: Market, expired: nat -> bool)
    requires Sound(m)
    ensures Sound(m.(selected := m.selected + Filtered(m.offers, expired)))
  {
    var rows := m.selected + Filtered(m.offers, expired);
    forall k | 0 <= k < |rows| ensures rows[k].id < m.nextId
      && forall i {:trigger m.offers[i]} :: 0 <= i < |m.offers| && rows[k].id == m.offers[i].id ==> Snapshot(rows[k], m.offers[i])
    {
      if k < |m.selected| {
        assert rows[k] == m.selected[k];
      } else {
        var i := FilteredFrom(m.offers, expired, k - |m.selected|);
        assert rows[k] == m.offers[i];
      }
    }
  }

  lemma OpenedSound(m: Market, p: nat, a: Account, o: Offer, fee: nat)
    requires Sound(m) && p < |m.accounts| && o.id == m.nextId && o.owner == p
    ensures Sound(Opened(m, p, a, o, fee))
  {
    var m' := Opened(m, p, a, o, fee);
    forall k, i | 0 <= k < |m'.selected| && 0 <= i < |m'.offers| && m'.selected[k].id == m'.offers[i].id
      ensures Snapshot(m'.selected[k], m'.offers[i])
    {
      assert i < |m.offers| && m'.offers[i] == m.offers[i];
    }
  }

  lemma StepSound(m: Market, op: Op, w: World)
    requires Sound(m)
    ensures Sound(Step(m, op, w))
  {
    hide Sound, Shrunk, Without, Reduced, Filtered, MayAccept, MayCreate, Received, Taken, Paid;
    SoundOwners(m);
    SameShrunk(m);
    match op
    case Create(p, action, item, amount, price, rawFee, admitted) =>
      if p < |m.accounts| && admitted && MayCreate(item, amount, price, w) {
        CreateSound(m, p, action, item, amount, price, Fee(rawFee), w);
      }
    case Cancel(p, row) =>
      if row < |m.offers| {
        WithoutShrunk(m, row);
        ShrunkSound(m, Cancelled(m, p, row, w));
      }
    case Accept(p, row, amount, hasDepot) =>
      if p < |m.accounts| && row < |m.offers| {
        AcceptSound(m, p, row, amount, hasDepot, w);
      }
    case Select(expired) => SelectSound(m, expired);
    case Expire =>
      if m.selected != [] {
        ExpireSound(m, w);
      }
  }

  lemma SoundOwners(m: Market)
    requires Sound(m)
    ensures forall i :: 0 <= i < |m.offers| ==> m.offers[i].owner < |m.accounts|
  {
  }

  lemma CreateSound(m: Market, p: nat, action: Action, item: nat, amount: nat, price: nat, fee: nat, w: World)
    requires Sound(m) && p < |m.accounts|
    ensures Sound(Created(m, p, action, item, amount, price, fee, w))
  {
    hide Sound, Opened, Paid, Taken, Units;
    var a, o := m.accounts[p], Offer(m.nextId, p, action, item, amount, price);
    if action == SELL {
      if fee <= a.cash + a.bank && amount <= Units(a, w.wareOf(item)) {
        TakenParts(a, w.wareOf(item), amount, 0);
        OpenedSound(m, p, Paid(Taken(a, w.wareOf(item), amount), fee), o, fee);
      }
    } else if price * amount + fee <= a.cash + a.bank {
      OpenedSound(m, p, Paid(a, price * amount + fee), o, fee);
    }
  }

  lemma AcceptSound(m: Market, p: nat, i: nat, amount: nat, hasDepot: bool, w: World)
    requires Sound(m) && p < |m.accounts| && i < |m.offers| && m.offers[i].owner < |m.accounts|
    ensures Sound(Accepted(m, p, i, amount, hasDepot, w))
  {
    hide Sound, Shrunk, Reduced, Received, Taken, Paid;
    SameShrunk(m);
    if MayAccept(m, p, i, amount, hasDepot, w) {
      ReducedShrunk(m, i, amount);
    }
    ShrunkSound(m, Accepted(m, p, i, amount, hasDepot, w));
  }

  lemma ReturnedSound(m: Market, i: nat, amount: nat, w: World)
    requires Sound(m) && i < |m.offers| && m.offers[i].owner < |m.accounts|
    ensures Sound(Returned(m, i, amount, w)) && Sound(m.(offers := Without(m.offers, i)))
  {
    hide Sound, Shrunk, Without, Received;
    WithoutShrunk(m, i);
    ShrunkSound(m, Returned(m, i, amount, w));
    ShrunkSound(m, m.(offers := Without(m.offers, i)));
  }

  lemma ExpireSound(m: Market, w: World)
    requires Sound(m) && m.selected != [] && forall i :: 0 <= i < |m.offers| ==> m.offers[i].owner < |m.accounts|
    ensures Sound(Expired(m, w))
  {
    hide Sound, Shrunk, Without, Returned, Deliverable;
    var row, rest := m.selected[0], m.(selected := m.selected[1..]);
    SameShrunk(m);
    ShrunkSound(m, rest);
    var i := RowOf(m.offers, row.id);
    if i < |m.offers| {
      ReturnedSound(rest, i, row.amount, w);
    }
  }

  // ---------------------------------------------------------------- runs

  ghost function Run(m: Market, ops: seq<Op>, w: World): (g: Market)
    requires Sound(m)
    ensures Sound(g)
    decreases |ops|
  {
    if ops == [] then m else StepSound(m, ops[0], w); Run(Step(m, ops[0], w), ops[1..], w)
  }

  ghost function TotalExcess(m: Market, ops: seq<Op>, w: World): int
    requires Sound(m)
    decreases |ops|
  {
    if ops == [] then 0 else StepSound(m, ops[0], w); Excess(m, ops[0]) + TotalExcess(Step(m, ops[0], w), ops[1..], w)
  }

  ghost function TotalGain(m: Market, ops: seq<Op>, w: World, ware: nat): int
    requires Sound(m)
    decreases |ops|
  {
    if ops == [] then 0 else StepSound(m, ops[0], w); Gain(m, ops[0], ware, w) + TotalGain(Step(m, ops[0], w), ops[1..], w, ware)
  }

  /** Over every run the money of the whole market, and every ware, are what they were, up to what
      the single steps report. */
  lemma {:induction false} RunKeeps(m: Market, ops: seq<Op>, w: World, ware: nat)
    requires Sound(m)
    ensures Money(Run(m, ops, w)) == Money(m) + TotalExcess(m, ops, w)
    ensures Wares(Run(m, ops, w), ware, w) == Wares(m, ware, w) + TotalGain(m, ops, w, ware)
    decreases |ops|
  {
    hide Sound, Step, Money, Wares, Excess, Gain;
    if ops != [] {
      StepSound(m, ops[0], w);
      StepKeeps(m, ops[0], w, ware);
      RunKeeps(Step(m, ops[0], w), ops[1..], w, ware);
    }
  }

  /** The row that expires next still has the amount it was selected with. */
  predicate Fresh(m: Market) {
    m.selected != [] && RowOf(m.offers, m.selected[0].id) < |m.offers| ==>
      m.offers[RowOf(m.offers, m.selected[0].id)].amount == m.selected[0].amount
  }

  /** In every step of the run, rows expire with the amounts they still have. */
  ghost predicate Timely(m: Market, ops: seq<Op>, w: World)
    requires Sound(m)
    decreases |ops|
  {
    ops == [] || (
      && (ops[0].Expire? ==> Fresh(m))
      && (StepSound(m, ops[0], w); Timely(Step(m, ops[0], w), ops[1..], w)))
  }

  /** No item type is dropped from the catalogue or barred from inboxes, and every player can be loaded. */
  ghost predicate Orderly(w: World) {
    forall x {:trigger w.known(x)} {:trigger w.pickupable(x)} {:trigger w.loadable(x)} :: w.known(x) && w.pickupable(x) && w.loadable(x)
  }

  /** A run whose expiries are timely keeps the money of the whole market, and in an orderly world
      every ware. */
  lemma {:induction false} TimelyRunConserves(m: Market, ops: seq<Op>, w: World, ware: nat)
    requires Sound(m) && Timely(m, ops, w)
    ensures Money(Run(m, ops, w)) == Money(m)
    ensures Orderly(w) ==> Wares(Run(m, ops, w), ware, w) == Wares(m, ware, w)
    decreases |ops|
  {
    hide Sound, Step, Money, Wares;
    if ops != [] {
      StepSound(m, ops[0], w);
      StepKeeps(m, ops[0], w, ware);
      NoExcess(m, ops[0], w, ware);
      TimelyRunConserves(Step(m, ops[0], w), ops[1..], w, ware);
    }
  }

  lemma NoExcess(m: Market, op: Op, w: World, ware: nat)
    requires Sound(m) && (op.Expire? ==> Fresh(m))
    ensures Excess(m, op) == 0 && (Orderly(w) ==> Gain(m, op, ware, w) == 0)
  {
    if op.Accept? && Orderly(w) && op.row < |m.offers| {
      assert w.pickupable(m.offers[op.row].item);
    }
    if op.Cancel? && Orderly(w) && op.row < |m.offers| {
      assert w.pickupable(m.offers[op.row].item);
    }
    if op.Expire? && Orderly(w) && m.selected != [] {
      assert w.known(m.selected[0].item) && w.pickupable(m.selected[0].item) && w.loadable(m.selected[0].owner);
      assert RowOf(m.offers, m.selected[0].id) < |m.offers| ==> m.selected[0].amount - m.offers[RowOf(m.offers, m.selected[0].id)].amount == 0;
    }
  }

  /** An expiring buy offer keeps the money exactly when it has not been partly accepted since its row
      was selected. */
  lemma ExpiryKeepsMoneyIff(m: Market, w: World)
    requires Sound(m) && m.selected != [] && RowOf(m.offers, m.selected[0].id) < |m.offers|
    requires m.selected[0].action == BUY && m.selected[0].price > 0
    ensures Money(Expired(m, w)) == Money(m) <==> Fresh(m)
    ensures Money(Expired(m, w)) >= Money(m)
  {
    hide Money;
    ExpiredKeeps(m, w, 0);
    var row, o := m.selected[0], m.offers[RowOf(m.offers, m.selected[0].id)];
    assert Snapshot(row, o);
    Positive(row.price, row.amount - o.amount);
  }

  lemma Positive(p: nat, d: nat)
    requires p > 0
    ensures p * d >= 0 && (p * d == 0 <==> d == 0)
  {
  }

  /** An expiring sell offer keeps its ware exactly when it has not been partly accepted since, and
      its units can still be delivered. */
  lemma ExpiryKeepsWaresIff(m: Market, w: World)
    requires Sound(m) && m.selected != [] && RowOf(m.offers, m.selected[0].id) < |m.offers|
    requires m.selected[0].action == SELL && m.offers[RowOf(m.offers, m.selected[0].id)].amount > 0
    ensures var ware := w.wareOf(m.selected[0].item);
      Wares(Expired(m, w), ware, w) == Wares(m, ware, w) <==> Deliverable(m.selected[0], w) && Fresh(m)
  {
    hide Wares;
    ExpiredKeeps(m, w, w.wareOf(m.selected[0].item));
    assert Snapshot(m.selected[0], m.offers[RowOf(m.offers, m.selected[0].id)]);
  }

  /** Cancelling a sell offer keeps its ware exactly when the item can still be picked up. */
  lemma CancelKeepsWaresIff(m: Market, p: nat, i: nat, w: World)
    requires Sound(m) && i < |m.offers| && m.offers[i].owner == p && m.offers[i].action == SELL
    requires w.known(m.offers[i].item) && m.offers[i].amount > 0
    ensures var ware := w.wareOf(m.offers[i].item);
      Wares(Cancelled(m, p, i, w), ware, w) == Wares(m, ware, w) <==> w.pickupable(m.offers[i].item)
  {
    hide Wares, Sound, Cancelled;
    StepKeeps(m, Cancel(p, i), w, w.wareOf(m.offers[i].item));
  }

  /** Accepting an offer, of either kind, keeps its ware exactly when the item can still be picked up. */
  lemma AcceptKeepsWaresIff(m: Market, p: nat, i: nat, amount: nat, hasDepot: bool, w: World)
    requires Sound(m) && p < |m.accounts| && i < |m.offers|
    requires m.offers[i].owner < |m.accounts| && MayAccept(m, p, i, amount, hasDepot, w)
    ensures var ware := w.wareOf(m.offers[i].item);
      Wares(Accepted(m, p, i, amount, hasDepot, w), ware, w) == Wares(m, ware, w) <==> w.pickupable(m.offers[i].item)
  {
    hide Wares, Sound, Accepted;
    StepKeeps(m, Accept(p, i, amount, hasDepot), w, w.wareOf(m.offers[i].item));
  }

  lemma {:induction false} FilteredOne(offers: seq<Offer>, i: nat, expired: nat -> bool)
    requires i < |offers| && (forall a, b :: 0 <= a < b < |offers| ==> offers[a].id != offers[b].id)
    requires forall id :: expired(id) <==> id == offers[i].id
    ensures Filtered(offers, expired) == [offers[i]]
    decreases |offers|
  {
    if i == 0 {
      FilteredNone(offers[1..], expired);
    } else {
      FilteredOne(offers[1..], i - 1, expired);
    }
  }

  lemma {:induction false} FilteredNone(offers: seq<Offer>, expired: nat -> bool)
    requires forall a :: 0 <= a < |offers| ==> !expired(offers[a].id)
    ensures Filtered(offers, expired) == []
    decreases |offers|
  {
    if offers != [] {
      FilteredNone(offers[1..], expired);
    }
  }

  lemma RowFound(offers: seq<Offer>, i: nat)
    requires i < |offers| && forall a, b :: 0 <= a < b < |offers| ==> offers[a].id != offers[b].id
    ensures RowOf(offers, offers[i].id) == i
  {
    var j := RowOf(offers, offers[i].id);
  }

  /** A buy offer that is partly accepted between its selection and its expiry is paid back in full:
      the price of the accepted units appears from nowhere. */
  lemma StaleExpiryMakesMoney(m: Market, p: nat, i: nat, amount: nat, hasDepot: bool, expired: nat -> bool, w: World)
    requires Sound(m) && m.selected == [] && i < |m.offers| && p < |m.accounts|
    requires m.offers[i].action == BUY && amount < m.offers[i].amount && MayAccept(m, p, i, amount, hasDepot, w)
    requires forall id :: expired(id) <==> id == m.offers[i].id
    ensures Money(Run(m, [Select(expired), Accept(p, i, amount, hasDepot), Expire], w)) == Money(m) + m.offers[i].price * amount
  {
    hide Money, Sound, Expired, Units, Received, Taken;
    var o, ops := m.offers[i], [Select(expired), Accept(p, i, amount, hasDepot), Expire];
    var m1 := Step(m, ops[0], w);
    StepSound(m, ops[0], w);
    RowsApart(m);
    SoundOwners(m);
    FilteredOne(m.offers, i, expired);
    assert m1.selected == [o];
    var m2 := Step(m1, ops[1], w);
    StepSound(m1, ops[1], w);
    SameAccept(m, m1, p, i, amount, hasDepot, w);
    assert m2.offers == m.offers[i := o.(amount := o.amount - amount)] && m2.selected == [o];
    RowsApart(m2);
    RowFound(m2.offers, i);
    StepKeeps(m, ops[0], w, 0);
    StepKeeps(m1, ops[1], w, 0);
    StepKeeps(m2, ops[2], w, 0);
    assert Excess(m2, Expire) == o.price * amount;
    StepSound(m2, ops[2], w);
    ThreeSteps(m, ops, w);
  }

  lemma RowsApart(m: Market)
    requires Sound(m)
    ensures forall a, b :: 0 <= a < b < |m.offers| ==> m.offers[a].id != m.offers[b].id
  {
  }

  lemma SameAccept(m: Market, m1: Market, p: nat, i: nat, amount: nat, hasDepot: bool, w: World)
    requires m1 == m.(selected := m1.selected) && p < |m.accounts| && i < |m.offers| && m.offers[i].owner < |m.accounts|
    ensures MayAccept(m1, p, i, amount, hasDepot, w) == MayAccept(m, p, i, amount, hasDepot, w)
  {
  }

  lemma ThreeSteps(m: Market, ops: seq<Op>, w: World)
    requires Sound(m) && |ops| == 3
    ensures Sound(Step(m, ops[0], w)) && Sound(Step(Step(m, ops[0], w), ops[1], w))
    ensures Run(m, ops, w) == Step(Step(Step(m, ops[0], w), ops[1], w), ops[2], w)
  {
    hide Sound, Step, Run;
    StepSound(m, ops[0], w);
    var m1 := Step(m, ops[0], w);
    StepSound(m1, ops[1], w);
    var m2 := Step(m1, ops[1], w);
    StepSound(m2, ops[2], w);
    assert ops[1..][1..] == ops[2..] && ops[2..][1..] == [];
    RunStep(m, ops, w);
    RunStep(m1, ops[1..], w);
    RunStep(m2, ops[2..], w);
    RunNothing(Step(m2, ops[2], w), w);
  }

  lemma RunStep(m: Market, ops: seq<Op>, w: World)
    requires Sound(m) && ops != []
    ensures Sound(Step(m, ops[0], w)) && Run(m, ops, w) == Run(Step(m, ops[0], w), ops[1..], w)
  {
    StepSound(m, ops[0], w);
  }

  lemma RunNothing(m: Market, w: World)
    requires Sound(m)
    ensures Run(m, [], w) == m
  {
  }

  /** No balance ever exceeds the money of the whole market. */
  lemma {:induction false} BalanceBound(m: Market, p: nat)
    requires p < |m.accounts|
    ensures m.accounts[p].cash + m.accounts[p].bank <= Money(m)
  {
    WealthChanged(m.accounts, p, m.accounts[p]);
  }

  // ---------------------------------------------------------------- the handlers

  lemma ReceivedMore(a: Account, item: nat, amount: nat, more: nat, w: World)
    requires w.pickupable(item) && more > 0
    ensures Received(Received(a, item, amount, w), item, more, w) == Received(a, item, amount + more, w)
  {
  }

  function Expires(n: nat): (ops: seq<Op>)
    ensures |ops| == n
  {
    if n == 0 then [] else [Expire] + Expires(n - 1)
  }

  // ---------------------------------------------------------------- who gives and gets what

  /** Every account but those of p and q is as it was. */
  ghost predicate OthersSame(m: Market, g: Market, p: nat, q: nat) {
    |g.accounts| == |m.accounts| && forall z {:trigger g.accounts[z]} :: 0 <= z < |m.accounts| && z != p && z != q ==> g.accounts[z] == m.accounts[z]
  }

  /** The i-th offer has amount less to go, and is closed when nothing is left. */
  ghost predicate Served(m: Market, g: Market, i: nat, amount: nat)
    requires i < |m.offers|
  {
    && g.selected == m.selected && g.nextId == m.nextId && g.fees == m.fees
    && if amount == m.offers[i].amount then g.offers == m.offers[..i] + m.offers[i + 1..]
       else amount < m.offers[i].amount
            && g.offers == m.offers[i := m.offers[i].(amount := m.offers[i].amount - amount)]
  }

  /** What keeps p from accepting amount of an offer that asks for wares, or offers them. */
  predicate AcceptGuard(m: Market, p: nat, i: nat, amount: nat, hasDepot: bool, w: World)
    requires p < |m.accounts| && i < |m.offers|
  {
    var o, a := m.offers[i], m.accounts[p];
    && 1 <= amount <= 64000 && amount <= o.amount && w.known(o.item) && w.accountOf(o.owner) != w.accountOf(p)
    && (o.action == BUY ==>
          hasDepot && w.loadable(o.owner) && (if w.wareOf(o.item) in a.stock then a.stock[w.wareOf(o.item)] else 0) >= amount)
    && (o.action == SELL ==> a.cash + a.bank >= o.price * amount)
  }

  /** Selling to a buy offer: the seller's bank gets the price, the owner gets the wares it has paid for
      before, if they can still be delivered. */
  lemma AcceptBuyLaw(m: Market, p: nat, i: nat, amount: nat, hasDepot: bool, w: World, ware: nat)
    requires Sound(m) && p < |m.accounts| && i < |m.offers| && m.offers[i].action == BUY
    requires AcceptGuard(m, p, i, amount, hasDepot, w)
    ensures var o := m.offers[i]; var q := o.owner; var g := Step(m, Accept(p, i, amount, hasDepot), w);
      && q < |m.accounts| && p != q && OthersSame(m, g, p, q) && Served(m, g, i, amount)
      && g.accounts[p].cash == m.accounts[p].cash && g.accounts[p].bank == m.accounts[p].bank + o.price * amount
      && Units(g.accounts[p], ware) == Units(m.accounts[p], ware) - (if ware == w.wareOf(o.item) then amount else 0)
      && g.accounts[q].cash == m.accounts[q].cash && g.accounts[q].bank == m.accounts[q].bank
      && Units(g.accounts[q], ware)
           == Units(m.accounts[q], ware) + if ware == w.wareOf(o.item) && w.pickupable(o.item) then amount else 0
  {
  }

  /** Buying from a sell offer: the buyer pays the price, coins first, and gets the wares, if they can
      still be delivered; the owner's bank gets the price. */
  lemma AcceptSellLaw(m: Market, p: nat, i: nat, amount: nat, hasDepot: bool, w: World, ware: nat)
    requires Sound(m) && p < |m.accounts| && i < |m.offers| && m.offers[i].action == SELL
    requires AcceptGuard(m, p, i, amount, hasDepot, w)
    ensures var o := m.offers[i]; var q := o.owner; var g := Step(m, Accept(p, i, amount, hasDepot), w);
      var a, sum := m.accounts[p], o.price * amount;
      && q < |m.accounts| && p != q && OthersSame(m, g, p, q) && Served(m, g, i, amount)
      && g.accounts[p].cash == (if sum >= a.cash then 0 else a.cash - sum)
      && g.accounts[p].cash + g.accounts[p].bank == a.cash + a.bank - sum
      && Units(g.accounts[p], ware)
           == Units(a, ware) + (if ware == w.wareOf(o.item) && w.pickupable(o.item) then amount else 0)
      && g.accounts[q] == m.accounts[q].(bank := m.accounts[q].bank + sum)
  {
  }

  /** Nothing else is ever accepted. */
  lemma AcceptRefused(m: Market, p: nat, i: nat, amount: nat, hasDepot: bool, w: World)
    requires Sound(m)
    requires p < |m.accounts| && i < |m.offers| ==> !AcceptGuard(m, p, i, amount, hasDepot, w)
    ensures Step(m, Accept(p, i, amount, hasDepot), w) == m
  {
  }

  /** An offer is created when it is of a marketable item, within the limits, and its owner has the wares
      and the fee, or the price and the fee. The fee is what it should be, but at least 20 and at most
      1000. */
  lemma CreateLaw(m: Market, p: nat, action: Action, item: nat, amount: nat, price: nat, rawFee: nat, admitted: bool, w: World, ware: nat)
    requires Sound(m)
    ensures var g := Step(m, Create(p, action, item, amount, price, rawFee, admitted), w);
      var fee: nat := if rawFee < 20 then 20 else if rawFee > 1000 then 1000 else rawFee;
      var due: nat := fee + if action == BUY then price * amount else 0;
      if && admitted && p < |m.accounts| && w.known(item) && w.wareOf(item) != 0
         && 1 <= amount <= 64000 && 1 <= price <= 999999999 && (w.stackable(item) || amount <= 2000)
         && due <= m.accounts[p].cash + m.accounts[p].bank
         && (action == SELL ==> amount <= Units(m.accounts[p], w.wareOf(item))) then
        && OthersSame(m, g, p, p) && g.selected == m.selected && g.fees == m.fees + fee && g.nextId == m.nextId + 1
        && g.offers == m.offers + [Offer(m.nextId, p, action, item, amount, price)]
        && g.accounts[p].cash == (if due >= m.accounts[p].cash then 0 else m.accounts[p].cash - due)
        && g.accounts[p].cash + g.accounts[p].bank == m.accounts[p].cash + m.accounts[p].bank - due
        && Units(g.accounts[p], ware)
             == Units(m.accounts[p], ware) - (if action == SELL && ware == w.wareOf(item) then amount else 0)
      else g == m
  {
  }

  /** The i-th offer is closed and its owner gets back what is said: coins into the bank, or wares if they
      can be delivered. */
  ghost predicate PaidBack(m: Market, g: Market, i: nat, amount: nat, w: World, ware: nat)
    requires i < |m.offers| && m.offers[i].owner < |m.accounts|
  {
    var o := m.offers[i]; var q := o.owner;
    && OthersSame(m, g, q, q) && g.offers == m.offers[..i] + m.offers[i + 1..] && g.nextId == m.nextId && g.fees == m.fees
    && g.accounts[q].cash == m.accounts[q].cash
    && g.accounts[q].bank == m.accounts[q].bank + (if o.action == BUY then o.price * amount else 0)
    && Units(g.accounts[q], ware)
         == Units(m.accounts[q], ware) + if o.action == SELL && w.pickupable(o.item) && ware == w.wareOf(o.item) then amount else 0
  }

  /** Only the owner cancels an offer, and gets back what is still open of it. */
  lemma CancelLaw(m: Market, p: nat, i: nat, w: World, ware: nat)
    requires Sound(m) && i < |m.offers|
    ensures m.offers[i].owner < |m.accounts|
    ensures var g := Step(m, Cancel(p, i), w);
      if m.offers[i].owner == p && (m.offers[i].action == BUY || w.known(m.offers[i].item))
      then PaidBack(m, g, i, m.offers[i].amount, w, ware) && g.selected == m.selected
      else g == m
  {
  }

  /** The first row that was selected expires: its offer is closed, if it is still there, and its owner
      gets back what the row says, if that is money or can be delivered. */
  lemma ExpireLaw(m: Market, w: World, i: nat, ware: nat)
    requires Sound(m) && m.selected != [] && i < |m.offers| && m.offers[i].id == m.selected[0].id
    ensures m.offers[i].owner < |m.accounts|
    ensures var row, g := m.selected[0], Step(m, Expire, w);
      && g.selected == m.selected[1..]
      && PaidBack(m, g, i,
           if row.action == BUY || (w.known(row.item) && w.loadable(row.owner)) then row.amount else 0, w, ware)
  {
    var row := m.selected[0];
    assert RowOf(m.offers, row.id) == i;
    assert Snapshot(row, m.offers[i]);
  }

  /** A row whose offer has gone is passed over; and without a row nothing happens. */
  lemma ExpireNothing(m: Market, w: World)
    requires Sound(m) && (m.selected != [] ==> forall i :: 0 <= i < |m.offers| ==> m.offers[i].id != m.selected[0].id)
    ensures Step(m, Expire, w) == if m.selected == [] then m else m.(selected := m.selected[1..])
  {
  }

  /** Exactly the expired offers are selected, behind the rows that still wait. */
  lemma {:induction false} SelectLaw(m: Market, expired: nat -> bool, w: World)
    requires Sound(m)
    ensures var g := Step(m, Select(expired), w);
      && g == m.(selected := g.selected) && m.selected <= g.selected
      && (forall o :: o in g.selected[|m.selected|..] <==> o in m.offers && expired(o.id))
  {
    FilteredLaw(m.offers, expired);
    assert (m.selected + Filtered(m.offers, expired))[|m.selected|..] == Filtered(m.offers, expired);
  }

  lemma {:induction false} FilteredLaw(offers: seq<Offer>, expired: nat -> bool)
    ensures forall o :: o in Filtered(offers, expired) <==> o in offers && expired(o.id)
    decreases |offers|
  {
    if offers != [] {
      FilteredLaw(offers[1..], expired);
      assert offers == [offers[0]] + offers[1..];
    }
  }

  class Exchange {
    var accounts: seq<Account>
    var offers: seq<Offer>
    var selected: seq<Offer>
    var nextId: nat
    var fees: nat

    constructor (accounts: seq<Account>)
      ensures State() == Market.Market(accounts, [], [], 1, 0) && Sound(State())
    {
      this.accounts, offers, selected, nextId, fees := accounts, [], [], 1, 0;
    }

    function State(): Market
      reads this
    {
      Market.Market(accounts, offers, selected, nextId, fees)
    }

    /** Pays from the coins first and from the bank for the rest. */
    method Debit(p: nat, sum: nat)
      requires p < |accounts| && sum <= accounts[p].cash + accounts[p].bank
      modifies this`accounts
      ensures accounts == old(accounts)[p := Paid(old(accounts)[p], sum)]
    {
      var a := accounts[p];
      var debitCash := if a.cash < sum then a.cash else sum;
      var debitBank := sum - debitCash;
      accounts := accounts[p := a.(cash := a.cash - debitCash, bank := a.bank - debitBank)];
    }

    /** Puts new items into the inbox, in stacks of at most 100 or one by one, until one is refused. */
    method Deliver(p: nat, item: nat, amount: nat, w: World)
      requires p < |accounts|
      modifies this`accounts
      ensures accounts == old(accounts)[p := Received(old(accounts)[p], item, amount, w)]
    {
      var tmpAmount := amount;
      ghost var a := accounts[p];
      while tmpAmount > 0
        invariant 0 <= tmpAmount <= amount && accounts == old(accounts)[p := Received(a, item, amount - tmpAmount, w)]
        invariant tmpAmount < amount ==> w.pickupable(item)
      {
        var stackCount := if !w.stackable(item) then 1 else if tmpAmount < 100 then tmpAmount else 100;
        if !w.pickupable(item) {
          NotReceived(a, item, amount, w);
          return;
        }
        ReceivedMore(a, item, amount - tmpAmount, stackCount, w);
        accounts := accounts[p := Received(accounts[p], item, stackCount, w)];
        tmpAmount := tmpAmount - stackCount;
      }
    }

    method PlayerCreateMarketOffer(p: nat, action: Action, item: nat, amount: nat, price: nat, rawFee: nat, admitted: bool, w: World)
      requires Sound(State())
      modifies this
      ensures State() == Step(old(State()), Create(p, action, item, amount, price, rawFee, admitted), w)
    {
      hide Sound, Units, Paid;
      if amount == 0 || amount > MAX_AMOUNT || price == 0 || price > MAX_PRICE {
        return;
      }
      if p >= |accounts| || !admitted || !w.known(item) || w.wareOf(item) == 0 {
        return;
      }
      if !w.stackable(item) && amount > MAX_UNSTACKABLE {
        return;
      }
      var fee := rawFee;
      if fee < MIN_FEE {
        fee := MIN_FEE;
      } else if fee > MAX_FEE {
        fee := MAX_FEE;
      }
      var a := accounts[p];
      if action == SELL {
        if fee > a.cash + a.bank {
          return;
        }
        if amount > Units(a, w.wareOf(item)) {
          return;
        }
        accounts := accounts[p := Taken(a, w.wareOf(item), amount)];
        Debit(p, fee);
      } else {
        var totalPrice := price * amount + fee;
        if totalPrice > a.cash + a.bank {
          return;
        }
        Debit(p, totalPrice);
      }
      fees := fees + fee;
      offers := offers + [Offer(nextId, p, action, item, amount, price)];
      nextId := nextId + 1;
    }

    /** Deletes a row of the offer table. */
    method MoveOfferToHistory(i: nat)
      requires i < |offers|
      modifies this`offers
      ensures offers == Without(old(offers), i)
    {
      offers := offers[..i] + offers[i + 1..];
    }

    method PlayerCancelMarketOffer(p: nat, i: nat, w: World)
      requires Sound(State())
      modifies this
      ensures State() == Step(old(State()), Cancel(p, i), w)
    {
      hide Sound, Received, Without;
      SoundOwners(State());
      if i >= |offers| || offers[i].owner != p {
        return;
      }
      var offer := offers[i];
      if offer.action == BUY {
        accounts := accounts[p := Credited(accounts[p], offer.price * offer.amount)];
      } else {
        if !w.known(offer.item) {
          return;
        }
        Deliver(p, offer.item, offer.amount, w);
      }
      MoveOfferToHistory(i);
    }

    method PlayerAcceptMarketOffer(p: nat, i: nat, amount: nat, hasDepot: bool, w: World)
      requires Sound(State())
      modifies this
      ensures State() == Step(old(State()), Accept(p, i, amount, hasDepot), w)
    {
      hide Sound, Received, Paid, Units, Taken, Reduced;
      SoundOwners(State());
      if amount == 0 || amount > MAX_AMOUNT || p >= |accounts| || i >= |offers| {
        return;
      }
      var offer := offers[i];
      if w.accountOf(offer.owner) == w.accountOf(p) || amount > offer.amount || !w.known(offer.item) {
        return;
      }
      var totalPrice := offer.price * amount;
      if offer.action == BUY {
        if !hasDepot || amount > Units(accounts[p], w.wareOf(offer.item)) || !w.loadable(offer.owner) {
          return;
        }
        accounts := accounts[p := Taken(accounts[p], w.wareOf(offer.item), amount)];
        accounts := accounts[p := Credited(accounts[p], totalPrice)];
        Deliver(offer.owner, offer.item, amount, w);
      } else {
        if totalPrice > accounts[p].cash + accounts[p].bank {
          return;
        }
        Debit(p, totalPrice);
        Deliver(p, offer.item, amount, w);
        accounts := accounts[offer.owner := Credited(accounts[offer.owner], totalPrice)];
      }
      ReduceOffer(i, amount);
    }

    /** Takes the accepted units off an offer, and the offer off the table when none are left. */
    method ReduceOffer(i: nat, amount: nat)
      requires i < |offers| && amount <= offers[i].amount
      modifies this`offers
      ensures offers == Reduced(old(offers), i, amount)
    {
      if offers[i].amount == amount {
        offers := offers[..i] + offers[i + 1..];
      } else {
        offers := offers[i := offers[i].(amount := offers[i].amount - amount)];
      }
    }

    method FindRow(id: nat) returns (i: nat)
      ensures i == RowOf(offers, id)
    {
      i := 0;
      while i < |offers| && offers[i].id != id
        invariant 0 <= i <= |offers| && forall j :: 0 <= j < i ==> offers[j].id != id
      {
        i := i + 1;
      }
      RowOfIs(offers, id, i);
    }

    /** One row of the result: the offer is closed first, and then what the row says is returned. */
    method ProcessRow(w: World)
      requires Sound(State()) && selected != []
      modifies this
      ensures State() == Step(old(State()), Expire, w)
    {
      hide Sound, Received, Without;
      SoundOwners(State());
      var row := selected[0];
      selected := selected[1..];
      var i := FindRow(row.id);
      if i == |offers| {
        return;
      }
      RowOwner(old(State()), i);
      MoveOfferToHistory(i);
      if row.action == SELL {
        if !w.known(row.item) || !w.loadable(row.owner) {
          return;
        }
        Deliver(row.owner, row.item, row.amount, w);
        NotReceived(old(accounts)[row.owner], row.item, row.amount, w);
        assert accounts[row.owner := accounts[row.owner]] == accounts;
      } else {
        accounts := accounts[row.owner := Credited(accounts[row.owner], row.price * row.amount)];
      }
    }

    method ProcessExpiredOffers(w: World)
      requires Sound(State())
      modifies this
      ensures selected == [] && State() == Run(old(State()), Expires(|old(selected)|), w)
    {
      hide Sound, Step, Run;
      ghost var goal := Run(State(), Expires(|selected|), w);
      while selected != []
        invariant Sound(State()) && goal == Run(State(), Expires(|selected|), w)
        decreases |selected|
      {
        ghost var m := State();
        StepSound(m, Expire, w);
        RunStep(m, Expires(|selected|), w);
        ExpirePops(m, w);
        ProcessRow(w);
      }
      RunNothing(State(), w);
    }
  }

  lemma {:induction false} RowOfIs(offers: seq<Offer>, id: nat, i: nat)
    requires i <= |offers| && (i < |offers| ==> offers[i].id == id) && forall j :: 0 <= j < i ==> offers[j].id != id
    ensures RowOf(offers, id) == i
    decreases |offers|
  {
    if i > 0 {
      assert offers[0].id != id;
      RowOfIs(offers[1..], id, i - 1);
    }
  }

  lemma RowOwner(m: Market, i: nat)
    requires Sound(m) && m.selected != [] && i < |m.offers| && m.offers[i].id == m.selected[0].id
    ensures m.selected[0].owner == m.offers[i].owner && m.selected[0].action == m.offers[i].action
    ensures m.selected[0].item == m.offers[i].item && m.selected[0].price == m.offers[i].price
  {
    assert Snapshot(m.selected[0], m.offers[i]);
  }

  lemma NotReceived(a: Account, item: nat, amount: nat, w: World)
    ensures !w.pickupable(item) ==> Received(a, item, amount, w) == a
  {
  }

  lemma ExpirePops(m: Market, w: World)
    requires Sound(m) && m.selected != []
    ensures |Step(m, Expire, w).selected| == |m.selected| - 1
    ensures Expires(|m.selected|)[0] == Expire && Expires(|m.selected|)[1..] == Expires(|m.selected| - 1)
  {
  }
}
