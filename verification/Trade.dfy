/** The two-party trade protocol. */
module Trade {
  import opened Options

  datatype TradeState = NONE | INITIATED | ACCEPT | ACKNOWLEDGE | TRANSFER

  /** An item, as the protocol sees it. */
  datatype Item = Item(address: nat)

  class Player {
    var tradeState: TradeState
    var tradePartner: Player?
    var tradeItem: Option<Item>

    constructor ()
      ensures Value() == NOT_TRADING
    {
      tradeState, tradePartner, tradeItem := NONE, null, None;
    }

    function Value(): Side
      reads this
    {
      Side(tradeState, tradePartner, tradeItem)
    }
  }

  /** One player's view of a trade. */
  datatype Side = Side(state: TradeState, partner: Player?, item: Option<Item>)

  const NOT_TRADING := Side(NONE, null, None)

  /** Every player's side, and who offers which item. */
  datatype Trades = Trades(sides: map<Player, Side>, offers: map<Item, Player>)

  // ---------------------------------------------------------------- the invariant

  /** The other end of every trade names this one. */
  ghost predicate Symmetric(t: Trades) {
    forall p {:trigger t.sides[p].partner} :: p in t.sides && t.sides[p].partner != null ==>
      var q := t.sides[p].partner; q in t.sides && q != p && t.sides[q].partner == p
  }

  /** A player without a trade has no partner and no item; one that was asked has no item yet. */
  ghost predicate StatesFit(t: Trades) {
    forall p {:trigger t.sides[p].state} :: p in t.sides ==>
      var s := t.sides[p];
      && (s.state == NONE <==> s.partner == null)
      && (s.state == NONE || s.state == ACKNOWLEDGE ==> s.item.None?)
      && (s.state == INITIATED ==> s.item.Some?)
  }

  /** Transfers come in pairs of partners; nobody else has both sides accepted, and one of the two
      offers something. */
  ghost predicate PairsFit(t: Trades) {
    forall p {:trigger t.sides[p].partner} :: p in t.sides && t.sides[p].partner != null && t.sides[p].partner in t.sides ==>
      var s, q := t.sides[p], t.sides[t.sides[p].partner];
      && (s.state == TRANSFER <==> q.state == TRANSFER)
      && !(s.state == ACCEPT && q.state == ACCEPT)
      && (s.item.Some? || q.item.Some?)
  }

  /** The offers are exactly the items of the players that are not transferring. */
  ghost predicate OffersExact(t: Trades) {
    && (forall p {:trigger t.sides[p].item} :: p in t.sides && t.sides[p].item.Some? && t.sides[p].state != TRANSFER ==>
          t.sides[p].item.value in t.offers && t.offers[t.sides[p].item.value] == p)
    && (forall x {:trigger t.offers[x]} :: x in t.offers ==>
          t.offers[x] in t.sides && t.sides[t.offers[x]].item == Some(x) && t.sides[t.offers[x]].state != TRANSFER)
  }

  /** What holds while an exchange is under way. */
  ghost predicate Running(t: Trades) {
    Symmetric(t) && StatesFit(t) && PairsFit(t) && OffersExact(t)
  }

  /** What holds between steps: besides, nobody is transferring. */
  ghost predicate Settled(t: Trades) {
    Running(t) && forall p {:trigger t.sides[p].state} :: p in t.sides ==> t.sides[p].state != TRANSFER
  }

  // ---------------------------------------------------------------- the steps, as values

  ghost predicate MayStart(t: Trades, p: Player, q: Player)
    requires p in t.sides && q in t.sides
  {
    var s, r := t.sides[p], t.sides[q];
    (s.state == NONE || (s.state == ACKNOWLEDGE && s.partner == q)) && (r.state == NONE || r.partner == p)
  }

  /** p offers x to q. */
  ghost function Started(t: Trades, p: Player, q: Player, x: Item): Trades
    requires p in t.sides && q in t.sides
  {
    if !MayStart(t, p, q) then t
    else
      var r := t.sides[q];
      Trades(t.sides[p := Side(INITIATED, q, Some(x))][q := if r.state == NONE then Side(ACKNOWLEDGE, p, r.item) else r],
             t.offers[x := p])
  }

  function Withdrawn(offers: map<Item, Player>, x: Option<Item>): map<Item, Player> {
    if x.Some? then offers - {x.value} else offers
  }

  ghost function PartnerSide(t: Trades, p: Player): Side
    requires p in t.sides
  {
    var q := t.sides[p].partner;
    if q != null && q in t.sides then t.sides[q] else NOT_TRADING
  }

  /** Both ends drop the trade, unless an exchange is under way. */
  ghost function Closed(t: Trades, p: Player): Trades
    requires p in t.sides
  {
    var s, r := t.sides[p], PartnerSide(t, p);
    if s.state == TRANSFER || r.state == TRANSFER then t
    else Cleared(t, p)
  }

  /** Both ends forget the trade and its items. */
  ghost function Cleared(t: Trades, p: Player): Trades
    requires p in t.sides
  {
    Trades(Forgotten(t, p), Withdrawn(Withdrawn(t.offers, t.sides[p].item), PartnerSide(t, p).item))
  }

  /** Both ends forget the trade whose offers have been withdrawn before. */
  ghost function Finished(t: Trades, p: Player): Trades
    requires p in t.sides
  {
    t.(sides := Forgotten(t, p))
  }

  ghost function ClosedAll(t: Trades, requests: seq<Player>): (r: Trades)
    requires forall i :: 0 <= i < |requests| ==> requests[i] in t.sides
    ensures r.sides.Keys == t.sides.Keys
    decreases |requests|
  {
    if requests == [] then t else ClosedAll(Closed(t, requests[0]), requests[1..])
  }

  /** Both ends are marked as transferring and their offers withdrawn. */
  ghost function Transferring(t: Trades, p: Player): Trades
    requires p in t.sides
  {
    var s, r := t.sides[p], PartnerSide(t, p);
    var sides := t.sides[p := s.(state := TRANSFER)];
    Trades(if s.partner != null && s.partner in t.sides then sides[s.partner := r.(state := TRANSFER)] else sides,
           Withdrawn(Withdrawn(t.offers, s.item), r.item))
  }

  /** What the world answers while p accepts: whether the two can reach each other, whether the
      scripts allow the exchange, and who asks to close a trade while the items move. */
  datatype World = World(inReach: bool, allowed: bool, requests: seq<Player>)

  ghost predicate Known(t: Trades, w: World) {
    forall i :: 0 <= i < |w.requests| ==> w.requests[i] in t.sides
  }

  ghost function Accepted(t: Trades, p: Player, w: World): Trades
    requires p in t.sides && Known(t, w)
  {
    var s := t.sides[p];
    if !(s.state == ACKNOWLEDGE || s.state == INITIATED) || s.partner == null then t
    else
      var t1 := t.(sides := t.sides[p := s.(state := ACCEPT)]);
      if PartnerSide(t, p).state != ACCEPT then t1
      else if !w.inReach || !w.allowed then Closed(t1, p)
      else Finished(ClosedAll(Transferring(t1, p), w.requests), p)
  }

  // ---------------------------------------------------------------- every step keeps the invariant

  lemma PairOf(t: Trades, p: Player)
    requires Running(t) && p in t.sides
    ensures var s := t.sides[p];
      && (s.state == NONE <==> s.partner == null) && (s.partner == null ==> s.item.None?)
      && (s.state == ACKNOWLEDGE ==> s.item.None?) && (s.state == INITIATED ==> s.item.Some?)
    ensures var s := t.sides[p]; s.partner != null ==>
      && s.partner in t.sides && s.partner != p && t.sides[s.partner].partner == p
      && t.sides[s.partner] == PartnerSide(t, p) && t.sides[s.partner].state != NONE
      && (s.state == TRANSFER <==> t.sides[s.partner].state == TRANSFER)
      && !(s.state == ACCEPT && t.sides[s.partner].state == ACCEPT)
      && (s.item.Some? || t.sides[s.partner].item.Some?)
  {
    var s := t.sides[p];
    assert s.state == s.state && s.partner == s.partner;
    if s.partner != null {
      assert t.sides[s.partner].state == t.sides[s.partner].state;
    }
  }

  /** Nobody else is in a trade with either side of a pair. */
  lemma OthersOf(t: Trades, p: Player, z: Player)
    requires Running(t) && p in t.sides && z in t.sides && z != p && z != t.sides[p].partner
    ensures t.sides[z].partner != p && (t.sides[z].partner != null ==> t.sides[z].partner != t.sides[p].partner)
  {
    PairOf(t, p);
    PairOf(t, z);
  }

  ghost predicate Shape(t: Trades) {
    Symmetric(t) && StatesFit(t) && PairsFit(t)
  }

  ghost function Forgotten(t: Trades, p: Player): map<Player, Side>
    requires p in t.sides
  {
    var q := t.sides[p].partner;
    var sides := t.sides[p := NOT_TRADING];
    if q != null && q in t.sides then sides[q := NOT_TRADING] else sides
  }

  lemma ForgottenShape(t: Trades, p: Player, offers: map<Item, Player>)
    requires Running(t) && p in t.sides
    ensures Shape(Trades(Forgotten(t, p), offers)) && Forgotten(t, p).Keys == t.sides.Keys
  {
    hide OffersExact;
    PairOf(t, p);
    var g := Trades(Forgotten(t, p), offers);
    forall z | z in t.sides && z != p && z != t.sides[p].partner
      ensures t.sides[z].partner != p && (t.sides[z].partner != null ==> t.sides[z].partner != t.sides[p].partner)
    {
      OthersOf(t, p, z);
    }
  }

  lemma WithdrawnExact(t: Trades, p: Player)
    requires Running(t) && p in t.sides && t.sides[p].state != TRANSFER && PartnerSide(t, p).state != TRANSFER
    ensures var offers := Withdrawn(Withdrawn(t.offers, t.sides[p].item), PartnerSide(t, p).item);
      forall x :: x in offers <==> x in t.offers && t.offers[x] != p && t.offers[x] != t.sides[p].partner
    ensures var offers := Withdrawn(Withdrawn(t.offers, t.sides[p].item), PartnerSide(t, p).item);
      forall x :: x in offers ==> offers[x] == t.offers[x]
  {
    hide Symmetric, StatesFit, PairsFit;
    PairOf(t, p);
    var s, r := t.sides[p], PartnerSide(t, p);
    assert s.item == s.item;
    if s.partner != null {
      assert t.sides[s.partner].item == r.item;
    }
    forall x | x in t.offers
      ensures t.offers[x] == p <==> s.item == Some(x)
      ensures s.partner != null && t.offers[x] == s.partner <==> r.item == Some(x)
    {
      assert t.sides[t.offers[x]].item == Some(x);
    }
  }

  /** Taking a pair and its offers out leaves the others' offers exact. */
  lemma ClearedOffers(t: Trades, p: Player, offers: map<Item, Player>)
    requires Running(t) && p in t.sides
    requires forall x :: x in offers <==> x in t.offers && t.offers[x] != p && t.offers[x] != t.sides[p].partner
    requires forall x :: x in offers ==> offers[x] == t.offers[x]
    ensures OffersExact(Trades(Forgotten(t, p), offers))
  {
    hide Symmetric, StatesFit, PairsFit;
    PairOf(t, p);
    var g := Trades(Forgotten(t, p), offers);
    forall z | z in g.sides && g.sides[z].item.Some? && g.sides[z].state != TRANSFER
      ensures g.sides[z].item.value in g.offers && g.offers[g.sides[z].item.value] == z
    {
      assert t.sides[z].item == g.sides[z].item;
    }
    forall x | x in g.offers
      ensures g.offers[x] in g.sides && g.sides[g.offers[x]].item == Some(x) && g.sides[g.offers[x]].state != TRANSFER
    {
      assert t.offers[x] == g.offers[x];
    }
  }

  lemma ClearedRuns(t: Trades, p: Player)
    requires Running(t) && p in t.sides && t.sides[p].state != TRANSFER && PartnerSide(t, p).state != TRANSFER
    ensures Running(Cleared(t, p)) && Cleared(t, p).sides.Keys == t.sides.Keys
  {
    hide Symmetric, StatesFit, PairsFit, OffersExact, Withdrawn;
    ForgottenShape(t, p, Cleared(t, p).offers);
    WithdrawnExact(t, p);
    ClearedOffers(t, p, Cleared(t, p).offers);
  }

  /** Closing a trade, by anyone and at any time, keeps the invariant. */
  lemma ClosedRuns(t: Trades, p: Player)
    requires Running(t) && p in t.sides
    ensures Running(Closed(t, p)) && Closed(t, p).sides.Keys == t.sides.Keys
  {
    hide Running, Cleared;
    if t.sides[p].state != TRANSFER && PartnerSide(t, p).state != TRANSFER {
      ClearedRuns(t, p);
    }
  }

  /** While an exchange is under way, a close request of either side changes nothing. */
  lemma CloseDuringTransfer(t: Trades, p: Player)
    requires Running(t) && p in t.sides && t.sides[p].state == TRANSFER
    ensures Closed(t, p) == t
    ensures t.sides[p].partner != null && t.sides[p].partner in t.sides && Closed(t, t.sides[p].partner) == t
  {
  }

  /** ... and a request of anyone else does not touch the two. */
  lemma CloseElsewhere(t: Trades, p: Player, r: Player)
    requires Running(t) && p in t.sides && r in t.sides && t.sides[p].state == TRANSFER
    ensures Closed(t, r).sides.Keys == t.sides.Keys && Closed(t, r).sides[p] == t.sides[p]
  {
  }

  /** Only p and its partner are transferring. */
  ghost predicate OnlyPair(t: Trades, p: Player) {
    p in t.sides
    && forall z {:trigger t.sides[z].state} :: z in t.sides && t.sides[z].state == TRANSFER ==> z == p || z == t.sides[p].partner
  }

  lemma ClosedOnlyPair(t: Trades, p: Player, r: Player)
    requires Running(t) && OnlyPair(t, p) && r in t.sides && t.sides[p].state == TRANSFER
    ensures OnlyPair(Closed(t, r), p)
  {
    hide Running;
    CloseElsewhere(t, p, r);
    var g := Closed(t, r);
    forall z | z in g.sides && g.sides[z].state == TRANSFER ensures z == p || z == g.sides[p].partner {
      assert z in t.sides && t.sides[z].state == TRANSFER;
    }
  }

  lemma {:induction false} TransferSurvives(t: Trades, p: Player, requests: seq<Player>)
    requires Running(t) && p in t.sides && t.sides[p].state == TRANSFER
    requires OnlyPair(t, p) && forall i :: 0 <= i < |requests| ==> requests[i] in t.sides
    ensures var g := ClosedAll(t, requests);
      Running(g) && g.sides.Keys == t.sides.Keys && g.sides[p] == t.sides[p] && OnlyPair(g, p)
    decreases |requests|
  {
    hide Running, Closed, OnlyPair;
    if requests != [] {
      ClosedRuns(t, requests[0]);
      ClosedOnlyPair(t, p, requests[0]);
      CloseElsewhere(t, p, requests[0]);
      TransferSurvives(Closed(t, requests[0]), p, requests[1..]);
    }
  }

  lemma FinishedRuns(t: Trades, p: Player)
    requires Running(t) && p in t.sides && t.sides[p].state == TRANSFER
    ensures Running(Finished(t, p)) && Finished(t, p).sides.Keys == t.sides.Keys
  {
    hide Symmetric, StatesFit, PairsFit;
    PairOf(t, p);
    forall x | x in t.offers ensures t.offers[x] != p && t.offers[x] != t.sides[p].partner {
      assert t.sides[t.offers[x]].state != TRANSFER;
    }
    ForgottenShape(t, p, t.offers);
    ClearedOffers(t, p, t.offers);
  }

  lemma StartShape(t: Trades, p: Player, q: Player, x: Item)
    requires Settled(t) && p in t.sides && q in t.sides && p != q && MayStart(t, p, q)
    ensures Shape(Started(t, p, q, x))
    ensures forall z {:trigger Started(t, p, q, x).sides[z]} :: z in t.sides ==> Started(t, p, q, x).sides[z].state != TRANSFER
    ensures t.sides[p].item.None?
  {
    hide OffersExact;
    var g := Started(t, p, q, x);
    PairOf(t, p);
    PairOf(t, q);
    assert t.sides[q].state != TRANSFER;
    forall z | z in t.sides && z != p && z != q ensures t.sides[z].partner != p && t.sides[z].partner != q {
      PairOf(t, z);
    }
  }

  lemma StartOffers(t: Trades, p: Player, q: Player, x: Item)
    requires Settled(t) && p in t.sides && q in t.sides && p != q && MayStart(t, p, q) && x !in t.offers
    requires t.sides[p].item.None?
    ensures OffersExact(Started(t, p, q, x))
  {
    hide Symmetric, StatesFit, PairsFit;
    var g := Started(t, p, q, x);
    forall y | y in g.offers
      ensures g.offers[y] in g.sides && g.sides[g.offers[y]].item == Some(y) && g.sides[g.offers[y]].state != TRANSFER
    {
      if y != x {
        assert t.sides[t.offers[y]].item == Some(y);
      }
    }
    forall z | z in g.sides && g.sides[z].item.Some? && g.sides[z].state != TRANSFER
      ensures g.sides[z].item.value in g.offers && g.offers[g.sides[z].item.value] == z
    {
      if z != p {
        assert t.sides[z].item == g.sides[z].item && t.sides[z].state == t.sides[z].state;
      }
    }
  }

  lemma StartSettled(t: Trades, p: Player, q: Player, x: Item)
    requires Settled(t) && p in t.sides && q in t.sides && p != q && x !in t.offers
    ensures Settled(Started(t, p, q, x)) && Started(t, p, q, x).sides.Keys == t.sides.Keys
  {
    hide Symmetric, StatesFit, PairsFit, OffersExact;
    if MayStart(t, p, q) {
      StartShape(t, p, q, x);
      StartOffers(t, p, q, x);
      var g := Started(t, p, q, x);
      forall z | z in g.sides ensures g.sides[z].state != TRANSFER {
        assert g.sides[z] == g.sides[z];
      }
    }
  }

  lemma CloseSettled(t: Trades, p: Player)
    requires Settled(t) && p in t.sides
    ensures Settled(Closed(t, p)) && Closed(t, p).sides.Keys == t.sides.Keys
  {
    hide Running;
    ClosedRuns(t, p);
    NobodyTransfers(t, p);
  }

  lemma NobodyTransfers(t: Trades, p: Player)
    requires Settled(t) && p in t.sides
    ensures var g := Closed(t, p); forall z {:trigger g.sides[z].state} :: z in g.sides ==> g.sides[z].state != TRANSFER
  {
    hide Running;
    var g := Closed(t, p);
    forall z | z in g.sides ensures g.sides[z].state != TRANSFER {
      if z in t.sides {
        assert t.sides[z].state != TRANSFER;
      }
    }
  }

  /** p accepts while its partner has not. */
  lemma MarkedSettled(t: Trades, p: Player)
    requires Settled(t) && p in t.sides && PartnerSide(t, p).state != ACCEPT
    requires t.sides[p].state == ACKNOWLEDGE || t.sides[p].state == INITIATED
    ensures Settled(t.(sides := t.sides[p := t.sides[p].(state := ACCEPT)]))
  {
    var g := t.(sides := t.sides[p := t.sides[p].(state := ACCEPT)]);
    PairOf(t, p);
    forall x | x in g.offers
      ensures g.offers[x] in g.sides && g.sides[g.offers[x]].item == Some(x) && g.sides[g.offers[x]].state != TRANSFER
    {
      assert t.sides[t.offers[x]].item == Some(x);
    }
    forall z | z in g.sides && g.sides[z].item.Some? && g.sides[z].state != TRANSFER
      ensures g.sides[z].item.value in g.offers && g.offers[g.sides[z].item.value] == z
    {
      assert t.sides[z].item == g.sides[z].item && t.sides[z].state == t.sides[z].state;
    }
    MarkedShape(t, p);
  }

  lemma MarkedShape(t: Trades, p: Player)
    requires Settled(t) && p in t.sides && PartnerSide(t, p).state != ACCEPT
    requires t.sides[p].state == ACKNOWLEDGE || t.sides[p].state == INITIATED
    ensures var g := t.(sides := t.sides[p := t.sides[p].(state := ACCEPT)]);
      Shape(g) && forall z {:trigger g.sides[z].state} :: z in g.sides ==> g.sides[z].state != TRANSFER
  {
    hide OffersExact;
    var g := t.(sides := t.sides[p := t.sides[p].(state := ACCEPT)]);
    PairOf(t, p);
    forall z | z in g.sides
      ensures g.sides[z].partner == t.sides[z].partner && g.sides[z].item == t.sides[z].item
      ensures z != p ==> g.sides[z].state == t.sides[z].state
      ensures g.sides[z].state != TRANSFER
    {
      assert t.sides[z].state != TRANSFER;
    }
  }

  lemma MarkedSame(t: Trades, p: Player)
    requires p in t.sides && t.sides[p].partner != null && t.sides[p].partner != p && t.sides[p].partner in t.sides
    ensures var t1 := t.(sides := t.sides[p := t.sides[p].(state := ACCEPT)]);
      && Cleared(t1, p) == Cleared(t, p) && Transferring(t1, p) == Transferring(t, p)
      && PartnerSide(t1, p) == PartnerSide(t, p)
  {
    hide Withdrawn;
    var t1 := t.(sides := t.sides[p := t.sides[p].(state := ACCEPT)]);
    assert Forgotten(t1, p) == Forgotten(t, p);
    assert Transferring(t1, p).sides == Transferring(t, p).sides;
  }

  lemma TransferringShape(t: Trades, p: Player)
    requires Settled(t) && p in t.sides && t.sides[p].partner != null
    ensures var g := Transferring(t, p);
      && Shape(g) && g.sides.Keys == t.sides.Keys && OnlyPair(g, p) && g.sides[p].state == TRANSFER
      && g.sides[p].partner == t.sides[p].partner && g.sides[t.sides[p].partner].state == TRANSFER
      && forall z :: z in t.sides ==> g.sides[z].item == t.sides[z].item
  {
    hide OffersExact, Withdrawn;
    var g := Transferring(t, p);
    PairOf(t, p);
    forall z | z in t.sides && z != p && z != t.sides[p].partner
      ensures t.sides[z].partner != p && (t.sides[z].partner != null ==> t.sides[z].partner != t.sides[p].partner)
      ensures g.sides[z] == t.sides[z] && t.sides[z].state != TRANSFER
    {
      OthersOf(t, p, z);
    }
  }

  lemma TransferringOffers(t: Trades, p: Player)
    requires Settled(t) && p in t.sides && t.sides[p].partner != null
    ensures OffersExact(Transferring(t, p))
  {
    hide Symmetric, StatesFit, PairsFit, Withdrawn;
    var g := Transferring(t, p);
    PairOf(t, p);
    assert t.sides[p].state != TRANSFER && t.sides[t.sides[p].partner].state != TRANSFER;
    WithdrawnExact(t, p);
    forall z | z in g.sides && g.sides[z].item.Some? && g.sides[z].state != TRANSFER
      ensures g.sides[z].item.value in g.offers && g.offers[g.sides[z].item.value] == z
    {
      assert t.sides[z].item == g.sides[z].item;
    }
    forall x | x in g.offers
      ensures g.offers[x] in g.sides && g.sides[g.offers[x]].item == Some(x) && g.sides[g.offers[x]].state != TRANSFER
    {
      assert t.offers[x] == g.offers[x];
    }
  }

  lemma ExchangeSettled(t: Trades, p: Player, requests: seq<Player>)
    requires Settled(t) && p in t.sides && t.sides[p].partner != null
    requires forall i :: 0 <= i < |requests| ==> requests[i] in t.sides
    ensures Transferring(t, p).sides.Keys == t.sides.Keys
    ensures var m := ClosedAll(Transferring(t, p), requests);
      p in m.sides && Settled(Finished(m, p)) && Finished(m, p).sides.Keys == t.sides.Keys
  {
    hide Symmetric, StatesFit, PairsFit, OffersExact, ClosedAll, Transferring, Finished, OnlyPair;
    TransferringShape(t, p);
    TransferringOffers(t, p);
    TransferSurvives(Transferring(t, p), p, requests);
    var m := ClosedAll(Transferring(t, p), requests);
    FinishedRuns(m, p);
    NoneLeft(m, p);
  }

  lemma NoneLeft(m: Trades, p: Player)
    requires Running(m) && OnlyPair(m, p)
    ensures var g := Finished(m, p); forall z {:trigger g.sides[z].state} :: z in g.sides ==> g.sides[z].state != TRANSFER
  {
    PairOf(m, p);
    var g := Finished(m, p);
    forall z | z in g.sides ensures g.sides[z].state != TRANSFER {
      assert z in m.sides && m.sides[z].state == m.sides[z].state;
    }
  }

  /** Accepting keeps the invariant, whatever the world answers and whoever asks to close meanwhile. */
  lemma AcceptSettled(t: Trades, p: Player, w: World)
    requires Settled(t) && p in t.sides && Known(t, w)
    ensures Settled(Accepted(t, p, w)) && Accepted(t, p, w).sides.Keys == t.sides.Keys
  {
    hide Running, Transferring, Finished, Cleared, ClosedAll;
    var s := t.sides[p];
    if (s.state == ACKNOWLEDGE || s.state == INITIATED) && s.partner != null {
      PairOf(t, p);
      MarkedSame(t, p);
      if PartnerSide(t, p).state != ACCEPT {
        MarkedSettled(t, p);
      } else if !w.inReach || !w.allowed {
        CloseSettled(t, p);
      } else {
        ExchangeSettled(t, p, w.requests);
      }
    }
  }

  // ---------------------------------------------------------------- runs

  datatype Op =
    | Start(player: Player, partner: Player, item: Item)
    | Accept(player: Player, world: World)
    | Close(player: Player)

  /** A request that names unknown players, the player itself or an item already offered is refused. */
  ghost function Step(t: Trades, op: Op): Trades {
    match op
    case Start(p, q, x) => if p in t.sides && q in t.sides && p != q && x !in t.offers then Started(t, p, q, x) else t
    case Accept(p, w) => if p in t.sides && Known(t, w) then Accepted(t, p, w) else t
    case Close(p) => if p in t.sides then Closed(t, p) else t
  }

  ghost function Run(t: Trades, ops: seq<Op>): Trades
    decreases |ops|
  {
    if ops == [] then t else Run(Step(t, ops[0]), ops[1..])
  }

  lemma StepSettled(t: Trades, op: Op)
    requires Settled(t)
    ensures Settled(Step(t, op)) && Step(t, op).sides.Keys == t.sides.Keys
  {
    hide Settled, Started, Accepted, Closed;
    match op
    case Start(p, q, x) =>
      if p in t.sides && q in t.sides && p != q && x !in t.offers {
        StartSettled(t, p, q, x);
      }
    case Accept(p, w) =>
      if p in t.sides && Known(t, w) {
        AcceptSettled(t, p, w);
      }
    case Close(p) =>
      if p in t.sides {
        CloseSettled(t, p);
      }
  }

  /** In every state a run reaches, partners name each other, exactly the players without a partner
      are idle, nobody is transferring, no two partners have both accepted, and the offers are
      exactly the items of the players. */
  lemma {:induction false} RunSettled(t: Trades, ops: seq<Op>)
    requires Settled(t)
    ensures Settled(Run(t, ops)) && Run(t, ops).sides.Keys == t.sides.Keys
    decreases |ops|
  {
    hide Settled, Step;
    if ops != [] {
      StepSettled(t, ops[0]);
      RunSettled(Step(t, ops[0]), ops[1..]);
    }
  }

  /** Nobody trades. */
  ghost function Idle(ps: set<Player>): Trades {
    Trades(map p | p in ps :: NOT_TRADING, map[])
  }

  lemma IdleSettled(ps: set<Player>)
    ensures Settled(Idle(ps)) && AcceptedOffer(Idle(ps)) && Idle(ps).sides.Keys == ps
  {
  }

  /** The invariant holds in every state that is reached from nobody trading. */
  lemma ReachableSettled(ps: set<Player>, ops: seq<Op>)
    ensures Settled(Run(Idle(ps), ops)) && Run(Idle(ps), ops).sides.Keys == ps
  {
    hide Settled, Run;
    IdleSettled(ps);
    RunSettled(Idle(ps), ops);
  }

  // ---------------------------------------------------------------- exchanges with an item on one side only

  /** p's accept starts an exchange. */
  ghost predicate Exchanges(t: Trades, p: Player, w: World)
    requires p in t.sides
  {
    var s := t.sides[p];
    && (s.state == ACKNOWLEDGE || s.state == INITIATED) && s.partner != null && PartnerSide(t, p).state == ACCEPT
    && w.inReach && w.allowed
  }

  /** Both ends of p's trade have an item to give. */
  ghost predicate TwoSided(t: Trades, p: Player)
    requires p in t.sides
  {
    t.sides[p].item.Some? && PartnerSide(t, p).item.Some?
  }

  /** Whoever has accepted offers something. */
  ghost predicate AcceptedOffer(t: Trades) {
    forall p {:trigger t.sides[p].state} :: p in t.sides && t.sides[p].state == ACCEPT ==> t.sides[p].item.Some?
  }

  /** p accepts before it has offered anything. */
  ghost predicate AcceptsEarly(t: Trades, p: Player)
    requires p in t.sides
  {
    t.sides[p].state == ACKNOWLEDGE
  }

  /** An accept that starts the exchange is carried out on the pair marked as transferring, which
      has an item on both sides exactly when the accepting player had offered its item and its
      partner has one. */
  lemma ExchangeTwoSidedIff(t: Trades, p: Player, w: World)
    requires Settled(t) && p in t.sides && Known(t, w) && Exchanges(t, p, w)
    ensures Known(Transferring(t, p), w) && Transferring(t, p).sides.Keys == t.sides.Keys
    ensures p in ClosedAll(Transferring(t, p), w.requests).sides
    ensures Accepted(t, p, w) == Finished(ClosedAll(Transferring(t, p), w.requests), p)
    ensures Transferring(t, p).sides[p].state == TRANSFER
    ensures TwoSided(Transferring(t, p), p) <==> t.sides[p].state == INITIATED && PartnerSide(t, p).item.Some?
    ensures AcceptedOffer(t) ==> (TwoSided(Transferring(t, p), p) <==> !AcceptsEarly(t, p))
  {
    hide Running, Transferring, Finished, Closed;
    SettledRuns(t);
    PairOf(t, p);
    MarkedSame(t, p);
    TransferringShape(t, p);
    assert PartnerSide(Transferring(t, p), p).item == t.sides[t.sides[p].partner].item;
  }

  lemma StartKeepsOffers(t: Trades, p: Player, q: Player, x: Item)
    requires Settled(t) && AcceptedOffer(t) && p in t.sides && q in t.sides && p != q
    ensures AcceptedOffer(Started(t, p, q, x))
  {
    var g := Started(t, p, q, x);
    forall z | z in g.sides && g.sides[z].state == ACCEPT ensures g.sides[z].item.Some? {
      assert t.sides[z].state == ACCEPT;
    }
  }

  lemma CloseKeepsOffers(t: Trades, p: Player)
    requires AcceptedOffer(t) && p in t.sides
    ensures AcceptedOffer(Closed(t, p)) && Closed(t, p).sides.Keys == t.sides.Keys
  {
    var g := Closed(t, p);
    forall z | z in g.sides && g.sides[z].state == ACCEPT ensures g.sides[z].item.Some? {
      assert t.sides[z].state == ACCEPT;
    }
  }

  /** Close requests accept nothing for anybody and change nobody's item but to none. */
  lemma {:induction false} CloseAllKeepsOffers(t: Trades, requests: seq<Player>)
    requires AcceptedOffer(t) && forall i :: 0 <= i < |requests| ==> requests[i] in t.sides
    ensures AcceptedOffer(ClosedAll(t, requests))
    decreases |requests|
  {
    hide AcceptedOffer, Closed;
    if requests != [] {
      CloseKeepsOffers(t, requests[0]);
      CloseAllKeepsOffers(Closed(t, requests[0]), requests[1..]);
    }
  }

  lemma TransferKeepsOffers(t: Trades, p: Player)
    requires AcceptedOffer(t) && p in t.sides
    ensures AcceptedOffer(Transferring(t, p))
  {
    hide Withdrawn;
    var g := Transferring(t, p);
    forall z | z in g.sides && g.sides[z].state == ACCEPT ensures g.sides[z].item.Some? {
      assert z in t.sides && t.sides[z].state == ACCEPT;
    }
  }

  lemma FinishKeepsOffers(t: Trades, p: Player)
    requires AcceptedOffer(t) && p in t.sides
    ensures AcceptedOffer(Finished(t, p))
  {
    var g := Finished(t, p);
    forall z | z in g.sides && g.sides[z].state == ACCEPT ensures g.sides[z].item.Some? {
      assert z in t.sides && t.sides[z].state == ACCEPT;
    }
  }

  /** Accepting leaves a player that has accepted without an offer exactly when it comes early and
      has to wait for the partner. */
  lemma AcceptKeepsOffersIff(t: Trades, p: Player, w: World)
    requires Settled(t) && AcceptedOffer(t) && p in t.sides && Known(t, w)
    ensures AcceptedOffer(Accepted(t, p, w)) <==> !(AcceptsEarly(t, p) && PartnerSide(t, p).state != ACCEPT)
  {
    hide Running, Transferring, Finished, ClosedAll, Closed, Cleared;
    SettledRuns(t);
    PairOf(t, p);
    var s, g := t.sides[p], Accepted(t, p, w);
    if (s.state == ACKNOWLEDGE || s.state == INITIATED) && s.partner != null {
      MarkedSame(t, p);
      if PartnerSide(t, p).state != ACCEPT {
        forall z | z in g.sides && z != p && g.sides[z].state == ACCEPT ensures g.sides[z].item.Some? {
          assert t.sides[z].state == ACCEPT;
        }
        assert g.sides[p] == s.(state := ACCEPT);
      } else if !w.inReach || !w.allowed {
        ClosedMarked(t, p);
        CloseKeepsOffers(t, p);
      } else {
        ExchangeTwoSidedIff(t, p, w);
        TransferKeepsOffers(t, p);
        CloseAllKeepsOffers(Transferring(t, p), w.requests);
        FinishKeepsOffers(ClosedAll(Transferring(t, p), w.requests), p);
      }
    }
  }

  lemma ClosedMarked(t: Trades, p: Player)
    requires Settled(t) && p in t.sides && t.sides[p].partner != null
    ensures Closed(t.(sides := t.sides[p := t.sides[p].(state := ACCEPT)]), p) == Closed(t, p)
  {
    hide Running, Cleared;
    SettledRuns(t);
    PairOf(t, p);
    MarkedSame(t, p);
    assert t.sides[p].state != TRANSFER && t.sides[t.sides[p].partner].state != TRANSFER;
  }

  /** No accept of the run comes early. */
  ghost predicate NoneEarly(t: Trades, ops: seq<Op>)
    decreases |ops|
  {
    ops == [] || (
      && (ops[0].Accept? && ops[0].player in t.sides ==> !AcceptsEarly(t, ops[0].player))
      && NoneEarly(Step(t, ops[0]), ops[1..]))
  }

  /** Every exchange of the run has an item on both sides. */
  ghost predicate AllTwoSided(t: Trades, ops: seq<Op>)
    decreases |ops|
  {
    ops == [] || (
      && (ops[0].Accept? && ops[0].player in t.sides && Known(t, ops[0].world) && Exchanges(t, ops[0].player, ops[0].world) ==>
            TwoSided(Transferring(t, ops[0].player), ops[0].player))
      && AllTwoSided(Step(t, ops[0]), ops[1..]))
  }

  lemma StepKeepsOffers(t: Trades, op: Op)
    requires Settled(t) && AcceptedOffer(t) && NoneEarly(t, [op])
    ensures AcceptedOffer(Step(t, op))
  {
    hide Settled, Started, Accepted, Closed;
    match op
    case Start(p, q, x) =>
      if p in t.sides && q in t.sides && p != q && x !in t.offers {
        StartKeepsOffers(t, p, q, x);
      }
    case Accept(p, w) =>
      if p in t.sides && Known(t, w) {
        AcceptKeepsOffersIff(t, p, w);
      }
    case Close(p) =>
      if p in t.sides {
        CloseKeepsOffers(t, p);
      }
  }

  /** A run without early accepts exchanges nothing but two items. */
  lemma {:induction false} RunTwoSided(t: Trades, ops: seq<Op>)
    requires Settled(t) && AcceptedOffer(t) && NoneEarly(t, ops)
    ensures AllTwoSided(t, ops) && AcceptedOffer(Run(t, ops))
    decreases |ops|
  {
    hide Settled, AcceptedOffer, Step, Exchanges, TwoSided, AcceptsEarly, Transferring;
    if ops != [] {
      StepSettled(t, ops[0]);
      assert NoneEarly(t, [ops[0]]);
      StepKeepsOffers(t, ops[0]);
      if ops[0].Accept? && ops[0].player in t.sides && Known(t, ops[0].world) && Exchanges(t, ops[0].player, ops[0].world) {
        ExchangeTwoSidedIff(t, ops[0].player, ops[0].world);
      }
      RunTwoSided(Step(t, ops[0]), ops[1..]);
    }
  }

  const HERE := World(true, true, [])

  /** ... and every early accept can be followed by an exchange with one item. */
  lemma EarlyLeadsToOneSided(t: Trades, p: Player)
    requires Settled(t) && p in t.sides && AcceptsEarly(t, p)
    ensures t.sides[p].partner != null && !AllTwoSided(t, [Accept(p, HERE), Accept(t.sides[p].partner, HERE)])
  {
  }

  /** A run with an early accept can go on, from that accept, to an exchange with one item. */
  lemma {:induction false} RunEarlyLeads(t: Trades, ops: seq<Op>) returns (k: nat, p: Player, q: Player)
    requires Settled(t) && !NoneEarly(t, ops)
    ensures k < |ops| && ops[k].Accept? && ops[k].player == p
    ensures !AllTwoSided(t, ops[..k] + [Accept(p, HERE), Accept(q, HERE)])
    decreases |ops|
  {
    hide Settled, Step, Exchanges, TwoSided, AcceptsEarly, Transferring;
    if ops[0].Accept? && ops[0].player in t.sides && AcceptsEarly(t, ops[0].player) {
      k, p := 0, ops[0].player;
      EarlyLeadsToOneSided(t, p);
      q := t.sides[p].partner;
      assert ops[..0] + [Accept(p, HERE), Accept(q, HERE)] == [Accept(p, HERE), Accept(q, HERE)];
    } else {
      StepSettled(t, ops[0]);
      k, p, q := RunEarlyLeads(Step(t, ops[0]), ops[1..]);
      var more := [Accept(p, HERE), Accept(q, HERE)];
      assert (ops[..k + 1] + more)[1..] == ops[1..][..k] + more;
      k := k + 1;
    }
  }

  /** A player that was asked accepts at once; when the other side accepts too, the exchange runs with
      nothing to give in return. */
  lemma OneSidedExchange(p: Player, q: Player, x: Item)
    requires p != q
    ensures var t := Run(Idle({p, q}), [Start(p, q, x), Accept(q, HERE)]);
      && p in t.sides && Exchanges(t, p, HERE)
      && Transferring(t, p).sides == map[p := Side(TRANSFER, q, Some(x)), q := Side(TRANSFER, p, None)]
      && Step(t, Accept(p, HERE)) == Idle({p, q})
    ensures !AllTwoSided(Idle({p, q}), [Start(p, q, x), Accept(q, HERE), Accept(p, HERE)])
  {
    var t0 := Idle({p, q});
    var t1 := Step(t0, Start(p, q, x));
    assert t1 == Trades(map[p := Side(INITIATED, q, Some(x)), q := Side(ACKNOWLEDGE, p, None)], map[x := p]);
    var t2 := Step(t1, Accept(q, HERE));
    assert t2 == Trades(map[p := Side(INITIATED, q, Some(x)), q := Side(ACCEPT, p, None)], map[x := p]);
    TwoSteps(t0, Start(p, q, x), Accept(q, HERE));
    OneSidedSwap(p, q, x);
    EarlyLeadsAfter(t0, Start(p, q, x), Accept(q, HERE), Accept(p, HERE));
  }

  lemma TwoSteps(t: Trades, a: Op, b: Op)
    ensures Run(t, [a, b]) == Step(Step(t, a), b)
  {
    hide Step;
    assert [a, b][1..] == [b] && [b][1..] == [];
    assert Run(Step(t, a), [b]) == Run(Step(Step(t, a), b), []);
  }

  lemma EarlyLeadsAfter(t: Trades, a: Op, b: Op, c: Op)
    requires !AllTwoSided(Step(Step(t, a), b), [c])
    ensures !AllTwoSided(t, [a, b, c])
  {
    hide Step, Exchanges, TwoSided, Transferring;
    assert [a, b, c][1..] == [b, c] && [b, c][1..] == [c];
  }

  lemma OneSidedSwap(p: Player, q: Player, x: Item)
    requires p != q
    ensures var t := Trades(map[p := Side(INITIATED, q, Some(x)), q := Side(ACCEPT, p, None)], map[x := p]);
      && Exchanges(t, p, HERE) && !AllTwoSided(t, [Accept(p, HERE)])
      && Transferring(t, p).sides == map[p := Side(TRANSFER, q, Some(x)), q := Side(TRANSFER, p, None)]
      && Step(t, Accept(p, HERE)) == Idle({p, q})
  {
    var t := Trades(map[p := Side(INITIATED, q, Some(x)), q := Side(ACCEPT, p, None)], map[x := p]);
    var m := Transferring(t, p);
    assert m == Trades(map[p := Side(TRANSFER, q, Some(x)), q := Side(TRANSFER, p, None)], map[]);
    MarkedSame(t, p);
    assert Finished(ClosedAll(m, []), p) == Idle({p, q});
  }

  // ---------------------------------------------------------------- what the steps come to

  /** An offer is made when its maker is idle or was asked by the other player, and the other player is
      idle or has the maker as its partner; anything else changes nothing. */
  lemma StartLaw(t: Trades, p: Player, q: Player, x: Item)
    requires Settled(t) && p in t.sides && q in t.sides && p != q && x !in t.offers
    ensures var s, r, g := t.sides[p], t.sides[q], Step(t, Start(p, q, x));
      if (s.partner == null || (s.partner == q && s.state == ACKNOWLEDGE)) && (r.partner == null || r.partner == p) then
        && g.offers == t.offers[x := p] && g.sides.Keys == t.sides.Keys
        && g.sides[p] == Side(INITIATED, q, Some(x))
        && g.sides[q] == (if r.partner == null then Side(ACKNOWLEDGE, p, None) else r)
        && forall z :: z in t.sides && z != p && z != q ==> g.sides[z] == t.sides[z]
      else g == t
  {
    hide Settled;
    SettledRuns(t);
    PairOf(t, p);
    PairOf(t, q);
  }

  /** A player that was asked can offer an item in return, and the offer it was asked with stays. */
  lemma CounterOffer(t: Trades, p: Player, q: Player, y: Item)
    requires Settled(t) && q in t.sides && t.sides[q].state == ACKNOWLEDGE && t.sides[q].partner == p && y !in t.offers
    ensures p in t.sides
    ensures var g := Step(t, Start(q, p, y));
      && g.sides == t.sides[q := Side(INITIATED, p, Some(y))] && g.offers == t.offers[y := q]
      && g.sides[p].item.Some? && g.sides[p] == t.sides[p]
  {
    SettledRuns(t);
    PairOf(t, q);
    StartLaw(t, q, p, y);
  }

  /** Nobody trades with a third player. */
  lemma ThirdRefused(t: Trades, p: Player, q: Player, x: Item)
    requires Settled(t) && p in t.sides && q in t.sides
    requires (t.sides[p].partner != null && t.sides[p].partner != q) || (t.sides[q].partner != null && t.sides[q].partner != p)
    ensures Step(t, Start(p, q, x)) == t
  {
    hide Settled, Started;
    if p != q && x !in t.offers {
      StartLaw(t, p, q, x);
    }
  }

  /** Two players that offer two items to each other have both on offer. */
  lemma TwoOffers(p: Player, q: Player, x: Item, y: Item)
    requires p != q && x != y
    ensures Run(Idle({p, q}), [Start(p, q, x), Start(q, p, y)]) ==
      Trades(map[p := Side(INITIATED, q, Some(x)), q := Side(INITIATED, p, Some(y))], map[x := p, y := q])
  {
    var t0 := Idle({p, q});
    var t1 := Step(t0, Start(p, q, x));
    assert t1 == Trades(map[p := Side(INITIATED, q, Some(x)), q := Side(ACKNOWLEDGE, p, None)], map[x := p]);
    var t2 := Step(t1, Start(q, p, y));
    assert t2 == Trades(map[p := Side(INITIATED, q, Some(x)), q := Side(INITIATED, p, Some(y))], map[x := p, y := q]);
    TwoSteps(t0, Start(p, q, x), Start(q, p, y));
  }

  /** When both accept, the two items are exchanged, and both are idle again. */
  lemma TwoAccepts(p: Player, q: Player, x: Item, y: Item)
    requires p != q && x != y
    ensures var t := Run(Run(Idle({p, q}), [Start(p, q, x), Start(q, p, y)]), [Accept(p, HERE)]);
      && q in t.sides && Exchanges(t, q, HERE)
      && Transferring(t, q) ==
           Trades(map[p := Side(TRANSFER, q, Some(x)), q := Side(TRANSFER, p, Some(y))], map[])
      && Step(t, Accept(q, HERE)) == Idle({p, q})
  {
    hide Transferring, Exchanges, Idle;
    TwoOffers(p, q, x, y);
    var t2 := Trades(map[p := Side(INITIATED, q, Some(x)), q := Side(INITIATED, p, Some(y))], map[x := p, y := q]);
    FirstAccepts(p, q, x, y);
    assert [Accept(p, HERE)][1..] == [] && Run(Step(t2, Accept(p, HERE)), []) == Step(t2, Accept(p, HERE));
    SecondAccepts(p, q, x, y);
  }

  lemma FirstAccepts(p: Player, q: Player, x: Item, y: Item)
    requires p != q && x != y
    ensures Step(Trades(map[p := Side(INITIATED, q, Some(x)), q := Side(INITIATED, p, Some(y))], map[x := p, y := q]), Accept(p, HERE))
      == Trades(map[p := Side(ACCEPT, q, Some(x)), q := Side(INITIATED, p, Some(y))], map[x := p, y := q])
  {
    hide Transferring, Finished, Closed;
  }

  lemma SecondAccepts(p: Player, q: Player, x: Item, y: Item)
    requires p != q && x != y
    ensures var t := Trades(map[p := Side(ACCEPT, q, Some(x)), q := Side(INITIATED, p, Some(y))], map[x := p, y := q]);
      && Exchanges(t, q, HERE) && Step(t, Accept(q, HERE)) == Idle({p, q})
      && Transferring(t, q) ==
           Trades(map[p := Side(TRANSFER, q, Some(x)), q := Side(TRANSFER, p, Some(y))], map[])
  {
    var t := Trades(map[p := Side(ACCEPT, q, Some(x)), q := Side(INITIATED, p, Some(y))], map[x := p, y := q]);
    var m := Transferring(t, q);
    assert m == Trades(map[p := Side(TRANSFER, q, Some(x)), q := Side(TRANSFER, p, Some(y))], map[]);
    MarkedSame(t, q);
    assert Finished(ClosedAll(m, []), q) == Idle({p, q});
  }

  /** p's trade is over: both ends are idle, their offers are gone, and nobody else's trade has changed. */
  ghost predicate Over(t: Trades, p: Player, g: Trades)
    requires p in t.sides
  {
    var q := t.sides[p].partner;
    && g.sides.Keys == t.sides.Keys
    && (forall z :: z in t.sides ==> g.sides[z] == if z == p || z == q then Side(NONE, null, None) else t.sides[z])
    && (forall x :: x in g.offers <==> x in t.offers && t.offers[x] != p && t.offers[x] != q)
    && (forall x :: x in g.offers ==> g.offers[x] == t.offers[x])
  }

  lemma CloseLaw(t: Trades, p: Player)
    requires Settled(t) && p in t.sides
    ensures Over(t, p, Step(t, Close(p)))
  {
    hide Settled, Withdrawn, OffersExact;
    SettledRuns(t);
    PairOf(t, p);
    NotTransferring(t, p);
    WithdrawnExact(t, p);
  }

  lemma NotTransferring(t: Trades, p: Player)
    requires Settled(t) && p in t.sides
    ensures t.sides[p].state != TRANSFER && PartnerSide(t, p).state != TRANSFER
  {
  }

  /** Accepting without a trade, or a second time, changes nothing; before the partner it only marks the
      player; after the partner it ends the trade, by an exchange or without one. */
  lemma AcceptLaw(t: Trades, p: Player, w: World)
    requires Settled(t) && p in t.sides && Known(t, w) && w.requests == []
    ensures var s, g := t.sides[p], Step(t, Accept(p, w));
      if s.state == NONE || s.state == ACCEPT then g == t
      else if PartnerSide(t, p).state != ACCEPT then g == t.(sides := t.sides[p := s.(state := ACCEPT)])
      else Over(t, p, g)
  {
    hide Settled, Withdrawn, OffersExact;
    SettledRuns(t);
    PairOf(t, p);
    NotTransferring(t, p);
    if (t.sides[p].state == ACKNOWLEDGE || t.sides[p].state == INITIATED) && PartnerSide(t, p).state == ACCEPT {
      MarkedSame(t, p);
      CloseLaw(t, p);
      ClosedMarked(t, p);
      ExchangeOver(t, p);
    }
  }

  /** An exchange that nobody disturbs leaves what closing the trade would leave. */
  lemma ExchangeOver(t: Trades, p: Player)
    requires Settled(t) && p in t.sides && t.sides[p].partner != null
    ensures Transferring(t, p).sides.Keys == t.sides.Keys
    ensures Finished(Transferring(t, p), p) == Closed(t, p)
  {
    hide Withdrawn, OffersExact;
    SettledRuns(t);
    PairOf(t, p);
    NotTransferring(t, p);
    assert Finished(Transferring(t, p), p).sides == Closed(t, p).sides;
  }

  // ---------------------------------------------------------------- the game

  class Game {
    var tradeItems: map<Item, Player>

    constructor ()
      ensures tradeItems == map[]
    {
      tradeItems := map[];
    }

    ghost function State(ps: set<Player>): (t: Trades)
      reads this, ps
      ensures t.offers == tradeItems && t.sides.Keys == ps && forall p :: p in ps ==> t.sides[p] == p.Value()
    {
      Trades(map p | p in ps :: p.Value(), tradeItems)
    }

    /** Refuses an item that is offered already, or that holds or lies in an offered one. */
    method PlayerRequestTrade(player: Player, partner: Player, item: Item, holds: (Item, Item) -> bool, ghost ps: set<Player>)
      returns (ok: bool)
      requires Settled(State(ps)) && player in ps && partner in ps
      modifies this, ps
      ensures Settled(State(ps))
      ensures ok <==>
        && player != partner && MayStart(old(State(ps)), player, partner)
        && forall x :: x in old(tradeItems) ==> x != item && !holds(item, x) && !holds(x, item)
      ensures ok ==> item !in old(tradeItems) && State(ps) == Step(old(State(ps)), Start(player, partner, item))
      ensures !ok ==> State(ps) == old(State(ps))
    {
      hide Settled, Started;
      if player == partner {
        return false;
      }
      var offered := tradeItems.Keys;
      while offered != {}
        invariant offered <= tradeItems.Keys
        invariant forall x :: x in tradeItems && x !in offered ==> x != item && !holds(item, x) && !holds(x, item)
      {
        var x :| x in offered;
        if x == item || holds(item, x) || holds(x, item) {
          return false;
        }
        offered := offered - {x};
      }
      StartSettled(State(ps), player, partner, item);
      ok := InternalStartTrade(player, partner, item, ps);
    }

    method InternalStartTrade(player: Player, partner: Player, item: Item, ghost ps: set<Player>) returns (ok: bool)
      requires player in ps && partner in ps && player != partner
      modifies this, player, partner
      ensures State(ps) == Started(old(State(ps)), player, partner, item)
      ensures ok == MayStart(old(State(ps)), player, partner)
      ensures !ok ==> State(ps) == old(State(ps))
    {
      if player.tradeState != NONE && !(player.tradeState == ACKNOWLEDGE && player.tradePartner == partner) {
        return false;
      } else if partner.tradeState != NONE && partner.tradePartner != player {
        return false;
      }
      ghost var t := State(ps);
      player.tradePartner := partner;
      player.tradeItem := Some(item);
      player.tradeState := INITIATED;
      tradeItems := tradeItems[item := player];
      if partner.tradeState == NONE {
        partner.tradeState := ACKNOWLEDGE;
        partner.tradePartner := player;
      }
      ok := true;
      assert State(ps).sides == Started(t, player, partner, item).sides;
    }

    method Withdraw(item: Option<Item>)
      modifies this
      ensures tradeItems == Withdrawn(old(tradeItems), item)
    {
      if item.Some? {
        tradeItems := tradeItems - {item.value};
      }
    }

    method InternalCloseTrade(player: Player, ghost ps: set<Player>)
      requires player in ps && (player.tradePartner != null ==> player.tradePartner in ps && player.tradePartner != player)
      modifies this, player, player.tradePartner
      ensures State(ps) == Closed(old(State(ps)), player)
    {
      hide Withdrawn;
      ghost var t := State(ps);
      var partner := player.tradePartner;
      if (partner != null && partner.tradeState == TRANSFER) || player.tradeState == TRANSFER {
        return;
      }
      Withdraw(player.tradeItem);
      Reset(player);
      if partner != null {
        Withdraw(partner.tradeItem);
        Reset(partner);
      } else {
        NothingWithdrawn(tradeItems);
      }
      assert State(ps).sides == Closed(t, player).sides;
    }

    method Reset(player: Player)
      modifies player
      ensures player.Value() == NOT_TRADING
    {
      player.tradeItem := None;
      player.tradeState := NONE;
      player.tradePartner := null;
    }

    /** Close requests that arrive while items move. */
    method CloseRequests(requests: seq<Player>, ghost ps: set<Player>)
      requires Running(State(ps)) && forall i :: 0 <= i < |requests| ==> requests[i] in ps
      modifies this, ps
      ensures Running(State(ps)) && State(ps) == ClosedAll(old(State(ps)), requests)
    {
      hide Running, Closed;
      ghost var goal := ClosedAll(State(ps), requests);
      var n := 0;
      assert requests[0..] == requests;
      while n < |requests|
        invariant 0 <= n <= |requests| && Running(State(ps)) && goal == ClosedAll(State(ps), requests[n..])
      {
        ghost var t := State(ps);
        assert requests[n..][1..] == requests[n + 1..];
        PairOf(t, requests[n]);
        ClosedRuns(t, requests[n]);
        assert t.sides[requests[n]] == requests[n].Value();
        InternalCloseTrade(requests[n], ps);
        n := n + 1;
      }
    }

    /** Marks both ends as transferring and withdraws their offers. */
    method BeginTransfer(player: Player, ghost ps: set<Player>)
      requires player in ps && player.tradePartner != null && player.tradePartner in ps && player.tradePartner != player
      modifies this, player, player.tradePartner
      ensures State(ps) == Transferring(old(State(ps)), player) && player.tradePartner == old(player.tradePartner)
    {
      hide Withdrawn;
      ghost var t := State(ps);
      var partner := player.tradePartner;
      player.tradeState := TRANSFER;
      partner.tradeState := TRANSFER;
      Withdraw(player.tradeItem);
      Withdraw(partner.tradeItem);
      assert State(ps).sides == Transferring(t, player).sides;
    }

    method EndTransfer(player: Player, partner: Player, ghost ps: set<Player>)
      requires player in ps && partner in ps && player.tradePartner == partner && partner != player
      modifies player, partner
      ensures State(ps) == Finished(old(State(ps)), player)
    {
      ghost var t := State(ps);
      Reset(player);
      Reset(partner);
      assert State(ps).sides == Finished(t, player).sides;
    }

    method Mark(player: Player, ghost ps: set<Player>)
      requires player in ps
      modifies player`tradeState
      ensures State(ps) == old(State(ps)).(sides := old(State(ps)).sides[player := old(player.Value()).(state := ACCEPT)])
      ensures player.tradePartner == old(player.tradePartner)
    {
      ghost var t := State(ps);
      player.tradeState := ACCEPT;
      assert State(ps).sides == t.sides[player := t.sides[player].(state := ACCEPT)];
    }

    method PlayerAcceptTrade(player: Player, w: World, ghost ps: set<Player>)
      requires Settled(State(ps)) && player in ps && Known(State(ps), w)
      modifies this, ps
      ensures Settled(State(ps)) && State(ps) == Accepted(old(State(ps)), player, w)
    {
      hide Running, Transferring, Finished, Closed, ClosedAll, Settled;
      ghost var t := State(ps);
      AcceptSettled(t, player, w);
      SettledRuns(t);
      PairOf(t, player);
      assert t.sides[player] == player.Value();
      if !(player.tradeState == ACKNOWLEDGE || player.tradeState == INITIATED) {
        return;
      }
      var partner := player.tradePartner;
      if partner == null {
        return;
      }
      assert t.sides[partner] == partner.Value();
      Mark(player, ps);
      if partner.tradeState == ACCEPT {
        MarkedSame(t, player);
        if !w.inReach || !w.allowed {
          InternalCloseTrade(player, ps);
        } else {
          Exchange(player, w, t, ps);
        }
      }
    }

    /** The exchange itself: whatever comes of moving the items, both ends forget the trade. */
    method Exchange(player: Player, w: World, ghost t: Trades, ghost ps: set<Player>)
      requires Settled(t) && player in ps && player in t.sides && t.sides[player].partner != null && Known(t, w) && t.sides.Keys == ps
      requires player.tradePartner == t.sides[player].partner && player.tradePartner in ps && player.tradePartner != player
      requires Transferring(State(ps), player) == Transferring(t, player)
      modifies this, ps
      ensures player in ClosedAll(Transferring(t, player), w.requests).sides
      ensures State(ps) == Finished(ClosedAll(Transferring(t, player), w.requests), player)
    {
      hide Symmetric, StatesFit, PairsFit, OffersExact, Transferring, Finished, ClosedAll, OnlyPair;
      TransferringShape(t, player);
      TransferringOffers(t, player);
      BeginTransfer(player, ps);
      assert State(ps).sides[player] == player.Value();
      TransferSurvives(State(ps), player, w.requests);
      CloseRequests(w.requests, ps);
      assert State(ps).sides[player] == player.Value();
      PairOf(State(ps), player);
      var partner := player.tradePartner;
      EndTransfer(player, partner, ps);
    }
  }

  lemma NothingWithdrawn(offers: map<Item, Player>)
    ensures Withdrawn(offers, None) == offers
  {
  }

  lemma SettledRuns(t: Trades)
    requires Settled(t)
    ensures Running(t)
  {
  }
}
