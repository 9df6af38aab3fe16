/** The decay wheel: four buckets, one of which is looked at every 250 milliseconds. */
module DecayWheel {

  const INTERVAL := 250
  const BUCKETS := 4
  const ROUND := INTERVAL * BUCKETS

  class Item {
    var duration: int
    var canDecay: bool
    var decaying: bool

    constructor (duration: int, canDecay: bool)
      ensures this.duration == duration && this.canDecay == canDecay && !decaying
    {
      this.duration, this.canDecay, decaying := duration, canDecay, false;
    }
  }

  /** An item in a bucket, with its remaining duration. */
  datatype Entry = Entry(item: Item, duration: int, canDecay: bool)

  /** The buckets and the one looked at last. */
  datatype Wheel = Wheel(buckets: seq<seq<Entry>>, last: nat)

  ghost predicate Sized(w: Wheel) {
    |w.buckets| == BUCKETS && w.last < BUCKETS
  }

  // ---------------------------------------------------------------- one tick

  function Lowered(e: Entry): Entry {
    e.(duration := e.duration - if e.duration < ROUND then e.duration else ROUND)
  }

  /** Decays now: nothing is left, or too little to wait for another bucket. */
  predicate IsOver(e: Entry) {
    Lowered(e).duration <= 0 || Lowered(e).duration + INTERVAL / 2 < ROUND
  }

  /** Decays in the next bucket. */
  predicate IsClose(e: Entry) {
    !IsOver(e) && Lowered(e).duration < ROUND
  }

  function Stays(e: Entry): seq<Entry> {
    if e.canDecay && !IsOver(e) && !IsClose(e) then [Lowered(e)] else []
  }

  function Passes(e: Entry): seq<Entry> {
    if e.canDecay && IsClose(e) then [Lowered(e)] else []
  }

  function Ends(e: Entry): seq<Item> {
    if e.canDecay && IsOver(e) then [e.item] else []
  }

  function Staying(s: seq<Entry>): seq<Entry> {
    if s == [] then [] else Stays(s[0]) + Staying(s[1..])
  }

  function Passing(s: seq<Entry>): seq<Entry> {
    if s == [] then [] else Passes(s[0]) + Passing(s[1..])
  }

  function Over(s: seq<Entry>): seq<Item> {
    if s == [] then [] else Ends(s[0]) + Over(s[1..])
  }

  function Next(b: nat): nat {
    (b + 1) % BUCKETS
  }

  /** The next bucket is looked at: its items decay, move one bucket on, stay, or are dropped. */
  ghost function Turned(w: Wheel): Wheel
    requires Sized(w)
  {
    var b := Next(w.last);
    Wheel(w.buckets[b := Staying(w.buckets[b])][Next(b) := w.buckets[Next(b)] + Passing(w.buckets[b])], b)
  }

  ghost function Decaying(w: Wheel): seq<Item>
    requires Sized(w)
  {
    Over(w.buckets[Next(w.last)])
  }

  /** A new item goes to the bucket looked at last if it outlives a round, else to the next one. */
  ghost function Placed(w: Wheel, e: Entry): Wheel
    requires Sized(w) && e.duration > 0
  {
    var b := if e.duration >= ROUND then w.last else (w.last + 1 + e.duration / 1000) % BUCKETS;
    w.(buckets := w.buckets[b := w.buckets[b] + [e]])
  }

  ghost function PlacedAll(w: Wheel, es: seq<Entry>): (r: Wheel)
    requires Sized(w) && forall i :: 0 <= i < |es| ==> es[i].duration > 0
    ensures Sized(r) && r.last == w.last
    decreases |es|
  {
    if es == [] then w else PlacedAll(Placed(w, es[0]), es[1..])
  }

  // ---------------------------------------------------------------- when an item decays

  /** Ticks that pass after an item is looked at with d milliseconds left until it decays. */
  function Delay(d: int): nat
    decreases if d < 0 then 0 else d
  {
    var left := d - if d < ROUND then d else ROUND;
    if left <= 0 || left + INTERVAL / 2 < ROUND then 0
    else if left < ROUND then 1
    else 4 + Delay(left)
  }

  /** The tick on which an item in bucket b decays, counted from now. */
  function Due(last: nat, b: nat, d: int): nat {
    (b + BUCKETS - Next(last)) % BUCKETS + 1 + Delay(d)
  }

  /** Whole seconds, four ticks each, and one more tick when at least 875 milliseconds remain. */
  lemma {:induction false} DelayClosed(q: nat, r: nat)
    requires r < 1000
    ensures Delay(1000 * (q + 1) + r) == 4 * q + if r < 875 then 0 else 1
    decreases q
  {
    if q > 0 {
      DelayClosed(q - 1, r);
      assert 1000 * (q + 1) + r - ROUND == 1000 * (q - 1 + 1) + r;
    }
  }

  /** An item that starts with d milliseconds decays on the first tick if d is under a second, and
      otherwise on the tick that its whole seconds and its remainder give. */
  lemma DueOfNew(w: Wheel, e: Entry)
    requires Sized(w) && e.duration > 0
    ensures var d := e.duration;
      var b := if d >= ROUND then w.last else (w.last + 1 + d / 1000) % BUCKETS;
      Due(w.last, b, d) ==
        if d < 1000 then 1 else 4 * (d / 1000) + if d % 1000 < 875 then 0 else 1
  {
    var d := e.duration;
    if d >= 1000 {
      DelayClosed(d / 1000 - 1, d % 1000);
      assert 1000 * (d / 1000 - 1 + 1) + d % 1000 == d;
    }
  }

  // ---------------------------------------------------------------- where an item is

  ghost predicate At(w: Wheel, b: nat, i: nat, e: Entry) {
    b < |w.buckets| && i < |w.buckets[b]| && w.buckets[b][i] == e
  }

  /** How often an item occurs in a bucket. */
  function Times(s: seq<Entry>, x: Item): nat {
    if s == [] then 0 else (if s[0].item == x then 1 else 0) + Times(s[1..], x)
  }

  /** How often an item occurs in the whole wheel. */
  ghost function TimesIn(w: Wheel, x: Item): nat
    requires Sized(w)
  {
    Times(w.buckets[0], x) + Times(w.buckets[1], x) + Times(w.buckets[2], x) + Times(w.buckets[3], x)
  }

  lemma {:induction false} TimesSplit(s: seq<Entry>, t: seq<Entry>, x: Item)
    ensures Times(s + t, x) == Times(s, x) + Times(t, x)
    decreases |s|
  {
    if s == [] {
      assert s + t == t;
    } else {
      TimesSplit(s[1..], t, x);
      assert (s + t)[1..] == s[1..] + t;
    }
  }

  lemma {:induction false} TimesPositive(s: seq<Entry>, i: nat)
    requires i < |s|
    ensures Times(s, s[i].item) >= 1
    decreases i
  {
    if i > 0 {
      TimesPositive(s[1..], i - 1);
    }
  }

  /** The outcomes of the first entry and of the others. */
  lemma FirstOutcome(s: seq<Entry>, x: Item)
    requires s != []
    ensures Times(Staying(s), x) == Times(Stays(s[0]), x) + Times(Staying(s[1..]), x)
    ensures Times(Passing(s), x) == Times(Passes(s[0]), x) + Times(Passing(s[1..]), x)
    ensures x in Over(s) <==> x in Ends(s[0]) || x in Over(s[1..])
  {
    hide Stays, Passes, Ends;
    TimesSplit(Stays(s[0]), Staying(s[1..]), x);
    TimesSplit(Passes(s[0]), Passing(s[1..]), x);
  }

  lemma OneOutcome(e: Entry, x: Item)
    ensures Times(Stays(e), x) == if e.canDecay && !IsOver(e) && !IsClose(e) && e.item == x then 1 else 0
    ensures Times(Passes(e), x) == if e.canDecay && IsClose(e) && e.item == x then 1 else 0
    ensures x in Ends(e) <==> e.canDecay && IsOver(e) && e.item == x
    ensures |Stays(e)| <= 1 && |Passes(e)| <= 1
    ensures Stays(e) != [] ==> Stays(e) == [Lowered(e)]
    ensures Passes(e) != [] ==> Passes(e) == [Lowered(e)]
    ensures e.canDecay && !IsOver(e) && !IsClose(e) <==> Stays(e) != []
    ensures e.canDecay && IsClose(e) <==> Passes(e) != []
  {
    assert Times([Lowered(e)], x) == (if Lowered(e).item == x then 1 else 0) + Times([], x);
  }

  /** What is not in a bucket does not come out of it. */
  lemma {:induction false} Absent(s: seq<Entry>, x: Item)
    requires Times(s, x) == 0
    ensures Times(Staying(s), x) == 0 && Times(Passing(s), x) == 0 && x !in Over(s)
    decreases |s|
  {
    if s != [] {
      FirstOutcome(s, x);
      OneOutcome(s[0], x);
      Absent(s[1..], x);
    }
  }

  /** What has become of the entry e of a bucket. */
  ghost predicate Outcome(s: seq<Entry>, e: Entry, j: nat) {
    && (e.item in Over(s) <==> IsOver(e))
    && Times(Passing(s), e.item) == (if IsClose(e) then 1 else 0)
    && Times(Staying(s), e.item) == (if !IsOver(e) && !IsClose(e) then 1 else 0)
    && (IsClose(e) ==> j < |Passing(s)| && Passing(s)[j] == Lowered(e))
    && (!IsOver(e) && !IsClose(e) ==> j < |Staying(s)| && Staying(s)[j] == Lowered(e))
  }

  /** One look at a bucket sorts every entry into exactly one of the outcomes. */
  lemma {:induction false} LookedAt(s: seq<Entry>, i: nat) returns (j: nat)
    requires i < |s| && s[i].canDecay && Times(s, s[i].item) == 1
    ensures Outcome(s, s[i], j)
    decreases i
  {
    hide Outcome;
    if i == 0 {
      j := 0;
      OutcomeOfFirst(s);
    } else {
      TimesPositive(s[1..], i - 1);
      j := LookedAt(s[1..], i - 1);
      OutcomeBehind(s, s[i], j);
      j := j + if IsClose(s[i]) then |Passes(s[0])| else |Stays(s[0])|;
    }
  }

  lemma OutcomeOfFirst(s: seq<Entry>)
    requires s != [] && s[0].canDecay && Times(s, s[0].item) == 1
    ensures Outcome(s, s[0], 0)
  {
    hide IsOver, IsClose, Stays, Passes, Ends, Lowered;
    FirstOutcome(s, s[0].item);
    OneOutcome(s[0], s[0].item);
    EitherOr(s[0]);
    Absent(s[1..], s[0].item);
  }

  lemma OutcomeBehind(s: seq<Entry>, e: Entry, j: nat)
    requires s != [] && s[0].item != e.item && Outcome(s[1..], e, j)
    ensures Outcome(s, e, j + if IsClose(e) then |Passes(s[0])| else |Stays(s[0])|)
  {
    hide IsOver, IsClose, Stays, Passes, Ends, Lowered, Times;
    FirstOutcome(s, e.item);
    OneOutcome(s[0], e.item);
    EitherOr(e);
  }

  lemma EitherOr(e: Entry)
    ensures !(IsOver(e) && IsClose(e))
  {
  }

  // ---------------------------------------------------------------- the countdown

  /** x sits in exactly one place of the wheel and will decay on the k-th tick from now. */
  ghost predicate Sits(w: Wheel, b: nat, i: nat, x: Item, k: nat)
    requires Sized(w)
  {
    && b < BUCKETS && i < |w.buckets[b]| && w.buckets[b][i].item == x && w.buckets[b][i].canDecay
    && TimesIn(w, x) == 1 && Due(w.last, b, w.buckets[b][i].duration) == k
  }

  lemma OnlyThere(w: Wheel, b: nat, i: nat, x: Item, c: nat)
    requires Sized(w) && b < BUCKETS && c < BUCKETS && i < |w.buckets[b]| && w.buckets[b][i].item == x && TimesIn(w, x) == 1
    ensures Times(w.buckets[c], x) == if c == b then 1 else 0
  {
    hide Times;
    TimesPositive(w.buckets[b], i);
  }

  lemma TurnedTimes(w: Wheel, x: Item)
    requires Sized(w)
    ensures Sized(Turned(w))
    ensures var s := w.buckets[Next(w.last)];
      TimesIn(Turned(w), x) == TimesIn(w, x) - Times(s, x) + Times(Staying(s), x) + Times(Passing(s), x)
  {
    hide Times, Staying, Passing;
    var n := Next(w.last);
    TimesSplit(w.buckets[Next(n)], Passing(w.buckets[n]), x);
  }

  lemma OverIsDelay(e: Entry)
    ensures IsOver(e) <==> Delay(e.duration) == 0
    ensures IsClose(e) <==> Delay(e.duration) == 1
    ensures IsClose(e) ==> Delay(Lowered(e).duration) == 0
    ensures !IsOver(e) && !IsClose(e) ==> Delay(e.duration) == 4 + Delay(Lowered(e).duration)
  {
  }

  /** A bucket that is not looked at is one tick nearer. */
  lemma Nearer(last: nat, b: nat)
    requires last < BUCKETS && b < BUCKETS && b != Next(last)
    ensures (b + BUCKETS - Next(last)) % BUCKETS == (b + BUCKETS - Next(Next(last))) % BUCKETS + 1
  {
  }

  /** Every tick brings an item one tick nearer; on the tick it is due it decays and leaves the wheel,
      and no sooner. */
  lemma TickCountsDown(w: Wheel, b: nat, i: nat, x: Item, k: nat) returns (c: nat, j: nat)
    requires Sized(w) && Sits(w, b, i, x, k)
    ensures Sized(Turned(w)) && k >= 1
    ensures k == 1 ==> x in Decaying(w) && TimesIn(Turned(w), x) == 0
    ensures k > 1 ==> x !in Decaying(w) && Sits(Turned(w), c, j, x, k - 1)
  {
    hide Times, Staying, Passing, Delay, TimesIn, IsOver, IsClose, Over;
    var n := Next(w.last);
    var s, e := w.buckets[n], w.buckets[b][i];
    TurnedTimes(w, x);
    OnlyThere(w, b, i, x, n);
    if b == n {
      j := LookedAt(s, i);
      OverIsDelay(e);
      c := if IsClose(e) then Next(n) else n;
      if IsClose(e) {
        j := |w.buckets[Next(n)]| + j;
      }
    } else {
      Absent(s, x);
      Nearer(w.last, b);
      c, j := b, i;
    }
  }

  // ---------------------------------------------------------------- runs

  ghost function Spoil(s: seq<Entry>, spoiled: set<Item>): (r: seq<Entry>)
    ensures |r| == |s|
    ensures forall i :: 0 <= i < |s| ==> r[i] == if s[i].item in spoiled then s[i].(canDecay := false) else s[i]
  {
    seq(|s|, i requires 0 <= i < |s| => if s[i].item in spoiled then s[i].(canDecay := false) else s[i])
  }

  ghost function Spoiled(w: Wheel, spoiled: set<Item>): (r: Wheel)
    requires Sized(w)
    ensures Sized(r)
  {
    Wheel([Spoil(w.buckets[0], spoiled), Spoil(w.buckets[1], spoiled), Spoil(w.buckets[2], spoiled), Spoil(w.buckets[3], spoiled)], w.last)
  }

  lemma {:induction false} SpoilTimes(s: seq<Entry>, spoiled: set<Item>, x: Item)
    ensures Times(Spoil(s, spoiled), x) == Times(s, x)
    decreases |s|
  {
    if s != [] {
      SpoilTimes(s[1..], spoiled, x);
      assert Spoil(s, spoiled)[1..] == Spoil(s[1..], spoiled);
    }
  }

  lemma SpoiledSits(w: Wheel, b: nat, i: nat, x: Item, k: nat, spoiled: set<Item>)
    requires Sized(w) && Sits(w, b, i, x, k) && x !in spoiled
    ensures Sits(Spoiled(w, spoiled), b, i, x, k)
  {
    hide Times, Due;
    SpoilTimes(w.buckets[0], spoiled, x);
    SpoilTimes(w.buckets[1], spoiled, x);
    SpoilTimes(w.buckets[2], spoiled, x);
    SpoilTimes(w.buckets[3], spoiled, x);
  }

  lemma PlacedTimes(w: Wheel, e: Entry, x: Item)
    requires Sized(w) && e.duration > 0
    ensures TimesIn(Placed(w, e), x) == TimesIn(w, x) + if e.item == x then 1 else 0
  {
    var b := if e.duration >= ROUND then w.last else (w.last + 1 + e.duration / 1000) % BUCKETS;
    TimesSplit(w.buckets[b], [e], x);
    assert Times([e], x) == (if e.item == x then 1 else 0) + Times([], x);
  }

  ghost predicate Newcomers(es: seq<Entry>, x: Item) {
    forall i :: 0 <= i < |es| ==> es[i].duration > 0 && es[i].item != x
  }

  lemma {:induction false} PlacedAllSits(w: Wheel, es: seq<Entry>, b: nat, i: nat, x: Item, k: nat)
    requires Sized(w) && Sits(w, b, i, x, k) && Newcomers(es, x)
    ensures Sits(PlacedAll(w, es), b, i, x, k)
    decreases |es|
  {
    hide Times, Due, TimesIn;
    if es != [] {
      PlacedTimes(w, es[0], x);
      PlacedAllSits(Placed(w, es[0]), es[1..], b, i, x, k);
    }
  }

  /** One tick with its surroundings: items that have stopped being able to decay, and items that
      start decaying while it runs. */
  datatype Event = Event(spoiled: set<Item>, born: seq<Entry>)

  ghost predicate Leaves(ev: Event, x: Item) {
    x !in ev.spoiled && Newcomers(ev.born, x)
  }

  ghost function After(w: Wheel, ev: Event): (r: Wheel)
    requires Sized(w) && forall i :: 0 <= i < |ev.born| ==> ev.born[i].duration > 0
    ensures Sized(r)
  {
    PlacedAll(Turned(Spoiled(w, ev.spoiled)), ev.born)
  }

  ghost predicate AllLeave(evs: seq<Event>, x: Item) {
    forall t :: 0 <= t < |evs| ==> Leaves(evs[t], x)
  }

  /** The wheel after the first t events. */
  ghost function WheelAt(w: Wheel, evs: seq<Event>, t: nat, x: Item): (r: Wheel)
    requires Sized(w) && AllLeave(evs, x) && t <= |evs|
    ensures Sized(r)
    decreases t
  {
    if t == 0 then w else assert Leaves(evs[t - 1], x); After(WheelAt(w, evs, t - 1, x), evs[t - 1])
  }

  /** The items that decay on tick t + 1. */
  ghost function DecayingAt(w: Wheel, evs: seq<Event>, t: nat, x: Item): seq<Item>
    requires Sized(w) && AllLeave(evs, x) && t < |evs|
  {
    Decaying(Spoiled(WheelAt(w, evs, t, x), evs[t].spoiled))
  }

  /** Until it is due, an undisturbed item is in exactly one bucket and counts down with the ticks. */
  lemma {:induction false} CountsDown(w: Wheel, evs: seq<Event>, t: nat, b: nat, i: nat, x: Item, k: nat)
    returns (c: nat, j: nat)
    requires Sized(w) && Sits(w, b, i, x, k) && AllLeave(evs, x) && t <= |evs| && t < k
    ensures Sits(WheelAt(w, evs, t, x), c, j, x, k - t)
    decreases t
  {
    hide Sits, Turned, PlacedAll, Spoiled;
    if t == 0 {
      c, j := b, i;
    } else {
      c, j := CountsDown(w, evs, t - 1, b, i, x, k);
      var v := WheelAt(w, evs, t - 1, x);
      assert Leaves(evs[t - 1], x);
      SpoiledSits(v, c, j, x, k - t + 1, evs[t - 1].spoiled);
      c, j := TickCountsDown(Spoiled(v, evs[t - 1].spoiled), c, j, x, k - t + 1);
      PlacedAllSits(Turned(Spoiled(v, evs[t - 1].spoiled)), evs[t - 1].born, c, j, x, k - t);
    }
  }

  lemma DueAtLeastOne(w: Wheel, b: nat, i: nat, x: Item, k: nat)
    requires Sized(w) && Sits(w, b, i, x, k)
    ensures k >= 1
  {
  }

  /** An undisturbed item decays on the tick it is due and on no tick before. */
  lemma DecaysOnDueTick(w: Wheel, evs: seq<Event>, b: nat, i: nat, x: Item, k: nat)
    requires Sized(w) && Sits(w, b, i, x, k) && AllLeave(evs, x) && k <= |evs|
    ensures k >= 1 && x in DecayingAt(w, evs, k - 1, x)
    ensures forall t {:trigger DecayingAt(w, evs, t, x)} :: 0 <= t < k - 1 ==> x !in DecayingAt(w, evs, t, x)
    ensures forall t {:trigger WheelAt(w, evs, t, x)} :: 0 <= t < k ==> TimesIn(WheelAt(w, evs, t, x), x) == 1
  {
    hide Turned, PlacedAll, Spoiled, Due, WheelAt, TimesIn, Decaying;
    DueAtLeastOne(w, b, i, x, k);
    forall t | 0 <= t < k
      ensures TimesIn(WheelAt(w, evs, t, x), x) == 1 && (x in DecayingAt(w, evs, t, x) <==> t == k - 1)
    {
      var c, j := CountsDown(w, evs, t, b, i, x, k);
      assert Leaves(evs[t], x);
      SpoiledSits(WheelAt(w, evs, t, x), c, j, x, k - t, evs[t].spoiled);
      c, j := TickCountsDown(Spoiled(WheelAt(w, evs, t, x), evs[t].spoiled), c, j, x, k - t);
    }
  }

  /** An item that starts with d milliseconds to live, and is left alone, decays on tick 1 if d is
      under a second, and otherwise on tick 4q or 4q + 1, by whether its remainder is under 875. */
  lemma NewItemDecays(w: Wheel, e: Entry, evs: seq<Event>)
    requires Sized(w) && e.duration > 0 && e.canDecay && TimesIn(w, e.item) == 0 && AllLeave(evs, e.item)
    requires |evs| > 4 * (e.duration / 1000) + 1
    ensures var k := if e.duration < 1000 then 1 else 4 * (e.duration / 1000) + if e.duration % 1000 < 875 then 0 else 1;
      && e.item in DecayingAt(Placed(w, e), evs, k - 1, e.item)
      && forall t {:trigger DecayingAt(Placed(w, e), evs, t, e.item)} :: 0 <= t < k - 1 ==>
           e.item !in DecayingAt(Placed(w, e), evs, t, e.item)
    ensures var k := if e.duration < 1000 then 1 else 4 * (e.duration / 1000) + if e.duration % 1000 < 875 then 0 else 1;
      forall t {:trigger WheelAt(Placed(w, e), evs, t, e.item)} :: 0 <= t < k ==>
        TimesIn(WheelAt(Placed(w, e), evs, t, e.item), e.item) == 1
  {
    hide Due, DecayingAt, TimesIn, AllLeave;
    var b := if e.duration >= ROUND then w.last else (w.last + 1 + e.duration / 1000) % BUCKETS;
    var k := if e.duration < 1000 then 1 else 4 * (e.duration / 1000) + if e.duration % 1000 < 875 then 0 else 1;
    PlacedTimes(w, e, e.item);
    DueOfNew(w, e);
    DecaysOnDueTick(Placed(w, e), evs, b, |w.buckets[b]|, e.item, k);
  }

  // ---------------------------------------------------------------- items that are taken out

  /** x sits in exactly one place of the wheel and cannot decay any more. */
  ghost predicate Lies(w: Wheel, b: nat, i: nat, x: Item)
    requires Sized(w)
  {
    && b < BUCKETS && i < |w.buckets[b]| && w.buckets[b][i].item == x && !w.buckets[b][i].canDecay
    && TimesIn(w, x) == 1
  }

  /** An item that cannot decay does not come out of the bucket that is looked at. */
  lemma {:induction false} Dropped(s: seq<Entry>, i: nat)
    requires i < |s| && !s[i].canDecay && Times(s, s[i].item) == 1
    ensures Times(Staying(s), s[i].item) == 0 && Times(Passing(s), s[i].item) == 0 && s[i].item !in Over(s)
    decreases i
  {
    hide IsOver, IsClose, Stays, Passes, Ends, Lowered, Staying, Passing, Over;
    var x := s[i].item;
    FirstOutcome(s, x);
    OneOutcome(s[0], x);
    if i == 0 {
      Absent(s[1..], x);
    } else {
      TimesPositive(s[1..], i - 1);
      Dropped(s[1..], i - 1);
    }
  }

  /** It leaves the wheel when its bucket is looked at, and stays where it is until then. */
  lemma TickDrops(w: Wheel, b: nat, i: nat, x: Item)
    requires Sized(w) && Lies(w, b, i, x)
    ensures Sized(Turned(w)) && x !in Decaying(w)
    ensures if b == Next(w.last) then TimesIn(Turned(w), x) == 0 else Lies(Turned(w), b, i, x)
  {
    hide Times, Staying, Passing, TimesIn, Over;
    var n := Next(w.last);
    TurnedTimes(w, x);
    OnlyThere(w, b, i, x, n);
    if b == n {
      Dropped(w.buckets[n], i);
    } else {
      Absent(w.buckets[n], x);
    }
  }

  lemma SpoiledLies(w: Wheel, b: nat, i: nat, x: Item, spoiled: set<Item>)
    requires Sized(w) && b < BUCKETS && i < |w.buckets[b]| && w.buckets[b][i].item == x && TimesIn(w, x) == 1
    requires x in spoiled || !w.buckets[b][i].canDecay
    ensures Lies(Spoiled(w, spoiled), b, i, x)
  {
    hide Times;
    SpoilTimes(w.buckets[0], spoiled, x);
    SpoilTimes(w.buckets[1], spoiled, x);
    SpoilTimes(w.buckets[2], spoiled, x);
    SpoilTimes(w.buckets[3], spoiled, x);
  }

  lemma {:induction false} PlacedAllLies(w: Wheel, es: seq<Entry>, b: nat, i: nat, x: Item)
    requires Sized(w) && Lies(w, b, i, x) && Newcomers(es, x)
    ensures Lies(PlacedAll(w, es), b, i, x)
    decreases |es|
  {
    hide Times, TimesIn;
    if es != [] {
      PlacedTimes(w, es[0], x);
      PlacedAllLies(Placed(w, es[0]), es[1..], b, i, x);
    }
  }

  lemma {:induction false} PlacedAllTimes(w: Wheel, es: seq<Entry>, x: Item)
    requires Sized(w) && Newcomers(es, x)
    ensures TimesIn(PlacedAll(w, es), x) == TimesIn(w, x)
    decreases |es|
  {
    hide Times, TimesIn;
    if es != [] {
      PlacedTimes(w, es[0], x);
      PlacedAllTimes(Placed(w, es[0]), es[1..], x);
    }
  }

  /** Ticks until bucket b is looked at. */
  function Turns(last: nat, b: nat): (k: nat)
    requires last < BUCKETS && b < BUCKETS
    ensures 1 <= k <= BUCKETS
  {
    (b + BUCKETS - Next(last)) % BUCKETS + 1
  }

  /** One event of which x is left alone, before its bucket is looked at. */
  lemma LiesOnce(w: Wheel, ev: Event, b: nat, i: nat, x: Item)
    requires Sized(w) && Lies(w, b, i, x) && Leaves(ev, x) && b < BUCKETS && b != Next(w.last)
    ensures Lies(After(w, ev), b, i, x) && Turns(After(w, ev).last, b) == Turns(w.last, b) - 1
    ensures x !in Decaying(Spoiled(w, ev.spoiled))
  {
    hide Lies, Turned, PlacedAll, Spoiled, Decaying, TimesIn;
    LiesAt(w, b, i, x);
    SpoiledLies(w, b, i, x, ev.spoiled);
    var v := Spoiled(w, ev.spoiled);
    SpoiledLast(w, ev.spoiled);
    TickDrops(v, b, i, x);
    TurnedLast(v);
    PlacedAllLies(Turned(v), ev.born, b, i, x);
    Nearer(w.last, b);
  }

  lemma SpoiledLast(w: Wheel, spoiled: set<Item>)
    requires Sized(w)
    ensures Spoiled(w, spoiled).last == w.last
  {
  }

  lemma TurnedLast(w: Wheel)
    requires Sized(w)
    ensures Sized(Turned(w)) && Turned(w).last == Next(w.last)
  {
  }

  /** ... and the one at whose tick it is looked at. */
  lemma LiesLast(w: Wheel, ev: Event, b: nat, i: nat, x: Item)
    requires Sized(w) && Lies(w, b, i, x) && Leaves(ev, x) && b == Next(w.last)
    ensures TimesIn(After(w, ev), x) == 0 && x !in Decaying(Spoiled(w, ev.spoiled))
  {
    hide Lies, Turned, PlacedAll, Spoiled, Decaying, TimesIn;
    LiesAt(w, b, i, x);
    SpoiledLies(w, b, i, x, ev.spoiled);
    var v := Spoiled(w, ev.spoiled);
    SpoiledLast(w, ev.spoiled);
    TickDrops(v, b, i, x);
    PlacedAllTimes(Turned(v), ev.born, x);
  }

  lemma {:induction false} LiesOn(w: Wheel, evs: seq<Event>, t: nat, b: nat, i: nat, x: Item)
    requires Sized(w) && Lies(w, b, i, x) && AllLeave(evs, x) && t <= |evs| && b < BUCKETS && t < Turns(w.last, b)
    ensures Lies(WheelAt(w, evs, t, x), b, i, x) && Turns(WheelAt(w, evs, t, x).last, b) == Turns(w.last, b) - t
    decreases t
  {
    hide Lies, After, Leaves;
    if t > 0 {
      LiesOn(w, evs, t - 1, b, i, x);
      assert Leaves(evs[t - 1], x);
      LiesOnce(WheelAt(w, evs, t - 1, x), evs[t - 1], b, i, x);
    }
  }

  lemma LiesAt(w: Wheel, b: nat, i: nat, x: Item)
    requires Sized(w) && Lies(w, b, i, x)
    ensures b < BUCKETS && i < |w.buckets[b]| && w.buckets[b][i].item == x && !w.buckets[b][i].canDecay && TimesIn(w, x) == 1
  {
  }

  /** An item that has been taken out of its cylinder cannot decay any more. It stays in its bucket until
      that is looked at, at most four ticks later, and is gone then; it never decays. */
  lemma TakenOutLeaves(w: Wheel, evs: seq<Event>, b: nat, i: nat, x: Item)
    requires Sized(w) && b < BUCKETS && Lies(w, b, i, x) && AllLeave(evs, x) && Turns(w.last, b) <= |evs|
    ensures var k := Turns(w.last, b);
      && (forall t {:trigger WheelAt(w, evs, t, x)} :: 0 <= t < k ==> TimesIn(WheelAt(w, evs, t, x), x) == 1)
      && (forall t {:trigger DecayingAt(w, evs, t, x)} :: 0 <= t < k ==> x !in DecayingAt(w, evs, t, x))
      && TimesIn(WheelAt(w, evs, k, x), x) == 0
  {
    hide After, Lies, TimesIn, Decaying, Spoiled, Leaves;
    var k := Turns(w.last, b);
    forall t | 0 <= t < k
      ensures TimesIn(WheelAt(w, evs, t, x), x) == 1 && x !in DecayingAt(w, evs, t, x)
      ensures t == k - 1 ==> TimesIn(WheelAt(w, evs, k, x), x) == 0
    {
      LiesOn(w, evs, t, b, i, x);
      var v := WheelAt(w, evs, t, x);
      LiesAt(v, b, i, x);
      assert Leaves(evs[t], x);
      if b == Next(v.last) {
        LiesLast(v, evs[t], b, i, x);
      } else {
        LiesOnce(v, evs[t], b, i, x);
      }
    }
  }

  // ---------------------------------------------------------------- the game's lists

  function EntryOf(x: Item): Entry
    reads x
  {
    Entry(x, x.duration, x.canDecay)
  }

  function Entries(s: seq<Item>): (r: seq<Entry>)
    reads s
    ensures |r| == |s| && forall i :: 0 <= i < |s| ==> r[i] == EntryOf(s[i])
  {
    if s == [] then [] else [EntryOf(s[0])] + Entries(s[1..])
  }

  datatype Verdict = Drop | Decay | Pass | Stay

  function VerdictOf(e: Entry): Verdict {
    if !e.canDecay then Drop else if IsOver(e) then Decay else if IsClose(e) then Pass else Stay
  }

  /** What the first entry adds to the outcomes of a bucket. */
  lemma OutcomesFrom(es: seq<Entry>, k: nat)
    requires k < |es|
    ensures var e, v := es[k], VerdictOf(es[k]);
      && Staying(es[k..]) == (if v.Stay? then [Lowered(e)] else []) + Staying(es[k + 1..])
      && Passing(es[k..]) == (if v.Pass? then [Lowered(e)] else []) + Passing(es[k + 1..])
      && Over(es[k..]) == (if v.Decay? then [e.item] else []) + Over(es[k + 1..])
  {
    hide IsOver, IsClose;
    EitherOr(es[k]);
    assert es[k..][1..] == es[k + 1..];
  }

  ghost function Occurs(lists: seq<seq<Item>>, x: Item): nat {
    if lists == [] then 0 else multiset(lists[0])[x] + Occurs(lists[1..], x)
  }

  class Game {
    var decayItems: seq<seq<Item>>
    var lastBucket: nat
    var toDecayItems: seq<Item>

    constructor ()
      ensures decayItems == [[], [], [], []] && lastBucket == 0 && toDecayItems == []
    {
      decayItems, lastBucket, toDecayItems := [[], [], [], []], 0, [];
    }

    /** The lists hold items of s only, no item twice, and waiting items have time left. */
    ghost predicate Valid(s: set<Item>)
      reads this, s
    {
      && |decayItems| == BUCKETS && lastBucket < BUCKETS
      && (forall b, i :: 0 <= b < BUCKETS && 0 <= i < |decayItems[b]| ==> decayItems[b][i] in s)
      && (forall x :: x in toDecayItems ==> x in s && x.duration > 0)
      && (forall x {:trigger x in s} :: x in s ==> Occurs(decayItems + [toDecayItems], x) <= if x.decaying then 1 else 0)
    }

    ghost function State(s: set<Item>): (w: Wheel)
      reads this, s
      requires Valid(s)
      ensures Sized(w)
    {
      Wheel([Entries(decayItems[0]), Entries(decayItems[1]), Entries(decayItems[2]), Entries(decayItems[3])], lastBucket)
    }

    /** Lowers the duration of an item whose bucket is looked at, and says what becomes of it. */
    method LookAt(x: Item) returns (v: Verdict)
      modifies x
      ensures v == VerdictOf(old(EntryOf(x)))
      ensures EntryOf(x) == if v.Drop? then old(EntryOf(x)) else Lowered(old(EntryOf(x)))
      ensures x.decaying == (old(x.decaying) && !v.Drop?)
    {
      if !x.canDecay {
        x.decaying := false;
        return Drop;
      }
      var duration := x.duration;
      var decreaseTime := if duration < ROUND then duration else ROUND;
      duration := duration - decreaseTime;
      x.duration := duration;
      if duration <= 0 {
        v := Decay;
      } else if duration < ROUND {
        v := if (duration + INTERVAL / 2) / 1000 % BUCKETS == 0 then Decay else Pass;
      } else {
        v := Stay;
      }
    }

    /** Looks at one item of a bucket and edits the lists. */
    method LookAtNext(b: nat, i: nat, ghost s: set<Item>) returns (v: Verdict)
      requires Valid(s) && b < BUCKETS && i < |decayItems[b]|
      modifies this`decayItems, decayItems[b][i]
      ensures v == VerdictOf(old(EntryOf(decayItems[b][i])))
      ensures Valid(s) && decayItems == Edited(old(decayItems), b, i, v)
      ensures var x := old(decayItems[b][i]);
        EntryOf(x) == if v.Drop? then old(EntryOf(x)) else Lowered(old(EntryOf(x)))
    {
      hide Occurs, Lowered, VerdictOf;
      var x := decayItems[b][i];
      ghost var lists := decayItems + [toDecayItems];
      assert lists[b] == decayItems[b];
      EditedOccurs(decayItems, toDecayItems, b, i, s);
      NotWaiting(decayItems, toDecayItems, b, i);
      assert x in s;
      v := LookAt(x);
      match v {
        case Stay =>
        case Pass =>
          decayItems := decayItems[b := Erased(decayItems[b], i)][Next(b) := decayItems[Next(b)] + [x]];
        case _ =>
          decayItems := decayItems[b := Erased(decayItems[b], i)];
      }
      assert decayItems == Edited(old(decayItems), b, i, v);
      forall y {:trigger y in s} | y in s ensures Occurs(decayItems + [toDecayItems], y) <= if y.decaying then 1 else 0 {
        assert Occurs(Edited(old(decayItems), b, i, v) + [toDecayItems], y) <= Occurs(lists, y);
      }
      EditedItems(old(decayItems), b, i, v, s);
    }

    /** One step of the loop over bucket b: what its entries before and behind the place become. */
    method StepBucket(b: nat, i: nat, ghost s: set<Item>) returns (v: Verdict, i': nat)
      requires Valid(s) && b < BUCKETS && i < |decayItems[b]|
      modifies this`decayItems, decayItems[b][i]
      ensures Valid(s) && v == VerdictOf(old(EntryOf(decayItems[b][i]))) && i' <= |decayItems[b]|
      ensures Entries(decayItems[b][..i']) ==
        old(Entries(decayItems[b][..i])) + if v.Stay? then [Lowered(old(EntryOf(decayItems[b][i])))] else []
      ensures Entries(decayItems[b][i'..]) == old(Entries(decayItems[b][i + 1..]))
      ensures Entries(decayItems[Next(b)]) ==
        old(Entries(decayItems[Next(b)])) + if v.Pass? then [Lowered(old(EntryOf(decayItems[b][i])))] else []
      ensures forall c {:trigger decayItems[c]} :: 0 <= c < BUCKETS && c != b && c != Next(b) ==>
        Entries(decayItems[c]) == old(Entries(decayItems[c]))
    {
      hide Occurs, Lowered, VerdictOf, Entries;
      ghost var lists, x := decayItems, decayItems[b][i];
      assert x in s;
      NotWaiting(lists, toDecayItems, b, i);
      v := LookAtNext(b, i, s);
      i' := if v.Stay? then i + 1 else i;
      EntriesSplit(lists[b][..i], [x]);
      EntriesSplit(lists[Next(b)], [x]);
      assert lists[b][..i + 1] == lists[b][..i] + [x];
      assert !v.Stay? ==> Erased(lists[b], i)[..i] == lists[b][..i] && Erased(lists[b], i)[i..] == lists[b][i + 1..];
      OneEntry(x);
    }

    method TurnOne(b: nat, i: nat, decayed: seq<Item>, ghost s: set<Item>, ghost w: Wheel, ghost k: nat)
      returns (i': nat, decayed': seq<Item>)
      requires Valid(s) && b < BUCKETS && i < |decayItems[b]| && Sized(w) && b == Next(w.last)
      requires Turning(w, k, Entries(decayItems[b][..i]), Entries(decayItems[b][i..]), Entries(decayItems[Next(b)]), decayed)
      modifies this`decayItems, decayItems[b][i]
      ensures Valid(s) && i' <= |decayItems[b]| && k < |w.buckets[b]|
      ensures Turning(w, k + 1, Entries(decayItems[b][..i']), Entries(decayItems[b][i'..]), Entries(decayItems[Next(b)]), decayed')
      ensures forall c {:trigger decayItems[c]} :: 0 <= c < BUCKETS && c != b && c != Next(b) ==>
        Entries(decayItems[c]) == old(Entries(decayItems[c]))
    {
      hide Occurs, Lowered, VerdictOf, Entries, Turning;
      var x := decayItems[b][i];
      FirstEntry(decayItems[b], i);
      TurningStep(w, k, Entries(decayItems[b][..i]), Entries(decayItems[b][i..]), Entries(decayItems[Next(b)]), decayed);
      var v;
      v, i' := StepBucket(b, i, s);
      assert decayed + [] == decayed;
      decayed' := if v.Decay? then decayed + [x] else decayed;
    }

    lemma Parts(s: set<Item>)
      requires Valid(s)
      ensures |decayItems| == BUCKETS && lastBucket < BUCKETS
      ensures forall b, i :: 0 <= b < BUCKETS && 0 <= i < |decayItems[b]| ==> decayItems[b][i] in s
    {
    }

    method TurnItems(b: nat, ghost s: set<Item>, ghost w: Wheel) returns (decayed: seq<Item>)
      requires Valid(s) && w == State(s) && b == Next(w.last)
      modifies this`decayItems, s
      ensures Valid(s) && decayed == Over(w.buckets[b]) && |decayItems| == BUCKETS
      ensures Entries(decayItems[b]) == Staying(w.buckets[b])
      ensures Entries(decayItems[Next(b)]) == w.buckets[Next(b)] + Passing(w.buckets[b])
      ensures forall c {:trigger decayItems[c]} :: 0 <= c < BUCKETS && c != b && c != Next(b) ==> Entries(decayItems[c]) == w.buckets[c]
    {
      hide Entries, Turning, Valid, Staying, Passing, Over;
      Parts(s);
      StateBuckets(s);
      var i := 0;
      decayed := [];
      ghost var k := 0;
      StartTurning(w, decayItems[b]);
      while i < |decayItems[b]|
        invariant Valid(s) && |decayItems| == BUCKETS
        invariant 0 <= i <= |decayItems[b]| && 0 <= k
        invariant Turning(w, k, Entries(decayItems[b][..i]), Entries(decayItems[b][i..]), Entries(decayItems[Next(b)]), decayed)
        invariant forall c {:trigger decayItems[c]} :: 0 <= c < BUCKETS && c != b && c != Next(b) ==> Entries(decayItems[c]) == w.buckets[c]
        decreases |w.buckets[b]| - k
      {
        Parts(s);
        i, decayed := TurnOne(b, i, decayed, s, w, k);
        Parts(s);
        k := k + 1;
      }
      assert decayItems[b][..i] == decayItems[b];
      EndTurning(w, k, Entries(decayItems[b]), Entries(decayItems[b][i..]), Entries(decayItems[Next(b)]), decayed);
    }

    lemma StateBuckets(s: set<Item>)
      requires Valid(s)
      ensures |decayItems| == BUCKETS && State(s).last == lastBucket
      ensures forall c :: 0 <= c < BUCKETS ==> State(s).buckets[c] == Entries(decayItems[c])
    {
    }

    /** Turns the wheel: the next bucket is looked at item by item. */
    method TurnBucket(ghost s: set<Item>) returns (decayed: seq<Item>)
      requires Valid(s)
      modifies this`decayItems, this`lastBucket, s
      ensures Valid(s) && toDecayItems == old(toDecayItems)
      ensures State(s) == Turned(old(State(s))) && decayed == Decaying(old(State(s)))
    {
      hide Entries, Staying, Passing, Over, Occurs;
      var b := (lastBucket + 1) % BUCKETS;
      ghost var w := State(s);
      decayed := TurnItems(b, s, w);
      lastBucket := b;
      StateBuckets(s);
      forall c | 0 <= c < BUCKETS ensures State(s).buckets[c] == Turned(w).buckets[c] {
        assert decayItems[c] == decayItems[c];
      }
      assert State(s).buckets == Turned(w).buckets;
    }

    /** Queues an item whose duration is to run down, unless it is queued already; an item without
        duration decays at once. */
    method StartDecay(item: Item, ghost s: set<Item>) returns (atOnce: bool)
      requires Valid(s) && item in s
      modifies this`toDecayItems, item`decaying
      ensures Valid(s) && State(s) == old(State(s))
      ensures atOnce == old(item.canDecay && !item.decaying && item.duration <= 0)
      ensures toDecayItems ==
        if old(item.canDecay && !item.decaying && item.duration > 0) then [item] + old(toDecayItems) else old(toDecayItems)
    {
      hide Occurs, Entries;
      if !item.canDecay || item.decaying {
        return false;
      }
      if item.duration <= 0 {
        return true;
      }
      forall x | x in s
        ensures Occurs(decayItems + [[item] + toDecayItems], x) == Occurs(decayItems + [toDecayItems], x) + if x == item then 1 else 0
      {
        OccursChanged(decayItems + [toDecayItems], BUCKETS, [item] + toDecayItems, x);
        assert (decayItems + [toDecayItems])[BUCKETS := [item] + toDecayItems] == decayItems + [[item] + toDecayItems];
      }
      ghost var w := State(s);
      item.decaying := true;
      toDecayItems := [item] + toDecayItems;
      atOnce := false;
      assert Entries(decayItems[0]) == w.buckets[0] && Entries(decayItems[1]) == w.buckets[1];
      assert Entries(decayItems[2]) == w.buckets[2] && Entries(decayItems[3]) == w.buckets[3];
    }

    /** Puts the first waiting item into its bucket. */
    method PlaceFirst(ghost s: set<Item>)
      requires Valid(s) && toDecayItems != []
      modifies this`decayItems, this`toDecayItems
      ensures Valid(s) && toDecayItems == old(toDecayItems[1..])
      ensures toDecayItems == old(toDecayItems)[1..] && old(toDecayItems)[0].duration > 0
      ensures State(s) == Placed(old(State(s)), EntryOf(old(toDecayItems)[0]))
    {
      hide Occurs, Entries;
      var item := toDecayItems[0];
      assert item in toDecayItems;
      var dur := item.duration;
      var b := if dur >= ROUND then lastBucket else (lastBucket + 1 + dur / 1000) % BUCKETS;
      forall x | x in s
        ensures Occurs(decayItems[b := decayItems[b] + [item]] + [toDecayItems[1..]], x) == Occurs(decayItems + [toDecayItems], x)
      {
        WaitingPlaced(decayItems, toDecayItems, b, x);
      }
      EntriesSplit(decayItems[b], [item]);
      OneEntry(item);
      decayItems := decayItems[b := decayItems[b] + [item]];
      toDecayItems := toDecayItems[1..];
      assert State(s).buckets == Placed(old(State(s)), EntryOf(item)).buckets;
    }

    /** Puts every waiting item into its bucket. */
    method Cleanup(ghost s: set<Item>)
      requires Valid(s)
      modifies this`decayItems, this`toDecayItems
      ensures Valid(s) && toDecayItems == []
      ensures forall i :: 0 <= i < |old(Entries(toDecayItems))| ==> old(Entries(toDecayItems))[i].duration > 0
      ensures State(s) == PlacedAll(old(State(s)), old(Entries(toDecayItems)))
    {
      hide Valid, Entries, Placed;
      WaitingLast(s);
      ghost var goal := PlacedAll(State(s), Entries(toDecayItems));
      while toDecayItems != []
        invariant Valid(s)
        invariant forall i :: 0 <= i < |Entries(toDecayItems)| ==> Entries(toDecayItems)[i].duration > 0
        invariant goal == PlacedAll(State(s), Entries(toDecayItems))
        decreases |toDecayItems|
      {
        ghost var es := Entries(toDecayItems);
        assert Entries(toDecayItems)[1..] == Entries(toDecayItems[1..]) && es[0] == EntryOf(toDecayItems[0]);
        PlaceFirst(s);
        WaitingLast(s);
      }
    }

    lemma WaitingLast(s: set<Item>)
      requires Valid(s)
      ensures forall i :: 0 <= i < |Entries(toDecayItems)| ==> Entries(toDecayItems)[i].duration > 0
    {
      forall i | 0 <= i < |Entries(toDecayItems)| ensures Entries(toDecayItems)[i].duration > 0 {
        assert toDecayItems[i] in toDecayItems;
      }
    }

    /** One tick: the wheel turns, what decaying items turn into starts to decay, and everything that
        waits goes into the buckets. */
    method CheckDecay(successors: seq<Item>, ghost s: set<Item>)
      returns (decayed: seq<Item>, ghost waiting: seq<Entry>)
      requires Valid(s) && forall i :: 0 <= i < |successors| ==> successors[i] in s
      modifies this, s
      ensures Valid(s) && decayed == Decaying(old(State(s)))
      ensures forall i :: 0 <= i < |waiting| ==> waiting[i].duration > 0
      ensures State(s) == PlacedAll(Turned(old(State(s))), waiting)
    {
      hide Valid, Entries, Turned, PlacedAll, Decaying;
      decayed := TurnBucket(s);
      ghost var turned := State(s);
      var n := 0;
      while n < |successors|
        invariant 0 <= n <= |successors| && Valid(s) && State(s) == turned
      {
        var atOnce := StartDecay(successors[n], s);
        n := n + 1;
      }
      waiting := Entries(toDecayItems);
      Cleanup(s);
    }
  }

  lemma WaitingPlaced(lists: seq<seq<Item>>, waiting: seq<Item>, b: nat, x: Item)
    requires b < |lists| && waiting != []
    ensures Occurs(lists[b := lists[b] + [waiting[0]]] + [waiting[1..]], x) == Occurs(lists + [waiting], x)
  {
    hide Occurs;
    var n := |lists|;
    OccursChanged(lists + [waiting], b, lists[b] + [waiting[0]], x);
    var more := lists[b := lists[b] + [waiting[0]]];
    assert (lists + [waiting])[b := lists[b] + [waiting[0]]] == more + [waiting];
    OccursChanged(more + [waiting], n, waiting[1..], x);
    assert (more + [waiting])[n := waiting[1..]] == more + [waiting[1..]];
    assert waiting == [waiting[0]] + waiting[1..];
  }

  /** The loop over the next bucket has looked at k of its entries. */
  ghost predicate Turning(w: Wheel, k: nat, before: seq<Entry>, rest: seq<Entry>, next: seq<Entry>, decayed: seq<Item>)
    requires Sized(w)
  {
    var es := w.buckets[Next(w.last)];
    && k <= |es| && rest == es[k..] && before + Staying(rest) == Staying(es)
    && next + Passing(rest) == w.buckets[Next(Next(w.last))] + Passing(es) && decayed + Over(rest) == Over(es)
  }

  lemma StartTurning(w: Wheel, list: seq<Item>)
    requires Sized(w) && Entries(list) == w.buckets[Next(w.last)]
    ensures Turning(w, 0, Entries(list[..0]), Entries(list[0..]), w.buckets[Next(Next(w.last))], [])
  {
    assert list[0..] == list && list[..0] == [];
  }

  lemma TurningStep(w: Wheel, k: nat, before: seq<Entry>, rest: seq<Entry>, next: seq<Entry>, decayed: seq<Item>)
    requires Sized(w) && Turning(w, k, before, rest, next, decayed) && rest != []
    ensures k < |w.buckets[Next(w.last)]|
    ensures var e, v := rest[0], VerdictOf(rest[0]);
      Turning(w, k + 1, before + (if v.Stay? then [Lowered(e)] else []), rest[1..],
              next + (if v.Pass? then [Lowered(e)] else []), decayed + if v.Decay? then [e.item] else [])
  {
    hide Staying, Passing, Over, VerdictOf, Lowered;
    var es := w.buckets[Next(w.last)];
    OutcomesFrom(es, k);
    assert rest[1..] == es[k + 1..];
  }

  lemma EndTurning(w: Wheel, k: nat, before: seq<Entry>, rest: seq<Entry>, next: seq<Entry>, decayed: seq<Item>)
    requires Sized(w) && rest == [] && Turning(w, k, before, rest, next, decayed)
    ensures var es := w.buckets[Next(w.last)];
      before == Staying(es) && next == w.buckets[Next(Next(w.last))] + Passing(es) && decayed == Over(es)
  {
    assert before + [] == before && next + [] == next && decayed + [] == decayed;
  }

  lemma {:induction false} EntriesSplit(a: seq<Item>, b: seq<Item>)
    ensures Entries(a + b) == Entries(a) + Entries(b)
  {
    hide Entries;
  }

  lemma OneEntry(x: Item)
    ensures Entries([x]) == [EntryOf(x)]
  {
  }

  lemma FirstEntry(list: seq<Item>, i: nat)
    requires i < |list|
    ensures Entries(list[i..]) != [] && Entries(list[i..])[0] == EntryOf(list[i])
    ensures Entries(list[i..])[1..] == Entries(list[i + 1..])
  {
    assert list[i..][1..] == list[i + 1..];
  }

  function Erased(s: seq<Item>, i: nat): seq<Item>
    requires i < |s|
  {
    s[..i] + s[i + 1..]
  }

  ghost function Edited(lists: seq<seq<Item>>, b: nat, i: nat, v: Verdict): (r: seq<seq<Item>>)
    requires |lists| == BUCKETS && b < BUCKETS && i < |lists[b]|
    ensures |r| == BUCKETS
  {
    match v
    case Stay => lists
    case Pass => lists[b := Erased(lists[b], i)][Next(b) := lists[Next(b)] + [lists[b][i]]]
    case _ => lists[b := Erased(lists[b], i)]
  }

  lemma EditedItems(lists: seq<seq<Item>>, b: nat, i: nat, v: Verdict, s: set<Item>)
    requires |lists| == BUCKETS && b < BUCKETS && i < |lists[b]|
    requires forall c, k :: 0 <= c < BUCKETS && 0 <= k < |lists[c]| ==> lists[c][k] in s
    ensures var r := Edited(lists, b, i, v);
      forall c, k :: 0 <= c < BUCKETS && 0 <= k < |r[c]| ==> r[c][k] in s
  {
  }

  lemma {:induction false} OccursChanged(lists: seq<seq<Item>>, b: nat, list: seq<Item>, x: Item)
    requires b < |lists|
    ensures Occurs(lists[b := list], x) == Occurs(lists, x) - multiset(lists[b])[x] + multiset(list)[x]
    decreases b
  {
    if b > 0 {
      OccursChanged(lists[1..], b - 1, list, x);
      assert lists[b := list][1..] == lists[1..][b - 1 := list];
    } else {
      assert lists[b := list][1..] == lists[1..];
    }
  }

  lemma ErasedOnce(s: seq<Item>, i: nat, x: Item)
    requires i < |s|
    ensures multiset(Erased(s, i))[x] == multiset(s)[x] - if s[i] == x then 1 else 0
  {
    assert s == s[..i] + [s[i]] + s[i + 1..];
  }

  /** Editing the lists never makes an item occur more often, and an item taken out occurs no more. */
  lemma EditedOccurs(lists: seq<seq<Item>>, waiting: seq<Item>, b: nat, i: nat, s: set<Item>)
    requires |lists| == BUCKETS && b < BUCKETS && i < |lists[b]|
    requires forall x {:trigger x in s} :: x in s ==> Occurs(lists + [waiting], x) <= 1
    requires lists[b][i] in s
    ensures forall v: Verdict, x {:trigger Occurs(Edited(lists, b, i, v) + [waiting], x)} :: x in s ==>
      Occurs(Edited(lists, b, i, v) + [waiting], x) <= Occurs(lists + [waiting], x)
    ensures Occurs(Edited(lists, b, i, Drop) + [waiting], lists[b][i]) == 0
  {
    hide Occurs;
    var y := lists[b][i];
    var lower := lists[b := Erased(lists[b], i)];
    forall x | x in s
      ensures Occurs(lower + [waiting], x) == Occurs(lists + [waiting], x) - if x == y then 1 else 0
      ensures Occurs(Edited(lists, b, i, Pass) + [waiting], x) == Occurs(lists + [waiting], x)
    {
      OccursChanged(lists + [waiting], b, Erased(lists[b], i), x);
      ErasedOnce(lists[b], i, x);
      assert (lists + [waiting])[b := Erased(lists[b], i)] == lower + [waiting];
      var n := Next(b);
      OccursChanged(lower + [waiting], n, lists[n] + [y], x);
      assert (lower + [waiting])[n := lists[n] + [y]] == Edited(lists, b, i, Pass) + [waiting];
    }
  }

  lemma {:induction false} OccursIn(lists: seq<seq<Item>>, c: nat, x: Item)
    requires c < |lists|
    ensures Occurs(lists, x) >= multiset(lists[c])[x]
    decreases c
  {
    if c > 0 {
      OccursIn(lists[1..], c - 1, x);
    }
  }

  lemma {:induction false} OccursInTwo(lists: seq<seq<Item>>, c: nat, d: nat, x: Item)
    requires c < d < |lists|
    ensures Occurs(lists, x) >= multiset(lists[c])[x] + multiset(lists[d])[x]
    decreases c
  {
    if c > 0 {
      OccursInTwo(lists[1..], c - 1, d - 1, x);
    } else {
      OccursIn(lists[1..], d - 1, x);
    }
  }

  /** An item in a bucket is nowhere else. */
  lemma NotWaiting(lists: seq<seq<Item>>, waiting: seq<Item>, b: nat, i: nat)
    requires b < |lists| && i < |lists[b]| && Occurs(lists + [waiting], lists[b][i]) <= 1
    ensures lists[b][i] !in waiting
    ensures forall c {:trigger lists[c]} :: 0 <= c < |lists| && c != b ==> lists[b][i] !in lists[c]
    ensures lists[b][i] !in lists[b][..i] && lists[b][i] !in lists[b][i + 1..]
  {
    hide Occurs;
    var all, x := lists + [waiting], lists[b][i];
    assert all[|lists|] == waiting && all[b] == lists[b];
    OccursInTwo(all, b, |lists|, x);
    OccursIn(all, b, x);
    forall c | 0 <= c < |lists| && c != b ensures x !in lists[c] {
      assert all[c] == lists[c];
      if c < b {
        OccursInTwo(all, c, b, x);
      } else {
        OccursInTwo(all, b, c, x);
      }
    }
    ErasedOnce(lists[b], i, x);
    assert lists[b] == lists[b][..i] + [x] + lists[b][i + 1..];
  }
}
