/** The active conditions of a creature and the speed and skill totals they drive. */
module ConditionLedger {
  import opened Conditions
  import opened Options

  /** A quantity that conditions add to. */
  datatype Part = SpeedPart | SkillPart(skill: nat) | SpecialPart(special: nat) | StatPart(stat: nat)

  /** What one condition adds to a quantity. */
  function Share(c: Cond, p: Part): int {
    match c.extra
    case Speed(delta, _, _, _, _) => if p.SpeedPart? then delta else 0
    case Attributes(skills, _, stats, _, specials, _, _, _, _) =>
      if p.SkillPart? && p.skill < |skills| then skills[p.skill]
      else if p.SpecialPart? && p.special < |specials| then specials[p.special]
      else if p.StatPart? && p.stat < |stats| then stats[p.stat] else 0
    case _ => 0
  }

  function Sum(cs: seq<Cond>, p: Part): int {
    if cs == [] then 0 else Share(cs[0], p) + Sum(cs[1..], p)
  }

  /** The conditions, and the totals and the defence flag kept beside them. Only players have skills
      and statistics. */
  datatype Ledger = Ledger(
    player: bool, conds: seq<Cond>, varSpeed: int, varSkills: seq<int>, varSpecials: seq<int>, varStats: seq<int>,
    useDefense: bool)

  /** The quantities this creature has. */
  predicate Kept(l: Ledger, p: Part) {
    match p
    case SpeedPart => true
    case SkillPart(i) => l.player && i < SKILLS
    case SpecialPart(i) => l.player && i < SPECIALS
    case StatPart(i) => l.player && i < STATS
  }

  function Total(l: Ledger, p: Part): int
    requires Sized(l) && Kept(l, p)
  {
    match p
    case SpeedPart => l.varSpeed
    case SkillPart(i) => l.varSkills[i]
    case SpecialPart(i) => l.varSpecials[i]
    case StatPart(i) => l.varStats[i]
  }

  predicate InRange(l: Ledger) {
    && Sized(l) && Int32(l.varSpeed)
    && (forall i :: 0 <= i < SKILLS ==> Int32(l.varSkills[i]))
    && (forall i :: 0 <= i < SPECIALS ==> Int32(l.varSpecials[i]))
    && (forall i :: 0 <= i < STATS ==> Int32(l.varStats[i]))
  }

  predicate Sized(l: Ledger) {
    |l.varSkills| == SKILLS && |l.varSpecials| == SPECIALS && |l.varStats| == STATS
  }

  /** What else has been added to a quantity, apart from the active conditions. */
  function Remainder(l: Ledger, p: Part): int
    requires Sized(l) && Kept(l, p)
  {
    S32(Total(l, p) - Sum(l.conds, p))
  }

  // ---------------------------------------------------------------- choices made outside

  /** The damage list a damage condition ends up with, drawn up at random if none is given. */
  datatype Hit = Hit(ticks: int, endTime: int, startDamage: int, list: seq<Interval>)

  /** The clock, the random and floating-point results, and the surroundings, as one step sees them.
      hits says whether a new damage condition takes effect at all; walkDelay(n) is the remaining walk
      delay while n conditions are active; resting means standing in a protection zone. */
  datatype World = World(
    now: int, roll: int, percented: nat -> int, statPercented: nat -> int, hits: bool, hit: Hit, suppressed: set<nat>,
    walkDelay: nat -> int, fieldRemoves: Cond -> bool, resting: bool, soulful: bool)

  predicate Immobile(w: World, conds: seq<Cond>) {
    w.walkDelay(|conds|) > 0
  }

  // ---------------------------------------------------------------- totals

  function Shift(a: int, d: int): int {
    if d == 0 then a else S32(a + d)
  }

  function Shifted(xs: seq<int>, ds: seq<int>, sign: int): (r: seq<int>)
    ensures |r| == |xs|
  {
    seq(|xs|, i requires 0 <= i < |xs| => Shift(xs[i], if i < |ds| then sign * ds[i] else 0))
  }

  /** A condition's share added to the totals, or taken out with sign -1. */
  function Moved(l: Ledger, c: Cond, sign: int): Ledger {
    match c.extra
    case Speed(delta, _, _, _, _) => l.(varSpeed := S32(l.varSpeed + sign * delta))
    case Attributes(skills, _, stats, _, specials, _, _, _, _) =>
      if l.player then
        l.(varSkills := Shifted(l.varSkills, skills, sign), varSpecials := Shifted(l.varSpecials, specials, sign),
           varStats := Shifted(l.varStats, stats, sign))
      else l
    case _ => l
  }

  // ---------------------------------------------------------------- starting, updating, ending

  function Percented(xs: seq<int>, percents: seq<int>, computed: nat -> int): (r: seq<int>)
    ensures |r| == |xs|
  {
    seq(|xs|, i requires 0 <= i < |xs| => if i < |percents| && percents[i] != 0 then S32(computed(i)) else xs[i])
  }

  function TruncDiv(a: int, b: nat): int {
    if b == 0 then 0 else if a >= 0 then a / b else -(-a / b)
  }

  /** The extra fields once the condition takes effect: a speed rolled if none is given, skills and
      statistics computed from percentages. */
  function Effective(c: Cond, w: World, player: bool): Cond {
    match c.extra
    case Speed(delta, _, _, _, _) => if delta == 0 then c.(extra := c.extra.(delta := S32(w.roll))) else c
    case Attributes(skills, percents, stats, statPercents, _, _, _, _, _) =>
      if player then
        c.(extra := c.extra.(skills := Percented(skills, percents, w.percented),
                             stats := Percented(stats, statPercents, w.statPercented)))
      else c
    case Light(_, level, _, _) => c.(extra := c.extra.(lightTicks := 0, lightInterval := U32(TruncDiv(c.ticks, level))))
    case _ => c
  }

  function Struck(c: Cond, h: Hit): Cond
    requires c.extra.Damage?
  {
    c.(ticks := h.ticks, endTime := h.endTime,
       extra := c.extra.(list := h.list, setup := c.extra.setup.(startDamage := h.startDamage)))
  }

  function Started(c: Cond, w: World, player: bool): Option<Cond> {
    var c1 := if c.ticks > 0 then c.(endTime := c.ticks + w.now) else c;
    if c1.extra.Damage? then (if w.hits then Some(Struck(c1, w.hit)) else None)
    else Some(Effective(c1, w, player))
  }

  function SumValues(list: seq<Interval>): int {
    if list == [] then 0 else list[0].value + SumValues(list[1..])
  }

  /** How hard a damage condition hits in all, or may be expected to. */
  function TotalDamage(e: Extra): int
    requires e.Damage?
  {
    var sum := if e.list != [] then S32(SumValues(e.list))
               else S32(e.setup.minDamage + TruncDiv(S32(e.setup.maxDamage - e.setup.minDamage), 2));
    if sum < 0 then -sum else sum
  }

  /** Whether the newer condition replaces the running one. */
  predicate Replaces(prev: Cond, c: Cond, w: World) {
    if prev.extra.Damage? then
      c.extra.Damage? && (
        || c.extra.setup.forceUpdate
        || (!(prev.ticks == -1 && c.ticks > 0) && TotalDamage(c.extra) > TotalDamage(prev.extra)))
    else if prev.extra.Speed? then !(prev.ticks == -1 && c.ticks > 0)
    else if prev.extra.Drunk? then c.extra.Drunk? && c.extra.drunkenness > prev.extra.drunkenness
    else !(prev.ticks == -1 && c.ticks > 0) && !(c.ticks >= 0 && prev.endTime > w.now + c.ticks)
  }

  /** The fields of the newer condition, but for those that an update leaves alone: what has passed of
      an interval, the reader's counters, whether damage is delayed, in a field or forced, its first
      strike, and a drunkard's drunkenness. */
  function Copied(prev: Extra, e: Extra): Extra {
    if prev.Attributes? && e.Attributes? then
      e.(currentSkill := prev.currentSkill, currentStat := prev.currentStat, currentSpecial := prev.currentSpecial)
    else if prev.Regeneration? && e.Regeneration? then
      e.(healthPassed := prev.healthPassed, manaPassed := prev.manaPassed)
    else if prev.Soul? && e.Soul? then e.(soulPassed := prev.soulPassed)
    else if prev.Drunk? then prev
    else if prev.Damage? && e.Damage? then
      prev.(period := e.period, list := e.list,
            setup := prev.setup.(maxDamage := e.setup.maxDamage, minDamage := e.setup.minDamage,
                                 startDamage := e.setup.startDamage, tickInterval := e.setup.tickInterval,
                                 owner := e.setup.owner))
    else e
  }

  function Updated(prev: Cond, c: Cond, w: World, player: bool): Cond {
    if !Replaces(prev, c, w) then prev
    else if prev.extra.Damage? then Struck(prev.(extra := Copied(prev.extra, c.extra)), w.hit)
    else Effective(WithTicks(prev, c.ticks, w.now).(extra := Copied(prev.extra, c.extra)), w, player)
  }

  // ---------------------------------------------------------------- the creature's operations

  predicate SameKey(a: Cond, b: Cond) {
    a.conditionType == b.conditionType && a.id == b.id && a.subId == b.subId
  }

  function Find(cs: seq<Cond>, c: Cond): (i: nat)
    ensures i <= |cs| && (i < |cs| ==> SameKey(cs[i], c))
    ensures forall j :: 0 <= j < i ==> !SameKey(cs[j], c)
  {
    if cs == [] then 0 else if SameKey(cs[0], c) then 0 else 1 + Find(cs[1..], c)
  }

  predicate Has(l: Ledger, conditionType: nat, w: World) {
    conditionType !in w.suppressed
    && exists i :: 0 <= i < |l.conds| && l.conds[i].conditionType == conditionType && l.conds[i].subId == 0
                   && (l.conds[i].endTime >= w.now || l.conds[i].ticks == -1)
  }

  function Drop(l: Ledger, i: nat): Ledger
    requires i < |l.conds|
  {
    Moved(l.(conds := l.conds[..i] + l.conds[i + 1..], useDefense := l.useDefense || Disables(l.conds[i])), l.conds[i], -1)
  }

  /** While it is active, the creature does not defend itself. */
  predicate Disables(c: Cond) {
    c.extra.Attributes? && c.extra.disableDefense
  }

  /** An attributes condition that starts sets the flag as it likes. */
  function Begun(l: Ledger, c: Cond): Ledger {
    if c.extra.Attributes? then l.(useDefense := !c.extra.disableDefense) else l
  }

  /** One that is taken over is ended first, which may set the flag, and is never started again. */
  function Ended(l: Ledger, i: nat, c: Cond, w: World): Ledger
    requires i < |l.conds|
  {
    l.(useDefense := l.useDefense || (Replaces(l.conds[i], c, w) && Disables(l.conds[i])))
  }

  /** The i-th condition changed in place. */
  function Changed(l: Ledger, i: nat, c: Cond): Ledger
    requires i < |l.conds|
  {
    Moved(Moved(l, l.conds[i], -1), c, 1).(conds := l.conds[i := c])
  }

  predicate Matches(c: Cond, conditionType: nat, id: Option<int>) {
    c.conditionType == conditionType && (id.Some? ==> c.id == id.value)
  }

  /** Removes the matching conditions from position i on; a paralysis stays while a step is under way. */
  function RemovedFrom(l: Ledger, i: nat, conditionType: nat, id: Option<int>, force: bool, w: World): Ledger
    requires i <= |l.conds|
    decreases |l.conds| - i
  {
    if i == |l.conds| then l
    else if !Matches(l.conds[i], conditionType, id) then RemovedFrom(l, i + 1, conditionType, id, force, w)
    else if !force && conditionType == PARALYZE && Immobile(w, l.conds) then l
    else
      DropKeepsRest(l, i);
      RemovedFrom(Drop(l, i), i, conditionType, id, force, w)
  }

  lemma DropKeepsRest(l: Ledger, i: nat)
    requires i < |l.conds|
    ensures Drop(l, i).conds == l.conds[..i] + l.conds[i + 1..] && Drop(l, i).player == l.player
  {
  }

  function RemovedType(l: Ledger, conditionType: nat, force: bool, w: World): Ledger {
    RemovedFrom(l, 0, conditionType, None, force, w)
  }

  /** Haste and paralysis cancel each other. */
  function Opposed(l: Ledger, conditionType: nat, w: World): Ledger {
    if conditionType == PARALYZE && Has(l, HASTE, w) then RemovedType(l, HASTE, false, w)
    else if conditionType == HASTE && Has(l, PARALYZE, w) then RemovedType(l, PARALYZE, false, w)
    else l
  }

  datatype Outcome = Added | Postponed | Refused

  datatype AddResult = AddResult(ledger: Ledger, outcome: Outcome)

  /** A condition of a new key starts, joins the list and adds its share. */
  function Appended(l: Ledger, c: Cond, w: World): AddResult {
    match Started(c, w, l.player)
    case None => AddResult(l, Refused)
    case Some(c') => AddResult(Opposed(Moved(Begun(l, c').(conds := l.conds + [c']), c', 1), c'.conditionType, w), Added)
  }

  function WithCondition(l: Ledger, c: Cond, force: bool, w: World): AddResult {
    if !force && c.conditionType == HASTE && Has(l, PARALYZE, w) && Immobile(w, l.conds) then AddResult(l, Postponed)
    else
      var i := Find(l.conds, c);
      if i < |l.conds| then AddResult(Changed(Ended(l, i, c, w), i, Updated(l.conds[i], c, w, l.player)), Added)
      else Appended(l, c, w)
  }

  function RemovedAt(l: Ledger, i: nat, force: bool, w: World): Ledger {
    if i >= |l.conds| then l
    else if !force && l.conds[i].conditionType == PARALYZE && Immobile(w, l.conds) then l
    else Drop(l, i)
  }

  datatype Tick = Tick(cond: Cond, alive: bool)

  function BaseTick(c: Cond, interval: int, now: int): Tick {
    if c.ticks == -1 then Tick(c, true)
    else
      var c1 := c.(ticks := if c.ticks - interval > 0 then c.ticks - interval else 0);
      Tick(c1, c1.endTime >= now)
  }

  /** The first interval of a damage list runs down; standing in the field that caused it renews it
      and puts the end off. */
  function DamageRun(c: Cond, interval: nat, removes: bool): Cond
    requires c.extra.Damage? && c.extra.list != []
  {
    var list := c.extra.list;
    var left := list[0].timeLeft - interval;
    var list1 := if left > 0 then list[0 := list[0].(timeLeft := left)]
                 else if removes then list[1..] else list[0 := list[0].(timeLeft := list[0].interval)];
    var c1 := c.(extra := c.extra.(list := list1));
    if !removes && c.ticks > 0 then c1.(endTime := c1.endTime + interval) else c1
  }

  /** Periodic damage strikes when its interval has passed. */
  function Beaten(s: Setup, interval: nat): Setup {
    var t := S32(s.periodTick + interval); s.(periodTick := if t >= s.tickInterval then 0 else t)
  }

  /** What has passed of an interval at whose end something is gained, where it can be. */
  function Passed(passed: nat, interval: nat, ticks: nat, gains: bool): nat {
    var t := U32(passed + interval); if gains && t >= ticks then 0 else t
  }

  /** One round of a condition. */
  function Ticked(c: Cond, interval: nat, w: World): Tick {
    match c.extra
    case Damage(_, period, list, setup) =>
      if period != 0 then BaseTick(c.(extra := c.extra.(setup := Beaten(setup, interval))), interval, w.now)
      else if list == [] then BaseTick(c, interval, w.now)
      else
        var removes := w.fieldRemoves(c);
        BaseTick(DamageRun(c, interval, removes), if removes then interval else 0, w.now)
    case Light(_, _, lightTicks, lightInterval) =>
      var t := U32(lightTicks + interval);
      BaseTick(c.(extra := c.extra.(lightTicks := if t >= lightInterval then 0 else t)), interval, w.now)
    case Regeneration(healthTicks, _, manaTicks, _, healthPassed, manaPassed) =>
      BaseTick(c.(extra := c.extra.(healthPassed := Passed(healthPassed, interval, healthTicks, !w.resting),
                                    manaPassed := Passed(manaPassed, interval, manaTicks, !w.resting))), interval, w.now)
    case Soul(_, soulTicks, soulPassed) =>
      BaseTick(c.(extra := c.extra.(soulPassed := Passed(soulPassed, interval, soulTicks, w.soulful))), interval, w.now)
    case _ => BaseTick(c, interval, w.now)
  }

  /** Runs every condition from position i on; those that are over are ended. */
  function ExecutedFrom(l: Ledger, i: nat, interval: nat, w: World): Ledger
    requires i <= |l.conds|
    decreases |l.conds| - i
  {
    if i == |l.conds| then l
    else
      var t := Ticked(l.conds[i], interval, w);
      var l1 := l.(conds := l.conds[i := t.cond]);
      if t.alive then ExecutedFrom(l1, i + 1, interval, w)
      else
        DropKeepsRest(l1, i);
        ExecutedFrom(Drop(l1, i), i, interval, w)
  }

  // ---------------------------------------------------------------- what every operation keeps

  /** The condition belongs to the class its type is created with. */
  predicate Classed(c: Cond) {
    && NewExtra(c.conditionType).Some?
    && var e := NewExtra(c.conditionType).value;
    && c.extra.Speed? == e.Speed? && c.extra.Attributes? == e.Attributes? && c.extra.Damage? == e.Damage?
    && (c.extra.Attributes? ==>
          && |c.extra.skills| == |c.extra.skillsPercent| == SKILLS && |c.extra.specials| == SPECIALS
          && |c.extra.stats| == |c.extra.statsPercent| == STATS)
  }

  predicate AllClassed(cs: seq<Cond>) {
    forall i :: 0 <= i < |cs| ==> Classed(cs[i])
  }

  /** At most one condition per type, id and subId. */
  predicate UniqueKeys(cs: seq<Cond>) {
    forall i, j :: 0 <= i < j < |cs| ==> !SameKey(cs[i], cs[j])
  }

  predicate Sound(l: Ledger) {
    Sized(l) && AllClassed(l.conds) && UniqueKeys(l.conds)
  }

  lemma {:induction false} SumSplit(a: seq<Cond>, b: seq<Cond>, p: Part)
    ensures Sum(a + b, p) == Sum(a, p) + Sum(b, p)
    decreases |a|
  {
    if a == [] {
      assert a + b == b;
    } else {
      SumSplit(a[1..], b, p);
      assert (a + b)[1..] == a[1..] + b;
    }
  }

  lemma SumAt(cs: seq<Cond>, i: nat, p: Part)
    requires i < |cs|
    ensures Sum(cs, p) == Sum(cs[..i], p) + Share(cs[i], p) + Sum(cs[i + 1..], p)
  {
    assert cs == cs[..i] + cs[i..];
    SumSplit(cs[..i], cs[i..], p);
    assert cs[i..][1..] == cs[i + 1..];
  }

  lemma SumWithout(cs: seq<Cond>, i: nat, p: Part)
    requires i < |cs|
    ensures Sum(cs[..i] + cs[i + 1..], p) == Sum(cs, p) - Share(cs[i], p)
  {
    SumAt(cs, i, p);
    SumSplit(cs[..i], cs[i + 1..], p);
  }

  lemma SumChanged(cs: seq<Cond>, i: nat, c: Cond, p: Part)
    requires i < |cs|
    ensures Sum(cs[i := c], p) == Sum(cs, p) - Share(cs[i], p) + Share(c, p)
  {
    SumAt(cs, i, p);
    SumAt(cs[i := c], i, p);
    assert cs[i := c][..i] == cs[..i] && cs[i := c][i + 1..] == cs[i + 1..];
  }

  lemma SumMore(cs: seq<Cond>, c: Cond, p: Part)
    ensures Sum(cs + [c], p) == Sum(cs, p) + Share(c, p)
  {
    SumSplit(cs, [c], p);
    assert Sum([c], p) == Share(c, p) + Sum([], p);
  }

  /** S32 is taken modulo 2^32, so it may be applied early. */
  lemma Wraps(a: int, b: int)
    ensures S32(S32(a) + b) == S32(a + b)
  {
  }

  /** Moving a share changes every kept total by that share. */
  lemma MovedTotal(l: Ledger, c: Cond, sign: int, p: Part)
    requires Sized(l) && Kept(l, p) && Classed(c)
    ensures var g := Moved(l, c, sign);
      Sized(g) && g.player == l.player && g.conds == l.conds && Kept(g, p)
      && S32(Total(g, p)) == S32(Total(l, p) + sign * Share(c, p))
  {
    Wraps(Total(l, p) + sign * Share(c, p), 0);
    Wraps(Total(l, p), 0);
  }

  lemma DropKeeps(l: Ledger, i: nat, p: Part)
    requires Sound(l) && i < |l.conds| && Kept(l, p)
    ensures Sound(Drop(l, i)) && Kept(Drop(l, i), p) && Remainder(Drop(l, i), p) == Remainder(l, p)
  {
    hide Moved, Share;
    var m := l.(conds := l.conds[..i] + l.conds[i + 1..], useDefense := l.useDefense || Disables(l.conds[i]));
    MovedTotal(m, l.conds[i], -1, p);
    SumWithout(l.conds, i, p);
    Wraps(Total(Drop(l, i), p), 0 - Sum(m.conds, p));
    Wraps(Total(l, p) - Share(l.conds[i], p), 0 - Sum(m.conds, p));
    WithoutKeepsKeys(l.conds, i);
  }

  lemma WithoutKeepsKeys(cs: seq<Cond>, i: nat)
    requires i < |cs| && UniqueKeys(cs) && AllClassed(cs)
    ensures UniqueKeys(cs[..i] + cs[i + 1..]) && AllClassed(cs[..i] + cs[i + 1..])
  {
  }

  lemma ChangedKeeps(l: Ledger, i: nat, c: Cond, p: Part)
    requires Sound(l) && i < |l.conds| && Kept(l, p) && Classed(c) && SameKey(l.conds[i], c)
    ensures Sound(Changed(l, i, c)) && Kept(Changed(l, i, c), p) && Remainder(Changed(l, i, c), p) == Remainder(l, p)
  {
    hide Moved, Share;
    var a := l.conds[i];
    var m := Moved(l, a, -1);
    var g := Moved(m, c, 1);
    MovedTotal(l, a, -1, p);
    MovedTotal(m, c, 1, p);
    SumChanged(l.conds, i, c, p);
    Wraps(Total(m, p), Share(c, p));
    Wraps(Total(l, p) - Share(a, p), Share(c, p));
    Wraps(Total(g, p), 0 - Sum(l.conds[i := c], p));
    Wraps(Total(l, p) - Share(a, p) + Share(c, p), 0 - Sum(l.conds[i := c], p));
  }

  lemma AppendKeeps(l: Ledger, c: Cond, p: Part)
    requires Sound(l) && Kept(l, p) && Classed(c) && forall j :: 0 <= j < |l.conds| ==> !SameKey(l.conds[j], c)
    ensures var g := Moved(Begun(l, c).(conds := l.conds + [c]), c, 1);
      Sound(g) && Kept(g, p) && g.conds == l.conds + [c] && Remainder(g, p) == Remainder(l, p)
  {
    hide Moved, Share;
    var m := Begun(l, c).(conds := l.conds + [c]);
    var g := Moved(m, c, 1);
    MovedTotal(m, c, 1, p);
    SumMore(l.conds, c, p);
    Wraps(Total(g, p), 0 - Sum(m.conds, p));
    Wraps(Total(l, p) + Share(c, p), 0 - Sum(m.conds, p));
  }

  lemma {:induction false} RemovedKeeps(l: Ledger, i: nat, conditionType: nat, id: Option<int>, force: bool, w: World, p: Part)
    requires Sound(l) && i <= |l.conds| && Kept(l, p)
    ensures var g := RemovedFrom(l, i, conditionType, id, force, w);
      Sound(g) && Kept(g, p) && Remainder(g, p) == Remainder(l, p)
    decreases |l.conds| - i
  {
    hide Sound, Remainder, Matches, Kept, Drop;
    if i < |l.conds| {
      if !Matches(l.conds[i], conditionType, id) {
        RemovedKeeps(l, i + 1, conditionType, id, force, w, p);
      } else if !(!force && conditionType == PARALYZE && Immobile(w, l.conds)) {
        DropKeeps(l, i, p);
        DropKeepsRest(l, i);
        RemovedKeeps(Drop(l, i), i, conditionType, id, force, w, p);
      }
    }
  }

  lemma OpposedKeeps(l: Ledger, conditionType: nat, w: World, p: Part)
    requires Sound(l) && Kept(l, p)
    ensures var g := Opposed(l, conditionType, w); Sound(g) && Kept(g, p) && Remainder(g, p) == Remainder(l, p)
  {
    hide Sound, Remainder, Has, RemovedFrom;
    RemovedKeeps(l, 0, HASTE, None, false, w, p);
    RemovedKeeps(l, 0, PARALYZE, None, false, w, p);
  }

  lemma EffectiveClassed(c: Cond, w: World, player: bool)
    requires Classed(c)
    ensures Classed(Effective(c, w, player)) && SameKey(c, Effective(c, w, player))
  {
    hide NewExtra;
  }

  lemma StartedClassed(c: Cond, w: World, player: bool)
    requires Classed(c) && Started(c, w, player).Some?
    ensures Classed(Started(c, w, player).value) && SameKey(c, Started(c, w, player).value)
  {
    hide NewExtra, Effective;
    var c1 := if c.ticks > 0 then c.(endTime := c.ticks + w.now) else c;
    if !c1.extra.Damage? {
      EffectiveClassed(c1, w, player);
    }
  }

  lemma UpdatedClassed(prev: Cond, c: Cond, w: World, player: bool)
    requires Classed(prev) && Classed(c) && SameKey(prev, c)
    ensures Classed(Updated(prev, c, w, player)) && SameKey(prev, Updated(prev, c, w, player))
  {
    hide NewExtra, Effective, Replaces;
    if Replaces(prev, c, w) {
      if !prev.extra.Damage? {
        EffectiveClassed(WithTicks(prev, c.ticks, w.now).(extra := Copied(prev.extra, c.extra)), w, player);
      }
    }
  }

  /** Adding a condition keeps one condition per key and leaves what else is in every total alone. */
  lemma AddKeeps(l: Ledger, c: Cond, force: bool, w: World, p: Part)
    requires Sound(l) && Kept(l, p) && Classed(c)
    ensures var g := WithCondition(l, c, force, w).ledger; Sound(g) && Kept(g, p) && Remainder(g, p) == Remainder(l, p)
  {
    hide Sound, Remainder, Has, Classed, Started, Updated, Changed, Moved, Opposed;
    var i := Find(l.conds, c);
    if i < |l.conds| {
      CondClassed(l, i);
      UpdatedClassed(l.conds[i], c, w, l.player);
      FlagKeeps(l, Ended(l, i, c, w).useDefense, p);
      ChangedKeeps(Ended(l, i, c, w), i, Updated(l.conds[i], c, w, l.player), p);
    } else if Started(c, w, l.player).Some? {
      StartedClassed(c, w, l.player);
      var c' := Started(c, w, l.player).value;
      AppendKeeps(l, c', p);
      OpposedKeeps(Moved(Begun(l, c').(conds := l.conds + [c']), c', 1), c'.conditionType, w, p);
    }
  }

  lemma FlagKeeps(l: Ledger, d: bool, p: Part)
    requires Sound(l) && Kept(l, p)
    ensures var g := l.(useDefense := d); Sound(g) && Kept(g, p) && Remainder(g, p) == Remainder(l, p)
  {
  }

  lemma CondClassed(l: Ledger, i: nat)
    requires Sound(l) && i < |l.conds|
    ensures Classed(l.conds[i])
  {
  }

  lemma TickedClassed(c: Cond, interval: nat, w: World, p: Part)
    requires Classed(c)
    ensures var t := Ticked(c, interval, w).cond; Classed(t) && SameKey(c, t) && Share(t, p) == Share(c, p)
  {
    hide NewExtra;
  }

  lemma TickKeeps(l: Ledger, i: nat, c: Cond, p: Part)
    requires Sound(l) && i < |l.conds| && Kept(l, p) && Classed(c) && SameKey(l.conds[i], c)
    requires Share(c, p) == Share(l.conds[i], p)
    ensures var g := l.(conds := l.conds[i := c]); Sound(g) && Kept(g, p) && Remainder(g, p) == Remainder(l, p)
  {
    hide Share;
    SumChanged(l.conds, i, c, p);
  }

  lemma {:induction false} ExecuteKeeps(l: Ledger, i: nat, interval: nat, w: World, p: Part)
    requires Sound(l) && i <= |l.conds| && Kept(l, p)
    ensures var g := ExecutedFrom(l, i, interval, w); Sound(g) && Kept(g, p) && Remainder(g, p) == Remainder(l, p)
    decreases |l.conds| - i
  {
    hide Sound, Remainder, Ticked, Kept, Drop, Classed, Share;
    if i < |l.conds| {
      CondClassed(l, i);
      TickedClassed(l.conds[i], interval, w, p);
      var t := Ticked(l.conds[i], interval, w);
      TickKeeps(l, i, t.cond, p);
      var l1 := l.(conds := l.conds[i := t.cond]);
      if t.alive {
        ExecuteKeeps(l1, i + 1, interval, w, p);
      } else {
        DropKeeps(l1, i, p);
        DropKeepsRest(l1, i);
        ExecuteKeeps(Drop(l1, i), i, interval, w, p);
      }
    }
  }

  // ---------------------------------------------------------------- runs

  datatype Op =
    | Add(cond: Cond, force: bool, world: World)
    | RemoveType(conditionType: nat, id: Option<int>, force: bool, world: World)
    | RemoveOne(index: nat, force: bool, world: World)
    | Execute(interval: nat, world: World)
    | Elsewhere(part: Part, amount: int)

  function Bumped(l: Ledger, p: Part, d: int): Ledger
    requires Sized(l) && Kept(l, p)
  {
    match p
    case SpeedPart => l.(varSpeed := S32(l.varSpeed + d))
    case SkillPart(i) => l.(varSkills := l.varSkills[i := S32(l.varSkills[i] + d)])
    case SpecialPart(i) => l.(varSpecials := l.varSpecials[i := S32(l.varSpecials[i] + d)])
    case StatPart(i) => l.(varStats := l.varStats[i := S32(l.varStats[i] + d)])
  }

  /** One operation on the conditions, or a change of a total by equipment, mounts or scripts. */
  function Step(l: Ledger, op: Op): Ledger {
    match op
    case Add(c, force, w) => if Classed(c) then WithCondition(l, c, force, w).ledger else l
    case RemoveType(conditionType, id, force, w) => RemovedFrom(l, 0, conditionType, id, force, w)
    case RemoveOne(i, force, w) => RemovedAt(l, i, force, w)
    case Execute(interval, w) => ExecutedFrom(l, 0, interval, w)
    case Elsewhere(p, d) => if Sized(l) && Kept(l, p) then Bumped(l, p, d) else l
  }

  function Outside(ops: seq<Op>, p: Part): int {
    if ops == [] then 0
    else (if ops[0].Elsewhere? && ops[0].part == p then ops[0].amount else 0) + Outside(ops[1..], p)
  }

  function Run(l: Ledger, ops: seq<Op>): Ledger
    decreases |ops|
  {
    if ops == [] then l else Run(Step(l, ops[0]), ops[1..])
  }

  lemma BumpKeeps(l: Ledger, q: Part, d: int, p: Part)
    requires Sound(l) && Kept(l, p) && Kept(l, q)
    ensures var g := Bumped(l, q, d);
      Sound(g) && Kept(g, p) && Remainder(g, p) == S32(Remainder(l, p) + if p == q then d else 0)
  {
    hide Bumped, Total, AllClassed, UniqueKeys;
    var s := Sum(l.conds, p);
    BumpedTotal(l, q, d, p);
    Wraps(Total(l, p) - s, 0);
    if p == q {
      Wraps(Total(l, p) + d, 0 - s);
      Wraps(Total(l, p) - s, d);
    }
  }

  lemma BumpedTotal(l: Ledger, q: Part, d: int, p: Part)
    requires Sized(l) && Kept(l, p) && Kept(l, q)
    ensures var g := Bumped(l, q, d);
      && Sized(g) && g.conds == l.conds && Kept(g, p)
      && Total(g, p) == if p == q then S32(Total(l, p) + d) else Total(l, p)
  {
    hide S32;
  }

  lemma StepKeeps(l: Ledger, op: Op, p: Part)
    requires Sound(l) && Kept(l, p)
    ensures var g := Step(l, op);
      && Sound(g) && Kept(g, p)
      && Remainder(g, p) == S32(Remainder(l, p) + if op.Elsewhere? && op.part == p then op.amount else 0)
  {
    hide Sound, WithCondition, RemovedFrom, ExecutedFrom, Bumped, Drop, Kept;
    RemainderWraps(l, p);
    match op
    case Add(c, force, w) =>
      if Classed(c) {
        AddKeeps(l, c, force, w, p);
      }
    case RemoveType(conditionType, id, force, w) => RemovedKeeps(l, 0, conditionType, id, force, w, p);
    case RemoveOne(i, force, w) =>
      if i < |l.conds| {
        DropKeeps(l, i, p);
      }
    case Execute(interval, w) => ExecuteKeeps(l, 0, interval, w, p);
    case Elsewhere(q, d) =>
      if Kept(l, q) {
        SoundSized(l);
        BumpKeeps(l, q, d, p);
      }
  }

  lemma SoundSized(l: Ledger)
    requires Sound(l)
    ensures Sized(l)
  {
  }

  lemma RemainderWraps(l: Ledger, p: Part)
    requires Sound(l) && Kept(l, p)
    ensures Sized(l) && S32(Remainder(l, p) + 0) == Remainder(l, p)
  {
    Wraps(Total(l, p) - Sum(l.conds, p), 0);
  }

  /** After any run there is at most one condition per type, id and subId, and every total is the
      sum over the active conditions plus what was there before and what was added elsewhere. */
  lemma {:induction false} RunKeepsLedger(l: Ledger, ops: seq<Op>, p: Part)
    requires Sound(l) && Kept(l, p)
    ensures var g := Run(l, ops);
      && UniqueKeys(g.conds) && Sized(g) && Kept(g, p)
      && S32(Total(g, p)) == S32(Sum(g.conds, p) + Remainder(l, p) + Outside(ops, p))
    decreases |ops|
  {
    hide Step, Kept, Sum;
    var g := Run(l, ops);
    if ops == [] {
      Wraps(Total(l, p) - Sum(l.conds, p), Sum(l.conds, p));
    } else {
      StepKeeps(l, ops[0], p);
      RunKeepsLedger(Step(l, ops[0]), ops[1..], p);
      var d := if ops[0].Elsewhere? && ops[0].part == p then ops[0].amount else 0;
      Wraps(Remainder(l, p) + d, Sum(g.conds, p) + Outside(ops[1..], p));
    }
  }

  // ---------------------------------------------------------------- haste and paralysis

  predicate NoneOfType(cs: seq<Cond>, conditionType: nat, n: nat) {
    n <= |cs| && forall i :: 0 <= i < n ==> cs[i].conditionType != conditionType
  }

  lemma {:induction false} RemovedTypeIsGone(l: Ledger, i: nat, conditionType: nat, force: bool, w: World)
    requires i <= |l.conds| && (force || conditionType != PARALYZE) && NoneOfType(l.conds, conditionType, i)
    ensures var g := RemovedFrom(l, i, conditionType, None, force, w); NoneOfType(g.conds, conditionType, |g.conds|)
    decreases |l.conds| - i
  {
    hide Drop;
    if i < |l.conds| {
      if !Matches(l.conds[i], conditionType, None) {
        RemovedTypeIsGone(l, i + 1, conditionType, force, w);
      } else {
        DropKeepsRest(l, i);
        RemovedTypeIsGone(Drop(l, i), i, conditionType, force, w);
      }
    }
  }

  /** A paralysis that takes effect leaves no haste in effect. */
  lemma ParalysisEndsHaste(l: Ledger, c: Cond, force: bool, w: World)
    requires c.conditionType == PARALYZE && Find(l.conds, c) == |l.conds|
    requires WithCondition(l, c, force, w).outcome == Added
    ensures !Has(WithCondition(l, c, force, w).ledger, HASTE, w)
  {
    hide Moved, RemovedFrom, Started;
    var c' := Started(c, w, l.player).value;
    StartedKey(c, w, l.player);
    var m := Moved(Begun(l, c').(conds := l.conds + [c']), c', 1);
    RemovedTypeIsGone(m, 0, HASTE, false, w);
  }

  lemma StartedKey(c: Cond, w: World, player: bool)
    requires Started(c, w, player).Some?
    ensures SameKey(c, Started(c, w, player).value)
  {
  }

  // ---------------------------------------------------------------- defence

  /** How many of the conditions disable the defence. */
  function Disabling(cs: seq<Cond>): nat {
    if cs == [] then 0 else (if Disables(cs[0]) then 1 else 0) + Disabling(cs[1..])
  }

  /** The creature defends itself exactly when no active condition disables that. */
  predicate DefenceRight(l: Ledger) {
    l.useDefense <==> forall i :: 0 <= i < |l.conds| ==> !Disables(l.conds[i])
  }

  lemma {:induction false} DisablingMeans(cs: seq<Cond>)
    ensures Disabling(cs) == 0 <==> forall i :: 0 <= i < |cs| ==> !Disables(cs[i])
    decreases |cs|
  {
    hide Disables;
    if cs != [] {
      DisablingMeans(cs[1..]);
      if forall i :: 0 <= i < |cs| ==> !Disables(cs[i]) {
        forall i | 0 <= i < |cs[1..]| ensures !Disables(cs[1..][i]) {
          assert cs[1..][i] == cs[i + 1];
        }
      }
      if Disabling(cs) == 0 {
        forall i | 0 <= i < |cs| ensures !Disables(cs[i]) {
          assert i > 0 ==> cs[i] == cs[1..][i - 1];
        }
      }
    }
  }

  lemma RightMeans(l: Ledger)
    ensures DefenceRight(l) <==> (l.useDefense <==> Disabling(l.conds) == 0)
  {
    DisablingMeans(l.conds);
  }

  lemma {:induction false} DisablingSplit(a: seq<Cond>, b: seq<Cond>)
    ensures Disabling(a + b) == Disabling(a) + Disabling(b)
    decreases |a|
  {
    hide Disables;
    if a == [] {
      assert a + b == b;
    } else {
      DisablingSplit(a[1..], b);
      assert (a + b)[1..] == a[1..] + b;
    }
  }

  lemma DisablingChanged(cs: seq<Cond>, i: nat, c: Cond)
    requires i < |cs|
    ensures Disabling(cs[i := c]) ==
      Disabling(cs) - (if Disables(cs[i]) then 1 else 0) + if Disables(c) then 1 else 0
    ensures Disabling(cs[..i] + cs[i + 1..]) == Disabling(cs) - if Disables(cs[i]) then 1 else 0
  {
    hide Disables;
    var a, b := cs[..i], cs[i + 1..];
    DisablingSplit(a, b);
    DisablingSplit(a, [cs[i]] + b);
    DisablingSplit(a, [c] + b);
    assert a + ([cs[i]] + b) == cs && a + ([c] + b) == cs[i := c];
    assert ([cs[i]] + b)[1..] == b && ([c] + b)[1..] == b;
  }

  lemma DisablingMore(cs: seq<Cond>, c: Cond)
    ensures Disabling(cs + [c]) == Disabling(cs) + if Disables(c) then 1 else 0
  {
    hide Disables;
    DisablingSplit(cs, [c]);
    assert Disabling([c]) == (if Disables(c) then 1 else 0) + Disabling([]);
  }

  lemma MovedFlag(l: Ledger, c: Cond, sign: int)
    ensures Moved(l, c, sign).useDefense == l.useDefense && Moved(l, c, sign).conds == l.conds
  {
  }

  /** From l to g some conditions went; if one of them disabled the defence, the flag has been set. */
  predicate Freed(l: Ledger, g: Ledger) {
    Disabling(g.conds) <= Disabling(l.conds) && g.useDefense == (l.useDefense || Disabling(g.conds) < Disabling(l.conds))
  }

  lemma DropDefence(l: Ledger, i: nat)
    requires i < |l.conds|
    ensures Freed(l, Drop(l, i))
    ensures !Disables(l.conds[i]) ==>
      Disabling(Drop(l, i).conds) == Disabling(l.conds) && Drop(l, i).useDefense == l.useDefense
  {
    hide Moved, Disables;
    DropKeepsRest(l, i);
    DisablingChanged(l.conds, i, l.conds[i]);
    MovedFlag(l.(conds := l.conds[..i] + l.conds[i + 1..], useDefense := l.useDefense || Disables(l.conds[i])), l.conds[i], -1);
  }

  lemma {:induction false} RemovedDefence(l: Ledger, i: nat, conditionType: nat, id: Option<int>, force: bool, w: World)
    requires i <= |l.conds|
    ensures Freed(l, RemovedFrom(l, i, conditionType, id, force, w))
    decreases |l.conds| - i
  {
    hide Drop, Matches, Disabling;
    if i < |l.conds| {
      if !Matches(l.conds[i], conditionType, id) {
        RemovedDefence(l, i + 1, conditionType, id, force, w);
      } else if !(!force && conditionType == PARALYZE && Immobile(w, l.conds)) {
        DropDefence(l, i);
        DropKeepsRest(l, i);
        RemovedDefence(Drop(l, i), i, conditionType, id, force, w);
      }
    }
  }

  /** Taking out conditions of a type that never disables the defence. */
  lemma {:induction false} RemovedSpeed(l: Ledger, i: nat, conditionType: nat, force: bool, w: World)
    requires i <= |l.conds| && Sound(l) && (conditionType == HASTE || conditionType == PARALYZE)
    ensures var g := RemovedFrom(l, i, conditionType, None, force, w);
      Disabling(g.conds) == Disabling(l.conds) && g.useDefense == l.useDefense
    decreases |l.conds| - i
  {
    hide Drop, Sound;
    if i < |l.conds| {
      if !Matches(l.conds[i], conditionType, None) {
        RemovedSpeed(l, i + 1, conditionType, force, w);
      } else if !(!force && conditionType == PARALYZE && Immobile(w, l.conds)) {
        CondClassed(l, i);
        DropDefence(l, i);
        DropKeepsRest(l, i);
        DropKeeps(l, i, SpeedPart);
        RemovedSpeed(Drop(l, i), i, conditionType, force, w);
      }
    }
  }

  lemma {:induction false} ExecutedDefence(l: Ledger, i: nat, interval: nat, w: World)
    requires i <= |l.conds|
    ensures Freed(l, ExecutedFrom(l, i, interval, w))
    decreases |l.conds| - i
  {
    hide Drop, Ticked, Disables, Disabling;
    if i < |l.conds| {
      var t := Ticked(l.conds[i], interval, w);
      TickedDisables(l.conds[i], interval, w);
      DisablingChanged(l.conds, i, t.cond);
      var l1 := l.(conds := l.conds[i := t.cond]);
      if t.alive {
        ExecutedDefence(l1, i + 1, interval, w);
      } else {
        DropDefence(l1, i);
        DropKeepsRest(l1, i);
        ExecutedDefence(Drop(l1, i), i, interval, w);
      }
    }
  }

  lemma TickedDisables(c: Cond, interval: nat, w: World)
    ensures Disables(Ticked(c, interval, w).cond) == Disables(c)
  {
  }

  /** How many conditions but the i-th disable the defence. */
  function Others(cs: seq<Cond>, i: nat): int
    requires i < |cs|
  {
    Disabling(cs) - if Disables(cs[i]) then 1 else 0
  }

  /** A condition that is added may come in the way of the flag. One that takes over another sets it if
      the other disabled the defence, so no condition may be left that does; and it never clears it, so
      it must not be the first to disable the defence. An attributes condition that starts sets it as it
      likes, so it must disable the defence itself unless none does. */
  predicate AddFits(l: Ledger, c: Cond, w: World) {
    var i := Find(l.conds, c);
    if i < |l.conds| then
      Replaces(l.conds[i], c, w) ==>
        if Others(l.conds, i) == 0 then !Disables(c) else !Disables(l.conds[i])
    else c.extra.Attributes? && Started(c, w, l.player).Some? ==> l.useDefense || Disables(c)
  }

  /** Adding a condition keeps the flag right exactly when it fits. */
  lemma AddDefenceIff(l: Ledger, c: Cond, force: bool, w: World)
    requires Sound(l) && Classed(c) && DefenceRight(l) && WithCondition(l, c, force, w).outcome != Postponed
    ensures DefenceRight(WithCondition(l, c, force, w).ledger) <==> AddFits(l, c, w)
  {
    hide Sound, Classed, Moved, Started, Updated, Replaces, Has, Opposed, DefenceRight;
    RightMeans(l);
    RightMeans(WithCondition(l, c, force, w).ledger);
    var i := Find(l.conds, c);
    if i < |l.conds| {
      CondClassed(l, i);
      UpdatedDisables(l.conds[i], c, w, l.player);
      var c' := Updated(l.conds[i], c, w, l.player);
      DisablingChanged(l.conds, i, c');
      MovedFlag(Ended(l, i, c, w), l.conds[i], -1);
      MovedFlag(Moved(Ended(l, i, c, w), l.conds[i], -1), c', 1);
      DisablingAt(l.conds, i);
    } else if Started(c, w, l.player).Some? {
      var c' := Started(c, w, l.player).value;
      StartedDisables(c, w, l.player);
      StartedClassed(c, w, l.player);
      AppendKeeps(l, c', SpeedPart);
      DisablingMore(l.conds, c');
      var m := Moved(Begun(l, c').(conds := l.conds + [c']), c', 1);
      MovedFlag(Begun(l, c').(conds := l.conds + [c']), c', 1);
      OpposedDefence(m, c'.conditionType, w);
    }
  }

  lemma DisablingAt(cs: seq<Cond>, i: nat)
    requires i < |cs|
    ensures Disables(cs[i]) ==> Disabling(cs) >= 1
  {
    DisablingChanged(cs, i, cs[i]);
  }

  lemma OpposedDefence(l: Ledger, conditionType: nat, w: World)
    requires Sound(l)
    ensures var g := Opposed(l, conditionType, w);
      Disabling(g.conds) == Disabling(l.conds) && g.useDefense == l.useDefense
  {
    hide Sound, Has, RemovedFrom;
    RemovedSpeed(l, 0, HASTE, false, w);
    RemovedSpeed(l, 0, PARALYZE, false, w);
  }

  lemma UpdatedDisables(prev: Cond, c: Cond, w: World, player: bool)
    requires Classed(prev) && Classed(c) && SameKey(prev, c)
    ensures Disables(Updated(prev, c, w, player)) == if Replaces(prev, c, w) then Disables(c) else Disables(prev)
  {
    hide NewExtra, Replaces;
    ClassesMatch(prev, c);
  }

  lemma ClassesMatch(a: Cond, b: Cond)
    requires Classed(a) && Classed(b) && SameKey(a, b)
    ensures a.extra.Attributes? == b.extra.Attributes? && a.extra.Damage? == b.extra.Damage?
  {
    hide NewExtra;
  }

  lemma StartedDisables(c: Cond, w: World, player: bool)
    requires Started(c, w, player).Some?
    ensures Disables(Started(c, w, player).value) == Disables(c)
    ensures Started(c, w, player).value.extra.Attributes? == c.extra.Attributes?
  {
  }

  /** Adding fits as said; whatever else ends a condition that disables the defence leaves none. */
  predicate OpFits(l: Ledger, op: Op) {
    if op.Add? then
      Classed(op.cond) && WithCondition(l, op.cond, op.force, op.world).outcome != Postponed ==>
        AddFits(l, op.cond, op.world)
    else
      var g := Step(l, op); Disabling(g.conds) < Disabling(l.conds) ==> Disabling(g.conds) == 0
  }

  predicate AllFitting(l: Ledger, ops: seq<Op>)
    decreases |ops|
  {
    ops == [] || (OpFits(l, ops[0]) && AllFitting(Step(l, ops[0]), ops[1..]))
  }

  /** The flag is right in every state of the run. */
  predicate AlwaysRight(l: Ledger, ops: seq<Op>)
    decreases |ops|
  {
    DefenceRight(l) && (ops == [] || AlwaysRight(Step(l, ops[0]), ops[1..]))
  }

  lemma StepDefenceIff(l: Ledger, op: Op)
    requires Sound(l) && DefenceRight(l)
    ensures DefenceRight(Step(l, op)) <==> OpFits(l, op)
  {
    hide Sound, WithCondition, RemovedFrom, ExecutedFrom, Drop, AddFits, DefenceRight;
    RightMeans(l);
    RightMeans(Step(l, op));
    match op
    case Add(c, force, w) =>
      if Classed(c) {
        if WithCondition(l, c, force, w).outcome == Postponed {
          PostponedSame(l, c, force, w);
        } else {
          AddDefenceIff(l, c, force, w);
        }
      }
    case RemoveType(conditionType, id, force, w) => RemovedDefence(l, 0, conditionType, id, force, w);
    case RemoveOne(i, force, w) =>
      if i < |l.conds| {
        DropDefence(l, i);
      }
    case Execute(interval, w) => ExecutedDefence(l, 0, interval, w);
    case Elsewhere(q, d) =>
  }

  lemma PostponedSame(l: Ledger, c: Cond, force: bool, w: World)
    requires WithCondition(l, c, force, w).outcome == Postponed
    ensures WithCondition(l, c, force, w).ledger == l
  {
    hide Moved, Opposed, Started, Updated, Has;
  }

  /** Through a whole run the flag is right exactly when every condition that is added fits. */
  lemma {:induction false} RunDefenceIff(l: Ledger, ops: seq<Op>)
    requires Sound(l) && DefenceRight(l)
    ensures AlwaysRight(l, ops) <==> AllFitting(l, ops)
    decreases |ops|
  {
    hide Sound, Step, DefenceRight, OpFits;
    if ops == [] {
    } else {
      StepDefenceIff(l, ops[0]);
      if DefenceRight(Step(l, ops[0])) {
        StepKeeps(l, ops[0], SpeedPart);
        RunDefenceIff(Step(l, ops[0]), ops[1..]);
      } else {
        assert !AlwaysRight(Step(l, ops[0]), ops[1..]);
      }
    }
  }

  /** A second without defence. */
  const DEFENCELESS := Cond(ATTRIBUTES, ID_COMBAT, 0, 1000, 0, false, false,
    Attributes(Zeros(SKILLS), Zeros(SKILLS), Zeros(STATS), Zeros(STATS), Zeros(SPECIALS), true, 0, 0, 0))

  /** Given again while it lasts, it gives the defence back. */
  lemma DefenceComesBack(player: bool, w: World, w': World)
    requires w.now <= w'.now
    ensures var l := Ledger(player, [], 0, Zeros(SKILLS), Zeros(SPECIALS), Zeros(STATS), true);
      var m := Step(l, Add(DEFENCELESS, false, w));
      var g := Step(m, Add(DEFENCELESS, false, w'));
      && Sound(l) && DefenceRight(l) && DefenceRight(m) && !m.useDefense
      && |g.conds| == 1 && Disables(g.conds[0]) && g.useDefense
  {
    var l := Ledger(player, [], 0, Zeros(SKILLS), Zeros(SPECIALS), Zeros(STATS), true);
    GivenOnce(l, w);
    var m := Step(l, Add(DEFENCELESS, false, w));
    GivenAgain(m, w, w');
  }

  lemma GivenOnce(l: Ledger, w: World)
    requires Sized(l) && l.conds == [] && l.useDefense
    ensures Sound(l) && DefenceRight(l)
    ensures var m := Step(l, Add(DEFENCELESS, false, w));
      && Sound(m) && DefenceRight(m) && !m.useDefense && |m.conds| == 1
      && m.conds == [Started(DEFENCELESS, w, l.player).value]
  {
    hide Moved;
    var c := Started(DEFENCELESS, w, l.player).value;
    assert Classed(DEFENCELESS);
    MovedFlag(Begun(l, c).(conds := l.conds + [c]), c, 1);
    AddKeeps(l, DEFENCELESS, false, w, SpeedPart);
    DisablingMore([], c);
  }

  lemma GivenAgain(m: Ledger, w: World, w': World)
    requires Sound(m) && DefenceRight(m) && m.conds == [Started(DEFENCELESS, w, m.player).value] && w.now <= w'.now
    ensures var g := Step(m, Add(DEFENCELESS, false, w')); |g.conds| == 1 && Disables(g.conds[0]) && g.useDefense
  {
    hide Moved;
    var c := m.conds[0];
    assert Find(m.conds, DEFENCELESS) == 0 && Replaces(c, DEFENCELESS, w');
    var c' := Updated(c, DEFENCELESS, w', m.player);
    MovedFlag(Ended(m, 0, DEFENCELESS, w'), c, -1);
    MovedFlag(Moved(Ended(m, 0, DEFENCELESS, w'), c, -1), c', 1);
  }

  // ---------------------------------------------------------------- how conditions end

  /** What a round makes of a list. */
  function Surviving(cs: seq<Cond>, interval: nat, w: World): seq<Cond> {
    if cs == [] then []
    else (if Ticked(cs[0], interval, w).alive then [Ticked(cs[0], interval, w).cond] else []) + Surviving(cs[1..], interval, w)
  }

  lemma {:induction false} ExecutedConds(l: Ledger, i: nat, interval: nat, w: World)
    requires i <= |l.conds|
    ensures ExecutedFrom(l, i, interval, w).conds == l.conds[..i] + Surviving(l.conds[i..], interval, w)
    decreases |l.conds| - i
  {
    hide Drop, Ticked;
    var cs := l.conds;
    if i == |cs| {
      assert cs[..i] + [] == cs;
    } else {
      var t := Ticked(cs[i], interval, w);
      var l1 := l.(conds := cs[i := t.cond]);
      assert cs[i..][1..] == cs[i + 1..] && l1.conds[i + 1..] == cs[i + 1..];
      if t.alive {
        ExecutedConds(l1, i + 1, interval, w);
        assert l1.conds[..i + 1] == cs[..i] + [t.cond];
      } else {
        DropKeepsRest(l1, i);
        assert Drop(l1, i).conds[i..] == cs[i + 1..] && Drop(l1, i).conds[..i] == cs[..i];
        ExecutedConds(Drop(l1, i), i, interval, w);
      }
    }
  }

  /** Standing in the field that causes it keeps a damage condition from running out. */
  predicate Spared(c: Cond, w: World) {
    c.extra.Damage? && c.extra.period == 0 && c.extra.list != [] && !w.fieldRemoves(c)
  }

  /** From before to after a round: the same condition, a little older. */
  predicate Aged(c: Cond, d: Cond, interval: nat, w: World) {
    && SameKey(c, d)
    && d.ticks == (if c.ticks == -1 then -1
                   else if Spared(c, w) then (if c.ticks > 0 then c.ticks else 0)
                   else if c.ticks > interval then c.ticks - interval else 0)
    && d.endTime == c.endTime + if Spared(c, w) && c.ticks > 0 then interval else 0
  }

  lemma TickedAges(c: Cond, interval: nat, w: World)
    ensures var t := Ticked(c, interval, w);
      Aged(c, t.cond, interval, w) && (t.alive <==> c.ticks == -1 || t.cond.endTime >= w.now)
  {
    hide Beaten, Passed;
    match c.extra
    case Damage(_, period, list, _) =>
      if period == 0 && list != [] {
        DamageAges(c, interval, w);
      }
    case _ =>
  }

  lemma DamageAges(c: Cond, interval: nat, w: World)
    requires c.extra.Damage? && c.extra.period == 0 && c.extra.list != []
    ensures var d := DamageRun(c, interval, w.fieldRemoves(c));
      && d == c.(endTime := d.endTime, extra := d.extra)
      && d.endTime == c.endTime + if !w.fieldRemoves(c) && c.ticks > 0 then interval else 0
  {
  }

  /** When what else is in a total stays the same, the total follows the sum of the shares. */
  lemma TotalFollows(l: Ledger, g: Ledger, p: Part)
    requires Sized(l) && Kept(l, p) && Sized(g) && Kept(g, p) && Remainder(g, p) == Remainder(l, p)
    ensures S32(Total(g, p)) == S32(Total(l, p) - (Sum(l.conds, p) - Sum(g.conds, p)))
  {
    hide Sum, Kept, Total, Sized;
    Wraps(Total(g, p) - Sum(g.conds, p), Sum(g.conds, p));
    Wraps(Total(l, p) - Sum(l.conds, p), Sum(g.conds, p));
  }

  predicate Increasing(s: seq<nat>) {
    forall i, k :: 0 <= i < k < |s| ==> s[i] < s[k]
  }

  /** The places one further on, and the same with place 0 in front. */
  lemma IncreasingCons(s: seq<nat>) returns (t: seq<nat>)
    requires Increasing(s)
    ensures |t| == |s| && Increasing(t) && Increasing([0] + t)
    ensures forall k :: 0 <= k < |s| ==> t[k] == s[k] + 1
    ensures 0 !in t && forall i: nat {:trigger i in s} :: i in s <==> i + 1 in t
  {
    t := seq(|s|, k requires 0 <= k < |s| => s[k] + 1);
    forall i: nat ensures i in s <==> i + 1 in t {
      if i in s {
        var k :| 0 <= k < |s| && s[k] == i;
        assert t[k] == i + 1;
      }
    }
  }

  /** It does not end, or not yet. */
  predicate Lasts(c: Cond, interval: nat, w: World) {
    c.ticks == -1 || c.endTime + (if Spared(c, w) && c.ticks > 0 then interval else 0) >= w.now
  }

  ghost predicate ComesFrom(cs: seq<Cond>, from: seq<nat>, ds: seq<Cond>, interval: nat, w: World) {
    && |from| == |ds| && Increasing(from)
    && (forall k :: 0 <= k < |from| ==>
          from[k] < |cs| && Aged(cs[from[k]], ds[k], interval, w) && (ds[k].ticks == -1 || ds[k].endTime >= w.now))
    && forall i :: 0 <= i < |cs| ==> (i in from <==> Lasts(cs[i], interval, w))
  }

  /** The conditions that come through a round, by their places before it. */
  lemma {:induction false} SurvivingLaw(cs: seq<Cond>, interval: nat, w: World) returns (from: seq<nat>)
    ensures ComesFrom(cs, from, Surviving(cs, interval, w), interval, w)
    decreases |cs|
  {
    hide Ticked, ComesFrom;
    if cs == [] {
      from := [];
      NothingComes(interval, w);
    } else {
      from := SurvivingLaw(cs[1..], interval, w);
      TickedAges(cs[0], interval, w);
      var t := Ticked(cs[0], interval, w);
      if t.alive {
        from := OneComes(cs, from, t.cond, Surviving(cs[1..], interval, w), interval, w);
      } else {
        from := NoneComes(cs, from, Surviving(cs[1..], interval, w), interval, w);
        assert [] + Surviving(cs[1..], interval, w) == Surviving(cs[1..], interval, w);
      }
    }
  }

  lemma NothingComes(interval: nat, w: World)
    ensures ComesFrom([], [], [], interval, w)
  {
  }

  lemma OneComes(cs: seq<Cond>, from: seq<nat>, d: Cond, ds: seq<Cond>, interval: nat, w: World) returns (t: seq<nat>)
    requires cs != [] && ComesFrom(cs[1..], from, ds, interval, w) && Lasts(cs[0], interval, w)
    requires Aged(cs[0], d, interval, w) && (d.ticks == -1 || d.endTime >= w.now)
    ensures ComesFrom(cs, t, [d] + ds, interval, w)
  {
    hide Aged, Lasts, Increasing;
    var u := IncreasingCons(from);
    t := [0] + u;
    LaterAged(cs, from, u, d, ds, interval, w);
    LaterOnes(cs, from, u, interval, w);
  }

  lemma LaterAged(cs: seq<Cond>, from: seq<nat>, u: seq<nat>, d: Cond, ds: seq<Cond>, interval: nat, w: World)
    requires cs != [] && |from| == |u| == |ds| && forall k :: 0 <= k < |u| ==> u[k] == from[k] + 1
    requires forall k :: 0 <= k < |from| ==>
      from[k] < |cs[1..]| && Aged(cs[1..][from[k]], ds[k], interval, w) && (ds[k].ticks == -1 || ds[k].endTime >= w.now)
    ensures var t, all := [0] + u, [d] + ds;
      forall k :: 1 <= k < |t| ==>
        t[k] < |cs| && Aged(cs[t[k]], all[k], interval, w) && (all[k].ticks == -1 || all[k].endTime >= w.now)
  {
    hide Aged;
    var t, all := [0] + u, [d] + ds;
    forall k | 1 <= k < |t|
      ensures t[k] < |cs| && Aged(cs[t[k]], all[k], interval, w) && (all[k].ticks == -1 || all[k].endTime >= w.now)
    {
      assert t[k] == u[k - 1] == from[k - 1] + 1 && all[k] == ds[k - 1];
      assert cs[t[k]] == cs[1..][from[k - 1]];
    }
  }

  lemma LaterOnes(cs: seq<Cond>, from: seq<nat>, u: seq<nat>, interval: nat, w: World)
    requires cs != [] && forall i :: 0 <= i < |cs[1..]| ==> (i in from <==> Lasts(cs[1..][i], interval, w))
    requires forall i: nat {:trigger i in from} :: i in from <==> i + 1 in u
    ensures forall i :: 1 <= i < |cs| ==> (i in u <==> Lasts(cs[i], interval, w))
  {
    hide Lasts;
    forall i | 1 <= i < |cs| ensures i in u <==> Lasts(cs[i], interval, w) {
      assert cs[i] == cs[1..][i - 1] && (i - 1 in from <==> i - 1 + 1 in u);
    }
  }

  lemma NoneComes(cs: seq<Cond>, from: seq<nat>, ds: seq<Cond>, interval: nat, w: World) returns (t: seq<nat>)
    requires cs != [] && ComesFrom(cs[1..], from, ds, interval, w) && !Lasts(cs[0], interval, w)
    ensures ComesFrom(cs, t, ds, interval, w)
  {
    hide Aged, Lasts, Increasing;
    t := IncreasingCons(from);
    forall k | 0 <= k < |t| ensures t[k] < |cs| && Aged(cs[t[k]], ds[k], interval, w) {
      assert t[k] == from[k] + 1 && cs[t[k]] == cs[1..][from[k]];
    }
    LaterOnes(cs, from, t, interval, w);
  }

  /** A round keeps, in their order, exactly the conditions that never end or end later, with their time
      run down, and takes the shares of the others out of the totals. */
  lemma RoundLaw(l: Ledger, interval: nat, w: World, p: Part) returns (from: seq<nat>)
    requires Sound(l) && Kept(l, p)
    ensures var g := Step(l, Execute(interval, w));
      && |from| == |g.conds| && Increasing(from)
      && (forall k :: 0 <= k < |from| ==> from[k] < |l.conds| && Aged(l.conds[from[k]], g.conds[k], interval, w))
      && (forall k :: 0 <= k < |g.conds| ==> g.conds[k].ticks == -1 || g.conds[k].endTime >= w.now)
      && (forall i :: 0 <= i < |l.conds| && !Spared(l.conds[i], w) ==>
            (i in from <==> l.conds[i].ticks == -1 || l.conds[i].endTime >= w.now))
      && Sized(g) && Kept(g, p) && S32(Total(g, p)) == S32(Total(l, p) - (Sum(l.conds, p) - Sum(g.conds, p)))
  {
    hide Sound, Aged, Sum, Kept, Spared, Increasing, Remainder, Sized, ExecutedFrom, Total, ComesFrom;
    var g := ExecutedFrom(l, 0, interval, w);
    from := RoundPlaces(l, interval, w);
    ComesMeans(l.conds, from, g.conds, interval, w);
    SoundSized(l);
    ExecuteKeeps(l, 0, interval, w, p);
    SoundSized(g);
    TotalFollows(l, g, p);
  }

  lemma RoundPlaces(l: Ledger, interval: nat, w: World) returns (from: seq<nat>)
    ensures ComesFrom(l.conds, from, ExecutedFrom(l, 0, interval, w).conds, interval, w)
  {
    hide Surviving, ExecutedFrom, ComesFrom;
    ExecutedConds(l, 0, interval, w);
    assert l.conds[..0] + Surviving(l.conds[0..], interval, w) == Surviving(l.conds, interval, w) && l.conds[0..] == l.conds;
    from := SurvivingLaw(l.conds, interval, w);
  }

  lemma ComesMeans(cs: seq<Cond>, from: seq<nat>, ds: seq<Cond>, interval: nat, w: World)
    requires ComesFrom(cs, from, ds, interval, w)
    ensures |from| == |ds| && Increasing(from)
    ensures forall k :: 0 <= k < |from| ==> from[k] < |cs| && Aged(cs[from[k]], ds[k], interval, w)
    ensures forall k :: 0 <= k < |ds| ==> ds[k].ticks == -1 || ds[k].endTime >= w.now
    ensures forall i :: 0 <= i < |cs| && !Spared(cs[i], w) ==> (i in from <==> cs[i].ticks == -1 || cs[i].endTime >= w.now)
  {
    hide Aged, Spared, Increasing;
  }

  /** Every listed condition with the key of c ends by e and is no damage. */
  predicate EndsBy(l: Ledger, c: Cond, e: int) {
    forall i :: 0 <= i < |l.conds| && SameKey(l.conds[i], c) ==>
      l.conds[i].ticks != -1 && l.conds[i].endTime <= e && !l.conds[i].extra.Damage?
  }

  predicate Listed(l: Ledger, c: Cond) {
    exists i :: 0 <= i < |l.conds| && SameKey(l.conds[i], c)
  }

  /** The run does not add a condition with the key of c. */
  predicate NotRenewed(ops: seq<Op>, c: Cond) {
    forall k :: 0 <= k < |ops| && ops[k].Add? ==> !SameKey(ops[k].cond, c)
  }

  lemma DropEndsBy(l: Ledger, i: nat, c: Cond, e: int)
    requires i < |l.conds|
    ensures EndsBy(l, c, e) ==> EndsBy(Drop(l, i), c, e)
    ensures !Listed(l, c) ==> !Listed(Drop(l, i), c)
  {
    hide Drop;
    DropKeepsRest(l, i);
  }

  lemma {:induction false} RemovedEndsBy(l: Ledger, i: nat, conditionType: nat, id: Option<int>, force: bool, w: World, c: Cond, e: int)
    requires i <= |l.conds|
    ensures var g := RemovedFrom(l, i, conditionType, id, force, w);
      (EndsBy(l, c, e) ==> EndsBy(g, c, e)) && (!Listed(l, c) ==> !Listed(g, c))
    decreases |l.conds| - i
  {
    hide Drop, Matches, EndsBy, Listed;
    if i < |l.conds| {
      if !Matches(l.conds[i], conditionType, id) {
        RemovedEndsBy(l, i + 1, conditionType, id, force, w, c, e);
      } else if !(!force && conditionType == PARALYZE && Immobile(w, l.conds)) {
        DropEndsBy(l, i, c, e);
        DropKeepsRest(l, i);
        RemovedEndsBy(Drop(l, i), i, conditionType, id, force, w, c, e);
      }
    }
  }

  lemma RoundEndsBy(l: Ledger, interval: nat, w: World, c: Cond, e: int)
    requires Sound(l)
    ensures var g := Step(l, Execute(interval, w));
      && (EndsBy(l, c, e) ==> EndsBy(g, c, e)) && (!Listed(l, c) ==> !Listed(g, c))
      && (EndsBy(l, c, e) && e < w.now ==> !Listed(g, c))
  {
    hide Sound, ExecutedFrom;
    var g := Step(l, Execute(interval, w));
    var from := RoundLaw(l, interval, w, SpeedPart);
    forall k | 0 <= k < |g.conds| && SameKey(g.conds[k], c)
      ensures Listed(l, c)
      ensures EndsBy(l, c, e) ==> g.conds[k].ticks != -1 && g.conds[k].endTime <= e && e >= w.now
    {
      assert SameKey(l.conds[from[k]], c);
      assert from[k] in from;
    }
    if EndsBy(l, c, e) {
      RoundClasses(l, interval, w, c, e);
    }
  }

  lemma RoundClasses(l: Ledger, interval: nat, w: World, c: Cond, e: int)
    requires Sound(l) && EndsBy(l, c, e)
    ensures var g := Step(l, Execute(interval, w)); forall k :: 0 <= k < |g.conds| && SameKey(g.conds[k], c) ==> !g.conds[k].extra.Damage?
  {
    hide ExecutedFrom;
    var g := Step(l, Execute(interval, w));
    ExecuteKeeps(l, 0, interval, w, SpeedPart);
    var from := RoundLaw(l, interval, w, SpeedPart);
    forall k | 0 <= k < |g.conds| && SameKey(g.conds[k], c) ensures !g.conds[k].extra.Damage? {
      CondClassed(l, from[k]);
      CondClassed(g, k);
      ClassesMatch(l.conds[from[k]], g.conds[k]);
    }
  }

  lemma AddEndsBy(l: Ledger, d: Cond, force: bool, w: World, c: Cond, e: int)
    requires Sound(l) && Classed(d) && !SameKey(d, c)
    ensures var g := WithCondition(l, d, force, w).ledger;
      (EndsBy(l, c, e) ==> EndsBy(g, c, e)) && (!Listed(l, c) ==> !Listed(g, c))
  {
    hide Sound, Classed, Moved, Started, Updated, Replaces, Has, RemovedFrom;
    var i := Find(l.conds, d);
    if i < |l.conds| {
      CondClassed(l, i);
      var d' := Updated(l.conds[i], d, w, l.player);
      UpdatedClassed(l.conds[i], d, w, l.player);
      MovedFlag(Ended(l, i, d, w), l.conds[i], -1);
      MovedFlag(Moved(Ended(l, i, d, w), l.conds[i], -1), d', 1);
    } else if Started(d, w, l.player).Some? {
      var d' := Started(d, w, l.player).value;
      StartedKey(d, w, l.player);
      var m := Moved(Begun(l, d').(conds := l.conds + [d']), d', 1);
      MovedFlag(Begun(l, d').(conds := l.conds + [d']), d', 1);
      RemovedEndsBy(m, 0, HASTE, None, false, w, c, e);
      RemovedEndsBy(m, 0, PARALYZE, None, false, w, c, e);
    }
  }

  lemma StepEndsBy(l: Ledger, op: Op, c: Cond, e: int)
    requires Sound(l) && NotRenewed([op], c)
    ensures (EndsBy(l, c, e) ==> EndsBy(Step(l, op), c, e)) && (!Listed(l, c) ==> !Listed(Step(l, op), c))
  {
    hide Sound, WithCondition, RemovedFrom, ExecutedFrom, Drop, EndsBy, Listed;
    match op
    case Add(d, force, w) =>
      assert [op][0] == op;
      if Classed(d) {
        AddEndsBy(l, d, force, w, c, e);
      }
    case RemoveType(conditionType, id, force, w) => RemovedEndsBy(l, 0, conditionType, id, force, w, c, e);
    case RemoveOne(i, force, w) =>
      if i < |l.conds| {
        DropEndsBy(l, i, c, e);
      }
    case Execute(interval, w) => RoundEndsBy(l, interval, w, c, e);
    case Elsewhere(q, d) => SameConds(l, Step(l, op), c, e);
  }

  lemma SameConds(l: Ledger, g: Ledger, c: Cond, e: int)
    requires g.conds == l.conds
    ensures EndsBy(g, c, e) == EndsBy(l, c, e) && Listed(g, c) == Listed(l, c)
  {
  }

  lemma {:induction false} RunEndsBy(l: Ledger, ops: seq<Op>, c: Cond, e: int)
    requires Sound(l) && NotRenewed(ops, c)
    ensures Sound(Run(l, ops))
    ensures (EndsBy(l, c, e) ==> EndsBy(Run(l, ops), c, e)) && (!Listed(l, c) ==> !Listed(Run(l, ops), c))
    decreases |ops|
  {
    hide Sound, Step, EndsBy, Listed;
    if ops != [] {
      StepKeeps(l, ops[0], SpeedPart);
      assert NotRenewed([ops[0]], c) && NotRenewed(ops[1..], c);
      StepEndsBy(l, ops[0], c, e);
      RunEndsBy(Step(l, ops[0]), ops[1..], c, e);
    }
  }

  /** A timed condition that is not renewed is not listed any more after a round past its end, whatever
      happens before that round and after it. */
  lemma TimedOut(l: Ledger, c: Cond, e: int, before: seq<Op>, interval: nat, w: World, after: seq<Op>)
    requires Sound(l) && EndsBy(l, c, e) && NotRenewed(before, c) && NotRenewed(after, c) && w.now > e
    ensures !Listed(Run(Step(Run(l, before), Execute(interval, w)), after), c)
  {
    hide Sound, Step, EndsBy, Listed;
    RunEndsBy(l, before, c, e);
    var m := Run(l, before);
    RoundEndsBy(m, interval, w, c, e);
    StepKeeps(m, Execute(interval, w), SpeedPart);
    RunEndsBy(Step(m, Execute(interval, w)), after, c, e);
  }

  // ---------------------------------------------------------------- how conditions are removed and added

  /** The conditions of other types, or with other ids. */
  function Unmatched(cs: seq<Cond>, conditionType: nat, id: Option<int>): seq<Cond> {
    if cs == [] then []
    else
      (if cs[0].conditionType == conditionType && (id.None? || cs[0].id == id.value) then [] else [cs[0]])
        + Unmatched(cs[1..], conditionType, id)
  }

  lemma {:induction false} RemovedConds(l: Ledger, i: nat, conditionType: nat, id: Option<int>, force: bool, w: World)
    requires i <= |l.conds| && (force || conditionType != PARALYZE || forall n :: w.walkDelay(n) <= 0)
    ensures RemovedFrom(l, i, conditionType, id, force, w).conds == l.conds[..i] + Unmatched(l.conds[i..], conditionType, id)
    decreases |l.conds| - i
  {
    hide Drop;
    var cs := l.conds;
    if i == |cs| {
      assert cs[..i] + [] == cs;
    } else if !Matches(cs[i], conditionType, id) {
      assert cs[i..][1..] == cs[i + 1..] && cs[..i + 1] + Unmatched(cs[i + 1..], conditionType, id)
          == cs[..i] + ([cs[i]] + Unmatched(cs[i + 1..], conditionType, id));
      RemovedConds(l, i + 1, conditionType, id, force, w);
    } else {
      DropKeepsRest(l, i);
      assert cs[i..][1..] == cs[i + 1..] && [] + Unmatched(cs[i + 1..], conditionType, id) == Unmatched(cs[i + 1..], conditionType, id);
      assert Drop(l, i).conds[i..] == cs[i + 1..] && Drop(l, i).conds[..i] == cs[..i];
      RemovedConds(Drop(l, i), i, conditionType, id, force, w);
    }
  }

  /** Removing takes exactly the matching conditions out of the list, and their shares out of the totals;
      only a paralysis resists, while a step is under way. */
  lemma RemoveLaw(l: Ledger, conditionType: nat, id: Option<int>, force: bool, w: World, p: Part)
    requires Sound(l) && Kept(l, p)
    ensures var g := Step(l, RemoveType(conditionType, id, force, w));
      && (force || conditionType != PARALYZE || (forall n :: w.walkDelay(n) <= 0) ==>
            g.conds == Unmatched(l.conds, conditionType, id))
      && (!force && conditionType == PARALYZE && w.walkDelay(|l.conds|) > 0 ==> g == l)
      && Sized(g) && Kept(g, p) && S32(Total(g, p)) == S32(Total(l, p) - (Sum(l.conds, p) - Sum(g.conds, p)))
  {
    hide Sum, Kept, Drop, Sound, Remainder, Total, Sized, RemovedFrom;
    var g := RemovedFrom(l, 0, conditionType, id, force, w);
    if force || conditionType != PARALYZE || forall n :: w.walkDelay(n) <= 0 {
      RemovedConds(l, 0, conditionType, id, force, w);
      assert l.conds[..0] + Unmatched(l.conds[0..], conditionType, id) == Unmatched(l.conds, conditionType, id) && l.conds[0..] == l.conds;
    }
    if !force && conditionType == PARALYZE && w.walkDelay(|l.conds|) > 0 {
      ParalysisStays(l, 0, id, w);
    }
    SoundSized(l);
    RemovedKeeps(l, 0, conditionType, id, force, w, p);
    SoundSized(g);
    TotalFollows(l, g, p);
  }

  lemma {:induction false} ParalysisStays(l: Ledger, i: nat, id: Option<int>, w: World)
    requires i <= |l.conds| && w.walkDelay(|l.conds|) > 0
    ensures RemovedFrom(l, i, PARALYZE, id, false, w) == l
    decreases |l.conds| - i
  {
    hide Drop;
    if i < |l.conds| {
      if !Matches(l.conds[i], PARALYZE, id) {
        ParalysisStays(l, i + 1, id, w);
      }
    }
  }

  /** Everything about the condition is given: no speed to be rolled, no percentages, no damage list to be
      drawn up, no light to be spread over its time. */
  predicate Given(c: Cond) {
    match c.extra
    case Speed(delta, _, _, _, _) => delta != 0
    case Attributes(_, percents, _, statPercents, _, _, _, _, _) =>
      (forall i :: 0 <= i < |percents| ==> percents[i] == 0) && forall i :: 0 <= i < |statPercents| ==> statPercents[i] == 0
    case Damage(_, _, _, _) => false
    case Light(_, _, _, _) => false
    case _ => true
  }

  lemma GivenStarts(c: Cond, w: World, player: bool)
    requires Given(c)
    ensures Started(c, w, player) == Some(c.(endTime := if c.ticks > 0 then w.now + c.ticks else c.endTime))
    ensures Effective(c, w, player) == c
  {
    if c.extra.Attributes? {
      assert Percented(c.extra.skills, c.extra.skillsPercent, w.percented) == c.extra.skills;
      assert Percented(c.extra.stats, c.extra.statsPercent, w.statPercented) == c.extra.stats;
    }
  }

  /** What is not given is filled in when a condition starts: a speed is rolled, percentages are computed for
      players, and a light burns down evenly over its time. */
  lemma FilledIn(c: Cond, w: World, player: bool)
    requires !c.extra.Damage? && c.ticks > 0
    ensures Started(c, w, player).Some?
    ensures var d := Started(c, w, player).value;
      && SameKey(c, d) && d.ticks == c.ticks && d.endTime == w.now + c.ticks
      && (c.extra.Speed? ==> d.extra == c.extra.(delta := if c.extra.delta == 0 then S32(w.roll) else c.extra.delta))
      && (c.extra.Light? && c.extra.level > 0 && c.ticks < 0x8000_0000 ==>
            d.extra == Light(c.extra.color, c.extra.level, 0, c.ticks / c.extra.level))
      && (c.extra.Attributes? ==> d.extra == c.extra.(skills := d.extra.skills, stats := d.extra.stats))
      && (c.extra.Attributes? && !player ==> d.extra == c.extra)
      && (c.extra.Attributes? ==> |d.extra.skills| == |c.extra.skills|)
      && (c.extra.Attributes? ==>
            forall i :: 0 <= i < |c.extra.skills| ==>
              var computed := player && i < |c.extra.skillsPercent| && c.extra.skillsPercent[i] != 0;
              d.extra.skills[i] == if computed then S32(w.percented(i)) else c.extra.skills[i])
  {
    if c.extra.Light? && c.extra.level > 0 && c.ticks < 0x8000_0000 {
      QuotientFits(c.ticks, c.extra.level);
    }
  }

  lemma QuotientFits(a: nat, b: nat)
    requires b > 0 && a < 0x8000_0000
    ensures a / b < 0x8000_0000
  {
    ProductGrows(a / b, b);
  }

  lemma ProductGrows(q: nat, b: nat)
    requires b > 0
    ensures q * b >= q
  {
  }

  /** A damage condition takes effect when its first strike goes through and there is any damage to be done;
      what it does then is what it was told, with the list it is given. */
  lemma DamageStarts(c: Cond, w: World, player: bool)
    requires c.extra.Damage?
    ensures Started(c, w, player).Some? <==> w.hits
    ensures w.hits ==>
      var setup := c.extra.setup.(startDamage := w.hit.startDamage);
      Started(c, w, player).value
        == c.(ticks := w.hit.ticks, endTime := w.hit.endTime, extra := c.extra.(list := w.hit.list, setup := setup))
  {
  }

  /** A condition of a new key joins the list with its end set, and its share joins the totals. Haste and
      paralysis apart, nothing else changes. */
  lemma AddNewLaw(l: Ledger, c: Cond, force: bool, w: World, p: Part)
    requires Sound(l) && Kept(l, p) && Classed(c) && Given(c) && !Listed(l, c)
    requires c.conditionType != HASTE && c.conditionType != PARALYZE
    ensures var r := WithCondition(l, c, force, w); var g := r.ledger;
      && r.outcome == Added && Step(l, Add(c, force, w)) == g
      && g.conds == l.conds + [c.(endTime := if c.ticks > 0 then w.now + c.ticks else c.endTime)]
      && Sized(g) && Kept(g, p) && S32(Total(g, p)) == S32(Total(l, p) + Share(c, p))
  {
    hide Sound, Classed, Moved, Has, Kept, Sum, Share;
    NotFound(l, c);
    GivenStarts(c, w, l.player);
    var c' := c.(endTime := if c.ticks > 0 then w.now + c.ticks else c.endTime);
    MovedFlag(Begun(l, c').(conds := l.conds + [c']), c', 1);
    SameShare(c, c', p);
    SoundSized(l);
    SameClassed(c, c');
    BegunTotal(l, c', l.conds + [c'], p);
    MovedKept(Begun(l, c').(conds := l.conds + [c']), c', 1, p);
  }

  lemma NotFound(l: Ledger, c: Cond)
    requires !Listed(l, c)
    ensures Find(l.conds, c) == |l.conds|
  {
  }

  lemma SameShare(c: Cond, d: Cond, p: Part)
    requires c.extra == d.extra
    ensures Share(c, p) == Share(d, p)
  {
  }

  lemma SameClassed(c: Cond, d: Cond)
    requires Classed(c) && c.extra == d.extra && c.conditionType == d.conditionType
    ensures Classed(d)
  {
    hide NewExtra;
  }

  lemma MovedKept(l: Ledger, c: Cond, sign: int, p: Part)
    requires Sized(l) && Kept(l, p) && Classed(c)
    ensures var g := Moved(l, c, sign); Sized(g) && Kept(g, p) && S32(Total(g, p)) == S32(Total(l, p) + sign * Share(c, p))
  {
    hide Share;
    MovedTotal(l, c, sign, p);
  }

  lemma BegunTotal(l: Ledger, c: Cond, cs: seq<Cond>, p: Part)
    requires Sized(l) && Kept(l, p)
    ensures var g := Begun(l, c).(conds := cs); Sized(g) && Kept(g, p) && Total(g, p) == Total(l, p)
  {
  }

  /** A condition of a key that is listed takes over or changes nothing. A speed takes over unless it would
      end one that never ends; a drunkenness if it is greater; anything else, damage apart, if it does not
      end earlier. */
  lemma UpdateLaw(l: Ledger, i: nat, c: Cond, force: bool, w: World, p: Part)
    requires Sound(l) && Kept(l, p) && Classed(c) && Given(c) && i < |l.conds| && SameKey(l.conds[i], c)
    requires WithCondition(l, c, force, w).outcome == Added
    ensures var g := Step(l, Add(c, force, w)); var prev := l.conds[i];
      if (if prev.extra.Speed? then !(prev.ticks == -1 && c.ticks > 0)
          else if prev.extra.Drunk? then c.extra.Drunk? && c.extra.drunkenness > prev.extra.drunkenness
          else !(prev.ticks == -1 && c.ticks > 0) && (c.ticks < 0 || prev.endTime <= w.now + c.ticks)) then
        && |g.conds| == |l.conds| && (forall k :: 0 <= k < |l.conds| && k != i ==> g.conds[k] == l.conds[k])
        && SameKey(g.conds[i], c) && g.conds[i].ticks == c.ticks && g.conds[i].endTime == w.now + c.ticks
        && Share(g.conds[i], p) == Share(c, p)
        && Sized(g) && Kept(g, p) && S32(Total(g, p)) == S32(Total(l, p) - Share(prev, p) + Share(c, p))
      else g.conds == l.conds && Sized(g) && Kept(g, p) && S32(Total(g, p)) == S32(Total(l, p))
  {
    hide Sound, Classed, Moved, Has, Kept, Sum, Share, Updated, Given;
    FoundAt(l, i, c);
    var prev := l.conds[i];
    CondClassed(l, i);
    var d := Updated(prev, c, w, l.player);
    UpdatedClassed(prev, c, w, l.player);
    GivenNotDamage(prev, c);
    UpdatedFields(prev, c, w, l.player, p);
    var e := Ended(l, i, c, w);
    MovedFlag(e, prev, -1);
    MovedFlag(Moved(e, prev, -1), d, 1);
    SoundSized(l);
    BegunLike(l, e, p);
    MovedKept(e, prev, -1, p);
    MovedKept(Moved(e, prev, -1), d, 1, p);
    Wraps(Total(Moved(e, prev, -1), p), Share(d, p));
    Wraps(Total(l, p) - Share(prev, p), Share(d, p));
    KeptAnyConds(Moved(Moved(e, prev, -1), d, 1), l.conds[i := d], p);
  }

  lemma FoundAt(l: Ledger, i: nat, c: Cond)
    requires Sound(l) && i < |l.conds| && SameKey(l.conds[i], c)
    ensures Find(l.conds, c) == i
  {
    hide Classed;
    var k := Find(l.conds, c);
    assert k < |l.conds| && SameKey(l.conds[k], c);
    assert k < i ==> SameKey(l.conds[k], l.conds[i]);
  }

  lemma GivenNotDamage(prev: Cond, c: Cond)
    requires Classed(prev) && Classed(c) && SameKey(prev, c) && Given(c)
    ensures !prev.extra.Damage?
  {
    hide NewExtra;
    ClassesMatch(prev, c);
  }

  lemma UpdatedFields(prev: Cond, c: Cond, w: World, player: bool, p: Part)
    requires Classed(prev) && Classed(c) && SameKey(prev, c) && Given(c) && !prev.extra.Damage?
    ensures var d := Updated(prev, c, w, player);
      && (Replaces(prev, c, w) ==> SameKey(d, c) && d.ticks == c.ticks && d.endTime == w.now + c.ticks && Share(d, p) == Share(c, p))
      && (!Replaces(prev, c, w) ==> d == prev)
  {
    hide NewExtra, Replaces;
    SameKeySameClass(prev, c);
    var u := WithTicks(prev, c.ticks, w.now).(extra := Copied(prev.extra, c.extra));
    if Replaces(prev, c, w) && (prev.extra.Speed? || prev.extra.Attributes?) {
      GivenStarts(u, w, player);
    }
  }

  lemma BegunLike(l: Ledger, e: Ledger, p: Part)
    requires Sized(l) && Kept(l, p) && e == l.(useDefense := e.useDefense)
    ensures Sized(e) && Kept(e, p) && Total(e, p) == Total(l, p)
  {
  }

  lemma KeptAnyConds(l: Ledger, cs: seq<Cond>, p: Part)
    requires Sized(l) && Kept(l, p)
    ensures var g := l.(conds := cs); Sized(g) && Kept(g, p) && Total(g, p) == Total(l, p)
  {
  }

  /** A damage condition takes over when it is forced to, or hits harder and would not end one that never
      ends. */
  lemma DamageUpdateLaw(l: Ledger, i: nat, c: Cond, force: bool, w: World)
    requires Sound(l) && Classed(c) && i < |l.conds| && SameKey(l.conds[i], c) && c.extra.Damage?
    requires WithCondition(l, c, force, w).outcome == Added
    ensures l.conds[i].extra.Damage?
    ensures var g := Step(l, Add(c, force, w)); var prev := l.conds[i];
      && |g.conds| == |l.conds| && (forall k :: 0 <= k < |l.conds| && k != i ==> g.conds[k] == l.conds[k])
      && if c.extra.setup.forceUpdate || (!(prev.ticks == -1 && c.ticks > 0) && TotalDamage(c.extra) > TotalDamage(prev.extra)) then
           && g.conds[i].extra.Damage? && g.conds[i].ticks == w.hit.ticks && g.conds[i].extra.list == w.hit.list
           && g.conds[i].extra.period == c.extra.period && g.conds[i].extra.setup.owner == c.extra.setup.owner
           && g.conds[i].extra.setup.tickInterval == c.extra.setup.tickInterval
           && g.conds[i].extra.setup.field == prev.extra.setup.field && g.conds[i].extra.delayed == prev.extra.delayed
         else g.conds[i] == prev
  {
    hide Sound, Classed, Moved, Has, TotalDamage;
    FoundAt(l, i, c);
    var prev := l.conds[i];
    CondClassed(l, i);
    ClassesMatch(prev, c);
    var d := Updated(prev, c, w, l.player);
    var e := Ended(l, i, c, w);
    MovedFlag(e, prev, -1);
    MovedFlag(Moved(e, prev, -1), d, 1);
  }

  /** Haste is put off exactly while a paralysis is in effect and a step is under way. */
  lemma PostponeLaw(l: Ledger, c: Cond, force: bool, w: World)
    ensures WithCondition(l, c, force, w).outcome == Postponed <==>
      && !force && c.conditionType == HASTE && w.walkDelay(|l.conds|) > 0 && PARALYZE !in w.suppressed
      && exists i :: 0 <= i < |l.conds| && l.conds[i].conditionType == PARALYZE && l.conds[i].subId == 0
                     && (l.conds[i].endTime >= w.now || l.conds[i].ticks == -1)
    ensures WithCondition(l, c, force, w).outcome == Postponed ==> WithCondition(l, c, force, w).ledger == l
  {
    hide Moved, Opposed, Started, Updated;
  }

  // ---------------------------------------------------------------- the creature

  class Creature {
    const player: bool
    var conditions: seq<Condition>
    var varSpeed: int
    var varSkills: seq<int>
    var varSpecialSkills: seq<int>
    var varStats: seq<int>
    var canUseDefense: bool

    constructor (player: bool)
      ensures Valid() && State() == Ledger(player, [], 0, Zeros(SKILLS), Zeros(SPECIALS), Zeros(STATS), true)
    {
      this.player, conditions, varSpeed := player, [], 0;
      varSkills, varSpecialSkills, varStats, canUseDefense := Zeros(SKILLS), Zeros(SPECIALS), Zeros(STATS), true;
    }

    ghost predicate Valid()
      reads this
    {
      && InRange(Totals())
      && forall i, j :: 0 <= i < j < |conditions| ==> conditions[i] != conditions[j]
    }

    function State(): Ledger
      reads this, conditions
    {
      Ledger(player, Values(conditions), varSpeed, varSkills, varSpecialSkills, varStats, canUseDefense)
    }

    method ChangeSpeed(delta: int)
      modifies this`varSpeed
      ensures State() == old(State()).(varSpeed := S32(old(varSpeed) + delta)) && Int32(varSpeed)
    {
      varSpeed := S32(varSpeed + delta);
    }

    /** Adds the given amounts, or takes them out with sign -1; zero amounts are passed over. */
    method ShiftSkills(skills: seq<int>, specials: seq<int>, sign: int)
      requires |skills| == |varSkills| && |specials| == |varSpecialSkills|
      modifies this`varSkills, this`varSpecialSkills
      ensures varSkills == Shifted(old(varSkills), skills, sign)
      ensures varSpecialSkills == Shifted(old(varSpecialSkills), specials, sign)
    {
      var i := 0;
      while i < |skills|
        invariant 0 <= i <= |skills| == |varSkills| && varSpecialSkills == old(varSpecialSkills)
        invariant forall k :: 0 <= k < i ==> varSkills[k] == Shift(old(varSkills)[k], sign * skills[k])
        invariant varSkills[i..] == old(varSkills)[i..]
      {
        assert varSkills[i] == old(varSkills)[i..][0];
        varSkills := varSkills[i := Shift(varSkills[i], sign * skills[i])];
        i := i + 1;
      }
      assert varSkills == Shifted(old(varSkills), skills, sign);
      i := 0;
      while i < |specials|
        invariant 0 <= i <= |specials| == |varSpecialSkills| && varSkills == Shifted(old(varSkills), skills, sign)
        invariant forall k :: 0 <= k < i ==> varSpecialSkills[k] == Shift(old(varSpecialSkills)[k], sign * specials[k])
        invariant varSpecialSkills[i..] == old(varSpecialSkills)[i..]
      {
        assert varSpecialSkills[i] == old(varSpecialSkills)[i..][0];
        varSpecialSkills := varSpecialSkills[i := Shift(varSpecialSkills[i], sign * specials[i])];
        i := i + 1;
      }
    }

    method ShiftStats(stats: seq<int>, sign: int)
      requires |stats| == |varStats|
      modifies this`varStats
      ensures varStats == Shifted(old(varStats), stats, sign)
    {
      var i := 0;
      while i < |stats|
        invariant 0 <= i <= |stats| == |varStats|
        invariant forall k :: 0 <= k < i ==> varStats[k] == Shift(old(varStats)[k], sign * stats[k])
        invariant varStats[i..] == old(varStats)[i..]
      {
        assert varStats[i] == old(varStats)[i..][0];
        varStats := varStats[i := Shift(varStats[i], sign * stats[i])];
        i := i + 1;
      }
    }

    /** Adds a condition's share to the totals, or takes it out. */
    method MoveShare(c: Condition, sign: int)
      requires Valid() && Classed(c.Value())
      modifies this`varSpeed, this`varSkills, this`varSpecialSkills, this`varStats
      ensures Valid() && State() == Moved(old(State()), c.Value(), sign)
      ensures Totals() == Moved(old(Totals()), c.Value(), sign)
    {
      hide Values;
      match c.extra
      case Speed(delta, _, _, _, _) => ChangeSpeed(sign * delta);
      case Attributes(skills, _, stats, _, specials, _, _, _, _) =>
        if player {
          ShiftSkills(skills, specials, sign);
          ShiftStats(stats, sign);
        }
      case _ =>
    }

    /** Gives the condition the fields it takes effect with. */
    method TakeEffect(c: Condition, w: World)
      requires Classed(c.Value())
      modifies c
      ensures c.Value() == Effective(old(c.Value()), w, player)
    {
      match c.extra
      case Speed(delta, _, _, _, _) =>
        if delta == 0 {
          c.extra := c.extra.(delta := S32(w.roll));
        }
      case Attributes(skills, percents, stats, statPercents, _, _, _, _, _) =>
        if player {
          var skills' := ComputePercents(skills, percents, w.percented);
          var stats' := ComputePercents(stats, statPercents, w.statPercented);
          c.extra := c.extra.(skills := skills', stats := stats');
        }
      case Light(_, level, _, _) =>
        c.extra := c.extra.(lightTicks := 0, lightInterval := U32(TruncDiv(c.ticks, level)));
      case _ =>
    }

    method ComputePercents(xs: seq<int>, percents: seq<int>, computed: nat -> int) returns (r: seq<int>)
      requires |xs| == |percents|
      ensures r == Percented(xs, percents, computed)
    {
      r := xs;
      var i := 0;
      while i < |xs|
        invariant 0 <= i <= |xs| == |r|
        invariant forall k :: 0 <= k < i ==> r[k] == Percented(xs, percents, computed)[k]
        invariant r[i..] == xs[i..]
      {
        assert r[i] == xs[i..][0];
        if percents[i] != 0 {
          r := r[i := S32(computed(i))];
        }
        i := i + 1;
      }
    }

    /** Gives a damage condition its damage list. */
    method Strike(c: Condition, h: Hit)
      requires c.extra.Damage?
      modifies c
      ensures c.Value() == Struck(old(c.Value()), h)
    {
      c.ticks, c.endTime := h.ticks, h.endTime;
      c.extra := c.extra.(list := h.list, setup := c.extra.setup.(startDamage := h.startDamage));
    }

    /** Sets the end of a condition and the fields it takes effect with. */
    method Begin(c: Condition, w: World) returns (ok: bool)
      requires Classed(c.Value())
      modifies c
      ensures ok == Started(old(c.Value()), w, player).Some?
      ensures ok ==> Started(old(c.Value()), w, player) == Some(c.Value())
    {
      hide Effective, Classed;
      TimedClassed(c.Value(), w);
      if c.ticks > 0 {
        c.endTime := c.ticks + w.now;
      }
      if c.extra.Damage? {
        if !w.hits {
          return false;
        }
        Strike(c, w.hit);
      } else {
        TakeEffect(c, w);
      }
      ok := true;
    }

    /** Starts a condition that is not in the list yet. */
    method StartCondition(c: Condition, w: World) returns (ok: bool)
      requires Valid() && c !in conditions && Classed(c.Value())
      modifies this`varSpeed, this`varSkills, this`varSpecialSkills, this`varStats, this`canUseDefense, c
      ensures Valid() && ok == Started(old(c.Value()), w, player).Some?
      ensures !ok ==> State() == old(State())
      ensures ok ==> Started(old(c.Value()), w, player) == Some(c.Value())
      ensures ok ==> State() == Moved(Begun(old(State()), c.Value()), c.Value(), 1)
    {
      hide Values, Started, Classed, Moved;
      ghost var v := c.Value();
      ok := Begin(c, w);
      if ok {
        StartedClassed(v, w, player);
        if c.extra.Attributes? {
          canUseDefense := !c.extra.disableDefense;
        }
        MoveShare(c, 1);
      }
    }

    /** Ends the condition at position i of the list and takes it out. */
    method EraseAt(i: nat)
      requires Valid() && i < |conditions| && AllClassed(State().conds)
      modifies this
      ensures Valid() && State() == Drop(old(State()), i)
      ensures conditions == old(conditions[..i] + conditions[i + 1..])
    {
      hide Values, Classed, Moved;
      var c := conditions[i];
      ValuesErase(conditions, i);
      assert Classed(State().conds[i]);
      conditions := conditions[..i] + conditions[i + 1..];
      if c.extra.Attributes? && c.extra.disableDefense {
        canUseDefense := true;
      }
      MoveShare(c, -1);
    }

    method Matching(c: Condition, conditionType: nat, id: Option<int>) returns (b: bool)
      ensures b == Matches(c.Value(), conditionType, id)
    {
      b := c.conditionType == conditionType && (id.Some? ==> c.id == id.value);
    }

    method RemoveCondition(conditionType: nat, id: Option<int>, force: bool, w: World)
      requires Valid() && Sound(State())
      modifies this
      ensures Valid() && State() == RemovedFrom(old(State()), 0, conditionType, id, force, w)
      ensures forall c :: c in conditions ==> c in old(conditions)
    {
      hide Values, Drop, Sound, Matches;
      ghost var goal := RemovedFrom(State(), 0, conditionType, id, force, w);
      var i := 0;
      while i < |conditions|
        invariant 0 <= i <= |conditions| && Valid() && Sound(State())
        invariant forall c :: c in conditions ==> c in old(conditions)
        invariant goal == RemovedFrom(State(), i, conditionType, id, force, w)
        decreases |conditions| - i
      {
        ghost var l := State();
        var match' := Matching(conditions[i], conditionType, id);
        if !match' {
          i := i + 1;
        } else {
          if !force && conditionType == PARALYZE && w.walkDelay(|conditions|) > 0 {
            return;
          }
          SoundClassed(l);
          DropKeeps(l, i, SpeedPart);
          EraseAt(i);
        }
      }
    }

    method HasCondition(conditionType: nat, w: World) returns (b: bool)
      ensures b == Has(State(), conditionType, w)
    {
      hide Values;
      if conditionType in w.suppressed {
        return false;
      }
      b := false;
      var i := 0;
      while i < |conditions|
        invariant 0 <= i <= |conditions|
        invariant forall k :: 0 <= k < i ==> var c := State().conds[k];
          !(c.conditionType == conditionType && c.subId == 0 && (c.endTime >= w.now || c.ticks == -1))
      {
        var c := conditions[i];
        assert State().conds[i] == c.Value();
        if c.conditionType == conditionType && c.subId == 0 && (c.endTime >= w.now || c.ticks == -1) {
          return true;
        }
        i := i + 1;
      }
    }

    method GetCondition(c: Condition) returns (i: nat)
      ensures i == Find(State().conds, c.Value())
    {
      hide Values;
      i := 0;
      ghost var cs := State().conds;
      while i < |conditions|
        invariant 0 <= i <= |conditions| == |cs|
        invariant forall k :: 0 <= k < i ==> !SameKey(cs[k], c.Value())
      {
        var d := conditions[i];
        assert cs[i] == d.Value();
        if d.conditionType == c.conditionType && d.id == c.id && d.subId == c.subId {
          break;
        }
        i := i + 1;
      }
      FindIs(cs, c.Value(), i);
    }

    /** The totals alone. */
    function Totals(): Ledger
      reads this
    {
      Ledger(player, [], varSpeed, varSkills, varSpecialSkills, varStats, canUseDefense)
    }

    method OverwriteSpeed(prev: Condition, c: Condition, w: World)
      requires c != prev && c.extra.Speed?
      modifies prev
      ensures prev.Value() == WithTicks(old(prev.Value()), c.ticks, w.now).(
        extra := if c.extra.delta == 0 then c.extra.(delta := S32(w.roll)) else c.extra)
    {
      prev.SetTicks(c.ticks, w.now);
      prev.extra := c.extra;
      if prev.extra.delta == 0 {
        prev.extra := prev.extra.(delta := S32(w.roll));
      }
    }

    method UpdateSpeed(prev: Condition, c: Condition, w: World)
      requires InRange(Totals()) && c != prev && prev.extra.Speed? && c.extra.Speed?
      modifies this`varSpeed, prev
      ensures InRange(Totals()) && prev.Value() == Updated(old(prev.Value()), c.Value(), w, player)
      ensures Totals() == Exchanged(old(Totals()), old(prev.Value()), prev.Value())
    {
      hide Updated, Exchanged, Values, S32;
      SpeedUpdated(prev.Value(), c.Value(), w, player);
      SpeedExchanged(Totals(), prev.Value(), Updated(prev.Value(), c.Value(), w, player));
      if prev.ticks == -1 && c.ticks > 0 {
        return;
      }
      var oldDelta := prev.extra.delta;
      OverwriteSpeed(prev, c, w);
      var change := prev.extra.delta - oldDelta;
      if change != 0 {
        ChangeSpeed(change);
      }
    }

    method UpdateAttributes(prev: Condition, c: Condition, w: World)
      requires Valid() && c != prev && prev.extra.Attributes? && c.extra.Attributes?
      requires Classed(prev.Value()) && Classed(c.Value()) && SameKey(prev.Value(), c.Value())
      requires Replaces(prev.Value(), c.Value(), w)
      modifies this`varSpeed, this`varSkills, this`varSpecialSkills, this`varStats, this`canUseDefense, prev
      ensures Valid() && prev.Value() == Updated(old(prev.Value()), c.Value(), w, player)
      ensures Totals() ==
        Exchanged(old(Totals()).(useDefense := old(canUseDefense) || Disables(old(prev.Value()))), old(prev.Value()), prev.Value())
    {
      hide Classed, Moved, Replaces, Effective;
      UpdatedClassed(prev.Value(), c.Value(), w, player);
      prev.SetTicks(c.ticks, w.now);
      SameShares(old(prev.Value()), prev.Value());
      if prev.extra.disableDefense {
        canUseDefense := true;
      }
      MoveShare(prev, -1);
      prev.extra := Copied(prev.extra, c.extra);
      CopiedClassed(old(prev.Value()), c.Value(), w);
      TakeEffect(prev, w);
      MoveShare(prev, 1);
    }

    /** Conditions that drive no total. */
    method UpdateOther(prev: Condition, c: Condition, w: World)
      requires Valid() && c != prev && Classed(prev.Value()) && Classed(c.Value()) && SameKey(prev.Value(), c.Value())
      requires !prev.extra.Speed? && !prev.extra.Attributes? && Replaces(prev.Value(), c.Value(), w)
      modifies prev
      ensures prev.Value() == Updated(old(prev.Value()), c.Value(), w, player)
      ensures forall p :: Share(prev.Value(), p) == Share(old(prev.Value()), p) == 0
      ensures !prev.extra.Speed? && !prev.extra.Attributes?
    {
      hide NewExtra;
      if prev.extra.Damage? {
        prev.extra := Copied(prev.extra, c.extra);
        Strike(prev, w.hit);
      } else {
        prev.SetTicks(c.ticks, w.now);
        prev.extra := Copied(prev.extra, c.extra);
        TakeEffect(prev, w);
      }
    }

    /** Lets a newer condition of the same key take over the running one. */
    method UpdateCondition(i: nat, c: Condition, w: World)
      requires Valid() && i < |conditions| && c !in conditions && Sound(State()) && Classed(c.Value())
      requires SameKey(conditions[i].Value(), c.Value())
      modifies this`varSpeed, this`varSkills, this`varSpecialSkills, this`varStats, this`canUseDefense, conditions[i]
      ensures Valid()
      ensures State() == Changed(Ended(old(State()), i, c.Value(), w), i, Updated(old(State()).conds[i], c.Value(), w, player))
    {
      hide Values, Effective, Classed, Moved, Sound, Replaces, Share, Updated;
      var prev := conditions[i];
      ghost var v, l := prev.Value(), State();
      CondClassed(l, i);
      SameKeySameClass(v, c.Value());
      NotReplaced(v, c.Value(), w, player);
      MovedBack(Totals(), v);
      if prev.extra.Speed? {
        UpdateSpeed(prev, c, w);
      } else if Replaces(prev.Value(), c.Value(), w) {
        if prev.extra.Attributes? {
          UpdateAttributes(prev, c, w);
        } else {
          UpdateOther(prev, c, w);
          NothingMoved(Totals(), v);
          NothingMoved(Totals(), prev.Value());
        }
      }
      ChangedOne(Ended(l, i, c.Value(), w), State(), i, v, prev.Value());
    }

    method AddCondition(c: Condition, force: bool, w: World) returns (outcome: Outcome)
      requires Valid() && Sound(State()) && c !in conditions && Classed(c.Value())
      modifies this, conditions, c
      ensures Valid() && AddResult(State(), outcome) == WithCondition(old(State()), old(c.Value()), force, w)
    {
      hide Values, Classed, Moved, Sound, Started, Updated, Has, Changed, Appended;
      ghost var l, v := State(), c.Value();
      var paralyzed := HasCondition(PARALYZE, w);
      if !force && c.conditionType == HASTE && paralyzed && w.walkDelay(|conditions|) > 0 {
        return Postponed;
      }
      var i := GetCondition(c);
      if i < |conditions| {
        UpdateCondition(i, c, w);
        return Added;
      }
      outcome := AddNew(c, w);
    }

    /** A condition of which there is none yet. */
    method AddNew(c: Condition, w: World) returns (outcome: Outcome)
      requires Valid() && Sound(State()) && c !in conditions && Classed(c.Value())
      requires Find(State().conds, c.Value()) == |conditions|
      modifies this, c
      ensures Valid() && AddResult(State(), outcome) == Appended(old(State()), old(c.Value()), w)
    {
      hide Values, Classed, Moved, Sound, Started, Has, RemovedFrom, Opposed;
      ghost var l, v := State(), c.Value();
      var ok := StartCondition(c, w);
      if !ok {
        return Refused;
      }
      StartedClassed(v, w, player);
      ValuesMore(conditions, c);
      MovedConds(Begun(l, c.Value()), l.conds + [c.Value()], c.Value(), 1);
      AppendKeeps(l, c.Value(), SpeedPart);
      conditions := conditions + [c];
      Oppose(c.conditionType, w);
      outcome := Added;
    }

    /** Haste and paralysis cancel each other. */
    method Oppose(conditionType: nat, w: World)
      requires Valid() && Sound(State())
      modifies this
      ensures Valid() && State() == Opposed(old(State()), conditionType, w)
    {
      hide Values, Sound, Has, RemovedFrom;
      var hasted := HasCondition(HASTE, w);
      var paralyzed := HasCondition(PARALYZE, w);
      if conditionType == PARALYZE && hasted {
        RemoveCondition(HASTE, None, false, w);
      } else if conditionType == HASTE && paralyzed {
        RemoveCondition(PARALYZE, None, false, w);
      }
    }

    /** The first damage interval runs down; what is left of the interval for the condition itself. */
    method RunDamage(c: Condition, interval: nat, removes: bool) returns (n: nat)
      requires c.extra.Damage? && c.extra.period == 0 && c.extra.list != []
      modifies c
      ensures c.Value() == DamageRun(old(c.Value()), interval, removes) && n == if removes then interval else 0
    {
      var list := c.extra.list;
      var first := list[0].(timeLeft := list[0].timeLeft - interval);
      if first.timeLeft > 0 {
        c.extra := c.extra.(list := list[0 := first]);
      } else if removes {
        c.extra := c.extra.(list := list[1..]);
      } else {
        c.extra := c.extra.(list := list[0 := first.(timeLeft := first.interval)]);
      }
      n := interval;
      if !removes {
        if c.ticks > 0 {
          c.endTime := c.endTime + interval;
        }
        n := 0;
      }
    }

    /** What has passed of the two intervals; in a protection zone nothing is gained. */
    method Regenerate(c: Condition, interval: nat, resting: bool)
      requires c.extra.Regeneration?
      modifies c`extra
      ensures var e := old(c.extra);
        c.extra == e.(healthPassed := Passed(e.healthPassed, interval, e.healthTicks, !resting),
                      manaPassed := Passed(e.manaPassed, interval, e.manaTicks, !resting))
    {
      c.extra := c.extra.(healthPassed := U32(c.extra.healthPassed + interval), manaPassed := U32(c.extra.manaPassed + interval));
      if resting {
        return;
      }
      if c.extra.healthPassed >= c.extra.healthTicks {
        c.extra := c.extra.(healthPassed := 0);
      }
      if c.extra.manaPassed >= c.extra.manaTicks {
        c.extra := c.extra.(manaPassed := 0);
      }
    }

    /** One round of one condition. */
    method ExecuteOne(c: Condition, interval: nat, w: World) returns (alive: bool)
      modifies c
      ensures Tick(c.Value(), alive) == Ticked(old(c.Value()), interval, w)
    {
      hide DamageRun, Beaten, Passed, BaseTick;
      var n := interval;
      match c.extra {
        case Damage(_, period, list, setup) =>
          if period != 0 {
            c.extra := c.extra.(setup := Beaten(setup, interval));
          } else if list != [] {
            n := RunDamage(c, interval, w.fieldRemoves(c.Value()));
          }
        case Light(_, _, lightTicks, lightInterval) =>
          var t := U32(lightTicks + interval);
          c.extra := c.extra.(lightTicks := if t >= lightInterval then 0 else t);
        case Regeneration(healthTicks, _, manaTicks, _, healthPassed, manaPassed) =>
          Regenerate(c, interval, w.resting);
        case Soul(_, soulTicks, soulPassed) =>
          c.extra := c.extra.(soulPassed := Passed(soulPassed, interval, soulTicks, w.soulful));
        case _ =>
      }
      alive := RunDown(c, n, w.now);
    }

    method RunDown(c: Condition, interval: int, now: int) returns (alive: bool)
      modifies c
      ensures Tick(c.Value(), alive) == BaseTick(old(c.Value()), interval, now)
    {
      if c.ticks == -1 {
        return true;
      }
      c.ticks := if c.ticks - interval > 0 then c.ticks - interval else 0;
      alive := c.endTime >= now;
    }

    method ExecuteConditions(interval: nat, w: World)
      requires Valid() && Sound(State())
      modifies this, conditions
      ensures Valid() && State() == ExecutedFrom(old(State()), 0, interval, w)
    {
      hide Values, Drop, Sound, Ticked, Share, Classed, ExecutedFrom;
      ghost var goal := ExecutedFrom(State(), 0, interval, w);
      var i := 0;
      while i < |conditions|
        invariant 0 <= i <= |conditions| && Valid() && Sound(State())
        invariant forall c :: c in conditions ==> c in old(conditions)
        invariant goal == ExecutedFrom(State(), i, interval, w)
        decreases |conditions| - i
      {
        ghost var l := State();
        RoundStep(l, i, interval, w);
        assert conditions[i] in conditions;
        var alive := ExecuteOne(conditions[i], interval, w);
        OneTicked(l, State(), i, conditions[i].Value());
        if alive {
          i := i + 1;
        } else {
          EraseAt(i);
        }
      }
      RoundOver(State(), interval, w);
    }
  }

  lemma RoundOver(l: Ledger, interval: nat, w: World)
    ensures ExecutedFrom(l, |l.conds|, interval, w) == l
  {
  }

  lemma RoundStep(l: Ledger, i: nat, interval: nat, w: World)
    requires Sound(l) && i < |l.conds| && Kept(l, SpeedPart)
    ensures var t := Ticked(l.conds[i], interval, w); var l1 := l.(conds := l.conds[i := t.cond]);
      && AllClassed(l1.conds)
      && (t.alive ==> Sound(l1) && ExecutedFrom(l, i, interval, w) == ExecutedFrom(l1, i + 1, interval, w))
      && (!t.alive ==>
            var l2 := Drop(l1, i);
            Sound(l2) && |l2.conds| == |l.conds| - 1
            && ExecutedFrom(l, i, interval, w) == ExecutedFrom(l2, i, interval, w))
  {
    hide Drop, Sound, Ticked, Share, Classed;
    var t := Ticked(l.conds[i], interval, w);
    var l1 := l.(conds := l.conds[i := t.cond]);
    CondClassed(l, i);
    TickedClassed(l.conds[i], interval, w, SpeedPart);
    TickKeeps(l, i, t.cond, SpeedPart);
    SoundClassed(l1);
    DropKeepsRest(l1, i);
    DropKeeps(l1, i, SpeedPart);
  }

  function Exchanged(l: Ledger, a: Cond, b: Cond): Ledger {
    Moved(Moved(l, a, -1), b, 1)
  }

  lemma SoundClassed(l: Ledger)
    requires Sound(l)
    ensures AllClassed(l.conds)
  {
  }

  lemma ValuesErase(cs: seq<Condition>, i: nat)
    requires i < |cs|
    ensures Values(cs[..i] + cs[i + 1..]) == Values(cs)[..i] + Values(cs)[i + 1..]
  {
    hide Values;
  }

  lemma ValuesMore(cs: seq<Condition>, c: Condition)
    ensures Values(cs + [c]) == Values(cs) + [c.Value()]
  {
    hide Values;
  }

  lemma {:induction false} FindIs(cs: seq<Cond>, c: Cond, i: nat)
    requires i <= |cs| && (i < |cs| ==> SameKey(cs[i], c)) && forall k :: 0 <= k < i ==> !SameKey(cs[k], c)
    ensures Find(cs, c) == i
    decreases |cs|
  {
    if i > 0 {
      assert !SameKey(cs[0], c);
      FindIs(cs[1..], c, i - 1);
    }
  }

  lemma MovedConds(l: Ledger, cs: seq<Cond>, c: Cond, sign: int)
    ensures Moved(l.(conds := cs), c, sign) == Moved(l, c, sign).(conds := cs)
  {
  }

  lemma SameShares(a: Cond, b: Cond)
    requires a.extra == b.extra
    ensures forall l, sign :: Moved(l, a, sign) == Moved(l, b, sign)
    ensures a.conditionType == b.conditionType ==> Classed(a) == Classed(b)
  {
  }

  lemma CopiedClassed(prev: Cond, c: Cond, w: World)
    requires Classed(prev) && Classed(c) && SameKey(prev, c)
    ensures Classed(WithTicks(prev, c.ticks, w.now).(extra := Copied(prev.extra, c.extra)))
  {
    hide NewExtra;
  }

  lemma SameKeySameClass(a: Cond, b: Cond)
    requires Classed(a) && Classed(b) && SameKey(a, b)
    ensures a.extra.Speed? == b.extra.Speed? && a.extra.Attributes? == b.extra.Attributes?
  {
    hide NewExtra;
  }

  lemma SpeedUpdated(prev: Cond, c: Cond, w: World, player: bool)
    requires prev.extra.Speed? && c.extra.Speed?
    ensures Updated(prev, c, w, player) ==
      if prev.ticks == -1 && c.ticks > 0 then prev
      else WithTicks(prev, c.ticks, w.now).(extra := if c.extra.delta == 0 then c.extra.(delta := S32(w.roll)) else c.extra)
  {
  }

  /** Replacing one speed by another is one change by their difference. */
  lemma SpeedExchanged(l: Ledger, a: Cond, b: Cond)
    requires a.extra.Speed? && b.extra.Speed? && Int32(l.varSpeed)
    ensures Exchanged(l, a, b) == l.(varSpeed :=
      if b.extra.delta == a.extra.delta then l.varSpeed else S32(l.varSpeed + (b.extra.delta - a.extra.delta)))
  {
    Wraps(l.varSpeed - a.extra.delta, b.extra.delta);
  }

  lemma MovedBack(l: Ledger, c: Cond)
    requires InRange(l) && Classed(c)
    ensures Exchanged(l, c, c) == l
  {
    hide Shifted;
    if c.extra.Attributes? && l.player {
      ShiftBack(l.varSkills, c.extra.skills);
      ShiftBack(l.varSpecials, c.extra.specials);
      ShiftBack(l.varStats, c.extra.stats);
    }
  }

  lemma ShiftBack(xs: seq<int>, ds: seq<int>)
    requires forall i :: 0 <= i < |xs| ==> Int32(xs[i])
    ensures Shifted(Shifted(xs, ds, -1), ds, 1) == xs
  {
  }

  lemma NotReplaced(prev: Cond, c: Cond, w: World, player: bool)
    ensures !Replaces(prev, c, w) ==> Updated(prev, c, w, player) == prev
  {
  }

  lemma NothingMoved(l: Ledger, c: Cond)
    requires !c.extra.Speed? && !c.extra.Attributes?
    ensures Moved(l, c, 1) == l && Moved(l, c, -1) == l
  {
  }

  /** One condition and the totals have changed together. */
  lemma ChangedOne(l: Ledger, g: Ledger, i: nat, v: Cond, v': Cond)
    requires i < |l.conds| && l.conds[i] == v && g.player == l.player && g.conds == l.conds[i := v']
    requires g.(conds := []) == Exchanged(l.(conds := []), v, v')
    ensures g == Changed(l, i, v')
  {
    hide Moved;
    MovedConds(l, [], v, -1);
    MovedConds(Moved(l, v, -1), [], v', 1);
    MovedConds(Moved(Moved(l, v, -1), v', 1), l.conds[i := v'], v', 1);
  }

  lemma OneTicked(l: Ledger, g: Ledger, i: nat, v: Cond)
    requires i < |l.conds| && |g.conds| == |l.conds| && g == l.(conds := g.conds) && g.conds[i] == v
    requires forall k :: 0 <= k < |l.conds| && k != i ==> g.conds[k] == l.conds[k]
    ensures g == l.(conds := l.conds[i := v])
  {
    assert g.conds == l.conds[i := v];
  }

  lemma TimedClassed(c: Cond, w: World)
    requires Classed(c)
    ensures Classed(c.(endTime := c.ticks + w.now))
  {
  }
}
