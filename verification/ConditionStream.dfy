/** Saving conditions as tagged fields and loading them back. */
module ConditionStream {
  import opened Streams
  import opened Conditions
  import opened Options

  const ATTR_TYPE: byte := 1
  const ATTR_ID: byte := 2
  const ATTR_TICKS: byte := 3
  const ATTR_HEALTHTICKS: byte := 4
  const ATTR_HEALTHGAIN: byte := 5
  const ATTR_MANATICKS: byte := 6
  const ATTR_MANAGAIN: byte := 7
  const ATTR_DELAYED: byte := 8
  const ATTR_OWNER: byte := 9
  const ATTR_INTERVALDATA: byte := 10
  const ATTR_SPEEDDELTA: byte := 11
  const ATTR_MINA: byte := 12
  const ATTR_MINB: byte := 13
  const ATTR_MAXA: byte := 14
  const ATTR_MAXB: byte := 15
  const ATTR_LIGHTCOLOR: byte := 16
  const ATTR_LIGHTLEVEL: byte := 17
  const ATTR_LIGHTTICKS: byte := 18
  const ATTR_LIGHTINTERVAL: byte := 19
  const ATTR_SOULTICKS: byte := 20
  const ATTR_SOULGAIN: byte := 21
  const ATTR_SKILLS: byte := 22
  const ATTR_STATS: byte := 23
  const ATTR_OUTFIT: byte := 24
  const ATTR_PERIODDAMAGE: byte := 25
  const ATTR_ISBUFF: byte := 26
  const ATTR_SUBID: byte := 27
  const ATTR_ISAGGRESSIVE: byte := 28
  const ATTR_DISABLEDEFENSE: byte := 29
  const ATTR_SPECIALSKILLS: byte := 30
  const ATTR_END: byte := 254

  /** A tag and the bytes of its value. */
  datatype Field = Field(tag: byte, body: seq<byte>)

  function Word(tag: byte, x: int): Field {
    Field(tag, LE(U32(x), 4))
  }

  function Flag(tag: byte, b: bool): Field {
    Field(tag, [if b then 1 else 0])
  }

  // ---------------------------------------------------------------- what is written

  /** Every condition begins with these six fields. */
  function Head(c: Cond): seq<Field> {
    [Word(ATTR_TYPE, c.conditionType), Word(ATTR_ID, c.id), Word(ATTR_TICKS, c.ticks),
     Flag(ATTR_ISBUFF, c.isBuff), Word(ATTR_SUBID, c.subId), Flag(ATTR_ISAGGRESSIVE, c.aggressive)]
  }

  function IntervalField(i: Interval): Field {
    Field(ATTR_INTERVALDATA, LE(U32(i.timeLeft), 4) + LE(U32(i.value), 4) + LE(U32(i.interval), 4))
  }

  function IntervalFields(list: seq<Interval>): seq<Field> {
    if list == [] then [] else [IntervalField(list[0])] + IntervalFields(list[1..])
  }

  function Words(tag: byte, xs: seq<int>): seq<Field> {
    if xs == [] then [] else [Word(tag, xs[0])] + Words(tag, xs[1..])
  }

  function Tail(e: Extra): seq<Field> {
    match e
    case Plain => []
    case Damage(delayed, period, list, _) =>
      [Flag(ATTR_DELAYED, delayed), Word(ATTR_PERIODDAMAGE, period)] + IntervalFields(list)
    case Speed(delta, mina, minb, maxa, maxb) =>
      [Word(ATTR_SPEEDDELTA, delta), Field(ATTR_MINA, mina), Field(ATTR_MINB, minb),
       Field(ATTR_MAXA, maxa), Field(ATTR_MAXB, maxb)]
    case Outfit(look) => [Field(ATTR_OUTFIT, look)]
    case Light(color, level, lightTicks, lightInterval) =>
      [Word(ATTR_LIGHTCOLOR, color), Word(ATTR_LIGHTLEVEL, level),
       Word(ATTR_LIGHTTICKS, lightTicks), Word(ATTR_LIGHTINTERVAL, lightInterval)]
    case Regeneration(healthTicks, healthGain, manaTicks, manaGain, _, _) =>
      [Word(ATTR_HEALTHTICKS, healthTicks), Word(ATTR_HEALTHGAIN, healthGain),
       Word(ATTR_MANATICKS, manaTicks), Word(ATTR_MANAGAIN, manaGain)]
    case Drunk(_) => []
    case Soul(soulGain, soulTicks, _) => [Word(ATTR_SOULGAIN, soulGain), Word(ATTR_SOULTICKS, soulTicks)]
    case Attributes(skills, _, stats, _, specials, disableDefense, _, _, _) =>
      Words(ATTR_SKILLS, skills) + (Words(ATTR_STATS, stats)
        + ([Flag(ATTR_DISABLEDEFENSE, disableDefense)] + Words(ATTR_SPECIALSKILLS, specials)))
  }

  function FieldBytes(f: Field): seq<byte> {
    [f.tag] + f.body
  }

  function FieldsBytes(fs: seq<Field>): seq<byte> {
    if fs == [] then [] else FieldBytes(fs[0]) + FieldsBytes(fs[1..])
  }

  function Encode(c: Cond): seq<byte> {
    FieldsBytes(Head(c) + Tail(c.extra))
  }

  function EncodeIfPersistent(c: Cond): seq<byte> {
    if IsPersistent(c) then Encode(c) + [ATTR_END] else []
  }

  /** The persistent conditions, each closed by an end mark. */
  function EncodeAll(list: seq<Cond>): seq<byte> {
    if list == [] then []
    else EncodeIfPersistent(list[0]) + EncodeAll(list[1..])
  }

  // ---------------------------------------------------------------- what is read

  /** How many bytes follow a tag in a condition of this class, if it knows the tag. */
  function Width(e: Extra, tag: byte): Option<nat> {
    if tag in {ATTR_TYPE, ATTR_ID, ATTR_TICKS, ATTR_SUBID} then Some(4)
    else if tag in {ATTR_ISBUFF, ATTR_ISAGGRESSIVE} then Some(1)
    else match e
      case Plain => None
      case Damage(_, _, _, _) =>
        if tag == ATTR_DELAYED then Some(1) else if tag in {ATTR_PERIODDAMAGE, ATTR_OWNER} then Some(4)
        else if tag == ATTR_INTERVALDATA then Some(12) else None
      case Speed(_, _, _, _, _) => if ATTR_SPEEDDELTA <= tag <= ATTR_MAXB then Some(4) else None
      case Outfit(_) => if tag == ATTR_OUTFIT then Some(18) else None
      case Light(_, _, _, _) => if ATTR_LIGHTCOLOR <= tag <= ATTR_LIGHTINTERVAL then Some(4) else None
      case Regeneration(_, _, _, _, _, _) => if ATTR_HEALTHTICKS <= tag <= ATTR_MANAGAIN then Some(4) else None
      case Drunk(_) => None
      case Soul(_, _, _) => if ATTR_SOULTICKS <= tag <= ATTR_SOULGAIN then Some(4) else None
      case Attributes(skills, _, stats, _, specials, _, i, j, k) =>
        if tag == ATTR_SKILLS && i < |skills| then Some(4)
        else if tag == ATTR_STATS && j < |stats| then Some(4)
        else if tag == ATTR_SPECIALSKILLS && k < |specials| then Some(4)
        else if tag == ATTR_DISABLEDEFENSE then Some(1) else None
  }

  function IntervalIn(body: seq<byte>): Interval
    requires |body| == 12
  {
    Interval(S32(FromLE(body[..4])), S32(FromLE(body[4..8])), S32(FromLE(body[8..])))
  }

  /** What reading one field does to a condition. */
  function Apply(c: Cond, f: Field, now: int): Cond
    requires Width(c.extra, f.tag) == Some(|f.body|)
  {
    var n := FromLE(f.body);
    if f.tag == ATTR_TYPE then c.(conditionType := n)
    else if f.tag == ATTR_ID then c.(id := S8(n))
    else if f.tag == ATTR_TICKS then c.(ticks := S32(n))
    else if f.tag == ATTR_SUBID then c.(subId := n)
    else if f.tag == ATTR_ISBUFF then c.(isBuff := n != 0)
    else if f.tag == ATTR_ISAGGRESSIVE then c.(aggressive := n != 0)
    else ApplyOwn(c, f, now)
  }

  function ApplyOwn(c: Cond, f: Field, now: int): Cond
    requires Width(c.extra, f.tag) == Some(|f.body|)
    requires f.tag !in {ATTR_TYPE, ATTR_ID, ATTR_TICKS, ATTR_SUBID, ATTR_ISBUFF, ATTR_ISAGGRESSIVE}
  {
    var n, e := FromLE(f.body), c.extra;
    match e
    case Damage(_, _, list, _) =>
      if f.tag == ATTR_DELAYED then c.(extra := e.(delayed := n != 0))
      else if f.tag == ATTR_PERIODDAMAGE then c.(extra := e.(period := S32(n)))
      else if f.tag == ATTR_OWNER then c
      else AddInterval(c, IntervalIn(f.body), now)
    case Speed(_, _, _, _, _) =>
      c.(extra := if f.tag == ATTR_SPEEDDELTA then e.(delta := S32(n))
                  else if f.tag == ATTR_MINA then e.(mina := f.body)
                  else if f.tag == ATTR_MINB then e.(minb := f.body)
                  else if f.tag == ATTR_MAXA then e.(maxa := f.body) else e.(maxb := f.body))
    case Outfit(_) => c.(extra := Outfit(f.body))
    case Light(_, _, _, _) =>
      c.(extra := if f.tag == ATTR_LIGHTCOLOR then e.(color := n % 256)
                  else if f.tag == ATTR_LIGHTLEVEL then e.(level := n % 256)
                  else if f.tag == ATTR_LIGHTTICKS then e.(lightTicks := n) else e.(lightInterval := n))
    case Regeneration(_, _, _, _, _, _) =>
      c.(extra := if f.tag == ATTR_HEALTHTICKS then e.(healthTicks := n)
                  else if f.tag == ATTR_HEALTHGAIN then e.(healthGain := n)
                  else if f.tag == ATTR_MANATICKS then e.(manaTicks := n) else e.(manaGain := n))
    case Drunk(_) => c
    case Soul(_, _, _) => c.(extra := if f.tag == ATTR_SOULGAIN then e.(soulGain := n) else e.(soulTicks := n))
    case Attributes(skills, _, stats, _, specials, _, i, j, k) =>
      c.(extra := if f.tag == ATTR_SKILLS then e.(skills := skills[i := S32(n)], currentSkill := i + 1)
                  else if f.tag == ATTR_STATS then e.(stats := stats[j := S32(n)], currentStat := j + 1)
                  else if f.tag == ATTR_SPECIALSKILLS then e.(specials := specials[k := S32(n)], currentSpecial := k + 1)
                  else e.(disableDefense := n != 0))
    case Plain => c
  }

  /** A damage condition runs as long as its intervals together. */
  function AddInterval(c: Cond, i: Interval, now: int): Cond
    requires c.extra.Damage?
  {
    var d := c.(extra := c.extra.(list := c.extra.list + [i]));
    if d.ticks != -1 then WithTicks(d, S32(d.ticks + i.interval), now) else d
  }

  datatype Read = Read(ok: bool, cond: Cond, rest: seq<byte>)

  /** Fields up to the end mark or the end of the data; an unknown tag or a short value stops the reading. */
  function Unserialized(c: Cond, b: seq<byte>, now: int): (r: Read)
    ensures |r.rest| <= |b|
    decreases |b|
  {
    if b == [] then Read(true, c, [])
    else if b[0] == ATTR_END then Read(true, c, b[1..])
    else
      var w := Width(c.extra, b[0]);
      if w.None? || |b| - 1 < w.value then Read(false, c, b[1..])
      else Unserialized(Apply(c, Field(b[0], b[1..1 + w.value]), now), b[1 + w.value..], now)
  }

  /** The six leading fields, in their fixed order: 24 bytes. */
  predicate HasHead(b: seq<byte>) {
    && |b| >= 24 && b[0] == ATTR_TYPE && b[5] == ATTR_ID && b[10] == ATTR_TICKS && b[15] == ATTR_ISBUFF
    && b[17] == ATTR_SUBID && b[22] == ATTR_ISAGGRESSIVE
  }

  function Created(b: seq<byte>): Option<Cond> {
    if !HasHead(b) then None
    else NewCond(FromLE(b[1..5]), S8(FromLE(b[6..10])), FromLE(b[18..22]), S32(FromLE(b[11..15])), b[16] != 0, b[23] != 0)
  }

  /** The conditions read, and the bytes no condition could be created from. */
  datatype Loaded = Loaded(list: seq<Cond>, rest: seq<byte>)

  /** The load loop: every condition read goes in front of those read before it. */
  function LoadedAll(b: seq<byte>, list: seq<Cond>, now: int): Loaded
    decreases |b|
  {
    match Created(b)
    case None => Loaded(list, b)
    case Some(c) =>
      var r := Unserialized(c, b[24..], now);
      LoadedAll(r.rest, if r.ok then [r.cond] + list else list, now)
  }

  // ---------------------------------------------------------------- the round trip

  predicate Nat32(x: int) {
    0 <= x < WORD
  }

  predicate AllInt32(xs: seq<int>) {
    forall i :: 0 <= i < |xs| ==> Int32(xs[i])
  }

  predicate IntervalFits(i: Interval) {
    Int32(i.timeLeft) && Int32(i.value) && Int32(i.interval)
  }

  /** Every field lies in the range of its C++ type. */
  predicate ExtraFits(e: Extra) {
    match e
    case Plain => true
    case Damage(_, period, list, _) => Int32(period) && forall i :: 0 <= i < |list| ==> IntervalFits(list[i])
    case Speed(delta, mina, minb, maxa, maxb) => Int32(delta) && |mina| == 4 && |minb| == 4 && |maxa| == 4 && |maxb| == 4
    case Outfit(look) => |look| == 18
    case Light(color, level, lightTicks, lightInterval) =>
      color < 256 && level < 256 && Nat32(lightTicks) && Nat32(lightInterval)
    case Regeneration(a, b, c, d, _, _) => Nat32(a) && Nat32(b) && Nat32(c) && Nat32(d)
    case Drunk(drunkenness) => drunkenness < 256
    case Soul(a, b, _) => Nat32(a) && Nat32(b)
    case Attributes(skills, _, stats, _, specials, _, _, _, _) =>
      && |skills| == SKILLS && |stats| == STATS && |specials| == SPECIALS
      && AllInt32(skills) && AllInt32(stats) && AllInt32(specials)
  }

  /** A condition of the class its type is created with. */
  predicate SameClass(e: Extra, f: Extra) {
    && e.Plain? == f.Plain? && e.Damage? == f.Damage? && e.Speed? == f.Speed? && e.Outfit? == f.Outfit?
    && e.Light? == f.Light? && e.Regeneration? == f.Regeneration? && e.Soul? == f.Soul? && e.Drunk? == f.Drunk? && e.Attributes? == f.Attributes?
  }

  predicate Storable(c: Cond) {
    && Nat32(c.conditionType) && -128 <= c.id < 128 && Nat32(c.subId) && Int32(c.ticks) && ExtraFits(c.extra)
    && NewExtra(c.conditionType).Some? && SameClass(NewExtra(c.conditionType).value, c.extra)
  }

  /** The ticks a damage condition gets from its intervals, one after the other. */
  function Elapse(ticks: int, list: seq<Interval>): int
    decreases |list|
  {
    if list == [] then ticks
    else Elapse(if ticks == -1 then -1 else S32(ticks + list[0].interval), list[1..])
  }

  function SumOf(list: seq<Interval>): int {
    if list == [] then 0 else list[0].interval + SumOf(list[1..])
  }

  /** The fields that are not saved have their initial values again; the skills keep the values
      computed from their percentages. */
  function Reread(e: Extra): Extra {
    match e
    case Attributes(_, _, _, _, _, _, _, _, _) =>
      e.(skillsPercent := Zeros(SKILLS), statsPercent := Zeros(STATS),
         currentSkill := SKILLS, currentStat := STATS, currentSpecial := SPECIALS)
    case Damage(_, _, _, _) => e.(setup := NEW_SETUP)
    case Regeneration(_, _, _, _, _, _) => e.(healthPassed := 0, manaPassed := 0)
    case Soul(_, _, _) => e.(soulPassed := 0)
    case Drunk(_) => Drunk(NEW_DRUNKENNESS)
    case _ => e
  }

  /** What comes back: every saved field, and for damage the duration given by the intervals. */
  function Restored(c: Cond, now: int): Cond {
    match c.extra
    case Damage(_, _, list, _) =>
      c.(ticks := Elapse(0, list), endTime := RestoredEnd(0, 0, list, now), extra := Reread(c.extra))
    case _ => c.(endTime := if c.ticks == -1 then NEVER_ENDS else 0, extra := Reread(c.extra))
  }

  function RestoredEnd(ticks: int, endTime: int, list: seq<Interval>, now: int): int
    decreases |list|
  {
    if list == [] then endTime
    else if ticks == -1 then endTime
    else RestoredEnd(S32(ticks + list[0].interval), S32(ticks + list[0].interval) + now, list[1..], now)
  }

  function RestoredAll(list: seq<Cond>, now: int): seq<Cond> {
    if list == [] then []
    else RestoredAll(list[1..], now) + if IsPersistent(list[0]) then [Restored(list[0], now)] else []
  }

  /** Each field has the width the condition expects when its turn comes. */
  predicate AllFit(c: Cond, fs: seq<Field>, now: int)
    decreases |fs|
  {
    fs == [] || (
      && fs[0].tag != ATTR_END && Width(c.extra, fs[0].tag) == Some(|fs[0].body|)
      && AllFit(Apply(c, fs[0], now), fs[1..], now))
  }

  function ApplyAll(c: Cond, fs: seq<Field>, now: int): Cond
    requires AllFit(c, fs, now)
    decreases |fs|
  {
    if fs == [] then c else ApplyAll(Apply(c, fs[0], now), fs[1..], now)
  }

  lemma FrontField(f: Field, more: seq<byte>)
    ensures var b := FieldBytes(f) + more;
      && |b| == 1 + |f.body| + |more| && b[0] == f.tag
      && b[1..1 + |f.body|] == f.body && b[1 + |f.body|..] == more
  {
    assert FieldBytes(f) + more == [f.tag] + (f.body + more);
    assert ([f.tag] + (f.body + more))[1..] == f.body + more;
  }

  /** Reading written fields applies them and arrives at what follows. */
  lemma {:induction false} FieldsReadBack(c: Cond, fs: seq<Field>, suffix: seq<byte>, now: int)
    requires AllFit(c, fs, now)
    ensures Unserialized(c, FieldsBytes(fs) + suffix, now) == Unserialized(ApplyAll(c, fs, now), suffix, now)
    decreases |fs|
  {
    hide Apply, Width, FieldBytes;
    if fs == [] {
      assert FieldsBytes(fs) + suffix == suffix;
    } else {
      var f, more := fs[0], FieldsBytes(fs[1..]) + suffix;
      var b := FieldsBytes(fs) + suffix;
      FrontField(f, more);
      assert b == FieldBytes(f) + more;
      FieldsReadBack(Apply(c, f, now), fs[1..], suffix, now);
    }
  }

  lemma {:induction false} FieldsSplit(a: seq<Field>, b: seq<Field>)
    ensures FieldsBytes(a + b) == FieldsBytes(a) + FieldsBytes(b)
    decreases |a|
  {
    hide FieldBytes;
    if a == [] {
      assert a + b == b;
    } else {
      FieldsSplit(a[1..], b);
      assert (a + b)[1..] == a[1..] + b;
    }
  }

  /** Applying two runs of fields, one after the other. */
  lemma {:induction false} ApplySplit(c: Cond, a: seq<Field>, b: seq<Field>, now: int)
    requires AllFit(c, a, now) && AllFit(ApplyAll(c, a, now), b, now)
    ensures AllFit(c, a + b, now) && ApplyAll(c, a + b, now) == ApplyAll(ApplyAll(c, a, now), b, now)
    decreases |a|
  {
    hide Apply, Width;
    if a == [] {
      assert a + b == b;
    } else {
      ApplySplit(Apply(c, a[0], now), a[1..], b, now);
      assert (a + b)[1..] == a[1..] + b;
    }
  }

  lemma WordBack(x: int)
    ensures FromLE(LE(U32(x), 4)) == U32(x)
  {
    Sizes();
    ReadBack(U32(x), 4);
  }

  // ---------------------------------------------------------------- one class at a time

  /** Reading a class's own fields into a newly created condition gives them all back. */
  ghost predicate TailRestores(c: Cond, e: Extra, want: Cond, now: int) {
    AllFit(c, Tail(e), now) && ApplyAll(c, Tail(e), now) == want
  }

  lemma ApplyNothing(c: Cond, now: int)
    ensures AllFit(c, [], now) && ApplyAll(c, [], now) == c
  {
  }

  lemma ApplyStep(c: Cond, f: Field, fs: seq<Field>, now: int)
    requires f.tag != ATTR_END && Width(c.extra, f.tag) == Some(|f.body|) && AllFit(Apply(c, f, now), fs, now)
    ensures AllFit(c, [f] + fs, now) && ApplyAll(c, [f] + fs, now) == ApplyAll(Apply(c, f, now), fs, now)
  {
    assert ([f] + fs)[1..] == fs;
  }

  lemma SoulRestores(c: Cond, e: Extra, now: int)
    requires c.extra.Soul? && e.Soul? && ExtraFits(e) && c.extra.soulPassed == 0
    ensures TailRestores(c, e, c.(extra := Reread(e)), now)
  {
    hide AllFit, ApplyAll;
    WordBack(e.soulGain);
    WordBack(e.soulTicks);
    var f, g := Word(ATTR_SOULGAIN, e.soulGain), Word(ATTR_SOULTICKS, e.soulTicks);
    var c1 := Apply(c, f, now);
    ApplyNothing(Apply(c1, g, now), now);
    ApplyStep(c1, g, [], now);
    assert [g] + [] == [g] && Tail(e) == [f] + [g];
    ApplyStep(c, f, [g], now);
  }

  lemma OutfitRestores(c: Cond, e: Extra, now: int)
    requires c.extra.Outfit? && e.Outfit? && ExtraFits(e)
    ensures TailRestores(c, e, c.(extra := e), now)
  {
    var f := Field(ATTR_OUTFIT, e.look);
    ApplyNothing(Apply(c, f, now), now);
    ApplyStep(c, f, [], now);
  }

  lemma RegenerationRestores(c: Cond, e: Extra, now: int)
    requires c.extra.Regeneration? && e.Regeneration? && ExtraFits(e) && c.extra.healthPassed == 0 && c.extra.manaPassed == 0
    ensures TailRestores(c, e, c.(extra := Reread(e)), now)
  {
    hide AllFit, ApplyAll, LE, FromLE;
    var f0, f1 := Word(ATTR_HEALTHTICKS, e.healthTicks), Word(ATTR_HEALTHGAIN, e.healthGain);
    var f2, f3 := Word(ATTR_MANATICKS, e.manaTicks), Word(ATTR_MANAGAIN, e.manaGain);
    WordBack(e.healthTicks);
    WordBack(e.healthGain);
    WordBack(e.manaTicks);
    WordBack(e.manaGain);
    Apply4(c, f0, f1, f2, f3, now);
  }

  lemma Apply4(c: Cond, f0: Field, f1: Field, f2: Field, f3: Field, now: int)
    requires forall f {:trigger f.tag} :: f in {f0, f1, f2, f3} ==> f.tag != ATTR_END
    requires Width(c.extra, f0.tag) == Some(|f0.body|)
    requires var c1 := Apply(c, f0, now); Width(c1.extra, f1.tag) == Some(|f1.body|)
    requires var c2 := Apply(Apply(c, f0, now), f1, now); Width(c2.extra, f2.tag) == Some(|f2.body|)
    requires var c3 := Apply(Apply(Apply(c, f0, now), f1, now), f2, now); Width(c3.extra, f3.tag) == Some(|f3.body|)
    ensures AllFit(c, [f0, f1, f2, f3], now)
    ensures ApplyAll(c, [f0, f1, f2, f3], now) == Apply(Apply(Apply(Apply(c, f0, now), f1, now), f2, now), f3, now)
  {
    hide AllFit, ApplyAll, Apply, Width;
    var c1 := Apply(c, f0, now);
    var c2 := Apply(c1, f1, now);
    var c3 := Apply(c2, f2, now);
    ApplyNothing(Apply(c3, f3, now), now);
    ApplyStep(c3, f3, [], now);
    assert [f3] + [] == [f3] && [f2] + [f3] == [f2, f3];
    ApplyStep(c2, f2, [f3], now);
    assert [f1] + [f2, f3] == [f1, f2, f3] && [f0] + [f1, f2, f3] == [f0, f1, f2, f3];
    ApplyStep(c1, f1, [f2, f3], now);
    ApplyStep(c, f0, [f1, f2, f3], now);
  }

  lemma LightRestores(c: Cond, e: Extra, now: int)
    requires c.extra.Light? && e.Light? && ExtraFits(e)
    ensures TailRestores(c, e, c.(extra := e), now)
  {
    hide AllFit, ApplyAll, LE, FromLE;
    var f0, f1 := Word(ATTR_LIGHTCOLOR, e.color), Word(ATTR_LIGHTLEVEL, e.level);
    var f2, f3 := Word(ATTR_LIGHTTICKS, e.lightTicks), Word(ATTR_LIGHTINTERVAL, e.lightInterval);
    WordBack(e.color);
    WordBack(e.level);
    WordBack(e.lightTicks);
    WordBack(e.lightInterval);
    Apply4(c, f0, f1, f2, f3, now);
  }

  lemma SpeedRestores(c: Cond, e: Extra, now: int)
    requires c.extra.Speed? && e.Speed? && ExtraFits(e)
    ensures TailRestores(c, e, c.(extra := e), now)
  {
    hide AllFit, ApplyAll, LE, FromLE;
    var f := Word(ATTR_SPEEDDELTA, e.delta);
    var f0, f1 := Field(ATTR_MINA, e.mina), Field(ATTR_MINB, e.minb);
    var f2, f3 := Field(ATTR_MAXA, e.maxa), Field(ATTR_MAXB, e.maxb);
    WordBack(e.delta);
    SignedBack(e.delta);
    var c1 := Apply(c, f, now);
    Apply4(c1, f0, f1, f2, f3, now);
    ApplyStep(c, f, [f0, f1, f2, f3], now);
    assert Tail(e) == [f] + [f0, f1, f2, f3];
  }

  lemma IntervalBack(i: Interval)
    requires IntervalFits(i)
    ensures |IntervalField(i).body| == 12 && IntervalIn(IntervalField(i).body) == i
  {
    hide LE, FromLE;
    WordBack(i.timeLeft);
    WordBack(i.value);
    WordBack(i.interval);
    SignedBack(i.timeLeft);
    SignedBack(i.value);
    SignedBack(i.interval);
    var a, b, c := LE(U32(i.timeLeft), 4), LE(U32(i.value), 4), LE(U32(i.interval), 4);
    var s := IntervalField(i).body;
    assert s[..4] == a && s[4..8] == b && s[8..] == c;
  }

  lemma {:induction false} IntervalsRead(c: Cond, list: seq<Interval>, now: int)
    requires c.extra.Damage? && forall i :: 0 <= i < |list| ==> IntervalFits(list[i])
    ensures AllFit(c, IntervalFields(list), now)
    ensures ApplyAll(c, IntervalFields(list), now)
      == c.(ticks := Elapse(c.ticks, list), endTime := RestoredEnd(c.ticks, c.endTime, list, now),
            extra := c.extra.(list := c.extra.list + list))
    decreases |list|
  {
    hide AllFit, ApplyAll, IntervalField, IntervalIn, S32;
    if list == [] {
      ApplyNothing(c, now);
      assert c.extra.list + list == c.extra.list;
    } else {
      var f := IntervalField(list[0]);
      IntervalBack(list[0]);
      IntervalTag(list[0]);
      var c1 := Apply(c, f, now);
      assert c1 == AddInterval(c, list[0], now);
      IntervalsRead(c1, list[1..], now);
      ApplyStep(c, f, IntervalFields(list[1..]), now);
      assert c.extra.list + [list[0]] + list[1..] == c.extra.list + list;
    }
  }

  lemma IntervalTag(i: Interval)
    ensures IntervalField(i).tag == ATTR_INTERVALDATA
  {
  }

  lemma FlagBack(b: bool)
    ensures FromLE([if b then 1 else 0]) == if b then 1 else 0
  {
    assert FromLE([]) == 0;
  }

  lemma DamageRestores(c: Cond, e: Extra, now: int)
    requires c.extra == Damage(false, 0, [], NEW_SETUP) && e.Damage? && ExtraFits(e)
    ensures TailRestores(c, e, c.(ticks := Elapse(c.ticks, e.list), extra := Reread(e),
                                  endTime := RestoredEnd(c.ticks, c.endTime, e.list, now)), now)
  {
    hide AllFit, ApplyAll, LE, FromLE, Elapse, RestoredEnd, IntervalFields;
    var f, g := Flag(ATTR_DELAYED, e.delayed), Word(ATTR_PERIODDAMAGE, e.period);
    FlagBack(e.delayed);
    WordBack(e.period);
    SignedBack(e.period);
    var c1 := Apply(c, f, now);
    var c2 := Apply(c1, g, now);
    assert c2 == c.(extra := Damage(e.delayed, e.period, [], NEW_SETUP));
    IntervalsRead(c2, e.list, now);
    ApplyStep(c1, g, IntervalFields(e.list), now);
    ApplyStep(c, f, [g] + IntervalFields(e.list), now);
    assert Tail(e) == [f] + ([g] + IntervalFields(e.list));
    assert [] + e.list == e.list;
  }

  // the three arrays of an attributes condition

  predicate ArrayTag(tag: byte) {
    tag == ATTR_SKILLS || tag == ATTR_STATS || tag == ATTR_SPECIALSKILLS
  }

  function ArrayOf(e: Extra, tag: byte): seq<int>
    requires e.Attributes?
  {
    if tag == ATTR_SKILLS then e.skills else if tag == ATTR_STATS then e.stats else e.specials
  }

  function NextOf(e: Extra, tag: byte): nat
    requires e.Attributes?
  {
    if tag == ATTR_SKILLS then e.currentSkill else if tag == ATTR_STATS then e.currentStat else e.currentSpecial
  }

  function PutArray(e: Extra, tag: byte, xs: seq<int>, n: nat): Extra
    requires e.Attributes?
  {
    if tag == ATTR_SKILLS then e.(skills := xs, currentSkill := n)
    else if tag == ATTR_STATS then e.(stats := xs, currentStat := n)
    else e.(specials := xs, currentSpecial := n)
  }

  lemma ArrayStep(c: Cond, tag: byte, x: int, now: int)
    requires c.extra.Attributes? && ArrayTag(tag) && Int32(x) && NextOf(c.extra, tag) < |ArrayOf(c.extra, tag)|
    ensures Width(c.extra, tag) == Some(4)
    ensures var n := NextOf(c.extra, tag);
      Apply(c, Word(tag, x), now) == c.(extra := PutArray(c.extra, tag, ArrayOf(c.extra, tag)[n := x], n + 1))
  {
    hide LE, FromLE;
    WordBack(x);
    SignedBack(x);
  }

  lemma {:induction false} WordsRead(c: Cond, tag: byte, xs: seq<int>, now: int)
    requires c.extra.Attributes? && ArrayTag(tag) && AllInt32(xs)
    requires NextOf(c.extra, tag) + |xs| == |ArrayOf(c.extra, tag)|
    ensures AllFit(c, Words(tag, xs), now)
    ensures var n := NextOf(c.extra, tag);
      ApplyAll(c, Words(tag, xs), now) == c.(extra := PutArray(c.extra, tag, ArrayOf(c.extra, tag)[..n] + xs, n + |xs|))
    decreases |xs|
  {
    hide AllFit, ApplyAll, Apply, Width, LE;
    var n, a := NextOf(c.extra, tag), ArrayOf(c.extra, tag);
    if xs == [] {
      ApplyNothing(c, now);
      assert a[..n] + xs == a;
    } else {
      ArrayStep(c, tag, xs[0], now);
      var f := Word(tag, xs[0]);
      var c1 := Apply(c, f, now);
      PutGet(c.extra, tag, a[n := xs[0]], n + 1);
      WordsRead(c1, tag, xs[1..], now);
      ApplyStep(c, f, Words(tag, xs[1..]), now);
      assert a[n := xs[0]][..n + 1] + xs[1..] == a[..n] + xs;
    }
  }

  lemma PutGet(e: Extra, tag: byte, xs: seq<int>, n: nat)
    requires e.Attributes?
    ensures var g := PutArray(e, tag, xs, n); g.Attributes? && ArrayOf(g, tag) == xs && NextOf(g, tag) == n
    ensures forall ys, m {:trigger PutArray(PutArray(e, tag, xs, n), tag, ys, m)} ::
      PutArray(PutArray(e, tag, xs, n), tag, ys, m) == PutArray(e, tag, ys, m)
  {
  }

  lemma AttributesRestore(c: Cond, e: Extra, now: int)
    requires c.extra == Attributes(Zeros(SKILLS), Zeros(SKILLS), Zeros(STATS), Zeros(STATS), Zeros(SPECIALS), false, 0, 0, 0)
    requires e.Attributes? && ExtraFits(e)
    ensures TailRestores(c, e, c.(extra := Reread(e)), now)
  {
    hide AllFit, ApplyAll, Words, LE, FromLE, Zeros;
    var skills, stats, specials := Words(ATTR_SKILLS, e.skills), Words(ATTR_STATS, e.stats), Words(ATTR_SPECIALSKILLS, e.specials);
    var f := Flag(ATTR_DISABLEDEFENSE, e.disableDefense);
    FlagBack(e.disableDefense);
    WordsRead(c, ATTR_SKILLS, e.skills, now);
    var c1 := ApplyAll(c, skills, now);
    assert Zeros(SKILLS)[..0] + e.skills == e.skills;
    WordsRead(c1, ATTR_STATS, e.stats, now);
    var c2 := ApplyAll(c1, stats, now);
    assert Zeros(STATS)[..0] + e.stats == e.stats;
    var c3 := Apply(c2, f, now);
    WordsRead(c3, ATTR_SPECIALSKILLS, e.specials, now);
    assert Zeros(SPECIALS)[..0] + e.specials == e.specials;
    ApplyStep(c2, f, specials, now);
    ApplySplit(c1, stats, [f] + specials, now);
    ApplySplit(c, skills, stats + ([f] + specials), now);
  }

  /** Whatever its class, a newly created condition gets its own fields back. */
  lemma TailBack(c: Cond, e: Extra, now: int) returns (want: Cond)
    requires NewExtra(c.conditionType) == Some(c.extra) && SameClass(c.extra, e) && ExtraFits(e)
    requires e.Damage? ==> c.ticks == 0 && c.endTime == 0
    ensures TailRestores(c, e, want, now)
    ensures !e.Damage? ==> want.ticks == c.ticks && want.endTime == c.endTime
    ensures e.Damage? ==> want.ticks == Elapse(0, e.list) && want.endTime == RestoredEnd(0, 0, e.list, now)
    ensures want == c.(ticks := want.ticks, endTime := want.endTime, extra := want.extra)
    ensures want.extra == Reread(e)
  {
    hide TailRestores, ExtraFits, Elapse, RestoredEnd, Zeros, ZeroBytes;
    want := c.(extra := Reread(e));
    if e.Plain? || e.Drunk? {
      NothingRestores(c, e, now);
    } else if e.Damage? {
      DamageRestores(c, e, now);
      want := c.(ticks := Elapse(0, e.list), extra := Reread(e), endTime := RestoredEnd(0, 0, e.list, now));
    } else if e.Speed? {
      SpeedRestores(c, e, now);
    } else if e.Outfit? {
      OutfitRestores(c, e, now);
    } else if e.Light? {
      LightRestores(c, e, now);
    } else if e.Regeneration? {
      RegenerationRestores(c, e, now);
    } else if e.Soul? {
      SoulRestores(c, e, now);
    } else {
      AttributesRestore(c, e, now);
    }
  }

  /** Nothing is saved of these classes. */
  lemma NothingRestores(c: Cond, e: Extra, now: int)
    requires e.Plain? || e.Drunk?
    ensures TailRestores(c, e, c, now)
  {
  }

  // ---------------------------------------------------------------- a whole list

  /** The bytes from the i-th field on, with what follows them. */
  function From(fs: seq<Field>, i: nat, more: seq<byte>): seq<byte>
    requires i <= |fs|
  {
    FieldsBytes(fs[i..]) + more
  }

  lemma FieldAt(fs: seq<Field>, i: nat, more: seq<byte>)
    requires i < |fs|
    ensures var b := From(fs, i, more);
      && |b| > |fs[i].body| && b[0] == fs[i].tag && b[1..1 + |fs[i].body|] == fs[i].body
      && b[1 + |fs[i].body|..] == From(fs, i + 1, more)
  {
    assert fs[i..][1..] == fs[i + 1..];
    assert From(fs, i, more) == FieldBytes(fs[i]) + From(fs, i + 1, more);
    FrontField(fs[i], From(fs, i + 1, more));
  }

  lemma Later(b: seq<byte>, i: nat, j: nat)
    requires i + j <= |b|
    ensures b[i..][j..] == b[i + j..]
  {
  }

  lemma HeadParts(c: Cond, more: seq<byte>)
    ensures var b := FieldsBytes(Head(c)) + more;
      && HasHead(b) && b[1..5] == LE(U32(c.conditionType), 4) && b[6..10] == LE(U32(c.id), 4)
      && b[11..15] == LE(U32(c.ticks), 4) && b[18..22] == LE(U32(c.subId), 4)
      && b[16] == (if c.isBuff then 1 else 0) && b[23] == (if c.aggressive then 1 else 0) && b[24..] == more
  {
    hide LE, U32, FieldsBytes, From;
    var h := Head(c);
    var b := FieldsBytes(h) + more;
    HeadOffsets(c, more);
    FieldAt(h, 0, more);
    FieldAt(h, 1, more);
    FieldAt(h, 2, more);
    FieldAt(h, 3, more);
    FieldAt(h, 4, more);
    FieldAt(h, 5, more);
    assert b[5..][1..5] == b[6..10] && b[10..][1..5] == b[11..15] && b[15..][1..2] == b[16..17];
    assert b[17..][1..5] == b[18..22] && b[22..][1..2] == b[23..24];
  }

  lemma HeadOffsets(c: Cond, more: seq<byte>)
    ensures var h, b := Head(c), FieldsBytes(Head(c)) + more;
      && |b| >= 24 && From(h, 0, more) == b && From(h, 1, more) == b[5..] && From(h, 2, more) == b[10..]
      && From(h, 3, more) == b[15..] && From(h, 4, more) == b[17..] && From(h, 5, more) == b[22..]
      && b[24..] == more
  {
    hide LE, U32, FieldsBytes, From;
    var h := Head(c);
    var b := FieldsBytes(h) + more;
    FromEnds(h, more);
    FieldAt(h, 0, more);
    FieldAt(h, 1, more);
    FieldAt(h, 2, more);
    FieldAt(h, 3, more);
    FieldAt(h, 4, more);
    FieldAt(h, 5, more);
    Later(b, 5, 5);
    Later(b, 10, 5);
    Later(b, 15, 2);
    Later(b, 17, 5);
    Later(b, 22, 2);
  }

  lemma FromEnds(fs: seq<Field>, more: seq<byte>)
    ensures From(fs, 0, more) == FieldsBytes(fs) + more && From(fs, |fs|, more) == more
  {
    assert fs[0..] == fs && fs[|fs|..] == [];
  }

  /** Creating a condition from the bytes of another one gives its six common fields. */
  lemma HeadBack(c: Cond, more: seq<byte>)
    requires Storable(c)
    ensures var b := FieldsBytes(Head(c)) + more;
      && |b| >= 24 && b[24..] == more
      && Created(b) == NewCond(c.conditionType, c.id, c.subId, c.ticks, c.isBuff, c.aggressive)
  {
    hide LE, FromLE, Head, FieldsBytes, NewCond, ExtraFits, NewExtra, SameClass;
    HeadParts(c, more);
    WordBack(c.conditionType);
    WordBack(c.id);
    WordBack(c.ticks);
    WordBack(c.subId);
    SignedBack(c.ticks);
    assert S8(U32(c.id)) == c.id;
  }

  lemma EndMark(c: Cond, more: seq<byte>, now: int)
    ensures Unserialized(c, [ATTR_END] + more, now) == Read(true, c, more)
  {
    assert ([ATTR_END] + more)[1..] == more;
  }

  /** One saved condition is read back and the reader stops right behind its end mark. */
  lemma OneBack(c: Cond, more: seq<byte>, now: int)
    requires Storable(c)
    ensures var b := Encode(c) + [ATTR_END] + more;
      && |b| >= 24 && Created(b).Some?
      && Unserialized(Created(b).value, b[24..], now) == Read(true, Restored(c, now), more)
  {
    hide Tail, Created, NewExtra, ExtraFits, TailRestores, Elapse, RestoredEnd, Head, FieldsBytes, SameClass;
    var b, rest := Encode(c) + [ATTR_END] + more, FieldsBytes(Tail(c.extra)) + ([ATTR_END] + more);
    FieldsSplit(Head(c), Tail(c.extra));
    assert b == FieldsBytes(Head(c)) + rest;
    HeadBack(c, rest);
    var c0 := Created(b).value;
    NewMatches(c);
    var want := TailBack(c0, c.extra, now);
    TailReads(c0, c.extra, want, [ATTR_END] + more, now);
    EndMark(want, more, now);
    RestoredIs(c, c0, want, now);
  }

  lemma NewMatches(c: Cond)
    requires Storable(c)
    ensures var n := NewCond(c.conditionType, c.id, c.subId, c.ticks, c.isBuff, c.aggressive);
      && n.Some? && NewExtra(n.value.conditionType) == Some(n.value.extra) && SameClass(n.value.extra, c.extra)
      && ExtraFits(c.extra) && (c.extra.Damage? ==> n.value.ticks == 0 && n.value.endTime == 0)
      && (!c.extra.Damage? ==> n.value.ticks == c.ticks && n.value.endTime == if c.ticks == -1 then NEVER_ENDS else 0)
      && n.value == c.(ticks := n.value.ticks, endTime := n.value.endTime, extra := n.value.extra)
  {
    hide ExtraFits;
  }

  lemma TailReads(c: Cond, e: Extra, want: Cond, suffix: seq<byte>, now: int)
    requires TailRestores(c, e, want, now)
    ensures Unserialized(c, FieldsBytes(Tail(e)) + suffix, now) == Unserialized(want, suffix, now)
  {
    FieldsReadBack(c, Tail(e), suffix, now);
  }

  lemma RestoredIs(c: Cond, c0: Cond, want: Cond, now: int)
    requires c0 == c.(ticks := c0.ticks, endTime := c0.endTime, extra := c0.extra)
    requires want == c0.(ticks := want.ticks, endTime := want.endTime, extra := want.extra)
    requires !c.extra.Damage? ==> want.ticks == c.ticks && want.endTime == if c.ticks == -1 then NEVER_ENDS else 0
    requires c.extra.Damage? ==> want.ticks == Elapse(0, c.extra.list) && want.endTime == RestoredEnd(0, 0, c.extra.list, now)
    requires want.extra == Reread(c.extra)
    ensures want == Restored(c, now)
  {
  }

  /** Loading everything that was saved gives the persistent conditions back, last one first, and
      nothing is left of the stream. */
  lemma {:induction false} LoadAfterSaveAll(list: seq<Cond>, acc: seq<Cond>, now: int)
    requires forall i :: 0 <= i < |list| ==> Storable(list[i])
    ensures LoadedAll(EncodeAll(list), acc, now) == Loaded(RestoredAll(list, now) + acc, [])
    decreases |list|
  {
    hide Encode, Created, Unserialized, Restored, Storable, IsPersistent;
    if list == [] {
      NothingToCreate();
      assert [] + acc == acc;
    } else if IsPersistent(list[0]) {
      var c, more := list[0], EncodeAll(list[1..]);
      OneBack(c, more, now);
      LoadAfterSaveAll(list[1..], [Restored(c, now)] + acc, now);
      assert RestoredAll(list, now) + acc == RestoredAll(list[1..], now) + ([Restored(c, now)] + acc);
    } else {
      LoadAfterSaveAll(list[1..], acc, now);
      assert [] + EncodeAll(list[1..]) == EncodeAll(list[1..]);
      assert RestoredAll(list[1..], now) + [] == RestoredAll(list[1..], now);
    }
  }

  // ---------------------------------------------------------------- what is lost on the way

  /** The same but for the counters, which only the reader uses. */
  predicate SameExtra(e: Extra, f: Extra) {
    if e.Attributes? && f.Attributes? then
      e == f.(currentSkill := e.currentSkill, currentStat := e.currentStat, currentSpecial := e.currentSpecial)
    else e == f
  }

  /** The same but for the moment at which it ends, which is set anew when the condition starts. */
  predicate SameCond(c: Cond, d: Cond) {
    c == d.(endTime := c.endTime, extra := c.extra) && SameExtra(c.extra, d.extra)
  }

  predicate Unpercented(e: Extra)
    requires e.Attributes?
  {
    e.skillsPercent == Zeros(SKILLS) && e.statsPercent == Zeros(STATS)
  }

  /** The saved fields tell everything about the condition: what is not saved has its initial value,
      and a damage condition lasts as long as its intervals do. */
  predicate ToldInFull(c: Cond) {
    match c.extra
    case Attributes(_, _, _, _, _, _, _, _, _) => Unpercented(c.extra)
    case Damage(_, _, list, setup) => setup == NEW_SETUP && Elapse(0, list) == c.ticks
    case Regeneration(_, _, _, _, healthPassed, manaPassed) => healthPassed == 0 && manaPassed == 0
    case Soul(_, _, soulPassed) => soulPassed == 0
    case Drunk(drunkenness) => drunkenness == NEW_DRUNKENNESS
    case _ => true
  }

  /** An attributes condition comes back as it was exactly when it has no percentages. */
  lemma AttributesBackIff(c: Cond, e: Extra, now: int)
    requires c.extra == Attributes(Zeros(SKILLS), Zeros(SKILLS), Zeros(STATS), Zeros(STATS), Zeros(SPECIALS), false, 0, 0, 0)
    requires e.Attributes? && ExtraFits(e)
    ensures AllFit(c, Tail(e), now)
    ensures SameExtra(ApplyAll(c, Tail(e), now).extra, e) <==> Unpercented(e)
  {
    AttributesRestore(c, e, now);
  }

  lemma RestoredSameIff(c: Cond, now: int)
    ensures SameCond(Restored(c, now), c) <==> ToldInFull(c)
  {
    hide Elapse, RestoredEnd;
  }

  /** The persistent conditions, last one first. */
  function Kept(list: seq<Cond>): seq<Cond> {
    if list == [] then [] else Kept(list[1..]) + if IsPersistent(list[0]) then [list[0]] else []
  }

  predicate SameConds(a: seq<Cond>, b: seq<Cond>) {
    |a| == |b| && forall i :: 0 <= i < |a| ==> SameCond(a[i], b[i])
  }

  predicate AllTold(list: seq<Cond>) {
    forall i :: 0 <= i < |list| && IsPersistent(list[i]) ==> ToldInFull(list[i])
  }

  lemma AllToldSplit(list: seq<Cond>)
    requires list != []
    ensures AllTold(list) <==> (IsPersistent(list[0]) ==> ToldInFull(list[0])) && AllTold(list[1..])
  {
    hide IsPersistent, ToldInFull;
    if AllTold(list) {
      forall i | 0 <= i < |list[1..]| && IsPersistent(list[1..][i]) ensures ToldInFull(list[1..][i]) {
        assert list[1..][i] == list[i + 1];
      }
    }
    if (IsPersistent(list[0]) ==> ToldInFull(list[0])) && AllTold(list[1..]) {
      forall i | 0 <= i < |list| && IsPersistent(list[i]) ensures ToldInFull(list[i]) {
        assert i > 0 ==> list[i] == list[1..][i - 1];
      }
    }
  }

  lemma SameCondsSnoc(a: seq<Cond>, b: seq<Cond>, c: Cond, d: Cond)
    requires |a| == |b|
    ensures SameConds(a + [c], b + [d]) <==> SameConds(a, b) && SameCond(c, d)
  {
    hide SameCond;
    if SameConds(a + [c], b + [d]) {
      assert (a + [c])[|a|] == c && (b + [d])[|a|] == d;
      forall i | 0 <= i < |a| ensures SameCond(a[i], b[i]) {
        assert (a + [c])[i] == a[i] && (b + [d])[i] == b[i];
      }
    }
  }

  lemma {:induction false} RestoredAllSameIff(list: seq<Cond>, now: int)
    ensures |RestoredAll(list, now)| == |Kept(list)|
    ensures SameConds(RestoredAll(list, now), Kept(list)) <==> AllTold(list)
    decreases |list|
  {
    hide IsPersistent, ToldInFull, SameCond, SameConds, AllTold, Restored;
    if list == [] {
      NothingLost();
    } else {
      AllToldSplit(list);
      RestoredAllSameIff(list[1..], now);
      if IsPersistent(list[0]) {
        RestoredSameIff(list[0], now);
        SameCondsSnoc(RestoredAll(list[1..], now), Kept(list[1..]), Restored(list[0], now), list[0]);
      } else {
        assert RestoredAll(list, now) == RestoredAll(list[1..], now) && Kept(list) == Kept(list[1..]);
      }
    }
  }

  lemma NothingLost()
    ensures SameConds([], []) && AllTold([])
  {
  }

  /** What is loaded is what was saved, last one first, exactly when the saved fields of every
      persistent condition tell all of it. */
  lemma LoadsUnchangedIff(list: seq<Cond>, now: int)
    requires forall i :: 0 <= i < |list| ==> Storable(list[i])
    ensures SameConds(LoadedAll(EncodeAll(list), [], now).list, Kept(list)) <==> AllTold(list)
  {
    hide LoadedAll, EncodeAll, Storable, SameConds, AllTold;
    LoadAfterSaveAll(list, [], now);
    RestoredAllSameIff(list, now);
    assert RestoredAll(list, now) + [] == RestoredAll(list, now);
  }

  /** A tenth more of the first skill, for a second. */
  const PERCENTED := Cond(ATTRIBUTES, ID_COMBAT, 0, 1000, 0, false, false,
    Attributes(Zeros(SKILLS), Zeros(SKILLS)[0 := 110], Zeros(STATS), Zeros(STATS), Zeros(SPECIALS), false, 0, 0, 0))

  /** A list of one persistent condition that is not told in full comes back as another one. */
  lemma LostAlone(c: Cond, now: int)
    requires Storable(c) && IsPersistent(c) && !ToldInFull(c)
    ensures Kept([c]) == [c] && LoadedAll(EncodeAll([c]), [], now).list == [Restored(c, now)]
    ensures !SameConds(LoadedAll(EncodeAll([c]), [], now).list, Kept([c]))
  {
    hide LoadedAll, EncodeAll, Storable, IsPersistent, ToldInFull, Restored;
    assert [c][1..] == [] && Kept([]) == [];
    assert RestoredAll([c], now) == RestoredAll([], now) + [Restored(c, now)];
    LoadAfterSaveAll([c], [], now);
    RestoredAllSameIff([c], now);
  }

  lemma PercentageLost(now: int)
    ensures Storable(PERCENTED) && Kept([PERCENTED]) == [PERCENTED]
    ensures LoadedAll(EncodeAll([PERCENTED]), [], now).list == [PERCENTED.(extra := Reread(PERCENTED.extra))]
    ensures !SameConds(LoadedAll(EncodeAll([PERCENTED]), [], now).list, Kept([PERCENTED]))
  {
    hide LoadedAll, EncodeAll;
    assert PERCENTED.extra.skillsPercent[0] == 110 && Zeros(SKILLS)[0] == 0;
    LostAlone(PERCENTED, now);
  }

  /** A minute of being very drunk, which comes back as a minute of being a little drunk. */
  const VERY_DRUNK := Cond(DRUNK, ID_COMBAT, 0, 60_000, 0, false, false, Drunk(50))

  lemma DrunkennessLost(now: int)
    ensures Storable(VERY_DRUNK) && Kept([VERY_DRUNK]) == [VERY_DRUNK]
    ensures LoadedAll(EncodeAll([VERY_DRUNK]), [], now).list == [VERY_DRUNK.(extra := Drunk(25))]
    ensures !SameConds(LoadedAll(EncodeAll([VERY_DRUNK]), [], now).list, Kept([VERY_DRUNK]))
  {
    hide LoadedAll, EncodeAll;
    LostAlone(VERY_DRUNK, now);
  }

  /** Somebody's poison of one point every second, which comes back as nobody's, every two seconds. */
  const PERIODIC := Cond(POISON, ID_COMBAT, 0, 0, 0, false, true,
    Damage(true, -1, [], NEW_SETUP.(tickInterval := 1000, owner := 1)))

  lemma TickIntervalLost(now: int)
    ensures Storable(PERIODIC) && Kept([PERIODIC]) == [PERIODIC]
    ensures LoadedAll(EncodeAll([PERIODIC]), [], now).list == [PERIODIC.(extra := Damage(true, -1, [], NEW_SETUP))]
    ensures NEW_SETUP.tickInterval == 2000 && NEW_SETUP.owner == 0
    ensures !SameConds(LoadedAll(EncodeAll([PERIODIC]), [], now).list, Kept([PERIODIC]))
  {
    hide LoadedAll, EncodeAll;
    LostAlone(PERIODIC, now);
  }

  lemma NothingToCreate()
    ensures Created([]) == None
  {
  }

  /** Intervals that fit together in a signed 32-bit number add up. */
  lemma {:induction false} ElapseIsSum(ticks: int, endTime: int, list: seq<Interval>, now: int)
    requires 0 <= ticks && (forall i :: 0 <= i < |list| ==> list[i].interval >= 0) && ticks + SumOf(list) < 0x8000_0000
    ensures Elapse(ticks, list) == ticks + SumOf(list) && SumOf(list) >= 0
    ensures list != [] ==> RestoredEnd(ticks, endTime, list, now) == ticks + SumOf(list) + now
    decreases |list|
  {
    if list != [] {
      SumNotNegative(list[1..]);
      ElapseIsSum(ticks + list[0].interval, ticks + list[0].interval + now, list[1..], now);
    }
  }

  lemma {:induction false} SumNotNegative(list: seq<Interval>)
    requires forall i :: 0 <= i < |list| ==> list[i].interval >= 0
    ensures SumOf(list) >= 0
    decreases |list|
  {
    if list != [] {
      SumNotNegative(list[1..]);
    }
  }

  // ---------------------------------------------------------------- writing

  /** The stream holds what it held before and the given fields. */
  ghost predicate Holds(stream: PropWriteStream, b: seq<byte>, fs: seq<Field>)
    reads stream
  {
    stream.buffer == b + FieldsBytes(fs)
  }

  lemma FieldsSnoc(b: seq<byte>, fs: seq<Field>, f: Field)
    ensures b + FieldsBytes(fs) + [f.tag] + f.body == b + FieldsBytes(fs + [f])
  {
    FieldsSplit(fs, [f]);
    assert FieldsBytes([f]) == FieldBytes(f) + FieldsBytes([]) == [f.tag] + f.body;
  }

  method PutRaw(stream: PropWriteStream, tag: byte, body: seq<byte>, ghost b: seq<byte>, ghost fs: seq<Field>)
    requires Holds(stream, b, fs)
    modifies stream
    ensures Holds(stream, b, fs + [Field(tag, body)])
  {
    FieldsSnoc(b, fs, Field(tag, body));
    stream.buffer := stream.buffer + [tag] + body;
  }

  method PutWord(stream: PropWriteStream, tag: byte, x: int, ghost b: seq<byte>, ghost fs: seq<Field>)
    requires Holds(stream, b, fs)
    modifies stream
    ensures Holds(stream, b, fs + [Word(tag, x)])
  {
    FieldsSnoc(b, fs, Word(tag, x));
    stream.buffer := stream.buffer + [tag];
    stream.Write(U32(x), 4);
  }

  method PutFlag(stream: PropWriteStream, tag: byte, x: bool, ghost b: seq<byte>, ghost fs: seq<Field>)
    requires Holds(stream, b, fs)
    modifies stream
    ensures Holds(stream, b, fs + [Flag(tag, x)])
  {
    PutRaw(stream, tag, [if x then 1 else 0], b, fs);
  }

  method PutWords(stream: PropWriteStream, tag: byte, xs: seq<int>, ghost b: seq<byte>, ghost fs: seq<Field>)
    requires Holds(stream, b, fs)
    modifies stream
    ensures Holds(stream, b, fs + Words(tag, xs))
  {
    hide Holds, Word;
    ghost var done := fs;
    var n := 0;
    assert xs[0..] == xs;
    while n < |xs|
      invariant 0 <= n <= |xs| && Holds(stream, b, done) && done + Words(tag, xs[n..]) == fs + Words(tag, xs)
    {
      assert xs[n..][1..] == xs[n + 1..];
      assert done + Words(tag, xs[n..]) == done + [Word(tag, xs[n])] + Words(tag, xs[n + 1..]);
      PutWord(stream, tag, xs[n], b, done);
      done := done + [Word(tag, xs[n])];
      n := n + 1;
    }
    assert done + [] == done;
  }

  method PutIntervals(stream: PropWriteStream, list: seq<Interval>, ghost b: seq<byte>, ghost fs: seq<Field>)
    requires Holds(stream, b, fs)
    modifies stream
    ensures Holds(stream, b, fs + IntervalFields(list))
  {
    hide Holds;
    ghost var done := fs;
    var n := 0;
    assert list[0..] == list;
    while n < |list|
      invariant 0 <= n <= |list| && Holds(stream, b, done)
      invariant done + IntervalFields(list[n..]) == fs + IntervalFields(list)
    {
      var i := list[n];
      assert list[n..][1..] == list[n + 1..];
      assert done + IntervalFields(list[n..]) == done + [IntervalField(i)] + IntervalFields(list[n + 1..]);
      PutRaw(stream, ATTR_INTERVALDATA, LE(U32(i.timeLeft), 4) + LE(U32(i.value), 4) + LE(U32(i.interval), 4), b, done);
      done := done + [IntervalField(i)];
      n := n + 1;
    }
    assert done + [] == done;
  }

  method SerializeHead(c: Condition, stream: PropWriteStream, ghost b: seq<byte>)
    requires stream.buffer == b
    modifies stream
    ensures Holds(stream, b, Head(c.Value()))
  {
    hide Holds, Word, Flag;
    NothingHeld(stream, b);
    ghost var h := Head(c.Value());
    PutWord(stream, ATTR_TYPE, c.conditionType, b, []);
    assert [] + [h[0]] == h[..1];
    PutWord(stream, ATTR_ID, c.id, b, h[..1]);
    assert h[..1] + [h[1]] == h[..2];
    PutWord(stream, ATTR_TICKS, c.ticks, b, h[..2]);
    assert h[..2] + [h[2]] == h[..3];
    PutFlag(stream, ATTR_ISBUFF, c.isBuff, b, h[..3]);
    assert h[..3] + [h[3]] == h[..4];
    PutWord(stream, ATTR_SUBID, c.subId, b, h[..4]);
    assert h[..4] + [h[4]] == h[..5];
    PutFlag(stream, ATTR_ISAGGRESSIVE, c.aggressive, b, h[..5]);
    assert h[..5] + [h[5]] == h;
  }

  lemma NothingHeld(stream: PropWriteStream, b: seq<byte>)
    requires stream.buffer == b
    ensures Holds(stream, b, [])
  {
  }

  method PutFour(stream: PropWriteStream, tag: byte, x0: int, x1: int, x2: int, x3: int, ghost b: seq<byte>, ghost fs: seq<Field>)
    requires Holds(stream, b, fs) && tag < 250
    modifies stream
    ensures Holds(stream, b, fs + [Word(tag, x0), Word(tag + 1, x1), Word(tag + 2, x2), Word(tag + 3, x3)])
  {
    hide Holds, Word;
    ghost var f0, f1, f2, f3 := Word(tag, x0), Word(tag + 1, x1), Word(tag + 2, x2), Word(tag + 3, x3);
    PutWord(stream, tag, x0, b, fs);
    PutWord(stream, tag + 1, x1, b, fs + [f0]);
    PutWord(stream, tag + 2, x2, b, fs + [f0] + [f1]);
    PutWord(stream, tag + 3, x3, b, fs + [f0] + [f1] + [f2]);
    assert fs + [f0] + [f1] + [f2] + [f3] == fs + [f0, f1, f2, f3];
  }

  method SerializeSpeed(e: Extra, stream: PropWriteStream, ghost b: seq<byte>, ghost fs: seq<Field>)
    requires Holds(stream, b, fs) && e.Speed?
    modifies stream
    ensures Holds(stream, b, fs + Tail(e))
  {
    hide Holds, Word;
    ghost var f, f0, f1, f2 := Word(ATTR_SPEEDDELTA, e.delta), Field(ATTR_MINA, e.mina), Field(ATTR_MINB, e.minb), Field(ATTR_MAXA, e.maxa);
    PutWord(stream, ATTR_SPEEDDELTA, e.delta, b, fs);
    PutRaw(stream, ATTR_MINA, e.mina, b, fs + [f]);
    PutRaw(stream, ATTR_MINB, e.minb, b, fs + [f] + [f0]);
    PutRaw(stream, ATTR_MAXA, e.maxa, b, fs + [f] + [f0] + [f1]);
    PutRaw(stream, ATTR_MAXB, e.maxb, b, fs + [f] + [f0] + [f1] + [f2]);
    assert fs + [f] + [f0] + [f1] + [f2] + [Field(ATTR_MAXB, e.maxb)] == fs + Tail(e);
  }

  method SerializeDamage(e: Extra, stream: PropWriteStream, ghost b: seq<byte>, ghost fs: seq<Field>)
    requires Holds(stream, b, fs) && e.Damage?
    modifies stream
    ensures Holds(stream, b, fs + Tail(e))
  {
    hide Holds, Word, Flag, IntervalFields;
    ghost var f, g := Flag(ATTR_DELAYED, e.delayed), Word(ATTR_PERIODDAMAGE, e.period);
    PutFlag(stream, ATTR_DELAYED, e.delayed, b, fs);
    PutWord(stream, ATTR_PERIODDAMAGE, e.period, b, fs + [f]);
    PutIntervals(stream, e.list, b, fs + [f] + [g]);
    assert fs + [f] + [g] + IntervalFields(e.list) == fs + Tail(e);
  }

  method SerializeAttributes(e: Extra, stream: PropWriteStream, ghost b: seq<byte>, ghost fs: seq<Field>)
    requires Holds(stream, b, fs) && e.Attributes?
    modifies stream
    ensures Holds(stream, b, fs + Tail(e))
  {
    hide Holds, Words, Flag;
    ghost var x, y, z := Words(ATTR_SKILLS, e.skills), Words(ATTR_STATS, e.stats), Words(ATTR_SPECIALSKILLS, e.specials);
    ghost var f := Flag(ATTR_DISABLEDEFENSE, e.disableDefense);
    PutWords(stream, ATTR_SKILLS, e.skills, b, fs);
    PutWords(stream, ATTR_STATS, e.stats, b, fs + x);
    PutFlag(stream, ATTR_DISABLEDEFENSE, e.disableDefense, b, fs + x + y);
    PutWords(stream, ATTR_SPECIALSKILLS, e.specials, b, fs + x + y + [f]);
    assert fs + x + y + [f] + z == fs + (x + (y + ([f] + z)));
  }

  method SerializeTail(e: Extra, stream: PropWriteStream, ghost b: seq<byte>, ghost fs: seq<Field>)
    requires Holds(stream, b, fs)
    modifies stream
    ensures Holds(stream, b, fs + Tail(e))
  {
    hide Holds, Word;
    match e
    case Plain => assert fs + [] == fs;
    case Drunk(_) => assert fs + [] == fs;
    case Damage(_, _, _, _) => SerializeDamage(e, stream, b, fs);
    case Speed(_, _, _, _, _) => SerializeSpeed(e, stream, b, fs);
    case Outfit(look) => PutRaw(stream, ATTR_OUTFIT, look, b, fs);
    case Light(color, level, lightTicks, lightInterval) =>
      PutFour(stream, ATTR_LIGHTCOLOR, color, level, lightTicks, lightInterval, b, fs);
    case Regeneration(healthTicks, healthGain, manaTicks, manaGain, _, _) =>
      PutFour(stream, ATTR_HEALTHTICKS, healthTicks, healthGain, manaTicks, manaGain, b, fs);
    case Soul(soulGain, soulTicks, _) =>
      PutWord(stream, ATTR_SOULGAIN, soulGain, b, fs);
      PutWord(stream, ATTR_SOULTICKS, soulTicks, b, fs + [Word(ATTR_SOULGAIN, soulGain)]);
      assert fs + [Word(ATTR_SOULGAIN, soulGain)] + [Word(ATTR_SOULTICKS, soulTicks)] == fs + Tail(e);
    case Attributes(_, _, _, _, _, _, _, _, _) => SerializeAttributes(e, stream, b, fs);
  }

  method Serialize(c: Condition, stream: PropWriteStream)
    modifies stream
    ensures stream.buffer == old(stream.buffer) + Encode(c.Value())
  {
    hide Head, Tail, FieldsBytes;
    SerializeHead(c, stream, stream.buffer);
    SerializeTail(c.extra, stream, old(stream.buffer), Head(c.Value()));
  }

  method SaveOne(c: Condition, stream: PropWriteStream)
    modifies stream
    ensures stream.buffer == old(stream.buffer) + EncodeIfPersistent(c.Value())
  {
    hide Encode, IsPersistent;
    if IsPersistent(c.Value()) {
      Serialize(c, stream);
      stream.buffer := stream.buffer + [ATTR_END];
    }
  }

  lemma EncodeFrom(vs: seq<Cond>, n: nat)
    requires n < |vs|
    ensures EncodeAll(vs[n..]) == EncodeIfPersistent(vs[n]) + EncodeAll(vs[n + 1..])
  {
    assert vs[n..][1..] == vs[n + 1..];
  }

  method SaveConditions(list: seq<Condition>, stream: PropWriteStream)
    modifies stream
    ensures stream.buffer == old(stream.buffer) + EncodeAll(Values(list))
  {
    hide EncodeIfPersistent, Values, EncodeAll;
    ghost var vs, b := Values(list), stream.buffer;
    var n := 0;
    assert vs[0..] == vs;
    while n < |list|
      invariant 0 <= n <= |list| == |vs|
      invariant stream.buffer + EncodeAll(vs[n..]) == b + EncodeAll(vs)
    {
      EncodeFrom(vs, n);
      SaveOne(list[n], stream);
      n := n + 1;
    }
    EncodeNothing(vs[n..]);
    assert stream.buffer + [] == stream.buffer;
  }

  lemma EncodeNothing(list: seq<Cond>)
    requires list == []
    ensures EncodeAll(list) == []
  {
  }

  // ---------------------------------------------------------------- loading

  /** Reading one field either applies it, or fails and changes nothing. */
  ghost predicate PropRead(ok: bool, c0: Cond, c1: Cond, tag: byte, b: seq<byte>, rest: seq<byte>, now: int) {
    var w := Width(c0.extra, tag);
    if w.Some? && |b| >= w.value then
      ok && c1 == Apply(c0, Field(tag, b[..w.value]), now) && rest == b[w.value..]
    else
      !ok && c1 == c0 && rest == b
  }

  predicate CommonTag(tag: byte) {
    tag in {ATTR_TYPE, ATTR_ID, ATTR_TICKS, ATTR_SUBID, ATTR_ISBUFF, ATTR_ISAGGRESSIVE}
  }

  method BaseProp(c: Condition, tag: byte, stream: PropStream, now: int) returns (ok: bool)
    requires stream.Valid() && (CommonTag(tag) || Width(c.extra, tag).None?)
    modifies c, stream
    ensures stream.Valid() && PropRead(ok, old(c.Value()), c.Value(), tag, old(stream.Rest()), stream.Rest(), now)
  {
    hide FromLE;
    if !CommonTag(tag) {
      return false;
    }
    var n;
    ok, n := stream.Read(if tag == ATTR_ISBUFF || tag == ATTR_ISAGGRESSIVE then 1 else 4);
    if !ok {
      return;
    }
    if tag == ATTR_TYPE {
      c.conditionType := n;
    } else if tag == ATTR_ID {
      c.id := S8(n);
    } else if tag == ATTR_TICKS {
      c.ticks := S32(n);
    } else if tag == ATTR_ISBUFF {
      c.isBuff := n != 0;
    } else if tag == ATTR_SUBID {
      c.subId := n;
    } else {
      c.aggressive := n != 0;
    }
  }

  method RegenerationProp(c: Condition, tag: byte, stream: PropStream, now: int) returns (ok: bool)
    requires stream.Valid() && c.extra.Regeneration?
    modifies c, stream
    ensures stream.Valid() && PropRead(ok, old(c.Value()), c.Value(), tag, old(stream.Rest()), stream.Rest(), now)
  {
    hide FromLE;
    var n: nat;
    if tag == ATTR_HEALTHTICKS {
      ok, n := stream.Read(4);
      if ok {
        c.extra := c.extra.(healthTicks := n);
      }
    } else if tag == ATTR_HEALTHGAIN {
      ok, n := stream.Read(4);
      if ok {
        c.extra := c.extra.(healthGain := n);
      }
    } else if tag == ATTR_MANATICKS {
      ok, n := stream.Read(4);
      if ok {
        c.extra := c.extra.(manaTicks := n);
      }
    } else if tag == ATTR_MANAGAIN {
      ok, n := stream.Read(4);
      if ok {
        c.extra := c.extra.(manaGain := n);
      }
    } else {
      ok := BaseProp(c, tag, stream, now);
    }
  }

  method SoulProp(c: Condition, tag: byte, stream: PropStream, now: int) returns (ok: bool)
    requires stream.Valid() && c.extra.Soul?
    modifies c, stream
    ensures stream.Valid() && PropRead(ok, old(c.Value()), c.Value(), tag, old(stream.Rest()), stream.Rest(), now)
  {
    hide FromLE;
    var n: nat;
    if tag == ATTR_SOULGAIN {
      ok, n := stream.Read(4);
      if ok {
        c.extra := c.extra.(soulGain := n);
      }
    } else if tag == ATTR_SOULTICKS {
      ok, n := stream.Read(4);
      if ok {
        c.extra := c.extra.(soulTicks := n);
      }
    } else {
      ok := BaseProp(c, tag, stream, now);
    }
  }

  method LightProp(c: Condition, tag: byte, stream: PropStream, now: int) returns (ok: bool)
    requires stream.Valid() && c.extra.Light?
    modifies c, stream
    ensures stream.Valid() && PropRead(ok, old(c.Value()), c.Value(), tag, old(stream.Rest()), stream.Rest(), now)
  {
    hide FromLE;
    var n: nat;
    if tag == ATTR_LIGHTCOLOR {
      ok, n := stream.Read(4);
      if ok {
        c.extra := c.extra.(color := n % 256);
      }
    } else if tag == ATTR_LIGHTLEVEL {
      ok, n := stream.Read(4);
      if ok {
        c.extra := c.extra.(level := n % 256);
      }
    } else if tag == ATTR_LIGHTTICKS {
      ok, n := stream.Read(4);
      if ok {
        c.extra := c.extra.(lightTicks := n);
      }
    } else if tag == ATTR_LIGHTINTERVAL {
      ok, n := stream.Read(4);
      if ok {
        c.extra := c.extra.(lightInterval := n);
      }
    } else {
      ok := BaseProp(c, tag, stream, now);
    }
  }

  method SpeedProp(c: Condition, tag: byte, stream: PropStream, now: int) returns (ok: bool)
    requires stream.Valid() && c.extra.Speed?
    modifies c, stream
    ensures stream.Valid() && PropRead(ok, old(c.Value()), c.Value(), tag, old(stream.Rest()), stream.Rest(), now)
  {
    hide FromLE;
    var n: nat;
    var bytes;
    if tag == ATTR_SPEEDDELTA {
      ok, n := stream.Read(4);
      if ok {
        c.extra := c.extra.(delta := S32(n));
      }
    } else if tag == ATTR_MINA {
      ok, bytes := stream.ReadBytes(4);
      if ok {
        c.extra := c.extra.(mina := bytes);
      }
    } else if tag == ATTR_MINB {
      ok, bytes := stream.ReadBytes(4);
      if ok {
        c.extra := c.extra.(minb := bytes);
      }
    } else if tag == ATTR_MAXA {
      ok, bytes := stream.ReadBytes(4);
      if ok {
        c.extra := c.extra.(maxa := bytes);
      }
    } else if tag == ATTR_MAXB {
      ok, bytes := stream.ReadBytes(4);
      if ok {
        c.extra := c.extra.(maxb := bytes);
      }
    } else {
      ok := BaseProp(c, tag, stream, now);
    }
  }

  method OutfitProp(c: Condition, tag: byte, stream: PropStream, now: int) returns (ok: bool)
    requires stream.Valid() && c.extra.Outfit?
    modifies c, stream
    ensures stream.Valid() && PropRead(ok, old(c.Value()), c.Value(), tag, old(stream.Rest()), stream.Rest(), now)
  {
    hide FromLE;
    var bytes;
    if tag == ATTR_OUTFIT {
      ok, bytes := stream.ReadBytes(18);
      if ok {
        c.extra := Extra.Outfit(bytes);
      }
    } else {
      ok := BaseProp(c, tag, stream, now);
    }
  }

  method DamageProp(c: Condition, tag: byte, stream: PropStream, now: int) returns (ok: bool)
    requires stream.Valid() && c.extra.Damage?
    modifies c, stream
    ensures stream.Valid() && PropRead(ok, old(c.Value()), c.Value(), tag, old(stream.Rest()), stream.Rest(), now)
  {
    hide FromLE;
    var n: nat;
    var bytes;
    if tag == ATTR_DELAYED {
      ok, n := stream.Read(1);
      if ok {
        c.extra := c.extra.(delayed := n != 0);
      }
    } else if tag == ATTR_PERIODDAMAGE {
      ok, n := stream.Read(4);
      if ok {
        c.extra := c.extra.(period := S32(n));
      }
    } else if tag == ATTR_OWNER {
      ok := stream.Skip(4);
    } else if tag == ATTR_INTERVALDATA {
      ok, bytes := stream.ReadBytes(12);
      if ok {
        var info := IntervalIn(bytes);
        c.extra := c.extra.(list := c.extra.list + [info]);
        if c.ticks != -1 {
          c.SetTicks(S32(c.ticks + info.interval), now);
        }
      }
    } else {
      ok := BaseProp(c, tag, stream, now);
    }
  }

  method AttributesProp(c: Condition, tag: byte, stream: PropStream, now: int) returns (ok: bool)
    requires stream.Valid() && c.extra.Attributes?
    modifies c, stream
    ensures stream.Valid() && PropRead(ok, old(c.Value()), c.Value(), tag, old(stream.Rest()), stream.Rest(), now)
  {
    hide FromLE;
    var n: nat;
    var e := c.extra;
    if tag == ATTR_SKILLS && e.currentSkill < |e.skills| {
      ok, n := stream.Read(4);
      if ok {
        c.extra := e.(skills := e.skills[e.currentSkill := S32(n)], currentSkill := e.currentSkill + 1);
      }
    } else if tag == ATTR_SPECIALSKILLS && e.currentSpecial < |e.specials| {
      ok, n := stream.Read(4);
      if ok {
        c.extra := e.(specials := e.specials[e.currentSpecial := S32(n)], currentSpecial := e.currentSpecial + 1);
      }
    } else if tag == ATTR_STATS && e.currentStat < |e.stats| {
      ok, n := stream.Read(4);
      if ok {
        c.extra := e.(stats := e.stats[e.currentStat := S32(n)], currentStat := e.currentStat + 1);
      }
    } else if tag == ATTR_DISABLEDEFENSE {
      ok, n := stream.Read(1);
      if ok {
        c.extra := e.(disableDefense := n != 0);
      }
    } else {
      ok := BaseProp(c, tag, stream, now);
    }
  }

  method UnserializeProp(c: Condition, tag: byte, stream: PropStream, now: int) returns (ok: bool)
    requires stream.Valid()
    modifies c, stream
    ensures stream.Valid() && PropRead(ok, old(c.Value()), c.Value(), tag, old(stream.Rest()), stream.Rest(), now)
  {
    hide PropRead;
    match c.extra
    case Plain => ok := PlainProp(c, tag, stream, now);
    case Drunk(_) => ok := PlainProp(c, tag, stream, now);
    case Damage(_, _, _, _) => ok := DamageProp(c, tag, stream, now);
    case Speed(_, _, _, _, _) => ok := SpeedProp(c, tag, stream, now);
    case Outfit(_) => ok := OutfitProp(c, tag, stream, now);
    case Light(_, _, _, _) => ok := LightProp(c, tag, stream, now);
    case Regeneration(_, _, _, _, _, _) => ok := RegenerationProp(c, tag, stream, now);
    case Soul(_, _, _) => ok := SoulProp(c, tag, stream, now);
    case Attributes(_, _, _, _, _, _, _, _, _) => ok := AttributesProp(c, tag, stream, now);
  }

  method PlainProp(c: Condition, tag: byte, stream: PropStream, now: int) returns (ok: bool)
    requires stream.Valid() && (c.extra.Plain? || c.extra.Drunk?)
    modifies c, stream
    ensures stream.Valid() && PropRead(ok, old(c.Value()), c.Value(), tag, old(stream.Rest()), stream.Rest(), now)
  {
    ok := BaseProp(c, tag, stream, now);
  }

  lemma UnserializedStep(c0: Cond, c1: Cond, b: seq<byte>, rest: seq<byte>, ok: bool, now: int)
    requires b != [] && b[0] != ATTR_END && PropRead(ok, c0, c1, b[0], b[1..], rest, now)
    ensures ok ==> Unserialized(c0, b, now) == Unserialized(c1, rest, now)
    ensures !ok ==> Unserialized(c0, b, now) == Read(false, c1, rest)
    ensures |rest| < |b|
  {
    hide Apply, Width;
    var w := Width(c0.extra, b[0]);
    if ok {
      assert b[1..][..w.value] == b[1..1 + w.value] && b[1..][w.value..] == b[1 + w.value..];
    }
  }

  /** Reads a condition's remaining fields. */
  method Unserialize(c: Condition, stream: PropStream, now: int) returns (ok: bool)
    requires stream.Valid()
    modifies c, stream
    ensures stream.Valid() && Unserialized(old(c.Value()), old(stream.Rest()), now) == Read(ok, c.Value(), stream.Rest())
  {
    hide PropRead, Unserialized;
    ghost var whole := Unserialized(c.Value(), stream.Rest(), now);
    while stream.p < |stream.data| && stream.data[stream.p] != ATTR_END
      invariant stream.Valid() && whole == Unserialized(c.Value(), stream.Rest(), now)
      decreases |stream.Rest()|
    {
      ghost var b, c0 := stream.Rest(), c.Value();
      var tag := stream.data[stream.p];
      stream.p := stream.p + 1;
      assert tag == b[0] && stream.Rest() == b[1..];
      ok := UnserializeProp(c, tag, stream, now);
      UnserializedStep(c0, c.Value(), b, stream.Rest(), ok, now);
      if !ok {
        return;
      }
    }
    UnserializedEnds(c.Value(), stream.Rest(), now);
    if stream.p < |stream.data| {
      stream.p := stream.p + 1;
    }
    ok := true;
  }

  lemma UnserializedEnds(c: Cond, b: seq<byte>, now: int)
    requires b == [] || b[0] == ATTR_END
    ensures Unserialized(c, b, now) == Read(true, c, if b == [] then [] else b[1..])
  {
  }

  /** Reads a tag that must be the given one, and its value. */
  method ReadTagged(stream: PropStream, tag: byte, k: nat) returns (ok: bool, n: nat)
    requires stream.Valid()
    modifies stream
    ensures stream.Valid()
    ensures var b := old(stream.Rest());
      && ok == (|b| >= 1 + k && b[0] == tag)
      && (ok ==> n == FromLE(b[1..1 + k]) && stream.Rest() == b[1 + k..])
      && (b == [] ==> stream.Rest() == [])
  {
    ghost var b := stream.Rest();
    n := 0;
    if stream.p == |stream.data| {
      return false, 0;
    }
    var found := stream.data[stream.p];
    stream.p := stream.p + 1;
    assert found == b[0] && stream.Rest() == b[1..];
    if found != tag {
      return false, 0;
    }
    ok, n := stream.Read(k);
    assert ok ==> b[1..][..k] == b[1..1 + k] && b[1..][k..] == b[1 + k..];
  }

  predicate HasWords(b: seq<byte>) {
    |b| >= 15 && b[0] == ATTR_TYPE && b[5] == ATTR_ID && b[10] == ATTR_TICKS
  }

  predicate HasFlags(b: seq<byte>) {
    |b| >= 9 && b[0] == ATTR_ISBUFF && b[2] == ATTR_SUBID && b[7] == ATTR_ISAGGRESSIVE
  }

  method ReadWords(stream: PropStream) returns (ok: bool, kind: nat, id: nat, ticks: nat)
    requires stream.Valid()
    modifies stream
    ensures stream.Valid()
    ensures var b := old(stream.Rest());
      && ok == HasWords(b) && (b == [] ==> stream.Rest() == []) && (ok ==> |b| >= 15)
      && (ok ==> kind == FromLE(b[1..5]) && id == FromLE(b[6..10]) && ticks == FromLE(b[11..15]) && stream.Rest() == b[15..])
  {
    hide FromLE;
    ghost var b := stream.Rest();
    id, ticks := 0, 0;
    ok, kind := ReadTagged(stream, ATTR_TYPE, 4);
    if !ok {
      return;
    }
    ok, id := ReadTagged(stream, ATTR_ID, 4);
    if !ok {
      return;
    }
    Window(b, 5, 1, 5);
    ok, ticks := ReadTagged(stream, ATTR_TICKS, 4);
    if ok {
      Window(b, 10, 1, 5);
    }
  }

  method ReadFlags(stream: PropStream) returns (ok: bool, buff: nat, subId: nat, aggressive: nat)
    requires stream.Valid()
    modifies stream
    ensures stream.Valid()
    ensures var b := old(stream.Rest());
      && ok == HasFlags(b)
      && (ok ==> buff == b[1] && subId == FromLE(b[3..7]) && aggressive == b[8] && stream.Rest() == b[9..])
  {
    hide FromLE;
    ghost var b := stream.Rest();
    subId, aggressive := 0, 0;
    ok, buff := ReadTagged(stream, ATTR_ISBUFF, 1);
    if !ok {
      return;
    }
    OneByte(b, 1);
    ok, subId := ReadTagged(stream, ATTR_SUBID, 4);
    if !ok {
      return;
    }
    Window(b, 2, 1, 5);
    ok, aggressive := ReadTagged(stream, ATTR_ISAGGRESSIVE, 1);
    if ok {
      Window(b, 7, 1, 2);
      OneByte(b, 8);
    }
  }

  lemma HeadHalves(b: seq<byte>)
    ensures HasHead(b) <==> HasWords(b) && HasFlags(b[15..])
    ensures HasHead(b) ==> b[15..][3..7] == b[18..22] && b[15..][9..] == b[24..] && b[15..][1] == b[16] && b[15..][8] == b[23]
  {
  }

  /** Creates a condition from the six fields every condition begins with. */
  method CreateCondition(stream: PropStream) returns (c: Condition?)
    requires stream.Valid()
    modifies stream
    ensures stream.Valid() && (c == null <==> Created(old(stream.Rest())).None?)
    ensures c != null ==> fresh(c) && Created(old(stream.Rest())) == Some(c.Value()) && stream.Rest() == old(stream.Rest())[24..]
    ensures old(stream.Rest()) == [] ==> stream.Rest() == []
  {
    hide FromLE, NewCond, HasHead, HasWords, HasFlags;
    ghost var b := stream.Rest();
    HeadHalves(b);
    var ok, kind, id, ticks := ReadWords(stream);
    if !ok {
      return null;
    }
    var buff, subId, aggressive;
    ok, buff, subId, aggressive := ReadFlags(stream);
    if !ok {
      return null;
    }
    HeadIsLong(b);
    match NewCond(kind, S8(id), subId, S32(ticks), buff != 0, aggressive != 0)
    case None => c := null;
    case Some(v) => c := new Condition(v);
  }

  lemma HeadIsLong(b: seq<byte>)
    requires HasHead(b)
    ensures |b| >= 24
  {
  }

  lemma Window(b: seq<byte>, i: nat, j: nat, k: nat)
    requires j <= k && i + k <= |b|
    ensures b[i..][j..k] == b[i + j..i + k] && b[i..][k..] == b[i + k..]
  {
  }

  lemma OneByte(b: seq<byte>, i: nat)
    requires i < |b|
    ensures FromLE(b[i..i + 1]) == b[i]
  {
    assert b[i..i + 1] == [b[i]] && FromLE([]) == 0;
  }

  /** One round of the load loop. */
  method LoadOne(stream: PropStream, list: seq<Condition>, now: int) returns (more: bool, list': seq<Condition>)
    requires stream.Valid()
    modifies stream
    ensures stream.Valid() && fresh((set c | c in list') - set c | c in list)
    ensures Created(old(stream.Rest())).None? ==> !more && list' == list && (old(stream.Rest()) == [] ==> stream.Rest() == [])
    ensures Created(old(stream.Rest())).Some? ==>
      && more && |old(stream.Rest())| >= 24
      && var r := Unserialized(Created(old(stream.Rest())).value, old(stream.Rest())[24..], now);
      && stream.Rest() == r.rest && Values(list') == (if r.ok then [r.cond] + old(Values(list)) else old(Values(list)))
  {
    hide Created, Unserialized, Values;
    ghost var b := stream.Rest();
    list' := list;
    var c := CreateCondition(stream);
    more := c != null;
    if more {
      CreatedIsLong(b);
      var ok := Unserialize(c, stream, now);
      if ok {
        ValuesCons(c, list);
        list' := [c] + list;
      }
    }
  }

  lemma CreatedIsLong(b: seq<byte>)
    requires Created(b).Some?
    ensures |b| >= 24
  {
  }

  /** Reads conditions until none can be created; each goes to the front of the list. */
  method LoadConditions(stream: PropStream, now: int) returns (list: seq<Condition>)
    requires stream.Valid()
    modifies stream
    ensures stream.Valid() && fresh(set c | c in list)
    ensures var l := LoadedAll(old(stream.Rest()), [], now);
      Values(list) == l.list && (l.rest == [] ==> stream.Rest() == [])
  {
    hide Created, Unserialized, Values, LoadedAll;
    ghost var whole := LoadedAll(stream.Rest(), [], now);
    list := [];
    NoValues();
    var more := true;
    while more
      invariant stream.Valid() && fresh(set x | x in list)
      invariant more ==> whole == LoadedAll(stream.Rest(), Values(list), now)
      invariant !more ==> Values(list) == whole.list && (whole.rest == [] ==> stream.Rest() == [])
      decreases more, |stream.Rest()|
    {
      ghost var b, before := stream.Rest(), Values(list);
      if Created(b).Some? {
        LoadedStep(b, before, now);
      } else {
        LoadedEnds(b, before, now);
      }
      more, list := LoadOne(stream, list, now);
    }
  }

  lemma NoValues()
    ensures Values([]) == []
  {
  }

  lemma ValuesCons(c: Condition, list: seq<Condition>)
    ensures Values([c] + list) == [c.Value()] + Values(list)
  {
    assert ([c] + list)[1..] == list;
  }

  lemma LoadedStep(b: seq<byte>, list: seq<Cond>, now: int)
    requires Created(b).Some?
    ensures |b| >= 24
    ensures var r := Unserialized(Created(b).value, b[24..], now);
      |r.rest| < |b| && LoadedAll(b, list, now) == LoadedAll(r.rest, if r.ok then [r.cond] + list else list, now)
  {
  }

  lemma LoadedEnds(b: seq<byte>, list: seq<Cond>, now: int)
    requires Created(b).None?
    ensures LoadedAll(b, list, now) == Loaded(list, b)
  {
  }

  /** Saving a creature's conditions and loading them gives back the persistent ones, in reverse
      order, with every saved field; nothing is left of the stream. */
  method SaveThenLoadConditions(list: seq<Condition>, now: int) returns (loaded: seq<Condition>, left: seq<byte>)
    requires forall i :: 0 <= i < |list| ==> Storable(list[i].Value())
    ensures left == [] && Values(loaded) == RestoredAll(Values(list), now)
  {
    hide EncodeAll, LoadedAll, RestoredAll, Storable;
    var out := new PropWriteStream();
    SaveConditions(list, out);
    ghost var vs := Values(list);
    LoadAfterSaveAll(vs, [], now);
    assert [] + EncodeAll(vs) == EncodeAll(vs);
    var stream := new PropStream(out.buffer);
    loaded := LoadConditions(stream, now);
    left := stream.data[stream.p..];
    assert RestoredAll(vs, now) + [] == RestoredAll(vs, now);
  }
}
