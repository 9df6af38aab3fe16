/** The conditions of a creature: their kinds, fields and numeric types. */
module Conditions {
  import opened Options
  import opened Streams

  const WORD := 0x1_0000_0000

  /** A signed number stored in an unsigned 32-bit field, and back. */
  function U32(x: int): nat {
    x % WORD
  }

  function S32(x: int): int {
    var m := x % WORD; if m >= 0x8000_0000 then m - WORD else m
  }

  function S8(x: int): int {
    var m := x % 256; if m >= 128 then m - 256 else m
  }

  predicate Int32(x: int) {
    -0x8000_0000 <= x < 0x8000_0000
  }

  lemma SignedBack(x: int)
    requires Int32(x)
    ensures U32(x) < WORD && S32(U32(x)) == x
  {
  }

  const POISON := 0x1
  const FIRE := 0x2
  const ENERGY := 0x4
  const BLEEDING := 0x8
  const HASTE := 0x10
  const PARALYZE := 0x20
  const OUTFIT := 0x40
  const INVISIBLE := 0x80
  const LIGHT := 0x100
  const MANASHIELD := 0x200
  const INFIGHT := 0x400
  const DRUNK := 0x800
  const EXHAUST_WEAPON := 0x1000
  const REGENERATION := 0x2000
  const SOUL := 0x4000
  const DROWN := 0x8000
  const MUTED := 0x1_0000
  const CHANNELMUTEDTICKS := 0x2_0000
  const YELLTICKS := 0x4_0000
  const ATTRIBUTES := 0x8_0000
  const FREEZING := 0x10_0000
  const DAZZLED := 0x20_0000
  const CURSED := 0x40_0000
  const EXHAUST_COMBAT := 0x80_0000
  const EXHAUST_HEAL := 0x100_0000
  const PACIFIED := 0x200_0000
  const SPELLCOOLDOWN := 0x400_0000
  const SPELLGROUPCOOLDOWN := 0x800_0000

  const ID_DEFAULT := -1
  const ID_COMBAT := 0
  const NEVER_ENDS := 0x7FFF_FFFF_FFFF_FFFF

  const SKILLS := 7
  const STATS := 3
  const SPECIALS := 6

  datatype Interval = Interval(timeLeft: int, value: int, interval: int)

  /** What a damage condition does and whose it is, and how far its periodic damage has come. None of
      this is ever saved. */
  datatype Setup = Setup(
    maxDamage: int, minDamage: int, startDamage: int, initDamage: int, tickInterval: int, periodTick: int,
    forceUpdate: bool, field: bool, owner: nat)

  const NEW_SETUP := Setup(0, 0, 0, 0, 2000, 0, false, false, 0)

  const NEW_DRUNKENNESS := 25

  /** The fields of the condition's own class. Floating-point fields are kept as their four bytes. */
  datatype Extra =
    | Plain
    | Damage(delayed: bool, period: int, list: seq<Interval>, setup: Setup)
    | Speed(delta: int, mina: seq<byte>, minb: seq<byte>, maxa: seq<byte>, maxb: seq<byte>)
    | Outfit(look: seq<byte>)
    | Light(color: nat, level: nat, lightTicks: nat, lightInterval: nat)
    | Regeneration(healthTicks: nat, healthGain: nat, manaTicks: nat, manaGain: nat, healthPassed: nat, manaPassed: nat)
    | Soul(soulGain: nat, soulTicks: nat, soulPassed: nat)
    | Drunk(drunkenness: nat)
    | Attributes(skills: seq<int>, skillsPercent: seq<int>, stats: seq<int>, statsPercent: seq<int>,
                 specials: seq<int>, disableDefense: bool, currentSkill: nat, currentStat: nat, currentSpecial: nat)

  datatype Cond = Cond(
    conditionType: nat, id: int, subId: nat, ticks: int, endTime: int, isBuff: bool, aggressive: bool, extra: Extra)

  function Zeros(n: nat): (s: seq<int>)
    ensures |s| == n
  {
    seq(n, i => 0)
  }

  function ZeroBytes(n: nat): (s: seq<byte>)
    ensures |s| == n
  {
    seq(n, i => 0)
  }

  /** Which class a condition type is created with, and its initial fields. */
  function NewExtra(conditionType: nat): Option<Extra> {
    if conditionType in {POISON, FIRE, ENERGY, DROWN, FREEZING, DAZZLED, CURSED, BLEEDING} then Some(Damage(false, 0, [], NEW_SETUP))
    else if conditionType in {HASTE, PARALYZE} then
      Some(Speed(0, ZeroBytes(4), ZeroBytes(4), ZeroBytes(4), ZeroBytes(4)))
    else if conditionType == OUTFIT then Some(Outfit(ZeroBytes(18)))
    else if conditionType == LIGHT then Some(Light(0, 0, 0, 0))
    else if conditionType == REGENERATION then Some(Regeneration(1000, 0, 1000, 0, 0, 0))
    else if conditionType == SOUL then Some(Soul(0, 0, 0))
    else if conditionType == DRUNK then Some(Drunk(NEW_DRUNKENNESS))
    else if conditionType == ATTRIBUTES then
      Some(Attributes(Zeros(SKILLS), Zeros(SKILLS), Zeros(STATS), Zeros(STATS), Zeros(SPECIALS), false, 0, 0, 0))
    else if conditionType in {INVISIBLE, SPELLCOOLDOWN, SPELLGROUPCOOLDOWN, INFIGHT, EXHAUST_WEAPON,
                              EXHAUST_COMBAT, EXHAUST_HEAL, MUTED, CHANNELMUTEDTICKS, YELLTICKS, PACIFIED, MANASHIELD}
    then Some(Plain)
    else None
  }

  /** Damage conditions start without ticks whatever they are created with. */
  function NewCond(conditionType: nat, id: int, subId: nat, ticks: int, isBuff: bool, aggressive: bool): (c: Option<Cond>)
    ensures c.Some? <==> NewExtra(conditionType).Some?
  {
    match NewExtra(conditionType)
    case None => None
    case Some(extra) =>
      var t := if extra.Damage? then 0 else ticks;
      Some(Cond(conditionType, id, subId, t, if t == -1 then NEVER_ENDS else 0, isBuff, aggressive, extra))
  }

  predicate IsPersistent(c: Cond) {
    c.ticks != -1 && (c.id == ID_DEFAULT || c.id == ID_COMBAT || c.conditionType == MUTED)
  }

  function WithTicks(c: Cond, newTicks: int, now: int): Cond {
    c.(ticks := newTicks, endTime := newTicks + now)
  }

  class Condition {
    var conditionType: nat
    var id: int
    var subId: nat
    var ticks: int
    var endTime: int
    var isBuff: bool
    var aggressive: bool
    var extra: Extra

    constructor (c: Cond)
      ensures Value() == c
    {
      conditionType, id, subId, ticks, endTime := c.conditionType, c.id, c.subId, c.ticks, c.endTime;
      isBuff, aggressive, extra := c.isBuff, c.aggressive, c.extra;
    }

    function Value(): Cond
      reads this
    {
      Cond(conditionType, id, subId, ticks, endTime, isBuff, aggressive, extra)
    }

    method SetTicks(newTicks: int, now: int)
      modifies this`ticks, this`endTime
      ensures Value() == WithTicks(old(Value()), newTicks, now)
    {
      ticks := newTicks;
      endTime := newTicks + now;
    }
  }

  function Values(cs: seq<Condition>): (s: seq<Cond>)
    reads cs
    ensures |s| == |cs| && forall i :: 0 <= i < |cs| ==> s[i] == cs[i].Value()
  {
    if cs == [] then [] else [cs[0].Value()] + Values(cs[1..])
  }
}
