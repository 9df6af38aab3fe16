/** The byte formats, tag by tag and on small examples, as they stand in files and databases. */
module KnownForms {
  import opened Streams
  import opened Conditions
  import ConditionStream
  import MapSerialize
  import ItemRows
  import Otb
  import Base32

  /** Numbers are little-endian, and texts carry their length in two bytes. */
  lemma NumbersAndTexts()
    ensures LE(0x1234, 2) == [0x34, 0x12] && LE(0x1234_5678, 4) == [0x78, 0x56, 0x34, 0x12]
    ensures FromLE([0x34, 0x12]) == 0x1234
    ensures StringBytes([104, 105]) == [2, 0, 104, 105]
  {
    Two(0x1234);
    Two(2);
    Four(0x1234_5678);
    assert FromLE([0x12]) == 0x12 && [0x34, 0x12][1..] == [0x12] && [0x12][1..] == [] && FromLE([]) == 0;
  }

  lemma Two(n: nat)
    requires n < 0x1_0000
    ensures LE(n, 2) == [n % 256, n / 256]
  {
    assert LE(n / 256, 1) == [n / 256 % 256] + LE(n / 256 / 256, 0);
  }

  lemma Four(n: nat)
    requires n < 0x1_0000_0000
    ensures LE(n, 4) == [n % 256, n / 256 % 256, n / 65536 % 256, n / 16777216]
  {
    assert n / 256 / 256 == n / 65536 && n / 65536 / 256 == n / 16777216;
    assert LE(n, 4) == [n % 256] + LE(n / 256, 3);
    assert LE(n / 256, 3) == [n / 256 % 256] + LE(n / 65536, 2);
    Two(n / 65536);
  }

  // ---------------------------------------------------------------- conditions

  function Tags(fs: seq<ConditionStream.Field>): seq<byte> {
    if fs == [] then [] else [fs[0].tag] + Tags(fs[1..])
  }

  lemma {:induction false} TagsSplit(a: seq<ConditionStream.Field>, b: seq<ConditionStream.Field>)
    ensures Tags(a + b) == Tags(a) + Tags(b)
    decreases |a|
  {
    if a == [] {
      assert a + b == b;
    } else {
      TagsSplit(a[1..], b);
      assert (a + b)[1..] == a[1..] + b;
    }
  }

  lemma {:induction false} WordTags(tag: byte, xs: seq<int>)
    ensures Tags(ConditionStream.Words(tag, xs)) == seq(|xs|, i => tag)
    decreases |xs|
  {
    if xs != [] {
      WordTags(tag, xs[1..]);
      assert ConditionStream.Words(tag, xs)[1..] == ConditionStream.Words(tag, xs[1..]);
    }
  }

  lemma {:induction false} IntervalTags(list: seq<Interval>)
    ensures Tags(ConditionStream.IntervalFields(list)) == seq(|list|, i => 10)
    decreases |list|
  {
    if list != [] {
      IntervalTags(list[1..]);
      assert ConditionStream.IntervalFields(list)[1..] == ConditionStream.IntervalFields(list[1..]);
    }
  }

  /** The six fields every condition begins with: type, id, ticks, buff, subId, aggressive. */
  lemma HeadForm(c: Cond)
    ensures var h := ConditionStream.Head(c);
      && |h| == 6 && h[0].tag == 1 && h[1].tag == 2 && h[2].tag == 3 && h[3].tag == 26 && h[4].tag == 27 && h[5].tag == 28
      && h[0].body == LE(c.conditionType % 0x1_0000_0000, 4) && h[1].body == LE(c.id % 0x1_0000_0000, 4)
      && h[2].body == LE(c.ticks % 0x1_0000_0000, 4) && h[3].body == [if c.isBuff then 1 else 0]
      && h[4].body == LE(c.subId % 0x1_0000_0000, 4) && h[5].body == [if c.aggressive then 1 else 0]
  {
  }

  /** The fields of each class, in their order. */
  lemma TailForm(e: Extra)
    ensures var tags := Tags(ConditionStream.Tail(e));
      match e
      case Plain => tags == []
      case Drunk(_) => tags == []
      case Damage(_, _, list, _) => tags == [8, 25] + seq(|list|, i => 10)
      case Speed(_, _, _, _, _) => tags == [11, 12, 13, 14, 15]
      case Outfit(_) => tags == [24]
      case Light(_, _, _, _) => tags == [16, 17, 18, 19]
      case Regeneration(_, _, _, _, _, _) => tags == [4, 5, 6, 7]
      case Soul(_, _, _) => tags == [21, 20]
      case Attributes(skills, _, stats, _, specials, _, _, _, _) =>
        tags == seq(|skills|, i => 22) + (seq(|stats|, i => 23) + ([29] + seq(|specials|, i => 30)))
  {
    hide LE, ConditionStream.Words, ConditionStream.IntervalFields, Tags;
    match e
    case Plain => NoTags();
    case Drunk(_) => NoTags();
    case Damage(_, _, _, _) => DamageForm(e);
    case Speed(_, _, _, _, _) => FiveTags(ConditionStream.Tail(e));
    case Outfit(look) => OneTag(ConditionStream.Field(24, look));
    case Light(_, _, _, _) => FourTags(ConditionStream.Tail(e));
    case Regeneration(_, _, _, _, _, _) => FourTags(ConditionStream.Tail(e));
    case Soul(soulGain, soulTicks, _) => TwoTags(ConditionStream.Word(21, soulGain), ConditionStream.Word(20, soulTicks));
    case Attributes(_, _, _, _, _, _, _, _, _) => AttributesForm(e);
  }

  lemma NoTags()
    ensures Tags([]) == []
  {
  }

  lemma DamageForm(e: Extra)
    requires e.Damage?
    ensures Tags(ConditionStream.Tail(e)) == [8, 25] + seq(|e.list|, i => 10)
  {
    hide LE, Tags;
    var f, g := ConditionStream.Flag(8, e.delayed), ConditionStream.Word(25, e.period);
    IntervalTags(e.list);
    TagsSplit([f, g], ConditionStream.IntervalFields(e.list));
    TwoTags(f, g);
  }

  lemma AttributesForm(e: Extra)
    requires e.Attributes?
    ensures Tags(ConditionStream.Tail(e))
      == seq(|e.skills|, i => 22) + (seq(|e.stats|, i => 23) + ([29] + seq(|e.specials|, i => 30)))
  {
    hide LE, Tags, ConditionStream.Words;
    var a, b, c := ConditionStream.Words(22, e.skills), ConditionStream.Words(23, e.stats), ConditionStream.Words(30, e.specials);
    var f := ConditionStream.Flag(29, e.disableDefense);
    WordTags(22, e.skills);
    WordTags(23, e.stats);
    WordTags(30, e.specials);
    OneTag(f);
    TagsSplit([f], c);
    TagsSplit(b, [f] + c);
    TagsSplit(a, b + ([f] + c));
  }

  lemma OneTag(f: ConditionStream.Field)
    ensures Tags([f]) == [f.tag]
  {
    assert [f][1..] == [];
  }

  lemma TwoTags(f: ConditionStream.Field, g: ConditionStream.Field)
    ensures Tags([f, g]) == [f.tag, g.tag]
  {
    OneTag(g);
    assert [f, g][1..] == [g];
  }

  lemma FourTags(fs: seq<ConditionStream.Field>)
    requires |fs| == 4
    ensures Tags(fs) == [fs[0].tag, fs[1].tag, fs[2].tag, fs[3].tag]
  {
    TwoTags(fs[0], fs[1]);
    TwoTags(fs[2], fs[3]);
    assert fs == [fs[0], fs[1]] + [fs[2], fs[3]];
    TagsSplit([fs[0], fs[1]], [fs[2], fs[3]]);
  }

  lemma FiveTags(fs: seq<ConditionStream.Field>)
    requires |fs| == 5
    ensures Tags(fs) == [fs[0].tag, fs[1].tag, fs[2].tag, fs[3].tag, fs[4].tag]
  {
    OneTag(fs[0]);
    FourTags(fs[1..]);
    assert fs == [fs[0]] + fs[1..];
    TagsSplit([fs[0]], fs[1..]);
  }

  /** A saved plain condition, byte for byte: its head and an end mark. */
  lemma PlainForm(c: Cond)
    requires c.extra.Plain? && c.id == 0 && c.ticks != -1
    ensures ConditionStream.EncodeAll([c]) ==
      [1] + LE(c.conditionType % 0x1_0000_0000, 4)
      + ([2] + LE(0, 4)
      + ([3] + LE(c.ticks % 0x1_0000_0000, 4)
      + ([26] + [if c.isBuff then 1 else 0]
      + ([27] + LE(c.subId % 0x1_0000_0000, 4)
      + ([28] + [if c.aggressive then 1 else 0] + [])))))
      + [254]
  {
    hide ConditionStream.FieldsBytes, ConditionStream.Head, LE;
    assert ConditionStream.Head(c) + [] == ConditionStream.Head(c);
    assert [c][1..] == [] && ConditionStream.EncodeAll([]) == [];
    assert ConditionStream.EncodeAll([c]) == ConditionStream.EncodeIfPersistent(c) + [];
    HeadForm(c);
    SixBytes(ConditionStream.Head(c));
  }

  /** A condition with a field that its class does not know is dropped, and reading goes on behind the tag of
      that field. */
  lemma UnknownFieldDrops(c: Cond, tag: byte, more: seq<byte>, list: seq<Cond>, now: int)
    requires ConditionStream.Storable(c) && tag != 254
    requires ConditionStream.Width(NewExtra(c.conditionType).value, tag).None?
    ensures var b := ConditionStream.FieldsBytes(ConditionStream.Head(c)) + ([tag] + more);
      |b| >= 25 && ConditionStream.LoadedAll(b, list, now) == ConditionStream.LoadedAll(more, list, now)
  {
    hide ConditionStream.Head, ConditionStream.FieldsBytes, ConditionStream.Width, ConditionStream.ExtraFits;
    ConditionStream.HeadBack(c, [tag] + more);
    assert ([tag] + more)[1..] == more;
  }

  lemma SixBytes(fs: seq<ConditionStream.Field>)
    requires |fs| == 6
    ensures ConditionStream.FieldsBytes(fs) ==
      [fs[0].tag] + fs[0].body + ([fs[1].tag] + fs[1].body + ([fs[2].tag] + fs[2].body
      + ([fs[3].tag] + fs[3].body + ([fs[4].tag] + fs[4].body + ([fs[5].tag] + fs[5].body + [])))))
  {
    hide ConditionStream.FieldsBytes;
    NoFields();
    FieldsFirst(fs);
    FieldsFirst(fs[1..]);
    FieldsFirst(fs[2..]);
    FieldsFirst(fs[3..]);
    FieldsFirst(fs[4..]);
    FieldsFirst(fs[5..]);
    assert fs[1..][1..] == fs[2..] && fs[2..][1..] == fs[3..] && fs[3..][1..] == fs[4..] && fs[4..][1..] == fs[5..];
    assert fs[5..][1..] == [];
  }

  lemma NoFields()
    ensures ConditionStream.FieldsBytes([]) == []
  {
  }

  lemma FieldsFirst(fs: seq<ConditionStream.Field>)
    requires fs != []
    ensures ConditionStream.FieldsBytes(fs) == [fs[0].tag] + fs[0].body + ConditionStream.FieldsBytes(fs[1..])
  {
  }

  // ---------------------------------------------------------------- house items and player items

  /** A container with two items: id and attributes, the number of items, the items last one first, and a
      zero byte. Anything else: id, attributes and a zero byte. */
  lemma HouseItemForm(cat: MapSerialize.Catalogue, d: ItemRows.Data, a: ItemRows.Data, b: ItemRows.Data)
    requires d.kids == if d.kind.container then [a, b] else []
    ensures MapSerialize.ItemBytes(cat, d) ==
      LE(d.kind.id, 2) + MapSerialize.AttrsBytes(cat.describe(d.kind, d.count))
      + (if d.kind.container then [23] + [2, 0, 0, 0] + (MapSerialize.ItemBytes(cat, b) + MapSerialize.ItemBytes(cat, a)) else [])
      + [0]
  {
    hide LE, MapSerialize.AttrsBytes;
    Four(2);
    if d.kind.container {
      assert [a, b][..1] == [a] && [a][..0] == [];
      assert MapSerialize.KidsBytes(cat, [a]) == MapSerialize.ItemBytes(cat, a) + [];
      assert MapSerialize.KidsBytes(cat, [a, b]) == MapSerialize.ItemBytes(cat, b) + MapSerialize.KidsBytes(cat, [a]);
    }
  }

  /** The items of a container must be followed by a zero byte. */
  lemma ZeroByteNeeded(cat: MapSerialize.Catalogue, d: ItemRows.Data, c: byte, suffix: seq<byte>)
    requires MapSerialize.Storable(cat, d) && d.kind.container && c != 0
    ensures var items := [23] + LE(|d.kids|, 4) + (MapSerialize.KidsBytes(cat, d.kids) + ([c] + suffix));
      MapSerialize.ParseItem(cat, MapSerialize.HeadBytes(cat, d.kind, d.count) + items) == MapSerialize.Failed
  {
    hide MapSerialize.HeadBytes, MapSerialize.ReadProps, MapSerialize.Fits, LE, FromLE, MapSerialize.ParseKids;
    MapSerialize.FitsFields(cat, d.kind, d.count);
    var tail := [c] + suffix;
    var inner := MapSerialize.KidsBytes(cat, d.kids) + tail;
    var items := [23] + LE(|d.kids|, 4) + inner;
    MapSerialize.HeadReadBack(cat, d.kind, d.count, items);
    MapSerialize.CountReadBack(|d.kids|, cat.describe(d.kind, d.count), inner);
    MapSerialize.KidsAfterSave(cat, d.kids, tail, []);
    assert d.kids + [] == d.kids;
  }

  /** The rows are numbered from 101. */
  lemma RowForm(nodes: seq<ItemRows.Node'>, i: nat)
    requires i < |nodes|
    ensures |ItemRows.RowsOf(nodes)| == |nodes|
    ensures ItemRows.RowsOf(nodes)[i] == ItemRows.Row(nodes[i].pid, 101 + i, nodes[i].data.kind, nodes[i].data.count)
  {
  }

  // ---------------------------------------------------------------- node files

  /** A root of type 1 with the property bytes 0xFF and 7 and one bare child of type 2. */
  lemma NodeForm()
    ensures Otb.Encode(Otb.Tree(1, [0xFF, 7], [Otb.Tree(2, [], [])])) == [0xFE, 1, 0xFD, 0xFF, 7, 0xFE, 2, 0xFF, 0xFF]
    ensures Otb.Unescape([0xFD, 0xFF, 7], false) == [0xFF, 7]
  {
    var kid := Otb.Tree(2, [], []);
    assert Otb.Escape([7]) == [7] by {
      assert [7][1..] == [];
    }
    assert Otb.Escape([0xFF, 7]) == [0xFD, 0xFF] + Otb.Escape([7]) by {
      assert [0xFF, 7][1..] == [7];
    }
    assert Otb.EncodeKids([kid]) == Otb.Encode(kid) + Otb.EncodeKids([]) by {
      assert [kid][1..] == [];
    }
    assert Otb.Encode(kid) == [0xFE, 2, 0xFF];
    Otb.UnescapeStep(0xFD, [0xFF, 7], false);
    Otb.UnescapeStep(0xFF, [7], true);
    Otb.UnescapeStep(7, [], false);
    assert [0xFD] + [0xFF, 7] == [0xFD, 0xFF, 7] && [0xFF] + [7] == [0xFF, 7] && [7] + [] == [7];
  }

  // ---------------------------------------------------------------- secrets

  const ALPHABET := "ABCDEFGHIJKLMNOPQRSTUVWXYZ234567"

  /** Every character of the alphabet of RFC 4648 stands for its place, and nothing else is one. */
  lemma AlphabetForm(v: nat)
    requires v < 32
    ensures |ALPHABET| == 32 && Base32.InAlphabet(ALPHABET[v]) && Base32.ValueOf(ALPHABET[v]) == v
    ensures forall ch: char :: Base32.InAlphabet(ch) ==> ALPHABET[Base32.ValueOf(ch)] == ch
  {
  }

  /** The test vector "fo" of RFC 4648, section 10: MZXQ. */
  lemma SecretForm()
    ensures Base32.AllInAlphabet("MZXQ") && Base32.Number32("MZXQ") / 16 == 256 * 0x66 + 0x6F
    ensures Base32.Number256([0x66, 0x6F]) == 256 * 0x66 + 0x6F
  {
    assert "MZXQ"[..3] == "MZX" && "MZX"[..2] == "MZ" && "MZ"[..1] == "M" && "M"[..0] == "";
    assert Base32.Number32("M") == 12;
    assert Base32.Number32("MZ") == 32 * 12 + 25;
    assert Base32.Number32("MZX") == 32 * (32 * 12 + 25) + 23;
    assert [0x66, 0x6F][..1] == [0x66] && [0x66][..0] == [];
    assert Base32.Number256([0x66]) == 0x66;
  }
}
