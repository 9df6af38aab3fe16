/** The coin worth of a set of containers, and how it follows from the ledger of item counts. */
module Purse {
  import opened Forest
  import opened Ledger

  /** Containers are searched, never spent. */
  function CoinValue(k: Kind): nat {
    if k.container then 0 else k.worth
  }

  ghost function WorthOf(h: Heap, s: seq<Item>): int {
    if s == [] then 0
    else (if s[0] in h then CoinValue(h[s[0]].kind) * h[s[0]].count else 0) + WorthOf(h, s[1..])
  }

  /** s without the items of kind k. */
  ghost function Without(h: Heap, s: seq<Item>, k: Kind): (t: seq<Item>)
    ensures |t| <= |s|
  {
    if s == [] then []
    else if s[0] in h && h[s[0]].kind == k then Without(h, s[1..], k)
    else [s[0]] + Without(h, s[1..], k)
  }

  lemma {:induction false} WithoutFacts(h: Heap, s: seq<Item>, k: Kind)
    ensures WorthOf(h, s) == CoinValue(k) * CountIn(h, s, k) + WorthOf(h, Without(h, s, k))
    ensures forall j: Kind :: CountIn(h, Without(h, s, k), j) == if j == k then 0 else CountIn(h, s, j)
    decreases |s|
  {
    if s != [] {
      WithoutFacts(h, s[1..], k);
      var t := Without(h, s[1..], k);
      if s[0] in h && h[s[0]].kind == k {
        MulAdd(CoinValue(k), h[s[0]].count, CountIn(h, s[1..], k));
      } else {
        assert Without(h, s, k)[1..] == t;
      }
    }
  }

  lemma {:induction false} CountZero(h: Heap, s: seq<Item>)
    requires forall j: Kind :: CountIn(h, s, j) == 0
    ensures WorthOf(h, s) == 0
    decreases |s|
  {
    if s != [] {
      if s[0] in h {
        assert CountIn(h, s, h[s[0]].kind) == 0;
        assert CoinValue(h[s[0]].kind) * 0 == 0;
      }
      forall j: Kind ensures CountIn(h, s[1..], j) == 0 {
        assert CountIn(h, s, j) == 0;
      }
      CountZero(h, s[1..]);
    }
  }

  /** The worth of a list is fixed by how many items of each kind it has. */
  lemma {:induction false} SameCountsSameWorth(h: Heap, s: seq<Item>, g: Heap, t: seq<Item>)
    requires forall j: Kind :: CountIn(h, s, j) == CountIn(g, t, j)
    ensures WorthOf(h, s) == WorthOf(g, t)
    decreases |s|
  {
    if s == [] {
      forall j: Kind ensures CountIn(g, t, j) == 0 {
        assert CountIn(h, s, j) == CountIn(g, t, j);
      }
      CountZero(g, t);
    } else if s[0] in h {
      var k := h[s[0]].kind;
      WithoutFacts(h, s, k);
      WithoutFacts(g, t, k);
      assert CountIn(h, s, k) == CountIn(g, t, k);
      ShorterWithout(h, s, k);
      SameCountsSameWorth(h, Without(h, s, k), g, Without(g, t, k));
    } else {
      forall j: Kind ensures CountIn(h, s[1..], j) == CountIn(g, t, j) {
        assert CountIn(h, s, j) == CountIn(g, t, j);
      }
      SameCountsSameWorth(h, s[1..], g, t);
    }
  }

  lemma ShorterWithout(h: Heap, s: seq<Item>, k: Kind)
    requires s != [] && s[0] in h && h[s[0]].kind == k
    ensures |Without(h, s, k)| < |s|
  {
  }

  lemma RestSameWorth(h: Heap, s: seq<Item>, g: Heap, t: seq<Item>, k: Kind, delta: int)
    requires forall j: Kind :: CountIn(g, t, j) == CountIn(h, s, j) + if j == k then delta else 0
    ensures WorthOf(h, Without(h, s, k)) == WorthOf(g, Without(g, t, k))
  {
    WithoutFacts(h, s, k);
    WithoutFacts(g, t, k);
    forall j: Kind ensures CountIn(h, Without(h, s, k), j) == CountIn(g, Without(g, t, k), j) {
      assert CountIn(g, t, j) == CountIn(h, s, j) + if j == k then delta else 0;
    }
    SameCountsSameWorth(h, Without(h, s, k), g, Without(g, t, k));
  }

  lemma WorthByKind(h: Heap, s: seq<Item>, k: Kind)
    ensures WorthOf(h, s) == CoinValue(k) * CountIn(h, s, k) + WorthOf(h, Without(h, s, k))
  {
    WithoutFacts(h, s, k);
  }

  /** delta more of kind k make the list worth delta coins more. */
  lemma WorthShift(h: Heap, s: seq<Item>, g: Heap, t: seq<Item>, k: Kind, delta: int)
    requires forall j: Kind :: CountIn(g, t, j) == CountIn(h, s, j) + if j == k then delta else 0
    ensures WorthOf(g, t) == WorthOf(h, s) + CoinValue(k) * delta
  {
    hide WorthOf, CountIn, CoinValue, Without;
    RestSameWorth(h, s, g, t, k, delta);
    WorthByKind(h, s, k);
    WorthByKind(g, t, k);
    assert CountIn(g, t, k) == CountIn(h, s, k) + delta;
    MulSum(CoinValue(k), CountIn(h, s, k), delta, CountIn(g, t, k));
  }

  lemma MulSum(v: int, a: int, b: int, sum: int)
    requires sum == a + b
    ensures v * sum == v * a + v * b
  {
  }

  lemma MulAdd(v: int, a: int, b: int)
    ensures v * (a + b) == v * a + v * b
  {
  }

  /** The worth of the coins lying directly in the given containers. */
  ghost function PurseOf(h: Heap, boxes: seq<Item>): int {
    if boxes == [] then 0
    else (if boxes[0] in h then WorthOf(h, h[boxes[0]].items) else 0) + PurseOf(h, boxes[1..])
  }

  lemma BoxShift(h: Heap, g: Heap, c: Item, c0: Item, k: Kind, delta: int)
    requires Booked(h, g, c0, k, delta) && c in h && c in g
    ensures WorthOf(g, g[c].items) == WorthOf(h, h[c].items) + if c == c0 then CoinValue(k) * delta else 0
  {
    forall j: Kind
      ensures CountIn(g, g[c].items, j) == CountIn(h, h[c].items, j) + if j == k then (if c == c0 then delta else 0) else 0
    {
      assert Holds(g, c, j) == Holds(h, c, j) + if c == c0 && j == k then delta else 0;
    }
    WorthShift(h, h[c].items, g, g[c].items, k, if c == c0 then delta else 0);
    assert CoinValue(k) * 0 == 0;
  }

  ghost predicate AllIn(h: Heap, boxes: seq<Item>) {
    forall i :: 0 <= i < |boxes| ==> boxes[i] in h
  }

  ghost function DirectWorth(h: Heap, c: Item): int
    requires c in h
  {
    WorthOf(h, h[c].items)
  }

  /** c0 gained coins worth amount and no other container's direct worth changed. */
  ghost predicate Richer(h: Heap, g: Heap, c0: Item, amount: int) {
    && h.Keys <= g.Keys
    && forall c {:trigger DirectWorth(g, c)} :: c in h && c in g ==>
         DirectWorth(g, c) == DirectWorth(h, c) + if c == c0 then amount else 0
  }

  lemma BookedIsRicher(h: Heap, g: Heap, c0: Item, k: Kind, delta: int)
    requires Booked(h, g, c0, k, delta)
    ensures Richer(h, g, c0, CoinValue(k) * delta)
  {
    forall c | c in h && c in g
      ensures DirectWorth(g, c) == DirectWorth(h, c) + if c == c0 then CoinValue(k) * delta else 0
    {
      BoxShift(h, g, c, c0, k, delta);
    }
  }

  lemma RicherTwice(h: Heap, m: Heap, g: Heap, c: Item, a: int, b: int)
    requires Richer(h, m, c, a) && Richer(m, g, c, b)
    ensures Richer(h, g, c, a + b)
  {
    forall d | d in h && d in g ensures DirectWorth(g, d) == DirectWorth(h, d) + if d == c then a + b else 0 {
      assert d in m && DirectWorth(m, d) == DirectWorth(m, d);
    }
  }

  /** The purse gains what one of its containers gained. */
  lemma {:induction false} PurseShift(h: Heap, g: Heap, boxes: seq<Item>, c0: Item, amount: int)
    requires Richer(h, g, c0, amount) && AllIn(h, boxes) && NoDup(boxes)
    ensures PurseOf(g, boxes) == PurseOf(h, boxes) + if c0 in boxes then amount else 0
    decreases |boxes|
  {
    if boxes != [] {
      assert DirectWorth(g, boxes[0]) == DirectWorth(h, boxes[0]) + if boxes[0] == c0 then amount else 0;
      PurseShift(h, g, boxes[1..], c0, amount);
      assert c0 in boxes <==> c0 == boxes[0] || c0 in boxes[1..];
    }
  }

  lemma {:induction false} PurseSplit(h: Heap, a: seq<Item>, b: seq<Item>)
    ensures PurseOf(h, a + b) == PurseOf(h, a) + PurseOf(h, b)
    decreases |a|
  {
    if a == [] {
      assert a + b == b;
    } else {
      PurseSplit(h, a[1..], b);
      assert (a + b)[1..] == a[1..] + b;
    }
  }

  lemma {:induction false} WorthSplit(h: Heap, a: seq<Item>, b: seq<Item>)
    ensures WorthOf(h, a + b) == WorthOf(h, a) + WorthOf(h, b)
    decreases |a|
  {
    if a == [] {
      assert a + b == b;
    } else {
      WorthSplit(h, a[1..], b);
      assert (a + b)[1..] == a[1..] + b;
    }
  }
}
