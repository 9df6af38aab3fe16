/** The item heap seen as nested trees: the recursive meaning of the cached weights,
    and what every run of container operations keeps. */
module ForestTree {
  import opened Forest

  datatype Tree = Tree(item: Item, own: nat, kids: seq<Tree>)

  lemma ChildAbove(h: Heap, c: Item, y: Item)
    requires Shaped(h) && c in h && y in h && h[y].parent == c
    ensures Rooted(h, c) && Rooted(h, y)
    ensures Above(h, y) == {y} + Above(h, c) && y !in Above(h, c)
    ensures h.Keys - Above(h, y) < h.Keys - Above(h, c)
  {
    assert Rooted(h, c);
    var n := Depth(h, c);
    assert AtDepth(h, y, n + 1);
    AboveIsChain(h, y, n + 1);
    NotAboveParent(h, y, n + 1);
    assert y in h.Keys - Above(h, c) && y !in h.Keys - Above(h, y);
  }

  ghost predicate ChildrenOf(h: Heap, c: Item, s: seq<Item>) {
    forall i :: 0 <= i < |s| ==> s[i] in h && h[s[i]].parent == c
  }

  /** What lies below c still to be unfolded. */
  ghost function Rest(h: Heap, c: Item): set<Item>
    requires Acyclic(h) && c in h
  {
    assert Rooted(h, c); h.Keys - Above(h, c)
  }

  ghost function TreeOf(h: Heap, x: Item): Tree
    requires Shaped(h) && x in h
    decreases Rest(h, x), 1, 0
  {
    Tree(x, StackWeight(h[x].kind, h[x].count), TreesOf(h, x, h[x].items))
  }

  ghost function TreesOf(h: Heap, c: Item, s: seq<Item>): (ts: seq<Tree>)
    requires Shaped(h) && c in h && ChildrenOf(h, c, s)
    ensures |ts| == |s|
    decreases Rest(h, c), 0, |s|
  {
    if s == [] then []
    else
      ChildAbove(h, c, s[0]);
      [TreeOf(h, s[0])] + TreesOf(h, c, s[1..])
  }

  function TreeWeight(t: Tree): nat {
    t.own + TreesWeight(t.kids)
  }

  function TreesWeight(ts: seq<Tree>): nat {
    if ts == [] then 0 else TreeWeight(ts[0]) + TreesWeight(ts[1..])
  }

  /** Every cached weight is the recursive sum over everything held below, modulo 2^32. */
  lemma {:induction false} CachedWeightIsRecursive(h: Heap, x: Item)
    requires Valid(h) && x in h
    ensures WeightOf(h[x]) == Wrap(TreeWeight(TreeOf(h, x)))
    ensures h[x].kind.container ==> h[x].total == Wrap(TreesWeight(TreeOf(h, x).kids))
    decreases Rest(h, x), 1, 0
  {
    SumIsRecursive(h, x, h[x].items);
    assert CacheOff(h, x, 0);
    var t := TreeOf(h, x);
    assert t.kids == TreesOf(h, x, h[x].items);
    if h[x].kind.container {
      WrapCongruent(h[x].total, TreesWeight(t.kids), t.own);
    } else {
      assert h[x].items == [];
    }
  }

  lemma FirstChild(h: Heap, c: Item, s: seq<Item>)
    requires Shaped(h) && c in h && ChildrenOf(h, c, s) && s != []
    ensures s[0] in h && ChildrenOf(h, c, s[1..]) && Rest(h, s[0]) < Rest(h, c)
    ensures TreesOf(h, c, s) == [TreeOf(h, s[0])] + TreesOf(h, c, s[1..])
  {
    ChildAbove(h, c, s[0]);
  }

  lemma {:induction false} SumIsRecursive(h: Heap, c: Item, s: seq<Item>)
    requires Valid(h) && c in h && ChildrenOf(h, c, s)
    ensures Wrap(SumWeights(h, s)) == Wrap(TreesWeight(TreesOf(h, c, s)))
    decreases Rest(h, c), 0, |s|
  {
    hide Acyclic, ChildrenLinked, ParentsLinked, ListsDistinct, StackBounds, CachesAgree, Rest, TreeOf;
    if s != [] {
      FirstChild(h, c, s);
      CachedWeightIsRecursive(h, s[0]);
      SumIsRecursive(h, c, s[1..]);
      var t := TreeOf(h, s[0]);
      assert TreesWeight([t] + TreesOf(h, c, s[1..])) == TreeWeight(t) + TreesWeight(TreesOf(h, c, s[1..]));
      WrapCongruent(SumWeights(h, s[1..]), TreesWeight(TreesOf(h, c, s[1..])), WeightOf(h[s[0]]));
      WrapCongruent(WeightOf(h[s[0]]), TreeWeight(t), TreesWeight(TreesOf(h, c, s[1..])));
    }
  }

  // ---------------------------------------------------------------- runs

  datatype Op =
    | AddFront(c: Item, x: Item)
    | AddBack(c: Item, x: Item)
    | Update(c: Item, x: Item, kind: Kind, count: nat)
    | Replace(c: Item, index: nat, x: Item)
    | Remove(c: Item, index: nat, count: nat)

  /** What the callers' queries establish before an operation is applied. */
  ghost predicate Allowed(h: Heap, op: Op) {
    match op
    case AddFront(c, x) => CanHang(h, c, x)
    case AddBack(c, x) => CanHang(h, c, x)
    case Update(c, x, kind, count) =>
      && c in h && x in h && x in h[c].items && kind.container == h[x].kind.container
      && (kind.stackable ==> 1 <= count <= 100 && !kind.container)
    case Replace(c, i, x) => CanHang(h, c, x) && i < |h[c].items|
    case Remove(c, i, count) =>
      && c in h && i < |h[c].items| && h[c].items[i] in h
      && var n := h[h[c].items[i]]; n.kind.stackable ==> 1 <= count <= n.count
  }

  ghost function Step(h: Heap, op: Op): Heap
    requires Valid(h)
  {
    if !Allowed(h, op) then h
    else match op
      case AddFront(c, x) => Attached(h, c, 0, x)
      case AddBack(c, x) => Attached(h, c, |h[c].items|, x)
      case Update(c, x, kind, count) => assert Rooted(h, c); Recounted(h, c, x, kind, count)
      case Replace(c, i, x) => Replaced(h, c, i, x)
      case Remove(c, i, count) => Taken(h, c, i, count)
  }

  lemma StepKeepsValid(h: Heap, op: Op)
    requires Valid(h)
    ensures Valid(Step(h, op))
  {
    if Allowed(h, op) {
      match op
      case AddFront(c, x) => AttachedValid(h, c, 0, x);
      case AddBack(c, x) => AttachedValid(h, c, |h[c].items|, x);
      case Update(c, x, kind, count) => RecountedValid(h, c, x, kind, count);
      case Replace(c, i, x) => ReplacedValid(h, c, i, x);
      case Remove(c, i, count) => TakenValid(h, c, i, count);
    }
  }

  ghost function Run(h: Heap, ops: seq<Op>): (g: Heap)
    requires Valid(h)
    ensures Valid(g)
    decreases |ops|
  {
    if ops == [] then h
    else StepKeepsValid(h, ops[0]); Run(Step(h, ops[0]), ops[1..])
  }

  /** After any run, links are consistent and acyclic, stacks are in bounds, and every cached
      weight is the recursive weight of what the container holds. */
  lemma RunKeepsForest(h: Heap, ops: seq<Op>)
    requires Valid(h)
    ensures Shaped(Run(h, ops)) && StackBounds(Run(h, ops))
    ensures var g := Run(h, ops);
      forall x :: x in g && g[x].kind.container ==> g[x].total == Wrap(TreesWeight(TreeOf(g, x).kids))
  {
    var g := Run(h, ops);
    forall x | x in g && g[x].kind.container ensures g[x].total == Wrap(TreesWeight(TreeOf(g, x).kids)) {
      CachedWeightIsRecursive(g, x);
    }
  }
}
