/** Saving a forest of nested containers as numbered rows, breadth first, and rebuilding it by
    reading the rows back from the highest number down. */
module ItemRows {
  import opened Forest
  import opened ForestTree
  import opened Ledger

  const FIRST_SID := 101
  const ROOT_LIMIT := 100

  /** What is saved of an item. */
  datatype Data = Data(kind: Kind, count: nat, kids: seq<Data>)

  /** A database row: the parent's number, the row's own number, and the item. */
  datatype Row = Row(pid: nat, sid: nat, kind: Kind, count: nat)

  ghost function DataOf(h: Heap, x: Item): Data
    requires Shaped(h) && x in h
    decreases Rest(h, x), 1, 0
  {
    Data(h[x].kind, h[x].count, DatasOf(h, x, h[x].items))
  }

  ghost function DatasOf(h: Heap, c: Item, s: seq<Item>): (ds: seq<Data>)
    requires Shaped(h) && c in h && ChildrenOf(h, c, s)
    ensures |ds| == |s|
    decreases Rest(h, c), 0, |s|
  {
    if s == [] then []
    else
      ChildAbove(h, c, s[0]);
      [DataOf(h, s[0])] + DatasOf(h, c, s[1..])
  }

  lemma {:induction false} DatasAt(h: Heap, c: Item, s: seq<Item>, i: nat)
    requires Shaped(h) && c in h && ChildrenOf(h, c, s) && i < |s|
    ensures DatasOf(h, c, s)[i] == DataOf(h, s[i])
    decreases |s|
  {
    if i > 0 {
      DatasAt(h, c, s[1..], i - 1);
    }
  }

  lemma KidsAt(h: Heap, c: Item, i: nat)
    requires Shaped(h) && c in h && i < |h[c].items|
    ensures h[c].items[i] in h && |DataOf(h, c).kids| == |h[c].items|
    ensures DataOf(h, c).kids[i] == DataOf(h, h[c].items[i])
  {
    assert ChildrenOf(h, c, h[c].items);
    DatasAt(h, c, h[c].items, i);
  }

  lemma KidsCount(h: Heap, c: Item)
    requires Shaped(h) && c in h
    ensures |DataOf(h, c).kids| == |h[c].items| && DataOf(h, c).kind == h[c].kind && DataOf(h, c).count == h[c].count
    ensures !h[c].kind.container ==> h[c].items == []
  {
  }

  // ---------------------------------------------------------------- the numbering

  /** A node of the forest with the number of the row it hangs under. */
  datatype Node' = Node'(pid: nat, data: Data)

  /** Where the children of the j-th node start in the breadth-first list after r roots. */
  ghost function Start(nodes: seq<Node'>, r: nat, j: nat): (k: nat)
    requires j <= |nodes|
    ensures k >= r
  {
    if j == 0 then r else Start(nodes, r, j - 1) + |nodes[j - 1].data.kids|
  }

  lemma {:induction false} StartGrows(nodes: seq<Node'>, r: nat, i: nat, j: nat)
    requires i <= j <= |nodes|
    ensures Start(nodes, r, i) <= Start(nodes, r, j)
    decreases j
  {
    if i < j {
      StartGrows(nodes, r, i, j - 1);
    }
  }

  lemma {:induction false} StartPrefix(nodes: seq<Node'>, more: seq<Node'>, r: nat, j: nat)
    requires j <= |nodes|
    ensures Start(nodes + more, r, j) == Start(nodes, r, j)
    decreases j
  {
    if j > 0 {
      StartPrefix(nodes, more, r, j - 1);
      assert (nodes + more)[j - 1] == nodes[j - 1];
    }
  }

  /** The children of the first p nodes stand in the list, in order, each naming its parent's row,
      and nothing else follows the roots. */
  ghost predicate Listing(nodes: seq<Node'>, r: nat, p: nat) {
    && p <= |nodes| && Start(nodes, r, p) == |nodes|
    && (forall j {:trigger Start(nodes, r, j)} :: 0 <= j < p ==> j < Start(nodes, r, j))
    && forall j :: 0 <= j < p ==> KidsListed(nodes, r, j)
  }

  ghost predicate KidsListed(nodes: seq<Node'>, r: nat, j: nat)
    requires j < |nodes|
  {
    forall m :: 0 <= m < |nodes[j].data.kids| ==> KidListed(nodes, r, j, m)
  }

  ghost predicate KidListed(nodes: seq<Node'>, r: nat, j: nat, m: nat)
    requires j < |nodes| && m < |nodes[j].data.kids|
  {
    && Start(nodes, r, j) + m < |nodes|
    && nodes[Start(nodes, r, j) + m] == Node'(FIRST_SID + j, nodes[j].data.kids[m])
  }

  /** Adding the next node's children extends the listing by one block. */
  lemma ListingStep(nodes: seq<Node'>, r: nat, p: nat, block: seq<Node'>)
    requires Listing(nodes, r, p) && p < |nodes|
    requires |block| == |nodes[p].data.kids|
    requires forall m :: 0 <= m < |block| ==> block[m] == Node'(FIRST_SID + p, nodes[p].data.kids[m])
    ensures Listing(nodes + block, r, p + 1)
  {
    var all := nodes + block;
    StartPrefix(nodes, block, r, p);
    assert all[p] == nodes[p];
    forall j | 0 <= j < p + 1 ensures j < Start(all, r, j) {
      StartPrefix(nodes, block, r, j);
    }
    forall j | 0 <= j < p + 1 ensures KidsListed(all, r, j) {
      StartPrefix(nodes, block, r, j);
      assert all[j] == nodes[j];
      forall m | 0 <= m < |all[j].data.kids| ensures KidListed(all, r, j, m)
      {
        if j == p {
          assert all[|nodes| + m] == block[m];
        } else {
          assert KidsListed(nodes, r, j) && KidListed(nodes, r, j, m);
        }
      }
    }
  }

  function RowOf(n: Node', i: nat): Row {
    Row(n.pid, FIRST_SID + i, n.data.kind, n.data.count)
  }

  function RowsOf(nodes: seq<Node'>): seq<Row> {
    seq(|nodes|, i requires 0 <= i < |nodes| => RowOf(nodes[i], i))
  }

  // ---------------------------------------------------------------- saving

  function Weight(d: Data): nat {
    1 + Weights(d.kids)
  }

  function Weights(ds: seq<Data>): nat {
    if ds == [] then 0 else Weight(ds[0]) + Weights(ds[1..])
  }

  function Datas(nodes: seq<Node'>): (ds: seq<Data>)
    ensures |ds| == |nodes|
  {
    seq(|nodes|, i requires 0 <= i < |nodes| => nodes[i].data)
  }

  lemma {:induction false} WeightsSplit(a: seq<Data>, b: seq<Data>)
    ensures Weights(a + b) == Weights(a) + Weights(b)
    decreases |a|
  {
    if a == [] {
      assert a + b == b;
    } else {
      WeightsSplit(a[1..], b);
      assert (a + b)[1..] == a[1..] + b;
    }
  }

  /** Replacing a node by its children makes the pending work lighter. */
  lemma PendingLighter(nodes: seq<Node'>, p: nat, block: seq<Node'>)
    requires p < |nodes| && Datas(block) == nodes[p].data.kids
    ensures Weights(Datas((nodes + block)[p + 1..])) == Weights(Datas(nodes[p..])) - 1
  {
    var d := nodes[p].data;
    assert Datas(nodes[p..]) == [d] + Datas(nodes[p + 1..]);
    assert Datas((nodes + block)[p + 1..]) == Datas(nodes[p + 1..]) + d.kids;
    WeightsSplit(Datas(nodes[p + 1..]), d.kids);
    assert ([d] + Datas(nodes[p + 1..]))[1..] == Datas(nodes[p + 1..]);
    assert Weight(d) == 1 + Weights(d.kids);
  }

  datatype Block = Block(pid: nat, item: Item)

  /** The queue: the containers among the items from position p on, each with its row number. */
  ghost function QueueOf(h: Heap, items: seq<Item>, p: nat): seq<Block>
    requires p <= |items|
    decreases |items| - p
  {
    if p == |items| then []
    else (if items[p] in h && h[items[p]].kind.container then [Block(FIRST_SID + p, items[p])] else [])
         + QueueOf(h, items, p + 1)
  }

  lemma {:induction false} QueueSnoc(h: Heap, items: seq<Item>, x: Item, p: nat)
    requires p <= |items| && x in h
    ensures QueueOf(h, items + [x], p) ==
      QueueOf(h, items, p) + if h[x].kind.container then [Block(FIRST_SID + |items|, x)] else []
    decreases |items| - p
  {
    var more, last := items + [x], if h[x].kind.container then [Block(FIRST_SID + |items|, x)] else [];
    if p < |items| {
      QueueSnoc(h, items, x, p + 1);
      assert more[p] == items[p];
      var front := if items[p] in h && h[items[p]].kind.container then [Block(FIRST_SID + p, items[p])] else [];
      assert QueueOf(h, more, p) == front + (QueueOf(h, items, p + 1) + last);
      assert front + (QueueOf(h, items, p + 1) + last) == (front + QueueOf(h, items, p + 1)) + last;
    } else {
      assert more[p] == x && QueueOf(h, more, p + 1) == [];
      assert QueueOf(h, more, p) == last + [];
      assert last + [] == last && [] + last == last;
    }
  }

  /** Rows, nodes and items written so far describe each other. */
  ghost predicate Written(h: Heap, rows: seq<Row>, nodes: seq<Node'>, items: seq<Item>)
    requires Shaped(h)
  {
    && |rows| == |nodes| == |items| && rows == RowsOf(nodes)
    && forall i :: 0 <= i < |items| ==> items[i] in h && nodes[i].data == DataOf(h, items[i])
  }

  lemma WriteRow(h: Heap, rows: seq<Row>, nodes: seq<Node'>, items: seq<Item>, pid: nat, x: Item)
    requires Shaped(h) && Written(h, rows, nodes, items) && x in h
    ensures Written(h, rows + [Row(pid, FIRST_SID + |rows|, h[x].kind, h[x].count)],
                    nodes + [Node'(pid, DataOf(h, x))], items + [x])
  {
    KidsCount(h, x);
    var more := nodes + [Node'(pid, DataOf(h, x))];
    assert RowsOf(more) == RowsOf(nodes) + [RowOf(more[|nodes|], |nodes|)];
  }

  lemma NothingWritten(h: Heap)
    requires Shaped(h)
    ensures Written(h, [], [], []) && QueueOf(h, [], 0) == []
  {
  }

  lemma NothingListed(nodes: seq<Node'>)
    ensures Listing(nodes, |nodes|, 0)
  {
  }

  lemma FrontOfQueue(h: Heap, items: seq<Item>, p: nat)
    requires p < |items| && items[p] in h
    ensures QueueOf(h, items, p) ==
      (if h[items[p]].kind.container then [Block(FIRST_SID + p, items[p])] else []) + QueueOf(h, items, p + 1)
  {
  }

  lemma LeafStep(h: Heap, rows: seq<Row>, nodes: seq<Node'>, items: seq<Item>, r: nat, p: nat)
    requires Shaped(h) && Written(h, rows, nodes, items) && Listing(nodes, r, p) && p < |items|
    requires !h[items[p]].kind.container
    ensures Listing(nodes, r, p + 1) && Weights(Datas(nodes[p + 1..])) == Weights(Datas(nodes[p..])) - 1
  {
    KidsCount(h, items[p]);
    ListingStep(nodes, r, p, []);
    assert nodes + [] == nodes && Datas([]) == [];
    PendingLighter(nodes, p, []);
  }

  /** Items that hold nothing add no rows; the queue passes over them. */
  lemma {:induction false} SkipLeaves(h: Heap, rows: seq<Row>, nodes: seq<Node'>, items: seq<Item>, r: nat, p: nat)
    returns (q: nat)
    requires Shaped(h) && Written(h, rows, nodes, items) && Listing(nodes, r, p) && p <= |items| == |nodes|
    ensures p <= q <= |items| && Listing(nodes, r, q) && QueueOf(h, items, q) == QueueOf(h, items, p)
    ensures q < |items| ==> items[q] in h && h[items[q]].kind.container
    ensures Weights(Datas(nodes[q..])) <= Weights(Datas(nodes[p..]))
    ensures QueueOf(h, items, p) == [] ==> q == |items|
    ensures QueueOf(h, items, p) != [] ==> q < |items|
    decreases |items| - p
  {
    hide Listing, Shaped, DataOf, Weights;
    q := p;
    if p < |items| {
      FrontOfQueue(h, items, p);
      if !h[items[p]].kind.container {
        LeafStep(h, rows, nodes, items, r, p);
        q := SkipLeaves(h, rows, nodes, items, r, p + 1);
      }
    }
  }

  method SaveChildren(c: Item, parentId: nat, rows0: seq<Row>, ghost nodes0: seq<Node'>, ghost items0: seq<Item>,
                      runningId0: nat, queue0: seq<Block>, ghost r: nat, ghost p: nat, ghost s: set<Item>)
    returns (rows: seq<Row>, ghost nodes: seq<Node'>, ghost items: seq<Item>, runningId: nat, queue: seq<Block>)
    requires Shaped(Snapshot(s)) && p < |items0| == |nodes0| == |rows0| && items0[p] == c && c in s
    requires parentId == FIRST_SID + p && runningId0 == FIRST_SID - 1 + |rows0|
    requires Written(Snapshot(s), rows0, nodes0, items0) && Listing(nodes0, r, p)
    requires queue0 == QueueOf(Snapshot(s), items0, p + 1)
    ensures nodes0 <= nodes && |items| == |nodes| == |rows| && runningId == FIRST_SID - 1 + |rows|
    ensures Written(Snapshot(s), rows, nodes, items) && Listing(nodes, r, p + 1)
    ensures queue == QueueOf(Snapshot(s), items, p + 1)
    ensures Weights(Datas(nodes[p + 1..])) == Weights(Datas(nodes0[p..])) - 1
  {
    hide Shaped, DataOf, QueueOf, Listing, Weights, RowsOf, Start, Written;
    ghost var h := Snapshot(s);
    KidsCount(h, c);
    WrittenAt(h, rows0, nodes0, items0, p);
    ghost var block: seq<Node'> := [];
    rows, nodes, items, runningId, queue := rows0, nodes0, items0, runningId0, queue0;
    var n := 0;
    while n < |c.items|
      invariant 0 <= n <= |c.items| && nodes == nodes0 + block && |block| == n
      invariant |items| == |nodes| == |rows| && runningId == FIRST_SID - 1 + |rows|
      invariant Written(h, rows, nodes, items) && queue == QueueOf(h, items, p + 1)
      invariant forall m :: 0 <= m < n ==> block[m] == Node'(FIRST_SID + p, DataOf(h, c).kids[m])
    {
      KidsAt(h, c, n);
      var item := c.items[n];
      assert h[c].items[n] == item && h[item] == item.State();
      runningId := runningId + 1;
      WriteRow(h, rows, nodes, items, parentId, item);
      QueueSnoc(h, items, item, p + 1);
      if item.kind.container {
        queue := queue + [Block(runningId, item)];
      }
      rows := rows + [Row(parentId, runningId, item.kind, item.count)];
      nodes, items := nodes + [Node'(parentId, DataOf(h, item))], items + [item];
      block := block + [Node'(parentId, DataOf(h, item))];
      n := n + 1;
    }
    ListingStep(nodes0, r, p, block);
    assert Datas(block) == nodes0[p].data.kids;
    PendingLighter(nodes0, p, block);
  }

  lemma WrittenAt(h: Heap, rows: seq<Row>, nodes: seq<Node'>, items: seq<Item>, p: nat)
    requires Shaped(h) && Written(h, rows, nodes, items) && p < |items|
    ensures p < |nodes| && items[p] in h && nodes[p].data == DataOf(h, items[p])
  {
  }

  /** The nodes are those of the listed items, the roots in front, and of everything they hold. */
  ghost predicate NodesOf(h: Heap, itemList: seq<Block>, nodes: seq<Node'>)
    requires Shaped(h) && forall i :: 0 <= i < |itemList| ==> itemList[i].item in h
  {
    && GoodNodes(nodes) && |itemList| <= |nodes| && Listing(nodes, |itemList|, |nodes|)
    && forall i :: 0 <= i < |itemList| ==> nodes[i] == Node'(itemList[i].pid, DataOf(h, itemList[i].item))
  }

  method SaveItems(itemList: seq<Block>, ghost s: set<Item>) returns (rows: seq<Row>)
    requires Valid(Snapshot(s)) && forall i :: 0 <= i < |itemList| ==> itemList[i].item in s
    ensures exists nodes :: rows == RowsOf(nodes) && NodesOf(Snapshot(s), itemList, nodes)
  {
    hide Valid, Shaped, DataOf, Written, QueueOf, Listing, Weights, RowsOf, Start, GoodNodes;
    ghost var nodes: seq<Node'>;
    ghost var h := Snapshot(s);
    ValidIsShaped(h);
    ghost var items := [];
    ghost var p := 0;
    var queue, runningId := [], FIRST_SID - 1;
    rows, nodes := [], [];
    NothingWritten(h);
    var i := 0;
    while i < |itemList|
      invariant 0 <= i <= |itemList| && runningId == FIRST_SID - 1 + i && |nodes| == i == |items| == |rows|
      invariant Written(h, rows, nodes, items) && queue == QueueOf(h, items, 0)
      invariant forall j :: 0 <= j < i ==> nodes[j] == Node'(itemList[j].pid, DataOf(h, itemList[j].item))
    {
      var item := itemList[i].item;
      assert h[item] == item.State();
      runningId := runningId + 1;
      WriteRow(h, rows, nodes, items, itemList[i].pid, item);
      QueueSnoc(h, items, item, 0);
      rows := rows + [Row(itemList[i].pid, runningId, item.kind, item.count)];
      nodes, items := nodes + [Node'(itemList[i].pid, DataOf(h, item))], items + [item];
      if item.kind.container {
        queue := queue + [Block(runningId, item)];
      }
      i := i + 1;
    }
    NothingListed(nodes);
    ghost var r := |itemList|;
    while queue != []
      invariant r <= |nodes| && runningId == FIRST_SID - 1 + |rows| && p <= |nodes| == |items| == |rows|
      invariant Written(h, rows, nodes, items) && queue == QueueOf(h, items, p) && Listing(nodes, r, p)
      invariant forall j :: 0 <= j < r ==> nodes[j] == Node'(itemList[j].pid, DataOf(h, itemList[j].item))
      decreases Weights(Datas(nodes[p..]))
    {
      p := SkipLeaves(h, rows, nodes, items, r, p);
      FrontOfQueue(h, items, p);
      var cb := queue[0];
      queue := queue[1..];
      rows, nodes, items, runningId, queue := SaveChildren(cb.item, cb.pid, rows, nodes, items, runningId, queue, r, p, s);
      p := p + 1;
    }
    p := SkipLeaves(h, rows, nodes, items, r, p);
    WrittenRows(h, rows, nodes, items);
    assert NodesOf(h, itemList, nodes);
  }

  lemma DataIsGood(h: Heap, x: Item, pid: nat)
    requires Valid(h) && x in h
    ensures GoodNode(Node'(pid, DataOf(h, x)))
  {
    KidsCount(h, x);
    assert h[x].kind.stackable ==> 1 <= h[x].count <= 100;
  }

  lemma WrittenRows(h: Heap, rows: seq<Row>, nodes: seq<Node'>, items: seq<Item>)
    requires Valid(h) && Shaped(h) && Written(h, rows, nodes, items)
    ensures rows == RowsOf(nodes) && GoodNodes(nodes)
  {
    forall i | 0 <= i < |nodes| ensures GoodNode(nodes[i]) {
      DataIsGood(h, items[i], nodes[i].pid);
    }
  }

  // ---------------------------------------------------------------- what the rows determine

  /** Saved items respect the stack limit and only containers hold anything. */
  ghost predicate GoodNode(n: Node') {
    && (n.data.kind.stackable ==> 1 <= n.data.count <= 100 && !n.data.kind.container)
    && (n.data.kids != [] ==> n.data.kind.container)
  }

  ghost predicate GoodNodes(nodes: seq<Node'>) {
    forall i :: 0 <= i < |nodes| ==> GoodNode(nodes[i])
  }

  /** Every node behind the roots is the child of exactly the node its row names. */
  lemma {:induction false} ParentOf(nodes: seq<Node'>, r: nat, n: nat, i: nat) returns (j: nat)
    requires n <= |nodes| && r <= i < Start(nodes, r, n)
    ensures j < n && Start(nodes, r, j) <= i < Start(nodes, r, j + 1)
    decreases n
  {
    if i >= Start(nodes, r, n - 1) {
      j := n - 1;
    } else {
      j := ParentOf(nodes, r, n - 1, i);
    }
  }

  lemma ParentNamed(nodes: seq<Node'>, r: nat, i: nat) returns (j: nat)
    requires Listing(nodes, r, |nodes|) && r <= i < |nodes|
    ensures j < i && Start(nodes, r, j) <= i < Start(nodes, r, j + 1) <= |nodes| && nodes[i].pid == FIRST_SID + j
    ensures nodes[j].data.kids != []
  {
    j := ParentOf(nodes, r, |nodes|, i);
    var m := i - Start(nodes, r, j);
    assert KidsListed(nodes, r, j) && KidListed(nodes, r, j, m);
    StartGrows(nodes, r, j + 1, |nodes|);
  }

  // ---------------------------------------------------------------- the heap while it is rebuilt

  function Clamp(i: nat, lo: nat, hi: nat): nat
    requires lo <= hi
  {
    if i < lo then lo else if i > hi then hi else i
  }

  /** made[j] is the item created for row j. Rows from i on have been attached. */
  ghost predicate Rebuilt(h: Heap, made: seq<Item>, nodes: seq<Node'>, r: nat, i: nat)
    requires |made| == |nodes|
  {
    && i <= |nodes|
    && (forall j :: 0 <= j < |made| ==> made[j] in h)
    && (forall j, k :: 0 <= j < k < |made| ==> made[j] != made[k])
    && (forall j :: 0 <= j < |made| ==> h[made[j]].kind == nodes[j].data.kind && h[made[j]].count == nodes[j].data.count)
    && (forall j :: 0 <= j < i ==> h[made[j]].parent == null)
    && (forall j :: 0 <= j < |made| ==> ListsBlock(h, made, nodes, r, i, j))
  }

  /** Row j's item lists its children from row i on, in order. */
  ghost predicate ListsBlock(h: Heap, made: seq<Item>, nodes: seq<Node'>, r: nat, i: nat, j: nat)
    requires |made| == |nodes| && j < |nodes|
  {
    && made[j] in h && Start(nodes, r, j + 1) <= |made|
    && h[made[j]].items == made[Clamp(i, Start(nodes, r, j), Start(nodes, r, j + 1))..Start(nodes, r, j + 1)]
  }

  lemma AttachedFields(h: Heap, c: Item, x: Item)
    requires Valid(h) && CanHang(h, c, x)
    ensures x != c
    ensures var g := Attached(h, c, 0, x);
      && g.Keys == h.Keys && g[c].items == [x] + h[c].items && g[x].parent == c
      && (forall y :: y in h ==> g[y].kind == h[y].kind && g[y].count == h[y].count)
      && (forall y :: y in h && y != x ==> g[y].parent == h[y].parent)
      && (forall y :: y in h && y != c ==> g[y].items == h[y].items)
  {
    LinkAbove(h, c, 0, x);
    assert InsertAt(h[c].items, 0, x) == [x] + h[c].items;
  }

  /** Attaching row i in front of its parent's list. */
  lemma AttachRow(h: Heap, g: Heap, made: seq<Item>, nodes: seq<Node'>, r: nat, i: nat, j: nat)
    requires |made| == |nodes| && i < |nodes| && Rebuilt(h, made, nodes, r, i + 1) && Valid(h)
    requires j < i && Start(nodes, r, j) <= i < Start(nodes, r, j + 1) <= |nodes|
    requires CanHang(h, made[j], made[i]) && g == Attached(h, made[j], 0, made[i])
    ensures Rebuilt(g, made, nodes, r, i)
  {
    hide Valid, Attached, CanHang, Start;
    AttachedFields(h, made[j], made[i]);
    forall k | 0 <= k < |made| ensures ListsBlock(g, made, nodes, r, i, k) {
      assert ListsBlock(h, made, nodes, r, i + 1, k);
      if k == j {
        var hi := Start(nodes, r, j + 1);
        assert made[i..hi] == [made[i]] + made[i + 1..hi];
      } else {
        assert made[k] != made[j];
        OtherBlock(nodes, r, i, j, k);
      }
    }
  }

  lemma OtherBlock(nodes: seq<Node'>, r: nat, i: nat, j: nat, k: nat)
    requires j < |nodes| && k < |nodes| && j != k && Start(nodes, r, j) <= i < Start(nodes, r, j + 1)
    ensures Clamp(i, Start(nodes, r, k), Start(nodes, r, k + 1)) == Clamp(i + 1, Start(nodes, r, k), Start(nodes, r, k + 1))
  {
    if k < j {
      StartGrows(nodes, r, k + 1, j);
    } else {
      StartGrows(nodes, r, j + 1, k);
    }
  }

  /** A root row changes no list. */
  lemma RootRow(h: Heap, made: seq<Item>, nodes: seq<Node'>, r: nat, i: nat)
    requires |made| == |nodes| && i < r && Rebuilt(h, made, nodes, r, i + 1)
    ensures Rebuilt(h, made, nodes, r, i)
  {
    forall k | 0 <= k < |made| ensures ListsBlock(h, made, nodes, r, i, k) {
      assert ListsBlock(h, made, nodes, r, i + 1, k);
    }
  }

  /** Row i's item can be hung under the earlier row j: j is still a root. */
  lemma RowHangs(h: Heap, made: seq<Item>, nodes: seq<Node'>, r: nat, i: nat, j: nat)
    requires |made| == |nodes| && j < i < |nodes| && Rebuilt(h, made, nodes, r, i + 1) && Valid(h)
    requires GoodNodes(nodes) && nodes[j].data.kids != []
    ensures CanHang(h, made[j], made[i])
  {
    assert AtDepth(h, made[j], 0);
    AboveIsChain(h, made[j], 0);
    assert GoodNode(nodes[j]);
  }

  /** Once every row is attached, each row's item holds exactly what was saved for it. */
  lemma {:induction false} RebuiltData(h: Heap, made: seq<Item>, nodes: seq<Node'>, r: nat, j: nat)
    requires |made| == |nodes| && j < |nodes| && Rebuilt(h, made, nodes, r, 0) && Shaped(h)
    requires Listing(nodes, r, |nodes|)
    ensures made[j] in h && DataOf(h, made[j]) == nodes[j].data
    decreases |nodes| - j
  {
    RebuiltBlock(h, made, nodes, r, j);
    hide Rebuilt, Listing, Start, DataOf, ChildrenLinked, ParentsLinked, ListsDistinct, Acyclic;
    var lo, c := Start(nodes, r, j), made[j];
    KidsCount(h, c);
    forall m | 0 <= m < |h[c].items| ensures DataOf(h, c).kids[m] == nodes[j].data.kids[m] {
      KidsAt(h, c, m);
      RebuiltData(h, made, nodes, r, lo + m);
    }
    assert DataOf(h, c).kids == nodes[j].data.kids;
  }

  lemma RebuiltBlock(h: Heap, made: seq<Item>, nodes: seq<Node'>, r: nat, j: nat)
    requires |made| == |nodes| && j < |nodes| && Rebuilt(h, made, nodes, r, 0) && Listing(nodes, r, |nodes|)
    ensures var lo, c, data := Start(nodes, r, j), made[j], nodes[j].data;
      && j < lo && c in h && h[c].kind == data.kind && h[c].count == data.count && |h[c].items| == |data.kids|
      && forall m :: 0 <= m < |data.kids| ==> lo + m < |nodes| && h[c].items[m] == made[lo + m] && nodes[lo + m].data == data.kids[m]
  {
    assert ListsBlock(h, made, nodes, r, 0, j) && KidsListed(nodes, r, j);
    assert Start(nodes, r, j + 1) == Start(nodes, r, j) + |nodes[j].data.kids|;
    forall m | 0 <= m < |nodes[j].data.kids|
      ensures nodes[Start(nodes, r, j) + m].data == nodes[j].data.kids[m]
    {
      assert KidListed(nodes, r, j, m);
    }
  }

  // ---------------------------------------------------------------- loading

  datatype Loaded = Loaded(item: Item, pid: nat)

  type ItemMap = map<nat, Loaded>

  /** Every entry of the map is a fresh, loose item made from one of the rows. */
  ghost predicate MadeFrom(h: Heap, m: ItemMap, result: seq<Row>) {
    && (forall sid :: sid in m ==> exists k :: (0 <= k < |result| && MadeFromRow(h, m[sid], result[k], sid)))
    && (forall a, b :: a in m && b in m && a != b ==> m[a].item != m[b].item)
    && (forall k :: 0 <= k < |result| ==> result[k].sid in m)
  }

  ghost predicate MadeFromRow(h: Heap, e: Loaded, row: Row, sid: nat) {
    row.sid == sid && e.pid == row.pid && e.item in h && h[e.item] == Node(row.kind, row.count, null, [], 0)
  }

  ghost predicate GoodRow(row: Row) {
    row.kind.stackable ==> 1 <= row.count <= 100 && !row.kind.container
  }

  lemma MadeOne(h: Heap, m: ItemMap, done: seq<Row>, row: Row, x: Item)
    requires MadeFrom(h, m, done) && x !in h
    ensures MadeFrom(WithItem(h, x, row.kind, row.count), m[row.sid := Loaded(x, row.pid)], done + [row])
  {
    var g, m', all := WithItem(h, x, row.kind, row.count), m[row.sid := Loaded(x, row.pid)], done + [row];
    forall sid | sid in m' ensures exists k :: (0 <= k < |all| && MadeFromRow(g, m'[sid], all[k], sid)) {
      if sid == row.sid {
        assert MadeFromRow(g, m'[sid], all[|done|], sid);
      } else {
        var k :| 0 <= k < |done| && MadeFromRow(h, m[sid], done[k], sid);
        assert MadeFromRow(g, m'[sid], all[k], sid);
      }
    }
    forall a, b | a in m' && b in m' && a != b ensures m'[a].item != m'[b].item {
      if a != row.sid {
        var k :| 0 <= k < |done| && MadeFromRow(h, m[a], done[k], a);
      }
      if b != row.sid {
        var k :| 0 <= k < |done| && MadeFromRow(h, m[b], done[k], b);
      }
    }
  }

  method CreateItem(kind: Kind, count: nat, ghost s: set<Item>) returns (x: Item)
    ensures fresh(x)
    ensures Snapshot(s + {x}) == WithItem(old(Snapshot(s)), x, kind, count)
  {
    x := new Item(kind, count, kind.maxItems, true);
  }

  method LoadItems(result: seq<Row>, ghost s: set<Item>) returns (itemMap: ItemMap, ghost s': set<Item>)
    requires Valid(Snapshot(s)) && forall k :: 0 <= k < |result| ==> GoodRow(result[k])
    ensures s <= s' && fresh(s' - s) && Valid(Snapshot(s')) && MadeFrom(Snapshot(s'), itemMap, result)
  {
    hide Valid, MadeFrom, WithItem;
    itemMap, s' := map[], s;
    NothingMade(Snapshot(s));
    var n := 0;
    while n < |result|
      invariant 0 <= n <= |result| && s <= s' && fresh(s' - s)
      invariant Valid(Snapshot(s')) && MadeFrom(Snapshot(s'), itemMap, result[..n])
    {
      var row := result[n];
      ghost var h := Snapshot(s');
      var item := CreateItem(row.kind, row.count, s');
      s' := s' + {item};
      WithItemValid(h, item, row.kind, row.count);
      MadeOne(h, itemMap, result[..n], row, item);
      assert result[..n + 1] == result[..n] + [row];
      itemMap := itemMap[row.sid := Loaded(item, row.pid)];
      n := n + 1;
    }
    assert result[..n] == result;
  }

  lemma NothingMade(h: Heap)
    ensures MadeFrom(h, map[], [])
  {
  }

  /** The row numbers are 101 and onwards, without gaps. */
  ghost predicate Numbered(m: ItemMap, n: nat) {
    forall sid :: sid in m <==> FIRST_SID <= sid < FIRST_SID + n
  }

  /** The items of rows 101, 102, ... in that order. */
  ghost function Made(m: ItemMap, n: nat): (made: seq<Item>)
    requires forall sid :: FIRST_SID <= sid < FIRST_SID + n ==> sid in m
    ensures |made| == n && forall i :: 0 <= i < n ==> made[i] == m[FIRST_SID + i].item
  {
    if n == 0 then [] else Made(m, n - 1) + [m[FIRST_SID + n - 1].item]
  }

  /** result holds exactly the saved rows, in whatever order. */
  ghost predicate SavedRows(result: seq<Row>, nodes: seq<Node'>) {
    && (forall k :: 0 <= k < |result| ==> result[k] in RowsOf(nodes))
    && (forall i :: 0 <= i < |nodes| ==> RowOf(nodes[i], i) in result)
  }

  lemma KeyIsNumber(h: Heap, m: ItemMap, result: seq<Row>, nodes: seq<Node'>, sid: nat)
    requires MadeFrom(h, m, result) && SavedRows(result, nodes) && sid in m
    ensures FIRST_SID <= sid < FIRST_SID + |nodes|
    ensures MadeFromRow(h, m[sid], RowOf(nodes[sid - FIRST_SID], sid - FIRST_SID), sid)
  {
    var k :| 0 <= k < |result| && MadeFromRow(h, m[sid], result[k], sid);
    assert result[k] in RowsOf(nodes);
    var i :| 0 <= i < |nodes| && RowsOf(nodes)[i] == result[k];
  }

  lemma KeysAreNumbers(h: Heap, m: ItemMap, result: seq<Row>, nodes: seq<Node'>)
    requires MadeFrom(h, m, result) && SavedRows(result, nodes)
    ensures Numbered(m, |nodes|)
  {
    hide MadeFrom, RowsOf;
    forall sid | sid in m ensures FIRST_SID <= sid < FIRST_SID + |nodes| {
      KeyIsNumber(h, m, result, nodes, sid);
    }
    forall sid | FIRST_SID <= sid < FIRST_SID + |nodes| ensures sid in m {
      var i := sid - FIRST_SID;
      assert RowOf(nodes[i], i) in result;
      var k :| 0 <= k < |result| && result[k] == RowOf(nodes[i], i);
      RowHasKey(h, m, result, k);
    }
  }

  lemma RowHasKey(h: Heap, m: ItemMap, result: seq<Row>, k: nat)
    requires MadeFrom(h, m, result) && k < |result|
    ensures result[k].sid in m
  {
  }

  lemma KeysApart(h: Heap, m: ItemMap, result: seq<Row>, a: nat, b: nat)
    requires MadeFrom(h, m, result) && a in m && b in m && a != b
    ensures m[a].item != m[b].item
  {
  }

  lemma FreshRow(h: Heap, m: ItemMap, result: seq<Row>, nodes: seq<Node'>, j: nat)
    requires MadeFrom(h, m, result) && SavedRows(result, nodes) && Numbered(m, |nodes|) && j < |nodes|
    ensures var e := m[FIRST_SID + j];
      && e.pid == nodes[j].pid && e.item in h && Made(m, |nodes|)[j] == e.item
      && h[e.item] == Node(nodes[j].data.kind, nodes[j].data.count, null, [], 0)
  {
    KeyIsNumber(h, m, result, nodes, FIRST_SID + j);
  }

  /** Loose items, one for every row. */
  ghost predicate AllLoose(h: Heap, made: seq<Item>, nodes: seq<Node'>) {
    && |made| == |nodes|
    && (forall j :: 0 <= j < |made| ==>
          made[j] in h && h[made[j]] == Node(nodes[j].data.kind, nodes[j].data.count, null, [], 0))
    && (forall j, k :: 0 <= j < k < |made| ==> made[j] != made[k])
  }

  lemma LooseRows(h: Heap, m: ItemMap, result: seq<Row>, nodes: seq<Node'>)
    requires MadeFrom(h, m, result) && SavedRows(result, nodes) && Numbered(m, |nodes|)
    ensures AllLoose(h, Made(m, |nodes|), nodes)
  {
    hide MadeFrom, SavedRows;
    var made := Made(m, |nodes|);
    forall j | 0 <= j < |made|
      ensures made[j] in h && h[made[j]] == Node(nodes[j].data.kind, nodes[j].data.count, null, [], 0)
    {
      FreshRow(h, m, result, nodes, j);
    }
    forall j, k | 0 <= j < k < |made| ensures made[j] != made[k] {
      KeysApart(h, m, result, FIRST_SID + j, FIRST_SID + k);
    }
  }

  lemma StartRebuilding(h: Heap, made: seq<Item>, nodes: seq<Node'>, r: nat)
    requires AllLoose(h, made, nodes) && Start(nodes, r, |nodes|) == |nodes|
    ensures Rebuilt(h, made, nodes, r, |nodes|)
  {
    forall j | 0 <= j < |made| ensures ListsBlock(h, made, nodes, r, |nodes|, j) {
      hide Start;
      StartGrows(nodes, r, j + 1, |nodes|);
      StartGrows(nodes, r, j, j + 1);
    }
  }

  lemma ListingEnds(nodes: seq<Node'>, r: nat)
    requires Listing(nodes, r, |nodes|)
    ensures Start(nodes, r, |nodes|) == |nodes|
  {
  }

  // ---------------------------------------------------------------- the rebuild loop

  type Roots = map<nat, seq<Item>>

  function RootsAt(roots: Roots, pid: nat): seq<Item> {
    if pid in roots then roots[pid] else []
  }

  /** The items of the root rows from i on that name pid, in order. */
  ghost function RootItems(made: seq<Item>, nodes: seq<Node'>, r: nat, i: nat, pid: nat): seq<Item>
    requires r <= |nodes| == |made|
    decreases r - i
  {
    if i >= r then []
    else (if nodes[i].pid == pid then [made[i]] else []) + RootItems(made, nodes, r, i + 1, pid)
  }

  lemma LastKey(keys: set<nat>, i: nat)
    requires i > 0 && forall sid :: sid in keys <==> FIRST_SID <= sid < FIRST_SID + i
    ensures FIRST_SID + i - 1 in keys && forall k :: k in keys ==> k <= FIRST_SID + i - 1
  {
  }

  lemma NoKeys(keys: set<nat>, i: nat)
    requires forall sid :: sid in keys <==> FIRST_SID <= sid < FIRST_SID + i
    ensures keys == {} <==> i == 0
  {
    if i > 0 {
      assert FIRST_SID in keys;
    }
  }

  ghost predicate RootsSoFar(roots: Roots, made: seq<Item>, nodes: seq<Node'>, r: nat, i: nat)
    requires r <= |nodes| == |made|
  {
    forall pid :: RootsAt(roots, pid) == RootItems(made, nodes, r, i, pid)
  }

  lemma RootAdded(roots: Roots, made: seq<Item>, nodes: seq<Node'>, r: nat, i: nat)
    requires r <= |nodes| == |made| && i < r && RootsSoFar(roots, made, nodes, r, i + 1)
    ensures RootsSoFar(roots[nodes[i].pid := [made[i]] + RootsAt(roots, nodes[i].pid)], made, nodes, r, i)
  {
    var more := roots[nodes[i].pid := [made[i]] + RootsAt(roots, nodes[i].pid)];
    forall pid ensures RootsAt(more, pid) == RootItems(made, nodes, r, i, pid) {
      assert RootsAt(roots, pid) == RootItems(made, nodes, r, i + 1, pid);
      assert [] + RootItems(made, nodes, r, i + 1, pid) == RootItems(made, nodes, r, i + 1, pid);
    }
  }

  lemma RootsSame(roots: Roots, made: seq<Item>, nodes: seq<Node'>, r: nat, i: nat)
    requires r <= |nodes| == |made| && r <= i && RootsSoFar(roots, made, nodes, r, i + 1)
    ensures RootsSoFar(roots, made, nodes, r, i)
  {
    forall pid ensures RootsAt(roots, pid) == RootItems(made, nodes, r, i, pid) {
      assert RootsAt(roots, pid) == RootItems(made, nodes, r, i + 1, pid);
    }
  }

  lemma NoRoots(made: seq<Item>, nodes: seq<Node'>, r: nat)
    requires r <= |nodes| == |made|
    ensures RootsSoFar(map[], made, nodes, r, |nodes|)
  {
  }

  /** The map pairs every row number with the item made for it and the row's parent number. */
  ghost predicate Paired(m: ItemMap, made: seq<Item>, nodes: seq<Node'>) {
    && |made| == |nodes| && Numbered(m, |nodes|)
    && (forall sid :: sid in m ==> FIRST_SID <= sid < FIRST_SID + |nodes|)
    && (forall sid :: sid in m ==> m[sid].pid == nodes[sid - FIRST_SID].pid && m[sid].item == made[sid - FIRST_SID])
  }

  lemma PairedAt(m: ItemMap, made: seq<Item>, nodes: seq<Node'>, j: nat)
    requires Paired(m, made, nodes) && j < |nodes|
    ensures FIRST_SID + j in m && m[FIRST_SID + j].pid == nodes[j].pid && m[FIRST_SID + j].item == made[j]
  {
  }

  /** Puts the item of row i in its place. */
  method PlaceRow(item: Item, pid: nat, itemMap: ItemMap, roots0: Roots, ghost made: seq<Item>, ghost nodes: seq<Node'>,
                  ghost r: nat, ghost i: nat, ghost s: set<Item>)
    returns (roots: Roots)
    requires Valid(Snapshot(s)) && GoodNodes(nodes) && r <= |nodes| == |made| && Listing(nodes, r, |nodes|)
    requires forall k :: 0 <= k < r ==> nodes[k].pid < ROOT_LIMIT
    requires Paired(itemMap, made, nodes) && i < |nodes| && item == made[i] && pid == nodes[i].pid
    requires Rebuilt(Snapshot(s), made, nodes, r, i + 1) && RootsSoFar(roots0, made, nodes, r, i + 1)
    modifies s
    ensures Valid(Snapshot(s)) && Rebuilt(Snapshot(s), made, nodes, r, i) && RootsSoFar(roots, made, nodes, r, i)
  {
    hide Valid, Rebuilt, Listing, GoodNodes, Paired, Attached, CanHang, RootsSoFar, RootItems;
    ghost var h := Snapshot(s);
    roots := roots0;
    if pid < ROOT_LIMIT {
      LowPidIsRoot(nodes, r, i);
      RootRow(h, made, nodes, r, i);
      RootAdded(roots, made, nodes, r, i);
      roots := roots[pid := [item] + RootsAt(roots, pid)];
    } else {
      HighPidIsChild(nodes, r, i);
      ghost var j := ParentNamed(nodes, r, i);
      PairedAt(itemMap, made, nodes, j);
      NotMovedYet(h, made, nodes, r, i, j);
      RowHangs(h, made, nodes, r, i, j);
      RootsSame(roots, made, nodes, r, i);
      if pid in itemMap {
        var container := itemMap[pid].item;
        assert h[container] == container.State();
        HangsUnderContainer(h, container, item);
        if container.kind.container {
          ShapedHang(h, container, item);
          AttachRow(h, Attached(h, container, 0, item), made, nodes, r, i, j);
          container.InternalAddThing(item, s);
        }
      }
    }
  }

  lemma HangsUnderContainer(h: Heap, c: Item, x: Item)
    requires CanHang(h, c, x)
    ensures c in h && h[c].kind.container
  {
  }

  lemma ShapedHang(h: Heap, c: Item, x: Item)
    requires Valid(h) && CanHang(h, c, x)
    ensures Shaped(h) && c in h
  {
  }

  method RebuildItems(itemMap: ItemMap, ghost made: seq<Item>, ghost nodes: seq<Node'>, ghost r: nat, ghost s: set<Item>)
    returns (roots: Roots)
    requires Valid(Snapshot(s)) && GoodNodes(nodes) && r <= |nodes| && Listing(nodes, r, |nodes|)
    requires forall k :: 0 <= k < r ==> nodes[k].pid < ROOT_LIMIT
    requires Paired(itemMap, made, nodes) && Rebuilt(Snapshot(s), made, nodes, r, |nodes|)
    modifies s
    ensures Valid(Snapshot(s)) && |made| == |nodes| && Rebuilt(Snapshot(s), made, nodes, r, 0)
    ensures RootsSoFar(roots, made, nodes, r, 0)
  {
    hide Valid, Rebuilt, Listing, GoodNodes, RootsSoFar;
    roots := map[];
    NoRoots(made, nodes, r);
    var keys := itemMap.Keys;
    ghost var i := |nodes|;
    NoKeys(keys, i);
    while keys != {}
      invariant i <= |nodes| == |made| && (keys == {} <==> i == 0)
      invariant forall sid :: sid in keys <==> FIRST_SID <= sid < FIRST_SID + i
      invariant Valid(Snapshot(s)) && Rebuilt(Snapshot(s), made, nodes, r, i) && RootsSoFar(roots, made, nodes, r, i)
      decreases i
    {
      LastKey(keys, i);
      var sid :| sid in keys && forall k :: k in keys ==> k <= sid;
      i := i - 1;
      assert sid == FIRST_SID + i;
      PairedAt(itemMap, made, nodes, i);
      keys := keys - {sid};
      NoKeys(keys, i);
      roots := PlaceRow(itemMap[sid].item, itemMap[sid].pid, itemMap, roots, made, nodes, r, i, s);
    }
  }

  /** Reads the saved rows back, in whatever order the database gives them, and hangs every item in
      front of its parent's list, from the highest row number down. The forest is the one saved. */
  method LoadPlayerItems(result: seq<Row>, ghost nodes: seq<Node'>, ghost r: nat, ghost s: set<Item>)
    returns (roots: Roots, ghost made: seq<Item>, ghost s': set<Item>)
    requires Valid(Snapshot(s)) && SavedRows(result, nodes) && GoodNodes(nodes)
    requires r <= |nodes| && Listing(nodes, r, |nodes|) && forall i :: 0 <= i < r ==> nodes[i].pid < ROOT_LIMIT
    modifies s
    ensures s <= s' && fresh(s' - s) && Valid(Snapshot(s')) && |made| == |nodes|
    ensures forall j :: 0 <= j < |nodes| ==> made[j] in s' && DataOf(Snapshot(s'), made[j]) == nodes[j].data
    ensures forall pid :: RootsAt(roots, pid) == RootItems(made, nodes, r, 0, pid)
  {
    hide Valid, MadeFrom, SavedRows, Rebuilt, Listing, GoodNodes, DataOf, RootItems;
    RowsAreGood(result, nodes);
    var itemMap;
    itemMap, s' := LoadItems(result, s);
    KeysAreNumbers(Snapshot(s'), itemMap, result, nodes);
    LooseRows(Snapshot(s'), itemMap, result, nodes);
    made := Made(itemMap, |nodes|);
    ListingEnds(nodes, r);
    StartRebuilding(Snapshot(s'), made, nodes, r);
    MapPids(Snapshot(s'), itemMap, result, nodes);
    roots := RebuildItems(itemMap, made, nodes, r, s');
    ValidIsShaped(Snapshot(s'));
    forall j | 0 <= j < |nodes| ensures made[j] in s' && DataOf(Snapshot(s'), made[j]) == nodes[j].data {
      RebuiltData(Snapshot(s'), made, nodes, r, j);
    }
  }

  lemma ValidIsShaped(h: Heap)
    requires Valid(h)
    ensures Shaped(h)
  {
  }

  lemma RowsAreGood(result: seq<Row>, nodes: seq<Node'>)
    requires SavedRows(result, nodes) && GoodNodes(nodes)
    ensures forall k :: 0 <= k < |result| ==> GoodRow(result[k])
  {
    forall k | 0 <= k < |result| ensures GoodRow(result[k]) {
      assert result[k] in RowsOf(nodes);
      var i :| 0 <= i < |nodes| && RowsOf(nodes)[i] == result[k];
      assert GoodNode(nodes[i]);
    }
  }

  lemma MapPids(h: Heap, m: ItemMap, result: seq<Row>, nodes: seq<Node'>)
    requires MadeFrom(h, m, result) && SavedRows(result, nodes) && Numbered(m, |nodes|)
    ensures forall sid :: sid in m ==> FIRST_SID <= sid < FIRST_SID + |nodes| && m[sid].pid == nodes[sid - FIRST_SID].pid
  {
    forall sid | sid in m ensures FIRST_SID <= sid < FIRST_SID + |nodes| && m[sid].pid == nodes[sid - FIRST_SID].pid {
      KeyIsNumber(h, m, result, nodes, sid);
    }
  }

  /** Row numbers never collide with the numbers of root places. */
  lemma LowPidIsRoot(nodes: seq<Node'>, r: nat, i: nat)
    requires Listing(nodes, r, |nodes|) && i < |nodes| && nodes[i].pid < ROOT_LIMIT
    ensures i < r
  {
    if i >= r {
      var j := ParentNamed(nodes, r, i);
    }
  }

  lemma HighPidIsChild(nodes: seq<Node'>, r: nat, i: nat)
    requires i < |nodes| && nodes[i].pid >= ROOT_LIMIT && r <= |nodes|
    requires forall k :: 0 <= k < r ==> nodes[k].pid < ROOT_LIMIT
    ensures r <= i
  {
  }

  lemma NotMovedYet(h: Heap, made: seq<Item>, nodes: seq<Node'>, r: nat, i: nat, j: nat)
    requires |made| == |nodes| && Rebuilt(h, made, nodes, r, i + 1) && j < i < |nodes|
    ensures made[i] in h && made[j] in h && h[made[j]].kind == nodes[j].data.kind
  {
  }

  // ---------------------------------------------------------------- the round trip

  /** What was to be saved at the root place pid, in order, from the i-th entry on. */
  ghost function WantedAt(h: Heap, itemList: seq<Block>, i: nat, pid: nat): seq<Data>
    requires Shaped(h) && forall k :: 0 <= k < |itemList| ==> itemList[k].item in h
    decreases |itemList| - i
  {
    if i >= |itemList| then []
    else (if itemList[i].pid == pid then [DataOf(h, itemList[i].item)] else []) + WantedAt(h, itemList, i + 1, pid)
  }

  ghost function DatasIn(g: Heap, items: seq<Item>): seq<Data>
    requires Shaped(g) && forall k :: 0 <= k < |items| ==> items[k] in g
  {
    if items == [] then [] else [DataOf(g, items[0])] + DatasIn(g, items[1..])
  }

  lemma {:induction false} RootsMatch(h: Heap, g: Heap, itemList: seq<Block>, made: seq<Item>, nodes: seq<Node'>, i: nat, pid: nat)
    requires Shaped(h) && Shaped(g) && |itemList| <= |nodes| == |made|
    requires forall k :: 0 <= k < |itemList| ==>
      itemList[k].item in h && nodes[k] == Node'(itemList[k].pid, DataOf(h, itemList[k].item))
    requires forall j :: 0 <= j < |nodes| ==> made[j] in g && DataOf(g, made[j]) == nodes[j].data
    ensures forall x :: x in RootItems(made, nodes, |itemList|, i, pid) ==> x in g
    ensures DatasIn(g, RootItems(made, nodes, |itemList|, i, pid)) == WantedAt(h, itemList, i, pid)
    decreases |itemList| - i
  {
    hide DataOf, Shaped;
    if i < |itemList| {
      RootsMatch(h, g, itemList, made, nodes, i + 1, pid);
      var rest := RootItems(made, nodes, |itemList|, i + 1, pid);
      assert [] + rest == rest && ([made[i]] + rest)[1..] == rest;
      assert [] + WantedAt(h, itemList, i + 1, pid) == WantedAt(h, itemList, i + 1, pid);
    }
  }

  /** The rows as the database returns them: by descending number. */
  function Descending(rows: seq<Row>): (t: seq<Row>)
    ensures |t| == |rows| && forall i :: 0 <= i < |rows| ==> t[i] == rows[|rows| - 1 - i]
  {
    if rows == [] then [] else Descending(rows[1..]) + [rows[0]]
  }

  lemma DescendingIsSaved(nodes: seq<Node'>)
    ensures SavedRows(Descending(RowsOf(nodes)), nodes)
  {
    var rows := RowsOf(nodes);
    var t := Descending(rows);
    forall k | 0 <= k < |t| ensures t[k] in rows {
      assert t[k] == rows[|rows| - 1 - k];
    }
    forall i | 0 <= i < |nodes| ensures RowOf(nodes[i], i) in t {
      assert t[|rows| - 1 - i] == rows[i];
    }
  }

  /** Saving and loading again gives back, at every root place, the same trees in the same order. */
  method SaveThenLoad(itemList: seq<Block>, ghost s: set<Item>) returns (roots: Roots, ghost s': set<Item>)
    requires Valid(Snapshot(s)) && forall i :: 0 <= i < |itemList| ==> itemList[i].item in s && itemList[i].pid < ROOT_LIMIT
    modifies s
    ensures s <= s' && fresh(s' - s) && Valid(Snapshot(s'))
    ensures Shaped(old(Snapshot(s))) && Shaped(Snapshot(s'))
    ensures forall pid ::
      && (forall k :: 0 <= k < |RootsAt(roots, pid)| ==> RootsAt(roots, pid)[k] in s')
      && DatasIn(Snapshot(s'), RootsAt(roots, pid)) == WantedAt(old(Snapshot(s)), itemList, 0, pid)
  {
    hide Valid, Shaped, Listing, DataOf, RootItems, WantedAt, DatasIn, SavedRows, GoodNodes, RowsOf;
    ghost var h := Snapshot(s);
    ValidIsShaped(h);
    var rows := SaveItems(itemList, s);
    ghost var nodes :| rows == RowsOf(nodes) && NodesOf(h, itemList, nodes);
    ghost var made;
    DescendingIsSaved(nodes);
    roots, made, s' := LoadPlayerItems(Descending(rows), nodes, |itemList|, s);
    ghost var g := Snapshot(s');
    ValidIsShaped(g);
    forall pid
      ensures (forall k :: 0 <= k < |RootsAt(roots, pid)| ==> RootsAt(roots, pid)[k] in s')
        && DatasIn(g, RootsAt(roots, pid)) == WantedAt(h, itemList, 0, pid)
    {
      RootsMatch(h, g, itemList, made, nodes, 0, pid);
    }
  }
}
