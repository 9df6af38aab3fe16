/** The cell matrices of area attacks: building them, turning them, and laying them on the map. */
module CombatArea {

  /** Cells row by row, and the column and row of the centre. */
  datatype Area = Area(cells: seq<bool>, rows: nat, cols: nat, centerX: nat, centerY: nat)

  predicate Valid(a: Area) {
    |a.cells| == a.rows * a.cols
  }

  predicate Centered(a: Area) {
    Valid(a) && a.centerX < a.cols && a.centerY < a.rows
  }

  // ---------------------------------------------------------------- flat indices

  lemma Product(a: nat, b: nat, c: nat)
    requires a <= b
    ensures a * c <= b * c
  {
  }

  /** The index of a cell is in range, and gives its row and column back. */
  lemma CellIndex(rows: nat, cols: nat, r: nat, c: nat)
    requires r < rows && c < cols
    ensures r * cols + c < rows * cols
    ensures (r * cols + c) / cols == r && (r * cols + c) % cols == c
  {
    Product(r + 1, rows, cols);
    assert (r + 1) * cols == r * cols + cols;
    Divides(r * cols + c, cols, r, c);
  }

  lemma Divides(i: nat, n: nat, q: nat, m: nat)
    requires m < n && i == q * n + m
    ensures i / n == q && i % n == m
  {
    var d, e := i / n, i % n;
    assert i == d * n + e;
    assert (d + 1) * n == d * n + n && (q + 1) * n == q * n + n;
    if d < q {
      Product(d + 1, q, n);
    } else if d > q {
      Product(q + 1, d, n);
    }
  }

  lemma IndexCell(rows: nat, cols: nat, i: nat)
    requires i < rows * cols
    ensures cols > 0 && i / cols < rows && i % cols < cols && (i / cols) * cols + i % cols == i
  {
    if i / cols >= rows {
      Product(rows, i / cols, cols);
    }
  }

  predicate InArea(a: Area, r: int, c: int) {
    0 <= r < a.rows && 0 <= c < a.cols
  }

  function At(a: Area, r: nat, c: nat): bool
    requires Valid(a) && InArea(a, r, c)
  {
    CellIndex(a.rows, a.cols, r, c);
    a.cells[r * a.cols + c]
  }

  /** Areas with the same cells are the same. */
  lemma SameArea(a: Area, b: Area)
    requires Valid(a) && Valid(b) && a.rows == b.rows && a.cols == b.cols && a.centerX == b.centerX && a.centerY == b.centerY
    requires forall r, c :: InArea(a, r, c) ==> At(a, r, c) == At(b, r, c)
    ensures a == b
  {
    forall i | 0 <= i < |a.cells| ensures a.cells[i] == b.cells[i] {
      IndexCell(a.rows, a.cols, i);
      assert InArea(a, i / a.cols, i % a.cols);
      assert At(a, i / a.cols, i % a.cols) == At(b, i / a.cols, i % a.cols);
    }
  }

  // ---------------------------------------------------------------- turning

  /** A cell, or false outside. */
  function Covers(a: Area, r: int, c: int): bool {
    Valid(a) && InArea(a, r, c) && At(a, r, c)
  }

  function Target90(a: Area, j: nat): bool
    requires a.rows > 0
  {
    Covers(a, a.rows - 1 - j % a.rows, j / a.rows)
  }

  function Target270(a: Area, j: nat): bool
    requires a.rows > 0
  {
    Covers(a, j % a.rows, a.cols - 1 - j / a.rows)
  }

  /** A quarter turn clockwise: rows become columns, the first row the last column. */
  function Rotated90(a: Area): Area
    requires Centered(a)
  {
    Area(seq(a.cols * a.rows, j requires 0 <= j < a.cols * a.rows => Target90(a, j)), a.cols, a.rows,
         a.rows - 1 - a.centerY, a.centerX)
  }

  /** The cells in reverse. */
  function Rotated180(a: Area): Area
    requires Centered(a)
  {
    Area(seq(|a.cells|, j requires 0 <= j < |a.cells| => a.cells[|a.cells| - 1 - j]), a.rows, a.cols,
         a.cols - 1 - a.centerX, a.rows - 1 - a.centerY)
  }

  function Rotated270(a: Area): Area
    requires Centered(a)
  {
    Area(seq(a.cols * a.rows, j requires 0 <= j < a.cols * a.rows => Target270(a, j)), a.cols, a.rows,
         a.centerY, a.cols - 1 - a.centerX)
  }

  lemma Cell90(a: Area, r: nat, c: nat)
    requires Centered(a) && r < a.cols && c < a.rows
    ensures Centered(Rotated90(a)) && At(Rotated90(a), r, c) == At(a, a.rows - 1 - c, r)
  {
    hide At;
    CellIndex(a.cols, a.rows, r, c);
    AtIs(Rotated90(a), r, c);
  }

  lemma AtIs(a: Area, r: nat, c: nat)
    requires Valid(a) && InArea(a, r, c)
    ensures r * a.cols + c < |a.cells| && At(a, r, c) == a.cells[r * a.cols + c]
  {
    CellIndex(a.rows, a.cols, r, c);
  }

  /** The last index minus the index of a cell is the index of the opposite cell. */
  lemma OppositeIndex(rows: nat, cols: nat, r: nat, c: nat)
    requires r < rows && c < cols
    ensures (rows - 1 - r) * cols + (cols - 1 - c) == rows * cols - 1 - (r * cols + c)
  {
    assert (rows - 1 - r) * cols == rows * cols - cols - r * cols;
  }

  lemma Cell180(a: Area, r: nat, c: nat)
    requires Centered(a) && r < a.rows && c < a.cols
    ensures Centered(Rotated180(a)) && At(Rotated180(a), r, c) == At(a, a.rows - 1 - r, a.cols - 1 - c)
  {
    hide At;
    AtIs(Rotated180(a), r, c);
    AtIs(a, a.rows - 1 - r, a.cols - 1 - c);
    OppositeIndex(a.rows, a.cols, r, c);
  }

  lemma Cell270(a: Area, r: nat, c: nat)
    requires Centered(a) && r < a.cols && c < a.rows
    ensures Centered(Rotated270(a)) && At(Rotated270(a), r, c) == At(a, c, a.cols - 1 - r)
  {
    hide At;
    CellIndex(a.cols, a.rows, r, c);
    AtIs(Rotated270(a), r, c);
  }

  lemma TurnsCentered(a: Area)
    requires Centered(a)
    ensures Centered(Rotated90(a)) && Centered(Rotated180(a)) && Centered(Rotated270(a))
  {
    Commutes(a.rows, a.cols);
  }

  lemma Commutes(x: nat, y: nat)
    ensures x * y == y * x
  {
  }

  /** Two quarter turns are a half turn. */
  lemma TwoQuartersAreHalf(a: Area)
    requires Centered(a)
    ensures Centered(Rotated90(a)) && Rotated90(Rotated90(a)) == Rotated180(a)
  {
    hide Rotated90, Rotated180, At;
    TurnsCentered(a);
    var b := Rotated90(a);
    TurnsCentered(b);
    ShapeOfTurns(a);
    ShapeOfTurns(b);
    forall r, c | InArea(Rotated180(a), r, c) ensures At(Rotated90(b), r, c) == At(Rotated180(a), r, c) {
      Cell90(b, r, c);
      Cell90(a, b.rows - 1 - c, r);
      Cell180(a, r, c);
    }
    SameArea(Rotated90(b), Rotated180(a));
  }

  /** The sizes and centres after a turn. */
  lemma ShapeOfTurns(a: Area)
    requires Centered(a)
    ensures var b := Rotated90(a); b.rows == a.cols && b.cols == a.rows && b.centerX == a.rows - 1 - a.centerY && b.centerY == a.centerX
    ensures var b := Rotated180(a); b.rows == a.rows && b.cols == a.cols && b.centerX == a.cols - 1 - a.centerX && b.centerY == a.rows - 1 - a.centerY
    ensures var b := Rotated270(a); b.rows == a.cols && b.cols == a.rows && b.centerX == a.centerY && b.centerY == a.cols - 1 - a.centerX
  {
  }

  /** Three quarters undo one. */
  lemma ThreeQuartersUndo(a: Area)
    requires Centered(a)
    ensures Centered(Rotated90(a)) && Rotated270(Rotated90(a)) == a
  {
    hide Rotated90, Rotated270, At;
    TurnsCentered(a);
    var b := Rotated90(a);
    TurnsCentered(b);
    ShapeOfTurns(a);
    ShapeOfTurns(b);
    forall r, c | InArea(a, r, c) ensures At(Rotated270(b), r, c) == At(a, r, c) {
      Cell270(b, r, c);
      Cell90(a, c, b.cols - 1 - r);
    }
    SameArea(Rotated270(b), a);
  }

  /** A cell's offset from the centre. */
  predicate Hits(a: Area, dx: int, dy: int) {
    Covers(a, a.centerY + dy, a.centerX + dx)
  }

  /** A quarter turn turns every offset from the centre, and the centre with its cell. */
  lemma OffsetsTurn(a: Area, dx: int, dy: int)
    requires Centered(a)
    ensures Hits(Rotated90(a), -dy, dx) == Hits(a, dx, dy)
    ensures Hits(Rotated180(a), -dx, -dy) == Hits(a, dx, dy)
    ensures Hits(Rotated270(a), dy, -dx) == Hits(a, dx, dy)
  {
    hide Rotated90, Rotated180, Rotated270, At;
    TurnsCentered(a);
    ShapeOfTurns(a);
    var r, c := a.centerY + dy, a.centerX + dx;
    if InArea(a, r, c) {
      Cell90(a, c, a.rows - 1 - r);
      Cell180(a, a.rows - 1 - r, a.cols - 1 - c);
      Cell270(a, a.cols - 1 - c, r);
    }
  }

  // ---------------------------------------------------------------- the turning loops

  /** The place of a cell in a matrix n cells wide. */
  function Flat(r: nat, n: nat, c: nat): nat {
    r * n + c
  }

  /** The places filled after i columns and k cells of the next one, in a matrix n cells wide. */
  predicate Before(j: nat, n: nat, i: nat, k: nat)
    requires n > 0
  {
    j % n < i || (j % n == i && j / n < k)
  }

  lemma BeforeNext(j: nat, n: nat, i: nat, k: nat)
    requires i < n
    ensures Before(j, n, i, k + 1) <==> (Before(j, n, i, k) || j == Flat(k, n, i))
  {
    if j == k * n + i {
      Divides(j, n, k, i);
    }
  }

  lemma BeforeColumn(j: nat, n: nat, m: nat, i: nat)
    requires i < n && j < m * n
    ensures Before(j, n, i, m) <==> Before(j, n, i + 1, 0)
  {
    IndexCell(m, n, j);
  }

  lemma Target90Is(a: Area, i: nat, k: nat)
    requires Centered(a) && i < a.rows && k < a.cols
    ensures Flat(k, a.rows, i) < a.cols * a.rows && Flat(a.rows - i - 1, a.cols, k) < |a.cells|
    ensures Target90(a, Flat(k, a.rows, i)) == a.cells[Flat(a.rows - i - 1, a.cols, k)]
  {
    hide At;
    CellIndex(a.cols, a.rows, k, i);
    AtIs(a, a.rows - 1 - i, k);
  }

  /** Fills the new matrix column by column, from right to left of the old rows. */
  method Rotate90(a: Area) returns (b: Area)
    requires Centered(a)
    ensures b == Rotated90(a)
  {
    hide Target90, Before;
    var newArr := new bool[a.cols * a.rows];
    var i := 0;
    NothingBefore(a.rows);
    while i < a.rows
      invariant 0 <= i <= a.rows
      invariant forall j :: 0 <= j < newArr.Length && Before(j, a.rows, i, 0) ==> newArr[j] == Target90(a, j)
    {
      FillColumn(a, i, newArr);
      i := i + 1;
    }
    AllBefore(a.rows);
    b := Area(newArr[..], a.cols, a.rows, a.rows - 1 - a.centerY, a.centerX);
  }

  lemma NothingBefore(n: nat)
    requires n > 0
    ensures forall j: nat {:trigger Before(j, n, 0, 0)} :: !Before(j, n, 0, 0)
  {
  }

  lemma AllBefore(n: nat)
    requires n > 0
    ensures forall j: nat {:trigger Before(j, n, n, 0)} :: Before(j, n, n, 0)
  {
  }

  method FillColumn(a: Area, i: nat, newArr: array<bool>)
    requires Centered(a) && i < a.rows && newArr.Length == a.cols * a.rows
    requires forall j :: 0 <= j < newArr.Length && Before(j, a.rows, i, 0) ==> newArr[j] == Target90(a, j)
    modifies newArr
    ensures forall j :: 0 <= j < newArr.Length && Before(j, a.rows, i + 1, 0) ==> newArr[j] == Target90(a, j)
  {
    hide Target90, Before, Flat;
    var k := 0;
    while k < a.cols
      invariant 0 <= k <= a.cols
      invariant forall j :: 0 <= j < newArr.Length && Before(j, a.rows, i, k) ==> newArr[j] == Target90(a, j)
    {
      Target90Is(a, i, k);
      forall j: nat ensures Before(j, a.rows, i, k + 1) <==> (Before(j, a.rows, i, k) || j == Flat(k, a.rows, i)) {
        BeforeNext(j, a.rows, i, k);
      }
      newArr[Flat(k, a.rows, i)] := a.cells[Flat(a.rows - i - 1, a.cols, k)];
      k := k + 1;
    }
    forall j | 0 <= j < newArr.Length ensures Before(j, a.rows, i, a.cols) <==> Before(j, a.rows, i + 1, 0) {
      BeforeColumn(j, a.rows, a.cols, i);
    }
  }

  lemma Target270Is(a: Area, i: nat, k: nat)
    requires Centered(a) && i < a.cols && k < a.rows
    ensures Flat(i, a.rows, k) < a.cols * a.rows && Flat(k, a.cols, a.cols - i - 1) < |a.cells|
    ensures Target270(a, Flat(i, a.rows, k)) == a.cells[Flat(k, a.cols, a.cols - i - 1)]
  {
    hide At;
    CellIndex(a.cols, a.rows, i, k);
    AtIs(a, k, a.cols - 1 - i);
  }

  /** Fills the new matrix row by row, from the old columns right to left. */
  method Rotate270(a: Area) returns (b: Area)
    requires Centered(a)
    ensures b == Rotated270(a)
  {
    hide Target270;
    var newArr := new bool[a.cols * a.rows];
    var i := 0;
    while i < a.cols
      invariant 0 <= i <= a.cols
      invariant forall j :: 0 <= j < newArr.Length && j < i * a.rows ==> newArr[j] == Target270(a, j)
    {
      FillRow(a, i, newArr);
      assert (i + 1) * a.rows == i * a.rows + a.rows;
      i := i + 1;
    }
    b := Area(newArr[..], a.cols, a.rows, a.centerY, a.cols - 1 - a.centerX);
  }

  method FillRow(a: Area, i: nat, newArr: array<bool>)
    requires Centered(a) && i < a.cols && newArr.Length == a.cols * a.rows
    requires forall j :: 0 <= j < newArr.Length && j < i * a.rows ==> newArr[j] == Target270(a, j)
    modifies newArr
    ensures forall j :: 0 <= j < newArr.Length && j < i * a.rows + a.rows ==> newArr[j] == Target270(a, j)
  {
    hide Target270;
    var k := 0;
    while k < a.rows
      invariant 0 <= k <= a.rows
      invariant forall j :: 0 <= j < newArr.Length && j < i * a.rows + k ==> newArr[j] == Target270(a, j)
    {
      Target270Is(a, i, k);
      newArr[Flat(i, a.rows, k)] := a.cells[Flat(k, a.cols, a.cols - i - 1)];
      k := k + 1;
    }
  }

  method Rotate180(a: Area) returns (b: Area)
    requires Centered(a)
    ensures b == Rotated180(a)
  {
    var n := |a.cells|;
    var newArr := new bool[n];
    var j := 0;
    while j < n
      invariant 0 <= j <= n
      invariant forall i :: 0 <= i < j ==> newArr[i] == a.cells[n - 1 - i]
    {
      newArr[j] := a.cells[n - 1 - j];
      j := j + 1;
    }
    b := Area(newArr[..], a.rows, a.cols, a.cols - 1 - a.centerX, a.rows - 1 - a.centerY);
  }

  // ---------------------------------------------------------------- building

  /** Values 1 and 3 mark cells, 2 and 3 the centre. */
  predicate MarksCell(v: nat) {
    v == 1 || v == 3
  }

  predicate MarksCenter(v: nat) {
    v == 2 || v == 3
  }

  /** The last of the first n values that marks the centre, or 0. */
  function LastMark(vec: seq<nat>, n: nat): (j: nat)
    requires n <= |vec|
    ensures j < |vec| || j == 0
  {
    if n == 0 then 0 else if MarksCenter(vec[n - 1]) then n - 1 else LastMark(vec, n - 1)
  }

  /** Whether the table fills the rows exactly. */
  predicate Rectangular(vec: seq<nat>, rows: nat) {
    |vec| == rows * Columns(vec, rows)
  }

  function Columns(vec: seq<nat>, rows: nat): nat {
    if rows == 0 then 0 else |vec| / rows
  }

  function Created(vec: seq<nat>, rows: nat): Area
    requires vec != [] && Rectangular(vec, rows)
  {
    ColumnsPositive(vec, rows);
    Laid(vec, rows, Columns(vec, rows))
  }

  function Laid(vec: seq<nat>, rows: nat, cols: nat): Area
    requires cols > 0
  {
    var j := LastMark(vec, |vec|);
    Area(seq(|vec|, i requires 0 <= i < |vec| => MarksCell(vec[i])), rows, cols, j % cols, j / cols)
  }

  lemma ColumnsPositive(vec: seq<nat>, rows: nat)
    requires vec != [] && Rectangular(vec, rows)
    ensures rows > 0 && Columns(vec, rows) > 0
  {
  }

  /** Covered are the cells marked 1 or 3, row by row; the centre is the last cell marked 2 or 3. */
  lemma CreatedLaw(vec: seq<nat>, rows: nat)
    requires vec != [] && Rectangular(vec, rows)
    ensures var a := Created(vec, rows);
      && a.rows == rows && a.rows * a.cols == |vec| == |a.cells|
      && (forall j :: 0 <= j < |vec| ==> (a.cells[j] <==> vec[j] == 1 || vec[j] == 3))
      && forall j :: 0 <= j < |vec| && (vec[j] == 2 || vec[j] == 3) && (forall k :: j < k < |vec| ==> vec[k] != 2 && vec[k] != 3) ==>
           a.centerY * a.cols + a.centerX == j && a.centerX < a.cols
  {
    ColumnsPositive(vec, rows);
    var a := Created(vec, rows);
    CreatedCentered(vec, rows);
    forall j | 0 <= j < |vec| && (vec[j] == 2 || vec[j] == 3) && (forall k :: j < k < |vec| ==> vec[k] != 2 && vec[k] != 3)
      ensures a.centerY * a.cols + a.centerX == j && a.centerX < a.cols
    {
      LastMarkIs(vec, |vec|, j);
      IndexCell(rows, a.cols, j);
    }
  }

  lemma {:induction false} LastMarkIs(vec: seq<nat>, n: nat, j: nat)
    requires j < n <= |vec| && (vec[j] == 2 || vec[j] == 3) && forall k :: j < k < n ==> vec[k] != 2 && vec[k] != 3
    ensures LastMark(vec, n) == j
    decreases n
  {
    if j < n - 1 {
      LastMarkIs(vec, n - 1, j);
    }
  }

  lemma CreatedCentered(vec: seq<nat>, rows: nat)
    requires vec != [] && Rectangular(vec, rows)
    ensures Centered(Created(vec, rows))
  {
    ColumnsPositive(vec, rows);
    IndexCell(rows, Columns(vec, rows), LastMark(vec, |vec|));
  }

  /** Reads a table of values row by row. */
  method CreateArea(vec: seq<nat>, rows: nat) returns (a: Area)
    requires vec != [] && Rectangular(vec, rows)
    ensures a == Created(vec, rows)
  {
    ColumnsPositive(vec, rows);
    var cols := |vec| / rows;
    var cells := new bool[rows * cols](i => false);
    var centerX, centerY := 0, 0;
    var x, y, n := 0, 0, 0;
    StartOfTable(cols);
    while n < |vec|
      invariant 0 <= n <= |vec| && x < cols && n == Flat(y, cols, x)
      invariant forall j :: 0 <= j < |vec| ==> cells[j] == (j < n && MarksCell(vec[j]))
      invariant centerX == LastMark(vec, n) % cols && centerY == LastMark(vec, n) / cols
    {
      hide Flat;
      FlatParts(y, cols, x);
      var value := vec[n];
      if value == 1 || value == 3 {
        cells[n] := true;
      }
      if value == 2 || value == 3 {
        centerX, centerY := x, y;
      }
      FlatNext(y, cols, x);
      x := x + 1;
      if cols == x {
        x := 0;
        y := y + 1;
      }
      n := n + 1;
    }
    a := Area(cells[..], rows, cols, centerX, centerY);
  }

  lemma StartOfTable(cols: nat)
    requires cols > 0
    ensures Flat(0, cols, 0) == 0 && 0 % cols == 0 && 0 / cols == 0
  {
    Divides(0, cols, 0, 0);
  }

  lemma FlatParts(r: nat, n: nat, c: nat)
    requires c < n
    ensures Flat(r, n, c) / n == r && Flat(r, n, c) % n == c
  {
    Divides(Flat(r, n, c), n, r, c);
  }

  lemma FlatNext(r: nat, n: nat, c: nat)
    requires c < n
    ensures Flat(r, n, c + 1) == Flat(r, n, c) + 1 && (c + 1 == n ==> Flat(r + 1, n, 0) == Flat(r, n, c) + 1)
  {
    assert (r + 1) * n == r * n + n;
  }

  // ---------------------------------------------------------------- waves and cones

  function Reach(length: nat, spread: nat): nat {
    if spread == 0 then 0 else length / spread
  }

  /** The value of the cell in row r and column c, counted from 0, of a cone. */
  function ConeValue(length: nat, spread: nat, r: nat, c: nat): nat {
    var h := Reach(length, spread);
    if r + 1 == length && c == h then 3
    else if Within(c, h, h - Reach(r, spread)) then 1 else 0
  }

  predicate Within(c: int, h: int, d: int) {
    h - d <= c <= h + d
  }

  lemma ReachStep(y: nat, spread: nat)
    requires y > 0
    ensures Reach(y, spread) == Reach(y - 1, spread) + if spread > 0 && y % spread == 0 then 1 else 0
  {
    if spread > 0 {
      var q, m := y / spread, y % spread;
      assert y == q * spread + m;
      if m == 0 {
        assert q > 0 && q * spread == (q - 1) * spread + spread;
        Divides(y - 1, spread, q - 1, spread - 1);
      } else {
        Divides(y - 1, spread, q, m - 1);
      }
    }
  }

  lemma ReachMonotone(r: nat, length: nat, spread: nat)
    requires r <= length
    ensures Reach(r, spread) <= Reach(length, spread)
    decreases length
  {
    if r < length {
      ReachStep(length, spread);
      ReachMonotone(r, length - 1, spread);
    }
  }

  lemma WholeRows(length: nat, spread: nat)
    requires spread > 0
    ensures (length - length % spread) / spread == length / spread
  {
    var q := length / spread;
    assert length - length % spread == q * spread;
    Divides(q * spread, spread, q, 0);
  }

  /** The table is filled as far as the n-th value. */
  ghost predicate Filled(vec: seq<nat>, length: nat, spread: nat) {
    hide Reach, ConeValue;
    var cols := 2 * Reach(length, spread) + 1;
    forall j :: 0 <= j < |vec| ==> vec[j] == ConeValue(length, spread, j / cols, j % cols)
  }

  /** The table of a wave that widens by one cell on each side every spread rows, seen from its end. */
  method ConeTable(length: nat, spread: nat) returns (vec: seq<nat>, rows: nat)
    requires length > 0
    ensures rows == length && |vec| == rows * (2 * Reach(length, spread) + 1) && Filled(vec, length, spread)
  {
    hide ConeValue, Reach, Filled, Flat;
    rows := length;
    var cols := ConeWidth(length, spread);
    var colSpread: int := cols;
    vec := [];
    var y := 1;
    ReachZero(spread);
    NothingFilled(length, spread);
    while y <= rows
      invariant 1 <= y <= rows + 1 && |vec| == Flat(y - 1, cols, 0) && Filled(vec, length, spread)
      invariant colSpread == cols - Reach(y - 1, spread)
    {
      vec := ConeRow(vec, length, spread, y, cols, colSpread);
      ReachStep(y, spread);
      if spread > 0 && y % spread == 0 {
        colSpread := colSpread - 1;
      }
      y := y + 1;
    }
    WholeTable(rows, cols);
  }

  lemma WholeTable(rows: nat, cols: nat)
    ensures Flat(rows, cols, 0) == rows * cols && Flat(0, cols, 0) == 0
  {
  }

  lemma NothingFilled(length: nat, spread: nat)
    ensures Filled([], length, spread) && Flat(0, 2 * Reach(length, spread) + 1, 0) == 0
  {
  }

  method ConeWidth(length: nat, spread: nat) returns (cols: nat)
    ensures cols == 2 * Reach(length, spread) + 1
  {
    cols := 1;
    if spread != 0 {
      WholeRows(length, spread);
      cols := ((length - (length % spread)) / spread) * 2 + 1;
    }
  }

  lemma ReachZero(spread: nat)
    ensures Reach(0, spread) == 0
  {
    if spread > 0 {
      Divides(0, spread, 0, 0);
    }
  }

  method ConeRow(vec0: seq<nat>, length: nat, spread: nat, y: nat, cols: nat, colSpread: int) returns (vec: seq<nat>)
    requires 1 <= y <= length && cols == 2 * Reach(length, spread) + 1 && colSpread == cols - Reach(y - 1, spread)
    requires |vec0| == Flat(y - 1, cols, 0) && Filled(vec0, length, spread)
    ensures |vec| == Flat(y, cols, 0) && Filled(vec, length, spread)
  {
    hide Reach, Filled;
    vec := vec0;
    var mincol := cols - colSpread + 1;
    var maxcol := cols - (cols - colSpread);
    var x := 1;
    while x <= cols
      invariant 1 <= x <= cols + 1 && |vec| == Flat(y - 1, cols, x - 1) && Filled(vec, length, spread)
    {
      hide Flat;
      var v := if y == length && x == ((cols - (cols % 2)) / 2) + 1 then 3 else if mincol <= x <= maxcol then 1 else 0;
      ConeValueIs(length, spread, y, x, v);
      FilledMore(vec, length, spread, y - 1, x - 1, v);
      FlatNext(y - 1, cols, x - 1);
      vec := vec + [v];
      x := x + 1;
    }
    RowEnds(y, cols);
  }

  lemma RowEnds(y: nat, cols: nat)
    requires y > 0
    ensures Flat(y - 1, cols, cols) == Flat(y, cols, 0)
  {
    assert y * cols == (y - 1) * cols + cols;
  }

  lemma ConeValueIs(length: nat, spread: nat, y: nat, x: nat, v: nat)
    requires 1 <= y <= length && 1 <= x <= 2 * Reach(length, spread) + 1
    requires var cols := 2 * Reach(length, spread) + 1; var colSpread := cols - Reach(y - 1, spread);
      v == if y == length && x == ((cols - (cols % 2)) / 2) + 1 then 3
           else if cols - colSpread + 1 <= x <= cols - (cols - colSpread) then 1 else 0
    ensures v == ConeValue(length, spread, y - 1, x - 1)
  {
    hide Reach;
  }

  lemma FilledMore(vec: seq<nat>, length: nat, spread: nat, r: nat, c: nat, v: nat)
    requires var cols := 2 * Reach(length, spread) + 1; c < cols && |vec| == Flat(r, cols, c)
    requires Filled(vec, length, spread) && v == ConeValue(length, spread, r, c)
    ensures Filled(vec + [v], length, spread)
  {
    hide Reach, ConeValue, Flat;
    FlatParts(r, 2 * Reach(length, spread) + 1, c);
  }

  /** The cone is as wide as the reach allows at its far end, has its centre in the middle of the
      last row, and row r covers exactly the cells within length/spread - r/spread of the middle. */
  lemma ConeShape(length: nat, spread: nat, vec: seq<nat>)
    requires length > 0 && |vec| == length * (2 * Reach(length, spread) + 1) && Filled(vec, length, spread)
    ensures vec != [] && Rectangular(vec, length) && Columns(vec, length) == 2 * Reach(length, spread) + 1
    ensures var a := Created(vec, length);
      && a.rows == length && a.cols == 2 * Reach(length, spread) + 1
      && a.centerY == length - 1 && a.centerX == Reach(length, spread)
    ensures var a := Created(vec, length); var h := Reach(length, spread);
      forall r: nat, c: nat {:trigger Covers(a, r, c)} :: r < length && c <= 2 * h ==>
        (Covers(a, r, c) <==> h - (h - Reach(r, spread)) <= c <= h + (h - Reach(r, spread)))
  {
    hide Reach, ConeValue, Filled;
    var h := Reach(length, spread);
    var cols := 2 * h + 1;
    TableIsRectangular(vec, length, cols);
    CreatedCentered(vec, length);
    var a := Created(vec, length);
    ConeCenter(length, spread, vec);
    forall r: nat, c: nat | r < length && c <= 2 * h
      ensures Covers(a, r, c) <==> h - (h - Reach(r, spread)) <= c <= h + (h - Reach(r, spread))
    {
      AtIs(a, r, c);
      ConeAt(length, spread, vec, r, c);
      ReachMonotone(r, length, spread);
      ConeCovers(length, spread, r, c);
    }
  }

  lemma ConeCovers(length: nat, spread: nat, r: nat, c: nat)
    requires r < length && Reach(r, spread) <= Reach(length, spread)
    ensures MarksCell(ConeValue(length, spread, r, c)) <==> Within(c, Reach(length, spread), Reach(length, spread) - Reach(r, spread))
    ensures MarksCenter(ConeValue(length, spread, r, c)) <==> r + 1 == length && c == Reach(length, spread)
  {
    hide Reach;
  }

  lemma ConeAt(length: nat, spread: nat, vec: seq<nat>, r: nat, c: nat)
    requires r < length && c < 2 * Reach(length, spread) + 1
    requires |vec| == length * (2 * Reach(length, spread) + 1) && Filled(vec, length, spread)
    ensures var cols := 2 * Reach(length, spread) + 1;
      Flat(r, cols, c) < |vec| && vec[Flat(r, cols, c)] == ConeValue(length, spread, r, c)
  {
    hide Reach, ConeValue;
    CellIndex(length, 2 * Reach(length, spread) + 1, r, c);
  }

  lemma TableIsRectangular(vec: seq<nat>, rows: nat, cols: nat)
    requires rows > 0 && cols > 0 && |vec| == rows * cols
    ensures vec != [] && Rectangular(vec, rows) && Columns(vec, rows) == cols
  {
    Product(1, rows, cols);
    Commutes(rows, cols);
    Divides(|vec|, rows, cols, 0);
  }

  lemma {:induction false} OnlyMark(vec: seq<nat>, n: nat, m: nat)
    requires m < n <= |vec| && MarksCenter(vec[m]) && forall j :: m < j < n ==> !MarksCenter(vec[j])
    ensures LastMark(vec, n) == m
    decreases n
  {
    if n > m + 1 {
      OnlyMark(vec, n - 1, m);
    }
  }

  lemma ConeCenter(length: nat, spread: nat, vec: seq<nat>)
    requires length > 0 && |vec| == length * (2 * Reach(length, spread) + 1) && Filled(vec, length, spread)
    requires vec != [] && Rectangular(vec, length) && Columns(vec, length) == 2 * Reach(length, spread) + 1
    ensures Created(vec, length).centerY == length - 1 && Created(vec, length).centerX == Reach(length, spread)
  {
    hide Reach, ConeValue, Flat;
    var h := Reach(length, spread);
    var cols := 2 * h + 1;
    var m := Flat(length - 1, cols, h);
    ConeAt(length, spread, vec, length - 1, h);
    ReachMonotone(length - 1, length, spread);
    ConeCovers(length, spread, length - 1, h);
    FlatParts(length - 1, cols, h);
    forall j | m < j < |vec| ensures !MarksCenter(vec[j]) {
      IndexCell(length, cols, j);
      ReachMonotone(j / cols, length, spread);
      ConeCovers(length, spread, j / cols, j % cols);
      NotTheSame(j, m, cols);
    }
    OnlyMark(vec, |vec|, m);
  }

  lemma NotTheSame(i: nat, j: nat, n: nat)
    requires n > 0 && i != j
    ensures i / n != j / n || i % n != j % n
  {
  }

  // ---------------------------------------------------------------- the four directions

  datatype Direction = NORTH | EAST | SOUTH | WEST

  function Clockwise(d: Direction): Direction {
    match d
    case NORTH => EAST
    case EAST => SOUTH
    case SOUTH => WEST
    case WEST => NORTH
  }

  /** The area for a caster facing d, made from the one for north. */
  function AreaFor(north: Area, d: Direction): Area
    requires Centered(north)
  {
    match d
    case NORTH => north
    case EAST => Rotated90(north)
    case SOUTH => Rotated180(north)
    case WEST => Rotated270(north)
  }

  /** Where an offset from the centre goes when the caster turns from north to d. */
  function OffsetFor(d: Direction, dx: int, dy: int): (int, int) {
    match d
    case NORTH => (dx, dy)
    case EAST => (-dy, dx)
    case SOUTH => (-dx, -dy)
    case WEST => (dy, -dx)
  }

  class AreaCombat {
    var areas: map<Direction, Area>

    constructor ()
      ensures areas == map[]
    {
      areas := map[];
    }

    /** The table shows the area for a caster facing north; the others are turned. */
    method SetupArea(vec: seq<nat>, rows: nat)
      requires vec != [] && Rectangular(vec, rows)
      modifies this
      ensures Centered(Created(vec, rows))
      ensures areas.Keys == {NORTH, EAST, SOUTH, WEST} && areas[NORTH] == Created(vec, rows)
      ensures forall d :: d in areas && areas[d] == AreaFor(areas[NORTH], d)
    {
      hide Rotated90, Rotated180, Rotated270, Created, Rectangular, Centered;
      CreatedCentered(vec, rows);
      var area := CreateArea(vec, rows);
      var east := Rotate90(area);
      var south := Rotate180(area);
      var west := Rotate270(area);
      areas := map[EAST := east, SOUTH := south, WEST := west, NORTH := area];
      forall d: Direction ensures d in areas && areas[d] == AreaFor(area, d) {
        match d
        case NORTH =>
        case EAST =>
        case SOUTH =>
        case WEST =>
      }
    }

    /** A wave of the given length that widens every spread rows. */
    method SetupCone(length: nat, spread: nat)
      requires length > 0
      modifies this
      ensures areas.Keys == {NORTH, EAST, SOUTH, WEST}
      ensures var a := areas[NORTH]; var h := Reach(length, spread);
        && Centered(a) && a.rows == length && a.cols == 2 * h + 1 && a.centerY == length - 1 && a.centerX == h
        && (forall r: nat, c: nat {:trigger Covers(a, r, c)} :: r < length && c <= 2 * h ==>
              (Covers(a, r, c) <==> h - (h - Reach(r, spread)) <= c <= h + (h - Reach(r, spread))))
      ensures forall d :: d in areas && areas[d] == AreaFor(areas[NORTH], d)
    {
      hide Rotated90, Rotated180, Rotated270, Created, Rectangular, Covers, Reach, Filled;
      var vec, rows := ConeTable(length, spread);
      ConeShape(length, spread, vec);
      SetupArea(vec, rows);
    }
  }

  /** Two half turns give the area back. */
  lemma TwoHalvesUndo(a: Area)
    requires Centered(a)
    ensures Centered(Rotated180(a)) && Rotated180(Rotated180(a)) == a
  {
    hide Rotated180, At;
    TurnsCentered(a);
    var b := Rotated180(a);
    TurnsCentered(b);
    ShapeOfTurns(a);
    ShapeOfTurns(b);
    forall r, c | InArea(a, r, c) ensures At(Rotated180(b), r, c) == At(a, r, c) {
      Cell180(b, r, c);
      Cell180(a, a.rows - 1 - r, a.cols - 1 - c);
    }
    SameArea(Rotated180(b), a);
  }

  /** The four directions lie a quarter turn apart, all the way around, and what an area covers turns
      along: dx columns and dy rows from the centre when facing north. */
  lemma DirectionsTurn(north: Area, d: Direction, dx: int, dy: int)
    requires Centered(north)
    ensures Centered(AreaFor(north, d)) && Rotated90(AreaFor(north, d)) == AreaFor(north, Clockwise(d))
    ensures Hits(AreaFor(north, d), OffsetFor(d, dx, dy).0, OffsetFor(d, dx, dy).1) == Hits(north, dx, dy)
  {
    hide Rotated90, Rotated180, Rotated270, Hits;
    TurnsCentered(north);
    var east, south := Rotated90(north), Rotated180(north);
    TwoQuartersAreHalf(north);
    TurnsCentered(south);
    TwoHalvesUndo(north);
    TwoQuartersAreHalf(south);
    TurnsCentered(Rotated90(south));
    ThreeQuartersUndo(Rotated90(south));
    OffsetsTurn(north, dx, dy);
  }

  // ---------------------------------------------------------------- laying an area on the map

  /** Coordinates are unsigned 16-bit numbers. */
  datatype Position = Position(x: int, y: int)

  const COORDINATES := 0x1_0000

  function Offset(target: Position, dx: int, dy: int): Position {
    Position((target.x + dx) % COORDINATES, (target.y + dy) % COORDINATES)
  }

  function PlaceOf(a: Area, target: Position, r: nat, c: nat): Position {
    Offset(target, c - a.centerX, r - a.centerY)
  }

  /** The position lies under a covered cell when the centre lies on the target. */
  ghost predicate HitBy(a: Area, target: Position, p: Position) {
    exists dx, dy :: Hits(a, dx, dy) && p == Offset(target, dx, dy)
  }

  predicate Earlier(r: int, c: int, row: int, col: int) {
    r < row || (r == row && c < col)
  }

  /** The positions of the covered cells of rows up to row, and of that row up to column col. */
  ghost predicate ListedTo(list: seq<Position>, a: Area, target: Position, clear: Position -> bool, row: nat, col: nat) {
    && (forall i :: 0 <= i < |list| ==> clear(list[i]) && HitBy(a, target, list[i]))
    && (forall r: nat, c: nat {:trigger Covers(a, r, c)} ::
          Covers(a, r, c) && Earlier(r, c, row, col) && clear(PlaceOf(a, target, r, c)) ==> PlaceOf(a, target, r, c) in list)
  }

  /** The position the j-th cell falls on, counted row by row. */
  function PlaceAt(a: Area, target: Position, j: nat): Position
    requires a.cols > 0
  {
    PlaceOf(a, target, j / a.cols, j % a.cols)
  }

  /** The covered cells in sight from the j-th one on, in the order of the rows. */
  ghost function SeenFrom(a: Area, target: Position, clear: Position -> bool, j: nat): seq<nat>
    requires a.cols > 0 && j <= |a.cells|
    decreases |a.cells| - j
  {
    if j == |a.cells| then []
    else (if a.cells[j] && clear(PlaceAt(a, target, j)) then [j] else []) + SeenFrom(a, target, clear, j + 1)
  }

  ghost function PlacesAt(a: Area, target: Position, cells: seq<nat>): (ps: seq<Position>)
    requires a.cols > 0
    ensures |ps| == |cells| && forall i :: 0 <= i < |ps| ==> ps[i] == PlaceAt(a, target, cells[i])
  {
    seq(|cells|, i requires 0 <= i < |cells| => PlaceAt(a, target, cells[i]))
  }

  predicate Ascending(s: seq<nat>) {
    forall i, k :: 0 <= i < k < |s| ==> s[i] < s[k]
  }

  lemma AscendingCons(n: nat, s: seq<nat>)
    requires Ascending(s) && forall i :: 0 <= i < |s| ==> n < s[i]
    ensures Ascending([n] + s)
  {
  }

  predicate Seen(a: Area, target: Position, clear: Position -> bool, j: nat)
    requires a.cols > 0
  {
    j < |a.cells| && a.cells[j] && clear(PlaceAt(a, target, j))
  }

  /** They come in ascending order, each of them once, and none is left out. */
  lemma {:induction false} SeenInOrder(a: Area, target: Position, clear: Position -> bool, j: nat)
    requires a.cols > 0 && j <= |a.cells|
    ensures var s := SeenFrom(a, target, clear, j);
      && Ascending(s) && (forall i :: 0 <= i < |s| ==> j <= s[i] && Seen(a, target, clear, s[i]))
      && (forall n: nat :: j <= n && Seen(a, target, clear, n) ==> n in s)
    decreases |a.cells| - j
  {
    hide Ascending;
    if j == |a.cells| {
      AscendingNone();
    } else {
      SeenInOrder(a, target, clear, j + 1);
      SeenCons(a, target, clear, j);
    }
  }

  lemma AscendingNone()
    ensures Ascending([])
  {
  }

  lemma SeenCons(a: Area, target: Position, clear: Position -> bool, j: nat)
    requires a.cols > 0 && j < |a.cells|
    requires var s := SeenFrom(a, target, clear, j + 1);
      && Ascending(s) && (forall i :: 0 <= i < |s| ==> j + 1 <= s[i] && Seen(a, target, clear, s[i]))
      && (forall n: nat :: j + 1 <= n && Seen(a, target, clear, n) ==> n in s)
    ensures var s := SeenFrom(a, target, clear, j);
      && Ascending(s) && (forall i :: 0 <= i < |s| ==> j <= s[i] && Seen(a, target, clear, s[i]))
      && (forall n: nat :: j <= n && Seen(a, target, clear, n) ==> n in s)
  {
    hide Ascending, PlaceAt;
    var rest := SeenFrom(a, target, clear, j + 1);
    if Seen(a, target, clear, j) {
      AscendingCons(j, rest);
      assert SeenFrom(a, target, clear, j) == [j] + rest;
    } else {
      assert SeenFrom(a, target, clear, j) == rest;
    }
  }

  lemma PlaceParts(a: Area, target: Position, j: nat)
    requires a.cols > 0
    ensures PlaceAt(a, target, j).x == (target.x - a.centerX + j % a.cols) % COORDINATES
    ensures PlaceAt(a, target, j).y == (target.y - a.centerY + j / a.cols) % COORDINATES
  {
    Offsets(target, j % a.cols - a.centerX, j / a.cols - a.centerY);
  }

  /** Within 2^16 rows and columns two cells fall on two positions. */
  lemma PlacesApart(a: Area, target: Position, i: nat, j: nat)
    requires Valid(a) && a.cols > 0 && i < |a.cells| && j < |a.cells| && i != j
    requires a.rows <= COORDINATES && a.cols <= COORDINATES
    ensures PlaceAt(a, target, i) != PlaceAt(a, target, j)
  {
    hide PlaceAt;
    var c, r := PartsOf(a, target, i);
    var c', r' := PartsOf(a, target, j);
    PartsApart(target.x - a.centerX, target.y - a.centerY, c, r, c', r');
  }

  /** The column and row of a cell, and the position it falls on. */
  lemma PartsOf(a: Area, target: Position, j: nat) returns (c: nat, r: nat)
    requires Valid(a) && a.cols > 0 && j < |a.cells|
    ensures c < a.cols && r < a.rows && j == r * a.cols + c
    ensures PlaceAt(a, target, j) ==
      Position((target.x - a.centerX + c) % COORDINATES, (target.y - a.centerY + r) % COORDINATES)
  {
    hide PlaceAt;
    IndexCell(a.rows, a.cols, j);
    c, r := j % a.cols, j / a.cols;
    PlaceParts(a, target, j);
  }

  lemma PartsApart(x: int, y: int, c: nat, r: nat, c': nat, r': nat)
    requires c < COORDINATES && c' < COORDINATES && r < COORDINATES && r' < COORDINATES && (c != c' || r != r')
    ensures (x + c) % COORDINATES != (x + c') % COORDINATES || (y + r) % COORDINATES != (y + r') % COORDINATES
  {
    if c != c' {
      OffsetsApart(x, c, c');
    } else {
      OffsetsApart(y, r, r');
    }
  }

  lemma Offsets(target: Position, dx: int, dy: int)
    ensures Offset(target, dx, dy).x == (target.x + dx) % COORDINATES && Offset(target, dx, dy).y == (target.y + dy) % COORDINATES
  {
  }

  lemma OffsetsApart(base: int, c: nat, c': nat)
    requires c < COORDINATES && c' < COORDINATES && c != c'
    ensures (base + c) % COORDINATES != (base + c') % COORDINATES
  {
  }

  /** No position is listed twice, for any area that fits the map. */
  lemma NothingTwice(a: Area, target: Position, clear: Position -> bool, i: nat, k: nat)
    requires Valid(a) && a.cols > 0 && a.rows <= COORDINATES && a.cols <= COORDINATES
    requires i < k < |SeenFrom(a, target, clear, 0)|
    ensures var list := PlacesAt(a, target, SeenFrom(a, target, clear, 0)); list[i] != list[k]
  {
    hide PlaceAt;
    var s := SeenFrom(a, target, clear, 0);
    SeenInOrder(a, target, clear, 0);
    assert Seen(a, target, clear, s[i]) && Seen(a, target, clear, s[k]);
    PlacesApart(a, target, s[i], s[k]);
  }

  /** As far as the n-th cell, the list is what has been seen. */
  ghost predicate SeenTo(list: seq<Position>, a: Area, target: Position, clear: Position -> bool, n: nat) {
    a.cols > 0 && n <= |a.cells|
    && list + PlacesAt(a, target, SeenFrom(a, target, clear, n)) == PlacesAt(a, target, SeenFrom(a, target, clear, 0))
  }

  lemma SeenMore(list: seq<Position>, a: Area, target: Position, clear: Position -> bool, r: nat, c: nat)
    requires Valid(a) && InArea(a, r, c) && SeenTo(list, a, target, clear, Flat(r, a.cols, c))
    ensures r * a.cols + c < |a.cells|
    ensures var p := PlaceOf(a, target, r, c);
      SeenTo(if a.cells[r * a.cols + c] && clear(p) then list + [p] else list, a, target, clear, Flat(r, a.cols, c) + 1)
  {
    hide PlaceOf, At;
    AtIs(a, r, c);
    FlatParts(r, a.cols, c);
    var n := Flat(r, a.cols, c);
    var p, s, rest := PlaceOf(a, target, r, c), SeenFrom(a, target, clear, n), SeenFrom(a, target, clear, n + 1);
    assert PlaceAt(a, target, n) == p;
    if a.cells[n] && clear(p) {
      assert PlacesAt(a, target, s) == [p] + PlacesAt(a, target, rest);
      assert list + ([p] + PlacesAt(a, target, rest)) == list + [p] + PlacesAt(a, target, rest);
    } else {
      assert s == rest;
    }
  }

  lemma NothingSeen(a: Area, target: Position, clear: Position -> bool)
    requires a.cols > 0
    ensures SeenTo([], a, target, clear, Flat(0, a.cols, 0))
  {
    assert Flat(0, a.cols, 0) == 0;
  }

  lemma AllSeen(list: seq<Position>, a: Area, target: Position, clear: Position -> bool)
    requires Valid(a) && SeenTo(list, a, target, clear, Flat(a.rows, a.cols, 0))
    ensures list == PlacesAt(a, target, SeenFrom(a, target, clear, 0))
  {
    assert Flat(a.rows, a.cols, 0) == |a.cells|;
    assert PlacesAt(a, target, []) == [];
  }

  /** The tiles an area covers around a target, row by row, as far as they are in sight. */
  method GetList(a: Area, target: Position, clear: Position -> bool) returns (list: seq<Position>)
    requires Valid(a)
    ensures forall p :: p in list <==> clear(p) && HitBy(a, target, p)
    ensures if a.cols > 0 then list == PlacesAt(a, target, SeenFrom(a, target, clear, 0)) else list == []
  {
    hide Covers, ListedTo, HitBy, PlaceOf, SeenTo, PlacesAt, SeenFrom, Flat;
    var tmp := Offset(target, 0 - a.centerX, 0 - a.centerY);
    FirstPlace(a, target);
    list := [];
    NothingListed(a, target, clear);
    if a.cols > 0 {
      NothingSeen(a, target, clear);
    }
    var row := 0;
    while row < a.rows
      invariant 0 <= row <= a.rows && tmp == PlaceOf(a, target, row, 0)
      invariant ListedTo(list, a, target, clear, row, 0)
      invariant if a.cols > 0 then SeenTo(list, a, target, clear, Flat(row, a.cols, 0)) else list == []
    {
      list := ListRow(list, a, target, clear, row);
      NextPlace(a, target, row);
      tmp := Position(tmp.x, (tmp.y + 1) % COORDINATES);
      row := row + 1;
    }
    AllListed(list, a, target, clear);
    if a.cols > 0 {
      AllSeen(list, a, target, clear);
    }
  }

  lemma FirstPlace(a: Area, target: Position)
    ensures PlaceOf(a, target, 0, 0) == Offset(target, 0 - a.centerX, 0 - a.centerY)
  {
  }

  lemma NextPlace(a: Area, target: Position, row: nat)
    ensures var p := PlaceOf(a, target, row, 0);
      PlaceOf(a, target, row + 1, 0) == Position(p.x, (p.y + 1) % COORDINATES)
  {
  }

  lemma NothingListed(a: Area, target: Position, clear: Position -> bool)
    ensures ListedTo([], a, target, clear, 0, 0)
  {
  }

  lemma AllListed(list: seq<Position>, a: Area, target: Position, clear: Position -> bool)
    requires ListedTo(list, a, target, clear, a.rows, 0)
    ensures forall p :: p in list <==> clear(p) && HitBy(a, target, p)
  {
    forall p | clear(p) && HitBy(a, target, p) ensures p in list {
      var dx, dy :| Hits(a, dx, dy) && p == Offset(target, dx, dy);
      assert Covers(a, a.centerY + dy, a.centerX + dx);
      assert PlaceOf(a, target, a.centerY + dy, a.centerX + dx) == p;
    }
  }

  method ListRow(list0: seq<Position>, a: Area, target: Position, clear: Position -> bool, row: nat) returns (list: seq<Position>)
    requires Valid(a) && row < a.rows && ListedTo(list0, a, target, clear, row, 0)
    requires a.cols > 0 ==> SeenTo(list0, a, target, clear, Flat(row, a.cols, 0))
    ensures ListedTo(list, a, target, clear, row + 1, 0)
    ensures if a.cols > 0 then SeenTo(list, a, target, clear, Flat(row + 1, a.cols, 0)) else list == list0
  {
    hide Covers, ListedTo, At, PlaceOf, SeenTo, Flat;
    list := list0;
    var x := PlaceOf(a, target, row, 0).x;
    var col := 0;
    while col < a.cols
      invariant 0 <= col <= a.cols && x == PlaceOf(a, target, row, col).x
      invariant ListedTo(list, a, target, clear, row, col)
      invariant a.cols == 0 ==> list == list0
      invariant a.cols > 0 ==> SeenTo(list, a, target, clear, if col < a.cols then Flat(row, a.cols, col) else Flat(row + 1, a.cols, 0))
    {
      AtIs(a, row, col);
      CoversIs(a, row, col);
      AlongRow(a, target, row, col);
      var place := Position(x, PlaceOf(a, target, row, 0).y);
      ListedMore(list, a, target, clear, row, col);
      SeenMore(list, a, target, clear, row, col);
      FlatNext(row, a.cols, col);
      if a.cells[row * a.cols + col] && clear(place) {
        list := list + [place];
      }
      x := (x + 1) % COORDINATES;
      col := col + 1;
    }
    RowListed(list, a, target, clear, row);
  }

  lemma AlongRow(a: Area, target: Position, row: nat, col: nat)
    ensures PlaceOf(a, target, row, col).y == PlaceOf(a, target, row, 0).y
    ensures PlaceOf(a, target, row, col + 1).x == (PlaceOf(a, target, row, col).x + 1) % COORDINATES
  {
  }

  lemma CoversIs(a: Area, r: nat, c: nat)
    requires Valid(a) && InArea(a, r, c)
    ensures Covers(a, r, c) == At(a, r, c)
  {
  }

  lemma ListedMore(list: seq<Position>, a: Area, target: Position, clear: Position -> bool, r: nat, c: nat)
    requires ListedTo(list, a, target, clear, r, c)
    ensures var p := PlaceOf(a, target, r, c);
      ListedTo(if Covers(a, r, c) && clear(p) then list + [p] else list, a, target, clear, r, c + 1)
  {
    hide Covers, HitBy;
    var p := PlaceOf(a, target, r, c);
    if Covers(a, r, c) {
      PlaceIsHit(a, target, r, c);
    }
  }

  lemma PlaceIsHit(a: Area, target: Position, r: nat, c: nat)
    requires Covers(a, r, c)
    ensures HitBy(a, target, PlaceOf(a, target, r, c))
  {
    assert Hits(a, c - a.centerX, r - a.centerY);
  }

  lemma RowListed(list: seq<Position>, a: Area, target: Position, clear: Position -> bool, r: nat)
    requires ListedTo(list, a, target, clear, r, a.cols)
    ensures ListedTo(list, a, target, clear, r + 1, 0)
  {
  }
}
