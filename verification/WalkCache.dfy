/** The cache of walkable tiles around a creature: recomputed in full, or shifted by one step and
    patched at the edge. */
module WalkCache {

  const HALF_WIDTH := 16
  const HALF_HEIGHT := 12
  const WIDTH := 2 * HALF_WIDTH + 1
  const HEIGHT := 2 * HALF_HEIGHT + 1
  const COORDINATES := 0x1_0000

  datatype Position = Position(x: int, y: int, z: int)

  /** Coordinates are unsigned 16-bit numbers. */
  predicate InMap(p: Position) {
    0 <= p.x < COORDINATES && 0 <= p.y < COORDINATES
  }

  function Wrapped(p: Position): Position {
    Position(p.x % COORDINATES, p.y % COORDINATES, p.z)
  }

  /** Which tiles the creature may walk on. */
  type Terrain = Position -> bool

  /** The cells of the cache, by row and column. */
  type Grid = map<(int, int), bool>

  predicate InWindow(r: int, c: int) {
    0 <= r < HEIGHT && 0 <= c < WIDTH
  }

  function Cell(g: Grid, r: int, c: int): bool {
    (r, c) in g && g[(r, c)]
  }

  /** The position a cell stands for, as seen from pos. */
  function Seen(pos: Position, r: int, c: int): Position {
    Position(pos.x + c - HALF_WIDTH, pos.y + r - HALF_HEIGHT, pos.z)
  }

  /** Tiles off the map are looked up at their wrapped coordinates. */
  function TileAt(f: Terrain, pos: Position, r: int, c: int): bool {
    f(Wrapped(Seen(pos, r, c)))
  }

  /** Every cell but the creature's own shows the tile it stands for. */
  ghost predicate Agrees(g: Grid, f: Terrain, pos: Position) {
    forall r, c {:trigger Cell(g, r, c)} :: InWindow(r, c) && InMap(Seen(pos, r, c)) && Seen(pos, r, c) != pos ==>
      Cell(g, r, c) == f(Seen(pos, r, c))
  }

  // ---------------------------------------------------------------- the updates, cell by cell

  /** A full recomputation; cells off the map keep what they show. */
  function RecomputedAt(g: Grid, f: Terrain, pos: Position, r: int, c: int): bool {
    if InMap(Seen(pos, r, c)) then f(Seen(pos, r, c)) else Cell(g, r, c)
  }

  /** One tile looked up again. */
  function TouchedAt(g: Grid, f: Terrain, pos: Position, p: Position, r: int, c: int): bool {
    if Seen(pos, r, c) == p then f(p) else Cell(g, r, c)
  }

  function Distance(a: int, b: int): int {
    if a < b then b - a else a - b
  }

  /** Rows move against a step north or south, and the row that came into sight is looked up. */
  function RowsAt(g: Grid, f: Terrain, a: Position, b: Position, r: int, c: int): bool {
    if a.y > b.y then (if r == 0 then TileAt(f, b, r, c) else Cell(g, r - 1, c))
    else if a.y < b.y then (if r == HEIGHT - 1 then TileAt(f, b, r, c) else Cell(g, r + 1, c))
    else Cell(g, r, c)
  }

  /** Columns likewise; the first row is left out on a diagonal, whichever way it goes. */
  function ColumnsAt(g: Grid, f: Terrain, a: Position, b: Position, r: int, c: int): bool {
    var starty := Distance(a.y, b.y);
    if a.x < b.x then
      (if c == WIDTH - 1 then TileAt(f, b, r, c) else RowsAt(g, f, a, b, r, if r >= starty then c + 1 else c))
    else if a.x > b.x then
      (if c == 0 then TileAt(f, b, r, c) else RowsAt(g, f, a, b, r, if r >= starty then c - 1 else c))
    else RowsAt(g, f, a, b, r, c)
  }

  /** The update after a step: rows, then columns, then the tile the creature left. */
  function PatchedAt(g: Grid, f: Terrain, a: Position, b: Position, r: int, c: int): bool {
    if Seen(b, r, c) == a then f(a) else ColumnsAt(g, f, a, b, r, c)
  }

  function Recomputed(g: Grid, f: Terrain, pos: Position): (h: Grid)
    ensures forall r, c {:trigger Cell(h, r, c)} :: InWindow(r, c) ==> Cell(h, r, c) == RecomputedAt(g, f, pos, r, c)
  {
    map r: int, c: int | 0 <= r < HEIGHT && 0 <= c < WIDTH :: (r, c) := RecomputedAt(g, f, pos, r, c)
  }

  function Touched(g: Grid, f: Terrain, pos: Position, p: Position): (h: Grid)
    ensures forall r, c {:trigger Cell(h, r, c)} :: InWindow(r, c) ==> Cell(h, r, c) == TouchedAt(g, f, pos, p, r, c)
  {
    map r: int, c: int | 0 <= r < HEIGHT && 0 <= c < WIDTH :: (r, c) := TouchedAt(g, f, pos, p, r, c)
  }

  function Patched(g: Grid, f: Terrain, a: Position, b: Position): (h: Grid)
    ensures forall r, c {:trigger Cell(h, r, c)} :: InWindow(r, c) ==> Cell(h, r, c) == PatchedAt(g, f, a, b, r, c)
  {
    map r: int, c: int | 0 <= r < HEIGHT && 0 <= c < WIDTH :: (r, c) := PatchedAt(g, f, a, b, r, c)
  }

  // ---------------------------------------------------------------- agreement

  predicate IsStep(a: Position, b: Position) {
    a != b && a.z == b.z && Distance(a.x, b.x) <= 1 && Distance(a.y, b.y) <= 1
  }

  predicate SouthDiagonal(a: Position, b: Position) {
    a.y < b.y && a.x != b.x
  }

  /** Only the tiles the creature left and entered have changed. */
  ghost predicate SameElsewhere(f: Terrain, f': Terrain, a: Position, b: Position) {
    forall p {:trigger f'(p)} :: p != a && p != b ==> f'(p) == f(p)
  }

  lemma AgreesAt(g: Grid, f: Terrain, pos: Position, r: int, c: int)
    requires Agrees(g, f, pos) && InWindow(r, c) && InMap(Seen(pos, r, c)) && Seen(pos, r, c) != pos
    ensures Cell(g, r, c) == f(Seen(pos, r, c))
  {
  }

  lemma RecomputedAgrees(g: Grid, f: Terrain, pos: Position)
    ensures Agrees(Recomputed(g, f, pos), f, pos)
  {
    hide Recomputed, Cell;
  }

  /** A tile that changes is looked up again. */
  lemma TouchedAgrees(g: Grid, f: Terrain, f': Terrain, pos: Position, p: Position)
    requires Agrees(g, f, pos) && forall q {:trigger f'(q)} :: q != p ==> f'(q) == f(q)
    ensures Agrees(Touched(g, f', pos, p), f', pos)
  {
    hide Agrees, Cell, Touched;
    var h := Touched(g, f', pos, p);
    forall r, c | InWindow(r, c) && InMap(Seen(pos, r, c)) && Seen(pos, r, c) != pos
      ensures Cell(h, r, c) == f'(Seen(pos, r, c))
    {
      AgreesAt(g, f, pos, r, c);
    }
    AgreesIs(h, f', pos);
  }

  lemma AgreesIs(g: Grid, f: Terrain, pos: Position)
    requires forall r, c {:trigger Cell(g, r, c)} :: InWindow(r, c) && InMap(Seen(pos, r, c)) && Seen(pos, r, c) != pos ==>
      Cell(g, r, c) == f(Seen(pos, r, c))
    ensures Agrees(g, f, pos)
  {
  }

  /** Whether a row has just been looked up because it came into sight. */
  predicate NewRow(a: Position, b: Position, r: int) {
    (a.y > b.y && r == 0) || (a.y < b.y && r == HEIGHT - 1)
  }

  predicate NewColumn(a: Position, b: Position, c: int) {
    (a.x < b.x && c == WIDTH - 1) || (a.x > b.x && c == 0)
  }

  lemma LookedUp(f: Terrain, pos: Position, r: int, c: int)
    requires InMap(Seen(pos, r, c))
    ensures TileAt(f, pos, r, c) == f(Seen(pos, r, c))
  {
    var p := Seen(pos, r, c);
    assert Wrapped(p) == p;
  }

  /** A cell that was in sight before shows the same tile from its new place. */
  lemma OldCell(g: Grid, f: Terrain, f': Terrain, a: Position, b: Position, r: int, c: int)
    requires Agrees(g, f, a) && SameElsewhere(f, f', a, b) && IsStep(a, b)
    requires InWindow(r, c) && InMap(Seen(b, r, c)) && Seen(b, r, c) != b && Seen(b, r, c) != a
    requires !NewColumn(a, b, c) && !NewRow(a, b, r)
    ensures Cell(g, r + b.y - a.y, c + b.x - a.x) == f'(Seen(b, r, c))
  {
    hide Agrees, Cell;
    var r0, c0 := r + b.y - a.y, c + b.x - a.x;
    assert Seen(a, r0, c0) == Seen(b, r, c);
    AgreesAt(g, f, a, r0, c0);
    assert f'(Seen(b, r, c)) == f(Seen(b, r, c));
  }

  /** One cell of the patched cache after a step that is not a southward diagonal. */
  lemma PatchedCell(g: Grid, f: Terrain, f': Terrain, a: Position, b: Position, r: int, c: int)
    requires Agrees(g, f, a) && SameElsewhere(f, f', a, b) && InMap(a) && InMap(b)
    requires IsStep(a, b) && !SouthDiagonal(a, b)
    requires InWindow(r, c) && InMap(Seen(b, r, c)) && Seen(b, r, c) != b
    ensures PatchedAt(g, f', a, b, r, c) == f'(Seen(b, r, c))
  {
    hide Agrees, TileAt, SameElsewhere, Cell;
    LookedUp(f', b, r, c);
    if Seen(b, r, c) != a && !NewColumn(a, b, c) && !NewRow(a, b, r) {
      OldCell(g, f, f', a, b, r, c);
    }
  }

  /** Shifting and patching agrees with a full recomputation after any step but a southward diagonal. */
  lemma PatchedAgrees(g: Grid, f: Terrain, f': Terrain, a: Position, b: Position)
    requires Agrees(g, f, a) && SameElsewhere(f, f', a, b) && InMap(a) && InMap(b)
    requires IsStep(a, b) && !SouthDiagonal(a, b)
    ensures Agrees(Patched(g, f', a, b), f', b)
  {
    hide Patched, PatchedAt, Agrees, Cell;
    var h := Patched(g, f', a, b);
    forall r, c | InWindow(r, c) && InMap(Seen(b, r, c)) && Seen(b, r, c) != b ensures Cell(h, r, c) == f'(Seen(b, r, c)) {
      PatchedCell(g, f, f', a, b, r, c);
    }
    AgreesIs(h, f', b);
  }

  /** After a southward diagonal the first row has not been moved sideways, and the last row, just
      looked up, has: some terrain is shown wrongly. */
  lemma SouthDiagonalDisagrees(g: Grid, a: Position, b: Position) returns (f: Terrain, r: int)
    requires IsStep(a, b) && SouthDiagonal(a, b) && InMap(a) && InMap(b)
    ensures InWindow(r, HALF_WIDTH) && InMap(Seen(b, r, HALF_WIDTH)) && Seen(b, r, HALF_WIDTH) != b
    ensures PatchedAt(Recomputed(g, f, a), f, a, b, r, HALF_WIDTH) != f(Seen(b, r, HALF_WIDTH))
  {
    hide Recomputed, Cell;
    f := (p: Position) => p.x == b.x;
    r := if b.y >= HALF_HEIGHT then 0 else HEIGHT - 1;
    var h := Recomputed(g, f, a);
    assert Cell(h, 1, HALF_WIDTH) == RecomputedAt(g, f, a, 1, HALF_WIDTH);
  }

  /** The shift-and-patch update is right for every terrain. */
  ghost predicate AlwaysRight(a: Position, b: Position) {
    forall g: Grid, f: Terrain {:trigger Patched(g, f, a, b)} :: Agrees(g, f, a) ==> Agrees(Patched(g, f, a, b), f, b)
  }

  /** The update after a step is right for every terrain exactly when the step is not a southward diagonal. */
  lemma RightIffNotSouthDiagonal(a: Position, b: Position)
    requires IsStep(a, b) && InMap(a) && InMap(b)
    ensures AlwaysRight(a, b) <==> !SouthDiagonal(a, b)
  {
    hide Agrees, Patched, PatchedAt, Cell;
    if SouthDiagonal(a, b) {
      var f, r := SouthDiagonalDisagrees(map[], a, b);
      var g := Recomputed(map[], f, a);
      RecomputedAgrees(map[], f, a);
      if Agrees(Patched(g, f, a, b), f, b) {
        AgreesAt(Patched(g, f, a, b), f, b, r, HALF_WIDTH);
      }
    } else {
      forall g: Grid, f: Terrain | Agrees(g, f, a) ensures Agrees(Patched(g, f, a, b), f, b) {
        PatchedAgrees(g, f, f, a, b);
      }
    }
  }

  // ---------------------------------------------------------------- the creature

  ghost function Cells(a: array2<bool>): (g: Grid)
    requires a.Length0 == HEIGHT && a.Length1 == WIDTH
    reads a
    ensures forall r, c {:trigger Cell(g, r, c)} :: InWindow(r, c) ==> Cell(g, r, c) == a[r, c]
  {
    map r: int, c: int | 0 <= r < HEIGHT && 0 <= c < WIDTH :: (r, c) := a[r, c]
  }

  /** The array shows what the given function of its old cells says. */
  ghost predicate Shows(a: array2<bool>, g: Grid)
    requires a.Length0 == HEIGHT && a.Length1 == WIDTH
    reads a
  {
    forall r, c {:trigger a[r, c]} :: InWindow(r, c) ==> a[r, c] == Cell(g, r, c)
  }

  predicate OutOfSight(a: Position, b: Position) {
    Distance(a.x, b.x) > HALF_WIDTH || Distance(a.y, b.y) > HALF_HEIGHT
  }

  class Creature {
    const localMapCache: array2<bool>
    const useCacheMap: bool
    var position: Position
    var isMapLoaded: bool

    constructor (position: Position, useCacheMap: bool)
      ensures Sized() && fresh(localMapCache) && this.position == position && !isMapLoaded && this.useCacheMap == useCacheMap
    {
      localMapCache := new bool[HEIGHT, WIDTH]((r, c) => false);
      this.position, isMapLoaded, this.useCacheMap := position, false, useCacheMap;
    }

    ghost predicate Sized() {
      localMapCache.Length0 == HEIGHT && localMapCache.Length1 == WIDTH
    }

    /** Sets the cell at an offset from the creature, if it is in the window. */
    method UpdateTileOffset(walkable: bool, dx: int, dy: int)
      requires Sized()
      modifies localMapCache
      ensures forall r, c {:trigger localMapCache[r, c]} :: InWindow(r, c) ==>
        localMapCache[r, c] == if r == HALF_HEIGHT + dy && c == HALF_WIDTH + dx then walkable else old(localMapCache[r, c])
    {
      if -HALF_WIDTH <= dx <= HALF_WIDTH && -HALF_HEIGHT <= dy <= HALF_HEIGHT {
        localMapCache[HALF_HEIGHT + dy, HALF_WIDTH + dx] := walkable;
      }
    }

    method UpdateTileCache(f: Terrain, pos: Position)
      requires Sized()
      modifies localMapCache
      ensures forall r, c {:trigger localMapCache[r, c]} :: InWindow(r, c) ==>
        localMapCache[r, c] == if Seen(position, r, c) == pos then f(pos) else old(localMapCache[r, c])
    {
      if pos.z == position.z {
        UpdateTileOffset(f(pos), pos.x - position.x, pos.y - position.y);
      }
    }

    method UpdateMapCache(f: Terrain)
      requires Sized() && InMap(position)
      modifies localMapCache
      ensures Shows(localMapCache, Recomputed(old(Cells(localMapCache)), f, position))
    {
      hide Recomputed, Cell;
      ghost var g := Cells(localMapCache);
      var y := -HALF_HEIGHT;
      while y <= HALF_HEIGHT
        invariant -HALF_HEIGHT <= y <= HALF_HEIGHT + 1
        invariant forall r, c {:trigger localMapCache[r, c]} :: InWindow(r, c) ==>
          localMapCache[r, c] == if r < HALF_HEIGHT + y then RecomputedAt(g, f, position, r, c) else Cell(g, r, c)
      {
        UpdateRow(f, y, g);
        y := y + 1;
      }
    }

    method UpdateRow(f: Terrain, y: int, ghost g: Grid)
      requires Sized() && InMap(position) && -HALF_HEIGHT <= y <= HALF_HEIGHT
      requires forall c {:trigger localMapCache[HALF_HEIGHT + y, c]} :: 0 <= c < WIDTH ==>
        localMapCache[HALF_HEIGHT + y, c] == Cell(g, HALF_HEIGHT + y, c)
      modifies localMapCache
      ensures forall r, c {:trigger localMapCache[r, c]} :: InWindow(r, c) ==>
        localMapCache[r, c] ==
          if r == HALF_HEIGHT + y then RecomputedAt(g, f, position, r, c) else old(localMapCache[r, c])
    {
      hide Cell;
      var x := -HALF_WIDTH;
      while x <= HALF_WIDTH
        invariant -HALF_WIDTH <= x <= HALF_WIDTH + 1
        invariant forall r, c {:trigger localMapCache[r, c]} :: InWindow(r, c) ==>
          localMapCache[r, c] ==
            if r == HALF_HEIGHT + y && c < HALF_WIDTH + x then RecomputedAt(g, f, position, r, c) else old(localMapCache[r, c])
      {
        var pos := Wrapped(Position(position.x + x, position.y + y, position.z));
        WrappedSeen(position, HALF_HEIGHT + y, HALF_WIDTH + x);
        UpdateTileCache(f, pos);
        x := x + 1;
      }
    }

    method CopyRow(from: int, to: int)
      requires Sized() && 0 <= from < HEIGHT && 0 <= to < HEIGHT && from != to
      modifies localMapCache
      ensures forall r, c {:trigger localMapCache[r, c]} :: InWindow(r, c) ==>
        localMapCache[r, c] == if r == to then old(localMapCache[from, c]) else old(localMapCache[r, c])
    {
      forall x | 0 <= x < WIDTH {
        localMapCache[to, x] := localMapCache[from, x];
      }
    }

    /** Looks up one row of the window again, without regard to the edge of the map. */
    method LookUpRow(f: Terrain, dy: int)
      requires Sized() && -HALF_HEIGHT <= dy <= HALF_HEIGHT
      modifies localMapCache
      ensures forall r, c {:trigger localMapCache[r, c]} :: InWindow(r, c) ==>
        localMapCache[r, c] == if r == HALF_HEIGHT + dy then TileAt(f, position, r, c) else old(localMapCache[r, c])
    {
      var x := -HALF_WIDTH;
      while x <= HALF_WIDTH
        invariant -HALF_WIDTH <= x <= HALF_WIDTH + 1
        invariant forall r, c {:trigger localMapCache[r, c]} :: InWindow(r, c) ==>
          localMapCache[r, c] ==
            if r == HALF_HEIGHT + dy && c < HALF_WIDTH + x then TileAt(f, position, r, c) else old(localMapCache[r, c])
      {
        var walkable := f(Wrapped(Position(position.x + x, position.y + dy, position.z)));
        UpdateTileOffset(walkable, x, dy);
        x := x + 1;
      }
    }

    method LookUpColumn(f: Terrain, dx: int)
      requires Sized() && -HALF_WIDTH <= dx <= HALF_WIDTH
      modifies localMapCache
      ensures forall r, c {:trigger localMapCache[r, c]} :: InWindow(r, c) ==>
        localMapCache[r, c] == if c == HALF_WIDTH + dx then TileAt(f, position, r, c) else old(localMapCache[r, c])
    {
      var y := -HALF_HEIGHT;
      while y <= HALF_HEIGHT
        invariant -HALF_HEIGHT <= y <= HALF_HEIGHT + 1
        invariant forall r, c {:trigger localMapCache[r, c]} :: InWindow(r, c) ==>
          localMapCache[r, c] ==
            if c == HALF_WIDTH + dx && r < HALF_HEIGHT + y then TileAt(f, position, r, c) else old(localMapCache[r, c])
      {
        var walkable := f(Wrapped(Position(position.x + dx, position.y + y, position.z)));
        UpdateTileOffset(walkable, dx, y);
        y := y + 1;
      }
    }

    /** North: every row moves down, and the first is looked up. */
    method ShiftSouth(f: Terrain)
      requires Sized()
      modifies localMapCache
      ensures forall r, c {:trigger localMapCache[r, c]} :: InWindow(r, c) ==>
        localMapCache[r, c] == if r == 0 then TileAt(f, position, r, c) else old(localMapCache[r - 1, c])
    {
      hide TileAt;
      var y := HEIGHT - 1;
      while y > 0
        invariant 0 <= y <= HEIGHT - 1
        invariant forall r, c {:trigger localMapCache[r, c]} :: InWindow(r, c) ==>
          localMapCache[r, c] == if r > y then old(localMapCache[r - 1, c]) else old(localMapCache[r, c])
      {
        y := y - 1;
        CopyRow(y, y + 1);
      }
      LookUpRow(f, -HALF_HEIGHT);
    }

    /** South: every row moves up, and the last is looked up. */
    method ShiftNorth(f: Terrain)
      requires Sized()
      modifies localMapCache
      ensures forall r, c {:trigger localMapCache[r, c]} :: InWindow(r, c) ==>
        localMapCache[r, c] == if r == HEIGHT - 1 then TileAt(f, position, r, c) else old(localMapCache[r + 1, c])
    {
      hide TileAt;
      var y := 0;
      while y <= HEIGHT - 2
        invariant 0 <= y <= HEIGHT - 1
        invariant forall r, c {:trigger localMapCache[r, c]} :: InWindow(r, c) ==>
          localMapCache[r, c] == if r < y then old(localMapCache[r + 1, c]) else old(localMapCache[r, c])
      {
        CopyRow(y + 1, y);
        y := y + 1;
      }
      LookUpRow(f, HALF_HEIGHT);
    }

    /** East: in the rows from starty on every cell moves left, and the last column is looked up. */
    method ShiftWest(f: Terrain, starty: int)
      requires Sized() && 0 <= starty
      modifies localMapCache
      ensures forall r, c {:trigger localMapCache[r, c]} :: InWindow(r, c) ==>
        localMapCache[r, c] == if c == WIDTH - 1 then TileAt(f, position, r, c)
          else if r >= starty then old(localMapCache[r, c + 1]) else old(localMapCache[r, c])
    {
      hide TileAt;
      var y := starty;
      while y <= HEIGHT - 1
        invariant starty <= y
        invariant forall r, c {:trigger localMapCache[r, c]} :: InWindow(r, c) ==>
          localMapCache[r, c] == if starty <= r < y && c < WIDTH - 1 then old(localMapCache[r, c + 1]) else old(localMapCache[r, c])
      {
        ShiftRowWest(y);
        y := y + 1;
      }
      LookUpColumn(f, HALF_WIDTH);
    }

    method ShiftRowWest(y: int)
      requires Sized() && 0 <= y < HEIGHT
      modifies localMapCache
      ensures forall r, c {:trigger localMapCache[r, c]} :: InWindow(r, c) ==>
        localMapCache[r, c] == if r == y && c < WIDTH - 1 then old(localMapCache[r, c + 1]) else old(localMapCache[r, c])
    {
      var x := 0;
      while x <= WIDTH - 2
        invariant 0 <= x <= WIDTH - 1
        invariant forall r, c {:trigger localMapCache[r, c]} :: InWindow(r, c) ==>
          localMapCache[r, c] == if r == y && c < x then old(localMapCache[r, c + 1]) else old(localMapCache[r, c])
      {
        localMapCache[y, x] := localMapCache[y, x + 1];
        x := x + 1;
      }
    }

    /** West: in the rows from starty on every cell moves right, and the first column is looked up. */
    method ShiftEast(f: Terrain, starty: int)
      requires Sized() && 0 <= starty
      modifies localMapCache
      ensures forall r, c {:trigger localMapCache[r, c]} :: InWindow(r, c) ==>
        localMapCache[r, c] == if c == 0 then TileAt(f, position, r, c)
          else if r >= starty then old(localMapCache[r, c - 1]) else old(localMapCache[r, c])
    {
      hide TileAt;
      var y := starty;
      while y <= HEIGHT - 1
        invariant starty <= y
        invariant forall r, c {:trigger localMapCache[r, c]} :: InWindow(r, c) ==>
          localMapCache[r, c] == if starty <= r < y && c > 0 then old(localMapCache[r, c - 1]) else old(localMapCache[r, c])
      {
        ShiftRowEast(y);
        y := y + 1;
      }
      LookUpColumn(f, -HALF_WIDTH);
    }

    method ShiftRowEast(y: int)
      requires Sized() && 0 <= y < HEIGHT
      modifies localMapCache
      ensures forall r, c {:trigger localMapCache[r, c]} :: InWindow(r, c) ==>
        localMapCache[r, c] == if r == y && c > 0 then old(localMapCache[r, c - 1]) else old(localMapCache[r, c])
    {
      var x := WIDTH - 1;
      while x > 0
        invariant 0 <= x <= WIDTH - 1
        invariant forall r, c {:trigger localMapCache[r, c]} :: InWindow(r, c) ==>
          localMapCache[r, c] == if r == y && c > x then old(localMapCache[r, c - 1]) else old(localMapCache[r, c])
      {
        x := x - 1;
        localMapCache[y, x + 1] := localMapCache[y, x];
      }
    }

    /** The update of a creature that has moved from oldPos to its present position. */
    method OnCreatureMove(f: Terrain, oldPos: Position, teleport: bool)
      requires Sized() && isMapLoaded && InMap(position)
      modifies localMapCache
      ensures Shows(localMapCache,
        if teleport || oldPos.z != position.z then Recomputed(old(Cells(localMapCache)), f, position)
        else Patched(old(Cells(localMapCache)), f, oldPos, position))
    {
      hide Recomputed, Patched, Cell, TileAt;
      if teleport || oldPos.z != position.z {
        UpdateMapCache(f);
        return;
      }
      ghost var g := Cells(localMapCache);
      PatchRows(f, oldPos, g);
      PatchColumns(f, oldPos, g);
      UpdateTileCache(f, oldPos);
    }

    method PatchRows(f: Terrain, oldPos: Position, ghost g: Grid)
      requires Sized() && Shows(localMapCache, g)
      modifies localMapCache
      ensures forall r, c {:trigger localMapCache[r, c]} :: InWindow(r, c) ==> localMapCache[r, c] == RowsAt(g, f, oldPos, position, r, c)
    {
      hide Cell, TileAt;
      if oldPos.y > position.y {
        ShiftSouth(f);
      } else if oldPos.y < position.y {
        ShiftNorth(f);
      }
    }

    method PatchColumns(f: Terrain, oldPos: Position, ghost g: Grid)
      requires Sized()
      requires forall r, c {:trigger localMapCache[r, c]} :: InWindow(r, c) ==> localMapCache[r, c] == RowsAt(g, f, oldPos, position, r, c)
      modifies localMapCache
      ensures forall r, c {:trigger localMapCache[r, c]} :: InWindow(r, c) ==> localMapCache[r, c] == ColumnsAt(g, f, oldPos, position, r, c)
    {
      hide RowsAt, TileAt;
      var dy := Distance(oldPos.y, position.y);
      if oldPos.x < position.x {
        ShiftWest(f, dy);
      } else if oldPos.x > position.x {
        ShiftEast(f, dy);
      }
    }

    /** 1 for a walkable position, 0 for a blocked one, 2 when the cache does not say. */
    method GetWalkCache(pos: Position, ghost f: Terrain) returns (r: int)
      requires Sized() && InMap(pos) && Agrees(Cells(localMapCache), f, position)
      ensures useCacheMap && position.z == pos.z && pos != position && !OutOfSight(position, pos) ==>
        r == if f(pos) then 1 else 0
      ensures useCacheMap && pos == position ==> r == 1
      ensures useCacheMap && position.z != pos.z ==> r == 0
      ensures r == 2 <==> (!useCacheMap || (position.z == pos.z && OutOfSight(position, pos)))
    {
      hide Agrees, Cell;
      if !useCacheMap {
        return 2;
      }
      if position.z != pos.z {
        return 0;
      }
      if pos == position {
        return 1;
      }
      var dx, dy := pos.x - position.x, pos.y - position.y;
      if -HALF_WIDTH <= dx <= HALF_WIDTH && -HALF_HEIGHT <= dy <= HALF_HEIGHT {
        AgreesAt(Cells(localMapCache), f, position, HALF_HEIGHT + dy, HALF_WIDTH + dx);
        return if localMapCache[HALF_HEIGHT + dy, HALF_WIDTH + dx] then 1 else 0;
      }
      r := 2;
    }
  }

  // ---------------------------------------------------------------- runs

  /** What happens around a creature: a tile changes and is looked up again, or the creature moves. */
  datatype Event =
    | Change(tile: Position, walkable: bool)
    | Move(to: Position, teleport: bool, left: bool, entered: bool)

  /** The world as the cache sees it. */
  datatype Scene = Scene(cells: Grid, terrain: Terrain, pos: Position)

  function With(f: Terrain, p: Position, walkable: bool): Terrain {
    q => if q == p then walkable else f(q)
  }

  predicate MayHappen(s: Scene, e: Event) {
    match e
    case Change(p, _) => true
    case Move(to, teleport, _, _) => InMap(to) && (teleport || s.pos.z != to.z || (IsStep(s.pos, to) && !SouthDiagonal(s.pos, to)))
  }

  function Happened(s: Scene, e: Event): Scene {
    match e
    case Change(p, walkable) =>
      var f := With(s.terrain, p, walkable);
      Scene(Touched(s.cells, f, s.pos, p), f, s.pos)
    case Move(to, teleport, left, entered) =>
      var f := With(With(s.terrain, s.pos, left), to, entered);
      Scene(if teleport || s.pos.z != to.z then Recomputed(s.cells, f, to) else Patched(s.cells, f, s.pos, to), f, to)
  }

  lemma WithElsewhere(f: Terrain, p: Position, walkable: bool)
    ensures forall q {:trigger With(f, p, walkable)(q)} :: With(f, p, walkable)(q) == if q == p then walkable else f(q)
  {
  }

  lemma HappenedAgrees(s: Scene, e: Event)
    requires InMap(s.pos) && Agrees(s.cells, s.terrain, s.pos) && MayHappen(s, e)
    ensures var s' := Happened(s, e); InMap(s'.pos) && Agrees(s'.cells, s'.terrain, s'.pos)
  {
    hide Agrees, Recomputed, Patched, Touched, With;
    match e
    case Change(p, walkable) =>
      WithElsewhere(s.terrain, p, walkable);
      TouchedAgrees(s.cells, s.terrain, With(s.terrain, p, walkable), s.pos, p);
    case Move(to, teleport, left, entered) =>
      WithElsewhere(s.terrain, s.pos, left);
      WithElsewhere(With(s.terrain, s.pos, left), to, entered);
      var f := With(With(s.terrain, s.pos, left), to, entered);
      if teleport || s.pos.z != to.z {
        RecomputedAgrees(s.cells, f, to);
      } else {
        PatchedAgrees(s.cells, s.terrain, f, s.pos, to);
      }
  }

  predicate AllMayHappen(s: Scene, es: seq<Event>)
    decreases |es|
  {
    es == [] || (MayHappen(s, es[0]) && AllMayHappen(Happened(s, es[0]), es[1..]))
  }

  function Run(s: Scene, es: seq<Event>): Scene
    decreases |es|
  {
    if es == [] then s else Run(Happened(s, es[0]), es[1..])
  }

  /** Through any run without a southward diagonal step, every cell but the creature's own shows
      what a full recomputation would. */
  lemma {:induction false} RunAgrees(s: Scene, es: seq<Event>)
    requires InMap(s.pos) && Agrees(s.cells, s.terrain, s.pos) && AllMayHappen(s, es)
    ensures var s' := Run(s, es); InMap(s'.pos) && Agrees(s'.cells, s'.terrain, s'.pos)
    decreases |es|
  {
    hide Agrees, Happened, MayHappen;
    if es != [] {
      HappenedAgrees(s, es[0]);
      RunAgrees(Happened(s, es[0]), es[1..]);
    }
  }

  /** A wrapped position is either the one seen or lies outside the window. */
  lemma WrappedSeen(pos: Position, r: int, c: int)
    requires InMap(pos) && InWindow(r, c)
    ensures InMap(Seen(pos, r, c)) ==> Wrapped(Seen(pos, r, c)) == Seen(pos, r, c)
    ensures !InMap(Seen(pos, r, c)) ==>
      forall r', c' {:trigger Seen(pos, r', c')} :: InWindow(r', c') ==> Seen(pos, r', c') != Wrapped(Seen(pos, r, c))
  {
  }
}