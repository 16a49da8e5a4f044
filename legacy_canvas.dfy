/** The legacy canvas game of web/src/pages/Space.tsx: the flat collision
    grid is cut into rows, a boundary square is placed on every blocked
    cell, and each animation frame moves the map and the boundaries (never
    the player, who stays in the middle of the screen) one step in the
    direction of the highest-priority key held, unless that step would put
    a boundary on the player. Positions are integers; drawing is left out. */
module LegacyCanvas {
  import opened Wrappers
  import Collision
  import SpriteFrames
  import MainScene

  type Direction = MainScene.Direction

  /** `MAP_TILES`: cells per row of the collision grid. */
  const MapTiles := 120
  /** `BOUNDARY_SIZE`: side of a boundary square, in pixels. */
  const BoundarySize := 48
  /** `MOVEMENT_SPEED`: pixels per movement step. */
  const MovementSpeed := 3
  /** `OFFSET`: where the map's top-left corner starts. */
  const OffsetX := -1900
  const OffsetY := -2700
  /** The grid value that marks a blocked cell. */
  const BoundarySymbol := 107127
  /** Draws per frame step of the canvas sprite's own `draw`. */
  const DrawPeriod := 15

  datatype Point = Point(x: int, y: int)

  function Min(a: int, b: int): int {
    if a <= b then a else b
  }

  // ---------------------------------------------------------------------
  // Cutting the grid into rows

  /** How many rows `n` cells make: the last one may be short. */
  function RowCount(n: nat): nat {
    (n + MapTiles - 1) / MapTiles
  }

  /** Row `k` is the slice from `k * 120` to `k * 120 + 120`, clamped to
      the end of the grid. */
  function Chunks(cells: seq<int>): seq<seq<int>> {
    seq(RowCount(|cells|), k requires 0 <= k < RowCount(|cells|) =>
      cells[k * MapTiles .. Min(k * MapTiles + MapTiles, |cells|)])
  }

  /** The rows joined end to end. */
  function Concat(rows: seq<seq<int>>): seq<int> {
    if rows == [] then [] else Concat(rows[..|rows| - 1]) + rows[|rows| - 1]
  }

  /** The loop building `collisionsMap`: `slice(i, MAP_TILES + i)` for
      `i = 0, 120, 240, …` while `i` is below the length. */
  method ChunkRows(cells: seq<int>) returns (rows: seq<seq<int>>)
    ensures rows == Chunks(cells)
  {
    rows := [];
    var i := 0;
    while i < |cells|
      invariant i == |rows| * MapTiles
      invariant |rows| <= RowCount(|cells|)
      invariant forall k :: 0 <= k < |rows| ==> rows[k] == Chunks(cells)[k]
    {
      rows := rows + [cells[i .. Min(MapTiles + i, |cells|)]];
      i := i + MapTiles;
    }
  }

  /** Every row holds between 1 and 120 cells, and every row but the last
      exactly 120. */
  lemma ChunksShape(cells: seq<int>)
    ensures var rows := Chunks(cells);
      && (forall k :: 0 <= k < |rows| ==> 0 < |rows[k]| <= MapTiles)
      && (forall k :: 0 <= k < |rows| - 1 ==> |rows[k]| == MapTiles)
  {
  }

  /** The first `m` rows joined are the first `120 * m` cells. */
  lemma {:induction false} ConcatChunksPrefix(cells: seq<int>, m: nat)
    requires m <= RowCount(|cells|)
    ensures Concat(Chunks(cells)[..m]) == cells[..Min(m * MapTiles, |cells|)]
    decreases m
  {
    if m > 0 {
      var rows := Chunks(cells);
      assert rows[..m][..m - 1] == rows[..m - 1];
      ConcatChunksPrefix(cells, m - 1);
      var lo := (m - 1) * MapTiles;
      assert cells[..lo] + cells[lo .. Min(m * MapTiles, |cells|)] == cells[..Min(m * MapTiles, |cells|)];
    }
  }

  /** Joining the rows gives back the grid. */
  lemma ChunksConcat(cells: seq<int>)
    ensures Concat(Chunks(cells)) == cells
  {
    var rows := Chunks(cells);
    ConcatChunksPrefix(cells, |rows|);
    assert rows[..|rows|] == rows;
  }

  /** Cell `n` of the grid is column `n % 120` of row `n / 120`. */
  lemma ChunkCell(cells: seq<int>, n: nat)
    requires n < |cells|
    ensures n / MapTiles < |Chunks(cells)|
    ensures n % MapTiles < |Chunks(cells)[n / MapTiles]|
    ensures Chunks(cells)[n / MapTiles][n % MapTiles] == cells[n]
  {
  }

  /** Column `j` of row `i` is cell `i * 120 + j` of the grid. */
  lemma CellOfRow(cells: seq<int>, i: nat, j: nat)
    requires i < |Chunks(cells)| && j < |Chunks(cells)[i]|
    ensures i * MapTiles + j < |cells|
    ensures (i * MapTiles + j) / MapTiles == i && (i * MapTiles + j) % MapTiles == j
    ensures Chunks(cells)[i][j] == cells[i * MapTiles + j]
  {
  }

  // ---------------------------------------------------------------------
  // Placing the boundaries

  /** Where the boundary of row `i`, column `j` starts. */
  function CellPosition(i: int, j: int): Point {
    Point(j * BoundarySize + OffsetX, i * BoundarySize + OffsetY)
  }

  /** The boundaries the first `m` cells of row `i` make, left to right. */
  function RowMarks(row: seq<int>, i: int, m: nat): seq<Point>
    requires m <= |row|
  {
    if m == 0 then []
    else RowMarks(row, i, m - 1) + (if row[m - 1] == BoundarySymbol then [CellPosition(i, m - 1)] else [])
  }

  /** The boundaries the first `m` rows make, row by row. */
  function MarksUpTo(rows: seq<seq<int>>, m: nat): seq<Point>
    requires m <= |rows|
  {
    if m == 0 then [] else MarksUpTo(rows, m - 1) + RowMarks(rows[m - 1], m - 1, |rows[m - 1]|)
  }

  /** The boundaries the whole grid makes. */
  function Marks(rows: seq<seq<int>>): seq<Point> {
    MarksUpTo(rows, |rows|)
  }

  /** The nested `forEach` pushing a `Boundary` for every blocked cell. */
  method BoundaryPositions(rows: seq<seq<int>>) returns (bs: seq<Point>)
    ensures bs == Marks(rows)
  {
    bs := [];
    var i := 0;
    while i < |rows|
      invariant 0 <= i <= |rows|
      invariant bs == MarksUpTo(rows, i)
    {
      var row := rows[i];
      var j := 0;
      while j < |row|
        invariant 0 <= j <= |row|
        invariant bs == MarksUpTo(rows, i) + RowMarks(row, i, j)
      {
        if row[j] == BoundarySymbol {
          bs := bs + [CellPosition(i, j)];
        }
        j := j + 1;
      }
      i := i + 1;
    }
  }

  /** Cell `j` of row `i` is blocked, and its boundary starts at `p`. */
  predicate MarkedCell(rows: seq<seq<int>>, i: int, j: int, p: Point) {
    0 <= i < |rows| && 0 <= j < |rows[i]| && rows[i][j] == BoundarySymbol && p == CellPosition(i, j)
  }

  /** The first `m` cells of a row put a boundary at a point exactly when
      one of them is blocked and lies there. */
  lemma {:induction false} RowMarksExactly(row: seq<int>, i: int, m: nat, p: Point)
    requires m <= |row|
    ensures p in RowMarks(row, i, m) <==>
      exists j :: 0 <= j < m && row[j] == BoundarySymbol && p == CellPosition(i, j)
    decreases m
  {
    if m > 0 {
      RowMarksExactly(row, i, m - 1, p);
    }
  }

  /** The first `m` rows put a boundary at a point exactly when one of
      their cells is blocked and lies there. */
  lemma {:induction false} MarksUpToExactly(rows: seq<seq<int>>, m: nat, p: Point)
    requires m <= |rows|
    ensures p in MarksUpTo(rows, m) <==> exists i, j :: i < m && MarkedCell(rows, i, j, p)
    decreases m
  {
    if m > 0 {
      var i := m - 1;
      MarksUpToExactly(rows, i, p);
      RowMarksExactly(rows[i], i, |rows[i]|, p);
      if p in RowMarks(rows[i], i, |rows[i]|) {
        var j :| 0 <= j < |rows[i]| && rows[i][j] == BoundarySymbol && p == CellPosition(i, j);
        assert MarkedCell(rows, i, j, p);
      }
      if exists i', j :: i' < m && MarkedCell(rows, i', j, p) {
        var i', j :| i' < m && MarkedCell(rows, i', j, p);
        if i' == i {
          assert p in RowMarks(rows[i], i, |rows[i]|);
        }
      }
    }
  }

  /** The grid puts a boundary at a point exactly when one of its cells is
      blocked and lies there. */
  lemma MarksExactly(rows: seq<seq<int>>, p: Point)
    ensures p in Marks(rows) <==> exists i, j :: MarkedCell(rows, i, j, p)
  {
    MarksUpToExactly(rows, |rows|, p);
  }

  /** Over the flat grid: a boundary starts at a point exactly when some
      cell `n` holds 107127 and the point is `(n % 120 * 48 - 1900,
      n / 120 * 48 - 2700)`. */
  lemma BoundariesOfGrid(cells: seq<int>, p: Point)
    ensures p in Marks(Chunks(cells)) <==>
      exists n :: 0 <= n < |cells| && cells[n] == BoundarySymbol && p == CellPosition(n / MapTiles, n % MapTiles)
  {
    var rows := Chunks(cells);
    MarksExactly(rows, p);
    if p in Marks(rows) {
      var i, j :| MarkedCell(rows, i, j, p);
      CellOfRow(cells, i, j);
      var n := i * MapTiles + j;
      assert cells[n] == BoundarySymbol && p == CellPosition(n / MapTiles, n % MapTiles);
    }
    if exists n :: 0 <= n < |cells| && cells[n] == BoundarySymbol && p == CellPosition(n / MapTiles, n % MapTiles) {
      var n :| 0 <= n < |cells| && cells[n] == BoundarySymbol && p == CellPosition(n / MapTiles, n % MapTiles);
      ChunkCell(cells, n);
      assert MarkedCell(rows, n / MapTiles, n % MapTiles, p);
    }
  }

  // ---------------------------------------------------------------------
  // One movement step

  /** What one step does to a movable's position: up moves the world down
      the screen, left moves it right, and so on. */
  function Shift(p: Point, dir: Direction): Point {
    match dir
    case Up => p.(y := p.y + MovementSpeed)
    case Down => p.(y := p.y - MovementSpeed)
    case Left => p.(x := p.x + MovementSpeed)
    case Right => p.(x := p.x - MovementSpeed)
  }

  /** The rectangle of a boundary starting at `p`. */
  function BoundaryRect(p: Point): Collision.Rect {
    Collision.Rect(p.x, p.y, BoundarySize, BoundarySize)
  }

  /** The boundary at `p`, moved one step, would overlap the player. */
  predicate Hits(player: Collision.Rect, p: Point, dir: Direction) {
    Collision.RectangularCollision(player, BoundaryRect(Shift(p, dir)))
  }

  /** Some boundary blocks the step. `ms` lists the movables: the map
      first, then the boundaries. */
  predicate Blocked(player: Collision.Rect, ms: seq<Point>, dir: Direction) {
    exists k :: 1 <= k < |ms| && Hits(player, ms[k], dir)
  }

  /** Every movable moved one step. */
  function ShiftAll(ms: seq<Point>, dir: Direction): (r: seq<Point>)
    ensures |r| == |ms|
  {
    seq(|ms|, k requires 0 <= k < |ms| => Shift(ms[k], dir))
  }

  /** The effect of `handleMovement` on the movables. */
  function Step(player: Collision.Rect, ms: seq<Point>, dir: Direction): seq<Point> {
    if Blocked(player, ms, dir) then ms else ShiftAll(ms, dir)
  }

  /** No boundary overlaps the player. */
  predicate Clear(player: Collision.Rect, ms: seq<Point>) {
    forall k :: 1 <= k < |ms| ==> !Collision.RectangularCollision(player, BoundaryRect(ms[k]))
  }

  /** A step either moves nothing, or moves every movable by the same
      vector; either way the distance between any two movables, and so the
      map's layout, is kept. */
  lemma StepIsRigid(player: Collision.Rect, ms: seq<Point>, dir: Direction)
    ensures var r := Step(player, ms, dir);
      && |r| == |ms|
      && (r == ms || forall k :: 0 <= k < |ms| ==> r[k] == Shift(ms[k], dir))
      && forall k, l :: 0 <= k < |ms| && 0 <= l < |ms| ==>
           r[k].x - r[l].x == ms[k].x - ms[l].x && r[k].y - r[l].y == ms[k].y - ms[l].y
  {
  }

  /** A step that is taken never ends on a boundary, and a step that is
      refused changes nothing; so a player who starts clear stays clear. */
  lemma StepKeepsClear(player: Collision.Rect, ms: seq<Point>, dir: Direction)
    ensures !Blocked(player, ms, dir) ==> Clear(player, Step(player, ms, dir))
    ensures Clear(player, ms) ==> Clear(player, Step(player, ms, dir))
  {
    if !Blocked(player, ms, dir) {
      var r := Step(player, ms, dir);
      forall k | 1 <= k < |r|
        ensures !Collision.RectangularCollision(player, BoundaryRect(r[k]))
      {
        assert !Hits(player, ms[k], dir);
      }
    }
  }

  // ---------------------------------------------------------------------
  // Keys

  /** The `pressed` flags of the `keys` object. */
  datatype Keys = Keys(w: bool, a: bool, s: bool, d: bool)

  const NoKeys := Keys(false, false, false, false)

  /** The key handlers: `w`, `a`, `s` and `d` set their own flag to
      `down`; every other key changes nothing. */
  function Press(k: Keys, key: string, down: bool): (r: Keys)
    ensures key != "w" && key != "a" && key != "s" && key != "d" ==> r == k
    ensures r.w == if key == "w" then down else k.w
    ensures r.a == if key == "a" then down else k.a
    ensures r.s == if key == "s" then down else k.s
    ensures r.d == if key == "d" then down else k.d
  {
    match key
    case "w" => k.(w := down)
    case "a" => k.(a := down)
    case "s" => k.(s := down)
    case "d" => k.(d := down)
    case _ => k
  }

  /** Releasing a key undoes pressing it when it was not held before. */
  lemma PressRelease(k: Keys, key: string)
    requires Press(k, key, false) == k
    ensures Press(Press(k, key, true), key, false) == k
  {
  }

  /** The direction a frame moves in: w before s before a before d. */
  function Chosen(k: Keys): (r: Option<Direction>)
    ensures r == Some(MainScene.Up) <==> k.w
    ensures r == Some(MainScene.Down) <==> !k.w && k.s
    ensures r == Some(MainScene.Left) <==> !k.w && !k.s && k.a
    ensures r == Some(MainScene.Right) <==> !k.w && !k.s && !k.a && k.d
    ensures r == None <==> !k.w && !k.s && !k.a && !k.d
  {
    if k.w then Some(MainScene.Up)
    else if k.s then Some(MainScene.Down)
    else if k.a then Some(MainScene.Left)
    else if k.d then Some(MainScene.Right)
    else None
  }

  // ---------------------------------------------------------------------
  // The game

  class Canvas {
    /** The player's rectangle; the player never moves on the screen. */
    const player: Collision.Rect
    /** `movablesRef`: the map's position, then the boundaries'. The
        boundaries list holds the same objects, so one array is both. */
    const movables: array<Point>
    var keys: Keys
    /** The player sprite's frame counter and `moving` flag. */
    var frames: SpriteFrames.Frames
    var moving: bool
    /** Which of the four player images is shown. */
    var facing: Direction

    predicate Valid()
      reads this
    {
      movables.Length >= 1
    }

    /** The setup effect: the player shows frame 0 of 4, facing down, and
        the movables are the map at the offset followed by one boundary per
        blocked cell. */
    constructor (cells: seq<int>, player: Collision.Rect)
      ensures Valid() && fresh(movables)
      ensures movables[..] == [Point(OffsetX, OffsetY)] + Marks(Chunks(cells))
      ensures this.player == player && keys == NoKeys
      ensures frames == SpriteFrames.Frames(4, 0, 0) && !moving && facing == MainScene.Down
    {
      var rows := ChunkRows(cells);
      var bs := BoundaryPositions(rows);
      var ms := [Point(OffsetX, OffsetY)] + bs;
      var arr := new Point[|ms|](k requires 0 <= k < |ms| => ms[k]);
      assert arr[..] == ms;
      movables := arr;
      this.player := player;
      keys := NoKeys;
      frames := SpriteFrames.Frames(4, 0, 0);
      moving := false;
      facing := MainScene.Down;
    }

    method KeyDown(key: string)
      modifies this`keys
      ensures keys == Press(old(keys), key, true)
    {
      keys := Press(keys, key, true);
    }

    method KeyUp(key: string)
      modifies this`keys
      ensures keys == Press(old(keys), key, false)
    {
      keys := Press(keys, key, false);
    }

    /** `handleMovement`: the player turns and is marked moving even when
        the step is refused. */
    method HandleMovement(dir: Direction)
      requires Valid()
      modifies this`moving, this`facing, movables
      ensures moving && facing == dir
      ensures movables[..] == Step(player, old(movables[..]), dir)
    {
      moving := true;
      facing := dir;
      var blocked := false;
      var k := 1;
      while k < movables.Length && !blocked
        invariant 1 <= k <= movables.Length
        invariant blocked ==> Blocked(player, movables[..], dir)
        invariant !blocked ==> forall l :: 1 <= l < k ==> !Hits(player, movables[l], dir)
      {
        if Collision.RectangularCollision(player, BoundaryRect(Shift(movables[k], dir))) {
          assert Hits(player, movables[..][k], dir);
          blocked := true;
        }
        k := k + 1;
      }
      if !blocked {
        ShiftMovables(dir);
      }
    }

    /** The `forEach` moving every movable. */
    method ShiftMovables(dir: Direction)
      modifies movables
      ensures movables[..] == ShiftAll(old(movables[..]), dir)
    {
      var k := 0;
      while k < movables.Length
        invariant 0 <= k <= movables.Length
        invariant forall l :: 0 <= l < k ==> movables[l] == Shift(old(movables[l]), dir)
        invariant forall l :: k <= l < movables.Length ==> movables[l] == old(movables[l])
      {
        movables[k] := Shift(movables[k], dir);
        k := k + 1;
      }
    }

    /** One `animate` frame. The player is drawn first, so its frames
        advance by the `moving` flag of the previous frame; then the flag
        is cleared and at most one key is handled. */
    method Animate()
      requires Valid()
      modifies this`frames, this`moving, this`facing, movables
      ensures frames == SpriteFrames.Advance(old(frames), old(moving), DrawPeriod)
      ensures var dir := Chosen(keys);
        && moving == dir.Some?
        && facing == (if dir.Some? then dir.value else old(facing))
        && movables[..] == (if dir.Some? then Step(player, old(movables[..]), dir.value) else old(movables[..]))
    {
      frames := SpriteFrames.Advance(frames, moving, DrawPeriod);
      moving := false;
      var dir := Chosen(keys);
      if dir.Some? {
        HandleMovement(dir.value);
      }
    }
  }
}
