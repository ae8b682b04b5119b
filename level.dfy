/** Level loading: the grid of characters read from a level file becomes a
    list of objects to create, in row-major order, and a starting cell for
    the player; and the background image is tiled over the window. */
module Level {
  import opened Wrappers
  import opened Geometry
  import opened Sprites

  /** An object to create, with the rectangle it is created with. */
  datatype Spawn =
    | BlockSpawn(rect: Rect, material: Material)
    | FireSpawn(rect: Rect)
    | SpikeSpawn(rect: Rect, orientation: Orientation)
    | TrampolineSpawn(rect: Rect)
    | RockHeadSpawn(rect: Rect)

  /** A grid cell: row index and column index. */
  datatype Cell = Cell(row: nat, col: nat)

  /** Characters that create an object. "P" (the player) and every other
      character create none. */
  predicate Spawning(c: char) {
    c == 'X' || c == 'D' || c == 'F' || c == 'S' || c == 's' || c == 'T' || c == 'R'
  }

  /** The object created by character `c` in the cell whose top-left corner
      is (x, y): a grass or dirt block filling the cell, a fire, an upward or
      downward spike, a trampoline or a rock head, each inside its cell. */
  function SpawnAt(c: char, x: int, y: int): (r: Option<Spawn>)
    ensures r.Some? <==> Spawning(c)
    ensures r.Some? ==> (x <= r.value.rect.Left() && r.value.rect.Right() <= x + BLOCK_SIZE &&
                         y <= r.value.rect.Top() && r.value.rect.Bottom() <= y + BLOCK_SIZE)
    ensures c == 'X' ==> r == Some(BlockSpawn(Rect(x, y, BLOCK_SIZE, BLOCK_SIZE), Grass))
    ensures c == 'D' ==> r == Some(BlockSpawn(Rect(x, y, BLOCK_SIZE, BLOCK_SIZE), Dirt))
    ensures c == 'F' ==> r == Some(FireSpawn(Rect(x + 48, y + BLOCK_SIZE / 3, 16, 32)))
    ensures c == 'S' ==> r == Some(SpikeSpawn(Rect(x + 24, y + 32, 64, 64), Up))
    ensures c == 's' ==> r == Some(SpikeSpawn(Rect(x, y, 64, 64), Down))
    ensures c == 'T' ==> r == Some(TrampolineSpawn(Rect(x + 16, y + 40, 28, 28)))
    ensures c == 'R' ==> r == Some(RockHeadSpawn(Rect(x, y + 40, 42, 42)))
  {
    if c == 'X' then Some(BlockSpawn(Rect(x, y, BLOCK_SIZE, BLOCK_SIZE), Grass))
    else if c == 'F' then Some(FireSpawn(Rect(x + 48, y + BLOCK_SIZE / 3, 16, 32)))
    else if c == 'D' then Some(BlockSpawn(Rect(x, y, BLOCK_SIZE, BLOCK_SIZE), Dirt))
    else if c == 'S' then Some(SpikeSpawn(Rect(x + 24, y + 32, 64, 64), Up))
    else if c == 's' then Some(SpikeSpawn(Rect(x, y, 64, 64), Down))
    else if c == 'T' then Some(TrampolineSpawn(Rect(x + 16, y + 40, 28, 28)))
    else if c == 'R' then Some(RockHeadSpawn(Rect(x, y + 40, 42, 42)))
    else None
  }

  /** The object of cell (r, col) of a row, if the cell creates one. */
  function CellSpawn(row: seq<char>, r: nat, col: nat): Option<Spawn>
    requires col < |row|
  {
    SpawnAt(row[col], col * BLOCK_SIZE, r * BLOCK_SIZE)
  }

  /** The list holding an optional value. */
  function Listed<T>(o: Option<T>): seq<T> {
    if o.Some? then [o.value] else []
  }

  /** The objects created by the first `n` cells of row `r`, in column order. */
  function RowSpawns(row: seq<char>, r: nat, n: nat): seq<Spawn>
    requires n <= |row|
  {
    if n == 0 then [] else RowSpawns(row, r, n - 1) + Listed(CellSpawn(row, r, n - 1))
  }

  /** The objects created by the first `m` rows, row by row. */
  function GridSpawns(grid: seq<seq<char>>, m: nat): seq<Spawn>
    requires m <= |grid|
  {
    if m == 0 then [] else GridSpawns(grid, m - 1) + RowSpawns(grid[m - 1], m - 1, |grid[m - 1]|)
  }

  /** Every object the level creates, in row-major order: exactly the
      objects of its cells, so none when no cell holds an object character. */
  function LevelSpawns(grid: seq<seq<char>>): (r: seq<Spawn>)
    ensures forall x :: x in r <==>
              exists row, col :: 0 <= row < |grid| && 0 <= col < |grid[row]| && CellSpawn(grid[row], row, col) == Some(x)
    ensures |r| == 0 <==>
              forall row, col :: 0 <= row < |grid| && 0 <= col < |grid[row]| ==> !Spawning(grid[row][col])
  {
    LevelSpawnsExactly(grid);
    GridSpawns(grid, |grid|)
  }

  /** The objects the whole grid creates are exactly the objects of its cells. */
  lemma LevelSpawnsExactly(grid: seq<seq<char>>)
    ensures forall x :: x in GridSpawns(grid, |grid|) <==>
              exists row, col :: 0 <= row < |grid| && 0 <= col < |grid[row]| && CellSpawn(grid[row], row, col) == Some(x)
    ensures |GridSpawns(grid, |grid|)| == 0 <==>
              forall row, col :: 0 <= row < |grid| && 0 <= col < |grid[row]| ==> !Spawning(grid[row][col])
  {
    var all := GridSpawns(grid, |grid|);
    LevelSpawnsSound(grid, |grid|);
    forall x | exists row, col :: 0 <= row < |grid| && 0 <= col < |grid[row]| && CellSpawn(grid[row], row, col) == Some(x)
      ensures x in all
    {
      var row, col :| 0 <= row < |grid| && 0 <= col < |grid[row]| && CellSpawn(grid[row], row, col) == Some(x);
      LevelSpawnsHas(grid, |grid|, row, col);
    }
    forall row, col | 0 <= row < |grid| && 0 <= col < |grid[row]| && Spawning(grid[row][col])
      ensures |all| > 0
    {
      LevelSpawnsHas(grid, |grid|, row, col);
    }
    if |all| > 0 {
      assert all[0] in all;
      var row, col :| 0 <= row < |grid| && 0 <= col < |grid[row]| && CellSpawn(grid[row], row, col) == Some(all[0]);
      assert Spawning(grid[row][col]);
    }
  }

  /** Every object a row creates is the object of one of its cells. */
  lemma {:induction false} RowSpawnsSound(row: seq<char>, r: nat, n: nat)
    requires n <= |row|
    ensures forall x :: x in RowSpawns(row, r, n) ==> exists col :: 0 <= col < n && CellSpawn(row, r, col) == Some(x)
  {
    if n > 0 {
      RowSpawnsSound(row, r, n - 1);
      forall x | x in RowSpawns(row, r, n)
        ensures exists col :: 0 <= col < n && CellSpawn(row, r, col) == Some(x)
      {
        if x !in RowSpawns(row, r, n - 1) {
          assert CellSpawn(row, r, n - 1) == Some(x);
        }
      }
    }
  }

  /** The object of a cell is among those its row creates. */
  lemma {:induction false} RowSpawnsHas(row: seq<char>, r: nat, n: nat, col: nat)
    requires col < n <= |row| && CellSpawn(row, r, col).Some?
    ensures CellSpawn(row, r, col).value in RowSpawns(row, r, n)
    decreases n
  {
    if col < n - 1 {
      RowSpawnsHas(row, r, n - 1, col);
    }
  }

  /** Every object the level creates is the object of one of its cells. */
  lemma {:induction false} LevelSpawnsSound(grid: seq<seq<char>>, m: nat)
    requires m <= |grid|
    ensures forall x :: x in GridSpawns(grid, m) ==>
              exists r, col :: 0 <= r < m && 0 <= col < |grid[r]| && CellSpawn(grid[r], r, col) == Some(x)
  {
    if m > 0 {
      LevelSpawnsSound(grid, m - 1);
      var last := grid[m - 1];
      RowSpawnsSound(last, m - 1, |last|);
      forall x | x in GridSpawns(grid, m)
        ensures exists r, col :: 0 <= r < m && 0 <= col < |grid[r]| && CellSpawn(grid[r], r, col) == Some(x)
      {
        if x !in GridSpawns(grid, m - 1) {
          assert x in RowSpawns(last, m - 1, |last|);
          var col :| 0 <= col < |last| && CellSpawn(last, m - 1, col) == Some(x);
          assert CellSpawn(grid[m - 1], m - 1, col) == Some(x);
        }
      }
    }
  }

  /** The object of every cell of the level is among those it creates. */
  lemma {:induction false} LevelSpawnsHas(grid: seq<seq<char>>, m: nat, r: nat, col: nat)
    requires r < m <= |grid| && col < |grid[r]| && CellSpawn(grid[r], r, col).Some?
    ensures CellSpawn(grid[r], r, col).value in GridSpawns(grid, m)
    decreases m
  {
    if r < m - 1 {
      LevelSpawnsHas(grid, m - 1, r, col);
    } else {
      RowSpawnsHas(grid[r], r, |grid[r]|, col);
    }
  }

  /** Row-major order of cells. */
  predicate Before(a: Cell, b: Cell) {
    a.row < b.row || (a.row == b.row && a.col < b.col)
  }

  /** The player cells ("P") among the first `n` cells of row `r`, in column order. */
  function RowPlayerCells(row: seq<char>, r: nat, n: nat): seq<Cell>
    requires n <= |row|
  {
    if n == 0 then []
    else if row[n - 1] == 'P' then RowPlayerCells(row, r, n - 1) + [Cell(r, n - 1)]
    else RowPlayerCells(row, r, n - 1)
  }

  /** The player cells among the first `m` rows, in row-major order. */
  function PlayerCells(grid: seq<seq<char>>, m: nat): seq<Cell>
    requires m <= |grid|
  {
    if m == 0 then [] else PlayerCells(grid, m - 1) + RowPlayerCells(grid[m - 1], m - 1, |grid[m - 1]|)
  }

  /** A row's player cells are its "P" cells, in column order. */
  lemma {:induction false} RowPlayerCellsSorted(row: seq<char>, r: nat, n: nat)
    requires n <= |row|
    ensures var cs := RowPlayerCells(row, r, n);
            (forall c :: c in cs <==> c.row == r && c.col < n && row[c.col] == 'P') &&
            (forall k :: 0 <= k < |cs| ==> cs[k].row == r && cs[k].col < n) &&
            (forall k, l :: 0 <= k < l < |cs| ==> Before(cs[k], cs[l]))
  {
    if n > 0 {
      RowPlayerCellsSorted(row, r, n - 1);
    }
  }

  /** The level's player cells are its "P" cells, in row-major order. */
  lemma {:induction false} PlayerCellsSorted(grid: seq<seq<char>>, m: nat)
    requires m <= |grid|
    ensures var cs := PlayerCells(grid, m);
            (forall c :: c in cs <==> c.row < m && c.col < |grid[c.row]| && grid[c.row][c.col] == 'P') &&
            (forall k :: 0 <= k < |cs| ==> cs[k].row < m) &&
            (forall k, l :: 0 <= k < l < |cs| ==> Before(cs[k], cs[l]))
  {
    if m > 0 {
      PlayerCellsSorted(grid, m - 1);
      RowPlayerCellsSorted(grid[m - 1], m - 1, |grid[m - 1]|);
      var prev := PlayerCells(grid, m - 1);
      var last := RowPlayerCells(grid[m - 1], m - 1, |grid[m - 1]|);
      assert forall c :: c in prev + last <==> c in prev || c in last;
    }
  }

  function LastOf<T>(s: seq<T>): Option<T> {
    if |s| == 0 then None else Some(s[|s| - 1])
  }

  /** The cell the player starts in: each "P" replaces the player created by
      an earlier one, so the last one in row-major order wins. */
  function PlayerStart(grid: seq<seq<char>>): (r: Option<Cell>)
    ensures r.Some? ==> r.value.row < |grid| && r.value.col < |grid[r.value.row]| &&
                        grid[r.value.row][r.value.col] == 'P'
  {
    PlayerCellsSorted(grid, |grid|);
    LastOf(PlayerCells(grid, |grid|))
  }

  /** The start cell is a "P", every other "P" comes before it, and there is
      no start cell exactly when the level has no "P". */
  lemma PlayerStartIsLastP(grid: seq<seq<char>>)
    ensures PlayerStart(grid).None? <==>
              forall r, col :: 0 <= r < |grid| && 0 <= col < |grid[r]| ==> grid[r][col] != 'P'
    ensures PlayerStart(grid).Some? ==>
              var c := PlayerStart(grid).value;
              c.row < |grid| && c.col < |grid[c.row]| && grid[c.row][c.col] == 'P' &&
              forall r, col :: 0 <= r < |grid| && 0 <= col < |grid[r]| && grid[r][col] == 'P' ==>
                Cell(r, col) == c || Before(Cell(r, col), c)
  {
    var cs := PlayerCells(grid, |grid|);
    PlayerCellsSorted(grid, |grid|);
    if |cs| == 0 {
      forall r, col | 0 <= r < |grid| && 0 <= col < |grid[r]| ensures grid[r][col] != 'P' {
        assert Cell(r, col) !in cs;
      }
    } else {
      var c := cs[|cs| - 1];
      assert c in cs;
      forall r, col | 0 <= r < |grid| && 0 <= col < |grid[r]| && grid[r][col] == 'P'
        ensures Cell(r, col) == c || Before(Cell(r, col), c)
      {
        assert Cell(r, col) in cs;
        var k :| 0 <= k < |cs| && cs[k] == Cell(r, col);
        if k < |cs| - 1 {
          assert Before(cs[k], cs[|cs| - 1]);
        }
      }
    }
  }

  /** The grid scan: every cell in row-major order creates its object, and
      the player's start cell is the last "P". */
  method ScanLevel(grid: seq<seq<char>>) returns (spawns: seq<Spawn>, start: Option<Cell>)
    ensures spawns == LevelSpawns(grid)
    ensures start == PlayerStart(grid)
  {
    spawns, start := [], None;
    var r := 0;
    while r < |grid|
      invariant 0 <= r <= |grid|
      invariant spawns == GridSpawns(grid, r)
      invariant start == LastOf(PlayerCells(grid, r))
    {
      var rowSpawns;
      ghost var before := start;
      rowSpawns, start := ScanRow(grid[r], r, start);
      spawns := spawns + rowSpawns;
      assert LastOf(PlayerCells(grid, r + 1)) == start by {
        var prev := PlayerCells(grid, r);
        var last := RowPlayerCells(grid[r], r, |grid[r]|);
        assert PlayerCells(grid, r + 1) == prev + last;
        if |last| == 0 {
          assert prev + last == prev;
        }
      }
      r := r + 1;
    }
  }

  /** One row of the grid scan: the row's objects in column order, and the
      start cell updated by every "P" of the row. */
  method ScanRow(row: seq<char>, r: nat, start0: Option<Cell>) returns (spawns: seq<Spawn>, start: Option<Cell>)
    ensures spawns == RowSpawns(row, r, |row|)
    ensures var ps := RowPlayerCells(row, r, |row|);
            start == if |ps| == 0 then start0 else LastOf(ps)
  {
    spawns, start := [], start0;
    var col := 0;
    while col < |row|
      invariant 0 <= col <= |row|
      invariant spawns == RowSpawns(row, r, col)
      invariant var ps := RowPlayerCells(row, r, col);
                start == if |ps| == 0 then start0 else LastOf(ps)
    {
      var tile := row[col];
      if tile == 'P' {
        start := Some(Cell(r, col));
      } else {
        var spawn := SpawnAt(tile, col * BLOCK_SIZE, r * BLOCK_SIZE);
        if spawn.Some? {
          spawns := spawns + [spawn.value];
        }
      }
      col := col + 1;
    }
  }

  /** Tile origins of column i: n tiles of an image of size w x h stacked down. */
  function Column(i: nat, w: nat, h: nat, n: nat): (s: seq<(int, int)>)
    ensures |s| == n && forall j :: 0 <= j < n ==> s[j] == (i * w, j * h)
  {
    seq(n, j requires 0 <= j < n => (i * w, j * h))
  }

  /** The first m columns of tiles, column after column. */
  function Columns(w: nat, h: nat, m: nat, rows: nat): (s: seq<(int, int)>)
    ensures |s| == m * rows
    ensures forall k :: 0 <= k < |s| ==> s[k] == ((k / rows) * w, (k % rows) * h)
    decreases m
  {
    if m == 0 then []
    else
      var prev := Columns(w, h, m - 1, rows);
      ColumnsStep(w, h, m, rows, prev);
      prev + Column(m - 1, w, h, rows)
  }

  /** Appending column m - 1 to the first m - 1 columns keeps tile k at
      column k / rows and row k % rows. */
  lemma ColumnsStep(w: nat, h: nat, m: nat, rows: nat, prev: seq<(int, int)>)
    requires m > 0 && |prev| == (m - 1) * rows
    requires forall k :: 0 <= k < |prev| ==> prev[k] == ((k / rows) * w, (k % rows) * h)
    ensures var s := prev + Column(m - 1, w, h, rows);
            |s| == m * rows && forall k :: 0 <= k < |s| ==> s[k] == ((k / rows) * w, (k % rows) * h)
  {
    var s := prev + Column(m - 1, w, h, rows);
    assert (m - 1) * rows + rows == m * rows;
    forall k | |prev| <= k < |s| ensures s[k] == ((k / rows) * w, (k % rows) * h) {
      var j := k - |prev|;
      DivModUnique(m - 1, j, rows);
      assert k == (m - 1) * rows + j;
    }
  }

  /** Dividing q * d + r by d, for 0 <= r < d, gives quotient q and remainder r. */
  lemma DivModUnique(q: int, r: int, d: int)
    requires 0 <= r < d
    ensures (q * d + r) / d == q && (q * d + r) % d == r
  {
    var n := q * d + r;
    var p, rest := n / d, n % d;
    assert n == p * d + rest;
    assert (q - p) * d == rest - r;
    if q - p >= 1 {
      MulMonotone(q - p, 1, d);
    } else if q - p <= -1 {
      MulMonotone(-1, q - p, d);
    }
  }

  /** The background: enough tiles of a w x h image, column by column, to
      cover the window with one extra row and column; tile k lies in
      column k / rows and row k % rows. */
  function Tiles(w: nat, h: nat): (r: seq<(int, int)>)
    requires w > 0 && h > 0
    ensures var rows := HEIGHT / h + 1;
            |r| == (WIDTH / w + 1) * rows &&
            forall k :: 0 <= k < |r| ==> r[k] == ((k / rows) * w, (k % rows) * h)
  {
    Columns(w, h, WIDTH / w + 1, HEIGHT / h + 1)
  }

  /** The background tile origins for an image of size w x h. */
  method GetBackground(w: nat, h: nat) returns (tiles: seq<(int, int)>)
    requires w > 0 && h > 0
    ensures tiles == Tiles(w, h)
  {
    tiles := [];
    var i := 0;
    while i < WIDTH / w + 1
      invariant 0 <= i <= WIDTH / w + 1
      invariant tiles == Columns(w, h, i, HEIGHT / h + 1)
    {
      var j := 0;
      while j < HEIGHT / h + 1
        invariant 0 <= j <= HEIGHT / h + 1
        invariant tiles == Columns(w, h, i, HEIGHT / h + 1) + Column(i, w, h, j)
      {
        tiles := tiles + [(i * w, j * h)];
        assert Column(i, w, h, j + 1) == Column(i, w, h, j) + [(i * w, j * h)];
        j := j + 1;
      }
      i := i + 1;
    }
  }

  /** Tile (i, j) is among the first m columns when i < m and j < rows. */
  lemma {:induction false} InColumns(w: nat, h: nat, m: nat, rows: nat, i: nat, j: nat)
    requires i < m && j < rows
    ensures (i * w, j * h) in Columns(w, h, m, rows)
    decreases m
  {
    if i < m - 1 {
      InColumns(w, h, m - 1, rows, i, j);
    } else {
      assert Column(m - 1, w, h, rows)[j] == (i * w, j * h);
    }
  }

  /** Multiplying by a positive number keeps the order. */
  lemma MulMonotone(x: int, y: int, d: int)
    requires d > 0
    ensures x >= y ==> x * d >= y * d
  {
    assert x * d - y * d == (x - y) * d;
  }

  /** Integer division by a positive number is monotone. */
  lemma DivMonotone(a: int, b: int, d: int)
    requires 0 <= a <= b && d > 0
    ensures a / d <= b / d
  {
    var q, p := a / d, b / d;
    assert q * d <= a;
    assert b < (p + 1) * d;
    MulMonotone(q, p + 1, d);
  }

  /** The multiple of `d` at or below `a` is less than `d` below it. */
  lemma DivBounds(a: int, d: int)
    requires a >= 0 && d > 0
    ensures (a / d) * d <= a < (a / d) * d + d
  {
    assert a == (a / d) * d + a % d;
  }

  /** Every pixel of the window is covered by a background tile. */
  lemma TilesCoverWindow(w: nat, h: nat, px: int, py: int)
    requires w > 0 && h > 0 && 0 <= px < WIDTH && 0 <= py < HEIGHT
    ensures exists t :: t in Tiles(w, h) && t.0 <= px < t.0 + w && t.1 <= py < t.1 + h
  {
    var i, j := px / w, py / h;
    DivMonotone(px, WIDTH, w);
    DivMonotone(py, HEIGHT, h);
    DivBounds(px, w);
    DivBounds(py, h);
    TileAt(w, h, i, j);
  }

  /** Tile (i, j) of the background, for i and j in range. */
  lemma TileAt(w: nat, h: nat, i: nat, j: nat)
    requires w > 0 && h > 0 && i <= WIDTH / w && j <= HEIGHT / h
    ensures (i * w, j * h) in Tiles(w, h)
  {
    InColumns(w, h, WIDTH / w + 1, HEIGHT / h + 1, i, j);
  }
}
