/** The floor generator: fills a height-by-width grid with wall tiles, then turns
    (width * height) / 2 randomly drawn cells into floor. */
module FloorGeneration {
  import opened Tiles
  import opened Randomness

  // ---------------------------------------------------------------------------
  // The grid as a value
  // ---------------------------------------------------------------------------

  /** What a caller can read back from one Tile. */
  datatype Cell = Cell(isWall: bool, theme: RoomTheme)

  /** A grid of cells, indexed [y][x] like the generator's Tile[,]. */
  type Grid = seq<seq<Cell>>

  /** A fresh tile: a wall without a theme. */
  const Wall := Cell(true, None)

  predicate IsRect(g: Grid, width: int, height: int) {
    |g| == height && forall y :: 0 <= y < height ==> |g[y]| == width
  }

  /** Every (x, y) pair names a cell of a width-by-height grid. */
  predicate InGrid(pairs: seq<(int, int)>, width: int, height: int) {
    forall i :: 0 <= i < |pairs| ==> 0 <= pairs[i].0 < width && 0 <= pairs[i].1 < height
  }

  /** No wall cell carries a theme. */
  predicate WallsUnthemed(g: Grid) {
    forall y, x :: 0 <= y < |g| && 0 <= x < |g[y]| && g[y][x].isWall ==> g[y][x].theme == None
  }

  /** The grid the initialisation loops leave behind. */
  function WallGrid(width: nat, height: nat): (g: Grid)
    ensures IsRect(g, width, height)
    ensures forall y, x :: 0 <= y < height && 0 <= x < width ==> g[y][x] == Wall
  {
    seq(height, _ => seq(width, _ => Wall))
  }

  /** One carve step: cell (x, y) becomes floor; its theme and every other cell stay. */
  function CarveCell(g: Grid, width: nat, height: nat, x: int, y: int): (g': Grid)
    requires IsRect(g, width, height) && 0 <= x < width && 0 <= y < height
    ensures IsRect(g', width, height)
    ensures !g'[y][x].isWall && g'[y][x].theme == g[y][x].theme
    ensures forall y', x' :: 0 <= y' < height && 0 <= x' < width && (y' != y || x' != x) ==> g'[y'][x'] == g[y'][x']
  {
    g[y := g[y][x := Cell(false, g[y][x].theme)]]
  }

  /** The carve steps applied one after another, in the order of `pairs`. */
  function CarveAll(g: Grid, width: nat, height: nat, pairs: seq<(int, int)>): (g': Grid)
    requires IsRect(g, width, height) && InGrid(pairs, width, height)
    ensures IsRect(g', width, height)
    decreases |pairs|
  {
    if pairs == [] then g
    else
      var last := pairs[|pairs| - 1];
      var init := pairs[..|pairs| - 1];
      assert forall i :: 0 <= i < |init| ==> init[i] == pairs[i];
      CarveCell(CarveAll(g, width, height, init), width, height, last.0, last.1)
  }

  /** Carving one more pair is one more carve step. */
  lemma CarveAllNext(g: Grid, width: nat, height: nat, pairs: seq<(int, int)>, x: int, y: int)
    requires IsRect(g, width, height) && InGrid(pairs, width, height)
    requires 0 <= x < width && 0 <= y < height
    ensures InGrid(pairs + [(x, y)], width, height)
    ensures CarveAll(g, width, height, pairs + [(x, y)])
         == CarveCell(CarveAll(g, width, height, pairs), width, height, x, y)
  {
  }

  /** The reference layout: a cell is floor exactly when some pair names it, and no cell has a theme. */
  function FloorPlan(width: nat, height: nat, pairs: seq<(int, int)>): (g: Grid)
    ensures IsRect(g, width, height)
  {
    seq(height, y => seq(width, x => Cell((x, y) !in pairs, None)))
  }

  /** The coordinates (x, y) of the floor cells of a grid. */
  function FloorCells(g: Grid, width: nat, height: nat): set<(int, int)>
    requires IsRect(g, width, height)
  {
    set x, y | 0 <= x < width && 0 <= y < height && !g[y][x].isWall :: (x, y)
  }

  // ---------------------------------------------------------------------------
  // Properties of carving
  // ---------------------------------------------------------------------------

  /** After a run of carve steps a cell is floor iff it was floor before or some step named it,
      and its theme is the one it had before. */
  lemma {:induction false} CarveAllCell(g: Grid, width: nat, height: nat, pairs: seq<(int, int)>, x: int, y: int)
    requires IsRect(g, width, height) && InGrid(pairs, width, height)
    requires 0 <= x < width && 0 <= y < height
    ensures CarveAll(g, width, height, pairs)[y][x].isWall <==> g[y][x].isWall && (x, y) !in pairs
    ensures CarveAll(g, width, height, pairs)[y][x].theme == g[y][x].theme
    decreases |pairs|
  {
    if pairs != [] {
      var init := pairs[..|pairs| - 1];
      assert forall i :: 0 <= i < |init| ==> init[i] == pairs[i];
      CarveAllCell(g, width, height, init, x, y);
      assert pairs == init + [pairs[|pairs| - 1]];
    }
  }

  /** Carving is monotone: a cell that is floor after the first k steps is floor after all of them. */
  lemma CarvingMonotone(g: Grid, width: nat, height: nat, pairs: seq<(int, int)>, k: nat, x: int, y: int)
    requires IsRect(g, width, height) && InGrid(pairs, width, height)
    requires k <= |pairs| && 0 <= x < width && 0 <= y < height
    ensures InGrid(pairs[..k], width, height)
    ensures !CarveAll(g, width, height, pairs[..k])[y][x].isWall ==> !CarveAll(g, width, height, pairs)[y][x].isWall
  {
    var prefix := pairs[..k];
    assert forall i :: 0 <= i < |prefix| ==> prefix[i] == pairs[i];
    CarveAllCell(g, width, height, prefix, x, y);
    CarveAllCell(g, width, height, pairs, x, y);
  }

  /** Carving keeps the invariant that no wall carries a theme. */
  lemma CarvePreservesWallsUnthemed(g: Grid, width: nat, height: nat, pairs: seq<(int, int)>)
    requires IsRect(g, width, height) && InGrid(pairs, width, height) && WallsUnthemed(g)
    ensures WallsUnthemed(CarveAll(g, width, height, pairs))
  {
    var c: Grid := CarveAll(g, width, height, pairs);
    forall y: int, x: int | 0 <= y < |c| && 0 <= x < |c[y]| && c[y][x].isWall
      ensures c[y][x].theme == None
    {
      CarveAllCell(g, width, height, pairs, x, y);
    }
  }

  /** Carving a wall grid gives the reference layout. */
  lemma CarveMatchesPlan(width: nat, height: nat, pairs: seq<(int, int)>)
    requires InGrid(pairs, width, height)
    ensures CarveAll(WallGrid(width, height), width, height, pairs) == FloorPlan(width, height, pairs)
  {
    var walls := WallGrid(width, height);
    var c := CarveAll(walls, width, height, pairs);
    var p := FloorPlan(width, height, pairs);
    forall y | 0 <= y < height
      ensures c[y] == p[y]
    {
      forall x | 0 <= x < width
        ensures c[y][x] == p[y][x]
      {
        CarveAllCell(walls, width, height, pairs, x, y);
      }
    }
  }

  /** A sequence has at most as many distinct elements as it is long. */
  lemma {:induction false} DistinctElementsBound<T>(s: seq<T>)
    ensures |set e | e in s| <= |s|
  {
    if s != [] {
      DistinctElementsBound(s[1..]);
      assert (set e | e in s) == (set e | e in s[1..]) + {s[0]};
    }
  }

  /** However the draws fall, a generated floor has at most (width * height) / 2 floor cells. */
  lemma GeneratedFloorBound(samples: Stream, start: nat, width: nat, height: nat)
    ensures InGrid(CarveDraws(samples, start, width, height, FloorCount(width, height)), width, height)
    ensures |FloorCells(FloorPlan(width, height, CarveDraws(samples, start, width, height, FloorCount(width, height))), width, height)|
         <= FloorCount(width, height)
  {
    var count := FloorCount(width, height);
    if count > 0 {
      FloorCountPositive(width, height);
      CarveDrawsInGrid(samples, start, width, height, count);
    }
    FloorCountBound(width, height, CarveDraws(samples, start, width, height, count));
  }

  /** The floor cells of the reference layout are exactly the drawn pairs, so there are
      at most as many of them as there were draws (two draws may name the same cell). */
  lemma FloorCountBound(width: nat, height: nat, pairs: seq<(int, int)>)
    requires InGrid(pairs, width, height)
    ensures FloorCells(FloorPlan(width, height, pairs), width, height) == set p | p in pairs
    ensures |FloorCells(FloorPlan(width, height, pairs), width, height)| <= |pairs|
  {
    var plan := FloorPlan(width, height, pairs);
    forall p | p in pairs
      ensures p in FloorCells(plan, width, height)
    {
      var i :| 0 <= i < |pairs| && pairs[i] == p;
      assert !plan[p.1][p.0].isWall;
    }
    DistinctElementsBound(pairs);
  }

  // ---------------------------------------------------------------------------
  // The draws of the carve loop
  // ---------------------------------------------------------------------------

  /** The number of carve iterations for a width-by-height grid. */
  function FloorCount(width: nat, height: nat): nat {
    (width * height) / 2
  }

  /** Some carving happens only in a grid with at least one row and one column. */
  lemma FloorCountPositive(width: nat, height: nat)
    requires FloorCount(width, height) > 0
    ensures width > 0 && height > 0
  {
  }

  /** The (x, y) pair iteration i of the carve loop draws when the loop starts at call `start`:
      x from call start + 2i over [0, width), then y from call start + 2i + 1 over [0, height). */
  function DrawAt(samples: Stream, start: nat, width: nat, height: nat, i: nat): (int, int) {
    (Pick(samples, start + 2 * i, 0, width), Pick(samples, start + 2 * i + 1, 0, height))
  }

  /** The pairs the first `count` iterations of the carve loop draw, in order. */
  function CarveDraws(samples: Stream, start: nat, width: nat, height: nat, count: nat): (pairs: seq<(int, int)>)
    ensures |pairs| == count
    decreases count
  {
    if count == 0 then []
    else CarveDraws(samples, start, width, height, count - 1) + [DrawAt(samples, start, width, height, count - 1)]
  }

  /** Every drawn pair names a cell of the grid, so every carve write is in bounds. */
  lemma {:induction false} CarveDrawsInGrid(samples: Stream, start: nat, width: nat, height: nat, count: nat)
    requires width > 0 && height > 0
    ensures InGrid(CarveDraws(samples, start, width, height, count), width, height)
    decreases count
  {
    if count > 0 {
      CarveDrawsInGrid(samples, start, width, height, count - 1);
    }
  }

  /** Iteration i draws its pair from calls start + 2i and start + 2i + 1, whatever the count. */
  lemma {:induction false} CarveDrawsAt(samples: Stream, start: nat, width: nat, height: nat, count: nat, i: nat)
    requires i < count
    ensures CarveDraws(samples, start, width, height, count)[i] == DrawAt(samples, start, width, height, i)
    decreases count
  {
    if i < count - 1 {
      CarveDrawsAt(samples, start, width, height, count - 1, i);
    }
  }

  // ---------------------------------------------------------------------------
  // The Tile[,] grid on the heap
  // ---------------------------------------------------------------------------

  /** The tile objects a grid holds. */
  ghost function TilesOf(grid: array2<Tile?>): set<Tile?>
    reads grid
  {
    set y, x | 0 <= y < grid.Length0 && 0 <= x < grid.Length1 :: grid[y, x]
  }

  /** Every cell holds a tile. */
  ghost predicate Filled(grid: array2<Tile?>)
    reads grid
  {
    forall y, x :: 0 <= y < grid.Length0 && 0 <= x < grid.Length1 ==> grid[y, x] != null
  }

  /** No tile object sits in two cells, so writing one cell changes no other. */
  ghost predicate DistinctTiles(grid: array2<Tile?>)
    reads grid
  {
    forall y, x, y', x' ::
      (0 <= y < grid.Length0 && 0 <= x < grid.Length1 &&
       0 <= y' < grid.Length0 && 0 <= x' < grid.Length1 &&
       grid[y, x] != null && grid[y, x] == grid[y', x']) ==> y == y' && x == x'
  }

  /** `index` maps the tile of every cell back to that cell's coordinates (y, x): a one-pass
      way of saying that no tile sits in two cells. */
  ghost predicate Indexed(grid: array2<Tile?>, index: map<Tile?, (int, int)>)
    reads grid
  {
    forall y, x :: 0 <= y < grid.Length0 && 0 <= x < grid.Length1 ==>
      grid[y, x] != null && grid[y, x] in index && index[grid[y, x]] == (y, x)
  }

  /** A grid whose tiles can be indexed by their cells holds every tile once. */
  lemma IndexedTilesAreDistinct(grid: array2<Tile?>, index: map<Tile?, (int, int)>)
    requires Indexed(grid, index)
    ensures Filled(grid) && DistinctTiles(grid)
  {
  }

  /** The grid holds a tile in every cell and reads back as `g`. */
  ghost predicate Shows(grid: array2<Tile?>, g: Grid)
    reads grid, TilesOf(grid)
  {
    IsRect(g, grid.Length1, grid.Length0) &&
    forall y, x :: 0 <= y < grid.Length0 && 0 <= x < grid.Length1 ==>
      grid[y, x] != null && grid[y, x].IsWall == g[y][x].isWall && grid[y, x].Theme == g[y][x].theme
  }

  /** The coordinates (x, y) of the cells of a heap grid that hold a floor tile. */
  ghost function FloorTiles(grid: array2<Tile?>): set<(int, int)>
    reads grid, TilesOf(grid)
  {
    set x, y | 0 <= x < grid.Length1 && 0 <= y < grid.Length0 && grid[y, x] != null && !grid[y, x].IsWall :: (x, y)
  }

  /** A grid whose tiles are floor exactly at the drawn pairs has the floor cells of the
      reference layout. */
  lemma FloorTilesArePlanCells(grid: array2<Tile?>, width: nat, height: nat, pairs: seq<(int, int)>)
    requires grid.Length0 == height && grid.Length1 == width
    requires forall y, x :: 0 <= y < height && 0 <= x < width ==>
      grid[y, x] != null && (grid[y, x].IsWall <==> (x, y) !in pairs)
    ensures FloorTiles(grid) == FloorCells(FloorPlan(width, height, pairs), width, height)
  {
  }

  /** A grid that shows the reference layout has a floor tile exactly where a pair was drawn,
      and no tile with a theme. */
  lemma ShowsPlanCells(grid: array2<Tile?>, width: nat, height: nat, pairs: seq<(int, int)>)
    requires grid.Length0 == height && grid.Length1 == width
    requires Shows(grid, FloorPlan(width, height, pairs))
    ensures forall y, x :: 0 <= y < height && 0 <= x < width ==>
      grid[y, x] != null && grid[y, x].Theme == None && (grid[y, x].IsWall <==> (x, y) !in pairs)
  {
  }

  /** The initialisation loops of GenerateFloor: a height-by-width Tile[,] whose every cell holds its
      own fresh wall tile without a theme. */
  method NewWallGrid(width: nat, height: nat) returns (grid: array2<Tile?>, ghost index: map<Tile?, (int, int)>)
    ensures fresh(grid) && grid.Length0 == height && grid.Length1 == width
    ensures Indexed(grid, index)
    ensures forall y, x :: 0 <= y < height && 0 <= x < width ==> fresh(grid[y, x])
    ensures Shows(grid, WallGrid(width, height))
  {
    grid := new Tile?[height, width]((_, _) => null);
    index := map[];

    for y := 0 to height
      invariant forall y', x' :: 0 <= y' < y && 0 <= x' < width ==>
        grid[y', x'] != null && fresh(grid[y', x']) && grid[y', x'].IsWall && grid[y', x'].Theme == None &&
        grid[y', x'] in index && index[grid[y', x']] == (y', x')
      invariant forall y', x' :: y <= y' < height && 0 <= x' < width ==> grid[y', x'] == null
    {
      for x := 0 to width
        invariant forall y', x' :: 0 <= y' < height && 0 <= x' < width && (y' < y || (y' == y && x' < x)) ==>
          grid[y', x'] != null && fresh(grid[y', x']) && grid[y', x'].IsWall && grid[y', x'].Theme == None &&
          grid[y', x'] in index && index[grid[y', x']] == (y', x')
        invariant forall y', x' :: 0 <= y' < height && 0 <= x' < width && (y' > y || (y' == y && x' >= x)) ==>
          grid[y', x'] == null
      {
        var tile := new Tile(true);
        grid[y, x] := tile;
        index := index[tile := (y, x)];
      }
    }
  }

  /** The assignment that turns the cell (x, y) of the grid into floor. Since no tile sits in
      two cells, the grid then shows `g` with that one cell carved. */
  method CarveTile(grid: array2<Tile?>, ghost index: map<Tile?, (int, int)>, ghost g: Grid, x: int, y: int)
    requires 0 <= y < grid.Length0 && 0 <= x < grid.Length1
    requires Indexed(grid, index) && Shows(grid, g)
    modifies grid[y, x]
    ensures Shows(grid, CarveCell(g, grid.Length1, grid.Length0, x, y))
  {
    grid[y, x].SetIsWall(false);
  }

  /** A FloorGenerator, bound to the random source it creates from a seed. */
  class FloorGenerator {
    const random: RandomSource

    /** A generator whose source is seeded with `seed`; `algorithm` is how the random library
        turns a seed into its stream of samples. */
    constructor (seed: int, algorithm: int -> Stream)
      ensures fresh(random)
      ensures random.Seed == seed && random.Samples == algorithm(seed) && random.Position == 0
    {
      random := new RandomSource(seed, algorithm);
    }

    /** The two draws of carve iteration i of a loop that began at call `start` of the
        source: x over [0, width), then y over [0, height). */
    method DrawCell(width: int, height: int, ghost start: nat, ghost i: nat) returns (x: int, y: int)
      requires width > 0 && height > 0
      requires random.Position == start + 2 * i
      modifies random
      ensures random.Position == old(random.Position) + 2
      ensures (x, y) == DrawAt(random.Samples, start, width, height, i)
      ensures 0 <= x < width && 0 <= y < height
    {
      x := random.Next(0, width);
      y := random.Next(0, height);
    }

    /** A height-by-width grid of fresh, distinct tiles in which a cell is floor exactly when
        one of the (width * height) / 2 drawn pairs names it, and no tile has a theme.
        Each iteration consumes two samples of the source, x first. */
    method GenerateFloor(width: int, height: int) returns (grid: array2<Tile?>)
      requires width >= 0 && height >= 0
      modifies random
      ensures fresh(grid) && grid.Length0 == height && grid.Length1 == width
      ensures Filled(grid) && DistinctTiles(grid)
      ensures forall y, x :: 0 <= y < height && 0 <= x < width ==> fresh(grid[y, x])
      ensures random.Position == old(random.Position) + 2 * FloorCount(width, height)
      ensures forall y, x :: 0 <= y < height && 0 <= x < width ==>
        grid[y, x] != null && grid[y, x].Theme == None &&
        (grid[y, x].IsWall <==> (x, y) !in CarveDraws(random.Samples, old(random.Position), width, height, FloorCount(width, height)))
      ensures |FloorTiles(grid)| <= FloorCount(width, height)
    {
      // 1. Every cell becomes a fresh wall tile.
      ghost var index;
      grid, index := NewWallGrid(width, height);

      // 2. (width * height) / 2 random cells become floor.
      var floorCount := FloorCount(width, height);
      ghost var start := random.Position;
      ghost var pairs: seq<(int, int)> := [];
      ghost var carved := WallGrid(width, height);
      for i := 0 to floorCount
        invariant random.Position == start + 2 * i
        invariant pairs == CarveDraws(random.Samples, start, width, height, i)
        invariant InGrid(pairs, width, height)
        invariant carved == CarveAll(WallGrid(width, height), width, height, pairs)
        invariant Indexed(grid, index)
        invariant forall y, x :: 0 <= y < height && 0 <= x < width ==> fresh(grid[y, x])
        invariant Shows(grid, carved)
      {
        FloorCountPositive(width, height);
        var randX, randY := DrawCell(width, height, start, i);
        CarveTile(grid, index, carved, randX, randY);
        CarveAllNext(WallGrid(width, height), width, height, pairs, randX, randY);
        pairs := pairs + [(randX, randY)];
        carved := CarveCell(carved, width, height, randX, randY);
      }
      CarveMatchesPlan(width, height, pairs);
      ShowsPlanCells(grid, width, height, pairs);
      FloorTilesArePlanCells(grid, width, height, pairs);
      GeneratedFloorBound(random.Samples, start, width, height);
      IndexedTilesAreDistinct(grid, index);
    }
  }

  /** Two generators built from the same seed (and the same random algorithm) generate
      tile-for-tile identical floors of the same size. */
  method SameSeedSameFloor(seed: int, algorithm: int -> Stream, width: int, height: int)
    returns (first: array2<Tile?>, second: array2<Tile?>)
    requires width >= 0 && height >= 0
    ensures first != second
    ensures first.Length0 == second.Length0 == height && first.Length1 == second.Length1 == width
    ensures forall y, x :: 0 <= y < height && 0 <= x < width ==>
      first[y, x] != null && second[y, x] != null &&
      first[y, x].IsWall == second[y, x].IsWall && first[y, x].Theme == second[y, x].Theme
  {
    var a := new FloorGenerator(seed, algorithm);
    first := a.GenerateFloor(width, height);
    var b := new FloorGenerator(seed, algorithm);
    second := b.GenerateFloor(width, height);
  }
}
