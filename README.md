# LootTowerPrototype floor generator — a Dafny model

LootTowerPrototype builds a dungeon floor for a game prototype. A `FloorGenerator` is made
from an integer seed and owns a seeded `System.Random`. Its one operation,
`GenerateFloor(width, height)`, works in two passes:

- it allocates a `Tile[height, width]` and puts a fresh wall tile in every cell;
- it then runs `(width * height) / 2` iterations; each draws `randX` from `[0, width)`, then
  `randY` from `[0, height)`, and sets the `IsWall` flag of the tile at `[randY, randX]` to false.

A `Tile` is a mutable record with a wall flag and a `RoomTheme`. The theme is one of five
enumerators (`None`, `Library`, `Prison`, `Cave`, `Generic`), and the constructor always sets it
to `None`.

The model has three modules, one per concern.

- `Tiles` (`tiles.dfy`): the `RoomTheme` datatype, its ordinal numbering, and the `Tile` class.
  The class has `IsWall` and `Theme` fields, a constructor, and one setter per property.
- `Randomness` (`random_source.dfy`): `RandomSource`, a stand-in for `System.Random`. It holds
  the stream of answers its seed determines, and a count of the calls answered so far. `Next(lo, hi)`
  keeps the library's range contract: `[lo, hi)`, or `lo` when `lo == hi`.
- `FloorGeneration` (`floor_generator.dfy`): the `FloorGenerator` class and the generator
  itself, over an `array2<Tile?>` of heap tiles.
  - A value view is defined beside it. `Cell` and `Grid` are the values a caller reads back.
  - `CarveAll` applies the carve steps one after another.
  - `FloorPlan` is an independent reference layout: a cell is floor iff a drawn pair names it.
  - `CarveDraws` lists the pairs the loop draws from the source's stream.

The carve loop of `GenerateFloor` is proved against this view:
- It keeps a ghost `Grid` equal to `CarveAll` of the pairs drawn so far.
- `CarveMatchesPlan` shows that `CarveAll` of a wall grid equals `FloorPlan`.
- So the result has a floor tile exactly where some iteration drew its pair, and no tile has a theme.

Heap distinctness is also proved. Each cell holds its own tile, and a ghost map from tile back to
cell shows it (`Indexed`, `DistinctTiles`). So writing one cell changes no other.

## Model

| member | source | states |
|---|---|---|
| Tiles.Ordinal | FloorGeneration/Tile.cs:4-11 | every enumerator's underlying value is below 5, the number of enumerators |
| Tiles.FromOrdinal | FloorGeneration/Tile.cs:4-11 | each value below 5 names the enumerator whose value it is (inverse of Ordinal) |
| Tiles.OrdinalRoundTrip | FloorGeneration/Tile.cs:4-11 | enumerator to value and back is the identity |
| Tiles.ExactlyFiveThemes | FloorGeneration/Tile.cs:4-11 | the list of enumerators has five pairwise distinct entries; each enumerator sits at its own value; None is 0 |
| Tiles.Tile.constructor | FloorGeneration/Tile.cs:18-22 | a new tile has the given wall flag and theme None, whatever the flag |
| Tiles.Tile.SetIsWall | FloorGeneration/Tile.cs:15 | setting IsWall leaves Theme as it was |
| Tiles.Tile.SetTheme | FloorGeneration/Tile.cs:16 | setting Theme leaves IsWall as it was |
| Randomness.Pick | FloorGeneration/FloorGenerator.cs:32-33 | the answer to Next(lo, hi) lies in [lo, hi), or is lo when the range is empty |
| Randomness.RandomSource.constructor | FloorGeneration/FloorGenerator.cs:12 | a source seeded with `seed` answers with the stream that seed determines, from its first call |
| Randomness.RandomSource.Next | FloorGeneration/FloorGenerator.cs:32-33 | the result is in range, is the stream's answer for this call, and the source moves on by one call |
| FloorGeneration.FloorGenerator.constructor | FloorGeneration/FloorGenerator.cs:9-13 | the generator owns a fresh source seeded with `seed`, at its first call |
| FloorGeneration.WallGrid | FloorGeneration/FloorGenerator.cs:17-26 | the grid the initialisation loops leave has height rows of width cells, each a wall with theme None |
| FloorGeneration.NewWallGrid | FloorGeneration/FloorGenerator.cs:17-26 | the Tile[height, width] is fresh, and every cell holds its own fresh tile; no tile sits in two cells; the grid reads back as WallGrid |
| FloorGeneration.IndexedTilesAreDistinct | FloorGeneration/FloorGenerator.cs:24 | a grid whose tiles map back to their own cells has a tile in every cell and no tile in two cells |
| FloorGeneration.CarveCell | FloorGeneration/FloorGenerator.cs:34 | one carve makes cell (x, y) floor, keeps its theme, and leaves every other cell as it was |
| FloorGeneration.CarveTile | FloorGeneration/FloorGenerator.cs:34 | writing IsWall = false on the tile at [y, x] of a grid of distinct tiles makes the grid read back as one CarveCell more |
| FloorGeneration.CarveAllNext | FloorGeneration/FloorGenerator.cs:30-35 | carving one more drawn pair is one more carve step, and the pairs stay inside the grid |
| FloorGeneration.CarveAllCell | FloorGeneration/FloorGenerator.cs:30-35 | after a run of carves a cell is a wall iff it was a wall before and no pair names it; its theme is unchanged |
| FloorGeneration.CarvingMonotone | FloorGeneration/FloorGenerator.cs:30-35 | a cell that is floor after the first k carves is floor after all of them: no floor reverts to wall |
| FloorGeneration.CarvePreservesWallsUnthemed | FloorGeneration/FloorGenerator.cs:34 | carving only touches the wall flag, so a grid in which no wall has a theme still has none after carving |
| FloorGeneration.CarveMatchesPlan | FloorGeneration/FloorGenerator.cs:20-35 | carving a wall grid step by step gives the reference layout: floor exactly at the drawn pairs, theme None everywhere |
| FloorGeneration.DistinctElementsBound | FloorGeneration/FloorGenerator.cs:30-35 | a sequence of draws has at most as many distinct elements as it is long |
| FloorGeneration.FloorCountBound | FloorGeneration/FloorGenerator.cs:30-35 | the floor cells of the reference layout are exactly the drawn pairs, at most as many as the draws (duplicates are possible) |
| FloorGeneration.GeneratedFloorBound | FloorGeneration/FloorGenerator.cs:29-35 | for every stream, the drawn pairs lie in the grid and the layout they carve has at most (width * height) / 2 floor cells |
| FloorGeneration.FloorTilesArePlanCells | FloorGeneration/FloorGenerator.cs:34 | a heap grid whose tiles are floor exactly at the drawn pairs has the floor cells of the reference layout |
| FloorGeneration.FloorCountPositive | FloorGeneration/FloorGenerator.cs:29-30 | the carve loop runs only on a grid with at least one row and one column, so Next is never asked for an empty range |
| FloorGeneration.CarveDrawsInGrid | FloorGeneration/FloorGenerator.cs:32-34 | every drawn pair names a cell of the grid, so every carve write is in bounds |
| FloorGeneration.CarveDrawsAt | FloorGeneration/FloorGenerator.cs:30-33 | iteration i draws x from call start + 2i and y from call start + 2i + 1, however many iterations follow |
| FloorGeneration.FloorGenerator.DrawCell | FloorGeneration/FloorGenerator.cs:32-33 | iteration i consumes two calls of the source, x first, and both values lie in the grid |
| FloorGeneration.ShowsPlanCells | FloorGeneration/FloorGenerator.cs:34 | a grid showing the reference layout has a floor tile exactly at the drawn pairs and theme None on every tile |
| FloorGeneration.FloorGenerator.GenerateFloor | FloorGeneration/FloorGenerator.cs:15-38 | the result is a fresh height-by-width grid of fresh, distinct tiles; exactly (width * height) / 2 iterations each consume two draws; a tile is a wall iff no iteration drew its (x, y); every theme is None; at most (width * height) / 2 tiles are floor |
| FloorGeneration.SameSeedSameFloor | FloorGeneration/FloorGenerator.cs:9-38 | two generators made from the same seed produce distinct but tile-for-tile identical grids of the same size |

The table lists members by their contracts. Some definitions carry no contract of their own, and the lemmas above are stated about them:
- `FloorCount` is the iteration count `(width * height) / 2` of FloorGeneration/FloorGenerator.cs:29.
- `DrawAt` and `CarveDraws` are the pairs `(randX, randY)` drawn at FloorGeneration/FloorGenerator.cs:32-33.
- `CarveAll` is the carve loop of FloorGeneration/FloorGenerator.cs:30-35, read on values.
- `FloorPlan` is the reference layout that loop should produce.

## Left out

- Program.cs is not part of this model: it parses the seed from the command line, prints the grid as `#`/`.` characters and waits for a key. All of that is console I/O.
- System.Random's algorithm is a foreign library. A seed's stream of answers is the constructor parameter `algorithm`, constrained only by the range contract of `Next(minValue, maxValue)`. So determinism is proved for a fixed algorithm, and no concrete layout is computed.
- FloorGeneration.FloorGenerator.GenerateFloor: negative dimensions are a precondition. The source throws when it allocates `new Tile[height, width]` with a negative extent, and that exception is not modelled.
- FloorGeneration.FloorCount: `width * height` is unbounded here. In C# it is a 32-bit product that could wrap, but only for grids far larger than any array the runtime can allocate.
- The initial null references of a fresh `Tile[,]` are modelled as an `array2<Tile?>` filled with `null`. The contracts state that no null is left once the initialisation loops end.
- Dimensions of zero are allowed: the code makes an empty grid and draws nothing.
- The code has no room placement, overlap tests, elliptical rooms, theme stamping or corridors, so the model has none: no tile ever gets a theme other than None.
- Tiles.RoomTheme: a C# enum is open, so a cast such as `(RoomTheme)7` is a legal value of `Theme`. The datatype has only the five named members, and values outside them are not modelled. The generator never produces one.
