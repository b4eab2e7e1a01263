# Sea-level-rise flood engine, modelled in Dafny

The program reads a terrain grid of elevations and tags every cell:
ocean-like (-1) when the cell holds the no-data value or lies at or below
0, land (0) otherwise. It then floods the ocean from the border of the grid
and raises the water step by step up to a ceiling. A land cell that the
rising water reaches at a level at or above its elevation is labelled with
that level in `checkGrid`. At the end, every cell is exported shifted down
by the ceiling, or as 0 when it is under water.

The model has four modules:

- `Cells` (cells.dfy): the row-major code `i*cols + j` under which the
  queues store a cell, its decoding with `/` and `%`, and the in-bounds
  4-neighbourhood.
- `Terrain` (terrain.dfy): the per-cell load tag, the land count
  `initLand`, the running maximum `maxz`, and the per-cell export rule.
- `Schedule` (schedule.dfy): the sequence of water levels at which the
  rising-water passes run.
- `SeaLevelRise` (flood.dfy): the class `FloodRun`. It holds the program's
  globals: the three grids as `array2<int>`, the coastline queue
  `nextqueue`, the water level `feet`, and the constants `rows`, `cols`,
  `ndval`, `ceiling` and `fIncrement`. Its methods are the loading loop,
  `clearCompletion`, `flood`, `slr`, `floodUp`, the export loop and main's
  sequence of calls.

The methods work in place on the grids, as the program does. They are
proved against one invariant of the breadth-first searches (`Inv`), kept
over ghost state:

- `Visited`: the cells marked in `completionGrid`;
- `Ocean`: the cells the ocean flood fill expanded;
- `Level`: the level written to every flooded cell;
- `Parent`: the wet neighbour from which every queued cell was reached;
- `Passes`: the levels of the passes run so far;
- `Pops`: the number of cells the flood fill popped.

The invariant says:

- `completionGrid` and `checkGrid` agree with that state.
- Every visited cell is exactly one of: wet (ocean or flooded), waiting in
  the current queue, on the next coastline, or just popped.
- No queue holds a cell twice.
- Every wet cell that has been expanded has all its neighbours visited.
- Every flooded cell lies at or below its level, which is the level of a
  pass already run.
- Every wet or queued cell that is not a border seed records the wet
  neighbour it was reached from, at a rank above that neighbour's, so
  the links lead back to a border seed without a cycle (`Rooted`). A
  flooded cell is never reached from a cell flooded higher (`Ordered`).

From these, `LinksConnect` proves that every ocean cell is joined to an
ocean-like border cell through ocean cells, and every flooded cell is
joined to the ocean through wet cells flooded no higher. What slr leaves
is summed up by `Settled`: the ocean holds every ocean-like border cell,
is closed under ocean-like neighbours and holds only ocean-like cells;
every flooded cell lies at or below the level of its pass; both kinds of
cell are joined as above; every neighbour of a wet cell that lies at
or below the last level is wet; and every pass level h is a water mark
(`Layered`): a cell at or below h next to an ocean cell or to a cell
flooded at h or lower is itself flooded at h or lower, so each label is
the first pass level at which the water reaches its cell.

## Model

| member | source | states |
|---|---|---|
| Terrain.Class | project6-slr-duncangans1/slr.cpp:121-127 | the load tag is -1 or 0, and it is 0 exactly when the value is not the no-data value and lies above 0 |
| Terrain.CountLand | project6-slr-duncangans1/slr.cpp:125 | the land count accumulated over the values is at most the number of values |
| Terrain.CountLandIsLandPositions | project6-slr-duncangans1/slr.cpp:117-129 | the land count accumulated by `initLand += 1` equals the number of cells tagged land |
| Terrain.MaxElev | project6-slr-duncangans1/slr.cpp:128 | the running maximum bounds every value, is at least its start, and is the start or one of the values |
| Terrain.ExportValue | project6-slr-duncangans1/slr.cpp:385-388 | the exported value is the elevation minus the height or 0; a dry cell (tag 0) or a cell tagged at or above the height writes its elevation minus the height, and a cell with another tag below the height writes 0 |
| Terrain.ExportAtHeight | project6-slr-duncangans1/slr.cpp:385-388 | at a non-negative height, a dry cell (tag 0) exports its elevation minus the height; an ocean-like cell or one flooded below the height exports 0 |
| Cells.EncodeDecode | project6-slr-duncangans1/slr.cpp:198-205 | the code `i*cols + j` of an in-bounds cell is in `[0, rows*cols)` and decodes with `/ cols` and `% cols` back to `(i, j)` |
| Cells.DecodeEncode | project6-slr-duncangans1/slr.cpp:157-159 | every code in `[0, rows*cols)` decodes to an in-bounds cell that encodes back to the same code |
| Cells.EncodeInjective | project6-slr-duncangans1/slr.cpp:117-127 | two in-bounds cells with the same code are the same cell, so the loading loop writes each cell once |
| Cells.NeighbourMembers | project6-slr-duncangans1/slr.cpp:208-223 | each of the four bounds-guarded steps tried by the flood loops yields a member of the neighbourhood |
| Cells.NeighboursInGrid | project6-slr-duncangans1/slr.cpp:208-223 | every neighbour code is the code of an in-bounds cell one row or one column away |
| Cells.NeighboursSymmetric | project6-slr-duncangans1/slr.cpp:208-223 | if one cell is a neighbour of another, the second is a neighbour of the first |
| Cells.CardBound | project6-slr-duncangans1/slr.cpp:201-205 | a set of cell codes has at most rows*cols members, which bounds the number of pops |
| Schedule.PassLevelsShape | project6-slr-duncangans1/slr.cpp:154-189 | entered at `level`, the passes run at `level + k*inc`, each below the ceiling, and the first level skipped is at or above the ceiling |
| Schedule.PassLevelsFrom | project6-slr-duncangans1/slr.cpp:146-191 | no pass runs iff the level entered is at or above the ceiling, and otherwise the first pass runs at the level entered |
| Schedule.RunLevels | project6-slr-duncangans1/slr.cpp:273-278 | after slr's first raise from 0, the passes run at exactly `inc, 2*inc, ...` below the ceiling, in increasing order |
| Schedule.PassLevelsStep | project6-slr-duncangans1/slr.cpp:188-189 | after one pass at `level`, the remaining schedule is the one entered at `level + inc` |
| SeaLevelRise.DistinctJoin | project6-slr-duncangans1/slr.cpp:208-223 | appending a repeat-free queue of cells not already queued keeps the queue repeat-free |
| SeaLevelRise.FloodRun.constructor | project6-slr-duncangans1/slr.cpp:39-55 | the grids are allocated fresh and zero-filled in every cell, the coastline queue is empty, and `feet`, `initLand` and `maxz` start at 0 |
| SeaLevelRise.FloodRun.Classify | project6-slr-duncangans1/slr.cpp:117-129 | every cell gets its elevation; its tag is -1 iff the value is the no-data value or at most 0, and 0 otherwise; `initLand` grows by the land count; `maxz` becomes the running maximum |
| SeaLevelRise.FloodRun.ClearCompletion | project6-slr-duncangans1/slr.cpp:132-144 | the visited grid is all zeros, so no cell is visited |
| SeaLevelRise.FloodRun.PushIfUnvisited | project6-slr-duncangans1/slr.cpp:208-211 | the cell becomes visited and joins the queue iff it was not visited before |
| SeaLevelRise.FloodRun.PopHead | project6-slr-duncangans1/slr.cpp:203-205 | the popped head stays visited, is held apart from the rest of the queue, and is a valid code |
| SeaLevelRise.FloodRun.UnvisitedCells | project6-slr-duncangans1/slr.cpp:208-223 | the four tests append exactly the neighbours not yet visited, each once |
| SeaLevelRise.FloodRun.UnvisitedApart | project6-slr-duncangans1/slr.cpp:208-223 | the pieces the four tests can append share no cell, so together they hold no cell twice |
| SeaLevelRise.FloodRun.EnqueuedAppends | project6-slr-duncangans1/slr.cpp:208-223 | the four tests, in the order right, left, down, up, append the unvisited neighbours to the queue |
| SeaLevelRise.FloodRun.AlongIgnoresAcross | project6-slr-duncangans1/slr.cpp:208-223 | marking the right and left neighbours does not change the outcome of the down and up tests |
| SeaLevelRise.FloodRun.NeighboursApart | project6-slr-duncangans1/slr.cpp:208-223 | the four neighbours of a cell have four different codes: all six pairs, right/left included, differ |
| SeaLevelRise.FloodRun.VisitAcross | project6-slr-duncangans1/slr.cpp:208-215 | the right and left tests mark those neighbours visited and queue the ones not visited before |
| SeaLevelRise.FloodRun.VisitAlong | project6-slr-duncangans1/slr.cpp:216-223 | the down and up tests mark those neighbours visited and queue the ones not visited before |
| SeaLevelRise.FloodRun.VisitNeighbours | project6-slr-duncangans1/slr.cpp:208-223 | all in-bounds neighbours become visited, and the queue grows by the previously unvisited ones in test order |
| SeaLevelRise.FloodRun.ExpandRooted | project6-slr-duncangans1/slr.cpp:208-223 | every cell queued from a wet cell is recorded as reached from that neighbour at a higher rank, so following the reached-from links always ends at a border seed |
| SeaLevelRise.FloodRun.Chain | project6-slr-duncangans1/slr.cpp:193-248 | following the reached-from links from a wet cell gives a path of neighbouring wet cells that starts at an ocean border cell and ends at the cell; from an ocean cell the path stays in the ocean |
| SeaLevelRise.FloodRun.ChainBelow | project6-slr-duncangans1/slr.cpp:156-183 | the path back from a flooded cell passes only cells flooded at a level at or below its own |
| SeaLevelRise.FloodRun.LinksConnect | project6-slr-duncangans1/slr.cpp:193-248 | every ocean cell is joined to an ocean-like border cell by a path of ocean cells, and every flooded cell is joined to the ocean by a path of wet cells flooded no higher than it |
| SeaLevelRise.FloodRun.LevelOrdered | project6-slr-duncangans1/slr.cpp:163 | labelling a new cell with the current level, which no older label exceeds, keeps every flooded cell at or above the cell it was reached from |
| SeaLevelRise.FloodRun.ReachOrdered | project6-slr-duncangans1/slr.cpp:164-179 | queuing the unvisited neighbours of a cell keeps every flooded cell at or above the cell it was reached from |
| SeaLevelRise.FloodRun.ExpandClosed | project6-slr-duncangans1/slr.cpp:208-223 | once its neighbours are visited, the expanded wet cell has no unvisited neighbour |
| SeaLevelRise.FloodRun.ExpandPartition | project6-slr-duncangans1/slr.cpp:208-223 | queuing the newly visited cells keeps every visited cell in exactly one place, with no cell queued twice |
| SeaLevelRise.FloodRun.ExpandPending | project6-slr-duncangans1/slr.cpp:208-223 | every cell waiting after the expansion was reached from a wet neighbour or is a border seed |
| SeaLevelRise.FloodRun.DistinctCard | project6-slr-duncangans1/slr.cpp:201-205 | a repeat-free queue has as many cells as positions |
| SeaLevelRise.FloodRun.ExpandCount | project6-slr-duncangans1/slr.cpp:208-223 | the queue grows by exactly the number of newly visited cells |
| SeaLevelRise.FloodRun.ExpandKeepsInv | project6-slr-duncangans1/slr.cpp:206-223 | expanding a wet cell keeps the search invariant and the count linking queue length to visited cells |
| SeaLevelRise.FloodRun.ExpandNeighbours | project6-slr-duncangans1/slr.cpp:206-223 | the expansion keeps the invariant, visits exactly the old cells plus the neighbours, and queues the unvisited neighbours |
| SeaLevelRise.FloodRun.OceanTurn | project6-slr-duncangans1/slr.cpp:206-224 | an ocean-like popped cell becomes ocean and its unvisited neighbours are queued; checkGrid is not written |
| SeaLevelRise.FloodRun.AppendCoast | project6-slr-duncangans1/slr.cpp:246 | a land popped cell is appended to the coastline `nextqueue` |
| SeaLevelRise.FloodRun.PopFront | project6-slr-duncangans1/slr.cpp:203-205 | the flood loop pops the head of its queue, and the pop count grows by one |
| SeaLevelRise.FloodRun.HeldTag | project6-slr-duncangans1/slr.cpp:206 | during the flood fill, a popped cell still carries its load tag |
| SeaLevelRise.FloodRun.SeedTurn | project6-slr-duncangans1/slr.cpp:206-246 | an ocean-like cell is expanded and a land cell goes to the coastline; the branch at line 225 is unreachable |
| SeaLevelRise.FloodRun.SeedStep | project6-slr-duncangans1/slr.cpp:201-247 | one loop turn pops the head and takes its branch; the queue length plus the pops tracks the visited cells |
| SeaLevelRise.FloodRun.StartSeed | project6-slr-duncangans1/slr.cpp:198-200 | the seed is marked visited and is the only cell of the new queue |
| SeaLevelRise.FloodRun.Flood | project6-slr-duncangans1/slr.cpp:193-248 | the flood fill from an unvisited ocean-like border cell keeps the invariant, visits the seed, and only adds to the visited cells, the ocean and the coastline |
| SeaLevelRise.FloodRun.SeedTag | project6-slr-duncangans1/slr.cpp:258 | during the scan, a border cell's tag is its load tag and its visited mark is its membership in Visited |
| SeaLevelRise.FloodRun.FloodIfSeed | project6-slr-duncangans1/slr.cpp:258-260 | afterwards an ocean-like border cell is visited and no visited cell is lost; a land or already visited cell changes nothing: the visited cells, the ocean, the links, the coastline and the pop count stay as they were |
| SeaLevelRise.FloodRun.FloodIfSeeds | project6-slr-duncangans1/slr.cpp:258-263 | both border-cell tests of one scan step leave their ocean-like cells visited |
| SeaLevelRise.FloodRun.ScanRows | project6-slr-duncangans1/slr.cpp:257-264 | after the scan of rows 0 and rows-1, every ocean-like cell in them is visited |
| SeaLevelRise.FloodRun.ScanColumns | project6-slr-duncangans1/slr.cpp:265-272 | after the scan of columns 0 and cols-1, every ocean-like cell in them is visited, and no visited cell is lost |
| SeaLevelRise.FloodRun.ScanBorder | project6-slr-duncangans1/slr.cpp:257-272 | after both scans, every ocean-like border cell is visited |
| SeaLevelRise.FloodRun.SeededOcean | project6-slr-duncangans1/slr.cpp:206-224 | after the flood fill, a visited ocean-like cell is ocean |
| SeaLevelRise.FloodRun.CoastFacts | project6-slr-duncangans1/slr.cpp:246 | after the flood fill, the coastline holds distinct land cells, each next to an ocean cell |
| SeaLevelRise.FloodRun.SeedShut | project6-slr-duncangans1/slr.cpp:193-248 | after the flood fill, every ocean-like neighbour of an ocean cell is ocean |
| SeaLevelRise.FloodRun.OceanClosed | project6-slr-duncangans1/slr.cpp:193-248 | after the flood fill, every neighbour of an ocean cell is ocean or on the coastline |
| SeaLevelRise.FloodRun.SeedPops | project6-slr-duncangans1/slr.cpp:201-205 | the flood fill pops at most rows*cols cells, because each cell is queued at most once |
| SeaLevelRise.FloodRun.SeedToWave | project6-slr-duncangans1/slr.cpp:278 | the coastline of the flood fill satisfies the invariant of a rising-water pass |
| SeaLevelRise.FloodRun.NextPass | project6-slr-duncangans1/slr.cpp:182-189 | the coastline a pass leaves satisfies the invariant of the next pass at the raised level |
| SeaLevelRise.FloodRun.PopWave | project6-slr-duncangans1/slr.cpp:157-159 | a pass pops the head of its queue, which stays visited |
| SeaLevelRise.FloodRun.SetLevel | project6-slr-duncangans1/slr.cpp:163 | a popped cell at or below the water is labelled with the current level in Level and in checkGrid; it had no label before, and no flooded cell lies below the cell it was reached from |
| SeaLevelRise.FloodRun.LevelTurn | project6-slr-duncangans1/slr.cpp:160-180 | a cell at or below the water is labelled and its unvisited neighbours are queued, even an ocean-like cell enclosed by land |
| SeaLevelRise.FloodRun.DeferTurn | project6-slr-duncangans1/slr.cpp:181-183 | a cell above the water joins the next coastline |
| SeaLevelRise.FloodRun.WaveStep | project6-slr-duncangans1/slr.cpp:156-183 | one loop turn: at or below the water, label the cell and queue its unvisited neighbours; above it, defer it to `newqueue`; older labels are kept and new ones equal the current level; the count of visited cells is kept |
| SeaLevelRise.FloodRun.ExportOutcome | project6-slr-duncangans1/slr.cpp:383-390 | with checkGrid recording the load tags and the levels of a run from fIncrement, the export writes 0 for ocean-like and flooded cells and the elevation minus the ceiling otherwise; every level lies in (0, ceiling), so at a negative ceiling nothing is flooded |
| SeaLevelRise.FloodRun.FloodLevel | project6-slr-duncangans1/slr.cpp:153-183 | a pass drains its queue; only unlabelled cells get a label, equal to the current level, which is at least every older label |
| SeaLevelRise.FloodRun.RisePass | project6-slr-duncangans1/slr.cpp:153-189 | a pass at the level, then the level raised by fIncrement above every pass run; the next coastline lies above the old level, and the pass level joins the water marks |
| SeaLevelRise.FloodRun.PassClosed | project6-slr-duncangans1/slr.cpp:156-183 | once a pass has drained its queue, every neighbour of a wet cell that lies at or below the pass level is wet |
| SeaLevelRise.FloodRun.LayerStep | project6-slr-duncangans1/slr.cpp:156-189 | a pass above all earlier ones that keeps old labels, labels new cells with its level and leaves the water closed at that level keeps every earlier level a water mark and adds its own |
| SeaLevelRise.FloodRun.PassLayered | project6-slr-duncangans1/slr.cpp:156-189 | the state a drained pass leaves extends the water marks by the pass level |
| SeaLevelRise.FloodRun.FirstLevel | project6-slr-duncangans1/slr.cpp:163 | a flooded cell lay above every earlier pass level at which a neighbour of it was ocean or already flooded: its label is the first pass level that reaches it |
| SeaLevelRise.FloodRun.FloodUp | project6-slr-duncangans1/slr.cpp:146-191 | returns at once when `feet >= ceiling`; otherwise runs passes at the scheduled levels; labels are written once and lie between the entry level and the ceiling; every pass level stays a water mark (Layered), so a label is the first level that reaches the cell; the ocean and flooded cells are joined as LinksConnect states; every neighbour of a wet cell is wet or on the returned coastline, whose cells lie above the last level |
| SeaLevelRise.FloodRun.WetClosed | project6-slr-duncangans1/slr.cpp:146-191 | once no cell waits, every flooded cell lies at or below the level of a pass run, the ocean is ocean-like and unlabelled, checkGrid records the levels, and every neighbour of a wet cell is wet or on the last coastline |
| SeaLevelRise.FloodRun.FindOcean | project6-slr-duncangans1/slr.cpp:257-272 | every ocean-like border cell is ocean, every ocean-like neighbour of an ocean cell is ocean, every ocean cell is joined to the border through ocean cells, and the coastline holds distinct land cells next to the ocean |
| SeaLevelRise.FloodRun.Rise | project6-slr-duncangans1/slr.cpp:273-278 | raising the level and running floodUp labels cells only at scheduled levels at or above their elevation and below the ceiling, each the first level that reaches the cell (Layered); the ocean stays ocean-like and unlabelled; the wet cells are joined as LinksConnect states; every neighbour of a wet cell is wet or on the last coastline, which lies above the last level |
| SeaLevelRise.FloodRun.SlrSettles | project6-slr-duncangans1/slr.cpp:252-279 | the facts of the border scan and of the rise add up to Settled: the ocean is exactly closed under ocean-like neighbours from the border, flooded cells are joined to it no higher than their level, every pass level is a water mark, and every neighbour of a wet cell at or below the last level is wet |
| SeaLevelRise.FloodRun.Slr | project6-slr-duncangans1/slr.cpp:252-279 | after the border scan and the rise the grid is Settled (see SlrSettles), the coastline holds distinct land cells next to the ocean, the passes ran at the scheduled levels below the ceiling, and checkGrid records every level |
| SeaLevelRise.FloodRun.Export | project6-slr-duncangans1/slr.cpp:383-390 | one value per cell in row-major order: its elevation minus the height when its tag is at least the height or 0, and 0 otherwise |
| SeaLevelRise.FloodRun.Load | project6-slr-duncangans1/slr.cpp:416-435 | the elevations are loaded and tagged, `feet` is the floor level, nothing is visited, flooded or ocean yet and no pass has run, `initLand` grows by the land count and `maxz` is the running maximum |
| SeaLevelRise.FloodRun.FloodAndExport | project6-slr-duncangans1/slr.cpp:437-445 | slr followed by the export at the ceiling: the grid is Settled over the loaded elevations (every label the first pass level reaching its cell), checkGrid records the load tags and the labels, and the export is 0 exactly on ocean-like and flooded cells at a non-negative ceiling |
| SeaLevelRise.FloodRun.Run | project6-slr-duncangans1/slr.cpp:416-445 | load, `feet = floorVal`, clearCompletion, slr and export at the ceiling: over the loaded values the grid is Settled (every label the first pass level reaching its cell), checkGrid records the load tags and the labels, the passes run at `fIncrement, 2*fIncrement, ...` below the ceiling, and the export is 0 exactly on ocean-like and flooded cells |

## Left out

- File input and output are not modelled. The elevations come in as a sequence of values, and the export is returned as a sequence of numbers. The header lines of the exported file, and its `%f` / `%d` text formatting, are not modelled.
- The OpenGL display, keyboard handling, timing, `printDetails` and the parsing of the command line are not modelled. `ceiling`, `fIncrement` and `ndval` are constructor parameters.
- Elevations, levels and tags are `int`, not `float`. Rounding and drift in `feet += fIncrement` are not modelled.
- Classify: `initLand` is a `float` in the program, so `initLand += 1` stops growing once it reaches 2^24 (16,777,216). The model counts exactly, so its land count agrees with the program only below 2^24 land cells.
- CountLand: the same limit applies. It is the exact count of land cells, which the program's `float` counter matches only below 2^24.
- Encode: `rows * cols` and the cell codes `i*cols + j` are C `int` in the program and overflow once the grid has more than 2^31 - 1 cells. The model's codes, Size and Cells are unbounded, so grids that large are not modelled.
- `floorVal` is never assigned in the program, so it keeps its zero initial value; the model fixes it at 0.
- The model requires `fIncrement > 0`. With a zero or negative increment, floodUp recurses without end whenever `feet < ceiling`.
- SeaLevelRise.FloodRun.Slr requires that `rows` and `cols` are both 0 or both positive. An empty 0x0 grid is accepted: both scans do nothing. A grid with exactly one zero dimension is left out, because slr then reads row 0 (or column 0) of a grid that has none, which is out of bounds.
- SeaLevelRise.FloodRun.Flood requires its seed to be an unvisited cell tagged -1, the only way slr calls it. A call on a visited cell, which would queue that cell twice, is not modelled.
- SeaLevelRise.FloodRun.FloodUp returns the last coastline as an out-parameter; the program drops it. It also takes the whole schedule of passes as a ghost parameter, so that its contract can name the passes still to run.
- `feet` is raised once more after the last pass, as in the program; the model does not restore it.
- An ocean-like cell enclosed by land never becomes ocean. When a flooded neighbour queues it, the pass labels it with the current level, as it would a land cell. This follows from the code and is not special-cased.
- The middle branch of flood, a cell at or below 0 that is not tagged -1 (lines 225-245), can never run: the first test already takes every such cell. The model asserts that it is unreachable instead of modelling its body.
