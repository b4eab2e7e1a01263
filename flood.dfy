/** The flood-propagation engine of the sea-level-rise simulator.

    One FloodRun object holds what the program keeps in globals: the
    elevation grid, the tag grid `checkGrid` (-1 ocean-like, 0 dry land, or
    the water level at which the cell flooded), the visited grid
    `completionGrid`, the coastline queue `nextqueue` found by the ocean
    seeding, and the current water level `feet`. Queues hold cells encoded
    as i*cols + j.

    Ghost state records what the engine has done so far: the cells marked
    visited, the cells expanded as ocean while seeding, the level written to
    every flooded cell, the cell from which every queued cell was reached,
    the levels of the passes run, and the number of cells the seeding popped.

    The program writes each flood loop as one function body. Here the turn
    of each loop is split into small methods that run the same statements
    in the same order: PopFront, SeedTurn (with MarkOcean and AppendCoast)
    and SeedStep for the loop of flood; SetLevel, LevelTurn and WaveStep
    for the loop of floodUp; VisitAcross, VisitAlong, VisitNeighbours and
    ExpandNeighbours for the four neighbour tests both loops share. Each is
    proved on its own, so that no proof carries a whole loop body.
 */
module SeaLevelRise {
  import opened Cells
  import opened Terrain
  import opened Schedule

  /** The starting water level. The program never assigns it, so it keeps
      its zero initial value. */
  const FloorVal: int := 0

  /** The level the water last reached in a pass: the level of the last
      pass run, or the starting level when none ran. */
  function Waterline(passes: seq<int>): (w: int) {
    if passes == [] then FloorVal else passes[|passes| - 1]
  }

  /** No value occurs twice: a queue in which no cell waits twice. */
  predicate Distinct(s: seq<int>) {
    forall a, b :: 0 <= a < b < |s| ==> s[a] != s[b]
  }

  /** Two queues without repeats and without a common cell join into a
      queue without repeats. */
  lemma DistinctJoin(s: seq<int>, t: seq<int>)
    requires Distinct(s) && Distinct(t) && forall x :: x in s ==> x !in t
    ensures Distinct(s + t)
  {
    forall a, b | 0 <= a < b < |s + t|
      ensures (s + t)[a] != (s + t)[b]
    {
      if b < |s| {
        assert (s + t)[a] == s[a] && (s + t)[b] == s[b];
      } else if a < |s| {
        assert (s + t)[a] == s[a] && s[a] in s;
        assert (s + t)[b] == t[b - |s|] && t[b - |s|] in t;
      } else {
        assert (s + t)[a] == t[a - |s|] && (s + t)[b] == t[b - |s|];
      }
    }
  }

  /** How a queued cell was reached: from the cell `from`, `rank` steps
      away from a seed. */
  datatype Link = Link(from: int, rank: nat)

  class FloodRun {
    const rows: nat
    const cols: nat
    const ndval: int
    const ceiling: int
    const fIncrement: int

    const grid: array2<int>
    const checkGrid: array2<int>
    const completionGrid: array2<int>

    var nextqueue: seq<int>
    var feet: int
    var initLand: nat
    var maxz: int

    ghost var Elevs: seq<int>
    ghost var Visited: set<int>
    ghost var Ocean: set<int>
    ghost var Level: map<int, int>
    ghost var Parent: map<int, Link>
    ghost var Passes: seq<int>
    ghost var Pops: nat

    function Cell(i: int, j: int): (c: int) {
      Encode(cols, i, j)
    }

    predicate InBounds(i: int, j: int) {
      InGrid(rows, cols, i, j)
    }

    function Size(): (n: nat) {
      rows * cols
    }

    /** The in-bounds neighbours of the cell with code c. */
    function Nbrs(c: int): (ns: set<int>) {
      if cols > 0 then NeighboursOf(rows, cols, c / cols, c % cols) else {}
    }

    /** The cell with code c lies on the border of the grid. */
    predicate BorderCode(c: int) {
      cols > 0 && OnBorder(rows, cols, c / cols, c % cols)
    }

    ghost predicate Shape() {
      grid.Length0 == rows && grid.Length1 == cols &&
      checkGrid.Length0 == rows && checkGrid.Length1 == cols &&
      completionGrid.Length0 == rows && completionGrid.Length1 == cols &&
      grid != checkGrid && grid != completionGrid && checkGrid != completionGrid
    }

    /** The entry of grid `a` for the cell with code c. */
    ghost function At(a: array2<int>, c: int): (v: int)
      requires a.Length0 == rows && a.Length1 == cols && 0 <= c < Size()
      reads a
    {
      DecodeEncode(rows, cols, c);
      a[c / cols, c % cols]
    }

    /** The elevation of the cell with code c. */
    ghost function Elev(c: int): (e: int)
      reads this`Elevs
    {
      if 0 <= c < |Elevs| then Elevs[c] else 0
    }

    /** Elevs lists the elevations of grid in row-major order. */
    ghost predicate Terrain()
      reads this`Elevs, grid
    {
      Shape() && |Elevs| == Size() &&
      forall i, j {:trigger grid[i, j]} :: InBounds(i, j) ==> grid[i, j] == Elev(Cell(i, j))
    }

    /** completionGrid is 1 exactly on the visited cells and 0 elsewhere. */
    ghost predicate Valid()
      reads this`Visited, completionGrid
    {
      Shape() &&
      (forall c :: c in Visited ==> 0 <= c < Size()) &&
      (forall i, j {:trigger completionGrid[i, j]} :: InBounds(i, j) ==>
        completionGrid[i, j] == if Cell(i, j) in Visited then 1 else 0)
    }

    /** checkGrid holds the flood level of every flooded cell and the load
        tag of every other cell. */
    ghost predicate Labelled()
      reads this`Level, this`Elevs, checkGrid
    {
      Shape() &&
      forall i, j {:trigger checkGrid[i, j]} :: InBounds(i, j) ==>
        checkGrid[i, j] == if Cell(i, j) in Level then Level[Cell(i, j)] else Class(ndval, Elev(Cell(i, j)))
    }

    /** Every ocean cell is in the grid, ocean-like and not flooded. */
    ghost predicate OceanLike()
      reads this`Ocean, this`Level, this`Elevs
    {
      forall c :: c in Ocean ==> 0 <= c < Size() && Class(ndval, Elev(c)) == -1 && c !in Level
    }

    /** Every ocean cell is a border cell or was queued from another cell,
        and so was every flooded cell; every queued cell was queued from a
        wet (ocean or flooded) cell next to it, an ocean cell from an ocean
        cell. */
    ghost predicate Rooted(ocean: set<int>, level: map<int, int>, parent: map<int, Link>) {
      (forall c :: c in ocean ==> BorderCode(c) || c in parent) &&
      (forall c :: c in level ==> c in parent) &&
      (forall c {:trigger parent[c].from} :: c in parent ==>
        c in Nbrs(parent[c].from) && (parent[c].from in ocean || parent[c].from in level) &&
        (c in ocean ==> parent[c].from in ocean) &&
        RankOf(parent, parent[c].from) < parent[c].rank)
    }

    /** The rank of cell c: the number of steps by which it was reached
        from a seed, 0 for a cell not reached from another. */
    ghost function RankOf(parent: map<int, Link>, c: int): (r: nat) {
      if c in parent then parent[c].rank else 0
    }

    /** Every wet (ocean or flooded) cell outside `open` has all its
        neighbours visited. */
    ghost predicate Closed(ocean: set<int>, level: map<int, int>, visited: set<int>, open: set<int>) {
      forall c {:trigger Nbrs(c)} :: (c in ocean || c in level) && c !in open ==> Nbrs(c) <= visited
    }

    /** Every flooded cell lies at or below its level, which is the level
        of a pass run so far and not above `top`. */
    ghost predicate LevelFacts(top: int)
      reads this`Level, this`Passes, this`Elevs
    {
      forall c :: c in Level ==>
        0 <= c < Size() && Elev(c) <= Level[c] <= top && Level[c] in Passes
    }

    /** The visited cells are the wet cells, the queue `cq` being drained,
        the next coastline `nq` and the cells `held` just popped, with no
        cell in two of them and no cell twice in a queue. */
    ghost predicate Partition(visited: set<int>, ocean: set<int>, level: map<int, int>,
                              cq: seq<int>, nq: seq<int>, held: set<int>) {
      (forall c :: c in visited <==> c in ocean || c in level || c in cq || c in nq || c in held) &&
      (forall c :: c in ocean ==> c !in level && c !in cq && c !in nq && c !in held) &&
      (forall c :: c in level ==> c !in cq && c !in nq && c !in held) &&
      (forall c :: c in cq ==> c !in nq && c !in held) &&
      (forall c :: c in nq ==> c !in held) &&
      Distinct(cq) && Distinct(nq)
    }

    /** Cell c was queued from another cell, or (while `seeds`) is an
        ocean-like border seed. */
    ghost predicate Reached(parent: map<int, Link>, c: int, seeds: bool)
      reads this`Elevs
    {
      c in parent || (seeds && BorderCode(c) && Class(ndval, Elev(c)) == -1)
    }

    /** Every cell waiting in `cq` or `held` was queued from another cell,
        or (while `seeds`) is an ocean-like border seed; every cell of the
        next coastline `nq` was queued from another cell and lies above
        `top`. */
    ghost predicate Pending(parent: map<int, Link>, cq: seq<int>, nq: seq<int>, held: set<int>, top: int, seeds: bool)
      reads this`Elevs
    {
      (forall c :: c in cq ==> 0 <= c < Size() && Reached(parent, c, seeds)) &&
      (forall c :: c in held ==> 0 <= c < Size() && Reached(parent, c, seeds)) &&
      (forall c :: c in nq ==> 0 <= c < Size() && c in parent && Elev(c) > top)
    }

    /** A flooded cell reached from a flooded cell carries a level no lower
        than that cell's. */
    ghost predicate Ordered(level: map<int, int>, parent: map<int, Link>) {
      forall c {:trigger parent[c].from} ::
        c in parent && c in level && parent[c].from in level ==> level[parent[c].from] <= level[c]
    }

    /** Each cell of p is a neighbour of the cell before it. */
    ghost predicate Linked(p: seq<int>) {
      forall a, b :: 0 <= a && b == a + 1 && b < |p| ==> p[b] in Nbrs(p[a])
    }

    /** p is a path of neighbouring ocean cells from a border cell to c. */
    ghost predicate OceanPath(ocean: set<int>, p: seq<int>, c: int) {
      |p| > 0 && BorderCode(p[0]) && p[|p| - 1] == c && Linked(p) &&
      forall k :: 0 <= k < |p| ==> p[k] in ocean
    }

    /** p is a path of neighbouring wet cells from an ocean cell to the
        flooded cell c, every flooded cell on it at a level no higher than
        c's. */
    ghost predicate FloodPath(ocean: set<int>, level: map<int, int>, p: seq<int>, c: int) {
      c in level && |p| > 0 && p[0] in ocean && p[|p| - 1] == c && Linked(p) &&
      forall k :: 0 <= k < |p| ==> p[k] in ocean || (p[k] in level && level[p[k]] <= level[c])
    }

    /** Every ocean cell is joined to the border by ocean cells, and every
        flooded cell is joined to the ocean by wet cells flooded no higher
        than it. */
    ghost predicate Connected(ocean: set<int>, level: map<int, int>) {
      (forall c {:trigger OceanJoined(ocean, c)} :: c in ocean ==> OceanJoined(ocean, c)) &&
      (forall c {:trigger FloodJoined(ocean, level, c)} :: c in level ==> FloodJoined(ocean, level, c))
    }

    /** Some OceanPath ends at c. */
    ghost predicate OceanJoined(ocean: set<int>, c: int) {
      exists p :: OceanPath(ocean, p, c)
    }

    /** Some FloodPath ends at c. */
    ghost predicate FloodJoined(ocean: set<int>, level: map<int, int>, c: int) {
      exists p :: FloodPath(ocean, level, p, c)
    }

    /** The chain of reached-from links that ends at the wet cell c. It
        starts at an ocean cell reached from no other, which is a border
        cell, and runs through wet cells only, through ocean cells only when
        c is ocean. */
    ghost function Chain(ocean: set<int>, level: map<int, int>, parent: map<int, Link>, c: int): (p: seq<int>)
      requires Rooted(ocean, level, parent) && (c in ocean || c in level)
      ensures |p| > 0 && p[0] in ocean && p[0] !in parent && BorderCode(p[0])
      ensures p[|p| - 1] == c && Linked(p)
      ensures forall k :: 0 <= k < |p| ==> p[k] in ocean || p[k] in level
      ensures c in ocean ==> forall k :: 0 <= k < |p| ==> p[k] in ocean
      decreases RankOf(parent, c)
    {
      if c !in parent then [c]
      else
        var q := Chain(ocean, level, parent, parent[c].from);
        assert forall k :: 0 <= k < |q| ==> (q + [c])[k] == q[k];
        q + [c]
    }

    /** Every flooded cell of p carries a level no higher than `top`. */
    ghost predicate Below(level: map<int, int>, p: seq<int>, top: int) {
      forall x :: x in p && x in level ==> level[x] <= top
    }

    /** Every flooded cell on the chain of a flooded cell c carries a level
        no higher than c's. */
    lemma {:induction false} ChainBelow(ocean: set<int>, level: map<int, int>, parent: map<int, Link>, c: int)
      requires Rooted(ocean, level, parent) && Ordered(level, parent) && c in level
      requires forall x :: x in ocean ==> x !in level
      ensures Below(level, Chain(ocean, level, parent, c), level[c])
      decreases RankOf(parent, c)
    {
      var o := parent[c].from;
      var q := Chain(ocean, level, parent, o);
      assert Chain(ocean, level, parent, c) == q + [c];
      if o in level {
        ChainBelow(ocean, level, parent, o);
        assert level[o] <= level[c];
      } else {
        assert forall x :: x in q ==> x in ocean;
        assert forall x :: x in q ==> x !in level;
      }
    }

    /** Following the reached-from links joins every wet cell to the
        border. */
    lemma LinksConnect(ocean: set<int>, level: map<int, int>, parent: map<int, Link>)
      requires Rooted(ocean, level, parent) && Ordered(level, parent)
      requires forall c :: c in ocean ==> c !in level
      ensures Connected(ocean, level)
    {
      forall c | c in ocean
        ensures OceanJoined(ocean, c)
      {
        assert OceanPath(ocean, Chain(ocean, level, parent, c), c);
      }
      forall c | c in level
        ensures FloodJoined(ocean, level, c)
      {
        var p := Chain(ocean, level, parent, c);
        ChainBelow(ocean, level, parent, c);
        assert forall k :: 0 <= k < |p| ==> p[k] in p;
        assert FloodPath(ocean, level, p, c);
      }
    }

    /** Flooding the new cell c at a level `top` no lower than any level
        given so far keeps the levels ordered along the links. */
    lemma LevelOrdered(ocean: set<int>, level: map<int, int>, parent: map<int, Link>, c: int, top: int)
      requires Rooted(ocean, level, parent) && Ordered(level, parent)
      requires c !in ocean && c !in level && forall x :: x in level ==> level[x] <= top
      ensures Ordered(level[c := top], parent)
    {
      var level' := level[c := top];
      forall x | x in parent && x in level' && parent[x].from in level'
        ensures level'[parent[x].from] <= level'[x]
      {
        var o := parent[x].from;
        assert o in ocean || o in level;
        assert o != c;
      }
    }

    /** The cells the expansion of c reaches are not flooded yet, so the
        levels stay ordered along the links. */
    lemma ReachOrdered(level: map<int, int>, parent: map<int, Link>, visited: set<int>, c: int)
      requires Ordered(level, parent) && forall x :: x in level ==> x in visited
      ensures Ordered(level, parent + Reach(parent, visited, c))
    {
      var parent' := parent + Reach(parent, visited, c);
      forall x | x in parent' && x in level && parent'[x].from in level
        ensures level[parent'[x].from] <= level[x]
      {
        assert x in parent && parent'[x] == parent[x];
      }
    }

    /** The invariant of every breadth-first search of the run. */
    ghost predicate Inv(cq: seq<int>, nq: seq<int>, held: set<int>, open: set<int>, top: int, seeds: bool)
      reads this`Visited, this`Ocean, this`Level, this`Parent, this`Passes
      reads this`Elevs, grid, checkGrid, completionGrid
    {
      Valid() && Terrain() && Labelled() && OceanLike() && LevelFacts(top) &&
      Rooted(Ocean, Level, Parent) && Closed(Ocean, Level, Visited, open) &&
      Partition(Visited, Ocean, Level, cq, nq, held) && Pending(Parent, cq, nq, held, top, seeds)
    }

    /** The coastline found by the seeding holds land cells only. */
    ghost predicate CoastLand()
      reads this`nextqueue, this`Elevs
    {
      forall c :: c in nextqueue ==> 0 <= c < Size() && Class(ndval, Elev(c)) == 0
    }

    /** The state of the ocean seeding while `queue` waits: nothing is
        flooded yet, the coastline is land, and every cell popped so far
        was a distinct visited cell. */
    ghost predicate SeedState(queue: seq<int>)
      reads this`Visited, this`Ocean, this`Level, this`Parent, this`Passes, this`nextqueue, this`Pops
      reads this`Elevs, grid, checkGrid, completionGrid
    {
      Seeding(queue) && Pops + |queue| == |Visited|
    }

    /** SeedState without the count of the cells popped. */
    ghost predicate Seeding(queue: seq<int>)
      reads this`Visited, this`Ocean, this`Level, this`Parent, this`Passes, this`nextqueue
      reads this`Elevs, grid, checkGrid, completionGrid
    {
      Inv(queue, nextqueue, {}, {}, 0, true) && Level == map[] && CoastLand()
    }

    /** Allocates the zero-filled grids of a rows x cols terrain and the
        zero-initialised globals. */
    constructor (rows: nat, cols: nat, ndval: int, ceiling: int, fIncrement: int)
      ensures this.rows == rows && this.cols == cols && this.ndval == ndval
      ensures this.ceiling == ceiling && this.fIncrement == fIncrement
      ensures Valid() && Terrain() && Visited == {} && Ocean == {} && Level == map[] && Passes == []
      ensures fresh(grid) && fresh(checkGrid) && fresh(completionGrid)
      ensures forall i, j :: InBounds(i, j) ==> grid[i, j] == 0 && checkGrid[i, j] == 0 && completionGrid[i, j] == 0
      ensures nextqueue == [] && feet == 0 && initLand == 0 && maxz == 0
    {
      this.rows, this.cols, this.ndval := rows, cols, ndval;
      this.ceiling, this.fIncrement := ceiling, fIncrement;
      grid := new int[rows, cols]((i, j) => 0);
      checkGrid := new int[rows, cols]((i, j) => 0);
      completionGrid := new int[rows, cols]((i, j) => 0);
      nextqueue, feet, initLand, maxz := [], 0, 0, 0;
      Elevs := seq(rows * cols, k => 0);
      Visited, Ocean, Level, Parent, Passes, Pops := {}, {}, map[], map[], [], 0;
    }

    /** Stores the rows*cols elevations in row-major order, tags every cell
        ocean-like (-1) or land (0), counts the land cells into initLand and
        raises maxz to the largest elevation. */
    method Classify(values: seq<int>)
      requires Valid() && |values| == Size()
      modifies grid, checkGrid, this`initLand, this`maxz, this`Elevs, this`Level, this`Passes
      ensures Valid() && Terrain() && Labelled() && Elevs == values && Level == map[] && Passes == []
      ensures forall i, j :: InBounds(i, j) ==>
        0 <= Cell(i, j) < |values| && grid[i, j] == values[Cell(i, j)]
      ensures forall i, j :: InBounds(i, j) ==>
        (checkGrid[i, j] == -1 <==> grid[i, j] == ndval || grid[i, j] <= 0) &&
        (checkGrid[i, j] == 0 <==> !(grid[i, j] == ndval || grid[i, j] <= 0))
      ensures initLand == old(initLand) + CountLand(ndval, values)
      ensures maxz == MaxElev(old(maxz), values)
    {
      for k := 0 to Size()
        invariant forall i, j :: InBounds(i, j) && Cell(i, j) < k ==>
          0 <= Cell(i, j) && grid[i, j] == values[Cell(i, j)] &&
          checkGrid[i, j] == Class(ndval, grid[i, j])
        invariant initLand == old(initLand) + CountLand(ndval, values[..k])
        invariant maxz == MaxElev(old(maxz), values[..k])
      {
        var newNum := values[k];
        DecodeEncode(rows, cols, k);
        var i, j := k / cols, k % cols;
        grid[i, j] := newNum;
        if newNum == ndval || newNum <= 0 {
          checkGrid[i, j] := -1;
        } else {
          initLand := initLand + 1;
          checkGrid[i, j] := 0;
        }
        if newNum > maxz {
          maxz := newNum;
        }
        forall i', j' | InBounds(i', j') && Cell(i', j') == k
          ensures i' == i && j' == j
        {
          EncodeInjective(rows, cols, i', j', i, j);
        }
        assert values[..k + 1][..k] == values[..k];
      }
      assert values[..Size()] == values;
      Elevs, Level, Passes := values, map[], [];
      forall i, j | InBounds(i, j)
        ensures 0 <= Cell(i, j) < |values| && grid[i, j] == values[Cell(i, j)] == Elev(Cell(i, j))
      {
        EncodeDecode(rows, cols, i, j);
      }
    }

    /** Resets the visited grid to all zeros, which starts a new flood run. */
    method ClearCompletion()
      requires Shape()
      modifies completionGrid, this`Visited, this`Ocean, this`Parent, this`Pops
      ensures Valid() && Visited == {} && Ocean == {} && Parent == map[] && Pops == 0
    {
      for i := 0 to rows
        invariant forall i', j' :: 0 <= i' < i && 0 <= j' < cols ==> completionGrid[i', j'] == 0
      {
        for j := 0 to cols
          invariant forall i', j' :: 0 <= i' < i && 0 <= j' < cols ==> completionGrid[i', j'] == 0
          invariant forall j' :: 0 <= j' < j ==> completionGrid[i, j'] == 0
        {
          completionGrid[i, j] := 0;
        }
      }
      Visited, Ocean, Parent, Pops := {}, {}, map[], 0;
    }

    /** Marks cell (i, j) visited and appends it to `queue` unless it is
        already visited. */
    method PushIfUnvisited(queue: seq<int>, i: int, j: int) returns (queue': seq<int>)
      requires Valid() && InBounds(i, j)
      modifies completionGrid, this`Visited
      ensures Valid() && Visited == old(Visited) + {Cell(i, j)}
      ensures queue' == queue + if old(Cell(i, j) in Visited) then [] else [Cell(i, j)]
    {
      EncodeDecode(rows, cols, i, j);
      if completionGrid[i, j] == 0 {
        completionGrid[i, j] := 1;
        Visited := Visited + {Cell(i, j)};
        queue' := queue + [Cell(i, j)];
        forall i', j' | InBounds(i', j')
          ensures completionGrid[i', j'] == if Cell(i', j') in Visited then 1 else 0
        {
          if Cell(i', j') == Cell(i, j) {
            EncodeInjective(rows, cols, i', j', i, j);
          }
        }
      } else {
        queue' := queue;
      }
    }

    /** Pops the head of a queue: it stays visited, held in hand. */
    lemma PopHead(cq: seq<int>, nq: seq<int>, top: int, seeds: bool)
      requires Inv(cq, nq, {}, {}, top, seeds) && cq != []
      ensures Inv(cq[1..], nq, {cq[0]}, {}, top, seeds)
      ensures 0 <= cq[0] < Size()
    {
      var c := cq[0];
      assert forall x :: x in cq <==> x == c || x in cq[1..];
      assert Distinct(cq[1..]);
      assert c !in cq[1..];
    }

    /** The neighbours of (i, j) that are not in `visited`, in the order
        right, left, down, up in which the flood loops test them. */
    ghost function Unvisited(visited: set<int>, i: int, j: int): (added: seq<int>) {
      (if j < cols - 1 && Cell(i, j + 1) !in visited then [Cell(i, j + 1)] else []) +
      (if j > 0 && Cell(i, j - 1) !in visited then [Cell(i, j - 1)] else []) +
      (if i < rows - 1 && Cell(i + 1, j) !in visited then [Cell(i + 1, j)] else []) +
      (if i > 0 && Cell(i - 1, j) !in visited then [Cell(i - 1, j)] else [])
    }

    /** `queue` after the right and left neighbour tests of (i, j) have
        appended those not in `visited`. */
    ghost function EnqueuedAcross(queue: seq<int>, visited: set<int>, i: int, j: int): (queue': seq<int>) {
      queue +
      (if j < cols - 1 && Cell(i, j + 1) !in visited then [Cell(i, j + 1)] else []) +
      (if j > 0 && Cell(i, j - 1) !in visited then [Cell(i, j - 1)] else [])
    }

    /** `queue` after the down and up neighbour tests of (i, j) have
        appended those not in `visited`. */
    ghost function EnqueuedAlong(queue: seq<int>, visited: set<int>, i: int, j: int): (queue': seq<int>) {
      queue +
      (if i < rows - 1 && Cell(i + 1, j) !in visited then [Cell(i + 1, j)] else []) +
      (if i > 0 && Cell(i - 1, j) !in visited then [Cell(i - 1, j)] else [])
    }

    /** `queue` after all four neighbour tests of (i, j). */
    ghost function Enqueued(queue: seq<int>, visited: set<int>, i: int, j: int): (queue': seq<int>) {
      EnqueuedAlong(EnqueuedAcross(queue, visited, i, j), visited, i, j)
    }

    /** Marking the right and left neighbours visited does not change the
        outcome of the down and up tests. */
    lemma AlongIgnoresAcross(queue: seq<int>, visited: set<int>, i: int, j: int)
      requires InBounds(i, j)
      ensures EnqueuedAlong(queue, visited + (if j < cols - 1 then {Cell(i, j + 1)} else {}) +
                                     (if j > 0 then {Cell(i, j - 1)} else {}), i, j) ==
              EnqueuedAlong(queue, visited, i, j)
    {
      NeighboursApart(i, j);
    }

    /** The neighbour tests append Unvisited to the queue. */
    lemma EnqueuedAppends(queue: seq<int>, visited: set<int>, i: int, j: int)
      ensures Enqueued(queue, visited, i, j) == queue + Unvisited(visited, i, j)
    {
    }

    /** The four neighbours of an in-bounds cell have four different codes. */
    lemma NeighboursApart(i: int, j: int)
      requires InBounds(i, j)
      ensures j < cols - 1 && i < rows - 1 ==> Cell(i, j + 1) != Cell(i + 1, j)
      ensures j < cols - 1 && i > 0 ==> Cell(i, j + 1) != Cell(i - 1, j)
      ensures j > 0 && i < rows - 1 ==> Cell(i, j - 1) != Cell(i + 1, j)
      ensures j > 0 && i > 0 ==> Cell(i, j - 1) != Cell(i - 1, j)
      ensures i < rows - 1 && i > 0 ==> Cell(i + 1, j) != Cell(i - 1, j)
      ensures j < cols - 1 && j > 0 ==> Cell(i, j + 1) != Cell(i, j - 1)
    {
      assert Cell(i + 1, j) == Cell(i, j) + cols;
      assert Cell(i - 1, j) == Cell(i, j) - cols;
    }

    /** Unvisited lists exactly the neighbours outside `visited`, each once. */
    lemma UnvisitedCells(visited: set<int>, i: int, j: int)
      requires InBounds(i, j)
      ensures forall n :: n in Unvisited(visited, i, j) <==> n in NeighboursOf(rows, cols, i, j) && n !in visited
      ensures Distinct(Unvisited(visited, i, j))
    {
      var right := if j < cols - 1 && Cell(i, j + 1) !in visited then [Cell(i, j + 1)] else [];
      var left := if j > 0 && Cell(i, j - 1) !in visited then [Cell(i, j - 1)] else [];
      var down := if i < rows - 1 && Cell(i + 1, j) !in visited then [Cell(i + 1, j)] else [];
      var up := if i > 0 && Cell(i - 1, j) !in visited then [Cell(i - 1, j)] else [];
      assert Unvisited(visited, i, j) == right + left + down + up;
      UnvisitedApart(right, left, down, up, i, j);
    }

    /** The four one-cell-or-empty pieces of Unvisited share no cell. */
    lemma UnvisitedApart(right: seq<int>, left: seq<int>, down: seq<int>, up: seq<int>, i: int, j: int)
      requires InBounds(i, j)
      requires right == [] || (j < cols - 1 && right == [Cell(i, j + 1)])
      requires left == [] || (j > 0 && left == [Cell(i, j - 1)])
      requires down == [] || (i < rows - 1 && down == [Cell(i + 1, j)])
      requires up == [] || (i > 0 && up == [Cell(i - 1, j)])
      ensures Distinct(right + left + down + up)
    {
      NeighboursApart(i, j);
      DistinctJoin(right, left);
      DistinctJoin(right + left, down);
      DistinctJoin(right + left + down, up);
    }

    /** The unvisited neighbours of c, each reached from c one rank above
        it: the cells the expansion of c reaches. */
    ghost function Reach(parent: map<int, Link>, visited: set<int>, c: int): (links: map<int, Link>) {
      map n | n in Nbrs(c) - visited :: Link(c, RankOf(parent, c) + 1)
    }

    /** The right and left neighbour tests of (i, j). */
    method VisitAcross(queue: seq<int>, i: int, j: int) returns (queue': seq<int>)
      requires Valid() && InBounds(i, j)
      modifies completionGrid, this`Visited
      ensures Valid()
      ensures Visited == old(Visited) + (if j < cols - 1 then {Cell(i, j + 1)} else {}) +
                                       (if j > 0 then {Cell(i, j - 1)} else {})
      ensures queue' == EnqueuedAcross(queue, old(Visited), i, j)
    {
      ghost var visited := Visited;
      queue' := queue;
      if j < cols - 1 {
        queue' := PushIfUnvisited(queue', i, j + 1);
      }
      if j > 0 {
        queue' := PushIfUnvisited(queue', i, j - 1);
      }
    }

    /** The down and up neighbour tests of (i, j). */
    method VisitAlong(queue: seq<int>, i: int, j: int) returns (queue': seq<int>)
      requires Valid() && InBounds(i, j)
      modifies completionGrid, this`Visited
      ensures Valid()
      ensures Visited == old(Visited) + (if i < rows - 1 then {Cell(i + 1, j)} else {}) +
                                       (if i > 0 then {Cell(i - 1, j)} else {})
      ensures queue' == EnqueuedAlong(queue, old(Visited), i, j)
    {
      NeighboursApart(i, j);
      queue' := queue;
      if i < rows - 1 {
        queue' := PushIfUnvisited(queue', i + 1, j);
      }
      if i > 0 {
        queue' := PushIfUnvisited(queue', i - 1, j);
      }
    }

    /** The four neighbour tests of the expanded cell c = (i, j), in the
        order right, left, down, up: every unvisited in-bounds neighbour is
        marked visited and queued. */
    method VisitNeighbours(queue: seq<int>, c: int, i: int, j: int) returns (queue': seq<int>)
      requires Valid() && InBounds(i, j) && c == Cell(i, j)
      modifies completionGrid, this`Visited
      ensures Valid() && Visited == old(Visited) + Nbrs(c)
      ensures queue' == Enqueued(queue, old(Visited), i, j)
    {
      ghost var visited := Visited;
      queue' := VisitAcross(queue, i, j);
      ghost var across := queue';
      queue' := VisitAlong(queue', i, j);
      AlongIgnoresAcross(across, visited, i, j);
      EncodeDecode(rows, cols, i, j);
      UnionSteps(visited, if j < cols - 1 then {Cell(i, j + 1)} else {}, if j > 0 then {Cell(i, j - 1)} else {},
                 if i < rows - 1 then {Cell(i + 1, j)} else {}, if i > 0 then {Cell(i - 1, j)} else {});
    }

    /** The visited set grown by the four tests one at a time is the old
        set grown by all four at once. */
    lemma UnionSteps(v: set<int>, a: set<int>, b: set<int>, c: set<int>, d: set<int>)
      ensures v + a + b + c + d == v + (a + b + c + d)
    {
    }

    /** Reaching the unvisited neighbours `extra` of the wet cell c keeps
        every reached cell next to the wet cell it was reached from. */
    lemma ExpandRooted(ocean: set<int>, level: map<int, int>, visited: set<int>,
                       parent: map<int, Link>, c: int)
      requires Rooted(ocean, level, parent) && (c in ocean || c in level)
      requires forall n :: n in ocean || n in level ==> n in visited
      ensures Rooted(ocean, level, parent + Reach(parent, visited, c))
    {
      var reach := Reach(parent, visited, c);
      var parent' := parent + reach;
      assert RankOf(parent', c) == RankOf(parent, c);
      forall n | n in parent'
        ensures n in Nbrs(parent'[n].from) && (parent'[n].from in ocean || parent'[n].from in level) &&
                (n in ocean ==> parent'[n].from in ocean) &&
                RankOf(parent', parent'[n].from) < parent'[n].rank
      {
        if n in reach {
          assert parent'[n] == Link(c, RankOf(parent, c) + 1);
        } else {
          assert parent'[n] == parent[n];
          assert parent[n].from !in reach;
          assert RankOf(parent', parent[n].from) == RankOf(parent, parent[n].from);
        }
      }
    }

    /** Once all neighbours of c are visited, c is no longer open. */
    lemma {:induction false} ExpandClosed(ocean: set<int>, level: map<int, int>, visited: set<int>, c: int)
      requires Closed(ocean, level, visited, {c})
      ensures Closed(ocean, level, visited + Nbrs(c), {})
    {
      forall x | (x in ocean || x in level)
        ensures Nbrs(x) <= visited + Nbrs(c)
      {
        if x != c {
          assert Nbrs(x) <= visited;
        }
      }
    }

    /** Appending the newly visited cells `added` (each once) to the queue
        keeps the visited cells partitioned. */
    lemma ExpandPartition(visited: set<int>, ocean: set<int>, level: map<int, int>,
                          queue: seq<int>, nq: seq<int>, added: seq<int>, extra: set<int>)
      requires Partition(visited, ocean, level, queue, nq, {})
      requires Distinct(added) && forall n :: n in added <==> n in extra && n !in visited
      ensures Partition(visited + extra, ocean, level, queue + added, nq, {})
    {
      var q := queue + added;
      assert forall n :: n in q <==> n in queue || n in added;
      forall a, b | 0 <= a < b < |q|
        ensures q[a] != q[b]
      {
        if b < |queue| {
        } else if a >= |queue| {
          assert q[a] == added[a - |queue|] && q[b] == added[b - |queue|];
        } else {
          assert q[a] in queue && q[b] in added;
        }
      }
    }

    /** Every newly queued cell was reached from c; the cells already
        waiting keep how they were reached. */
    lemma ExpandPending(parent: map<int, Link>, queue: seq<int>, nq: seq<int>, added: seq<int>,
                        visited: set<int>, c: int, top: int, seeds: bool)
      requires Pending(parent, queue, nq, {}, top, seeds)
      requires forall n :: n in added ==> 0 <= n < Size() && n in Nbrs(c) && n !in visited
      ensures Pending(parent + Reach(parent, visited, c), queue + added, nq, {}, top, seeds)
    {
      var parent' := parent + Reach(parent, visited, c);
      assert forall n :: n in parent ==> n in parent';
      forall n | n in queue + added
        ensures 0 <= n < Size() && Reached(parent', n, seeds)
      {
        if n in queue {
          assert Reached(parent, n, seeds);
        }
      }
    }

    /** A sequence with no repeated value has one value per position. */
    lemma {:induction false} DistinctCard(s: seq<int>)
      requires Distinct(s)
      ensures |set n | n in s| == |s|
    {
      if s != [] {
        var t := s[1..];
        assert Distinct(t);
        DistinctCard(t);
        assert (set n | n in s) == (set n | n in t) + {s[0]};
        assert s[0] !in t;
      }
    }

    /** Queue length plus pops tracks the visited cells: every cell newly
        visited is queued exactly once. */
    lemma ExpandCount(visited: set<int>, added: seq<int>, extra: set<int>)
      requires Distinct(added) && forall n :: n in added <==> n in extra && n !in visited
      ensures |visited + extra| == |visited| + |added|
    {
      DistinctCard(added);
      var s := set n | n in added;
      assert forall n :: n in visited + extra <==> n in visited + s;
      assert visited + extra == visited + s;
      assert visited * s == {};
    }



    /** Expanding the wet cell c = (i, j), on values: the neighbours not
        in `visited` join the queue and are reached from c, and c is no
        longer open. */
    lemma ExpandKeepsInv(visited: set<int>, parent: map<int, Link>, queue: seq<int>,
                         nq: seq<int>, c: int, i: int, j: int, top: int, seeds: bool)
      requires InBounds(i, j) && c == Cell(i, j) && (c in Ocean || c in Level)
      requires Rooted(Ocean, Level, parent) && Closed(Ocean, Level, visited, {c})
      requires Partition(visited, Ocean, Level, queue, nq, {}) && Pending(parent, queue, nq, {}, top, seeds)
      ensures Rooted(Ocean, Level, parent + Reach(parent, visited, c))
      ensures Closed(Ocean, Level, visited + Nbrs(c), {})
      ensures Partition(visited + Nbrs(c), Ocean, Level, Enqueued(queue, visited, i, j), nq, {})
      ensures Pending(parent + Reach(parent, visited, c), Enqueued(queue, visited, i, j), nq, {}, top, seeds)
      ensures |Enqueued(queue, visited, i, j)| + |visited| == |queue| + |visited + Nbrs(c)|
    {
      EncodeDecode(rows, cols, i, j);
      UnvisitedCells(visited, i, j);
      EnqueuedAppends(queue, visited, i, j);
      var added := Unvisited(visited, i, j);
      ExpandRooted(Ocean, Level, visited, parent, c);
      ExpandClosed(Ocean, Level, visited, c);
      ExpandPartition(visited, Ocean, Level, queue, nq, added, Nbrs(c));
      forall n | n in added
        ensures 0 <= n < Size()
      {
        NeighboursInGrid(rows, cols, i, j, n);
      }
      ExpandPending(parent, queue, nq, added, visited, c, top, seeds);
      ExpandCount(visited, added, Nbrs(c));
    }

    /** ExpandNeighbours keeps the invariant of the search while it
        expands the wet cell c = (i, j). */
    method ExpandNeighbours(queue: seq<int>, c: int, i: int, j: int, ghost nq: seq<int>, ghost top: int, ghost seeds: bool)
      returns (queue': seq<int>)
      requires Inv(queue, nq, {}, {c}, top, seeds) && (c in Ocean || c in Level)
      requires InBounds(i, j) && c == Cell(i, j)
      modifies completionGrid, this`Visited, this`Parent
      ensures Inv(queue', nq, {}, {}, top, seeds)
      ensures forall n :: n in Visited <==> n in old(Visited) || n in Nbrs(c)
      ensures queue' == Enqueued(queue, old(Visited), i, j)
      ensures |queue'| + |old(Visited)| == |queue| + |Visited|
      ensures Parent == old(Parent) + Reach(old(Parent), old(Visited), c)
    {
      ExpandKeepsInv(Visited, Parent, queue, nq, c, i, j, top, seeds);
      ghost var visited := Visited;
      queue' := VisitNeighbours(queue, c, i, j);
      Parent := Parent + Reach(Parent, visited, c);
    }

    /** The state of the ocean seeding just after the cell c was popped
        from the front of the queue, `queue` being what is left. */
    ghost predicate HeldState(queue: seq<int>, c: int)
      reads this`Visited, this`Ocean, this`Level, this`Parent, this`Passes, this`nextqueue
      reads this`Elevs, grid, checkGrid, completionGrid
    {
      Inv(queue, nextqueue, {c}, {}, 0, true) && Level == map[] && CoastLand() && 0 <= c < Size()
    }

    /** Records the held cell c as ocean. */
    ghost method MarkOcean(c: int, queue: seq<int>)
      requires Inv(queue, nextqueue, {c}, {}, 0, true) && Level == map[]
      requires 0 <= c < Size() && Class(ndval, Elev(c)) == -1
      modifies this`Ocean
      ensures Inv(queue, nextqueue, {}, {c}, 0, true) && Ocean == old(Ocean) + {c}
    {
      Ocean := Ocean + {c};
    }

    /** The ocean branch of the flood loop: the held ocean-like cell
        c = (i, j) becomes ocean and its unvisited neighbours are queued. */
    method OceanTurn(queue: seq<int>, c: int, i: int, j: int) returns (queue': seq<int>)
      requires HeldState(queue, c) && Class(ndval, Elev(c)) == -1
      requires InBounds(i, j) && c == Cell(i, j)
      modifies completionGrid, this`Visited, this`Ocean, this`Parent
      ensures Seeding(queue') && Ocean == old(Ocean) + {c}
      ensures forall n :: n in Visited <==> n in old(Visited) || n in Nbrs(c)
      ensures queue' == Enqueued(queue, old(Visited), i, j)
      ensures |queue'| + |old(Visited)| == |queue| + |Visited|
    {
      MarkOcean(c, queue);
      queue' := ExpandNeighbours(queue, c, i, j, nextqueue, 0, true);
    }

    /** The coastline branch of the flood loop: the held land cell c is
        appended to the coastline. */
    method AppendCoast(c: int, ghost queue: seq<int>)
      requires HeldState(queue, c) && Class(ndval, Elev(c)) == 0
      modifies this`nextqueue
      ensures Seeding(queue) && nextqueue == old(nextqueue) + [c]
    {
      nextqueue := nextqueue + [c];
    }

    /** Pops the head of the seeding queue. */
    method PopFront(myqueue: seq<int>) returns (rest: seq<int>)
      requires Seeding(myqueue) && myqueue != []
      modifies this`Pops
      ensures HeldState(rest, myqueue[0]) && rest == myqueue[1..] && Pops == old(Pops) + 1
    {
      PopHead(myqueue, nextqueue, 0, true);
      rest := myqueue[1..];
      Pops := Pops + 1;
    }

    /** The held cell c = (i, j) still carries its load tag, and grid holds
        its elevation. */
    lemma HeldTag(queue: seq<int>, c: int, i: int, j: int)
      requires HeldState(queue, c) && InBounds(i, j) && c == Cell(i, j)
      ensures checkGrid[i, j] == Class(ndval, Elev(c)) && grid[i, j] == Elev(c)
    {
      assert c !in Level;
    }

    /** The branch of the flood loop for the popped cell c = (i, j): an
        ocean-like c (tag -1, or at or below 0) becomes ocean and its
        unvisited neighbours are queued; the middle branch of the source,
        a cell at or below 0 not tagged -1, is dead because the first test
        already takes it; any other c is appended to the coastline. */
    method SeedTurn(queue: seq<int>, c: int, i: int, j: int) returns (queue': seq<int>)
      requires HeldState(queue, c) && InBounds(i, j) && c == Cell(i, j)
      modifies completionGrid, this`nextqueue, this`Visited, this`Ocean, this`Parent
      ensures Seeding(queue') && |queue'| + |old(Visited)| == |queue| + |Visited|
      ensures Class(ndval, Elev(c)) == -1 ==>
        Ocean == old(Ocean) + {c} && nextqueue == old(nextqueue) &&
        (forall n :: n in Visited <==> n in old(Visited) || n in Nbrs(c)) &&
        queue' == Enqueued(queue, old(Visited), i, j)
      ensures Class(ndval, Elev(c)) == 0 ==>
        Ocean == old(Ocean) && nextqueue == old(nextqueue) + [c] &&
        Visited == old(Visited) && queue' == queue
    {
      HeldTag(queue, c, i, j);
      var tag, elev := checkGrid[i, j], grid[i, j];
      if tag == -1 || elev <= 0 {
        queue' := OceanTurn(queue, c, i, j);
      } else if elev <= 0 && tag != -1 {
        // The first test already takes every cell at or below 0.
        assert false;
      } else {
        AppendCoast(c, queue);
        queue' := queue;
      }
    }

    /** One turn of the ocean flood fill: pops the head c of the queue and
        takes the branch for c. checkGrid is only read. */
    method SeedStep(myqueue: seq<int>) returns (myqueue': seq<int>)
      requires Seeding(myqueue) && myqueue != []
      modifies completionGrid, this`nextqueue, this`Visited, this`Ocean, this`Parent, this`Pops
      ensures Seeding(myqueue') && Pops == old(Pops) + 1
      ensures |myqueue'| + |old(Visited)| + 1 == |myqueue| + |Visited|
      ensures 0 <= myqueue[0] < Size()
      ensures Class(ndval, Elev(myqueue[0])) == -1 ==>
        Ocean == old(Ocean) + {myqueue[0]} && nextqueue == old(nextqueue) &&
        (forall n :: n in Visited <==> n in old(Visited) || n in Nbrs(myqueue[0])) &&
        myqueue' == Enqueued(myqueue[1..], old(Visited), myqueue[0] / cols, myqueue[0] % cols)
      ensures Class(ndval, Elev(myqueue[0])) == 0 ==>
        Ocean == old(Ocean) && nextqueue == old(nextqueue) + [myqueue[0]] &&
        Visited == old(Visited) && myqueue' == myqueue[1..]
    {
      var c := myqueue[0];
      myqueue' := PopFront(myqueue);
      DecodeEncode(rows, cols, c);
      myqueue' := SeedTurn(myqueue', c, c / cols, c % cols);
    }

    /** The ocean flood fill from border cell (i0, j0): a breadth-first
        search that expands every dequeued ocean-like cell into its
        unvisited neighbours and appends every other dequeued cell to the
        coastline. It never writes checkGrid. */
    method Flood(i0: int, j0: int)
      requires SeedState([])
      requires InBounds(i0, j0) && OnBorder(rows, cols, i0, j0)
      requires checkGrid[i0, j0] == -1 && completionGrid[i0, j0] == 0
      modifies completionGrid, this`nextqueue, this`Visited, this`Ocean, this`Parent, this`Pops
      ensures SeedState([])
      ensures Cell(i0, j0) in Visited
      ensures old(Visited) <= Visited && old(Ocean) <= Ocean && old(nextqueue) <= nextqueue
    {
      var myqueue := StartSeed(i0, j0);
      while myqueue != []
        invariant SeedState(myqueue) && Cell(i0, j0) in Visited
        invariant old(Visited) <= Visited && old(Ocean) <= Ocean && old(nextqueue) <= nextqueue
        decreases Size() - Pops
      {
        CardBound(Visited, Size());
        myqueue := SeedStep(myqueue);
      }
    }

    /** Marks the border seed (i0, j0) visited and makes it the only cell
        of a new queue. */
    method StartSeed(i0: int, j0: int) returns (myqueue: seq<int>)
      requires SeedState([])
      requires InBounds(i0, j0) && OnBorder(rows, cols, i0, j0)
      requires checkGrid[i0, j0] == -1 && completionGrid[i0, j0] == 0
      modifies completionGrid, this`Visited
      ensures SeedState(myqueue) && myqueue == [Cell(i0, j0)]
      ensures Visited == old(Visited) + {Cell(i0, j0)}
    {
      var c0 := Cell(i0, j0);
      EncodeDecode(rows, cols, i0, j0);
      completionGrid[i0, j0] := 1;
      Visited := Visited + {c0};
      forall i', j' | InBounds(i', j')
        ensures completionGrid[i', j'] == if Cell(i', j') in Visited then 1 else 0
      {
        if Cell(i', j') == c0 {
          EncodeInjective(rows, cols, i', j', i0, j0);
        }
      }
      myqueue := [c0];
    }

    /** The cell (i, j) seen by the border scan: its tag is its load tag
        and its visited mark is its membership in Visited. */
    lemma SeedTag(i: int, j: int)
      requires SeedState([]) && InBounds(i, j)
      ensures checkGrid[i, j] == Class(ndval, Elev(Cell(i, j)))
      ensures completionGrid[i, j] == if Cell(i, j) in Visited then 1 else 0
    {
    }

    /** The two border-cell tests of one scan step: floods from (i, j) when
        it is ocean-like and not yet visited. */
    method FloodIfSeed(i: int, j: int)
      requires SeedState([]) && InBounds(i, j) && OnBorder(rows, cols, i, j)
      modifies completionGrid, this`nextqueue, this`Visited, this`Ocean, this`Parent, this`Pops
      ensures SeedState([])
      ensures Class(ndval, Elev(Cell(i, j))) == -1 ==> Cell(i, j) in Visited
      ensures forall c :: c in old(Visited) ==> c in Visited
      ensures Class(ndval, Elev(Cell(i, j))) != -1 || Cell(i, j) in old(Visited) ==>
        Visited == old(Visited) && Ocean == old(Ocean) && Parent == old(Parent) &&
        nextqueue == old(nextqueue) && Pops == old(Pops)
    {
      SeedTag(i, j);
      if checkGrid[i, j] == -1 && completionGrid[i, j] == 0 {
        Flood(i, j);
      }
    }

    /** Two border-cell tests in a row. */
    method FloodIfSeeds(i: int, j: int, i': int, j': int)
      requires SeedState([]) && InBounds(i, j) && OnBorder(rows, cols, i, j)
      requires InBounds(i', j') && OnBorder(rows, cols, i', j')
      modifies completionGrid, this`nextqueue, this`Visited, this`Ocean, this`Parent, this`Pops
      ensures SeedState([])
      ensures Class(ndval, Elev(Cell(i, j))) == -1 ==> Cell(i, j) in Visited
      ensures Class(ndval, Elev(Cell(i', j'))) == -1 ==> Cell(i', j') in Visited
      ensures forall c :: c in old(Visited) ==> c in Visited
    {
      FloodIfSeed(i, j);
      FloodIfSeed(i', j');
    }

    /** Every ocean-like cell among the first `n` cells of row i is in
        `visited`. */
    ghost predicate RowSeeded(visited: set<int>, i: int, n: int)
      reads this`Elevs
    {
      forall j :: 0 <= j < n ==> Class(ndval, Elev(Cell(i, j))) == -1 ==> Cell(i, j) in visited
    }

    /** Every ocean-like cell among the first `n` cells of column j is in
        `visited`. */
    ghost predicate ColumnSeeded(visited: set<int>, j: int, n: int)
      reads this`Elevs
    {
      forall i :: 0 <= i < n ==> Class(ndval, Elev(Cell(i, j))) == -1 ==> Cell(i, j) in visited
    }

    /** A scan step keeps the cells already seeded and adds cell (i, n). */
    lemma RowSeededStep(v0: set<int>, v1: set<int>, i: int, n: int)
      requires RowSeeded(v0, i, n) && forall c :: c in v0 ==> c in v1
      requires Class(ndval, Elev(Cell(i, n))) == -1 ==> Cell(i, n) in v1
      ensures RowSeeded(v1, i, n + 1)
    {
    }

    /** A scan step keeps the cells already seeded and adds cell (n, j). */
    lemma ColumnSeededStep(v0: set<int>, v1: set<int>, j: int, n: int)
      requires ColumnSeeded(v0, j, n) && forall c :: c in v0 ==> c in v1
      requires Class(ndval, Elev(Cell(n, j))) == -1 ==> Cell(n, j) in v1
      ensures ColumnSeeded(v1, j, n + 1)
    {
    }

    /** The scan of rows 0 and rows-1, column by column. */
    method ScanRows()
      requires SeedState([]) && (rows > 0 || cols == 0)
      modifies completionGrid, this`nextqueue, this`Visited, this`Ocean, this`Parent, this`Pops
      ensures SeedState([]) && RowSeeded(Visited, 0, cols) && RowSeeded(Visited, rows - 1, cols)
    {
      for j := 0 to cols
        invariant SeedState([]) && RowSeeded(Visited, 0, j) && RowSeeded(Visited, rows - 1, j)
      {
        ghost var visited := Visited;
        FloodIfSeeds(0, j, rows - 1, j);
        RowSeededStep(visited, Visited, 0, j);
        RowSeededStep(visited, Visited, rows - 1, j);
      }
    }

    /** The scan of columns 0 and cols-1, row by row. */
    method ScanColumns()
      requires SeedState([]) && (cols > 0 || rows == 0)
      modifies completionGrid, this`nextqueue, this`Visited, this`Ocean, this`Parent, this`Pops
      ensures SeedState([]) && ColumnSeeded(Visited, 0, rows) && ColumnSeeded(Visited, cols - 1, rows)
      ensures forall c :: c in old(Visited) ==> c in Visited
    {
      for i := 0 to rows
        invariant SeedState([]) && ColumnSeeded(Visited, 0, i) && ColumnSeeded(Visited, cols - 1, i)
        invariant forall c :: c in old(Visited) ==> c in Visited
      {
        ghost var visited := Visited;
        FloodIfSeeds(i, 0, i, cols - 1);
        ColumnSeededStep(visited, Visited, 0, i);
        ColumnSeededStep(visited, Visited, cols - 1, i);
      }
    }

    /** slr's scan of the border: rows 0 and rows-1, then columns 0 and
        cols-1, flooding from every ocean-like border cell not yet visited.
        Afterwards every ocean-like border cell is visited. */
    method ScanBorder()
      requires SeedState([]) && (rows == 0) == (cols == 0)
      modifies completionGrid, this`nextqueue, this`Visited, this`Ocean, this`Parent, this`Pops
      ensures SeedState([])
      ensures RowSeeded(Visited, 0, cols) && RowSeeded(Visited, rows - 1, cols)
      ensures ColumnSeeded(Visited, 0, rows) && ColumnSeeded(Visited, cols - 1, rows)
    {
      ScanRows();
      ghost var visited := Visited;
      ScanColumns();
      assert RowSeeded(visited, 0, cols) && RowSeeded(visited, rows - 1, cols);
    }

    /** After the seeding, a visited ocean-like cell is an ocean cell. */
    lemma SeededOcean(c: int)
      requires SeedState([]) && c in Visited && Class(ndval, Elev(c)) == -1
      ensures c in Ocean
    {
      assert c !in nextqueue;
    }

    /** After the seeding, the coastline holds distinct land cells, each a
        neighbour of an ocean cell. */
    lemma CoastFacts()
      requires SeedState([])
      ensures Distinct(nextqueue)
      ensures forall c :: c in nextqueue ==>
        0 <= c < Size() && Class(ndval, Elev(c)) == 0 && exists o :: o in Ocean && c in Nbrs(o)
    {
      forall c | c in nextqueue
        ensures exists o :: o in Ocean && c in Nbrs(o)
      {
        var o := Parent[c].from;
        assert o in Ocean && c in Nbrs(o);
      }
    }

    /** After the seeding, the ocean is closed: every neighbour of an ocean
        cell is ocean or on the coastline. */
    lemma OceanClosed()
      requires SeedState([])
      ensures forall o, n :: o in Ocean && n in Nbrs(o) ==> n in Ocean || n in nextqueue
    {
      forall o, n | o in Ocean && n in Nbrs(o)
        ensures n in Ocean || n in nextqueue
      {
        assert Nbrs(o) <= Visited;
      }
    }

    /** The seeding popped at most rows*cols cells. */
    lemma SeedPops()
      requires SeedState([])
      ensures Pops <= Size()
    {
      CardBound(Visited, Size());
    }

    /** The seeding's coastline becomes the queue of the first rising-water
        pass: nothing is flooded yet, so any level will do. */
    lemma SeedToWave(top: int)
      requires SeedState([])
      ensures Inv(nextqueue, [], {}, {}, top, false)
    {
    }

    /** The coastline left by a pass becomes the queue of the next pass, at
        a level no lower. */
    lemma NextPass(nq: seq<int>, top: int, top': int)
      requires Inv([], nq, {}, {}, top, false) && top <= top'
      ensures Inv(nq, [], {}, {}, top', false)
    {
    }

    /** The state of a rising-water pass at level `feet` after the cell c
        was popped, `cq` being what is left and `nq` the next coastline. */
    ghost predicate WaveHeld(cq: seq<int>, nq: seq<int>, c: int)
      reads this`Visited, this`Ocean, this`Level, this`Parent, this`Passes, this`feet
      reads this`Elevs, grid, checkGrid, completionGrid
    {
      Inv(cq, nq, {c}, {}, feet, false) && feet in Passes && 0 <= c < Size() && Ordered(Level, Parent)
    }

    /** The state of a rising-water pass at level `feet` while `cq` is
        drained and `nq` collects the next coastline. */
    ghost predicate WaveState(cq: seq<int>, nq: seq<int>)
      reads this`Visited, this`Ocean, this`Level, this`Parent, this`Passes, this`feet
      reads this`Elevs, grid, checkGrid, completionGrid
    {
      Inv(cq, nq, {}, {}, feet, false) && feet in Passes && Ordered(Level, Parent)
    }

    /** Pops the head of a pass queue. */
    lemma PopWave(cq: seq<int>, nq: seq<int>)
      requires WaveState(cq, nq) && cq != []
      ensures WaveHeld(cq[1..], nq, cq[0])
    {
      PopHead(cq, nq, feet, false);
    }

    /** Floods the held cell c = (i, j), which lies at or below the water:
        checkGrid and Level record the current level for it. */
    method SetLevel(cq: seq<int>, nq: seq<int>, c: int, i: int, j: int)
      requires WaveHeld(cq, nq, c) && Elev(c) <= feet
      requires InBounds(i, j) && c == Cell(i, j)
      modifies checkGrid, this`Level
      ensures Inv(cq, nq, {}, {c}, feet, false) && feet in Passes
      ensures Level == old(Level)[c := feet] && c !in old(Level)
      ensures checkGrid[i, j] == feet && Ordered(Level, Parent)
    {
      EncodeDecode(rows, cols, i, j);
      LevelOrdered(Ocean, Level, Parent, c, feet);
      checkGrid[i, j] := feet;
      Level := Level[c := feet];
      forall i', j' | InBounds(i', j')
        ensures checkGrid[i', j'] == if Cell(i', j') in Level then Level[Cell(i', j')] else Class(ndval, Elev(Cell(i', j')))
      {
        if Cell(i', j') == c {
          EncodeInjective(rows, cols, i', j', i, j);
        }
      }
    }

    /** The flooding branch of a pass: the held cell c = (i, j) at or below
        the water gets the current level and its unvisited neighbours are
        queued. */
    method LevelTurn(cq: seq<int>, nq: seq<int>, c: int, i: int, j: int) returns (cq': seq<int>)
      requires WaveHeld(cq, nq, c) && Elev(c) <= feet
      requires InBounds(i, j) && c == Cell(i, j)
      modifies checkGrid, completionGrid, this`Level, this`Visited, this`Parent
      ensures WaveState(cq', nq)
      ensures Level == old(Level)[c := feet] && c !in old(Level)
      ensures forall n :: n in Visited <==> n in old(Visited) || n in Nbrs(c)
      ensures cq' == Enqueued(cq, old(Visited), i, j)
      ensures |cq'| + |old(Visited)| == |cq| + |Visited|
    {
      SetLevel(cq, nq, c, i, j);
      ReachOrdered(Level, Parent, Visited, c);
      cq' := ExpandNeighbours(cq, c, i, j, nq, feet, false);
    }

    /** The coastline branch of a pass: the held cell c above the water
        joins the next coastline. */
    lemma DeferTurn(cq: seq<int>, nq: seq<int>, c: int)
      requires WaveHeld(cq, nq, c) && Elev(c) > feet
      ensures WaveState(cq, nq + [c])
    {
    }

    /** One turn of a rising-water pass: pops the head c of the queue; a
        cell at or below the water is flooded at the current level and its
        unvisited neighbours are queued, any other cell joins the next
        coastline. */
    method WaveStep(cq: seq<int>, nq: seq<int>) returns (cq': seq<int>, nq': seq<int>)
      requires WaveState(cq, nq) && cq != []
      modifies checkGrid, completionGrid, this`Level, this`Visited, this`Parent
      ensures WaveState(cq', nq')
      ensures 0 <= cq[0] < Size()
      ensures Elev(cq[0]) <= feet ==>
        Level == old(Level)[cq[0] := feet] && cq[0] !in old(Level) && nq' == nq &&
        (forall n :: n in Visited <==> n in old(Visited) || n in Nbrs(cq[0])) &&
        cq' == Enqueued(cq[1..], old(Visited), cq[0] / cols, cq[0] % cols)
      ensures Elev(cq[0]) > feet ==>
        Level == old(Level) && Visited == old(Visited) && cq' == cq[1..] && nq' == nq + [cq[0]]
      ensures |cq'| + |old(Visited)| + 1 == |cq| + |Visited|
      ensures forall c :: c in old(Level) ==> c in Level && Level[c] == old(Level)[c]
      ensures forall c :: c in Level && c !in old(Level) ==> Level[c] == feet
      ensures old(Visited) <= Visited
    {
      var c := cq[0];
      PopWave(cq, nq);
      DecodeEncode(rows, cols, c);
      var i := c / cols;
      var j := c % cols;
      cq', nq' := cq[1..], nq;
      if grid[i, j] <= feet {
        cq' := LevelTurn(cq', nq, c, i, j);
      } else {
        DeferTurn(cq', nq, c);
        nq' := nq + [c];
      }
    }

    /** One pass of floodUp at level `feet`, from the coastline `cq`: drains
        the queue and returns the next coastline. Only cells not flooded
        before get a label, and that label is `feet`. */
    method FloodLevel(cq: seq<int>) returns (nq: seq<int>)
      requires Inv(cq, [], {}, {}, feet, false) && Ordered(Level, Parent)
      modifies checkGrid, completionGrid, this`Level, this`Visited, this`Parent, this`Passes
      ensures Inv([], nq, {}, {}, feet, false) && Ordered(Level, Parent) && Passes == old(Passes) + [feet]
      ensures forall c :: c in old(Level) ==> c in Level && Level[c] == old(Level)[c]
      ensures forall c :: c in Level && c !in old(Level) ==> Level[c] == feet
      ensures forall c :: c in old(Level) ==> old(Level)[c] <= feet
      ensures forall c :: c in old(Visited) ==> c in Visited
    {
      Passes := Passes + [feet];
      var queue := cq;
      nq := [];
      while queue != []
        invariant WaveState(queue, nq) && Passes == old(Passes) + [feet]
        invariant forall c :: c in old(Level) ==> c in Level && Level[c] == old(Level)[c]
        invariant forall c :: c in Level && c !in old(Level) ==> Level[c] == feet
        invariant forall c :: c in old(Visited) ==> c in Visited
        decreases Size() - |Visited|, |queue|
      {
        CardBound(Visited, Size());
        queue, nq := WaveStep(queue, nq);
        CardBound(Visited, Size());
      }
    }

    /** Every pass level h is a water mark: a cell at or below h next to
        an ocean cell, or next to a cell flooded at h or lower, is itself
        ocean or flooded at h or lower. So a cell's label is the first pass
        level at which the water reaches it. */
    ghost predicate Layered(elevs: seq<int>, ocean: set<int>, level: map<int, int>, passes: seq<int>) {
      forall h, w, n {:trigger h in passes, n in Nbrs(w)} ::
        h in passes && (w in ocean || (w in level && level[w] <= h)) && n in Nbrs(w) &&
        0 <= n < |elevs| && elevs[n] <= h ==>
        n in ocean || (n in level && level[n] <= h)
    }

    /** Once a pass at `top` has drained its queue, every neighbour at or
        below `top` of a wet cell is wet: the other visited neighbours wait
        on the next coastline, above `top`. */
    lemma PassClosed(nq: seq<int>, top: int)
      requires Closed(Ocean, Level, Visited, {}) && Partition(Visited, Ocean, Level, [], nq, {})
      requires Pending(Parent, [], nq, {}, top, false)
      ensures forall w, n :: (w in Ocean || w in Level) && n in Nbrs(w) && 0 <= n < |Elevs| && Elevs[n] <= top ==>
        n in Ocean || n in Level
    {
      forall w, n | (w in Ocean || w in Level) && n in Nbrs(w) && 0 <= n < |Elevs| && Elevs[n] <= top
        ensures n in Ocean || n in Level
      {
        assert Nbrs(w) <= Visited;
        assert n !in nq;
      }
    }

    /** A pass at `top`, above every earlier pass, that labels new cells
        with `top` and leaves the water closed at `top`, keeps every
        earlier level a water mark and adds `top` as one. */
    lemma {:induction false} LayerStep(elevs: seq<int>, ocean: set<int>, level: map<int, int>, level': map<int, int>,
                                       passes: seq<int>, top: int)
      requires Layered(elevs, ocean, level, passes) && forall h :: h in passes ==> h < top
      requires forall c :: c in level ==> c in level' && level'[c] == level[c]
      requires forall c :: c in level' ==> level'[c] <= top && (c !in level ==> level'[c] == top)
      requires forall w, n :: (w in ocean || w in level') && n in Nbrs(w) && 0 <= n < |elevs| && elevs[n] <= top ==>
        n in ocean || n in level'
      ensures Layered(elevs, ocean, level', passes + [top])
    {
      forall h, w, n | h in passes + [top] && (w in ocean || (w in level' && level'[w] <= h)) && n in Nbrs(w) &&
          0 <= n < |elevs| && elevs[n] <= h
        ensures n in ocean || (n in level' && level'[n] <= h)
      {
        if h != top {
          assert h in passes;
          assert w in ocean || (w in level && level[w] <= h);
        }
      }
    }

    /** A drained pass at `top` that kept the old labels and gave new ones
        the value `top` extends the water marks by `top`. */
    lemma PassLayered(nq: seq<int>, top: int, level: map<int, int>, passes: seq<int>)
      requires Closed(Ocean, Level, Visited, {}) && Partition(Visited, Ocean, Level, [], nq, {})
      requires Pending(Parent, [], nq, {}, top, false) && LevelFacts(top)
      requires Layered(Elevs, Ocean, level, passes) && forall h :: h in passes ==> h < top
      requires forall c :: c in level ==> c in Level && Level[c] == level[c]
      requires forall c :: c in Level && c !in level ==> Level[c] == top
      ensures Layered(Elevs, Ocean, Level, passes + [top])
    {
      PassClosed(nq, top);
      LayerStep(Elevs, Ocean, level, Level, passes, top);
    }

    /** A label is the first pass level at which the water reaches the
        cell: at any earlier pass level the cell lay above the water, or no
        neighbour of it was wet at that level. */
    lemma FirstLevel(elevs: seq<int>, ocean: set<int>, level: map<int, int>, passes: seq<int>, c: int, h: int, w: int)
      requires Layered(elevs, ocean, level, passes) && c in level && c !in ocean && 0 <= c < |elevs|
      requires h in passes && h < level[c]
      requires c in Nbrs(w) && (w in ocean || (w in level && level[w] <= h))
      ensures elevs[c] > h
    {
    }

    /** The body of floodUp's loop: a pass at the current level, then the
        level raised by fIncrement; the pass's leftover coastline is where the
        next pass starts. */
    method RisePass(coast: seq<int>) returns (next: seq<int>)
      requires fIncrement > 0 && feet < ceiling && Inv(coast, [], {}, {}, feet, false) && Ordered(Level, Parent)
      requires Layered(Elevs, Ocean, Level, Passes) && forall h :: h in Passes ==> h < feet
      modifies checkGrid, completionGrid, this`feet, this`Level, this`Visited, this`Parent, this`Passes
      ensures Inv(next, [], {}, {}, feet, false) && Ordered(Level, Parent)
      ensures Layered(Elevs, Ocean, Level, Passes) && forall h :: h in Passes ==> h < feet
      ensures feet == old(feet) + fIncrement && Passes == old(Passes) + [old(feet)]
      ensures forall c :: c in old(Level) ==> c in Level && Level[c] == old(Level)[c]
      ensures forall c :: c in Level && c !in old(Level) ==> Level[c] == old(feet)
      ensures forall c :: c in old(Visited) ==> c in Visited
      ensures forall c :: c in next ==> Elev(c) > old(feet)
    {
      next := FloodLevel(coast);
      PassLayered(next, feet, old(Level), old(Passes));
      feet := feet + fIncrement;
      NextPass(next, feet - fIncrement, feet);
    }

    /** floodUp: returns at once when the level is at or above the ceiling;
        otherwise runs a pass at the level from the coastline, raises the
        level by fIncrement and recurses on the coastline the pass left.
        Returns the last coastline, which the program drops. */
    method FloodUp(cqueue: seq<int>, ghost plan: seq<int>) returns (coast: seq<int>)
      requires fIncrement > 0 && Inv(cqueue, [], {}, {}, feet, false) && Ordered(Level, Parent)
      requires plan == Passes + PassLevelsFrom(feet, fIncrement, ceiling)
      requires Layered(Elevs, Ocean, Level, Passes) && forall h :: h in Passes ==> h < feet
      modifies checkGrid, completionGrid, this`feet, this`Level, this`Visited, this`Parent, this`Passes
      ensures Inv(coast, [], {}, {}, feet, false) && Ordered(Level, Parent) && feet >= ceiling
      ensures Layered(Elevs, Ocean, Level, Passes)
      ensures Connected(Ocean, Level) && Drained(coast)
      ensures Passes == plan
      ensures forall c :: c in old(Level) ==> c in Level && Level[c] == old(Level)[c]
      ensures forall c :: c in Level && c !in old(Level) ==> old(feet) <= Level[c] < ceiling
      ensures forall c :: c in old(Visited) ==> c in Visited
      ensures old(feet) >= ceiling ==> coast == cqueue && feet == old(feet)
      ensures old(feet) < ceiling ==> Passes != [] && forall c :: c in coast ==> Elev(c) > Waterline(Passes)
      decreases ceiling - feet
    {
      if feet >= ceiling {
        coast := cqueue;
        assert plan == Passes + [] == Passes;
        LinksConnect(Ocean, Level, Parent);
        WetClosed(coast, feet);
      } else {
        ghost var done, level := Passes, feet;
        var newqueue := RisePass(cqueue);
        PassLevelsStep(plan, done, level, fIncrement, ceiling);
        coast := FloodUp(newqueue, plan);
      }
    }

    /** The state the passes leave with `coast` the final coastline: every
        flooded cell lies at or below the level of a pass it got, checkGrid
        records the flood levels, the ocean cells are ocean-like and not
        flooded, and every wet cell has all its neighbours wet or on the
        coastline. */
    ghost predicate Drained(coast: seq<int>)
      reads this`Ocean, this`Level, this`Passes, this`Elevs, checkGrid
    {
      Labelled() && OceanLike() &&
      (forall c :: c in Level ==> 0 <= c < Size() && Elev(c) <= Level[c] && Level[c] in Passes) &&
      (forall w, n :: (w in Ocean || w in Level) && n in Nbrs(w) ==> n in Ocean || n in Level || n in coast)
    }

    /** The invariant of the passes, with no cell waiting and every flooded
        cell at or below `top`, leaves the state Drained. */
    lemma WetClosed(coast: seq<int>, top: int)
      requires Inv(coast, [], {}, {}, top, false)
      ensures Drained(coast)
    {
      forall w, n | (w in Ocean || w in Level) && n in Nbrs(w)
        ensures n in Ocean || n in Level || n in coast
      {
        assert Nbrs(w) <= Visited;
      }
    }

    /** Every ocean-like border cell is ocean. */
    ghost predicate BorderOcean()
      reads this`Elevs, this`Ocean
    {
      forall i, j ::
        InBounds(i, j) && OnBorder(rows, cols, i, j) && Class(ndval, Elev(Cell(i, j))) == -1 ==>
        Cell(i, j) in Ocean
    }

    /** The coastline holds distinct land cells, each next to an ocean
        cell. */
    ghost predicate CoastOfOcean()
      reads this`nextqueue, this`Elevs, this`Ocean
    {
      Distinct(nextqueue) &&
      forall c :: c in nextqueue ==>
        0 <= c < Size() && Class(ndval, Elev(c)) == 0 && exists o :: o in Ocean && c in Nbrs(o)
    }

    /** Every ocean-like neighbour of an ocean cell is ocean. */
    ghost predicate OceanShut()
      reads this`Elevs, this`Ocean
    {
      forall o, n :: o in Ocean && n in Nbrs(o) && Class(ndval, Elev(n)) == -1 ==> n in Ocean
    }

    /** After the seeding no ocean-like cell borders the ocean without
        being ocean: the ocean's other neighbours are the coastline, which
        is land. */
    lemma SeedShut()
      requires SeedState([])
      ensures OceanShut()
    {
      OceanClosed();
    }

    /** The first half of slr: the border scan, after which every
        ocean-like border cell is ocean, every ocean-like neighbour of the
        ocean is ocean, every ocean cell is joined to the border by ocean
        cells, and the coastline holds distinct land cells next to the
        ocean. */
    method FindOcean()
      requires SeedState([]) && (rows == 0) == (cols == 0)
      modifies completionGrid, this`nextqueue, this`Visited, this`Ocean, this`Parent, this`Pops
      ensures SeedState([])
      ensures BorderOcean() && OceanShut() && CoastOfOcean() && Connected(Ocean, Level)
    {
      ScanBorder();
      forall i, j | InBounds(i, j) && OnBorder(rows, cols, i, j) && Class(ndval, Elev(Cell(i, j))) == -1
        ensures Cell(i, j) in Ocean
      {
        SeededOcean(Cell(i, j));
      }
      CoastFacts();
      SeedShut();
      LinksConnect(Ocean, Level, Parent);
    }

    /** The second half of slr: raises the level by fIncrement and runs
        floodUp on the coastline the border scan found. */
    method Rise() returns (coast: seq<int>)
      requires SeedState([]) && Passes == [] && fIncrement > 0
      modifies checkGrid, completionGrid, this`feet, this`Visited, this`Level, this`Parent, this`Passes
      ensures Passes == PassLevelsFrom(old(feet) + fIncrement, fIncrement, ceiling) && feet >= ceiling
      ensures Drained(coast) && forall c :: c in Level ==> Level[c] < ceiling
      ensures Connected(Ocean, Level) && Layered(Elevs, Ocean, Level, Passes)
      ensures old(feet) + fIncrement >= ceiling ==> coast == nextqueue
      ensures forall c :: c in coast ==> Elev(c) > Waterline(Passes)
    {
      feet := feet + fIncrement;
      SeedToWave(feet);
      coast := FloodUp(nextqueue, PassLevelsFrom(feet, fIncrement, ceiling));
    }

    /** What slr leaves, over the elevations `elevs`, the ocean, the flood
        levels and the levels of the passes run. The ocean is every cell
        that the ocean-like border cells reach through ocean-like cells: it
        holds them, it is closed under ocean-like neighbours, and each of
        its cells is ocean-like and joined to the border by ocean cells.
        Every flooded cell is no ocean cell, lies at or below the level of
        the pass that flooded it, and is joined to the ocean by wet cells
        flooded no higher. Every neighbour of a wet cell that lies at or
        below the waterline is wet. */
    ghost predicate Settled(elevs: seq<int>, ocean: set<int>, level: map<int, int>, passes: seq<int>) {
      |elevs| == Size() &&
      (forall c :: c in ocean ==> 0 <= c < Size() && Class(ndval, elevs[c]) == -1 && c !in level) &&
      (forall c :: 0 <= c < Size() && BorderCode(c) && Class(ndval, elevs[c]) == -1 ==> c in ocean) &&
      (forall o, n :: o in ocean && n in Nbrs(o) && 0 <= n < Size() && Class(ndval, elevs[n]) == -1 ==> n in ocean) &&
      (forall c :: c in level ==> 0 <= c < Size() && elevs[c] <= level[c] && level[c] in passes) &&
      Connected(ocean, level) &&
      (forall w, n :: (w in ocean || w in level) && n in Nbrs(w) && 0 <= n < Size() && elevs[n] <= Waterline(passes) ==>
        n in ocean || n in level) &&
      Layered(elevs, ocean, level, passes)
    }

    /** The facts slr's two halves establish add up to Settled. */
    lemma SlrSettles(coast: seq<int>)
      requires |Elevs| == Size() && Drained(coast) && BorderOcean() && OceanShut() && Connected(Ocean, Level)
      requires Layered(Elevs, Ocean, Level, Passes)
      requires forall c :: c in coast ==> Elev(c) > Waterline(Passes)
      ensures Settled(Elevs, Ocean, Level, Passes)
    {
      forall c | 0 <= c < Size() && BorderCode(c) && Class(ndval, Elevs[c]) == -1
        ensures c in Ocean
      {
        DecodeEncode(rows, cols, c);
        assert Cell(c / cols, c % cols) == c;
      }
    }

    /** slr: floods the ocean from every ocean-like, unvisited border cell,
        raises the level by fIncrement and runs floodUp on the coastline.
        Afterwards the grid is Settled, the coastline holds distinct land
        cells next to the ocean, the passes ran at the levels of the
        schedule, below the ceiling, and checkGrid records every flood
        level; every neighbour of a wet cell is wet or on the last
        coastline, whose cells lie above the waterline. */
    method Slr() returns (coast: seq<int>)
      requires SeedState([]) && Passes == [] && (rows == 0) == (cols == 0) && fIncrement > 0
      modifies checkGrid, completionGrid, this`nextqueue, this`feet
      modifies this`Visited, this`Ocean, this`Level, this`Parent, this`Passes, this`Pops
      ensures BorderOcean() && CoastOfOcean()
      ensures Passes == PassLevelsFrom(old(feet) + fIncrement, fIncrement, ceiling) && feet >= ceiling
      ensures forall c :: c in Level ==>
        0 <= c < Size() && Elev(c) <= Level[c] < ceiling && Level[c] in Passes
      ensures Labelled() && Settled(Elevs, Ocean, Level, Passes)
      ensures forall w, n :: (w in Ocean || w in Level) && n in Nbrs(w) ==>
        n in Ocean || n in Level || n in coast
      ensures old(feet) + fIncrement >= ceiling ==> coast == nextqueue
      ensures forall c :: c in coast ==> Elev(c) > Waterline(Passes)
    {
      FindOcean();
      coast := Rise();
      SlrSettles(coast);
    }

    /** moveToFile's data loop: one value per cell in row-major order, the
        cell's ExportValue at height h. */
    method Export(h: int) returns (out: seq<int>)
      requires Shape()
      ensures |out| == Size()
      ensures forall i, j :: InBounds(i, j) ==>
        0 <= Cell(i, j) < |out| && out[Cell(i, j)] == ExportValue(grid[i, j], checkGrid[i, j], h)
    {
      out := [];
      for row := 0 to rows
        invariant |out| == row * cols <= Size()
        invariant forall k :: 0 <= k < |out| ==> out[k] == ExportValue(At(grid, k), At(checkGrid, k), h)
      {
        for col := 0 to cols
          invariant |out| == row * cols + col <= Size()
          invariant forall k :: 0 <= k < |out| ==> out[k] == ExportValue(At(grid, k), At(checkGrid, k), h)
        {
          EncodeDecode(rows, cols, row, col);
          if checkGrid[row, col] >= h || checkGrid[row, col] == 0 {
            out := out + [grid[row, col] - h];
          } else {
            out := out + [0];
          }
        }
        assert row * cols + cols == (row + 1) * cols;
      }
      forall i, j | InBounds(i, j)
        ensures 0 <= Cell(i, j) < |out| && out[Cell(i, j)] == ExportValue(grid[i, j], checkGrid[i, j], h)
      {
        EncodeDecode(rows, cols, i, j);
      }
    }

    /** The exported grid, cell by cell, after a run whose passes ran at
        fIncrement, 2*fIncrement, ... below the ceiling: at a non-negative
        height a cell writes 0 when it is ocean-like or flooded and its
        elevation minus the height otherwise; at a negative height nothing
        is flooded and every cell writes its elevation minus the height. */
    lemma ExportOutcome(out: seq<int>)
      requires Terrain() && Labelled() && forall c :: c in Level ==> 0 <= c < Size() && Level[c] in Passes
      requires fIncrement > 0 && Passes == PassLevelsFrom(fIncrement, fIncrement, ceiling)
      requires |out| == Size() && forall i, j :: InBounds(i, j) ==>
        0 <= Cell(i, j) < |out| && out[Cell(i, j)] == ExportValue(grid[i, j], checkGrid[i, j], ceiling)
      ensures forall c :: c in Level ==> 0 < Level[c] < ceiling
      ensures ceiling >= 0 ==> forall c :: 0 <= c < Size() ==>
        out[c] == if c in Level || Class(ndval, Elevs[c]) == -1 then 0 else Elevs[c] - ceiling
      ensures ceiling < 0 ==> Level == map[] && forall c :: 0 <= c < Size() ==> out[c] == Elevs[c] - ceiling
    {
      RunLevels(fIncrement, ceiling);
      forall c | c in Level
        ensures 0 < Level[c] < ceiling
      {
      }
      forall c | 0 <= c < Size()
        ensures out[c] == if (c in Level || Class(ndval, Elevs[c]) == -1) && ceiling >= 0 then 0 else Elevs[c] - ceiling
      {
        DecodeEncode(rows, cols, c);
        var i, j := c / cols, c % cols;
        assert checkGrid[i, j] == if c in Level then Level[c] else Class(ndval, Elev(c));
        if ceiling >= 0 {
          ExportAtHeight(grid[i, j], checkGrid[i, j], ceiling);
        }
      }
      if ceiling < 0 {
        forall c | c in Level
          ensures false
        {
        }
      }
    }

    /** main's set-up before the flood: loads the elevations, starts the
        water at FloorVal and clears the visited grid, which leaves the
        seeding ready to start. */
    method Load(values: seq<int>)
      requires Valid() && |values| == Size() && nextqueue == []
      modifies grid, checkGrid, completionGrid, this`initLand, this`maxz, this`feet
      modifies this`Elevs, this`Visited, this`Ocean, this`Level, this`Parent, this`Passes, this`Pops
      ensures SeedState([]) && Passes == [] && Elevs == values && feet == FloorVal
      ensures Visited == {} && Ocean == {} && Level == map[] && Parent == map[] && Pops == 0
      ensures initLand == old(initLand) + CountLand(ndval, values)
      ensures maxz == MaxElev(old(maxz), values)
    {
      Classify(values);
      feet := FloorVal;
      ClearCompletion();
    }

    /** main's calls after the set-up: slr, then the export at the
        ceiling. Afterwards the grid is Settled over the loaded elevations,
        the passes ran at fIncrement, 2*fIncrement, ... below the ceiling,
        and exported at a non-negative ceiling a cell writes 0 when it is
        ocean-like or flooded and its elevation minus the ceiling
        otherwise. */
    method FloodAndExport() returns (out: seq<int>)
      requires SeedState([]) && Passes == [] && feet == FloorVal && (rows == 0) == (cols == 0) && fIncrement > 0
      requires |Elevs| == Size()
      modifies checkGrid, completionGrid, this`nextqueue, this`feet
      modifies this`Visited, this`Ocean, this`Level, this`Parent, this`Passes, this`Pops
      ensures Passes == PassLevelsFrom(fIncrement, fIncrement, ceiling)
      ensures Settled(Elevs, Ocean, Level, Passes) && Labelled()
      ensures forall c :: c in Level ==> Elevs[c] <= Level[c] < ceiling
      ensures |out| == Size()
      ensures ceiling >= 0 ==> forall c :: 0 <= c < Size() ==>
        out[c] == if c in Level || Class(ndval, Elevs[c]) == -1 then 0 else Elevs[c] - ceiling
      ensures ceiling < 0 ==> Level == map[] && forall c :: 0 <= c < Size() ==> out[c] == Elevs[c] - ceiling
    {
      var coast := Slr();
      out := Export(ceiling);
      ExportOutcome(out);
    }

    /** main's flood pipeline: loads the elevations, starts the water at
        FloorVal, clears the visited grid, runs slr and exports the grid at
        the ceiling. Afterwards the grid is Settled over the loaded values;
        the passes ran at fIncrement, 2*fIncrement, ... below the ceiling,
        and exported at a non-negative ceiling a cell writes 0 when it is
        ocean-like or flooded and its elevation minus the ceiling otherwise. */
    method Run(values: seq<int>) returns (out: seq<int>)
      requires Valid() && |values| == Size() && nextqueue == [] && (rows == 0) == (cols == 0) && fIncrement > 0
      modifies grid, checkGrid, completionGrid, this`initLand, this`maxz, this`nextqueue, this`feet
      modifies this`Elevs, this`Visited, this`Ocean, this`Level, this`Parent, this`Passes, this`Pops
      ensures Elevs == values && Passes == PassLevelsFrom(fIncrement, fIncrement, ceiling)
      ensures Settled(values, Ocean, Level, Passes) && Labelled()
      ensures forall c :: c in Level ==> values[c] <= Level[c] < ceiling
      ensures |out| == Size()
      ensures ceiling >= 0 ==> forall c :: 0 <= c < Size() ==>
        out[c] == if c in Level || Class(ndval, values[c]) == -1 then 0 else values[c] - ceiling
      ensures ceiling < 0 ==> Level == map[] && forall c :: 0 <= c < Size() ==> out[c] == values[c] - ceiling
    {
      Load(values);
      out := FloodAndExport();
    }
  }
}
