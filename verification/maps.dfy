/** The grid map record of gridworld/maps.py and its random map generator.
    Every random draw of the generator is an explicit input: one stream per
    phase (corridor moves, widening coins, wall sample, bottleneck sample,
    severity draws). */
module GridMaps {
  import opened Base

  /** A frozen map: its size, the wall cells, and a severity level per
      bottleneck cell (1 low, 2 medium, 3 high by construction). */
  datatype GridMap = GridMap(rows: nat, cols: nat, walls: set<Coord>, bottlenecks: map<Coord, int>)

  predicate InBounds(rows: int, cols: int, c: Coord)
  {
    0 <= c.0 < rows && 0 <= c.1 < cols
  }

  /** Strict row-major order of cells. */
  predicate Before(a: Coord, b: Coord)
  {
    a.0 < b.0 || (a.0 == b.0 && a.1 < b.1)
  }

  predicate RowMajor(cells: seq<Coord>)
  {
    forall i, j :: 0 <= i < j < |cells| ==> Before(cells[i], cells[j])
  }

  /** Row-major lists are free of repetitions. */
  lemma RowMajorDistinct(cells: seq<Coord>)
    requires RowMajor(cells)
    ensures Distinct(cells)
  {
  }

  /** The first n cells of row r, left to right. */
  function Row(r: int, n: nat): seq<Coord>
  {
    seq(n, c => (r, c))
  }

  /** A list whose neighbours are in row-major order is in row-major order. */
  lemma {:induction false} ChainRowMajor(cells: seq<Coord>)
    requires forall k :: 0 <= k < |cells| - 1 ==> Before(cells[k], cells[k + 1])
    ensures RowMajor(cells)
  {
    if |cells| > 1 {
      var init := cells[..|cells| - 1];
      ChainRowMajor(init);
      forall i | 0 <= i < |cells| - 1
        ensures Before(cells[i], cells[|cells| - 1])
      {
        if i < |cells| - 2 {
          assert Before(init[i], init[|cells| - 2]);
        }
      }
    }
  }

  /** Cells of rows 0 .. r-1 of a grid with `cols` columns, row by row. */
  function Rows(r: nat, cols: nat): seq<Coord>
  {
    if r == 0 then [] else Rows(r - 1, cols) + Row(r - 1, cols)
  }

  lemma {:induction false} RowsShape(r: nat, cols: nat)
    ensures forall c :: c in Rows(r, cols) <==> InBounds(r, cols, c)
    ensures |Rows(r, cols)| == r * cols
    ensures RowMajor(Rows(r, cols))
  {
    if r > 0 {
      RowsShape(r - 1, cols);
      var prefix := Rows(r - 1, cols);
      var row := Row(r - 1, cols);
      var cells := Rows(r, cols);
      assert cells == prefix + row;
      assert forall c: Coord :: c in row <==> c.0 == r - 1 && 0 <= c.1 < cols by {
        forall c: Coord | c.0 == r - 1 && 0 <= c.1 < cols
          ensures c in row
        {
          assert row[c.1] == c;
        }
      }
      assert (r - 1) * cols + cols == r * cols;
      assert forall i :: 0 <= i < |prefix| ==> prefix[i] in prefix;
      forall i, j | 0 <= i < j < |cells|
        ensures Before(cells[i], cells[j])
      {
        if j < |prefix| {
          assert cells[i] == prefix[i] && cells[j] == prefix[j];
        } else if i < |prefix| {
          assert cells[i] == prefix[i] && cells[j] == row[j - |prefix|];
        } else {
          assert cells[i] == row[i - |prefix|] && cells[j] == row[j - |prefix|];
        }
      }
    }
  }

  /** all_cells(rows, cols): every cell of the grid, row by row. */
  function AllCells(rows: nat, cols: nat): (cells: seq<Coord>)
    ensures forall c :: c in cells <==> InBounds(rows, cols, c)
    ensures RowMajor(cells)
  {
    RowsShape(rows, cols);
    Rows(rows, cols)
  }

  /** all_cells lists rows * cols cells, no cell twice. */
  lemma AllCellsCount(rows: nat, cols: nat)
    ensures |AllCells(rows, cols)| == rows * cols
    ensures Distinct(AllCells(rows, cols))
  {
    RowsShape(rows, cols);
    RowMajorDistinct(AllCells(rows, cols));
  }

  /** The entries of `xs` that are not in `excluded`, in their order: the
      comprehensions `[x for x in xs if x not in ... and x != ...]`. */
  function Without(xs: seq<Coord>, excluded: set<Coord>): seq<Coord>
  {
    if |xs| == 0 then []
    else
      var init := Without(xs[..|xs| - 1], excluded);
      var x := xs[|xs| - 1];
      if x in excluded then init else init + [x]
  }

  /** The filter keeps exactly the entries outside `excluded`. */
  lemma {:induction false} WithoutMembers(xs: seq<Coord>, excluded: set<Coord>)
    ensures forall c :: c in Without(xs, excluded) <==> c in xs && c !in excluded
    ensures |Without(xs, excluded)| <= |xs|
  {
    if |xs| > 0 {
      WithoutMembers(xs[..|xs| - 1], excluded);
      assert xs == xs[..|xs| - 1] + [xs[|xs| - 1]];
    }
  }

  lemma {:induction false} WithoutKeepsOrder(xs: seq<Coord>, excluded: set<Coord>)
    requires RowMajor(xs)
    ensures RowMajor(Without(xs, excluded))
  {
    if |xs| > 0 {
      var init := xs[..|xs| - 1];
      var x := xs[|xs| - 1];
      assert RowMajor(init);
      WithoutKeepsOrder(init, excluded);
      WithoutMembers(init, excluded);
      var ys := Without(init, excluded);
      forall y | y in ys
        ensures Before(y, x)
      {
        var i :| 0 <= i < |init| && init[i] == y;
        assert xs[i] == y;
      }
    }
  }

  /** rng.sample(pool, k) by CPython's pool algorithm: the i-th draw `pick(i)`
      is taken below the current pool size, the picked entry is replaced by the
      pool's last entry, and the pool shrinks by one. */
  function Sample<T(==)>(pool: seq<T>, k: nat, pick: nat -> nat, i: nat): (chosen: seq<T>)
    requires k <= |pool|
    ensures |chosen| == k
    ensures forall x :: x in chosen ==> x in pool
    ensures Distinct(pool) ==> Distinct(chosen)
    decreases k
  {
    if k == 0 then []
    else
      var n := |pool|;
      var j := pick(i) % n;
      var rest := pool[j := pool[n - 1]][..n - 1];
      assert forall x :: x in rest ==> x in pool by {
        forall x | x in rest
          ensures x in pool
        {
          var m :| 0 <= m < |rest| && rest[m] == x;
          if m == j {
            assert x == pool[n - 1];
          } else {
            assert x == pool[m];
          }
        }
      }
      assert Distinct(pool) ==> Distinct(rest) && pool[j] !in rest by {
        if Distinct(pool) {
          forall a, b | 0 <= a < b < |rest|
            ensures rest[a] != rest[b]
          {
            assert rest[a] == (if a == j then pool[n - 1] else pool[a]);
            assert rest[b] == (if b == j then pool[n - 1] else pool[b]);
          }
          forall m | 0 <= m < |rest|
            ensures rest[m] != pool[j]
          {
            assert rest[m] == (if m == j then pool[n - 1] else pool[m]);
          }
        }
      }
      [pool[j]] + Sample(rest, k - 1, pick, i + 1)
  }

  function Min(a: int, b: int): int
  {
    if a <= b then a else b
  }

  // ---------------------------------------------------------------------------
  // Phase 1: the corridor

  /** The generator's goal cell, the bottom-right corner; its start is (0, 0). */
  function GoalOf(rows: nat, cols: nat): Coord
  {
    (rows - 1, cols - 1)
  }

  /** b - a when positive, else 0: how many unit moves are still needed. */
  function Gap(a: int, b: int): nat
  {
    if a < b then b - a else 0
  }

  /** One move down or one move right. */
  predicate UnitStep(a: Coord, b: Coord)
  {
    b == (a.0 + 1, a.1) || b == (a.0, a.1 + 1)
  }

  predicate Monotone(path: seq<Coord>)
  {
    forall k :: 0 <= k < |path| - 1 ==> UnitStep(path[k], path[k + 1])
  }

  /** The cells the corridor loop visits after (r, c): while the goal row or
      column is not yet reached, the available moves are listed down first,
      then right, and the i-th draw `pick(i)` chooses among them. */
  function Walk(r: int, c: int, goal: Coord, pick: nat -> nat, i: nat): (path: seq<Coord>)
    ensures r <= goal.0 && c <= goal.1 ==> WalkFrom(r, c, goal, path)
    decreases Gap(r, goal.0) + Gap(c, goal.1)
  {
    if r < goal.0 || c < goal.1 then
      var next := NextCell(r, c, goal, pick(i));
      var rest := Walk(next.0, next.1, goal, pick, i + 1);
      WalkCons(r, c, goal, next, rest);
      [next] + rest
    else
      []
  }

  /** A corridor walk from (r, c) to the goal: one unit move per remaining
      row and column, ending on the goal, all inside the rectangle. */
  predicate WalkFrom(r: int, c: int, goal: Coord, path: seq<Coord>)
  {
    && |path| == (goal.0 - r) + (goal.1 - c)
    && (|path| > 0 ==> UnitStep((r, c), path[0]) && path[|path| - 1] == goal)
    && Monotone(path)
    && (forall k :: 0 <= k < |path| ==> r <= path[k].0 <= goal.0 && c <= path[k].1 <= goal.1)
  }

  /** A unit move towards the goal in front of a walk from where it lands. */
  lemma WalkCons(r: int, c: int, goal: Coord, next: Coord, rest: seq<Coord>)
    requires UnitStep((r, c), next)
    requires next == (r + 1, c) ==> r < goal.0
    requires next == (r, c + 1) ==> c < goal.1
    ensures r <= goal.0 && c <= goal.1 && WalkFrom(next.0, next.1, goal, rest) ==>
      WalkFrom(r, c, goal, [next] + rest)
  {
    if r <= goal.0 && c <= goal.1 && WalkFrom(next.0, next.1, goal, rest) {
      MonotoneCons(next, rest);
      var path := [next] + rest;
      forall k | 0 <= k < |path|
        ensures r <= path[k].0 <= goal.0 && c <= path[k].1 <= goal.1
      {
        if k > 0 {
          assert path[k] == rest[k - 1];
        }
      }
    }
  }

  /** One pass of the corridor loop: the moves still open, down first, then
      right, and the one the draw picks. */
  function NextCell(r: int, c: int, goal: Coord, draw: nat): (next: Coord)
    requires r < goal.0 || c < goal.1
    ensures UnitStep((r, c), next)
    ensures next == (r + 1, c) ==> r < goal.0
    ensures next == (r, c + 1) ==> c < goal.1
  {
    var moves := (if r < goal.0 then ['D'] else []) + (if c < goal.1 then ['R'] else []);
    if moves[draw % |moves|] == 'D' then (r + 1, c) else (r, c + 1)
  }

  /** A unit step in front of a monotone path is a monotone path. */
  lemma MonotoneCons(a: Coord, rest: seq<Coord>)
    requires Monotone(rest) && (|rest| > 0 ==> UnitStep(a, rest[0]))
    ensures Monotone([a] + rest)
  {
    var path := [a] + rest;
    forall k | 0 <= k < |path| - 1
      ensures UnitStep(path[k], path[k + 1])
    {
      if k > 0 {
        assert path[k] == rest[k - 1] && path[k + 1] == rest[k];
      }
    }
  }

  /** Lines 38-54: the corridor from (0, 0) to (rows-1, cols-1), start included. */
  function Corridor(rows: nat, cols: nat, pick: nat -> nat): (path: seq<Coord>)
    ensures rows >= 1 && cols >= 1 ==>
      && |path| == 1 + (rows - 1) + (cols - 1)
      && path[0] == (0, 0)
      && path[|path| - 1] == GoalOf(rows, cols)
      && Monotone(path)
      && (forall k :: 0 <= k < |path| ==> InBounds(rows, cols, path[k]))
  {
    var walk := Walk(0, 0, GoalOf(rows, cols), pick, 0);
    assert rows >= 1 && cols >= 1 && |walk| > 0 ==> UnitStep((0, 0), walk[0]);
    [(0, 0)] + walk
  }

  // ---------------------------------------------------------------------------
  // Phase 2: widening

  /** The four neighbour offsets in the order the widening loop tries them. */
  const WidenDeltas: seq<Coord> := [(-1, 0), (1, 0), (0, -1), (0, 1)]

  predicate Adjacent(a: Coord, b: Coord)
  {
    || ((a.0 - b.0 == 1 || b.0 - a.0 == 1) && a.1 == b.1)
    || ((a.1 - b.1 == 1 || b.1 - a.1 == 1) && a.0 == b.0)
  }

  /** The cells added by widening, and the index of the next unused draw. */
  datatype Widened = Widened(added: set<Coord>, next: nat)

  /** The widening loop for one corridor cell and offsets d.. of WidenDeltas.
      A draw u(j) is taken only for an in-bounds neighbour (the bounds test
      short-circuits the draw), and the neighbour is added when u(j) < 0.25. */
  function WidenCell(cell: Coord, rows: nat, cols: nat, u: nat -> real, j: nat, d: nat): (w: Widened)
    requires d <= 4
    ensures forall x :: x in w.added ==> InBounds(rows, cols, x) && Adjacent(cell, x)
    decreases 4 - d
  {
    if d == 4 then Widened({}, j)
    else
      var n := (cell.0 + WidenDeltas[d].0, cell.1 + WidenDeltas[d].1);
      if InBounds(rows, cols, n) then
        var rest := WidenCell(cell, rows, cols, u, j + 1, d + 1);
        if u(j) < 0.25 then Widened(rest.added + {n}, rest.next) else rest
      else
        WidenCell(cell, rows, cols, u, j, d + 1)
  }

  /** The widening loop over the corridor cells in the given order. */
  function WidenAll(cells: seq<Coord>, rows: nat, cols: nat, u: nat -> real, j: nat): (w: Widened)
    ensures forall x :: x in w.added ==>
      InBounds(rows, cols, x) && exists k :: 0 <= k < |cells| && Adjacent(cells[k], x)
    decreases |cells|
  {
    if |cells| == 0 then Widened({}, j)
    else
      var first := WidenCell(cells[0], rows, cols, u, j, 0);
      var rest := WidenAll(cells[1..], rows, cols, u, first.next);
      assert forall x :: x in rest.added ==> exists k :: 0 <= k < |cells| && Adjacent(cells[k], x) by {
        forall x | x in rest.added
          ensures exists k :: 0 <= k < |cells| && Adjacent(cells[k], x)
        {
          var k :| 0 <= k < |cells[1..]| && Adjacent(cells[1..][k], x);
          assert cells[k + 1] == cells[1..][k];
        }
      }
      Widened(first.added + rest.added, rest.next)
  }

  /** Lines 56-63: the corridor together with the cells widening adds. */
  function Expand(path: seq<Coord>, rows: nat, cols: nat, u: nat -> real): (expanded: set<Coord>)
    ensures Elements(path) <= expanded
    ensures forall x :: x in expanded && x !in Elements(path) ==>
      InBounds(rows, cols, x) && exists k :: 0 <= k < |path| && Adjacent(path[k], x)
  {
    Elements(path) + WidenAll(path, rows, cols, u, 0).added
  }

  // ---------------------------------------------------------------------------
  // Phase 3: walls and bottlenecks

  /** Cells that may become walls: off the widened corridor, start and goal. */
  function WallCandidates(rows: nat, cols: nat, expanded: set<Coord>): seq<Coord>
  {
    Without(AllCells(rows, cols), expanded + {(0, 0), GoalOf(rows, cols)})
  }

  /** Lines 65-69: a sample of min(target, |candidates|) distinct candidates. */
  function PlaceWalls(rows: nat, cols: nat, expanded: set<Coord>, target: nat, pick: nat -> nat): (walls: set<Coord>)
    ensures walls !! expanded
    ensures (0, 0) !in walls && GoalOf(rows, cols) !in walls
    ensures forall x :: x in walls ==> InBounds(rows, cols, x)
    ensures |walls| == Min(target, |WallCandidates(rows, cols, expanded)|)
  {
    var candidates := WallCandidates(rows, cols, expanded);
    WithoutMembers(AllCells(rows, cols), expanded + {(0, 0), GoalOf(rows, cols)});
    WithoutKeepsOrder(AllCells(rows, cols), expanded + {(0, 0), GoalOf(rows, cols)});
    RowMajorDistinct(candidates);
    var chosen := Sample(candidates, Min(target, |candidates|), pick, 0);
    DistinctCard(chosen);
    Elements(chosen)
  }

  /** Cells that may become bottlenecks: off the walls, start and goal. */
  function FreeCells(rows: nat, cols: nat, walls: set<Coord>): seq<Coord>
  {
    Without(AllCells(rows, cols), walls + {(0, 0), GoalOf(rows, cols)})
  }

  /** Lines 79-87: severity from one uniform draw p; below 0.6 mild, below 0.9
      medium, otherwise severe. */
  function Level(p: real): (level: int)
    ensures 1 <= level <= 3
    ensures level == 1 <==> p < 0.6
    ensures level == 3 <==> p >= 0.9
  {
    if p < 0.6 then 1 else if p < 0.9 then 2 else 3
  }

  /** The dictionary filled cell by cell, the i-th chosen cell getting the
      level of the i-th severity draw. */
  function Assign(chosen: seq<Coord>, severity: nat -> real): (m: map<Coord, int>)
    ensures m.Keys == Elements(chosen)
    ensures forall x :: x in m ==> 1 <= m[x] <= 3
  {
    if |chosen| == 0 then map[]
    else
      var init := chosen[..|chosen| - 1];
      assert chosen == init + [chosen[|chosen| - 1]];
      Assign(init, severity)[chosen[|chosen| - 1] := Level(severity(|chosen| - 1))]
  }

  /** Lines 71-87: min(target, |free cells|) distinct free cells, each with a level. */
  function PlaceBottlenecks(rows: nat, cols: nat, walls: set<Coord>, target: nat,
                            pick: nat -> nat, severity: nat -> real): (bn: map<Coord, int>)
    ensures bn.Keys !! walls
    ensures (0, 0) !in bn && GoalOf(rows, cols) !in bn
    ensures forall x :: x in bn ==> InBounds(rows, cols, x) && 1 <= bn[x] <= 3
    ensures |bn.Keys| == Min(target, |FreeCells(rows, cols, walls)|)
  {
    var free := FreeCells(rows, cols, walls);
    WithoutMembers(AllCells(rows, cols), walls + {(0, 0), GoalOf(rows, cols)});
    WithoutKeepsOrder(AllCells(rows, cols), walls + {(0, 0), GoalOf(rows, cols)});
    RowMajorDistinct(free);
    var chosen := Sample(free, Min(target, |free|), pick, 0);
    DistinctCard(chosen);
    Assign(chosen, severity)
  }

  /** The generator's random draws, one stream per phase. */
  datatype MapDraws = MapDraws(
    move: nat -> nat,         // rng.choice of the corridor loop
    widen: nat -> real,       // rng.random() of the widening loop
    wallPick: nat -> nat,     // rng.sample of the walls
    bottleneckPick: nat -> nat, // rng.sample of the bottleneck cells
    severity: nat -> real)    // rng.random() per bottleneck cell

  /** random_map with int(rows*cols*ratio) given as the two targets. */
  function RandomMap(rows: nat, cols: nat, targetWalls: nat, targetBottlenecks: nat, draws: MapDraws): (g: GridMap)
    ensures g.rows == rows && g.cols == cols
    ensures (0, 0) !in g.walls && GoalOf(rows, cols) !in g.walls
    ensures g.bottlenecks.Keys !! g.walls
    ensures (0, 0) !in g.bottlenecks && GoalOf(rows, cols) !in g.bottlenecks
    ensures forall x :: x in g.bottlenecks ==> 1 <= g.bottlenecks[x] <= 3
    ensures g.walls !! Expand(Corridor(rows, cols, draws.move), rows, cols, draws.widen)
  {
    var path := Corridor(rows, cols, draws.move);
    var expanded := Expand(path, rows, cols, draws.widen);
    var walls := PlaceWalls(rows, cols, expanded, targetWalls, draws.wallPick);
    var bn := PlaceBottlenecks(rows, cols, walls, targetBottlenecks, draws.bottleneckPick, draws.severity);
    GridMap(rows, cols, walls, bn)
  }

  /** The docstring's promise: the carved corridor stays free of walls, so
      every generated map has a route from start to goal. */
  lemma RandomMapConnected(rows: nat, cols: nat, targetWalls: nat, targetBottlenecks: nat, draws: MapDraws)
    requires rows >= 1 && cols >= 1
    ensures ClearRoute(RandomMap(rows, cols, targetWalls, targetBottlenecks, draws), Corridor(rows, cols, draws.move))
  {
    var path := Corridor(rows, cols, draws.move);
    var g := RandomMap(rows, cols, targetWalls, targetBottlenecks, draws);
    OffWalls(path, Expand(path, rows, cols, draws.widen), g.walls);
  }

  lemma OffWalls(path: seq<Coord>, expanded: set<Coord>, walls: set<Coord>)
    requires Elements(path) <= expanded && walls !! expanded
    ensures forall k :: 0 <= k < |path| ==> path[k] !in walls
  {
    forall k | 0 <= k < |path|
      ensures path[k] !in walls
    {
      assert path[k] in Elements(path);
    }
  }

  /** `path` is a wall-free, in-bounds route of unit moves down or right from
      the start (0, 0) to the goal (rows-1, cols-1). */
  predicate ClearRoute(g: GridMap, path: seq<Coord>)
  {
    && |path| > 0
    && path[0] == (0, 0)
    && path[|path| - 1] == GoalOf(g.rows, g.cols)
    && Monotone(path)
    && forall k :: 0 <= k < |path| ==> InBounds(g.rows, g.cols, path[k]) && path[k] !in g.walls
  }
}
