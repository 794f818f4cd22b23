/** GridWorldEnv of gridworld/env.py: the row-major numbering of the open
    cells, start/goal configuration, reset, the legal-move rule and the step
    rule with its bottleneck surcharge, goal bonus and step counter. */
module GridWorld {
  import opened Base
  import opened GridMaps

  /** DELTAS: 0 up, 1 right, 2 down, 3 left. */
  function Delta(a: int): Coord
    requires 0 <= a < 4
  {
    if a == 0 then (-1, 0) else if a == 1 then (0, 1) else if a == 2 then (1, 0) else (0, -1)
  }

  function Shift(c: Coord, a: int): Coord
    requires 0 <= a < 4
  {
    (c.0 + Delta(a).0, c.1 + Delta(a).1)
  }

  /** A cell the agent may stand on: inside the grid and not a wall. */
  predicate Open(g: GridMap, c: Coord)
  {
    InBounds(g.rows, g.cols, c) && c !in g.walls
  }

  datatype Rewards = Rewards(stepCost: real, goalReward: real, invalidMovePenalty: real, bottleneckBasePenalty: real)

  datatype GridWorldEnv = GridWorldEnv(
    grid: GridMap,
    start: Coord,
    goal: Coord,
    maxSteps: int,
    rewards: Rewards,
    position: Option<Coord>,  // None until the first reset
    steps: int,
    coordToState: map<Coord, int>,
    stateToCoord: seq<Coord>)

  /** The open cells in row-major order; state id i names the i-th. */
  function StateCells(g: GridMap): seq<Coord>
  {
    Without(AllCells(g.rows, g.cols), g.walls)
  }

  /** The two tables are inverse to each other. */
  predicate Inverse(c2s: map<Coord, int>, s2c: seq<Coord>)
  {
    && (forall i :: 0 <= i < |s2c| ==> s2c[i] in c2s && c2s[s2c[i]] == i)
    && (forall c :: c in c2s ==> 0 <= c2s[c] < |s2c| && s2c[c2s[c]] == c)
  }

  /** The tables the constructor builds: the row-major numbering of the open
      cells and its inverse. */
  predicate WellFormed(e: GridWorldEnv)
  {
    e.stateToCoord == StateCells(e.grid) && Inverse(e.coordToState, e.stateToCoord)
  }

  /** Every configuration field except the start and goal cells agrees. */
  predicate SameWorld(e: GridWorldEnv, f: GridWorldEnv)
  {
    && e.grid == f.grid && e.maxSteps == f.maxSteps && e.rewards == f.rewards
    && e.coordToState == f.coordToState && e.stateToCoord == f.stateToCoord
  }

  /** Lines 34-74: the constructor. The nested loop numbers the open cells row
      by row; a start or goal on a wall is refused. */
  method New(grid: GridMap, start: Coord, goal: Coord, maxSteps: int, rewards: Rewards)
    returns (r: Result<GridWorldEnv>)
    ensures r.Err? <==> start in grid.walls || goal in grid.walls
    ensures r.Err? ==> r.error == StartOrGoalOnWall
    ensures r.Ok? ==>
      && WellFormed(r.value)
      && r.value.grid == grid && r.value.start == start && r.value.goal == goal
      && r.value.maxSteps == maxSteps && r.value.rewards == rewards
      && r.value.position == None && r.value.steps == 0
  {
    var c2s: map<Coord, int> := map[];
    var s2c: seq<Coord> := [];
    var row := 0;
    while row < grid.rows
      invariant 0 <= row <= grid.rows
      invariant s2c == Without(Rows(row, grid.cols), grid.walls)
      invariant Inverse(c2s, s2c)
      invariant forall i :: 0 <= i < |s2c| ==> s2c[i].0 < row
    {
      c2s, s2c := NumberRow(grid, row, c2s, s2c);
      row := row + 1;
    }
    if start in grid.walls || goal in grid.walls {
      return Err(StartOrGoalOnWall);
    }
    r := Ok(GridWorldEnv(grid, start, goal, maxSteps, rewards, None, 0, c2s, s2c));
  }

  /** The inner loop of the constructor: numbers the open cells of one row. */
  method NumberRow(grid: GridMap, row: nat, c2s: map<Coord, int>, s2c: seq<Coord>)
    returns (c2s': map<Coord, int>, s2c': seq<Coord>)
    requires s2c == Without(Rows(row, grid.cols), grid.walls)
    requires Inverse(c2s, s2c)
    requires forall i :: 0 <= i < |s2c| ==> s2c[i].0 < row
    ensures s2c' == Without(Rows(row, grid.cols) + Row(row, grid.cols), grid.walls)
    ensures Inverse(c2s', s2c')
    ensures forall i :: 0 <= i < |s2c'| ==> s2c'[i].0 < row + 1
  {
    c2s', s2c' := c2s, s2c;
    var col := 0;
    assert Rows(row, grid.cols) + Row(row, 0) == Rows(row, grid.cols);
    while col < grid.cols
      invariant 0 <= col <= grid.cols
      invariant s2c' == Without(Rows(row, grid.cols) + Row(row, col), grid.walls)
      invariant Inverse(c2s', s2c')
      invariant forall i :: 0 <= i < |s2c'| ==> Before(s2c'[i], (row, col))
    {
      var visited := Rows(row, grid.cols) + Row(row, col);
      assert visited + [(row, col)] == Rows(row, grid.cols) + Row(row, col + 1);
      WithoutSnoc(visited, (row, col), grid.walls);
      if (row, col) !in grid.walls {
        NumberNext(c2s', s2c', (row, col));
        c2s' := c2s'[(row, col) := |s2c'|];
        s2c' := s2c' + [(row, col)];
      }
      col := col + 1;
    }
  }

  lemma WithoutSnoc(xs: seq<Coord>, x: Coord, excluded: set<Coord>)
    ensures Without(xs + [x], excluded)
         == if x in excluded then Without(xs, excluded) else Without(xs, excluded) + [x]
  {
    assert (xs + [x])[..|xs|] == xs;
  }

  /** Giving the next id to a cell after every numbered one keeps the tables inverse. */
  lemma NumberNext(c2s: map<Coord, int>, s2c: seq<Coord>, x: Coord)
    requires Inverse(c2s, s2c)
    requires forall i :: 0 <= i < |s2c| ==> Before(s2c[i], x)
    ensures Inverse(c2s[x := |s2c|], s2c + [x])
  {
  }

  /** The numbering covers exactly the open cells, one id per cell, ids
      0 .. n_states-1 in row-major order, and n_states counts the open cells. */
  lemma NumberingIsBijection(e: GridWorldEnv)
    requires WellFormed(e)
    ensures forall c :: c in e.coordToState <==> Open(e.grid, c)
    ensures forall i :: 0 <= i < |e.stateToCoord| ==> Open(e.grid, e.stateToCoord[i])
    ensures RowMajor(e.stateToCoord)
    ensures NStates(e) == |e.stateToCoord|
  {
    var s2c := e.stateToCoord;
    WithoutKeepsOrder(AllCells(e.grid.rows, e.grid.cols), e.grid.walls);
    WithoutMembers(AllCells(e.grid.rows, e.grid.cols), e.grid.walls);
    assert forall c :: c in s2c <==> Open(e.grid, c);
    forall c | c in e.coordToState
      ensures Open(e.grid, c)
    {
      assert s2c[e.coordToState[c]] == c;
    }
    forall c | Open(e.grid, c)
      ensures c in e.coordToState
    {
      var i :| 0 <= i < |s2c| && s2c[i] == c;
    }
    assert forall i :: 0 <= i < |s2c| ==> s2c[i] in s2c;
    assert e.coordToState.Keys == Elements(s2c);
    RowMajorDistinct(s2c);
    DistinctCard(s2c);
  }

  /** n_states: the number of numbered cells. */
  function NStates(e: GridWorldEnv): int
  {
    |e.coordToState|
  }

  /** Lines 84-88: a start or goal on a wall is refused and nothing changes;
      otherwise only start and goal change, the live episode is kept. */
  function SetStartGoal(e: GridWorldEnv, start: Coord, goal: Coord): (r: Result<GridWorldEnv>)
    ensures r.Err? <==> start in e.grid.walls || goal in e.grid.walls
    ensures r.Err? ==> r.error == StartOrGoalOnWall
    ensures r.Ok? ==>
      && r.value.start == start && r.value.goal == goal && SameWorld(r.value, e)
      && r.value.position == e.position && r.value.steps == e.steps
  {
    if start in e.grid.walls || goal in e.grid.walls then Err(StartOrGoalOnWall)
    else Ok(e.(start := start, goal := goal))
  }

  /** Lines 90-95: the agent is put on the start cell with a zero step count,
      and the start's state id is returned (a start that is no state raises
      only after the position was set). */
  function Reset(e: GridWorldEnv): (r: After<GridWorldEnv, int>)
    ensures r.env.position == Some(e.start) && r.env.steps == 0
    ensures SameWorld(r.env, e) && r.env.start == e.start && r.env.goal == e.goal
  {
    var e' := e.(position := Some(e.start), steps := 0);
    if e.start in e.coordToState then After(e', Ok(e.coordToState[e.start]))
    else After(e', Err(UnknownCoord))
  }

  /** In a well-formed environment reset succeeds exactly when the start is an
      open cell, and then returns the start's id and stands on it. */
  lemma ResetStart(e: GridWorldEnv)
    requires WellFormed(e)
    ensures Reset(e).result.Ok? <==> Open(e.grid, e.start)
    ensures Reset(e).result.Ok? ==> At(Reset(e).env, Reset(e).result.value)
  {
    NumberingIsBijection(e);
  }

  /** Resetting twice gives what resetting once gives. */
  lemma ResetIdempotent(e: GridWorldEnv)
    ensures Reset(Reset(e).env) == Reset(e)
  {
  }

  /** Actions a .. 3, in order, whose target cell from `c` is open. */
  function OpenMoves(g: GridMap, c: Coord, a: nat): (moves: seq<int>)
    requires a <= 4
    ensures forall i :: 0 <= i < |moves| ==> a <= moves[i] < 4
    ensures forall i :: 0 <= i < |moves| - 1 ==> moves[i] < moves[i + 1]
    ensures forall b :: b in moves <==> a <= b < 4 && Open(g, Shift(c, b))
    decreases 4 - a
  {
    if a == 4 then []
    else
      var rest := OpenMoves(g, c, a + 1);
      if Open(g, Shift(c, a)) then [a] + rest else rest
  }

  /** Lines 100-110: the actions whose target cell is in bounds and not a
      wall, in the order up, right, down, left. */
  function ValidActions(e: GridWorldEnv, s: int): (valid: seq<int>)
    requires 0 <= s < |e.stateToCoord|
    ensures forall i :: 0 <= i < |valid| ==> 0 <= valid[i] < 4
    ensures forall i :: 0 <= i < |valid| - 1 ==> valid[i] < valid[i + 1]
    ensures forall a :: a in valid <==> 0 <= a < 4 && Open(e.grid, Shift(e.stateToCoord[s], a))
  {
    OpenMoves(e.grid, e.stateToCoord[s], 0)
  }

  /** The cell, reward and bottleneck level one action yields. */
  datatype Move = Move(next: Coord, reward: real, level: int)

  /** Lines 117-136: a move off the grid or into a wall costs the invalid-move
      penalty and stays put at level 0; a legal move costs the step cost, plus
      base penalty times level on a bottleneck, plus the goal reward on the goal. */
  function Transition(e: GridWorldEnv, cur: Coord, a: int): Move
    requires 0 <= a < 4
  {
    var cand := Shift(cur, a);
    if !Open(e.grid, cand) then Move(cur, e.rewards.invalidMovePenalty, 0)
    else
      var level := if cand in e.grid.bottlenecks then e.grid.bottlenecks[cand] else 0;
      var reward := e.rewards.stepCost
        + (if level > 0 then e.rewards.bottleneckBasePenalty * level as real else 0.0)
        + (if cand == e.goal then e.rewards.goalReward else 0.0);
      Move(cand, reward, level)
  }

  /** The report of a completed step agrees with the environment after it. */
  predicate Reports(e: GridWorldEnv, out: StepOut)
  {
    && e.position.Some?
    && out.info.GridInfo?
    && out.info.coord == e.position.value
    && out.info.steps == e.steps
    && e.position.value in e.coordToState
    && out.next == e.coordToState[e.position.value]
    && (out.done <==> e.position.value == e.goal || e.steps >= e.maxSteps)
  }

  /** Lines 112-143: step. Before any reset it raises and changes nothing;
      otherwise the counter goes up by one first, an unknown action raises
      next, and the transition moves the agent. */
  function Step(e: GridWorldEnv, action: int): (r: After<GridWorldEnv, StepOut>)
    ensures e.position.None? ==> r == After(e, Err(NotReset))
    ensures e.position.Some? ==>
      r.env.steps == e.steps + 1 && SameWorld(r.env, e) && r.env.start == e.start && r.env.goal == e.goal
    ensures e.position.Some? && !(0 <= action < 4) ==>
      r.result == Err(InvalidAction) && r.env.position == e.position
    ensures r.result.Ok? ==> Reports(r.env, r.result.value)
  {
    if e.position.None? then After(e, Err(NotReset))
    else
      var counted := e.(steps := e.steps + 1);
      if !(0 <= action < 4) then After(counted, Err(InvalidAction))
      else
        var m := Transition(e, e.position.value, action);
        var moved := counted.(position := Some(m.next));
        var done := m.next == e.goal || moved.steps >= e.maxSteps;
        if m.next !in e.coordToState then After(moved, Err(UnknownCoord))
        else After(moved, Ok(StepOut(e.coordToState[m.next], m.reward, done, GridInfo(m.next, moved.steps, m.level))))
  }

  /** The agent stands on numbered cell s. */
  predicate At(e: GridWorldEnv, s: int)
  {
    0 <= s < |e.stateToCoord| && e.position == Some(e.stateToCoord[s])
  }

  /** Lines 122-125: a move off the grid or into a wall yields the invalid-move
      penalty, keeps the position and reports level 0. */
  lemma InvalidMoveStays(e: GridWorldEnv, s: int, a: int)
    requires WellFormed(e) && At(e, s) && 0 <= a < 4
    requires !Open(e.grid, Shift(e.stateToCoord[s], a))
    ensures Step(e, a).result.Ok?
    ensures Step(e, a).env.position == e.position
    ensures Step(e, a).result.value.reward == e.rewards.invalidMovePenalty
    ensures Step(e, a).result.value.next == s
    ensures Step(e, a).result.value.info.level == 0
  {
  }

  /** Lines 126-136: a legal move lands on the neighbour and pays the step
      cost, the level-scaled bottleneck penalty and the goal reward. */
  lemma LegalMoveReward(e: GridWorldEnv, s: int, a: int)
    requires WellFormed(e) && At(e, s) && 0 <= a < 4
    requires Open(e.grid, Shift(e.stateToCoord[s], a))
    ensures Step(e, a).result.Ok?
    ensures Step(e, a).env.position == Some(Shift(e.stateToCoord[s], a))
    ensures var n := Shift(e.stateToCoord[s], a);
      var level := if n in e.grid.bottlenecks then e.grid.bottlenecks[n] else 0;
      && Step(e, a).result.value.info.level == level
      && Step(e, a).result.value.reward
         == e.rewards.stepCost
            + (if level > 0 then e.rewards.bottleneckBasePenalty * level as real else 0.0)
            + (if n == e.goal then e.rewards.goalReward else 0.0)
  {
    var n := Shift(e.stateToCoord[s], a);
    OpenIsNumbered(e, n);
    var m := Transition(e, e.stateToCoord[s], a);
    assert m.next == n;
  }

  /** Every open cell has a state id. */
  lemma OpenIsNumbered(e: GridWorldEnv, c: Coord)
    requires WellFormed(e) && Open(e.grid, c)
    ensures c in e.coordToState
  {
    NumberingIsBijection(e);
  }

  /** valid_actions lists exactly the actions for which step takes its
      moving branch: the agent ends on the neighbour cell. */
  lemma ValidIffMoves(e: GridWorldEnv, s: int, a: int)
    requires WellFormed(e) && At(e, s) && 0 <= a < 4
    ensures a in ValidActions(e, s) <==> Step(e, a).env.position == Some(Shift(e.stateToCoord[s], a))
  {
    assert Shift(e.stateToCoord[s], a) != e.stateToCoord[s];
  }

  /** A completed step leaves the agent on a numbered cell. */
  lemma StepStaysNumbered(e: GridWorldEnv, s: int, a: int)
    requires WellFormed(e) && At(e, s) && 0 <= a < 4
    ensures Step(e, a).result.Ok?
    ensures At(Step(e, a).env, Step(e, a).result.value.next)
  {
    NumberingIsBijection(e);
  }
}
