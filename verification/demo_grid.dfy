/** greedy_rollout of demo_grid.py: the greedy path through a grid world and
    its return, with the environment and the trained agent as parameters. */
module DemoGrid {
  import opened Base
  import opened GridMaps
  import opened QLearning
  import opened Environment
  import opened Episodes
  import opened Rollouts
  import opened Metrics
  import GridWorld

  /** path_coords and total_r */
  datatype Walk = Walk(path: seq<Coord>, total: real)

  /** info["coord"] of each step, in order. */
  function Coords(trace: seq<Transition>): (cs: seq<Coord>)
    requires forall j :: 0 <= j < |trace| ==> trace[j].info.GridInfo?
    ensures |cs| == |trace|
    ensures forall j :: 0 <= j < |trace| ==> cs[j] == trace[j].info.coord
  {
    seq(|trace|, j requires 0 <= j < |trace| => trace[j].info.coord)
  }

  /** The cells a greedy rollout of a grid world walks through: the start cell,
      then the cell each step reports. */
  function PathOf(e: GridWorld.GridWorldEnv, ag: Agent, budget: nat, ro: Rollout): (path: seq<Coord>)
    requires Valid(Grid(e)) && Fits(ag, Grid(e))
    requires Rolled(Grid(e), ag, StartState(Grid(e)), 0, budget, ro)
    ensures |path| == |ro.trace| + 1
  {
    StartCell(e);
    RolledCells(e, ag, budget, ro);
    [e.stateToCoord[StartState(Grid(e))]] + Coords(ro.trace)
  }

  /** Every step of a grid rollout reports the cell it reached. */
  lemma RolledCells(e: GridWorld.GridWorldEnv, ag: Agent, budget: nat, ro: Rollout)
    requires Valid(Grid(e)) && Fits(ag, Grid(e))
    requires Rolled(Grid(e), ag, StartState(Grid(e)), 0, budget, ro)
    ensures forall j :: 0 <= j < |ro.trace| ==> ro.trace[j].info.GridInfo?
  {
    forall j | 0 <= j < |ro.trace|
      ensures ro.trace[j].info.GridInfo?
    {
      assert Taken(Grid(e), ag, ro.trace[j]);
    }
  }

  /** reset() returns the id of the start cell. */
  lemma StartCell(e: GridWorld.GridWorldEnv)
    requires Valid(Grid(e))
    ensures 0 <= StartState(Grid(e)) < |e.stateToCoord|
    ensures e.stateToCoord[StartState(Grid(e))] == e.start
  {
    ResetReady(Grid(e));
  }

  /** Lines 7-21: reset, record the start cell, then up to max_steps greedy
      steps, recording each reported cell and adding up the rewards. */
  function GreedyRollout(e: GridWorld.GridWorldEnv, ag: Agent, maxSteps: nat): (r: Result<Walk>)
    requires Valid(Grid(e)) && Fits(ag, Grid(e))
    ensures r.Err? ==> r.error == EmptyValidActions
    ensures NoDeadEnd(Grid(e)) ==> r.Ok?
    ensures r.Ok? ==> WalkOf(e, r.value.path, maxSteps)
  {
    var run := GreedyFromReset(Grid(e), ag, maxSteps);
    if run.Err? then Err(run.error)
    else
      var trace := run.value.trace;
      PathWalks(e, ag, maxSteps, run.value);
      Ok(Walk(PathOf(e, ag, maxSteps, run.value), Return(trace)))
  }

  /** A path of a grid walk: it starts on the start cell, has at most
      max_steps + 1 cells, all open, each the previous one or a neighbour. */
  predicate WalkOf(e: GridWorld.GridWorldEnv, path: seq<Coord>, maxSteps: nat)
  {
    && 1 <= |path| <= maxSteps + 1
    && path[0] == e.start
    && (forall j :: 0 <= j < |path| ==> GridWorld.Open(e.grid, path[j]))
    && (forall j :: 0 <= j < |path| - 1 ==> path[j + 1] == path[j] || Adjacent(path[j], path[j + 1]))
  }

  /** What a grid step reports about the cells of its states, with `cells`
      the state numbering. */
  predicate Drawn(cells: seq<Coord>, t: Transition)
  {
    && 0 <= t.s < |cells| && 0 <= t.next < |cells|
    && t.info.GridInfo? && t.info.coord == cells[t.next]
    && (t.info.coord == cells[t.s] || Adjacent(cells[t.s], t.info.coord))
  }

  /** A chained trace of drawn steps from s walks through numbered cells, each
      the previous one or a neighbour. */
  lemma CellsWalk(cells: seq<Coord>, s: int, trace: seq<Transition>)
    requires 0 <= s < |cells| && Chained(trace, s)
    requires forall j :: 0 <= j < |trace| ==> Drawn(cells, trace[j])
    ensures forall j :: 0 <= j < |trace| ==> trace[j].info.GridInfo?
    ensures var path := [cells[s]] + Coords(trace);
      && (forall j :: 0 <= j < |path| ==> path[j] in cells)
      && (forall j :: 0 <= j < |path| - 1 ==> path[j + 1] == path[j] || Adjacent(path[j], path[j + 1]))
  {
    var path := [cells[s]] + Coords(trace);
    forall j | 0 <= j < |trace|
      ensures path[j] == cells[trace[j].s]
    {
      if j > 0 {
        assert Drawn(cells, trace[j - 1]);
      }
    }
    forall j | 0 <= j < |path|
      ensures path[j] in cells
    {
      if j > 0 {
        assert Drawn(cells, trace[j - 1]);
      }
    }
    forall j | 0 <= j < |path| - 1
      ensures path[j + 1] == path[j] || Adjacent(path[j], path[j + 1])
    {
      assert Drawn(cells, trace[j]);
    }
  }

  /** The cells of a rolled trace form a walk. */
  lemma PathWalks(e: GridWorld.GridWorldEnv, ag: Agent, budget: nat, ro: Rollout)
    requires Valid(Grid(e)) && Fits(ag, Grid(e))
    requires Rolled(Grid(e), ag, StartState(Grid(e)), 0, budget, ro)
    ensures WalkOf(e, PathOf(e, ag, budget, ro), budget)
  {
    var cells := e.stateToCoord;
    var trace := ro.trace;
    StartCell(e);
    GridWorld.NumberingIsBijection(e);
    forall j | 0 <= j < |trace|
      ensures Drawn(cells, trace[j])
    {
      assert Taken(Grid(e), ag, trace[j]);
    }
    CellsWalk(cells, StartState(Grid(e)), trace);
  }

  /** Lines 12-19: one cell per step after the start cell, the return is the
      sum of the step rewards, and a path shorter than max_steps + 1 ends on
      a done step (the goal or the environment's cap). */
  lemma RolloutTotals(e: GridWorld.GridWorldEnv, ag: Agent, maxSteps: nat)
    requires Valid(Grid(e)) && Fits(ag, Grid(e))
    ensures var r := GreedyRollout(e, ag, maxSteps);
      var run := GreedyFromReset(Grid(e), ag, maxSteps);
      r.Ok? <==> run.Ok?
    ensures var r := GreedyRollout(e, ag, maxSteps);
      var run := GreedyFromReset(Grid(e), ag, maxSteps);
      r.Ok? ==>
        && |r.value.path| == |run.value.trace| + 1
        && r.value.total == Sum(Rewards(run.value.trace))
        && (|r.value.path| < maxSteps + 1 ==> Last(run.value.trace).done)
  {
    var run := GreedyFromReset(Grid(e), ag, maxSteps);
    if run.Ok? {
      ReturnIsSum(run.value.trace, []);
    }
  }
}
