/** The interface both environments offer the drivers (reset, step,
    valid_actions, the state and action counts). The Python drivers rely on
    duck typing; here the two environments are the two cases of one type. */
module Environment {
  import opened Base
  import opened GridMaps
  import Warehouse
  import GridWorld

  datatype Env = Fixed(w: Warehouse.WarehouseEnv) | Grid(g: GridWorld.GridWorldEnv)

  /** observation_space_n */
  function NStates(env: Env): nat
  {
    match env
    case Fixed(w) => |w.r|
    case Grid(g) => |g.coordToState|
  }

  /** action_space_n */
  function NActions(env: Env): nat
  {
    match env
    case Fixed(w) => |w.r|
    case Grid(_) => 4
  }

  /** What the constructor establishes, and a start that is a state, so that
      reset cannot fail. */
  predicate Valid(env: Env)
  {
    match env
    case Fixed(w) => Warehouse.Square(w) && 0 <= w.startState < w.nStates
    case Grid(g) => GridWorld.WellFormed(g) && GridWorld.Open(g.grid, g.start)
  }

  /** The agent stands on state s. */
  predicate At(env: Env, s: int)
  {
    match env
    case Fixed(w) => Warehouse.At(w, s)
    case Grid(g) => GridWorld.At(g, s)
  }

  function Steps(env: Env): int
  {
    match env
    case Fixed(w) => w.steps
    case Grid(g) => g.steps
  }

  function MaxSteps(env: Env): int
  {
    match env
    case Fixed(w) => w.maxSteps
    case Grid(g) => g.maxSteps
  }

  /** The agent stands on the goal. */
  predicate AtGoal(env: Env)
  {
    match env
    case Fixed(w) => w.state == Some(w.goalState)
    case Grid(g) => g.position == Some(g.goal)
  }

  /** The goal cell of a grid world; the warehouse reports no cells. */
  function GoalCell(env: Env): Option<Coord>
  {
    match env
    case Fixed(_) => None
    case Grid(g) => Some(g.goal)
  }

  /** The step report names the cell the agent now stands on (GridWorld) or
      carries nothing (Warehouse). */
  predicate Where(env: Env, info: Info)
  {
    match env
    case Fixed(_) => info == NoInfo
    case Grid(g) => info.GridInfo? && g.position == Some(info.coord)
  }

  /** A grid step leaves the agent on its cell or on a neighbouring one. */
  predicate Moves(env: Env, after: Env)
  {
    match env
    case Fixed(_) => after.Fixed?
    case Grid(g) =>
      && after.Grid? && g.position.Some? && after.g.position.Some?
      && (after.g.position == g.position || Adjacent(g.position.value, after.g.position.value))
  }

  /** A grid step reports a positive level only after moving onto a
      bottleneck cell, and then that cell's level. */
  predicate Leveled(env: Env, after: Env, info: Info)
  {
    match env
    case Fixed(_) => true
    case Grid(g) =>
      && info.GridInfo? && after.Grid?
      && (info.level > 0 ==>
            && after.g.position != g.position
            && info.coord in g.grid.bottlenecks && info.level == g.grid.bottlenecks[info.coord])
  }

  /** Everything but the agent's position and the step counter agrees. */
  predicate SameConfig(env: Env, other: Env)
  {
    match env
    case Fixed(w) =>
      && other.Fixed?
      && other.w == w.(state := other.w.state, steps := other.w.steps)
    case Grid(g) =>
      && other.Grid?
      && other.g == g.(position := other.g.position, steps := other.g.steps)
  }

  lemma GridStates(g: GridWorld.GridWorldEnv)
    requires GridWorld.WellFormed(g)
    ensures |g.coordToState| == |g.stateToCoord|
  {
    GridWorld.NumberingIsBijection(g);
  }

  function ValidActions(env: Env, s: int): (valid: seq<int>)
    requires Valid(env) && 0 <= s < NStates(env)
    ensures forall i :: 0 <= i < |valid| ==> 0 <= valid[i] < NActions(env)
  {
    match env
    case Fixed(w) => Warehouse.ValidActions(w, s)
    case Grid(g) => GridStates(g); GridWorld.ValidActions(g, s)
  }

  function Reset(env: Env): After<Env, int>
  {
    match env
    case Fixed(w) =>
      var r := Warehouse.Reset(w);
      After(Fixed(r.env), r.result)
    case Grid(g) =>
      var r := GridWorld.Reset(g);
      After(Grid(r.env), r.result)
  }

  function Step(env: Env, a: int): After<Env, StepOut>
    requires env.Fixed? ==> Warehouse.Square(env.w)
  {
    match env
    case Fixed(w) =>
      var r := Warehouse.Step(w, a);
      After(Fixed(r.env), r.result)
    case Grid(g) =>
      var r := GridWorld.Step(g, a);
      After(Grid(r.env), r.result)
  }

  /** Resetting a valid environment succeeds, stands on the start state with
      a zero step count and keeps the configuration. */
  lemma ResetReady(env: Env)
    requires Valid(env)
    ensures Reset(env).result.Ok?
    ensures SameConfig(env, Reset(env).env) && Valid(Reset(env).env)
    ensures At(Reset(env).env, Reset(env).result.value)
    ensures Steps(Reset(env).env) == 0
  {
    match env
    case Fixed(w) =>
    case Grid(g) =>
      GridWorld.ResetStart(g);
  }

  /** A step from a state with an action in range succeeds, lands on the state
      it reports, counts one step, keeps the configuration, and is done exactly
      on the goal or at the step cap. */
  lemma StepReady(env: Env, s: int, a: int)
    requires Valid(env) && At(env, s) && 0 <= a < NActions(env)
    ensures Step(env, a).result.Ok?
    ensures SameConfig(env, Step(env, a).env) && Valid(Step(env, a).env)
    ensures At(Step(env, a).env, Step(env, a).result.value.next)
    ensures Steps(Step(env, a).env) == Steps(env) + 1
    ensures Step(env, a).result.value.done
        <==> AtGoal(Step(env, a).env) || Steps(Step(env, a).env) >= MaxSteps(env)
    ensures Where(Step(env, a).env, Step(env, a).result.value.info)
    ensures Moves(env, Step(env, a).env)
    ensures Leveled(env, Step(env, a).env, Step(env, a).result.value.info)
  {
    match env
    case Fixed(w) =>
      Warehouse.StepStaysAt(w, s, a);
    case Grid(g) =>
      GridWorld.StepStaysNumbered(g, s, a);
  }

  /** The counts, the cap and the goal belong to the configuration. */
  lemma SameCounts(env: Env, other: Env)
    requires SameConfig(env, other)
    ensures NStates(other) == NStates(env) && NActions(other) == NActions(env)
    ensures MaxSteps(other) == MaxSteps(env) && GoalCell(other) == GoalCell(env)
    ensures Valid(env) ==> Valid(other)
  {
  }

  /** valid_actions reads only the configuration. */
  lemma ValidActionsConfig(env: Env, other: Env, s: int)
    requires Valid(env) && SameConfig(env, other) && 0 <= s < NStates(env)
    ensures Valid(other) && NStates(other) == NStates(env) && NActions(other) == NActions(env)
    ensures ValidActions(other, s) == ValidActions(env, s)
  {
  }
}
