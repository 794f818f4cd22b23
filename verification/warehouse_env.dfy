/** WarehouseEnv of warehouse/env.py: a graph world on a square reward matrix
    in which an action names the destination node. */
module Warehouse {
  import opened Base

  datatype WarehouseEnv = WarehouseEnv(
    r: seq<seq<real>>,
    nStates: int,
    nActions: int,
    startState: int,
    goalState: int,
    maxSteps: int,
    state: Option<int>,  // None until the first reset
    steps: int)

  /** The reward matrix is n x n with n = n_states = n_actions. */
  predicate Square(e: WarehouseEnv)
  {
    && e.nStates == |e.r| && e.nActions == |e.r|
    && forall i :: 0 <= i < |e.r| ==> |e.r[i]| == |e.r|
  }

  /** Lines 10-20: the constructor. The matrix is a two-dimensional array,
      so all its rows have one length; a matrix that is not square is refused. */
  function New(r: seq<seq<real>>, cols: nat, startState: int, goalState: int, maxSteps: int): (res: Result<WarehouseEnv>)
    requires forall i :: 0 <= i < |r| ==> |r[i]| == cols
    ensures res.Err? <==> |r| != cols
    ensures res.Err? ==> res.error == NotSquare
    ensures res.Ok? ==>
      && Square(res.value) && res.value.r == r
      && res.value.nStates == |r| && res.value.nActions == cols
      && res.value.startState == startState && res.value.goalState == goalState
      && res.value.maxSteps == maxSteps && res.value.state == None && res.value.steps == 0
  {
    if |r| != cols then Err(NotSquare)
    else Ok(WarehouseEnv(r, |r|, cols, startState, goalState, maxSteps, None, 0))
  }

  /** The columns a, a+1, .. of `row` holding a positive reward, ascending. */
  function PositiveFrom(row: seq<real>, a: nat): (cols: seq<int>)
    requires a <= |row|
    ensures forall i :: 0 <= i < |cols| ==> a <= cols[i] < |row|
    ensures forall i :: 0 <= i < |cols| - 1 ==> cols[i] < cols[i + 1]
    ensures forall b :: b in cols <==> a <= b < |row| && row[b] > 0.0
    decreases |row| - a
  {
    if a == |row| then []
    else (if row[a] > 0.0 then [a] else []) + PositiveFrom(row, a + 1)
  }

  /** Lines 30-32: the actions with a positive reward from s, ascending. */
  function ValidActions(e: WarehouseEnv, s: int): (valid: seq<int>)
    requires Square(e) && 0 <= s < e.nStates
    ensures forall i :: 0 <= i < |valid| ==> 0 <= valid[i] < e.nActions
    ensures forall i :: 0 <= i < |valid| - 1 ==> valid[i] < valid[i + 1]
    ensures forall a :: a in valid <==> 0 <= a < e.nActions && e.r[s][a] > 0.0
  {
    PositiveFrom(e.r[s], 0)
  }

  /** Lines 34-39: back to the start node with a zero step count. */
  function Reset(e: WarehouseEnv): (r: After<WarehouseEnv, int>)
    ensures r.env.state == Some(e.startState) && r.env.steps == 0
    ensures r.result == Ok(e.startState)
    ensures r.env.r == e.r && r.env.nStates == e.nStates && r.env.nActions == e.nActions
    ensures r.env.startState == e.startState && r.env.goalState == e.goalState && r.env.maxSteps == e.maxSteps
  {
    After(e.(state := Some(e.startState), steps := 0), Ok(e.startState))
  }

  /** The row a numpy index selects: negative indices count from the end. */
  function RowIndex(s: int, n: int): Option<int>
  {
    if 0 <= s < n then Some(s) else if -n <= s < 0 then Some(s + n) else None
  }

  /** Penalty for an action with no positive reward. */
  const InvalidPenalty: real := -10.0

  /** Lines 41-56: step. The action bound is asserted first; a reward of at
      most 0 costs the penalty and keeps the node, a positive one moves to
      the node the action names. Before any reset there is no row to read. */
  function Step(e: WarehouseEnv, action: int): (r: After<WarehouseEnv, StepOut>)
    requires Square(e)
    ensures !(0 <= action < e.nActions) ==> r == After(e, Err(InvalidAction))
    ensures 0 <= action < e.nActions && e.state.None? ==> r == After(e, Err(NotReset))
    ensures r.result.Ok? ==>
      && r.env == e.(state := Some(r.result.value.next), steps := e.steps + 1)
      && r.result.value.info == NoInfo
      && (r.result.value.done <==> r.result.value.next == e.goalState || e.steps + 1 >= e.maxSteps)
  {
    if !(0 <= action < e.nActions) then After(e, Err(InvalidAction))
    else if e.state.None? then After(e, Err(NotReset))
    else
      var s := e.state.value;
      var row := RowIndex(s, e.nStates);
      if row.None? then After(e, Err(StateOutOfRange))
      else
        var reward := e.r[row.value][action];
        var next := if reward <= 0.0 then s else action;
        var e' := e.(state := Some(next), steps := e.steps + 1);
        var done := next == e.goalState || e'.steps >= e.maxSteps;
        After(e', Ok(StepOut(next, if reward <= 0.0 then InvalidPenalty else reward, done, NoInfo)))
  }

  /** The agent stands on node s. */
  predicate At(e: WarehouseEnv, s: int)
  {
    0 <= s < e.nStates && e.state == Some(s)
  }

  /** Lines 30-32 against 43-51: the valid actions are exactly those for which
      step takes its moving branch, landing on the named node with reward
      R[s][a]; every other action costs the penalty and stays on s. */
  lemma ValidIffMoves(e: WarehouseEnv, s: int, a: int)
    requires Square(e) && At(e, s) && 0 <= a < e.nActions
    ensures Step(e, a).result.Ok?
    ensures a in ValidActions(e, s) <==> Step(e, a).result.value.reward > 0.0
    ensures a in ValidActions(e, s) ==>
      Step(e, a).result.value.next == a && Step(e, a).result.value.reward == e.r[s][a]
    ensures a !in ValidActions(e, s) ==>
      Step(e, a).result.value.next == s && Step(e, a).result.value.reward == InvalidPenalty
  {
  }

  /** A step from a node lands on a node. */
  lemma StepStaysAt(e: WarehouseEnv, s: int, a: int)
    requires Square(e) && At(e, s) && 0 <= a < e.nActions
    ensures Step(e, a).result.Ok?
    ensures At(Step(e, a).env, Step(e, a).result.value.next)
    ensures Square(Step(e, a).env)
  {
  }

  /** Resetting twice gives what resetting once gives. */
  lemma ResetIdempotent(e: WarehouseEnv)
    ensures Reset(Reset(e).env) == Reset(e)
  {
  }
}
