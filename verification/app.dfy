/** The non-drawing helpers of visualization/app.py: reading a coordinate from
    a text box, the value heatmap, the training run behind "Train + Show" and
    the inspected greedy rollout with its bottleneck counters. */
module App {
  import opened Base
  import opened GridMaps
  import opened Text
  import opened QLearning
  import opened Environment
  import opened Episodes
  import opened Rollouts
  import opened Metrics
  import GridWorld
  import DemoGrid
  import GridTraining

  // ---------- parse_coord ----------

  /** Lines 13-19: strip, split on ",", two parts or BadFormat, then int() of
      each stripped part. */
  function ParseCoord(text: string): (r: Result<Coord>)
    ensures r.Err? ==> r.error == BadFormat || r.error == NotAnInteger
    ensures r.Err? && r.error == BadFormat <==> Count(text, ',') != 1
    ensures r.Ok? <==> var parts := Split(Strip(text), ',');
      |parts| == 2 && ParseInt(Strip(parts[0])).Ok? && ParseInt(Strip(parts[1])).Ok?
    ensures r.Ok? ==> var parts := Split(Strip(text), ',');
      |parts| == 2 && r.value == (ParseInt(Strip(parts[0])).value, ParseInt(Strip(parts[1])).value)
  {
    StripKeeps(text, ',');
    var parts := Split(Strip(text), ',');
    if |parts| != 2 then Err(BadFormat)
    else
      var row := ParseInt(Strip(parts[0]));
      var col := ParseInt(Strip(parts[1]));
      if row.Err? then Err(row.error)
      else if col.Err? then Err(col.error)
      else Ok((row.value, col.value))
  }

  /** f"{r},{c}", the text lines 307 and 310 put into the boxes. */
  function FormatCoord(c: Coord): string
  {
    FormatInt(c.0) + "," + FormatInt(c.1)
  }

  /** Reading back what a click wrote into a text box gives the clicked cell. */
  lemma ParseFormatted(c: Coord)
    ensures ParseCoord(FormatCoord(c)) == Ok(c)
  {
    var a := FormatInt(c.0);
    var b := FormatInt(c.1);
    SplitFormatted(c);
    StripClean(a);
    StripClean(b);
    ParseFormat(c.0);
    ParseFormat(c.1);
  }

  /** The text of a cell splits at its one comma into the two numbers. */
  lemma SplitFormatted(c: Coord)
    ensures Split(Strip(FormatCoord(c)), ',') == [FormatInt(c.0), FormatInt(c.1)]
  {
    var a := FormatInt(c.0);
    var b := FormatInt(c.1);
    var text := FormatCoord(c);
    assert text == a + [','] + b;
    StripClean(text);
    NoComma(c.0);
    NoComma(c.1);
    SplitBefore(a, b, ',');
    SplitPiece(b, ',');
  }

  /** str(n) holds no comma. */
  lemma NoComma(n: int)
    ensures ',' !in FormatInt(n)
  {
    var t := FormatInt(n);
    assert forall k :: 0 <= k < |t| ==> t[k] != ',';
  }

  // ---------- compute_value_grid ----------

  /** The heatmap entry of one cell: NaN (None) for a cell that is no state or
      has no valid action, else the largest Q value over its valid actions. */
  function CellValue(e: GridWorld.GridWorldEnv, ag: Agent, c: Coord): (v: Option<real>)
    requires Valid(Grid(e)) && Fits(ag, Grid(e))
    ensures v.Some? <==> GridWorld.Open(e.grid, c) && (exists a :: 0 <= a < 4 && GridWorld.Open(e.grid, GridWorld.Shift(c, a)))
    ensures v.Some? ==> c in e.coordToState && 0 <= e.coordToState[c] < |ag.q|
    ensures v.Some? ==> forall a :: 0 <= a < 4 && GridWorld.Open(e.grid, GridWorld.Shift(c, a)) ==>
      ag.q[e.coordToState[c]][a] <= v.value
    ensures v.Some? ==>
      exists a :: 0 <= a < 4 && GridWorld.Open(e.grid, GridWorld.Shift(c, a)) && ag.q[e.coordToState[c]][a] == v.value
  {
    GridWorld.NumberingIsBijection(e);
    if c !in e.coordToState then None
    else
      var sid := e.coordToState[c];
      var valid := ValidActions(Grid(e), sid);
      ValidAt(e, c);
      if |valid| == 0 then None
      else
        BestOfValid(ag, sid, valid);
        Some(Max(Gather(ag, sid, valid)))
  }

  /** The valid actions of a cell's state are the moves onto open cells. */
  lemma ValidAt(e: GridWorld.GridWorldEnv, c: Coord)
    requires Valid(Grid(e)) && c in e.coordToState
    ensures 0 <= e.coordToState[c] < NStates(Grid(e))
    ensures forall a :: a in ValidActions(Grid(e), e.coordToState[c]) <==>
      0 <= a < 4 && GridWorld.Open(e.grid, GridWorld.Shift(c, a))
    ensures |ValidActions(Grid(e), e.coordToState[c])| == 0 <==>
      forall a :: 0 <= a < 4 ==> !GridWorld.Open(e.grid, GridWorld.Shift(c, a))
  {
    GridStates(e);
    var valid := ValidActions(Grid(e), e.coordToState[c]);
    if |valid| > 0 {
      assert valid[0] in valid;
    }
  }

  /** np.max(Q[sid, valid]) bounds every listed column and is one of them. */
  lemma BestOfValid(ag: Agent, sid: int, valid: seq<int>)
    requires Columns(ag, sid, valid) && |valid| > 0
    ensures forall a :: a in valid ==> ag.q[sid][a] <= Max(Gather(ag, sid, valid))
    ensures exists a :: a in valid && ag.q[sid][a] == Max(Gather(ag, sid, valid))
  {
    var vals := Gather(ag, sid, valid);
    forall a | a in valid
      ensures ag.q[sid][a] <= Max(vals)
    {
      var k :| 0 <= k < |valid| && valid[k] == a;
      assert vals[k] == ag.q[sid][a];
    }
    var k := ArgMax(vals);
    assert valid[k] in valid && ag.q[sid][valid[k]] == Max(vals);
  }

  /** Lines 56-66: one entry per cell of the rows x cols grid. */
  function ComputeValueGrid(e: GridWorld.GridWorldEnv, ag: Agent): (v: seq<seq<Option<real>>>)
    requires Valid(Grid(e)) && Fits(ag, Grid(e))
    ensures |v| == e.grid.rows
    ensures forall r :: 0 <= r < |v| ==> |v[r]| == e.grid.cols
    ensures forall r, c :: 0 <= r < |v| && 0 <= c < |v[r]| ==> v[r][c] == CellValue(e, ag, (r, c))
  {
    seq(e.grid.rows, r => seq(e.grid.cols, c => CellValue(e, ag, (r, c))))
  }

  /** The heatmap and the policy arrows agree: a cell's value is the Q value
      of the action predict_action draws an arrow for. */
  lemma ValueOfArrow(e: GridWorld.GridWorldEnv, ag: Agent, c: Coord)
    requires Valid(Grid(e)) && Fits(ag, Grid(e))
    requires CellValue(e, ag, c).Some?
    ensures var sid := e.coordToState[c];
      var arrow := PredictAction(ag, sid, ValidActions(Grid(e), sid));
      arrow.Ok? && CellValue(e, ag, c).value == ag.q[sid][arrow.value]
  {
    GridStates(e);
    var sid := e.coordToState[c];
    var valid := ValidActions(Grid(e), sid);
    var vals := Gather(ag, sid, valid);
    assert vals[ArgMax(vals)] == Max(vals);
  }

  // ---------- train_env ----------

  /** What train_env returns. */
  datatype Trained = Trained(agent: Agent, episodeReturns: seq<real>, stepsToGoal: seq<nat>)

  /** The parameters of lines 118-126. */
  const AppParams: Params := Params(0.9, 0.75, 1.0, 0.05, 0.995)

  /** Lines 116-147, with the seeded NumPy generator as the draw stream: the
      episode loop of train_grid.py with the parameters of lines 118-126. */
  function TrainEnv(e: GridWorld.GridWorldEnv, numEpisodes: nat, maxSteps: nat, draws: nat -> Draw): (t: Trained)
    requires Valid(Grid(e))
    ensures |t.episodeReturns| == numEpisodes && |t.stepsToGoal| <= numEpisodes
    ensures forall j :: 0 <= j < |t.stepsToGoal| ==> 1 <= t.stepsToGoal[j] <= maxSteps
    ensures 0 < maxSteps && e.maxSteps <= maxSteps ==> |t.stepsToGoal| == numEpisodes
    ensures Fits(t.agent, Grid(e))
  {
    var tr := GridTraining.Session(e, numEpisodes, maxSteps, AppParams, draws);
    StepsToGoalBounds(SetupOf(Grid(e)), maxSteps, tr.episodes);
    Trained(tr.agent, Returns(tr.episodes), StepsToGoal(tr.episodes))
  }

  /** Line 144 once per episode: the exploration rate after n episodes is
      max(0.05, 0.995^n), and the learning rate and discount stay those of
      lines 121-122. */
  lemma TrainEnvEpsilon(e: GridWorld.GridWorldEnv, numEpisodes: nat, maxSteps: nat, draws: nat -> Draw)
    requires Valid(Grid(e))
    ensures var ag := TrainEnv(e, numEpisodes, maxSteps, draws).agent;
      ag.epsilon == Larger(0.05, Pow(0.995, numEpisodes)) && ag.alpha == 0.9 && ag.gamma == 0.75
  {
    IteratePow(1.0, 0.05, 0.995, numEpisodes);
  }

  // ---------- greedy_rollout ----------

  /** bottleneck_level of a step; 0 when the step reports none. */
  function Level(t: Transition): int
  {
    if t.info.GridInfo? then t.info.level else 0
  }

  /** Lines 166-168: the steps with a positive level. */
  function LevelHits(trace: seq<Transition>): nat
  {
    if |trace| == 0 then 0
    else LevelHits(trace[..|trace| - 1]) + (if Level(trace[|trace| - 1]) > 0 then 1 else 0)
  }

  /** Lines 166-169: the sum of the positive levels. */
  function LevelSum(trace: seq<Transition>): int
  {
    if |trace| == 0 then 0
    else LevelSum(trace[..|trace| - 1]) + (if Level(trace[|trace| - 1]) > 0 then Level(trace[|trace| - 1]) else 0)
  }

  /** Every counted level is at least 1, so the hits never exceed the level
      sum; and when every step with a level reports a bottleneck cell, each
      hit is also a step metrics count as a bottleneck step. */
  lemma {:induction false} LevelCounts(bottlenecks: map<Coord, int>, trace: seq<Transition>)
    requires forall j :: 0 <= j < |trace| && Level(trace[j]) > 0 ==> OnBottleneck(bottlenecks, trace[j])
    ensures LevelHits(trace) <= LevelSum(trace)
    ensures LevelHits(trace) <= BottleneckHits(bottlenecks, trace) <= |trace|
  {
    BottleneckHitsCount(bottlenecks, trace);
    if |trace| > 0 {
      var init := trace[..|trace| - 1];
      assert forall j :: 0 <= j < |init| ==> init[j] == trace[j];
      LevelCounts(bottlenecks, init);
    }
  }

  /** What greedy_rollout returns. */
  datatype Inspection = Inspection(path: seq<Coord>, total: real, hits: nat, levelSum: int)

  /** Lines 149-174: demo_grid's rollout plus the bottleneck counters. */
  function GreedyRollout(e: GridWorld.GridWorldEnv, ag: Agent, maxSteps: nat): (r: Result<Inspection>)
    requires Valid(Grid(e)) && Fits(ag, Grid(e))
    ensures r.Err? ==> r.error == EmptyValidActions
    ensures NoDeadEnd(Grid(e)) ==> r.Ok?
    ensures r.Ok? ==> Inspected(e, maxSteps, r.value)
  {
    var run := GreedyFromReset(Grid(e), ag, maxSteps);
    if run.Err? then Err(run.error)
    else
      InspectRun(e, ag, maxSteps, run.value);
      Ok(Inspect(e, ag, maxSteps, run.value))
  }

  /** The greedy path is a walk of at most max_steps moves, and the hits
      count no more than the moves and no more than the level sum. */
  predicate Inspected(e: GridWorld.GridWorldEnv, maxSteps: nat, i: Inspection)
  {
    && DemoGrid.WalkOf(e, i.path, maxSteps)
    && i.hits <= |i.path| - 1
    && i.hits <= i.levelSum
  }

  /** The four results of a rolled trace. */
  function Inspect(e: GridWorld.GridWorldEnv, ag: Agent, budget: nat, ro: Rollout): Inspection
    requires Valid(Grid(e)) && Fits(ag, Grid(e))
    requires Rolled(Grid(e), ag, StartState(Grid(e)), 0, budget, ro)
  {
    Inspection(DemoGrid.PathOf(e, ag, budget, ro), Return(ro.trace), LevelHits(ro.trace), LevelSum(ro.trace))
  }

  lemma InspectRun(e: GridWorld.GridWorldEnv, ag: Agent, budget: nat, ro: Rollout)
    requires Valid(Grid(e)) && Fits(ag, Grid(e))
    requires Rolled(Grid(e), ag, StartState(Grid(e)), 0, budget, ro)
    ensures Inspected(e, budget, Inspect(e, ag, budget, ro))
  {
    DemoGrid.PathWalks(e, ag, budget, ro);
    RolledLevels(e, ag, budget, ro);
    var i := Inspect(e, ag, budget, ro);
    assert |i.path| - 1 == |ro.trace| && i.hits == LevelHits(ro.trace);
  }

  /** In a rolled trace only moves onto a bottleneck report a level. */
  lemma RolledLevels(e: GridWorld.GridWorldEnv, ag: Agent, budget: nat, ro: Rollout)
    requires Valid(Grid(e)) && Fits(ag, Grid(e))
    requires Rolled(Grid(e), ag, StartState(Grid(e)), 0, budget, ro)
    ensures forall j :: 0 <= j < |ro.trace| && Level(ro.trace[j]) > 0 ==>
      && OnBottleneck(e.grid.bottlenecks, ro.trace[j])
      && ro.trace[j].info.coord != e.stateToCoord[ro.trace[j].s]
      && Level(ro.trace[j]) == e.grid.bottlenecks[ro.trace[j].info.coord]
    ensures LevelHits(ro.trace) <= LevelSum(ro.trace)
    ensures LevelHits(ro.trace) <= BottleneckHits(e.grid.bottlenecks, ro.trace) <= |ro.trace|
  {
    forall j | 0 <= j < |ro.trace| && Level(ro.trace[j]) > 0
      ensures OnBottleneck(e.grid.bottlenecks, ro.trace[j])
      ensures ro.trace[j].info.coord != e.stateToCoord[ro.trace[j].s]
      ensures Level(ro.trace[j]) == e.grid.bottlenecks[ro.trace[j].info.coord]
    {
      assert Taken(Grid(e), ag, ro.trace[j]);
    }
    LevelCounts(e.grid.bottlenecks, ro.trace);
  }

  /** The app's rollout walks the same path with the same return as
      demo_grid's, and fails exactly when it does. Both scripts run the same
      greedy loop, so the model builds both from one Rollouts.GreedyFromReset;
      this lemma records that sharing rather than proving an equivalence
      between two separate loops. */
  lemma SameAsDemo(e: GridWorld.GridWorldEnv, ag: Agent, maxSteps: nat)
    requires Valid(Grid(e)) && Fits(ag, Grid(e))
    ensures var r := GreedyRollout(e, ag, maxSteps);
      var d := DemoGrid.GreedyRollout(e, ag, maxSteps);
      && (r.Ok? <==> d.Ok?)
      && (r.Ok? ==> r.value.path == d.value.path && r.value.total == d.value.total)
  {
  }
}
