/** The episode loop of train_grid() in train_grid.py and its per-episode
    metrics, on a grid world given as a parameter. */
module GridTraining {
  import opened Base
  import opened GridMaps
  import opened QLearning
  import opened Environment
  import opened Episodes
  import opened Metrics
  import GridWorld

  /** The metrics dictionary of lines 84-89, without the echo of the
      parameters. */
  datatype GridMetrics = GridMetrics(
    episodeReturns: seq<real>,
    stepsToGoal: seq<nat>,
    bottleneckHits: seq<nat>,
    reachedGoalFlags: seq<int>,
    finalEpsilon: real)

  /** Lines 52-80: the episodes, step by step. */
  function Session(e: GridWorld.GridWorldEnv, numEpisodes: nat, maxSteps: nat, p: Params, draws: nat -> Draw): (tr: Training)
    requires Valid(Grid(e))
    ensures |tr.episodes| == numEpisodes
    ensures AllPlayed(SetupOf(Grid(e)), maxSteps, tr.episodes)
    ensures Decays(AgentFor(Grid(e), p), tr.agent, numEpisodes)
    ensures Fits(tr.agent, Grid(e))
  {
    TrainShape(Grid(e), AgentFor(Grid(e), p), 0, numEpisodes, maxSteps, draws, 0);
    Train(Grid(e), AgentFor(Grid(e), p), 0, numEpisodes, maxSteps, draws, 0)
  }

  /** Line 81 over all episodes. */
  function HitsPerEpisode(bottlenecks: map<Coord, int>, episodes: seq<seq<Transition>>): (hits: seq<nat>)
    ensures |hits| == |episodes|
    ensures forall j :: 0 <= j < |episodes| ==> hits[j] == |HitSteps(bottlenecks, episodes[j])|
  {
    forall j | 0 <= j < |episodes|
      ensures BottleneckHits(bottlenecks, episodes[j]) == |HitSteps(bottlenecks, episodes[j])|
    {
      BottleneckHitsCount(bottlenecks, episodes[j]);
    }
    seq(|episodes|, j requires 0 <= j < |episodes| => BottleneckHits(bottlenecks, episodes[j]))
  }

  /** Line 82 over all episodes. */
  function FlagsPerEpisode(goal: Option<Coord>, episodes: seq<seq<Transition>>): (flags: seq<int>)
    ensures |flags| == |episodes|
    ensures forall j :: 0 <= j < |episodes| ==> flags[j] == 0 || flags[j] == 1
  {
    seq(|episodes|, j requires 0 <= j < |episodes| => GoalFlag(goal, episodes[j]))
  }

  /** Lines 7-105 from line 47 on, with the environment given. */
  function TrainGrid(e: GridWorld.GridWorldEnv, numEpisodes: nat, maxSteps: nat, p: Params, draws: nat -> Draw): (m: GridMetrics)
    requires Valid(Grid(e))
    ensures |m.episodeReturns| == numEpisodes
    ensures |m.bottleneckHits| == numEpisodes && |m.reachedGoalFlags| == numEpisodes
    ensures forall j :: 0 <= j < numEpisodes ==> m.bottleneckHits[j] <= maxSteps
    ensures forall j :: 0 <= j < numEpisodes ==> m.reachedGoalFlags[j] == 0 || m.reachedGoalFlags[j] == 1
    ensures |m.stepsToGoal| <= numEpisodes
    ensures forall j :: 0 <= j < |m.stepsToGoal| ==> 1 <= m.stepsToGoal[j] <= maxSteps
    ensures 0 < maxSteps && e.maxSteps <= maxSteps ==> |m.stepsToGoal| == numEpisodes
    ensures m.finalEpsilon == Iterate(p.epsStart, p.epsMin, p.epsDecay, numEpisodes)
  {
    var tr := Session(e, numEpisodes, maxSteps, p, draws);
    var hits := HitsPerEpisode(e.grid.bottlenecks, tr.episodes);
    forall j | 0 <= j < numEpisodes
      ensures hits[j] <= maxSteps
    {
      assert Played(SetupOf(Grid(e)), maxSteps, tr.episodes[j]);
      BottleneckHitsCount(e.grid.bottlenecks, tr.episodes[j]);
    }
    StepsToGoalBounds(SetupOf(Grid(e)), maxSteps, tr.episodes);
    GridMetrics(
      Returns(tr.episodes),
      StepsToGoal(tr.episodes),
      hits,
      FlagsPerEpisode(Some(e.goal), tr.episodes),
      tr.agent.epsilon)
  }

  /** Lines 56, 72-73 and 82: an episode's flag is 1 exactly when one of its
      steps reported the goal cell, which is exactly when the episode ended
      on the goal. */
  lemma FlagsMeanGoal(e: GridWorld.GridWorldEnv, numEpisodes: nat, maxSteps: nat, p: Params, draws: nat -> Draw, j: nat)
    requires Valid(Grid(e)) && j < numEpisodes
    ensures var ep := Session(e, numEpisodes, maxSteps, p, draws).episodes[j];
      var flag := TrainGrid(e, numEpisodes, maxSteps, p, draws).reachedGoalFlags[j];
      && (flag == 1 <==> exists k :: 0 <= k < |ep| && Lands(Some(e.goal), ep[k]))
      && (flag == 1 <==> |ep| > 0 && Lands(Some(e.goal), Last(ep)) && Last(ep).done)
  {
    var ep := Session(e, numEpisodes, maxSteps, p, draws).episodes[j];
    assert Played(SetupOf(Grid(e)), maxSteps, ep);
    GoalFlagIff(Some(e.goal), ep);
    GoalFlagLast(SetupOf(Grid(e)), maxSteps, ep);
  }

  /** Lines 58 and 66-67: an episode's count is the number of its steps whose
      reported cell is a bottleneck, whether the step moved or bounced. */
  lemma HitsMeanBottlenecks(e: GridWorld.GridWorldEnv, numEpisodes: nat, maxSteps: nat, p: Params, draws: nat -> Draw, j: nat)
    requires Valid(Grid(e)) && j < numEpisodes
    ensures var ep := Session(e, numEpisodes, maxSteps, p, draws).episodes[j];
      TrainGrid(e, numEpisodes, maxSteps, p, draws).bottleneckHits[j] == |HitSteps(e.grid.bottlenecks, ep)| <= |ep|
  {
    var ep := Session(e, numEpisodes, maxSteps, p, draws).episodes[j];
    BottleneckHitsCount(e.grid.bottlenecks, ep);
  }

  /** Lines 63 and 80: each return is the sum of its episode's rewards. */
  lemma ReturnsAreSumsGrid(e: GridWorld.GridWorldEnv, numEpisodes: nat, maxSteps: nat, p: Params, draws: nat -> Draw)
    requires Valid(Grid(e))
    ensures var eps := Session(e, numEpisodes, maxSteps, p, draws).episodes;
      var rs := TrainGrid(e, numEpisodes, maxSteps, p, draws).episodeReturns;
      forall j :: 0 <= j < |eps| ==> rs[j] == Sum(Rewards(eps[j]))
  {
    ReturnsAreSums(Session(e, numEpisodes, maxSteps, p, draws).episodes);
  }

  /** Lines 79 and 89: with a decay factor in [0, 1] and a non-negative floor,
      final_epsilon is max(eps_min, eps_start * eps_decay^n). */
  lemma FinalEpsilonGrid(e: GridWorld.GridWorldEnv, numEpisodes: nat, maxSteps: nat, p: Params, draws: nat -> Draw)
    requires Valid(Grid(e))
    requires 0.0 <= p.epsDecay <= 1.0 && p.epsMin >= 0.0
    requires numEpisodes >= 1 || p.epsStart >= p.epsMin
    ensures TrainGrid(e, numEpisodes, maxSteps, p, draws).finalEpsilon
         == Larger(p.epsMin, p.epsStart * Pow(p.epsDecay, numEpisodes))
  {
    IteratePow(p.epsStart, p.epsMin, p.epsDecay, numEpisodes);
  }
}
