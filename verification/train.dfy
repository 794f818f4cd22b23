/** train() of train.py: Q-learning on the 12-node warehouse graph, with the
    seeded NumPy generator replaced by an explicit stream of random draws. */
module WarehouseTraining {
  import opened Base
  import opened QLearning
  import opened Environment
  import opened Episodes
  import opened Metrics
  import Warehouse
  import RewardMatrix

  /** What train() returns: the agent, episode_rewards, steps_to_goal and R. */
  datatype TrainResult = TrainResult(agent: Agent, episodeRewards: seq<real>, stepsToGoal: seq<nat>, r: seq<seq<real>>)

  /** Lines 14-15: the warehouse on the built matrix, from node 0 to node 11.
      The matrix is square, so the constructor's check passes. */
  function WarehouseFor(maxSteps: nat): (e: Warehouse.WarehouseEnv)
    ensures Valid(Fixed(e)) && e.r == RewardMatrix.BuildRewardMatrix()
    ensures e.nStates == 12 && e.nActions == 12
    ensures e.startState == 0 && e.goalState == 11 && e.maxSteps == maxSteps
  {
    var r := RewardMatrix.BuildRewardMatrix();
    Warehouse.New(r, RewardMatrix.Size, 0, RewardMatrix.GoalNode, maxSteps).value
  }

  /** Lines 23-38: the episodes of one call, step by step. */
  function Session(numEpisodes: nat, maxSteps: nat, p: Params, draws: nat -> Draw): (tr: Training)
    ensures |tr.episodes| == numEpisodes
    ensures AllPlayed(SetupOf(Fixed(WarehouseFor(maxSteps))), maxSteps, tr.episodes)
    ensures Decays(AgentFor(Fixed(WarehouseFor(maxSteps)), p), tr.agent, numEpisodes)
    ensures Fits(tr.agent, Fixed(WarehouseFor(maxSteps)))
  {
    var e := WarehouseFor(maxSteps);
    TrainShape(Fixed(e), AgentFor(Fixed(e), p), 0, numEpisodes, maxSteps, draws, 0);
    Train(Fixed(e), AgentFor(Fixed(e), p), 0, numEpisodes, maxSteps, draws, 0)
  }

  /** Lines 10-40. */
  function TrainWarehouse(numEpisodes: nat, maxSteps: nat, p: Params, draws: nat -> Draw): (res: TrainResult)
    ensures |res.episodeRewards| == numEpisodes
    ensures forall j :: 0 <= j < |res.stepsToGoal| ==> 1 <= res.stepsToGoal[j] <= maxSteps
    ensures maxSteps > 0 ==> |res.stepsToGoal| == numEpisodes
    ensures res.agent.epsilon == Iterate(p.epsStart, p.epsMin, p.epsDecay, numEpisodes)
    ensures res.agent.alpha == p.alpha && res.agent.gamma == p.gamma
    ensures res.agent.epsilonMin == p.epsMin && res.agent.epsilonDecay == p.epsDecay
    ensures Shaped(res.agent, 12, 12)
    ensures res.r == RewardMatrix.BuildRewardMatrix()
  {
    var e := WarehouseFor(maxSteps);
    var tr := Session(numEpisodes, maxSteps, p, draws);
    StepsToGoalBounds(SetupOf(Fixed(e)), maxSteps, tr.episodes);
    TrainResult(tr.agent, Returns(tr.episodes), StepsToGoal(tr.episodes), e.r)
  }

  /** Lines 23-35: every episode starts on node 0, takes at most max_steps
      steps, each from the node the last one reached, and, since the
      environment's cap is the loop's, ends on a done step. */
  lemma EpisodesShape(numEpisodes: nat, maxSteps: nat, p: Params, draws: nat -> Draw, j: nat)
    requires j < numEpisodes
    ensures var ep := Session(numEpisodes, maxSteps, p, draws).episodes[j];
      && |ep| <= maxSteps && Chained(ep, 0)
      && (maxSteps > 0 ==> |ep| > 0 && Last(ep).done)
  {
    var e := WarehouseFor(maxSteps);
    var eps := Session(numEpisodes, maxSteps, p, draws).episodes;
    assert StartState(Fixed(e)) == 0;
    assert Played(SetupOf(Fixed(e)), maxSteps, eps[j]);
  }

  /** Lines 33-34: the recorded step counts are the episode lengths. */
  lemma StepsAreLengths(numEpisodes: nat, maxSteps: nat, p: Params, draws: nat -> Draw)
    requires maxSteps > 0
    ensures var eps := Session(numEpisodes, maxSteps, p, draws).episodes;
      TrainWarehouse(numEpisodes, maxSteps, p, draws).stepsToGoal == seq(|eps|, j requires 0 <= j < |eps| => |eps[j]|)
  {
    var e := WarehouseFor(maxSteps);
    StepsToGoalBounds(SetupOf(Fixed(e)), maxSteps, Session(numEpisodes, maxSteps, p, draws).episodes);
  }

  /** Lines 25, 30 and 38: each episode's entry is the sum of its rewards. */
  lemma RewardsAreSums(numEpisodes: nat, maxSteps: nat, p: Params, draws: nat -> Draw)
    ensures var eps := Session(numEpisodes, maxSteps, p, draws).episodes;
      var rewards := TrainWarehouse(numEpisodes, maxSteps, p, draws).episodeRewards;
      forall j :: 0 <= j < |eps| ==> rewards[j] == Sum(Rewards(eps[j]))
  {
    ReturnsAreSums(Session(numEpisodes, maxSteps, p, draws).episodes);
  }

  /** Line 37 once per episode: with a decay factor in [0, 1] and a
      non-negative floor, the final rate is max(eps_min, eps_start *
      eps_decay^n). */
  lemma FinalEpsilon(numEpisodes: nat, maxSteps: nat, p: Params, draws: nat -> Draw)
    requires 0.0 <= p.epsDecay <= 1.0 && p.epsMin >= 0.0
    requires numEpisodes >= 1 || p.epsStart >= p.epsMin
    ensures TrainWarehouse(numEpisodes, maxSteps, p, draws).agent.epsilon
         == Larger(p.epsMin, p.epsStart * Pow(p.epsDecay, numEpisodes))
  {
    IteratePow(p.epsStart, p.epsMin, p.epsDecay, numEpisodes);
  }
}
