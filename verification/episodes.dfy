/** The episode loop shared by train.py, train_grid.py and train_env of
    visualization/app.py, and the greedy loop shared by the rollouts of
    demo_grid.py and visualization/app.py. The random numbers the agent draws
    come from an explicit stream, one Draw per step, counted across episodes. */
module Episodes {
  import opened Base
  import opened QLearning
  import opened Environment

  /** The two numbers choose_action draws: np.random.rand() and the index
      np.random.choice takes. */
  datatype Draw = Draw(u: real, pick: nat)

  /** One pass of the inner loop body. */
  datatype Transition = Transition(s: int, a: int, reward: real, next: int, done: bool, info: Info)

  /** The agent's table fits the environment. */
  predicate Fits(ag: Agent, env: Env)
  {
    Shaped(ag, NStates(env), NActions(env))
  }

  /** A fresh agent sized by observation_space_n and action_space_n, as every
      driver builds it. */
  function AgentFor(env: Env, p: Params): (ag: Agent)
    ensures Fits(ag, env)
    ensures ag.alpha == p.alpha && ag.gamma == p.gamma && ag.epsilon == p.epsStart
    ensures ag.epsilonMin == p.epsMin && ag.epsilonDecay == p.epsDecay
    ensures forall s, a :: 0 <= s < NStates(env) && 0 <= a < NActions(env) ==> ag.q[s][a] == 0.0
  {
    New(NStates(env), NActions(env), p.alpha, p.gamma, p.epsStart, p.epsMin, p.epsDecay)
  }

  lemma AtState(env: Env, s: int)
    requires Valid(env) && At(env, s)
    ensures 0 <= s < NStates(env)
  {
    if env.Grid? {
      GridStates(env.g);
    }
  }

  function Last<T>(xs: seq<T>): T
    requires |xs| > 0
  {
    xs[|xs| - 1]
  }

  /** The transitions follow each other: each starts where the previous one
      ended, and none but the last is done. */
  predicate Chained(trace: seq<Transition>, s: int)
  {
    && (|trace| > 0 ==> trace[0].s == s)
    && (forall i :: 0 <= i < |trace| - 1 ==> trace[i + 1].s == trace[i].next)
    && (forall i :: 0 <= i < |trace| - 1 ==> !trace[i].done)
  }

  /** Where a trace starting on s ends. */
  function EndState(trace: seq<Transition>, s: int): int
  {
    if |trace| == 0 then s else Last(trace).next
  }

  /** The agent after one update per transition, in order, each fed the
      transition's (s, a, r, s_next) and the valid actions of s_next. */
  function Replay(env: Env, ag: Agent, trace: seq<Transition>): Agent
    requires Valid(env) && Fits(ag, env) && InRange(env, trace)
    decreases |trace|
  {
    if |trace| == 0 then ag
    else
      var t := trace[0];
      assert Fitting(env, t);
      UpdateFits(env, ag, t.s, t.a, t.reward, t.next);
      var ag' := Update(ag, t.s, t.a, t.reward, t.next, ValidActions(env, t.next));
      InRangeTail(env, trace);
      Replay(env, ag', trace[1..])
  }

  /** A transition between states by an action in range. */
  predicate Fitting(env: Env, t: Transition)
  {
    0 <= t.s < NStates(env) && 0 <= t.a < NActions(env) && 0 <= t.next < NStates(env)
  }

  predicate InRange(env: Env, trace: seq<Transition>)
  {
    forall i :: 0 <= i < |trace| ==> Fitting(env, trace[i])
  }

  lemma InRangeTail(env: Env, trace: seq<Transition>)
    requires InRange(env, trace) && |trace| > 0
    ensures InRange(env, trace[1..])
  {
    forall i | 0 <= i < |trace[1..]|
      ensures Fitting(env, trace[1..][i])
    {
      assert trace[1..][i] == trace[i + 1];
    }
  }

  /** Updates only touch the table, never its shape. */
  lemma UpdateFits(env: Env, ag: Agent, s: int, a: int, r: real, next: int)
    requires Valid(env) && Fits(ag, env)
    requires 0 <= s < NStates(env) && 0 <= a < NActions(env) && 0 <= next < NStates(env)
    ensures Fits(Update(ag, s, a, r, next, ValidActions(env, next)), env)
  {
  }

  /** The result of an episode: the environment and agent after it, its
      transitions, and the index of the next unused draw. */
  datatype Episode = Episode(env: Env, agent: Agent, trace: seq<Transition>, next: nat)

  /** The action choose_action takes from s with draw k. */
  function Choice(env: Env, ag: Agent, s: int, draw: Draw): (a: int)
    requires Valid(env) && At(env, s) && Fits(ag, env)
    ensures 0 <= a < NActions(env)
  {
    AtState(env, s);
    var valid := ValidActions(env, s);
    assert |valid| == 0 ==> NActions(env) > 0;
    ChooseAction(ag, s, valid, draw.u, draw.pick)
  }

  /** The step reports standing on cell `goal`. */
  predicate Lands(goal: Option<Coord>, t: Transition)
  {
    goal.Some? && t.info.GridInfo? && t.info.coord == goal.value
  }

  /** The step reports the goal cell (GridWorld only). */
  predicate Reached(env: Env, t: Transition)
  {
    Lands(GoalCell(env), t)
  }

  /** One pass of the inner loop body: the environment and agent after it
      and the transition it records. */
  datatype Advanced = Advanced(env: Env, agent: Agent, t: Transition)

  /** Lines 27-30 of train.py: choose with the draw, step, and update the
      table with the valid actions of the state reached. */
  function Advance(env: Env, ag: Agent, s: int, draw: Draw): (r: Advanced)
    requires Valid(env) && At(env, s) && Fits(ag, env)
    ensures SameConfig(env, r.env) && Valid(r.env) && Fits(r.agent, env) && Fitting(env, r.t)
    ensures Fits(r.agent, r.env) && MaxSteps(r.env) == MaxSteps(env)
    ensures r.t.s == s && At(r.env, r.t.next) && Steps(r.env) == Steps(env) + 1
    ensures r.t.done <==> AtGoal(r.env) || Steps(r.env) >= MaxSteps(env)
    ensures Where(r.env, r.t.info)
    ensures Reached(env, r.t) <==> env.Grid? && AtGoal(r.env)
    ensures r.agent == Update(ag, s, r.t.a, r.t.reward, r.t.next, ValidActions(env, r.t.next))
  {
    var a := Choice(env, ag, s, draw);
    StepReady(env, s, a);
    var st := Step(env, a);
    var out := st.result.value;
    AtState(st.env, out.next);
    AtState(env, s);
    ValidActionsConfig(env, st.env, out.next);
    UpdateFits(env, ag, s, a, out.reward, out.next);
    SameCounts(env, st.env);
    Advanced(st.env, Update(ag, s, a, out.reward, out.next, ValidActions(env, out.next)),
             Transition(s, a, out.reward, out.next, out.done, out.info))
  }

  /** Lines 26-35 of train.py from state s at iteration i of `budget`:
      choose, step, update, and stop after a done step. */
  function RunEpisode(env: Env, ag: Agent, s: int, i: nat, budget: nat, draws: nat -> Draw, k: nat): (ep: Episode)
    requires Valid(env) && At(env, s) && Fits(ag, env)
    ensures SameConfig(env, ep.env) && Valid(ep.env) && Fits(ep.agent, env)
    ensures InRange(env, ep.trace)
    decreases budget - i
  {
    if i >= budget then Episode(env, ag, [], k)
    else
      var adv := Advance(env, ag, s, draws(k));
      ValidActionsConfig(env, adv.env, s);
      if adv.t.done then Episode(adv.env, adv.agent, [adv.t], k + 1)
      else
        var rest := RunEpisode(adv.env, adv.agent, adv.t.next, i + 1, budget, draws, k + 1);
        SameConfigTrans(env, adv.env, rest.env);
        ConsInRange(env, adv.env, adv.t, rest.trace);
        Episode(rest.env, rest.agent, [adv.t] + rest.trace, rest.next)
  }

  /** A trace in range of a configuration stays in range after one more
      transition in front. */
  lemma ConsInRange(env: Env, other: Env, t: Transition, trace: seq<Transition>)
    requires Valid(env) && SameConfig(env, other) && Fitting(env, t) && InRange(other, trace)
    ensures InRange(env, [t] + trace)
  {
    ValidActionsConfig(env, other, t.s);
    forall i | 0 <= i < |[t] + trace|
      ensures Fitting(env, ([t] + trace)[i])
    {
      if i > 0 {
        assert ([t] + trace)[i] == trace[i - 1];
      }
    }
  }

  /** What lines 26-35 of train.py promise of an episode run from state s at
      iteration i of `budget`, started on an environment like env. */
  predicate WellRun(env: Env, s: int, i: nat, budget: nat, k: nat, ep: Episode)
  {
    && (i < budget ==> i + |ep.trace| <= budget)
    && (i >= budget ==> ep.trace == [])
    && (ep.trace == [] ==> ep.env == env)
    && ep.next == k + |ep.trace|
    && Chained(ep.trace, s)
    && At(ep.env, EndState(ep.trace, s))
    && Steps(ep.env) == Steps(env) + |ep.trace|
    && (i + |ep.trace| < budget ==> |ep.trace| > 0 && Last(ep.trace).done)
    && (|ep.trace| > 0 ==> (Last(ep.trace).done <==> AtGoal(ep.env) || Steps(ep.env) >= MaxSteps(env)))
    && (|ep.trace| > 0 ==> (Reached(env, Last(ep.trace)) <==> env.Grid? && AtGoal(ep.env)))
    && (forall j :: 0 <= j < |ep.trace| ==> Reached(env, ep.trace[j]) ==> ep.trace[j].done)
  }

  /** Lines 26-35 of train.py: the episode runs at most `budget` steps, each
      from where the last one ended, and stops early only after a done step;
      the last step is done exactly when the agent is on the goal or the
      environment's step cap is reached. The episode uses one draw per step. */
  lemma {:induction false} EpisodeShape(env: Env, ag: Agent, s: int, i: nat, budget: nat, draws: nat -> Draw, k: nat)
    requires Valid(env) && At(env, s) && Fits(ag, env)
    ensures WellRun(env, s, i, budget, k, RunEpisode(env, ag, s, i, budget, draws, k))
    decreases budget - i
  {
    if i < budget && !Advance(env, ag, s, draws(k)).t.done {
      var adv := Advance(env, ag, s, draws(k));
      ValidActionsConfig(env, adv.env, s);
      var rest := RunEpisode(adv.env, adv.agent, adv.t.next, i + 1, budget, draws, k + 1);
      EpisodeShape(adv.env, adv.agent, adv.t.next, i + 1, budget, draws, k + 1);
      Unfold(env, ag, s, i, budget, draws, k);
      ConsWellRun(env, adv, s, i, budget, k, rest);
    } else {
      EndWellRun(env, ag, s, i, budget, draws, k);
    }
  }

  /** A run that stops at once, or after one done step, is well run. */
  lemma EndWellRun(env: Env, ag: Agent, s: int, i: nat, budget: nat, draws: nat -> Draw, k: nat)
    requires Valid(env) && At(env, s) && Fits(ag, env)
    requires i < budget ==> Advance(env, ag, s, draws(k)).t.done
    ensures WellRun(env, s, i, budget, k, RunEpisode(env, ag, s, i, budget, draws, k))
  {
    UnfoldDone(env, ag, s, i, budget, draws, k);
    if i < budget {
      LastWellRun(env, Advance(env, ag, s, draws(k)), s, i, budget, k);
    }
  }

  /** One done step is a well-run episode. */
  lemma LastWellRun(env: Env, adv: Advanced, s: int, i: nat, budget: nat, k: nat)
    requires adv.t.s == s && adv.t.done && i < budget
    requires Steps(adv.env) == Steps(env) + 1
    requires adv.t.done <==> AtGoal(adv.env) || Steps(adv.env) >= MaxSteps(env)
    requires At(adv.env, adv.t.next)
    requires Reached(env, adv.t) <==> env.Grid? && AtGoal(adv.env)
    ensures WellRun(env, s, i, budget, k, Episode(adv.env, adv.agent, [adv.t], k + 1))
  {
    assert Last([adv.t]) == adv.t;
  }

  /** A step that is not done, in front of a well-run rest, is a well-run
      episode. */
  lemma ConsWellRun(env: Env, adv: Advanced, s: int, i: nat, budget: nat, k: nat, rest: Episode)
    requires adv.t.s == s && !adv.t.done && i < budget
    requires Steps(adv.env) == Steps(env) + 1 && MaxSteps(adv.env) == MaxSteps(env)
    requires adv.t.done <==> AtGoal(adv.env) || Steps(adv.env) >= MaxSteps(env)
    requires At(adv.env, adv.t.next) && SameConfig(env, adv.env)
    requires Reached(env, adv.t) <==> env.Grid? && AtGoal(adv.env)
    requires WellRun(adv.env, adv.t.next, i + 1, budget, k + 1, rest)
    ensures WellRun(env, s, i, budget, k, Episode(rest.env, rest.agent, [adv.t] + rest.trace, rest.next))
  {
    var trace := [adv.t] + rest.trace;
    ChainCons(adv.t, rest.trace, s);
    if |rest.trace| > 0 {
      assert Last(trace) == Last(rest.trace);
    }
    forall j | 0 <= j < |trace|
      ensures Reached(env, trace[j]) ==> trace[j].done
    {
      if j > 0 {
        assert trace[j] == rest.trace[j - 1];
      }
    }
  }

  /** A budget that reaches the environment's step cap always ends on a done
      step, so the episode is recorded in steps_to_goal. */
  lemma CapEndsDone(env: Env, ag: Agent, s: int, i: nat, budget: nat, draws: nat -> Draw, k: nat)
    requires Valid(env) && At(env, s) && Fits(ag, env)
    requires i < budget && Steps(env) + (budget - i) >= MaxSteps(env)
    ensures var ep := RunEpisode(env, ag, s, i, budget, draws, k);
      |ep.trace| > 0 && Last(ep.trace).done
  {
    EpisodeShape(env, ag, s, i, budget, draws, k);
  }

  /** One unfolding of a run that is not over after its first step. */
  lemma Unfold(env: Env, ag: Agent, s: int, i: nat, budget: nat, draws: nat -> Draw, k: nat)
    requires Valid(env) && At(env, s) && Fits(ag, env) && i < budget
    requires !Advance(env, ag, s, draws(k)).t.done
    ensures var adv := Advance(env, ag, s, draws(k));
      var rest := RunEpisode(adv.env, adv.agent, adv.t.next, i + 1, budget, draws, k + 1);
      RunEpisode(env, ag, s, i, budget, draws, k) == Episode(rest.env, rest.agent, [adv.t] + rest.trace, rest.next)
  {
  }

  /** A run ends after a done step, and when its iterations are used up. */
  lemma UnfoldDone(env: Env, ag: Agent, s: int, i: nat, budget: nat, draws: nat -> Draw, k: nat)
    requires Valid(env) && At(env, s) && Fits(ag, env)
    ensures i >= budget ==> RunEpisode(env, ag, s, i, budget, draws, k) == Episode(env, ag, [], k)
    ensures var adv := Advance(env, ag, s, draws(k));
      i < budget && adv.t.done ==>
        RunEpisode(env, ag, s, i, budget, draws, k) == Episode(adv.env, adv.agent, [adv.t], k + 1)
  {
  }

  /** A transition in front of a trace chained from where it ends. */
  lemma ChainCons(t: Transition, trace: seq<Transition>, s: int)
    requires t.s == s && !t.done && Chained(trace, t.next)
    ensures Chained([t] + trace, s)
    ensures EndState([t] + trace, s) == EndState(trace, t.next)
  {
    var all := [t] + trace;
    forall i | 0 <= i < |all| - 1
      ensures all[i + 1].s == all[i].next && !all[i].done
    {
      if i > 0 {
        assert all[i] == trace[i - 1] && all[i + 1] == trace[i];
      }
    }
  }

  /** Replaying against another environment of the same configuration gives
      the same agent: updates read only the valid actions. */
  lemma {:induction false} ReplayConfig(env: Env, other: Env, ag: Agent, trace: seq<Transition>)
    requires Valid(env) && SameConfig(env, other) && Fits(ag, env) && InRange(env, trace)
    ensures Valid(other) && Fits(ag, other) && InRange(other, trace)
    ensures Replay(other, ag, trace) == Replay(env, ag, trace)
    decreases |trace|
  {
    ConfigFits(env, other, ag, trace);
    if |trace| > 0 {
      var t := trace[0];
      ValidActionsConfig(env, other, t.next);
      UpdateFits(env, ag, t.s, t.a, t.reward, t.next);
      var ag' := Update(ag, t.s, t.a, t.reward, t.next, ValidActions(env, t.next));
      InRangeTail(env, trace);
      ReplayConfig(env, other, ag', trace[1..]);
    }
  }

  lemma ConfigFits(env: Env, other: Env, ag: Agent, trace: seq<Transition>)
    requires Valid(env) && SameConfig(env, other) && Fits(ag, env) && InRange(env, trace)
    ensures Valid(other) && Fits(ag, other) && InRange(other, trace)
  {
    SameCounts(env, other);
  }

  /** Lines 27-31 of train.py: the agent after an episode is the agent before
      it with one Q update per recorded transition, in order. */
  lemma {:induction false} EpisodeReplay(env: Env, ag: Agent, s: int, i: nat, budget: nat, draws: nat -> Draw, k: nat)
    requires Valid(env) && At(env, s) && Fits(ag, env)
    ensures var ep := RunEpisode(env, ag, s, i, budget, draws, k);
      ep.agent == Replay(env, ag, ep.trace)
    decreases budget - i
  {
    var ep := RunEpisode(env, ag, s, i, budget, draws, k);
    if i < budget {
      var adv := Advance(env, ag, s, draws(k));
      ValidActionsConfig(env, adv.env, s);
      if adv.t.done {
        UnfoldDone(env, ag, s, i, budget, draws, k);
        assert ep.trace == [adv.t];
        assert ep.trace[1..] == [];
      } else {
        var rest := RunEpisode(adv.env, adv.agent, adv.t.next, i + 1, budget, draws, k + 1);
        EpisodeReplay(adv.env, adv.agent, adv.t.next, i + 1, budget, draws, k + 1);
        Unfold(env, ag, s, i, budget, draws, k);
        ReplayStep(env, ag, adv, rest);
      }
    }
  }

  /** One update in front of a replay on an environment of the same
      configuration is the replay of the longer trace. */
  lemma ReplayStep(env: Env, ag: Agent, adv: Advanced, rest: Episode)
    requires Valid(env) && Fits(ag, env) && Fitting(env, adv.t)
    requires SameConfig(env, adv.env) && Valid(adv.env) && Fits(adv.agent, adv.env)
    requires adv.agent == Update(ag, adv.t.s, adv.t.a, adv.t.reward, adv.t.next, ValidActions(env, adv.t.next))
    requires InRange(adv.env, rest.trace) && rest.agent == Replay(adv.env, adv.agent, rest.trace)
    ensures InRange(env, [adv.t] + rest.trace)
    ensures rest.agent == Replay(env, ag, [adv.t] + rest.trace)
  {
    SameConfigSym(env, adv.env);
    ReplayConfig(adv.env, env, adv.agent, rest.trace);
    ConsInRange(env, adv.env, adv.t, rest.trace);
    var all := [adv.t] + rest.trace;
    assert all[0] == adv.t && all[1..] == rest.trace;
  }

  lemma SameConfigSym(a: Env, b: Env)
    requires SameConfig(a, b)
    ensures SameConfig(b, a)
  {
  }

  lemma SameConfigTrans(a: Env, b: Env, c: Env)
    requires SameConfig(a, b) && SameConfig(b, c)
    ensures SameConfig(a, c)
  {
  }

  /** The state reset() returns. */
  function StartState(env: Env): int
    requires Valid(env)
  {
    ResetReady(env);
    Reset(env).result.value
  }

  lemma StartConfig(env: Env, other: Env)
    requires Valid(env) && SameConfig(env, other)
    ensures Valid(other) && StartState(other) == StartState(env) && SetupOf(other) == SetupOf(env)
  {
    SameCounts(env, other);
  }

  /** What lines 24-35 of train.py promise of each episode: at most `budget`
      steps from the start state, each from where the last ended, and an
      early stop only after a done step; when the budget reaches the
      environment's step cap the last step is always done. Only a done step
      can report the goal cell. */
  predicate Played(setup: Setup, budget: nat, trace: seq<Transition>)
  {
    && |trace| <= budget
    && Chained(trace, setup.start)
    && (|trace| < budget ==> |trace| > 0 && Last(trace).done)
    && (0 < budget && setup.cap <= budget ==> |trace| > 0 && Last(trace).done)
    && (forall j :: 0 <= j < |trace| ==> Lands(setup.goal, trace[j]) ==> trace[j].done)
  }

  /** What every episode of one environment shares: the state reset()
      returns, the goal cell and the environment's step cap. */
  datatype Setup = Setup(start: int, goal: Option<Coord>, cap: int)

  function SetupOf(env: Env): Setup
    requires Valid(env)
  {
    Setup(StartState(env), GoalCell(env), MaxSteps(env))
  }

  /** Lines 24-37 of train.py: reset, run the inner loop from iteration 0, and
      decay epsilon. */
  function PlayEpisode(env: Env, ag: Agent, budget: nat, draws: nat -> Draw, k: nat): (ep: Episode)
    requires Valid(env) && Fits(ag, env)
    ensures SameConfig(env, ep.env) && Valid(ep.env) && Fits(ep.agent, env)
    ensures InRange(env, ep.trace) && ep.next == k + |ep.trace|
    ensures Played(SetupOf(env), budget, ep.trace)
  {
    ResetReady(env);
    var start := Reset(env);
    var s := start.result.value;
    SameCounts(env, start.env);
    var run := RunEpisode(start.env, ag, s, 0, budget, draws, k);
    EpisodeShape(start.env, ag, s, 0, budget, draws, k);
    WellPlayed(env, start.env, budget, k, run);
    ConfigFits(start.env, env, ag, run.trace);
    SameConfigTrans(env, start.env, run.env);
    Episode(run.env, DecayEpsilon(run.agent), run.trace, run.next)
  }

  /** A run from iteration 0 on a freshly reset environment is a played
      episode. */
  lemma WellPlayed(env: Env, start: Env, budget: nat, k: nat, run: Episode)
    requires Valid(env) && SameConfig(env, start) && Steps(start) == 0
    requires WellRun(start, StartState(env), 0, budget, k, run)
    ensures Played(SetupOf(env), budget, run.trace)
  {
    SameCounts(env, start);
  }

  /** The agent after an episode is the agent before it with one update per
      recorded step, in order, and then one epsilon decay. */
  lemma PlayReplay(env: Env, ag: Agent, budget: nat, draws: nat -> Draw, k: nat)
    requires Valid(env) && Fits(ag, env)
    ensures var ep := PlayEpisode(env, ag, budget, draws, k);
      ep.agent == DecayEpsilon(Replay(env, ag, ep.trace))
  {
    ResetReady(env);
    var start := Reset(env);
    var s := start.result.value;
    SameCounts(env, start.env);
    var run := RunEpisode(start.env, ag, s, 0, budget, draws, k);
    EpisodeReplay(start.env, ag, s, 0, budget, draws, k);
    ReplayConfig(start.env, env, ag, run.trace);
  }

  /** A training run: the environment and agent after it, the transitions of
      each episode, and the index of the next unused draw. */
  datatype Training = Training(env: Env, agent: Agent, episodes: seq<seq<Transition>>, next: nat)

  /** Lines 23-38 of train.py from episode e of n. */
  function Train(env: Env, ag: Agent, e: nat, n: nat, budget: nat, draws: nat -> Draw, k: nat): (tr: Training)
    requires Valid(env) && Fits(ag, env) && e <= n
    decreases n - e
  {
    if e == n then Training(env, ag, [], k)
    else
      var ep := PlayEpisode(env, ag, budget, draws, k);
      PlayStep(env, ag, budget, draws, k);
      var rest := Train(ep.env, ep.agent, e + 1, n, budget, draws, ep.next);
      Training(rest.env, rest.agent, [ep.trace] + rest.episodes, rest.next)
  }

  /** Lines 23-38 of train.py keep their promise for every episode count. */
  lemma {:induction false} TrainShape(env: Env, ag: Agent, e: nat, n: nat, budget: nat, draws: nat -> Draw, k: nat)
    requires Valid(env) && Fits(ag, env) && e <= n
    ensures TrainedFrom(env, ag, n - e, budget, Train(env, ag, e, n, budget, draws, k))
    decreases n - e
  {
    hide PlayEpisode;
    if e < n {
      var ep := PlayEpisode(env, ag, budget, draws, k);
      PlayStep(env, ag, budget, draws, k);
      TrainShape(ep.env, ep.agent, e + 1, n, budget, draws, ep.next);
      TrainStep(env, ag, e, n, budget, draws, k);
    }
  }

  /** One more episode in front of a run that keeps the promise keeps it. */
  lemma TrainStep(env: Env, ag: Agent, e: nat, n: nat, budget: nat, draws: nat -> Draw, k: nat)
    requires Valid(env) && Fits(ag, env) && e < n
    requires var ep := PlayEpisode(env, ag, budget, draws, k);
      && Valid(ep.env) && Fits(ep.agent, ep.env)
      && TrainedFrom(ep.env, ep.agent, n - (e + 1), budget, Train(ep.env, ep.agent, e + 1, n, budget, draws, ep.next))
    ensures TrainedFrom(env, ag, n - e, budget, Train(env, ag, e, n, budget, draws, k))
  {
    hide PlayEpisode;
    var ep := PlayEpisode(env, ag, budget, draws, k);
    var rest := Train(ep.env, ep.agent, e + 1, n, budget, draws, ep.next);
    TrainCons(env, ag, budget, draws, k, rest, n - (e + 1), n - e);
    assert Train(env, ag, e, n, budget, draws, k) == Training(rest.env, rest.agent, [ep.trace] + rest.episodes, rest.next);
  }

  /** What r episodes of lines 23-38 promise: the configuration is kept, the
      agent keeps its shape, there is one played episode per iteration, and
      epsilon has decayed r times with nothing else of the agent changed but
      its table. */
  predicate TrainedFrom(env: Env, ag: Agent, r: nat, budget: nat, tr: Training)
    requires Valid(env)
  {
    && SameConfig(env, tr.env) && Valid(tr.env) && Fits(tr.agent, env)
    && |tr.episodes| == r
    && AllPlayed(SetupOf(env), budget, tr.episodes)
    && Decays(ag, tr.agent, r)
  }

  /** After one episode the environment and agent are ready for the next,
      with the same setup, and the agent has decayed once. */
  lemma PlayStep(env: Env, ag: Agent, budget: nat, draws: nat -> Draw, k: nat)
    requires Valid(env) && Fits(ag, env)
    ensures var ep := PlayEpisode(env, ag, budget, draws, k);
      && Valid(ep.env) && Fits(ep.agent, ep.env)
      && SetupOf(ep.env) == SetupOf(env) && Decays(ag, ep.agent, 1)
  {
    var ep := PlayEpisode(env, ag, budget, draws, k);
    SameCounts(env, ep.env);
    StartConfig(env, ep.env);
    PlayKeeps(env, ag, budget, draws, k);
  }

  /** A played episode in front of the rest of a training run. */
  lemma TrainCons(env: Env, ag: Agent, budget: nat, draws: nat -> Draw, k: nat, rest: Training, r: nat, total: nat)
    requires Valid(env) && Fits(ag, env) && total == r + 1
    requires var ep := PlayEpisode(env, ag, budget, draws, k);
      TrainedFrom(ep.env, ep.agent, r, budget, rest)
    ensures var ep := PlayEpisode(env, ag, budget, draws, k);
      TrainedFrom(env, ag, total, budget, Training(rest.env, rest.agent, [ep.trace] + rest.episodes, rest.next))
  {
    var ep := PlayEpisode(env, ag, budget, draws, k);
    PlayStep(env, ag, budget, draws, k);
    SameCounts(env, ep.env);
    DecayChain(ag, ep.agent, rest.agent, r);
    SameConfigTrans(env, ep.env, rest.env);
    AllPlayedCons(SetupOf(env), budget, ep.trace, rest.episodes);
  }

  predicate AllPlayed(setup: Setup, budget: nat, episodes: seq<seq<Transition>>)
  {
    forall j :: 0 <= j < |episodes| ==> Played(setup, budget, episodes[j])
  }

  lemma AllPlayedCons(setup: Setup, budget: nat, trace: seq<Transition>, episodes: seq<seq<Transition>>)
    requires Played(setup, budget, trace) && AllPlayed(setup, budget, episodes)
    ensures AllPlayed(setup, budget, [trace] + episodes)
  {
    var all := [trace] + episodes;
    forall j | 0 <= j < |all|
      ensures Played(setup, budget, all[j])
    {
      if j > 0 {
        assert all[j] == episodes[j - 1];
      }
    }
  }

  /** Updates change the table and nothing else. */
  lemma {:induction false} ReplayKeeps(env: Env, ag: Agent, trace: seq<Transition>)
    requires Valid(env) && Fits(ag, env) && InRange(env, trace)
    ensures Replay(env, ag, trace) == ag.(q := Replay(env, ag, trace).q)
    decreases |trace|
  {
    if |trace| > 0 {
      var t := trace[0];
      UpdateFits(env, ag, t.s, t.a, t.reward, t.next);
      InRangeTail(env, trace);
      ReplayKeeps(env, Update(ag, t.s, t.a, t.reward, t.next, ValidActions(env, t.next)), trace[1..]);
    }
  }

  /** One episode changes the table and decays epsilon once; nothing else. */
  lemma PlayKeeps(env: Env, ag: Agent, budget: nat, draws: nat -> Draw, k: nat)
    requires Valid(env) && Fits(ag, env)
    ensures Decays(ag, PlayEpisode(env, ag, budget, draws, k).agent, 1)
  {
    var ep := PlayEpisode(env, ag, budget, draws, k);
    PlayReplay(env, ag, budget, draws, k);
    ReplayKeeps(env, ag, ep.trace);
  }

  /** `last` is `ag` after r epsilon decays and some table updates: lines
      23-37 of train.py touch nothing else of the agent. */
  predicate Decays(ag: Agent, last: Agent, r: nat)
  {
    && last.epsilon == Iterate(ag.epsilon, ag.epsilonMin, ag.epsilonDecay, r)
    && last == ag.(q := last.q, epsilon := last.epsilon)
  }

  /** One decay followed by r more is r + 1 decays. */
  lemma DecayChain(ag: Agent, mid: Agent, last: Agent, r: nat)
    requires Decays(ag, mid, 1) && Decays(mid, last, r)
    ensures Decays(ag, last, r + 1)
  {
    IterateShift(ag.epsilon, ag.epsilonMin, ag.epsilonDecay, r + 1);
  }
}
