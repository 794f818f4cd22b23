/** The greedy loop shared by greedy_rollout of demo_grid.py and of
    visualization/app.py: reset, then up to a budget of steps, each taking the
    action predict_action picks among the valid ones, stopping after the first
    done step. The agent does not learn, so it stays fixed. */
module Rollouts {
  import opened Base
  import opened GridMaps
  import opened QLearning
  import opened Environment
  import opened Episodes

  /** The action predict_action picks on state s. */
  function Greedy(env: Env, ag: Agent, s: int): Result<int>
    requires Valid(env) && Fits(ag, env) && 0 <= s < NStates(env)
  {
    PredictAction(ag, s, ValidActions(env, s))
  }

  /** What a step reports about the cells: the warehouse nothing; the grid the
      cell of the state reached, which is the cell of the state left or one of
      its neighbours, and a positive level only for a move onto a bottleneck,
      with that bottleneck's level. */
  predicate Shows(env: Env, t: Transition)
  {
    match env
    case Fixed(_) => t.info == NoInfo
    case Grid(g) =>
      && 0 <= t.s < |g.stateToCoord| && 0 <= t.next < |g.stateToCoord|
      && t.info.GridInfo? && t.info.coord == g.stateToCoord[t.next]
      && (t.info.coord == g.stateToCoord[t.s] || Adjacent(g.stateToCoord[t.s], t.info.coord))
      && (t.info.level > 0 ==>
            && t.info.coord != g.stateToCoord[t.s]
            && t.info.coord in g.grid.bottlenecks && t.info.level == g.grid.bottlenecks[t.info.coord])
  }

  /** Shows reads only the configuration. */
  lemma ShowsConfig(env: Env, other: Env, t: Transition)
    requires SameConfig(env, other)
    ensures Shows(env, t) <==> Shows(other, t)
  {
  }

  /** A step from t.s that lands on t.next and reports t.info shows its cells. */
  lemma StepShows(env: Env, after: Env, t: Transition)
    requires Valid(env) && SameConfig(env, after) && At(env, t.s) && At(after, t.next)
    requires Where(after, t.info) && Moves(env, after) && Leveled(env, after, t.info)
    ensures Shows(env, t)
  {
  }

  /** One greedy step: the environment after it and the transition. */
  datatype Stepped = Stepped(env: Env, t: Transition)

  /** What a greedy step from s promises: it keeps the configuration, moves
      from s to the state it reports, counts one step, is done exactly on the
      goal or at the cap, took the greedy action and shows its cells. */
  predicate GoodStep(env: Env, ag: Agent, s: int, st: Stepped)
    requires Valid(env) && Fits(ag, env)
  {
    && SameConfig(env, st.env) && Valid(st.env) && Fits(ag, st.env)
    && st.t.s == s && At(st.env, st.t.next)
    && Steps(st.env) == Steps(env) + 1
    && (st.t.done <==> AtGoal(st.env) || Steps(st.env) >= MaxSteps(env))
    && Taken(env, ag, st.t)
  }

  /** A step between states, by the greedy action, showing its cells. */
  predicate Taken(env: Env, ag: Agent, t: Transition)
    requires Valid(env) && Fits(ag, env)
  {
    Fitting(env, t) && Greedy(env, ag, t.s) == Ok(t.a) && Shows(env, t)
  }

  /** Taken reads only the configuration. */
  lemma TakenConfig(env: Env, other: Env, ag: Agent, t: Transition)
    requires Valid(env) && Fits(ag, env) && SameConfig(env, other)
    ensures Valid(other) && Fits(ag, other)
    ensures Taken(env, ag, t) <==> Taken(other, ag, t)
  {
    SameCounts(env, other);
    assert Fitting(env, t) == Fitting(other, t);
    ShowsConfig(env, other, t);
    if Fitting(env, t) {
      GreedyConfig(env, other, ag, t.s);
    }
  }

  /** predict_action's pick reads only the configuration. */
  lemma GreedyConfig(env: Env, other: Env, ag: Agent, s: int)
    requires Valid(env) && Fits(ag, env) && SameConfig(env, other) && 0 <= s < NStates(env)
    ensures Valid(other) && Fits(ag, other) && 0 <= s < NStates(other)
    ensures Greedy(other, ag, s) == Greedy(env, ag, s)
  {
    SameCounts(env, other);
    ValidActionsConfig(env, other, s);
  }

  /** Lines 13-15 of demo_grid.py: pick greedily among the valid actions and
      step; argmax over no valid action raises. */
  function GreedyStep(env: Env, ag: Agent, s: int): (r: Result<Stepped>)
    requires Valid(env) && At(env, s) && Fits(ag, env) && 0 <= s < NStates(env)
    ensures r.Err? <==> |ValidActions(env, s)| == 0
    ensures r.Err? ==> r.error == EmptyValidActions
    ensures r.Ok? ==> GoodStep(env, ag, s, r.value)
  {
    var p := Greedy(env, ag, s);
    if p.Err? then Err(p.error)
    else
      StepReady(env, s, p.value);
      var st := Step(env, p.value);
      var out := st.result.value;
      var stepped := Stepped(st.env, Transition(s, p.value, out.reward, out.next, out.done, out.info));
      SteppedGood(env, ag, s, p.value, stepped);
      Ok(stepped)
  }

  /** The step greedy_rollout takes with the greedy action a. */
  lemma SteppedGood(env: Env, ag: Agent, s: int, a: int, st: Stepped)
    requires Valid(env) && At(env, s) && Fits(ag, env) && 0 <= s < NStates(env)
    requires Greedy(env, ag, s) == Ok(a) && 0 <= a < NActions(env)
    requires st.env == Step(env, a).env && Step(env, a).result.Ok?
    requires var out := Step(env, a).result.value;
      st.t == Transition(s, a, out.reward, out.next, out.done, out.info)
    ensures GoodStep(env, ag, s, st)
  {
    StepReady(env, s, a);
    AtState(st.env, st.t.next);
    SameCounts(env, st.env);
    StepShows(env, st.env, st.t);
  }

  /** The environment after a rollout and the steps it took. */
  datatype Rollout = Rollout(env: Env, trace: seq<Transition>)

  /** Lines 12-19 of demo_grid.py from state s at iteration i of `budget`.
      The environment after the loop is returned with the transitions. */
  function GreedyRun(env: Env, ag: Agent, s: int, i: nat, budget: nat): (r: Result<Rollout>)
    requires Valid(env) && At(env, s) && Fits(ag, env)
    ensures r.Ok? ==> SameConfig(env, r.value.env) && Valid(r.value.env)
    ensures r.Err? ==> r.error == EmptyValidActions
    decreases budget - i
  {
    AtState(env, s);
    if i >= budget then Ok(Rollout(env, []))
    else
      var st := GreedyStep(env, ag, s);
      if st.Err? then Err(st.error)
      else if st.value.t.done then Ok(Rollout(st.value.env, [st.value.t]))
      else
        var rest := GreedyRun(st.value.env, ag, st.value.t.next, i + 1, budget);
        if rest.Err? then rest
        else
          SameConfigTrans(env, st.value.env, rest.value.env);
          Ok(Rollout(rest.value.env, [st.value.t] + rest.value.trace))
  }

  /** What lines 12-19 of demo_grid.py promise of a rollout run from state s
      at iteration i of `budget`, started on an environment like env. */
  predicate Rolled(env: Env, ag: Agent, s: int, i: nat, budget: nat, ro: Rollout)
    requires Valid(env) && Fits(ag, env)
  {
    && (i < budget ==> i + |ro.trace| <= budget)
    && (i >= budget ==> ro.trace == [])
    && Chained(ro.trace, s)
    && (i + |ro.trace| < budget ==> |ro.trace| > 0 && Last(ro.trace).done)
    && (forall j :: 0 <= j < |ro.trace| ==> Taken(env, ag, ro.trace[j]))
  }

  /** Lines 12-19 of demo_grid.py: the rollout takes at most `budget` steps,
      each from where the last one ended, each with the greedy action, and
      stops early only after a done step. */
  lemma {:induction false} RolloutShape(env: Env, ag: Agent, s: int, i: nat, budget: nat)
    requires Valid(env) && At(env, s) && Fits(ag, env)
    ensures var r := GreedyRun(env, ag, s, i, budget);
      r.Ok? ==> Rolled(env, ag, s, i, budget, r.value)
    decreases budget - i
  {
    AtState(env, s);
    if i < budget && GreedyStep(env, ag, s).Ok? && !GreedyStep(env, ag, s).value.t.done {
      var st := GreedyStep(env, ag, s);
      var rest := GreedyRun(st.value.env, ag, st.value.t.next, i + 1, budget);
      RolloutShape(st.value.env, ag, st.value.t.next, i + 1, budget);
      if rest.Ok? {
        RunUnfold(env, ag, s, i, budget);
        ConsRolled(env, ag, st.value, s, i, budget, rest.value);
      }
    } else {
      EndRolled(env, ag, s, i, budget);
    }
  }

  /** A rollout that stops at once, raises, or ends after one done step. */
  lemma EndRolled(env: Env, ag: Agent, s: int, i: nat, budget: nat)
    requires Valid(env) && At(env, s) && Fits(ag, env) && 0 <= s < NStates(env)
    requires i < budget ==> GreedyStep(env, ag, s).Err? || GreedyStep(env, ag, s).value.t.done
    ensures var r := GreedyRun(env, ag, s, i, budget);
      r.Ok? ==> Rolled(env, ag, s, i, budget, r.value)
  {
    if i < budget {
      var st := GreedyStep(env, ag, s);
      if st.Ok? {
        assert GreedyRun(env, ag, s, i, budget) == Ok(Rollout(st.value.env, [st.value.t]));
        SingleRolled(env, ag, s, i, budget, st.value);
      }
    }
  }

  /** One done greedy step is a rolled rollout. */
  lemma SingleRolled(env: Env, ag: Agent, s: int, i: nat, budget: nat, st: Stepped)
    requires Valid(env) && Fits(ag, env) && i < budget
    requires GoodStep(env, ag, s, st) && st.t.done
    ensures Rolled(env, ag, s, i, budget, Rollout(st.env, [st.t]))
  {
    OneStep(env, ag, st.t, s);
  }

  lemma OneStep(env: Env, ag: Agent, t: Transition, s: int)
    requires Valid(env) && Fits(ag, env) && t.s == s && Taken(env, ag, t)
    ensures Chained([t], s) && Last([t]) == t
    ensures forall j :: 0 <= j < |[t]| ==> Taken(env, ag, [t][j])
  {
  }

  /** One unfolding of a rollout whose first step succeeds and is not done. */
  lemma RunUnfold(env: Env, ag: Agent, s: int, i: nat, budget: nat)
    requires Valid(env) && At(env, s) && Fits(ag, env) && 0 <= s < NStates(env) && i < budget
    requires GreedyStep(env, ag, s).Ok? && !GreedyStep(env, ag, s).value.t.done
    ensures var st := GreedyStep(env, ag, s).value;
      var rest := GreedyRun(st.env, ag, st.t.next, i + 1, budget);
      rest.Ok? ==>
        GreedyRun(env, ag, s, i, budget) == Ok(Rollout(rest.value.env, [st.t] + rest.value.trace))
  {
  }

  /** A greedy step that is not done, in front of a rolled rest, is a rolled
      rollout. */
  lemma ConsRolled(env: Env, ag: Agent, st: Stepped, s: int, i: nat, budget: nat, rest: Rollout)
    requires Valid(env) && Fits(ag, env) && i < budget
    requires GoodStep(env, ag, s, st) && !st.t.done
    requires Rolled(st.env, ag, st.t.next, i + 1, budget, rest)
    ensures Rolled(env, ag, s, i, budget, Rollout(rest.env, [st.t] + rest.trace))
  {
    var trace := [st.t] + rest.trace;
    ChainCons(st.t, rest.trace, s);
    if |rest.trace| > 0 {
      assert Last(trace) == Last(rest.trace);
    }
    forall j | 0 <= j < |trace|
      ensures Taken(env, ag, trace[j])
    {
      if j > 0 {
        assert trace[j] == rest.trace[j - 1];
        TakenConfig(env, st.env, ag, trace[j]);
      }
    }
  }

  /** Every state has a valid action (no open cell is walled in): the rollout
      never raises. */
  lemma {:induction false} RolloutSucceeds(env: Env, ag: Agent, s: int, i: nat, budget: nat)
    requires Valid(env) && At(env, s) && Fits(ag, env) && NoDeadEnd(env)
    ensures GreedyRun(env, ag, s, i, budget).Ok?
    decreases budget - i
  {
    AtState(env, s);
    if i < budget {
      var st := GreedyStep(env, ag, s);
      if st.Ok? && !st.value.t.done {
        var next := st.value.env;
        DeadEndConfig(env, next);
        RolloutSucceeds(next, ag, st.value.t.next, i + 1, budget);
      }
    }
  }

  /** Every state has a valid action: no open cell is walled in. */
  predicate NoDeadEnd(env: Env)
    requires Valid(env)
  {
    forall x :: 0 <= x < NStates(env) ==> |ValidActions(env, x)| > 0
  }

  lemma DeadEndConfig(env: Env, other: Env)
    requires Valid(env) && SameConfig(env, other)
    ensures Valid(other) && (NoDeadEnd(env) <==> NoDeadEnd(other))
  {
    SameCounts(env, other);
    forall x | 0 <= x < NStates(env)
      ensures ValidActions(env, x) == ValidActions(other, x)
    {
      ValidActionsConfig(env, other, x);
    }
  }

  /** Rolled reads only the configuration of the environment it names. */
  lemma RolledConfig(env: Env, other: Env, ag: Agent, s: int, i: nat, budget: nat, ro: Rollout)
    requires Valid(env) && Fits(ag, env) && SameConfig(env, other)
    requires Rolled(env, ag, s, i, budget, ro)
    ensures Valid(other) && Fits(ag, other) && Rolled(other, ag, s, i, budget, ro)
  {
    SameCounts(env, other);
    forall j | 0 <= j < |ro.trace|
      ensures Taken(other, ag, ro.trace[j])
    {
      TakenConfig(env, other, ag, ro.trace[j]);
    }
  }

  /** Lines 8-19 of demo_grid.py and 150-172 of visualization/app.py: reset,
      then the greedy loop from iteration 0. It raises only on a state with no
      valid action, and never when there is none. */
  function GreedyFromReset(env: Env, ag: Agent, budget: nat): (r: Result<Rollout>)
    requires Valid(env) && Fits(ag, env)
    ensures r.Err? ==> r.error == EmptyValidActions
    ensures NoDeadEnd(env) ==> r.Ok?
    ensures r.Ok? ==> Rolled(env, ag, StartState(env), 0, budget, r.value)
  {
    ResetReady(env);
    var start := Reset(env);
    var s := start.result.value;
    SameCounts(env, start.env);
    DeadEndConfig(env, start.env);
    var run := GreedyRun(start.env, ag, s, 0, budget);
    RolloutShape(start.env, ag, s, 0, budget);
    SameConfigSym(env, start.env);
    if run.Ok? then
      RolledConfig(start.env, env, ag, s, 0, budget, run.value);
      run
    else if NoDeadEnd(env) then
      RolloutSucceeds(start.env, ag, s, 0, budget);
      run
    else run
  }
}
