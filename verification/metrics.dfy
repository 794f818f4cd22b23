/** The per-episode statistics the training loops record: the return
    (`total_r`), the step count appended to steps_to_goal, and for the grid
    world the bottleneck counter and the reached-goal flag. */
module Metrics {
  import opened Base
  import opened Episodes

  /** The rewards of a trace, in step order. */
  function Rewards(trace: seq<Transition>): (rs: seq<real>)
    ensures |rs| == |trace|
    ensures forall j :: 0 <= j < |trace| ==> rs[j] == trace[j].reward
  {
    seq(|trace|, j requires 0 <= j < |trace| => trace[j].reward)
  }

  /** `total_r += r` over the steps, starting from `total`. */
  function Accumulate(total: real, trace: seq<Transition>): real
    decreases |trace|
  {
    if |trace| == 0 then total else Accumulate(total + trace[0].reward, trace[1..])
  }

  /** total_r of an episode: 0.0 and one addition per step. */
  function Return(trace: seq<Transition>): real
  {
    Accumulate(0.0, trace)
  }

  /** The running total of the loop is the sum of the step rewards. */
  lemma {:induction false} AccumulateSum(total: real, trace: seq<Transition>)
    ensures Accumulate(total, trace) == total + Sum(Rewards(trace))
    decreases |trace|
  {
    if |trace| > 0 {
      AccumulateSum(total + trace[0].reward, trace[1..]);
      assert Rewards(trace) == [trace[0].reward] + Rewards(trace[1..]);
      SumAppend([trace[0].reward], Rewards(trace[1..]));
      assert Sum([trace[0].reward]) == Sum([]) + trace[0].reward by {
        assert [trace[0].reward][..0] == [];
      }
    }
  }

  /** Lines 25 and 30 of train.py: the return is the sum of the rewards step
      returned within the episode; it adds up over consecutive parts. */
  lemma ReturnIsSum(trace: seq<Transition>, more: seq<Transition>)
    ensures Return(trace) == Sum(Rewards(trace))
    ensures Return(trace + more) == Return(trace) + Return(more)
  {
    AccumulateSum(0.0, trace);
    AccumulateSum(0.0, more);
    AccumulateSum(0.0, trace + more);
    assert Rewards(trace + more) == Rewards(trace) + Rewards(more);
    SumAppend(Rewards(trace), Rewards(more));
  }

  /** Line 38 of train.py: episode_rewards, one return per episode, in order. */
  function Returns(episodes: seq<seq<Transition>>): (rs: seq<real>)
    ensures |rs| == |episodes|
  {
    seq(|episodes|, j requires 0 <= j < |episodes| => Return(episodes[j]))
  }

  /** One return per episode, each the sum of that episode's rewards. */
  lemma ReturnsAreSums(episodes: seq<seq<Transition>>)
    ensures |Returns(episodes)| == |episodes|
    ensures forall j :: 0 <= j < |episodes| ==> Returns(episodes)[j] == Sum(Rewards(episodes[j]))
  {
    forall j | 0 <= j < |episodes|
      ensures Returns(episodes)[j] == Sum(Rewards(episodes[j]))
    {
      ReturnIsSum(episodes[j], []);
    }
  }

  /** Lines 26-35 of train.py from loop index t: t + 1 of the first done
      step, or nothing when the loop runs out. */
  function Recorded(trace: seq<Transition>, t: nat): (r: Option<nat>)
    requires t <= |trace|
    decreases |trace| - t
  {
    if t == |trace| then None
    else if trace[t].done then Some(t + 1)
    else Recorded(trace, t + 1)
  }

  /** In a chained trace only the last step can be done, so the loop records
      the episode's length exactly when its last step is done. */
  lemma {:induction false} RecordedFrom(trace: seq<Transition>, s: int, t: nat)
    requires Chained(trace, s) && t <= |trace|
    ensures Recorded(trace, t) == if t < |trace| && Last(trace).done then Some(|trace|) else None
    decreases |trace| - t
  {
    if t < |trace| && !trace[t].done {
      RecordedFrom(trace, s, t + 1);
    }
  }

  /** Line 34 of train.py over all episodes: steps_to_goal. */
  function StepsToGoal(episodes: seq<seq<Transition>>): (steps: seq<nat>)
    ensures |steps| <= |episodes|
  {
    if |episodes| == 0 then []
    else
      var r := Recorded(episodes[0], 0);
      (if r.Some? then [r.value] else []) + StepsToGoal(episodes[1..])
  }

  /** Lines 15, 26 and 33-35 of train.py: each entry is a step count between 1
      and the loop budget, at most one per episode; when the budget reaches
      the environment's step cap every episode ends done, and the entries are
      exactly the episode lengths. */
  lemma {:induction false} StepsToGoalBounds(setup: Setup, budget: nat, episodes: seq<seq<Transition>>)
    requires AllPlayed(setup, budget, episodes)
    ensures forall j :: 0 <= j < |StepsToGoal(episodes)| ==> 1 <= StepsToGoal(episodes)[j] <= budget
    ensures 0 < budget && setup.cap <= budget ==>
      StepsToGoal(episodes) == seq(|episodes|, j requires 0 <= j < |episodes| => |episodes[j]|)
    decreases |episodes|
  {
    if |episodes| > 0 {
      var tail := episodes[1..];
      assert AllPlayed(setup, budget, tail) by {
        forall j | 0 <= j < |tail|
          ensures Played(setup, budget, tail[j])
        {
          assert tail[j] == episodes[j + 1];
        }
      }
      assert Played(setup, budget, episodes[0]);
      RecordedFrom(episodes[0], setup.start, 0);
      StepsToGoalBounds(setup, budget, tail);
    }
  }

  /** A step reports a cell that is a key of `bottlenecks`. */
  predicate OnBottleneck(bottlenecks: map<Coord, int>, t: Transition)
  {
    t.info.GridInfo? && t.info.coord in bottlenecks
  }

  /** Lines 66-67 of train_grid.py: bn_count, the steps whose reported cell
      is a bottleneck, counted step by step. */
  function BottleneckHits(bottlenecks: map<Coord, int>, trace: seq<Transition>): nat
  {
    if |trace| == 0 then 0
    else BottleneckHits(bottlenecks, trace[..|trace| - 1])
         + (if OnBottleneck(bottlenecks, trace[|trace| - 1]) then 1 else 0)
  }

  /** The positions of the steps that hit a bottleneck. */
  function HitSteps(bottlenecks: map<Coord, int>, trace: seq<Transition>): set<nat>
  {
    set j: nat | j < |trace| && OnBottleneck(bottlenecks, trace[j])
  }

  /** bn_count is the number of steps reporting a bottleneck cell, so it never
      exceeds the number of steps. */
  lemma {:induction false} BottleneckHitsCount(bottlenecks: map<Coord, int>, trace: seq<Transition>)
    ensures BottleneckHits(bottlenecks, trace) == |HitSteps(bottlenecks, trace)|
    ensures BottleneckHits(bottlenecks, trace) <= |trace|
  {
    if |trace| > 0 {
      var init := trace[..|trace| - 1];
      var last := |trace| - 1;
      BottleneckHitsCount(bottlenecks, init);
      var before := HitSteps(bottlenecks, init);
      assert forall j: nat :: j < |init| ==> init[j] == trace[j];
      if OnBottleneck(bottlenecks, trace[last]) {
        assert HitSteps(bottlenecks, trace) == before + {last};
      } else {
        assert HitSteps(bottlenecks, trace) == before;
      }
    }
  }

  /** Lines 72-73 and 82 of train_grid.py: 1 once some step reported the goal
      cell, else 0. */
  function GoalFlag(goal: Option<Coord>, trace: seq<Transition>): (flag: int)
    ensures flag == 0 || flag == 1
  {
    if |trace| == 0 then 0
    else if Lands(goal, trace[|trace| - 1]) then 1
    else GoalFlag(goal, trace[..|trace| - 1])
  }

  /** The flag is 1 exactly when some step reported the goal cell. */
  lemma {:induction false} GoalFlagIff(goal: Option<Coord>, trace: seq<Transition>)
    ensures GoalFlag(goal, trace) == 1 <==> exists j :: 0 <= j < |trace| && Lands(goal, trace[j])
  {
    if |trace| > 0 {
      var init := trace[..|trace| - 1];
      GoalFlagIff(goal, init);
      if exists j :: 0 <= j < |trace| && Lands(goal, trace[j]) {
        var j :| 0 <= j < |trace| && Lands(goal, trace[j]);
        if j < |init| {
          assert init[j] == trace[j];
        }
      }
      if exists j :: 0 <= j < |init| && Lands(goal, init[j]) {
        var j :| 0 <= j < |init| && Lands(goal, init[j]);
        assert trace[j] == init[j];
      }
    }
  }

  /** In a played episode only the last, done step can report the goal, so
      the flag says whether the episode ended on the goal cell. */
  lemma GoalFlagLast(setup: Setup, budget: nat, trace: seq<Transition>)
    requires Played(setup, budget, trace)
    ensures GoalFlag(setup.goal, trace) == 1 <==> |trace| > 0 && Lands(setup.goal, Last(trace)) && Last(trace).done
  {
    GoalFlagIff(setup.goal, trace);
  }
}
