/** greedy_path_from_Q of demo.py: the greedy walk through the warehouse's
    Q-table, where the action taken is the state moved to. The guard against
    self-loops in lines 12-15 picks the first maximizer, which is what argmax
    already picked, so it never changes the choice; the module models the code
    as written and, beside it, the guard as evidently intended. */
module Demo {
  import opened Base
  import opened QLearning
  import RewardMatrix

  /** A Q-table whose rows and columns are both the n states, as in the
      warehouse, where action a moves to state a. */
  predicate Square(q: seq<seq<real>>)
  {
    |q| > 0 && forall s :: 0 <= s < |q| ==> |q[s]| == |q|
  }

  /** The first column of `row` other than `s` that holds `m`, from column k. */
  function FirstOther(row: seq<real>, s: int, m: real, k: nat): (r: Option<nat>)
    requires k <= |row|
    ensures r.Some? ==> k <= r.value < |row| && r.value != s && row[r.value] == m
    ensures r.Some? ==> forall j :: k <= j < r.value && j != s ==> row[j] != m
    ensures r.None? ==> forall j :: k <= j < |row| && j != s ==> row[j] != m
    decreases |row| - k
  {
    if k == |row| then None
    else if k != s && row[k] == m then Some(k)
    else FirstOther(row, s, m, k + 1)
  }

  /** Which reading of the guard a walk follows. */
  datatype Guard = AsWritten | Intended

  /** Lines 11-15 as written: argmax, and when that is the current state the
      first column holding the row's maximum. */
  function WrittenChoice(row: seq<real>, s: int): nat
    requires |row| > 0
  {
    var a := ArgMax(row);
    if a == s then FirstOther(row, -1, Max(row), 0).value else a
  }

  /** The guard as evidently intended: when argmax is the current state, move
      to the first other column that ties for the maximum, and stay only when
      none does. */
  function IntendedChoice(row: seq<real>, s: int): nat
    requires |row| > 0
  {
    var a := ArgMax(row);
    if a != s then a
    else
      var other := FirstOther(row, s, Max(row), 0);
      if other.Some? then other.value else a
  }

  function Choose(guard: Guard, row: seq<real>, s: int): (a: nat)
    requires |row| > 0
    ensures a < |row| && row[a] == Max(row)
  {
    MaxIsArgMax(row);
    match guard
    case AsWritten => WrittenChoice(row, s)
    case Intended => IntendedChoice(row, s)
  }

  /** argmax picks a column holding the row's maximum. */
  lemma MaxIsArgMax(row: seq<real>)
    requires |row| > 0
    ensures row[ArgMax(row)] == Max(row)
  {
  }

  /** The guard of lines 12-15 never changes argmax's choice: the first column
      holding the maximum is argmax itself. */
  lemma GuardIsNoOp(row: seq<real>, s: int)
    requires |row| > 0
    ensures WrittenChoice(row, s) == ArgMax(row)
  {
    var a := ArgMax(row);
    MaxIsArgMax(row);
    if a == s {
      var f := FirstOther(row, -1, Max(row), 0);
      assert f.Some? by {
        assert row[a] == Max(row);
      }
      assert !(f.value < a);
      assert !(a < f.value);
    }
  }

  /** Column s holds more than every other column of the row. */
  predicate StrictBest(row: seq<real>, s: int)
  {
    0 <= s < |row| && forall j :: 0 <= j < |row| && j != s ==> row[j] < row[s]
  }

  /** The corrected guard stays on s only when s is the strict unique best
      column, and otherwise leaves s for a best column. */
  lemma IntendedLeaves(row: seq<real>, s: int)
    requires |row| > 0
    ensures IntendedChoice(row, s) == s <==> StrictBest(row, s)
  {
    var a := ArgMax(row);
    MaxIsArgMax(row);
    if a == s {
      var other := FirstOther(row, s, Max(row), 0);
      if other.None? {
        forall j | 0 <= j < |row| && j != s
          ensures row[j] < row[s]
        {
          assert row[j] != Max(row);
        }
      }
    } else if 0 <= s < |row| {
      assert row[a] == Max(row) && a != s;
    }
  }

  /** Lines 10-19 after the start: one state per hop, stopping after the goal
      or when the hops run out. */
  function Hops(guard: Guard, q: seq<seq<real>>, s: nat, goal: int, hops: nat): (p: seq<nat>)
    requires Square(q) && s < |q|
    ensures |p| <= hops && (hops > 0 ==> |p| > 0)
    ensures forall k :: 0 <= k < |p| ==> p[k] < |q|
    ensures |p| > 0 ==> p[0] == Choose(guard, q[s], s)
    ensures forall k :: 0 <= k < |p| - 1 ==> p[k + 1] == Choose(guard, q[p[k]], p[k])
    ensures forall k :: 0 <= k < |p| - 1 ==> p[k] != goal
    ensures |p| < hops ==> |p| > 0 && p[|p| - 1] == goal
    decreases hops
  {
    if hops == 0 then []
    else
      var a := Choose(guard, q[s], s);
      if a == goal then [a] else [a] + Hops(guard, q, a, goal, hops - 1)
  }

  /** greedy_path_from_Q as written. */
  function GreedyPathFromQ(q: seq<seq<real>>, start: nat, goal: int, maxHops: nat): (path: seq<nat>)
    requires Square(q) && start < |q|
    ensures 1 <= |path| <= maxHops + 1 && path[0] == start
    ensures forall k :: 0 <= k < |path| ==> path[k] < |q|
  {
    [start] + Hops(AsWritten, q, start, goal, maxHops)
  }

  /** greedy_path_from_Q with the guard as intended. */
  function IntendedPath(q: seq<seq<real>>, start: nat, goal: int, maxHops: nat): (path: seq<nat>)
    requires Square(q) && start < |q|
    ensures 1 <= |path| <= maxHops + 1 && path[0] == start
    ensures forall k :: 0 <= k < |path| ==> path[k] < |q|
  {
    [start] + Hops(Intended, q, start, goal, maxHops)
  }

  /** Each hop of the path as written moves to argmax of the current row;
      after the start, the goal can only be the last state; a path shorter
      than max_hops + 1 ends on the goal. */
  lemma PathIsArgMax(q: seq<seq<real>>, start: nat, goal: int, maxHops: nat)
    requires Square(q) && start < |q|
    ensures var path := GreedyPathFromQ(q, start, goal, maxHops);
      && (forall k :: 0 <= k < |path| - 1 ==> path[k + 1] == ArgMax(q[path[k]]))
      && (forall k :: 1 <= k < |path| - 1 ==> path[k] != goal)
      && (|path| < maxHops + 1 ==> path[|path| - 1] == goal)
  {
    var path := GreedyPathFromQ(q, start, goal, maxHops);
    var p := Hops(AsWritten, q, start, goal, maxHops);
    forall k | 0 <= k < |path| - 1
      ensures path[k + 1] == ArgMax(q[path[k]])
    {
      GuardIsNoOp(q[path[k]], path[k]);
      if k > 0 {
        assert path[k] == p[k - 1] && path[k + 1] == p[k];
      }
    }
  }

  /** Once argmax of a state other than the goal is that state itself, the
      path as written stays there for every remaining hop. */
  lemma {:induction false} SelfLoopSticks(q: seq<seq<real>>, s: nat, goal: int, hops: nat)
    requires Square(q) && s < |q| && s != goal && ArgMax(q[s]) == s
    ensures Hops(AsWritten, q, s, goal, hops) == seq(hops, k => s)
    decreases hops
  {
    if hops > 0 {
      GuardIsNoOp(q[s], s);
      SelfLoopSticks(q, s, goal, hops - 1);
    }
  }

  /** On an all-zero 2x2 table from state 0 towards goal 1 with 3 hops, the
      guard as written leaves the walk on state 0 throughout. */
  lemma WrittenGuardLoops()
    ensures GreedyPathFromQ(RewardMatrix.Zeros(2), 0, 1, 3) == [0, 0, 0, 0]
  {
    var q := RewardMatrix.Zeros(2);
    assert ArgMax(q[0]) == 0;
    SelfLoopSticks(q, 0, 1, 3);
  }

  /** The same table with the guard as intended: the tie is broken towards
      the other state, which is the goal. */
  lemma IntendedGuardMoves()
    ensures IntendedPath(RewardMatrix.Zeros(2), 0, 1, 3) == [0, 1]
  {
    var q := RewardMatrix.Zeros(2);
    assert ArgMax(q[0]) == 0;
    assert FirstOther(q[0], 0, Max(q[0]), 0) == Some(1);
  }

  /** With the guard as intended a hop stays on its state only when that
      state is its row's strict best column. */
  lemma IntendedPathLeaves(q: seq<seq<real>>, start: nat, goal: int, maxHops: nat)
    requires Square(q) && start < |q|
    ensures var path := IntendedPath(q, start, goal, maxHops);
      forall k :: 0 <= k < |path| - 1 && path[k + 1] == path[k] ==> StrictBest(q[path[k]], path[k])
  {
    var path := IntendedPath(q, start, goal, maxHops);
    var p := Hops(Intended, q, start, goal, maxHops);
    forall k | 0 <= k < |path| - 1 && path[k + 1] == path[k]
      ensures StrictBest(q[path[k]], path[k])
    {
      if k > 0 {
        assert path[k] == p[k - 1] && path[k + 1] == p[k];
      }
      IntendedLeaves(q[path[k]], path[k]);
    }
  }
}
