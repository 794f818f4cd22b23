/** QLearningAgent of q_learning/agent.py: a tabular Q-learner with
    epsilon-greedy exploration over the valid actions, the temporal-difference
    update and a geometric epsilon decay with a floor. The two random numbers
    of choose_action are parameters. */
module QLearning {
  import opened Base

  datatype Agent = Agent(
    q: seq<seq<real>>,
    alpha: real,
    gamma: real,
    epsilon: real,
    epsilonMin: real,
    epsilonDecay: real)

  /** The table has one row per state and one column per action. */
  predicate Shaped(ag: Agent, nStates: nat, nActions: nat)
  {
    |ag.q| == nStates && forall s :: 0 <= s < nStates ==> |ag.q[s]| == nActions
  }

  /** Every listed action is a column of the table. */
  predicate Columns(ag: Agent, s: int, actions: seq<int>)
  {
    0 <= s < |ag.q| && forall k :: 0 <= k < |actions| ==> 0 <= actions[k] < |ag.q[s]|
  }

  /** (s, a) is a cell of the table. */
  predicate Cell(ag: Agent, s: int, a: int)
  {
    0 <= s < |ag.q| && 0 <= a < |ag.q[s]|
  }

  /** The constructor's learning and exploration parameters, as the drivers
      pass them. */
  datatype Params = Params(alpha: real, gamma: real, epsStart: real, epsMin: real, epsDecay: real)

  /** Lines 5-13: a zero table and epsilon at its start value. */
  function New(nStates: nat, nActions: nat, alpha: real, gamma: real,
               epsilonStart: real, epsilonMin: real, epsilonDecay: real): (ag: Agent)
    ensures Shaped(ag, nStates, nActions)
    ensures forall s, a :: 0 <= s < nStates && 0 <= a < nActions ==> ag.q[s][a] == 0.0
    ensures ag.epsilon == epsilonStart
    ensures ag.alpha == alpha && ag.gamma == gamma
    ensures ag.epsilonMin == epsilonMin && ag.epsilonDecay == epsilonDecay
  {
    Agent(seq(nStates, _ => seq(nActions, _ => 0.0)), alpha, gamma, epsilonStart, epsilonMin, epsilonDecay)
  }

  /** Q[state, actions]: the row's values at the listed columns. */
  function Gather(ag: Agent, s: int, actions: seq<int>): (vals: seq<real>)
    requires Columns(ag, s, actions)
    ensures |vals| == |actions|
    ensures forall k :: 0 <= k < |actions| ==> vals[k] == ag.q[s][actions[k]]
  {
    seq(|actions|, k requires 0 <= k < |actions| => ag.q[s][actions[k]])
  }

  /** np.argmax: the first position of the largest value, found by a left to
      right scan that only moves on a strictly larger value. */
  function ArgMax(xs: seq<real>): (i: nat)
    requires |xs| > 0
    ensures i < |xs|
    ensures forall j :: 0 <= j < |xs| ==> xs[j] <= xs[i]
    ensures forall j :: 0 <= j < i ==> xs[j] < xs[i]
  {
    if |xs| == 1 then 0
    else
      var best := ArgMax(xs[..|xs| - 1]);
      if xs[|xs| - 1] > xs[best] then |xs| - 1 else best
  }

  /** np.max */
  function Max(xs: seq<real>): (m: real)
    requires |xs| > 0
    ensures m in xs
    ensures forall j :: 0 <= j < |xs| ==> xs[j] <= m
  {
    xs[ArgMax(xs)]
  }

  /** Lines 23-26: the valid action with the largest Q value, the first one
      in list order on a tie; argmax of an empty selection raises. */
  function PredictAction(ag: Agent, s: int, valid: seq<int>): (r: Result<int>)
    requires Columns(ag, s, valid)
    ensures r.Err? <==> |valid| == 0
    ensures r.Err? ==> r.error == EmptyValidActions
    ensures r.Ok? ==> exists k :: 0 <= k < |valid| && valid[k] == r.value
                       && (forall j :: 0 <= j < |valid| ==> ag.q[s][valid[j]] <= ag.q[s][r.value])
                       && (forall j :: 0 <= j < k ==> ag.q[s][valid[j]] < ag.q[s][r.value])
  {
    if |valid| == 0 then Err(EmptyValidActions)
    else
      var k := ArgMax(Gather(ag, s, valid));
      Ok(valid[k])
  }

  /** Lines 15-21: 0 when nothing is valid; otherwise with draw u below
      epsilon the pick-th valid action (np.random.choice), else the greedy one. */
  function ChooseAction(ag: Agent, s: int, valid: seq<int>, u: real, pick: nat): (a: int)
    requires Columns(ag, s, valid)
    ensures |valid| == 0 ==> a == 0
    ensures |valid| > 0 ==> a in valid
    ensures |valid| > 0 && u < ag.epsilon ==> a == valid[pick % |valid|]
    ensures |valid| > 0 && u >= ag.epsilon ==> PredictAction(ag, s, valid) == Ok(a)
  {
    if |valid| == 0 then 0
    else if u < ag.epsilon then valid[pick % |valid|]
    else PredictAction(ag, s, valid).value
  }

  /** With epsilon at most 0 a draw from [0, 1) never explores. */
  lemma ChooseGreedy(ag: Agent, s: int, valid: seq<int>, u: real, pick: nat)
    requires Columns(ag, s, valid) && |valid| > 0
    requires 0.0 <= u && ag.epsilon <= 0.0
    ensures PredictAction(ag, s, valid) == Ok(ChooseAction(ag, s, valid, u, pick))
  {
  }

  /** With epsilon at least 1 a draw from [0, 1) always explores. */
  lemma ChooseExplores(ag: Agent, s: int, valid: seq<int>, u: real, pick: nat)
    requires Columns(ag, s, valid) && |valid| > 0
    requires u < 1.0 <= ag.epsilon
    ensures ChooseAction(ag, s, valid, u, pick) == valid[pick % |valid|]
  {
  }

  /** best_next: the largest Q value of s_next over its valid actions, 0 when
      there are none. */
  function BestNext(ag: Agent, sNext: int, validNext: seq<int>): (b: real)
    requires Columns(ag, sNext, validNext)
    ensures |validNext| == 0 ==> b == 0.0
    ensures |validNext| > 0 ==>
      (exists k :: 0 <= k < |validNext| && b == ag.q[sNext][validNext[k]])
      && forall k :: 0 <= k < |validNext| ==> ag.q[sNext][validNext[k]] <= b
  {
    if |validNext| == 0 then 0.0 else Max(Gather(ag, sNext, validNext))
  }

  /** r + gamma * best_next */
  function Target(ag: Agent, r: real, sNext: int, validNext: seq<int>): real
    requires Columns(ag, sNext, validNext)
  {
    r + ag.gamma * BestNext(ag, sNext, validNext)
  }

  /** Lines 28-34: Q[s, a] moves by alpha times the temporal-difference error;
      best_next is read before the write. */
  function Update(ag: Agent, s: int, a: int, r: real, sNext: int, validNext: seq<int>): (ag': Agent)
    requires Cell(ag, s, a) && Columns(ag, sNext, validNext)
    ensures |ag'.q| == |ag.q| && forall i :: 0 <= i < |ag.q| ==> |ag'.q[i]| == |ag.q[i]|
    ensures forall i, j :: 0 <= i < |ag.q| && 0 <= j < |ag.q[i]| && (i, j) != (s, a) ==> ag'.q[i][j] == ag.q[i][j]
    ensures ag'.q[s][a] - ag.q[s][a] == ag.alpha * (Target(ag, r, sNext, validNext) - ag.q[s][a])
    ensures ag' == ag.(q := ag'.q)
  {
    var cur := ag.q[s][a];
    var td := Target(ag, r, sNext, validNext) - cur;
    ag.(q := ag.q[s := ag.q[s][a := cur + ag.alpha * td]])
  }

  /** Lines 32-34: with 0 < alpha <= 1 the new value lies between the old one
      and the target, and alpha = 1 replaces it by the target. */
  lemma UpdateMovesToward(ag: Agent, s: int, a: int, r: real, sNext: int, validNext: seq<int>)
    requires Cell(ag, s, a) && Columns(ag, sNext, validNext)
    requires 0.0 < ag.alpha <= 1.0
    ensures var v := Update(ag, s, a, r, sNext, validNext).q[s][a];
      var t := Target(ag, r, sNext, validNext);
      var o := ag.q[s][a];
      (o <= t ==> o <= v <= t) && (t <= o ==> t <= v <= o)
    ensures ag.alpha == 1.0 ==> Update(ag, s, a, r, sNext, validNext).q[s][a] == Target(ag, r, sNext, validNext)
  {
    var t := Target(ag, r, sNext, validNext);
    var o := ag.q[s][a];
    var v := Update(ag, s, a, r, sNext, validNext).q[s][a];
    Between(o, t, v, ag.alpha);
  }

  /** v = o + x * (t - o) lies between o and t for x in (0, 1], and is t for
      x = 1. */
  lemma Between(o: real, t: real, v: real, x: real)
    requires 0.0 < x <= 1.0 && v - o == x * (t - o)
    ensures (o <= t ==> o <= v <= t) && (t <= o ==> t <= v <= o)
    ensures x == 1.0 ==> v == t
  {
    if o <= t {
      Rise(o, t, v, x);
    }
    if t <= o {
      Fall(o, t, v, x);
    }
    if x == 1.0 {
      Unit(x, t - o);
    }
  }

  /** 1 * y == y */
  lemma Unit(x: real, y: real)
    requires x == 1.0
    ensures x * y == y
  {
  }

  lemma Rise(o: real, t: real, v: real, x: real)
    requires 0.0 <= x <= 1.0 && o <= t && v - o == x * (t - o)
    ensures o <= v <= t
  {
    var d := t - o;
    Shrink(x, d);
    assert v - o == x * d;
  }

  lemma Fall(o: real, t: real, v: real, x: real)
    requires 0.0 <= x <= 1.0 && t <= o && v - o == x * (t - o)
    ensures t <= v <= o
  {
    var d := o - t;
    Shrink(x, d);
    Flip(x, d);
    assert v - o == -(x * d);
  }

  /** A factor from [0, 1] shrinks a non-negative value. */
  lemma Shrink(x: real, y: real)
    requires 0.0 <= x <= 1.0 && y >= 0.0
    ensures 0.0 <= x * y
    ensures x * y <= y
  {
    assert y - x * y == (1.0 - x) * y;
  }

  /** x * -y == -(x * y) */
  lemma Flip(x: real, y: real)
    ensures x * -y == -(x * y)
  {
  }

  /** Python's max(a, b): a unless b is larger. */
  function Larger(a: real, b: real): real
  {
    if b > a then b else a
  }

  /** One decay of x by factor d with floor m. */
  function Decayed(m: real, d: real, x: real): real
  {
    Larger(m, x * d)
  }

  /** Lines 36-37: epsilon times the decay, but never below the floor. */
  function DecayEpsilon(ag: Agent): (ag': Agent)
    ensures ag'.epsilon >= ag.epsilonMin
    ensures ag' == ag.(epsilon := ag'.epsilon)
  {
    ag.(epsilon := Decayed(ag.epsilonMin, ag.epsilonDecay, ag.epsilon))
  }

  /** The decayed epsilon is the larger of the floor and epsilon * decay. */
  lemma DecayIsMax(ag: Agent)
    ensures DecayEpsilon(ag).epsilon >= ag.epsilon * ag.epsilonDecay
    ensures DecayEpsilon(ag).epsilon == ag.epsilonMin || DecayEpsilon(ag).epsilon == ag.epsilon * ag.epsilonDecay
  {
  }

  /** A decay never raises an epsilon at or above the floor, and lifts one
      below the floor to the floor. */
  lemma DecayBounds(ag: Agent)
    requires 0.0 <= ag.epsilonDecay <= 1.0
    ensures ag.epsilon >= ag.epsilonMin && ag.epsilon >= 0.0 ==> DecayEpsilon(ag).epsilon <= ag.epsilon
    ensures ag.epsilon < ag.epsilonMin && ag.epsilon >= 0.0 ==> DecayEpsilon(ag).epsilon == ag.epsilonMin
  {
    if ag.epsilon >= 0.0 {
      assert ag.epsilon * ag.epsilonDecay <= ag.epsilon;
    }
  }

  /** n decays in a row. */
  function DecayTimes(ag: Agent, n: nat): (ag': Agent)
    ensures ag' == ag.(epsilon := ag'.epsilon)
  {
    if n == 0 then ag else DecayEpsilon(DecayTimes(ag, n - 1))
  }

  function Pow(x: real, n: nat): real
  {
    if n == 0 then 1.0 else Pow(x, n - 1) * x
  }

  /** e multiplied n times by d. */
  function Scaled(e: real, d: real, n: nat): real
  {
    if n == 0 then e else Scaled(e, d, n - 1) * d
  }

  lemma {:induction false} ScaledPow(e: real, d: real, n: nat)
    ensures Scaled(e, d, n) == e * Pow(d, n)
  {
    if n > 0 {
      ScaledPow(e, d, n - 1);
      assert e * (Pow(d, n - 1) * d) == (e * Pow(d, n - 1)) * d;
    }
  }

  /** One more decay of a floored value: flooring first changes nothing. */
  lemma FloorThenDecay(m: real, d: real, p: real, floored: real)
    requires 0.0 <= d <= 1.0 && m >= 0.0
    requires floored == Larger(m, p)
    ensures Decayed(m, d, floored) == Decayed(m, d, p)
  {
    if p < m {
      assert floored == m;
      Shrink(d, m);
      assert Larger(m, m * d) == m;
      if p >= 0.0 {
        Shrink(d, p);
      } else {
        Shrink(d, -p);
        assert p * d == -(d * -p);
      }
      assert p * d <= m;
    }
  }

  /** Line 37 iterated n times on epsilon alone. */
  function Iterate(e: real, m: real, d: real, n: nat): real
  {
    if n == 0 then e else Decayed(m, d, Iterate(e, m, d, n - 1))
  }

  lemma {:induction false} DecayTimesIterate(ag: Agent, n: nat)
    ensures DecayTimes(ag, n).epsilon == Iterate(ag.epsilon, ag.epsilonMin, ag.epsilonDecay, n)
  {
    if n > 0 {
      DecayTimesIterate(ag, n - 1);
    }
  }

  /** Decaying once and then r - 1 more times is decaying r times. */
  lemma {:induction false} IterateShift(e: real, m: real, d: real, r: nat)
    requires r >= 1
    ensures Iterate(Iterate(e, m, d, 1), m, d, r - 1) == Iterate(e, m, d, r)
  {
    if r > 1 {
      IterateShift(e, m, d, r - 1);
    }
  }

  /** One more step of the recurrence keeps it equal to the floored scaling. */
  lemma IterateStep(e: real, m: real, d: real, n: nat)
    requires 0.0 <= d <= 1.0 && m >= 0.0 && n >= 1
    requires Iterate(e, m, d, n - 1) == Larger(m, Scaled(e, d, n - 1))
    ensures Iterate(e, m, d, n) == Larger(m, Scaled(e, d, n))
  {
    var prev := Scaled(e, d, n - 1);
    var it := Iterate(e, m, d, n - 1);
    assert Iterate(e, m, d, n) == Decayed(m, d, it);
    assert Scaled(e, d, n) == prev * d;
    FloorThenDecay(m, d, prev, it);
    assert Decayed(m, d, prev) == Larger(m, Scaled(e, d, n));
  }

  lemma {:induction false} IterateScaled(e: real, m: real, d: real, n: nat)
    requires 0.0 <= d <= 1.0 && m >= 0.0
    requires n >= 1 || e >= m
    ensures Iterate(e, m, d, n) == Larger(m, Scaled(e, d, n))
  {
    if n == 0 {
      assert Scaled(e, d, 0) == e;
    } else if n == 1 {
      assert Iterate(e, m, d, 1) == Decayed(m, d, e);
      assert Scaled(e, d, 1) == e * d;
    } else {
      IterateScaled(e, m, d, n - 1);
      IterateStep(e, m, d, n);
    }
  }

  lemma IteratePow(e: real, m: real, d: real, n: nat)
    requires 0.0 <= d <= 1.0 && m >= 0.0
    requires n >= 1 || e >= m
    ensures Iterate(e, m, d, n) == Larger(m, e * Pow(d, n))
  {
    IterateScaled(e, m, d, n);
    ScaledPow(e, d, n);
  }

  /** Closed form of line 37 iterated: n decays from e leave
      max(epsilon_min, e * decay^n), once at least one decay happened or e
      starts at or above the floor. */
  lemma DecayClosedForm(ag: Agent, n: nat)
    requires 0.0 <= ag.epsilonDecay <= 1.0 && ag.epsilonMin >= 0.0
    requires n >= 1 || ag.epsilon >= ag.epsilonMin
    ensures DecayTimes(ag, n).epsilon == Larger(ag.epsilonMin, ag.epsilon * Pow(ag.epsilonDecay, n))
  {
    DecayTimesIterate(ag, n);
    IteratePow(ag.epsilon, ag.epsilonMin, ag.epsilonDecay, n);
  }
}
