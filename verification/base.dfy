/** Vocabulary shared by every module: optional values, results that carry the
    error the Python code would raise, grid coordinates, and the typed record an
    environment step returns in place of the loosely typed `info` dictionary. */
module Base {

  datatype Option<T> = None | Some(value: T)

  /** One constructor per exception the modelled code raises. */
  datatype Error =
    | StartOrGoalOnWall  // ValueError: start or goal coordinate is a wall
    | NotSquare          // assertion: the reward matrix is not square
    | NotReset           // step() before the first reset()
    | InvalidAction      // action outside the environment's action range
    | UnknownCoord       // coord_to_state lookup of a cell that is no state
    | StateOutOfRange    // reward-matrix row lookup with an out-of-range state
    | EmptyValidActions  // argmax over an empty selection of actions
    | BadFormat          // coordinate text does not split into two parts
    | NotAnInteger       // int() of a text that is no decimal integer

  datatype Result<T> = Ok(value: T) | Err(error: Error)

  /** An environment after a call, holding whatever the call changed before it
      returned or raised, together with the returned value or the error. */
  datatype After<E, T> = After(env: E, result: Result<T>)

  /** (row, column) */
  type Coord = (int, int)

  /** What a step reports besides the next state, reward and done flag: the
      warehouse reports nothing, the grid its coordinate, step count and the
      bottleneck level of the cell it moved onto. */
  datatype Info = NoInfo | GridInfo(coord: Coord, steps: int, level: int)

  datatype StepOut = StepOut(next: int, reward: real, done: bool, info: Info)

  /** Left-to-right sum, as a Python `total += x` loop computes it. */
  function Sum(xs: seq<real>): real
  {
    if |xs| == 0 then 0.0 else Sum(xs[..|xs| - 1]) + xs[|xs| - 1]
  }

  /** A total over a concatenation is the sum of the two totals. */
  lemma {:induction false} SumAppend(xs: seq<real>, ys: seq<real>)
    ensures Sum(xs + ys) == Sum(xs) + Sum(ys)
  {
    if |ys| == 0 {
      assert xs + ys == xs;
    } else {
      var init := ys[..|ys| - 1];
      assert (xs + ys)[..|xs + ys| - 1] == xs + init;
      SumAppend(xs, init);
    }
  }

  predicate Distinct<T(==)>(xs: seq<T>)
  {
    forall i, j :: 0 <= i < j < |xs| ==> xs[i] != xs[j]
  }

  function Elements<T(==)>(xs: seq<T>): set<T>
  {
    set x | x in xs
  }

  /** A list without repetitions has as many elements as its set. */
  lemma {:induction false} DistinctCard<T>(xs: seq<T>)
    requires Distinct(xs)
    ensures |Elements(xs)| == |xs|
  {
    if |xs| > 0 {
      var init := xs[..|xs| - 1];
      var last := xs[|xs| - 1];
      assert Distinct(init);
      DistinctCard(init);
      assert forall i :: 0 <= i < |init| ==> init[i] != last;
      assert last !in Elements(init);
      assert Elements(xs) == Elements(init) + {last} by {
        assert xs == init + [last];
      }
    }
  }
}
