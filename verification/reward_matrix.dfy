/** build_reward_matrix of warehouse/reward_matrix.py: the fixed 12-node
    warehouse graph, 1 on both directions of every listed edge, and every
    positive entry of the goal column raised to 1000. */
module RewardMatrix {
  import opened Base
  import opened GridMaps

  const Size: nat := 12
  const GoalNode: nat := 11
  const GoalBonus: real := 1000.0

  /** The undirected edges in the order the loop writes them. */
  const Edges: seq<(int, int)> := [
    (0, 1), (1, 2), (2, 3),
    (3, 7), (7, 11),
    (1, 5), (5, 6), (6, 10),
    (2, 6), (3, 4), (4, 8), (8, 9), (9, 10), (10, 11)]

  predicate Table(m: seq<seq<real>>, n: nat)
  {
    |m| == n && forall i :: 0 <= i < n ==> |m[i]| == n
  }

  /** np.zeros((n, n)) */
  function Zeros(n: nat): (m: seq<seq<real>>)
    ensures Table(m, n)
    ensures forall i, j :: 0 <= i < n && 0 <= j < n ==> m[i][j] == 0.0
  {
    seq(n, _ => seq(n, _ => 0.0))
  }

  /** R[i, j] = v */
  function Set(m: seq<seq<real>>, i: int, j: int, v: real): seq<seq<real>>
    requires 0 <= i < |m| && 0 <= j < |m[i]|
  {
    m[i := m[i][j := v]]
  }

  /** Nodes i and j share a listed edge, in either direction. */
  predicate Linked(edges: seq<(int, int)>, i: int, j: int)
  {
    (i, j) in edges || (j, i) in edges
  }

  predicate EdgesIn(edges: seq<(int, int)>, n: nat)
  {
    forall k :: 0 <= k < |edges| ==> 0 <= edges[k].0 < n && 0 <= edges[k].1 < n
  }

  /** Lines 20-22: both directions of every edge set to 1, edge by edge. */
  function AddEdges(m: seq<seq<real>>, n: nat, edges: seq<(int, int)>): (m': seq<seq<real>>)
    requires Table(m, n) && EdgesIn(edges, n)
    ensures Table(m', n)
  {
    if |edges| == 0 then m
    else
      var prev := AddEdges(m, n, edges[..|edges| - 1]);
      var e := edges[|edges| - 1];
      Set(Set(prev, e.0, e.1, 1.0), e.1, e.0, 1.0)
  }

  /** After the edge loop a cell holds 1 exactly when an edge links its two
      nodes, and its old value otherwise. */
  lemma {:induction false} AddEdgesCell(m: seq<seq<real>>, n: nat, edges: seq<(int, int)>, i: int, j: int)
    requires Table(m, n) && EdgesIn(edges, n)
    requires 0 <= i < n && 0 <= j < n
    ensures AddEdges(m, n, edges)[i][j] == if Linked(edges, i, j) then 1.0 else m[i][j]
  {
    if |edges| > 0 {
      var init := edges[..|edges| - 1];
      AddEdgesCell(m, n, init, i, j);
      assert edges == init + [edges[|edges| - 1]];
    }
  }

  /** Lines 24-28 for rows 0 .. k-1: a positive goal-column entry becomes the
      goal bonus. */
  function LiftGoal(m: seq<seq<real>>, n: nat, goal: nat, k: nat): (m': seq<seq<real>>)
    requires Table(m, n) && goal < n && k <= n
    ensures Table(m', n)
  {
    if k == 0 then m
    else
      var prev := LiftGoal(m, n, goal, k - 1);
      if prev[k - 1][goal] > 0.0 then Set(prev, k - 1, goal, GoalBonus) else prev
  }

  /** The lift touches only goal-column cells of the rows it has visited, and
      those only when they were positive. */
  lemma {:induction false} LiftGoalCell(m: seq<seq<real>>, n: nat, goal: nat, k: nat, i: int, j: int)
    requires Table(m, n) && goal < n && k <= n
    requires 0 <= i < n && 0 <= j < n
    ensures LiftGoal(m, n, goal, k)[i][j]
         == if j == goal && i < k && m[i][goal] > 0.0 then GoalBonus else m[i][j]
  {
    if k > 0 {
      LiftGoalCell(m, n, goal, k - 1, i, j);
      LiftGoalCell(m, n, goal, k - 1, k - 1, goal);
    }
  }

  /** build_reward_matrix() */
  function BuildRewardMatrix(): (r: seq<seq<real>>)
    ensures Table(r, Size)
  {
    assert EdgesIn(Edges, Size);
    LiftGoal(AddEdges(Zeros(Size), Size, Edges), Size, GoalNode, Size)
  }

  /** Every cell of the built matrix: the goal bonus on an edge into the
      goal, 1 on every other edge, 0 off the edges. */
  lemma BuildCell(i: int, j: int)
    requires 0 <= i < Size && 0 <= j < Size
    ensures BuildRewardMatrix()[i][j]
         == if !Linked(Edges, i, j) then 0.0 else if j == GoalNode then GoalBonus else 1.0
  {
    assert EdgesIn(Edges, Size);
    var added := AddEdges(Zeros(Size), Size, Edges);
    AddEdgesCell(Zeros(Size), Size, Edges, i, j);
    AddEdgesCell(Zeros(Size), Size, Edges, i, GoalNode);
    LiftGoalCell(added, Size, GoalNode, Size, i, j);
  }

  /** Lines 9-10 and 20-28: a 12 x 12 matrix holding only 0, 1 and 1000, with
      a zero diagonal, so no node is its own valid action. */
  lemma BuildEntries()
    ensures Table(BuildRewardMatrix(), Size)
    ensures forall i, j :: 0 <= i < Size && 0 <= j < Size ==>
      BuildRewardMatrix()[i][j] in {0.0, 1.0, GoalBonus}
    ensures forall i :: 0 <= i < Size ==> BuildRewardMatrix()[i][i] == 0.0
  {
    forall i, j | 0 <= i < Size && 0 <= j < Size
      ensures BuildRewardMatrix()[i][j] in {0.0, 1.0, GoalBonus}
    {
      BuildCell(i, j);
    }
    forall i | 0 <= i < Size
      ensures BuildRewardMatrix()[i][i] == 0.0
    {
      BuildCell(i, i);
    }
  }

  /** Lines 20-22 and 26-28: away from the goal column the matrix is symmetric;
      only nodes 7 and 10 have the bonus into the goal, and the goal's way back
      to them is worth 1. */
  lemma BuildShape()
    ensures forall i, j :: 0 <= i < Size && 0 <= j < Size && i != GoalNode && j != GoalNode ==>
      BuildRewardMatrix()[i][j] == BuildRewardMatrix()[j][i]
    ensures forall s :: 0 <= s < Size ==> (BuildRewardMatrix()[s][GoalNode] == GoalBonus <==> s == 7 || s == 10)
    ensures BuildRewardMatrix()[GoalNode][7] == 1.0 && BuildRewardMatrix()[GoalNode][10] == 1.0
  {
    forall i, j | 0 <= i < Size && 0 <= j < Size && i != GoalNode && j != GoalNode
      ensures BuildRewardMatrix()[i][j] == BuildRewardMatrix()[j][i]
    {
      BuildCell(i, j);
      BuildCell(j, i);
    }
    forall s | 0 <= s < Size
      ensures BuildRewardMatrix()[s][GoalNode] == GoalBonus <==> s == 7 || s == 10
    {
      BuildCell(s, GoalNode);
    }
    BuildCell(GoalNode, 7);
    BuildCell(GoalNode, 10);
  }

  /** Both directions of every listed edge. */
  const DirectedEdges: set<(int, int)> := {
    (0, 1), (1, 2), (2, 3), (3, 7), (7, 11), (1, 5), (5, 6), (6, 10),
    (2, 6), (3, 4), (4, 8), (8, 9), (9, 10), (10, 11),
    (1, 0), (2, 1), (3, 2), (7, 3), (11, 7), (5, 1), (6, 5), (10, 6),
    (6, 2), (4, 3), (8, 4), (9, 8), (10, 9), (11, 10)}

  /** The cells of a 12 x 12 matrix holding a positive entry. */
  function Positive(r: seq<seq<real>>): set<(int, int)>
    requires Table(r, Size)
  {
    set i, j | 0 <= i < Size && 0 <= j < Size && r[i][j] > 0.0 :: (i, j)
  }

  /** Lines 13-22: the positive cells are the 14 edges in both directions. */
  lemma PositiveCells()
    ensures Positive(BuildRewardMatrix()) == DirectedEdges
  {
    var r := BuildRewardMatrix();
    PositiveIff();
    EdgesInRange();
    assert forall c :: c in Positive(r) <==> c in DirectedEdges;
  }

  /** Cell by cell: an entry is positive exactly on a listed edge. */
  lemma PositiveIff()
    ensures forall i, j :: 0 <= i < Size && 0 <= j < Size ==>
      (BuildRewardMatrix()[i][j] > 0.0 <==> (i, j) in DirectedEdges)
  {
    forall i, j | 0 <= i < Size && 0 <= j < Size
      ensures BuildRewardMatrix()[i][j] > 0.0 <==> (i, j) in DirectedEdges
    {
      BuildCell(i, j);
    }
  }

  /** Every listed edge joins two of the 12 nodes. */
  lemma EdgesInRange()
    ensures forall c :: c in DirectedEdges ==> 0 <= c.0 < Size && 0 <= c.1 < Size
  {
  }

  /** The directed edges listed in row-major order. */
  const DirectedList: seq<(int, int)> := [
    (0, 1), (1, 0), (1, 2), (1, 5), (2, 1), (2, 3), (2, 6), (3, 2), (3, 4), (3, 7),
    (4, 3), (4, 8), (5, 1), (5, 6), (6, 2), (6, 5), (6, 10), (7, 3), (7, 11), (8, 4),
    (8, 9), (9, 8), (9, 10), (10, 6), (10, 9), (10, 11), (11, 7), (11, 10)]

  /** 28 positive cells in all. */
  lemma PositiveCount()
    ensures |Positive(BuildRewardMatrix())| == 28
  {
    PositiveCells();
    ChainRowMajor(DirectedList);
    RowMajorDistinct(DirectedList);
    DistinctCard(DirectedList);
    assert Elements(DirectedList) == DirectedEdges;
  }
}
