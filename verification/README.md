# Tabular Q-learning on a warehouse graph and a grid world

This project is a Dafny model of the core of a small reinforcement-learning
repository. The repository holds:

- a tabular Q-learning agent (`QLearningAgent`);
- two environments:
  - a 12-node warehouse graph driven by a reward matrix;
  - a grid world with walls and bottleneck cells of severity 1 to 3;
- a random map generator that carves a guaranteed corridor;
- two training drivers (`train`, `train_grid`);
- two greedy demos (`greedy_path_from_Q`, `greedy_rollout`);
- the non-drawing helpers of the interactive app (`parse_coord`,
  `compute_value_grid`, `train_env`, the app's `greedy_rollout`).

Modelling choices:

- Everything is immutable data and pure functions. An environment's
  `reset`/`step` return the next environment together with their result.
- A Python exception becomes an `Err` value (`Base.Error`). The environment
  returned with it holds whatever the source had changed before raising.
- Q values, rewards and epsilon are `real`s.
- Every random number is an explicit parameter:
  - the agent's exploration draws are a stream `nat -> Draw`, one `Draw`
    per step, counted across episodes;
  - the map generator takes one stream per phase (`GridMaps.MapDraws`).
- The two environments share one interface (`Environment.Env`). The episode
  loop (`Episodes`) and the greedy loop (`Rollouts`) are written once
  against that interface and reused by every driver.

Module layout, following the repository:

| module | file of the repository |
|---|---|
| `QLearning` | q_learning/agent.py |
| `Warehouse` | warehouse/env.py |
| `RewardMatrix` | warehouse/reward_matrix.py |
| `GridWorld` | gridworld/env.py |
| `GridMaps` | gridworld/maps.py |
| `Environment` | the interface both environments offer |
| `Episodes`, `Metrics` | the episode loop and statistics of train.py and train_grid.py |
| `WarehouseTraining` | train.py |
| `GridTraining` | train_grid.py |
| `Rollouts`, `DemoGrid` | demo_grid.py |
| `Demo` | demo.py |
| `Text`, `App` | visualization/app.py |

## Model

| member | source | states |
|---|---|---|
| QLearning.New | q_learning/agent.py:5-13 | The table is n_states × n_actions and all zeros. Epsilon starts at epsilon_start, and the other parameters are stored unchanged. |
| QLearning.ArgMax | q_learning/agent.py:26 | np.argmax: an index of a largest entry, and the first such index (every earlier entry is strictly smaller). |
| QLearning.Max | q_learning/agent.py:31 | np.max: an entry of the row that bounds every entry. |
| QLearning.PredictAction | q_learning/agent.py:23-26 | Raises exactly when the list of valid actions is empty. Otherwise it returns a valid action with the largest Q value, and the first such action in list order. |
| QLearning.ChooseAction | q_learning/agent.py:15-21 | Returns 0 when no action is valid. Otherwise it returns a valid action: with a draw below epsilon it explores and returns the pick-th valid action; else it returns the greedy action that predict_action gives. |
| QLearning.ChooseGreedy | q_learning/agent.py:19-21 | With epsilon ≤ 0, choose_action agrees with predict_action for every draw. |
| QLearning.ChooseExplores | q_learning/agent.py:19-20 | With epsilon ≥ 1, choose_action returns the uniformly drawn valid action. |
| QLearning.BestNext | q_learning/agent.py:29-31 | best_next is 0 without valid next actions. Otherwise it is the largest Q value of s_next over them: attained by one and bounding all. |
| QLearning.Update | q_learning/agent.py:28-34 | Only Q[s, a] changes, by alpha times the temporal-difference error. The shape and the parameters are kept. |
| QLearning.UpdateMovesToward | q_learning/agent.py:32-34 | For 0 < alpha ≤ 1 the new Q[s, a] lies between the old value and the target. With alpha = 1 it is the target. |
| QLearning.DecayEpsilon | q_learning/agent.py:36-37 | Epsilon never drops below epsilon_min, and nothing else of the agent changes. |
| QLearning.DecayIsMax | q_learning/agent.py:37 | The decayed rate is the floor or epsilon·decay, and never less than epsilon·decay. |
| QLearning.DecayBounds | q_learning/agent.py:37 | For a non-negative rate and decay in [0, 1], a rate at or above the floor never rises, and a rate below the floor is lifted to it. |
| QLearning.DecayClosedForm | q_learning/agent.py:36-37 | n decays leave max(epsilon_min, epsilon·decay^n). |
| Warehouse.New | warehouse/env.py:10-20 | The constructor fails exactly when the matrix is not square. Otherwise n_states = n_actions = the matrix size, and the agent stands nowhere until reset. |
| Warehouse.ValidActions | warehouse/env.py:30-32 | The strictly ascending list of exactly the actions with a positive reward from s. |
| Warehouse.Reset | warehouse/env.py:34-39 | The agent is on the start node with zero steps, and the configuration is kept. |
| Warehouse.Step | warehouse/env.py:41-56 | An action out of range fails the assertion, and a step before reset raises. Both change nothing. A completed step counts one step, stands on the node it reports, and is done exactly on the goal node or at the step cap. |
| Warehouse.ValidIffMoves | warehouse/env.py:30-51 | An action is valid exactly when its step pays a positive reward. A valid action moves to the node it names and pays R[s][a]; any other action stays on s and pays the −10 penalty. |
| Warehouse.StepStaysAt | warehouse/env.py:41-56 | A step from a node succeeds and lands on the node it reports. |
| Warehouse.ResetIdempotent | warehouse/env.py:34-39 | Resetting twice is resetting once. |
| RewardMatrix.AddEdgesCell | warehouse/reward_matrix.py:20-22 | After the edge loop, a cell is 1 exactly when the edge list links its two nodes in either direction, and is untouched otherwise. |
| RewardMatrix.LiftGoalCell | warehouse/reward_matrix.py:24-28 | Only positive goal-column entries are raised, to 1000. |
| RewardMatrix.BuildCell | warehouse/reward_matrix.py:3-30 | Every cell is 0 off the edges, 1000 on an edge into node 11, and 1 on any other edge. |
| RewardMatrix.BuildEntries | warehouse/reward_matrix.py:9-28 | The matrix is 12 × 12, holds only 0, 1 and 1000, and has a zero diagonal. |
| RewardMatrix.BuildShape | warehouse/reward_matrix.py:20-28 | The matrix is symmetric away from the goal column. Only rows 7 and 10 reach the goal, with 1000, and the goal row keeps 1 toward them. |
| RewardMatrix.PositiveCells | warehouse/reward_matrix.py:13-22 | The positive cells are exactly the 14 listed edges, in both directions. |
| RewardMatrix.PositiveCount | warehouse/reward_matrix.py:13-22 | There are 28 positive cells. |
| GridWorld.New | gridworld/env.py:34-74 | Raises exactly when start or goal is a wall. Otherwise the two tables number the open cells row by row and are inverse to each other. |
| GridWorld.NumberRow | gridworld/env.py:62-68 | The inner loop extends the numbering by the open cells of one row, in column order, and keeps the tables inverse. |
| GridWorld.NumberingIsBijection | gridworld/env.py:58-74 | Numbered cells are exactly the open cells, in row-major order, and n_states is their count. |
| GridWorld.SetStartGoal | gridworld/env.py:84-88 | Refused exactly when start or goal is a wall, and then nothing changes. Otherwise only the two cells are replaced. |
| GridWorld.Reset | gridworld/env.py:90-95 | The agent is on the start cell with zero steps, and the world is kept. |
| GridWorld.ResetStart | gridworld/env.py:90-95 | Reset returns a state id exactly when the start is open; the lookup raises otherwise. The returned id names the agent's cell. |
| GridWorld.ResetIdempotent | gridworld/env.py:90-95 | Resetting twice is resetting once. |
| GridWorld.ValidActions | gridworld/env.py:100-110 | The strictly ascending list of exactly the actions whose target cell is in bounds and not a wall. |
| GridWorld.Step | gridworld/env.py:112-143 | A step before reset raises and changes nothing. An action out of 0..3 raises after the step counter went up, and the agent stays put. A completed step's report agrees with the environment after it. |
| GridWorld.InvalidMoveStays | gridworld/env.py:121-125 | A move off the grid or into a wall keeps the position, pays the invalid-move penalty and reports level 0. |
| GridWorld.LegalMoveReward | gridworld/env.py:126-136 | A legal move lands on the neighbour. It pays the step cost, plus the bottleneck penalty for the cell's level, plus the goal reward when the cell is the goal. |
| GridWorld.ValidIffMoves | gridworld/env.py:100-136 | An action is valid exactly when step moves the agent onto the neighbouring cell. |
| GridWorld.StepStaysNumbered | gridworld/env.py:112-143 | A step from a numbered cell succeeds and leaves the agent on the numbered cell it reports. |
| GridMaps.AllCells | gridworld/maps.py:18-19 | Exactly the in-bounds cells, in row-major order. |
| GridMaps.AllCellsCount | gridworld/maps.py:18-19 | rows·cols cells, no cell twice. |
| GridMaps.WithoutMembers | gridworld/maps.py:66 | The comprehension keeps exactly the cells outside the excluded set, and never lengthens the list. |
| GridMaps.Sample | gridworld/maps.py:69 | rng.sample returns k entries of the pool, and they are distinct when the pool's entries are. |
| GridMaps.NextCell | gridworld/maps.py:44-53 | One corridor move is down or right, and never past the goal row or column. |
| GridMaps.Walk | gridworld/maps.py:43-54 | The corridor loop makes unit moves down or right, stays in the rectangle and ends on the goal. |
| GridMaps.Corridor | gridworld/maps.py:38-54 | The corridor runs from (0, 0) to (rows−1, cols−1) with rows+cols−1 cells, monotone and in bounds. |
| GridMaps.WidenCell | gridworld/maps.py:58-62 | Widening one cell adds only in-bounds neighbours of it. |
| GridMaps.WidenAll | gridworld/maps.py:57-62 | Widening adds only in-bounds neighbours of corridor cells. |
| GridMaps.Expand | gridworld/maps.py:56-63 | The widened set keeps the corridor. Every added cell is an in-bounds neighbour of a corridor cell. |
| GridMaps.PlaceWalls | gridworld/maps.py:65-69 | There are min(target, #candidates) walls, all in bounds, off the widened corridor, the start and the goal. |
| GridMaps.Level | gridworld/maps.py:80-87 | The severity is 1..3: level 1 exactly below 0.6, level 3 exactly from 0.9. |
| GridMaps.Assign | gridworld/maps.py:78-87 | The dictionary's keys are exactly the chosen cells, each with a level in 1..3. |
| GridMaps.PlaceBottlenecks | gridworld/maps.py:71-87 | There are min(target, #free cells) bottlenecks, off walls, start and goal, in bounds, with levels 1..3. |
| GridMaps.RandomMap | gridworld/maps.py:22-89 | The map has the requested size. Start and goal are neither walls nor bottlenecks, and no wall is on the widened corridor. |
| GridMaps.RandomMapConnected | gridworld/maps.py:29-63 | The promised connectivity: every generated map has a wall-free monotone route from (0, 0) to (rows−1, cols−1). |
| Environment.ResetReady | gridworld/env.py:90-95 | On either environment, reset of a valid environment succeeds. It stands on the start state with zero steps and keeps the configuration. |
| Environment.StepReady | warehouse/env.py:41-56 | On either environment, a step from a state with an action in range succeeds, lands on a state and counts one step. It is done exactly on the goal or at the step cap. |
| Episodes.AgentFor | train.py:16-18 | Every driver's fresh agent is a zero table sized by observation_space_n × action_space_n. |
| Episodes.Advance | train.py:27-31 | One pass of the inner loop keeps the configuration and moves from s to the state it reports. It counts one step, is done exactly on the goal or at the cap, and applies exactly one update. |
| Episodes.RunEpisode | train.py:26-35 | The inner loop keeps the configuration and the agent's shape. Every transition is between states by an action in range. |
| Episodes.EpisodeShape | train.py:26-35 | An episode takes at most max_steps steps, each from where the last ended, and uses one draw per step. It stops early only after a done step. Only a done step can reach the goal. |
| Episodes.CapEndsDone | train.py:26-35 | When the loop budget reaches the environment's step cap, the episode always ends on a done step. |
| Episodes.EpisodeReplay | train.py:27-31 | The agent after an episode is the agent before it with one update per recorded transition, in order. |
| Episodes.PlayEpisode | train.py:24-37 | A reset followed by the inner loop yields a played episode: from the start state, chained, at most max_steps long. |
| Episodes.PlayReplay | train.py:24-37 | After one episode the agent is the replay of its transitions, followed by one epsilon decay. |
| Episodes.PlayKeeps | train.py:31-37 | One episode changes the table and decays epsilon once; nothing else of the agent changes. |
| Episodes.TrainShape | train.py:23-38 | n episodes keep the configuration and the agent's shape, each episode is played, and epsilon has decayed n times. |
| Metrics.ReturnIsSum | train.py:25-30 | total_r is the sum of the step rewards, and it adds up over consecutive parts of a trace. |
| Metrics.ReturnsAreSums | train.py:38 | There is one return per episode, each the sum of that episode's rewards. |
| Metrics.RecordedFrom | train.py:26-35 | The loop records t+1 exactly when the last step of a chained trace is done, and then the value is the trace's length. |
| Metrics.StepsToGoalBounds | train.py:26-35 | Every steps_to_goal entry lies in 1..max_steps. When the budget reaches the cap, the entries are exactly the episode lengths. |
| Metrics.BottleneckHitsCount | train_grid.py:66-67 | bn_count is the number of steps reporting a bottleneck cell, so it never exceeds the step count. |
| Metrics.GoalFlagIff | train_grid.py:72-73 | The flag is 1 exactly when some step reported the goal cell. |
| Metrics.GoalFlagLast | train_grid.py:72-82 | In a played episode the flag is 1 exactly when the last, done step reported the goal. |
| WarehouseTraining.WarehouseFor | train.py:14-15 | The warehouse is built on the reward matrix from node 0 to node 11, with 12 states and 12 actions. It passes the constructor's check. |
| WarehouseTraining.Session | train.py:23-38 | One played episode per iteration on the warehouse. The agent decays epsilon once per episode and keeps its shape. |
| WarehouseTraining.TrainWarehouse | train.py:10-40 | One return per episode. Every steps_to_goal entry lies in 1..max_steps, with one per episode when max_steps > 0. The agent keeps its 12 × 12 shape and its alpha, gamma, epsilon_min and epsilon_decay. Its epsilon is epsilon_start after one decay per episode. R is the built matrix. |
| WarehouseTraining.EpisodesShape | train.py:23-35 | Every warehouse episode starts on node 0, is chained and has at most max_steps steps. It ends on a done step when max_steps > 0. |
| WarehouseTraining.StepsAreLengths | train.py:33-34 | With max_steps > 0, steps_to_goal is exactly the list of episode lengths. |
| WarehouseTraining.RewardsAreSums | train.py:25-38 | Each episode_rewards entry is the sum of its episode's rewards. |
| WarehouseTraining.FinalEpsilon | train.py:37 | After n episodes, epsilon is max(eps_min, eps_start·eps_decay^n). |
| GridTraining.Session | train_grid.py:52-80 | One played episode per iteration on the grid world. The agent decays once per episode and keeps its shape. |
| GridTraining.HitsPerEpisode | train_grid.py:66-81 | There is one bottleneck_hits entry per episode, each the number of that episode's steps that reported a bottleneck cell. |
| GridTraining.FlagsPerEpisode | train_grid.py:72-82 | There is one reached_goal flag per episode, each 0 or 1. |
| GridTraining.TrainGrid | train_grid.py:47-105 | There is one return, one hit count (at most max_steps) and one 0/1 flag per episode. steps_to_goal entries lie in 1..max_steps, with one per episode when the budget reaches the cap. final_epsilon is epsilon after n decays. |
| GridTraining.FlagsMeanGoal | train_grid.py:72-82 | An episode's flag is 1 exactly when a step reported the goal, which is exactly when the episode ended on the goal with a done step. |
| GridTraining.HitsMeanBottlenecks | train_grid.py:66-67 | An episode's bn_count is the number of its steps on a bottleneck, and at most its length. |
| GridTraining.ReturnsAreSumsGrid | train_grid.py:63-80 | Each return is the sum of its episode's rewards. |
| GridTraining.FinalEpsilonGrid | train_grid.py:89 | final_epsilon is max(eps_min, eps_start·eps_decay^n). |
| Rollouts.GreedyStep | demo_grid.py:13-15 | A greedy step raises exactly when the state has no valid action. Otherwise it takes the predict_action choice, keeps the configuration and is done exactly on the goal or at the cap. |
| Rollouts.GreedyRun | demo_grid.py:12-19 | The greedy loop keeps the configuration, and its only failure is an empty list of valid actions. |
| Rollouts.RolloutShape | demo_grid.py:12-19 | A rollout takes at most max_steps greedy steps, each from where the last ended. It stops early only after a done step. |
| Rollouts.RolloutSucceeds | demo_grid.py:13-15 | When every state has a valid action, the rollout never raises. |
| Rollouts.GreedyFromReset | demo_grid.py:8-19 | After a reset the rollout raises only on an empty list of valid actions, and never when no state has one. Its trace is a rolled greedy trace from the start state. |
| DemoGrid.GreedyRollout | demo_grid.py:7-21 | The path starts on the start cell and has at most max_steps+1 cells. Every cell is open, and each is the previous one or a neighbour of it. |
| DemoGrid.PathWalks | demo_grid.py:9-17 | The recorded cells of a rolled trace form such a walk. |
| DemoGrid.RolloutTotals | demo_grid.py:12-19 | The path has one cell per step after the start, and the total is the sum of the step rewards. A path shorter than max_steps+1 ends on a done step. |
| Demo.Choose | demo.py:11-15 | Every reading of the guard picks a column holding the row's maximum. |
| Demo.GuardIsNoOp | demo.py:12-15 | The self-loop guard as written always returns argmax's own choice. |
| Demo.IntendedLeaves | demo.py:12-15 | The corrected guard stays on s exactly when s is the row's strict unique best column. |
| Demo.Hops | demo.py:10-19 | One state per hop, each chosen from the previous one. At least one hop is taken when max_hops > 0, even from the goal. Only the last hop may be the goal, and a walk stops short only on the goal. |
| Demo.GreedyPathFromQ | demo.py:7-20 | The path starts at start, has 1..max_hops+1 states, and every state is a state of the table. |
| Demo.PathIsArgMax | demo.py:7-20 | Each hop of the path as written is argmax of the current row. After the start the goal can only come last, and a short path ends on the goal. |
| Demo.SelfLoopSticks | demo.py:11-17 | Once argmax of a non-goal state is that state, the path as written stays there for every remaining hop. |
| Demo.WrittenGuardLoops | demo.py:12-15 | Counterexample: the all-zero 2 × 2 table from 0 toward 1 with 3 hops walks [0, 0, 0, 0]. |
| Demo.IntendedPath | demo.py:7-20 | With the corrected guard the path starts at start, has 1..max_hops+1 states, and every state is a state of the table. |
| Demo.IntendedGuardMoves | demo.py:12-15 | The same table with the corrected guard walks [0, 1] and reaches the goal. |
| Demo.IntendedPathLeaves | demo.py:10-19 | With the corrected guard a hop stays on its state only when that state is its row's strict best column. |
| Text.Strip | visualization/app.py:14 | str.strip(): the result sits inside the text with only whitespace around it, and neither starts nor ends with whitespace. |
| Text.StripKeeps | visualization/app.py:14 | Stripping keeps every non-whitespace character. |
| Text.Split | visualization/app.py:14 | str.split(","): one more piece than commas, no piece holds a comma, and joining the pieces gives the text back. |
| Text.SplitJoin | visualization/app.py:14 | Splitting a join of comma-free pieces returns the pieces. |
| Text.ParseInt | visualization/app.py:17-18 | int() succeeds exactly on an optionally signed run of ASCII digits inside surrounding whitespace, and then gives its signed decimal value. Any other text gives the NotAnInteger error. |
| Text.FormatInt | visualization/app.py:307 | str(n): an optional minus sign, then digits, with no surrounding whitespace. |
| Text.ParseFormat | visualization/app.py:17-18 | int(str(n)) == n. |
| App.ParseCoord | visualization/app.py:13-19 | parse_coord gives a format error exactly when the text does not hold exactly one comma; otherwise it gives only int() errors. It succeeds exactly when both comma-separated parts parse, and the coordinate is then the pair of their int() values. |
| App.ParseFormatted | visualization/app.py:305-310 | Parsing the f"{r},{c}" a click writes into a box gives back the clicked cell. |
| App.CellValue | visualization/app.py:59-65 | A cell has a value exactly when it is open and has an open neighbour. The value is the largest Q value over its valid moves: attained by one and bounding all. |
| App.ComputeValueGrid | visualization/app.py:56-66 | A rows × cols grid holding each cell's value. |
| App.ValueOfArrow | visualization/app.py:87-95 | A cell's heatmap value is the Q value of the action its arrow shows. |
| App.TrainEnv | visualization/app.py:116-147 | One return per episode. steps_to_goal entries lie in 1..max_steps, with one per episode when the budget reaches the cap. The agent fits the environment. |
| App.TrainEnvEpsilon | visualization/app.py:144 | After n episodes epsilon is max(0.05, 0.995^n), with alpha 0.9 and gamma 0.75 kept. |
| App.LevelCounts | visualization/app.py:166-169 | The hits never exceed the level sum. When every level comes from a bottleneck step, they never exceed bn_count or the step count either. |
| App.GreedyRollout | visualization/app.py:149-174 | The path is a walk of at most max_steps moves. The hits are at most the moves and at most the level sum. It raises only on an empty list of valid actions, and never when no state has one. |
| App.RolledLevels | visualization/app.py:166-169 | In a rollout only a move onto a bottleneck reports a level, and it is that bottleneck's level. |
| App.SameAsDemo | visualization/app.py:149-174 | The app's rollout fails exactly when demo_grid's does, and otherwise walks the same path with the same return. Both are modelled by one shared greedy loop, so this records that sharing. |

## Left out

- train_grid.py:3 imports `default_map_6x6`, which gridworld/maps.py does not define. `GridTraining.TrainGrid` therefore takes the environment as a parameter.
- train_grid.py:34 passes a `bottleneck_penalty` keyword that the constructor (gridworld/env.py:34-44) does not accept, so the script raises as written. The model uses the constructor's own reward fields.
- demo_grid.py:24 unpacks four values from `train_grid`, which returns three. The script's `__main__` block is left out.
- Seeding and the generators' internals are not modelled:
  - `np.random.seed` and `random.Random(seed)` are replaced by explicit draw streams;
  - the map generator draws from one generator in a fixed interleaving, but the model gives each phase its own stream;
  - the properties proved hold for every stream.
- GridMaps.WidenAll: it visits the corridor cells in path order, while the source iterates `list(corridor)`, whose order is a set's hash order. Which draw goes to which cell may differ; the proved properties hold for every order.
- GridMaps.RandomMap: takes `int(rows*cols*ratio)` as two given targets rather than computing it from floating-point ratios.
- Plotting, the matplotlib widgets and the event handlers of visualization/app.py (drawing the grid, arrows, heatmap, buttons), and all printing, are I/O and not modelled. The app's pure pieces are.
- The solved-episodes statistic at train.py:72 and the `__main__` blocks of every script are reporting only.
- Floating point is not modelled:
  - values are exact reals, not IEEE doubles;
  - NumPy's NaN in the heatmap is `None`.
- Text.ParseInt: accepts only an optional sign and ASCII digits around ASCII whitespace. Python's `int()` also accepts underscores between digits and non-ASCII digits.
- Text.Strip: strips only the ASCII whitespace of `str.isspace()`: space, tab, line feed, carriage return, vertical tab, form feed and U+001C to U+001F. Python's `str.strip()` also strips non-ASCII spaces such as U+0085 and U+00A0.
- Environment.ResetReady: requires a start that is a state. A grid world whose start cell is not numbered raises `KeyError` in reset; `GridWorld.ResetStart` states that case. For the same reason the drivers GridTraining.TrainGrid, App.TrainEnv, App.GreedyRollout, DemoGrid.GreedyRollout and Rollouts.GreedyFromReset require a valid environment. A start typed into the app that lies outside the grid passes its wall checks (visualization/app.py:321-327 and gridworld/env.py:84-88) and then raises `KeyError` in reset; the model does not reach that path.
- QLearning.DecayClosedForm: requires a decay factor in [0, 1], a non-negative floor, and at least one decay or a start at or above the floor. Outside that range the iterated `max` has no simple closed form. The same holds for `WarehouseTraining.FinalEpsilon` and `GridTraining.FinalEpsilonGrid`.
- Episodes.TrainShape: states the shape of a run, not the numeric values its Q table reaches. Learning converges only in expectation over the draws, which this model does not reason about.
- Warehouse.Step: models NumPy's negative row indexing for the start node, but not the indexing of a `None` state (before reset), which is reported as not reset.

## Findings

| source | as written | input that shows it | evidently intended | confidence | as-written member | corrected member |
|---|---|---|---|---|---|---|
| demo.py:12-15 | When argmax is the current state, the guard takes the first column holding the row's maximum. That column is argmax itself, so the guard never changes the choice and a self-loop stays a self-loop. | The all-zero 2 × 2 Q table, start 0, goal 1, 3 hops: the path is [0, 0, 0, 0]. | On a tie, move to the first other column holding the maximum, and stay only when the current state is the strict best. | not executed | Demo.WrittenGuardLoops | Demo.IntendedGuardMoves |
