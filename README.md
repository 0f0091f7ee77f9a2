# Q-learning grid engine in Dafny

This project models the learning and simulation engine of a small Android
Q-learning demo, the class `QLearning`. The agent lives on a fixed 5 x 5 board.
The goal is at (4, 4), and a list of penalty cells can be regenerated or
cleared. The engine keeps a 25 x 4 value table, one row per cell and one
column per action (Up, Right, Down, Left). A step works as follows:

- it chooses an action epsilon-greedily;
- it resolves the move, which does not wrap around the board;
- it applies the temporal-difference update to one table entry;
- then it either moves the agent or sends it back to (0, 0).

An episode repeats steps until a step's first choice lands on the goal or a
penalty; a hit reached through a retry does not end it. Training runs 1000
episodes on the same table.

The model has two layers.

- **Pure functions.** These are `Grid`, `ValueTable`, `Penalties`, `Policy`
  and `Transitions`. They cover the state encoding, move resolution, the
  reward lookup and greedy selection. `Transitions` describes the engine's
  state apart from the regeneration pool as a value (`Machine`); no step
  reads the pool, which is rebuilt on every regeneration. On that value it defines one valid
  move (`Transition`), a step with its retries (`Resolve`), an episode
  (`RunEpisode`) and a training run (`RunTraining`, `Trained`). Lemmas are
  proved about these functions.
- **The class.** `Engine.QLearning` is the class itself:
  - the table is an `array2<real>` updated in place;
  - `agent`, `info` and `penalties` are fields the methods assign;
  - each step, episode and training method is proved to leave the object
    in exactly the state the matching function of `Transitions` computes,
    so the lemmas carry over to the object;
  - regenerating the penalty list is proved to give `Penalties.Shuffle` of
    the drawn cells, and clearing it leaves it empty.

A ghost field `model` mirrors the array's contents so that the object's state
can be compared with a `Machine`.

The random numbers become parameters:

- **Draws.** Every attempt of a step consumes one `Draw(u, k)`. Here `u`
  stands for `Random.nextDouble()` and `k` for `Random.nextInt(0, 4)`.
- **Running out.** The step, the episode or the training run stops with
  `Stuck` (or "not finished") when the draws run out. This stands in for the
  source's unbounded retry and loops.
- **Penalty cells.** Regenerating the penalty list takes as a parameter the
  eight positions in the pool that `random()` chose.

The status `info` is a `Status` value rather than localized text.

Three details of the code differ from a naive reading; the model follows the code:

- **Pool for new penalties.** The pool excludes the goal and the agent's
  cell at call time (`QLearning.kt:25`), not the start cell (0, 0).
  `Penalties.StartCanBecomePenalty` shows that (0, 0) can become a penalty
  cell.
- **Number of draws.** Regeneration draws a fixed 8 cells (`QLearning.kt:28`).
- **Blocked move.** The step retries from the same state. It then discards
  the retry's result and reports that the episode goes on, even when the
  retry hit the goal or a penalty (`QLearning.kt:76-77,101`).
  `Transitions.RetryReportsContinue` states this in general.
  `Transitions.GoalAfterRetryContinues` gives an instance.
  `Transitions.ValidChoiceIsTransition` states the other half: a first
  choice that stays on the board is exactly one `Transition`.

## Model

| member | source | states |
|---|---|---|
| Grid.Encode | app/src/main/java/com/example/qlearning/core/QLearning.kt:68 | a board cell's index `row*5+col` lies in [0, 24] |
| Grid.Decode | app/src/main/java/com/example/qlearning/core/QLearning.kt:94-96 | `(s/5, s%5)` is the cell whose encoding is `s`, with column in [0, 4], and it is on the board for `s` in [0, 24] |
| Grid.EncodeDecode | app/src/main/java/com/example/qlearning/core/QLearning.kt:94-96 | decoding the encoding of a board cell returns the cell |
| Grid.DecodeEncode | app/src/main/java/com/example/qlearning/core/QLearning.kt:120 | every index in [0, 24] is the encoding of the board cell it decodes to |
| Grid.Delta | app/src/main/java/com/example/qlearning/core/QLearning.kt:113-117 | each action moves exactly one cell horizontally or vertically |
| Grid.Move | app/src/main/java/com/example/qlearning/core/QLearning.kt:112-121 | -1 exactly for Up from row 0, Right from column 4, Down from row 4, Left from column 0, or an action outside 0..3; otherwise the index, in [0, 24], of the one-step neighbour |
| ValueTable.RowMax | app/src/main/java/com/example/qlearning/core/QLearning.kt:108-110 | 0.0 for an empty row, else an entry of the row that no entry exceeds |
| ValueTable.IndexOf | app/src/main/java/com/example/qlearning/core/QLearning.kt:105 | -1 iff the value is absent, else the first position holding it |
| ValueTable.Argmax | app/src/main/java/com/example/qlearning/core/QLearning.kt:104-106 | for a non-empty row: a valid index of a maximal entry with every earlier entry strictly smaller |
| ValueTable.ArgmaxIsFirstMaximum | app/src/main/java/com/example/qlearning/core/QLearning.kt:104-106 | the greedy action is at or before any maximal position, and a row of equal entries (the all-zero row) gives 0 |
| ValueTable.Updated | app/src/main/java/com/example/qlearning/core/QLearning.kt:80 | the new value's distance to `reward + 0.6*max` is 0.02 times the old distance |
| ValueTable.UpdatedMovesTowardTarget | app/src/main/java/com/example/qlearning/core/QLearning.kt:80 | the updated value lies strictly between the old value and the target, or equals both |
| Penalties.IsReward | app/src/main/java/com/example/qlearning/core/QLearning.kt:123-131 | 250.0 iff the cell is (4, 4), even when it is listed as a penalty; -100.0 iff it is another listed cell; 0.0 iff neither |
| Penalties.AllCells | app/src/main/java/com/example/qlearning/core/QLearning.kt:19 | 25 cells in row-major order: position `i` holds the board cell whose index `row*5+col` is `i` |
| Penalties.AllCellsAreTheBoard | app/src/main/java/com/example/qlearning/core/QLearning.kt:19 | the list of all cells holds exactly the 25 board cells |
| Penalties.Without | app/src/main/java/com/example/qlearning/core/QLearning.kt:25 | the filtered list holds exactly the cells of the input other than the two excluded ones |
| Penalties.FreeCells | app/src/main/java/com/example/qlearning/core/QLearning.kt:24-25 | the pool holds exactly the board cells other than the goal and the agent's cell, and is never empty |
| Penalties.Distinct | app/src/main/java/com/example/qlearning/core/QLearning.kt:28 | the same cells as the input, without duplicates, no longer than the input, in the order of their first occurrences |
| Penalties.Picked | app/src/main/java/com/example/qlearning/core/QLearning.kt:28 | one cell per pick: the `i`-th drawn cell is the pool cell at position `picks[i]` |
| Penalties.Shuffle | app/src/main/java/com/example/qlearning/core/QLearning.kt:27-28 | the new list holds exactly the pool cells at the drawn positions, has no duplicates and at most 8 entries, and, because the pool excludes them, no entry is off the board, the goal or the agent's cell |
| Penalties.StartCanBecomePenalty | app/src/main/java/com/example/qlearning/core/QLearning.kt:25 | for any agent cell other than (0, 0), some draw puts the start cell in the penalty list |
| Policy.SelectAction | app/src/main/java/com/example/qlearning/core/QLearning.kt:69-73 | explores with the drawn action when `u < epsilon`, otherwise picks the first maximal entry of the row |
| Transitions.Initial | app/src/main/java/com/example/qlearning/core/QLearning.kt:13-21 | a fresh engine has a 25 x 4 table of zeros, the agent on (0, 0), no penalties and status Idle |
| Transitions.Transition | app/src/main/java/com/example/qlearning/core/QLearning.kt:79-99 | only the entry of (state, action) changes, to the update towards `reward + 0.6*max(next row)`; goal: reset to (0, 0), AgentReachedGoal, `false`; penalty: reset, AgentFell, `false`; otherwise the agent moves onto the destination, AgentMoved, `true`; the table stays 25 x 4 |
| Transitions.Resolve | app/src/main/java/com/example/qlearning/core/QLearning.kt:67-102 | a step keeps the shape and the penalty list; Over only with the agent reset to (0, 0) after a goal or a penalty; Stuck changes nothing; each attempt consumes a draw |
| Transitions.RunEpisode | app/src/main/java/com/example/qlearning/core/QLearning.kt:50-55 | a finished episode ends with the agent on (0, 0) after a goal or a penalty; an unfinished one used up every draw |
| Transitions.RunTraining | app/src/main/java/com/example/qlearning/core/QLearning.kt:58-63 | at most `episodes` finished episodes; if fewer, the draws are used up; if all, the agent ends on (0, 0) |
| Transitions.RunTrainingExtend | app/src/main/java/com/example/qlearning/core/QLearning.kt:58-63 | `RunTraining`'s recursive case read forwards: after rounds that all finished, the next round is one episode from (0, 0) on the learned table |
| Transitions.RunTrainingNext | app/src/main/java/com/example/qlearning/core/QLearning.kt:58-63 | the next round extends the run, and a round that runs out of draws is the run's final state |
| Transitions.RunTrainingStopsForGood | app/src/main/java/com/example/qlearning/core/QLearning.kt:58-63 | once an episode ran out of draws, asking for more episodes changes nothing |
| Transitions.Trained | app/src/main/java/com/example/qlearning/core/QLearning.kt:57-65 | after all 1000 episodes finish, the agent is on (0, 0) and the status is TrainingFinished |
| Transitions.TrainedAfter | app/src/main/java/com/example/qlearning/core/QLearning.kt:57-65 | `Trained`'s definition read forwards: the 1000 rounds of `RunTraining`, then the TrainingFinished status when all of them finished |
| Transitions.RetryReportsContinue | app/src/main/java/com/example/qlearning/core/QLearning.kt:75-101 | after a blocked choice the state is exactly the retry's, and the step never reports the episode over |
| Transitions.ValidChoiceIsTransition | app/src/main/java/com/example/qlearning/core/QLearning.kt:78-101 | when the first choice stays on the board, the step is that move's `Transition`, reports Over exactly when the move ends on the goal or a penalty, and consumes exactly one draw |
| Transitions.GoalAfterRetryContinues | app/src/main/java/com/example/qlearning/core/QLearning.kt:76-101 | from (3, 4), blocked Right then Down onto the goal: agent reset, AgentReachedGoal, yet the episode goes on |
| Transitions.GreedyRetryFromStartNeverEnds | app/src/main/java/com/example/qlearning/core/QLearning.kt:69-77 | with Up as the greedy action at (0, 0) and no exploration, the step never changes the state and retries until the draws run out |
| Transitions.FreshGreedyStepNeverEnds | app/src/main/java/com/example/qlearning/core/QLearning.kt:69-77 | on a fresh engine with no exploration the first step never moves |
| Transitions.PenaltyStepLowersEntry | app/src/main/java/com/example/qlearning/core/QLearning.kt:80-87 | on a fresh table, Left from (2, 2) onto penalty (2, 1) sets the entry to -98, resets the agent and reports AgentFell |
| Transitions.InitialIsGoalSafe | app/src/main/java/com/example/qlearning/core/QLearning.kt:13 | a fresh table satisfies the goal-safety invariant |
| Transitions.TransitionKeepsGoalSafe | app/src/main/java/com/example/qlearning/core/QLearning.kt:80-92 | a valid move keeps the goal row at zero and every entry for a move onto the goal in [0, 250]; reaching the goal raises that entry to at least 245 |
| Transitions.ResolveKeepsGoalSafe | app/src/main/java/com/example/qlearning/core/QLearning.kt:67-102 | a step, retries included, keeps goal safety |
| Transitions.RunEpisodeKeepsGoalSafe | app/src/main/java/com/example/qlearning/core/QLearning.kt:50-55 | an episode keeps goal safety |
| Transitions.RunTrainingKeepsGoalSafe | app/src/main/java/com/example/qlearning/core/QLearning.kt:58-63 | any number of training rounds keeps goal safety |
| Transitions.TrainingFromScratchIsGoalSafe | app/src/main/java/com/example/qlearning/core/QLearning.kt:57-65 | training a fresh engine, whatever the draws, leaves every goal entry within [0, 250] and the goal row at zero |
| Engine.QLearning.RowAt | app/src/main/java/com/example/qlearning/core/QLearning.kt:105 | the row read from the array is the table's row of that state |
| Engine.QLearning.constructor | app/src/main/java/com/example/qlearning/core/QLearning.kt:12-21 | a fresh object: zero table, agent on (0, 0), no penalties, status Idle |
| Engine.QLearning.ShufflePenalty | app/src/main/java/com/example/qlearning/core/QLearning.kt:23-31 | the pool field becomes the free cells, the penalty list becomes the distinct pool cells at the drawn positions (no duplicates, at most 8, none the goal or the agent's cell), status ObstaclesPlaced, table and agent untouched |
| Engine.QLearning.RemoveCoordinates | app/src/main/java/com/example/qlearning/core/QLearning.kt:33-36 | the penalty list is empty and the status is ObstaclesCleared |
| Engine.QLearning.PerformStep | app/src/main/java/com/example/qlearning/core/QLearning.kt:67-102 | the object's new state, signal and remaining draws are those of `Resolve` on its old state |
| Engine.QLearning.ApplyMove | app/src/main/java/com/example/qlearning/core/QLearning.kt:79-99 | the in-place update of one array entry, then the reset or move, gives exactly `Transition` of the old state |
| Engine.QLearning.Step | app/src/main/java/com/example/qlearning/core/QLearning.kt:46-48 | one step of `Resolve`; its signal is dropped |
| Engine.QLearning.Episode | app/src/main/java/com/example/qlearning/core/QLearning.kt:50-55 | the loop from (0, 0) ends in the state `RunEpisode` computes |
| Engine.QLearning.Repeat | app/src/main/java/com/example/qlearning/core/QLearning.kt:58-63 | the `repeat` loop ends in the state, count and remaining draws `RunTraining` computes |
| Engine.QLearning.NextEpisode | app/src/main/java/com/example/qlearning/core/QLearning.kt:59-62 | one round of the `repeat` loop extends the run, or ends it when its episode runs out of draws |
| Engine.QLearning.Conclude | app/src/main/java/com/example/qlearning/core/QLearning.kt:64 | the status becomes TrainingFinished when every episode finished, otherwise it is unchanged; nothing else changes |
| Engine.QLearning.Train | app/src/main/java/com/example/qlearning/core/QLearning.kt:57-65 | the object ends in the state `Trained` computes, so `TrainingFromScratchIsGoalSafe` applies to it |

## Left out

- Randomness: `Random.nextDouble`, `Random.nextInt` and `List.random` become explicit draws. Nothing about their distribution is modelled.
- Unbounded retry and loops: the recursive retry of a blocked move and the `while (true)` loops are bounded by the number of draws supplied. Running out is reported as `Stuck` or "not finished". Neither the source's possible non-termination nor its stack overflow is modelled; `Transitions.GreedyRetryFromStartNeverEnds` shows a case where the retry never ends.
- `Double` arithmetic is modelled as `real`: no rounding, no NaN or infinities, and no distinction between -0.0 and 0.0 in `indexOf`.
- `info` as localized text, the Android `Context`, string resources and `updateInfo` (language switching) are not modelled; `info` is a `Status` value.
- Compose snapshot state (`mutableStateOf`, `SnapshotStateList`) and its observers are not modelled. The lists are plain sequences.
- The table rows are separate `DoubleArray`s in the source and one `array2` here, so row aliasing is not modelled.
- The user-interface code, including the cell-click toggle of penalty cells, is not part of this model.
- Engine.QLearning.Train: the source repeats the episode loop inline, while the model reuses the episode logic. The status stays unchanged when the draws run out before the 1000th episode ends, where the source would go on drawing.
- Draws: `Draw(u, k)` does not restrict `u` to [0, 1) or `k` to [0, 4) as `Random.nextDouble()` and `Random.nextInt(0, 4)` do; every lemma about draws holds for all of them, so also for the ones the source can produce, and an out-of-range explored action counts as a blocked move.
- Policy.SelectAction: a draw carries `k` even when the choice exploits, where the source calls `nextInt` only when it explores; with draws as parameters the two are indistinguishable.
