/** The engine's behaviour as functions on a snapshot of its state: one
    valid move, one step with its retries, one episode and a training run.
    The class in module Engine is proved to follow these. Randomness is a
    stream of draws; a step, an episode or a training run that uses up the
    stream before it would have returned stops with what it has done so far. */
module Transitions {
  import opened Grid
  import opened ValueTable
  import opened Penalties
  import opened Policy

  /** The status the engine reports to its user interface. */
  datatype Status =
    | Idle
    | ObstaclesPlaced
    | ObstaclesCleared
    | AgentMoved(row: int, col: int)
    | AgentFell
    | AgentReachedGoal
    | TrainingFinished

  /** How a step ended: the episode goes on, the episode is over, or the
      draws ran out while the step was still retrying. */
  datatype Signal = Continue | Over | Stuck

  /** The engine's state: the value table (25 rows of 4 values), the
      agent's cell, the penalty list and the reported status. */
  datatype Machine = Machine(table: seq<seq<real>>, agent: Coord, penalties: seq<Coord>, info: Status)

  /** Number of episodes in one training run. */
  const Episodes: int := 1000

  predicate WellShaped(table: seq<seq<real>>) {
    |table| == Cells && forall s :: 0 <= s < Cells ==> |table[s]| == Actions
  }

  predicate Inv(m: Machine) {
    WellShaped(m.table) && InGrid(m.agent)
  }

  /** A fresh engine: an all-zero table, the agent on the start cell, no
      penalties, status Idle. */
  function Initial(): (m: Machine)
    ensures Inv(m)
    ensures forall s, a :: 0 <= s < Cells && 0 <= a < Actions ==> m.table[s][a] == 0.0
    ensures m.agent == Start && m.penalties == [] && m.info == Idle
  {
    Machine(seq(Cells, _ => [0.0, 0.0, 0.0, 0.0]), Start, [], Idle)
  }

  /** A move that stays on the board: the entry of the current state and
      the action is updated and no other entry changes; then the agent is
      reset to the start cell when it stepped onto the goal or a penalty
      (the step reports `false`), or moves onto the destination (`true`). */
  function Transition(m: Machine, action: int): (r: (Machine, bool))
    requires Inv(m) && Move(m.agent, action) != -1
    ensures Inv(r.0) && r.0.penalties == m.penalties
    ensures var s, ns := Encode(m.agent), Move(m.agent, action);
      && 0 <= action < Actions
      && r.0.table[s][action] == Updated(m.table[s][action], IsReward(ns, m.penalties), RowMax(m.table[ns]))
      && forall t, b :: 0 <= t < Cells && 0 <= b < Actions && (t != s || b != action) ==>
           r.0.table[t][b] == m.table[t][b]
    ensures var dest := Decode(Move(m.agent, action));
      && (!r.1 <==> dest == Goal || dest in m.penalties)
      && (dest == Goal ==> r.0.agent == Start && r.0.info == AgentReachedGoal)
      && (dest != Goal && dest in m.penalties ==> r.0.agent == Start && r.0.info == AgentFell)
      && (r.1 ==> r.0.agent == dest && r.0.info == AgentMoved(dest.row, dest.col))
  {
    var s := Encode(m.agent);
    var ns := Move(m.agent, action);
    var reward := IsReward(ns, m.penalties);
    var q := Updated(m.table[s][action], reward, RowMax(m.table[ns]));
    var table := m.table[s := m.table[s][action := q]];
    if reward == PenaltyReward then
      (m.(table := table, agent := Start, info := AgentFell), false)
    else if reward == GoalReward then
      (m.(table := table, agent := Start, info := AgentReachedGoal), false)
    else
      var x, y := ns % Size, ns / Size;
      (m.(table := table, agent := Coord(y, x), info := AgentMoved(y, x)), true)
  }

  /** One step: choose an action with the first draw; if it would leave the
      board, retry from the very same state with the remaining draws, and
      report Continue whatever the retry did (unless the draws ran out). */
  function Resolve(m: Machine, epsilon: real, draws: seq<Draw>): (r: (Machine, Signal, seq<Draw>))
    requires Inv(m)
    ensures Inv(r.0) && r.0.penalties == m.penalties
    ensures r.1 == Stuck ==> r.0 == m && r.2 == []
    ensures r.1 != Stuck ==> |r.2| < |draws| && r.2 == draws[|draws| - |r.2|..]
    ensures r.1 == Over ==> r.0.agent == Start && (r.0.info == AgentFell || r.0.info == AgentReachedGoal)
    decreases |draws|
  {
    if |draws| == 0 then (m, Stuck, [])
    else
      var action := SelectAction(epsilon, draws[0], m.table[Encode(m.agent)]);
      if Move(m.agent, action) == -1 then
        var retry := Resolve(m, epsilon, draws[1..]);
        (retry.0, if retry.1 == Stuck then Stuck else Continue, retry.2)
      else
        var (m', moved) := Transition(m, action);
        (m', if moved then Continue else Over, draws[1..])
  }

  /** Steps until one reports that the episode is over (`true`), or until
      the draws run out (`false`). */
  function RunEpisode(m: Machine, epsilon: real, draws: seq<Draw>): (r: (Machine, bool, seq<Draw>))
    requires Inv(m)
    ensures Inv(r.0) && r.0.penalties == m.penalties
    ensures r.1 ==> r.0.agent == Start && (r.0.info == AgentFell || r.0.info == AgentReachedGoal)
    ensures !r.1 ==> r.2 == []
    decreases |draws|
  {
    var (m', signal, rest) := Resolve(m, epsilon, draws);
    if signal == Over then (m', true, rest)
    else if signal == Stuck then (m', false, rest)
    else RunEpisode(m', epsilon, rest)
  }

  /** `episodes` episodes back to back, each from the start cell, on one
      table that keeps what it learned; also the number of episodes that
      finished. Once an episode runs out of draws, no later one starts. */
  function RunTraining(m: Machine, epsilon: real, draws: seq<Draw>, episodes: nat): (r: (Machine, nat, seq<Draw>))
    requires Inv(m)
    ensures Inv(r.0) && r.0.penalties == m.penalties
    ensures r.1 <= episodes
    ensures r.1 < episodes ==> r.2 == []
    ensures 0 < r.1 == episodes ==> r.0.agent == Start
    decreases episodes
  {
    if episodes == 0 then (m, 0, draws)
    else
      var (m', k, rest) := RunTraining(m, epsilon, draws, episodes - 1);
      if k < episodes - 1 then (m', k, rest)
      else
        var (m'', finished, rest') := RunEpisode(m'.(agent := Start), epsilon, rest);
        (m'', if finished then episodes else k, rest')
  }

  /** One more episode after a run in which every episode finished; when
      that episode runs out of draws, no later episode changes anything. */
  lemma RunTrainingNext(m: Machine, epsilon: real, draws: seq<Draw>, episodes: nat, now: Machine, rest: seq<Draw>, more: nat)
    requires Inv(m) && episodes < more
    requires RunTraining(m, epsilon, draws, episodes) == (now, episodes, rest)
    ensures var e := RunEpisode(now.(agent := Start), epsilon, rest);
      && RunTraining(m, epsilon, draws, episodes + 1) == (e.0, if e.1 then episodes + 1 else episodes, e.2)
      && (!e.1 ==> RunTraining(m, epsilon, draws, more) == (e.0, episodes, e.2))
  {
    RunTrainingExtend(m, epsilon, draws, episodes, now, rest);
    if !RunEpisode(now.(agent := Start), epsilon, rest).1 {
      RunTrainingStopsForGood(m, epsilon, draws, episodes + 1, more);
    }
  }

  /** The recursive case of RunTraining read forwards: one more episode
      after a run in which every episode finished. */
  lemma RunTrainingExtend(m: Machine, epsilon: real, draws: seq<Draw>, episodes: nat, now: Machine, rest: seq<Draw>)
    requires Inv(m)
    requires RunTraining(m, epsilon, draws, episodes) == (now, episodes, rest)
    ensures var e := RunEpisode(now.(agent := Start), epsilon, rest);
      RunTraining(m, epsilon, draws, episodes + 1) == (e.0, if e.1 then episodes + 1 else episodes, e.2)
  {
  }

  /** After a run stopped short, asking for more episodes changes nothing. */
  lemma {:induction false} RunTrainingStopsForGood(m: Machine, epsilon: real, draws: seq<Draw>, episodes: nat, more: nat)
    requires Inv(m) && episodes <= more
    requires RunTraining(m, epsilon, draws, episodes).1 < episodes
    ensures RunTraining(m, epsilon, draws, more) == RunTraining(m, epsilon, draws, episodes)
    decreases more
  {
    if episodes < more {
      RunTrainingStopsForGood(m, epsilon, draws, episodes, more - 1);
    }
  }

  /** A whole training run: 1000 episodes, then status TrainingFinished. */
  function Trained(m: Machine, epsilon: real, draws: seq<Draw>): (r: (Machine, nat, seq<Draw>))
    requires Inv(m)
    ensures Inv(r.0) && r.0.penalties == m.penalties
    ensures r.1 == Episodes ==> r.0.agent == Start && r.0.info == TrainingFinished
    ensures r.1 < Episodes ==> r.2 == []
  {
    var (m', k, rest) := RunTraining(m, epsilon, draws, Episodes);
    (if k == Episodes then m'.(info := TrainingFinished) else m', k, rest)
  }

  /** A training run is its 1000 episodes followed by the final status. */
  lemma TrainedAfter(m: Machine, epsilon: real, draws: seq<Draw>, now: Machine, k: nat, rest: seq<Draw>)
    requires Inv(m)
    requires RunTraining(m, epsilon, draws, Episodes) == (now, k, rest)
    ensures Trained(m, epsilon, draws) == (if k == Episodes then now.(info := TrainingFinished) else now, k, rest)
  {
  }

  /** A blocked first choice changes nothing: the step is the retry from the
      same state, except that it never reports the episode as over, even
      when the retry reached the goal or a penalty. */
  lemma RetryReportsContinue(m: Machine, epsilon: real, draws: seq<Draw>)
    requires Inv(m) && |draws| > 0
    requires Move(m.agent, SelectAction(epsilon, draws[0], m.table[Encode(m.agent)])) == -1
    ensures var r, retry := Resolve(m, epsilon, draws), Resolve(m, epsilon, draws[1..]);
      && r.0 == retry.0 && r.2 == retry.2
      && (r.1 == Stuck <==> retry.1 == Stuck)
      && r.1 != Over
  {
  }

  /** A first choice that stays on the board is the whole step: the step is
      that move's Transition, it reports Over exactly when the move does not
      leave the agent on its destination, and it consumes exactly one draw. */
  lemma ValidChoiceIsTransition(m: Machine, epsilon: real, draws: seq<Draw>)
    requires Inv(m) && |draws| > 0
    requires Move(m.agent, SelectAction(epsilon, draws[0], m.table[Encode(m.agent)])) != -1
    ensures var t := Transition(m, SelectAction(epsilon, draws[0], m.table[Encode(m.agent)]));
      var r := Resolve(m, epsilon, draws);
      && r.0 == t.0 && r.1 != Stuck
      && (r.1 == Over <==> !t.1)
      && r.2 == draws[1..]
  {
  }

  /** An instance: from (3, 4) a blocked move Right followed by a move Down
      onto the goal resets the agent yet lets the episode go on. */
  lemma GoalAfterRetryContinues(m: Machine)
    requires Inv(m) && m.agent == Coord(3, 4)
    ensures var r := Resolve(m, 0.5, [Draw(0.0, Right), Draw(0.0, Down)]);
      r.1 == Continue && r.0.agent == Start && r.0.info == AgentReachedGoal
  {
  }

  /** With no exploration, an agent on the start cell whose greedy action
      is Up never gets anywhere: every draw is blocked, the state never
      changes, and the step keeps retrying for as long as there are draws. */
  lemma {:induction false} GreedyRetryFromStartNeverEnds(m: Machine, epsilon: real, draws: seq<Draw>)
    requires Inv(m) && m.agent == Start
    requires Argmax(m.table[Encode(Start)]) == Up
    requires forall i :: 0 <= i < |draws| ==> epsilon <= draws[i].u
    ensures Resolve(m, epsilon, draws) == (m, Stuck, [])
    decreases |draws|
  {
    if |draws| > 0 {
      GreedyRetryFromStartNeverEnds(m, epsilon, draws[1..]);
    }
  }

  /** A fresh engine that never explores keeps choosing Up from the start
      cell, so its first step never moves: it retries until the draws run out. */
  lemma FreshGreedyStepNeverEnds(epsilon: real, draws: seq<Draw>)
    requires forall i :: 0 <= i < |draws| ==> epsilon <= draws[i].u
    ensures Resolve(Initial(), epsilon, draws) == (Initial(), Stuck, [])
  {
    var row := Initial().table[Encode(Start)];
    ArgmaxIsFirstMaximum(row, 0);
    GreedyRetryFromStartNeverEnds(Initial(), epsilon, draws);
  }

  /** An instance: on a fresh table, stepping Left from (2, 2) onto the
      penalty cell (2, 1) sets that entry to -98 and resets the agent. */
  lemma PenaltyStepLowersEntry()
    ensures var m := Initial().(agent := Coord(2, 2), penalties := [Coord(2, 1)]);
      var r := Transition(m, Left);
      && r.0.table[Encode(Coord(2, 2))][Left] == -98.0
      && !r.1 && r.0.agent == Start && r.0.info == AgentFell
  {
  }

  /** The goal's row of the table is never written (the agent never stands
      on the goal), and every entry for a move onto the goal lies in
      [0, 250]. */
  predicate GoalSafe(m: Machine)
    requires WellShaped(m.table)
  {
    && m.agent != Goal
    && (forall a :: 0 <= a < Actions ==> m.table[Encode(Goal)][a] == 0.0)
    && (forall s, a :: 0 <= s < Cells && 0 <= a < Actions && Move(Decode(s), a) == Encode(Goal) ==>
          0.0 <= m.table[s][a] <= GoalReward)
  }

  lemma InitialIsGoalSafe()
    ensures GoalSafe(Initial())
  {
  }

  /** A move keeps GoalSafe; a move onto the goal raises its entry to at
      least 245 (the update of a value in [0, 250] towards 250). */
  lemma TransitionKeepsGoalSafe(m: Machine, action: int)
    requires Inv(m) && GoalSafe(m) && Move(m.agent, action) != -1
    ensures GoalSafe(Transition(m, action).0)
    ensures Move(m.agent, action) == Encode(Goal) ==>
      Transition(m, action).0.table[Encode(m.agent)][action] >= 245.0
  {
    var r := Transition(m, action).0;
    var s, ns := Encode(m.agent), Move(m.agent, action);
    EncodeDecode(m.agent);
    EncodeDecode(Goal);
    assert s != Encode(Goal);
    if ns == Encode(Goal) {
      var row := m.table[Encode(Goal)];
      assert RowMax(row) == 0.0 by {
        assert RowMax(row) in row;
      }
      var q := m.table[s][action];
      assert 0.0 <= q <= GoalReward;
      assert r.table[s][action] == q + LearningRate * (GoalReward - q);
    }
  }

  lemma {:induction false} ResolveKeepsGoalSafe(m: Machine, epsilon: real, draws: seq<Draw>)
    requires Inv(m) && GoalSafe(m)
    ensures GoalSafe(Resolve(m, epsilon, draws).0)
    decreases |draws|
  {
    if |draws| > 0 {
      var action := SelectAction(epsilon, draws[0], m.table[Encode(m.agent)]);
      if Move(m.agent, action) == -1 {
        ResolveKeepsGoalSafe(m, epsilon, draws[1..]);
      } else {
        TransitionKeepsGoalSafe(m, action);
      }
    }
  }

  lemma {:induction false} RunEpisodeKeepsGoalSafe(m: Machine, epsilon: real, draws: seq<Draw>)
    requires Inv(m) && GoalSafe(m)
    ensures GoalSafe(RunEpisode(m, epsilon, draws).0)
    decreases |draws|
  {
    ResolveKeepsGoalSafe(m, epsilon, draws);
    var (m', signal, rest) := Resolve(m, epsilon, draws);
    if signal == Continue {
      RunEpisodeKeepsGoalSafe(m', epsilon, rest);
    }
  }

  lemma {:induction false} RunTrainingKeepsGoalSafe(m: Machine, epsilon: real, draws: seq<Draw>, episodes: nat)
    requires Inv(m) && GoalSafe(m)
    ensures GoalSafe(RunTraining(m, epsilon, draws, episodes).0)
    decreases episodes
  {
    if episodes > 0 {
      RunTrainingKeepsGoalSafe(m, epsilon, draws, episodes - 1);
      var (m', k, rest) := RunTraining(m, epsilon, draws, episodes - 1);
      if k == episodes - 1 {
        RunEpisodeKeepsGoalSafe(m'.(agent := Start), epsilon, rest);
      }
    }
  }

  /** Whatever the draws, training a fresh engine leaves the goal's row at
      zero and every entry for a move onto the goal within [0, 250]. */
  lemma TrainingFromScratchIsGoalSafe(epsilon: real, draws: seq<Draw>)
    ensures GoalSafe(Trained(Initial(), epsilon, draws).0)
  {
    InitialIsGoalSafe();
    RunTrainingKeepsGoalSafe(Initial(), epsilon, draws, Episodes);
  }
}
