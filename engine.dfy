/** The engine object: a value table updated in place, the agent's cell, the
    penalty list and the status it reports. Each step, episode and training
    method is proved to leave the object in exactly the state the matching
    function of module Transitions computes, so the lemmas proved there hold
    of the object too; regenerating the penalty list is proved to give
    Penalties.Shuffle of the drawn positions, and clearing it leaves it empty. */
module Engine {
  import opened Grid
  import opened ValueTable
  import opened Penalties
  import opened Policy
  import opened Transitions

  class QLearning {
    /** The 25 x 4 value table: one row per state index, one column per action. */
    var qTable: array2<real>
    /** The agent's current cell. */
    var agent: Coord
    /** The status shown to the user. */
    var info: Status
    /** The pool the last regeneration of the penalty list drew from. */
    var freeCells: seq<Coord>
    /** The penalty cells, in the order they were added. */
    var penalties: seq<Coord>
    /** The table's contents as a sequence of rows, kept equal to `qTable`. */
    ghost var model: seq<seq<real>>

    /** The table has its fixed 25 x 4 shape. */
    ghost predicate Shaped()
      reads this`qTable
    {
      qTable.Length0 == Cells && qTable.Length1 == Actions
    }

    /** The table has its shape and `model` holds its contents; the agent
        is on the board. */
    ghost predicate Valid()
      reads this`qTable, this`model, this`agent, qTable
    {
      && Shaped() && WellShaped(model) && InGrid(agent)
      && forall s, a :: 0 <= s < Cells && 0 <= a < Actions ==> qTable[s, a] == model[s][a]
    }

    /** Row `s` of the table, the four action values of state `s`. */
    function RowAt(s: int): (row: seq<real>)
      reads this`qTable, this`model, this`agent, qTable
      requires Valid() && 0 <= s < Cells
      ensures row == model[s]
    {
      var row := [qTable[s, 0], qTable[s, 1], qTable[s, 2], qTable[s, 3]];
      assert row == model[s];
      row
    }

    /** The state of the object as the value the functions of Transitions take. */
    ghost function Snapshot(): (m: Machine)
      reads this`model, this`agent, this`penalties, this`info
    {
      Machine(model, agent, penalties, info)
    }

    /** A fresh engine: all-zero table, agent on the start cell, no
        penalties, status Idle. */
    constructor ()
      ensures Valid() && fresh(qTable)
      ensures Snapshot() == Initial() && freeCells == []
    {
      qTable := new real[Cells, Actions]((_, _) => 0.0);
      model := seq(Cells, _ => [0.0, 0.0, 0.0, 0.0]);
      agent := Start;
      info := Idle;
      freeCells := [];
      penalties := [];
    }

    /** Rebuilds the pool of cells other than the goal and the agent's
        cell, then replaces the penalty list by the distinct cells among
        eight draws from that pool; `picks` are the positions drawn. */
    method ShufflePenalty(picks: seq<int>)
      requires Valid()
      requires |picks| == PenaltyDraws
      requires forall i :: 0 <= i < |picks| ==> 0 <= picks[i] < |FreeCells(agent)|
      modifies this`freeCells, this`penalties, this`info
      ensures Valid()
      ensures freeCells == FreeCells(agent)
      ensures penalties == Shuffle(agent, picks) && info == ObstaclesPlaced
      ensures NoDuplicates(penalties) && |penalties| <= PenaltyDraws
      ensures forall c :: c in penalties ==> InGrid(c) && c != Goal && c != agent
    {
      freeCells := FreeCells(agent);
      penalties := Distinct(Picked(freeCells, picks));
      info := ObstaclesPlaced;
    }

    /** Empties the penalty list. */
    method RemoveCoordinates()
      requires Valid()
      modifies this`penalties, this`info
      ensures Valid()
      ensures penalties == [] && info == ObstaclesCleared
    {
      penalties := [];
      info := ObstaclesCleared;
    }

    /** One step, retrying from the same state while the chosen move is
        blocked; see Transitions.Resolve. */
    method PerformStep(epsilon: real, draws: seq<Draw>) returns (signal: Signal, rest: seq<Draw>)
      requires Valid()
      modifies this`agent, this`info, this`model, qTable
      ensures Valid()
      ensures (Snapshot(), signal, rest) == Resolve(old(Snapshot()), epsilon, draws)
      decreases |draws|
    {
      if |draws| == 0 {
        return Stuck, [];
      }
      var state := Encode(agent);
      var action := SelectAction(epsilon, draws[0], RowAt(state));
      var newState := Move(agent, action);
      if newState == -1 {
        var retried;
        retried, rest := PerformStep(epsilon, draws[1..]);
        signal := if retried == Stuck then Stuck else Continue;
      } else {
        var moved := ApplyMove(action);
        signal := if moved then Continue else Over;
        rest := draws[1..];
      }
    }

    /** The part of a step that follows a move staying on the board: update
        the table entry of the current state and the action, then reset the
        agent or move it; see Transitions.Transition. */
    method ApplyMove(action: int) returns (moved: bool)
      requires Valid() && Move(agent, action) != -1
      modifies this`agent, this`info, this`model, qTable
      ensures Valid()
      ensures (Snapshot(), moved) == Transition(old(Snapshot()), action)
    {
      var state := Encode(agent);
      var newState := Move(agent, action);
      var reward := IsReward(newState, penalties);
      var q := Updated(qTable[state, action], reward, RowMax(RowAt(newState)));
      qTable[state, action] := q;
      model := model[state := model[state][action := q]];
      if reward == PenaltyReward {
        agent := Start;
        info := AgentFell;
        moved := false;
      } else if reward == GoalReward {
        agent := Start;
        info := AgentReachedGoal;
        moved := false;
      } else {
        var x := newState % Size;
        var y := newState / Size;
        agent := Coord(y, x);
        info := AgentMoved(y, x);
        moved := true;
      }
    }

    /** One manual step; whether the episode is over is not reported. */
    method Step(epsilon: real, draws: seq<Draw>) returns (rest: seq<Draw>)
      requires Valid()
      modifies this`agent, this`info, this`model, qTable
      ensures Valid()
      ensures Snapshot() == Resolve(old(Snapshot()), epsilon, draws).0
      ensures rest == Resolve(old(Snapshot()), epsilon, draws).2
    {
      var signal;
      signal, rest := PerformStep(epsilon, draws);
    }

    /** Puts the agent on the start cell and steps until a step reports the
        episode over; `finished` is false when the draws ran out first. */
    method Episode(epsilon: real, draws: seq<Draw>) returns (finished: bool, rest: seq<Draw>)
      requires Valid()
      modifies this`agent, this`info, this`model, qTable
      ensures Valid()
      ensures (Snapshot(), finished, rest) == RunEpisode(old(Snapshot()).(agent := Start), epsilon, draws)
    {
      agent := Start;
      ghost var m0 := Snapshot();
      rest := draws;
      while true
        invariant Valid()
        invariant RunEpisode(Snapshot(), epsilon, rest) == RunEpisode(m0, epsilon, draws)
        decreases |rest|
      {
        var signal, next := PerformStep(epsilon, rest);
        rest := next;
        if signal != Continue {
          finished := signal == Over;
          return;
        }
      }
    }

    /** `episodes` rounds of Episode on one table (`repeat(episodes)`);
        `completed` counts the rounds that finished before the draws ran out. */
    method Repeat(epsilon: real, draws: seq<Draw>, episodes: nat) returns (completed: nat, rest: seq<Draw>)
      requires Valid()
      modifies this`agent, this`info, this`model, qTable
      ensures Valid()
      ensures var r := RunTraining(old(Snapshot()), epsilon, draws, episodes);
        Snapshot() == r.0 && completed == r.1 && rest == r.2
    {
      ghost var start := Snapshot();
      completed := 0;
      rest := draws;
      while completed < episodes
        invariant Valid()
        invariant completed <= episodes
        invariant RunTraining(start, epsilon, draws, completed).0 == Snapshot()
        invariant RunTraining(start, epsilon, draws, completed).1 == completed
        invariant RunTraining(start, epsilon, draws, completed).2 == rest
      {
        var finished;
        finished, rest := NextEpisode(start, epsilon, draws, completed, episodes, rest);
        if !finished {
          return;
        }
        completed := completed + 1;
      }
    }

    /** The body of Repeat's loop: one Episode after `completed` rounds that
        all finished. */
    method NextEpisode(ghost start: Machine, epsilon: real, ghost draws: seq<Draw>, completed: nat, ghost episodes: nat, rest: seq<Draw>)
      returns (finished: bool, rest': seq<Draw>)
      requires Valid() && Inv(start) && completed < episodes
      requires RunTraining(start, epsilon, draws, completed) == (Snapshot(), completed, rest)
      modifies this`agent, this`info, this`model, qTable
      ensures Valid()
      ensures finished ==> RunTraining(start, epsilon, draws, completed + 1) == (Snapshot(), completed + 1, rest')
      ensures !finished ==> RunTraining(start, epsilon, draws, episodes) == (Snapshot(), completed, rest')
    {
      ghost var now := Snapshot();
      RunTrainingNext(start, epsilon, draws, completed, now, rest, episodes);
      finished, rest' := Episode(epsilon, rest);
    }

    /** 1000 episodes on one table, then status TrainingFinished; `completed`
        counts the episodes that finished before the draws ran out. */
    method Train(epsilon: real, draws: seq<Draw>) returns (completed: nat, rest: seq<Draw>)
      requires Valid()
      modifies this`agent, this`info, this`model, qTable
      ensures Valid()
      ensures (Snapshot(), completed, rest) == Trained(old(Snapshot()), epsilon, draws)
    {
      ghost var start := Snapshot();
      completed, rest := Repeat(epsilon, draws, Episodes);
      TrainedAfter(start, epsilon, draws, Snapshot(), completed, rest);
      Conclude(completed == Episodes);
    }

    /** The status update that ends Train: TrainingFinished when every
        episode finished, otherwise nothing changes. */
    method Conclude(finished: bool)
      requires Valid()
      modifies this`info
      ensures Valid()
      ensures Snapshot() == if finished then old(Snapshot()).(info := TrainingFinished) else old(Snapshot())
    {
      if finished {
        info := TrainingFinished;
      }
    }
  }
}
