/** Rewards of the cells, and the regeneration of the penalty list. */
module Penalties {
  import opened Grid

  /** Reward for stepping onto the goal cell. */
  const GoalReward: real := 250.0
  /** Reward for stepping onto a penalty cell. */
  const PenaltyReward: real := -100.0
  /** Number of cells drawn when the penalty list is regenerated. */
  const PenaltyDraws: int := 8

  /** Reward of the cell with state index `state`: the goal wins even when
      its cell is also listed as a penalty. */
  function IsReward(state: int, penalties: seq<Coord>): (r: real)
    requires 0 <= state < Cells
    ensures r == GoalReward <==> Decode(state) == Goal
    ensures r == PenaltyReward <==> Decode(state) != Goal && Decode(state) in penalties
    ensures r == 0.0 <==> Decode(state) != Goal && Decode(state) !in penalties
  {
    var x := state % Size;
    var y := state / Size;
    if Goal.row == y && Goal.col == x then GoalReward
    else if Coord(y, x) in penalties then PenaltyReward
    else 0.0
  }

  /** All 25 cells in row-major order: position `i` holds the board cell
      whose state index is `i`. */
  function AllCells(): (cells: seq<Coord>)
    ensures |cells| == Cells
    ensures forall i :: 0 <= i < Cells ==> InGrid(cells[i]) && Encode(cells[i]) == i
  {
    seq(Cells, i requires 0 <= i < Cells => Decode(i))
  }

  /** The list of all cells holds exactly the board cells. */
  lemma AllCellsAreTheBoard(c: Coord)
    ensures c in AllCells() <==> InGrid(c)
  {
    if InGrid(c) {
      EncodeDecode(c);
      assert AllCells()[Encode(c)] == c;
    }
  }

  /** `cells` with every occurrence of `a` and of `b` filtered out, order kept. */
  function Without(cells: seq<Coord>, a: Coord, b: Coord): (r: seq<Coord>)
    ensures forall c :: c in r <==> c in cells && c != a && c != b
    ensures |r| <= |cells|
  {
    if |cells| == 0 then []
    else
      var tail := Without(cells[1..], a, b);
      if cells[0] == a || cells[0] == b then tail else [cells[0]] + tail
  }

  /** A cell that regeneration may draw while the agent stands on `agent`. */
  predicate Free(c: Coord, agent: Coord) {
    InGrid(c) && c != Goal && c != agent
  }

  /** The pool regeneration draws from: every cell but the goal and the
      agent's current cell. It is never empty, so a draw from it always
      succeeds. */
  function FreeCells(agent: Coord): (pool: seq<Coord>)
    ensures forall c :: c in pool <==> Free(c, agent)
    ensures |pool| > 0
  {
    forall c ensures c in AllCells() <==> InGrid(c) {
      AllCellsAreTheBoard(c);
    }
    var pool := Without(AllCells(), Goal, agent);
    assert Coord(0, 0) in pool || Coord(0, 1) in pool;
    pool
  }

  predicate NoDuplicates(s: seq<Coord>) {
    forall i, j :: 0 <= i < j < |s| ==> s[i] != s[j]
  }

  /** Position of the first occurrence of `c` in `s`. */
  function FirstIndex(s: seq<Coord>, c: Coord): (k: int)
    requires c in s
    ensures 0 <= k < |s| && s[k] == c && c !in s[..k]
  {
    if s[0] == c then 0
    else
      var k := FirstIndex(s[1..], c);
      assert s[1..][..k] == s[1..k + 1];
      k + 1
  }

  /** Only one position holds `c` with no earlier occurrence of `c`. */
  lemma FirstIndexIsUnique(s: seq<Coord>, c: Coord, k: int)
    requires 0 <= k < |s| && s[k] == c && c !in s[..k]
    ensures FirstIndex(s, c) == k
  {
  }

  /** A cell that occurs in a prefix first occurs at the same position in
      the prefix and in the whole sequence. */
  lemma FirstIndexOfPrefix(s: seq<Coord>, n: int, c: Coord)
    requires 0 <= n <= |s| && c in s[..n]
    ensures FirstIndex(s, c) == FirstIndex(s[..n], c)
  {
    var k := FirstIndex(s[..n], c);
    assert s[..n][..k] == s[..k];
    FirstIndexIsUnique(s, c, k);
  }

  /** `s` with every repeated cell dropped after its first occurrence
      (`distinct()`): the cells keep the order of their first occurrences. */
  function Distinct(s: seq<Coord>): (r: seq<Coord>)
    ensures forall c :: c in r <==> c in s
    ensures NoDuplicates(r)
    ensures |r| <= |s|
    ensures forall i, j :: 0 <= i < j < |r| ==> FirstIndex(s, r[i]) < FirstIndex(s, r[j])
  {
    if |s| == 0 then []
    else
      var init := s[..|s| - 1];
      var d := Distinct(init);
      forall c | c in d ensures FirstIndex(s, c) == FirstIndex(init, c) < |s| - 1 {
        FirstIndexOfPrefix(s, |s| - 1, c);
      }
      if s[|s| - 1] in d then d
      else
        FirstIndexIsUnique(s, s[|s| - 1], |s| - 1);
        d + [s[|s| - 1]]
  }

  /** The cells `random()` returns from `pool`, one per pick. */
  function Picked(pool: seq<Coord>, picks: seq<int>): (drawn: seq<Coord>)
    requires forall i :: 0 <= i < |picks| ==> 0 <= picks[i] < |pool|
    ensures |drawn| == |picks|
    ensures forall i :: 0 <= i < |picks| ==> drawn[i] == pool[picks[i]] && drawn[i] in pool
  {
    seq(|picks|, i requires 0 <= i < |picks| => pool[picks[i]])
  }

  /** The new penalty list: eight cells drawn from the free pool (`picks`
      are the positions `random()` chose), with repeats dropped. So it has
      at most eight cells, all on the board, none of them the goal or the
      agent's cell at call time. */
  function Shuffle(agent: Coord, picks: seq<int>): (p: seq<Coord>)
    requires |picks| == PenaltyDraws
    requires forall i :: 0 <= i < |picks| ==> 0 <= picks[i] < |FreeCells(agent)|
    ensures forall c :: c in p <==> exists i :: 0 <= i < |picks| && c == FreeCells(agent)[picks[i]]
    ensures NoDuplicates(p) && |p| <= PenaltyDraws
    ensures forall c :: c in p ==> InGrid(c) && c != Goal && c != agent
  {
    Distinct(Picked(FreeCells(agent), picks))
  }

  /** What is excluded is the agent's cell, not the start cell: with the
      agent anywhere but (0, 0), some draw makes the start cell a penalty
      cell. */
  lemma StartCanBecomePenalty(agent: Coord)
    requires InGrid(agent) && agent != Start
    ensures exists picks: seq<int> ::
      && |picks| == PenaltyDraws
      && (forall i :: 0 <= i < |picks| ==> 0 <= picks[i] < |FreeCells(agent)|)
      && Start in Shuffle(agent, picks)
  {
    var pool := FreeCells(agent);
    assert Free(Start, agent);
    var j :| 0 <= j < |pool| && pool[j] == Start;
    var picks := seq(PenaltyDraws, _ => j);
    assert pool[picks[0]] == Start;
    assert Start in Shuffle(agent, picks);
  }
}
