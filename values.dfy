/** One row of the value table (the four action values of a state), the
    greedy choice over it, and the temporal-difference update of one entry. */
module ValueTable {

  /** Learning rate (alpha) of the update. */
  const LearningRate: real := 0.98
  /** Discount factor (gamma) of the update. */
  const DiscountFactor: real := 0.6

  /** Largest value of a row, or 0.0 for an empty row (`maxOrNull() ?: 0.0`). */
  function RowMax(row: seq<real>): (m: real)
    ensures |row| == 0 ==> m == 0.0
    ensures |row| > 0 ==> m in row && forall i :: 0 <= i < |row| ==> row[i] <= m
  {
    if |row| == 0 then 0.0
    else if |row| == 1 then row[0]
    else
      var init := RowMax(row[..|row| - 1]);
      if init < row[|row| - 1] then row[|row| - 1] else init
  }

  /** Position of the first entry equal to `v`, or -1 when there is none
      (`List.indexOf`). */
  function IndexOf(row: seq<real>, v: real): (i: int)
    ensures i == -1 <==> v !in row
    ensures i != -1 ==> 0 <= i < |row| && row[i] == v && forall j :: 0 <= j < i ==> row[j] != v
  {
    if |row| == 0 then -1
    else if row[0] == v then 0
    else
      var k := IndexOf(row[1..], v);
      if k == -1 then -1 else k + 1
  }

  /** The greedy action: the lowest index whose value is the row's maximum. */
  function Argmax(row: seq<real>): (a: int)
    ensures |row| == 0 ==> a == -1
    ensures |row| > 0 ==> 0 <= a < |row|
    ensures |row| > 0 ==> forall j :: 0 <= j < |row| ==> row[j] <= row[a]
    ensures |row| > 0 ==> forall j :: 0 <= j < a ==> row[j] < row[a]
  {
    IndexOf(row, RowMax(row))
  }

  /** Ties go to the lowest index: no maximal entry lies before the greedy
      action, so a row whose entries are all equal (the all-zero row of a
      fresh table among them) selects action 0. */
  lemma ArgmaxIsFirstMaximum(row: seq<real>, j: int)
    requires 0 <= j < |row| && forall i :: 0 <= i < |row| ==> row[i] <= row[j]
    ensures Argmax(row) <= j
    ensures (forall i :: 0 <= i < |row| ==> row[i] == row[0]) ==> Argmax(row) == 0
  {
  }

  /** The value the update moves an entry towards: the reward plus the
      discounted best value of the next state. */
  function Target(reward: real, nextMax: real): real {
    reward + DiscountFactor * nextMax
  }

  /** The temporal-difference update
      Q[s][a] + 0.98 * (reward + 0.6 * max(Q[s']) - Q[s][a]).
      The distance to the target shrinks to 2% of what it was. */
  function Updated(q: real, reward: real, nextMax: real): (q': real)
    ensures q' - Target(reward, nextMax) == (1.0 - LearningRate) * (q - Target(reward, nextMax))
  {
    q + LearningRate * (reward + DiscountFactor * nextMax - q)
  }

  /** The update is a contraction towards its target: the new value lies
      strictly between the old value and the target, unless the old value
      already was the target, in which case nothing changes. */
  lemma UpdatedMovesTowardTarget(q: real, reward: real, nextMax: real)
    ensures var t, q' := Target(reward, nextMax), Updated(q, reward, nextMax);
      && (q < t ==> q < q' < t)
      && (t < q ==> t < q' < q)
      && (q == t ==> q' == q)
  {
  }
}
