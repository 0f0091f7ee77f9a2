/** The epsilon-greedy choice of an action. */
module Policy {
  import opened ValueTable

  /** The random numbers one action choice may use: `u` stands for
      `Random.nextDouble()` (in [0, 1)) and `k` for `Random.nextInt(0, 4)`,
      which is only consulted when the choice explores. */
  datatype Draw = Draw(u: real, k: int)

  /** Explore (take `k`) when `u < epsilon`, otherwise take the greedy
      action: the lowest index holding the row's maximum. */
  function SelectAction(epsilon: real, d: Draw, row: seq<real>): (a: int)
    ensures d.u < epsilon ==> a == d.k
    ensures epsilon <= d.u && |row| > 0 ==>
      && 0 <= a < |row|
      && (forall j :: 0 <= j < |row| ==> row[j] <= row[a])
      && (forall j :: 0 <= j < a ==> row[j] < row[a])
  {
    if d.u < epsilon then d.k else Argmax(row)
  }
}
