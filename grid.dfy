/** The fixed 5x5 board of the Q-learning engine: cells, the row-major state
    index that numbers the rows of the value table, and move resolution. */
module Grid {

  /** Side length of the square board. */
  const Size: int := 5
  /** Number of cells, which is also the number of rows of the value table. */
  const Cells: int := 25
  /** Number of actions, which is also the width of a value-table row. */
  const Actions: int := 4

  /** The action indices, in the order the value table stores them. */
  const Up: int := 0
  const Right: int := 1
  const Down: int := 2
  const Left: int := 3

  datatype Option<T> = None | Some(value: T)

  /** A cell as (row, column); row 0 is the top row. */
  datatype Coord = Coord(row: int, col: int)

  /** The single goal cell, fixed for the engine's lifetime. */
  const Goal: Coord := Coord(4, 4)
  /** The cell every episode starts from and every terminal step returns to. */
  const Start: Coord := Coord(0, 0)

  predicate InGrid(c: Coord) {
    0 <= c.row < Size && 0 <= c.col < Size
  }

  /** State index of a cell: row * 5 + col. */
  function Encode(c: Coord): (s: int)
    ensures InGrid(c) ==> 0 <= s < Cells
  {
    c.row * Size + c.col
  }

  /** The cell of a state index: row = s / 5, col = s % 5 (both operands are
      non-negative, so Kotlin's truncating operators agree with Dafny's). */
  function Decode(s: int): (c: Coord)
    requires 0 <= s
    ensures 0 <= c.col < Size && c.row * Size + c.col == s
    ensures s < Cells ==> InGrid(c)
  {
    Coord(s / Size, s % Size)
  }

  /** Encoding and then decoding a board cell gives the cell back. */
  lemma EncodeDecode(c: Coord)
    requires InGrid(c)
    ensures 0 <= Encode(c) < Cells && Decode(Encode(c)) == c
  {
  }

  /** Every state index in [0, 24] is the encoding of exactly one board cell. */
  lemma DecodeEncode(s: int)
    requires 0 <= s < Cells
    ensures InGrid(Decode(s)) && Encode(Decode(s)) == s
  {
  }

  /** The row and column offset of each of the four actions. */
  function Delta(action: int): (d: Coord)
    requires 0 <= action < Actions
    ensures (if d.row < 0 then -d.row else d.row) + (if d.col < 0 then -d.col else d.col) == 1
  {
    [Coord(-1, 0), Coord(0, 1), Coord(1, 0), Coord(0, -1)][action]
  }

  /** The moves that would leave the board, and the action values that are
      not actions at all. */
  predicate Blocked(c: Coord, action: int) {
    || !(0 <= action < Actions)
    || (action == Up && c.row == 0)
    || (action == Right && c.col == Size - 1)
    || (action == Down && c.row == Size - 1)
    || (action == Left && c.col == 0)
  }

  /** State index of the cell one step from `c` in direction `action`, or -1
      when that step leaves the board; the board does not wrap around. */
  function Move(c: Coord, action: int): (s: int)
    ensures InGrid(c) ==> (s == -1 <==> Blocked(c, action))
    ensures InGrid(c) && s != -1 ==>
      0 <= s < Cells && Decode(s) == Coord(c.row + Delta(action).row, c.col + Delta(action).col)
  {
    var next :=
      if action == Up then (if c.row - 1 >= 0 then Some(Coord(c.row - 1, c.col)) else None)
      else if action == Right then (if c.col + 1 <= 4 then Some(Coord(c.row, c.col + 1)) else None)
      else if action == Down then (if c.row + 1 <= 4 then Some(Coord(c.row + 1, c.col)) else None)
      else if action == Left then (if c.col - 1 >= 0 then Some(Coord(c.row, c.col - 1)) else None)
      else None;
    match next
    case None => -1
    case Some(n) => Encode(n)
  }
}
