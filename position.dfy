/** Squares of the board: ChessPosition. */
module Positions {

  const GRID_SIZE: int := 8

  /** A (row, column) pair, 1-indexed, row 1 at the bottom (white's side), column 1 on the left.
      Moves and boards use this immutable value. */
  datatype Position = Position(row: int, col: int)
  {
    /** ChessPosition.isInBounds */
    predicate InBounds()
    {
      row <= GRID_SIZE && row > 0 && col <= GRID_SIZE && col > 0
    }
  }

  /** The mutable ChessPosition object that the sliding-piece scans step across the board
      with incRow/decRow/incCol/decCol. */
  class ChessPosition {
    var row: int
    var col: int

    constructor (row: int, col: int)
      ensures GetRow() == row && GetColumn() == col
    {
      this.row := row;
      this.col := col;
    }

    function GetRow(): int
      reads this
    {
      row
    }

    function GetColumn(): int
      reads this
    {
      col
    }

    /** The value this object currently stands for. */
    function Value(): Position
      reads this
    {
      Position(row, col)
    }

    function IsInBounds(): (b: bool)
      reads this
      ensures b <==> 1 <= row <= 8 && 1 <= col <= 8
    {
      Value().InBounds()
    }

    method IncRow()
      modifies this
      ensures row == old(row) + 1 && col == old(col)
    {
      row := row + 1;
    }

    method DecRow()
      modifies this
      ensures row == old(row) - 1 && col == old(col)
    {
      row := row - 1;
    }

    method IncCol()
      modifies this
      ensures col == old(col) + 1 && row == old(row)
    {
      col := col + 1;
    }

    method DecCol()
      modifies this
      ensures col == old(col) - 1 && row == old(row)
    {
      col := col - 1;
    }

    /** ChessPosition.clone: a new object, equal to this one and sharing no state with it. */
    method Clone() returns (c: ChessPosition)
      ensures fresh(c) && c.Value() == Value()
    {
      c := new ChessPosition(row, col);
    }

    /** ChessPosition.equals: structural over (row, col). */
    function Equals(that: ChessPosition): (b: bool)
      reads this, that
      ensures b <==> Value() == that.Value()
    {
      row == that.row && col == that.col
    }
  }

  /** Stepping a clone leaves the original where it was: the two objects share no state. */
  method CloneIsIndependent(p: ChessPosition) returns (c: ChessPosition)
    ensures fresh(c) && c.row == p.row + 1 && c.col == p.col
    ensures p.Value() == old(p.Value())
  {
    c := p.Clone();
    c.IncRow();
  }
}
