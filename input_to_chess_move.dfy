/** InputToChessMove: reading a square ("e2") or a move ("e2e4") typed by a player. */
module InputToChessMove {
  import opened Wrappers
  import opened Positions
  import opened Moves
  import opened Game

  /** String.toUpperCase on one character: the letters a-z become A-Z, every other character
      is kept. */
  function ToUpper(c: char): (u: char)
    ensures 'a' <= c <= 'z' ==> 'A' <= u <= 'Z' && u as int == c as int - 32
    ensures !('a' <= c <= 'z') ==> u == c
  {
    if 'a' <= c <= 'z' then (c as int - 32) as char else c
  }

  function UpperCase(s: string): (r: string)
    ensures |r| == |s| && forall i :: 0 <= i < |s| ==> r[i] == ToUpper(s[i])
  {
    seq(|s|, i requires 0 <= i < |s| => ToUpper(s[i]))
  }

  /** Character.getNumericValue: digits give 0-9, letters of either case 10-35, anything
      else -1. */
  function NumericValue(c: char): int
  {
    if '0' <= c <= '9' then c as int - '0' as int
    else if 'a' <= c <= 'z' then c as int - 'a' as int + 10
    else if 'A' <= c <= 'Z' then c as int - 'A' as int + 10
    else -1
  }

  /** The column a character names once upper-cased: 'A' is 1, 'H' is 8. */
  function ColumnValue(c: char): int
  {
    c as int - 'A' as int + 1
  }

  /** The characters that name a column, in either case, and a row. */
  predicate IsColumnChar(c: char) { 'A' <= c <= 'H' || 'a' <= c <= 'h' }

  predicate IsRowChar(c: char) { '1' <= c <= '8' }

  /** A row is in range exactly for the digits 1 to 8: letters give 10 or more. */
  lemma RowInRange(c: char)
    ensures 1 <= NumericValue(c) <= 8 <==> IsRowChar(c)
    ensures IsRowChar(c) ==> NumericValue(c) == c as int - '0' as int
  {
  }

  /** A column is in range exactly for the letters A to H, in either case. */
  lemma ColumnInRange(c: char)
    ensures 1 <= ColumnValue(ToUpper(c)) <= 8 <==> IsColumnChar(c)
  {
  }

  /** The characters naming an in-bounds square, upper case: (1, 1) is "A1". */
  function ColumnLetter(col: int): char
    requires 1 <= col <= 8
  {
    ('A' as int + col - 1) as char
  }

  function RowDigit(row: int): char
    requires 1 <= row <= 8
  {
    ('0' as int + row) as char
  }

  function PositionToString(p: Position): (s: string)
    requires p.InBounds()
    ensures |s| == 2 && IsColumnChar(s[0]) && IsRowChar(s[1]) && UpperCase(s) == s
  {
    [ColumnLetter(p.col), RowDigit(p.row)]
  }

  function MoveToString(m: Move): (s: string)
    requires m.start.InBounds() && m.end.InBounds()
    ensures |s| == 4
  {
    PositionToString(m.start) + PositionToString(m.end)
  }

  /** getPositionFromString: two characters, a column letter and a row digit, in either case;
      anything else is refused with the source's message. A square it returns is on the board
      and is written, in upper case, as the input was. */
  function GetPositionFromString(input: string): (r: Result<Position, InvalidMoveException>)
    ensures |input| != 2 ==> r == Failure(InvalidMoveException("Input string gives invalid position."))
    ensures |input| == 2 && !(IsColumnChar(input[0]) && IsRowChar(input[1])) ==>
      r == Failure(InvalidMoveException("Requested position is out of bounds"))
    ensures |input| == 2 && IsColumnChar(input[0]) && IsRowChar(input[1]) ==> r.Success?
    ensures r.Success? ==> r.value.InBounds() && PositionToString(r.value) == UpperCase(input)
  {
    if |input| != 2 then Failure(InvalidMoveException("Input string gives invalid position."))
    else
      var upper := UpperCase(input);
      var col := ColumnValue(upper[0]);
      var row := NumericValue(upper[1]);
      RowInRange(upper[1]);
      ColumnInRange(input[0]);
      if row < 1 || row > 8 || col < 1 || col > 8 then
        Failure(InvalidMoveException("Requested position is out of bounds"))
      else
        Success(Position(row, col))
  }

  /** getMoveFromString: four characters naming the start and end squares, checked in that
      order, each with its own message; the move it returns names no promotion kind. */
  function GetMoveFromString(input: string): (r: Result<Move, InvalidMoveException>)
    ensures |input| != 4 ==> r == Failure(InvalidMoveException("Input string is invalid"))
    ensures |input| == 4 && !(IsColumnChar(input[0]) && IsRowChar(input[1])) ==>
      r == Failure(InvalidMoveException("Given current position is out of bounds."))
    ensures (|input| == 4 && IsColumnChar(input[0]) && IsRowChar(input[1]) &&
             !(IsColumnChar(input[2]) && IsRowChar(input[3]))) ==>
      r == Failure(InvalidMoveException("Requested position out of bounds."))
    ensures (|input| == 4 && IsColumnChar(input[0]) && IsRowChar(input[1]) &&
             IsColumnChar(input[2]) && IsRowChar(input[3])) ==> r.Success?
    ensures r.Success? ==>
      r.value.start.InBounds() && r.value.end.InBounds() && r.value.promotion == None &&
      MoveToString(r.value) == UpperCase(input)
  {
    if |input| != 4 then Failure(InvalidMoveException("Input string is invalid"))
    else
      var upper := UpperCase(input);
      var colOld := ColumnValue(upper[0]);
      var rowOld := NumericValue(upper[1]);
      var colNew := ColumnValue(upper[2]);
      var rowNew := NumericValue(upper[3]);
      RowInRange(upper[1]);
      RowInRange(upper[3]);
      ColumnInRange(input[0]);
      ColumnInRange(input[2]);
      if rowOld < 1 || rowOld > 8 || colOld < 1 || colOld > 8 then
        Failure(InvalidMoveException("Given current position is out of bounds."))
      else if rowNew < 1 || rowNew > 8 || colNew < 1 || colNew > 8 then
        Failure(InvalidMoveException("Requested position out of bounds."))
      else
        Success(PlainMove(Position(rowOld, colOld), Position(rowNew, colNew)))
  }

  /** Every square reads back from its own name. */
  lemma PositionRoundTrip(p: Position)
    requires p.InBounds()
    ensures GetPositionFromString(PositionToString(p)) == Success(p)
  {
    var r := GetPositionFromString(PositionToString(p));
    assert r.Success?;
    assert PositionToString(r.value) == PositionToString(p);
    assert r.value.row as int + '0' as int == p.row + '0' as int;
  }

  /** Every move without a promotion kind reads back from its own name. */
  lemma MoveRoundTrip(m: Move)
    requires m.start.InBounds() && m.end.InBounds() && m.promotion == None
    ensures GetMoveFromString(MoveToString(m)) == Success(m)
  {
    var s := MoveToString(m);
    var r := GetMoveFromString(s);
    assert r.Success?;
    assert PositionToString(r.value.start) == s[..2] == PositionToString(m.start);
    assert PositionToString(r.value.end) == s[2..] == PositionToString(m.end);
  }

  /** Reading ignores case: "e2e4" and "E2E4" are the same move. */
  lemma ParsingIgnoresCase(input: string)
    ensures GetPositionFromString(UpperCase(input)) == GetPositionFromString(input)
    ensures GetMoveFromString(UpperCase(input)) == GetMoveFromString(input)
  {
    assert UpperCase(UpperCase(input)) == UpperCase(input);
  }

  /** A move is read exactly as its two halves are read as squares. */
  lemma MoveIsTwoPositions(input: string)
    requires |input| == 4
    ensures GetMoveFromString(input).Success? <==>
      GetPositionFromString(input[..2]).Success? && GetPositionFromString(input[2..]).Success?
    ensures GetMoveFromString(input).Success? ==>
      GetMoveFromString(input).value ==
        PlainMove(GetPositionFromString(input[..2]).value, GetPositionFromString(input[2..]).value)
  {
    var a, b := input[..2], input[2..];
    if GetMoveFromString(input).Success? {
      var m := GetMoveFromString(input).value;
      PositionRoundTrip(m.start);
      PositionRoundTrip(m.end);
      assert UpperCase(a) == UpperCase(input)[..2];
      assert UpperCase(b) == UpperCase(input)[2..];
      ParsingIgnoresCase(a);
      ParsingIgnoresCase(b);
    }
  }
}
