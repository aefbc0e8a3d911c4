/** RookMovesCalc: a rook scans up, down, left and right until the edge or the first piece. */
module RookMovesCalc {
  import opened Wrappers
  import opened Pieces
  import opened Positions
  import opened Moves
  import opened Board
  import opened MovesCalc

  /** The four scan directions, in the order getRookMoves tries them. */
  const RookDirections: seq<(int, int)> :=
    [(UP, SAME_LINE), (DOWN, SAME_LINE), (SAME_LINE, LEFT), (SAME_LINE, RIGHT)]

  /** The rook moves from s: the union of the four orthogonal scans for the colour standing on s. */
  function RookMoves(g: Grid, s: Position): set<Move>
    requires Occupied(g, s)
  {
    Rays(g, s, At(g, s).value.color, RookDirections)
  }

  /** Steps the cursor one square in the scan direction: rowOffset UP or DOWN moves the row,
      colOffset LEFT or RIGHT moves the column, any other offset leaves that coordinate alone. */
  method MoveToNextPosition(pos: ChessPosition, rowOffset: int, colOffset: int)
    modifies pos
    ensures pos.Value() == Along(old(pos.Value()), rowOffset, colOffset, 1)
  {
    if rowOffset == UP {
      pos.IncRow();
    } else if rowOffset == DOWN {
      pos.DecRow();
    }
    if colOffset == LEFT {
      pos.DecCol();
    } else if colOffset == RIGHT {
      pos.IncCol();
    }
  }

  /** The moves found by one orthogonal scan from currPos. */
  method GetOrthogonalMoves(board: ChessBoard, currPos: Position, rowOffset: int, colOffset: int)
    returns (possibleMoves: set<Move>)
    requires board.Valid() && Occupied(board.Squares(), currPos)
    requires IsUnitStep(rowOffset, colOffset)
    ensures possibleMoves ==
      Ray(board.Squares(), currPos, At(board.Squares(), currPos).value.color, rowOffset, colOffset, 1)
  {
    ghost var g := board.Squares();
    possibleMoves := {};
    var r := currPos.row;
    var c := currPos.col;
    var team := board.GetPiece(currPos).value.color;
    var endPos := new ChessPosition(r + rowOffset, c + colOffset);
    ghost var k := 1;
    while endPos.IsInBounds()
      invariant 1 <= k <= 8
      invariant endPos.Value() == Along(currPos, rowOffset, colOffset, k)
      invariant ClearBetween(g, currPos, rowOffset, colOffset, 1, k)
      invariant possibleMoves == ScannedPrefix(currPos, rowOffset, colOffset, k)
      decreases 8 - k
    {
      var p := endPos.Value();
      if board.HasPieceAtPos(p) {
        ScanEnds(g, currPos, team, rowOffset, colOffset, k);
        if board.HasRivalAtPos(p, team) {
          possibleMoves := possibleMoves + {Move(currPos, p, None)};
        }
        return;
      }
      possibleMoves := possibleMoves + {Move(currPos, p, None)};
      MoveToNextPosition(endPos, rowOffset, colOffset);
      ClearExtends(g, currPos, rowOffset, colOffset, k);
      AlongNext(currPos, rowOffset, colOffset, k);
      PrefixStep(currPos, rowOffset, colOffset, k);
      k := k + 1;
    }
    ScanEnds(g, currPos, team, rowOffset, colOffset, k);
  }

  /** All rook moves from currPos. */
  method GetRookMoves(board: ChessBoard, currPos: Position) returns (possibleMoves: set<Move>)
    requires board.Valid() && Occupied(board.Squares(), currPos)
    ensures possibleMoves == RookMoves(board.Squares(), currPos)
  {
    ghost var g := board.Squares();
    ghost var team := At(g, currPos).value.color;
    possibleMoves := {};
    var up := GetOrthogonalMoves(board, currPos, UP, SAME_LINE);
    possibleMoves := possibleMoves + up;
    var down := GetOrthogonalMoves(board, currPos, DOWN, SAME_LINE);
    possibleMoves := possibleMoves + down;
    var left := GetOrthogonalMoves(board, currPos, SAME_LINE, LEFT);
    possibleMoves := possibleMoves + left;
    var right := GetOrthogonalMoves(board, currPos, SAME_LINE, RIGHT);
    possibleMoves := possibleMoves + right;
    RookMovesAreFourScans(g, currPos);
  }

  /** The rook moves, written out as the four scans. */
  lemma RookMovesAreFourScans(g: Grid, s: Position)
    requires Occupied(g, s)
    ensures RookMoves(g, s) ==
      Ray(g, s, At(g, s).value.color, UP, SAME_LINE, 1) + Ray(g, s, At(g, s).value.color, DOWN, SAME_LINE, 1) +
      Ray(g, s, At(g, s).value.color, SAME_LINE, LEFT, 1) + Ray(g, s, At(g, s).value.color, SAME_LINE, RIGHT, 1)
  {
    RaysOfFour(g, s, At(g, s).value.color, RookDirections);
  }

  /** A rook move stays on the start square's row or column, moves at least one square, lands on
      the board, promotes nothing and never onto a piece of the rook's colour. */
  lemma RookMoveShape(g: Grid, s: Position, m: Move)
    requires Occupied(g, s) && m in RookMoves(g, s)
    ensures m.start == s && m.promotion == None && m.end.InBounds() && m.end != s
    ensures m.end.row == s.row || m.end.col == s.col
    ensures At(g, m.end) == None || At(g, m.end).value.color != At(g, s).value.color
  {
    var team := At(g, s).value.color;
    RaysMembership(g, s, team, RookDirections, m);
    var i :| 0 <= i < 4 && m in Ray(g, s, team, RookDirections[i].0, RookDirections[i].1, 1);
    RayMoveShape(g, s, team, RookDirections[i].0, RookDirections[i].1, m);
  }

  /** Every empty square in a straight line up from the rook, up to the first piece, is a
      destination (the other directions are alike). */
  lemma RookReachesOpenFile(g: Grid, s: Position, j: int)
    requires Occupied(g, s) && 1 <= j
    requires ClearBetween(g, s, UP, SAME_LINE, 1, j + 1)
    ensures Move(s, Position(s.row + j, s.col), None) in RookMoves(g, s)
  {
    var team := At(g, s).value.color;
    RayIncludesClearSquares(g, s, team, UP, SAME_LINE, j);
    assert Along(s, UP, SAME_LINE, j) == Position(s.row + j, s.col);
    RookMovesAreFourScans(g, s);
  }
}
