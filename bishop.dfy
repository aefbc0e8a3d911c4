/** BishopMovesCalc: a bishop scans the four diagonals until the edge or the first piece. */
module BishopMovesCalc {
  import opened Wrappers
  import opened Pieces
  import opened Positions
  import opened Moves
  import opened Board
  import opened MovesCalc

  /** The four diagonals, in the order getBishopMoves scans them: up-right, up-left, down-left,
      down-right. */
  const BishopDirections: seq<(int, int)> := [(UP, RIGHT), (UP, LEFT), (DOWN, LEFT), (DOWN, RIGHT)]

  /** The bishop moves from s: the union of the four diagonal scans for the colour standing on s. */
  function BishopMoves(g: Grid, s: Position): set<Move>
    requires Occupied(g, s)
  {
    Rays(g, s, At(g, s).value.color, BishopDirections)
  }

  /** The cursor update inside each diagonal loop: incRow or decRow, then incCol or decCol. */
  method StepDiagonal(pos: ChessPosition, rowStep: int, colStep: int)
    requires IsUnitStep(rowStep, colStep) && rowStep != SAME_LINE && colStep != SAME_LINE
    modifies pos
    ensures pos.Value() == Along(old(pos.Value()), rowStep, colStep, 1)
  {
    if rowStep == UP {
      pos.IncRow();
    } else {
      pos.DecRow();
    }
    if colStep == RIGHT {
      pos.IncCol();
    } else {
      pos.DecCol();
    }
  }

  /** One of the four diagonal loops of getBishopMoves: starting one diagonal square away, adds
      each empty square and a rival on the first occupied one, stepping the cursor with
      incRow/decRow and incCol/decCol. */
  method ScanDiagonal(board: ChessBoard, currPos: Position, team: TeamColor, rowStep: int, colStep: int)
    returns (possibleMoves: set<Move>)
    requires board.Valid() && currPos.InBounds()
    requires IsUnitStep(rowStep, colStep) && rowStep != SAME_LINE && colStep != SAME_LINE
    ensures possibleMoves == Ray(board.Squares(), currPos, team, rowStep, colStep, 1)
  {
    ghost var g := board.Squares();
    possibleMoves := {};
    var endPos := new ChessPosition(currPos.row + rowStep, currPos.col + colStep);
    ghost var k := 1;
    while endPos.IsInBounds()
      invariant 1 <= k <= 8
      invariant endPos.Value() == Along(currPos, rowStep, colStep, k)
      invariant ClearBetween(g, currPos, rowStep, colStep, 1, k)
      invariant possibleMoves == ScannedPrefix(currPos, rowStep, colStep, k)
      decreases 8 - k
    {
      var p := endPos.Value();
      if board.HasPieceAtPos(p) {
        ScanEnds(g, currPos, team, rowStep, colStep, k);
        if board.HasRivalAtPos(p, team) {
          possibleMoves := possibleMoves + {Move(currPos, p, None)};
        }
        return;
      }
      possibleMoves := possibleMoves + {Move(currPos, p, None)};
      StepDiagonal(endPos, rowStep, colStep);
      ClearExtends(g, currPos, rowStep, colStep, k);
      AlongNext(currPos, rowStep, colStep, k);
      PrefixStep(currPos, rowStep, colStep, k);
      k := k + 1;
    }
    ScanEnds(g, currPos, team, rowStep, colStep, k);
  }

  /** All bishop moves from currPos. */
  method GetBishopMoves(board: ChessBoard, currPos: Position) returns (possibleMoves: set<Move>)
    requires board.Valid() && Occupied(board.Squares(), currPos)
    ensures possibleMoves == BishopMoves(board.Squares(), currPos)
  {
    possibleMoves := {};
    var team := board.GetPiece(currPos).value.color;
    var upRight := ScanDiagonal(board, currPos, team, UP, RIGHT);
    possibleMoves := possibleMoves + upRight;
    var upLeft := ScanDiagonal(board, currPos, team, UP, LEFT);
    possibleMoves := possibleMoves + upLeft;
    var downLeft := ScanDiagonal(board, currPos, team, DOWN, LEFT);
    possibleMoves := possibleMoves + downLeft;
    var downRight := ScanDiagonal(board, currPos, team, DOWN, RIGHT);
    possibleMoves := possibleMoves + downRight;
    RaysOfFour(board.Squares(), currPos, team, BishopDirections);
  }

  /** A bishop move changes row and column by the same non-zero amount, lands on the board,
      promotes nothing and never onto a piece of the bishop's colour. */
  lemma BishopMoveShape(g: Grid, s: Position, m: Move)
    requires Occupied(g, s) && m in BishopMoves(g, s)
    ensures m.start == s && m.promotion == None && m.end.InBounds()
    ensures m.end.row - s.row == m.end.col - s.col || m.end.row - s.row == s.col - m.end.col
    ensures m.end.row != s.row && m.end.col != s.col
    ensures At(g, m.end) == None || At(g, m.end).value.color != At(g, s).value.color
  {
    var team := At(g, s).value.color;
    RaysMembership(g, s, team, BishopDirections, m);
    var i :| 0 <= i < 4 && m in Ray(g, s, team, BishopDirections[i].0, BishopDirections[i].1, 1);
    RayMoveShape(g, s, team, BishopDirections[i].0, BishopDirections[i].1, m);
  }

  /** A bishop has at most 4 * 7 destinations. */
  lemma BishopMovesBound(g: Grid, s: Position)
    requires Occupied(g, s)
    ensures |BishopMoves(g, s)| <= 28
  {
    var team := At(g, s).value.color;
    var d := BishopDirections;
    RaysOfFour(g, s, team, d);
    var r0, r1 := Ray(g, s, team, d[0].0, d[0].1, 1), Ray(g, s, team, d[1].0, d[1].1, 1);
    var r2, r3 := Ray(g, s, team, d[2].0, d[2].1, 1), Ray(g, s, team, d[3].0, d[3].1, 1);
    RaySize(g, s, team, d[0].0, d[0].1);
    RaySize(g, s, team, d[1].0, d[1].1);
    RaySize(g, s, team, d[2].0, d[2].1);
    RaySize(g, s, team, d[3].0, d[3].1);
    assert |r0 + r1| <= |r0| + |r1|;
    assert |r0 + r1 + r2| <= |r0 + r1| + |r2|;
    assert |r0 + r1 + r2 + r3| <= |r0 + r1 + r2| + |r3|;
  }
}
