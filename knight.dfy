/** KnightMovesCalc: a knight jumps to the eight squares two steps one way and one step the other,
    whatever stands in between. */
module KnightMovesCalc {
  import opened Wrappers
  import opened Pieces
  import opened Positions
  import opened Moves
  import opened Board
  import opened MovesCalc

  /** The eight jumps, in the order getKnightMoves tries them. */
  const KnightOffsets: seq<(int, int)> := [(2, -1), (2, 1), (1, -2), (1, 2), (-1, -2), (-1, 2), (-2, -1), (-2, 1)]

  /** The knight moves from s: plain moves to the claimable squares a jump away. */
  function KnightMoves(g: Grid, s: Position): set<Move>
    requires Occupied(g, s)
  {
    Stepping(g, s, KnightOffsets)
  }

  /** All knight moves from currPos: each of the eight jumps is tried in turn. */
  method GetKnightMoves(board: ChessBoard, currPos: Position) returns (possibleMoves: set<Move>)
    requires board.Valid() && Occupied(board.Squares(), currPos)
    ensures possibleMoves == KnightMoves(board.Squares(), currPos)
  {
    ghost var g := board.Squares();
    KnightJumps();
    possibleMoves := {};
    var r := currPos.row;
    var c := currPos.col;
    var endPos := Position(r + 2, c - 1);
    ghost var before0 := possibleMoves;
    possibleMoves := CheckMoveAndAdd(possibleMoves, board, currPos, endPos);
    SteppingTried(g, currPos, KnightOffsets, 0, endPos, before0, possibleMoves);
    endPos := Position(r + 2, c + 1);
    ghost var before1 := possibleMoves;
    possibleMoves := CheckMoveAndAdd(possibleMoves, board, currPos, endPos);
    SteppingTried(g, currPos, KnightOffsets, 1, endPos, before1, possibleMoves);
    endPos := Position(r + 1, c - 2);
    ghost var before2 := possibleMoves;
    possibleMoves := CheckMoveAndAdd(possibleMoves, board, currPos, endPos);
    SteppingTried(g, currPos, KnightOffsets, 2, endPos, before2, possibleMoves);
    endPos := Position(r + 1, c + 2);
    ghost var before3 := possibleMoves;
    possibleMoves := CheckMoveAndAdd(possibleMoves, board, currPos, endPos);
    SteppingTried(g, currPos, KnightOffsets, 3, endPos, before3, possibleMoves);
    endPos := Position(r - 1, c - 2);
    ghost var before4 := possibleMoves;
    possibleMoves := CheckMoveAndAdd(possibleMoves, board, currPos, endPos);
    SteppingTried(g, currPos, KnightOffsets, 4, endPos, before4, possibleMoves);
    endPos := Position(r - 1, c + 2);
    ghost var before5 := possibleMoves;
    possibleMoves := CheckMoveAndAdd(possibleMoves, board, currPos, endPos);
    SteppingTried(g, currPos, KnightOffsets, 5, endPos, before5, possibleMoves);
    endPos := Position(r - 2, c - 1);
    ghost var before6 := possibleMoves;
    possibleMoves := CheckMoveAndAdd(possibleMoves, board, currPos, endPos);
    SteppingTried(g, currPos, KnightOffsets, 6, endPos, before6, possibleMoves);
    endPos := Position(r - 2, c + 1);
    ghost var before7 := possibleMoves;
    possibleMoves := CheckMoveAndAdd(possibleMoves, board, currPos, endPos);
    SteppingTried(g, currPos, KnightOffsets, 7, endPos, before7, possibleMoves);
    SteppingWhole(g, currPos, KnightOffsets);
  }

  /** The eight jumps, one by one. */
  lemma KnightJumps()
    ensures |KnightOffsets| == 8
    ensures KnightOffsets[0] == (2, -1) && KnightOffsets[1] == (2, 1)
    ensures KnightOffsets[2] == (1, -2) && KnightOffsets[3] == (1, 2)
    ensures KnightOffsets[4] == (-1, -2) && KnightOffsets[5] == (-1, 2)
    ensures KnightOffsets[6] == (-2, -1) && KnightOffsets[7] == (-2, 1)
  {
  }

  /** A knight move is a plain move to an on-board square one row and two columns, or two rows and
      one column, away, holding no piece of the knight's colour; and every such square is one. */
  lemma KnightMoveCharacterization(g: Grid, s: Position, m: Move)
    requires Occupied(g, s)
    ensures m in KnightMoves(g, s) <==>
      m.start == s && m.promotion == None && m.end.InBounds() &&
      ((Abs(m.end.row - s.row) == 1 && Abs(m.end.col - s.col) == 2) ||
       (Abs(m.end.row - s.row) == 2 && Abs(m.end.col - s.col) == 1)) &&
      (At(g, m.end) == None || At(g, m.end).value.color != At(g, s).value.color)
  {
    SteppingMembership(g, s, KnightOffsets, m);
    var o := (m.end.row - s.row, m.end.col - s.col);
    if m.start == s && m.promotion == None && o in KnightOffsets {
      assert m == Move(s, Shift(s, o), None);
    }
  }

  function Abs(x: int): int
  {
    if x < 0 then -x else x
  }

  /** Whether a knight may jump somewhere depends only on the knight's own square and the target:
      boards that agree on those two squares give the move alike. */
  lemma KnightIgnoresOtherSquares(g1: Grid, g2: Grid, s: Position, m: Move)
    requires Occupied(g1, s) && At(g1, s) == At(g2, s) && At(g1, m.end) == At(g2, m.end)
    ensures m in KnightMoves(g1, s) <==> m in KnightMoves(g2, s)
  {
    KnightMoveCharacterization(g1, s, m);
    KnightMoveCharacterization(g2, s, m);
  }

  /** A knight has at most eight moves. */
  lemma KnightMovesBound(g: Grid, s: Position)
    requires Occupied(g, s)
    ensures |KnightMoves(g, s)| <= 8
  {
    SteppingSize(g, s, KnightOffsets);
  }
}
