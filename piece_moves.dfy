/** ChessPiece.pieceMoves: the moves of whatever piece stands on a square, by its kind, before
    any check of the mover's own king. */
module PieceMovesCalc {
  import opened Wrappers
  import opened Pieces
  import opened Positions
  import opened Moves
  import opened Board
  import opened MovesCalc
  import opened RookMovesCalc
  import opened BishopMovesCalc
  import opened QueenMovesCalc
  import opened KnightMovesCalc
  import opened KingMovesCalc
  import opened PawnMovesCalc

  /** The generator chosen by the kind of the piece standing on pos. */
  function PieceMoves(g: Grid, pos: Position): set<Move>
    requires Occupied(g, pos)
  {
    match At(g, pos).value.kind
    case ROOK => RookMoves(g, pos)
    case KNIGHT => KnightMoves(g, pos)
    case BISHOP => BishopMoves(g, pos)
    case QUEEN => QueenMoves(g, pos)
    case KING => KingMoves(g, pos)
    case PAWN => PawnMoves(g, pos)
  }

  /** The moves of the piece on myPosition. The piece the call is made on plays no part: the
      board's occupant decides. */
  method GetPieceMoves(board: ChessBoard, myPosition: Position) returns (moves: set<Move>)
    requires board.Valid() && Occupied(board.Squares(), myPosition)
    ensures moves == PieceMoves(board.Squares(), myPosition)
  {
    moves := {};
    match board.GetPiece(myPosition).value.kind {
      case ROOK =>
        var rookMoves := GetRookMoves(board, myPosition);
        moves := moves + rookMoves;
      case KNIGHT =>
        var knightMoves := GetKnightMoves(board, myPosition);
        moves := moves + knightMoves;
      case BISHOP =>
        var bishopMoves := GetBishopMoves(board, myPosition);
        moves := moves + bishopMoves;
      case QUEEN =>
        var queenMoves := GetQueenMoves(board, myPosition);
        moves := moves + queenMoves;
      case KING =>
        var kingMoves := GetKingMoves(board, myPosition);
        moves := moves + kingMoves;
      case PAWN =>
        var pawnMoves := GetPawnMoves(board, myPosition);
        moves := moves + pawnMoves;
    }
  }

  /** Every generated move leaves pos for another on-board square holding no piece of the mover's
      colour, and carries a promotion kind only for a pawn reaching its promotion row. */
  lemma PieceMoveShape(g: Grid, pos: Position, m: Move)
    requires Occupied(g, pos) && m in PieceMoves(g, pos)
    ensures m.start == pos && m.end.InBounds() && m.end != pos
    ensures At(g, m.end) == None || At(g, m.end).value.color != At(g, pos).value.color
    ensures m.promotion.Some? ==>
      At(g, pos).value.kind == PAWN && m.end.row == PromotionRow(At(g, pos).value.color) &&
      m.promotion.value in PromotionKinds
    ensures At(g, pos).value.kind == PAWN && (m.end.row == 1 || m.end.row == 8) ==> m.promotion.Some?
  {
    match At(g, pos).value.kind
    case ROOK => RookMoveShape(g, pos, m);
    case KNIGHT => KnightMoveCharacterization(g, pos, m);
    case BISHOP => BishopMoveShape(g, pos, m);
    case QUEEN => QueenMoveShape(g, pos, m);
    case KING => KingMoveCharacterization(g, pos, m);
    case PAWN => PawnMoveShape(g, pos, m);
  }
}
