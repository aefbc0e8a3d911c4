/** QueenMovesCalc: a queen moves like a bishop or a rook. */
module QueenMovesCalc {
  import opened Wrappers
  import opened Pieces
  import opened Positions
  import opened Moves
  import opened Board
  import opened MovesCalc
  import opened BishopMovesCalc
  import opened RookMovesCalc

  /** The queen moves from s: the bishop moves and the rook moves from s. */
  function QueenMoves(g: Grid, s: Position): set<Move>
    requires Occupied(g, s)
  {
    BishopMoves(g, s) + RookMoves(g, s)
  }

  /** All queen moves from startPosition, collected from the two other generators. */
  method GetQueenMoves(board: ChessBoard, startPosition: Position) returns (moves: set<Move>)
    requires board.Valid() && Occupied(board.Squares(), startPosition)
    ensures moves == QueenMoves(board.Squares(), startPosition)
  {
    moves := {};
    var diagMoves := GetBishopMoves(board, startPosition);
    moves := moves + diagMoves;
    var orthogMoves := GetRookMoves(board, startPosition);
    moves := moves + orthogMoves;
  }

  /** A queen move runs along a row, a column or a diagonal, moves at least one square, lands on
      the board, promotes nothing and never onto a piece of the queen's colour. */
  lemma QueenMoveShape(g: Grid, s: Position, m: Move)
    requires Occupied(g, s) && m in QueenMoves(g, s)
    ensures m.start == s && m.promotion == None && m.end.InBounds() && m.end != s
    ensures m.end.row == s.row || m.end.col == s.col ||
            m.end.row - s.row == m.end.col - s.col || m.end.row - s.row == s.col - m.end.col
    ensures At(g, m.end) == None || At(g, m.end).value.color != At(g, s).value.color
  {
    if m in BishopMoves(g, s) {
      BishopMoveShape(g, s, m);
    } else {
      RookMoveShape(g, s, m);
    }
  }
}
