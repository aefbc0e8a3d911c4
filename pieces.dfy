/** Team colours and pieces: ChessGame.TeamColor and the immutable (color, kind) ChessPiece. */
module Pieces {

  datatype TeamColor = WHITE | BLACK

  datatype PieceType = KING | QUEEN | BISHOP | KNIGHT | ROOK | PAWN

  /** A piece is a value: two pieces of the same colour and kind are interchangeable. */
  datatype Piece = Piece(color: TeamColor, kind: PieceType)
  {
    /** ChessPiece.getTeamColor */
    function GetTeamColor(): (c: TeamColor)
      ensures this == Piece(c, kind)
    {
      color
    }

    /** ChessPiece.getPieceType */
    function GetPieceType(): (k: PieceType)
      ensures this == Piece(color, k)
    {
      kind
    }

    /** ChessPiece.copy: a new piece with the same colour and kind. */
    function Copy(): (p: Piece)
      ensures p.color == color && p.kind == kind
    {
      Piece(color, kind)
    }

    /** ChessPiece.equals compares colour and kind, which is value equality. */
    function Equals(that: Piece): (b: bool)
      ensures b <==> this == that
    {
      color == that.color && kind == that.kind
    }
  }

  /** The other team. */
  function Opponent(c: TeamColor): (o: TeamColor)
    ensures o != c
  {
    if c == WHITE then BLACK else WHITE
  }

  /** Flipping twice gives back the colour, and every colour other than c is Opponent(c). */
  lemma OpponentInvolution(c: TeamColor, d: TeamColor)
    ensures Opponent(Opponent(c)) == c
    ensures d != c ==> d == Opponent(c)
  {
  }
}
