/** ChessMove: a start square, an end square and an optional promotion kind. */
module Moves {
  import opened Wrappers
  import opened Pieces
  import opened Positions

  /** promotion is None for every move that is not a pawn reaching the last row. */
  datatype Move = Move(start: Position, end: Position, promotion: Option<PieceType>)
  {
    function GetStartPosition(): Position { start }

    function GetEndPosition(): Position { end }

    function GetPromotionPiece(): Option<PieceType> { promotion }

    /** ChessMove.equals compares start, end and promotion kind. */
    function Equals(that: Move): (b: bool)
      ensures b <==> this == that
    {
      start == that.start && end == that.end && promotion == that.promotion
    }
  }

  /** The two-argument ChessMove constructor: no promotion kind. */
  function PlainMove(start: Position, end: Position): (m: Move)
    ensures m.GetStartPosition() == start && m.GetEndPosition() == end
    ensures m.GetPromotionPiece() == None
  {
    Move(start, end, None)
  }

  /** The three-argument constructor, read back through the getters. */
  lemma GettersReturnConstructorArguments(start: Position, end: Position, promotion: Option<PieceType>)
    ensures Move(start, end, promotion).GetStartPosition() == start
    ensures Move(start, end, promotion).GetEndPosition() == end
    ensures Move(start, end, promotion).GetPromotionPiece() == promotion
  {
  }

  /** Two moves between the same squares with different promotion kinds are different moves. */
  lemma PromotionDistinguishesMoves(start: Position, end: Position, k1: PieceType, k2: PieceType)
    requires k1 != k2
    ensures !Move(start, end, Some(k1)).Equals(Move(start, end, Some(k2)))
    ensures !Move(start, end, Some(k1)).Equals(PlainMove(start, end))
  {
  }
}
