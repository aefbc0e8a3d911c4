/** KingMovesCalc: a king steps to any of the eight neighbouring squares. Whether that leaves it
    in check is decided by the game, not here. */
module KingMovesCalc {
  import opened Wrappers
  import opened Pieces
  import opened Positions
  import opened Moves
  import opened Board
  import opened MovesCalc

  /** The eight neighbours, in the order getKingMoves tries them. */
  const KingOffsets: seq<(int, int)> := [(1, -1), (1, 0), (1, 1), (0, 1), (-1, 1), (-1, 0), (-1, -1), (0, -1)]

  /** The king moves from s: plain moves to the claimable neighbouring squares. */
  function KingMoves(g: Grid, s: Position): set<Move>
    requires Occupied(g, s)
  {
    Stepping(g, s, KingOffsets)
  }

  /** All king moves from currPos, one neighbour at a time. */
  method GetKingMoves(board: ChessBoard, currPos: Position) returns (moves: set<Move>)
    requires board.Valid() && Occupied(board.Squares(), currPos)
    ensures moves == KingMoves(board.Squares(), currPos)
  {
    ghost var g := board.Squares();
    var kingOffsets := KingOffsets;
    moves := {};
    for i := 0 to |kingOffsets|
      invariant moves == Stepping(g, currPos, kingOffsets[..i])
    {
      var offset := kingOffsets[i];
      var newRow := currPos.row + offset.0;
      var newCol := currPos.col + offset.1;
      var endPos := Position(newRow, newCol);
      ghost var before := moves;
      moves := CheckMoveAndAdd(moves, board, currPos, endPos);
      SteppingTried(g, currPos, kingOffsets, i, endPos, before, moves);
    }
    SteppingWhole(g, currPos, kingOffsets);
  }

  /** A king move is a plain move to an on-board neighbouring square holding no piece of the king's
      colour; and every such square is one. */
  lemma KingMoveCharacterization(g: Grid, s: Position, m: Move)
    requires Occupied(g, s)
    ensures m in KingMoves(g, s) <==>
      m.start == s && m.promotion == None && m.end.InBounds() && m.end != s &&
      -1 <= m.end.row - s.row <= 1 && -1 <= m.end.col - s.col <= 1 &&
      (At(g, m.end) == None || At(g, m.end).value.color != At(g, s).value.color)
  {
    SteppingMembership(g, s, KingOffsets, m);
    var o := (m.end.row - s.row, m.end.col - s.col);
    KingOffsetsAreNeighbours(o);
    if m in KingMoves(g, s) {
      var o' :| o' in KingOffsets && m == Move(s, Shift(s, o'), None) && IsClaimablePos(g, m);
      KingOffsetsAreNeighbours(o');
      ClaimableNeverFriendly(g, m);
    } else if m.start == s && m.promotion == None && m.end != s && -1 <= o.0 <= 1 && -1 <= o.1 <= 1 {
      assert m == Move(s, Shift(s, o), None);
    }
  }

  /** The offsets are exactly the eight neighbouring steps. */
  lemma KingOffsetsAreNeighbours(o: (int, int))
    ensures o in KingOffsets <==> -1 <= o.0 <= 1 && -1 <= o.1 <= 1 && o != (0, 0)
  {
  }

  /** A king has at most eight moves. */
  lemma KingMovesBound(g: Grid, s: Position)
    requires Occupied(g, s)
    ensures |KingMoves(g, s)| <= 8
  {
    SteppingSize(g, s, KingOffsets);
  }

  /** A lone king in the corner a1 has exactly three moves. */
  lemma LoneCornerKing(g: Grid, color: TeamColor)
    requires At(g, Position(1, 1)) == Some(Piece(color, KING))
    requires forall p: Position :: p != Position(1, 1) ==> At(g, p) == None
    ensures KingMoves(g, Position(1, 1)) ==
      {Move(Position(1, 1), Position(2, 1), None), Move(Position(1, 1), Position(2, 2), None),
       Move(Position(1, 1), Position(1, 2), None)}
  {
    var s := Position(1, 1);
    forall m | m in KingMoves(g, s)
      ensures m in {Move(s, Position(2, 1), None), Move(s, Position(2, 2), None), Move(s, Position(1, 2), None)}
    {
      KingMoveCharacterization(g, s, m);
    }
    KingMoveCharacterization(g, s, Move(s, Position(2, 1), None));
    KingMoveCharacterization(g, s, Move(s, Position(2, 2), None));
    KingMoveCharacterization(g, s, Move(s, Position(1, 2), None));
  }
}
