/** CheckCalculator: whether the piece on a square could be captured by the opponent. The test
    runs the move generators from the threatened square, as if its occupant moved like a bishop,
    rook, knight or king, and looks for a matching opponent piece at the far end; pawns are
    tested directly. */
module CheckCalculator {
  import opened Wrappers
  import opened Pieces
  import opened Positions
  import opened Moves
  import opened Board
  import opened MovesCalc
  import opened RookMovesCalc
  import opened BishopMovesCalc
  import opened KnightMovesCalc
  import opened KingMovesCalc
  import opened PawnMovesCalc

  /** The piece on position is attacked. An empty square never is. */
  function PositionInDanger(g: Grid, position: Position): (r: bool)
    ensures !Occupied(g, position) ==> !r
  {
    if !Occupied(g, position) then false
    else
      var team := At(g, position).value.color;
      var opponent := if team == WHITE then BLACK else WHITE;
      (InCheckDiagonally(g, position, opponent) || InCheckOrthogonally(g, position, opponent)) ||
      InCheckByPawn(g, position, opponent) || InCheckByKnight(g, position, opponent) ||
      InCheckByKing(g, position, opponent)
  }

  /** An opponent bishop or queen sits at the end of one of the bishop moves from position. */
  predicate InCheckDiagonally(g: Grid, position: Position, opponent: TeamColor)
    requires Occupied(g, position)
  {
    exists move | move in BishopMoves(g, position) ::
      At(g, move.end) == Some(Piece(opponent, BISHOP)) || At(g, move.end) == Some(Piece(opponent, QUEEN))
  }

  /** An opponent rook or queen sits at the end of one of the rook moves from position. */
  predicate InCheckOrthogonally(g: Grid, position: Position, opponent: TeamColor)
    requires Occupied(g, position)
  {
    exists move | move in RookMoves(g, position) ::
      At(g, move.end) == Some(Piece(opponent, ROOK)) || At(g, move.end) == Some(Piece(opponent, QUEEN))
  }

  /** An opponent pawn stands diagonally adjacent on the side it attacks from: one row below if
      the opponent is white, one row above if black. */
  predicate InCheckByPawn(g: Grid, position: Position, opponent: TeamColor)
  {
    var checkRow := if opponent == WHITE then position.row - 1 else position.row + 1;
    var checkPawnLeft := Position(checkRow, position.col - 1);
    var checkPawnRight := Position(checkRow, position.col + 1);
    (Occupied(g, checkPawnLeft) && At(g, checkPawnLeft) == Some(Piece(opponent, PAWN))) ||
    (Occupied(g, checkPawnRight) && At(g, checkPawnRight) == Some(Piece(opponent, PAWN)))
  }

  /** An opponent knight sits at the end of one of the knight moves from position. */
  predicate InCheckByKnight(g: Grid, position: Position, opponent: TeamColor)
    requires Occupied(g, position)
  {
    exists move | move in KnightMoves(g, position) :: At(g, move.end) == Some(Piece(opponent, KNIGHT))
  }

  /** An opponent king sits at the end of one of the king moves from position. */
  predicate InCheckByKing(g: Grid, position: Position, opponent: TeamColor)
    requires Occupied(g, position)
  {
    exists move | move in KingMoves(g, position) :: At(g, move.end) == Some(Piece(opponent, KING))
  }

  /** The opponent tested for is always the other colour than the occupant's. */
  lemma OpponentIsOtherColour(g: Grid, position: Position)
    requires Occupied(g, position)
    ensures PositionInDanger(g, position) <==>
      var opponent := Opponent(At(g, position).value.color);
      InCheckDiagonally(g, position, opponent) || InCheckOrthogonally(g, position, opponent) ||
      InCheckByPawn(g, position, opponent) || InCheckByKnight(g, position, opponent) ||
      InCheckByKing(g, position, opponent)
  {
  }

  /** Diagonal danger: along some diagonal the first piece is an opponent bishop or queen. */
  lemma DiagonalDangerIsFirstPiece(g: Grid, p: Position)
    requires Occupied(g, p)
    ensures var opponent := Opponent(At(g, p).value.color);
      InCheckDiagonally(g, p, opponent) <==>
      exists i, j :: 0 <= i < 4 && FirstPieceAt(g, p, BishopDirections[i].0, BishopDirections[i].1, j) &&
        At(g, Along(p, BishopDirections[i].0, BishopDirections[i].1, j)).value in
          {Piece(opponent, BISHOP), Piece(opponent, QUEEN)}
  {
    var opponent := Opponent(At(g, p).value.color);
    RaysFindFirstPieces(g, p, At(g, p).value.color, BishopDirections, {Piece(opponent, BISHOP), Piece(opponent, QUEEN)});
  }

  /** Orthogonal danger: along some row or column the first piece is an opponent rook or queen. */
  lemma OrthogonalDangerIsFirstPiece(g: Grid, p: Position)
    requires Occupied(g, p)
    ensures var opponent := Opponent(At(g, p).value.color);
      InCheckOrthogonally(g, p, opponent) <==>
      exists i, j :: 0 <= i < 4 && FirstPieceAt(g, p, RookDirections[i].0, RookDirections[i].1, j) &&
        At(g, Along(p, RookDirections[i].0, RookDirections[i].1, j)).value in
          {Piece(opponent, ROOK), Piece(opponent, QUEEN)}
  {
    var opponent := Opponent(At(g, p).value.color);
    RaysFindFirstPieces(g, p, At(g, p).value.color, RookDirections, {Piece(opponent, ROOK), Piece(opponent, QUEEN)});
  }

  /** Knight danger: an opponent knight stands a knight's jump away. */
  lemma KnightDangerIsJumpAway(g: Grid, p: Position)
    requires Occupied(g, p)
    ensures var opponent := Opponent(At(g, p).value.color);
      InCheckByKnight(g, p, opponent) <==>
      exists o :: o in KnightOffsets && At(g, Shift(p, o)) == Some(Piece(opponent, KNIGHT))
  {
    var opponent := Opponent(At(g, p).value.color);
    SteppingFinds(g, p, KnightOffsets, {Piece(opponent, KNIGHT)});
  }

  /** King danger: an opponent king stands on a neighbouring square. */
  lemma KingDangerIsAdjacent(g: Grid, p: Position)
    requires Occupied(g, p)
    ensures var opponent := Opponent(At(g, p).value.color);
      InCheckByKing(g, p, opponent) <==>
      exists o :: o in KingOffsets && At(g, Shift(p, o)) == Some(Piece(opponent, KING))
  {
    var opponent := Opponent(At(g, p).value.color);
    SteppingFinds(g, p, KingOffsets, {Piece(opponent, KING)});
  }

  /** The reverse pawn test agrees with the pawn generator: the piece on p is attacked by a pawn
      iff some opponent pawn has a move ending on p. */
  lemma PawnDangerIsPawnCapture(g: Grid, p: Position)
    requires Occupied(g, p)
    ensures var opponent := Opponent(At(g, p).value.color);
      InCheckByPawn(g, p, opponent) <==>
      exists q, m :: At(g, q) == Some(Piece(opponent, PAWN)) && m in PawnMoves(g, q) && m.end == p
  {
    var team := At(g, p).value.color;
    var opponent := Opponent(team);
    var checkRow := if opponent == WHITE then p.row - 1 else p.row + 1;
    if InCheckByPawn(g, p, opponent) {
      var q := if At(g, Position(checkRow, p.col - 1)) == Some(Piece(opponent, PAWN))
               then Position(checkRow, p.col - 1) else Position(checkRow, p.col + 1);
      var dc := p.col - q.col;
      assert p == Position(q.row + Dir(opponent), q.col + dc);
      assert Capture(g, q, opponent, dc) <= PawnMoves(g, q);
      assert Opponent(opponent) == team;
      var m := if p.row == PromotionRow(opponent) then Move(q, p, Some(ROOK)) else Move(q, p, None);
      assert ROOK in PromotionKinds;
      assert m in Capture(g, q, opponent, dc);
      assert m in PawnMoves(g, q) && m.end == p;
    }
    if q, m :| At(g, q) == Some(Piece(opponent, PAWN)) && m in PawnMoves(g, q) && m.end == p {
      PawnMoveShape(g, q, m);
      assert q == Position(checkRow, p.col - 1) || q == Position(checkRow, p.col + 1);
    }
  }

  /** Danger is always the work of an opponent piece somewhere else on the board. */
  lemma DangerHasOpponentAttacker(g: Grid, p: Position)
    requires PositionInDanger(g, p)
    ensures exists q :: q != p && Occupied(g, q) && At(g, q).value.color == Opponent(At(g, p).value.color)
  {
    var opponent := Opponent(At(g, p).value.color);
    if InCheckDiagonally(g, p, opponent) {
      var m :| m in BishopMoves(g, p) &&
        (At(g, m.end) == Some(Piece(opponent, BISHOP)) || At(g, m.end) == Some(Piece(opponent, QUEEN)));
      BishopMoveShape(g, p, m);
    } else if InCheckOrthogonally(g, p, opponent) {
      var m :| m in RookMoves(g, p) &&
        (At(g, m.end) == Some(Piece(opponent, ROOK)) || At(g, m.end) == Some(Piece(opponent, QUEEN)));
      RookMoveShape(g, p, m);
    } else if InCheckByKnight(g, p, opponent) {
      var m :| m in KnightMoves(g, p) && At(g, m.end) == Some(Piece(opponent, KNIGHT));
      KnightMoveCharacterization(g, p, m);
    } else if InCheckByKing(g, p, opponent) {
      var m :| m in KingMoves(g, p) && At(g, m.end) == Some(Piece(opponent, KING));
      KingMoveCharacterization(g, p, m);
    }
  }

  /** Pieces of the occupant's own colour never create danger: boards with the same occupied
      squares and the same opponent pieces give the same answer, whatever the kinds of the
      occupant's own pieces. */
  lemma DangerIgnoresOwnKinds(g1: Grid, g2: Grid, p: Position)
    requires Occupied(g1, p) && Occupied(g2, p) && At(g1, p).value.color == At(g2, p).value.color
    requires forall q :: Occupied(g1, q) == Occupied(g2, q)
    requires forall q :: HasRival(g1, q, At(g1, p).value.color) || HasRival(g2, q, At(g1, p).value.color) ==>
      At(g1, q) == At(g2, q)
    ensures PositionInDanger(g1, p) == PositionInDanger(g2, p)
  {
    var team := At(g1, p).value.color;
    var opponent := Opponent(team);
    assert LookAlike(g1, g2, team) by {
      forall q ensures Occupied(g1, q) == Occupied(g2, q) && HasRival(g1, q, team) == HasRival(g2, q, team) {
        assert Occupied(g1, q) == Occupied(g2, q);
      }
    }
    // an opponent piece looks the same on both boards
    assert forall q, k :: At(g1, q) == Some(Piece(opponent, k)) <==> At(g2, q) == Some(Piece(opponent, k)) by {
      forall q, k ensures At(g1, q) == Some(Piece(opponent, k)) <==> At(g2, q) == Some(Piece(opponent, k)) {
        assert Occupied(g1, q) == Occupied(g2, q);
        if At(g1, q) == Some(Piece(opponent, k)) {
          assert HasRival(g1, q, team);
        }
        if At(g2, q) == Some(Piece(opponent, k)) {
          assert HasRival(g2, q, team);
        }
      }
    }
    assert InCheckDiagonally(g1, p, opponent) == InCheckDiagonally(g2, p, opponent) by {
      RaysCongruent(g1, g2, p, team, BishopDirections);
      AttackersAgree(g1, g2, BishopMoves(g1, p), Piece(opponent, BISHOP), Piece(opponent, QUEEN));
    }
    assert InCheckOrthogonally(g1, p, opponent) == InCheckOrthogonally(g2, p, opponent) by {
      RaysCongruent(g1, g2, p, team, RookDirections);
      AttackersAgree(g1, g2, RookMoves(g1, p), Piece(opponent, ROOK), Piece(opponent, QUEEN));
    }
    assert InCheckByKnight(g1, p, opponent) == InCheckByKnight(g2, p, opponent) by {
      SteppingCongruent(g1, g2, p, KnightOffsets);
      AttackersAgree(g1, g2, KnightMoves(g1, p), Piece(opponent, KNIGHT), Piece(opponent, KNIGHT));
    }
    assert InCheckByKing(g1, p, opponent) == InCheckByKing(g2, p, opponent) by {
      SteppingCongruent(g1, g2, p, KingOffsets);
      AttackersAgree(g1, g2, KingMoves(g1, p), Piece(opponent, KING), Piece(opponent, KING));
    }
    assert InCheckByPawn(g1, p, opponent) == InCheckByPawn(g2, p, opponent);
  }

  /** Two boards that agree on where the pieces a and b stand agree on whether one of the moves
      ends on such a piece. */
  lemma AttackersAgree(g1: Grid, g2: Grid, moves: set<Move>, a: Piece, b: Piece)
    requires forall q :: At(g1, q) == Some(a) <==> At(g2, q) == Some(a)
    requires forall q :: At(g1, q) == Some(b) <==> At(g2, q) == Some(b)
    ensures (exists m | m in moves :: At(g1, m.end) == Some(a) || At(g1, m.end) == Some(b)) ==
            (exists m | m in moves :: At(g2, m.end) == Some(a) || At(g2, m.end) == Some(b))
  {
  }

  /** In particular, turning one of the occupant's own pieces into another kind, on another
      square, leaves the answer as it was. */
  lemma DangerIgnoresOwnPromotion(g: Grid, p: Position, q: Position, kind: PieceType)
    requires Occupied(g, p) && Occupied(g, q) && q != p && At(g, q).value.color == At(g, p).value.color
    ensures PositionInDanger(Put(g, q, Some(Piece(At(g, p).value.color, kind))), p) == PositionInDanger(g, p)
  {
    var g2 := Put(g, q, Some(Piece(At(g, p).value.color, kind)));
    forall x ensures Occupied(g, x) == Occupied(g2, x) {
      if x != q {
        assert At(g2, x) == At(g, x);
      }
    }
    DangerIgnoresOwnKinds(g, g2, p);
  }
}
