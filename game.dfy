/** ChessGame: the board, the side to move and the cached squares of the two kings; legal moves
    are the generated moves that do not leave the mover's king attacked. */
module Game {
  import opened Wrappers
  import opened Pieces
  import opened Positions
  import opened Moves
  import opened Board
  import opened PawnMovesCalc
  import opened PieceMovesCalc
  import opened CheckCalculator

  datatype InvalidMoveException = InvalidMoveException(message: string)

  // ---------------------------------------------------------------------------------------
  // Finding a king

  /** The first cell from i on, in row-major order, holding team's king. */
  function FirstKingFrom(g: Grid, team: TeamColor, i: int): (r: Option<Position>)
    requires 0 <= i <= 64
    ensures r.Some? ==> r.value.InBounds() && i <= Index(r.value) && g[Index(r.value)] == Some(Piece(team, KING))
    ensures r.Some? ==> forall j :: i <= j < Index(r.value) ==> g[j] != Some(Piece(team, KING))
    ensures r.None? ==> forall j :: i <= j < 64 ==> g[j] != Some(Piece(team, KING))
    decreases 64 - i
  {
    if i == 64 then None
    else if g[i] == Some(Piece(team, KING)) then
      var p := Position(i / 8 + 1, i % 8 + 1);
      IndexBijective(p, p, i);
      Some(p)
    else FirstKingFrom(g, team, i + 1)
  }

  /** The square of team's king found first in a row-major scan, if there is one. */
  function FirstKing(g: Grid, team: TeamColor): (r: Option<Position>)
    ensures r.Some? ==> r.value.InBounds() && At(g, r.value) == Some(Piece(team, KING))
    ensures r.Some? ==> forall q: Position :: q.InBounds() && Index(q) < Index(r.value) ==> At(g, q) != Some(Piece(team, KING))
    ensures r.None? ==> forall q: Position :: At(g, q) != Some(Piece(team, KING))
  {
    FirstKingFrom(g, team, 0)
  }

  /** A king with no king of its colour before it in row-major order is the one found. */
  lemma FirstKingIs(g: Grid, team: TeamColor, p: Position)
    requires p.InBounds() && At(g, p) == Some(Piece(team, KING))
    requires forall q: Position :: q.InBounds() && Index(q) < Index(p) ==> At(g, q) != Some(Piece(team, KING))
    ensures FirstKing(g, team) == Some(p)
  {
    var r := FirstKing(g, team);
    IndexBijective(r.value, p, 0);
  }

  /** Boards with their kings of one colour on the same squares find the same king. */
  lemma {:induction false} FirstKingFromCongruent(g1: Grid, g2: Grid, team: TeamColor, i: int)
    requires 0 <= i <= 64
    requires forall j :: i <= j < 64 ==> (g1[j] == Some(Piece(team, KING)) <==> g2[j] == Some(Piece(team, KING)))
    ensures FirstKingFrom(g1, team, i) == FirstKingFrom(g2, team, i)
    decreases 64 - i
  {
    if i < 64 {
      FirstKingFromCongruent(g1, g2, team, i + 1);
    }
  }

  /** Boards with team's kings on the same squares give the same FirstKing. */
  lemma FirstKingCongruent(g1: Grid, g2: Grid, team: TeamColor)
    requires forall q: Position :: At(g1, q) == Some(Piece(team, KING)) <==> At(g2, q) == Some(Piece(team, KING))
    ensures FirstKing(g1, team) == FirstKing(g2, team)
  {
    forall j | 0 <= j < 64 ensures g1[j] == Some(Piece(team, KING)) <==> g2[j] == Some(Piece(team, KING)) {
      var q := Position(j / 8 + 1, j % 8 + 1);
      IndexBijective(q, q, j);
      assert At(g1, q) == g1[j] && At(g2, q) == g2[j];
    }
    FirstKingFromCongruent(g1, g2, team, 0);
  }

  /** The board has at most one king of the colour. */
  ghost predicate AtMostOneKing(g: Grid, team: TeamColor)
  {
    forall p, q :: At(g, p) == Some(Piece(team, KING)) && At(g, q) == Some(Piece(team, KING)) ==> p == q
  }

  /** The kings of the standard setup are on e1 and e8. */
  lemma StandardKings()
    ensures FirstKing(StandardGrid(), WHITE) == Some(Position(1, 5))
    ensures FirstKing(StandardGrid(), BLACK) == Some(Position(8, 5))
  {
    forall q: Position | q.InBounds() {
      StandardSetup(q);
    }
    FirstKingIs(StandardGrid(), WHITE, Position(1, 5));
    FirstKingIs(StandardGrid(), BLACK, Position(8, 5));
  }

  // ---------------------------------------------------------------------------------------
  // Legal moves, as values

  /** Moving piece along m on g, before any promotion. */
  function Simulate(g: Grid, m: Move, piece: Piece): (r: Grid)
    requires m.start.InBounds() && m.end.InBounds()
    ensures At(r, m.end) == Some(piece)
    ensures m.start != m.end ==> At(r, m.start) == None
    ensures forall q :: q != m.start && q != m.end ==> At(r, q) == At(g, q)
  {
    Put(Put(g, m.start, None), m.end, Some(piece))
  }

  /** The square of the mover's king once m is made: the end square for a king, else the square
      its king was found on. */
  function KingSquareAfter(g: Grid, m: Move, piece: Piece): Option<Position>
  {
    if piece.kind == KING then Some(m.end) else FirstKing(g, piece.color)
  }

  /** Legal moves can be computed from start: the test of a move's safety needs the mover's king,
      which is missing only if the mover is not a king, its colour has no king on the board, and a
      move is generated. */
  predicate CanTest(g: Grid, start: Position)
  {
    !Occupied(g, start) || At(g, start).value.kind == KING ||
    FirstKing(g, At(g, start).value.color).Some? || PieceMoves(g, start) == {}
  }

  /** After m, the mover's king is not attacked. */
  predicate KeepsKingSafe(g: Grid, m: Move, piece: Piece)
  {
    m.start.InBounds() && m.end.InBounds() && KingSquareAfter(g, m, piece).Some? &&
    !PositionInDanger(Simulate(g, m, piece), KingSquareAfter(g, m, piece).value)
  }

  /** The generated moves from start that keep the mover's king safe. */
  function LegalMoves(g: Grid, start: Position): (r: set<Move>)
    ensures !Occupied(g, start) ==> r == {}
    ensures Occupied(g, start) ==> r <= PieceMoves(g, start)
    ensures forall m :: m in r ==> KeepsKingSafe(g, m, At(g, start).value)
  {
    if !Occupied(g, start) then {}
    else
      var piece := At(g, start).value;
      set m | m in PieceMoves(g, start) && KeepsKingSafe(g, m, piece)
  }

  /** None of the team's pieces has a legal move. */
  ghost predicate NoLegalMoves(g: Grid, team: TeamColor)
  {
    forall p: Position :: p.InBounds() ==> Stuck(g, p, team)
  }

  /** The square does not hold a piece of team that has a legal move. */
  ghost predicate Stuck(g: Grid, p: Position, team: TeamColor)
  {
    Occupied(g, p) && At(g, p).value.color == team ==> LegalMoves(g, p) == {}
  }

  /** The scan of a row: one more square found stuck extends the stretch. */
  lemma StuckExtends(g: Grid, team: TeamColor, r: int, c: int)
    requires forall q: Position :: q.InBounds() && q.row == r && q.col < c ==> Stuck(g, q, team)
    requires Stuck(g, Position(r, c), team)
    ensures forall q: Position :: q.InBounds() && q.row == r && q.col < c + 1 ==> Stuck(g, q, team)
  {
    forall q: Position | q.InBounds() && q.row == r && q.col < c + 1 ensures Stuck(g, q, team) {
      if q != Position(r, c) {
        assert q.col < c;
      }
    }
  }

  /** The row-major scan for a stuck team: one more row found stuck extends the stretch. */
  lemma RowsExtend(g: Grid, team: TeamColor, r: int)
    requires forall q: Position :: q.InBounds() && q.row < r ==> Stuck(g, q, team)
    requires forall q: Position :: q.InBounds() && q.row == r ==> Stuck(g, q, team)
    ensures forall q: Position :: q.InBounds() && q.row < r + 1 ==> Stuck(g, q, team)
  {
  }

  /** Team's king is attacked. */
  predicate InCheck(g: Grid, team: TeamColor)
    requires FirstKing(g, team).Some?
  {
    PositionInDanger(g, FirstKing(g, team).value)
  }

  /** The move may be played by turn: it is legal, ends on the board, and the mover is turn's. */
  predicate Playable(g: Grid, turn: TeamColor, move: Move)
  {
    move in LegalMoves(g, move.start) && move.end.InBounds() && At(g, move.start).value.color == turn
  }

  /** The board after a playable move: the mover leaves its square for the end square, and a pawn
      reaching the first or last row becomes a piece of turn's colour of the promotion kind. */
  function AfterMove(g: Grid, move: Move, turn: TeamColor): Grid
    requires move.start.InBounds() && move.end.InBounds() && Occupied(g, move.start)
    requires At(g, move.start).value.kind == PAWN && (move.end.row == 1 || move.end.row == 8) ==> move.promotion.Some?
  {
    var mover := At(g, move.start).value;
    var moved := Simulate(g, move, mover);
    if mover.kind == PAWN && (move.end.row == 1 || move.end.row == 8)
    then Put(moved, move.end, Some(Piece(turn, move.promotion.value)))
    else moved
  }

  /** A playable move is a generated move, so it leaves its start for another square, and it
      names a promotion exactly when a pawn reaches row 1 or 8. */
  lemma PlayableShape(g: Grid, turn: TeamColor, move: Move)
    requires Playable(g, turn, move)
    ensures Occupied(g, move.start) && move.start.InBounds() && move.end.InBounds() && move.start != move.end
    ensures At(g, move.end) == None || At(g, move.end).value.color != turn
    ensures At(g, move.start).value.kind == PAWN && (move.end.row == 1 || move.end.row == 8) ==> move.promotion.Some?
    ensures KingSquareAfter(g, move, At(g, move.start).value).Some?
  {
    PieceMoveShape(g, move.start, move);
  }

  /** Playing a playable move never leaves the mover's king attacked, promotion included: the
      promoted piece is of the mover's colour, and those never create danger. */
  lemma PlayedMoveKeepsKingSafe(g: Grid, turn: TeamColor, move: Move)
    requires Playable(g, turn, move)
    ensures (At(g, move.start).value.kind == PAWN && (move.end.row == 1 || move.end.row == 8) ==> move.promotion.Some?) &&
      KingSquareAfter(g, move, At(g, move.start).value).Some? &&
      !PositionInDanger(AfterMove(g, move, turn), KingSquareAfter(g, move, At(g, move.start).value).value)
  {
    PlayableShape(g, turn, move);
    var mover := At(g, move.start).value;
    var moved := Simulate(g, move, mover);
    var k := KingSquareAfter(g, move, mover).value;
    if mover.kind == PAWN && (move.end.row == 1 || move.end.row == 8) {
      assert k != move.end && At(moved, k) == Some(Piece(turn, KING));
      DangerIgnoresOwnPromotion(moved, k, move.end, move.promotion.value);
    }
  }

  // ---------------------------------------------------------------------------------------
  // The game object

  class ChessGame {
    var board: ChessBoard
    var teamTurn: TeamColor
    var whiteKingLocation: Option<Position>
    var blackKingLocation: Option<Position>

    /** The board is well formed and each king cache holds the square a row-major scan finds. */
    ghost predicate Valid()
      reads this, board, board.grid
    {
      board.Valid() &&
      whiteKingLocation == FirstKing(board.Squares(), WHITE) &&
      blackKingLocation == FirstKing(board.Squares(), BLACK)
    }

    /** The cached king square of the colour. */
    function KingLocation(team: TeamColor): Option<Position>
      reads this
    {
      if team == WHITE then whiteKingLocation else blackKingLocation
    }

    /** A new game: the standard setup, white to move, kings cached on e1 and e8. */
    constructor ()
      ensures Valid() && fresh(board) && fresh(board.grid)
      ensures board.Squares() == StandardGrid() && teamTurn == WHITE
      ensures whiteKingLocation == Some(Position(1, 5)) && blackKingLocation == Some(Position(8, 5))
    {
      var b := new ChessBoard();
      b.ResetBoard();
      board := b;
      teamTurn := WHITE;
      whiteKingLocation := Some(Position(1, 5));
      blackKingLocation := Some(Position(8, 5));
      StandardKings();
    }

    /** Sets the side to move. */
    method SetTeamTurn(team: TeamColor)
      modifies this
      ensures teamTurn == team
      ensures board == old(board) && whiteKingLocation == old(whiteKingLocation) && blackKingLocation == old(blackKingLocation)
    {
      teamTurn := team;
    }

    /** The first square in a row-major scan holding team's king, if any. */
    method FindKing(team: TeamColor) returns (r: Option<Position>)
      requires board.Valid()
      ensures r == FirstKing(board.Squares(), team)
    {
      ghost var g := board.Squares();
      var kingToFind := Piece(team, KING);
      for row := 1 to GRID_SIZE + 1
        invariant forall q: Position :: q.InBounds() && q.row < row ==> At(g, q) != Some(kingToFind)
      {
        for col := 1 to GRID_SIZE + 1
          invariant forall q: Position :: q.InBounds() && (q.row < row || (q.row == row && q.col < col)) ==>
            At(g, q) != Some(kingToFind)
        {
          var searchPos := Position(row, col);
          if board.HasPieceAtPos(searchPos) && board.GetPiece(searchPos).value.Equals(kingToFind) {
            FirstKingIs(g, team, searchPos);
            return Some(searchPos);
          }
        }
      }
      return None;
    }

    /** Replaces the board with a copy of b and recomputes both king caches from it. */
    method SetBoard(b: ChessBoard)
      requires b.Valid()
      modifies this
      ensures fresh(board) && fresh(board.grid) && Valid()
      ensures board.Squares() == b.Squares() && teamTurn == old(teamTurn)
    {
      board := b.Copy();
      whiteKingLocation := FindKing(WHITE);
      blackKingLocation := FindKing(BLACK);
    }

    /** After piece makes move, a king's cache follows it to the end square. */
    method UpdateKingLoc(move: Move, piece: Piece)
      modifies this
      ensures piece.kind == KING && piece.color == WHITE ==> whiteKingLocation == Some(move.end)
      ensures !(piece.kind == KING && piece.color == WHITE) ==> whiteKingLocation == old(whiteKingLocation)
      ensures piece.kind == KING && piece.color == BLACK ==> blackKingLocation == Some(move.end)
      ensures !(piece.kind == KING && piece.color == BLACK) ==> blackKingLocation == old(blackKingLocation)
      ensures board == old(board) && teamTurn == old(teamTurn)
    {
      if piece.kind == KING {
        if piece.color == WHITE {
          whiteKingLocation := Some(move.end);
        } else {
          blackKingLocation := Some(move.end);
        }
      }
    }

    /** Whether team's king, at its cached square, is attacked. */
    function IsInCheck(teamColor: TeamColor): (b: bool)
      reads this, board, board.grid
      requires board.Valid() && KingLocation(teamColor).Some?
      ensures Valid() ==> (b <==> InCheck(board.Squares(), teamColor))
    {
      var posToCheck := if teamColor == WHITE then whiteKingLocation else blackKingLocation;
      PositionInDanger(board.Squares(), posToCheck.value)
    }

    /** Flips the side to move. */
    method FlipTeamTurn()
      modifies this
      ensures teamTurn == Opponent(old(teamTurn))
      ensures board == old(board) && whiteKingLocation == old(whiteKingLocation) && blackKingLocation == old(blackKingLocation)
    {
      teamTurn := if teamTurn == WHITE then BLACK else WHITE;
    }

    /** One round of the validMoves loop: plays the move on the live board, moves a king's cache
        with it, tests the mover's king, then puts back a fresh copy of the board it was given. */
    method TryMove(move: Move, piece: Piece, boardCopy: ChessBoard) returns (safe: bool)
      requires Valid() && move.start.InBounds() && move.end.InBounds()
      requires KingSquareAfter(board.Squares(), move, piece).Some?
      requires boardCopy.Valid() && boardCopy.Squares() == board.Squares() && boardCopy.grid != board.grid
      modifies this, board.grid
      ensures Valid() && fresh(board) && fresh(board.grid)
      ensures board.Squares() == old(board.Squares()) && teamTurn == old(teamTurn)
      ensures whiteKingLocation == old(whiteKingLocation) && blackKingLocation == old(blackKingLocation)
      ensures safe == KeepsKingSafe(old(board.Squares()), move, piece)
    {
      ghost var g := board.Squares();
      board.RemovePiece(move.start);
      board.AddPiece(move.end, piece);
      assert board.Squares() == Simulate(g, move, piece);
      UpdateKingLoc(move, piece);
      assert KingLocation(piece.color) == KingSquareAfter(g, move, piece);
      var inCheck := IsInCheck(piece.color);
      safe := !inCheck;
      SetBoard(boardCopy);
    }

    /** The legal moves of the piece on startPosition. Each generated move is tried on the live
        board, the mover's king is tested, and the board is then replaced by a fresh copy of the
        original, which also recomputes the king caches. */
    method ValidMoves(startPosition: Position) returns (validMoves: set<Move>)
      requires Valid() && startPosition.InBounds() && CanTest(board.Squares(), startPosition)
      modifies this, board.grid
      ensures Valid() && board.Squares() == old(board.Squares()) && teamTurn == old(teamTurn)
      ensures whiteKingLocation == old(whiteKingLocation) && blackKingLocation == old(blackKingLocation)
      ensures board == old(board) || (fresh(board) && fresh(board.grid))
      ensures validMoves == LegalMoves(old(board.Squares()), startPosition)
    {
      ghost var g := board.Squares();
      var piece := board.GetPiece(startPosition);
      var boardCopy := board.Copy();
      validMoves := {};
      if !board.HasPieceAtPos(startPosition) {
        return;
      }
      var moves := GetPieceMoves(board, startPosition);
      var remaining := moves;
      while remaining != {}
        invariant remaining <= moves
        invariant Valid() && board.Squares() == g && teamTurn == old(teamTurn)
        invariant whiteKingLocation == old(whiteKingLocation) && blackKingLocation == old(blackKingLocation)
        invariant board == old(board) || (fresh(board) && fresh(board.grid))
        invariant fresh(boardCopy) && fresh(boardCopy.grid) && boardCopy.Valid() && boardCopy.Squares() == g
        invariant board.grid != boardCopy.grid
        invariant forall m :: m in validMoves <==> m in moves && m !in remaining && KeepsKingSafe(g, m, piece.value)
        decreases remaining
      {
        var move :| move in remaining;
        PieceMoveShape(g, startPosition, move);
        var safe := TryMove(move, piece.value, boardCopy);
        if safe {
          validMoves := validMoves + {move};
        }
        remaining := remaining - {move};
      }
      assert validMoves == LegalMoves(g, startPosition);
    }

    /** Whether no piece of team has a legal move, scanning the squares row by row. */
    method NoValidMovesLeft(team: TeamColor) returns (b: bool)
      requires Valid() && FirstKing(board.Squares(), team).Some?
      modifies this, board.grid
      ensures Valid() && board.Squares() == old(board.Squares()) && teamTurn == old(teamTurn)
      ensures whiteKingLocation == old(whiteKingLocation) && blackKingLocation == old(blackKingLocation)
      ensures board == old(board) || (fresh(board) && fresh(board.grid))
      ensures b == NoLegalMoves(old(board.Squares()), team)
    {
      ghost var g := board.Squares();
      for r := 1 to GRID_SIZE + 1
        invariant Valid() && board.Squares() == g && teamTurn == old(teamTurn)
        invariant whiteKingLocation == old(whiteKingLocation) && blackKingLocation == old(blackKingLocation)
        invariant board == old(board) || (fresh(board) && fresh(board.grid))
        invariant forall q: Position :: q.InBounds() && q.row < r ==> Stuck(g, q, team)
      {
        var stuck := IsRowStuck(r, team);
        if !stuck {
          return false;
        }
        RowsExtend(g, team, r);
      }
      return true;
    }

    /** The inner loop of noValidMovesLeft: the squares of row r, left to right; it stops at the
        first piece of team that has a valid move. */
    method IsRowStuck(r: int, team: TeamColor) returns (stuck: bool)
      requires Valid() && 1 <= r <= 8 && FirstKing(board.Squares(), team).Some?
      modifies this, board.grid
      ensures Valid() && board.Squares() == old(board.Squares()) && teamTurn == old(teamTurn)
      ensures whiteKingLocation == old(whiteKingLocation) && blackKingLocation == old(blackKingLocation)
      ensures board == old(board) || (fresh(board) && fresh(board.grid))
      ensures stuck == forall q: Position :: q.InBounds() && q.row == r ==> Stuck(old(board.Squares()), q, team)
    {
      ghost var g := board.Squares();
      for c := 1 to GRID_SIZE + 1
        invariant Valid() && board.Squares() == g && teamTurn == old(teamTurn)
        invariant whiteKingLocation == old(whiteKingLocation) && blackKingLocation == old(blackKingLocation)
        invariant board == old(board) || (fresh(board) && fresh(board.grid))
        invariant forall q: Position :: q.InBounds() && q.row == r && q.col < c ==> Stuck(g, q, team)
      {
        var posToCheck := Position(r, c);
        var stuck := IsStuck(posToCheck, team);
        if !stuck {
          return false;
        }
        StuckExtends(g, team, r, c);
      }
      return true;
    }

    /** The body of the scan in noValidMovesLeft: a square holding a piece of team is asked for
        its valid moves; any other square has none to offer. */
    method IsStuck(posToCheck: Position, team: TeamColor) returns (stuck: bool)
      requires Valid() && posToCheck.InBounds() && FirstKing(board.Squares(), team).Some?
      modifies this, board.grid
      ensures Valid() && board.Squares() == old(board.Squares()) && teamTurn == old(teamTurn)
      ensures whiteKingLocation == old(whiteKingLocation) && blackKingLocation == old(blackKingLocation)
      ensures board == old(board) || (fresh(board) && fresh(board.grid))
      ensures stuck == Stuck(old(board.Squares()), posToCheck, team)
    {
      stuck := true;
      if board.HasPieceAtPos(posToCheck) && board.GetPiece(posToCheck).value.color == team {
        var moves := ValidMoves(posToCheck);
        stuck := moves == {};
      }
    }

    /** In check, with no legal move. */
    method IsInCheckmate(teamColor: TeamColor) returns (b: bool)
      requires Valid() && FirstKing(board.Squares(), teamColor).Some?
      modifies this, board.grid
      ensures Valid() && board.Squares() == old(board.Squares()) && teamTurn == old(teamTurn)
      ensures whiteKingLocation == old(whiteKingLocation) && blackKingLocation == old(blackKingLocation)
      ensures board == old(board) || (fresh(board) && fresh(board.grid))
      ensures b == (InCheck(old(board.Squares()), teamColor) && NoLegalMoves(old(board.Squares()), teamColor))
    {
      b := IsInCheck(teamColor);
      if b {
        b := NoValidMovesLeft(teamColor);
      }
    }

    /** Not in check, with no legal move. */
    method IsInStalemate(teamColor: TeamColor) returns (b: bool)
      requires Valid() && FirstKing(board.Squares(), teamColor).Some?
      modifies this, board.grid
      ensures Valid() && board.Squares() == old(board.Squares()) && teamTurn == old(teamTurn)
      ensures whiteKingLocation == old(whiteKingLocation) && blackKingLocation == old(blackKingLocation)
      ensures board == old(board) || (fresh(board) && fresh(board.grid))
      ensures b == (!InCheck(old(board.Squares()), teamColor) && NoLegalMoves(old(board.Squares()), teamColor))
    {
      var inCheck := IsInCheck(teamColor);
      b := false;
      if !inCheck {
        b := NoValidMovesLeft(teamColor);
      }
    }

    /** A move is invalid unless it is legal, ends on the board, and moves a piece of the side
        to move. */
    method IsInvalidMove(move: Move) returns (b: bool)
      requires Valid() && move.start.InBounds() && CanTest(board.Squares(), move.start)
      modifies this, board.grid
      ensures Valid() && board.Squares() == old(board.Squares()) && teamTurn == old(teamTurn)
      ensures whiteKingLocation == old(whiteKingLocation) && blackKingLocation == old(blackKingLocation)
      ensures board == old(board) || (fresh(board) && fresh(board.grid))
      ensures b == !Playable(old(board.Squares()), teamTurn, move)
    {
      var validMoves := ValidMoves(move.start);
      if move !in validMoves || !move.end.InBounds() {
        return true;
      }
      return board.GetPiece(move.start).value.color != teamTurn;
    }

    /** A pawn standing on row 1 or 8 at the end of move is replaced by a piece of the side to
        move, of the move's promotion kind. */
    method ValidatePromotion(move: Move)
      requires board.Valid() && move.end.InBounds() && board.GetPiece(move.end).Some?
      requires board.GetPiece(move.end).value.kind == PAWN && (move.end.row == 1 || move.end.row == 8) ==>
        move.promotion.Some?
      modifies board.grid
      ensures board.Valid()
      ensures board.Squares() ==
        if old(board.GetPiece(move.end)).value.kind == PAWN && (move.end.row == 1 || move.end.row == 8)
        then Put(old(board.Squares()), move.end, Some(Piece(teamTurn, move.promotion.value)))
        else old(board.Squares())
    {
      var row := move.end.row;
      if board.GetPiece(move.end).value.kind == PAWN && (row == 1 || row == 8) {
        board.RemovePiece(move.end);
        board.AddPiece(move.end, Piece(teamTurn, move.promotion.value));
        SameSquaresSameGrid(board.Squares(), Put(old(board.Squares()), move.end, Some(Piece(teamTurn, move.promotion.value))));
      }
    }

    /** Plays move for the side to move, or refuses it. A refused move changes nothing; a played
        one moves the piece, promotes a pawn reaching the last row, moves the king's cache with a
        king, and passes the turn; the mover's king is then not attacked. */
    method MakeMove(move: Move) returns (r: Result<(), InvalidMoveException>)
      requires Valid() && move.start.InBounds() && CanTest(board.Squares(), move.start)
      modifies this, board.grid
      ensures board == old(board) || (fresh(board) && fresh(board.grid))
      ensures board.Valid()
      ensures !Playable(old(board.Squares()), old(teamTurn), move) ==>
        r == Failure(InvalidMoveException("Illegal move.")) && Valid() &&
        board.Squares() == old(board.Squares()) && teamTurn == old(teamTurn) &&
        whiteKingLocation == old(whiteKingLocation) && blackKingLocation == old(blackKingLocation)
      ensures Playable(old(board.Squares()), old(teamTurn), move) ==>
        r == Success(()) && teamTurn == Opponent(old(teamTurn)) &&
        (old(board.GetPiece(move.start)).value.kind == PAWN && (move.end.row == 1 || move.end.row == 8) ==> move.promotion.Some?) &&
        board.Squares() == AfterMove(old(board.Squares()), move, old(teamTurn))
      ensures Playable(old(board.Squares()), old(teamTurn), move) ==>
        KingLocation(old(teamTurn)) == KingSquareAfter(old(board.Squares()), move, old(board.GetPiece(move.start)).value) &&
        KingLocation(Opponent(old(teamTurn))) == old(KingLocation(Opponent(teamTurn))) &&
        KingLocation(old(teamTurn)).Some? &&
        !PositionInDanger(board.Squares(), KingLocation(old(teamTurn)).value)
      ensures Playable(old(board.Squares()), old(teamTurn), move) &&
        AtMostOneKing(old(board.Squares()), WHITE) && AtMostOneKing(old(board.Squares()), BLACK) &&
        !(old(board.GetPiece(move.end)).Some? && old(board.GetPiece(move.end)).value.kind == KING)
        ==> Valid()
    {
      ghost var g := board.Squares();
      ghost var turn := teamTurn;
      var invalid := IsInvalidMove(move);
      if invalid {
        return Failure(InvalidMoveException("Illegal move."));
      }
      PlayableShape(g, turn, move);
      ApplyMove(move);
      return Success(());
    }

    /** The second half of makeMove, once the move is known to be playable: the piece leaves its
        square and lands on the target, the king cache follows a king, a pawn reaching the last
        row is replaced by its promotion and the other side is to move. */
    method ApplyMove(move: Move)
      requires Valid() && Playable(board.Squares(), teamTurn, move)
      requires move.start.InBounds() && move.end.InBounds() && Occupied(board.Squares(), move.start)
      requires At(board.Squares(), move.start).value.kind == PAWN && (move.end.row == 1 || move.end.row == 8) ==>
        move.promotion.Some?
      modifies this, board.grid
      ensures board == old(board) && board.Valid()
      ensures teamTurn == Opponent(old(teamTurn))
      ensures board.Squares() == AfterMove(old(board.Squares()), move, old(teamTurn))
      ensures KingLocation(old(teamTurn)) == KingSquareAfter(old(board.Squares()), move, old(board.GetPiece(move.start)).value)
      ensures KingLocation(teamTurn) == old(KingLocation(Opponent(teamTurn)))
      ensures KingLocation(old(teamTurn)).Some? &&
        !PositionInDanger(board.Squares(), KingLocation(old(teamTurn)).value)
      ensures AtMostOneKing(old(board.Squares()), WHITE) && AtMostOneKing(old(board.Squares()), BLACK) &&
        !(old(board.GetPiece(move.end)).Some? && old(board.GetPiece(move.end)).value.kind == KING)
        ==> Valid()
    {
      ghost var g := board.Squares();
      ghost var turn := teamTurn;
      PlayableShape(g, turn, move);
      var movePiece := board.GetPiece(move.start).value;
      board.RemovePiece(move.start);
      board.AddPiece(move.end, movePiece);
      assert board.Squares() == Simulate(g, move, movePiece);
      UpdateKingLoc(move, movePiece);
      ValidatePromotion(move);
      FlipTeamTurn();
      PlayedMoveKeepsKingSafe(g, turn, move);
      if AtMostOneKing(g, WHITE) && AtMostOneKing(g, BLACK) && !(At(g, move.end).Some? && At(g, move.end).value.kind == KING) {
        KingCachesAfterMove(g, turn, move, WHITE);
        KingCachesAfterMove(g, turn, move, BLACK);
      }
    }

    /** Two games are equal when their boards hold the same pieces and the same side is to move. */
    function Equals(that: ChessGame): (b: bool)
      reads this, board, board.grid, that, that.board, that.board.grid
      requires board.Valid() && that.board.Valid()
      ensures b <==> board.Squares() == that.board.Squares() && teamTurn == that.teamTurn
    {
      SameSquaresSameGrid(board.Squares(), that.board.Squares());
      board.Equals(that.board) && teamTurn == that.teamTurn
    }
  }

  /** Where the kings of a colour stand after a move that captures no king: a moving king stands
      only on its target (it was the only one of its colour), a promoted pawn is never a king,
      and otherwise the kings stay where they were. */
  lemma KingsAfterMove(g: Grid, turn: TeamColor, move: Move, team: TeamColor, q: Position)
    requires move.start.InBounds() && move.end.InBounds() && move.start != move.end && Occupied(g, move.start)
    requires At(g, move.start).value.kind == PAWN && (move.end.row == 1 || move.end.row == 8) ==>
      move.promotion.Some? && move.promotion.value in PromotionKinds
    requires !(At(g, move.end).Some? && At(g, move.end).value.kind == KING) && AtMostOneKing(g, team)
    ensures At(AfterMove(g, move, turn), q) == Some(Piece(team, KING)) <==>
      if At(g, move.start).value == Piece(team, KING) then q == move.end else At(g, q) == Some(Piece(team, KING))
  {
    var after := AfterMove(g, move, turn);
    var mover := At(g, move.start).value;
    if q == move.end {
      if mover.kind == PAWN && (move.end.row == 1 || move.end.row == 8) {
        assert At(after, q) == Some(Piece(turn, move.promotion.value));
      } else {
        assert At(after, q) == Some(mover);
      }
    } else if q == move.start {
      assert At(after, q) == None;
    } else {
      assert At(after, q) == At(g, q);
      assert mover == Piece(team, KING) ==> At(g, q) != Some(Piece(team, KING));
    }
  }

  /** With at most one king of each colour and no king captured, the row-major scan after a
      played move finds the moved king on its end square and every other king where it was. */
  lemma KingCachesAfterMove(g: Grid, turn: TeamColor, move: Move, team: TeamColor)
    requires Playable(g, turn, move) && AtMostOneKing(g, WHITE) && AtMostOneKing(g, BLACK)
    requires !(At(g, move.end).Some? && At(g, move.end).value.kind == KING)
    ensures (At(g, move.start).value.kind == PAWN && (move.end.row == 1 || move.end.row == 8) ==> move.promotion.Some?) &&
      FirstKing(AfterMove(g, move, turn), team) ==
        if At(g, move.start).value == Piece(team, KING) then Some(move.end) else FirstKing(g, team)
  {
    PlayableShape(g, turn, move);
    PieceMoveShape(g, move.start, move);
    var after := AfterMove(g, move, turn);
    var king := Some(Piece(team, KING));
    if At(g, move.start).value == Piece(team, KING) {
      forall q: Position | q.InBounds() && q != move.end ensures At(after, q) != king {
        KingsAfterMove(g, turn, move, team, q);
      }
      KingsAfterMove(g, turn, move, team, move.end);
      forall q: Position | q.InBounds() && Index(q) < Index(move.end) ensures At(after, q) != king {
      }
      FirstKingIs(after, team, move.end);
    } else {
      forall q: Position ensures At(g, q) == king <==> At(after, q) == king {
        KingsAfterMove(g, turn, move, team, q);
      }
      FirstKingCongruent(g, after, team);
    }
  }
}
