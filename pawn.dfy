/** PawnMovesCalc: a pawn steps forward one square onto an empty square, or two from its starting
    row over two empty squares, captures one square diagonally forward, and on reaching the far row
    must promote to a rook, knight, bishop or queen. */
module PawnMovesCalc {
  import opened Wrappers
  import opened Pieces
  import opened Positions
  import opened Moves
  import opened Board

  /** White moves up the board (+1), black down (-1). */
  function Dir(team: TeamColor): int
  {
    if team == WHITE then 1 else -1
  }

  /** The row the team's pawns start on. */
  function StartRow(team: TeamColor): int
  {
    if Dir(team) == 1 then 2 else 7
  }

  /** The row on which the team's pawns promote. */
  function PromotionRow(team: TeamColor): int
  {
    if Dir(team) == 1 then 8 else 1
  }

  /** The kinds a pawn may promote to, in the order they are added. */
  const PromotionKinds: seq<PieceType> := [ROOK, KNIGHT, BISHOP, QUEEN]

  /** One move to p for each promotion kind. */
  function PromotionMoves(s: Position, p: Position): set<Move>
  {
    set k | k in PromotionKinds :: Move(s, p, Some(k))
  }

  /** Reaching p: the four promotions on the promotion row, the plain move elsewhere. */
  function Advance(team: TeamColor, s: Position, p: Position): set<Move>
  {
    if p.row == PromotionRow(team) then PromotionMoves(s, p) else {Move(s, p, None)}
  }

  /** The two-square advance from the starting row over two empty squares. */
  function DoubleStep(g: Grid, s: Position, team: TeamColor): set<Move>
  {
    var r, c, d := s.row, s.col, Dir(team);
    if r == StartRow(team) && !Occupied(g, Position(r + d, c)) && !Occupied(g, Position(r + 2 * d, c))
    then {Move(s, Position(r + 2 * d, c), None)}
    else {}
  }

  /** The one-square advance onto an empty square. */
  function SingleStep(g: Grid, s: Position, team: TeamColor): set<Move>
  {
    var r, c, d := s.row, s.col, Dir(team);
    if r + d > 0 && r + d <= 8 && !Occupied(g, Position(r + d, c))
    then Advance(team, s, Position(r + d, c))
    else {}
  }

  /** The diagonal capture towards column c + dc, onto a piece of the opponent. */
  function Capture(g: Grid, s: Position, team: TeamColor, dc: int): set<Move>
  {
    var r, newC, d := s.row, s.col + dc, Dir(team);
    if newC >= 1 && newC <= 8 && Occupied(g, Position(r + d, newC)) &&
       At(g, Position(r + d, newC)).value.color == Opponent(team)
    then Advance(team, s, Position(r + d, newC))
    else {}
  }

  /** The pawn moves from s, for the colour standing on s. */
  function PawnMoves(g: Grid, s: Position): set<Move>
    requires Occupied(g, s)
  {
    var team := At(g, s).value.color;
    DoubleStep(g, s, team) + SingleStep(g, s, team) + Capture(g, s, team, -1) + Capture(g, s, team, 1)
  }

  /** Adds the four promotion moves currPos -> newPos. */
  method AddPromotionMoves(moves: set<Move>, currPos: Position, newPos: Position) returns (moves': set<Move>)
    ensures moves' == moves + PromotionMoves(currPos, newPos)
  {
    var types := [ROOK, KNIGHT, BISHOP, QUEEN];
    moves' := moves;
    for i := 0 to |types|
      invariant moves' == moves + set k | k in types[..i] :: Move(currPos, newPos, Some(k))
    {
      moves' := moves' + {Move(currPos, newPos, Some(types[i]))};
      assert types[..i + 1] == types[..i] + [types[i]];
    }
    assert types[..|types|] == PromotionKinds;
  }

  /** All pawn moves from currPos. */
  method GetPawnMoves(board: ChessBoard, currPos: Position) returns (moves: set<Move>)
    requires board.Valid() && Occupied(board.Squares(), currPos)
    ensures moves == PawnMoves(board.Squares(), currPos)
  {
    ghost var g := board.Squares();
    moves := {};
    var team := board.GetPiece(currPos).value.color;
    var opponent := if team == WHITE then BLACK else WHITE;
    var moveDir := if team == WHITE then 1 else -1;
    var r := currPos.row;
    var c := currPos.col;
    var START_ROW := if moveDir == 1 then 2 else 7;
    var PROMOTION_ROW := if moveDir == 1 then 8 else 1;

    if r == START_ROW && !board.HasPieceAtRowCol(r + moveDir, c) && !board.HasPieceAtRowCol(r + 2 * moveDir, c) {
      moves := moves + {Move(currPos, Position(r + 2 * moveDir, c), None)};
    }
    assert moves == DoubleStep(g, currPos, team);

    if r + moveDir > 0 && r + moveDir <= 8 && !board.HasPieceAtRowCol(r + moveDir, c) {
      var newPos := Position(r + moveDir, c);
      if r + moveDir == PROMOTION_ROW {
        moves := AddPromotionMoves(moves, currPos, newPos);
      } else {
        moves := moves + {Move(currPos, newPos, None)};
      }
    }
    assert moves == DoubleStep(g, currPos, team) + SingleStep(g, currPos, team);
    ghost var forward := moves;

    var dcs := [-1, 1];
    for i := 0 to |dcs|
      invariant i == 0 ==> moves == forward
      invariant i == 1 ==> moves == forward + Capture(g, currPos, team, -1)
      invariant i == 2 ==> moves == forward + Capture(g, currPos, team, -1) + Capture(g, currPos, team, 1)
    {
      moves := TryCapture(moves, board, currPos, opponent, moveDir, PROMOTION_ROW, dcs[i]);
    }
  }

  /** One pass of the capture loop of getPawnMoves: towards column c + dc, a piece of the opponent
      one row forward is captured, with the four promotions on the promotion row. */
  method TryCapture(moves: set<Move>, board: ChessBoard, currPos: Position, opponent: TeamColor,
                    moveDir: int, promotionRow: int, dc: int) returns (moves': set<Move>)
    requires board.Valid() && Occupied(board.Squares(), currPos)
    requires opponent == Opponent(At(board.Squares(), currPos).value.color)
    requires moveDir == Dir(At(board.Squares(), currPos).value.color)
    requires promotionRow == PromotionRow(At(board.Squares(), currPos).value.color)
    ensures moves' == moves + Capture(board.Squares(), currPos, At(board.Squares(), currPos).value.color, dc)
  {
    moves' := moves;
    var r := currPos.row;
    var newC := currPos.col + dc;
    if newC >= 1 && newC <= 8 && board.HasPieceAtRowCol(r + moveDir, newC) &&
       board.GetPiece(Position(r + moveDir, newC)).value.color == opponent {
      var newPos := Position(r + moveDir, newC);
      if r + moveDir == promotionRow {
        moves' := AddPromotionMoves(moves', currPos, newPos);
      } else {
        moves' := moves' + {Move(currPos, newPos, None)};
      }
    }
  }

  /** What every pawn move looks like: it starts at s, ends on the board one row forward (or two,
      from the starting row over an empty square); a straight move lands on an empty square, a
      diagonal one on an opponent's piece one column to either side; it promotes exactly when it
      reaches the promotion row, and then to a rook, knight, bishop or queen. */
  lemma PawnMoveShape(g: Grid, s: Position, m: Move)
    requires Occupied(g, s) && m in PawnMoves(g, s)
    ensures var team := At(g, s).value.color;
      m.start == s && m.end.InBounds() &&
      (m.end.row == s.row + Dir(team) ||
       (m.end.row == s.row + 2 * Dir(team) && s.row == StartRow(team) && m.end.col == s.col &&
        !Occupied(g, Position(s.row + Dir(team), s.col)))) &&
      (m.end.col == s.col ==> !Occupied(g, m.end)) &&
      (m.end.col != s.col ==> (m.end.col == s.col - 1 || m.end.col == s.col + 1) &&
                              Occupied(g, m.end) && At(g, m.end).value.color == Opponent(team)) &&
      (m.promotion.Some? <==> m.end.row == PromotionRow(team)) &&
      (m.promotion.Some? ==> m.promotion.value in PromotionKinds)
  {
  }

  /** A pawn that can reach a square on the promotion row can reach it with each of the four
      promotions, and never without one. */
  lemma PromotionsComeInFours(g: Grid, s: Position, m: Move, k: PieceType)
    requires Occupied(g, s) && m in PawnMoves(g, s) && m.end.row == PromotionRow(At(g, s).value.color)
    requires k in PromotionKinds
    ensures Move(s, m.end, Some(k)) in PawnMoves(g, s)
    ensures Move(s, m.end, None) !in PawnMoves(g, s)
  {
    PawnMoveShape(g, s, m);
    if Move(s, m.end, None) in PawnMoves(g, s) {
      PawnMoveShape(g, s, Move(s, m.end, None));
    }
  }

  /** A white pawn on row 7 with the square ahead empty has the four promotions forward. */
  lemma WhitePawnPromotes(g: Grid, c: int, k: PieceType)
    requires 1 <= c <= 8 && At(g, Position(7, c)) == Some(Piece(WHITE, PAWN)) && At(g, Position(8, c)) == None
    requires k in PromotionKinds
    ensures Move(Position(7, c), Position(8, c), Some(k)) in PawnMoves(g, Position(7, c))
  {
  }

  /** A pawn on its starting row with the two squares ahead empty may advance two squares. */
  lemma DoubleStepFromStart(g: Grid, s: Position)
    requires Occupied(g, s)
    requires var team := At(g, s).value.color;
      s.row == StartRow(team) && !Occupied(g, Position(s.row + Dir(team), s.col)) &&
      !Occupied(g, Position(s.row + 2 * Dir(team), s.col))
    ensures Move(s, Position(s.row + 2 * Dir(At(g, s).value.color), s.col), None) in PawnMoves(g, s)
  {
  }
}
