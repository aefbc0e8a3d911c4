# chess-2.0 rules engine and in-memory server, in Dafny

This project models the chess rules engine of chess-2.0 and the small server core around it.

The engine models these parts:

- the square, move and piece values;
- the 8x8 board;
- one move generator per piece kind;
- the check calculator;
- the `ChessGame` object, which filters generated moves down to legal ones, plays moves, promotes pawns, tracks both kings and answers check, checkmate and stalemate queries.

Outside the engine it models:

- the client's parser that turns "e2e4" into a move;
- the three in-memory tables: games, users and auth tokens;
- the services that validate a request and then change those tables: create and list games, register, log out, clear.

Each Java class whose fields change in place is a Dafny `class` with those fields:

- `ChessPosition`, the cursor that the ray scans step with;
- `ChessBoard`;
- `ChessGame`;
- the three DAOs;
- the four services.

Every method is proved against a specification function on values:

- A board's value is `Squares()`, a 64-cell sequence.
- Each generator method is proved equal to a function (`RookMoves`, `PawnMoves`, ...). Lemmas then characterise that function: ray soundness and completeness, offsets, bounds, promotion.
- `ChessGame.ValidMoves` is proved equal to `LegalMoves`. These are the generated moves after which the mover's king square is not in danger.
- `MakeMove` is proved to fail and change nothing exactly when the move is not `Playable`. On success the board becomes `AfterMove`.

The class invariant `ChessGame.Valid()` says that each cached king square is the square found by the row-major `findKing` scan. Every operation keeps it, provided each colour has at most one king and no king is captured.

Java's `null` is `None`. A thrown exception is a `Failure` carrying the exception's message and, for the server, its status code.

## Model

| member | source | states |
|---|---|---|
| Positions.ChessPosition.constructor | shared/src/main/java/chess/ChessPosition.java:15-18 | getRow and getColumn return the row and column passed in |
| Positions.ChessPosition.IsInBounds | shared/src/main/java/chess/ChessPosition.java:46-48 | true iff 1 <= row <= 8 and 1 <= col <= 8 |
| Positions.ChessPosition.IncRow | shared/src/main/java/chess/ChessPosition.java:52-54 | row goes up by exactly one and the column is kept |
| Positions.ChessPosition.DecRow | shared/src/main/java/chess/ChessPosition.java:59-61 | row goes down by exactly one and the column is kept |
| Positions.ChessPosition.IncCol | shared/src/main/java/chess/ChessPosition.java:66-68 | column goes up by exactly one and the row is kept |
| Positions.ChessPosition.DecCol | shared/src/main/java/chess/ChessPosition.java:73-75 | column goes down by exactly one and the row is kept |
| Positions.ChessPosition.Clone | shared/src/main/java/chess/ChessPosition.java:82-84 | a fresh object standing for the same square |
| Positions.CloneIsIndependent | shared/src/main/java/chess/ChessPosition.java:82-84 | stepping a clone leaves the original where it was |
| Positions.ChessPosition.Equals | shared/src/main/java/chess/ChessPosition.java:96-105 | true iff the two objects stand for the same (row, col) |
| Moves.PlainMove | shared/src/main/java/chess/ChessMove.java:20-24 | the two-argument constructor gives the start and end back and no promotion kind |
| Moves.GettersReturnConstructorArguments | shared/src/main/java/chess/ChessMove.java:13-18 | the getters return the constructor's start, end and promotion |
| Moves.Move.Equals | shared/src/main/java/chess/ChessMove.java:58-67 | true iff start, end and promotion kind are all equal |
| Moves.PromotionDistinguishesMoves | shared/src/main/java/chess/ChessMove.java:58-67 | moves between the same squares with different promotion kinds, or with and without one, are unequal |
| Pieces.Piece.GetTeamColor | shared/src/main/java/chess/ChessPiece.java:43-45 | the colour the piece was built with |
| Pieces.Piece.GetPieceType | shared/src/main/java/chess/ChessPiece.java:50-52 | the kind the piece was built with |
| Pieces.Piece.Copy | shared/src/main/java/chess/ChessPiece.java:93-95 | a piece of the same colour and kind |
| Pieces.Piece.Equals | shared/src/main/java/chess/ChessPiece.java:106-115 | true iff colour and kind agree |
| Pieces.OpponentInvolution | shared/src/main/java/chess/checkendgame/CheckCalculator.java:26-28 | the opponent of the opponent is the colour itself, and it is the only other colour |
| PieceMovesCalc.GetPieceMoves | shared/src/main/java/chess/ChessPiece.java:61-91 | exactly the generator result for the kind of the piece standing on the square |
| PieceMovesCalc.PieceMoveShape | shared/src/main/java/chess/ChessPiece.java:61-91 | every generated move starts on the square and ends on another in-bounds square that holds no friendly piece. Only a pawn reaching its last row names a promotion kind, always one of R, N, B, Q |
| Board.Put | shared/src/main/java/chess/ChessBoard.java:27-29 | the overwritten square holds the new content and every other square is unchanged |
| Board.SameSquaresSameGrid | shared/src/main/java/chess/ChessBoard.java:142-151 | two boards are the same value iff every square holds the same piece or both are empty |
| Board.StandardSetup | shared/src/main/java/chess/ChessBoard.java:88-139 | the opening position, row by row: R N B Q K B N R and pawns for white on rows 1-2, empty rows 3-6, black pawns and pieces on rows 7-8 |
| Board.ChessBoard.constructor | shared/src/main/java/chess/ChessBoard.java:15-17 | all 64 squares are empty |
| Board.ChessBoard.AddPiece | shared/src/main/java/chess/ChessBoard.java:27-29 | the square holds the piece and every other square is unchanged |
| Board.ChessBoard.GetPiece | shared/src/main/java/chess/ChessBoard.java:38-40 | the content of the square in the board's value |
| Board.ChessBoard.RemovePiece | shared/src/main/java/chess/ChessBoard.java:47-49 | exactly the given square becomes empty |
| Board.ChessBoard.HasPieceAtPos | shared/src/main/java/chess/ChessBoard.java:57-59 | false outside the board; on it, true iff the square is occupied |
| Board.ChessBoard.HasPieceAtRowCol | shared/src/main/java/chess/ChessBoard.java:67-69 | the (row, column) overload agrees with the position one |
| Board.ChessBoard.HasRivalAtPos | shared/src/main/java/chess/ChessBoard.java:78-83 | true iff the square is on the board and holds a piece of a different colour |
| Board.ChessBoard.SetUpWhitePieces | shared/src/main/java/chess/ChessBoard.java:88-97 | row 1 holds white's back rank; every other square is unchanged |
| Board.ChessBoard.SetUpBlackPieces | shared/src/main/java/chess/ChessBoard.java:102-111 | row 8 holds black's back rank; every other square is unchanged |
| Board.ChessBoard.Fill | shared/src/main/java/chess/ChessBoard.java:116-119 | one row range of cells gets the given content and the rest is unchanged |
| Board.ChessBoard.SetUpPawns | shared/src/main/java/chess/ChessBoard.java:116-119 | row 2 holds white pawns and row 7 black pawns; every other square is unchanged |
| Board.ChessBoard.ClearMiddleRows | shared/src/main/java/chess/ChessBoard.java:124-128 | rows 3 to 6 are empty; every other square is unchanged |
| Board.ChessBoard.ResetBoard | shared/src/main/java/chess/ChessBoard.java:134-139 | the standard opening position, whatever the board held before |
| Board.ChessBoard.Equals | shared/src/main/java/chess/ChessBoard.java:142-151 | true iff every square holds equal or both-absent pieces |
| Board.ChessBoard.Copy | shared/src/main/java/chess/ChessGame.java:68 | a fresh board with a fresh array and the same squares |
| Board.CopyIsIndependent | shared/src/test/java/passoff/chess/game/CustomTests.java:53-65 | a copy equals its original, and editing the copy leaves the original unchanged |
| MovesCalc.IsClaimablePos | shared/src/main/java/chess/moves/MovesCalc.java:27-31 | the end square is on the board and is empty or holds a rival of the piece on the start square; `ClaimableNeverFriendly` draws the consequence |
| MovesCalc.ClaimableNeverFriendly | shared/src/main/java/chess/moves/MovesCalc.java:27-31 | a claimable end is on the board and is empty or holds a piece of the other colour |
| MovesCalc.ClaimedMove | shared/src/main/java/chess/moves/MovesCalc.java:27-31 | at most the plain move from start to end, and it is included iff the end is claimable |
| MovesCalc.CheckMoveAndAdd | shared/src/main/java/chess/moves/MovesCalc.java:40-44 | the set grows by the plain move exactly when the end is claimable, and is otherwise unchanged |
| MovesCalc.RayUnfold | shared/src/main/java/chess/moves/RookMovesCalc.java:46-61 | one step of a scan: stop off the board; stop at a piece, taking it only if it is a rival; otherwise take the empty square and go on |
| MovesCalc.RaySound | shared/src/main/java/chess/moves/RookMovesCalc.java:46-61 | every move of a ray ends on a square that the scan reaches along its direction |
| MovesCalc.RayComplete | shared/src/main/java/chess/moves/RookMovesCalc.java:46-61 | every square the scan reaches is the end of one of its moves |
| MovesCalc.RayMembership | shared/src/main/java/chess/moves/RookMovesCalc.java:46-61 | a move is on a ray iff its end is reached: all squares before it are empty, and it is empty or a rival |
| MovesCalc.RayStopsAtBlocker | shared/src/main/java/chess/moves/RookMovesCalc.java:50-57 | the first occupied square is taken iff it holds a rival, and nothing beyond it is taken |
| MovesCalc.RayIncludesClearSquares | shared/src/main/java/chess/moves/RookMovesCalc.java:47-61 | every empty square before the first blocker is taken |
| MovesCalc.RayMoveShape | shared/src/main/java/chess/moves/RookMovesCalc.java:46-61 | a ray move starts at the scan's square and has no promotion. It ends on another in-bounds square along the direction, which is empty or holds a rival |
| MovesCalc.RaySize | shared/src/main/java/chess/moves/RookMovesCalc.java:47-60 | a scan finds at most 7 destinations, all among the first seven squares of its direction |
| MovesCalc.RaysMembership | shared/src/main/java/chess/moves/QueenMovesCalc.java:17-25 | a move is among several scans iff it is on one of them |
| MovesCalc.RaysFindFirstPieces | shared/src/main/java/chess/checkendgame/CheckCalculator.java:46-81 | the scans meet a piece of a given enemy set iff some direction's first piece belongs to the set |
| MovesCalc.RaysCongruent | shared/src/main/java/chess/checkendgame/CheckCalculator.java:48-49 | scans depend only on which squares are occupied and which hold rivals |
| MovesCalc.SteppingMembership | shared/src/main/java/chess/moves/KingMovesCalc.java:20-30 | an offset generator's move is the plain move to some offset square that is claimable |
| MovesCalc.SteppingSize | shared/src/main/java/chess/moves/KingMovesCalc.java:20-30 | an offset generator yields at most one move per offset |
| MovesCalc.SteppingCongruent | shared/src/main/java/chess/checkendgame/CheckCalculator.java:108 | offset generators depend only on occupancy and rivalry |
| MovesCalc.SteppingFinds | shared/src/main/java/chess/checkendgame/CheckCalculator.java:107-129 | an offset generator meets an enemy of a given set iff one stands on an offset square |
| RookMovesCalc.MoveToNextPosition | shared/src/main/java/chess/moves/RookMovesCalc.java:72-83 | the cursor moves exactly one step in the given direction |
| RookMovesCalc.GetOrthogonalMoves | shared/src/main/java/chess/moves/RookMovesCalc.java:39-63 | the loop's result is exactly the ray in that direction |
| RookMovesCalc.GetRookMoves | shared/src/main/java/chess/moves/RookMovesCalc.java:21-29 | exactly the union of the four orthogonal rays |
| RookMovesCalc.RookMovesAreFourScans | shared/src/main/java/chess/moves/RookMovesCalc.java:21-29 | the rook's moves are the four orthogonal scans and nothing else |
| RookMovesCalc.RookMoveShape | shared/src/main/java/chess/moves/RookMovesCalc.java:24-27 | a rook move starts at currPos, has no promotion and ends in bounds on the same row or column. The end is another square, holding no friendly piece |
| RookMovesCalc.RookReachesOpenFile | shared/src/main/java/chess/moves/RookMovesCalc.java:47-61 | on an open file every square up to the blocker is reachable |
| BishopMovesCalc.StepDiagonal | shared/src/main/java/chess/moves/BishopMovesCalc.java:37-38 | the cursor moves exactly one diagonal square in the loop's direction |
| BishopMovesCalc.ScanDiagonal | shared/src/main/java/chess/moves/BishopMovesCalc.java:24-39 | one of the four inlined diagonal loops adds exactly the ray in its direction |
| BishopMovesCalc.GetBishopMoves | shared/src/main/java/chess/moves/BishopMovesCalc.java:16-80 | exactly the union of the four diagonal rays |
| BishopMovesCalc.BishopMoveShape | shared/src/main/java/chess/moves/BishopMovesCalc.java:24-78 | a bishop move starts at currPos, has no promotion and ends in bounds with abs(drow) == abs(dcol) >= 1. The end holds no friendly piece |
| BishopMovesCalc.BishopMovesBound | shared/src/main/java/chess/moves/BishopMovesCalc.java:16-80 | at most 28 moves |
| QueenMovesCalc.GetQueenMoves | shared/src/main/java/chess/moves/QueenMovesCalc.java:17-25 | exactly the union of bishop and rook moves from the square |
| QueenMovesCalc.QueenMoveShape | shared/src/main/java/chess/moves/QueenMovesCalc.java:21-22 | a queen move starts at the square, has no promotion and ends on the same row, column or diagonal. The end is another square, holding no friendly piece |
| KnightMovesCalc.GetKnightMoves | shared/src/main/java/chess/moves/KnightMovesCalc.java:19-56 | exactly the claimable squares among the eight knight offsets |
| KnightMovesCalc.KnightMoveCharacterization | shared/src/main/java/chess/moves/KnightMovesCalc.java:26-41 | a move is a knight move iff it is plain and reaches an in-bounds square at (+-1, +-2) or (+-2, +-1) that is empty or a rival |
| KnightMovesCalc.KnightIgnoresOtherSquares | shared/src/main/java/chess/moves/KnightMovesCalc.java:26-41 | whether a knight move is generated depends only on the start and end squares, not on squares in between |
| KnightMovesCalc.KnightMovesBound | shared/src/main/java/chess/moves/KnightMovesCalc.java:26-41 | at most 8 moves |
| KingMovesCalc.GetKingMoves | shared/src/main/java/chess/moves/KingMovesCalc.java:17-31 | exactly the claimable squares among the eight adjacent offsets |
| KingMovesCalc.KingMoveCharacterization | shared/src/main/java/chess/moves/KingMovesCalc.java:20-30 | a move is a king move iff it is plain and reaches an adjacent in-bounds square that is empty or a rival, attacked or not |
| KingMovesCalc.KingOffsetsAreNeighbours | shared/src/main/java/chess/moves/KingMovesCalc.java:20-22 | the eight offsets are exactly the non-zero steps of at most one row and one column |
| KingMovesCalc.KingMovesBound | shared/src/main/java/chess/moves/KingMovesCalc.java:20-30 | at most 8 moves |
| KingMovesCalc.LoneCornerKing | shared/src/main/java/chess/moves/KingMovesCalc.java:20-30 | a king alone in corner (1, 1) has exactly three moves |
| PawnMovesCalc.AddPromotionMoves | shared/src/main/java/chess/moves/PawnMovesCalc.java:66-72 | the set grows by the four promotion moves (rook, knight, bishop, queen) to the square |
| PawnMovesCalc.GetPawnMoves | shared/src/main/java/chess/moves/PawnMovesCalc.java:19-58 | exactly the double step, single step and two diagonal captures of the specification function |
| PawnMovesCalc.TryCapture | shared/src/main/java/chess/moves/PawnMovesCalc.java:47-55 | one round of the capture loop adds exactly the capture towards that side: a plain move or the four promotions onto an opponent piece one row forward |
| PawnMovesCalc.PawnMoveShape | shared/src/main/java/chess/moves/PawnMovesCalc.java:24-56 | a pawn move goes one step forward to an empty square, or two from the start row over two empty squares. Otherwise it goes one step diagonally onto an opponent piece. It names a promotion kind iff it ends on the last row |
| PawnMovesCalc.PromotionsComeInFours | shared/src/main/java/chess/moves/PawnMovesCalc.java:28-72 | a move onto the last row appears with each of R, N, B, Q and never without a promotion kind |
| PawnMovesCalc.WhitePawnPromotes | shared/src/main/java/chess/moves/PawnMovesCalc.java:37-43 | a white pawn on row 7 facing an empty square promotes into each kind |
| PawnMovesCalc.DoubleStepFromStart | shared/src/main/java/chess/moves/PawnMovesCalc.java:27-34 | from its start row over two empty squares, a pawn may advance two |
| CheckCalculator.PositionInDanger | shared/src/main/java/chess/checkendgame/CheckCalculator.java:22-33 | an empty square is never in danger |
| CheckCalculator.OpponentIsOtherColour | shared/src/main/java/chess/checkendgame/CheckCalculator.java:26-32 | the attacking colour is the occupant's opponent, and danger is the disjunction of the five tests |
| CheckCalculator.InCheckDiagonally | shared/src/main/java/chess/checkendgame/CheckCalculator.java:46-57 | some bishop move from the square ends on an opponent bishop or queen; `DiagonalDangerIsFirstPiece` characterises it |
| CheckCalculator.InCheckOrthogonally | shared/src/main/java/chess/checkendgame/CheckCalculator.java:70-81 | some rook move from the square ends on an opponent rook or queen; `OrthogonalDangerIsFirstPiece` characterises it |
| CheckCalculator.InCheckByPawn | shared/src/main/java/chess/checkendgame/CheckCalculator.java:90-98 | an opponent pawn stands on one of the two squares diagonally behind, seen from the opponent; `PawnDangerIsPawnCapture` characterises it |
| CheckCalculator.InCheckByKnight | shared/src/main/java/chess/checkendgame/CheckCalculator.java:107-117 | some knight move from the square ends on an opponent knight; `KnightDangerIsJumpAway` characterises it |
| CheckCalculator.InCheckByKing | shared/src/main/java/chess/checkendgame/CheckCalculator.java:119-129 | some king move from the square ends on the opponent king; `KingDangerIsAdjacent` characterises it |
| CheckCalculator.DiagonalDangerIsFirstPiece | shared/src/main/java/chess/checkendgame/CheckCalculator.java:46-57 | diagonal danger iff the first piece on some diagonal is an opponent bishop or queen |
| CheckCalculator.OrthogonalDangerIsFirstPiece | shared/src/main/java/chess/checkendgame/CheckCalculator.java:70-81 | orthogonal danger iff the first piece on some rank or file ray is an opponent rook or queen |
| CheckCalculator.PawnDangerIsPawnCapture | shared/src/main/java/chess/checkendgame/CheckCalculator.java:90-98 | pawn danger iff an opponent pawn stands one row behind, seen from the opponent's direction, and one column to the side |
| CheckCalculator.KnightDangerIsJumpAway | shared/src/main/java/chess/checkendgame/CheckCalculator.java:107-117 | knight danger iff an opponent knight stands a knight's jump away |
| CheckCalculator.KingDangerIsAdjacent | shared/src/main/java/chess/checkendgame/CheckCalculator.java:119-129 | king danger iff the opponent king stands on an adjacent square |
| CheckCalculator.DangerHasOpponentAttacker | shared/src/main/java/chess/checkendgame/CheckCalculator.java:22-33 | a square in danger has an opponent piece on some other square |
| CheckCalculator.DangerIgnoresOwnKinds | shared/src/main/java/chess/checkendgame/CheckCalculator.java:48-49 | pieces of the occupant's own colour never create danger: boards that differ only in them agree |
| CheckCalculator.DangerIgnoresOwnPromotion | shared/src/main/java/chess/ChessGame.java:143-150 | replacing a friendly piece by another friendly kind does not change danger |
| Game.FirstKingFrom | shared/src/main/java/chess/ChessGame.java:211-221 | the first cell from i on, in row-major order, that holds the king, or None if no such cell |
| Game.FirstKing | shared/src/main/java/chess/ChessGame.java:211-221 | the king's square that comes first in row-major order, or None when the colour has no king |
| Game.FirstKingIs | shared/src/main/java/chess/ChessGame.java:211-221 | a king with no king of its colour earlier in row-major order is the one the scan finds |
| Game.FirstKingCongruent | shared/src/main/java/chess/ChessGame.java:211-221 | the scan's result depends only on where that king stands |
| Game.StandardKings | shared/src/main/java/chess/ChessGame.java:17-24 | in the opening position the kings are found on (1, 5) and (8, 5) |
| Game.Simulate | shared/src/main/java/chess/ChessGame.java:74-75 | the trial move empties the start square and puts the piece on the end square, every other square unchanged |
| Game.LegalMoves | shared/src/main/java/chess/ChessGame.java:66-83 | no moves from an empty square; otherwise a subset of the generated moves, each keeping the mover's king out of danger |
| Game.PlayableShape | shared/src/main/java/chess/ChessGame.java:198-204 | a playable move leaves its start for another in-bounds square that holds no piece of the mover. It names a promotion kind whenever a pawn lands on row 1 or 8 |
| Game.PlayedMoveKeepsKingSafe | shared/src/main/java/chess/ChessGame.java:111-122 | after a played move, promotion included, the mover's king is not in danger |
| Game.KingsAfterMove | shared/src/main/java/chess/ChessGame.java:114-118 | with no king captured and at most one king of the colour, after a move that colour's king stands on the end square if it moved, and where it stood otherwise |
| Game.KingCachesAfterMove | shared/src/main/java/chess/ChessGame.java:130-137 | with one king per colour and no king captured, the scan after a move finds a moved king on its end square and the other king where it was |
| Game.ChessGame.constructor | shared/src/main/java/chess/ChessGame.java:17-24 | standard board, white to move, kings cached on (1, 5) and (8, 5) |
| Game.ChessGame.SetTeamTurn | shared/src/main/java/chess/ChessGame.java:47-49 | sets the side to move and nothing else |
| Game.ChessGame.FindKing | shared/src/main/java/chess/ChessGame.java:211-221 | the nested loops return the first king in row-major order, or None |
| Game.ChessGame.SetBoard | shared/src/main/java/chess/ChessGame.java:228-232 | the game holds a fresh copy of the board, and both caches are re-scanned |
| Game.ChessGame.UpdateKingLoc | shared/src/main/java/chess/ChessGame.java:130-137 | a moved king's cache follows it to the end square; the other cache and every non-king move leave the caches alone |
| Game.ChessGame.IsInCheck | shared/src/main/java/chess/ChessGame.java:165-170 | true iff the cached king square is in danger, which is the scanned king's square on a consistent game |
| Game.ChessGame.FlipTeamTurn | shared/src/main/java/chess/ChessGame.java:155-157 | the other colour is to move; nothing else changes |
| Game.ChessGame.ValidMoves | shared/src/main/java/chess/ChessGame.java:66-83 | exactly the legal moves of the square's piece. The board's value, the turn and both king caches are as before |
| Game.ChessGame.TryMove | shared/src/main/java/chess/ChessGame.java:74-80 | one trial of validMoves answers whether the move keeps the mover's king out of danger and restores the board's value, the turn and the caches |
| Game.ChessGame.IsStuck | shared/src/main/java/chess/ChessGame.java:94-98 | a square offers no way out iff it holds no piece of the team or that piece has no legal move; the state's value is kept |
| Game.ChessGame.IsRowStuck | shared/src/main/java/chess/ChessGame.java:93-99 | true iff no square of row r offers the team a legal move; the state's value is kept |
| Game.ChessGame.NoValidMovesLeft | shared/src/main/java/chess/ChessGame.java:90-102 | true iff no piece of the team has a legal move; the state is as before |
| Game.ChessGame.IsInCheckmate | shared/src/main/java/chess/ChessGame.java:178-180 | in check and without a legal move |
| Game.ChessGame.IsInStalemate | shared/src/main/java/chess/ChessGame.java:189-191 | not in check and without a legal move |
| Game.ChessGame.IsInvalidMove | shared/src/main/java/chess/ChessGame.java:198-204 | true iff the move is not legal, or ends off the board, or moves a piece of the side not to move |
| Game.ChessGame.ValidatePromotion | shared/src/main/java/chess/ChessGame.java:143-150 | a pawn on row 1 or 8 becomes a piece of the side to move of the promotion kind; otherwise the board is unchanged |
| Game.ChessGame.MakeMove | shared/src/main/java/chess/ChessGame.java:111-122 | an unplayable move fails with "Illegal move." and changes nothing. A playable one empties the start, puts the mover or its promotion on the end, moves a king's cache and flips the turn. Afterwards the mover's king is not in danger. The invariant holds again when each colour had at most one king and no king was captured |
| Game.ChessGame.ApplyMove | shared/src/main/java/chess/ChessGame.java:114-121 | the board becomes the move applied for the side to move, promotion included, and the other side is to move. The mover's cache follows a moved king, and the mover's king is not in danger |
| Game.ChessGame.Equals | shared/src/main/java/chess/ChessGame.java:244-253 | true iff the boards hold the same pieces and the same side is to move |
| InputToChessMove.GetPositionFromString | client/src/main/java/ui/InputToChessMove.java:18-31 | a length other than 2 is refused first. Anything but a column letter a-h or A-H followed by a digit 1-8 is out of bounds. A result is on the board and names the input, upper-cased |
| InputToChessMove.GetMoveFromString | client/src/main/java/ui/InputToChessMove.java:33-53 | a length other than 4 is refused first, then a bad start square, then a bad end square, each with its own message. A result has no promotion kind and names the input, upper-cased |
| InputToChessMove.RowInRange | client/src/main/java/ui/InputToChessMove.java:26-27 | the numeric value of a character is in 1..8 iff it is a digit 1-8, because letters give 10 or more |
| InputToChessMove.ColumnInRange | client/src/main/java/ui/InputToChessMove.java:22-27 | an upper-cased character gives a column in 1..8 iff it is a-h or A-H |
| InputToChessMove.PositionRoundTrip | client/src/main/java/ui/InputToChessMove.java:25-30 | every square is read back from its name, e.g. (2, 5) from "E2" |
| InputToChessMove.MoveRoundTrip | client/src/main/java/ui/InputToChessMove.java:43-52 | every move without a promotion kind is read back from its four-character name |
| InputToChessMove.ParsingIgnoresCase | client/src/main/java/ui/InputToChessMove.java:22 | upper-casing the input first changes no result |
| InputToChessMove.MoveIsTwoPositions | client/src/main/java/ui/InputToChessMove.java:38-52 | a move is read iff its two halves are read as squares, and it joins them |
| MemoryGameDAO.Increment | server/src/main/java/dataaccess/MemoryGameDAO.java:21 | Java's 32-bit id++: INT_MAX wraps to INT_MIN |
| MemoryGameDAO.MemoryGameDAO.constructor | server/src/main/java/dataaccess/MemoryGameDAO.java:15 | the games table starts empty |
| MemoryGameDAO.MemoryGameDAO.GenerateID | server/src/main/java/dataaccess/MemoryGameDAO.java:18-24 | the least ID >= 1 that is not a key; INT_MIN once every positive int is taken |
| MemoryGameDAO.MemoryGameDAO.ClearGameTable | server/src/main/java/dataaccess/MemoryGameDAO.java:28-30 | the table is empty afterwards |
| MemoryGameDAO.MemoryGameDAO.CreateGame | server/src/main/java/dataaccess/MemoryGameDAO.java:34-42 | stores a new game under the least free ID: no players, the given name, a fresh standard ChessGame. The table grows by one and other entries are kept. When IDs have run out it returns a negative ID and stores nothing |
| MemoryGameDAO.MemoryGameDAO.GetGamesList | server/src/main/java/dataaccess/MemoryGameDAO.java:46-48 | every stored game exactly once: as many elements as games, no ID twice |
| MemoryGameDAO.MemoryGameDAO.UpdateWhiteUsername | server/src/main/java/dataaccess/MemoryGameDAO.java:52-57 | only the game's white player changes; black player, name, game object and other games are kept. The white seat is available afterwards iff null was seated |
| MemoryGameDAO.MemoryGameDAO.UpdateBlackUsername | server/src/main/java/dataaccess/MemoryGameDAO.java:61-66 | only the game's black player changes; white player, name, game object and other games are kept. The black seat is available afterwards iff null was seated |
| MemoryGameDAO.MemoryGameDAO.HasGame | server/src/main/java/dataaccess/MemoryGameDAO.java:69-71 | on a consistent table, a game found under an ID is stored under a positive int ID and carries that ID |
| MemoryGameDAO.MemoryGameDAO.IsEmpty | server/src/main/java/dataaccess/MemoryGameDAO.java:73-75 | true iff hasGame fails for every ID |
| MemoryGameDAO.MemoryGameDAO.HasAvailableWhiteTeam | server/src/main/java/dataaccess/MemoryGameDAO.java:78-80 | the white seat of a stored game is empty (null); UpdateWhiteUsername makes it true exactly when it seats null, and UpdateBlackUsername leaves it as it was |
| MemoryGameDAO.MemoryGameDAO.HasAvailableBlackTeam | server/src/main/java/dataaccess/MemoryGameDAO.java:82-84 | the black seat of a stored game is empty (null); UpdateBlackUsername makes it true exactly when it seats null, and UpdateWhiteUsername leaves it as it was |
| MemoryGameDAO.NextFreeID | server/src/main/java/dataaccess/MemoryGameDAO.java:18-24 | when IDs 1..n are taken and n + 1 is free, the ID createGame hands out is n + 1, so games are numbered 1, 2, 3 in creation order |
| MemoryGameDAO.CreatesFirstGame | server/src/main/java/dataaccess/MemoryGameDAO.java:18-84 | from an empty table the first game gets ID 1. Seating white takes only the white seat, so hasAvailableWhiteTeam fails and hasAvailableBlackTeam still holds |
| MemoryUserDAO.MemoryUserDAO.constructor | server/src/main/java/dataaccess/MemoryUserDAO.java:10 | the users table starts empty |
| MemoryUserDAO.MemoryUserDAO.ClearUserTable | server/src/main/java/dataaccess/MemoryUserDAO.java:20-22 | the table is empty afterwards |
| MemoryUserDAO.MemoryUserDAO.CreateUser | server/src/main/java/dataaccess/MemoryUserDAO.java:25-28 | afterwards hasThisUsername holds and getUser returns the user, replacing an earlier one; other users are kept |
| MemoryUserDAO.MemoryUserDAO.HasThisUsername | server/src/main/java/dataaccess/MemoryUserDAO.java:14-16 | on a consistent table, a user found under a name is stored under it and carries that name |
| MemoryUserDAO.MemoryUserDAO.IsEmpty | server/src/main/java/dataaccess/MemoryUserDAO.java:43-45 | true iff hasThisUsername fails for every name, null included |
| MemoryUserDAO.MemoryUserDAO.GetUser | server/src/main/java/dataaccess/MemoryUserDAO.java:32-34 | None (null) iff hasThisUsername fails, otherwise the stored user, whose name is the one asked for |
| MemoryUserDAO.MemoryUserDAO.DeleteUser | server/src/main/java/dataaccess/MemoryUserDAO.java:39-41 | removes exactly that user |
| MemoryUserDAO.CreateThenDeleteRestores | server/src/main/java/dataaccess/MemoryUserDAO.java:25-41 | creating a new user and deleting it restores the table |
| MemoryAuthDAO.FirstFreshDraw | server/src/main/java/dataaccess/MemoryAuthDAO.java:13-18 | the index of the first random token that is not yet a key |
| MemoryAuthDAO.MemoryAuthDAO.constructor | server/src/main/java/dataaccess/MemoryAuthDAO.java:10 | the sessions table starts empty |
| MemoryAuthDAO.MemoryAuthDAO.GenerateToken | server/src/main/java/dataaccess/MemoryAuthDAO.java:13-18 | the first drawn token that is not already a key |
| MemoryAuthDAO.MemoryAuthDAO.ClearAuthTable | server/src/main/java/dataaccess/MemoryAuthDAO.java:25-27 | the table is empty afterwards |
| MemoryAuthDAO.MemoryAuthDAO.CreateAuth | server/src/main/java/dataaccess/MemoryAuthDAO.java:35-39 | stores AuthData(token, username) under a token that was not a key and returns it; existing sessions are untouched |
| MemoryAuthDAO.MemoryAuthDAO.HasAuth | server/src/main/java/dataaccess/MemoryAuthDAO.java:43-45 | a null token never names a session; on a consistent table a session found under a token carries that token |
| MemoryAuthDAO.MemoryAuthDAO.IsEmpty | server/src/main/java/dataaccess/MemoryAuthDAO.java:64-66 | true iff hasAuth fails for every token |
| MemoryAuthDAO.MemoryAuthDAO.GetAuth | server/src/main/java/dataaccess/MemoryAuthDAO.java:49-54 | None (null) iff hasAuth fails, otherwise the stored record, whose token is the one asked for |
| MemoryAuthDAO.MemoryAuthDAO.DeleteAuth | server/src/main/java/dataaccess/MemoryAuthDAO.java:59-61 | removes exactly that token; a null token removes nothing |
| GameService.ListingKeepsAllButTheGame | server/src/main/java/service/GameService.java:53-56 | a listing record keeps the ID, both players and the name and drops only the game object |
| GameService.ListingAsWrittenAgreement | server/src/main/java/service/GameService.java:55 | the record as written equals the intended one iff name, white player and black player coincide |
| GameService.ListingAsWrittenMisplacesNames | server/src/main/java/service/GameService.java:55 | the game "friendly" (white alice, black bob) is listed with white "friendly", black alice and name bob |
| GameService.GameService.constructor | server/src/main/java/service/GameService.java:18-21 | keeps the two tables it is given |
| GameService.GameService.CreateGame | server/src/main/java/service/GameService.java:23-36 | a missing token or name gives 400 before any lookup; an unknown token gives 401; no free ID gives 500. All failures leave the table unchanged. Success returns the DAO's least free ID of a new game with no players, holding a fresh ChessGame in the standard setup with white to move |
| GameService.GameService.ListGames | server/src/main/java/service/GameService.java:46-58 | a missing token gives 400, an unknown one 401. Otherwise one listing record per stored game, with players and name in their own fields and no game object |
| RegisterService.RegisterService.constructor | server/src/main/java/service/RegisterService.java:16-19 | keeps the two tables it is given |
| RegisterService.RegisterService.Register | server/src/main/java/service/RegisterService.java:20-45 | a missing field gives 400, checked before a taken name gives 403; neither changes a table. Otherwise the user is stored, and a new token mapped to the username is stored and returned |
| LogoutService.LogoutService.constructor | server/src/main/java/service/LogoutService.java:11-13 | keeps the sessions table it is given |
| LogoutService.LogoutService.Logout | server/src/main/java/service/LogoutService.java:21-27 | fails with 401 and changes nothing iff the token names no session. Otherwise it removes exactly that token, and only the sessions table may change |
| LogoutService.LogoutTwice | server/src/main/java/service/LogoutService.java:21-27 | logging out twice with one token fails the second time |
| ClearService.ClearService.constructor | server/src/main/java/service/ClearService.java:10-14 | keeps the three tables it is given |
| ClearService.ClearService.ClearDatabase | server/src/main/java/service/ClearService.java:16-23 | all three tables are empty afterwards, so the 500 branch is never taken |
| ClearService.ClearIsIdempotent | server/src/main/java/service/ClearService.java:16-23 | clearing twice gives the same state and answer as clearing once |

## Left out

- Network, user interface, the SQL DAOs, LoginService (which calls BCrypt), message and exception classes, and `hashCode` methods: these are not part of this model. Sets and value equality stand in for hashing.
- Castling and en passant: the engine does not implement them, so neither does the model. The unused `gameOver` field is omitted.
- The board is a flat array of 64 cells in row-major order rather than Java's 8x8 two-dimensional array. Cell (row - 1) * 8 + (col - 1) is square (row, col).
- Moves and boards use an immutable `Position` value. The mutable `ChessPosition` class is kept for the cursor the rook scan steps with. So Java's `null` squares, and aliasing between a move's positions and a caller's objects, are not modelled.
- `ChessBoard.copy` is called by ChessGame.java:68 and :229, but ChessBoard.java defines no such method. It is modelled as the deep copy the tests expect (`Board.ChessBoard.Copy`).
- KnightMovesCalc.java:10 "implements" the class MovesCalc and calls its private `isClaimablePos`, so it does not compile as written. `KnightMovesCalc.GetKnightMoves` gives `checkPosAndAdd` the meaning of `checkMoveAndAdd`, which has the same body.
- MemoryGameDAO.java does not implement `hasAvailableTeam(int, String)` from GameDAO.java. Its `hasAvailableWhiteTeam`/`hasAvailableBlackTeam` are modelled as `HasAvailableWhiteTeam`/`HasAvailableBlackTeam`.
- BishopMovesCalc.GetBishopMoves: the four inlined diagonal loops of the source are modelled as four calls of one loop, `ScanDiagonal`.
- Game.ChessGame.ValidMoves: in the source, `validMoves` replaces the game's board object by a copy, and the board that `getBoard` returned earlier is left holding the last simulated move. The model states this replacement (a fresh board, or the old one) but does not follow that stale alias. `getBoard` and `getTeamTurn` are plain field reads and are not modelled separately.
- Game.ChessGame.ValidMoves, Game.ChessGame.IsInvalidMove and Game.ChessGame.MakeMove require the start square to be on the board, and the mover's colour to have a king whenever its piece has a generated move (`CanTest`). Otherwise Java throws an array-index or null-pointer exception.
- Game.ChessGame.IsInCheck, NoValidMovesLeft, IsInCheckmate and IsInStalemate require the colour to have a king on the board. Otherwise Java dereferences a null king square.
- Game.ChessGame.MakeMove re-establishes the king-cache invariant only when each colour has at most one king and no king is captured. When a king is captured, Java's cache for the captured king keeps pointing at its old square. When a board given to `setBoard` has two kings of one colour, moving the later one in row-major order points the cache at its target while the scan still finds the earlier one.
- Board.ChessBoard.AddPiece, Board.ChessBoard.GetPiece and Board.ChessBoard.RemovePiece require the square to be on the board. Java indexes the array without a check and throws ArrayIndexOutOfBoundsException for a square off it.
- Board.ChessBoard.AddPiece takes a piece, not Java's null. Calling `addPiece` with null clears the square, which is what `RemovePiece` models.
- The generators (`GetRookMoves`, `GetPawnMoves`, ...) require a piece on the start square. Java's claimability test reads the mover's colour from that square and would throw without it.
- InputToChessMove.GetPositionFromString and InputToChessMove.GetMoveFromString model `toUpperCase` and `Character.getNumericValue` for ASCII only. A non-ASCII input is treated as invalid. Java could accept some, such as other scripts' digits, or read a string whose length changes when upper-cased.
- MemoryAuthDAO.MemoryAuthDAO.GenerateToken: `UUID.randomUUID` is a parameter, the sequence of tokens the random source would produce. The model requires that some token in it is fresh, so the retry loop ends.
- RegisterService.RegisterService.Register requires that the random tokens it is given contain a fresh one, even on the paths that fail before a token is drawn. The SQLException branch (500) cannot arise with the in-memory tables and is not modelled.
- MemoryGameDAO.MemoryGameDAO.UpdateWhiteUsername, UpdateBlackUsername, HasAvailableWhiteTeam and HasAvailableBlackTeam require the game to exist. Java throws a null-pointer exception otherwise.
- MemoryGameDAO.MemoryGameDAO.GetGamesList returns the games in an unspecified order, as `HashMap.values()` does. The model picks them one at a time with no fixed order.
- The `game` stored in a GameData record is the ChessGame object reference, as in Java. Its state is specified only at creation (a fresh standard game).
- DataAccessException is declared by the DAO interfaces but is never thrown by the in-memory tables, so it is not modelled.

## Findings

| source | as written | input that shows it | evidently intended | confidence | as-written member | corrected member |
|---|---|---|---|---|---|---|
| server/src/main/java/service/GameService.java:55 | the listing record is built as GameData(id, gameName, white, black, null), but the record's fields are (id, white, black, gameName, game), as MemoryGameDAO.java:38, 55 and 64 build it | a stored game "friendly" with white alice and black bob is listed with white "friendly", black alice and name bob; the client prints bob as the game's name | GameData(id, white, black, gameName, null) | not executed; high | GameService.ListingAsWrittenMisplacesNames | GameService.GameService.ListGames |
