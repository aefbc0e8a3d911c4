/** ChessBoard: an 8x8 grid of optional pieces. */
module Board {
  import opened Wrappers
  import opened Pieces
  import opened Positions

  /** The contents of the 64 squares, row-major: square (row, col) is cell (row - 1) * 8 + (col - 1). */
  type Grid = g: seq<Option<Piece>> | |g| == 64 witness seq(64, _ => None)

  /** The cell holding an in-bounds square. */
  function Index(p: Position): (i: int)
    requires p.InBounds()
    ensures 0 <= i < 64
  {
    (p.row - 1) * GRID_SIZE + (p.col - 1)
  }

  /** Distinct squares live in distinct cells, and every cell is some square's. */
  lemma IndexBijective(p: Position, q: Position, i: int)
    requires p.InBounds() && q.InBounds() && 0 <= i < 64
    ensures Index(p) == Index(q) ==> p == q
    ensures Position(i / 8 + 1, i % 8 + 1).InBounds() && Index(Position(i / 8 + 1, i % 8 + 1)) == i
  {
  }

  /** The piece on a square; nothing stands outside the board. */
  function At(g: Grid, p: Position): Option<Piece>
  {
    if p.InBounds() then g[Index(p)] else None
  }

  /** ChessBoard.hasPieceAtPos on a board value: false outside the board. */
  predicate Occupied(g: Grid, p: Position)
  {
    At(g, p).Some?
  }

  /** ChessBoard.hasRivalAtPos on a board value. */
  predicate HasRival(g: Grid, p: Position, color: TeamColor)
  {
    Occupied(g, p) && At(g, p).value.color != color
  }

  /** The board with one square overwritten. */
  function Put(g: Grid, p: Position, x: Option<Piece>): (r: Grid)
    requires p.InBounds()
    ensures At(r, p) == x
    ensures forall q :: q != p ==> At(r, q) == At(g, q)
  {
    forall q: Position | q.InBounds() && q != p ensures Index(q) != Index(p) {
      IndexBijective(p, q, 0);
    }
    g[Index(p) := x]
  }

  /** Two boards are the same value iff every square holds the same (possibly absent) piece. */
  lemma {:induction false} SameSquaresSameGrid(g1: Grid, g2: Grid)
    ensures g1 == g2 <==> forall p: Position :: p.InBounds() ==> At(g1, p) == At(g2, p)
  {
    if forall p: Position :: p.InBounds() ==> At(g1, p) == At(g2, p) {
      forall i | 0 <= i < 64 ensures g1[i] == g2[i] {
        var p := Position(i / 8 + 1, i % 8 + 1);
        IndexBijective(p, p, i);
        assert At(g1, p) == At(g2, p);
      }
    }
  }

  const EmptyGrid: Grid := seq(64, _ => None)

  /** The back rank, from column 1 to column 8: R N B Q K B N R. */
  function BackRank(col: int): PieceType
    requires 1 <= col <= 8
  {
    [ROOK, KNIGHT, BISHOP, QUEEN, KING, BISHOP, KNIGHT, ROOK][col - 1]
  }

  /** What resetBoard puts in each cell. */
  function StartingCell(i: int): Option<Piece>
    requires 0 <= i < 64
  {
    if i < 8 then Some(Piece(WHITE, BackRank(i + 1)))
    else if i < 16 then Some(Piece(WHITE, PAWN))
    else if i < 48 then None
    else if i < 56 then Some(Piece(BLACK, PAWN))
    else Some(Piece(BLACK, BackRank(i - 55)))
  }

  /** The standard opening position. */
  function StandardGrid(): Grid
  {
    seq(64, i requires 0 <= i < 64 => StartingCell(i))
  }

  /** The opening position square by square: white's pieces on rows 1-2, black's on rows 7-8,
      rows 3-6 empty. */
  lemma StandardSetup(p: Position)
    requires p.InBounds()
    ensures p.row == 1 ==> At(StandardGrid(), p) == Some(Piece(WHITE, BackRank(p.col)))
    ensures p.row == 2 ==> At(StandardGrid(), p) == Some(Piece(WHITE, PAWN))
    ensures 3 <= p.row <= 6 ==> At(StandardGrid(), p) == None
    ensures p.row == 7 ==> At(StandardGrid(), p) == Some(Piece(BLACK, PAWN))
    ensures p.row == 8 ==> At(StandardGrid(), p) == Some(Piece(BLACK, BackRank(p.col)))
  {
  }

  class ChessBoard {
    var grid: array<Option<Piece>>

    ghost predicate Valid()
      reads this
    {
      grid.Length == 64
    }

    /** The value of the board. */
    function Squares(): Grid
      reads this, grid
      requires Valid()
    {
      grid[..]
    }

    /** A new board has all 64 squares empty. */
    constructor ()
      ensures Valid() && fresh(grid)
      ensures forall p :: At(Squares(), p) == None
    {
      grid := new Option<Piece>[64](_ => None);
    }

    /** Places a piece, replacing whatever stood there; every other square is unchanged. */
    method AddPiece(position: Position, piece: Piece)
      requires Valid() && position.InBounds()
      modifies grid
      ensures Valid()
      ensures Squares() == Put(old(Squares()), position, Some(piece))
    {
      grid[Index(position)] := Some(piece);
    }

    function GetPiece(position: Position): (r: Option<Piece>)
      reads this, grid
      requires Valid() && position.InBounds()
      ensures r == At(Squares(), position)
    {
      grid[Index(position)]
    }

    /** Empties exactly the given square. */
    method RemovePiece(position: Position)
      requires Valid() && position.InBounds()
      modifies grid
      ensures Valid()
      ensures Squares() == Put(old(Squares()), position, None)
    {
      grid[Index(position)] := None;
    }

    /** False for every square off the board; on the board, whether a piece stands there. */
    function HasPieceAtPos(position: Position): (b: bool)
      reads this, grid
      requires Valid()
      ensures !position.InBounds() ==> !b
      ensures position.InBounds() ==> (b <==> GetPiece(position) != None)
      ensures b == Occupied(Squares(), position)
    {
      position.InBounds() && grid[Index(position)] != None
    }

    /** The (row, column) overload of hasPieceAtPos. */
    function HasPieceAtRowCol(row: int, column: int): (b: bool)
      reads this, grid
      requires Valid()
      ensures b == Occupied(Squares(), Position(row, column))
    {
      HasPieceAtPos(Position(row, column))
    }

    /** Whether the square holds a piece of a colour other than the given one. */
    function HasRivalAtPos(position: Position, color: TeamColor): (b: bool)
      reads this, grid
      requires Valid()
      ensures b <==> position.InBounds() && GetPiece(position).Some? && GetPiece(position).value.color != color
      ensures b == HasRival(Squares(), position, color)
    {
      if !HasPieceAtPos(position) then false
      else GetPiece(position).value.color != color
    }

    /** White's back rank on row 1 (cells 0-7); the rest is unchanged. */
    method SetUpWhitePieces()
      requires Valid()
      modifies grid
      ensures Valid()
      ensures forall i :: 0 <= i < 8 ==> grid[i] == StartingCell(i)
      ensures forall i :: 8 <= i < 64 ==> grid[i] == old(grid[i])
    {
      grid[0] := Some(Piece(WHITE, ROOK));
      grid[1] := Some(Piece(WHITE, KNIGHT));
      grid[2] := Some(Piece(WHITE, BISHOP));
      grid[3] := Some(Piece(WHITE, QUEEN));
      grid[4] := Some(Piece(WHITE, KING));
      grid[5] := Some(Piece(WHITE, BISHOP));
      grid[6] := Some(Piece(WHITE, KNIGHT));
      grid[7] := Some(Piece(WHITE, ROOK));
    }

    /** Black's back rank on row 8 (cells 56-63); the rest is unchanged. */
    method SetUpBlackPieces()
      requires Valid()
      modifies grid
      ensures Valid()
      ensures forall i :: 56 <= i < 64 ==> grid[i] == StartingCell(i)
      ensures forall i :: 0 <= i < 56 ==> grid[i] == old(grid[i])
    {
      grid[56] := Some(Piece(BLACK, ROOK));
      grid[57] := Some(Piece(BLACK, KNIGHT));
      grid[58] := Some(Piece(BLACK, BISHOP));
      grid[59] := Some(Piece(BLACK, QUEEN));
      grid[60] := Some(Piece(BLACK, KING));
      grid[61] := Some(Piece(BLACK, BISHOP));
      grid[62] := Some(Piece(BLACK, KNIGHT));
      grid[63] := Some(Piece(BLACK, ROOK));
    }

    /** Fills cells lo..hi-1 with x (Arrays.fill on one row). */
    method Fill(lo: int, hi: int, x: Option<Piece>)
      requires Valid() && 0 <= lo <= hi <= 64
      modifies grid
      ensures Valid()
      ensures forall i :: 0 <= i < 64 ==> grid[i] == if lo <= i < hi then x else old(grid[i])
    {
      var i := lo;
      while i < hi
        invariant lo <= i <= hi
        invariant forall j :: 0 <= j < 64 ==> grid[j] == if lo <= j < i then x else old(grid[j])
      {
        grid[i] := x;
        i := i + 1;
      }
    }

    /** White pawns on row 2, black pawns on row 7. */
    method SetUpPawns()
      requires Valid()
      modifies grid
      ensures Valid()
      ensures forall i :: 0 <= i < 64 ==>
        grid[i] == if 8 <= i < 16 || 48 <= i < 56 then StartingCell(i) else old(grid[i])
    {
      Fill(8, 16, Some(Piece(WHITE, PAWN)));
      Fill(48, 56, Some(Piece(BLACK, PAWN)));
    }

    /** Empties rows 3 to 6. */
    method ClearMiddleRows()
      requires Valid()
      modifies grid
      ensures Valid()
      ensures forall i :: 0 <= i < 64 ==> grid[i] == if 16 <= i < 48 then None else old(grid[i])
    {
      var r := 2;
      while r < GRID_SIZE - 2
        invariant 2 <= r <= GRID_SIZE - 2
        invariant forall i :: 0 <= i < 64 ==> grid[i] == if 16 <= i < r * 8 then None else old(grid[i])
      {
        Fill(r * 8, r * 8 + 8, None);
        r := r + 1;
      }
    }

    /** The standard opening position, whatever the board held before. */
    method ResetBoard()
      requires Valid()
      modifies grid
      ensures Valid()
      ensures Squares() == StandardGrid()
    {
      ClearMiddleRows();
      SetUpWhitePieces();
      SetUpBlackPieces();
      SetUpPawns();
      assert forall i :: 0 <= i < 64 ==> grid[i] == StartingCell(i);
    }

    /** Boards are equal iff all 64 squares hold equal or both-absent pieces. */
    function Equals(that: ChessBoard): (b: bool)
      reads this, grid, that, that.grid
      requires Valid() && that.Valid()
      ensures b <==> forall p: Position :: p.InBounds() ==> At(Squares(), p) == At(that.Squares(), p)
    {
      SameSquaresSameGrid(Squares(), that.Squares());
      grid[..] == that.grid[..]
    }

    /** A deep copy: a new board with the same squares, sharing no array with this one. */
    method Copy() returns (b: ChessBoard)
      requires Valid()
      ensures fresh(b) && fresh(b.grid) && b.Valid()
      ensures b.Squares() == Squares()
    {
      b := new ChessBoard();
      var i := 0;
      while i < 64
        invariant 0 <= i <= 64
        invariant b.Valid() && fresh(b.grid)
        invariant b.grid[..i] == grid[..i]
      {
        b.grid[i] := grid[i];
        i := i + 1;
      }
    }
  }

  /** A copy equals its original, and editing the copy leaves the original as it was. */
  method CopyIsIndependent(board: ChessBoard, p: Position, piece: Piece) returns (copy: ChessBoard)
    requires board.Valid() && p.InBounds()
    ensures fresh(copy) && copy.Valid()
    ensures copy.Squares() == Put(board.Squares(), p, Some(piece))
    ensures board.Squares() == old(board.Squares())
  {
    copy := board.Copy();
    assert copy.Equals(board);
    copy.AddPiece(p, piece);
  }
}
