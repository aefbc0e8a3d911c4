/** MovesCalc: what the move generators share. The direction constants, the claimable-square
    test, checkMoveAndAdd, and the specifications of the two generator shapes: a ray scan
    (rook, bishop, queen) and a list of fixed offsets (knight, king). */
module MovesCalc {
  import opened Wrappers
  import opened Pieces
  import opened Positions
  import opened Moves
  import opened Board

  const UP: int := 1
  const LEFT: int := -1
  const DOWN: int := -1
  const RIGHT: int := 1
  const SAME_LINE: int := 0

  /** The end square is on the board and either empty or held by a piece of another colour than
      the piece standing on the start square. */
  predicate IsClaimablePos(g: Grid, move: Move)
    requires Occupied(g, move.start)
  {
    var team := At(g, move.start).value.color;
    move.end.InBounds() && (!Occupied(g, move.end) || HasRival(g, move.end, team))
  }

  /** A claimable square never holds a piece of the mover's colour. */
  lemma ClaimableNeverFriendly(g: Grid, move: Move)
    requires Occupied(g, move.start) && IsClaimablePos(g, move)
    ensures move.end.InBounds()
    ensures At(g, move.end) == None || At(g, move.end).value.color != At(g, move.start).value.color
  {
  }

  /** The plain move start -> end if its end is claimable, else nothing. */
  function ClaimedMove(g: Grid, start: Position, end: Position): (r: set<Move>)
    requires Occupied(g, start)
    ensures r <= {Move(start, end, None)}
    ensures Move(start, end, None) in r <==> IsClaimablePos(g, Move(start, end, None))
  {
    if IsClaimablePos(g, Move(start, end, None)) then {Move(start, end, None)} else {}
  }

  /** Adds the plain move start -> end when its end is claimable; otherwise the set is unchanged. */
  method CheckMoveAndAdd(moves: set<Move>, board: ChessBoard, start: Position, end: Position)
    returns (moves': set<Move>)
    requires board.Valid() && Occupied(board.Squares(), start)
    ensures moves' == moves + ClaimedMove(board.Squares(), start, end)
  {
    moves' := moves;
    if IsClaimablePos(board.Squares(), Move(start, end, None)) {
      moves' := moves + {Move(start, end, None)};
    }
  }

  // ---------------------------------------------------------------------------------------
  // Ray scans

  /** A step of -1, 0 or +1 in each coordinate, not both 0. */
  predicate IsUnitStep(dr: int, dc: int)
  {
    -1 <= dr <= 1 && -1 <= dc <= 1 && (dr != 0 || dc != 0)
  }

  /** u * k for u in {-1, 0, 1}, written so that the arithmetic stays linear. */
  function Scale(u: int, k: int): int
  {
    if u == 1 then k else if u == -1 then -k else 0
  }

  /** The square k steps from s in direction (dr, dc). */
  function Along(s: Position, dr: int, dc: int, k: int): Position
  {
    Position(s.row + Scale(dr, k), s.col + Scale(dc, k))
  }

  /** Moves found by scanning from the k-th square on: empty squares are destinations and the scan
      goes on; the first occupied square is a destination iff it holds a rival of team, and ends
      the scan; so does the edge of the board. */
  function Ray(g: Grid, s: Position, team: TeamColor, dr: int, dc: int, k: int): set<Move>
    requires s.InBounds() && IsUnitStep(dr, dc) && 1 <= k
    decreases 8 - k
  {
    var p := Along(s, dr, dc, k);
    if !p.InBounds() then {}
    else if Occupied(g, p) then (if HasRival(g, p, team) then {Move(s, p, None)} else {})
    else {Move(s, p, None)} + Ray(g, s, team, dr, dc, k + 1)
  }

  /** One step of a scan: what the k-th square contributes and whether the scan goes on. */
  lemma RayUnfold(g: Grid, s: Position, team: TeamColor, dr: int, dc: int, k: int)
    requires s.InBounds() && IsUnitStep(dr, dc) && 1 <= k
    ensures !Along(s, dr, dc, k).InBounds() ==> Ray(g, s, team, dr, dc, k) == {}
    ensures Along(s, dr, dc, k).InBounds() && HasRival(g, Along(s, dr, dc, k), team) ==>
      Ray(g, s, team, dr, dc, k) == {Move(s, Along(s, dr, dc, k), None)}
    ensures Occupied(g, Along(s, dr, dc, k)) && !HasRival(g, Along(s, dr, dc, k), team) ==>
      Ray(g, s, team, dr, dc, k) == {}
    ensures Along(s, dr, dc, k).InBounds() && !Occupied(g, Along(s, dr, dc, k)) ==>
      Ray(g, s, team, dr, dc, k) == {Move(s, Along(s, dr, dc, k), None)} + Ray(g, s, team, dr, dc, k + 1)
  {
  }

  /** The moves a scan has collected once it has passed squares 1 .. k-1, all of them empty. */
  function ScannedPrefix(s: Position, dr: int, dc: int, k: int): set<Move>
    requires 1 <= k
    decreases k
  {
    if k == 1 then {} else ScannedPrefix(s, dr, dc, k - 1) + {Move(s, Along(s, dr, dc, k - 1), None)}
  }

  /** Passing the k-th square adds its move to the prefix. */
  lemma PrefixStep(s: Position, dr: int, dc: int, k: int)
    requires 1 <= k
    ensures ScannedPrefix(s, dr, dc, k + 1) == ScannedPrefix(s, dr, dc, k) + {Move(s, Along(s, dr, dc, k), None)}
  {
  }

  /** A scan that passed squares 1 .. k-1, all on the board and empty, has collected them, and the
      rest of the scan from the k-th square on completes the whole. */
  lemma {:induction false} PrefixThenRay(g: Grid, s: Position, team: TeamColor, dr: int, dc: int, k: int)
    requires s.InBounds() && IsUnitStep(dr, dc) && 1 <= k
    requires ClearBetween(g, s, dr, dc, 1, k)
    ensures ScannedPrefix(s, dr, dc, k) + Ray(g, s, team, dr, dc, k) == Ray(g, s, team, dr, dc, 1)
    decreases k
  {
    if k > 1 {
      var m := Move(s, Along(s, dr, dc, k - 1), None);
      assert ClearBetween(g, s, dr, dc, 1, k - 1) && Along(s, dr, dc, k - 1).InBounds() &&
        !Occupied(g, Along(s, dr, dc, k - 1));
      RayUnfold(g, s, team, dr, dc, k - 1);
      PrefixThenRay(g, s, team, dr, dc, k - 1);
      Regroup(ScannedPrefix(s, dr, dc, k - 1), m, Ray(g, s, team, dr, dc, k), Ray(g, s, team, dr, dc, 1));
    }
  }

  /** Set union regrouped around one element. */
  lemma Regroup(before: set<Move>, m: Move, rest: set<Move>, whole: set<Move>)
    requires before + ({m} + rest) == whole
    ensures (before + {m}) + rest == whole
  {
  }

  /** Where a scan stops: off the board it has exactly its prefix; on a piece, its prefix and,
      for a rival, that square. */
  lemma ScanEnds(g: Grid, s: Position, team: TeamColor, dr: int, dc: int, k: int)
    requires s.InBounds() && IsUnitStep(dr, dc) && 1 <= k
    requires ClearBetween(g, s, dr, dc, 1, k)
    ensures !Along(s, dr, dc, k).InBounds() ==> ScannedPrefix(s, dr, dc, k) == Ray(g, s, team, dr, dc, 1)
    ensures HasRival(g, Along(s, dr, dc, k), team) ==>
      ScannedPrefix(s, dr, dc, k) + {Move(s, Along(s, dr, dc, k), None)} == Ray(g, s, team, dr, dc, 1)
    ensures Occupied(g, Along(s, dr, dc, k)) && !HasRival(g, Along(s, dr, dc, k), team) ==>
      ScannedPrefix(s, dr, dc, k) == Ray(g, s, team, dr, dc, 1)
  {
    PrefixThenRay(g, s, team, dr, dc, k);
    RayUnfold(g, s, team, dr, dc, k);
  }

  /** Passing one more empty square on the board extends the clear stretch. */
  lemma ClearExtends(g: Grid, s: Position, dr: int, dc: int, k: int)
    requires ClearBetween(g, s, dr, dc, 1, k)
    requires Along(s, dr, dc, k).InBounds() && !Occupied(g, Along(s, dr, dc, k))
    ensures ClearBetween(g, s, dr, dc, 1, k + 1)
  {
  }

  /** One more step from the k-th square of a scan reaches the (k+1)-th, and a scan from a square
      on the board leaves it within seven steps. */
  lemma AlongNext(s: Position, dr: int, dc: int, k: int)
    requires s.InBounds() && IsUnitStep(dr, dc) && 1 <= k && Along(s, dr, dc, k).InBounds()
    ensures Along(Along(s, dr, dc, k), dr, dc, 1) == Along(s, dr, dc, k + 1)
    ensures k <= 7
  {
    AlongBound(s, dr, dc, k);
  }

  /** A scan from a square on the board leaves it within seven steps. */
  lemma AlongBound(s: Position, dr: int, dc: int, k: int)
    requires s.InBounds() && IsUnitStep(dr, dc) && 1 <= k && Along(s, dr, dc, k).InBounds()
    ensures k <= 7
  {
  }

  /** Squares k .. j-1 of the ray are on the board and empty. */
  ghost predicate ClearBetween(g: Grid, s: Position, dr: int, dc: int, k: int, j: int)
  {
    forall i :: k <= i < j ==> Along(s, dr, dc, i).InBounds() && !Occupied(g, Along(s, dr, dc, i))
  }

  /** An empty square on the board in front of a clear stretch extends it backwards. */
  lemma ClearPrepend(g: Grid, s: Position, dr: int, dc: int, k: int, j: int)
    requires Along(s, dr, dc, k).InBounds() && !Occupied(g, Along(s, dr, dc, k))
    requires ClearBetween(g, s, dr, dc, k + 1, j)
    ensures ClearBetween(g, s, dr, dc, k, j)
  {
    forall i | k <= i < j
      ensures Along(s, dr, dc, i).InBounds() && !Occupied(g, Along(s, dr, dc, i))
    {
      if i != k {
        assert k + 1 <= i < j;
      }
    }
  }

  /** The j-th square is a destination of a scan that starts at the k-th: it is on the board, every
      square before it is empty, and it is empty itself or holds a rival. */
  ghost predicate Reaches(g: Grid, s: Position, team: TeamColor, dr: int, dc: int, k: int, j: int)
  {
    k <= j && Along(s, dr, dc, j).InBounds() && ClearBetween(g, s, dr, dc, k, j) &&
    (Occupied(g, Along(s, dr, dc, j)) ==> HasRival(g, Along(s, dr, dc, j), team))
  }

  /** Different step counts reach different squares. */
  lemma AlongInjective(s: Position, dr: int, dc: int, i: int, j: int)
    requires IsUnitStep(dr, dc) && i != j
    ensures Along(s, dr, dc, i) != Along(s, dr, dc, j)
  {
  }

  /** Every move of a scan is a plain move from s to a square the scan reaches. */
  lemma {:induction false} RaySound(g: Grid, s: Position, team: TeamColor, dr: int, dc: int, k: int, m: Move)
    requires s.InBounds() && IsUnitStep(dr, dc) && 1 <= k
    requires m in Ray(g, s, team, dr, dc, k)
    ensures exists j :: Reaches(g, s, team, dr, dc, k, j) && m == Move(s, Along(s, dr, dc, j), None)
    decreases 8 - k
  {
    var p := Along(s, dr, dc, k);
    RayUnfold(g, s, team, dr, dc, k);
    assert p.InBounds();
    AlongNext(s, dr, dc, k);
    if m == Move(s, p, None) {
      assert Reaches(g, s, team, dr, dc, k, k);
    } else {
      assert !Occupied(g, p) && m in Ray(g, s, team, dr, dc, k + 1);
      RaySound(g, s, team, dr, dc, k + 1, m);
      var j :| Reaches(g, s, team, dr, dc, k + 1, j) && m == Move(s, Along(s, dr, dc, j), None);
      ClearPrepend(g, s, dr, dc, k, j);
      assert Reaches(g, s, team, dr, dc, k, j);
    }
  }

  /** Every square the scan reaches is a destination. */
  lemma {:induction false} RayComplete(g: Grid, s: Position, team: TeamColor, dr: int, dc: int, k: int, j: int)
    requires s.InBounds() && IsUnitStep(dr, dc) && 1 <= k
    requires Reaches(g, s, team, dr, dc, k, j)
    ensures Move(s, Along(s, dr, dc, j), None) in Ray(g, s, team, dr, dc, k)
    decreases j - k
  {
    if j > k {
      assert Along(s, dr, dc, k).InBounds() && !Occupied(g, Along(s, dr, dc, k));
      RayComplete(g, s, team, dr, dc, k + 1, j);
    }
  }

  /** The whole scan from the first square: exactly the plain moves to reached squares. */
  lemma RayMembership(g: Grid, s: Position, team: TeamColor, dr: int, dc: int, m: Move)
    requires s.InBounds() && IsUnitStep(dr, dc)
    ensures m in Ray(g, s, team, dr, dc, 1) <==>
      exists j :: Reaches(g, s, team, dr, dc, 1, j) && m == Move(s, Along(s, dr, dc, j), None)
  {
    if m in Ray(g, s, team, dr, dc, 1) {
      RaySound(g, s, team, dr, dc, 1, m);
    }
    if exists j :: Reaches(g, s, team, dr, dc, 1, j) && m == Move(s, Along(s, dr, dc, j), None) {
      var j :| Reaches(g, s, team, dr, dc, 1, j) && m == Move(s, Along(s, dr, dc, j), None);
      RayComplete(g, s, team, dr, dc, 1, j);
    }
  }

  /** The first occupied square b of a ray, with every square before it empty: it is a destination
      iff it holds a rival, and nothing beyond it is a destination. */
  lemma RayStopsAtBlocker(g: Grid, s: Position, team: TeamColor, dr: int, dc: int, b: int, j: int)
    requires s.InBounds() && IsUnitStep(dr, dc) && 1 <= b
    requires ClearBetween(g, s, dr, dc, 1, b) && Occupied(g, Along(s, dr, dc, b))
    ensures Move(s, Along(s, dr, dc, b), None) in Ray(g, s, team, dr, dc, 1) <==> HasRival(g, Along(s, dr, dc, b), team)
    ensures j > b ==> Move(s, Along(s, dr, dc, j), None) !in Ray(g, s, team, dr, dc, 1)
  {
    RayMembership(g, s, team, dr, dc, Move(s, Along(s, dr, dc, b), None));
    RayMembership(g, s, team, dr, dc, Move(s, Along(s, dr, dc, j), None));
    forall i | 1 <= i && i != b ensures Along(s, dr, dc, i) != Along(s, dr, dc, b) {
      AlongInjective(s, dr, dc, i, b);
    }
    forall i | 1 <= i && i != j ensures Along(s, dr, dc, i) != Along(s, dr, dc, j) {
      AlongInjective(s, dr, dc, i, j);
    }
  }

  /** Every empty square before the first blocker (or the edge) is a destination. */
  lemma RayIncludesClearSquares(g: Grid, s: Position, team: TeamColor, dr: int, dc: int, j: int)
    requires s.InBounds() && IsUnitStep(dr, dc) && 1 <= j
    requires ClearBetween(g, s, dr, dc, 1, j + 1)
    ensures Move(s, Along(s, dr, dc, j), None) in Ray(g, s, team, dr, dc, 1)
  {
    RayComplete(g, s, team, dr, dc, 1, j);
  }

  /** Every destination of a scan: a plain move from s to an on-board square j >= 1 steps away,
      which holds no piece of team. */
  lemma RayMoveShape(g: Grid, s: Position, team: TeamColor, dr: int, dc: int, m: Move)
    requires s.InBounds() && IsUnitStep(dr, dc) && m in Ray(g, s, team, dr, dc, 1)
    ensures m.start == s && m.promotion == None && m.end.InBounds() && m.end != s
    ensures exists j :: 1 <= j && m.end == Along(s, dr, dc, j)
    ensures At(g, m.end) == None || At(g, m.end).value.color != team
  {
    RaySound(g, s, team, dr, dc, 1, m);
  }

  /** A scan visits at most 7 squares, one per step, so it has at most 7 destinations: all of
      them lie among the first seven squares of its direction. */
  lemma RaySize(g: Grid, s: Position, team: TeamColor, dr: int, dc: int)
    requires s.InBounds() && IsUnitStep(dr, dc)
    ensures |Ray(g, s, team, dr, dc, 1)| <= 7
  {
    var ray, firstSeven := Ray(g, s, team, dr, dc, 1), ScannedPrefix(s, dr, dc, 8);
    forall m | m in ray ensures m in firstSeven {
      RayMoveShape(g, s, team, dr, dc, m);
      var j :| 1 <= j && m.end == Along(s, dr, dc, j);
      AlongBound(s, dr, dc, j);
      PrefixHas(s, dr, dc, 8, j);
    }
    SubsetCard(ray, firstSeven);
    PrefixCard(s, dr, dc, 8);
  }

  /** The prefix up to step k holds the move to each of the squares 1 .. k-1. */
  lemma {:induction false} PrefixHas(s: Position, dr: int, dc: int, k: int, j: int)
    requires 1 <= j < k
    ensures Move(s, Along(s, dr, dc, j), None) in ScannedPrefix(s, dr, dc, k)
    decreases k
  {
    if j < k - 1 {
      PrefixHas(s, dr, dc, k - 1, j);
    }
  }

  /** The prefix up to step k holds at most k - 1 moves. */
  lemma {:induction false} PrefixCard(s: Position, dr: int, dc: int, k: int)
    requires 1 <= k
    ensures |ScannedPrefix(s, dr, dc, k)| <= k - 1
    decreases k
  {
    if k > 1 {
      PrefixCard(s, dr, dc, k - 1);
      CardSnoc(ScannedPrefix(s, dr, dc, k), ScannedPrefix(s, dr, dc, k - 1), Move(s, Along(s, dr, dc, k - 1), None));
    }
  }

  /** Adding one element adds at most one to the size. */
  lemma CardSnoc(whole: set<Move>, rest: set<Move>, m: Move)
    requires whole == rest + {m}
    ensures |whole| <= |rest| + 1
  {
  }

  /** A subset is no larger than the set. */
  lemma SubsetCard(a: set<Move>, b: set<Move>)
    requires a <= b
    ensures |a| <= |b|
  {
    assert b == a + (b - a);
  }

  /** Every direction in the list is a unit step. */
  predicate AllUnitSteps(dirs: seq<(int, int)>)
  {
    forall i :: 0 <= i < |dirs| ==> IsUnitStep(dirs[i].0, dirs[i].1)
  }

  /** The union of the scans in the given directions, collected in list order. */
  function Rays(g: Grid, s: Position, team: TeamColor, dirs: seq<(int, int)>): set<Move>
    requires s.InBounds() && AllUnitSteps(dirs)
  {
    if dirs == [] then {}
    else
      var d := dirs[|dirs| - 1];
      Rays(g, s, team, dirs[..|dirs| - 1]) + Ray(g, s, team, d.0, d.1, 1)
  }

  /** The union of four scans, written out. */
  lemma RaysOfFour(g: Grid, s: Position, team: TeamColor, dirs: seq<(int, int)>)
    requires s.InBounds() && AllUnitSteps(dirs) && |dirs| == 4
    ensures Rays(g, s, team, dirs) ==
      Ray(g, s, team, dirs[0].0, dirs[0].1, 1) + Ray(g, s, team, dirs[1].0, dirs[1].1, 1) +
      Ray(g, s, team, dirs[2].0, dirs[2].1, 1) + Ray(g, s, team, dirs[3].0, dirs[3].1, 1)
  {
    RaysPrefix(g, s, team, dirs, 0);
    RaysPrefix(g, s, team, dirs, 1);
    RaysPrefix(g, s, team, dirs, 2);
    RaysPrefix(g, s, team, dirs, 3);
    assert dirs[..0] == [] && dirs[..4] == dirs;
  }

  /** Scanning one more direction adds its ray to the union. */
  lemma RaysPrefix(g: Grid, s: Position, team: TeamColor, dirs: seq<(int, int)>, i: int)
    requires s.InBounds() && AllUnitSteps(dirs) && 0 <= i < |dirs|
    ensures AllUnitSteps(dirs[..i]) && AllUnitSteps(dirs[..i + 1])
    ensures Rays(g, s, team, dirs[..i + 1]) == Rays(g, s, team, dirs[..i]) + Ray(g, s, team, dirs[i].0, dirs[i].1, 1)
  {
    assert dirs[..i + 1][..i] == dirs[..i];
  }

  /** A move belongs to the union iff it belongs to the scan in one of the directions. */
  lemma {:induction false} RaysMembership(g: Grid, s: Position, team: TeamColor, dirs: seq<(int, int)>, m: Move)
    requires s.InBounds() && AllUnitSteps(dirs)
    ensures m in Rays(g, s, team, dirs) <==>
      exists i :: 0 <= i < |dirs| && m in Ray(g, s, team, dirs[i].0, dirs[i].1, 1)
  {
    if dirs != [] {
      var init := dirs[..|dirs| - 1];
      RaysMembership(g, s, team, init, m);
      assert forall i :: 0 <= i < |init| ==> init[i] == dirs[i];
    }
  }

  /** The j-th square of the ray is the first occupied one. */
  ghost predicate FirstPieceAt(g: Grid, s: Position, dr: int, dc: int, j: int)
  {
    1 <= j && Along(s, dr, dc, j).InBounds() && ClearBetween(g, s, dr, dc, 1, j) && Occupied(g, Along(s, dr, dc, j))
  }

  /** Looking for given rival pieces among the destinations of the scans is looking at the first
      piece on each ray. */
  lemma RaysFindFirstPieces(g: Grid, s: Position, team: TeamColor, dirs: seq<(int, int)>, attackers: set<Piece>)
    requires s.InBounds() && AllUnitSteps(dirs)
    requires forall a :: a in attackers ==> a.color != team
    ensures (exists m :: m in Rays(g, s, team, dirs) && At(g, m.end).Some? && At(g, m.end).value in attackers) <==>
            (exists i, j :: 0 <= i < |dirs| && FirstPieceAt(g, s, dirs[i].0, dirs[i].1, j) &&
                            At(g, Along(s, dirs[i].0, dirs[i].1, j)).value in attackers)
  {
    if m :| m in Rays(g, s, team, dirs) && At(g, m.end).Some? && At(g, m.end).value in attackers {
      RaysMembership(g, s, team, dirs, m);
      var i :| 0 <= i < |dirs| && m in Ray(g, s, team, dirs[i].0, dirs[i].1, 1);
      RaySound(g, s, team, dirs[i].0, dirs[i].1, 1, m);
      var j :| Reaches(g, s, team, dirs[i].0, dirs[i].1, 1, j) && m == Move(s, Along(s, dirs[i].0, dirs[i].1, j), None);
      assert FirstPieceAt(g, s, dirs[i].0, dirs[i].1, j);
    }
    if i, j :| 0 <= i < |dirs| && FirstPieceAt(g, s, dirs[i].0, dirs[i].1, j) &&
               At(g, Along(s, dirs[i].0, dirs[i].1, j)).value in attackers {
      var m := Move(s, Along(s, dirs[i].0, dirs[i].1, j), None);
      assert Reaches(g, s, team, dirs[i].0, dirs[i].1, 1, j);
      RayComplete(g, s, team, dirs[i].0, dirs[i].1, 1, j);
      RaysMembership(g, s, team, dirs, m);
    }
  }

  /** Two boards alike in which squares are occupied and which hold rivals of team. */
  ghost predicate LookAlike(g1: Grid, g2: Grid, team: TeamColor)
  {
    forall q :: Occupied(g1, q) == Occupied(g2, q) && HasRival(g1, q, team) == HasRival(g2, q, team)
  }

  /** A scan sees only occupancy and rivals, so it finds the same moves on boards alike. */
  lemma {:induction false} RayCongruent(g1: Grid, g2: Grid, s: Position, team: TeamColor, dr: int, dc: int, k: int)
    requires s.InBounds() && IsUnitStep(dr, dc) && 1 <= k && LookAlike(g1, g2, team)
    ensures Ray(g1, s, team, dr, dc, k) == Ray(g2, s, team, dr, dc, k)
    decreases 8 - k
  {
    var p := Along(s, dr, dc, k);
    assert Occupied(g1, p) == Occupied(g2, p) && HasRival(g1, p, team) == HasRival(g2, p, team);
    if p.InBounds() && !Occupied(g1, p) {
      RayCongruent(g1, g2, s, team, dr, dc, k + 1);
    }
  }

  /** The union of scans is the same on boards alike. */
  lemma {:induction false} RaysCongruent(g1: Grid, g2: Grid, s: Position, team: TeamColor, dirs: seq<(int, int)>)
    requires s.InBounds() && AllUnitSteps(dirs) && LookAlike(g1, g2, team)
    ensures Rays(g1, s, team, dirs) == Rays(g2, s, team, dirs)
  {
    if dirs != [] {
      var d := dirs[|dirs| - 1];
      RaysCongruent(g1, g2, s, team, dirs[..|dirs| - 1]);
      RayCongruent(g1, g2, s, team, d.0, d.1, 1);
    }
  }

  // ---------------------------------------------------------------------------------------
  // Fixed offsets

  /** The square at offset o from s. */
  function Shift(s: Position, o: (int, int)): Position
  {
    Position(s.row + o.0, s.col + o.1)
  }

  /** The plain moves to the claimable squares at the given offsets, in the order they are tried. */
  function Stepping(g: Grid, s: Position, offsets: seq<(int, int)>): set<Move>
    requires Occupied(g, s)
  {
    if offsets == [] then {}
    else
      var o := offsets[|offsets| - 1];
      Stepping(g, s, offsets[..|offsets| - 1]) + ClaimedMove(g, s, Shift(s, o))
  }

  /** Trying one more offset adds its move exactly when that square is claimable. */
  lemma SteppingPrefix(g: Grid, s: Position, offsets: seq<(int, int)>, i: int)
    requires Occupied(g, s) && 0 <= i < |offsets|
    ensures Stepping(g, s, offsets[..i + 1]) == Stepping(g, s, offsets[..i]) + ClaimedMove(g, s, Shift(s, offsets[i]))
  {
    assert offsets[..i + 1][..i] == offsets[..i];
  }

  /** After the i-th offset is tried, the moves collected are those of the first i + 1 offsets. */
  lemma SteppingTried(g: Grid, s: Position, offsets: seq<(int, int)>, i: int, end: Position,
                      before: set<Move>, after: set<Move>)
    requires Occupied(g, s) && 0 <= i < |offsets| && end == Shift(s, offsets[i])
    requires before == Stepping(g, s, offsets[..i])
    requires after == before + ClaimedMove(g, s, end)
    ensures after == Stepping(g, s, offsets[..i + 1])
  {
    SteppingPrefix(g, s, offsets, i);
  }

  /** Having tried every offset is having tried the whole list. */
  lemma SteppingWhole(g: Grid, s: Position, offsets: seq<(int, int)>)
    requires Occupied(g, s)
    ensures Stepping(g, s, offsets[..|offsets|]) == Stepping(g, s, offsets)
  {
    assert offsets[..|offsets|] == offsets;
  }

  /** The offset generators yield exactly the plain moves to claimable squares at the offsets. */
  lemma {:induction false} SteppingMembership(g: Grid, s: Position, offsets: seq<(int, int)>, m: Move)
    requires Occupied(g, s)
    ensures m in Stepping(g, s, offsets) <==>
      exists o :: o in offsets && m == Move(s, Shift(s, o), None) && IsClaimablePos(g, m)
  {
    if offsets != [] {
      var init := offsets[..|offsets| - 1];
      SteppingMembership(g, s, init, m);
      assert offsets == init + [offsets[|offsets| - 1]];
    }
  }

  /** At most one move per offset. */
  lemma {:induction false} SteppingSize(g: Grid, s: Position, offsets: seq<(int, int)>)
    requires Occupied(g, s)
    ensures |Stepping(g, s, offsets)| <= |offsets|
  {
    if offsets != [] {
      SteppingSize(g, s, offsets[..|offsets| - 1]);
    }
  }

  /** Offset moves see only the mover's colour, occupancy and rivals, so they are the same on
      boards alike whose start squares hold pieces of the same colour. */
  lemma {:induction false} SteppingCongruent(g1: Grid, g2: Grid, s: Position, offsets: seq<(int, int)>)
    requires Occupied(g1, s) && Occupied(g2, s) && At(g1, s).value.color == At(g2, s).value.color
    requires LookAlike(g1, g2, At(g1, s).value.color)
    ensures Stepping(g1, s, offsets) == Stepping(g2, s, offsets)
  {
    if offsets != [] {
      var o := offsets[|offsets| - 1];
      SteppingCongruent(g1, g2, s, offsets[..|offsets| - 1]);
      assert Occupied(g1, Shift(s, o)) == Occupied(g2, Shift(s, o));
      assert HasRival(g1, Shift(s, o), At(g1, s).value.color) == HasRival(g2, Shift(s, o), At(g1, s).value.color);
    }
  }

  /** Looking for given rival pieces among the offset moves is looking at the offset squares. */
  lemma SteppingFinds(g: Grid, s: Position, offsets: seq<(int, int)>, attackers: set<Piece>)
    requires Occupied(g, s)
    requires forall a :: a in attackers ==> a.color != At(g, s).value.color
    ensures (exists m :: m in Stepping(g, s, offsets) && At(g, m.end).Some? && At(g, m.end).value in attackers) <==>
            (exists o :: o in offsets && At(g, Shift(s, o)).Some? && At(g, Shift(s, o)).value in attackers)
  {
    if m :| m in Stepping(g, s, offsets) && At(g, m.end).Some? && At(g, m.end).value in attackers {
      SteppingMembership(g, s, offsets, m);
    }
    if o :| o in offsets && At(g, Shift(s, o)).Some? && At(g, Shift(s, o)).value in attackers {
      SteppingMembership(g, s, offsets, Move(s, Shift(s, o), None));
    }
  }
}
