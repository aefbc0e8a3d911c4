/** MemoryGameDAO: the games table, keyed by game ID. */
module MemoryGameDAO {
  import opened Wrappers
  import opened Pieces
  import opened Board
  import opened Game
  import opened Records

  const GAME_ID_MIN: int := 1

  /** The range of a Java int; id++ on INT_MAX gives INT_MIN. */
  const INT_MAX: int := 0x7fff_ffff
  const INT_MIN: int := -0x8000_0000

  /** Java's 32-bit increment. */
  function Increment(id: int): (r: int)
    requires INT_MIN <= id <= INT_MAX
    ensures INT_MIN <= r <= INT_MAX
    ensures id < INT_MAX ==> r == id + 1
    ensures id == INT_MAX ==> r == INT_MIN
  {
    if id == INT_MAX then INT_MIN else id + 1
  }

  class MemoryGameDAO {
    var gamesTable: map<int, GameData>

    /** Every key is a positive Java int and is the ID of the game stored under it. */
    ghost predicate Valid()
      reads this
    {
      forall id :: id in gamesTable ==> GAME_ID_MIN <= id <= INT_MAX && gamesTable[id].gameID == id
    }

    constructor ()
      ensures Valid() && gamesTable == map[]
    {
      gamesTable := map[];
    }

    /** The least ID from 1 up that is not a key; when all of 1..INT_MAX are taken the
        increment wraps and INT_MIN comes back. */
    method GenerateID() returns (id: int)
      requires Valid()
      ensures GAME_ID_MIN <= id <= INT_MAX ==> id !in gamesTable && forall i :: GAME_ID_MIN <= i < id ==> i in gamesTable
      ensures id < GAME_ID_MIN ==> id == INT_MIN && forall i :: GAME_ID_MIN <= i <= INT_MAX ==> i in gamesTable
      ensures id == INT_MIN || GAME_ID_MIN <= id <= INT_MAX
    {
      id := GAME_ID_MIN;
      while id in gamesTable
        invariant id == INT_MIN || GAME_ID_MIN <= id <= INT_MAX
        invariant id == INT_MIN ==> forall i :: GAME_ID_MIN <= i <= INT_MAX ==> i in gamesTable
        invariant id != INT_MIN ==> forall i :: GAME_ID_MIN <= i < id ==> i in gamesTable
        decreases if id == INT_MIN then 0 else INT_MAX + 1 - id
      {
        id := Increment(id);
      }
    }

    /** Empties the table. */
    method ClearGameTable()
      modifies this
      ensures Valid() && IsEmpty()
    {
      gamesTable := map[];
    }

    /** Stores a new game, with no players, under the least free ID and returns the ID; when
        the IDs have run out it stores nothing and returns a negative ID. */
    method CreateGame(gameName: Option<string>) returns (id: int)
      requires Valid()
      modifies this
      ensures Valid()
      ensures id >= 0 <==> GAME_ID_MIN <= id <= INT_MAX
      ensures id >= 0 ==> id !in old(gamesTable) && forall i :: GAME_ID_MIN <= i < id ==> i in old(gamesTable)
      ensures id < 0 ==>
        id == INT_MIN && gamesTable == old(gamesTable) &&
        forall i :: GAME_ID_MIN <= i <= INT_MAX ==> i in old(gamesTable)
      ensures id >= 0 ==>
        gamesTable.Keys == old(gamesTable).Keys + {id} &&
        |gamesTable| == |old(gamesTable)| + 1 &&
        (forall i :: i in old(gamesTable) ==> gamesTable[i] == old(gamesTable)[i]) &&
        HasGame(id) && HasAvailableWhiteTeam(id) && HasAvailableBlackTeam(id) &&
        gamesTable[id].gameName == gameName && gamesTable[id].game.Some?
      ensures id >= 0 ==> var game := gamesTable[id].game.value;
        fresh(game) && game.Valid() && game.board.Squares() == StandardGrid() && game.teamTurn == WHITE
    {
      id := GenerateID();
      if id >= 0 {
        var chessGame := new ChessGame();
        var game := GameData(id, None, None, gameName, Some(chessGame));
        gamesTable := gamesTable[game.gameID := game];
      }
    }

    /** Every stored game once, in no particular order. */
    method GetGamesList() returns (games: seq<GameData>)
      requires Valid()
      ensures |games| == |gamesTable|
      ensures forall id :: id in gamesTable ==> gamesTable[id] in games
      ensures forall g :: g in games ==> g.gameID in gamesTable && gamesTable[g.gameID] == g
      ensures forall i, j :: 0 <= i < j < |games| ==> games[i].gameID != games[j].gameID
    {
      games := [];
      var remaining: set<nat> := gamesTable.Keys;
      while remaining != {}
        invariant remaining <= gamesTable.Keys
        invariant |games| + |remaining| == |gamesTable|
        invariant forall i :: 0 <= i < |games| ==>
          games[i].gameID in gamesTable && games[i].gameID !in remaining && games[i] == gamesTable[games[i].gameID]
        invariant forall id :: id in gamesTable && id !in remaining ==> gamesTable[id] in games
        invariant forall i, j :: 0 <= i < j < |games| ==> games[i].gameID != games[j].gameID
        decreases remaining
      {
        var id :| id in remaining;
        games := games + [gamesTable[id]];
        remaining := remaining - {id};
      }
    }

    /** Seats a white player; the black player, the name, the game object and every other
        game are kept. */
    method UpdateWhiteUsername(gameID: int, whiteUsername: Option<string>)
      requires Valid() && HasGame(gameID)
      modifies this
      ensures Valid() && gamesTable.Keys == old(gamesTable).Keys
      ensures gamesTable[gameID] == old(gamesTable)[gameID].(whiteUsername := whiteUsername)
      ensures HasAvailableWhiteTeam(gameID) <==> whiteUsername == None
      ensures HasAvailableBlackTeam(gameID) == old(HasAvailableBlackTeam(gameID))
      ensures forall i :: i in gamesTable && i != gameID ==> gamesTable[i] == old(gamesTable)[i]
    {
      var blackUsername := gamesTable[gameID].blackUsername;
      var gameName := gamesTable[gameID].gameName;
      var game := GameData(gameID, whiteUsername, blackUsername, gameName, gamesTable[gameID].game);
      gamesTable := gamesTable[gameID := game];
    }

    /** Seats a black player; the white player, the name, the game object and every other
        game are kept. */
    method UpdateBlackUsername(gameID: int, blackUsername: Option<string>)
      requires Valid() && HasGame(gameID)
      modifies this
      ensures Valid() && gamesTable.Keys == old(gamesTable).Keys
      ensures gamesTable[gameID] == old(gamesTable)[gameID].(blackUsername := blackUsername)
      ensures HasAvailableBlackTeam(gameID) <==> blackUsername == None
      ensures HasAvailableWhiteTeam(gameID) == old(HasAvailableWhiteTeam(gameID))
      ensures forall i :: i in gamesTable && i != gameID ==> gamesTable[i] == old(gamesTable)[i]
    {
      var whiteUsername := gamesTable[gameID].whiteUsername;
      var gameName := gamesTable[gameID].gameName;
      var game := GameData(gameID, whiteUsername, blackUsername, gameName, gamesTable[gameID].game);
      gamesTable := gamesTable[gameID := game];
    }

    /** Whether a game is stored under the ID; a stored game is a positive int ID and carries it. */
    predicate HasGame(gameID: int): (b: bool)
      reads this
      ensures b && Valid() ==> gameID in gamesTable && GAME_ID_MIN <= gameID <= INT_MAX && gamesTable[gameID].gameID == gameID
    {
      gameID in gamesTable
    }

    /** Whether no game is stored: then no ID names a game. */
    predicate IsEmpty(): (b: bool)
      reads this
      ensures b <==> forall id :: !HasGame(id)
    {
      assert (forall id :: !HasGame(id)) ==> gamesTable == map[] by {
        if forall id :: !HasGame(id) {
          forall id ensures id !in gamesTable {
            assert !HasGame(id);
          }
          EmptyTable(gamesTable);
        }
      }
      |gamesTable| == 0
    }

    /** No white player is seated in the game. */
    predicate HasAvailableWhiteTeam(gameID: int)
      reads this
      requires HasGame(gameID)
    {
      gamesTable[gameID].whiteUsername == None
    }

    /** No black player is seated in the game. */
    predicate HasAvailableBlackTeam(gameID: int)
      reads this
      requires HasGame(gameID)
    {
      gamesTable[gameID].blackUsername == None
    }
  }

  /** Starting from an empty table, the first game gets ID 1, and seating a white player takes
      the white seat only. */
  method CreatesFirstGame() returns (dao: MemoryGameDAO, first: int)
    ensures fresh(dao) && dao.Valid()
    ensures first == 1 && dao.gamesTable.Keys == {1}
    ensures !dao.HasAvailableWhiteTeam(1) && dao.HasAvailableBlackTeam(1)
  {
    dao := new MemoryGameDAO();
    ghost var empty := dao.gamesTable;
    first := dao.CreateGame(Some("first"));
    NextFreeID(empty, 0, first);
    dao.UpdateWhiteUsername(first, Some("alice"));
  }

  /** When IDs 1..n are taken and n + 1 is free, the ID createGame hands out is n + 1. */
  lemma NextFreeID(table: map<int, GameData>, n: int, id: int)
    requires 0 <= n < INT_MAX && (forall i :: GAME_ID_MIN <= i <= n ==> i in table) && n + 1 !in table
    requires id >= 0 <==> GAME_ID_MIN <= id <= INT_MAX
    requires id >= 0 ==> id !in table && forall i :: GAME_ID_MIN <= i < id ==> i in table
    requires id < 0 ==> forall i :: GAME_ID_MIN <= i <= INT_MAX ==> i in table
    ensures id == n + 1
  {
  }
}
