/** GameService: creating and listing games for a signed-in user. */
module GameService {
  import opened Wrappers
  import opened Pieces
  import opened Board
  import opened Game
  import opened Records
  import opened MemoryGameDAO
  import opened MemoryAuthDAO

  /** The listing record of a stored game: every field but the game object. */
  function Listing(game: GameData): GameData
  {
    GameData(game.gameID, game.whiteUsername, game.blackUsername, game.gameName, None)
  }

  /** The listing record built at GameService.java:55, which passes the game name, white
      player and black player into the record's white, black and name fields. */
  function ListingAsWritten(game: GameData): GameData
  {
    GameData(game.gameID, game.gameName, game.whiteUsername, game.blackUsername, None)
  }

  /** A listing record keeps the ID, both players and the name of its game and drops only
      the game object; listing a listing changes nothing. */
  lemma ListingKeepsAllButTheGame(game: GameData)
    ensures Listing(game).gameID == game.gameID && Listing(game).gameName == game.gameName
    ensures Listing(game).whiteUsername == game.whiteUsername && Listing(game).blackUsername == game.blackUsername
    ensures Listing(game).game == None && Listing(Listing(game)) == Listing(game)
    ensures game.game == None <==> Listing(game) == game
  {
  }

  /** The record as written agrees with the intended one only when the name and both players
      coincide. */
  lemma ListingAsWrittenAgreement(game: GameData)
    ensures ListingAsWritten(game) == Listing(game) <==>
      game.gameName == game.whiteUsername && game.whiteUsername == game.blackUsername
  {
  }

  /** A game "friendly" with alice as white and bob as black is listed as written with
      "friendly" as its white player, alice as black and bob as its name. */
  lemma ListingAsWrittenMisplacesNames()
    ensures var stored := GameData(1, Some("alice"), Some("bob"), Some("friendly"), None);
      ListingAsWritten(stored).whiteUsername == Some("friendly") &&
      ListingAsWritten(stored).blackUsername == Some("alice") &&
      ListingAsWritten(stored).gameName == Some("bob") &&
      ListingAsWritten(stored) != Listing(stored)
  {
  }

  const BAD_REQUEST := ResponseException(400, "Error: bad request")
  const UNAUTHORIZED := ResponseException(401, "Error: unauthorized")
  const GAMES_FULL := ResponseException(500, "Error: Games are full")

  class GameService {
    const gameDAO: MemoryGameDAO
    const authDAO: MemoryAuthDAO

    constructor (authDAO: MemoryAuthDAO, gameDAO: MemoryGameDAO)
      ensures this.gameDAO == gameDAO && this.authDAO == authDAO
    {
      this.gameDAO := gameDAO;
      this.authDAO := authDAO;
    }

    /** A missing token or name is a bad request, checked before the token is looked up; an
        unknown token is unauthorized; otherwise the game is stored under the least free ID,
        or refused when the IDs have run out. Only a success changes the games table. */
    method CreateGame(authToken: Option<string>, gameName: Option<string>) returns (r: Result<int, ResponseException>)
      requires gameDAO.Valid()
      modifies gameDAO
      ensures gameDAO.Valid()
      ensures r.Failure? ==> gameDAO.gamesTable == old(gameDAO.gamesTable)
      ensures authToken.None? || gameName.None? ==> r == Failure(BAD_REQUEST)
      ensures authToken.Some? && gameName.Some? && !authDAO.HasAuth(authToken) ==> r == Failure(UNAUTHORIZED)
      ensures authToken.Some? && gameName.Some? && authDAO.HasAuth(authToken) ==>
        (r.Failure? <==> forall i :: GAME_ID_MIN <= i <= INT_MAX ==> i in old(gameDAO.gamesTable)) &&
        (r.Failure? ==> r == Failure(GAMES_FULL))
      ensures r.Success? ==>
        authDAO.HasAuth(authToken) &&
        GAME_ID_MIN <= r.value <= INT_MAX && r.value !in old(gameDAO.gamesTable) &&
        (forall i :: GAME_ID_MIN <= i < r.value ==> i in old(gameDAO.gamesTable)) &&
        gameDAO.gamesTable.Keys == old(gameDAO.gamesTable).Keys + {r.value} &&
        (forall i :: i in old(gameDAO.gamesTable) ==> gameDAO.gamesTable[i] == old(gameDAO.gamesTable)[i]) &&
        gameDAO.gamesTable[r.value].gameName == gameName &&
        gameDAO.HasAvailableWhiteTeam(r.value) && gameDAO.HasAvailableBlackTeam(r.value)
      ensures r.Success? ==> gameDAO.gamesTable[r.value].game.Some?
      ensures r.Success? ==> var game := gameDAO.gamesTable[r.value].game.value;
        fresh(game) && game.Valid() && game.board.Squares() == StandardGrid() && game.teamTurn == WHITE
    {
      if authToken.None? || gameName.None? {
        return Failure(BAD_REQUEST);
      } else if !authDAO.HasAuth(authToken) {
        return Failure(UNAUTHORIZED);
      }
      var gameID := gameDAO.CreateGame(gameName);
      if gameID < 0 {
        return Failure(GAMES_FULL);
      }
      return Success(gameID);
    }

    /** A missing token is a bad request and an unknown one unauthorized; otherwise one listing
        record per stored game, in no particular order. */
    method ListGames(authToken: Option<string>) returns (r: Result<seq<GameData>, ResponseException>)
      requires gameDAO.Valid()
      ensures authToken.None? ==> r == Failure(BAD_REQUEST)
      ensures authToken.Some? && !authDAO.HasAuth(authToken) ==> r == Failure(UNAUTHORIZED)
      ensures authDAO.HasAuth(authToken) ==> r.Success?
      ensures r.Success? ==>
        |r.value| == |gameDAO.gamesTable| &&
        (forall id :: id in gameDAO.gamesTable ==> Listing(gameDAO.gamesTable[id]) in r.value) &&
        (forall g :: g in r.value ==> g.gameID in gameDAO.gamesTable && g == Listing(gameDAO.gamesTable[g.gameID]))
    {
      if authToken.None? {
        return Failure(BAD_REQUEST);
      } else if !authDAO.HasAuth(authToken) {
        return Failure(UNAUTHORIZED);
      }
      var games := gameDAO.GetGamesList();
      var gameList: seq<GameData> := [];
      for i := 0 to |games|
        invariant |gameList| == i
        invariant forall j :: 0 <= j < i ==> gameList[j] == Listing(games[j])
      {
        gameList := gameList + [Listing(games[i])];
      }
      forall id | id in gameDAO.gamesTable ensures Listing(gameDAO.gamesTable[id]) in gameList {
        var j :| 0 <= j < |games| && games[j] == gameDAO.gamesTable[id];
        assert gameList[j] == Listing(gameDAO.gamesTable[id]);
      }
      return Success(gameList);
    }
  }
}
