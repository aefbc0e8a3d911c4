/** The records the server stores and the error it reports. A Java null is None. */
module Records {
  import opened Wrappers
  import opened Game

  /** A stored game: its ID, the two players' usernames, its name and the game itself. */
  datatype GameData = GameData(
    gameID: int,
    whiteUsername: Option<string>,
    blackUsername: Option<string>,
    gameName: Option<string>,
    game: Option<ChessGame>)

  datatype UserData = UserData(username: Option<string>, password: Option<string>, email: Option<string>)

  datatype AuthData = AuthData(authToken: string, username: Option<string>)

  /** A table is empty exactly when no key is stored in it. */
  lemma EmptyTable<K, V>(m: map<K, V>)
    ensures m == map[] <==> forall k :: k !in m
  {
    if forall k :: k !in m {
      assert m.Keys == {};
    }
  }

  /** An HTTP status code with its message. */
  datatype ResponseException = ResponseException(statusCode: int, message: string)
}
