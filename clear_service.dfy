/** ClearService: emptying the whole database. */
module ClearService {
  import opened Wrappers
  import opened Records
  import opened MemoryGameDAO
  import opened MemoryUserDAO
  import opened MemoryAuthDAO

  const CLEAR_FAILED := ResponseException(500, "Error: Could not clear database")

  class ClearService {
    const gameDao: MemoryGameDAO
    const userDao: MemoryUserDAO
    const authDao: MemoryAuthDAO

    constructor (gDao: MemoryGameDAO, uDao: MemoryUserDAO, aDao: MemoryAuthDAO)
      ensures gameDao == gDao && userDao == uDao && authDao == aDao
    {
      gameDao := gDao;
      userDao := uDao;
      authDao := aDao;
    }

    /** Clears the three tables, then reports an error if any is still not empty; with the
        in-memory tables that never happens, so the result is always a success and the
        final state does not depend on the state before. */
    method ClearDatabase() returns (r: Result<(), ResponseException>)
      modifies gameDao, userDao, authDao
      ensures gameDao.Valid() && userDao.Valid() && authDao.Valid()
      ensures gameDao.IsEmpty() && userDao.IsEmpty() && authDao.IsEmpty()
      ensures gameDao.gamesTable == map[] && userDao.userTable == map[] && authDao.authDataTable == map[]
      ensures r == Success(())
    {
      gameDao.ClearGameTable();
      userDao.ClearUserTable();
      authDao.ClearAuthTable();
      var failed := !gameDao.IsEmpty() || !userDao.IsEmpty() || !authDao.IsEmpty();
      r := if failed then Failure(CLEAR_FAILED) else Success(());
    }
  }

  /** Clearing twice leaves the same state, and the same answer, as clearing once. */
  method ClearIsIdempotent(service: ClearService) returns (once: Result<(), ResponseException>, twice: Result<(), ResponseException>)
    modifies service.gameDao, service.userDao, service.authDao
    ensures once == twice == Success(())
    ensures service.gameDao.gamesTable == map[] && service.userDao.userTable == map[] && service.authDao.authDataTable == map[]
  {
    once := service.ClearDatabase();
    ghost var games, users, sessions := service.gameDao.gamesTable, service.userDao.userTable, service.authDao.authDataTable;
    twice := service.ClearDatabase();
    assert service.gameDao.gamesTable == games && service.userDao.userTable == users && service.authDao.authDataTable == sessions;
  }
}
