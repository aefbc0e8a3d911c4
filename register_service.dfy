/** RegisterService: signing up a new user and opening their first session. */
module RegisterService {
  import opened Wrappers
  import opened Records
  import opened MemoryUserDAO
  import opened MemoryAuthDAO

  const MISSING_FIELD := ResponseException(400, "Error: missing info field in user data.")
  const NAME_TAKEN := ResponseException(403, "Error: Username already taken.")

  /** All three fields of the user are present. */
  predicate Complete(user: UserData)
  {
    user.username.Some? && user.password.Some? && user.email.Some?
  }

  class RegisterService {
    const userDao: MemoryUserDAO
    const authDao: MemoryAuthDAO

    constructor (uDao: MemoryUserDAO, aDao: MemoryAuthDAO)
      ensures userDao == uDao && authDao == aDao
    {
      userDao := uDao;
      authDao := aDao;
    }

    /** A user with a missing field is refused first, then a taken username; neither changes
        a table. Otherwise the user is stored, a session is opened under a new token drawn from
        draws, and that token is returned. */
    method Register(user: UserData, draws: seq<string>) returns (r: Result<string, ResponseException>)
      requires userDao.Valid() && authDao.Valid()
      requires exists j :: 0 <= j < |draws| && draws[j] !in authDao.authDataTable
      modifies userDao, authDao
      ensures userDao.Valid() && authDao.Valid()
      ensures !Complete(user) ==> r == Failure(MISSING_FIELD)
      ensures Complete(user) && old(userDao.HasThisUsername(user.username)) ==> r == Failure(NAME_TAKEN)
      ensures r.Failure? ==>
        userDao.userTable == old(userDao.userTable) && authDao.authDataTable == old(authDao.authDataTable)
      ensures Complete(user) && !old(userDao.HasThisUsername(user.username)) ==> r.Success?
      ensures r.Success? ==>
        userDao.userTable == old(userDao.userTable)[user.username := user] &&
        r.value !in old(authDao.authDataTable) &&
        r.value == draws[FirstFreshDraw(draws, old(authDao.authDataTable), 0)] &&
        authDao.authDataTable == old(authDao.authDataTable)[r.value := AuthData(r.value, user.username)]
    {
      if user.username.None? || user.password.None? || user.email.None? {
        return Failure(MISSING_FIELD);
      }
      if userDao.HasThisUsername(user.username) {
        return Failure(NAME_TAKEN);
      }
      ghost var sessions := authDao.authDataTable;
      userDao.CreateUser(user);
      assert authDao.authDataTable == sessions;
      var authToken := authDao.CreateAuth(user.username, draws);
      return Success(authToken);
    }
  }
}
