/** LogoutService: ending a session. */
module LogoutService {
  import opened Wrappers
  import opened Records
  import opened MemoryAuthDAO

  const NOT_LOGGED_IN := ResponseException(401, "Error: User not logged in.")

  class LogoutService {
    const authDAO: MemoryAuthDAO

    constructor (aDao: MemoryAuthDAO)
      ensures authDAO == aDao
    {
      authDAO := aDao;
    }

    /** An unknown or missing token is refused and changes nothing; a known one is removed,
        and no other session is touched. Only the sessions table may change. */
    method Logout(token: Option<string>) returns (r: Result<(), ResponseException>)
      requires authDAO.Valid()
      modifies authDAO
      ensures authDAO.Valid() && !authDAO.HasAuth(token)
      ensures r.Failure? <==> !old(authDAO.HasAuth(token))
      ensures r.Failure? ==> r == Failure(NOT_LOGGED_IN) && authDAO.authDataTable == old(authDAO.authDataTable)
      ensures r.Success? ==> authDAO.authDataTable == old(authDAO.authDataTable) - {token.value}
    {
      var authData := authDAO.GetAuth(token);
      if authData.None? {
        return Failure(NOT_LOGGED_IN);
      }
      authDAO.DeleteAuth(token);
      return Success(());
    }
  }

  /** Logging out twice with the same token: the first succeeds exactly when the token named a
      session, and the second always fails. */
  method LogoutTwice(service: LogoutService, token: Option<string>) returns (first: Result<(), ResponseException>, second: Result<(), ResponseException>)
    requires service.authDAO.Valid()
    modifies service.authDAO
    ensures first.Success? <==> old(service.authDAO.HasAuth(token))
    ensures second == Failure(NOT_LOGGED_IN)
  {
    first := service.Logout(token);
    second := service.Logout(token);
  }
}
