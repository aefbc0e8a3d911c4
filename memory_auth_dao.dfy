/** MemoryAuthDAO: the sessions table, keyed by auth token. */
module MemoryAuthDAO {
  import opened Wrappers
  import opened Records

  /** The index of the first of the successive random tokens that is not a key. */
  function FirstFreshDraw(draws: seq<string>, table: map<string, AuthData>, i: nat): (k: nat)
    requires i <= |draws|
    requires exists j :: i <= j < |draws| && draws[j] !in table
    ensures i <= k < |draws| && draws[k] !in table
    ensures forall j :: i <= j < k ==> draws[j] in table
    decreases |draws| - i
  {
    if draws[i] !in table then i else FirstFreshDraw(draws, table, i + 1)
  }

  class MemoryAuthDAO {
    var authDataTable: map<string, AuthData>

    /** Every session is stored under its own token. */
    ghost predicate Valid()
      reads this
    {
      forall token :: token in authDataTable ==> authDataTable[token].authToken == token
    }

    constructor ()
      ensures Valid() && authDataTable == map[]
    {
      authDataTable := map[];
    }

    /** UUID.randomUUID() is drawn until a token that is not yet a key comes up. The draws
        are given as the sequence of values the random source would produce, and one of them
        must be fresh for the loop to end. */
    method GenerateToken(draws: seq<string>) returns (token: string)
      requires exists j :: 0 <= j < |draws| && draws[j] !in authDataTable
      ensures token !in authDataTable
      ensures token == draws[FirstFreshDraw(draws, authDataTable, 0)]
    {
      var i := 0;
      token := draws[0];
      while token in authDataTable
        invariant 0 <= i < |draws| && token == draws[i]
        invariant forall j :: 0 <= j < i ==> draws[j] in authDataTable
        invariant exists j :: i <= j < |draws| && draws[j] !in authDataTable
        decreases |draws| - i
      {
        i := i + 1;
        token := draws[i];
      }
    }

    /** Empties the table. */
    method ClearAuthTable()
      modifies this
      ensures Valid() && IsEmpty()
    {
      authDataTable := map[];
    }

    /** Opens a session for username under a new token and returns the token; every existing
        session is kept. */
    method CreateAuth(username: Option<string>, draws: seq<string>) returns (token: string)
      requires Valid()
      requires exists j :: 0 <= j < |draws| && draws[j] !in authDataTable
      modifies this
      ensures Valid()
      ensures token !in old(authDataTable) && token == draws[FirstFreshDraw(draws, old(authDataTable), 0)]
      ensures authDataTable == old(authDataTable)[token := AuthData(token, username)]
      ensures |authDataTable| == |old(authDataTable)| + 1
      ensures GetAuth(Some(token)) == Some(AuthData(token, username))
    {
      token := GenerateToken(draws);
      authDataTable := authDataTable[token := AuthData(token, username)];
    }

    /** Whether the token names a session; a null token never does. */
    predicate HasAuth(authToken: Option<string>): (b: bool)
      reads this
      ensures b ==> authToken.Some?
      ensures b && Valid() ==> authToken.value in authDataTable && authDataTable[authToken.value].authToken == authToken.value
    {
      authToken.Some? && authToken.value in authDataTable
    }

    /** The session the token names, or None (Java's null). */
    function GetAuth(authToken: Option<string>): (r: Option<AuthData>)
      reads this
      ensures r.Some? <==> HasAuth(authToken)
      ensures r.Some? ==> r.value == authDataTable[authToken.value]
      ensures Valid() && r.Some? ==> r.value.authToken == authToken.value
    {
      if !HasAuth(authToken) then None else Some(authDataTable[authToken.value])
    }

    /** Ends the session the token names, if any; every other session is kept. */
    method DeleteAuth(authToken: Option<string>)
      requires Valid()
      modifies this
      ensures Valid() && !HasAuth(authToken)
      ensures authToken.Some? ==> authDataTable == old(authDataTable) - {authToken.value}
      ensures authToken.None? ==> authDataTable == old(authDataTable)
    {
      if authToken.Some? {
        authDataTable := authDataTable - {authToken.value};
      }
    }

    /** Whether no session is stored: then no token names one. */
    predicate IsEmpty(): (b: bool)
      reads this
      ensures b <==> forall token :: !HasAuth(Some(token))
    {
      assert (forall token :: !HasAuth(Some(token))) ==> authDataTable == map[] by {
        if forall token :: !HasAuth(Some(token)) {
          forall token ensures token !in authDataTable {
            assert !HasAuth(Some(token));
          }
          EmptyTable(authDataTable);
        }
      }
      authDataTable == map[]
    }
  }
}
