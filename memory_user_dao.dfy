/** MemoryUserDAO: the users table, keyed by username. */
module MemoryUserDAO {
  import opened Wrappers
  import opened Records

  class MemoryUserDAO {
    var userTable: map<Option<string>, UserData>

    /** Every user is stored under its own username. */
    ghost predicate Valid()
      reads this
    {
      forall name :: name in userTable ==> userTable[name].username == name
    }

    constructor ()
      ensures Valid() && userTable == map[]
    {
      userTable := map[];
    }

    /** Whether a user of that name is stored. */
    predicate HasThisUsername(username: Option<string>): (b: bool)
      reads this
      ensures b && Valid() ==> username in userTable && userTable[username].username == username
    {
      username in userTable
    }

    /** Empties the table. */
    method ClearUserTable()
      modifies this
      ensures Valid() && IsEmpty()
    {
      userTable := map[];
    }

    /** Stores the user under its username, replacing any user of that name; every other
        user is kept. */
    method CreateUser(userData: UserData)
      requires Valid()
      modifies this
      ensures Valid() && userTable == old(userTable)[userData.username := userData]
      ensures HasThisUsername(userData.username) && GetUser(userData.username) == Some(userData)
      ensures forall name :: name != userData.username ==>
        (name in userTable <==> name in old(userTable)) && (name in userTable ==> userTable[name] == old(userTable)[name])
      ensures userTable.Keys == old(userTable).Keys + {userData.username}
    {
      userTable := userTable[userData.username := userData];
    }

    /** The stored user of that name, or None (Java's null) when there is none. */
    function GetUser(username: Option<string>): (r: Option<UserData>)
      reads this
      ensures r.Some? <==> HasThisUsername(username)
      ensures r.Some? ==> r.value == userTable[username]
      ensures Valid() && r.Some? ==> r.value.username == username
    {
      if username in userTable then Some(userTable[username]) else None
    }

    /** Removes the user of that name, if any; every other user is kept. */
    method DeleteUser(username: Option<string>)
      requires Valid()
      modifies this
      ensures Valid() && !HasThisUsername(username)
      ensures userTable == old(userTable) - {username}
    {
      userTable := userTable - {username};
    }

    /** Whether no user is stored: then no name, null included, is taken. */
    predicate IsEmpty(): (b: bool)
      reads this
      ensures b <==> forall name :: !HasThisUsername(name)
    {
      assert (forall name :: !HasThisUsername(name)) ==> userTable == map[] by {
        if forall name :: !HasThisUsername(name) {
          forall name ensures name !in userTable {
            assert !HasThisUsername(name);
          }
          EmptyTable(userTable);
        }
      }
      userTable == map[]
    }
  }

  /** Storing a user and deleting it again leaves the table as it was when the name was free. */
  method CreateThenDeleteRestores(dao: MemoryUserDAO, user: UserData)
    requires dao.Valid() && !dao.HasThisUsername(user.username)
    modifies dao
    ensures dao.Valid() && dao.userTable == old(dao.userTable)
  {
    dao.CreateUser(user);
    dao.DeleteUser(user.username);
  }
}
