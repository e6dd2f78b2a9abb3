/**
 * The `users` table and the three data-access operations the repository
 * calls on it: look up by e-mail, look up by e-mail and password, insert.
 * The DAO's own declaration is not part of this model; a single-row
 * `@Query` returns the first matching row, as modelled here.
 */
module UserTable {
  import opened Results
  import opened Entities

  /** The first account with this e-mail, if any. */
  function FindByEmail(rows: seq<User>, email: string): (r: Option<User>)
    ensures r.Some? ==> r.value in rows && r.value.email == email
    ensures r.None? <==> forall u :: u in rows ==> u.email != email
  {
    if rows == [] then None
    else if rows[0].email == email then Some(rows[0])
    else FindByEmail(rows[1..], email)
  }

  /** The first account whose e-mail and password both equal the arguments, if any. */
  function FindByCredentials(rows: seq<User>, email: string, password: string): (r: Option<User>)
    ensures r.Some? ==> r.value in rows && r.value.email == email && r.value.password == password
    ensures r.None? <==> forall u :: u in rows ==> !(u.email == email && u.password == password)
  {
    if rows == [] then None
    else if rows[0].email == email && rows[0].password == password then Some(rows[0])
    else FindByCredentials(rows[1..], email, password)
  }

  /** No two accounts share an e-mail address. */
  predicate UniqueEmails(rows: seq<User>)
  {
    forall i, j :: 0 <= i < j < |rows| ==> rows[i].email != rows[j].email
  }

  /** Account keys are distinct, positive, and no larger than the last one handed out. */
  predicate WellKeyedUsers(rows: seq<User>, lastId: int)
  {
    && 0 <= lastId
    && (forall i, j :: 0 <= i < j < |rows| ==> rows[i].id != rows[j].id)
    && forall i :: 0 <= i < |rows| ==> 0 < rows[i].id <= lastId
  }

  /** The users table and its auto-increment counter. */
  class UserDao {
    var rows: seq<User>
    var lastId: int

    ghost predicate Valid()
      reads this
    {
      WellKeyedUsers(rows, lastId)
    }

    constructor ()
      ensures Valid() && rows == [] && lastId == 0
    {
      rows := [];
      lastId := 0;
    }

    /** `insertUser`: stores the account under the next key and returns that key. */
    method InsertUser(username: string, email: string, password: string) returns (id: int)
      requires Valid()
      modifies this
      ensures Valid()
      ensures id == old(lastId) + 1 && lastId == id
      ensures rows == old(rows) + [User(id, username, email, password)]
    {
      id := lastId + 1;
      rows := rows + [User(id, username, email, password)];
      lastId := id;
    }
  }
}
