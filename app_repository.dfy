/**
 * The repository: registration and login rules over the users table, with
 * every DAO exception turned into a failure result, and the medicine
 * operations handed straight to the medicines DAO.
 */
module Repository {
  import opened Results
  import opened Entities
  import opened UserTable
  import opened MedicineTable

  /** Failure message of a registration whose e-mail is already on file. */
  const EmailTaken := "Email already registered"
  /** Failure message of a login with no exactly matching account. */
  const InvalidCredentials := "Invalid credentials"

  /**
   * What `registerUser` returns for a users table `rows` whose counter is
   * `lastId`; `lookupError` / `insertError` say whether the e-mail lookup or
   * the insert throws (an I/O failure of the store), in which case the
   * exception becomes the failure.
   */
  function RegisterResult(rows: seq<User>, lastId: int, email: string,
                          lookupError: Option<Thrown>, insertError: Option<Thrown>): (r: Result<int>)
    ensures r.Success? <==> lookupError.None? && insertError.None? && forall u :: u in rows ==> u.email != email
    ensures lookupError.Some? ==> r == Failure(lookupError.value.message)
    ensures lookupError.None? && (exists u :: u in rows && u.email == email) ==> r == Failure(Some(EmailTaken))
    ensures lookupError.None? && (forall u :: u in rows ==> u.email != email) && insertError.Some? ==>
              r == Failure(insertError.value.message)
    ensures r.Success? ==> r.value == lastId + 1
    ensures r.Success? && WellKeyedUsers(rows, lastId) ==> forall u :: u in rows ==> u.id < r.value
  {
    if lookupError.Some? then Failure(lookupError.value.message)
    else if FindByEmail(rows, email).Some? then Failure(Some(EmailTaken))
    else if insertError.Some? then Failure(insertError.value.message)
    else Success(lastId + 1)
  }

  /** What `loginUser` returns for users table `rows`; `lookupError` says whether the lookup throws. */
  function LoginResult(rows: seq<User>, email: string, password: string, lookupError: Option<Thrown>): (r: Result<User>)
    ensures lookupError.Some? ==> r == Failure(lookupError.value.message)
    ensures r.Success? ==> r.value in rows && r.value.email == email && r.value.password == password
    ensures lookupError.None? && r.Failure? ==>
              && r.message == Some(InvalidCredentials)
              && forall u :: u in rows ==> !(u.email == email && u.password == password)
  {
    if lookupError.Some? then Failure(lookupError.value.message)
    else match FindByCredentials(rows, email, password)
      case Some(u) => Success(u)
      case None => Failure(Some(InvalidCredentials))
  }

  /** An account appended behind rows that do not use its e-mail is the one its credentials find. */
  lemma {:induction false} FindsAppended(rows: seq<User>, u: User)
    requires forall v :: v in rows ==> v.email != u.email
    ensures FindByCredentials(rows + [u], u.email, u.password) == Some(u)
  {
    if rows == [] {
    } else {
      assert (rows + [u])[1..] == rows[1..] + [u];
      FindsAppended(rows[1..], u);
    }
  }

  /** Round trip: after a successful registration, logging in with its e-mail and password yields that account. */
  lemma RegisterThenLogin(rows: seq<User>, lastId: int, username: string, email: string, password: string,
                          lookupError: Option<Thrown>, insertError: Option<Thrown>)
    requires RegisterResult(rows, lastId, email, lookupError, insertError).Success?
    ensures var id := RegisterResult(rows, lastId, email, lookupError, insertError).value;
            LoginResult(rows + [User(id, username, email, password)], email, password, None)
              == Success(User(id, username, email, password))
  {
    var id := RegisterResult(rows, lastId, email, lookupError, insertError).value;
    FindsAppended(rows, User(id, username, email, password));
  }

  /** A successful registration keeps e-mails unique and keys well formed. */
  lemma RegisterKeepsTableInvariants(rows: seq<User>, lastId: int, username: string, email: string, password: string,
                                     lookupError: Option<Thrown>, insertError: Option<Thrown>)
    requires UniqueEmails(rows) && WellKeyedUsers(rows, lastId)
    requires RegisterResult(rows, lastId, email, lookupError, insertError).Success?
    ensures var id := RegisterResult(rows, lastId, email, lookupError, insertError).value;
            && UniqueEmails(rows + [User(id, username, email, password)])
            && WellKeyedUsers(rows + [User(id, username, email, password)], id)
  {
    var id := RegisterResult(rows, lastId, email, lookupError, insertError).value;
    var rows' := rows + [User(id, username, email, password)];
    forall i, j | 0 <= i < j < |rows'|
      ensures rows'[i].email != rows'[j].email && rows'[i].id != rows'[j].id
    {
      if j == |rows| {
        assert rows'[i] in rows;
      }
    }
  }

  /** With unique e-mails, the right e-mail with a wrong password is refused as invalid credentials. */
  lemma WrongPasswordRefused(rows: seq<User>, u: User, password: string)
    requires UniqueEmails(rows) && u in rows && password != u.password
    ensures LoginResult(rows, u.email, password, None) == Failure(Some(InvalidCredentials))
  {
  }

  /** The repository over the two DAOs. */
  class AppRepository {
    const userDao: UserDao
    const medicineDao: MedicineDao

    ghost predicate Valid()
      reads userDao, medicineDao
    {
      userDao.Valid() && medicineDao.Valid()
    }

    constructor (userDao: UserDao, medicineDao: MedicineDao)
      ensures this.userDao == userDao && this.medicineDao == medicineDao
    {
      this.userDao := userDao;
      this.medicineDao := medicineDao;
    }

    /**
     * `registerUser`: refuses an e-mail already on file, otherwise inserts
     * exactly one account; a throwing DAO call becomes the failure result.
     */
    method RegisterUser(username: string, email: string, password: string,
                        lookupError: Option<Thrown>, insertError: Option<Thrown>) returns (r: Result<int>)
      requires Valid()
      modifies userDao
      ensures Valid()
      ensures r == RegisterResult(old(userDao.rows), old(userDao.lastId), email, lookupError, insertError)
      ensures r.Success? ==> userDao.rows == old(userDao.rows) + [User(r.value, username, email, password)]
      ensures r.Success? ==> userDao.lastId == r.value
      ensures r.Failure? ==> unchanged(userDao)
      ensures UniqueEmails(old(userDao.rows)) ==> UniqueEmails(userDao.rows)
      ensures r.Success? ==> LoginResult(userDao.rows, email, password, None) == Success(User(r.value, username, email, password))
    {
      if lookupError.Some? {
        return Failure(lookupError.value.message);
      }
      var existing := FindByEmail(userDao.rows, email);
      if existing.Some? {
        return Failure(Some(EmailTaken));
      }
      if insertError.Some? {
        return Failure(insertError.value.message);
      }
      ghost var before := userDao.rows;
      var id := userDao.InsertUser(username, email, password);
      r := Success(id);
      RegisterThenLogin(before, old(userDao.lastId), username, email, password, lookupError, insertError);
      if UniqueEmails(before) {
        RegisterKeepsTableInvariants(before, old(userDao.lastId), username, email, password, lookupError, insertError);
      }
    }

    /** `loginUser`: the account matching both e-mail and password, or a failure; the store is only read. */
    method LoginUser(email: string, password: string, lookupError: Option<Thrown>) returns (r: Result<User>)
      requires Valid()
      ensures r == LoginResult(userDao.rows, email, password, lookupError)
    {
      if lookupError.Some? {
        return Failure(lookupError.value.message);
      }
      var user := FindByCredentials(userDao.rows, email, password);
      if user.Some? {
        r := Success(user.value);
      } else {
        r := Failure(Some(InvalidCredentials));
      }
    }

    /** `getMedicinesForUser`: the DAO's live query, here one emission of it. */
    method GetMedicinesForUser(userId: int) returns (r: seq<Medicine>)
      requires Valid()
      ensures IsRowsOf(medicineDao.rows, userId, r)
    {
      r := medicineDao.GetMedicinesForUser(userId);
    }

    /** `addMedicine`: the DAO insert; `ok` is false where the DAO would throw on a taken key. */
    method AddMedicine(m: Medicine) returns (ok: bool)
      requires Valid()
      modifies medicineDao
      ensures Valid()
      ensures ok <==> m.id == UnassignedId || !HasId(old(medicineDao.rows), m.id)
      ensures ok ==> medicineDao.rows == old(medicineDao.rows) + [m.(id := AssignedId(m, old(medicineDao.lastId)))]
      ensures !ok ==> medicineDao.rows == old(medicineDao.rows) && medicineDao.lastId == old(medicineDao.lastId)
      ensures m.id == UnassignedId ==> medicineDao.lastId == old(medicineDao.lastId) + 1
      ensures ok ==> medicineDao.lastId == (if AssignedId(m, old(medicineDao.lastId)) > old(medicineDao.lastId)
                                            then AssignedId(m, old(medicineDao.lastId)) else old(medicineDao.lastId))
    {
      ok := medicineDao.InsertMedicine(m);
    }

    /** `deleteMedicine`: the DAO delete by primary key. */
    method DeleteMedicine(m: Medicine)
      requires Valid()
      modifies medicineDao
      ensures Valid()
      ensures medicineDao.rows == WithoutId(old(medicineDao.rows), m.id)
      ensures medicineDao.lastId == old(medicineDao.lastId)
    {
      medicineDao.DeleteMedicine(m);
    }

    /** `updateMedicine`: the DAO update by primary key. */
    method UpdateMedicine(m: Medicine)
      requires Valid()
      modifies medicineDao
      ensures Valid()
      ensures medicineDao.rows == Replaced(old(medicineDao.rows), m)
      ensures medicineDao.lastId == old(medicineDao.lastId)
    {
      medicineDao.UpdateMedicine(m);
    }
  }
}
