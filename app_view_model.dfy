/**
 * The view-model: the session's current account and the current account's
 * medicines, kept as a mirror of the store's live query. Each operation is
 * one atomic step; the live query's re-emission is the refresh of
 * `medicines` at the end of every step that changes the medicines table
 * while an account is logged in.
 */
module Session {
  import opened Results
  import opened Entities
  import opened UserTable
  import opened MedicineTable
  import opened Repository

  class AppViewModel {
    const repository: AppRepository
    var currentUser: Option<User>
    var medicines: seq<Medicine>

    /**
     * The session invariant: logged out, the list is empty; logged in, the
     * user is a stored account and the list holds exactly that account's
     * rows, each once.
     */
    ghost predicate Valid()
      reads this, repository.userDao, repository.medicineDao
    {
      && repository.Valid()
      && (currentUser.None? ==> medicines == [])
      && (currentUser.Some? ==>
            && currentUser.value in repository.userDao.rows
            && IsRowsOf(repository.medicineDao.rows, currentUser.value.id, medicines))
    }

    /** A fresh session: nobody logged in, no medicines. */
    constructor (repository: AppRepository)
      requires repository.Valid()
      ensures Valid() && this.repository == repository
      ensures currentUser == None && medicines == []
    {
      this.repository := repository;
      currentUser := None;
      medicines := [];
    }

    /** `register`: hands the repository's outcome to the caller without its value; the session is untouched. */
    method Register(username: string, email: string, password: string,
                    lookupError: Option<Thrown>, insertError: Option<Thrown>) returns (r: Result<()>)
      requires Valid()
      modifies repository.userDao
      ensures Valid()
      ensures r == Discard(RegisterResult(old(repository.userDao.rows), old(repository.userDao.lastId),
                                          email, lookupError, insertError))
      ensures r.Success? ==> repository.userDao.rows == old(repository.userDao.rows) + [User(old(repository.userDao.lastId) + 1, username, email, password)]
      ensures r.Success? ==> repository.userDao.lastId == old(repository.userDao.lastId) + 1
      ensures r.Failure? ==> unchanged(repository.userDao)
      ensures currentUser == old(currentUser) && medicines == old(medicines)
    {
      var result := repository.RegisterUser(username, email, password, lookupError, insertError);
      r := Discard(result);
    }

    /**
     * `login`: on success the account becomes the current user and the list
     * becomes that account's rows; on failure nothing changes. Either way
     * the outcome, without its value, goes back to the caller.
     */
    method Login(email: string, password: string, lookupError: Option<Thrown>) returns (r: Result<()>)
      requires Valid()
      modifies this
      ensures Valid()
      ensures r == Discard(LoginResult(repository.userDao.rows, email, password, lookupError))
      ensures r.Success? ==> currentUser == Some(LoginResult(repository.userDao.rows, email, password, lookupError).value)
      ensures r.Failure? ==> currentUser == old(currentUser) && medicines == old(medicines)
    {
      var result := repository.LoginUser(email, password, lookupError);
      if result.Success? {
        currentUser := Some(result.value);
        medicines := repository.GetMedicinesForUser(result.value.id);
      }
      r := Discard(result);
    }

    /**
     * `addMedicine`: logged out, nothing happens; logged in, one row owned by
     * the current user is stored under the next key and the list gains it.
     */
    method AddMedicine(name: string, dosage: string, frequency: string, time: string)
      requires Valid()
      modifies this, repository.medicineDao
      ensures Valid()
      ensures currentUser == old(currentUser)
      ensures old(currentUser).None? ==> unchanged(this) && unchanged(repository.medicineDao)
      ensures old(currentUser).Some? ==>
                && repository.medicineDao.lastId == old(repository.medicineDao.lastId) + 1
                && repository.medicineDao.rows == old(repository.medicineDao.rows) +
                     [Medicine(repository.medicineDao.lastId, old(currentUser).value.id, name, dosage, frequency, time)]
      ensures old(currentUser).Some? ==>
                multiset(medicines) == multiset(old(medicines)) +
                  multiset{Medicine(repository.medicineDao.lastId, old(currentUser).value.id, name, dosage, frequency, time)}
    {
      match currentUser
      case None =>
      case Some(user) =>
        ghost var before := repository.medicineDao.rows;
        var ok := repository.AddMedicine(NewMedicine(user.id, name, dosage, frequency, time));
        assert ok;
        ghost var added := Medicine(repository.medicineDao.lastId, user.id, name, dosage, frequency, time);
        assert repository.medicineDao.rows == before + [added];
        OwnedGains(before, added);
        medicines := repository.GetMedicinesForUser(user.id);
    }

    /** `deleteMedicine`: deletes by key whether or not anybody is logged in; the list follows the store. */
    method DeleteMedicine(m: Medicine)
      requires Valid()
      modifies this, repository.medicineDao
      ensures Valid()
      ensures currentUser == old(currentUser)
      ensures repository.medicineDao.rows == WithoutId(old(repository.medicineDao.rows), m.id)
      ensures repository.medicineDao.lastId == old(repository.medicineDao.lastId)
      ensures currentUser.Some? ==> forall x :: x in medicines <==> x in old(medicines) && x.id != m.id
    {
      ghost var before := repository.medicineDao.rows;
      repository.DeleteMedicine(m);
      if currentUser.Some? {
        medicines := repository.GetMedicinesForUser(currentUser.value.id);
        RowsOfMembers(before, currentUser.value.id, old(medicines));
        RowsOfMembers(repository.medicineDao.rows, currentUser.value.id, medicines);
      }
    }
  }
}
