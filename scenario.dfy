/**
 * A client of the session: register, a second registration with the same
 * e-mail, login, add a medicine, delete it. What each step yields follows
 * from the contracts alone.
 */
module Scenario {
  import opened Results
  import opened Entities
  import opened UserTable
  import opened MedicineTable
  import opened Repository
  import opened Session

  /** A session over an empty store. */
  method Fresh() returns (vm: AppViewModel)
    ensures fresh(vm) && fresh(vm.repository.userDao) && fresh(vm.repository.medicineDao)
    ensures vm.Valid() && vm.currentUser == None
    ensures vm.repository.userDao.rows == [] && vm.repository.userDao.lastId == 0
    ensures vm.repository.medicineDao.rows == [] && vm.repository.medicineDao.lastId == 0
  {
    var users := new UserDao();
    var meds := new MedicineDao();
    var repo := new AppRepository(users, meds);
    vm := new AppViewModel(repo);
  }

  /** Register alice on an empty store, then try her e-mail again for bob. */
  method RegisterTwice() returns (vm: AppViewModel)
    ensures vm.Valid() && vm.currentUser == None
    ensures vm.repository.userDao.rows == [User(1, "alice", "alice@x.com", "pw1")]
    ensures vm.repository.medicineDao.rows == [] && vm.repository.medicineDao.lastId == 0
  {
    vm := Fresh();
    var r := vm.Register("alice", "alice@x.com", "pw1", None, None);
    assert r.Success?;
    assert vm.repository.userDao.rows == [User(1, "alice", "alice@x.com", "pw1")];

    r := vm.Register("bob", "alice@x.com", "pw2", None, None);
    assert r == Failure(Some(EmailTaken)) by {
      assert vm.repository.userDao.rows[0].email == "alice@x.com";
    }
  }

  /** Log alice in, add one medicine for her, delete it again. */
  method LoginAddDelete(vm: AppViewModel)
    requires vm.Valid() && vm.currentUser == None
    requires vm.repository.userDao.rows == [User(1, "alice", "alice@x.com", "pw1")]
    requires vm.repository.medicineDao.rows == [] && vm.repository.medicineDao.lastId == 0
    modifies vm, vm.repository.medicineDao
    ensures vm.currentUser == Some(User(1, "alice", "alice@x.com", "pw1"))
    ensures vm.medicines == [] && vm.repository.medicineDao.rows == []
    ensures vm.repository.medicineDao.lastId == 1
  {
    var r := vm.Login("alice@x.com", "pw1", None);
    assert vm.currentUser == Some(User(1, "alice", "alice@x.com", "pw1"));
    assert vm.medicines == [];

    vm.AddMedicine("Aspirin", "500mg", "2x/day", "Morning-Evening");
    var aspirin := Medicine(1, 1, "Aspirin", "500mg", "2x/day", "Morning-Evening");
    assert vm.repository.medicineDao.rows == [aspirin];
    assert aspirin in vm.medicines;

    vm.DeleteMedicine(aspirin);
    assert vm.repository.medicineDao.rows == [];
    assert vm.medicines == [];
  }
}
