/**
 * The medicine screen's own state: the add-medicine form (four text fields
 * and whether its dialog is open), the guard on its confirm button, the
 * reset after an add, and the list with a delete action on each card.
 */
module MedicineScreen {
  import opened Entities
  import opened Text
  import opened MedicineTable
  import opened Session

  /** The confirm button's guard: no field is blank. */
  predicate AllFilled(name: string, dosage: string, frequency: string, time: string)
  {
    !IsBlank(name) && !IsBlank(dosage) && !IsBlank(frequency) && !IsBlank(time)
  }

  /** The four text fields of the form. */
  datatype Field = Name | Dosage | Frequency | Time

  /** The list area: the empty-state message, or one card per medicine. */
  datatype ListView = EmptyState | Cards(cards: seq<Medicine>)

  function MedicineList(medicines: seq<Medicine>): (v: ListView)
    ensures v.EmptyState? <==> medicines == []
    ensures v.Cards? ==> v.cards == medicines
  {
    if medicines == [] then EmptyState else Cards(medicines)
  }

  class AddMedicineForm {
    var medicineName: string
    var dosage: string
    var frequency: string
    var time: string
    var showAddDialog: bool

    /** Blank fields, dialog closed. */
    constructor ()
      ensures medicineName == "" && dosage == "" && frequency == "" && time == ""
      ensures !showAddDialog
    {
      medicineName, dosage, frequency, time := "", "", "", "";
      showAddDialog := false;
    }

    /** The "new medicine" button opens the dialog, with whatever the fields held. */
    method Open()
      modifies this`showAddDialog
      ensures showAddDialog
    {
      showAddDialog := true;
    }

    /** Typing into one field replaces that field's text and nothing else. */
    method Edit(field: Field, value: string)
      modifies this
      ensures medicineName == (if field == Name then value else old(medicineName))
      ensures dosage == (if field == Dosage then value else old(dosage))
      ensures frequency == (if field == Frequency then value else old(frequency))
      ensures time == (if field == Time then value else old(time))
      ensures showAddDialog == old(showAddDialog)
    {
      match field
      case Name => medicineName := value;
      case Dosage => dosage := value;
      case Frequency => frequency := value;
      case Time => time := value;
    }

    /** Cancel closes the dialog and keeps what was typed. */
    method Dismiss()
      modifies this`showAddDialog
      ensures !showAddDialog
    {
      showAddDialog := false;
    }

    /**
     * `onAdd`: the four values go to the view-model's `addMedicine` in the
     * order name, dosage, frequency, time; then the fields are cleared and
     * the dialog closes.
     */
    method OnAdd(vm: AppViewModel)
      requires vm.Valid()
      modifies this, vm, vm.repository.medicineDao
      ensures vm.Valid()
      ensures medicineName == "" && dosage == "" && frequency == "" && time == "" && !showAddDialog
      ensures old(vm.currentUser).Some? ==>
                vm.repository.medicineDao.rows == old(vm.repository.medicineDao.rows) +
                  [Medicine(old(vm.repository.medicineDao.lastId) + 1, old(vm.currentUser).value.id,
                            old(medicineName), old(dosage), old(frequency), old(time))]
      ensures old(vm.currentUser).Some? ==>
                multiset(vm.medicines) == multiset(old(vm.medicines)) +
                  multiset{Medicine(old(vm.repository.medicineDao.lastId) + 1, old(vm.currentUser).value.id,
                                    old(medicineName), old(dosage), old(frequency), old(time))}
      ensures old(vm.currentUser).Some? ==> vm.repository.medicineDao.lastId == old(vm.repository.medicineDao.lastId) + 1
      ensures old(vm.currentUser).None? ==> unchanged(vm) && unchanged(vm.repository.medicineDao)
      ensures vm.currentUser == old(vm.currentUser)
    {
      ghost var added := Medicine(vm.repository.medicineDao.lastId + 1, if vm.currentUser.Some? then vm.currentUser.value.id else 0,
                                  medicineName, dosage, frequency, time);
      vm.AddMedicine(medicineName, dosage, frequency, time);
      assert old(vm.currentUser).Some? ==> vm.repository.medicineDao.rows == old(vm.repository.medicineDao.rows) + [added];
      medicineName, dosage, frequency, time := "", "", "", "";
      showAddDialog := false;
    }

    /** The confirm button: `onAdd` runs only when no field is blank; otherwise nothing happens. */
    method Confirm(vm: AppViewModel)
      requires vm.Valid()
      modifies this, vm, vm.repository.medicineDao
      ensures vm.Valid()
      ensures !AllFilled(old(medicineName), old(dosage), old(frequency), old(time)) ==>
                unchanged(this) && unchanged(vm) && unchanged(vm.repository.medicineDao)
      ensures AllFilled(old(medicineName), old(dosage), old(frequency), old(time)) ==>
                && medicineName == "" && dosage == "" && frequency == "" && time == ""
                && !showAddDialog
      ensures AllFilled(old(medicineName), old(dosage), old(frequency), old(time)) && old(vm.currentUser).Some? ==>
                vm.repository.medicineDao.rows == old(vm.repository.medicineDao.rows) +
                  [Medicine(old(vm.repository.medicineDao.lastId) + 1, old(vm.currentUser).value.id,
                            old(medicineName), old(dosage), old(frequency), old(time))]
      ensures AllFilled(old(medicineName), old(dosage), old(frequency), old(time)) && old(vm.currentUser).Some? ==>
                multiset(vm.medicines) == multiset(old(vm.medicines)) +
                  multiset{Medicine(old(vm.repository.medicineDao.lastId) + 1, old(vm.currentUser).value.id,
                                    old(medicineName), old(dosage), old(frequency), old(time))}
      ensures AllFilled(old(medicineName), old(dosage), old(frequency), old(time)) && old(vm.currentUser).Some? ==>
                vm.repository.medicineDao.lastId == old(vm.repository.medicineDao.lastId) + 1
      ensures old(vm.currentUser).None? ==> unchanged(vm) && unchanged(vm.repository.medicineDao)
      ensures vm.currentUser == old(vm.currentUser)
    {
      if AllFilled(medicineName, dosage, frequency, time) {
        OnAdd(vm);
      }
    }
  }

  /** The delete icon on card `i` deletes that card's medicine. */
  method DeleteCard(vm: AppViewModel, i: nat)
    requires vm.Valid()
    requires MedicineList(vm.medicines).Cards? && i < |MedicineList(vm.medicines).cards|
    modifies vm, vm.repository.medicineDao
    ensures vm.Valid()
    ensures vm.repository.medicineDao.rows == WithoutId(old(vm.repository.medicineDao.rows), old(vm.medicines)[i].id)
    ensures old(vm.medicines)[i] !in vm.medicines
    ensures vm.currentUser == old(vm.currentUser)
    ensures vm.currentUser.Some? ==> forall x :: x in vm.medicines <==> x in old(vm.medicines) && x.id != old(vm.medicines)[i].id
    ensures vm.repository.medicineDao.lastId == old(vm.repository.medicineDao.lastId)
  {
    var card := MedicineList(vm.medicines).cards[i];
    vm.DeleteMedicine(card);
  }
}
