/**
 * The two records the local store keeps: a medication entry (`Medicine`, an
 * entity of the `medicines` table) and an account (`User`, whose declaration
 * is not part of this model; its four fields are those the repository and
 * the view-model read and write).
 */
module Entities {

  /** A medication entry. `id` is the auto-generated primary key; `userId` the owning account. */
  datatype Medicine = Medicine(
    id: int,
    userId: int,
    name: string,
    dosage: string,
    frequency: string,
    time: string)

  /** An account: auto-generated id, display name, e-mail and (plain-text) password. */
  datatype User = User(id: int, username: string, email: string, password: string)

  /** The primary key value that means "not assigned yet": the store picks one on insert. */
  const UnassignedId := 0

  /** `Medicine(userId = .., name = .., ...)` with the default `id`: a row still to be given its key. */
  function NewMedicine(userId: int, name: string, dosage: string, frequency: string, time: string): Medicine
  {
    Medicine(UnassignedId, userId, name, dosage, frequency, time)
  }

  /** The demonstration list shipped with the app. */
  function SampleMedicines(): seq<Medicine>
  {
    [ Medicine(1, 1, "Aspirin", "500mg", "Günde 2 kez", "Sabah-Akşam"),
      Medicine(2, 1, "Parol", "500mg", "Günde 3 kez", "Sabah-Öğle-Akşam"),
      Medicine(3, 1, "Vitamin D", "1000IU", "Günde 1 kez", "Sabah") ]
  }

  /** The sample list has three entries, with keys 1, 2 and 3 in that order, all owned by account 1. */
  lemma SampleMedicinesShape()
    ensures |SampleMedicines()| == 3
    ensures forall i :: 0 <= i < 3 ==> SampleMedicines()[i].id == i + 1
    ensures forall m :: m in SampleMedicines() ==> m.userId == 1
  {
  }
}
