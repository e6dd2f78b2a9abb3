/**
 * The `medicines` table and the four data-access operations on it: insert,
 * delete by primary key, update by primary key, and the query for one
 * account's rows.
 */
module MedicineTable {
  import opened Entities

  /** Some row has primary key `id`. */
  predicate HasId(rows: seq<Medicine>, id: int)
  {
    exists i :: 0 <= i < |rows| && rows[i].id == id
  }

  /** No two rows share a primary key. */
  predicate DistinctIds(rows: seq<Medicine>)
  {
    forall i, j :: 0 <= i < j < |rows| ==> rows[i].id != rows[j].id
  }

  /**
   * What the table keeps: distinct keys, none of them the "unassigned" key 0,
   * none above the largest key the auto-increment counter has handed out.
   */
  predicate WellKeyed(rows: seq<Medicine>, lastId: int)
  {
    && 0 <= lastId
    && DistinctIds(rows)
    && forall i :: 0 <= i < |rows| ==> rows[i].id != UnassignedId && rows[i].id <= lastId
  }

  /** The key an inserted row ends up with: a fresh one when it has none, its own otherwise. */
  function AssignedId(m: Medicine, lastId: int): int
  {
    if m.id == UnassignedId then lastId + 1 else m.id
  }

  /** `SELECT * FROM medicines WHERE userId = :userId`, in table order. */
  function Owned(rows: seq<Medicine>, userId: int): (r: seq<Medicine>)
    ensures forall m :: m in r <==> m in rows && m.userId == userId
    ensures DistinctIds(rows) ==> DistinctIds(r)
  {
    if rows == [] then []
    else
      var rest := Owned(rows[1..], userId);
      if rows[0].userId == userId then
        assert forall m :: m in rest ==> m in rows[1..];
        [rows[0]] + rest
      else rest
  }

  /**
   * What the query promises, with no order: the rows owned by `userId`,
   * each as often as in the table, in any order.
   */
  ghost predicate IsRowsOf(rows: seq<Medicine>, userId: int, r: seq<Medicine>)
  {
    multiset(r) == multiset(Owned(rows, userId))
  }

  /** A query result holds exactly the owner's rows, and no more of them than the table has. */
  lemma RowsOfMembers(rows: seq<Medicine>, userId: int, r: seq<Medicine>)
    requires IsRowsOf(rows, userId, r)
    ensures forall m :: m in r <==> m in rows && m.userId == userId
    ensures |r| == |Owned(rows, userId)|
  {
    forall m ensures m in r <==> m in Owned(rows, userId) {
      assert m in r <==> m in multiset(r);
      assert m in Owned(rows, userId) <==> m in multiset(Owned(rows, userId));
    }
    assert |r| == |multiset(r)|;
  }

  /** `@Delete`: drops the row whose primary key is `id` (if any) and no other. */
  function WithoutId(rows: seq<Medicine>, id: int): (r: seq<Medicine>)
    ensures forall m :: m in r <==> m in rows && m.id != id
    ensures DistinctIds(rows) ==> DistinctIds(r)
  {
    if rows == [] then []
    else
      var rest := WithoutId(rows[1..], id);
      if rows[0].id == id then rest
      else
        assert forall m :: m in rest ==> m in rows[1..];
        [rows[0]] + rest
  }

  /** Deleting a key that no row has leaves the table as it was. */
  lemma {:induction false} DeleteAbsentIsNoOp(rows: seq<Medicine>, id: int)
    requires !HasId(rows, id)
    ensures WithoutId(rows, id) == rows
  {
    if rows != [] {
      assert !HasId(rows[1..], id) by {
        forall i | 0 <= i < |rows[1..]| ensures rows[1..][i].id != id {
          assert rows[1..][i] == rows[i + 1];
        }
      }
      DeleteAbsentIsNoOp(rows[1..], id);
    }
  }

  /** `@Update`: the row whose primary key is `m.id` (if any) becomes `m`; every other row stays. */
  function Replaced(rows: seq<Medicine>, m: Medicine): (r: seq<Medicine>)
    ensures |r| == |rows|
    ensures forall i :: 0 <= i < |rows| ==> r[i].id == rows[i].id
    ensures forall i :: 0 <= i < |rows| && rows[i].id != m.id ==> r[i] == rows[i]
    ensures forall i :: 0 <= i < |rows| && rows[i].id == m.id ==> r[i] == m
  {
    if rows == [] then []
    else [if rows[0].id == m.id then m else rows[0]] + Replaced(rows[1..], m)
  }

  /** Appending a row owned by someone else leaves an account's rows as they were. */
  lemma {:induction false} OwnedIgnoresOthers(rows: seq<Medicine>, m: Medicine, userId: int)
    requires m.userId != userId
    ensures Owned(rows + [m], userId) == Owned(rows, userId)
  {
    if rows != [] {
      assert (rows + [m])[1..] == rows[1..] + [m];
      OwnedIgnoresOthers(rows[1..], m, userId);
    }
  }

  /** Appending a row to the table appends it to its owner's rows. */
  lemma {:induction false} OwnedGains(rows: seq<Medicine>, m: Medicine)
    ensures Owned(rows + [m], m.userId) == Owned(rows, m.userId) + [m]
  {
    if rows == [] {
    } else {
      assert (rows + [m])[1..] == rows[1..] + [m];
      OwnedGains(rows[1..], m);
    }
  }

  /** Deleting a row owned by someone else leaves an account's rows as they were. */
  lemma {:induction false} OwnedIgnoresOtherDeletes(rows: seq<Medicine>, id: int, userId: int)
    requires forall i :: 0 <= i < |rows| && rows[i].id == id ==> rows[i].userId != userId
    ensures Owned(WithoutId(rows, id), userId) == Owned(rows, userId)
  {
    if rows != [] {
      OwnedIgnoresOtherDeletes(rows[1..], id, userId);
    }
  }

  /** The medicines table: its rows and SQLite's auto-increment counter for the primary key. */
  class MedicineDao {
    var rows: seq<Medicine>
    var lastId: int

    ghost predicate Valid()
      reads this
    {
      WellKeyed(rows, lastId)
    }

    /** An empty table whose first generated key will be 1. */
    constructor ()
      ensures Valid() && rows == [] && lastId == 0
    {
      rows := [];
      lastId := 0;
    }

    /**
     * `@Insert` (conflict strategy ABORT). A row with key 0 gets the next
     * key; a row with its own key keeps it and lifts the counter to it. A
     * row whose key is already taken violates the primary key: the
     * statement is rolled back and `ok` is false, where Room's insert throws
     * `SQLiteConstraintException`.
     */
    method InsertMedicine(m: Medicine) returns (ok: bool)
      requires Valid()
      modifies this
      ensures Valid()
      ensures ok <==> m.id == UnassignedId || !HasId(old(rows), m.id)
      ensures ok ==> rows == old(rows) + [m.(id := AssignedId(m, old(lastId)))]
      ensures ok ==> lastId == if AssignedId(m, old(lastId)) > old(lastId) then AssignedId(m, old(lastId)) else old(lastId)
      ensures !ok ==> rows == old(rows) && lastId == old(lastId)
    {
      if m.id != UnassignedId && HasId(rows, m.id) {
        return false;
      }
      var id := AssignedId(m, lastId);
      rows := rows + [m.(id := id)];
      if id > lastId {
        lastId := id;
      }
      ok := true;
    }

    /** `@Delete`: removes the row with `m`'s primary key; a key not in the table is a no-op. */
    method DeleteMedicine(m: Medicine)
      requires Valid()
      modifies this
      ensures Valid()
      ensures rows == WithoutId(old(rows), m.id) && lastId == old(lastId)
    {
      rows := WithoutId(rows, m.id);
    }

    /** `@Update`: the row with `m`'s primary key takes `m`'s fields; a key not in the table is a no-op. */
    method UpdateMedicine(m: Medicine)
      requires Valid()
      modifies this
      ensures Valid()
      ensures rows == Replaced(old(rows), m) && lastId == old(lastId)
    {
      rows := Replaced(rows, m);
    }

    /** One emission of the live query for `userId`: its rows, each once, in no promised order. */
    method GetMedicinesForUser(userId: int) returns (r: seq<Medicine>)
      requires Valid()
      ensures IsRowsOf(rows, userId, r)
    {
      r := Owned(rows, userId);
    }
  }
}
