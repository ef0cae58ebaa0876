/**
 * The record store of the form component: the `dataType` record and the three
 * list expressions the handlers compute (filter on delete, map on update,
 * spread-and-append on insert).
 */
module Records {
  import opened Wrappers

  /** One row of the store (`dataType`): an id, a name and an optional phone. */
  datatype Record = Record(id: int, name: string, phone: Option<int>)

  /** Every id in the store is at least 1, so every id is truthy in JavaScript. */
  predicate IdsPositive(data: seq<Record>) {
    forall x :: x in data ==> x.id >= 1
  }

  /** No two records share an id. The store does NOT maintain this. */
  predicate IdsUnique(data: seq<Record>) {
    forall i, j :: 0 <= i < j < |data| ==> data[i].id != data[j].id
  }

  /** The number of records in `data` whose id is `id`. */
  function CountId(data: seq<Record>, id: int): nat {
    if data == [] then 0
    else (if data[0].id == id then 1 else 0) + CountId(data[1..], id)
  }

  /**
   * `data.filter(item => item.id !== id)`: every record with that id is gone,
   * every other record stays, and a list without that id is returned as is.
   */
  function WithoutId(data: seq<Record>, id: int): (r: seq<Record>)
    ensures forall x :: x in r <==> x in data && x.id != id
    ensures |r| == |data| - CountId(data, id)
    ensures CountId(data, id) == 0 ==> r == data
  {
    if data == [] then []
    else if data[0].id != id then [data[0]] + WithoutId(data[1..], id)
    else WithoutId(data[1..], id)
  }

  /**
   * Deleting keeps the relative order of what remains: filtering a
   * concatenation filters each part and concatenates the results.
   */
  lemma {:induction false} WithoutIdConcat(a: seq<Record>, b: seq<Record>, id: int)
    ensures WithoutId(a + b, id) == WithoutId(a, id) + WithoutId(b, id)
  {
    if a == [] {
      assert a + b == b;
    } else {
      assert (a + b)[1..] == a[1..] + b;
      WithoutIdConcat(a[1..], b, id);
    }
  }

  /** `CountId` is zero exactly when no record carries the id. */
  lemma {:induction false} CountIdZero(data: seq<Record>, id: int)
    ensures CountId(data, id) == 0 <==> forall x :: x in data ==> x.id != id
  {
    if data != [] {
      CountIdZero(data[1..], id);
      assert forall x :: x in data <==> x == data[0] || x in data[1..];
    }
  }

  /**
   * `data.map(item => item.id == id ? { ...item, name, phone } : item)`:
   * same length, same ids in the same places, every record with that id gets
   * the new name and phone, every other record is untouched.
   */
  function UpdatedWhere(data: seq<Record>, id: int, name: string, phone: Option<int>): (r: seq<Record>)
    ensures |r| == |data|
    ensures forall i :: 0 <= i < |data| && data[i].id == id ==> r[i] == Record(id, name, phone)
    ensures forall i :: 0 <= i < |data| && data[i].id != id ==> r[i] == data[i]
  {
    if data == [] then []
    else
      var head := if data[0].id == id then data[0].(name := name, phone := phone) else data[0];
      [head] + UpdatedWhere(data[1..], id, name, phone)
  }

  /** An update whose id matches no record leaves the list unchanged. */
  lemma UpdateMissingIsNoOp(data: seq<Record>, id: int, name: string, phone: Option<int>)
    requires forall x :: x in data ==> x.id != id
    ensures UpdatedWhere(data, id, name, phone) == data
  {
  }

  /** Every id assigned to a new record is the store's length plus one. */
  function NextId(data: seq<Record>): (id: int)
    ensures id >= 1
  {
    |data| + 1
  }

  /**
   * `[...data, newData]`: the old records, unchanged and in place, followed by
   * one new record with id `data.length + 1` and the given name and phone.
   */
  function Appended(data: seq<Record>, name: string, phone: Option<int>): (r: seq<Record>)
    ensures |r| == |data| + 1 && r[..|data|] == data
    ensures r[|data|] == Record(|data| + 1, name, phone)
  {
    data + [Record(NextId(data), name, phone)]
  }

  /** The three list operations all keep every id at least 1. */
  lemma IdsStayPositive(data: seq<Record>, id: int, name: string, phone: Option<int>)
    requires IdsPositive(data)
    ensures IdsPositive(WithoutId(data, id))
    ensures IdsPositive(UpdatedWhere(data, id, name, phone))
    ensures IdsPositive(Appended(data, name, phone))
  {
  }

  /**
   * Editing a record and submitting its own name and phone again leaves the
   * length unchanged and that record in place; when ids are unique the whole
   * list is unchanged.
   */
  lemma ResubmitOwnFields(data: seq<Record>, k: nat)
    requires k < |data|
    ensures |UpdatedWhere(data, data[k].id, data[k].name, data[k].phone)| == |data|
    ensures UpdatedWhere(data, data[k].id, data[k].name, data[k].phone)[k] == data[k]
    ensures IdsUnique(data) ==> UpdatedWhere(data, data[k].id, data[k].name, data[k].phone) == data
  {
  }

  /**
   * While the store only grows (ids are 1, 2, ..., n in order), the next id is
   * fresh and appending keeps that shape.
   */
  predicate Dense(data: seq<Record>) {
    forall i :: 0 <= i < |data| ==> data[i].id == i + 1
  }

  lemma DenseNextIdFresh(data: seq<Record>, name: string, phone: Option<int>)
    requires Dense(data)
    ensures forall x :: x in data ==> x.id != NextId(data)
    ensures Dense(Appended(data, name, phone))
    ensures IdsUnique(Appended(data, name, phone))
  {
  }

  /**
   * Ids are assigned by count, so they are not unique: with records 1 and 2,
   * deleting 1 and then adding a record gives two records with id 2.
   */
  lemma IdsCanCollide()
    ensures
      var before := [Record(1, "Alice", Some(555)), Record(2, "Bob", Some(556))];
      var after := Appended(WithoutId(before, 1), "Carol", Some(557));
      |after| == 2 && after[0].id == 2 && after[1].id == 2 && !IdsUnique(after)
  {
  }

  /**
   * Deleting the record being edited leaves the edit id dangling: no record
   * carries it any more, and a later update under that id changes nothing.
   */
  lemma DeleteEditedDangles(data: seq<Record>, editId: int, name: string, phone: Option<int>)
    ensures forall x :: x in WithoutId(data, editId) ==> x.id != editId
    ensures UpdatedWhere(WithoutId(data, editId), editId, name, phone) == WithoutId(data, editId)
  {
  }
}
