/**
 * The example employees provider: an in-memory array of rows with an id
 * counter, and the get/create/update/delete operations on it.
 */
module EmployeeStore {
  import opened Common
  import opened Text

  /** `Number(id)` for an id that is a number or a string; None is NaN. */
  function NumberOf(id: RowId): Option<int> {
    match id
    case NumId(n) => Some(n)
    case StrId(s) => ParseNumber(s)
  }

  /** `row.id === Number(id)`: NaN matches no row. */
  predicate Matches(row: Row, id: RowId) {
    NumberOf(id).Some? && Get(row, "id") == Num(NumberOf(id).value)
  }

  /** `findIndex`: the index of the first matching row, or -1. */
  function FindIndex(rows: seq<Row>, id: RowId): (index: int)
    ensures -1 <= index < |rows|
    ensures index == -1 ==> forall i :: 0 <= i < |rows| ==> !Matches(rows[i], id)
    ensures index >= 0 ==> Matches(rows[index], id) && forall i :: 0 <= i < index ==> !Matches(rows[i], id)
  {
    if rows == [] then -1
    else if Matches(rows[0], id) then 0
    else
      var rest := FindIndex(rows[1..], id);
      if rest == -1 then -1 else rest + 1
  }

  /** `${id}` in the error message. */
  function IdText(id: RowId): string {
    match id
    case NumId(n) => IntToString(n)
    case StrId(s) => s
  }

  /** The counter starts at 1, every row has a numeric id below it, and no two rows share one. */
  predicate IdsBelowCounter(rows: seq<Row>, nextId: nat) {
    nextId >= 1 &&
    (forall i :: 0 <= i < |rows| ==> Get(rows[i], "id").Num? && 1 <= Get(rows[i], "id").n < nextId) &&
    (forall i, j :: 0 <= i < j < |rows| ==> Get(rows[i], "id") != Get(rows[j], "id"))
  }

  /** The seed row `{ id, name, age, active, lastContacted }`. */
  function SeedRow(id: nat, name: string, age: nat, active: bool, lastContacted: Value): Row {
    map["id" := Num(id), "name" := Str(name), "age" := Num(age), "active" := Bool(active), "lastContacted" := lastContacted]
  }

  /** A row found by the decimal spelling of its id, as a show link carries it. */
  lemma {:induction false} FoundByPrintedId(rows: seq<Row>, nextId: nat, i: nat)
    requires IdsBelowCounter(rows, nextId) && i < |rows|
    ensures FindIndex(rows, StrId(IntToString(Get(rows[i], "id").n))) == i
  {
    var n := Get(rows[i], "id").n;
    ParseNumberOfIntToString(n);
    var id := StrId(IntToString(n));
    assert Matches(rows[i], id);
    assert forall j :: 0 <= j < |rows| && j != i ==> !Matches(rows[j], id) by {
      forall j | 0 <= j < |rows| && j != i
        ensures !Matches(rows[j], id)
      {
        if j < i {
          assert Get(rows[j], "id") != Get(rows[i], "id");
        } else {
          assert Get(rows[i], "id") != Get(rows[j], "id");
        }
      }
    }
  }

  /** The module's `DATA` array and `nextId` counter. */
  class Employees {
    var rows: seq<Row>
    var nextId: nat

    ghost predicate Valid()
      reads this
    {
      IdsBelowCounter(rows, nextId)
    }

    /**
     * The module's initial state: two seed rows with ids 1 and 2 (the
     * `new Date()` values are parameters), and the counter at 3.
     */
    constructor(johnContacted: Value, janeContacted: Value)
      ensures rows == [SeedRow(1, "John Doe", 25, true, johnContacted), SeedRow(2, "Jane Doe", 21, false, janeContacted)]
      ensures nextId == 3
      ensures Valid()
    {
      rows := [];
      nextId := 1;
      new;
      var johnId := nextId;
      nextId := nextId + 1;
      var janeId := nextId;
      nextId := nextId + 1;
      rows := [SeedRow(johnId, "John Doe", 25, true, johnContacted), SeedRow(janeId, "Jane Doe", 21, false, janeContacted)];
    }

    /** `getMany`: a copy of every row, whatever the filter. */
    method GetMany(filter: map<string, Value>) returns (result: seq<Row>)
      ensures result == rows
    {
      result := rows;
    }

    /** `getOne`: the first row whose id is `Number(id)`, or null. */
    method GetOne(id: RowId) returns (result: Option<Row>)
      ensures result.Some? ==> result.value in rows && Matches(result.value, id)
      ensures result.None? <==> forall i :: 0 <= i < |rows| ==> !Matches(rows[i], id)
      ensures result.Some? ==> result.value == rows[FindIndex(rows, id)]
    {
      var index := FindIndex(rows, id);
      if index < 0 {
        return None;
      }
      return Some(rows[index]);
    }

    /** `createOne`: appends the values with the next id and returns the new row. */
    method CreateOne(values: Row) returns (created: Row)
      modifies this
      ensures created == values["id" := Num(old(nextId))]
      ensures rows == old(rows) + [created]
      ensures nextId == old(nextId) + 1
      ensures old(Valid()) ==> Valid()
    {
      var id := nextId;
      nextId := nextId + 1;
      created := values["id" := Num(id)];
      rows := rows + [created];
      if old(Valid()) {
        forall i, j | 0 <= i < j < |rows|
          ensures Get(rows[i], "id") != Get(rows[j], "id")
        {
          assert rows[i] == old(rows)[i];
          if j == |rows| - 1 {
            assert Get(rows[j], "id") == Num(id);
          } else {
            assert rows[j] == old(rows)[j];
          }
        }
        assert forall i :: 0 <= i < |rows| - 1 ==> rows[i] == old(rows)[i];
      }
    }

    /**
     * `updateOne`: merges the values into the first matching row in place and
     * returns it; throws when no row matches.
     */
    method UpdateOne(id: RowId, values: Row) returns (result: Result<Row>)
      modifies this
      ensures nextId == old(nextId) && |rows| == |old(rows)|
      ensures FindIndex(old(rows), id) == -1 ==>
        result == Err("Employee with id " + IdText(id) + " not found") && rows == old(rows)
      ensures FindIndex(old(rows), id) >= 0 ==>
        var index := FindIndex(old(rows), id);
        result == Ok(old(rows)[index] + values) && rows == old(rows)[index := old(rows)[index] + values]
      ensures old(Valid()) && "id" !in values ==> Valid()
    {
      var index := FindIndex(rows, id);
      if index < 0 {
        return Err("Employee with id " + IdText(id) + " not found");
      }
      rows := rows[index := rows[index] + values];
      assert Get(rows[index], "id") == (if "id" in values then values["id"] else Get(old(rows)[index], "id"));
      result := Ok(rows[index]);
    }

    /** `deleteOne`: removes the first matching row; deleting a missing id does nothing. */
    method DeleteOne(id: RowId)
      modifies this
      ensures nextId == old(nextId)
      ensures FindIndex(old(rows), id) == -1 ==> rows == old(rows)
      ensures FindIndex(old(rows), id) >= 0 ==>
        var index := FindIndex(old(rows), id);
        rows == old(rows)[..index] + old(rows)[index + 1..]
      ensures old(Valid()) ==> Valid()
    {
      var index := FindIndex(rows, id);
      if index >= 0 {
        rows := rows[..index] + rows[index + 1..];
        assert forall i :: 0 <= i < |rows| ==> rows[i] == if i < index then old(rows)[i] else old(rows)[i + 1];
      }
    }
  }
}
