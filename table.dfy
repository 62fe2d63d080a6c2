/**
 * An ORM repository as an in-memory table: rows in insertion order, each
 * with the auto-increment primary key it was given, and the next key to
 * hand out. Rows are never re-keyed, so insertion order is ascending id
 * order and "the most recently inserted row" is the last one.
 */
module Table {
  import opened Wrappers

  datatype Row<T> = Row(id: int, val: T)

  ghost predicate Ascending<T>(rows: seq<Row<T>>) {
    forall i, j :: 0 <= i < j < |rows| ==> rows[i].id < rows[j].id
  }

  ghost predicate Valid<T>(rows: seq<Row<T>>, nextId: int) {
    Ascending(rows) && forall i :: 0 <= i < |rows| ==> rows[i].id < nextId
  }

  function Ids<T>(rows: seq<Row<T>>): set<int> {
    set i | 0 <= i < |rows| :: rows[i].id
  }

  /** `findOne({ where: { id } })`: the row with that key, if any. */
  function Find<T>(rows: seq<Row<T>>, id: int): (r: Option<Row<T>>)
    ensures r.Some? ==> r.value in rows && r.value.id == id
    ensures r.None? <==> id !in Ids(rows)
  {
    if rows == [] then None
    else if rows[0].id == id then Some(rows[0])
    else
      var r := Find(rows[1..], id);
      assert Ids(rows) == {rows[0].id} + Ids(rows[1..]) by {
        forall x | x in Ids(rows) ensures x in {rows[0].id} + Ids(rows[1..]) {
          var i :| 0 <= i < |rows| && rows[i].id == x;
          if i > 0 { assert rows[1..][i - 1].id == x; }
        }
      }
      r
  }

  /** In an ascending table the row `Find` returns is the one at the key's position. */
  lemma FindAt<T>(rows: seq<Row<T>>, k: int)
    requires Ascending(rows) && 0 <= k < |rows|
    ensures Find(rows, rows[k].id) == Some(rows[k])
  {
    if k > 0 {
      assert rows[0].id < rows[k].id;
      FindAt(rows[1..], k - 1);
    }
  }

  /**
   * `findOne({ where })` on a column other than the key: the first row whose
   * value satisfies `keep`, or none when no row does.
   */
  function FirstWhere<T>(rows: seq<Row<T>>, keep: T -> bool): (r: Option<Row<T>>)
    ensures r.Some? ==> r.value in rows && keep(r.value.val)
    ensures r.None? <==> forall i :: 0 <= i < |rows| ==> !keep(rows[i].val)
  {
    if rows == [] then None
    else if keep(rows[0].val) then Some(rows[0])
    else
      var r := FirstWhere(rows[1..], keep);
      assert forall i :: 1 <= i < |rows| ==> rows[i] == rows[1..][i - 1];
      r
  }

  /** `save` of a new entity: it gets the next key and goes last. */
  function Insert<T>(rows: seq<Row<T>>, nextId: int, v: T): seq<Row<T>> {
    rows + [Row(nextId, v)]
  }

  /** After inserting under a fresh key, that key finds the new row and every other key finds what it did before. */
  lemma FindAfterInsert<T>(rows: seq<Row<T>>, nextId: int, v: T, x: int)
    requires nextId !in Ids(rows)
    ensures Find(Insert(rows, nextId, v), x) == if x == nextId then Some(Row(nextId, v)) else Find(rows, x)
  {
    FindAppend(rows, Row(nextId, v), x);
  }

  lemma {:induction false} FindAppend<T>(rows: seq<Row<T>>, row: Row<T>, x: int)
    ensures Find(rows + [row], x) == if x in Ids(rows) then Find(rows, x) else if x == row.id then Some(row) else None
  {
    if rows != [] {
      assert (rows + [row])[1..] == rows[1..] + [row];
      IdsCons(rows);
      FindAppend(rows[1..], row, x);
    }
  }

  lemma InsertValid<T>(rows: seq<Row<T>>, nextId: int, v: T)
    requires Valid(rows, nextId)
    ensures Valid(Insert(rows, nextId, v), nextId + 1)
  {
  }

  /** `save` of a loaded entity: the row with its key is overwritten in place. */
  function Save<T>(rows: seq<Row<T>>, row: Row<T>): (r: seq<Row<T>>)
    ensures |r| == |rows|
    ensures forall i :: 0 <= i < |rows| ==> r[i] == if rows[i].id == row.id then row else rows[i]
  {
    seq(|rows|, i requires 0 <= i < |rows| => if rows[i].id == row.id then row else rows[i])
  }

  /** Saving never adds or removes a key. */
  lemma SaveIds<T>(rows: seq<Row<T>>, row: Row<T>)
    ensures Ids(Save(rows, row)) == Ids(rows)
  {
    var r := Save(rows, row);
    assert forall i :: 0 <= i < |rows| ==> r[i].id == rows[i].id;
    forall x | x in Ids(r) ensures x in Ids(rows) {
      var i :| 0 <= i < |r| && r[i].id == x;
    }
    forall x | x in Ids(rows) ensures x in Ids(r) {
      var i :| 0 <= i < |rows| && rows[i].id == x;
      assert r[i].id == x;
    }
  }

  lemma SaveValid<T>(rows: seq<Row<T>>, nextId: int, row: Row<T>)
    requires Valid(rows, nextId)
    ensures Valid(Save(rows, row), nextId) && Ids(Save(rows, row)) == Ids(rows)
  {
    var r := Save(rows, row);
    assert forall i :: 0 <= i < |rows| ==> r[i].id == rows[i].id;
    SaveIds(rows, row);
  }

  /** `remove`: the row with that key is dropped, the others keep their order. */
  function Delete<T>(rows: seq<Row<T>>, id: int): (r: seq<Row<T>>)
    ensures forall i :: 0 <= i < |r| ==> r[i] in rows && r[i].id != id
    ensures forall i :: 0 <= i < |rows| && rows[i].id != id ==> rows[i] in r
    ensures |r| <= |rows|
  {
    if rows == [] then []
    else (if rows[0].id == id then [] else [rows[0]]) + Delete(rows[1..], id)
  }

  lemma {:induction false} DeleteValid<T>(rows: seq<Row<T>>, nextId: int, id: int)
    requires Valid(rows, nextId)
    ensures Valid(Delete(rows, id), nextId)
  {
    if rows != [] {
      var tail := rows[1..];
      DeleteValid(tail, nextId, id);
      var rest := Delete(tail, id);
      forall k | 0 <= k < |rest| ensures rows[0].id < rest[k].id {
        var j :| 0 <= j < |tail| && tail[j] == rest[k];
        assert rows[j + 1] == rest[k];
      }
      if rows[0].id != id {
        AscendingCons(rows[0], rest);
      }
    }
  }

  lemma AscendingCons<T>(x: Row<T>, rest: seq<Row<T>>)
    requires Ascending(rest) && forall k :: 0 <= k < |rest| ==> x.id < rest[k].id
    ensures Ascending([x] + rest)
  {
    var r := [x] + rest;
    forall a, b | 0 <= a < b < |r| ensures r[a].id < r[b].id {
      if a > 0 { assert r[a] == rest[a - 1]; }
      assert r[b] == rest[b - 1];
    }
  }

  /** Deleting a key that is not in the table changes nothing. */
  lemma {:induction false} DeleteAbsent<T>(rows: seq<Row<T>>, id: int)
    requires forall i :: 0 <= i < |rows| ==> rows[i].id != id
    ensures Delete(rows, id) == rows
  {
    if rows != [] {
      DeleteAbsent(rows[1..], id);
      assert [rows[0]] + rows[1..] == rows;
    }
  }

  /** In an ascending table, deleting a present key removes exactly one row. */
  lemma {:induction false} DeleteRemovesOne<T>(rows: seq<Row<T>>, id: int)
    requires Ascending(rows) && id in Ids(rows)
    ensures |Delete(rows, id)| == |rows| - 1
  {
    var k :| 0 <= k < |rows| && rows[k].id == id;
    if k == 0 {
      DeleteAbsent(rows[1..], id);
    } else {
      assert rows[1..][k - 1].id == id;
      DeleteRemovesOne(rows[1..], id);
    }
  }

  lemma IdsCons<T>(rows: seq<Row<T>>)
    requires rows != []
    ensures Ids(rows) == {rows[0].id} + Ids(rows[1..])
  {
    forall x | x in Ids(rows) ensures x in {rows[0].id} + Ids(rows[1..]) {
      var i :| 0 <= i < |rows| && rows[i].id == x;
      if i > 0 { assert rows[1..][i - 1].id == x; }
    }
  }

  /** After `Save(rows, row)` a lookup of the saved key yields `row`; other keys are unaffected. */
  lemma {:induction false} FindAfterSave<T>(rows: seq<Row<T>>, row: Row<T>, x: int)
    ensures Find(Save(rows, row), x) == if x == row.id && x in Ids(rows) then Some(row) else Find(rows, x)
  {
    if rows != [] {
      var s := Save(rows, row);
      assert s[1..] == Save(rows[1..], row);
      IdsCons(rows);
      FindAfterSave(rows[1..], row, x);
    }
  }
}
