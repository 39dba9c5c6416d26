/** The single-table store behind ListDao: the generated ListDao_Impl over the
    SQLite table `list` (an AUTOINCREMENT integer primary key `_id`, four nullable
    text columns, and a unique index on `name`). Each operation runs in its own
    transaction, so a statement that hits a constraint leaves the table as it was. */
module Store {
  import opened Wrappers
  import opened Text
  import opened Entities

  /** The SQLite exceptions the store can raise: SQLITE_CONSTRAINT_UNIQUE on the name
      index, SQLITE_CONSTRAINT_PRIMARYKEY on `_id`, and SQLITE_FULL once the
      AUTOINCREMENT counter has reached the largest long. */
  datatype StoreError = UniqueNameConstraint | PrimaryKeyConstraint | DatabaseFull

  /** A text column of a cursor row: not part of the result set, or present with a
      value that may be NULL. */
  datatype Cell = Absent | Present(text: Option<string>)

  /** One row of a raw query's cursor; `id` is None when `_id` is not selected. */
  datatype CursorRow = CursorRow(id: Option<Long>, name: Cell, description: Cell, category: Cell, status: Cell)

  /** SQLite's evaluation of a SELECT statement with its bound arguments over the
      rows of the table. */
  type QueryEngine = (string, Option<seq<string>>, seq<ListEntity>) -> seq<CursorRow>

  // ---------------------------------------------------------------------------------
  // The table as a sequence of rows in rowid order.

  /** The rows in rowid order: the INTEGER PRIMARY KEY `_id` is the rowid, so ids
      ascend and no two rows share one. */
  predicate IdsAscending(rows: seq<ListEntity>)
    ensures IdsAscending(rows) ==>
              forall i, j :: 0 <= i < |rows| && 0 <= j < |rows| && i != j ==> rows[i].id != rows[j].id
  {
    forall i, j :: 0 <= i < j < |rows| ==> rows[i].id < rows[j].id
  }

  /** The unique index on `name`: no two rows carry the same non-NULL name (SQLite
      lets any number of rows hold NULL). */
  predicate NamesUnique(rows: seq<ListEntity>)
    ensures (forall i :: 0 <= i < |rows| ==> rows[i].name.None?) ==> NamesUnique(rows)
  {
    forall i, j :: 0 <= i < |rows| && 0 <= j < |rows| && i != j && rows[i].name.Some? ==>
      rows[i].name != rows[j].name
  }

  predicate HasId(rows: seq<ListEntity>, id: Long) {
    exists i :: 0 <= i < |rows| && rows[i].id == id
  }

  /** Some row already holds the non-NULL `name`. */
  predicate NameTaken(rows: seq<ListEntity>, name: Option<string>) {
    name.Some? && exists i :: 0 <= i < |rows| && rows[i].name == name
  }

  /** A row other than the one with id `id` already holds the non-NULL `name`. */
  predicate NameTakenExcept(rows: seq<ListEntity>, name: Option<string>, id: Long) {
    name.Some? && exists i :: 0 <= i < |rows| && rows[i].id != id && rows[i].name == name
  }

  function IdsOf(items: seq<ListEntity>): set<Long> {
    set i | 0 <= i < |items| :: items[i].id
  }

  /** The rows whose id is not in `ids`, in their original order. */
  function Without(rows: seq<ListEntity>, ids: set<Long>): (r: seq<ListEntity>)
    ensures |r| <= |rows|
    ensures forall e :: e in r <==> e in rows && e.id !in ids
  {
    if rows == [] then []
    else (if rows[0].id in ids then [] else [rows[0]]) + Without(rows[1..], ids)
  }

  /** The table after `UPDATE ... WHERE _id = item.id` has written `item`. */
  function ReplaceById(rows: seq<ListEntity>, item: ListEntity): (r: seq<ListEntity>)
    ensures |r| == |rows|
    ensures forall i :: 0 <= i < |rows| ==> r[i] == if rows[i].id == item.id then item else rows[i]
  {
    seq(|rows|, i requires 0 <= i < |rows| => if rows[i].id == item.id then item else rows[i])
  }

  /** The table after a row with a fresh id has been stored at its rowid position. */
  function InsertById(rows: seq<ListEntity>, e: ListEntity): (r: seq<ListEntity>)
    requires IdsAscending(rows) && !HasId(rows, e.id)
    ensures IdsAscending(r)
    ensures |r| == |rows| + 1
    ensures forall x :: x in r <==> x in rows || x == e
  {
    if rows == [] || e.id < rows[0].id then [e] + rows
    else
      var tail := InsertById(rows[1..], e);
      assert forall x :: x in tail ==> rows[0].id < x.id by {
        forall x | x in tail ensures rows[0].id < x.id {
          if x != e {
            var k :| 1 <= k < |rows| && rows[k] == x;
          }
        }
      }
      [rows[0]] + tail
  }

  function Max(a: int, b: int): int {
    if a < b then b else a
  }

  // ---------------------------------------------------------------------------------
  // Lemmas about the table operations.

  lemma {:induction false} WithoutNothing(rows: seq<ListEntity>, id: Long)
    requires forall i :: 0 <= i < |rows| ==> rows[i].id != id
    ensures Without(rows, {id}) == rows
  {
    if rows != [] {
      WithoutNothing(rows[1..], id);
    }
  }

  lemma {:induction false} WithoutEmpty(rows: seq<ListEntity>)
    ensures Without(rows, {}) == rows
  {
    if rows != [] {
      WithoutEmpty(rows[1..]);
    }
  }

  /** Filtering that keeps as many rows as it was given keeps all of them. */
  lemma {:induction false} WithoutKeepingCount(rows: seq<ListEntity>, ids: set<Long>)
    requires |Without(rows, ids)| == |rows|
    ensures Without(rows, ids) == rows
  {
    if rows != [] {
      WithoutKeepingCount(rows[1..], ids);
    }
  }

  lemma {:induction false} WithoutUnion(rows: seq<ListEntity>, a: set<Long>, b: set<Long>)
    ensures Without(Without(rows, a), b) == Without(rows, a + b)
  {
    if rows != [] {
      WithoutUnion(rows[1..], a, b);
      var rest := Without(rows[1..], a);
      if rows[0].id in a {
        assert Without(rows, a) == rest;
        assert Without(rows, a + b) == Without(rows[1..], a + b);
      } else {
        assert Without(rows, a) == [rows[0]] + rest;
        assert ([rows[0]] + rest)[1..] == rest;
        assert Without([rows[0]] + rest, b)
            == (if rows[0].id in b then [] else [rows[0]]) + Without(rest, b);
      }
    }
  }

  /** Removing the one row whose id is x from an id-ordered table is filtering x out. */
  lemma {:induction false} RemoveAtIsWithout(rows: seq<ListEntity>, j: nat)
    requires IdsAscending(rows) && j < |rows|
    ensures rows[..j] + rows[j + 1..] == Without(rows, {rows[j].id})
  {
    if j == 0 {
      RemoveFirstIsWithout(rows);
    } else {
      var x := rows[j].id;
      var tail := rows[1..];
      assert IdsAscending(tail);
      assert tail[j - 1] == rows[j];
      RemoveAtIsWithout(tail, j - 1);
      WithoutKeepsHead(rows, x);
      SpliceTail(rows, j);
    }
  }

  /** In an id-ordered table no later row shares the first row's id. */
  lemma RemoveFirstIsWithout(rows: seq<ListEntity>)
    requires IdsAscending(rows) && 0 < |rows|
    ensures rows[..0] + rows[1..] == Without(rows, {rows[0].id})
  {
    var x := rows[0].id;
    var tail := rows[1..];
    assert rows[..0] + rows[1..] == tail;
    assert forall i :: 0 <= i < |tail| ==> tail[i].id != x by {
      forall i | 0 <= i < |tail| ensures tail[i].id != x {
        assert tail[i] == rows[i + 1];
      }
    }
    WithoutNothing(tail, x);
  }

  lemma WithoutKeepsHead(rows: seq<ListEntity>, x: Long)
    requires 0 < |rows| && rows[0].id != x
    ensures Without(rows, {x}) == [rows[0]] + Without(rows[1..], {x})
  {
  }

  lemma SpliceTail(rows: seq<ListEntity>, j: nat)
    requires 0 < j < |rows|
    ensures rows[..j] + rows[j + 1..] == [rows[0]] + (rows[1..][..j - 1] + rows[1..][j..])
  {
    assert rows[..j] == [rows[0]] + rows[1..][..j - 1];
    assert rows[j + 1..] == rows[1..][j..];
  }

  lemma RemoveAtKeepsInvariant(rows: seq<ListEntity>, j: nat)
    requires IdsAscending(rows) && NamesUnique(rows) && j < |rows|
    ensures IdsAscending(rows[..j] + rows[j + 1..]) && NamesUnique(rows[..j] + rows[j + 1..])
  {
    var r := rows[..j] + rows[j + 1..];
    assert forall i :: 0 <= i < |r| ==> r[i] == rows[if i < j then i else i + 1];
  }

  /** An update writes item over the row with its id: afterwards that row holds
      item and nothing else carries the id, every other row is still there, and
      each position keeps its id. */
  lemma ReplaceRewritesOneRow(rows: seq<ListEntity>, item: ListEntity)
    requires HasId(rows, item.id)
    ensures item in ReplaceById(rows, item)
    ensures forall e :: e in ReplaceById(rows, item) && e.id == item.id ==> e == item
    ensures forall e :: e in rows && e.id != item.id ==> e in ReplaceById(rows, item)
    ensures forall i :: 0 <= i < |rows| ==> ReplaceById(rows, item)[i].id == rows[i].id
  {
    var r := ReplaceById(rows, item);
    var k :| 0 <= k < |rows| && rows[k].id == item.id;
    assert r[k] == item;
    forall e | e in rows && e.id != item.id ensures e in r {
      var j :| 0 <= j < |rows| && rows[j] == e;
      assert r[j] == e;
    }
  }

  /** Rewriting every field of the row with item.id keeps the ids and, when no other
      row holds item's name, the name index. */
  lemma ReplaceKeepsInvariant(rows: seq<ListEntity>, item: ListEntity)
    requires IdsAscending(rows) && NamesUnique(rows) && !NameTakenExcept(rows, item.name, item.id)
    ensures IdsAscending(ReplaceById(rows, item)) && NamesUnique(ReplaceById(rows, item))
  {
    var r := ReplaceById(rows, item);
    forall i, j | 0 <= i < |r| && 0 <= j < |r| && i != j && r[i].name.Some?
      ensures r[i].name != r[j].name
    {
      if rows[i].id == item.id && rows[j].id != item.id {
        assert rows[j].name != item.name;
      } else if rows[i].id != item.id && rows[j].id == item.id {
        assert rows[i].name != item.name;
      }
    }
  }

  lemma InsertKeepsNames(rows: seq<ListEntity>, e: ListEntity)
    requires IdsAscending(rows) && NamesUnique(rows) && !HasId(rows, e.id)
    requires !NameTakenExcept(rows, e.name, e.id)
    ensures NamesUnique(InsertById(rows, e))
  {
    var r := InsertById(rows, e);
    forall i, j | 0 <= i < |r| && 0 <= j < |r| && i != j && r[i].name.Some?
      ensures r[i].name != r[j].name
    {
      assert r[i] in r && r[j] in r;
      assert r[i].id != r[j].id;
      if r[i] == e {
        var k :| 0 <= k < |rows| && rows[k] == r[j];
      } else if r[j] == e {
        var k :| 0 <= k < |rows| && rows[k] == r[i];
      } else {
        var k :| 0 <= k < |rows| && rows[k] == r[i];
        var l :| 0 <= l < |rows| && rows[l] == r[j];
      }
    }
  }

  /** The ids of one more listed entity. */
  lemma IdsOfExtend(items: seq<ListEntity>, i: nat)
    requires i < |items|
    ensures IdsOf(items[..i + 1]) == IdsOf(items[..i]) + {items[i].id}
  {
    assert forall k :: 0 <= k < i ==> items[..i + 1][k] == items[..i][k];
    assert items[..i + 1][i] == items[i];
  }

  // ---------------------------------------------------------------------------------
  // The raw-query row converter.

  /** __entityCursorConverter_comMyappAlistDbListEntity: a new entity whose fields are
      set from the columns the cursor has; a column that is not selected leaves its
      field at the default (id 0, text null). */
  function FromCursor(row: CursorRow): (e: ListEntity)
    ensures row.id.None? ==> e.id == 0
    ensures row.name.Absent? ==> e.name.None?
    ensures row.description.Absent? ==> e.description.None?
    ensures row.category.Absent? ==> e.category.None?
    ensures row.status.Absent? ==> e.status.None?
  {
    var e0 := DEFAULT_ENTITY;
    var e1 := if row.id.Some? then e0.(id := row.id.value) else e0;
    var e2 := if row.name.Present? then e1.(name := row.name.text) else e1;
    var e3 := if row.description.Present? then e2.(description := row.description.text) else e2;
    var e4 := if row.category.Present? then e3.(category := row.category.text) else e3;
    if row.status.Present? then e4.(status := row.status.text) else e4
  }

  /** The cursor row of `SELECT _id, name, description, category, status` for one
      row of the table. */
  function FullRow(e: ListEntity): CursorRow {
    CursorRow(Some(e.id), Present(e.name), Present(e.description), Present(e.category), Present(e.status))
  }

  /** The entities a raw query's cursor converts to, one per cursor row, in order. */
  function ConvertCursor(cursor: seq<CursorRow>): (r: seq<ListEntity>)
    ensures |r| == |cursor|
    ensures forall i :: 0 <= i < |cursor| ==> r[i] == FromCursor(cursor[i])
  {
    if cursor == [] then [] else [FromCursor(cursor[0])] + ConvertCursor(cursor[1..])
  }

  function FullRows(rows: seq<ListEntity>): (c: seq<CursorRow>)
    ensures |c| == |rows|
    ensures forall i :: 0 <= i < |rows| ==> c[i] == FullRow(rows[i])
  {
    if rows == [] then [] else [FullRow(rows[0])] + FullRows(rows[1..])
  }

  /** A cursor that selects all five columns converts back to exactly the rows it
      was read from, which is what selectAllQuery returns. */
  lemma FullRowsRoundTrip(rows: seq<ListEntity>)
    ensures ConvertCursor(FullRows(rows)) == rows
  {
    var r := ConvertCursor(FullRows(rows));
    forall i | 0 <= i < |rows| ensures r[i] == rows[i] {
      FullRowRoundTrip(rows[i]);
    }
  }

  lemma FullRowRoundTrip(e: ListEntity)
    ensures FromCursor(FullRow(e)) == e
  {
  }

  /** The position of the row with `id`, or |rows| when there is none: the scan
      SQLite does for `WHERE _id = ?`. */
  method IndexOfId(rows: seq<ListEntity>, id: Long) returns (j: nat)
    ensures j <= |rows|
    ensures forall k :: 0 <= k < j ==> rows[k].id != id
    ensures j < |rows| ==> rows[j].id == id
  {
    j := 0;
    while j < |rows| && rows[j].id != id
      invariant 0 <= j <= |rows|
      invariant forall k :: 0 <= k < j ==> rows[k].id != id
    {
      j := j + 1;
    }
  }

  // ---------------------------------------------------------------------------------
  // The store.

  class ListDao {
    /** The rows of `list`, in rowid order. */
    var rows: seq<ListEntity>
    /** The table's entry in sqlite_sequence: the largest id ever stored. */
    var lastId: Long
    /** Every id the table has ever held. */
    ghost var usedIds: set<Long>
    /** How SQLite evaluates a raw SELECT over the rows. */
    const engine: QueryEngine

    ghost predicate Valid()
      reads this
    {
      && IdsAscending(rows)
      && NamesUnique(rows)
      && 0 <= lastId
      && (forall i :: 0 <= i < |rows| ==> rows[i].id in usedIds)
      && (forall x :: x in usedIds ==> x <= lastId)
    }

    /** A newly created, empty table. */
    constructor (engine: QueryEngine)
      ensures Valid()
      ensures rows == [] && lastId == 0 && usedIds == {} && this.engine == engine
    {
      rows := [];
      lastId := 0;
      usedIds := {};
      this.engine := engine;
    }

    /** `SELECT * FROM List`: every row, each copied into a new entity. */
    method SelectAllQuery() returns (result: seq<ListEntity>)
      requires Valid()
      ensures result == rows
    {
      result := [];
      var i := 0;
      while i < |rows|
        invariant 0 <= i <= |rows|
        invariant result == rows[..i]
      {
        var row := rows[i];
        var item := DEFAULT_ENTITY;
        item := item.(id := row.id);
        item := item.(name := row.name);
        item := item.(description := row.description);
        item := item.(category := row.category);
        item := item.(status := row.status);
        result := result + [item];
        i := i + 1;
      }
    }

    /** doRawQuery: runs the statement and converts each cursor row. It reads the
        table and never changes it. */
    method DoRawQuery(sql: string, args: Option<seq<string>>) returns (result: seq<ListEntity>)
      requires Valid()
      ensures result == ConvertCursor(engine(sql, args, rows))
    {
      var cursor := engine(sql, args, rows);
      result := [];
      var i := 0;
      while i < |cursor|
        invariant 0 <= i <= |cursor|
        invariant |result| == i
        invariant forall k :: 0 <= k < i ==> result[k] == FromCursor(cursor[k])
      {
        result := result + [FromCursor(cursor[i])];
        i := i + 1;
      }
    }

    /** `INSERT OR ABORT INTO list (_id, ...) VALUES (nullif(?, 0), ...)`: an id of 0
        is bound as NULL and the table assigns one past the largest id it ever held;
        any other id is stored as given. */
    method Insert(item: ListEntity) returns (r: Result<Long, StoreError>)
      requires Valid()
      modifies this
      ensures Valid()
      ensures r == Failure(DatabaseFull) <==> item.id == 0 && old(lastId) == MAX_LONG
      ensures r == Failure(PrimaryKeyConstraint) <==> item.id != 0 && HasId(old(rows), item.id)
      ensures r == Failure(UniqueNameConstraint) <==>
                && !(item.id == 0 && old(lastId) == MAX_LONG)
                && !(item.id != 0 && HasId(old(rows), item.id))
                && NameTaken(old(rows), item.name)
      ensures r.Success? <==>
                && !(item.id == 0 && old(lastId) == MAX_LONG)
                && !(item.id != 0 && HasId(old(rows), item.id))
                && !NameTaken(old(rows), item.name)
      ensures r.Failure? ==> rows == old(rows) && lastId == old(lastId) && usedIds == old(usedIds)
      ensures r.Success? ==>
                && r.value == (if item.id == 0 then old(lastId) + 1 else item.id)
                && rows == InsertById(old(rows), item.(id := r.value))
                && lastId == Max(old(lastId), r.value)
                && usedIds == old(usedIds) + {r.value}
      ensures r.Success? && item.id == 0 ==> forall x :: x in old(usedIds) ==> x < r.value
    {
      var newId: Long;
      if item.id == 0 {
        if lastId == MAX_LONG {
          return Failure(DatabaseFull);
        }
        newId := lastId + 1;
        assert !HasId(rows, newId);
      } else {
        newId := item.id;
        if HasId(rows, newId) {
          return Failure(PrimaryKeyConstraint);
        }
      }
      if NameTaken(rows, item.name) {
        return Failure(UniqueNameConstraint);
      }
      var stored := item.(id := newId);
      assert !NameTakenExcept(rows, stored.name, stored.id);
      InsertKeepsNames(rows, stored);
      ghost var before := rows;
      rows := InsertById(rows, stored);
      forall i | 0 <= i < |rows| ensures rows[i].id in usedIds + {newId} {
        assert rows[i] in before || rows[i] == stored;
        if rows[i] != stored {
          var k :| 0 <= k < |before| && before[k] == rows[i];
        }
      }
      lastId := Max(lastId, newId);
      usedIds := usedIds + {newId};
      r := Success(newId);
    }

    /** `UPDATE OR ABORT list SET _id = ?, name = ?, ... WHERE _id = ?`: the number of
        rows written, 0 when no row has item's id. */
    method Update(item: ListEntity) returns (r: Result<int, StoreError>)
      requires Valid()
      modifies this
      ensures Valid()
      ensures lastId == old(lastId) && usedIds == old(usedIds)
      ensures r in {Success(0), Success(1), Failure(UniqueNameConstraint)}
      ensures r == Success(0) <==> !HasId(old(rows), item.id)
      ensures r == Failure(UniqueNameConstraint) <==>
                HasId(old(rows), item.id) && NameTakenExcept(old(rows), item.name, item.id)
      ensures r == Success(1) <==>
                HasId(old(rows), item.id) && !NameTakenExcept(old(rows), item.name, item.id)
      ensures r == Success(1) ==> rows == ReplaceById(old(rows), item)
      ensures r != Success(1) ==> rows == old(rows)
    {
      if !HasId(rows, item.id) {
        return Success(0);
      }
      if NameTakenExcept(rows, item.name, item.id) {
        return Failure(UniqueNameConstraint);
      }
      ReplaceKeepsInvariant(rows, item);
      var k :| 0 <= k < |rows| && rows[k].id == item.id;
      assert ReplaceById(rows, item)[k] == item;
      rows := ReplaceById(rows, item);
      r := Success(1);
    }

    /** One `DELETE FROM list WHERE _id = ?`: the number of rows it removed. */
    method DeleteOne(id: Long) returns (count: int)
      requires Valid()
      modifies this
      ensures Valid()
      ensures lastId == old(lastId) && usedIds == old(usedIds)
      ensures rows == Without(old(rows), {id})
      ensures count == |old(rows)| - |rows|
      ensures count == if HasId(old(rows), id) then 1 else 0
    {
      var j := IndexOfId(rows, id);
      if j == |rows| {
        WithoutNothing(rows, id);
        count := 0;
      } else {
        RemoveAtIsWithout(rows, j);
        RemoveAtKeepsInvariant(rows, j);
        rows := rows[..j] + rows[j + 1..];
        count := 1;
      }
    }

    /** delete(listEntities): one DELETE per listed entity, in one transaction,
        adding up the rows each removed. */
    method Delete(items: seq<ListEntity>) returns (total: int)
      requires Valid()
      modifies this
      ensures Valid()
      ensures lastId == old(lastId) && usedIds == old(usedIds)
      ensures rows == Without(old(rows), IdsOf(items))
      ensures total == |old(rows)| - |rows|
      ensures total == 0 ==> rows == old(rows)
    {
      total := 0;
      var i := 0;
      WithoutEmpty(rows);
      assert IdsOf(items[..0]) == {};
      while i < |items|
        invariant 0 <= i <= |items|
        invariant Valid()
        invariant lastId == old(lastId) && usedIds == old(usedIds)
        invariant rows == Without(old(rows), IdsOf(items[..i]))
        invariant total == |old(rows)| - |rows|
      {
        var count := DeleteOne(items[i].id);
        WithoutUnion(old(rows), IdsOf(items[..i]), {items[i].id});
        IdsOfExtend(items, i);
        total := total + count;
        i := i + 1;
      }
      assert items[..i] == items;
      if total == 0 {
        WithoutKeepingCount(old(rows), IdsOf(items));
      }
    }
  }

  /** A new table hands out the ids 1 then 2 to two entities stored without an id,
      unless the second repeats the first one's non-NULL name. */
  method InsertIntoNewTable(engine: QueryEngine, first: ListEntity, second: ListEntity)
    returns (r1: Result<Long, StoreError>, r2: Result<Long, StoreError>)
    requires first.id == 0 && second.id == 0
    ensures r1 == Success(1)
    ensures r2 == if second.name.Some? && second.name == first.name then Failure(UniqueNameConstraint)
                  else Success(2)
  {
    var dao := new ListDao(engine);
    r1 := dao.Insert(first);
    var stored := first.(id := 1);
    assert InsertById([], stored) == [stored];
    assert dao.rows == [stored] && dao.lastId == 1;
    assert NameTaken(dao.rows, second.name) <==> second.name.Some? && second.name == first.name by {
      assert dao.rows[0].name == first.name;
    }
    r2 := dao.Insert(second);
  }
}
