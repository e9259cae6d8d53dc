/** The `expense` table as the views change it: insert, lookup by id (404 when absent),
    update of the six form fields, delete, and a full scan. SQLite keeps the rows of a
    table in ascending rowid order; the table seen by primary key is the map TableOf. */
module Store {
  import opened Dates
  import opened Records

  /** Positive rowids in strictly ascending order. */
  predicate Ascending(rows: seq<Transaction>) {
    && (forall i :: 0 <= i < |rows| ==> rows[i].id >= 1)
    && (forall i, j :: 0 <= i < j < |rows| ==> rows[i].id < rows[j].id)
  }

  /** The table by primary key. */
  function TableOf(rows: seq<Transaction>): map<int, Transaction> {
    if rows == [] then map[]
    else TableOf(rows[..|rows| - 1])[rows[|rows| - 1].id := rows[|rows| - 1]]
  }

  /** The rowid SQLite gives the next insert: one more than the largest rowid in use (the
      last one), 1 for an empty table. */
  function NextIdOf(rows: seq<Transaction>): int {
    if rows == [] then 1 else rows[|rows| - 1].id + 1
  }

  lemma {:induction false} TableOfKeys(rows: seq<Transaction>, id: int)
    ensures id in TableOf(rows) <==> exists i :: 0 <= i < |rows| && rows[i].id == id
  {
    if rows != [] {
      var front := rows[..|rows| - 1];
      TableOfKeys(front, id);
      if id in TableOf(front) {
        var i :| 0 <= i < |front| && front[i].id == id;
        assert rows[i].id == id;
      }
      if exists i :: 0 <= i < |rows| && rows[i].id == id {
        var i :| 0 <= i < |rows| && rows[i].id == id;
        if i < |front| {
          assert front[i].id == id;
        }
      }
    }
  }

  /** With distinct ids, each row is what the table holds under its id. */
  lemma {:induction false} TableOfLookup(rows: seq<Transaction>, i: int)
    requires Ascending(rows) && 0 <= i < |rows|
    ensures rows[i].id in TableOf(rows) && TableOf(rows)[rows[i].id] == rows[i]
  {
    var front := rows[..|rows| - 1];
    if i < |front| {
      assert Ascending(front);
      assert front[i] == rows[i];
      TableOfLookup(front, i);
    }
  }

  /** The next id is a positive id above every id in use and, on a nonempty table, just
      above the largest one. */
  lemma NextIdFresh(rows: seq<Transaction>)
    requires Ascending(rows)
    ensures NextIdOf(rows) >= 1 && NextIdOf(rows) !in TableOf(rows)
    ensures forall id :: id in TableOf(rows) ==> id < NextIdOf(rows)
    ensures rows != [] ==> NextIdOf(rows) - 1 in TableOf(rows)
  {
    forall id | id in TableOf(rows)
      ensures id < NextIdOf(rows)
    {
      TableOfKeys(rows, id);
    }
    TableOfKeys(rows, NextIdOf(rows));
    if rows != [] {
      TableOfLookup(rows, |rows| - 1);
    }
  }

  /** Appending a row under the next id keeps the ids ascending and adds one entry to the table. */
  lemma AppendNext(rows: seq<Transaction>, t: Transaction)
    requires Ascending(rows) && t.id == NextIdOf(rows)
    ensures Ascending(rows + [t])
    ensures TableOf(rows + [t]) == TableOf(rows)[t.id := t]
  {
    var grown := rows + [t];
    TableOfSnoc(rows, t);
    forall i, j | 0 <= i < j < |grown|
      ensures grown[i].id < grown[j].id
    {
      if j == |rows| && i < |rows| - 1 {
        assert rows[i].id < rows[|rows| - 1].id;
      }
    }
  }

  /** Replacing a row by one with the same id replaces the table's entry for that id. */
  lemma {:induction false} TableOfUpdate(rows: seq<Transaction>, i: int, t: Transaction)
    requires Ascending(rows) && 0 <= i < |rows| && t.id == rows[i].id
    ensures TableOf(rows[i := t]) == TableOf(rows)[t.id := t]
  {
    var front := rows[..|rows| - 1];
    var last := rows[|rows| - 1];
    var updated := rows[i := t];
    if i == |rows| - 1 {
      assert updated[..|updated| - 1] == front;
    } else {
      assert updated[..|updated| - 1] == front[i := t];
      assert Ascending(front);
      TableOfUpdate(front, i, t);
      assert last.id != t.id;
    }
  }

  /** Removing a row removes its id from the table and nothing else. */
  lemma {:induction false} TableOfRemove(rows: seq<Transaction>, i: int)
    requires Ascending(rows) && 0 <= i < |rows|
    ensures TableOf(rows[..i] + rows[i + 1..]) == TableOf(rows) - {rows[i].id}
  {
    var front := rows[..|rows| - 1];
    var last := rows[|rows| - 1];
    var removed := rows[..i] + rows[i + 1..];
    assert Ascending(front);
    if i == |rows| - 1 {
      assert removed == front;
      TableOfKeys(front, last.id);
      UpdateThenRemove(TableOf(front), last.id, last);
    } else {
      TableOfRemove(front, i);
      RemoveBeforeLast(rows, i);
      TableOfSnoc(front[..i] + front[i + 1..], last);
      assert last.id != rows[i].id;
      RemoveThenUpdate(TableOf(front), rows[i].id, last.id, last);
    }
  }

  lemma TableOfSnoc(rows: seq<Transaction>, t: Transaction)
    ensures TableOf(rows + [t]) == TableOf(rows)[t.id := t]
  {
    assert (rows + [t])[..|rows|] == rows;
  }

  /** Removing an element before the last one keeps the last one last. */
  /** Removing the row at i takes exactly that row out, and with distinct ids no row left
      has its id. */
  lemma RemoveOne(rows: seq<Transaction>, i: int)
    requires Ascending(rows) && 0 <= i < |rows|
    ensures multiset(rows) == multiset(rows[..i] + rows[i + 1..]) + multiset{rows[i]}
    ensures forall t :: t in rows[..i] + rows[i + 1..] ==> t.id != rows[i].id
  {
    var before, after := rows[..i], rows[i + 1..];
    assert rows == before + [rows[i]] + after;
    forall t: Transaction | t in before + after
      ensures t.id != rows[i].id
    {
      if t in before {
        var k :| 0 <= k < i && before[k] == t;
        assert rows[k] == t;
      } else {
        var k :| 0 <= k < |after| && after[k] == t;
        assert rows[i + 1 + k] == t;
      }
    }
  }

  lemma RemoveBeforeLast<T>(s: seq<T>, i: int)
    requires 0 <= i < |s| - 1
    ensures s[..i] + s[i + 1..] == (s[..|s| - 1][..i] + s[..|s| - 1][i + 1..]) + [s[|s| - 1]]
  {
    var front := s[..|s| - 1];
    assert s[i + 1..] == front[i + 1..] + [s[|s| - 1]];
  }

  lemma UpdateThenRemove<K, V>(m: map<K, V>, k: K, v: V)
    requires k !in m
    ensures m[k := v] - {k} == m
  {
  }

  lemma RemoveThenUpdate<K, V>(m: map<K, V>, j: K, k: K, v: V)
    requires j != k
    ensures (m - {j})[k := v] == m[k := v] - {j}
  {
  }

  class TransactionStore {
    /** The table's rows in rowid order. */
    var rows: seq<Transaction>

    ghost predicate Valid()
      reads this
    {
      Ascending(rows)
    }

    /** The table by primary key. */
    function Table(): map<int, Transaction>
      reads this
    {
      TableOf(rows)
    }

    constructor()
      ensures Valid() && rows == [] && Table() == map[]
    {
      rows := [];
    }

    /** The position of the row with the given id, or -1 when there is none. */
    method Find(id: int) returns (i: int)
      ensures -1 <= i < |rows|
      ensures i >= 0 ==> rows[i].id == id
      ensures i < 0 ==> forall k :: 0 <= k < |rows| ==> rows[k].id != id
    {
      i := 0;
      while i < |rows|
        invariant 0 <= i <= |rows|
        invariant forall k :: 0 <= k < i ==> rows[k].id != id
      {
        if rows[i].id == id {
          return;
        }
        i := i + 1;
      }
      i := -1;
    }

    /** query.get_or_404(id): the record with that id, or NotFound. */
    method Get(id: int) returns (r: Outcome<Transaction>)
      requires Valid()
      ensures id in Table() ==> r == Found(Table()[id])
      ensures id !in Table() ==> r == NotFound
    {
      var i := Find(id);
      TableOfKeys(rows, id);
      if i < 0 {
        r := NotFound;
      } else {
        TableOfLookup(rows, i);
        r := Found(rows[i]);
      }
    }

    /** db.session.add of a new record and commit: the form's fields under the next rowid,
        with the insertion time as created_at. */
    method Add(form: Form, now: int) returns (id: int)
      requires Valid()
      modifies this
      ensures Valid()
      ensures id == NextIdOf(old(rows)) && id !in old(Table())
      ensures Table() == old(Table())[id := NewRecord(id, form, now)]
      ensures rows == old(rows) + [NewRecord(id, form, now)]
    {
      NextIdFresh(rows);
      id := NextIdOf(rows);
      var record := NewRecord(id, form, now);
      AppendNext(rows, record);
      rows := rows + [record];
    }

    /** The edit view: after get_or_404, assign the six form fields and commit. The id,
        created_at and every other record stay as they were. */
    method Edit(id: int, form: Form) returns (r: Outcome<Transaction>)
      requires Valid()
      modifies this
      ensures Valid()
      ensures id !in old(Table()) ==> r == NotFound && rows == old(rows)
      ensures id in old(Table()) ==>
        && r == Found(Overwrite(old(Table())[id], form))
        && Table() == old(Table())[id := Overwrite(old(Table())[id], form)]
    {
      var i := Find(id);
      TableOfKeys(rows, id);
      if i < 0 {
        return NotFound;
      }
      TableOfLookup(rows, i);
      var updated := Overwrite(rows[i], form);
      TableOfUpdate(rows, i, updated);
      rows := rows[i := updated];
      r := Found(updated);
    }

    /** The delete view: after get_or_404, delete the record and commit. */
    method Delete(id: int) returns (r: Outcome<Transaction>)
      requires Valid()
      modifies this
      ensures Valid()
      ensures id !in old(Table()) ==> r == NotFound && rows == old(rows)
      ensures id in old(Table()) ==> r == Found(old(Table())[id]) && Table() == old(Table()) - {id}
      ensures id in old(Table()) ==> multiset(old(rows)) == multiset(rows) + multiset{old(Table())[id]}
      ensures forall t :: t in rows ==> t.id != id
    {
      var i := Find(id);
      TableOfKeys(rows, id);
      if i < 0 {
        return NotFound;
      }
      TableOfLookup(rows, i);
      TableOfRemove(rows, i);
      r := Found(rows[i]);
      RemoveOne(rows, i);
      rows := rows[..i] + rows[i + 1..];
    }
  }
}
