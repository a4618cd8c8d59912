/** What the EF Core tables behind the repositories do with rows keyed by their GUID: look a
    row up, insert one (a second row with the same key is refused), replace one, remove one.
    A table is a sequence of rows in its stable order; `key` gives a row's primary key. */
module Store {
  import opened Common

  /** A table as a handler sees it: its rows, and the fault its repository raises on every call
      while the store is failing. */
  datatype Table<T> = Table(rows: seq<T>, fault: Option<Exception>)

  /** No two rows share a primary key. */
  predicate UniqueKeys<T>(rows: seq<T>, key: T -> Guid) {
    forall i, j :: 0 <= i < j < |rows| ==> key(rows[i]) != key(rows[j])
  }

  /** The position of the first row with key `id`. */
  function IndexOf<T>(rows: seq<T>, key: T -> Guid, id: Guid): (r: Option<nat>)
    ensures r.Some? ==> r.value < |rows| && key(rows[r.value]) == id
    ensures r.Some? ==> forall j :: 0 <= j < r.value ==> key(rows[j]) != id
    ensures r.None? <==> forall j :: 0 <= j < |rows| ==> key(rows[j]) != id
  {
    if |rows| == 0 then None
    else if key(rows[0]) == id then Some(0)
    else match IndexOf(rows[1..], key, id)
      case None => None
      case Some(k) => Some(k + 1)
  }

  /** `FirstOrDefault(row => row.Id == id)` / `FindAsync(id)`. */
  function Find<T>(rows: seq<T>, key: T -> Guid, id: Guid): (r: Option<T>)
    ensures r.Some? <==> exists j :: 0 <= j < |rows| && key(rows[j]) == id
    ensures r.Some? ==> r.value in rows && key(r.value) == id
  {
    match IndexOf(rows, key, id)
    case None => None
    case Some(i) => Some(rows[i])
  }

  /** `AddAsync` + `SaveChangesAsync`: the row is appended and its key returned, unless its key is
      already stored, in which case the save fails and nothing is written. */
  function Inserted<T>(rows: seq<T>, key: T -> Guid, row: T): (r: (Outcome<Guid>, seq<T>))
    ensures r.0.Returned? <==> forall j :: 0 <= j < |rows| ==> key(rows[j]) != key(row)
    ensures r.0.Returned? ==> r.0.value == key(row) && r.1 == rows + [row]
    ensures r.0.Threw? ==> r.0.exception == DbUpdateException && r.1 == rows
    ensures UniqueKeys(rows, key) ==> UniqueKeys(r.1, key)
  {
    if IndexOf(rows, key, key(row)).Some? then (Threw(DbUpdateException), rows)
    else (Returned(key(row)), rows + [row])
  }

  /** `Update(entity)` + `SaveChangesAsync`: the stored row with the entity's key takes the entity's
      fields and the call answers true; a row that is no longer stored fails the save. */
  function Replaced<T>(rows: seq<T>, key: T -> Guid, row: T): (r: (Outcome<bool>, seq<T>))
    ensures r.0.Threw? <==> forall j :: 0 <= j < |rows| ==> key(rows[j]) != key(row)
    ensures r.0.Threw? ==> r.0.exception == DbUpdateConcurrencyException && r.1 == rows
    ensures r.0.Returned? ==> r.0.value && |r.1| == |rows| && row in r.1
    ensures forall j :: 0 <= j < |rows| && key(rows[j]) != key(row) ==> j < |r.1| && r.1[j] == rows[j]
    ensures UniqueKeys(rows, key) ==> UniqueKeys(r.1, key)
  {
    match IndexOf(rows, key, key(row))
    case None => (Threw(DbUpdateConcurrencyException), rows)
    case Some(i) =>
      var after := rows[i := row];
      assert after[i] == row;
      (Returned(true), after)
  }

  /** `FindAsync(id)`, then `Remove` + `SaveChangesAsync`: false with nothing changed when no row has
      the key, otherwise true with that row gone and every other row kept in order. */
  function Removed<T>(rows: seq<T>, key: T -> Guid, id: Guid): (r: (bool, seq<T>))
    ensures r.0 <==> exists j :: 0 <= j < |rows| && key(rows[j]) == id
    ensures !r.0 ==> r.1 == rows
    ensures r.0 ==> |r.1| == |rows| - 1
    ensures r.0 ==> exists i :: 0 <= i < |rows| && key(rows[i]) == id && r.1 == rows[..i] + rows[i + 1..]
    ensures forall j :: 0 <= j < |r.1| ==> r.1[j] in rows
    ensures forall j :: 0 <= j < |rows| && key(rows[j]) != id ==> rows[j] in r.1
    ensures UniqueKeys(rows, key) ==> UniqueKeys(r.1, key) && forall j :: 0 <= j < |r.1| ==> key(r.1[j]) != id
  {
    match IndexOf(rows, key, id)
    case None => (false, rows)
    case Some(i) =>
      var rest := rows[..i] + rows[i + 1..];
      assert forall j :: 0 <= j < |rest| ==> rest[j] == rows[if j < i then j else j + 1];
      (true, rest)
  }

  /** A repository's `AddAsync` over a table that may be unreachable: a fault is thrown before
      anything is written. `fits` says whether a row's values fit the table's columns; a row that
      does not, like one with a stored key, makes the save fail with nothing written. */
  function Add<T>(fault: Option<Exception>, rows: seq<T>, key: T -> Guid, fits: T -> bool, row: T): (r: (Outcome<Guid>, seq<T>))
    ensures r.0.Returned? <==> fault.None? && fits(row) && forall j :: 0 <= j < |rows| ==> key(rows[j]) != key(row)
    ensures fault.Some? ==> r.0 == Threw(fault.value)
    ensures fault.None? && !r.0.Returned? ==> r.0 == Threw(DbUpdateException)
    ensures r.0.Returned? ==> r.0.value == key(row) && r.1 == rows + [row]
    ensures r.0.Threw? ==> r.1 == rows
    ensures UniqueKeys(rows, key) ==> UniqueKeys(r.1, key)
  {
    if fault.Some? then (Threw(fault.value), rows)
    else if !fits(row) then (Threw(DbUpdateException), rows)
    else Inserted(rows, key, row)
  }

  /** A repository's `UpdateAsync`: a fault, a row that is no longer stored, or values that do not
      fit the table's columns throw with nothing written; otherwise the row with the entity's key is
      replaced and the call answers true. */
  function Update<T>(fault: Option<Exception>, rows: seq<T>, key: T -> Guid, fits: T -> bool, row: T): (r: (Outcome<bool>, seq<T>))
    ensures r.0.Returned? <==> fault.None? && fits(row) && exists j :: 0 <= j < |rows| && key(rows[j]) == key(row)
    ensures fault.Some? ==> r.0 == Threw(fault.value)
    ensures fault.None? && (forall j :: 0 <= j < |rows| ==> key(rows[j]) != key(row)) ==> r.0 == Threw(DbUpdateConcurrencyException)
    ensures fault.None? && (exists j :: 0 <= j < |rows| && key(rows[j]) == key(row)) && !fits(row) ==> r.0 == Threw(DbUpdateException)
    ensures r.0.Returned? ==> r.0.value && |r.1| == |rows| && row in r.1
    ensures r.0.Threw? ==> r.1 == rows
    ensures forall j :: 0 <= j < |rows| && key(rows[j]) != key(row) ==> j < |r.1| && r.1[j] == rows[j]
    ensures UniqueKeys(rows, key) ==> UniqueKeys(r.1, key)
  {
    if fault.Some? then (Threw(fault.value), rows)
    else if IndexOf(rows, key, key(row)).Some? && !fits(row) then (Threw(DbUpdateException), rows)
    else Replaced(rows, key, row)
  }

  /** A repository's `DeleteAsync(id)`: a fault throws with nothing removed; otherwise the answer
      says whether a row had the key, and that row is gone. */
  function Delete<T>(fault: Option<Exception>, rows: seq<T>, key: T -> Guid, id: Guid): (r: (Outcome<bool>, seq<T>))
    ensures r.0.Returned? <==> fault.None?
    ensures fault.Some? ==> r.0 == Threw(fault.value) && r.1 == rows
    ensures r.0.Returned? ==> (r.0.value <==> exists j :: 0 <= j < |rows| && key(rows[j]) == id)
    ensures r.0.Returned? && !r.0.value ==> r.1 == rows
    ensures forall j :: 0 <= j < |rows| && key(rows[j]) != id ==> rows[j] in r.1
    ensures forall j :: 0 <= j < |r.1| ==> r.1[j] in rows
    ensures UniqueKeys(rows, key) ==> UniqueKeys(r.1, key) && (r.0 == Returned(true) ==> forall j :: 0 <= j < |r.1| ==> key(r.1[j]) != id)
  {
    if fault.Some? then (Threw(fault.value), rows)
    else var (found, after) := Removed(rows, key, id); (Returned(found), after)
  }

  // ---------------------------------------------------------------------------

  /** A row that was inserted is found by its key, and an insertion leaves every other lookup alone. */
  lemma {:induction false} FindAfterInsert<T>(rows: seq<T>, key: T -> Guid, row: T, id: Guid)
    requires Inserted(rows, key, row).0.Returned?
    ensures Find(Inserted(rows, key, row).1, key, key(row)) == Some(row)
    ensures id != key(row) ==> Find(Inserted(rows, key, row).1, key, id) == Find(rows, key, id)
  {
    FindAppend(rows, key, row, key(row));
    FindAppend(rows, key, row, id);
  }

  /** After a removal the key is no longer found, and every other key is found as before. */
  lemma {:induction false} FindAfterRemove<T>(rows: seq<T>, key: T -> Guid, id: Guid, other: Guid)
    requires UniqueKeys(rows, key)
    ensures Find(Removed(rows, key, id).1, key, id) == None
    ensures other != id ==> Find(Removed(rows, key, id).1, key, other) == Find(rows, key, other)
  {
    if other != id {
      FindOtherAfterRemove(rows, key, id, other);
    }
  }

  lemma {:induction false} FindOtherAfterRemove<T>(rows: seq<T>, key: T -> Guid, id: Guid, other: Guid)
    requires UniqueKeys(rows, key) && other != id
    ensures Find(Removed(rows, key, id).1, key, other) == Find(rows, key, other)
  {
    var after := Removed(rows, key, id).1;
    match IndexOf(rows, key, other)
    case None =>
      forall j | 0 <= j < |after| ensures key(after[j]) != other {
        var m :| 0 <= m < |rows| && rows[m] == after[j];
      }
    case Some(k) =>
      assert rows[k] in after;
      var k' :| 0 <= k' < |after| && after[k'] == rows[k];
      FindUnique(after, key, k');
  }

  /** With unique keys, the row at a position is the one its key finds. */
  lemma FindUnique<T>(rows: seq<T>, key: T -> Guid, k: nat)
    requires UniqueKeys(rows, key) && k < |rows|
    ensures Find(rows, key, key(rows[k])) == Some(rows[k])
  {
  }

  lemma {:induction false} FindAppend<T>(rows: seq<T>, key: T -> Guid, row: T, id: Guid)
    requires forall j :: 0 <= j < |rows| ==> key(rows[j]) != key(row)
    ensures Find(rows + [row], key, id) == if id == key(row) then Some(row) else Find(rows, key, id)
  {
    var after := rows + [row];
    match IndexOf(rows, key, id)
    case Some(k) =>
      assert after[k] == rows[k];
      assert forall j :: 0 <= j < k ==> after[j] == rows[j];
    case None =>
      assert forall j :: 0 <= j < |rows| ==> after[j] == rows[j];
      if id == key(row) {
        assert after[|rows|] == row;
      }
  }
}
