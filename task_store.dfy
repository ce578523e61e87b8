/**
 * The `tasks` table and the statements the DAO runs against it. The table is
 * a sequence of rows in storage order; each statement is a function from the
 * old table to the new one, and class TaskDAO applies them in place.
 */
module TaskStore {

  const ToDo: string := "to-do"
  const Done: string := "done"

  /** One row of the table; `update_date`, managed by the database, is not modelled. */
  datatype Task = Task(id: int, title: string, description: string, status: string)

  /** The primary-key constraint on `id`. */
  predicate UniqueIds(rows: seq<Task>)
  {
    forall i, j :: 0 <= i < j < |rows| ==> rows[i].id != rows[j].id
  }

  predicate HasId(rows: seq<Task>, id: int)
  {
    exists i :: 0 <= i < |rows| && rows[i].id == id
  }

  /** `SELECT COUNT(*) FROM tasks WHERE id = :i`. */
  function CountById(rows: seq<Task>, id: int): (n: nat)
    ensures n == 0 <==> !HasId(rows, id)
    ensures UniqueIds(rows) ==> n <= 1
  {
    if rows == [] then 0
    else
      var rest := CountById(rows[1..], id);
      assert forall i :: 0 <= i < |rows| - 1 ==> rows[1..][i] == rows[i + 1];
      assert HasId(rows, id) <==> rows[0].id == id || HasId(rows[1..], id);
      (if rows[0].id == id then 1 else 0) + rest
  }

  // ---------------------------------------------------------------------------
  // INSERT INTO tasks (title, description, status) VALUES (:t, :d, 'to-do')

  /** The table after the insert, the new row carrying the id the database assigns. */
  function Inserted(rows: seq<Task>, freshId: int, title: string, description: string): (r: seq<Task>)
    ensures |r| == |rows| + 1 && r[..|rows|] == rows
    ensures r[|rows|] == Task(freshId, title, description, ToDo)
  {
    rows + [Task(freshId, title, description, ToDo)]
  }

  /** An insert with an unused id adds exactly one row with that id and no row with any other. */
  lemma {:induction false} InsertedCounts(rows: seq<Task>, freshId: int, title: string, description: string, other: int)
    requires !HasId(rows, freshId)
    ensures CountById(Inserted(rows, freshId, title, description), freshId) == 1
    ensures other != freshId ==> CountById(Inserted(rows, freshId, title, description), other) == CountById(rows, other)
  {
    CountAppend(rows, Task(freshId, title, description, ToDo), freshId);
    CountAppend(rows, Task(freshId, title, description, ToDo), other);
  }

  lemma {:induction false} CountAppend(rows: seq<Task>, t: Task, id: int)
    ensures CountById(rows + [t], id) == CountById(rows, id) + (if t.id == id then 1 else 0)
  {
    if rows != [] {
      assert (rows + [t])[1..] == rows[1..] + [t];
      CountAppend(rows[1..], t, id);
    } else {
      assert [t][1..] == [];
    }
  }

  // ---------------------------------------------------------------------------
  // UPDATE tasks SET title = :t, description = :d, status = :s WHERE id = :i

  function Updated(rows: seq<Task>, id: int, title: string, description: string, status: string): (r: seq<Task>)
    ensures |r| == |rows|
    ensures forall i :: 0 <= i < |rows| ==>
      r[i] == if rows[i].id == id then Task(id, title, description, status) else rows[i]
  {
    if rows == [] then []
    else
      var head := if rows[0].id == id then Task(id, title, description, status) else rows[0];
      [head] + Updated(rows[1..], id, title, description, status)
  }

  /** Repeating the same update changes nothing more. */
  lemma UpdateIdempotent(rows: seq<Task>, id: int, title: string, description: string, status: string)
    ensures Updated(Updated(rows, id, title, description, status), id, title, description, status)
         == Updated(rows, id, title, description, status)
  {
  }

  /** An update whose id matches no row leaves the table as it was. */
  lemma UpdateAbsentIsNoOp(rows: seq<Task>, id: int, title: string, description: string, status: string)
    requires !HasId(rows, id)
    ensures Updated(rows, id, title, description, status) == rows
  {
  }

  /** An update keeps every id where it was, so the primary-key constraint still holds. */
  lemma UpdateKeepsIds(rows: seq<Task>, id: int, title: string, description: string, status: string)
    ensures forall i :: 0 <= i < |rows| ==> Updated(rows, id, title, description, status)[i].id == rows[i].id
    ensures UniqueIds(rows) ==> UniqueIds(Updated(rows, id, title, description, status))
  {
  }

  // ---------------------------------------------------------------------------
  // DELETE FROM tasks WHERE id = :i

  function Deleted(rows: seq<Task>, id: int): (r: seq<Task>)
    ensures forall t :: t in r <==> t in rows && t.id != id
    ensures !HasId(r, id)
    ensures |r| + CountById(rows, id) == |rows|
    ensures multiset(r) <= multiset(rows)
  {
    if rows == [] then []
    else
      var rest := Deleted(rows[1..], id);
      var r := if rows[0].id == id then rest else [rows[0]] + rest;
      assert rows == [rows[0]] + rows[1..];
      assert HasId(r, id) ==> exists t :: t in r && t.id == id;
      r
  }

  /** A delete leaves every other id's rows as they were, and is a no-op for an absent id. */
  lemma {:induction false} DeleteKeepsOthers(rows: seq<Task>, id: int, other: int)
    requires other != id
    ensures CountById(Deleted(rows, id), other) == CountById(rows, other)
    ensures !HasId(rows, id) ==> Deleted(rows, id) == rows
  {
    if rows != [] {
      DeleteKeepsOthers(rows[1..], id, other);
    }
  }

  lemma UniqueTail(rows: seq<Task>)
    requires rows != [] && UniqueIds(rows)
    ensures UniqueIds(rows[1..])
    ensures forall t :: t in rows[1..] ==> t.id != rows[0].id
  {
    forall t | t in rows[1..] ensures t.id != rows[0].id {
      var k :| 0 <= k < |rows| - 1 && rows[1..][k] == t;
      assert rows[k + 1] == t;
    }
  }

  lemma UniqueCons(t: Task, rest: seq<Task>)
    requires UniqueIds(rest)
    requires forall u :: u in rest ==> u.id != t.id
    ensures UniqueIds([t] + rest)
  {
    var r := [t] + rest;
    forall i, j | 0 <= i < j < |r| ensures r[i].id != r[j].id {
      assert r[j] == rest[j - 1];
      if i > 0 { assert r[i] == rest[i - 1]; }
    }
  }

  /** Deleting rows keeps the primary-key constraint. */
  lemma {:induction false} DeletedKeepsUnique(rows: seq<Task>, id: int)
    requires UniqueIds(rows)
    ensures UniqueIds(Deleted(rows, id))
  {
    if rows != [] {
      UniqueTail(rows);
      DeletedKeepsUnique(rows[1..], id);
      if rows[0].id != id {
        UniqueCons(rows[0], Deleted(rows[1..], id));
      }
    }
  }

  // ---------------------------------------------------------------------------
  // SELECT * FROM tasks ORDER BY status ASC

  /** String order by code point, used for `ORDER BY status`. */
  predicate StatusLe(a: string, b: string)
  {
    a == [] || (b != [] && (a[0] < b[0] || (a[0] == b[0] && StatusLe(a[1..], b[1..]))))
  }

  lemma {:induction false} StatusLeTotal(a: string, b: string)
    ensures StatusLe(a, b) || StatusLe(b, a)
  {
    if a != [] && b != [] && a[0] == b[0] {
      StatusLeTotal(a[1..], b[1..]);
    }
  }

  lemma {:induction false} StatusLeTransitive(a: string, b: string, c: string)
    requires StatusLe(a, b) && StatusLe(b, c)
    ensures StatusLe(a, c)
  {
    if a != [] && a[0] == b[0] && b[0] == c[0] {
      StatusLeTransitive(a[1..], b[1..], c[1..]);
    }
  }

  lemma StatusLeReflexive(a: string)
    ensures StatusLe(a, a)
  {
  }

  /** 'done' sorts strictly before 'to-do'. */
  lemma DoneBeforeToDo()
    ensures StatusLe(Done, ToDo) && !StatusLe(ToDo, Done)
  {
  }

  predicate SortedByStatus(rows: seq<Task>)
  {
    forall i, j :: 0 <= i < j < |rows| ==> StatusLe(rows[i].status, rows[j].status)
  }

  /** Puts `t` after every row whose status is not greater than its own. */
  function InsertByStatus(t: Task, sorted: seq<Task>): (r: seq<Task>)
    ensures multiset(r) == multiset(sorted) + multiset{t}
  {
    if sorted == [] then [t]
    else if StatusLe(sorted[0].status, t.status) then
      assert sorted == [sorted[0]] + sorted[1..];
      [sorted[0]] + InsertByStatus(t, sorted[1..])
    else
      [t] + sorted
  }

  lemma SortedCons(x: Task, rest: seq<Task>)
    requires SortedByStatus(rest)
    requires forall u :: u in rest ==> StatusLe(x.status, u.status)
    ensures SortedByStatus([x] + rest)
  {
    var r := [x] + rest;
    forall i, j | 0 <= i < j < |r| ensures StatusLe(r[i].status, r[j].status) {
      assert r[j] == rest[j - 1];
      if i > 0 { assert r[i] == rest[i - 1]; }
    }
  }

  lemma {:induction false} InsertKeepsSorted(t: Task, sorted: seq<Task>)
    requires SortedByStatus(sorted)
    ensures SortedByStatus(InsertByStatus(t, sorted))
  {
    if sorted == [] {
    } else if StatusLe(sorted[0].status, t.status) {
      var tail := sorted[1..];
      assert SortedByStatus(tail) by {
        forall i, j | 0 <= i < j < |tail| ensures StatusLe(tail[i].status, tail[j].status) {
          assert tail[i] == sorted[i + 1] && tail[j] == sorted[j + 1];
        }
      }
      InsertKeepsSorted(t, tail);
      var rest := InsertByStatus(t, tail);
      forall u | u in rest ensures StatusLe(sorted[0].status, u.status) {
        assert u in multiset(rest);
        if u != t {
          var k :| 0 <= k < |tail| && tail[k] == u;
          assert sorted[k + 1] == u;
        }
      }
      SortedCons(sorted[0], rest);
    } else {
      StatusLeTotal(sorted[0].status, t.status);
      forall u | u in sorted ensures StatusLe(t.status, u.status) {
        var k :| 0 <= k < |sorted| && sorted[k] == u;
        if k > 0 { StatusLeTransitive(t.status, sorted[0].status, u.status); }
      }
      SortedCons(t, sorted);
    }
  }

  /** The order `ORDER BY status ASC` returns. SQL leaves the order of rows with equal status open; this definition picks one, and no contract depends on which. */
  function SortByStatus(rows: seq<Task>): (r: seq<Task>)
    ensures SortedByStatus(r)
    ensures multiset(r) == multiset(rows)
  {
    if rows == [] then []
    else
      var init := SortByStatus(rows[..|rows| - 1]);
      assert rows == rows[..|rows| - 1] + [rows[|rows| - 1]];
      InsertKeepsSorted(rows[|rows| - 1], init);
      InsertByStatus(rows[|rows| - 1], init)
  }

  /** In the listing every 'done' row comes before every 'to-do' row. */
  lemma DoneRowsFirst(rows: seq<Task>)
    requires SortedByStatus(rows)
    ensures forall i, j :: 0 <= i < |rows| && 0 <= j < |rows| && rows[i].status == Done && rows[j].status == ToDo ==> i < j
  {
    DoneBeforeToDo();
  }

  // ---------------------------------------------------------------------------
  // SELECT * FROM tasks WHERE id = :i, first row fetched

  function FirstWithId(rows: seq<Task>, id: int): (t: Task)
    requires HasId(rows, id)
    ensures t in rows && t.id == id
  {
    if rows[0].id == id then rows[0]
    else
      assert HasId(rows[1..], id) by {
        var i :| 0 <= i < |rows| && rows[i].id == id;
        assert rows[1..][i - 1] == rows[i];
      }
      FirstWithId(rows[1..], id)
  }

  /** Under the primary-key constraint, the row fetched is the only row with that id. */
  lemma FetchedIsTheRow(rows: seq<Task>, id: int, i: nat)
    requires UniqueIds(rows) && i < |rows| && rows[i].id == id
    ensures FirstWithId(rows, id) == rows[i]
  {
    var t := FirstWithId(rows, id);
    var k :| 0 <= k < |rows| && rows[k] == t;
    assert k == i;
  }

  // ---------------------------------------------------------------------------
  // The DAO object

  /** The table as the database keeps it: unique positive ids, all below the next AUTO_INCREMENT value. */
  predicate TableInvariant(rows: seq<Task>, nextId: int)
  {
    && nextId >= 1
    && UniqueIds(rows)
    && (forall i :: 0 <= i < |rows| ==> 1 <= rows[i].id < nextId)
  }

  class TaskDAO {
    /** The rows of `tasks`, in storage order. */
    var rows: seq<Task>
    /** The id the database gives the next inserted row. */
    var nextId: int

    ghost predicate Valid()
      reads this
    {
      TableInvariant(rows, nextId)
    }

    constructor (table: seq<Task>, autoIncrement: int)
      requires TableInvariant(table, autoIncrement)
      ensures Valid() && rows == table && nextId == autoIncrement
    {
      rows := table;
      nextId := autoIncrement;
    }

    method NewTaskDB(title: string, description: string)
      requires Valid()
      modifies this
      ensures Valid()
      ensures rows == Inserted(old(rows), old(nextId), title, description)
      ensures nextId == old(nextId) + 1
      ensures !HasId(old(rows), old(nextId))
    {
      assert !HasId(rows, nextId);
      rows := Inserted(rows, nextId, title, description);
      nextId := nextId + 1;
    }

    method UpdateTaskDB(id: int, title: string, description: string, status: string)
      requires Valid()
      modifies this
      ensures Valid()
      ensures rows == Updated(old(rows), id, title, description, status)
      ensures nextId == old(nextId)
    {
      UpdateKeepsIds(rows, id, title, description, status);
      rows := Updated(rows, id, title, description, status);
    }

    method DeleteTaskDB(id: int)
      requires Valid()
      modifies this
      ensures Valid()
      ensures rows == Deleted(old(rows), id)
      ensures nextId == old(nextId)
    {
      DeletedKeepsUnique(rows, id);
      rows := Deleted(rows, id);
    }

    /** True iff some row has the id: the count the query returns is not zero. */
    function VerifyByIdTaskExistsDB(id: int): (b: bool)
      reads this
      ensures b <==> exists i :: 0 <= i < |rows| && rows[i].id == id
    {
      CountById(rows, id) != 0
    }

    /** Every row exactly once, ordered by status. */
    function GetAllTasksDataDB(): (r: seq<Task>)
      reads this
      ensures SortedByStatus(r)
      ensures multiset(r) == multiset(rows)
    {
      SortByStatus(rows)
    }

    /** The row with the id; callers check that it exists first. */
    function GetAllTaskDataByID(id: int): (t: Task)
      reads this
      requires VerifyByIdTaskExistsDB(id)
      ensures t in rows && t.id == id
    {
      FirstWithId(rows, id)
    }
  }
}
