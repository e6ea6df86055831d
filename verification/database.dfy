/** The `fs` table and the queries fbdb.go runs on it, modelled without
    SQLite: the table is the sequence of its rows in scan order, and the
    driver's failures are a `Fault` supplied by the caller of the model. */
module Database {
  import opened Errors
  import opened Records

  /** A record as the `fs` schema keeps it: there are columns for the user
      and group ids, but none for the user and group names. */
  predicate IsRow(f: File)
  {
    f.user == "" && f.group == ""
  }

  function AsRow(f: File): (r: File)
    ensures IsRow(r)
    ensures r.name == f.name && r.data == f.data && r.size == f.size
    ensures r.isCompressed == f.isCompressed && r.permissions == f.permissions
  {
    f.(user := "", group := "")
  }

  /** `name` is the primary key. */
  predicate UniqueNames(rows: seq<File>)
  {
    forall i, j :: 0 <= i < j < |rows| ==> rows[i].name != rows[j].name
  }

  predicate ValidTable(rows: seq<File>)
  {
    && UniqueNames(rows)
    && forall i :: 0 <= i < |rows| ==> IsRow(rows[i])
  }

  /** The rows of `fs`, in the order a full scan returns them. */
  type Table = rows: seq<File> | ValidTable(rows) witness []

  /** The row whose primary key is `name`. */
  function Lookup(rows: seq<File>, name: string): (r: Option<File>)
    ensures r.Some? ==> r.value in rows && r.value.name == name
    ensures r.None? ==> forall i :: 0 <= i < |rows| ==> rows[i].name != name
  {
    if |rows| == 0 then None
    else if rows[0].name == name then Some(rows[0])
    else Lookup(rows[1..], name)
  }

  /** In a table, the row found by name is the one at its position. */
  lemma LookupAt(t: Table, i: int)
    requires 0 <= i < |t|
    ensures Lookup(t, t[i].name) == Some(t[i])
  {
    if i > 0 && t[0].name != t[i].name {
      var tail: seq<File> := t[1..];
      assert ValidTable(tail) by {
        assert forall a, b :: 0 <= a < b < |tail| ==> tail[a] == t[a + 1] && tail[b] == t[b + 1];
      }
      LookupAt(tail, i - 1);
    }
  }

  /** The rows other than the one named `name`, in their order. */
  function Without(rows: seq<File>, name: string): (r: seq<File>)
    ensures forall i :: 0 <= i < |r| ==> r[i].name != name
    ensures forall x :: x in r ==> x in rows
    ensures |r| <= |rows|
  {
    if |rows| == 0 then []
    else if rows[0].name == name then Without(rows[1..], name)
    else [rows[0]] + Without(rows[1..], name)
  }

  lemma {:induction false} LookupWithout(rows: seq<File>, name: string, other: string)
    requires other != name
    ensures Lookup(Without(rows, name), other) == Lookup(rows, other)
    decreases |rows|
  {
    if |rows| > 0 {
      LookupWithout(rows[1..], name, other);
    }
  }

  lemma {:induction false} WithoutValid(rows: seq<File>, name: string)
    requires ValidTable(rows)
    ensures ValidTable(Without(rows, name))
    ensures |Without(rows, name)| == if Lookup(rows, name).Some? then |rows| - 1 else |rows|
    decreases |rows|
  {
    if |rows| > 0 {
      var tail := rows[1..];
      assert ValidTable(tail) by {
        assert forall a :: 0 <= a < |tail| ==> tail[a] == rows[a + 1];
      }
      WithoutValid(tail, name);
      var w := Without(tail, name);
      if rows[0].name == name {
        assert Lookup(tail, name).None? by {
          assert forall a :: 0 <= a < |tail| ==> tail[a] == rows[a + 1];
        }
      } else {
        forall x | x in w ensures x.name != rows[0].name {
          var a :| 0 <= a < |tail| && tail[a] == x;
          assert tail[a] == rows[a + 1];
        }
        var r := [rows[0]] + w;
        assert forall a :: 0 < a < |r| ==> r[a] == w[a - 1] && r[a] in w;
      }
    }
  }

  lemma LookupAppend(rows: seq<File>, row: File, name: string)
    ensures Lookup(rows + [row], name) ==
      if Lookup(rows, name).Some? then Lookup(rows, name)
      else if row.name == name then Some(row)
      else None
  {
    if |rows| > 0 {
      assert (rows + [row])[1..] == rows[1..] + [row];
      LookupAppend(rows[1..], row, name);
    }
  }

  /** `INSERT OR REPLACE` keyed on `name`: the conflicting row, if any, is
      deleted and the new row is added after all others (SQLite's REPLACE
      conflict resolution gives it a fresh rowid). */
  function Upsert(t: Table, f: File): (r: Table)
    ensures Lookup(r, f.name) == Some(AsRow(f))
    ensures forall n :: n != f.name ==> Lookup(r, n) == Lookup(t, n)
    ensures |r| == if Lookup(t, f.name).Some? then |t| else |t| + 1
    ensures r[|r| - 1] == AsRow(f)
  {
    var rest := Without(t, f.name);
    WithoutValid(t, f.name);
    var r := rest + [AsRow(f)];
    assert ValidTable(r);
    LookupAppend(rest, AsRow(f), f.name);
    forall n | n != f.name ensures Lookup(r, n) == Lookup(t, n) {
      LookupAppend(rest, AsRow(f), n);
      LookupWithout(t, f.name, n);
    }
    r
  }

  /** The shape of a `SELECT` on `fs`: what it returns, not its SQL text. */
  datatype Form =
    | All                  // SELECT * FROM fs
    | Limit(count: nat)    // SELECT * FROM fs LIMIT count
    | ByName(name: string) // SELECT * FROM fs WHERE name = ?
    | Offset(index: int)   // SELECT * FROM fs LIMIT 1 OFFSET ?
    | Malformed(cause: Error) // text SQLite cannot prepare, with the driver's complaint

  datatype Query = Query(sql: string, form: Form)

  /** The rows a query selects from a table. A negative OFFSET counts as
      zero in SQLite. */
  function Select(t: Table, form: Form): (r: seq<File>)
    ensures form.Limit? ==> |r| == if form.count <= |t| then form.count else |t|
    ensures form.ByName? ==> (|r| == 1 <==> Lookup(t, form.name).Some?) && |r| <= 1
    ensures form.Offset? ==> |r| <= 1
    ensures forall x :: x in r ==> x in t
  {
    match form
    case All => t
    case Limit(n) => if n <= |t| then t[..n] else t
    case ByName(name) =>
      (match Lookup(t, name) case Some(row) => [row] case None => [])
    case Offset(i) =>
      var k := if i < 0 then 0 else i;
      if k < |t| then [t[k]] else []
    case Malformed(_) => []
  }

  /** What the driver does to one statement of a query. */
  datatype Fault =
    | Healthy
    | PrepareFails(cause: Error)
    | QueryFails(cause: Error)
    | RowFails(after: nat, cause: Error) // `after` rows scan, then the next scan or `rows.Err` fails

  /** The rows scanned and the error, as `getAllFromPreparedQuery` returns them. */
  datatype Cursor = Cursor(rows: seq<File>, err: Option<Error>)

  predicate IsPrefix<T(==)>(a: seq<T>, b: seq<T>)
  {
    |a| <= |b| && b[..|a|] == a
  }

  /** `getAllFromPreparedQuery(query, args...)`: prepare, query, scan every
      row; a failure stops the scan and is returned with the rows before it. */
  function Execute(t: Table, q: Query, fault: Fault): (c: Cursor)
    ensures IsPrefix(c.rows, Select(t, q.form))
    ensures c.err.None? <==> fault.Healthy? && !q.form.Malformed?
    ensures c.err.None? ==> c.rows == Select(t, q.form)
    ensures q.form.Malformed? || fault.PrepareFails? ==>
      c == Cursor([], Some(Wrapped("preparing query: " + q.sql,
        if q.form.Malformed? then q.form.cause else fault.cause)))
    ensures !q.form.Malformed? && fault.QueryFails? ==>
      c == Cursor([], Some(Wrapped(q.sql, fault.cause)))
    ensures !q.form.Malformed? && fault.RowFails? ==>
      c.err == Some(Wrapped("getRows", fault.cause))
      && |c.rows| == (if fault.after <= |Select(t, q.form)| then fault.after else |Select(t, q.form)|)
  {
    if q.form.Malformed? then Cursor([], Some(Wrapped("preparing query: " + q.sql, q.form.cause)))
    else
      var rows := Select(t, q.form);
      match fault
      case Healthy => Cursor(rows, None)
      case PrepareFails(e) => Cursor([], Some(Wrapped("preparing query: " + q.sql, e)))
      case QueryFails(e) => Cursor([], Some(Wrapped(q.sql, e)))
      case RowFails(after, e) =>
        Cursor(if after <= |rows| then rows[..after] else rows, Some(Wrapped("getRows", e)))
  }
}
