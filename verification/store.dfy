/** The record-store operations of fbdb.go over the abstract table:
    `Save`, `Get`, `Exists`, `GetI` and `Len`. */
module Store {
  import opened Errors
  import opened Codec
  import opened Records
  import opened Database

  const ByNameSql := "\n\t\tSELECT * FROM fs WHERE name = ?"
  const ByOrdinalSql := "\n\t\tSELECT * FROM fs LIMIT 1 OFFSET ?"
  const CountSql := "SELECT COUNT(name) FROM FS"

  /** Which step of `Save`'s transaction the driver rejects, if any. */
  datatype SaveFault =
    | Saved
    | BeginFails(cause: Error)
    | StmtFails(cause: Error)
    | ExecFails(cause: Error)
    | CommitFails(cause: Error)

  datatype SaveResult = SaveResult(table: Table, err: Option<Error>)

  /** `Save(f)`: an upsert keyed on `f.Name` in one transaction. A failed
      step is reported with the step's name and nothing is committed. */
  function Save(t: Table, f: File, fault: SaveFault): (r: SaveResult)
    ensures fault.Saved? ==> r.err.None?
    ensures fault.Saved? ==> Lookup(r.table, f.name) == Some(AsRow(f))
    ensures fault.Saved? ==> forall n :: n != f.name ==> Lookup(r.table, n) == Lookup(t, n)
    ensures fault.Saved? ==> |t| <= |r.table| <= |t| + 1
    ensures fault.Saved? ==> (|r.table| == |t| + 1 <==> Lookup(t, f.name).None?)
    ensures !fault.Saved? ==> r.table == t && r.err.Some?
    ensures fault.BeginFails? ==> r.err == Some(Wrapped("begin Save", fault.cause))
    ensures fault.StmtFails? ==> r.err == Some(Wrapped("stmt Save", fault.cause))
    ensures fault.ExecFails? ==> r.err == Some(Wrapped("exec Save", fault.cause))
    ensures fault.CommitFails? ==> r.err == Some(Wrapped("commit Save", fault.cause))
  {
    match fault
    case Saved => SaveResult(Upsert(t, f), None)
    case BeginFails(e) => SaveResult(t, Some(Wrapped("begin Save", e)))
    case StmtFails(e) => SaveResult(t, Some(Wrapped("stmt Save", e)))
    case ExecFails(e) => SaveResult(t, Some(Wrapped("exec Save", e)))
    case CommitFails(e) => SaveResult(t, Some(Wrapped("commit Save", e)))
  }

  datatype Fetched = Fetched(file: File, err: Option<Error>)

  /** `Get(name)`: the named record, processed for the caller. When no row
      was scanned the error is "no files with that name", whatever the
      driver reported. */
  function Get(codec: Flate, t: Table, name: string, fault: Fault): (r: Fetched)
    ensures Lookup(t, name).None? ==>
      r == Fetched(EmptyFile, Some(Cause("no files with that name")))
    ensures fault.Healthy? && Lookup(t, name).Some? ==>
      r == Fetched(ProcessFile(codec, Lookup(t, name).value), None)
    ensures fault.Healthy? ==> (r.err.None? <==> Lookup(t, name).Some?)
    ensures r.err.None? ==> r.file.name == name
  {
    var c := Execute(t, Query(ByNameSql, ByName(name)), fault);
    var err := Wrap(c.err, "Stat");
    var (f, err) := if |c.rows| == 0 then (EmptyFile, Some(Cause("no files with that name")))
                    else (c.rows[0], err);
    Fetched(ProcessFile(codec, f), err)
  }

  datatype Existence = Existence(present: bool, err: Option<Error>)

  /** `Exists(name)`: presence is a boolean, and absence is not an error. */
  function Exists(t: Table, name: string, fault: Fault): (r: Existence)
    ensures fault.Healthy? ==> r == Existence(Lookup(t, name).Some?, None)
    ensures r.present ==> Lookup(t, name).Some?
    ensures r.err.Some? <==> !fault.Healthy?
  {
    var c := Execute(t, Query(ByNameSql, ByName(name)), fault);
    Existence(|c.rows| > 0, Wrap(c.err, "Exists"))
  }

  /** `GetI(i)`: the row at scan position `i`, processed. An ordinal past the
      end fails with "no files", and that error replaces any the driver
      reported. */
  function GetI(codec: Flate, t: Table, i: int, fault: Fault): (r: Fetched)
    ensures fault.Healthy? && 0 <= i < |t| ==> r == Fetched(ProcessFile(codec, t[i]), None)
    ensures i >= |t| ==> r == Fetched(EmptyFile, Some(Cause("no files")))
    ensures fault.PrepareFails? || fault.QueryFails? ==>
      r == Fetched(EmptyFile, Some(Cause("no files")))
    ensures fault.Healthy? ==> (r.err.None? <==> 0 < |t| && i < |t|)
    ensures fault.Healthy? && i < 0 < |t| ==> r.file == ProcessFile(codec, t[0])
  {
    var c := Execute(t, Query(ByOrdinalSql, Offset(i)), fault);
    var err := Wrap(c.err, "Stat");
    var (f, err) := if |c.rows| == 0 then (EmptyFile, Some(Cause("no files")))
                    else (c.rows[0], err);
    var f := if f.isCompressed
             then var plain := codec.decompress(f.data); f.(data := plain, size := |plain|)
             else f;
    Fetched(f, err)
  }

  datatype Count = Count(n: int, err: Option<Error>)

  /** `Len()` with its default query: the number of rows. The count is read
      from the single result row, so a failure after that row keeps it. */
  function Len(t: Table, fault: Fault): (r: Count)
    ensures fault.Healthy? ==> r == Count(|t|, None)
    ensures !fault.Healthy? ==> r.err.Some?
    ensures r.n == |t| || r.n == 0
  {
    match fault
    case Healthy => Count(|t|, None)
    case PrepareFails(e) => Count(0, Some(Wrapped("preparing query: " + CountSql, e)))
    case QueryFails(e) => Count(0, Some(Wrapped(CountSql, e)))
    case RowFails(after, e) => Count(if after >= 1 then |t| else 0, Some(Wrapped("getRows", e)))
  }

  /** A store opened with `OptionCompress(on)` builds records compressed
      exactly when `on` holds, and a record saved through it reads back with
      the payload the caller gave. */
  lemma OpenThenSaveGet(codec: Flate, name: string, on: bool, fileExists: bool, schema: SchemaFaults,
                        t: Table, recordName: string, payload: Bytes, now1: int, now2: int)
    requires Lossless(codec) && name != ""
    ensures var store := Open(name, [OptionCompress(on)], fileExists, None, schema);
      var f := NewFile(codec, store.fs, recordName, payload, now1, now2);
      && store.fs.name == name
      && f.isCompressed == on
      && Get(codec, Save(t, f, Saved).table, recordName, Healthy).file.data == payload
  {
    var store := Open(name, [OptionCompress(on)], fileExists, None, schema);
    SaveThenGet(codec, store.fs, t, recordName, payload, now1, now2);
  }

  /** The round trip: whatever the compression setting, a payload given to
      `NewFile` and saved is what `Get` returns, and the name then exists. */
  lemma SaveThenGet(codec: Flate, fs: FileSystem, t: Table, name: string, payload: Bytes,
                    now1: int, now2: int)
    requires Lossless(codec)
    ensures var f := NewFile(codec, fs, name, payload, now1, now2);
      var t' := Save(t, f, Saved).table;
      var g := Get(codec, t', name, Healthy);
      && g.err.None?
      && g.file.data == payload
      && g.file.size == |payload|
      && g.file.name == name
      && g.file.permissions == DefaultPermissions
      && Exists(t', name, Healthy).present
  {
    var f := NewFile(codec, fs, name, payload, now1, now2);
    var t' := Save(t, f, Saved).table;
    assert Lookup(t', name) == Some(AsRow(f));
  }

  /** Saving the same name twice keeps one row: the count is that of the
      first save, and `Get` returns the second payload. */
  lemma SaveTwice(codec: Flate, fs: FileSystem, t: Table, name: string, first: Bytes,
                  second: Bytes, now1: int, now2: int)
    requires Lossless(codec)
    ensures var t1 := Save(t, NewFile(codec, fs, name, first, now1, now2), Saved).table;
      var t2 := Save(t1, NewFile(codec, fs, name, second, now1, now2), Saved).table;
      && |t2| == |t1|
      && Get(codec, t2, name, Healthy).file.data == second
  {
    var t1 := Save(t, NewFile(codec, fs, name, first, now1, now2), Saved).table;
    assert Lookup(t1, name).Some?;
    SaveThenGet(codec, fs, t1, name, second, now1, now2);
  }

  /** A name never saved is absent: `Exists` says false without error and
      `Get` fails with "no files with that name". */
  lemma Absence(codec: Flate, t: Table, name: string)
    requires forall i :: 0 <= i < |t| ==> t[i].name != name
    ensures Exists(t, name, Healthy) == Existence(false, None)
    ensures Get(codec, t, name, Healthy).err == Some(Cause("no files with that name"))
  {
  }

  /** Saving records under pairwise distinct, new names leaves one row per
      name: the count grows by the number of records. */
  function SaveAll(t: Table, files: seq<File>): (r: Table)
    decreases |files|
  {
    if |files| == 0 then t
    else SaveAll(Save(t, files[0], Saved).table, files[1..])
  }

  lemma {:induction false} SaveDistinctCount(t: Table, files: seq<File>)
    requires forall i, j :: 0 <= i < j < |files| ==> files[i].name != files[j].name
    requires forall i :: 0 <= i < |files| ==> Lookup(t, files[i].name).None?
    ensures |SaveAll(t, files)| == |t| + |files|
    ensures forall i :: 0 <= i < |files| ==> Lookup(SaveAll(t, files), files[i].name).Some?
    decreases |files|
  {
    if |files| > 0 {
      var t1 := Save(t, files[0], Saved).table;
      var rest := files[1..];
      forall i | 0 <= i < |rest| ensures Lookup(t1, rest[i].name).None? {
        assert rest[i] == files[i + 1];
      }
      forall i, j | 0 <= i < j < |rest| ensures rest[i].name != rest[j].name {
        assert rest[i] == files[i + 1] && rest[j] == files[j + 1];
      }
      SaveDistinctCount(t1, rest);
      SaveKeeps(t1, rest, files[0].name);
      assert SaveAll(t, files) == SaveAll(t1, rest);
      forall i | 0 < i < |files| ensures Lookup(SaveAll(t, files), files[i].name).Some? {
        assert files[i] == rest[i - 1];
      }
    }
  }

  lemma {:induction false} SaveKeeps(t: Table, files: seq<File>, name: string)
    requires Lookup(t, name).Some?
    ensures Lookup(SaveAll(t, files), name).Some?
    decreases |files|
  {
    if |files| > 0 {
      SaveKeeps(Save(t, files[0], Saved).table, files[1..], name);
    }
  }

  /** On a healthy table every ordinal below `Len` returns a record, in scan
      order, and the ordinal `Len` returns none. */
  lemma OrdinalsCoverTable(codec: Flate, t: Table)
    ensures Len(t, Healthy).n == |t|
    ensures forall i :: 0 <= i < |t| ==> GetI(codec, t, i, Healthy).file == ProcessFile(codec, t[i])
    ensures GetI(codec, t, |t|, Healthy).err == Some(Cause("no files"))
  {
  }
}
