/** The record type of fbdb.go and the pure parts of the store handle:
    opening (`Open`, `initializeDB`), building a record (`NewFile`) and
    preparing a stored record for a caller (`ProcessFile`). */
module Records {
  import opened Errors
  import opened Codec

  /** `os.FileMode(0644)`, the permission bits every new record carries. */
  const DefaultPermissions: int := 420

  /** `File`: the unit that is saved. Timestamps are abstract instants. */
  datatype File = File(
    name: string,
    permissions: int,
    user: string,
    userId: int,
    group: string,
    groupId: int,
    size: int,
    created: int,
    modified: int,
    data: Bytes,
    isCompressed: bool,
    isEncrypted: bool)

  /** Go's zero `File{}`, returned when no row matched. */
  const EmptyFile := File("", 0, "", 0, "", 0, 0, 0, 0, [], false, false)

  /** The options of `Open`; fbdb.go defines only `OptionCompress`. */
  datatype Setting = OptionCompress(on: bool)

  /** The configuration part of `FileSystem` (the `*sql.DB` and the mutex
      are not values of the model). */
  datatype FileSystem = FileSystem(
    name: string,
    readOnly: bool,
    encryptPassphrase: string,
    doCompression: bool)

  const ZeroFileSystem := FileSystem("", false, "", false)

  /** Applies the options in the order given, as `Open`'s loop does. */
  function Configure(fs: FileSystem, settings: seq<Setting>): (r: FileSystem)
    ensures r.name == fs.name && r.readOnly == fs.readOnly
    ensures r.encryptPassphrase == fs.encryptPassphrase
    ensures |settings| == 0 ==> r.doCompression == fs.doCompression
    ensures |settings| > 0 ==> r.doCompression == settings[|settings| - 1].on
    decreases |settings|
  {
    if |settings| == 0 then fs
    else Configure(fs.(doCompression := settings[0].on), settings[1..])
  }

  /** Outcomes of the three `CREATE TABLE` statements of `initializeDB`. */
  datatype SchemaFaults = SchemaFaults(
    fsTable: Option<Error>,
    usersTable: Option<Error>,
    groupsTable: Option<Error>)

  /** `initializeDB`: each statement's result is assigned to the same `err`,
      so a failure is reported only if it is the last statement's. */
  function InitializeDb(faults: SchemaFaults): (r: Option<Error>)
    ensures r == Wrap(faults.groupsTable, "creating table")
    ensures r.None? <==> faults.groupsTable.None?
    ensures faults.fsTable.Some? && faults.groupsTable.None? ==> r.None?
  {
    var err := Wrap(faults.fsTable, "creating table");
    var err := Wrap(faults.usersTable, "creating table");
    var err := Wrap(faults.groupsTable, "creating table");
    err
  }

  datatype Opened = Opened(fs: FileSystem, err: Option<Error>, schemaAttempted: bool)

  /** `Open(name, options...)`. `fileExists` is whether `os.Stat` succeeds
      on the path, `openFault` the result of `sql.Open`, `schema` the
      results of the schema statements run on a fresh file. */
  function Open(
    name: string, settings: seq<Setting>, fileExists: bool,
    openFault: Option<Error>, schema: SchemaFaults): (r: Opened)
    ensures name == "" ==>
      r == Opened(ZeroFileSystem, Some(Cause("database must have name")), false)
    ensures name != "" ==> r.fs == Configure(ZeroFileSystem.(name := name), settings)
    ensures r.schemaAttempted <==> name != "" && !fileExists && openFault.None?
    ensures r.err.None? <==>
      name != "" && openFault.None? && (fileExists || schema.groupsTable.None?)
  {
    if name == "" then Opened(ZeroFileSystem, Some(Cause("database must have name")), false)
    else
      var fs := Configure(ZeroFileSystem.(name := name), settings);
      if openFault.Some? then Opened(fs, openFault, false)
      else if fileExists then Opened(fs, None, false)
      else
        match InitializeDb(schema)
        case None => Opened(fs, None, true)
        case Some(e) => Opened(fs, Some(Wrapped("could not initialize", e)), true)
  }

  /** `NewFile(name, data)`: a record with default metadata whose payload is
      compressed when the store compresses. `now1` and `now2` are the two
      readings of the clock. */
  function NewFile(codec: Flate, fs: FileSystem, name: string, data: Bytes, now1: int, now2: int)
    : (f: File)
    ensures f.name == name && f.permissions == DefaultPermissions
    ensures f.user == "" && f.group == "" && f.userId == 0 && f.groupId == 0
    ensures f.created == now1 && f.modified == now2
    ensures f.size == |f.data|
    ensures !fs.doCompression ==> !f.isCompressed && f.data == data
    ensures fs.doCompression ==> f.isCompressed && f.data == codec.compress(data)
    ensures f.isEncrypted <==> fs.encryptPassphrase != ""
  {
    var f := File(name, DefaultPermissions, "", 0, "", 0, |data|, now1, now2, data, false, false);
    var f := if fs.doCompression
      then var packed := codec.compress(data); f.(isCompressed := true, data := packed, size := |packed|)
      else f;
    if fs.encryptPassphrase != "" then f.(isEncrypted := true) else f
  }

  /** `ProcessFile`: undoes compression and sets `Size` to the length of the
      decompressed payload. The `IsCompressed` flag is left as it was. */
  function ProcessFile(codec: Flate, f: File): (r: File)
    ensures r.(data := f.data, size := f.size) == f
    ensures !f.isCompressed ==> r == f
    ensures f.isCompressed ==> r.size == |r.data|
    ensures Lossless(codec) && f.isCompressed ==> forall d :: f.data == codec.compress(d) ==> r.data == d
  {
    if f.isCompressed then
      var plain := codec.decompress(f.data);
      f.(data := plain, size := |plain|)
    else f
  }

  /** Whatever the store's compression setting, processing a new record gives
      back the caller's payload, with `Size` its length. */
  lemma NewFileRoundTrip(codec: Flate, fs: FileSystem, name: string, data: Bytes, now1: int, now2: int)
    requires Lossless(codec)
    ensures var r := ProcessFile(codec, NewFile(codec, fs, name, data, now1, now2));
      r.data == data && r.size == |data| && r.name == name
  {
  }
}
