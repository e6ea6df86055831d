/** The transaction coordinator of sqlite3fs.go: `New`, and the
    `startTransaction`/`finishTransaction` pair that brackets every
    operation with the cross-process lock and the database handle.

    This iteration of the engine is not compilable Go (it names `d`,
    `options`, `l`, `golock` without defining them); the model follows its
    control flow as written. Lock acquisition, opening, closing and
    unlocking are outcomes supplied by the caller of the model. */
module Transaction {
  import opened Errors

  /** The lock's polling interval and timeout, in milliseconds. */
  const LockPollIntervalMs: nat := 1
  const LockTimeoutMs: nat := 30000

  datatype LockConfig = LockConfig(path: string, pollIntervalMs: nat, timeoutMs: nat)

  datatype FileSystem = FileSystem(name: string, readOnly: bool, lock: Option<LockConfig>)

  datatype Setting = OptionReadOnly(on: bool)

  /** What `os.Stat` says of the database path. */
  datatype Stat = Found | Missing(err: Error) | StatFailed(err: Error)

  /** The read-only flag after applying the options in order. */
  function ReadOnly(settings: seq<Setting>, initial: bool): (r: bool)
    ensures |settings| == 0 ==> r == initial
    ensures |settings| > 0 ==> r == settings[|settings| - 1].on
    decreases |settings|
  {
    if |settings| == 0 then initial else ReadOnly(settings[1..], settings[0].on)
  }

  datatype Created = Created(fs: FileSystem, err: Option<Error>)

  /** The lock every transaction of the store takes. */
  function LockFor(name: string): (c: LockConfig)
    ensures c.path == name + ".lock"
    ensures c.pollIntervalMs == 1 && c.timeoutMs == 30000
  {
    LockConfig(name + ".lock", LockPollIntervalMs, LockTimeoutMs)
  }

  /** `New(name, options...)` as written. The `os.Stat` result is assigned
      to the named result `err`, so when the path is missing and the store is
      not read-only, `New` configures the lock and still returns the stat
      error. */
  function New(name: string, settings: seq<Setting>, stat: Stat): (r: Created)
    ensures name == "" ==>
      r == Created(FileSystem("", false, None), Some(Cause("database must have name")))
    ensures name != "" ==> r.fs.name == name && r.fs.readOnly == ReadOnly(settings, false)
    ensures name != "" && !stat.Found? && r.fs.readOnly ==>
      r.err == Some(Cause("cannot open as read-only if it does not exist")) && r.fs.lock.None?
    ensures name != "" && !(!stat.Found? && r.fs.readOnly) ==>
      r.fs.lock == Some(LockFor(name))
      && r.err == (if stat.Found? then None else Some(stat.err))
  {
    if name == "" then Created(FileSystem("", false, None), Some(Cause("database must have name")))
    else
      var fs := FileSystem(name, ReadOnly(settings, false), None);
      var err := if stat.Found? then None else Some(stat.err);
      if err.Some? && fs.readOnly then
        Created(fs, Some(Cause("cannot open as read-only if it does not exist")))
      else
        Created(fs.(lock := Some(LockFor(name))), err)
  }

  /** `New` as its comment describes it: the stat only guards read-only
      opening, and a missing path is otherwise fine. */
  function NewIntended(name: string, settings: seq<Setting>, stat: Stat): (r: Created)
    ensures r.err.Some? <==> name == "" || (!stat.Found? && ReadOnly(settings, false))
    ensures r.err.None? ==> r.fs.lock == Some(LockFor(name)) && r.fs.name == name
  {
    var made := New(name, settings, stat);
    if name != "" && made.fs.lock.Some? then Created(made.fs, None) else made
  }

  /** A path that does not exist yet, opened for writing: as written `New`
      fails although nothing is wrong; the intended `New` succeeds. */
  lemma NewFreshPath(name: string, cause: Error)
    requires name != ""
    ensures New(name, [], Missing(cause)).err == Some(cause)
    ensures NewIntended(name, [], Missing(cause)).err.None?
  {
  }

  /** The coordinator's `fs.db`: nil (never opened, or the last `sql.Open`
      failed), an open handle, or a closed one. */
  datatype Db = Nil | Live | Closed

  /** The coordinator's state: is the lock file held, and what `fs.db` is. */
  datatype TxState = TxState(lockHeld: bool, db: Db)

  /** A coordinator fresh from `New`: no lock, no handle. */
  const Idle := TxState(false, Nil)

  /** `schemaAttempted`: the file was new, so the schema statements ran. */
  datatype Started = Started(state: TxState, err: Option<Error>, schemaAttempted: bool)

  /** `startTransaction`: take the lock, note whether the file is new, open
      the handle, create the schema on a new file. A failure after the lock
      is taken returns at once and leaves the lock held; a failed open
      leaves `fs.db` nil. */
  function StartTransaction(s: TxState, lock: Option<Error>, stat: Stat, open: Option<Error>,
                            schema: Option<Error>): (r: Started)
    ensures lock.Some? ==> r == Started(s, lock, false)
    ensures lock.None? ==> r.state.lockHeld
    ensures lock.None? ==> (r.state.db == Nil <==> open.Some?) && (r.state.db == Live <==> open.None?)
    ensures r.schemaAttempted <==> lock.None? && open.None? && stat.Missing?
    ensures r.err.None? <==> lock.None? && open.None? && (stat.Missing? ==> schema.None?)
    ensures lock.None? && open.Some? ==> r.err == open
    ensures r.schemaAttempted && schema.Some? ==> r.err == Some(Wrapped("creating table", schema.value))
    ensures r.err.None? ==> r.state == TxState(true, Live)
  {
    if lock.Some? then Started(s, lock, false)
    else
      var held := s.(lockHeld := true);
      var newDatabase := stat.Missing?;
      if open.Some? then Started(held.(db := Nil), open, false)
      else
        var live := held.(db := Live);
        if newDatabase then Started(live, Wrap(schema, "creating table"), true)
        else Started(live, None, false)
  }

  /** How `finishTransaction` ends: normally, or in a nil-pointer panic
      when `fs.db` is nil, with nothing released. */
  datatype Finished = Finished(state: TxState, err: Option<Error>) | Panicked(state: TxState)

  /** `finishTransaction`: close the handle, then release the lock on both
      paths. A close failure is returned and the unlock result discarded;
      otherwise the unlock result is returned. Closing a nil handle panics
      before the lock is touched. */
  function FinishTransaction(s: TxState, close: Option<Error>, unlock: Option<Error>): (r: Finished)
    ensures r.Panicked? <==> s.db == Nil
    ensures r.Panicked? ==> r.state == s
    ensures r.Finished? ==> r.state.db == Closed
    ensures r.Finished? ==> (r.state.lockHeld <==> s.lockHeld && unlock.Some?)
    ensures r.Finished? && close.Some? ==> r.err == close
    ensures r.Finished? && close.None? ==> r.err == unlock
  {
    if s.db == Nil then Panicked(s)
    else
      var closed := s.(db := Closed);
      var unlocked := if unlock.None? then closed.(lockHeld := false) else closed;
      if close.Some? then Finished(unlocked, close) else Finished(unlocked, unlock)
  }

  /** A transaction whose steps all succeed goes from no lock to holding
      the lock and an open handle, and back to no lock with the handle
      closed. */
  lemma TransactionCycle(s: TxState, stat: Stat)
    requires !s.lockHeld
    ensures var started := StartTransaction(s, None, stat, None, None);
      && started.err.None?
      && started.state == TxState(true, Live)
      && FinishTransaction(started.state, None, None) == Finished(TxState(false, Closed), None)
  {
  }

  /** If opening fails after the lock is taken, the caller gets the error,
      the lock stays held and `fs.db` is nil: whatever closing and unlocking
      would do, the next `finishTransaction` panics and the lock is never
      released. */
  lemma OpenFailureLeaksLock(s: TxState, stat: Stat, openErr: Error, schema: Option<Error>,
                             close: Option<Error>, unlock: Option<Error>)
    ensures var started := StartTransaction(s, None, stat, Some(openErr), schema);
      && started.err == Some(openErr)
      && started.state == TxState(true, Nil)
      && FinishTransaction(started.state, close, unlock) == Panicked(TxState(true, Nil))
  {
  }

  /** A schema failure on a new file leaves the handle open and the lock
      held; a `finishTransaction` whose close fails still releases the lock,
      and the caller sees the close error. */
  lemma SchemaFailureRecovery(s: TxState, cause: Error, schemaErr: Error, closeErr: Error)
    ensures var started := StartTransaction(s, None, Missing(cause), None, Some(schemaErr));
      && started.err == Some(Wrapped("creating table", schemaErr))
      && started.state == TxState(true, Live)
      && FinishTransaction(started.state, Some(closeErr), None) ==
           Finished(TxState(false, Closed), Some(closeErr))
  {
  }
}
