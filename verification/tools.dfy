/** The two standalone tools: the action of fbdb-wget (fbdb-wget/wget.go),
    which configures a crawl from its command line, and fbdb-dump
    (fbdb-dump/main.go), which writes every record to a file named after it.

    fbdb-wget's per-job closure and `start` are the crawler's, modelled in
    `Crawler`. fbdb-dump differs from the `dump` command of src/cli/cli.go in
    two ways: it splits the record name as stored, without trimming, and the
    first failed write ends the dump. */
module Tools {
  import opened Errors
  import Path
  import opened Codec
  import opened Records
  import opened Database
  import opened Store
  import Crawler
  import Cli

  /** The boolean flags fbdb-wget declares. */
  const WgetBoolFlags: set<string> := {"tor", "no-clobber", "compress", "debug", "quiet"}

  /** A command line the parser accepts for fbdb-wget: only declared booleans. */
  predicate WgetCommandLine(c: Cli.Context)
  {
    c.bools <= WgetBoolFlags
  }

  /** fbdb-wget's action: the checks and flag readings of `runget`, in the
      same order and under the same flag names. `readPluck` is the pluck
      file's content or the failure to read it. */
  function WgetAction(c: Cli.Context, readPluck: Result<string>): (r: Cli.Launch)
    ensures !Cli.HasTarget(c) ==> r == Cli.Rejected(Cause("need to specify URL"))
    ensures Cli.HasTarget(c) && Cli.FlagInt(c, "workers", 1) < 1 ==>
      r == Cli.Rejected(Cause("cannot have less than 1 worker"))
    ensures r.Launched? <==>
      && Cli.HasTarget(c)
      && Cli.FlagInt(c, "workers", 1) >= 1
      && (Cli.FlagString(c, "pluck") == "" || readPluck.Ok?)
    ensures r.Launched? && Cli.First(c) != "" ==> r.cfg.url == Cli.First(c) && r.cfg.fileWithList == ""
    ensures r.Launched? && Cli.First(c) == "" ==>
      r.cfg.url == "" && r.cfg.fileWithList == Cli.FlagString(c, "list")
    ensures r.Launched? ==>
      && r.cfg.numWorkers == Cli.FlagInt(c, "workers", 1)
      && r.cfg.compressResults == Cli.FlagBool(c, "compress")
      && r.cfg.pluckerToml == (if Cli.FlagString(c, "pluck") == "" then "" else readPluck.value)
  {
    Cli.Runget(c, readPluck)
  }

  /** fbdb-wget declares `--compress`, so giving it makes the crawl's store
      compress, where the same flag is unknown to `fbdb get`. */
  lemma WgetCompresses(c: Cli.Context, readPluck: Result<string>)
    requires WgetCommandLine(c) && "compress" in c.bools
    requires WgetAction(c, readPluck).Launched?
    ensures Crawler.CrawlStore(WgetAction(c, readPluck).cfg).doCompression
    ensures !Cli.GetCommandLine(c)
  {
  }

  /** The whole of fbdb-wget: the action, then `start`. The action has
      already rejected fewer than one worker. */
  method Wget(codec: Flate, c: Cli.Context, readPluck: Result<string>, t: Table,
              list: Result<seq<string>>, world: nat -> Crawler.JobWorld)
    returns (t': Table, outcomes: seq<Crawler.Outcome>, err: Option<Error>)
    ensures WgetAction(c, readPluck).Rejected? ==>
      t' == t && outcomes == [] && err == Some(WgetAction(c, readPluck).err)
    ensures WgetAction(c, readPluck).Launched? && Cli.First(c) != "" ==>
      err.None? && |outcomes| == 1 && outcomes[0].url == Cli.First(c)
    ensures WgetAction(c, readPluck).Launched? && Cli.First(c) == "" && list.Fail? ==>
      t' == t && outcomes == [] && err == Some(list.error)
  {
    match WgetAction(c, readPluck)
    case Rejected(e) =>
      return t, [], Some(e);
    case Launched(cfg) =>
      t', outcomes, err := Crawler.Start(codec, cfg, t, list, world);
  }

  /** A record read as `g` was written as `w`, to the path `path.Split`
      gives for its name as stored. */
  predicate Written(g: Fetched, writeFault: Option<Error>, w: Cli.Write)
  {
    g.err.None? && w == Cli.Write(Path.Split(g.file.name).0, Path.Split(g.file.name).1, g.file.data, writeFault)
  }

  /** fbdb-dump's loop over ordinals 0 .. n-1, where `read(i)` is what
      `GetI(i)` returns and `writeFault(i)` what writing that record meets:
      the first failed read or write ends it with that failure. */
  method DumpRows(n: nat, read: nat -> Fetched, writeFault: nat -> Option<Error>)
    returns (writes: seq<Cli.Write>, err: Option<Error>)
    ensures |writes| <= n
    ensures forall i {:trigger writes[i]} :: 0 <= i < |writes| ==> Written(read(i), writeFault(i), writes[i])
    ensures forall i {:trigger writeFault(i)} :: 0 <= i < |writes| - 1 ==> writeFault(i).None?
    ensures |writes| > 0 && writeFault(|writes| - 1).Some? ==> err == writeFault(|writes| - 1)
    ensures (|writes| == 0 || writeFault(|writes| - 1).None?) && |writes| < n ==>
      err.Some? && err == read(|writes|).err
    ensures (|writes| == 0 || writeFault(|writes| - 1).None?) && |writes| == n ==> err.None?
  {
    writes, err := [], None;
    var i := 0;
    while i < n
      invariant 0 <= i <= n
      invariant |writes| == i
      invariant forall k {:trigger writes[k]} :: 0 <= k < i ==> Written(read(k), writeFault(k), writes[k])
      invariant forall k {:trigger writeFault(k)} :: 0 <= k < i ==> writeFault(k).None?
      invariant err.None?
    {
      var g := read(i);
      if g.err.Some? {
        return writes, g.err;
      }
      var (dir, file) := Path.Split(g.file.name);
      err := writeFault(i);
      ghost var before := writes;
      writes := writes + [Cli.Write(dir, file, g.file.data, err)];
      forall k {:trigger writes[k]} | 0 <= k < i
        ensures Written(read(k), writeFault(k), writes[k])
      {
        assert writes[k] == before[k];
      }
      if err.Some? {
        return writes, err;
      }
      i := i + 1;
    }
  }

  /** fbdb-dump's action: fail if the database path does not exist or
      cannot be opened or counted; then run the loop over every ordinal
      below the count. `stat` is `os.Stat` of the path; `rowFault(i)` and
      `writeFault(i)` are what reading and writing record `i` meet. */
  method Dump(codec: Flate, c: Cli.Context, stat: Option<Error>, openFault: Option<Error>, t: Table,
              lenFault: Fault, rowFault: nat -> Fault, writeFault: nat -> Option<Error>)
    returns (writes: seq<Cli.Write>, err: Option<Error>)
    ensures stat.Some? ==> writes == [] && err == stat
    ensures !Cli.Prepared(c, stat, openFault, lenFault) ==> writes == [] && err.Some?
    ensures |writes| <= |t|
    ensures forall i {:trigger writes[i]} :: 0 <= i < |writes| ==>
      Written(GetI(codec, t, i, rowFault(i)), writeFault(i), writes[i])
    ensures forall i {:trigger writeFault(i)} :: 0 <= i < |writes| - 1 ==> writeFault(i).None?
    ensures |writes| > 0 && writeFault(|writes| - 1).Some? ==> err == writeFault(|writes| - 1)
    ensures Cli.Prepared(c, stat, openFault, lenFault) && |writes| < |t| &&
            (|writes| == 0 || writeFault(|writes| - 1).None?) ==>
      err.Some? && err == GetI(codec, t, |writes|, rowFault(|writes|)).err
    ensures Cli.Prepared(c, stat, openFault, lenFault) && |writes| == |t| &&
            (|writes| == 0 || writeFault(|writes| - 1).None?) ==>
      err.None?
  {
    if stat.Some? {
      return [], stat;
    }
    var store := Open(Cli.First(c), [], true, openFault, SchemaFaults(None, None, None));
    if store.err.Some? {
      assert !Cli.Prepared(c, stat, openFault, lenFault);
      return [], store.err;
    }
    var count := Len(t, lenFault);
    if count.err.Some? {
      assert !Cli.Prepared(c, stat, openFault, lenFault);
      return [], count.err;
    }
    writes, err := DumpRows(count.n, (i: nat) => GetI(codec, t, i, rowFault(i)), writeFault);
  }

  /** A name ending in '/' is written as stored: the whole name is the
      directory and the file name is empty, where `fbdb dump` first drops
      the slash. */
  lemma TrailingSlashKept(name: string)
    requires |name| > 0 && name[|name| - 1] == '/'
    ensures Path.Split(name) == (name, "")
  {
    Path.SplitUnique(name, name, "");
  }

  /** The two error policies side by side: when only the first write fails,
      `fbdb dump` writes every record and reports that failure at the end
      only if it was the last, while fbdb-dump stops after the first. */
  method DumpPoliciesDiffer(codec: Flate, c: Cli.Context, t: Table, cause: Error)
    returns (full: seq<Cli.Write>, fullErr: Option<Error>, tool: seq<Cli.Write>, toolErr: Option<Error>)
    requires Cli.First(c) != "" && |t| >= 2
    ensures |full| == |t| && fullErr.None?
    ensures |tool| == 1 && toolErr == Some(cause)
  {
    var rowFault: nat -> Fault := _ => Healthy;
    var writeFault: nat -> Option<Error> := i => if i == 0 then Some(cause) else None;
    assert Cli.Prepared(c, None, None, Healthy);
    full, fullErr := Cli.Dump(codec, c, None, None, t, Healthy, rowFault, writeFault);
    assert forall i :: 0 <= i < |t| ==> rowFault(i).Healthy?;
    assert writeFault(|full| - 1).None?;
    tool, toolErr := Dump(codec, c, None, None, t, Healthy, rowFault, writeFault);
    assert GetI(codec, t, 0, rowFault(0)).err.None?;
    assert |tool| > 0;
    assert Written(GetI(codec, t, 0, rowFault(0)), writeFault(0), tool[0]);
    assert tool[0].err == Some(cause);
  }
}
