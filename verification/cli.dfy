/** The `fbdb` command line (src/cli/cli.go): the argument checks of
    `runget`, which configures and runs a crawl, and `dump`, which writes
    every record of a database to a file named after it.

    A parsed command line is a `Context`; reading a file, opening the store
    and writing files are outcomes supplied by the caller of the model. The
    store is opened with `New` of src/fbdb, which is not part of this model;
    it is taken to behave as `Open` of fbdb.go. */
module Cli {
  import opened Errors
  import Strings
  import Path
  import opened Codec
  import opened Records
  import opened Database
  import opened Store
  import Crawler

  /** A parsed command line, flags under their first name. */
  datatype Context = Context(
    args: seq<string>,
    strings: map<string, string>,
    bools: set<string>,
    ints: map<string, int>,
    slices: map<string, seq<string>>)

  /** `c.Args().First()`: the first positional argument, or "". */
  function First(c: Context): (s: string)
    ensures |c.args| == 0 ==> s == ""
    ensures |c.args| > 0 ==> s == c.args[0]
  {
    if |c.args| > 0 then c.args[0] else ""
  }

  /** A string flag's value; "" when it was not given or is not declared. */
  function FlagString(c: Context, name: string): (v: string)
  {
    if name in c.strings then c.strings[name] else ""
  }

  /** Whether a boolean flag was given; false for an undeclared name. */
  function FlagBool(c: Context, name: string): (on: bool)
  {
    name in c.bools
  }

  function FlagInt(c: Context, name: string, default: int): (v: int)
  {
    if name in c.ints then c.ints[name] else default
  }

  function FlagStrings(c: Context, name: string): (vs: seq<string>)
  {
    if name in c.slices then c.slices[name] else []
  }

  /** The boolean flags the `get` command declares. */
  const GetBoolFlags: set<string> := {"tor", "no-clobber", "compressed", "quiet"}

  /** A command line the parser accepts for `get`: only declared booleans. */
  predicate GetCommandLine(c: Context)
  {
    c.bools <= GetBoolFlags
  }

  datatype Launch = Rejected(err: Error) | Launched(cfg: Crawler.Config)

  /** A URL or a list was given. */
  predicate HasTarget(c: Context)
  {
    First(c) != "" || FlagString(c, "list") != ""
  }

  /** `runget`: a positional URL wins over `--list`; then the worker count
      is checked, then the pluck file read. The compression setting is read
      from a flag named "compress". `readPluck` is the pluck file's content
      or the failure to read it. */
  function Runget(c: Context, readPluck: Result<string>): (r: Launch)
    ensures !HasTarget(c) ==> r == Rejected(Cause("need to specify URL"))
    ensures HasTarget(c) && FlagInt(c, "workers", 1) < 1 ==>
      r == Rejected(Cause("cannot have less than 1 worker"))
    ensures r.Launched? <==>
      HasTarget(c) && FlagInt(c, "workers", 1) >= 1 && (FlagString(c, "pluck") == "" || readPluck.Ok?)
    ensures (HasTarget(c) && FlagInt(c, "workers", 1) >= 1 && FlagString(c, "pluck") != "" &&
             readPluck.Fail?) ==> r == Rejected(readPluck.error)
    ensures r.Launched? && First(c) != "" ==> r.cfg.url == First(c) && r.cfg.fileWithList == ""
    ensures r.Launched? && First(c) == "" ==>
      r.cfg.url == "" && r.cfg.fileWithList == FlagString(c, "list")
    ensures r.Launched? ==>
      && r.cfg.numWorkers >= 1
      && r.cfg.headers == FlagStrings(c, "headers")
      && r.cfg.noClobber == FlagBool(c, "no-clobber")
      && r.cfg.useTor == FlagBool(c, "tor")
      && r.cfg.cookies == FlagString(c, "cookies")
      && r.cfg.compressResults == FlagBool(c, "compress")
      && r.cfg.pluckerToml == (if FlagString(c, "pluck") == "" then "" else readPluck.value)
  {
    var url := First(c);
    var list := FlagString(c, "list");
    if url == "" && list == "" then Rejected(Cause("need to specify URL"))
    else
      var workers := FlagInt(c, "workers", 1);
      if workers < 1 then Rejected(Cause("cannot have less than 1 worker"))
      else if FlagString(c, "pluck") != "" && readPluck.Fail? then Rejected(readPluck.error)
      else
        Launched(Crawler.Config(
          useTor := FlagBool(c, "tor"),
          noClobber := FlagBool(c, "no-clobber"),
          fileWithList := if url != "" then "" else list,
          url := url,
          cookies := FlagString(c, "cookies"),
          headers := FlagStrings(c, "headers"),
          compressResults := FlagBool(c, "compress"),
          numWorkers := workers,
          pluckerToml := if FlagString(c, "pluck") == "" then "" else readPluck.value))
  }

  /** `get` never compresses: the flag it declares is "compressed", the one
      it reads is "compress". */
  lemma RungetIgnoresCompressed(c: Context, readPluck: Result<string>)
    requires GetCommandLine(c)
    ensures Runget(c, readPluck).Launched? ==> !Runget(c, readPluck).cfg.compressResults
  {
    assert "compress" !in GetBoolFlags;
  }

  /** `runget` reading the flag `get` declares. */
  function RungetIntended(c: Context, readPluck: Result<string>): (r: Launch)
    ensures r.Launched? <==> Runget(c, readPluck).Launched?
    ensures r.Rejected? ==> r == Runget(c, readPluck)
    ensures r.Launched? ==> r.cfg.compressResults == FlagBool(c, "compressed")
    ensures r.Launched? ==>
      r.cfg.(compressResults := false) == Runget(c, readPluck).cfg.(compressResults := false)
  {
    match Runget(c, readPluck)
    case Rejected(e) => Rejected(e)
    case Launched(cfg) => Launched(cfg.(compressResults := FlagBool(c, "compressed")))
  }

  /** `--compressed` given to `get` makes the intended `runget` compress. */
  lemma RungetIntendedCompresses(c: Context, readPluck: Result<string>)
    requires GetCommandLine(c) && "compressed" in c.bools
    requires RungetIntended(c, readPluck).Launched?
    ensures RungetIntended(c, readPluck).cfg.compressResults
    ensures !Runget(c, readPluck).cfg.compressResults
  {
    RungetIgnoresCompressed(c, readPluck);
  }

  /** The `get` command: `runget`, then the crawl it configures. */
  method GetCommand(codec: Flate, c: Context, readPluck: Result<string>, t: Table,
                    list: Result<seq<string>>, world: nat -> Crawler.JobWorld)
    returns (t': Table, outcomes: seq<Crawler.Outcome>, err: Option<Error>)
    ensures Runget(c, readPluck).Rejected? ==>
      t' == t && outcomes == [] && err == Some(Runget(c, readPluck).err)
    ensures Runget(c, readPluck).Launched? && err.None? ==>
      |outcomes| == |Crawler.Jobs(Runget(c, readPluck).cfg, if list.Ok? then list.value else [])|
  {
    match Runget(c, readPluck)
    case Rejected(e) =>
      return t, [], Some(e);
    case Launched(cfg) =>
      t', outcomes, err := Crawler.Run(codec, cfg, t, list, world);
  }

  /** Where `dump` writes a record: the name trimmed of white space and of
      one trailing '/', split after its last '/'. */
  function DumpPath(name: string): (r: (string, string))
    ensures r.0 + r.1 == Strings.TrimSuffix(Strings.TrimSpace(name), "/")
    ensures forall k :: 0 <= k < |r.1| ==> r.1[k] != '/'
    ensures r.0 == "" || r.0[|r.0| - 1] == '/'
  {
    Path.Split(Strings.TrimSuffix(Strings.TrimSpace(name), "/"))
  }

  /** A name ending in "dir/file/" is written to `file` in `dir`. */
  lemma DumpPathDropsTrailingSlash(dir: string, file: string)
    requires dir == "" || dir[|dir| - 1] == '/'
    requires |file| > 0 && forall k :: 0 <= k < |file| ==> file[k] != '/'
    requires !Strings.IsSpace((dir + file)[0])
    ensures DumpPath(dir + file + "/") == (dir, file)
  {
    var s := dir + file + "/";
    assert s[0] == (dir + file)[0];
    Strings.TrimSpaceKeeps(s);
    assert Strings.HasSuffix(s, "/");
    assert Strings.TrimSuffix(s, "/") == dir + file;
    Path.SplitUnique(dir + file, dir, file);
  }

  /** One attempted write: directory, file name, payload and outcome. */
  datatype Write = Write(dir: string, file: string, data: Bytes, err: Option<Error>)

  /** The database file exists, opens, and its count can be read. */
  predicate Prepared(c: Context, stat: Option<Error>, openFault: Option<Error>, lenFault: Fault)
  {
    stat.None? && First(c) != "" && openFault.None? && lenFault.Healthy?
  }

  /** A record read as `g` was written as `w`. */
  predicate Dumped(g: Fetched, writeFault: Option<Error>, w: Write)
  {
    g.err.None? && w == Write(DumpPath(g.file.name).0, DumpPath(g.file.name).1, g.file.data, writeFault)
  }

  /** The loop of `dump` over ordinals 0 .. n-1, where `read(i)` is what
      `GetI(i)` returns and `writeFault(i)` what writing that record meets:
      stop at the first read failure; write each record read, carrying on
      past a failed write, so the error left at the end is the last
      write's. */
  method DumpRows(n: nat, read: nat -> Fetched, writeFault: nat -> Option<Error>)
    returns (writes: seq<Write>, err: Option<Error>)
    ensures |writes| <= n
    ensures forall i {:trigger writes[i]} :: 0 <= i < |writes| ==> Dumped(read(i), writeFault(i), writes[i])
    ensures |writes| < n ==> err.Some? && err == read(|writes|).err
    ensures n == 0 ==> err.None?
    ensures 0 < |writes| == n ==> err == writeFault(|writes| - 1)
  {
    writes, err := [], None;
    var i := 0;
    while i < n
      invariant 0 <= i <= n
      invariant |writes| == i
      invariant forall k {:trigger writes[k]} :: 0 <= k < i ==> Dumped(read(k), writeFault(k), writes[k])
      invariant i == 0 ==> err.None?
      invariant i > 0 ==> err == writeFault(i - 1)
    {
      var g := read(i);
      if g.err.Some? {
        return writes, g.err;
      }
      var (dir, file) := DumpPath(g.file.name);
      err := writeFault(i);
      ghost var before := writes;
      writes := writes + [Write(dir, file, g.file.data, err)];
      forall k {:trigger writes[k]} | 0 <= k < i
        ensures Dumped(read(k), writeFault(k), writes[k])
      {
        assert writes[k] == before[k];
      }
      i := i + 1;
    }
  }

  /** `dump`: fail if the database path does not exist or cannot be opened
      or counted; then run the loop over every ordinal below the count.
      `stat` is `os.Stat` of the path; `rowFault(i)` and `writeFault(i)` are
      what reading and writing record `i` meet. */
  method Dump(codec: Flate, c: Context, stat: Option<Error>, openFault: Option<Error>, t: Table,
              lenFault: Fault, rowFault: nat -> Fault, writeFault: nat -> Option<Error>)
    returns (writes: seq<Write>, err: Option<Error>)
    ensures stat.Some? ==> writes == [] && err == stat
    ensures !Prepared(c, stat, openFault, lenFault) ==> writes == [] && err.Some?
    ensures |writes| <= |t|
    ensures forall i {:trigger writes[i]} :: 0 <= i < |writes| ==>
      Dumped(GetI(codec, t, i, rowFault(i)), writeFault(i), writes[i])
    ensures Prepared(c, stat, openFault, lenFault) && |writes| < |t| ==>
      err.Some? && err == GetI(codec, t, |writes|, rowFault(|writes|)).err
    ensures Prepared(c, stat, openFault, lenFault) && |t| == 0 ==> err.None?
    ensures Prepared(c, stat, openFault, lenFault) && 0 < |writes| == |t| ==>
      err == writeFault(|writes| - 1)
  {
    if stat.Some? {
      return [], stat;
    }
    var store := Open(First(c), [], true, openFault, SchemaFaults(None, None, None));
    if store.err.Some? {
      assert !Prepared(c, stat, openFault, lenFault);
      return [], store.err;
    }
    var count := Len(t, lenFault);
    if count.err.Some? {
      assert !Prepared(c, stat, openFault, lenFault);
      return [], count.err;
    }
    writes, err := DumpRows(count.n, (i: nat) => GetI(codec, t, i, rowFault(i)), writeFault);
  }

  /** On a healthy database the dump writes every record, in table order,
      with its decompressed payload. */
  method DumpHealthy(codec: Flate, c: Context, t: Table)
    returns (writes: seq<Write>, err: Option<Error>)
    requires First(c) != ""
    ensures |writes| == |t|
    ensures forall i :: 0 <= i < |t| ==>
      && writes[i].data == ProcessFile(codec, t[i]).data
      && writes[i].dir + writes[i].file == Strings.TrimSuffix(Strings.TrimSpace(t[i].name), "/")
    ensures err.None?
  {
    writes, err := Dump(codec, c, None, None, t, Healthy, _ => Healthy, _ => None);
    forall i | 0 <= i < |t|
      ensures writes[i].data == ProcessFile(codec, t[i]).data
      ensures writes[i].dir + writes[i].file == Strings.TrimSuffix(Strings.TrimSpace(t[i].name), "/")
    {
      assert Dumped(GetI(codec, t, i, Healthy), None, writes[i]);
    }
  }
}
