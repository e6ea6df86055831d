/** The crawler behind `fbdb get` (src/get/wget.go) and the standalone
    fbdb-wget tool (fbdb-wget/wget.go). The two files hold the same per-job
    closure; this module models it once.

    The network, Tor, the plucker and the clock are outcomes supplied in a
    `JobWorld`. The worker pool is modelled as one worker taking the jobs in
    the order they were submitted. */
module Crawler {
  import opened Errors
  import Strings
  import Textproto
  import opened Codec
  import opened Records
  import opened Database
  import opened Store

  const SchemeSep := "://"
  const DefaultScheme := "https://"

  /** The database every crawl writes to. */
  const StoreName := "urls.db"

  /** The text that marks an error after which a worker restarts Tor. */
  const RestartTag := "restart tor"

  /** `Get` (and fbdb-wget's `wget`): the crawl's configuration. */
  datatype Config = Config(
    useTor: bool,
    noClobber: bool,
    fileWithList: string,
    url: string,
    cookies: string,
    headers: seq<string>,
    compressResults: bool,
    numWorkers: int,
    pluckerToml: string)

  /** `(p + u)` has `t` at `|p| + k` exactly when `u` has it at `k`. */
  lemma OccursAfterPrefix(p: string, u: string, t: string, k: int)
    requires 0 <= k
    ensures Strings.Occurs(p + u, t, |p| + k) <==> Strings.Occurs(u, t, k)
  {
    if k + |t| <= |u| {
      assert (p + u)[|p| + k..|p| + k + |t|] == u[k..k + |t|];
    }
  }

  /** A URL without a scheme is given "https://". */
  function Normalize(url: string): (r: string)
    ensures Strings.Contains(r, SchemeSep)
    ensures Strings.Contains(url, SchemeSep) ==> r == url
    ensures !Strings.Contains(url, SchemeSep) ==> r == DefaultScheme + url
  {
    if Strings.Contains(url, SchemeSep) then url
    else
      Strings.OccursContains(DefaultScheme + url, SchemeSep, 5);
      DefaultScheme + url
  }

  /** The storage key of a job: `strings.Split(url, "://")[1]` of the
      normalised URL. */
  function Key(url: string): (k: string)
    ensures !Strings.Contains(k, SchemeSep)
  {
    Strings.SecondField(Normalize(url), SchemeSep)
  }

  /** A URL given without a scheme is its own key. */
  lemma KeyOfBareUrl(url: string)
    requires !Strings.Contains(url, SchemeSep)
    ensures Normalize(url) == "https://" + url
    ensures Key(url) == url
  {
    var u := DefaultScheme + url;
    assert Strings.Occurs(u, SchemeSep, 5);
    Strings.OccursContains(u, SchemeSep, 5);
    var i := Strings.Index(u, SchemeSep).value;
    assert i <= 5;
    assert u[i] == ':';
    assert u[..8] == "https://";
    assert i == 5 by {
      assert u[i] == u[..8][i];
    }
    var k := Key(url);
    if 8 + |k| < |u| {
      OccursAfterPrefix(DefaultScheme, url, SchemeSep, |k|);
      Strings.OccursContains(url, SchemeSep, |k|);
    }
    assert u[8..] == url;
  }

  /** A request header as parsed from a `-H` entry, its name as written;
      `req.Header.Set` stores it under the canonical form of the name. */
  datatype Header = Header(name: string, value: string)

  /** One `-H` entry: skipped without ':'; otherwise the name is the trimmed
      text before the first ':' and the value the trimmed text between the
      first and the second ':' (anything after a second ':' is lost). */
  function ParseHeader(h: string): (r: Option<Header>)
    ensures r.None? <==> !Strings.Contains(h, ":")
    ensures r.Some? ==> r.value.name == Strings.TrimSpace(h[..Strings.Index(h, ":").value])
    ensures r.Some? ==> r.value.value == Strings.TrimSpace(Strings.SecondField(h, ":"))
  {
    if Strings.Contains(h, ":") then
      var hs := Strings.Split(h, ":");
      Some(Header(Strings.TrimSpace(hs[0]), Strings.TrimSpace(hs[1])))
    else None
  }

  predicate ColonFree(s: string)
  {
    forall k :: 0 <= k < |s| ==> s[k] != ':'
  }

  lemma ColonFreeIff(s: string)
    ensures ColonFree(s) <==> !Strings.Contains(s, ":")
  {
    if Strings.Contains(s, ":") {
      var i := Strings.Index(s, ":").value;
      assert s[i..i + 1] == ":";
      assert s[i] == ':';
    }
    if !ColonFree(s) {
      var k :| 0 <= k < |s| && s[k] == ':';
      assert s[k..k + 1] == ":";
      Strings.OccursContains(s, ":", k);
    }
  }

  /** The first ':' of `s` is at `n` when `s[n]` is one and none precedes it. */
  lemma FirstColon(s: string, n: nat)
    requires n < |s| && s[n] == ':' && ColonFree(s[..n])
    ensures Strings.Index(s, ":") == Some(n)
  {
    assert Strings.Occurs(s, ":", n) by {
      assert s[n..n + 1] == ":";
    }
    Strings.OccursContains(s, ":", n);
    var i := Strings.Index(s, ":").value;
    assert s[i] == ':' by {
      assert s[i..i + 1][0] == s[i];
    }
    assert i >= n by {
      assert forall k :: 0 <= k < n ==> s[..n][k] == s[k];
    }
  }

  /** An entry `name:value` or `name:value:more` parses to the trimmed name
      and value, whatever follows the second ':'. */
  lemma HeaderFields(name: string, value: string, more: string)
    requires ColonFree(name) && ColonFree(value)
    requires more == "" || more[0] == ':'
    ensures ParseHeader(name + ":" + value + more) ==
      Some(Header(Strings.TrimSpace(name), Strings.TrimSpace(value)))
  {
    var h := name + ":" + value + more;
    assert h[..|name|] == name;
    FirstColon(h, |name|);
    Strings.SecondFieldIsPiece(h, ":");
    assert h[|name| + 1..] == value + more;
    ValueBeforeColon(value, more);
  }

  /** A colon-free value followed by nothing or by a ':' is the first piece. */
  lemma ValueBeforeColon(value: string, more: string)
    requires ColonFree(value)
    requires more == "" || more[0] == ':'
    ensures Strings.FirstPiece(value + more, ":") == value
  {
    var rest := value + more;
    if more == "" {
      ColonFreeIff(value);
      assert rest == value;
    } else {
      assert rest[..|value|] == value;
      FirstColon(rest, |value|);
    }
  }

  /** The entries as parsed, in order. */
  function Parsed(entries: seq<string>): (r: seq<Option<Header>>)
    ensures |r| == |entries|
    ensures forall i :: 0 <= i < |entries| ==> r[i] == ParseHeader(entries[i])
  {
    seq(|entries|, i requires 0 <= i < |entries| => ParseHeader(entries[i]))
  }

  /** The key `req.Header.Set` stores header `h` under. */
  function KeyOf(h: Header): (k: string)
  {
    Textproto.CanonicalKey(h.name)
  }

  /** Parsed entry `p` is stored under key `n`. */
  predicate Names(p: Option<Header>, n: string)
  {
    p.Some? && KeyOf(p.value) == n
  }

  /** No parsed entry after position `i` names `n`. */
  predicate LastNaming(parsed: seq<Option<Header>>, n: string, i: int)
  {
    forall j :: 0 <= j < |parsed| && i < j ==> !Names(parsed[j], n)
  }

  /** The header map that `req.Header.Set` builds from the parsed entries in
      order: every well-formed entry's key is set, to the value of the last
      entry with that key, and nothing else is. */
  predicate SetsHeaders(parsed: seq<Option<Header>>, m: map<string, string>)
  {
    && (forall i :: 0 <= i < |parsed| && parsed[i].Some? ==> KeyOf(parsed[i].value) in m)
    && (forall i :: 0 <= i < |parsed| && parsed[i].Some? && LastNaming(parsed, KeyOf(parsed[i].value), i)
          ==> m[KeyOf(parsed[i].value)] == parsed[i].value.value)
    && (forall n :: n in m ==> exists i :: 0 <= i < |parsed| && Names(parsed[i], n))
  }

  /** Setting the parsed headers one after the other. */
  function SetAll(parsed: seq<Option<Header>>): (m: map<string, string>)
    ensures SetsHeaders(parsed, m)
    decreases |parsed|
  {
    if |parsed| == 0 then map[]
    else
      var front := parsed[..|parsed| - 1];
      var m := SetAll(front);
      match parsed[|parsed| - 1]
      case None =>
        SetAllSkip(parsed, m);
        m
      case Some(h) =>
        SetAllSet(parsed, m, h);
        m[KeyOf(h) := h.value]
  }

  lemma SetAllSkip(parsed: seq<Option<Header>>, m: map<string, string>)
    requires |parsed| > 0 && parsed[|parsed| - 1].None?
    requires SetsHeaders(parsed[..|parsed| - 1], m)
    ensures SetsHeaders(parsed, m)
  {
    var last := |parsed| - 1;
    var front := parsed[..last];
    assert forall i :: 0 <= i < last ==> front[i] == parsed[i];
    forall i | 0 <= i < |parsed| && parsed[i].Some? && LastNaming(parsed, KeyOf(parsed[i].value), i)
      ensures m[KeyOf(parsed[i].value)] == parsed[i].value.value
    {
      assert LastNaming(front, KeyOf(parsed[i].value), i);
    }
    forall n | n in m ensures exists i :: 0 <= i < |parsed| && Names(parsed[i], n) {
      var i :| 0 <= i < |front| && Names(front[i], n);
      assert Names(parsed[i], n);
    }
  }

  lemma SetAllSet(parsed: seq<Option<Header>>, m: map<string, string>, h: Header)
    requires |parsed| > 0 && parsed[|parsed| - 1] == Some(h)
    requires SetsHeaders(parsed[..|parsed| - 1], m)
    ensures SetsHeaders(parsed, m[KeyOf(h) := h.value])
  {
    var last := |parsed| - 1;
    var front := parsed[..last];
    var r := m[KeyOf(h) := h.value];
    assert forall i :: 0 <= i < last ==> front[i] == parsed[i];
    forall i | 0 <= i < |parsed| && parsed[i].Some? && LastNaming(parsed, KeyOf(parsed[i].value), i)
      ensures r[KeyOf(parsed[i].value)] == parsed[i].value.value
    {
      var n := KeyOf(parsed[i].value);
      if i < last {
        assert !Names(parsed[last], n);
        assert LastNaming(front, n, i);
      }
    }
    forall n | n in r ensures exists i :: 0 <= i < |parsed| && Names(parsed[i], n) {
      if n == KeyOf(h) {
        assert Names(parsed[last], n);
      } else {
        var i :| 0 <= i < |front| && Names(front[i], n);
        assert Names(parsed[i], n);
      }
    }
  }

  /** The headers set from the `-H` entries, in order: a later entry with
      the same name replaces an earlier one, and malformed entries are
      skipped. */
  function SetHeaders(entries: seq<string>): (m: map<string, string>)
    ensures SetsHeaders(Parsed(entries), m)
  {
    SetAll(Parsed(entries))
  }

  /** The request's headers: the `-H` entries, then "Cookie" when cookies
      were given. "Cookie" is already canonical, so it is stored as written. */
  function RequestHeaders(entries: seq<string>, cookies: string): (m: map<string, string>)
    ensures cookies != "" ==> "Cookie" in m && m["Cookie"] == cookies
    ensures forall n :: n != "Cookie" || cookies == "" ==>
      (n in m <==> n in SetHeaders(entries)) && (n in m ==> m[n] == SetHeaders(entries)[n])
  {
    var m := SetHeaders(entries);
    if cookies != "" then m["Cookie" := cookies] else m
  }

  /** Every key of the request's header map is canonical: entries naming
      the same header in different cases land on one key. */
  lemma HeaderKeysCanonical(entries: seq<string>, cookies: string)
    ensures forall n :: n in RequestHeaders(entries, cookies) ==> Textproto.CanonicalKey(n) == n
  {
    var m := RequestHeaders(entries, cookies);
    var headers := SetHeaders(entries);
    SetKeysCanonical(Parsed(entries), headers);
    Textproto.CookieCanonical();
    forall n | n in m ensures Textproto.CanonicalKey(n) == n {
      if n != "Cookie" {
        assert n in headers;
      }
    }
  }

  lemma SetKeysCanonical(parsed: seq<Option<Header>>, m: map<string, string>)
    requires SetsHeaders(parsed, m)
    ensures forall n :: n in m ==> Textproto.CanonicalKey(n) == n
  {
    forall n | n in m ensures Textproto.CanonicalKey(n) == n {
      var i :| 0 <= i < |parsed| && Names(parsed[i], n);
      Textproto.CanonicalKeyIdempotent(parsed[i].value.name);
    }
  }

  /** A `-H "cookie: …"` entry, in whatever case, is stored under the same
      key as the cookies, so given cookies replace it and no second cookie
      header remains. */
  lemma CookieEntryReplaced(name: string, value: string, cookies: string)
    requires Textproto.SameUpToCase(name, "cookie") && ColonFree(value)
    requires cookies != ""
    ensures RequestHeaders([name + ":" + value], cookies) == map["Cookie" := cookies]
  {
    CookieEntrySet(name, value);
  }

  lemma CookieEntrySet(name: string, value: string)
    requires Textproto.SameUpToCase(name, "cookie") && ColonFree(value)
    ensures SetHeaders([name + ":" + value]) == map["Cookie" := Strings.TrimSpace(value)]
  {
    var h := Header(name, Strings.TrimSpace(value));
    assert Parsed([name + ":" + value]) == [Some(h)] by {
      CookieHeaderParses(name, value);
    }
    assert KeyOf(h) == "Cookie" by {
      Textproto.CookieKey(name);
    }
    SetOneHeader(h);
  }

  lemma SetOneHeader(h: Header)
    ensures SetAll([Some(h)]) == map[KeyOf(h) := h.value]
  {
    assert [Some(h)][..0] == [];
  }

  lemma CookieHeaderParses(name: string, value: string)
    requires Textproto.SameUpToCase(name, "cookie") && ColonFree(value)
    ensures ParseHeader(name + ":" + value) == Some(Header(name, Strings.TrimSpace(value)))
  {
    forall k | 0 <= k < |name| ensures name[k] != ':' {
      assert Textproto.Lower(name[k]) == Textproto.Lower("cookie"[k]);
    }
    assert Textproto.Lower(name[0]) == 'c' && Textproto.Lower(name[5]) == 'e';
    Strings.TrimSpaceKeeps(name);
    HeaderFields(name, value, "");
    assert name + ":" + value + "" == name + ":" + value;
  }

  /** The statuses after which a job gives up. */
  predicate Blocked(status: int)
  {
    status == 503 || status == 403
  }

  /** The text of a blocked status's error: "received", the code, "code". */
  function StatusText(status: int): (s: string)
    requires Blocked(status)
  {
    if status == 503 then "received 503 code" else "received 403 code"
  }

  /** The error for a blocked status, tagged for a Tor restart when Tor is on. */
  function StatusError(status: int, useTor: bool): (e: Error)
    requires Blocked(status)
    ensures Message(e) == (if useTor then RestartTag + ": " else "") + StatusText(status)
  {
    var e := Cause(StatusText(status));
    if useTor then Wrapped(RestartTag, e) else e
  }

  /** The worker restarts its Tor connection after an error whose text
      contains "restart tor". */
  predicate RestartsTor(err: Option<Error>)
  {
    err.Some? && Strings.Contains(Message(err.value), RestartTag)
  }

  /** A blocked status restarts Tor exactly when Tor is in use. */
  lemma BlockedRestartsIffTor(status: int, useTor: bool)
    requires Blocked(status)
    ensures RestartsTor(Some(StatusError(status, useTor))) <==> useTor
  {
    var s := StatusText(status);
    if useTor {
      assert Message(StatusError(status, useTor)) == RestartTag + (": " + s);
      Strings.ContainsPrefix(RestartTag, ": " + s);
    } else {
      assert |s| == 17 && RestartTag[7] == ' ' && RestartTag[8] == 't';
      forall j | 0 <= j <= 6 ensures !Strings.Occurs(s, RestartTag, j) {
        if j == 1 || j == 5 {
          assert s[j + 8] != 't';
          Strings.MismatchNotOccurs(s, RestartTag, j, 8);
        } else {
          assert s[j + 7] != ' ';
          Strings.MismatchNotOccurs(s, RestartTag, j, 7);
        }
      }
      assert forall j :: !Strings.Occurs(s, RestartTag, j);
    }
  }

  /** What the HTTP client returns: no response, or a status and the body
      read (or the read's failure). */
  datatype Reply = NoReply(cause: Error) | Reply(status: int, body: Result<Bytes>)

  /** What the plucker does with a body. */
  datatype Pluck = LoadFails(cause: Error) | StreamFails(cause: Error) | Plucked(json: Bytes)

  /** Everything one job learns from outside: the store's answer to the
      no-clobber query, whether the request can be built, the reply, the
      plucker's result, the save, and the clock. */
  datatype JobWorld = JobWorld(
    existsFault: Fault,
    requestFault: Option<Error>,
    reply: Reply,
    pluck: Pluck,
    saveFault: SaveFault,
    now1: int,
    now2: int)

  datatype Request = Request(url: string, headers: map<string, string>)

  datatype JobResult = JobResult(table: Table, err: Option<Error>, request: Option<Request>)

  /** The plucked JSON holds a '{' byte. */
  predicate HasObject(json: Bytes)
  {
    123 in json
  }

  /** The store handle a crawl opens: "urls.db", compressing when asked. */
  function CrawlStore(cfg: Config): (fs: FileSystem)
    ensures fs.name == StoreName && fs.doCompression == cfg.compressResults
    ensures fs.encryptPassphrase == ""
  {
    Configure(ZeroFileSystem.(name := StoreName), [OptionCompress(cfg.compressResults)])
  }

  /** The job goes past the no-clobber check. */
  predicate PassesNoClobber(cfg: Config, t: Table, url: string, w: JobWorld)
  {
    !cfg.noClobber || (w.existsFault.Healthy? && Lookup(t, Key(url)).None?)
  }

  /** The bytes a sent request yields for saving: the body, or with a
      plucker its JSON result, which must hold a '{'. */
  function Payload(cfg: Config, w: JobWorld): (r: Result<Bytes>)
    ensures w.reply.NoReply? ==> r == Fail(Wrapped("bad do", w.reply.cause))
    ensures w.reply.Reply? && Blocked(w.reply.status) ==>
      r == Fail(StatusError(w.reply.status, cfg.useTor))
    ensures r.Ok? <==>
      (&& w.reply.Reply? && !Blocked(w.reply.status) && w.reply.body.Ok?
       && (cfg.pluckerToml != "" ==> w.pluck.Plucked? && HasObject(w.pluck.json)))
    ensures r.Ok? && cfg.pluckerToml == "" ==> r.value == w.reply.body.value
    ensures r.Ok? && cfg.pluckerToml != "" ==> r.value == w.pluck.json
    ensures
      (&& w.reply.Reply? && !Blocked(w.reply.status) && w.reply.body.Ok?
       && cfg.pluckerToml != "" && w.pluck.Plucked? && !HasObject(w.pluck.json)) ==>
      r == Fail(Cause("could not get anything"))
  {
    match w.reply
    case NoReply(e) => Fail(Wrapped("bad do", e))
    case Reply(status, body) =>
      if Blocked(status) then Fail(StatusError(status, cfg.useTor))
      else if body.Fail? then Fail(body.error)
      else if cfg.pluckerToml == "" then body
      else
        match w.pluck
        case LoadFails(e) => Fail(e)
        case StreamFails(e) => Fail(e)
        case Plucked(json) =>
          if HasObject(json) then Ok(json) else Fail(Cause("could not get anything"))
  }

  /** One job: normalise the URL, skip it under no-clobber when its key is
      stored, send the request, check the status, pluck if asked, and save
      the result under the key. */
  function RunJob(codec: Flate, cfg: Config, t: Table, url: string, w: JobWorld): (r: JobResult)
    ensures r.request.Some? <==> PassesNoClobber(cfg, t, url, w) && w.requestFault.None?
    ensures r.request.Some? ==>
      r.request.value == Request(Normalize(url), RequestHeaders(cfg.headers, cfg.cookies))
    ensures cfg.noClobber && w.existsFault.Healthy? && Lookup(t, Key(url)).Some? ==>
      r == JobResult(t, None, None)
    ensures r.err.Some? || r.request.None? ==> r.table == t
    ensures r.request.Some? && Payload(cfg, w).Fail? ==> r.err == Some(Payload(cfg, w).error)
    ensures r.request.Some? && Payload(cfg, w).Ok? ==>
      r == JobResult(Save(t, NewFile(codec, CrawlStore(cfg), Key(url), Payload(cfg, w).value,
                                     w.now1, w.now2), w.saveFault).table,
                     Save(t, NewFile(codec, CrawlStore(cfg), Key(url), Payload(cfg, w).value,
                                     w.now1, w.now2), w.saveFault).err,
                     r.request)
  {
    var u := Normalize(url);
    var key := Key(url);
    var present := if cfg.noClobber then Exists(t, key, w.existsFault) else Existence(false, None);
    if present.err.Some? then JobResult(t, present.err, None)
    else if present.present then JobResult(t, None, None)
    else if w.requestFault.Some? then JobResult(t, Some(Wrapped("bad request", w.requestFault.value)), None)
    else
      var req := Request(u, RequestHeaders(cfg.headers, cfg.cookies));
      match Payload(cfg, w)
      case Fail(e) => JobResult(t, Some(e), Some(req))
      case Ok(data) =>
        var f := NewFile(codec, CrawlStore(cfg), key, data, w.now1, w.now2);
        var saved := Save(t, f, w.saveFault);
        JobResult(saved.table, saved.err, Some(req))
  }

  /** A job that fetches a payload and saves it stores that payload under
      its key: reading it back gives the bytes fetched. */
  lemma JobStoresPayload(codec: Flate, cfg: Config, t: Table, url: string, w: JobWorld)
    requires Lossless(codec)
    requires PassesNoClobber(cfg, t, url, w) && w.requestFault.None?
    requires Payload(cfg, w).Ok? && w.saveFault.Saved?
    ensures var r := RunJob(codec, cfg, t, url, w);
      && r.err.None?
      && Exists(r.table, Key(url), Healthy).present
      && Get(codec, r.table, Key(url), Healthy).file.data == Payload(cfg, w).value
  {
    SaveThenGet(codec, CrawlStore(cfg), t, Key(url), Payload(cfg, w).value, w.now1, w.now2);
  }

  /** Under no-clobber a job run again after it saved is skipped: no request
      and the table left as it was. */
  lemma NoClobberRerunSkips(codec: Flate, cfg: Config, t: Table, url: string, w: JobWorld, w2: JobWorld)
    requires cfg.noClobber
    requires PassesNoClobber(cfg, t, url, w) && w.requestFault.None?
    requires Payload(cfg, w).Ok? && w.saveFault.Saved?
    requires w2.existsFault.Healthy?
    ensures var t1 := RunJob(codec, cfg, t, url, w).table;
      RunJob(codec, cfg, t1, url, w2) == JobResult(t1, None, None)
  {
    var f := NewFile(codec, CrawlStore(cfg), Key(url), Payload(cfg, w).value, w.now1, w.now2);
    assert Lookup(Save(t, f, Saved).table, Key(url)).Some?;
  }

  /** The report a worker sends for one job: the URL as submitted (the
      closure normalises its own copy) and the job's error. */
  datatype Outcome = Outcome(url: string, err: Option<Error>)

  /** The URLs a crawl submits: one per line of the list file, trimmed, or
      the single URL. */
  function Jobs(cfg: Config, lines: seq<string>): (urls: seq<string>)
    ensures cfg.fileWithList != "" ==>
      (&& |urls| == |lines|
       && forall i :: 0 <= i < |lines| ==> urls[i] == Strings.TrimSpace(lines[i]))
    ensures cfg.fileWithList == "" ==> urls == [cfg.url]
  {
    if cfg.fileWithList != "" then seq(|lines|, i requires 0 <= i < |lines| => Strings.TrimSpace(lines[i]))
    else [cfg.url]
  }

  /** The jobs run one after the other from table `t`, `step(t, url, i)`
      being what job `i` does to table `t`: the table they leave and one
      outcome per URL, in submission order. */
  function RunSteps(step: (Table, string, nat) -> JobResult, t: Table, urls: seq<string>, from: nat)
    : (r: (Table, seq<Outcome>))
    ensures |r.1| == |urls|
    ensures forall k :: 0 <= k < |urls| ==> r.1[k].url == urls[k]
    decreases |urls|
  {
    if |urls| == 0 then (t, [])
    else
      var job := step(t, urls[0], from);
      var rest := RunSteps(step, job.table, urls[1..], from + 1);
      (rest.0, [Outcome(urls[0], job.err)] + rest.1)
  }

  /** The crawl's jobs in sequence, job `k` meeting `world(from + k)`. */
  function RunJobs(codec: Flate, cfg: Config, t: Table, urls: seq<string>, world: nat -> JobWorld,
                   from: nat): (r: (Table, seq<Outcome>))
    ensures |r.1| == |urls|
    ensures forall k :: 0 <= k < |urls| ==> r.1[k].url == urls[k]
  {
    RunSteps((before: Table, u: string, i: nat) => RunJob(codec, cfg, before, u, world(i)), t, urls, from)
  }

  /** Running the steps from position `i` is running step `i`, giving `job`,
      then the rest from the table it leaves; `done` holds the outcomes
      before `i`. */
  lemma RunStepsStep(step: (Table, string, nat) -> JobResult, t: Table, urls: seq<string>,
                     i: nat, done: seq<Outcome>, job: JobResult)
    requires i < |urls| && job == step(t, urls[i], i)
    ensures var here, rest := RunSteps(step, t, urls[i..], i), RunSteps(step, job.table, urls[i + 1..], i + 1);
      (here.0, done + here.1) == (rest.0, (done + [Outcome(urls[i], job.err)]) + rest.1)
  {
    assert urls[i..][1..] == urls[i + 1..];
    var rest := RunSteps(step, job.table, urls[i + 1..], i + 1);
    assert done + ([Outcome(urls[i], job.err)] + rest.1) == (done + [Outcome(urls[i], job.err)]) + rest.1;
  }

  /** The crawl loop: each job in turn, on the table the previous one left. */
  method RunLoop(step: (Table, string, nat) -> JobResult, t: Table, urls: seq<string>)
    returns (t': Table, outcomes: seq<Outcome>)
    ensures (t', outcomes) == RunSteps(step, t, urls, 0)
  {
    t', outcomes := t, [];
    var i := 0;
    ghost var all := RunSteps(step, t, urls, 0);
    assert urls[0..] == urls;
    assert all.1 == outcomes + all.1;
    while i < |urls|
      invariant 0 <= i <= |urls|
      invariant all == (RunSteps(step, t', urls[i..], i).0, outcomes + RunSteps(step, t', urls[i..], i).1)
    {
      var r := step(t', urls[i], i);
      RunStepsStep(step, t', urls, i, outcomes, r);
      outcomes := outcomes + [Outcome(urls[i], r.err)];
      t' := r.table;
      i := i + 1;
    }
    assert urls[i..] == [];
    assert outcomes + [] == outcomes;
  }

  /** `start`: submit the jobs and collect one outcome per job. `list` is
      the list file's lines, or the failure to read it; `world(i)` is what
      job `i` meets. */
  method Start(codec: Flate, cfg: Config, t: Table, list: Result<seq<string>>, world: nat -> JobWorld)
    returns (t': Table, outcomes: seq<Outcome>, err: Option<Error>)
    ensures cfg.fileWithList != "" && list.Fail? ==> t' == t && outcomes == [] && err == Some(list.error)
    ensures err.None? <==> cfg.fileWithList == "" || list.Ok?
    ensures err.None? ==>
      (t', outcomes) == RunJobs(codec, cfg, t, Jobs(cfg, if list.Ok? then list.value else []), world, 0)
  {
    if cfg.fileWithList != "" && list.Fail? {
      return t, [], Some(list.error);
    }
    var urls := Jobs(cfg, if list.Ok? then list.value else []);
    t', outcomes := RunLoop((before: Table, u: string, i: nat) => RunJob(codec, cfg, before, u, world(i)), t, urls);
    err := None;
  }

  /** A crawl of one URL that fetches a payload and saves it reports that
      URL without error and leaves the payload readable under its key. */
  lemma SingleUrlCrawlStores(codec: Flate, cfg: Config, t: Table, lines: seq<string>, world: nat -> JobWorld)
    requires Lossless(codec)
    requires cfg.fileWithList == ""
    requires PassesNoClobber(cfg, t, cfg.url, world(0)) && world(0).requestFault.None?
    requires Payload(cfg, world(0)).Ok? && world(0).saveFault.Saved?
    ensures var r := RunJobs(codec, cfg, t, Jobs(cfg, lines), world, 0);
      && r.1 == [Outcome(cfg.url, None)]
      && Get(codec, r.0, Key(cfg.url), Healthy).file.data == Payload(cfg, world(0)).value
  {
    var job := RunJob(codec, cfg, t, cfg.url, world(0));
    JobStoresPayload(codec, cfg, t, cfg.url, world(0));
    assert RunJobs(codec, cfg, job.table, [], world, 1) == (job.table, []);
    assert [cfg.url][1..] == [];
  }

  /** `Run`: fewer than one worker is refused before anything starts. */
  method Run(codec: Flate, cfg: Config, t: Table, list: Result<seq<string>>, world: nat -> JobWorld)
    returns (t': Table, outcomes: seq<Outcome>, err: Option<Error>)
    ensures cfg.numWorkers < 1 ==>
      t' == t && outcomes == [] && err == Some(Cause("cannot have less than 1 worker"))
    ensures cfg.numWorkers >= 1 ==> (err.None? <==> cfg.fileWithList == "" || list.Ok?)
    ensures cfg.numWorkers >= 1 && err.None? ==>
      (t', outcomes) == RunJobs(codec, cfg, t, Jobs(cfg, if list.Ok? then list.value else []), world, 0)
  {
    if cfg.numWorkers < 1 {
      return t, [], Some(Cause("cannot have less than 1 worker"));
    }
    t', outcomes, err := Start(codec, cfg, t, list, world);
  }
}
