# fbdb in Dafny

A model of fbdb, a file store kept in one SQLite table. The model covers the
following parts:

- **The store** (fbdb.go).
  - `Open` takes options and creates the schema for a new file.
  - `NewFile` optionally compresses the payload.
  - `Save` is an upsert on the name.
  - The readers are `Get`, `GetI`, `Len` and `Exists`.
  - `ProcessFile` decompresses a record.
  - Rows are streamed by `GetAll` and `Pipeline`.
- **The lock-guarded transaction wrapper** (sqlite3fs.go): `New`,
  `startTransaction` and `finishTransaction`.
- **The web crawler.** Its per-URL job and its job loop live in src/get/wget.go,
  with the same code again in fbdb-wget/wget.go.
- **The command lines.** These are `fbdb get` and `fbdb dump` (src/cli/cli.go)
  and the tools fbdb-wget and fbdb-dump.

Modules, one per file, in dependency order:

- `Errors`: `Option`, `Result`, and errors with `errors.Wrap` contexts.
- `Codec`: the DEFLATE codec as a pair of functions. `Lossless` is the
  round-trip hypothesis.
- `Records`: `File`, `FileSystem`, options, `Open`, `NewFile` and `ProcessFile`.
- `Database`: the `fs` table as a sequence of rows with unique names.
  - `Upsert` models `INSERT OR REPLACE`.
  - `Execute` runs a query against injected driver faults.
- `Store`: `Save`, `Get`, `Exists`, `GetI` and `Len`.
- `Stream`: `GetAll` and `Pipeline`.
- `Transaction`: sqlite3fs.go.
- `Strings`, `Path` and `Textproto`: the parts of Go's `strings`, `path` and
  `net/textproto` that the code relies on.
- `Crawler`: the job closure and `start`/`Run`.
- `Cli`: `runget` and `dump`.
- `Tools`: fbdb-wget's action and fbdb-dump.

Everything outside the program is a parameter:

- the file system (`os.Stat`, reads and writes);
- the SQLite driver (a `Fault` per call);
- the clock (two readings per `NewFile`);
- the HTTP reply and the plucker (a `JobWorld` per job);
- the lock (its outcome).

## Model

| member | source | states |
|---|---|---|
| Records.Configure | fbdb.go:51-55 | options apply in order, so the last `OptionCompress` decides compression; name, read-only flag and passphrase are untouched |
| Records.InitializeDb | fbdb.go:459-498 | every schema statement runs and each assigns the same error variable, so the result is exactly the last statement's (the groups table's) error wrapped "creating table"; an earlier failure followed by a successful last statement reports success |
| Records.Open | fbdb.go:58-85 | an empty name fails with "database must have name"; otherwise the options are applied; the schema is attempted exactly for a missing file that opened; the result succeeds exactly when the open succeeded and the file existed or the last schema statement succeeded |
| Records.NewFile | fbdb.go:107-128 | default permissions 0644, no owner, the two clock readings, size equal to the stored data, payload compressed exactly when the store compresses, encrypted flag exactly when a passphrase is set |
| Records.ProcessFile | fbdb.go:270-279 | only the payload and the size can change, and an uncompressed record is unchanged; a compressed record's size is the length of its new payload, and under a lossless codec its payload is the one that was compressed |
| Records.NewFileRoundTrip | fbdb.go:107-128 | under a lossless codec, processing a new record gives back exactly the payload given to `NewFile`, whether or not the store compresses |
| Database.Upsert | fbdb.go:141 | the saved name now holds the new row, every other name keeps its row, the count grows exactly when the name was new, and the new row is last in scan order |
| Database.Execute | fbdb.go:414-457 | the rows read are a prefix of the selection; there is an error exactly when the query is malformed or the driver fails; each failure carries the wrapping of its step ("preparing query", the query text, "getRows") |
| Store.Save | fbdb.go:131-194 | a save that succeeds stores the file under its name and changes no other name, and the count grows exactly when the name was new; a failed step leaves the table unchanged and returns the driver's error wrapped with that step's name ("begin Save", "stmt Save", "exec Save", "commit Save") |
| Store.Get | fbdb.go:253-268 | a name absent from the table gives "no files with that name" whatever the driver says; a present name with a healthy driver gives the processed row; success implies the returned record has that name |
| Store.Exists | fbdb.go:282-294 | with a healthy driver, the answer is whether the name is in the table; a positive answer always means it is there; an error occurs exactly when the driver fails |
| Store.GetI | fbdb.go:197-214 | ordinal `i` of the scan order, processed; past the end gives "no files"; a negative ordinal reads the first row |
| Store.Len | fbdb.go:217-250 | with a healthy driver the count is the number of rows; any driver failure is an error |
| Store.OpenThenSaveGet | fbdb.go:58-128 | a store opened with `OptionCompress(b)` has that name, makes records compressed exactly when `b`, and a record saved through it reads back with the payload given |
| Store.SaveThenGet | fbdb_test.go:176-201 | after saving a new record, `Get` of its name returns the original payload without error, and `Exists` of that name is true |
| Store.SaveTwice | fbdb.go:141 | a second save under the same name keeps the row count of the first, and `Get` then returns the second payload |
| Store.Absence | fbdb_test.go:190-192 | for a name that was never saved, `Exists` says false without error and `Get` says "no files with that name" |
| Store.SaveDistinctCount | fbdb.go:131-194 | saving files with distinct new names adds exactly one row each, and every one of them can be looked up afterwards |
| Store.OrdinalsCoverTable | fbdb.go:197-250 | `Len` counts the rows, ordinals 0 to `Len`-1 read every row in scan order, and ordinal `Len` reads "no files" |
| Stream.GetAll | fbdb.go:298-345 | the callback sees a decompressed prefix of the rows in scan order; the first row it accepts ends the run with no error; otherwise every row is seen and the cursor's error is returned |
| Stream.Pipeline | fbdb.go:348-412 | the consumer gets the decoded rows up to its cancellation point and at most one error; the producer blocks for good exactly when the consumer cancels after the last row and the scan then fails |
| Stream.PipelineIntended | fbdb.go:397-402 | with the error send guarded like the record send, the same records and errors are delivered and the producer always finishes |
| Stream.StreamBadQuery | fbdb_test.go:107-135 | a query SQLite cannot prepare yields no record and exactly one error: the driver's complaint wrapped "preparing query: " and the query text |
| Stream.StreamLimitTen | fbdb_test.go:56-88 | `LIMIT 10` over at least ten rows yields exactly the first ten rows, decoded, with no error, and both channels close |
| Stream.StreamCancelAfterSix | fbdb_test.go:136-174 | a consumer that cancels on the sixth record has received exactly six records and no error |
| Stream.StreamStuckAfterCancel | fbdb.go:403-406 | a cancellation after the last record scanned, followed by a scan failure, leaves the producer blocked on the error send |
| Stream.StreamIntendedAfterCancel | fbdb.go:397-402 | the same run against the guarded error send finishes |
| Transaction.ReadOnly | sqlite3fs.go:47-51 | the last `OptionReadOnly` decides; with no option the store is writable |
| Transaction.LockFor | sqlite3fs.go:71-75 | the lock file is the database name with ".lock" appended, polled every millisecond with a 30-second timeout |
| Transaction.New | sqlite3fs.go:54-78 | an empty name fails; a read-only store whose file is missing fails with no lock; any other store gets its lock, and the stat error of a missing file is still returned |
| Transaction.NewIntended | sqlite3fs.go:65-69 | an error occurs exactly for an empty name or a missing read-only file; otherwise the lock is configured |
| Transaction.NewFreshPath | sqlite3fs.go:65-69 | creating a writable store at a missing path returns the stat error as written, and no error as intended |
| Transaction.StartTransaction | sqlite3fs.go:90-117 | a lock failure returns before anything else; after locking, the handle is nil exactly when the open fails; the schema is attempted exactly for a missing file that opened; success leaves the lock held and the handle live |
| Transaction.FinishTransaction | sqlite3fs.go:80-88 | a nil handle panics in `Close` and leaves the lock as it was; otherwise the handle is closed, the lock stays held only if it was held and the unlock failed, and the close error takes precedence over the unlock error |
| Transaction.TransactionCycle | sqlite3fs.go:80-117 | a start that succeeds, followed by a finish that succeeds, leaves the lock free and the handle closed |
| Transaction.OpenFailureLeaksLock | sqlite3fs.go:104-107 | after the open fails, finishing panics with the lock still held, whatever close and unlock would return |
| Transaction.SchemaFailureRecovery | sqlite3fs.go:110-115 | after the schema fails on an open handle, finishing releases the lock even when close fails, and reports the close error |
| Strings.Split | src/get/wget.go:194 | the pieces joined by the separator give back the input, and no piece contains the separator; there are at least two pieces exactly when the separator occurs, and the first piece is the text before its first occurrence |
| Strings.SecondField | src/get/wget.go:171 | the second piece of `Split` is separator-free |
| Strings.SecondFieldPosition | src/get/wget.go:171 | the second piece is the text right after the first separator, and it runs to the end of the input or to the next separator |
| Strings.TrimSpace | src/get/wget.go:195 | the result is the input without its leading and trailing white space; it neither starts nor ends with white space |
| Strings.TrimSpaceIdempotent | src/get/wget.go:355 | trimming twice is trimming once |
| Strings.TrimSuffix | src/cli/cli.go:178 | with the suffix present, the result followed by the suffix is the input; otherwise the input is unchanged |
| Path.Split | fbdb-dump/main.go:43 | directory followed by file is the path; the file part has no '/'; the directory is empty or ends in '/' |
| Path.SplitUnique | fbdb-dump/main.go:43 | any split with those three properties is the one `path.Split` returns |
| Textproto.CanonicalKey | src/get/wget.go:195 | only the case of letters changes; a key of token characters has no lower-case letter where a word starts and no upper-case letter elsewhere; any other key is kept |
| Textproto.CanonicalKeyIgnoresCase | src/get/wget.go:195 | token keys that differ only in letter case are stored under one key |
| Textproto.CanonicalKeyIdempotent | src/get/wget.go:195 | canonicalising a canonical key changes nothing |
| Textproto.CookieKey | src/get/wget.go:200 | every spelling of "cookie" is stored as "Cookie" |
| Crawler.Normalize | src/get/wget.go:167-169 | a URL with "://" is kept; any other gets "https://" in front; the result always has a scheme |
| Crawler.Key | src/get/wget.go:171 | the record name holds no "://"; it is the second "://"-separated piece of the normalised URL, placed as `Strings.SecondFieldPosition` states |
| Crawler.KeyOfBareUrl | src/get/wget.go:167-171 | a URL without a scheme is fetched as "https://" followed by the URL, and is stored under the URL as given |
| Crawler.ParseHeader | src/get/wget.go:193-195 | an entry without ':' is skipped; otherwise the name is the trimmed text before the first ':' and the value the trimmed text between it and the next ':' |
| Crawler.HeaderFields | src/get/wget.go:193-195 | for `name:value` with colon-free parts, anything after a further ':' is dropped from the value |
| Crawler.SetHeaders | src/get/wget.go:191-198 | every canonical key in the map comes from some entry; each key holds the value of the last entry that names it |
| Crawler.RequestHeaders | src/get/wget.go:191-201 | a non-empty cookie string is sent as "Cookie" and overrides any header of that name; every other key holds the value `SetHeaders` gives it |
| Crawler.HeaderKeysCanonical | src/get/wget.go:195-200 | every key the request carries is canonical |
| Crawler.CookieEntryReplaced | src/get/wget.go:191-201 | a `-H` entry naming "cookie" in any case is replaced by the cookie string, so only one Cookie header is sent |
| Crawler.StatusError | src/get/wget.go:210-216 | the error text of a 503 or 403 reply is "received N code", preceded by "restart tor: " exactly when Tor is used |
| Crawler.BlockedRestartsIffTor | src/get/wget.go:210-216 | a blocked reply's error mentions "restart tor" exactly when Tor is used |
| Crawler.CrawlStore | src/get/wget.go:309 | the crawl stores into "urls.db", compressing exactly when asked |
| Crawler.Payload | src/get/wget.go:202-241 | no reply is "bad do"; a blocked status is the status error; otherwise the body is the payload when nothing is plucked, and when plucking it is the plucked JSON, which must hold a '{' |
| Crawler.RunJob | src/get/wget.go:165-253 | a request is made exactly when no-clobber lets the job through and the request builds; an existing key under no-clobber is a silent skip; a failure leaves the table unchanged; a payload is saved under the key |
| Crawler.JobStoresPayload | src/get/wget.go:244-252 | a job that fetches and saves leaves its payload readable under its key |
| Crawler.NoClobberRerunSkips | src/get/wget.go:173-183 | under no-clobber, a job run again after it saved makes no request and changes nothing |
| Crawler.Jobs | src/get/wget.go:342-368 | a list file gives one job per line, trimmed, in order; otherwise the one URL |
| Crawler.RunJobs | src/get/wget.go:373-378 | one outcome per job, reporting that job's URL as submitted |
| Crawler.RunLoop | src/get/wget.go:163-257 | the loop's table and outcomes are those of running the jobs in turn, each on the table the previous one left |
| Crawler.Start | src/get/wget.go:295-381 | an unreadable list aborts with its error and nothing run; otherwise every job runs in order, threading the table, with one outcome each |
| Crawler.SingleUrlCrawlStores | src/get/wget.go:364-368 | crawling one URL that fetches and saves reports that URL without error and leaves the payload readable under its key |
| Crawler.Run | src/get/wget.go:87-92 | fewer than one worker is refused before any job runs; otherwise the result is that of `start` |
| Cli.Runget | src/cli/cli.go:119-152 | a positional URL wins over `--list`, else "need to specify URL"; then the worker check, then the pluck file; compression comes from the flag named "compress" |
| Cli.RungetIgnoresCompressed | src/cli/cli.go:138 | no command line `get` accepts can turn compression on |
| Cli.RungetIntended | src/cli/cli.go:82 | reading the declared "compressed" flag gives the same accept or reject decision and compresses exactly when that flag is given |
| Cli.RungetIntendedCompresses | src/cli/cli.go:82 | with `--compressed`, the intended reading compresses and the written one does not |
| Cli.GetCommand | src/cli/cli.go:151 | a rejected command line returns its error without crawling; otherwise the crawl reports one outcome per job |
| Cli.DumpPath | src/cli/cli.go:178 | the name is trimmed and loses one trailing '/', and is then split after its last '/' |
| Cli.DumpPathDropsTrailingSlash | src/cli/cli.go:178 | a name ending in '/' is written as the file before that slash |
| Cli.DumpRows | src/cli/cli.go:171-185 | ordinals are read in ascending order and the first read error stops the loop with that error; a failed write does not stop it, and after every record the error returned is the last write's |
| Cli.Dump | src/cli/cli.go:154-187 | a missing path, a failed open or a failed count aborts with nothing written; otherwise the loop runs over every ordinal below the count |
| Cli.DumpHealthy | src/cli/cli.go:154-187 | with nothing failing, every record is written once, with its processed data, at its trimmed name |
| Tools.WgetAction | fbdb-wget/wget.go:46-79 | the same checks as `runget`, in the same order; compression comes from the declared "compress" flag |
| Tools.WgetCompresses | fbdb-wget/wget.go:65 | `--compress` makes fbdb-wget's store compress, while `get` does not know that flag |
| Tools.Wget | fbdb-wget/wget.go:46-79 | a rejected command line returns its error; a single URL gives one outcome for that URL; an unreadable list aborts with its error |
| Tools.DumpRows | fbdb-dump/main.go:37-50 | ordinals are read in ascending order; the first failed read or write stops the loop with that error; each record is written at `path.Split` of its stored name |
| Tools.Dump | fbdb-dump/main.go:24-52 | a missing path, a failed open or a failed count aborts with nothing written; otherwise the loop runs over every ordinal below the count |
| Tools.TrailingSlashKept | fbdb-dump/main.go:43 | a name ending in '/' is split as a directory with an empty file name |
| Tools.DumpPoliciesDiffer | fbdb-dump/main.go:46-49 | when only the first write fails, `fbdb dump` writes every record and reports no error, while fbdb-dump stops after the first |

## Left out

- **Concurrency.**
  - The RWMutex around `Save` and `Exists` is not modelled.
  - `Pipeline`'s goroutine runs as a sequential producer, and the consumer is one fixed strategy: it reads until it cancels.
  - The crawler's worker pool runs as one worker in submission order, so races between workers under no-clobber, and the order in which results arrive, are not modelled.
- **Codec.** DEFLATE is two total functions, taken to be mutual inverses (`Lossless`) wherever a round trip is claimed. Decompression errors are discarded by the source (fbdb.go:501-527) and are not modelled. Level 9 is only recorded as a constant.
- **Text.** Go strings are byte strings; they are modelled as sequences of characters. Keys are assumed to be ASCII wherever case matters.
- **Foreign store calls.**
  - src/cli and src/get call `New`, `Exists`, `Save`, `Len` and `GetI` of a package src/fbdb, which is not part of this model.
  - fbdb-wget and fbdb-dump call `fbdb.New`, which fbdb.go does not define.
  - All of these are taken to behave like fbdb.go's `Open`, `Exists`, `Save`, `Len` and `GetI`.
- **Scan order.** Scan order is rowid order. `INSERT OR REPLACE` deletes the old row and appends the new one, so a replaced name moves to the end.
- Store.Len: the optional custom count query (fbdb.go:217-222) is not modelled. Only the default `SELECT COUNT(name)` is.
- Store.Save: a failed statement or exec leaves the transaction open without a rollback. The model treats any failed step as leaving the table unchanged.
- **Crawler.Start.**
  - The panic when `urls.db` fails to open is not modelled.
  - Neither are `tor.Start`, the Tor restart loop that a "restart tor" error triggers (src/get/wget.go:258-260) and `countLines`.
  - The list file is given as its lines or the failure to open it. A scanner error, which the source only logs, is not modelled.
  - Job `i` meets `world(i)`, so a worker pool that hands out jobs differently is not modelled.
- Crawler.Payload: a `Do` error that still returns a response is treated like a reply, and the HTTP transport, timeouts and proxying are not modelled.
- **Time.** Timestamps are integers read from a clock parameter.
- **Dump paths.** `path.Join` cleaning of the written path, the ignored `MkdirAll` error and file permissions on disk are not modelled. A write is recorded as directory, file, data and its outcome.
- **Other.**
  - The SQL text is kept only as a label; the driver's parsing is a query form.
  - Not modelled either: `DumpSQL`, `Close`, the lock library's polling internals, logging and `setLogLevel`, the progress bar, signal handling and `cleanup`.
  - Encryption is only the passphrase flag on a record.
  - fbdb-write, main.go and utils.go are not part of this model.
- sqlite3fs.go does not compile as written. The model follows the evident meaning: the receiver's name, the options applied in order, `pkg/errors`, the golock library, and an error return. The errors are:
  - `d.name` (sqlite3fs.go:66, 99, 104) and `o(l)` (sqlite3fs.go:62) name nothing in scope.
  - The parameter is declared `optoins` (sqlite3fs.go:54) but used as `options` (sqlite3fs.go:61).
  - `return errors.New(...)` returns one value from a two-result function (sqlite3fs.go:57).
  - `golock` is used (sqlite3fs.go:22, 71) but never imported (sqlite3fs.go:3-12).
  - `golockOptionSetInterval` and `OptionSetTimeout` are undefined (sqlite3fs.go:73-74).
  - `File` is declared twice (sqlite3fs.go:27, 120).
  - The imported standard `errors` has no `Wrap` (sqlite3fs.go:5, 152).
  - `fmt` and `strings` are imported but unused (sqlite3fs.go:6, 8).

## Findings

| source | as written | input that shows it | evidently intended | confidence | as-written member | corrected member |
|---|---|---|---|---|---|---|
| sqlite3fs.go:65-69 | `New` assigns the stat error to the named result `err` and returns it even when the store is writable | `New("fresh.db")` with no such file: the lock is configured, but `New` returns the stat error | a missing file is an error only for a read-only store, as the comment above the check says | not executed | Transaction.New, Transaction.NewFreshPath | Transaction.NewIntended |
| src/cli/cli.go:138 | `runget` reads the flag "compress", but `get` declares "compressed" (src/cli/cli.go:82) | `fbdb get --compressed example.com` saves uncompressed | `--compressed` turns on compression | not executed | Cli.Runget, Cli.RungetIgnoresCompressed | Cli.RungetIntended, Cli.RungetIntendedCompresses |
| fbdb.go:403-406 | after the loop, the scan error is sent on `outerr` without watching `done` | a consumer that cancels after the last row of a scan that then fails: the producer blocks for good and never closes its channels | every send watches `done`, as the record send at fbdb.go:397-402 does | not executed | Stream.Pipeline, Stream.StreamStuckAfterCancel | Stream.PipelineIntended, Stream.StreamIntendedAfterCancel |
