/** Enumerating a query's rows: `GetAll`, which hands each row to a
    callback until it asks to stop, and `Pipeline`, the producer that
    emits rows on one channel and a failure on another, watching a
    cancellation channel.

    The goroutine and its channels are modelled sequentially. The consumer
    reads every record and error offered until it has received `cancelAfter`
    records; it then closes `done` and reads nothing more. */
module Stream {
  import opened Errors
  import opened Codec
  import opened Records
  import opened Database

  /** The rows of a cursor as a caller receives them. */
  function Decoded(codec: Flate, rows: seq<File>): (r: seq<File>)
    ensures |r| == |rows|
    ensures forall i :: 0 <= i < |rows| ==> r[i] == ProcessFile(codec, rows[i])
  {
    seq(|rows|, i requires 0 <= i < |rows| => ProcessFile(codec, rows[i]))
  }

  /** `GetAll(getfile, query, args...)`: every row, decompressed, goes to
      `stop` in scan order; the first row for which `stop` is true ends the
      enumeration without error. Otherwise the cursor's error, if any, is
      returned after the rows before it. */
  method GetAll(codec: Flate, t: Table, q: Query, fault: Fault, stop: File -> bool)
    returns (delivered: seq<File>, err: Option<Error>)
    ensures IsPrefix(delivered, Decoded(codec, Execute(t, q, fault).rows))
    ensures forall i :: 0 <= i < |delivered| - 1 ==> !stop(delivered[i])
    ensures |delivered| > 0 && stop(delivered[|delivered| - 1]) ==> err.None?
    ensures (|delivered| == 0 || !stop(delivered[|delivered| - 1])) ==>
      delivered == Decoded(codec, Execute(t, q, fault).rows) && err == Execute(t, q, fault).err
    ensures fault.Healthy? && !q.form.Malformed? ==> err.None?
  {
    var c := Execute(t, q, fault);
    ghost var all := Decoded(codec, c.rows);
    delivered := [];
    var i := 0;
    while i < |c.rows|
      invariant 0 <= i <= |c.rows|
      invariant delivered == all[..i]
      invariant forall k :: 0 <= k < i ==> !stop(delivered[k])
    {
      var f := c.rows[i];
      if f.isCompressed {
        var plain := codec.decompress(f.data);
        f := f.(data := plain, size := |plain|);
      }
      delivered := delivered + [f];
      if stop(f) {
        return delivered, None;
      }
      i := i + 1;
    }
    assert delivered == all;
    return delivered, c.err;
  }

  /** What the consumer observed: the records and errors received, and
      whether the producer finished and closed both channels (false when it
      is blocked forever on a send nobody will receive). */
  datatype Observed = Observed(records: seq<File>, errors: seq<Error>, closed: bool)

  /** `Pipeline(done, query, args...)` as written: after cancellation the
      producer stops before its next record, but a failure is sent on the
      error channel without watching `done`. */
  method Pipeline(codec: Flate, t: Table, q: Query, fault: Fault, cancelAfter: Option<nat>)
    returns (s: Observed)
    ensures IsPrefix(s.records, Decoded(codec, Execute(t, q, fault).rows))
    ensures |s.errors| <= 1
    ensures var c := Execute(t, q, fault);
      var k := if cancelAfter.Some? then cancelAfter.value else |c.rows| + 1;
      && (k < |c.rows| ==> s == Observed(Decoded(codec, c.rows)[..k], [], true))
      && (k >= |c.rows| ==> s.records == Decoded(codec, c.rows))
      && s.errors == (if c.err.Some? && k > |c.rows| then [c.err.value] else [])
      && (s.closed <==> !(k == |c.rows| && c.err.Some?))
  {
    var c := Execute(t, q, fault);
    ghost var all := Decoded(codec, c.rows);
    var records := [];
    var i := 0;
    while i < |c.rows|
      invariant 0 <= i <= |c.rows|
      invariant records == all[..i]
      invariant cancelAfter.Some? ==> i <= cancelAfter.value
    {
      var f := c.rows[i];
      if f.isCompressed {
        var plain := codec.decompress(f.data);
        f := f.(data := plain, size := |plain|);
      }
      // The record is sent unless the consumer has cancelled first.
      if cancelAfter == Some(i) {
        return Observed(records, [], true);
      }
      records := records + [f];
      i := i + 1;
    }
    assert records == all;
    match c.err {
      case None =>
        return Observed(records, [], true);
      case Some(e) =>
        // The error send is not guarded: after a cancellation nobody receives it.
        if cancelAfter == Some(i) {
          return Observed(records, [], false);
        }
        return Observed(records, [e], true);
    }
  }

  /** `Pipeline` with the error send guarded by `done` the way the record
      send is, so cancellation always lets the producer finish. */
  method PipelineIntended(codec: Flate, t: Table, q: Query, fault: Fault, cancelAfter: Option<nat>)
    returns (s: Observed)
    ensures s.closed
    ensures IsPrefix(s.records, Decoded(codec, Execute(t, q, fault).rows))
    ensures |s.errors| <= 1
    ensures var c := Execute(t, q, fault);
      var k := if cancelAfter.Some? then cancelAfter.value else |c.rows| + 1;
      && (k < |c.rows| ==> s == Observed(Decoded(codec, c.rows)[..k], [], true))
      && (k >= |c.rows| ==> s.records == Decoded(codec, c.rows))
      && s.errors == (if c.err.Some? && k > |c.rows| then [c.err.value] else [])
  {
    var c := Execute(t, q, fault);
    ghost var all := Decoded(codec, c.rows);
    var records := [];
    var i := 0;
    while i < |c.rows|
      invariant 0 <= i <= |c.rows|
      invariant records == all[..i]
      invariant cancelAfter.Some? ==> i <= cancelAfter.value
    {
      var f := c.rows[i];
      if f.isCompressed {
        var plain := codec.decompress(f.data);
        f := f.(data := plain, size := |plain|);
      }
      if cancelAfter == Some(i) {
        return Observed(records, [], true);
      }
      records := records + [f];
      i := i + 1;
    }
    assert records == all;
    match c.err {
      case None =>
        return Observed(records, [], true);
      case Some(e) =>
        // Guarded like the record send: a cancellation lets the producer finish.
        if cancelAfter == Some(i) {
          return Observed(records, [], true);
        }
        return Observed(records, [e], true);
    }
  }

  /** A query whose text SQLite cannot prepare: the consumer receives exactly
      one error and no record. */
  method StreamBadQuery(codec: Flate, t: Table, text: string, complaint: Error) returns (s: Observed)
    ensures s == Observed([], [Wrapped("preparing query: " + text, complaint)], true)
  {
    s := Pipeline(codec, t, Query(text, Malformed(complaint)), Healthy, None);
  }

  /** `SELECT * FROM fs LIMIT 10` over at least ten rows: exactly ten
      records, then both channels close without error. */
  method StreamLimitTen(codec: Flate, t: Table) returns (s: Observed)
    requires |t| >= 10
    ensures |s.records| == 10 && s.errors == [] && s.closed
    ensures forall i :: 0 <= i < 10 ==> s.records[i] == ProcessFile(codec, t[i])
  {
    s := Pipeline(codec, t, Query("SELECT * FROM fs LIMIT 10", Limit(10)), Healthy, None);
  }

  /** The same query cancelled after the sixth record: the consumer has
      exactly six records and no error, and the producer finishes. */
  method StreamCancelAfterSix(codec: Flate, t: Table) returns (s: Observed)
    requires |t| >= 10
    ensures |s.records| == 6 && s.errors == [] && s.closed
  {
    s := Pipeline(codec, t, Query("SELECT * FROM fs LIMIT 10", Limit(10)), Healthy, Some(6));
  }

  /** Cancelling after the last record the cursor could scan, when the scan
      then fails: the producer blocks forever sending the error. */
  method StreamStuckAfterCancel(codec: Flate, t: Table, cause: Error) returns (s: Observed)
    requires |t| >= 1
    ensures !s.closed && |s.records| == 1 && s.errors == []
  {
    s := Pipeline(codec, t, Query("SELECT * FROM fs", All), RowFails(1, cause), Some(1));
  }

  /** The same run against the guarded error send finishes. */
  method StreamIntendedAfterCancel(codec: Flate, t: Table, cause: Error) returns (s: Observed)
    requires |t| >= 1
    ensures s.closed && |s.records| == 1 && s.errors == []
  {
    s := PipelineIntended(codec, t, Query("SELECT * FROM fs", All), RowFails(1, cause), Some(1));
  }
}
