/**
 The folder as an object that a pass updates in place, and the loops of the sync, each
 proved to do exactly what the functions of `ImapSync` say.
 */
module SyncFolder {
  import opened Wrappers
  import opened SyncWorld
  import opened ImapSync
  import opened SyncSafety

  class Folder {
    // The server.
    var validity: nat
    var boxes: map<nat, Mailbox>
    // The folder row.
    var uidvalidity: Option<nat>
    var lastUid: nat
    // Storage, jobs and locations.
    var blobs: set<Bytes>
    var jobs: multiset<Bytes>
    var failed: set<Bytes>
    var located: set<Bytes>
    // History.
    var ingested: set<(nat, nat)>
    var fetches: seq<(nat, nat)>
    var closed: (nat, nat)
    var behind: set<(nat, nat)>
    var overtaken: set<(nat, nat)>
    // What is still to happen around the pass in progress.
    var script: Script

    function State(): World
      reads this
    {
      World(validity, boxes, Cursor(uidvalidity, lastUid), blobs, jobs, failed, located, ingested, fetches, closed, behind,
            overtaken)
    }

    /** The object stands where `s` ends. */
    predicate Reached<T(==)>(s: Step<T>, r: Result<T, Error>)
      reads this
    {
      State() == s.w && script == s.script && r == s.result
    }

    method BecomeHistory(w: World)
      modifies `ingested, `fetches, `closed, `behind, `overtaken
      ensures ingested == w.ingested && fetches == w.fetches && closed == w.closed
      ensures behind == w.behind && overtaken == w.overtaken
    {
      ingested, fetches, closed, behind, overtaken := w.ingested, w.fetches, w.closed, w.behind, w.overtaken;
    }

    method BecomeArchive(w: World)
      modifies `blobs, `jobs, `failed, `located
      ensures blobs == w.blobs && jobs == w.jobs && failed == w.failed && located == w.located
    {
      blobs, jobs, failed, located := w.blobs, w.jobs, w.failed, w.located;
    }

    method Become(w: World)
      modifies this
      ensures State() == w && script == old(script)
    {
      validity, boxes, uidvalidity, lastUid := w.validity, w.boxes, w.cursor.uidvalidity, w.cursor.lastUid;
      BecomeArchive(w);
      BecomeHistory(w);
    }

    /** Let the rest of the world run, and learn how the call that follows fares. */
    method Await() returns (t: Tick)
      modifies this
      ensures t == Head(old(script)) && script == Rest(old(script))
      ensures State() == Env(old(State()), t.env)
    {
      t := Head(script);
      script := Rest(script);
      Become(Env(State(), t.env));
    }

    method RecordSyncProgress(v: nat, uid: nat) returns (r: Result<(), Error>)
      modifies this
      ensures Reached(Checkpoint(old(State()), old(script), v, uid), r)
    {
      var t := Await();
      if t.fault.Before? {
        return Err(t.fault.error);
      }
      overtaken := overtaken + Passed(State(), v, uid);
      uidvalidity, lastUid := Some(v), uid;
      r := if t.fault.After? then Err(t.fault.error) else Ok(());
    }

    method DeleteLocationsForFolder() returns (r: Result<(), Error>)
      modifies this
      ensures Reached(DeleteLocations(old(State()), old(script)), r)
    {
      var t := Await();
      if t.fault.Before? {
        return Err(t.fault.error);
      }
      located := {};
      r := if t.fault.After? then Err(t.fault.error) else Ok(());
    }

    method HandleUidvalidityChange(v: nat) returns (r: Result<(), Error>)
      modifies this
      ensures Reached(HandleChange(old(State()), old(script), v), r)
    {
      r := RecordSyncProgress(v, 0);
      if r.Err? { return; }
      r := DeleteLocationsForFolder();
    }

    /** `put_if_absent` of the raw storage. */
    method StoreRaw(raw: Bytes) returns (r: Result<(), Error>)
      modifies this
      ensures var t := Head(old(script));
              var w1 := Env(old(State()), t.env);
              && script == Rest(old(script)) && State() == (if t.fault.Before? then w1 else StoreBlob(w1, raw))
              && r == if t.fault == NoFault then Ok(()) else Err(t.fault.error)
    {
      hide Env;
      var t := Await();
      if t.fault.Before? {
        return Err(t.fault.error);
      }
      blobs := blobs + {raw};
      r := if t.fault.After? then Err(t.fault.error) else Ok(());
    }

    /** `enqueue` of the parse job. */
    method EnqueueJob(v: nat, uid: nat, raw: Bytes) returns (r: Result<(), Error>)
      modifies this
      ensures var t := Head(old(script));
              var w1 := Env(old(State()), t.env);
              && script == Rest(old(script)) && State() == (if t.fault.Before? then w1 else EnqueueParse(w1, v, uid, raw))
              && r == if t.fault == NoFault then Ok(()) else Err(t.fault.error)
    {
      hide Env;
      var t := Await();
      if t.fault.Before? {
        return Err(t.fault.error);
      }
      jobs := jobs + multiset{raw};
      ingested, behind, overtaken := ingested + {(v, uid)}, behind - {(v, uid)}, overtaken - {(v, uid)};
      r := if t.fault.After? then Err(t.fault.error) else Ok(());
    }

    /** The blob first, then the parse job. */
    method Ingest(v: nat, uid: nat, raw: Bytes) returns (r: Result<(), Error>)
      modifies this
      ensures Reached(IngestRaw(old(State()), old(script), v, uid, raw), r)
    {
      hide Env, StoreBlob, EnqueueParse;
      r := StoreRaw(raw);
      if r.Err? { return; }
      r := EnqueueJob(v, uid, raw);
    }

    /** One item of the stream; items without a UID or a body are passed over. */
    method IngestOne(v: nat, item: FetchItem, batch: Batch) returns (r: Result<Batch, Error>)
      modifies this
      ensures Reached(IngestItem(old(State()), old(script), v, item, batch), r)
    {
      var t := Await();
      if t.fault != NoFault {
        return Err(t.fault.error);
      }
      if item.uid.None? || item.body.None? {
        return Ok(batch);
      }
      var ingest := Ingest(v, item.uid.value, item.body.value);
      if ingest.Err? {
        return Err(ingest.error);
      }
      var high := if item.uid.value > batch.high then item.uid.value else batch.high;
      r := Ok(Batch(high, batch.ingested + 1));
    }

    /** The stream loop of one window: every item in the order it arrives. */
    method IngestStream(v: nat, items: seq<FetchItem>, start: Batch) returns (r: Result<Batch, Error>)
      modifies this
      ensures Reached(IngestItems(old(State()), old(script), v, items, start), r)
    {
      hide IngestItem;
      var batch := start;
      for i := 0 to |items|
        invariant IngestItems(old(State()), old(script), v, items, start)
               == IngestItems(State(), script, v, items[i..], batch)
      {
        assert items[i..][0] == items[i] && items[i..][1..] == items[i + 1..];
        var one := IngestOne(v, items[i], batch);
        if one.Err? {
          return one;
        }
        batch := one.value;
      }
      r := Ok(batch);
    }

    method FetchWindow(v: nat, from: nat, to: nat, start: Batch) returns (r: Result<Batch, Error>)
      modifies this
      ensures Reached(OneWindow(old(State()), old(script), v, from, to, start), r)
    {
      var t := Await();
      if t.fault != NoFault {
        return Err(t.fault.error);
      }
      if validity != v || v !in boxes || !CompleteAnswer(boxes[v], from, to, t.items) {
        return Err(Infrastructure);
      }
      closed, fetches := (v, to), fetches + [(from, to)];
      r := IngestStream(v, t.items, start);
      if r.Ok? && r.value.ingested != start.ingested {
        var c := RecordSyncProgress(v, r.value.high);
        if c.Err? {
          r := Err(c.error);
        }
      }
    }

    /** A scan that ingested nothing still stamps the cursor. */
    method Stamp(v: nat, batch: Batch) returns (r: Result<(nat, nat), Error>)
      modifies this
      ensures Reached(Finish(old(State()), old(script), v, batch), r)
    {
      if batch.ingested == 0 {
        var c := RecordSyncProgress(v, batch.high);
        if c.Err? {
          return Err(c.error);
        }
      }
      r := Ok((batch.high, v));
    }

    /** The window loop, from the selected mailbox on. */
    method ScanWindows(v: nat, upper: Option<nat>, last: nat) returns (r: Result<(nat, nat), Error>)
      requires upper.Some? ==> upper.value <= U32_MAX
      modifies this
      ensures Reached(Scan(old(State()), old(script), v, upper, last), r)
    {
      closed, fetches, behind := (v, last), [], {};
      var batch := Batch(last, 0);
      var from := SaturatingAdd(last, 1);
      if upper.Some? && upper.value < from {
        r := Stamp(v, batch);
        return;
      }
      ghost var w0, script0 := State(), script;
      while true
        invariant from <= U32_MAX
        invariant Windows(w0, script0, v, upper, SaturatingAdd(last, 1), Batch(last, 0))
               == Windows(State(), script, v, upper, from, batch)
        decreases U32_MAX - from
      {
        var to := WindowEnd(from, upper);
        var window := FetchWindow(v, from, to, batch);
        if window.Err? {
          return Err(window.error);
        }
        var fetchedAny := window.value.ingested > batch.ingested;
        batch := window.value;
        if LastWindow(to, upper, fetchedAny) {
          break;
        }
        from := SaturatingAdd(to, 1);
      }
      r := Stamp(v, batch);
    }

    /** `sync_folder`: SELECT, the UIDVALIDITY check, the scan. */
    method SyncFolder(cfg: Cursor) returns (r: Result<(nat, nat), Error>)
      modifies this
      ensures Reached(Sync(old(State()), old(script), cfg), r)
    {
      var t := Await();
      if t.fault != NoFault || validity !in boxes {
        closed, behind := (closed.0, 0), {};
        return Err(if t.fault != NoFault then t.fault.error else Infrastructure);
      }
      var v := validity;
      var upper := Ceiling(boxes[v], t.advertise);
      var last := cfg.lastUid;
      if cfg.uidvalidity.Some? && cfg.uidvalidity.value != v {
        var h := HandleUidvalidityChange(v);
        if h.Err? {
          closed, behind := (closed.0, 0), {};
          return Err(h.error);
        }
        last := 0;
      }
      r := ScanWindows(v, upper, last);
      closed, behind := (closed.0, 0), {};
    }

    /** `poll_task`: one pass after another, each from the configuration read at the start. */
    method PollTask(passes: seq<Script>)
      requires Safe(State())
      modifies this
      ensures State() == Poll(old(State()), old(State()).cursor, passes)
      ensures Safe(State())
    {
      var cfg := Cursor(uidvalidity, lastUid);
      PollKeeps(State(), cfg, passes);
      for i := 0 to |passes|
        invariant Poll(old(State()), cfg, passes) == Poll(State(), cfg, passes[i..])
      {
        assert passes[i..][0] == passes[i] && passes[i..][1..] == passes[i + 1..];
        script := passes[i];
        var _ := SyncFolder(cfg);
      }
    }

    /** One connection of `idle_task`: the local cursor follows every pass until one fails. */
    method RunConnection(folder: Cursor, passes: seq<Script>)
      modifies this
      ensures State() == Connection(old(State()), folder, passes)
    {
      var cur := folder;
      for i := 0 to |passes|
        invariant Connection(old(State()), folder, passes) == Connection(State(), cur, passes[i..])
      {
        assert passes[i..][0] == passes[i] && passes[i..][1..] == passes[i + 1..];
        script := passes[i];
        var r := SyncFolder(cur);
        if r.Err? {
          return;
        }
        cur := Cursor(Some(r.value.1), r.value.0);
      }
    }

    /** `idle_task`: every connection starts again from the folder read at the start. */
    method IdleTask(connections: seq<seq<Script>>)
      requires Safe(State())
      modifies this
      ensures State() == Idle(old(State()), old(State()).cursor, connections)
      ensures Safe(State())
    {
      var folder := Cursor(uidvalidity, lastUid);
      IdleKeeps(State(), folder, connections);
      for i := 0 to |connections|
        invariant Idle(old(State()), folder, connections) == Idle(State(), folder, connections[i..])
      {
        assert connections[i..][0] == connections[i] && connections[i..][1..] == connections[i + 1..];
        RunConnection(folder, connections[i]);
      }
    }
  }

  // ---- Backoff ----

  function Pow2(n: nat): nat {
    if n == 0 then 1 else 2 * Pow2(n - 1)
  }

  /** `backoff_delay`, in seconds; the exponent stops growing at 6. */
  function BackoffDelay(failures: nat): nat {
    var exponent := Min(if failures == 0 then 0 else failures - 1, 6);
    Min(5 * Pow2(exponent), 300)
  }

  lemma {:induction false} Pow2Grows(m: nat, n: nat)
    requires m <= n
    ensures Pow2(m) <= Pow2(n)
    decreases n
  {
    if m < n { Pow2Grows(m, n - 1); }
  }

  /** The delay is 5 s after the first failure and doubles with each further one, up to 300 s. */
  lemma BackoffDoubles(failures: nat)
    ensures BackoffDelay(0) == BackoffDelay(1) == 5
    ensures failures >= 1 ==>
              BackoffDelay(failures + 1) == if 2 * BackoffDelay(failures) <= 300 then 2 * BackoffDelay(failures) else 300
  {
    assert Pow2(3) == 8 && Pow2(6) == 64;
  }

  /** Stopping the exponent at 6 changes nothing: the delay is the documented min(5s * 2^(n-1), 300s) for every n. */
  lemma BackoffIsTheDocumentedCurve(failures: nat)
    ensures BackoffDelay(failures) == Min(5 * Pow2(if failures == 0 then 0 else failures - 1), 300)
  {
    assert Pow2(6) == 64;
    if failures > 7 {
      Pow2Grows(6, failures - 1);
    }
  }
}
