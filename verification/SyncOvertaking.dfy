/**
 When no message can be overtaken: in a pass whose SELECT advertised UIDNEXT, or during
 which no mail is delivered. Then the promise of the sync holds without exception.
 */
module SyncOvertaking {
  import opened Wrappers
  import opened SyncWorld
  import opened ImapSync
  import opened SyncSafety

  /** No mail is delivered while the script runs. */
  predicate Quiet(script: Script) {
    forall i, j | 0 <= i < |script| && 0 <= j < |script[i].env| :: !script[i].env[j].Deliver?
  }

  /** The condition under which a pass overtakes nothing. */
  predicate Shielded(script: Script) {
    Head(script).advertise || Quiet(script)
  }

  /** Nothing is delivered behind the scan: no mail comes, or UIDNEXT already lies above it. */
  ghost predicate Ahead(w: World, script: Script, quiet: bool, v: nat, limit: nat) {
    && ValidServer(w) && w.behind == {}
    && (quiet ==> Quiet(script))
    && (!quiet ==> w.closed.0 == v && v in w.boxes && w.closed.1 <= limit < w.boxes[v].uidNext)
  }

  lemma {:induction false} EnvStaysAhead(w: World, script: Script, es: seq<EnvStep>, quiet: bool, v: nat, limit: nat)
    requires Ahead(w, script, quiet, v, limit) && (quiet ==> forall j | 0 <= j < |es| :: !es[j].Deliver?)
    ensures Ahead(Env(w, es), script, quiet, v, limit) && Env(w, es).overtaken == w.overtaken
    decreases |es|
  {
    if es != [] {
      var w1 := EnvOne(w, es[0]);
      OneKeepsServer(w, es[0]);
      OneLeaves(w, es[0]);
      assert v in w.boxes ==> BoxGrows(w, w1, v);
      EnvStaysAhead(w1, script, es[1..], quiet, v, limit);
    }
  }

  /** The environment's share of one tick. */
  lemma TickStaysAhead(w: World, script: Script, quiet: bool, v: nat, limit: nat)
    requires Ahead(w, script, quiet, v, limit)
    ensures var w1 := Env(w, Head(script).env);
            Ahead(w1, Rest(script), quiet, v, limit) && w1.overtaken == w.overtaken
  {
    assert forall i | 0 <= i < |Rest(script)| :: Rest(script)[i] == script[i + 1];
    EnvStaysAhead(w, script, Head(script).env, quiet, v, limit);
  }

  lemma CheckpointStaysAhead(w: World, script: Script, uid: nat, v: nat, quiet: bool, limit: nat)
    requires Ahead(w, script, quiet, v, limit)
    ensures var c := Checkpoint(w, script, v, uid);
            Ahead(c.w, c.script, quiet, v, limit) && c.w.overtaken <= w.overtaken
  {
    TickStaysAhead(w, script, quiet, v, limit);
  }

  lemma IngestRawStaysAhead(w: World, script: Script, uid: nat, raw: Bytes, quiet: bool, v: nat, limit: nat)
    requires Ahead(w, script, quiet, v, limit)
    ensures var r := IngestRaw(w, script, v, uid, raw);
            Ahead(r.w, r.script, quiet, v, limit) && r.w.overtaken <= w.overtaken
  {
    TickStaysAhead(w, script, quiet, v, limit);
    var w1 := StoreBlob(Env(w, Head(script).env), raw);
    assert Ahead(w1, Rest(script), quiet, v, limit);
    TickStaysAhead(w1, Rest(script), quiet, v, limit);
  }

  lemma IngestItemStaysAhead(w: World, script: Script, item: FetchItem, batch: Batch, quiet: bool, v: nat, limit: nat)
    requires Ahead(w, script, quiet, v, limit)
    ensures var r := IngestItem(w, script, v, item, batch);
            Ahead(r.w, r.script, quiet, v, limit) && r.w.overtaken <= w.overtaken
  {
    hide IngestRaw;
    TickStaysAhead(w, script, quiet, v, limit);
    if item.uid.Some? && item.body.Some? {
      IngestRawStaysAhead(Env(w, Head(script).env), Rest(script), item.uid.value, item.body.value, quiet, v, limit);
    }
  }

  lemma {:induction false} IngestItemsStayAhead(
    w: World, script: Script, items: seq<FetchItem>, batch: Batch, quiet: bool, v: nat, limit: nat)
    requires Ahead(w, script, quiet, v, limit)
    ensures var r := IngestItems(w, script, v, items, batch);
            Ahead(r.w, r.script, quiet, v, limit) && r.w.overtaken <= w.overtaken
    decreases |items|
  {
    if items != [] {
      hide IngestItem;
      IngestItemStaysAhead(w, script, items[0], batch, quiet, v, limit);
      var r := IngestItem(w, script, v, items[0], batch);
      if r.result.Ok? {
        IngestItemsStayAhead(r.w, r.script, items[1..], r.result.value, quiet, v, limit);
      }
    }
  }

  lemma OneWindowStaysAhead(w: World, script: Script, from: nat, to: nat, batch: Batch, quiet: bool, v: nat, limit: nat)
    requires Ahead(w, script, quiet, v, limit) && to <= limit
    ensures var r := OneWindow(w, script, v, from, to, batch);
            Ahead(r.w, r.script, quiet, v, limit) && r.w.overtaken <= w.overtaken
  {
    hide IngestItems, CompleteAnswer;
    TickStaysAhead(w, script, quiet, v, limit);
    var t := Head(script);
    var w2 := CloseWindow(Env(w, t.env), v, from, to);
    if t.fault == NoFault && w2.validity == v && v in w2.boxes && CompleteAnswer(w2.boxes[v], from, to, t.items) {
      IngestItemsStayAhead(w2, Rest(script), t.items, batch, quiet, v, limit);
      var r := IngestItems(w2, Rest(script), v, t.items, batch);
      if r.result.Ok? {
        CheckpointStaysAhead(r.w, r.script, r.result.value.high, v, quiet, limit);
      }
    }
  }

  lemma {:induction false} WindowsStayAhead(
    w: World, script: Script, upper: Option<nat>, from: nat, batch: Batch, quiet: bool, v: nat, limit: nat)
    requires from <= U32_MAX && (upper.Some? ==> upper.value <= U32_MAX)
    requires Ahead(w, script, quiet, v, limit) && limit == if upper.Some? then upper.value else U32_MAX
    ensures var r := Windows(w, script, v, upper, from, batch);
            Ahead(r.w, r.script, quiet, v, limit) && r.w.overtaken <= w.overtaken
    decreases U32_MAX - from
  {
    hide OneWindow;
    var to := WindowEnd(from, upper);
    OneWindowStaysAhead(w, script, from, to, batch, quiet, v, limit);
    var r := OneWindow(w, script, v, from, to, batch);
    if r.result.Ok? {
      CheckpointStaysAhead(r.w, r.script, r.result.value.high, v, quiet, limit);
      if !LastWindow(to, upper, r.result.value.ingested > batch.ingested) {
        WindowsStayAhead(r.w, r.script, upper, SaturatingAdd(to, 1), r.result.value, quiet, v, limit);
      }
    }
  }

  /** Between passes the scan is closed at zero, so every delivery is ahead of it. */
  ghost predicate AtRest(w: World) {
    ValidServer(w) && w.closed.1 == 0 && w.behind == {}
  }

  lemma {:induction false} EnvAtRest(w: World, es: seq<EnvStep>)
    requires AtRest(w)
    ensures AtRest(Env(w, es)) && Env(w, es).overtaken == w.overtaken
    decreases |es|
  {
    if es != [] {
      OneKeepsServer(w, es[0]);
      OneLeaves(w, es[0]);
      assert w.validity in w.boxes && ValidMailbox(w.boxes[w.validity]);
      EnvAtRest(EnvOne(w, es[0]), es[1..]);
    }
  }

  lemma HandleChangeAtRest(w: World, script: Script, v: nat)
    requires AtRest(w)
    ensures AtRest(HandleChange(w, script, v).w) && HandleChange(w, script, v).w.overtaken == w.overtaken
  {
    EnvAtRest(w, Head(script).env);
    var c := Checkpoint(w, script, v, 0);
    EnvAtRest(c.w, Head(c.script).env);
  }

  lemma QuietRest(script: Script)
    requires Quiet(script)
    ensures Quiet(Rest(script))
  {}

  lemma ScanStaysAhead(w: World, script: Script, v: nat, upper: Option<nat>, last: nat, quiet: bool)
    requires ValidServer(w) && v in w.boxes && last < w.boxes[v].uidNext && (upper.Some? ==> upper.value <= U32_MAX)
    requires if quiet then Quiet(script) else (if upper.Some? then upper.value else U32_MAX) < w.boxes[v].uidNext
    ensures var s := Scan(w, script, v, upper, last);
            s.w.overtaken <= w.overtaken && s.w.behind == {} && ValidServer(s.w)
  {
    hide Windows, OneWindow;
    var w1 := BeginScan(w, v, last);
    var limit := if upper.Some? then upper.value else U32_MAX;
    assert ValidMailbox(w.boxes[v]);
    if upper.Some? && upper.value < SaturatingAdd(last, 1) {
      CheckpointStaysAhead(w1, script, last, v, quiet, last);
    } else {
      WindowsStayAhead(w1, script, upper, SaturatingAdd(last, 1), Batch(last, 0), quiet, v, limit);
    }
  }

  lemma HandleChangeConsumes(w: World, script: Script, v: nat)
    ensures HandleChange(w, script, v).result.Ok? ==> HandleChange(w, script, v).script == Rest(Rest(script))
  {}

  lemma ShieldedPassStaysAhead(w: World, script: Script, cfg: Cursor)
    requires Safe(w) && Remembered(w, cfg) && AtRest(w) && Shielded(script)
    ensures var s := Pass(w, script, cfg);
            s.w.overtaken <= w.overtaken && s.w.behind == {} && ValidServer(s.w)
  {
    hide Scan, HandleChange, Covered, Onward, Env;
    var t := Head(script);
    var w1 := Env(w, t.env);
    EnvAtRest(w, t.env);
    EnvIsCalm(w, t.env);
    CalmIsOnward(w, w1);
    OnwardKeepsSafe(w, w1);
    OnwardKeepsRemembered(w, w1, cfg);
    if t.fault != NoFault { return; }
    var v := w1.validity;
    RememberedStart(w1, cfg);
    var upper := Ceiling(w1.boxes[v], t.advertise);
    var quiet := !t.advertise;
    if quiet { QuietRest(script); }
    if cfg.uidvalidity.Some? && cfg.uidvalidity.value != v {
      HandleChangeKeeps(w1, Rest(script), v, Cursor(None, 0));
      HandleChangeAtRest(w1, Rest(script), v);
      var h := HandleChange(w1, Rest(script), v);
      if h.result.Ok? {
        HandleChangeConsumes(w1, Rest(script), v);
        if quiet {
          QuietRest(Rest(script));
          QuietRest(Rest(Rest(script)));
        }
        assert ValidMailbox(h.w.boxes[v]);
        ScanStaysAhead(h.w, h.script, v, upper, 0, quiet);
      }
    } else {
      ScanStaysAhead(w1, Rest(script), v, upper, cfg.lastUid, quiet);
    }
  }

  /** A shielded pass overtakes nothing. */
  lemma ShieldedPassOvertakesNothing(w: World, script: Script, cfg: Cursor)
    requires Safe(w) && Remembered(w, cfg) && AtRest(w) && Shielded(script)
    ensures AtRest(Sync(w, script, cfg).w) && Sync(w, script, cfg).w.overtaken <= w.overtaken
  {
    hide Pass;
    ShieldedPassStaysAhead(w, script, cfg);
  }

  // ---- Whole runs ----

  predicate AllShielded(runs: seq<Incarnation>) {
    forall i | 0 <= i < |runs| ::
      match runs[i]
      case Polled(passes) => forall j | 0 <= j < |passes| :: Shielded(passes[j])
      case Idled(connections) =>
        forall j, k | 0 <= j < |connections| && 0 <= k < |connections[j]| :: Shielded(connections[j][k])
  }

  lemma {:induction false} PollOvertakesNothing(w: World, cfg: Cursor, passes: seq<Script>)
    requires Safe(w) && Remembered(w, cfg) && AtRest(w) && forall j | 0 <= j < |passes| :: Shielded(passes[j])
    ensures AtRest(Poll(w, cfg, passes)) && Poll(w, cfg, passes).overtaken <= w.overtaken
    decreases |passes|
  {
    if passes != [] {
      hide Sync, Safe, Remembered;
      SyncKeeps(w, passes[0], cfg, cfg);
      ShieldedPassOvertakesNothing(w, passes[0], cfg);
      PollOvertakesNothing(Sync(w, passes[0], cfg).w, cfg, passes[1..]);
    }
  }

  lemma {:induction false} ConnectionOvertakesNothing(w: World, cur: Cursor, passes: seq<Script>, folder: Cursor)
    requires Safe(w) && Remembered(w, cur) && Remembered(w, folder) && NoNewer(folder, cur)
    requires AtRest(w) && forall j | 0 <= j < |passes| :: Shielded(passes[j])
    ensures AtRest(Connection(w, cur, passes)) && Connection(w, cur, passes).overtaken <= w.overtaken
    decreases |passes|
  {
    if passes != [] {
      hide Sync, Safe, Remembered;
      SyncKeeps(w, passes[0], cur, folder);
      ShieldedPassOvertakesNothing(w, passes[0], cur);
      var s := Sync(w, passes[0], cur);
      if s.result.Ok? {
        ConnectionOvertakesNothing(s.w, s.w.cursor, passes[1..], folder);
      }
    }
  }

  lemma {:induction false} IdleOvertakesNothing(w: World, folder: Cursor, connections: seq<seq<Script>>)
    requires Safe(w) && Remembered(w, folder) && AtRest(w)
    requires forall j, k | 0 <= j < |connections| && 0 <= k < |connections[j]| :: Shielded(connections[j][k])
    ensures AtRest(Idle(w, folder, connections)) && Idle(w, folder, connections).overtaken <= w.overtaken
    decreases |connections|
  {
    if connections != [] {
      ConnectionKeeps(w, folder, connections[0], folder);
      ConnectionOvertakesNothing(w, folder, connections[0], folder);
      IdleOvertakesNothing(Connection(w, folder, connections[0]), folder, connections[1..]);
    }
  }

  lemma {:induction false} LifeOvertakesNothing(w: World, runs: seq<Incarnation>)
    requires Safe(w) && AtRest(w) && AllShielded(runs)
    ensures Live(w, runs).overtaken <= w.overtaken
    decreases |runs|
  {
    if runs != [] {
      match runs[0] {
        case Polled(passes) =>
          PollKeeps(w, w.cursor, passes);
          PollOvertakesNothing(w, w.cursor, passes);
          LifeOvertakesNothing(Poll(w, w.cursor, passes), runs[1..]);
        case Idled(connections) =>
          IdleKeeps(w, w.cursor, connections);
          IdleOvertakesNothing(w, w.cursor, connections);
          LifeOvertakesNothing(Idle(w, w.cursor, connections), runs[1..]);
      }
    }
  }

  /**
   The promise of the sync: after any run of passes, crashes and restarts in which each
   pass is shielded, every served message at or below the persisted cursor has been
   ingested, and has a location, a live parse job, or one that ended Failed.
   */
  lemma NothingBelowTheCursorIsLost(w: World, runs: seq<Incarnation>, uid: nat)
    requires Safe(w) && AtRest(w) && w.overtaken == {} && AllShielded(runs)
    ensures var w' := Live(w, runs);
            && (w'.cursor.uidvalidity.Some? && w'.cursor.uidvalidity.value in w'.boxes ==>
                  var v := w'.cursor.uidvalidity.value;
                  var present := w'.boxes[v].present;
                  uid in present && uid <= w'.cursor.lastUid && present[uid].served ==>
                    (v, uid) in w'.ingested && Tracked(w', present[uid].raw))
  {
    EveryLifeIsSafe(w, runs);
    LifeOvertakesNothing(w, runs);
    var w' := Live(w, runs);
    if w'.cursor.uidvalidity.Some? {
      var v := w'.cursor.uidvalidity.value;
      assert CursorOk(w', v, w'.cursor.lastUid);
      if uid in w'.boxes[v].present && uid <= w'.cursor.lastUid && w'.boxes[v].present[uid].served {
        assert Served(w', v, uid);
      }
    }
  }
}
