/**
 What the sync gets done: tasks go on after each pass, a connection fetches what arrives
 after its first pass, every pass picks up where the last one stopped, and one that fails
 repeats no more than one window.
 */
module SyncProgress {
  import opened Wrappers
  import opened SyncWorld
  import opened ImapSync
  import opened SyncSafety
  import opened SyncOvertaking
  import opened SyncCoverage
  import opened SyncRecovery

  // ---- Tasks go on ----

  /** Polling does one pass after another, whatever became of the ones before. */
  lemma {:induction false} PollGoesOn(w: World, cfg: Cursor, a: seq<Script>, b: seq<Script>)
    ensures Poll(w, cfg, a + b) == Poll(Poll(w, cfg, a), cfg, b)
    ensures forall script :: Poll(w, cfg, [script]) == Sync(w, script, cfg).w
    decreases |a|
  {
    hide Sync;
    if a == [] {
      assert a + b == b;
    } else {
      assert (a + b)[1..] == a[1..] + b;
      PollGoesOn(Sync(w, a[0], cfg).w, cfg, a[1..], b);
    }
    forall script ensures Poll(w, cfg, [script]) == Sync(w, script, cfg).w { assert [script][1..] == []; }
  }

  /** Idling makes one connection after another, each from the folder as first read. */
  lemma {:induction false} IdleGoesOn(w: World, folder: Cursor, a: seq<seq<Script>>, b: seq<seq<Script>>)
    ensures Idle(w, folder, a + b) == Idle(Idle(w, folder, a), folder, b)
    ensures forall passes :: Idle(w, folder, [passes]) == Connection(w, folder, passes)
    decreases |a|
  {
    hide Connection;
    if a == [] {
      assert a + b == b;
    } else {
      assert (a + b)[1..] == a[1..] + b;
      IdleGoesOn(Connection(w, folder, a[0]), folder, a[1..], b);
    }
    forall passes ensures Idle(w, folder, [passes]) == Connection(w, folder, passes) { assert [passes][1..] == []; }
  }

  /** Process lives follow one another, each from the cursor that is stored when it starts. */
  lemma {:induction false} LivesFollow(w: World, a: seq<Incarnation>, b: seq<Incarnation>)
    ensures Live(w, a + b) == Live(Live(w, a), b)
    ensures forall passes :: Live(w, [Polled(passes)]) == Poll(w, w.cursor, passes)
    ensures forall connections :: Live(w, [Idled(connections)]) == Idle(w, w.cursor, connections)
    decreases |a|
  {
    hide Poll, Idle;
    if a == [] {
      assert a + b == b;
    } else {
      assert (a + b)[1..] == a[1..] + b;
      LivesFollow(Live(w, [a[0]]), a[1..], b);
      assert [a[0]][1..] == [];
    }
    forall passes ensures Live(w, [Polled(passes)]) == Poll(w, w.cursor, passes) { assert [Polled(passes)][1..] == []; }
    forall connections ensures Live(w, [Idled(connections)]) == Idle(w, w.cursor, connections) {
      assert [Idled(connections)][1..] == [];
    }
  }

  /** Where a connection stands after passes that all succeeded, and the cursor it goes on from. */
  function Reached(w: World, cur: Cursor, passes: seq<Script>): Option<(World, Cursor)>
    decreases |passes|
  {
    if passes == [] then Some((w, cur)) else
    match Reached(w, cur, passes[..|passes| - 1])
    case None => None
    case Some((q, c)) =>
      var s := Sync(q, passes[|passes| - 1], c);
      match s.result
      case Err(_) => None
      case Ok((high, v)) => Some((s.w, Cursor(Some(v), high)))
  }

  lemma {:induction false} ReachedGoesOn(w: World, cur: Cursor, a: seq<Script>, b: seq<Script>)
    requires Reached(w, cur, a).Some?
    ensures var (q, c) := Reached(w, cur, a).value; Connection(w, cur, a + b) == Connection(q, c, b)
    decreases |a|
  {
    hide Sync;
    if a == [] {
      assert a + b == b;
    } else {
      var n := |a| - 1;
      var rest := [a[n]] + b;
      ReachedGoesOn(w, cur, a[..n], rest);
      assert a[..n] + rest == a + b;
      assert rest[1..] == b;
    }
  }

  /** A connection goes on from every pass that succeeds, with the cursor it returned, and ends with the first that fails. */
  lemma ConnectionGoesOn(w: World, cur: Cursor, earlier: seq<Script>, script: Script, later: seq<Script>)
    requires Reached(w, cur, earlier).Some?
    ensures var (q, c) := Reached(w, cur, earlier).value;
            var s := Sync(q, script, c);
            Connection(w, cur, earlier + [script] + later)
            == match s.result case Err(_) => s.w case Ok((high, v)) => Connection(s.w, Cursor(Some(v), high), later)
  {
    hide Sync;
    var rest := [script] + later;
    ReachedGoesOn(w, cur, earlier, rest);
    assert earlier + [script] + later == earlier + rest;
    assert rest[1..] == later;
  }

  // ---- A later pass fetches what came in between ----

  lemma SyncRests(w: World, script: Script, cfg: Cursor)
    requires Safe(w) && Remembered(w, cfg)
    ensures AtRest(Sync(w, script, cfg).w)
  {
    hide Pass, Safe, Remembered;
    SyncKeeps(w, script, cfg, cfg);
    SafeIsValid(Sync(w, script, cfg).w);
  }

  lemma {:induction false} ReachedKeeps(w: World, cur: Cursor, passes: seq<Script>)
    requires Safe(w) && Remembered(w, cur) && AtRest(w) && Reached(w, cur, passes).Some?
    ensures var (q, c) := Reached(w, cur, passes).value; Safe(q) && Remembered(q, c) && AtRest(q)
    decreases |passes|
  {
    hide Sync, Safe, Remembered, AtRest;
    if passes != [] {
      var n := |passes| - 1;
      ReachedKeeps(w, cur, passes[..n]);
      var (q, c) := Reached(w, cur, passes[..n]).value;
      SyncKeeps(q, passes[n], c, c);
      SyncRests(q, passes[n], c);
    }
  }

  lemma {:induction false} ConnectionOnlyGives(w: World, cur: Cursor, passes: seq<Script>)
    requires Safe(w) && Remembered(w, cur)
    ensures w.ingested <= Connection(w, cur, passes).ingested
    decreases |passes|
  {
    if passes != [] {
      hide Sync, Safe, Remembered;
      SyncOnlyGives(w, passes[0], cur);
      SyncKeeps(w, passes[0], cur, cur);
      var s := Sync(w, passes[0], cur);
      if s.result.Ok? { ConnectionOnlyGives(s.w, s.w.cursor, passes[1..]); }
    }
  }

  /**
   An idling connection fetches what arrives while it waits: when its earlier passes have
   succeeded, a later pass that succeeds and sees UIDNEXT gives every served message above
   the cursor that the pass before it returned.
   */
  lemma ConnectionFetchesOn(w: World, cur: Cursor, earlier: seq<Script>, script: Script, later: seq<Script>, p: (nat, nat))
    requires Safe(w) && Remembered(w, cur) && AtRest(w) && Reached(w, cur, earlier).Some?
    requires var (q, c) := Reached(w, cur, earlier).value;
             && Known(q, p) && !Past(c, p) && (c.uidvalidity == Some(p.0) ==> p.1 < U32_MAX) && GoodPass(q, script, c, p)
    ensures p in Connection(w, cur, earlier + [script] + later).ingested
  {
    hide Sync, Safe, Remembered, AtRest, Known, Past;
    ReachedKeeps(w, cur, earlier);
    var (q, c) := Reached(w, cur, earlier).value;
    var s := Sync(q, script, c);
    ConnectionGoesOn(w, cur, earlier, script, later);
    GoodPassGives(q, script, c, p);
    SyncKeeps(q, script, c, c);
    assert GoodPass(q, script, c, p) ==> s.result.Ok?;
    ConnectionOnlyGives(s.w, s.w.cursor, later);
  }

  lemma {:induction false} PollRests(w: World, cfg: Cursor, passes: seq<Script>)
    requires Safe(w) && Remembered(w, cfg) && AtRest(w)
    ensures var q := Poll(w, cfg, passes); Safe(q) && Remembered(q, cfg) && AtRest(q)
    decreases |passes|
  {
    hide Sync, Safe, Remembered, AtRest;
    if passes != [] {
      SyncKeeps(w, passes[0], cfg, cfg);
      SyncRests(w, passes[0], cfg);
      PollRests(Sync(w, passes[0], cfg).w, cfg, passes[1..]);
    }
  }

  /** A polling task recovers a message that its first cursor is not past with any good pass, whatever came before it. */
  lemma LaterPollRecovers(w: World, cfg: Cursor, earlier: seq<Script>, script: Script, later: seq<Script>, p: (nat, nat))
    requires Safe(w) && Remembered(w, cfg) && AtRest(w) && !Past(cfg, p)
    requires var q := Poll(w, cfg, earlier);
             Known(q, p) && (cfg.uidvalidity == Some(p.0) ==> p.1 < U32_MAX) && GoodPass(q, script, cfg, p)
    ensures p in Poll(w, cfg, earlier + [script] + later).ingested
  {
    hide Sync, Safe, Remembered, AtRest, Known, Past, GoodPass;
    PollRests(w, cfg, earlier);
    EarlierStartRecovers(Poll(w, cfg, earlier), script, cfg, p, later);
    PollGoesOn(w, cfg, earlier, [script] + later);
    assert earlier + [script] + later == earlier + ([script] + later);
  }

  // ---- Where a pass begins and what it returns ----

  lemma PartitionBegins(ws: seq<(nat, nat)>, start: nat, end: nat)
    requires Partition(ws, start, end) && ws != []
    ensures ws[0].0 == start
  {
    assert Follows(ws, start, 0);
  }

  /** A pass in the epoch of its cursor asks first for the UID just above it. */
  lemma PassBeginsAboveItsCursor(w: World, script: Script, cfg: Cursor)
    requires Safe(w) && Remembered(w, cfg) && cfg.lastUid < U32_MAX
    ensures var s := Sync(w, script, cfg);
            s.result.Ok? && cfg.uidvalidity == Some(s.result.value.1) && s.w.fetches != [] ==> s.w.fetches[0].0 == cfg.lastUid + 1
  {
    hide Pass, Scan, Safe, Remembered, Partition;
    var s := Pass(w, script, cfg);
    if s.result.Ok? && cfg.uidvalidity == Some(s.result.value.1) {
      var before, rest, box := PassScans(w, script, cfg);
      ScanPartition(before, rest, s.result.value.1, Ceiling(box, Head(script).advertise), cfg.lastUid);
      if s.w.fetches != [] { PartitionBegins(s.w.fetches, cfg.lastUid + 1, s.w.closed.1); }
    }
  }

  /** `high` is the highest UID of epoch `v` ingested since `given`, or `start` if there is none. */
  ghost predicate Topped(given: set<(nat, nat)>, ingested: set<(nat, nat)>, v: nat, start: nat, high: nat) {
    && start <= high && (high == start || (v, high) in ingested)
    && forall p :: p in ingested && p !in given ==> p.0 == v && p.1 <= high
  }

  /** The scan so far: what it has ingested lies at or below `high`, and the cursor stands there once there is anything. */
  ghost predicate Noted(given: set<(nat, nat)>, w: World, v: nat, start: nat, batch: Batch) {
    && Topped(given, w.ingested, v, start, batch.high)
    && if batch.ingested > 0 then w.cursor == Cursor(Some(v), batch.high) else w.ingested == given && batch.high == start
  }

  /** What was ingested since `given` is at or below the cursor, or in the window fetched last. */
  ghost predicate OneWindowToRepeat(given: set<(nat, nat)>, w: World, v: nat) {
    forall p :: p in w.ingested && p !in given ==>
      && p.0 == v
      && ((w.cursor.uidvalidity == Some(v) && p.1 <= w.cursor.lastUid)
          || (w.fetches != [] && Holds(w.fetches[|w.fetches| - 1], p.1)))
  }

  lemma IngestItemAdds(w: World, script: Script, v: nat, item: FetchItem, batch: Batch)
    ensures var r := IngestItem(w, script, v, item, batch);
            && r.w.cursor == w.cursor && r.w.fetches == w.fetches
            && (r.w.ingested == w.ingested
                || (item.uid.Some? && item.body.Some? && r.w.ingested == w.ingested + {(v, item.uid.value)}))
            && (r.result.Ok? ==>
                  || (r.w.ingested == w.ingested && r.result.value == batch)
                  || (&& item.uid.Some? && r.w.ingested == w.ingested + {(v, item.uid.value)}
                      && r.result.value.ingested == batch.ingested + 1
                      && r.result.value.high == if item.uid.value > batch.high then item.uid.value else batch.high))
  {
    EnvLeaves(w, Head(script).env);
    var w1, script1 := Env(w, Head(script).env), Rest(script);
    EnvLeaves(w1, Head(script1).env);
    if item.uid.Some? && item.body.Some? {
      var w2 := StoreBlob(Env(w1, Head(script1).env), item.body.value);
      EnvLeaves(w2, Head(Rest(script1)).env);
    }
  }

  lemma {:induction false} IngestItemsAdd(
    given: set<(nat, nat)>, w: World, script: Script, v: nat, items: seq<FetchItem>, batch: Batch, start: nat, from: nat, to: nat)
    requires forall i :: 0 <= i < |items| && items[i].uid.Some? && items[i].body.Some? ==> from <= items[i].uid.value <= to
    requires Topped(given, w.ingested, v, start, batch.high)
    ensures var r := IngestItems(w, script, v, items, batch);
            && r.w.cursor == w.cursor && r.w.fetches == w.fetches && w.ingested <= r.w.ingested
            && (forall p :: p in r.w.ingested && p !in w.ingested ==> p.0 == v && from <= p.1 <= to)
            && (r.result.Ok? ==>
                  && Topped(given, r.w.ingested, v, start, r.result.value.high) && r.result.value.ingested >= batch.ingested
                  && (r.result.value.ingested == batch.ingested ==> r.w.ingested == w.ingested && r.result.value == batch))
    decreases |items|
  {
    if items != [] {
      IngestItemAdds(w, script, v, items[0], batch);
      hide IngestItem;
      var r := IngestItem(w, script, v, items[0], batch);
      if r.result.Ok? {
        IngestItemsAdd(given, r.w, r.script, v, items[1..], r.result.value, start, from, to);
      }
    }
  }

  lemma CheckpointNotes(w: World, script: Script, v: nat, uid: nat)
    ensures var c := Checkpoint(w, script, v, uid);
            && c.w.ingested == w.ingested && c.w.fetches == w.fetches
            && (c.w.cursor == w.cursor || c.w.cursor == Cursor(Some(v), uid))
            && (c.result.Ok? ==> c.w.cursor == Cursor(Some(v), uid))
  {
    EnvLeaves(w, Head(script).env);
  }

  lemma NotedRepeats(given: set<(nat, nat)>, w: World, v: nat, start: nat, batch: Batch)
    requires Noted(given, w, v, start, batch)
    ensures OneWindowToRepeat(given, w, v)
  {}

  lemma OneWindowNotes(given: set<(nat, nat)>, w: World, script: Script, v: nat, from: nat, to: nat, batch: Batch, start: nat)
    requires Noted(given, w, v, start, batch)
    ensures var r := OneWindow(w, script, v, from, to, batch);
            && OneWindowToRepeat(given, r.w, v)
            && (r.result.Ok? ==> Noted(given, r.w, v, start, r.result.value))
  {
    hide IngestItems, Checkpoint;
    var t := Head(script);
    EnvLeaves(w, t.env);
    var w1 := Env(w, t.env);
    NotedRepeats(given, w, v, start, batch);
    if t.fault == NoFault && w1.validity == v && v in w1.boxes && CompleteAnswer(w1.boxes[v], from, to, t.items) {
      var w2 := CloseWindow(w1, v, from, to);
      IngestItemsAdd(given, w2, Rest(script), v, t.items, batch, start, from, to);
      var r := IngestItems(w2, Rest(script), v, t.items, batch);
      assert w2.fetches[|w2.fetches| - 1] == (from, to);
      if r.result.Ok? { CheckpointNotes(r.w, r.script, v, r.result.value.high); }
    }
  }

  lemma FinishNotes(given: set<(nat, nat)>, w: World, script: Script, v: nat, batch: Batch, start: nat)
    requires Noted(given, w, v, start, batch)
    ensures var r := Finish(w, script, v, batch);
            && OneWindowToRepeat(given, r.w, v)
            && (r.result.Ok? ==>
                  r.result.value == (batch.high, v) && r.w.cursor == Cursor(Some(v), batch.high)
                  && Topped(given, r.w.ingested, v, start, batch.high))
  {
    hide Checkpoint;
    CheckpointNotes(w, script, v, batch.high);
  }

  lemma {:induction false} WindowsNote(
    given: set<(nat, nat)>, w: World, script: Script, v: nat, upper: Option<nat>, from: nat, batch: Batch, start: nat)
    requires from <= U32_MAX && (upper.Some? ==> upper.value <= U32_MAX)
    requires Noted(given, w, v, start, batch)
    ensures var r := Windows(w, script, v, upper, from, batch);
            && OneWindowToRepeat(given, r.w, v)
            && (r.result.Ok? ==>
                  && r.result.value.1 == v && r.w.cursor == Cursor(Some(v), r.result.value.0)
                  && Topped(given, r.w.ingested, v, start, r.result.value.0))
    decreases U32_MAX - from
  {
    hide OneWindow, Finish, Noted, OneWindowToRepeat, Topped;
    var to := WindowEnd(from, upper);
    OneWindowNotes(given, w, script, v, from, to, batch, start);
    var r := OneWindow(w, script, v, from, to, batch);
    if r.result.Ok? {
      FinishNotes(given, r.w, r.script, v, r.result.value, start);
      if !LastWindow(to, upper, r.result.value.ingested > batch.ingested) {
        WindowsNote(given, r.w, r.script, v, upper, SaturatingAdd(to, 1), r.result.value, start);
      }
    }
  }

  lemma ScanNotes(w: World, script: Script, v: nat, upper: Option<nat>, last: nat)
    requires upper.Some? ==> upper.value <= U32_MAX
    ensures var r := Scan(w, script, v, upper, last);
            && OneWindowToRepeat(w.ingested, r.w, v)
            && (r.result.Ok? ==>
                  && r.result.value.1 == v && r.w.cursor == Cursor(Some(v), r.result.value.0)
                  && Topped(w.ingested, r.w.ingested, v, last, r.result.value.0))
  {
    hide Windows, Finish, OneWindowToRepeat;
    var w1 := BeginScan(w, v, last);
    FinishNotes(w.ingested, w1, script, v, Batch(last, 0), last);
    WindowsNote(w.ingested, w1, script, v, upper, SaturatingAdd(last, 1), Batch(last, 0), last);
  }

  /**
   A pass that succeeds stores and returns the highest UID it has ingested, or its start if it
   has ingested nothing new; and wherever a pass stops, all it has ingested lies at or below
   the stored cursor or in the one window it was in, which is all the next pass repeats.
   */
  lemma PassStoresItsHighestUid(w: World, script: Script, cfg: Cursor)
    ensures var s, v := Sync(w, script, cfg), Env(w, Head(script).env).validity;
            && OneWindowToRepeat(w.ingested, s.w, v)
            && (s.result.Ok? ==>
                  var high := s.result.value.0;
                  && s.result.value.1 == v && s.w.cursor == Cursor(Some(v), high)
                  && Topped(w.ingested, s.w.ingested, v, StartUid(cfg, v), high))
  {
    hide Scan, HandleChange, Env, Topped;
    var t := Head(script);
    var w1 := Env(w, t.env);
    EnvLeaves(w, t.env);
    if t.fault == NoFault && w1.validity in w1.boxes {
      var v := w1.validity;
      var upper, h := Ceiling(w1.boxes[v], t.advertise), HandleChange(w1, Rest(script), v);
      HandleChangeGives(w1, Rest(script), v);
      ScanNotes(h.w, h.script, v, upper, 0);
      ScanNotes(w1, Rest(script), v, upper, cfg.lastUid);
    }
  }

  // ---- What can come between ----

  /** An item without a UID or a body is passed over: the pass goes on as if it had not come. */
  lemma {:induction false} BodilessItemsArePassedOver(w: World, script: Script, v: nat, items: seq<FetchItem>, batch: Batch)
    requires forall i :: 0 <= i < |items| ==> items[i].uid.None? || items[i].body.None?
    requires |items| <= |script| && forall i :: 0 <= i < |items| ==> script[i].fault == NoFault
    ensures var r := IngestItems(w, script, v, items, batch);
            r.result == Ok(batch) && r.script == script[|items|..] && r.w.ingested == w.ingested && r.w.cursor == w.cursor
    decreases |items|
  {
    if items != [] {
      EnvLeaves(w, script[0].env);
      BodilessItemsArePassedOver(Env(w, script[0].env), script[1..], v, items[1..], batch);
    }
  }

  /** An error may come after the effect as well as before it: the cursor is then stored, or the job enqueued, all the same. */
  lemma ErrorsCanComeLate(w: World, script: Script, v: nat, uid: nat, raw: Bytes)
    ensures Head(script).fault.After? ==>
              && Checkpoint(w, script, v, uid).result.Err? && Checkpoint(w, script, v, uid).w.cursor == Cursor(Some(v), uid)
              && DeleteLocations(w, script).result.Err? && DeleteLocations(w, script).w.located == {}
              && IngestRaw(w, script, v, uid, raw).result.Err? && raw in IngestRaw(w, script, v, uid, raw).w.blobs
    ensures Head(script).fault == NoFault && Head(Rest(script)).fault.After? ==>
              && IngestRaw(w, script, v, uid, raw).result.Err? && (v, uid) in IngestRaw(w, script, v, uid, raw).w.ingested
              && raw in IngestRaw(w, script, v, uid, raw).w.jobs
  {
    hide Env;
  }

  /** Mail is expunged and jobs end while a pass runs. */
  lemma OthersGoOn(w: World, uid: nat, raw: Bytes)
    requires w.validity in w.boxes
    ensures uid !in EnvOne(w, Expunge(uid)).boxes[w.validity].present
    ensures raw in w.jobs ==> raw in EnvOne(w, ParseDone(raw)).located && EnvOne(w, ParseDone(raw)).jobs == w.jobs - multiset{raw}
    ensures raw in w.jobs ==> raw in EnvOne(w, ParseFailed(raw)).failed && EnvOne(w, ParseFailed(raw)).jobs == w.jobs - multiset{raw}
  {}
}
