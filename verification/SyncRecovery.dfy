/**
 What becomes of a lost message. A pass that starts above it, in its epoch or a later one,
 never asks for it again; a pass that starts below it fetches it. So a loss outlasts every
 restart, which reads the persisted cursor, and ends with the next good pass of a task that
 still starts from an older one.
 */
module SyncRecovery {
  import opened Wrappers
  import opened SyncWorld
  import opened ImapSync
  import opened SyncSafety
  import opened SyncOvertaking
  import opened SyncCoverage
  import opened SyncLoss

  /** A scan from the cursor begins above the message, or in a later epoch. */
  predicate Past(c: Cursor, p: (nat, nat)) {
    c.uidvalidity.Some? &&
    (p.0 < c.uidvalidity.value || (p.0 == c.uidvalidity.value && p.1 < SaturatingAdd(c.lastUid, 1)))
  }

  /** What a step leaves alone: the message stays ungiven, and a cursor past it stays past it. */
  predicate Misses(w: World, w': World, p: (nat, nat)) {
    (p !in w.ingested ==> p !in w'.ingested) && (Past(w.cursor, p) ==> Past(w'.cursor, p))
  }

  // ---- A pass from above ----

  lemma {:induction false} EnvLeaves(w: World, es: seq<EnvStep>)
    ensures var w' := Env(w, es); w'.cursor == w.cursor && w'.ingested == w.ingested && w'.fetches == w.fetches
    decreases |es|
  {
    if es != [] {
      OneLeaves(w, es[0]);
      EnvLeaves(EnvOne(w, es[0]), es[1..]);
    }
  }

  lemma CheckpointMisses(w: World, script: Script, v: nat, uid: nat, p: (nat, nat))
    requires Past(Cursor(Some(v), uid), p)
    ensures Misses(w, Checkpoint(w, script, v, uid).w, p)
  {
    EnvLeaves(w, Head(script).env);
  }

  lemma IngestItemMisses(w: World, script: Script, v: nat, item: FetchItem, batch: Batch, p: (nat, nat))
    requires item.uid.Some? ==> p != (v, item.uid.value)
    ensures var r := IngestItem(w, script, v, item, batch);
            && Misses(w, r.w, p) && (r.result.Ok? ==> r.result.value.high >= batch.high)
  {
    EnvLeaves(w, Head(script).env);
    var w1, script1 := Env(w, Head(script).env), Rest(script);
    EnvLeaves(w1, Head(script1).env);
    if item.uid.Some? && item.body.Some? {
      var w2 := StoreBlob(Env(w1, Head(script1).env), item.body.value);
      EnvLeaves(w2, Head(Rest(script1)).env);
    }
  }

  lemma PassedOver(w: World, script: Script, v: nat, item: FetchItem, batch: Batch, p: (nat, nat))
    requires item.uid.None? || item.body.None?
    ensures var r := IngestItem(w, script, v, item, batch);
            && Misses(w, r.w, p) && (r.result.Ok? ==> r.result.value.high >= batch.high)
  {
    EnvLeaves(w, Head(script).env);
  }

  lemma {:induction false} IngestItemsMiss(w: World, script: Script, v: nat, items: seq<FetchItem>, batch: Batch, p: (nat, nat))
    requires forall i :: 0 <= i < |items| && items[i].uid.Some? && items[i].body.Some? ==> p != (v, items[i].uid.value)
    ensures var r := IngestItems(w, script, v, items, batch);
            && Misses(w, r.w, p) && (r.result.Ok? ==> r.result.value.high >= batch.high)
    decreases |items|
  {
    if items != [] {
      hide IngestItem, Past;
      if items[0].uid.Some? && items[0].body.Some? {
        IngestItemMisses(w, script, v, items[0], batch, p);
      } else {
        PassedOver(w, script, v, items[0], batch, p);
      }
      var r := IngestItem(w, script, v, items[0], batch);
      if r.result.Ok? { IngestItemsMiss(r.w, r.script, v, items[1..], r.result.value, p); }
    }
  }

  /** The scan of epoch `v` from `from` on cannot meet the message. */
  predicate Beyond(v: nat, from: nat, p: (nat, nat)) { p.0 < v || (p.0 == v && p.1 < from) }

  lemma OneWindowMisses(w: World, script: Script, v: nat, from: nat, to: nat, batch: Batch, p: (nat, nat))
    requires Beyond(v, from, p) && Past(Cursor(Some(v), batch.high), p)
    ensures var r := OneWindow(w, script, v, from, to, batch);
            && Misses(w, r.w, p) && (r.result.Ok? ==> r.result.value.high >= batch.high)
  {
    hide IngestItems, Checkpoint;
    var t := Head(script);
    EnvLeaves(w, t.env);
    var w1 := Env(w, t.env);
    if t.fault == NoFault && w1.validity == v && v in w1.boxes && CompleteAnswer(w1.boxes[v], from, to, t.items) {
      var w2 := CloseWindow(w1, v, from, to);
      IngestItemsMiss(w2, Rest(script), v, t.items, batch, p);
      var r := IngestItems(w2, Rest(script), v, t.items, batch);
      if r.result.Ok? { CheckpointMisses(r.w, r.script, v, r.result.value.high, p); }
    }
  }

  lemma {:induction false} WindowsMiss(w: World, script: Script, v: nat, upper: Option<nat>, from: nat, batch: Batch,
                                       p: (nat, nat))
    requires from <= U32_MAX && (upper.Some? ==> upper.value <= U32_MAX)
    requires Beyond(v, from, p) && Past(Cursor(Some(v), batch.high), p)
    ensures Misses(w, Windows(w, script, v, upper, from, batch).w, p)
    decreases U32_MAX - from
  {
    hide OneWindow, Checkpoint;
    var to := WindowEnd(from, upper);
    OneWindowMisses(w, script, v, from, to, batch, p);
    var r := OneWindow(w, script, v, from, to, batch);
    if r.result.Ok? {
      CheckpointMisses(r.w, r.script, v, r.result.value.high, p);
      if !LastWindow(to, upper, r.result.value.ingested > batch.ingested) {
        WindowsMiss(r.w, r.script, v, upper, SaturatingAdd(to, 1), r.result.value, p);
      }
    }
  }

  lemma ScanMisses(w: World, script: Script, v: nat, upper: Option<nat>, last: nat, p: (nat, nat))
    requires (upper.Some? ==> upper.value <= U32_MAX) && Past(Cursor(Some(v), last), p)
    ensures Misses(w, Scan(w, script, v, upper, last).w, p)
  {
    hide Windows, Checkpoint;
    var w1 := BeginScan(w, v, last);
    CheckpointMisses(w1, script, v, last, p);
    WindowsMiss(w1, script, v, upper, SaturatingAdd(last, 1), Batch(last, 0), p);
  }

  lemma HandleChangeMisses(w: World, script: Script, v: nat, p: (nat, nat))
    requires p.0 < v
    ensures Misses(w, HandleChange(w, script, v).w, p)
  {
    HandleChangeSplits(w, script, v);
    hide HandleChange, Checkpoint;
    CheckpointMisses(w, script, v, 0, p);
    var reset := Checkpoint(w, script, v, 0);
    EnvLeaves(reset.w, Head(reset.script).env);
  }

  /** A pass that starts past the message does not give it, and leaves every cursor past it. */
  lemma PassFromAboveMisses(w: World, script: Script, cfg: Cursor, p: (nat, nat))
    requires Valid(w) && Remembered(w, cfg) && Past(cfg, p)
    ensures Misses(w, Sync(w, script, cfg).w, p)
  {
    hide Scan, HandleChange, Env, Remembered, Valid, Onward;
    var t := Head(script);
    var w1 := Env(w, t.env);
    EnvLeaves(w, t.env);
    EnvIsCalm(w, t.env);
    CalmIsOnward(w, w1);
    OnwardKeepsRemembered(w, w1, cfg);
    if t.fault != NoFault || w1.validity !in w1.boxes { return; }
    RememberedStart(w1, cfg);
    var v := w1.validity;
    var upper := Ceiling(w1.boxes[v], t.advertise);
    if cfg.uidvalidity.value != v {
      HandleChangeMisses(w1, Rest(script), v, p);
      var h := HandleChange(w1, Rest(script), v);
      ScanMisses(h.w, h.script, v, upper, 0, p);
    } else {
      ScanMisses(w1, Rest(script), v, upper, cfg.lastUid, p);
    }
  }

  // ---- Lives from above ----

  lemma {:induction false} PollMisses(w: World, cfg: Cursor, passes: seq<Script>, p: (nat, nat))
    requires Safe(w) && Remembered(w, cfg) && Past(cfg, p)
    ensures Misses(w, Poll(w, cfg, passes), p)
    decreases |passes|
  {
    if passes != [] {
      hide Sync, Safe, Valid, Remembered;
      SafeIsValid(w);
      SyncKeeps(w, passes[0], cfg, cfg);
      PassFromAboveMisses(w, passes[0], cfg, p);
      PollMisses(Sync(w, passes[0], cfg).w, cfg, passes[1..], p);
    }
  }

  lemma {:induction false} ConnectionMisses(w: World, cur: Cursor, passes: seq<Script>, p: (nat, nat))
    requires Safe(w) && Remembered(w, cur) && Past(cur, p) && Past(w.cursor, p)
    ensures Misses(w, Connection(w, cur, passes), p)
    decreases |passes|
  {
    if passes != [] {
      hide Sync, Safe, Valid, Remembered;
      SafeIsValid(w);
      SyncKeeps(w, passes[0], cur, cur);
      PassFromAboveMisses(w, passes[0], cur, p);
      var s := Sync(w, passes[0], cur);
      if s.result.Ok? { ConnectionMisses(s.w, s.w.cursor, passes[1..], p); }
    }
  }

  lemma {:induction false} IdleMisses(w: World, folder: Cursor, connections: seq<seq<Script>>, p: (nat, nat))
    requires Safe(w) && Remembered(w, folder) && Past(folder, p) && Past(w.cursor, p)
    ensures Misses(w, Idle(w, folder, connections), p)
    decreases |connections|
  {
    if connections != [] {
      hide Safe, Remembered, Connection;
      ConnectionKeeps(w, folder, connections[0], folder);
      ConnectionMisses(w, folder, connections[0], p);
      IdleMisses(Connection(w, folder, connections[0]), folder, connections[1..], p);
    }
  }

  /**
   A loss is lasting: whatever lives follow, polled or idling, with whatever scripts, the
   message is never given to `ingest_raw`, because every process starts from the cursor
   that has passed it.
   */
  lemma {:induction false} LossOutlastsEveryRestart(w: World, runs: seq<Incarnation>, p: (nat, nat))
    requires Safe(w) && Past(w.cursor, p) && p !in w.ingested
    ensures p !in Live(w, runs).ingested && Past(Live(w, runs).cursor, p)
    decreases |runs|
  {
    if runs != [] {
      hide Safe, Remembered, Poll, Idle, Past;
      SafeCursorIsRemembered(w);
      match runs[0] {
        case Polled(passes) =>
          PollKeeps(w, w.cursor, passes);
          PollMisses(w, w.cursor, passes, p);
          LossOutlastsEveryRestart(Poll(w, w.cursor, passes), runs[1..], p);
        case Idled(connections) =>
          IdleKeeps(w, w.cursor, connections);
          IdleMisses(w, w.cursor, connections, p);
          LossOutlastsEveryRestart(Idle(w, w.cursor, connections), runs[1..], p);
      }
    }
  }

  // ---- A pass from below ----

  lemma HandleChangeGives(w: World, script: Script, v: nat)
    ensures HandleChange(w, script, v).w.ingested == w.ingested
  {
    HandleChangeSplits(w, script, v);
    hide HandleChange;
    EnvLeaves(w, Head(script).env);
    var reset := Checkpoint(w, script, v, 0);
    EnvLeaves(reset.w, Head(reset.script).env);
  }

  /** Nothing that has been given is ever ungiven. */
  lemma SyncOnlyGives(w: World, script: Script, cfg: Cursor)
    requires Safe(w) && Remembered(w, cfg)
    ensures w.ingested <= Sync(w, script, cfg).w.ingested
  {
    hide Scan, HandleChange, Env, Safe, Remembered;
    var t := Head(script);
    var w1 := Env(w, t.env);
    SafeIsValid(w);
    EnvLeaves(w, t.env);
    EnvIsCalm(w, t.env);
    CalmIsOnward(w, w1);
    OnwardKeepsSafe(w, w1);
    OnwardKeepsRemembered(w, w1, cfg);
    if t.fault != NoFault { return; }
    RememberedStart(w1, cfg);
    var v := w1.validity;
    var upper := Ceiling(w1.boxes[v], t.advertise);
    if cfg.uidvalidity.Some? && cfg.uidvalidity.value != v {
      FirstSightIsRemembered(w1);
      HandleChangeKeeps(w1, Rest(script), v, Cursor(None, 0));
      HandleChangeGives(w1, Rest(script), v);
      var h := HandleChange(w1, Rest(script), v);
      if h.result.Ok? {
        SafeIsValid(h.w);
        ZeroCursorOk(h.w, v);
        ScanKeeps(h.w, h.script, v, upper, 0);
      }
    } else {
      ScanKeeps(w1, Rest(script), v, upper, cfg.lastUid);
    }
  }

  lemma {:induction false} PollOnlyGives(w: World, cfg: Cursor, passes: seq<Script>)
    requires Safe(w) && Remembered(w, cfg)
    ensures w.ingested <= Poll(w, cfg, passes).ingested
    decreases |passes|
  {
    if passes != [] {
      hide Sync, Safe, Remembered;
      SyncOnlyGives(w, passes[0], cfg);
      SyncKeeps(w, passes[0], cfg, cfg);
      PollOnlyGives(Sync(w, passes[0], cfg).w, cfg, passes[1..]);
    }
  }

  /** SELECT finds a mailbox whose UIDNEXT lies above every message of its epoch. */
  lemma SelectedGrows(w: World, script: Script, p: (nat, nat))
    requires Valid(w) && Known(w, p) && Env(w, Head(script).env).validity == p.0
    ensures Selected(w, script).Some? && 1 <= p.1 < Selected(w, script).value.uidNext
  {
    EnvIsCalm(w, Head(script).env);
    assert BoxGrows(w, Env(w, Head(script).env), p.0);
  }

  lemma {:induction false} WindowsReportEpoch(w: World, script: Script, v: nat, upper: Option<nat>, from: nat, batch: Batch)
    requires from <= U32_MAX && (upper.Some? ==> upper.value <= U32_MAX)
    ensures var r := Windows(w, script, v, upper, from, batch).result; r.Ok? ==> r.value.1 == v
    decreases U32_MAX - from
  {
    hide OneWindow, Checkpoint;
    var to := WindowEnd(from, upper);
    var r := OneWindow(w, script, v, from, to, batch);
    if r.result.Ok? && !LastWindow(to, upper, r.result.value.ingested > batch.ingested) {
      WindowsReportEpoch(r.w, r.script, v, upper, SaturatingAdd(to, 1), r.result.value);
    }
  }

  lemma PassReportsEpoch(w: World, script: Script, cfg: Cursor)
    ensures var r := Pass(w, script, cfg).result; r.Ok? ==> r.value.1 == Env(w, Head(script).env).validity
  {
    hide Windows, Checkpoint, HandleChange, Env;
    var t := Head(script);
    var w1 := Env(w, t.env);
    if t.fault == NoFault && w1.validity in w1.boxes {
      var v, upper := w1.validity, Ceiling(w1.boxes[w1.validity], t.advertise);
      var h := HandleChange(w1, Rest(script), v);
      WindowsReportEpoch(BeginScan(h.w, v, 0), h.script, v, upper, 1, Batch(0, 0));
      WindowsReportEpoch(BeginScan(w1, v, cfg.lastUid), Rest(script), v, upper, SaturatingAdd(cfg.lastUid, 1), Batch(cfg.lastUid, 0));
    }
  }

  /** A good pass of the message's epoch from below it, with UIDNEXT. */
  ghost predicate GoodPass(w: World, script: Script, cfg: Cursor, p: (nat, nat)) {
    && Head(script).advertise && Selected(w, script).Some? && Selected(w, script).value.uidNext <= U32_MAX
    && var s := Sync(w, script, cfg);
       s.result.Ok? && s.result.value.1 == p.0 && p.0 in s.w.boxes && Served(s.w, p.0, p.1)
  }

  lemma FirstSightIsZero(w: World, cfg: Cursor)
    requires Remembered(w, cfg)
    ensures cfg.uidvalidity.None? ==> cfg.lastUid == 0
  {}

  lemma GoodPassGives(w: World, script: Script, cfg: Cursor, p: (nat, nat))
    requires Safe(w) && Remembered(w, cfg) && AtRest(w) && Known(w, p) && !Past(cfg, p)
    requires (cfg.uidvalidity == Some(p.0) ==> p.1 < U32_MAX) && GoodPass(w, script, cfg, p)
    ensures p in Sync(w, script, cfg).w.ingested
  {
    hide Pass, Safe, Valid, Remembered, Selected, Env;
    SafeIsValid(w);
    PassReportsEpoch(w, script, cfg);
    SelectedGrows(w, script, p);
    FirstSightIsZero(w, cfg);
    assert StartUid(cfg, p.0) < p.1;
    AdvertisedPassIsComplete(w, script, cfg, Selected(w, script).value);
  }

  /**
   A task that still starts below the message recovers it: one good pass gives it, if it is
   still in the mailbox, and no later pass takes that back.
   */
  lemma EarlierStartRecovers(w: World, script: Script, cfg: Cursor, p: (nat, nat), later: seq<Script>)
    requires Safe(w) && Remembered(w, cfg) && AtRest(w) && Known(w, p) && !Past(cfg, p)
    requires (cfg.uidvalidity == Some(p.0) ==> p.1 < U32_MAX) && GoodPass(w, script, cfg, p)
    ensures p in Poll(w, cfg, [script] + later).ingested
  {
    hide Sync, Safe, Remembered, GoodPass;
    GoodPassGives(w, script, cfg, p);
    SyncKeeps(w, script, cfg, cfg);
    PollOnlyGives(Sync(w, script, cfg).w, cfg, later);
    assert ([script] + later)[1..] == later;
  }

  // ---- A good pass exists ----

  /** An answer to `UID FETCH from:to` with exactly the bodies there are. */
  function Answer(box: Mailbox, from: nat, to: nat): (items: seq<FetchItem>)
    ensures AllBodies(items)
    decreases (to + 1) - from
  {
    if from > to then []
    else
      (if from in box.present && box.present[from].served then [FetchItem(Some(from), Some(box.present[from].raw))] else [])
      + Answer(box, from + 1, to)
  }

  lemma {:induction false} AnswerIsComplete(box: Mailbox, from: nat, to: nat)
    ensures CompleteAnswer(box, from, to, Answer(box, from, to))
    decreases (to + 1) - from
  {
    if from <= to {
      AnswerIsComplete(box, from + 1, to);
      var first := if from in box.present && box.present[from].served
                   then [FetchItem(Some(from), Some(box.present[from].raw))] else [];
      var items, rest := Answer(box, from, to), Answer(box, from + 1, to);
      assert items == first + rest;
      forall i | 0 <= i < |items|
        ensures var uid := items[i].uid.value;
                from <= uid <= to && uid in box.present && box.present[uid] == Mail(items[i].body.value, true)
      {
        if i >= |first| { assert items[i] == rest[i - |first|]; }
      }
      forall uid | uid in box.present && from <= uid <= to && box.present[uid].served
        ensures FetchItem(Some(uid), Some(box.present[uid].raw)) in items
      {
        if uid == from { assert items[0] == first[0]; }
      }
    }
  }

  lemma WindowLeavesBoxes(w: World, v: nat, from: nat, to: nat, items: seq<FetchItem>, high: nat)
    requires AllBodies(items)
    ensures var w1 := WindowWorld(w, [], v, from, to, items, high); w1.validity == w.validity && w1.boxes == w.boxes
  {
    AfterItemsLeaves(CloseWindow(w, v, from, to), v, items);
    hide AfterItems;
  }

  lemma {:induction false} CalmWindows(w: World, v: nat, upper: nat, from: nat, batch: Batch) returns (script: Script)
    requires w.validity == v && v in w.boxes && from <= upper <= U32_MAX
    ensures var s := Windows(w, script, v, Some(upper), from, batch); s.result.Ok? && s.w.boxes == w.boxes
    decreases U32_MAX - from
  {
    hide OneWindow, WindowScript, WindowWorld, Answer, HighOf, Windows, CompleteAnswer;
    var to := WindowEnd(from, Some(upper));
    var items := Answer(w.boxes[v], from, to);
    AnswerIsComplete(w.boxes[v], from, to);
    WindowLeavesBoxes(w, v, from, to, items, batch.high);
    var w1 := WindowWorld(w, [], v, from, to, items, batch.high);
    var batch1 := Batch(HighOf(items, batch.high), batch.ingested + |items|);
    var rest := [CALM];
    if to < upper {
      rest := CalmWindows(w1, v, upper, to + 1, batch1);
    }
    script := WindowScript([], items, rest);
    WindowCalm(w, [], rest, v, from, to, items, batch);
    OneTurn(w, script, v, Some(upper), from, batch, Step(w1, rest, Ok(batch1)));
    assert Env(w1, []) == w1;
  }

  lemma CalmScan(w: World, v: nat, last: nat) returns (script: Script)
    requires w.validity == v && v in w.boxes && ValidMailbox(w.boxes[v]) && w.boxes[v].uidNext <= U32_MAX
    requires last < w.boxes[v].uidNext
    ensures var s := Scan(w, script, v, Ceiling(w.boxes[v], true), last);
            s.result.Ok? && s.w.boxes == w.boxes
  {
    var upper, w1 := w.boxes[v].uidNext - 1, BeginScan(w, v, last);
    hide Windows;
    if upper < last + 1 {
      script := [CALM];
      assert Env(w1, []) == w1;
    } else {
      script := CalmWindows(w1, v, upper, last + 1, Batch(last, 0));
    }
  }

  lemma SameHandleChange(w: World, v: nat, rest: Script, rest': Script)
    ensures HandleChange(w, [CALM, CALM] + rest, v).w == HandleChange(w, [CALM, CALM] + rest', v).w
  {
    assert ([CALM, CALM] + rest)[1..] == [CALM] + rest && ([CALM, CALM] + rest')[1..] == [CALM] + rest';
  }

  /** From every safe world and every remembered cursor a pass with UIDNEXT can succeed. */
  lemma CalmPass(w: World, cfg: Cursor) returns (script: Script)
    requires Safe(w) && Remembered(w, cfg) && w.boxes[w.validity].uidNext <= U32_MAX
    ensures Head(script).advertise && Selected(w, script) == Some(w.boxes[w.validity])
    ensures var s := Pass(w, script, cfg);
            s.result.Ok? && s.result.value.1 == w.validity && s.w.boxes == w.boxes
  {
    var v, t := w.validity, Tick([], NoFault, true, []);
    assert Env(w, []) == w;
    RememberedStart(w, cfg);
    assert ValidMailbox(w.boxes[v]);
    hide Scan, HandleChange, Safe, Remembered, Pass;
    var later;
    if cfg.uidvalidity.None? || cfg.uidvalidity.value == v {
      later := CalmScan(w, v, cfg.lastUid);
    } else {
      var w1 := HandleChange(w, [CALM, CALM] + [], v).w;
      CalmHandleChange(w, v, []);
      var rest := CalmScan(w1, v, 0);
      CalmHandleChange(w, v, rest);
      SameHandleChange(w, v, [], rest);
      later := [CALM, CALM] + rest;
    }
    script := [t] + later;
    PassOpens(w, [], true, later, cfg);
    PassReportsEpoch(w, script, cfg);
  }

  /**
   The exact condition: a message that was not given, and is still there, stays ungiven in
   every sequence of passes from a start-time cursor if and only if that cursor is past it.
   */
  lemma LossLastsExactlyFromPastIt(w: World, cfg: Cursor, p: (nat, nat))
    requires Safe(w) && AtRest(w) && Remembered(w, cfg)
    requires p.0 == w.validity && Served(w, p.0, p.1) && p !in w.ingested && w.boxes[p.0].uidNext <= U32_MAX
    ensures (forall passes :: p !in Poll(w, cfg, passes).ingested) <==> Past(cfg, p)
  {
    assert ValidMailbox(w.boxes[p.0]);
    if Past(cfg, p) {
      forall passes ensures p !in Poll(w, cfg, passes).ingested { PollMisses(w, cfg, passes, p); }
    } else {
      hide Pass, Safe, Remembered, Past, Poll, Selected;
      var script := CalmPass(w, cfg);
      EarlierStartRecovers(w, script, cfg, p, []);
      assert p in Poll(w, cfg, [script] + []).ingested;
    }
  }

  /** What a pass loses, short of the last UID there can be, its cursor is past. */
  lemma LostIsPast(w: World, p: (nat, nat))
    requires Lost(w, p) && p.1 < U32_MAX
    ensures Past(w.cursor, p) && p !in w.ingested
  {}

  /** One pass without UIDNEXT can lose a message for ever, whatever the process is restarted to do. */
  lemma MailIsLostForEver(w: World, cfg: Cursor, runs: seq<Incarnation>)
    requires Safe(w) && Remembered(w, cfg)
    ensures var p, s := (w.validity + 1, 150), Sync(w, LosingScript(w, cfg), cfg);
            s.result.Ok? && Lost(s.w, p) && p !in Live(s.w, runs).ingested
  {
    hide Sync, LosingScript, Safe, Remembered;
    var s := Sync(w, LosingScript(w, cfg), cfg);
    UnshieldedPassLosesMail(w, cfg);
    SyncKeeps(w, LosingScript(w, cfg), cfg, cfg);
    LostIsPast(s.w, (w.validity + 1, 150));
    LossOutlastsEveryRestart(s.w, runs, (w.validity + 1, 150));
  }

  // ---- Whole lives ----

  predicate AllAdvertise(runs: seq<Incarnation>, advertise: bool) {
    forall i | 0 <= i < |runs| ::
      match runs[i]
      case Polled(passes) => forall j | 0 <= j < |passes| :: Head(passes[j]).advertise == advertise
      case Idled(connections) =>
        forall j, k | 0 <= j < |connections| && 0 <= k < |connections[j]| :: Head(connections[j][k]).advertise == advertise
  }

  lemma OneScriptLife(w: World, script: Script)
    ensures Live(w, [Polled([script])]) == Sync(w, script, w.cursor).w
  {
    hide Sync;
    assert [script][1..] == [] && [Polled([script])][1..] == [];
    var w1 := Sync(w, script, w.cursor).w;
    assert Poll(w, w.cursor, [script]) == Poll(w1, w.cursor, []);
    assert Live(w1, []) == w1;
  }

  /**
   The promise of the sync, exactly: nothing at or below the persisted cursor is ever lost in
   any sequence of lives whose passes all see UIDNEXT, and something can be if none does.
   */
  lemma LivesAreLosslessExactlyWithUidNext(w: World, advertise: bool)
    requires Safe(w) && AtRest(w) && w.overtaken == {}
    ensures (forall runs, p :: AllAdvertise(runs, advertise) ==> !Lost(Live(w, runs), p)) <==> advertise
  {
    if advertise {
      forall runs, p | AllAdvertise(runs, advertise) ensures !Lost(Live(w, runs), p) {
        hide Safe, Live, Served;
        EveryLifeIsSafe(w, runs);
        LifeOvertakesNothing(w, runs);
        var w' := Live(w, runs);
        if Lost(w', p) { LostIsOvertaken(w', p); }
      }
    } else {
      var script := LosingScript(w, w.cursor);
      SafeCursorIsRemembered(w);
      UnshieldedPassLosesMail(w, w.cursor);
      OneScriptLife(w, script);
      hide Sync, LosingScript, Safe;
      assert AllAdvertise([Polled([script])], false);
      assert Lost(Live(w, [Polled([script])]), (w.validity + 1, 150));
    }
  }
}
