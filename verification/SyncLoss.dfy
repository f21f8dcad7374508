/**
 When the sync loses mail, exactly. A pass loses nothing, whatever happens around it, if
 and only if its SELECT advertised UIDNEXT; and what is lost comes back if and only if a
 later pass starts below it.
 */
module SyncLoss {
  import opened Wrappers
  import opened SyncWorld
  import opened ImapSync
  import opened SyncSafety
  import opened SyncOvertaking
  import opened SyncCoverage

  // ---- What it means to lose a message ----

  /** A served message of the cursor's epoch, at or below the cursor, that was never given to `ingest_raw`. */
  predicate Lost(w: World, p: (nat, nat)) {
    && w.cursor.uidvalidity == Some(p.0) && p.1 <= w.cursor.lastUid
    && p.0 in w.boxes && Served(w, p.0, p.1) && p !in w.ingested
  }

  /** In a safe world the exemption is exact: what is overtaken is what is lost. */
  lemma LostIsOvertaken(w: World, p: (nat, nat))
    requires Safe(w) && w.cursor.uidvalidity == Some(p.0) && p.1 <= w.cursor.lastUid
    ensures Lost(w, p) <==> p in w.overtaken && Served(w, p.0, p.1)
  {
    assert p.0 in w.boxes;
    if Lost(w, p) { assert Served(w, p.0, p.1) && !Handled(w, p.0, p.1); }
  }

  /** The pass moves the cursor past a message that neither it nor an earlier pass has given to `ingest_raw`. */
  ghost predicate Loses(w: World, script: Script, cfg: Cursor) {
    exists p :: Lost(Sync(w, script, cfg).w, p) && p !in w.overtaken
  }

  lemma ShieldedPassLosesNothing(w: World, script: Script, cfg: Cursor)
    requires Safe(w) && Remembered(w, cfg) && AtRest(w) && Shielded(script)
    ensures !Loses(w, script, cfg)
  {
    ShieldedPassOvertakesNothing(w, script, cfg);
    SyncKeeps(w, script, cfg, cfg);
    var s := Sync(w, script, cfg);
    hide Sync, Safe, Served;
    forall p | Lost(s.w, p) ensures p in w.overtaken { LostIsOvertaken(s.w, p); }
  }

  // ---- Passes without faults ----

  const CALM := Tick([], NoFault, false, [])

  /** The ticks of `n` items, three to each, and then the rest. */
  function ItemTicks(n: nat, rest: Script): Script {
    if n == 0 then rest else [CALM] + ([CALM] + ([CALM] + ItemTicks(n - 1, rest)))
  }

  predicate AllBodies(items: seq<FetchItem>) {
    forall i :: 0 <= i < |items| ==> items[i].uid.Some? && items[i].body.Some?
  }

  function AfterItems(w: World, v: nat, items: seq<FetchItem>): World
    requires AllBodies(items)
    decreases |items|
  {
    if items == [] then w else
    var raw := items[0].body.value;
    AfterItems(EnqueueParse(StoreBlob(w, raw), v, items[0].uid.value, raw), v, items[1..])
  }

  function HighOf(items: seq<FetchItem>, high: nat): (r: nat)
    requires AllBodies(items)
    ensures r >= high
  {
    if items == [] then high
    else HighOf(items[1..], if items[0].uid.value > high then items[0].uid.value else high)
  }

  lemma IngestItemCalm(w: World, rest: Script, v: nat, item: FetchItem, batch: Batch)
    requires item.uid.Some? && item.body.Some?
    ensures IngestItem(w, [CALM] + ([CALM] + ([CALM] + rest)), v, item, batch)
            == Step(EnqueueParse(StoreBlob(w, item.body.value), v, item.uid.value, item.body.value), rest,
                    Ok(Batch(if item.uid.value > batch.high then item.uid.value else batch.high, batch.ingested + 1)))
  {
    var s1 := [CALM] + rest;
    var s2 := [CALM] + s1;
    var s3 := [CALM] + s2;
    assert s3[1..] == s2 && s2[1..] == s1 && s1[1..] == rest;
    assert Env(w, []) == w;
  }

  lemma IngestItemsTurn(w: World, script: Script, v: nat, items: seq<FetchItem>, batch: Batch, r: Step<Batch>)
    requires items != [] && IngestItem(w, script, v, items[0], batch) == r && r.result.Ok?
    ensures IngestItems(w, script, v, items, batch) == IngestItems(r.w, r.script, v, items[1..], r.result.value)
  {
    hide IngestItem;
  }

  /** The first of some items: its three ticks, the world after it, and the batch so far. */
  lemma FirstItem(w: World, rest: Script, v: nat, items: seq<FetchItem>, batch: Batch)
    returns (w1: World, later: Script, batch1: Batch)
    requires AllBodies(items) && items != []
    ensures later == ItemTicks(|items| - 1, rest) && AfterItems(w, v, items) == AfterItems(w1, v, items[1..])
    ensures HighOf(items, batch.high) == HighOf(items[1..], batch1.high) && batch1.ingested == batch.ingested + 1
    ensures IngestItem(w, ItemTicks(|items|, rest), v, items[0], batch) == Step(w1, later, Ok(batch1))
  {
    hide IngestItem, StoreBlob, EnqueueParse;
    var raw, uid := items[0].body.value, items[0].uid.value;
    w1 := EnqueueParse(StoreBlob(w, raw), v, uid, raw);
    later := ItemTicks(|items| - 1, rest);
    batch1 := Batch(if uid > batch.high then uid else batch.high, batch.ingested + 1);
    IngestItemCalm(w, later, v, items[0], batch);
  }

  lemma NoItemsCalm(w: World, rest: Script, v: nat, batch: Batch)
    ensures ItemTicks(0, rest) == rest && AfterItems(w, v, []) == w && HighOf([], batch.high) == batch.high
    ensures IngestItems(w, rest, v, [], batch) == Step(w, rest, Ok(batch))
  {}

  lemma {:induction false} IngestItemsCalm(w: World, rest: Script, v: nat, items: seq<FetchItem>, batch: Batch)
    requires AllBodies(items)
    ensures IngestItems(w, ItemTicks(|items|, rest), v, items, batch)
            == Step(AfterItems(w, v, items), rest, Ok(Batch(HighOf(items, batch.high), batch.ingested + |items|)))
    decreases |items|
  {
    hide IngestItem, IngestItems, ItemTicks, AfterItems, HighOf;
    if items == [] {
      NoItemsCalm(w, rest, v, batch);
    } else {
      var w1, later, batch1 := FirstItem(w, rest, v, items, batch);
      IngestItemsCalm(w1, rest, v, items[1..], batch1);
      IngestItemsTurn(w, ItemTicks(|items|, rest), v, items, batch, Step(w1, later, Ok(batch1)));
    }
  }

  lemma {:induction false} AfterItemsLeaves(w: World, v: nat, items: seq<FetchItem>)
    requires AllBodies(items)
    ensures var w' := AfterItems(w, v, items);
            && w'.validity == w.validity && w'.boxes == w.boxes && w'.cursor == w.cursor
            && w'.closed == w.closed && w'.fetches == w.fetches
            && forall p :: p in w'.ingested <==> p in w.ingested || exists i :: 0 <= i < |items| && p == (v, items[i].uid.value)
    decreases |items|
  {
    if items != [] {
      var raw := items[0].body.value;
      var w1 := EnqueueParse(StoreBlob(w, raw), v, items[0].uid.value, raw);
      AfterItemsLeaves(w1, v, items[1..]);
      var w' := AfterItems(w, v, items);
      forall p ensures p in w'.ingested <==> p in w.ingested || exists i :: 0 <= i < |items| && p == (v, items[i].uid.value) {
        if i :| 0 <= i < |items| && p == (v, items[i].uid.value) {
          if i > 0 { assert items[1..][i - 1] == items[i]; }
        }
      }
    }
  }

  /** The ticks of one window: what happens before its FETCH, the items that answer it, and no faults. */
  function WindowScript(env: seq<EnvStep>, items: seq<FetchItem>, rest: Script): Script {
    [Tick(env, NoFault, false, items)] + ItemTicks(|items|, (if items == [] then [] else [CALM]) + rest)
  }

  /** Where that window ends. */
  function WindowWorld(w: World, env: seq<EnvStep>, v: nat, from: nat, to: nat, items: seq<FetchItem>, high: nat): World
    requires AllBodies(items)
  {
    var w1 := CloseWindow(Env(w, env), v, from, to);
    if items == [] then w1 else RecordProgress(AfterItems(w1, v, items), v, HighOf(items, high))
  }

  lemma WindowCalm(
    w: World, env: seq<EnvStep>, rest: Script, v: nat, from: nat, to: nat, items: seq<FetchItem>, batch: Batch)
    requires AllBodies(items) && Env(w, env).validity == v && v in Env(w, env).boxes
    requires CompleteAnswer(Env(w, env).boxes[v], from, to, items)
    ensures OneWindow(w, WindowScript(env, items, rest), v, from, to, batch)
            == Step(WindowWorld(w, env, v, from, to, items, batch.high), rest,
                    Ok(Batch(HighOf(items, batch.high), batch.ingested + |items|)))
  {
    var script := WindowScript(env, items, rest);
    var after := (if items == [] then [] else [CALM]) + rest;
    assert script[1..] == ItemTicks(|items|, after);
    IngestItemsCalm(CloseWindow(Env(w, env), v, from, to), after, v, items, batch);
    hide IngestItems, CompleteAnswer, AfterItems, HighOf;
    if items == [] {
      assert after == rest;
    } else {
      assert after[1..] == rest;
    }
  }

  /** One turn of the loop, given what its window does. */
  lemma OneTurn(w: World, script: Script, v: nat, upper: Option<nat>, from: nat, batch: Batch, r: Step<Batch>)
    requires from <= U32_MAX && (upper.Some? ==> upper.value <= U32_MAX)
    requires OneWindow(w, script, v, from, WindowEnd(from, upper), batch) == r && r.result.Ok?
    ensures var to := WindowEnd(from, upper);
            Windows(w, script, v, upper, from, batch)
            == if LastWindow(to, upper, r.result.value.ingested > batch.ingested)
               then Finish(r.w, r.script, v, r.result.value)
               else Windows(r.w, r.script, v, upper, SaturatingAdd(to, 1), r.result.value)
  {
    hide OneWindow, Finish;
  }

  // ---- The losing pass ----

  const MAIL_A := Mail("a", true)
  const MAIL_B := Mail("b", true)
  const MAIL_C := Mail("c", true)

  /** A mailbox of a new epoch, and the same after messages 150 and 201 have arrived. */
  const EARLY := Mailbox(2, map[1 := MAIL_A])
  const LATE := Mailbox(202, map[1 := MAIL_A, 150 := MAIL_B, 201 := MAIL_C])

  const FIRST_ITEMS := [FetchItem(Some(1), Some("a"))]
  const ARRIVALS := [Deliver(150, MAIL_B), Deliver(201, MAIL_C)]
  const SECOND_ITEMS := [FetchItem(Some(201), Some("c"))]

  /** Window 1..200 yields message 1; then 150 and 201 arrive, and 201..400 yields message 201; 401..600 is empty. */
  function LastWindowScript(): Script { WindowScript([], [], []) }

  function SecondWindowScript(): Script { WindowScript(ARRIVALS, SECOND_ITEMS, LastWindowScript()) }

  function ThreeWindows(): Script { WindowScript([], FIRST_ITEMS, SecondWindowScript()) }

  /** A script under which a pass loses message 150: the epoch changes before SELECT, which advertises no UIDNEXT. */
  function LosingScript(w: World, cfg: Cursor): Script {
    [Tick([Rollover(w.validity + 1, EARLY)], NoFault, false, [])]
    + if cfg.uidvalidity.Some? then [CALM, CALM] + ThreeWindows() else ThreeWindows()
  }

  /** The scan of a new epoch that holds message 1 is about to fetch its first window. */
  predicate Opening(w: World, v: nat) {
    w.validity == v && v in w.boxes && w.boxes[v] == EARLY && w.closed == (v, 0)
  }

  lemma FirstWindowRun(w: World, v: nat)
    requires Opening(w, v)
    ensures var w1 := WindowWorld(w, [], v, 1, 200, FIRST_ITEMS, 0);
            && OneWindow(w, ThreeWindows(), v, 1, 200, Batch(0, 0)) == Step(w1, SecondWindowScript(), Ok(Batch(1, 1)))
            && w1.validity == v && w1.boxes == w.boxes && w1.closed == (v, 200)
            && w1.ingested == w.ingested + {(v, 1)}
  {
    assert FIRST_ITEMS[0] in FIRST_ITEMS;
    assert CompleteAnswer(w.boxes[v], 1, 200, FIRST_ITEMS);
    WindowCalm(w, [], SecondWindowScript(), v, 1, 200, FIRST_ITEMS, Batch(0, 0));
    AfterItemsLeaves(CloseWindow(w, v, 1, 200), v, FIRST_ITEMS);
    hide OneWindow, WindowScript, AfterItems;
    assert HighOf(FIRST_ITEMS, 0) == 1;
    assert WindowWorld(w, [], v, 1, 200, FIRST_ITEMS, 0).ingested == w.ingested + {(v, 1)};
  }

  lemma ArrivalsRun(w: World, v: nat)
    requires w.validity == v && v in w.boxes && w.boxes[v] == EARLY
    ensures var w1 := Env(w, ARRIVALS);
            w1.validity == v && w1.boxes == w.boxes[v := LATE] && w1.ingested == w.ingested
  {
    var w1 := EnvOne(w, ARRIVALS[0]);
    var w2 := EnvOne(w1, ARRIVALS[1]);
    assert ARRIVALS[1..] == [ARRIVALS[1]];
    assert Env(w1, [ARRIVALS[1]]) == Env(w2, []);
    assert w2.boxes[v].present == LATE.present;
  }

  lemma SecondWindowRun(w: World, v: nat)
    requires w.validity == v && v in w.boxes && w.boxes[v] == EARLY
    ensures var w1 := WindowWorld(w, ARRIVALS, v, 201, 400, SECOND_ITEMS, 1);
            && OneWindow(w, SecondWindowScript(), v, 201, 400, Batch(1, 1)) == Step(w1, LastWindowScript(), Ok(Batch(201, 2)))
            && w1.validity == v && w1.boxes == w.boxes[v := LATE] && w1.cursor == Cursor(Some(v), 201)
            && w1.ingested == w.ingested + {(v, 201)}
  {
    ArrivalsRun(w, v);
    var w0 := Env(w, ARRIVALS);
    assert SECOND_ITEMS[0] in SECOND_ITEMS;
    assert CompleteAnswer(w0.boxes[v], 201, 400, SECOND_ITEMS);
    WindowCalm(w, ARRIVALS, LastWindowScript(), v, 201, 400, SECOND_ITEMS, Batch(1, 1));
    AfterItemsLeaves(CloseWindow(w0, v, 201, 400), v, SECOND_ITEMS);
    hide OneWindow, WindowScript, AfterItems, Env;
    assert HighOf(SECOND_ITEMS, 1) == 201;
    assert WindowWorld(w, ARRIVALS, v, 201, 400, SECOND_ITEMS, 1).ingested == w.ingested + {(v, 201)};
  }

  lemma LastWindowRun(w: World, v: nat)
    requires w.validity == v && v in w.boxes && w.boxes[v] == LATE
    ensures Windows(w, LastWindowScript(), v, None, 401, Batch(201, 2)) == Step(CloseWindow(w, v, 401, 600), [], Ok((201, v)))
  {
    WindowCalm(w, [], [], v, 401, 600, [], Batch(201, 2));
    hide OneWindow, Windows, WindowScript;
    OneTurn(w, LastWindowScript(), v, None, 401, Batch(201, 2), Step(CloseWindow(w, v, 401, 600), [], Ok(Batch(201, 2))));
  }

  lemma LastTwoWindowsRun(w: World, v: nat)
    requires w.validity == v && v in w.boxes && w.boxes[v] == EARLY
    ensures var s := Windows(w, SecondWindowScript(), v, None, 201, Batch(1, 1));
            && s.result == Ok((201, v)) && s.w.cursor == Cursor(Some(v), 201)
            && v in s.w.boxes && s.w.boxes[v] == LATE && s.w.ingested == w.ingested + {(v, 201)}
  {
    hide OneWindow, Windows, WindowWorld, SecondWindowScript, LastWindowScript;
    SecondWindowRun(w, v);
    var w1 := WindowWorld(w, ARRIVALS, v, 201, 400, SECOND_ITEMS, 1);
    LastWindowRun(w1, v);
    OneTurn(w, SecondWindowScript(), v, None, 201, Batch(1, 1), Step(w1, LastWindowScript(), Ok(Batch(201, 2))));
  }

  /** The whole scan: it ends well, with the cursor above message 150, which was never fetched. */
  lemma LosingScan(w: World, v: nat)
    requires Opening(w, v)
    ensures var s := Windows(w, ThreeWindows(), v, None, 1, Batch(0, 0));
            && s.result == Ok((201, v)) && s.w.cursor == Cursor(Some(v), 201)
            && v in s.w.boxes && s.w.boxes[v] == LATE && s.w.ingested == w.ingested + {(v, 1), (v, 201)}
  {
    hide OneWindow, Windows, WindowWorld, ThreeWindows, SecondWindowScript;
    FirstWindowRun(w, v);
    var w1 := WindowWorld(w, [], v, 1, 200, FIRST_ITEMS, 0);
    LastTwoWindowsRun(w1, v);
    OneTurn(w, ThreeWindows(), v, None, 1, Batch(0, 0), Step(w1, SecondWindowScript(), Ok(Batch(1, 1))));
  }

  lemma RolloverRun(w: World, v: nat)
    requires Valid(w) && v == w.validity + 1
    ensures var w1 := Env(w, [Rollover(v, EARLY)]);
            w1.validity == v && v in w1.boxes && w1.boxes[v] == EARLY && w1.ingested == w.ingested
    ensures (v, 150) !in w.ingested && (v, 150) !in w.overtaken
  {
    assert !Known(w, (v, 150));
    assert Env(w, [Rollover(v, EARLY)]) == EnvOne(w, Rollover(v, EARLY));
  }

  lemma CalmHandleChange(w: World, v: nat, rest: Script)
    ensures var h := HandleChange(w, [CALM, CALM] + rest, v);
            && h.result == Ok(()) && h.script == rest && h.w.validity == w.validity && h.w.boxes == w.boxes
            && h.w.ingested == w.ingested
  {
    var script := [CALM, CALM] + rest;
    assert script[1..] == [CALM] + rest && script[1..][1..] == rest;
  }

  /** A pass whose SELECT goes well. */
  lemma PassOpens(w: World, env: seq<EnvStep>, advertise: bool, later: Script, cfg: Cursor)
    requires Env(w, env).validity in Env(w, env).boxes
    ensures var w1 := Env(w, env);
            var v, h := w1.validity, HandleChange(w1, later, w1.validity);
            var upper := Ceiling(w1.boxes[v], advertise);
            Pass(w, [Tick(env, NoFault, advertise, [])] + later, cfg)
            == if cfg.uidvalidity.None? || cfg.uidvalidity.value == v then Scan(w1, later, v, upper, cfg.lastUid)
               else if h.result.Err? then Step(h.w, h.script, Err(h.result.error))
               else Scan(h.w, h.script, v, upper, 0)
  {
    hide Scan, HandleChange, Env;
    assert ([Tick(env, NoFault, advertise, [])] + later)[1..] == later;
  }

  /** How the losing pass ends. */
  ghost predicate Skips150(s: Step<(nat, nat)>, v: nat) {
    && s.result == Ok((201, v)) && s.w.cursor == Cursor(Some(v), 201)
    && v in s.w.boxes && s.w.boxes[v] == LATE && (v, 150) !in s.w.ingested
  }

  lemma LosingScanFrom(w: World, v: nat)
    requires w.validity == v && v in w.boxes && w.boxes[v] == EARLY && (v, 150) !in w.ingested
    ensures Skips150(Scan(w, ThreeWindows(), v, None, 0), v)
  {
    LosingScan(BeginScan(w, v, 0), v);
    hide Windows, ThreeWindows;
  }

  lemma LosingPassOfNewFolder(w: World, cfg: Cursor, env: seq<EnvStep>)
    requires cfg == Cursor(None, 0)
    requires var w1 := Env(w, env);
             w1.validity in w1.boxes && w1.boxes[w1.validity] == EARLY && (w1.validity, 150) !in w1.ingested
    ensures Skips150(Pass(w, [Tick(env, NoFault, false, [])] + ThreeWindows(), cfg), Env(w, env).validity)
  {
    PassOpens(w, env, false, ThreeWindows(), cfg);
    hide Env, Pass, Scan, ThreeWindows, Skips150;
    LosingScanFrom(Env(w, env), Env(w, env).validity);
  }

  lemma LosingPassOfKnownFolder(w: World, cfg: Cursor, env: seq<EnvStep>)
    requires var w1 := Env(w, env);
             && w1.validity in w1.boxes && w1.boxes[w1.validity] == EARLY && (w1.validity, 150) !in w1.ingested
             && cfg.uidvalidity.Some? && cfg.uidvalidity.value != w1.validity
    ensures Skips150(Pass(w, [Tick(env, NoFault, false, [])] + ([CALM, CALM] + ThreeWindows()), cfg), Env(w, env).validity)
  {
    var w1, later := Env(w, env), [CALM, CALM] + ThreeWindows();
    PassOpens(w, env, false, later, cfg);
    CalmHandleChange(w1, w1.validity, ThreeWindows());
    hide Env, Pass, Scan, HandleChange, ThreeWindows, Skips150;
    LosingScanFrom(HandleChange(w1, later, w1.validity).w, w1.validity);
  }

  lemma LosingScriptIs(w: World, cfg: Cursor)
    requires Remembered(w, cfg)
    ensures LosingScript(w, cfg)
            == [Tick([Rollover(w.validity + 1, EARLY)], NoFault, false, [])]
               + if cfg == Cursor(None, 0) then ThreeWindows() else [CALM, CALM] + ThreeWindows()
    ensures !Head(LosingScript(w, cfg)).advertise && (cfg.uidvalidity.None? ==> cfg == Cursor(None, 0))
  {
    hide ThreeWindows;
  }

  lemma LosingPass(w: World, cfg: Cursor)
    requires Safe(w) && Remembered(w, cfg)
    ensures Skips150(Pass(w, LosingScript(w, cfg), cfg), w.validity + 1)
  {
    hide *;
    var v, env := w.validity + 1, [Rollover(w.validity + 1, EARLY)];
    SafeIsValid(w);
    RememberedStart(w, cfg);
    RolloverRun(w, v);
    LosingScriptIs(w, cfg);
    if cfg.uidvalidity.Some? {
      LosingPassOfKnownFolder(w, cfg, env);
    } else {
      LosingPassOfNewFolder(w, cfg, env);
    }
  }

  lemma SkippedIsLost(s: Step<(nat, nat)>, v: nat)
    requires Skips150(s, v)
    ensures Lost(EndScan(s.w), (v, 150))
  {}

  /** From every safe world and every remembered cursor: a pass without UIDNEXT reports success and loses a message. */
  lemma UnshieldedPassLosesMail(w: World, cfg: Cursor)
    requires Safe(w) && Remembered(w, cfg)
    ensures var s, v := Sync(w, LosingScript(w, cfg), cfg), w.validity + 1;
            && !Head(LosingScript(w, cfg)).advertise
            && s.result == Ok((201, v)) && Lost(s.w, (v, 150)) && (v, 150) !in w.overtaken
  {
    hide Pass, Safe, Remembered, Valid, ThreeWindows, LosingScript, Lost;
    SafeIsValid(w);
    RolloverRun(w, w.validity + 1);
    LosingScriptIs(w, cfg);
    LosingPass(w, cfg);
    SkippedIsLost(Pass(w, LosingScript(w, cfg), cfg), w.validity + 1);
  }

  /**
   The exact condition: passes whose SELECT does, or does not, advertise UIDNEXT are free of
   loss under every script if and only if it does. This holds of every safe world and every
   cursor a task may remember.
   */
  lemma LosslessExactlyWithUidNext(w: World, cfg: Cursor, advertise: bool)
    requires Safe(w) && Remembered(w, cfg) && AtRest(w)
    ensures (forall script :: Head(script).advertise == advertise ==> !Loses(w, script, cfg)) <==> advertise
  {
    if advertise {
      forall script | Head(script).advertise ensures !Loses(w, script, cfg) { ShieldedPassLosesNothing(w, script, cfg); }
    } else {
      UnshieldedPassLosesMail(w, cfg);
      assert Loses(w, LosingScript(w, cfg), cfg);
    }
  }
}
