/**
 What a successful pass has covered: the windows tile the UIDs it was to scan, and every
 body in them has been ingested.
 */
module SyncCoverage {
  import opened Wrappers
  import opened SyncWorld
  import opened ImapSync
  import opened SyncSafety
  import opened SyncOvertaking

  // ---- The windows of a pass ----

  /** Window `i` holds 1 to 200 UIDs and starts right after the one before it. */
  predicate Follows(ws: seq<(nat, nat)>, start: nat, i: nat)
    requires i < |ws|
  {
    && ws[i].0 <= ws[i].1 < ws[i].0 + FETCH_BATCH
    && ws[i].0 == (if i == 0 then start else ws[i - 1].1 + 1)
  }

  /** The windows run from `start` to `end` without gap or overlap. */
  predicate Partition(ws: seq<(nat, nat)>, start: nat, end: nat) {
    && 1 <= start
    && (forall i: nat | i < |ws| :: Follows(ws, start, i))
    && (if ws == [] then end + 1 == start else end == ws[|ws| - 1].1)
  }

  predicate Holds(window: (nat, nat), uid: nat) {
    window.0 <= uid <= window.1
  }

  lemma {:induction false} PartitionStart(ws: seq<(nat, nat)>, start: nat, end: nat, i: nat)
    requires Partition(ws, start, end) && i < |ws|
    ensures start <= ws[i].0
  {
    assert Follows(ws, start, i);
    if i > 0 {
      assert Follows(ws, start, i - 1);
      PartitionStart(ws, start, end, i - 1);
    }
  }

  lemma {:induction false} PartitionCovers(ws: seq<(nat, nat)>, start: nat, end: nat, uid: nat)
    requires Partition(ws, start, end)
    ensures start <= uid <= end <==> exists i | 0 <= i < |ws| :: Holds(ws[i], uid)
    decreases |ws|
  {
    if ws == [] { return; }
    var n := |ws| - 1;
    var init := ws[..n];
    PartitionStart(ws, start, end, n);
    assert Follows(ws, start, n);
    assert Partition(init, start, ws[n].0 - 1) by {
      forall i: nat | i < n ensures Follows(init, start, i) {
        assert Follows(ws, start, i);
      }
    }
    PartitionCovers(init, start, ws[n].0 - 1, uid);
    if Holds(ws[n], uid) {
    } else if exists i | 0 <= i < |init| :: Holds(init[i], uid) {
      var i :| 0 <= i < |init| && Holds(init[i], uid);
      assert Holds(ws[i], uid);
    }
  }

  lemma {:induction false} PartitionIncreases(ws: seq<(nat, nat)>, start: nat, end: nat, i: nat, j: nat)
    requires Partition(ws, start, end) && i < j < |ws|
    ensures ws[i].1 < ws[j].0
    decreases j
  {
    assert Follows(ws, start, j) && Follows(ws, start, j - 1);
    if i + 1 < j { PartitionIncreases(ws, start, end, i, j - 1); }
  }

  lemma {:induction false} PartitionOnce(ws: seq<(nat, nat)>, start: nat, end: nat, i: nat, j: nat, uid: nat)
    requires Partition(ws, start, end) && i < j < |ws|
    ensures !(Holds(ws[i], uid) && Holds(ws[j], uid))
  {
    PartitionIncreases(ws, start, end, i, j);
  }

  lemma PartitionExtends(ws: seq<(nat, nat)>, start: nat, end: nat, to: nat)
    requires Partition(ws, start, end) && end < to <= end + FETCH_BATCH
    ensures Partition(ws + [(end + 1, to)], start, to)
  {
    var ws' := ws + [(end + 1, to)];
    forall i: nat | i < |ws'| ensures Follows(ws', start, i) {
      assert i < |ws| ==> Follows(ws, start, i);
    }
  }

  predicate Ended(w: World, upper: Option<nat>, start: nat, high: nat) {
    && Partition(w.fetches, start, w.closed.1)
    && match upper
       case Some(u) => w.closed.1 == u
       case None => w.fetches != [] && var last := w.fetches[|w.fetches| - 1]; high < last.0 || last.1 == U32_MAX
  }

  lemma FinishKeepsFetches(w: World, script: Script, v: nat, batch: Batch)
    requires Valid(w)
    ensures var s := Finish(w, script, v, batch);
            && s.w.fetches == w.fetches && s.w.closed == w.closed
            && (s.result.Ok? ==> s.result.value == (batch.high, v))
  {
    EnvIsCalm(w, Head(script).env);
  }

  /**
   The window loop extends the partition from `start`; with a ceiling it ends there, and
   without one it ends on a window that yields nothing.
   */
  lemma {:induction false} WindowsPartition(w: World, script: Script, v: nat, upper: Option<nat>, from: nat,
                                            batch: Batch, start: nat)
    requires from <= U32_MAX && (upper.Some? ==> from <= upper.value <= U32_MAX)
    requires Partition(w.fetches, start, w.closed.1) && from == w.closed.1 + 1
    requires Safe(w) && Scanning(w, v, start - 1, batch.high)
    requires batch.ingested > 0 ==> w.cursor == Cursor(Some(v), batch.high)
    ensures var r := Windows(w, script, v, upper, from, batch);
            r.result.Ok? ==> Ended(r.w, upper, start, r.result.value.0)
    decreases U32_MAX - from
  {
    hide OneWindow, Safe, Accounted;
    var to := WindowEnd(from, upper);
    var r := OneWindow(w, script, v, from, to, batch);
    OneWindowKeeps(w, script, v, start - 1, from, to, batch);
    if r.result.Err? { return; }
    PartitionExtends(w.fetches, start, w.closed.1, to);
    if LastWindow(to, upper, r.result.value.ingested > batch.ingested) {
      FinishKeepsFetches(r.w, r.script, v, r.result.value);
    } else {
      WindowsPartition(r.w, r.script, v, upper, to + 1, r.result.value, start);
    }
  }

  /** The mailbox as SELECT finds it. */
  function Selected(w: World, script: Script): Option<Mailbox> {
    var w1 := Env(w, Head(script).env);
    if w1.validity in w1.boxes then Some(w1.boxes[w1.validity]) else None
  }

  lemma ScanPartition(w: World, script: Script, v: nat, upper: Option<nat>, last: nat)
    requires Safe(w) && CursorOk(w, v, last) && (upper.Some? ==> upper.value <= U32_MAX) && last < U32_MAX
    ensures var s := Scan(w, script, v, upper, last);
            s.result.Ok? ==>
              || Ended(s.w, upper, last + 1, s.result.value.0)
              || (upper.Some? && upper.value <= last && s.w.fetches == [] && s.w.closed.1 == last)
  {
    hide Windows, Finish, OneWindow;
    var w1 := BeginScan(w, v, last);
    BeginScanKeeps(w, v, last);
    if upper.Some? && upper.value < last + 1 {
      FinishKeepsFetches(w1, script, v, Batch(last, 0));
    } else {
      WindowsPartition(w1, script, v, upper, last + 1, Batch(last, 0), last + 1);
    }
  }

  lemma FirstSightIsRemembered(w: World)
    ensures Remembered(w, Cursor(None, 0))
  {}

  /** A successful pass is a scan of the selected epoch from its start. */
  lemma PassScans(w: World, script: Script, cfg: Cursor) returns (before: World, rest: Script, box: Mailbox)
    requires Safe(w) && Remembered(w, cfg) && Pass(w, script, cfg).result.Ok?
    ensures Selected(w, script) == Some(box) && ValidMailbox(box)
    ensures var s, v := Pass(w, script, cfg), Pass(w, script, cfg).result.value.1;
            var upper := Ceiling(box, Head(script).advertise);
            && Safe(before) && CursorOk(before, v, StartUid(cfg, v))
            && s == Scan(before, rest, v, upper, StartUid(cfg, v))
            && ScanKept(before, s, v, StartUid(cfg, v))
            && (upper.Some? ==> StartUid(cfg, v) <= upper.value)
  {
    hide Scan, HandleChange, Env, Safe, Remembered, Onward, Scanning;
    var t := Head(script);
    var w1 := Env(w, t.env);
    SafeIsValid(w);
    EnvIsCalm(w, t.env);
    CalmIsOnward(w, w1);
    OnwardKeepsSafe(w, w1);
    OnwardKeepsRemembered(w, w1, cfg);
    RememberedStart(w1, cfg);
    var v := w1.validity;
    box := w1.boxes[v];
    assert ValidMailbox(box);
    if cfg.uidvalidity.Some? && cfg.uidvalidity.value != v {
      FirstSightIsRemembered(w1);
      HandleChangeKeeps(w1, Rest(script), v, Cursor(None, 0));
      var h := HandleChange(w1, Rest(script), v);
      SafeIsValid(h.w);
      ZeroCursorOk(h.w, v);
      before, rest := h.w, h.script;
    } else {
      before, rest := w1, Rest(script);
    }
    ScanKeeps(before, rest, v, Ceiling(box, t.advertise), StartUid(cfg, v));
  }

  // ---- What a successful pass has covered ----

  /** Everything served between the start and `bound` has been ingested; below it, all but what was overtaken before. */
  ghost predicate Complete(w: World, before: World, v: nat, start: nat, bound: nat) {
    v in w.boxes
    && forall uid :: uid in w.boxes[v].present && uid <= bound && Served(w, v, uid) ==>
         (v, uid) in w.ingested || (uid <= start && (v, uid) in before.overtaken)
  }

  lemma ScanningIsComplete(w: World, before: World, v: nat, start: nat, high: nat)
    requires Scanning(w, v, start, high) && w.overtaken <= before.overtaken && w.behind == {}
    ensures Complete(w, before, v, start, w.closed.1)
  {}

  /**
   With UIDNEXT advertised, the fetched windows partition the UIDs between the start and
   UIDNEXT, and every message there was and still is between them has been ingested. Below
   the start nothing is missing but what earlier passes had overtaken.
   */
  lemma AdvertisedPassIsComplete(w: World, script: Script, cfg: Cursor, box: Mailbox)
    requires Safe(w) && Remembered(w, cfg) && AtRest(w)
    requires Selected(w, script) == Some(box) && Head(script).advertise && 1 <= box.uidNext <= U32_MAX
    ensures var s := Pass(w, script, cfg);
            s.result.Ok? ==>
              var v := s.result.value.1;
              && Partition(s.w.fetches, StartUid(cfg, v) + 1, box.uidNext - 1)
              && Complete(s.w, w, v, StartUid(cfg, v), box.uidNext - 1)
  {
    hide Pass, Scan, Safe, Remembered;
    var s := Pass(w, script, cfg);
    if s.result.Ok? {
      var before, rest, b := PassScans(w, script, cfg);
      var v := s.result.value.1;
      ShieldedPassStaysAhead(w, script, cfg);
      ScanPartition(before, rest, v, Some(box.uidNext - 1), StartUid(cfg, v));
      ScanningIsComplete(s.w, w, v, StartUid(cfg, v), s.result.value.0);
    }
  }

  /**
   Without UIDNEXT the windows run contiguously up to the first one that yields nothing,
   and everything served between the start and the end of that one has been ingested, save
   what was delivered behind the scan while it ran.
   */
  lemma OpenPassIsCompleteToFirstEmptyWindow(w: World, script: Script, cfg: Cursor)
    requires Safe(w) && Remembered(w, cfg) && !Head(script).advertise
    ensures var s := Pass(w, script, cfg);
            s.result.Ok? && StartUid(cfg, s.result.value.1) < U32_MAX ==>
              var (high, v) := s.result.value;
              && s.w.fetches != []
              && var last := s.w.fetches[|s.w.fetches| - 1];
                 && Partition(s.w.fetches, StartUid(cfg, v) + 1, last.1)
                 && (high < last.0 || last.1 == U32_MAX)
                 && v in s.w.boxes
                 && forall uid :: uid in s.w.boxes[v].present && StartUid(cfg, v) < uid <= last.1 && Served(s.w, v, uid) ==>
                      (v, uid) in s.w.ingested || (v, uid) in s.w.behind
  {
    hide Pass, Scan, Safe, Remembered;
    var s := Pass(w, script, cfg);
    if s.result.Ok? && StartUid(cfg, s.result.value.1) < U32_MAX {
      var before, rest, box := PassScans(w, script, cfg);
      var v := s.result.value.1;
      ScanPartition(before, rest, v, None, StartUid(cfg, v));
      assert Scanning(s.w, v, StartUid(cfg, v), s.result.value.0);
    }
  }
}
