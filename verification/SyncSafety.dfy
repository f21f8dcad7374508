/**
 Crash safety of the folder sync: in every run, with a crash or error after any step,
 no served message at or below the persisted cursor is lost, unless it was delivered
 behind a scan that has no UIDNEXT to bound it.
 */
module SyncSafety {
  import opened Wrappers
  import opened SyncWorld
  import opened ImapSync

  // ---- What must hold ----

  /** The message has been given to `ingest_raw`, and its content is located, in a live job or in a failed one. */
  predicate Handled(w: World, v: nat, uid: nat)
    requires v in w.boxes && uid in w.boxes[v].present
  {
    (v, uid) in w.ingested && Tracked(w, w.boxes[v].present[uid].raw)
  }

  predicate Served(w: World, v: nat, uid: nat)
    requires v in w.boxes
  {
    uid in w.boxes[v].present && w.boxes[v].present[uid].served
  }

  /** Every served message of epoch `v` up to `bound` has been given to `ingest_raw`, or was overtaken and has not. */
  ghost predicate IngestedTo(w: World, v: nat, bound: nat)
    requires v in w.boxes
  {
    forall uid :: uid in w.boxes[v].present && uid <= bound && Served(w, v, uid) ==> (v, uid) in w.ingested || (v, uid) in w.overtaken
  }

  /** In addition the ones given have a location, a live parse job, or one that ended Failed. */
  ghost predicate Covered(w: World, v: nat, bound: nat)
    requires v in w.boxes
  {
    forall uid :: uid in w.boxes[v].present && uid <= bound && Served(w, v, uid) ==> Handled(w, v, uid) || (v, uid) in w.overtaken
  }

  ghost predicate CursorOk(w: World, v: nat, uid: nat) {
    v in w.boxes && uid < w.boxes[v].uidNext && Covered(w, v, uid)
  }

  predicate BlobsFirst(w: World) { forall raw :: raw in w.jobs ==> raw in w.blobs }

  ghost predicate Safe(w: World) {
    && Valid(w) && BlobsFirst(w)
    && match w.cursor.uidvalidity
       case None => w.cursor.lastUid == 0
       case Some(v) => CursorOk(w, v, w.cursor.lastUid)
  }

  /** What a stale in-memory cursor still guarantees: locations only while its epoch is current. */
  ghost predicate Remembered(w: World, c: Cursor) {
    match c.uidvalidity
    case None => c.lastUid == 0
    case Some(v) =>
      && v in w.boxes && c.lastUid < w.boxes[v].uidNext
      && IngestedTo(w, v, c.lastUid)
      && (v == w.validity ==> Covered(w, v, c.lastUid))
  }

  // ---- How worlds evolve ----

  /** Once given, a message that is still in its mailbox stays tracked. */
  predicate Settled(w: World, p: (nat, nat)) {
    p in w.ingested && (p.0 in w.boxes && p.1 in w.boxes[p.0].present ==> Tracked(w, w.boxes[p.0].present[p.1].raw))
  }

  ghost predicate BoxGrows(w: World, w': World, v: nat)
    requires v in w.boxes
  {
    && v in w'.boxes && w.boxes[v].uidNext <= w'.boxes[v].uidNext
    && forall uid :: uid in w'.boxes[v].present ==>
         || (uid in w.boxes[v].present && w.boxes[v].present[uid] == w'.boxes[v].present[uid])
         || uid >= w.boxes[v].uidNext
  }

  /** Everything but dropping locations. */
  ghost predicate Onward(w: World, w': World) {
    && Valid(w')
    && w.validity <= w'.validity
    && (forall v :: v in w.boxes ==> BoxGrows(w, w', v))
    && w.ingested <= w'.ingested
    && (forall p :: p in w.overtaken ==> p in w'.overtaken || Settled(w', p))
    && (forall raw :: Tracked(w, raw) ==> Tracked(w', raw))
    && (BlobsFirst(w) ==> BlobsFirst(w'))
  }

  ghost predicate Marked(w: World, w': World, v: nat)
    requires v in w.boxes && v in w'.boxes
  {
    forall uid :: uid in w'.boxes[v].present && uid !in w.boxes[v].present && uid <= w.closed.1 ==> (v, uid) in w'.behind
  }

  /** What the environment does: it moves onward, and marks what it delivers behind the scan. */
  ghost predicate Calm(w: World, w': World) {
    && Onward(w, w')
    && w'.cursor == w.cursor && w'.closed == w.closed && w'.fetches == w.fetches
    && w'.ingested == w.ingested && w'.overtaken == w.overtaken && w'.blobs == w.blobs
    && w.behind <= w'.behind
    && (forall raw :: raw in w'.jobs ==> raw in w.jobs)
    && forall v :: v in w.boxes && v == w.closed.0 ==> Marked(w, w', v)
  }

  lemma SafeIsValid(w: World)
    requires Safe(w)
    ensures Valid(w)
  {}

  lemma CalmIsOnward(w: World, w': World)
    requires Calm(w, w')
    ensures Onward(w, w') && Valid(w')
  {}

  lemma SettledStays(w: World, w': World, p: (nat, nat))
    requires Valid(w) && Onward(w, w') && Settled(w, p)
    ensures Settled(w', p)
  {
    assert Known(w, p) && BoxGrows(w, w', p.0);
  }

  lemma OnwardTransitive(a: World, b: World, c: World)
    requires Onward(a, b) && Onward(b, c)
    ensures Onward(a, c)
  {
    forall p | p in a.overtaken && p !in c.overtaken ensures Settled(c, p) {
      if p !in b.overtaken { SettledStays(b, c, p); }
    }
    hide Settled, Valid, Tracked, BlobsFirst;
  }

  lemma CalmTransitive(a: World, b: World, c: World)
    requires Calm(a, b) && Calm(b, c)
    ensures Calm(a, c)
  {
    OnwardTransitive(a, b, c);
    hide Valid, Tracked, BlobsFirst, Settled;
  }

  lemma OneKeepsServer(w: World, e: EnvStep)
    requires ValidServer(w)
    ensures ValidServer(EnvOne(w, e)) && forall v :: v in w.boxes ==> BoxGrows(w, EnvOne(w, e), v)
  {}

  lemma OneKeepsValid(w: World, e: EnvStep)
    requires Valid(w)
    ensures Valid(EnvOne(w, e))
  {
    OneKeepsServer(w, e);
    var w' := EnvOne(w, e);
    forall p | Known(w, p) ensures Known(w', p) { assert BoxGrows(w, w', p.0); }
    hide BoxGrows;
  }

  lemma OneLeaves(w: World, e: EnvStep)
    ensures var w' := EnvOne(w, e);
            && w'.cursor == w.cursor && w'.closed == w.closed && w'.fetches == w.fetches
            && w'.ingested == w.ingested && w'.overtaken == w.overtaken && w'.blobs == w.blobs
            && w.validity <= w'.validity && w.behind <= w'.behind
  {}

  lemma OneMarks(w: World, e: EnvStep)
    requires ValidServer(w)
    ensures forall v :: v in w.boxes && v == w.closed.0 ==> v in EnvOne(w, e).boxes && Marked(w, EnvOne(w, e), v)
  {}

  lemma OneKeepsTracked(w: World, e: EnvStep)
    ensures forall raw :: Tracked(w, raw) ==> Tracked(EnvOne(w, e), raw)
    ensures forall raw :: raw in EnvOne(w, e).jobs ==> raw in w.jobs
  {}

  lemma OneIsCalm(w: World, e: EnvStep)
    requires Valid(w)
    ensures Calm(w, EnvOne(w, e))
  {
    OneKeepsServer(w, e);
    OneKeepsValid(w, e);
    OneKeepsTracked(w, e);
    OneMarks(w, e);
    OneLeaves(w, e);
    hide EnvOne, ValidServer, Valid, BoxGrows, Tracked, Marked;
  }

  lemma {:induction false} EnvIsCalm(w: World, es: seq<EnvStep>)
    requires Valid(w)
    ensures Calm(w, Env(w, es))
    decreases |es|
  {
    if es != [] {
      var w1 := EnvOne(w, es[0]);
      OneIsCalm(w, es[0]);
      EnvIsCalm(w1, es[1..]);
      CalmTransitive(w, w1, Env(w, es));
    }
  }

  // ---- What moving onward keeps ----

  lemma OnwardKeepsCovered(w: World, w': World, v: nat, bound: nat)
    requires Onward(w, w') && v in w.boxes && bound < w.boxes[v].uidNext
    ensures v in w'.boxes && bound < w'.boxes[v].uidNext
    ensures IngestedTo(w, v, bound) ==> IngestedTo(w', v, bound)
    ensures Covered(w, v, bound) ==> Covered(w', v, bound)
  {
    assert BoxGrows(w, w', v);
    hide Valid, BlobsFirst, Tracked;
    if Covered(w, v, bound) {
      forall uid | uid in w'.boxes[v].present && uid <= bound && Served(w', v, uid)
        ensures Handled(w', v, uid) || (v, uid) in w'.overtaken
      {
        assert uid in w.boxes[v].present && Served(w, v, uid);
      }
    }
  }

  lemma OnwardKeepsCursor(w: World, w': World, v: nat, uid: nat)
    requires Onward(w, w') && CursorOk(w, v, uid)
    ensures CursorOk(w', v, uid)
  {
    OnwardKeepsCovered(w, w', v, uid);
  }

  lemma OnwardKeepsSafe(w: World, w': World)
    requires Safe(w) && Onward(w, w') && w'.cursor == w.cursor
    ensures Safe(w')
  {
    if w.cursor.uidvalidity.Some? { OnwardKeepsCursor(w, w', w.cursor.uidvalidity.value, w.cursor.lastUid); }
  }

  lemma OnwardKeepsRemembered(w: World, w': World, c: Cursor)
    requires Valid(w) && Onward(w, w') && Remembered(w, c)
    ensures Remembered(w', c)
  {
    if c.uidvalidity.Some? { OnwardKeepsCovered(w, w', c.uidvalidity.value, c.lastUid); }
  }

  // ---- A pass in progress ----

  /** Where a scan that began above `start` accounts for a message: handled, overtaken before, or delivered behind it. */
  predicate Accounted(w: World, v: nat, start: nat, uid: nat)
    requires v in w.boxes && uid in w.boxes[v].present
  {
    Handled(w, v, uid) || (if uid <= start then (v, uid) in w.overtaken else (v, uid) in w.behind)
  }

  /** Everything up to the closed bound is accounted for, and `high` is a UID of the mailbox below it. */
  ghost predicate Scanning(w: World, v: nat, start: nat, high: nat) {
    && w.closed.0 == v && v in w.boxes
    && start <= w.closed.1 && start < w.boxes[v].uidNext
    && high <= w.closed.1 && high < w.boxes[v].uidNext
    && forall uid :: uid in w.boxes[v].present && uid <= w.closed.1 && Served(w, v, uid) ==> Accounted(w, v, start, uid)
  }

  /** An item of a response: its UID lies in the scanned part, and its body is that message's. */
  predicate ItemOk(w: World, v: nat, item: FetchItem)
    requires v in w.boxes
  {
    item.uid.Some? && item.body.Some? ==>
      && 1 <= item.uid.value <= w.closed.1 && item.uid.value < w.boxes[v].uidNext
      && (item.uid.value in w.boxes[v].present ==> w.boxes[v].present[item.uid.value].raw == item.body.value)
  }

  /** The same while the items of a window are being ingested: `items` are still to come. */
  ghost predicate Ingesting(w: World, v: nat, start: nat, high: nat, items: seq<FetchItem>) {
    && w.closed.0 == v && v in w.boxes
    && start <= w.closed.1 && start < w.boxes[v].uidNext
    && high <= w.closed.1 && high < w.boxes[v].uidNext
    && (forall i :: 0 <= i < |items| ==> ItemOk(w, v, items[i]))
    && forall uid :: uid in w.boxes[v].present && uid <= w.closed.1 && Served(w, v, uid) ==>
         Accounted(w, v, start, uid) || FetchItem(Some(uid), Some(w.boxes[v].present[uid].raw)) in items
  }

  lemma CalmKeepsAccounted(w: World, w': World, v: nat, start: nat, uid: nat)
    requires Calm(w, w') && v in w.boxes && v in w'.boxes && uid in w.boxes[v].present && uid in w'.boxes[v].present
    requires w.boxes[v].present[uid] == w'.boxes[v].present[uid] && Accounted(w, v, start, uid)
    ensures Accounted(w', v, start, uid)
  {}

  lemma CalmKeepsIngesting(w: World, w': World, v: nat, start: nat, high: nat, items: seq<FetchItem>)
    requires Valid(w) && Calm(w, w') && Ingesting(w, v, start, high, items)
    ensures Ingesting(w', v, start, high, items)
  {
    assert BoxGrows(w, w', v) && Marked(w, w', v);
    forall uid | uid in w'.boxes[v].present && uid <= w'.closed.1 && Served(w', v, uid)
      ensures Accounted(w', v, start, uid) || FetchItem(Some(uid), Some(w'.boxes[v].present[uid].raw)) in items
    {
      if uid in w.boxes[v].present && w.boxes[v].present[uid] == w'.boxes[v].present[uid] {
        assert Served(w, v, uid);
        if Accounted(w, v, start, uid) { CalmKeepsAccounted(w, w', v, start, uid); }
      }
    }
    forall i | 0 <= i < |items| ensures ItemOk(w', v, items[i]) { assert ItemOk(w, v, items[i]); }
  }

  lemma CalmKeepsScanning(w: World, w': World, v: nat, start: nat, high: nat)
    requires Valid(w) && Calm(w, w') && Scanning(w, v, start, high)
    ensures Scanning(w', v, start, high)
  {
    CalmKeepsIngesting(w, w', v, start, high, []);
  }

  // ---- Each effect ----

  lemma StoreBlobKeeps(w: World, v: nat, start: nat, raw: Bytes, high: nat, items: seq<FetchItem>)
    requires Valid(w)
    ensures Onward(w, StoreBlob(w, raw))
    ensures Ingesting(w, v, start, high, items) ==> Ingesting(StoreBlob(w, raw), v, start, high, items)
  {}

  lemma EnqueueIsOnward(w: World, v: nat, uid: nat, raw: Bytes)
    requires Valid(w) && Known(w, (v, uid)) && raw in w.blobs
    requires uid in w.boxes[v].present ==> w.boxes[v].present[uid].raw == raw
    ensures Onward(w, EnqueueParse(w, v, uid, raw))
  {
    var w' := EnqueueParse(w, v, uid, raw);
    assert raw in w'.jobs;
  }

  /** Once its job is enqueued an item no longer waits: it is given and tracked. */
  lemma EnqueueAdvancesIngesting(w: World, v: nat, start: nat, item: FetchItem, high: nat, items: seq<FetchItem>)
    requires Valid(w) && item.uid.Some? && item.body.Some? && Ingesting(w, v, start, high, [item] + items)
    ensures Ingesting(EnqueueParse(w, v, item.uid.value, item.body.value), v, start,
                      if item.uid.value > high then item.uid.value else high, items)
  {
    var w' := EnqueueParse(w, v, item.uid.value, item.body.value);
    assert ([item] + items)[0] == item && ItemOk(w, v, item);
    forall i | 0 <= i < |items| ensures ItemOk(w', v, items[i]) { assert ([item] + items)[i + 1] == items[i]; }
    assert item.body.value in w'.jobs;
    forall x | x in w'.boxes[v].present && x <= w'.closed.1 && Served(w', v, x)
      ensures Accounted(w', v, start, x) || FetchItem(Some(x), Some(w'.boxes[v].present[x].raw)) in items
    {
      assert Served(w, v, x);
      var raw := w.boxes[v].present[x].raw;
      assert Tracked(w, raw) ==> Tracked(w', raw);
    }
  }

  /** The frame of every step inside a batch. */
  predicate SameScan(w: World, w': World) {
    w'.cursor == w.cursor && w'.closed == w.closed && w'.fetches == w.fetches
  }

  lemma OnwardIsValid(w: World, w': World)
    requires Onward(w, w')
    ensures Valid(w') && w.validity <= w'.validity
  {}

  lemma HeadItemOk(w: World, v: nat, start: nat, item: FetchItem, high: nat, items: seq<FetchItem>)
    requires Ingesting(w, v, start, high, [item] + items)
    ensures v in w.boxes && ItemOk(w, v, item)
  {
    assert ([item] + items)[0] == item;
  }

  lemma IngestRawKeeps(w: World, script: Script, v: nat, start: nat, item: FetchItem, high: nat, items: seq<FetchItem>)
    requires Valid(w) && item.uid.Some? && item.body.Some? && Ingesting(w, v, start, high, [item] + items)
    ensures var r := IngestRaw(w, script, v, item.uid.value, item.body.value);
            && Onward(w, r.w) && SameScan(w, r.w)
            && (r.result.Ok? ==> Ingesting(r.w, v, start, if item.uid.value > high then item.uid.value else high, items))
  {
    hide Ingesting, Onward, Valid;
    var uid, raw := item.uid.value, item.body.value;
    var t := Head(script);
    var w1 := Env(w, t.env);
    EnvIsCalm(w, t.env);
    CalmIsOnward(w, w1);
    CalmKeepsIngesting(w, w1, v, start, high, [item] + items);
    if t.fault.Before? { return; }
    var w2 := StoreBlob(w1, raw);
    StoreBlobKeeps(w1, v, start, raw, high, [item] + items);
    OnwardIsValid(w1, w2);
    OnwardTransitive(w, w1, w2);
    if t.fault.After? { return; }
    var t1 := Head(Rest(script));
    var w3 := Env(w2, t1.env);
    EnvIsCalm(w2, t1.env);
    CalmIsOnward(w2, w3);
    CalmKeepsIngesting(w2, w3, v, start, high, [item] + items);
    OnwardTransitive(w, w2, w3);
    HeadItemOk(w3, v, start, item, high, items);
    EnqueueIsOnward(w3, v, uid, raw);
    EnqueueAdvancesIngesting(w3, v, start, item, high, items);
    OnwardTransitive(w, w3, EnqueueParse(w3, v, uid, raw));
  }

  /** One item: whatever happens the world moves onward, and success takes the item off the list. */
  lemma IngestItemKeeps(w: World, script: Script, v: nat, start: nat, item: FetchItem, batch: Batch, items: seq<FetchItem>)
    requires Valid(w) && Ingesting(w, v, start, batch.high, [item] + items)
    ensures var r := IngestItem(w, script, v, item, batch);
            && Onward(w, r.w) && SameScan(w, r.w)
            && (r.result.Ok? ==>
                  && Ingesting(r.w, v, start, r.result.value.high, items)
                  && (r.result.value == batch || r.result.value.ingested > batch.ingested))
  {
    hide Onward, IngestRaw, Env, Valid;
    var t := Head(script);
    var w1 := Env(w, t.env);
    EnvIsCalm(w, t.env);
    CalmIsOnward(w, w1);
    CalmKeepsIngesting(w, w1, v, start, batch.high, [item] + items);
    if t.fault != NoFault { return; }
    if item.uid.None? || item.body.None? {
      assert forall i | 0 <= i < |items| :: ([item] + items)[i + 1] == items[i];
    } else {
      IngestRawKeeps(w1, Rest(script), v, start, item, batch.high, items);
      OnwardTransitive(w, w1, IngestRaw(w1, Rest(script), v, item.uid.value, item.body.value).w);
    }
  }

  lemma {:induction false} IngestItemsKeeps(w: World, script: Script, v: nat, start: nat, items: seq<FetchItem>, batch: Batch)
    requires Valid(w) && Ingesting(w, v, start, batch.high, items)
    ensures var r := IngestItems(w, script, v, items, batch);
            && Onward(w, r.w) && SameScan(w, r.w)
            && (r.result.Ok? ==>
                  && Scanning(r.w, v, start, r.result.value.high)
                  && (r.result.value == batch || r.result.value.ingested > batch.ingested))
    decreases |items|
  {
    hide IngestItem, Valid, Accounted;
    if items == [] {
      EnvIsCalm(w, []);
      return;
    }
    assert items == [items[0]] + items[1..];
    IngestItemKeeps(w, script, v, start, items[0], batch, items[1..]);
    var r := IngestItem(w, script, v, items[0], batch);
    OnwardIsValid(w, r.w);
    if r.result.Ok? {
      hide Onward;
      IngestItemsKeeps(r.w, r.script, v, start, items[1..], r.result.value);
      OnwardTransitive(w, r.w, IngestItems(w, script, v, items, batch).w);
    }
  }

  // ---- Checkpoints ----

  /** A position a checkpoint may record: what lies below it is handled, overtaken already, or about to be. */
  ghost predicate Recordable(w: World, v: nat, uid: nat) {
    && v in w.boxes && uid < w.boxes[v].uidNext
    && forall x :: x in w.boxes[v].present && x <= uid && Served(w, v, x) ==>
         Handled(w, v, x) || (v, x) in w.overtaken || (v, x) in w.behind
  }

  lemma RecordKeeps(w: World, v: nat, uid: nat)
    requires Valid(w)
    ensures Onward(w, RecordProgress(w, v, uid))
    ensures BlobsFirst(w) && Recordable(w, v, uid) ==> Safe(RecordProgress(w, v, uid))
  {
    var w' := RecordProgress(w, v, uid);
    assert forall raw :: Tracked(w, raw) == Tracked(w', raw);
    assert forall p :: p in Passed(w, v, uid) ==> p in w.behind;
    if Recordable(w, v, uid) {
      forall x | x in w'.boxes[v].present && x <= uid && Served(w', v, x) ensures Handled(w', v, x) || (v, x) in w'.overtaken {
        assert Served(w, v, x);
      }
    }
  }

  lemma CalmKeepsRecordable(w: World, w': World, v: nat, uid: nat)
    requires Calm(w, w') && Recordable(w, v, uid)
    ensures Recordable(w', v, uid)
  {
    assert BoxGrows(w, w', v);
  }

  /** A checkpoint is safe whenever the position it records is accounted for. */
  lemma CheckpointKeeps(w: World, script: Script, v: nat, uid: nat)
    requires Safe(w) && Recordable(w, v, uid)
    ensures var c := Checkpoint(w, script, v, uid);
            && Safe(c.w) && Onward(w, c.w) && c.w.closed == w.closed && c.w.fetches == w.fetches
            && (c.result.Ok? ==> c.w.cursor == Cursor(Some(v), uid))
  {
    var t := Head(script);
    var w1 := Env(w, t.env);
    EnvIsCalm(w, t.env);
    OnwardKeepsSafe(w, w1);
    CalmKeepsRecordable(w, w1, v, uid);
    RecordKeeps(w1, v, uid);
    hide Safe, Onward, Valid, Recordable;
    SafeIsValid(w);
    OnwardTransitive(w, w1, RecordProgress(w1, v, uid));
  }

  lemma RecordKeepsScanning(w: World, v: nat, start: nat, uid: nat)
    requires Scanning(w, v, start, uid)
    ensures Scanning(RecordProgress(w, v, uid), v, start, uid)
  {
    var w' := RecordProgress(w, v, uid);
    assert forall raw :: Tracked(w, raw) == Tracked(w', raw);
  }

  lemma CheckpointKeepsScanning(w: World, script: Script, v: nat, start: nat, uid: nat)
    requires Valid(w) && Scanning(w, v, start, uid)
    ensures Scanning(Checkpoint(w, script, v, uid).w, v, start, uid)
  {
    var t := Head(script);
    var w1 := Env(w, t.env);
    EnvIsCalm(w, t.env);
    CalmKeepsScanning(w, w1, v, start, uid);
    RecordKeepsScanning(w1, v, start, uid);
  }

  lemma ScanningIsRecordable(w: World, v: nat, start: nat, high: nat)
    requires Scanning(w, v, start, high)
    ensures Recordable(w, v, high)
  {}

  // ---- The scan ----

  /** What a scan guarantees when it returns, and what it kept up to wherever it stopped. */
  ghost predicate ScanKept(w: World, s: Step<(nat, nat)>, v: nat, start: nat) {
    && Safe(s.w) && Onward(w, s.w)
    && (s.result.Ok? ==>
          && s.result.value.1 == v
          && s.w.cursor == Cursor(Some(v), s.result.value.0)
          && Scanning(s.w, v, start, s.result.value.0))
  }

  lemma FinishKeeps(w: World, script: Script, v: nat, start: nat, batch: Batch)
    requires Safe(w) && Scanning(w, v, start, batch.high)
    requires batch.ingested > 0 ==> w.cursor == Cursor(Some(v), batch.high)
    ensures ScanKept(w, Finish(w, script, v, batch), v, start)
  {
    SafeIsValid(w);
    EnvIsCalm(w, []);
    CalmIsOnward(w, w);
    hide Safe, Scanning, Onward, Valid, Calm;
    ScanningIsRecordable(w, v, start, batch.high);
    CheckpointKeeps(w, script, v, batch.high);
    CheckpointKeepsScanning(w, script, v, start, batch.high);
  }

  lemma CloseWindowOpensBatch(w: World, v: nat, start: nat, from: nat, to: nat, items: seq<FetchItem>, high: nat)
    requires Safe(w) && Scanning(w, v, start, high) && 1 <= from <= w.closed.1 + 1 && w.closed.1 <= to
    requires CompleteAnswer(w.boxes[v], from, to, items)
    ensures var w' := CloseWindow(w, v, from, to);
            Safe(w') && Onward(w, w') && Ingesting(w', v, start, high, items)
  {
    var w' := CloseWindow(w, v, from, to);
    assert ValidMailbox(w.boxes[v]);
    assert forall raw :: Tracked(w, raw) == Tracked(w', raw);
    forall uid | uid in w'.boxes[v].present && uid <= to && Served(w', v, uid)
      ensures Accounted(w', v, start, uid) || FetchItem(Some(uid), Some(w'.boxes[v].present[uid].raw)) in items
    {
      assert Served(w, v, uid);
    }
  }

  lemma OneWindowKeeps(w: World, script: Script, v: nat, start: nat, from: nat, to: nat, batch: Batch)
    requires Safe(w) && Scanning(w, v, start, batch.high) && 1 <= from <= w.closed.1 + 1 && w.closed.1 <= to
    requires batch.ingested > 0 ==> w.cursor == Cursor(Some(v), batch.high)
    ensures var r := OneWindow(w, script, v, from, to, batch);
            && Safe(r.w) && Onward(w, r.w)
            && (r.result.Ok? ==>
                  && Scanning(r.w, v, start, r.result.value.high) && r.w.closed.1 == to
                  && r.w.fetches == w.fetches + [(from, to)]
                  && (r.result.value == batch || r.result.value.ingested > batch.ingested)
                  && (r.result.value.ingested > 0 ==> r.w.cursor == Cursor(Some(v), r.result.value.high)))
  {
    hide Onward, Safe, Valid, Covered, Accounted, IngestItems, Checkpoint, CompleteAnswer, Ingesting;
    var t := Head(script);
    var w1 := Env(w, t.env);
    SafeIsValid(w);
    EnvIsCalm(w, t.env);
    CalmIsOnward(w, w1);
    OnwardKeepsSafe(w, w1);
    CalmKeepsScanning(w, w1, v, start, batch.high);
    if t.fault != NoFault || w1.validity != v || v !in w1.boxes || !CompleteAnswer(w1.boxes[v], from, to, t.items) {
      return;
    }
    var w2 := CloseWindow(w1, v, from, to);
    CloseWindowOpensBatch(w1, v, start, from, to, t.items, batch.high);
    OnwardTransitive(w, w1, w2);
    var r := IngestItems(w2, Rest(script), v, t.items, batch);
    SafeIsValid(w2);
    IngestItemsKeeps(w2, Rest(script), v, start, t.items, batch);
    OnwardKeepsSafe(w2, r.w);
    SafeIsValid(r.w);
    OnwardTransitive(w, w2, r.w);
    if r.result.Ok? && r.result.value.ingested != batch.ingested {
      var high := r.result.value.high;
      ScanningIsRecordable(r.w, v, start, high);
      CheckpointKeeps(r.w, r.script, v, high);
      CheckpointKeepsScanning(r.w, r.script, v, start, high);
      OnwardTransitive(w, r.w, Checkpoint(r.w, r.script, v, high).w);
    }
  }

  lemma {:induction false} WindowsKeeps(
    w: World, script: Script, v: nat, upper: Option<nat>, start: nat, from: nat, batch: Batch)
    requires from <= U32_MAX && (upper.Some? ==> from <= upper.value <= U32_MAX)
    requires Safe(w) && Scanning(w, v, start, batch.high) && from == SaturatingAdd(w.closed.1, 1) && w.closed.1 <= U32_MAX
    requires batch.ingested > 0 ==> w.cursor == Cursor(Some(v), batch.high)
    ensures ScanKept(w, Windows(w, script, v, upper, from, batch), v, start)
    decreases U32_MAX - from
  {
    hide OneWindow, Safe, Onward, Accounted, Valid;
    SafeIsValid(w);
    var to := WindowEnd(from, upper);
    var r := OneWindow(w, script, v, from, to, batch);
    OneWindowKeeps(w, script, v, start, from, to, batch);
    if r.result.Err? { return; }
    if LastWindow(to, upper, r.result.value.ingested > batch.ingested) {
      FinishKeeps(r.w, r.script, v, start, r.result.value);
    } else {
      WindowsKeeps(r.w, r.script, v, upper, start, SaturatingAdd(to, 1), r.result.value);
    }
    OnwardTransitive(w, r.w, Windows(w, script, v, upper, from, batch).w);
  }

  lemma BeginScanKeeps(w: World, v: nat, last: nat)
    requires Safe(w) && CursorOk(w, v, last)
    ensures var w1 := BeginScan(w, v, last);
            Safe(w1) && Onward(w, w1) && Scanning(w1, v, last, last) && last <= U32_MAX
  {
    var w1 := BeginScan(w, v, last);
    assert ValidMailbox(w.boxes[v]);
    assert forall raw :: Tracked(w, raw) == Tracked(w1, raw);
  }

  lemma ScanKeeps(w: World, script: Script, v: nat, upper: Option<nat>, last: nat)
    requires Safe(w) && CursorOk(w, v, last) && (upper.Some? ==> upper.value <= U32_MAX)
    ensures ScanKept(w, Scan(w, script, v, upper, last), v, last)
  {
    hide Windows, Finish, Safe, Onward, Valid, Accounted;
    SafeIsValid(w);
    var w1 := BeginScan(w, v, last);
    BeginScanKeeps(w, v, last);
    var from := SaturatingAdd(last, 1);
    if upper.Some? && upper.value < from {
      FinishKeeps(w1, script, v, last, Batch(last, 0));
    } else {
      WindowsKeeps(w1, script, v, upper, last, from, Batch(last, 0));
    }
    OnwardTransitive(w, w1, Scan(w, script, v, upper, last).w);
  }

  // ---- The rollover ----

  /** Dropping the locations is safe once the cursor stands at zero, and only stale cursors lose by it. */
  lemma DropKeeps(w: World)
    requires Valid(w) && BlobsFirst(w) && w.cursor.uidvalidity.Some? && w.cursor.lastUid == 0
    requires w.cursor.uidvalidity.value in w.boxes
    ensures Safe(w) && Safe(DropLocations(w))
  {
    assert ValidMailbox(w.boxes[w.cursor.uidvalidity.value]);
  }

  lemma DropKeepsRemembered(w: World, base: Cursor)
    requires Remembered(w, base) && (base.uidvalidity.Some? ==> base.uidvalidity.value < w.validity)
    ensures Remembered(DropLocations(w), base)
  {}

  /** The handling either stops at the reset, or runs into the drop. */
  lemma HandleChangeSplits(w: World, script: Script, v: nat)
    ensures var reset, h := Checkpoint(w, script, v, 0), HandleChange(w, script, v);
            if reset.result.Err? then h == reset else
            var w1 := Env(reset.w, Head(reset.script).env);
            && (h.w == w1 || h.w == DropLocations(w1)) && (h.result.Ok? ==> h.w == DropLocations(w1))
  {}

  lemma ZeroIsRecordable(w: World, v: nat)
    requires Valid(w) && v in w.boxes
    ensures Recordable(w, v, 0)
  {
    assert ValidMailbox(w.boxes[v]);
  }

  lemma SafeHasBlobs(w: World)
    requires Safe(w)
    ensures BlobsFirst(w) && Valid(w)
  {}

  lemma HandleChangeKeeps(w: World, script: Script, v: nat, base: Cursor)
    requires Safe(w) && v in w.boxes
    requires Remembered(w, base) && (base.uidvalidity.Some? ==> base.uidvalidity.value < v)
    ensures var h := HandleChange(w, script, v);
            && Safe(h.w) && Remembered(h.w, base) && w.validity <= h.w.validity
            && v in h.w.boxes && w.boxes[v].uidNext <= h.w.boxes[v].uidNext
            && (h.result.Ok? ==> h.w.cursor == Cursor(Some(v), 0) && h.w.located == {})
  {
    ZeroIsRecordable(w, v);
    HandleChangeSplits(w, script, v);
    SafeIsValid(w);
    assert v <= w.validity;
    var reset := Checkpoint(w, script, v, 0);
    CheckpointKeeps(w, script, v, 0);
    SafeIsValid(reset.w);
    hide HandleChange, Safe, Valid, Remembered, Checkpoint, Recordable, Env;
    OnwardKeepsRemembered(w, reset.w, base);
    assert BoxGrows(w, reset.w, v);
    if reset.result.Ok? {
      var t := Head(reset.script);
      var w1 := Env(reset.w, t.env);
      EnvIsCalm(reset.w, t.env);
      CalmIsOnward(reset.w, w1);
      OnwardKeepsSafe(reset.w, w1);
      OnwardKeepsRemembered(reset.w, w1, base);
      assert BoxGrows(reset.w, w1, v);
      SafeHasBlobs(w1);
      DropKeeps(w1);
      DropKeepsRemembered(w1, base);
    }
  }

  // ---- A pass, a task, a life ----

  /** `base` is no newer than `cfg`: a task's start-time cursor beside the local one it advances. */
  predicate NoNewer(base: Cursor, cfg: Cursor) {
    base.uidvalidity.Some? && cfg.uidvalidity.Some? ==> base.uidvalidity.value <= cfg.uidvalidity.value
  }

  /** The UID a pass starts above: the cursor it was given, or zero after a rollover. */
  function StartUid(cfg: Cursor, v: nat): nat {
    if cfg.uidvalidity.Some? && cfg.uidvalidity.value != v then 0 else cfg.lastUid
  }

  lemma RememberedStart(w: World, cfg: Cursor)
    requires Valid(w) && Remembered(w, cfg)
    ensures w.validity in w.boxes
    ensures cfg.uidvalidity.None? || cfg.uidvalidity == Some(w.validity) ==> CursorOk(w, w.validity, cfg.lastUid)
    ensures CursorOk(w, w.validity, 0)
    ensures cfg.uidvalidity.Some? ==> cfg.uidvalidity.value <= w.validity
  {
    assert ValidMailbox(w.boxes[w.validity]);
  }

  /** The state a scan leaves is remembered by the cursor it stored. */
  lemma SafeCursorIsRemembered(w: World)
    requires Safe(w)
    ensures Remembered(w, w.cursor)
  {}

  lemma ZeroCursorOk(w: World, v: nat)
    requires Valid(w) && v in w.boxes
    ensures CursorOk(w, v, 0)
  {
    assert ValidMailbox(w.boxes[v]);
  }

  /**
   A pass is crash-safe from any remembered cursor, however stale, and leaves the task's
   start-time cursor good for the next pass.
   */
  lemma PassKeeps(w: World, script: Script, cfg: Cursor, base: Cursor)
    requires Safe(w) && Remembered(w, cfg) && Remembered(w, base) && NoNewer(base, cfg)
    ensures var s := Pass(w, script, cfg);
            && Safe(s.w) && Remembered(s.w, base) && w.validity <= s.w.validity
            && (s.result.Ok? ==>
                  && s.w.cursor == Cursor(Some(s.result.value.1), s.result.value.0)
                  && Remembered(s.w, s.w.cursor) && NoNewer(base, s.w.cursor)
                  && Scanning(s.w, s.result.value.1, StartUid(cfg, s.result.value.1), s.result.value.0))
  {
    hide Scan, HandleChange, Env, Safe, Valid, Remembered, Onward, CursorOk, Scanning;
    var t := Head(script);
    var w1 := Env(w, t.env);
    SafeIsValid(w);
    EnvIsCalm(w, t.env);
    CalmIsOnward(w, w1);
    OnwardIsValid(w, w1);
    OnwardKeepsSafe(w, w1);
    OnwardKeepsRemembered(w, w1, cfg);
    OnwardKeepsRemembered(w, w1, base);
    if t.fault != NoFault { return; }
    RememberedStart(w1, cfg);
    RememberedStart(w1, base);
    var v := w1.validity;
    var upper := Ceiling(w1.boxes[v], t.advertise);
    var s := Pass(w, script, cfg);
    if cfg.uidvalidity.Some? && cfg.uidvalidity.value != v {
      HandleChangeKeeps(w1, Rest(script), v, base);
      var h := HandleChange(w1, Rest(script), v);
      if h.result.Ok? {
        SafeIsValid(h.w);
        ZeroCursorOk(h.w, v);
        ScanKeeps(h.w, h.script, v, upper, 0);
        OnwardIsValid(h.w, s.w);
        OnwardKeepsRemembered(h.w, s.w, base);
      }
    } else {
      ScanKeeps(w1, Rest(script), v, upper, cfg.lastUid);
      OnwardIsValid(w1, s.w);
      OnwardKeepsRemembered(w1, s.w, base);
    }
    SafeCursorIsRemembered(s.w);
  }

  lemma EndScanKeeps(w: World, base: Cursor)
    requires Safe(w)
    ensures Safe(EndScan(w)) && (Remembered(w, base) ==> Remembered(EndScan(w), base))
  {
    assert forall x :: Tracked(EndScan(w), x) <==> Tracked(w, x);
  }

  lemma SyncKeeps(w: World, script: Script, cfg: Cursor, base: Cursor)
    requires Safe(w) && Remembered(w, cfg) && Remembered(w, base) && NoNewer(base, cfg)
    ensures var s := Sync(w, script, cfg);
            && Safe(s.w) && Remembered(s.w, base) && w.validity <= s.w.validity
            && (s.result.Ok? ==>
                  && s.w.cursor == Cursor(Some(s.result.value.1), s.result.value.0)
                  && Remembered(s.w, s.w.cursor) && NoNewer(base, s.w.cursor))
  {
    hide Pass, Safe, Remembered;
    PassKeeps(w, script, cfg, base);
    var p := Pass(w, script, cfg).w;
    EndScanKeeps(p, base);
    EndScanKeeps(p, p.cursor);
  }

  lemma {:induction false} PollKeeps(w: World, cfg: Cursor, passes: seq<Script>)
    requires Safe(w) && Remembered(w, cfg)
    ensures Safe(Poll(w, cfg, passes))
    decreases |passes|
  {
    if passes != [] {
      SyncKeeps(w, passes[0], cfg, cfg);
      PollKeeps(Sync(w, passes[0], cfg).w, cfg, passes[1..]);
    }
  }

  lemma {:induction false} ConnectionKeeps(w: World, cur: Cursor, passes: seq<Script>, folder: Cursor)
    requires Safe(w) && Remembered(w, cur) && Remembered(w, folder) && NoNewer(folder, cur)
    ensures Safe(Connection(w, cur, passes)) && Remembered(Connection(w, cur, passes), folder)
    decreases |passes|
  {
    if passes != [] {
      SyncKeeps(w, passes[0], cur, folder);
      var s := Sync(w, passes[0], cur);
      if s.result.Ok? {
        ConnectionKeeps(s.w, s.w.cursor, passes[1..], folder);
      }
    }
  }

  lemma {:induction false} IdleKeeps(w: World, folder: Cursor, connections: seq<seq<Script>>)
    requires Safe(w) && Remembered(w, folder)
    ensures Safe(Idle(w, folder, connections))
    decreases |connections|
  {
    if connections != [] {
      ConnectionKeeps(w, folder, connections[0], folder);
      IdleKeeps(Connection(w, folder, connections[0]), folder, connections[1..]);
    }
  }

  /** Every run: any number of process lives, each ended by a crash anywhere, keeps the cursor safe. */
  lemma {:induction false} EveryLifeIsSafe(w: World, runs: seq<Incarnation>)
    requires Safe(w)
    ensures Safe(Live(w, runs))
    decreases |runs|
  {
    if runs != [] {
      match runs[0] {
        case Polled(passes) =>
          PollKeeps(w, w.cursor, passes);
          EveryLifeIsSafe(Poll(w, w.cursor, passes), runs[1..]);
        case Idled(connections) =>
          IdleKeeps(w, w.cursor, connections);
          EveryLifeIsSafe(Idle(w, w.cursor, connections), runs[1..]);
      }
    }
  }
}
