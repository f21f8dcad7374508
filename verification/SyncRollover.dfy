/**
 The order of the rollover's two steps. Exchanged, a crash between them leaves messages
 below the cursor without any location, but only until the next pass: the stored
 UIDVALIDITY is still the old one, so the rollover is detected and handled again.
 */
module SyncRollover {
  import opened Wrappers
  import opened SyncWorld
  import opened ImapSync
  import opened SyncSafety

  /** The rollover with its two steps exchanged. */
  function HandleChangeSwapped(w: World, script: Script, v: nat): Step<()> {
    var dropped := DeleteLocations(w, script);
    if dropped.result.Err? then dropped else Checkpoint(dropped.w, dropped.script, v, 0)
  }

  const MAIL := Mail("a", true)

  /** Message 1 of epoch 1 is archived; the server has gone to epoch 2. */
  const RENUMBERED := World(
    2, map[1 := Mailbox(2, map[1 := MAIL]), 2 := Mailbox(1, map[])], Cursor(Some(1), 1),
    {}, multiset{}, {}, {"a"}, {(1, 1)}, [], (0, 0), {}, {})

  const CALM := Tick([], NoFault, false, [])

  /**
   The order matters: exchanged, a crash between the two steps leaves a cursor above a
   message that has neither a location nor a job. In the order of the source no crash does.
   */
  lemma SwappedRolloverIsUnsafe()
    ensures Safe(RENUMBERED) && !Safe(HandleChangeSwapped(RENUMBERED, [CALM], 2).w)
    ensures forall script :: Safe(HandleChange(RENUMBERED, script, 2).w)
  {
    var w := RENUMBERED;
    assert Safe(w);
    forall script ensures Safe(HandleChange(w, script, 2).w) { HandleChangeKeeps(w, script, 2, Cursor(None, 0)); }
    var s := HandleChangeSwapped(w, [CALM], 2);
    assert s.w == DropLocations(w);
    assert Served(s.w, 1, 1) && !Tracked(s.w, "a");
    assert !CursorOk(s.w, 1, 1);
  }

  /** All that is needed to start a rollover over. */
  ghost predicate Sound(w: World, w': World) {
    Valid(w') && BlobsFirst(w') && w.validity <= w'.validity && w.boxes.Keys <= w'.boxes.Keys
  }

  lemma EnvIsSound(w: World, es: seq<EnvStep>)
    requires Valid(w) && BlobsFirst(w)
    ensures Sound(w, Env(w, es)) && Env(w, es).cursor == w.cursor
  {
    EnvIsCalm(w, es);
    hide Valid, Env;
    forall v | v in w.boxes ensures v in Env(w, es).boxes { assert BoxGrows(w, Env(w, es), v); }
  }

  lemma DropIsSound(w: World)
    requires Valid(w) && BlobsFirst(w)
    ensures Sound(w, DropLocations(w))
  {}

  lemma RecordIsSound(w: World, v: nat, uid: nat)
    requires Valid(w) && BlobsFirst(w)
    ensures Sound(w, RecordProgress(w, v, uid))
  {
    RecordKeeps(w, v, uid);
  }

  /** What a crash inside the exchanged rollover leaves: everything but the locations, and the old cursor or the reset one. */
  lemma SwappedRolloverLeaves(w: World, script: Script, v: nat)
    requires Valid(w) && BlobsFirst(w)
    ensures var h := HandleChangeSwapped(w, script, v);
            Sound(w, h.w) && (h.w.cursor == w.cursor || h.w.cursor == Cursor(Some(v), 0))
  {
    hide Valid, Env, BlobsFirst;
    var w1 := Env(w, Head(script).env);
    EnvIsSound(w, Head(script).env);
    var d := DropLocations(w1);
    DropIsSound(w1);
    var w2 := Env(d, Head(Rest(script)).env);
    EnvIsSound(d, Head(Rest(script)).env);
    RecordIsSound(w2, v, 0);
  }

  /** The rollover makes the state safe whatever the cursor was: it needs no earlier promise. */
  lemma HandleChangeRestores(w: World, script: Script, v: nat)
    requires Valid(w) && BlobsFirst(w) && v in w.boxes
    ensures var h := HandleChange(w, script, v);
            h.result.Ok? ==> Safe(h.w) && h.w.cursor == Cursor(Some(v), 0) && v in h.w.boxes
  {
    HandleChangeSplits(w, script, v);
    var t := Head(script);
    var w1 := Env(w, t.env);
    EnvIsCalm(w, t.env);
    assert BoxGrows(w, w1, v);
    var w2 := RecordProgress(w1, v, 0);
    RecordKeeps(w1, v, 0);
    var w3 := Env(w2, Head(Rest(script)).env);
    EnvIsCalm(w2, Head(Rest(script)).env);
    assert BoxGrows(w2, w3, v);
    hide HandleChange, Env, Valid, Safe;
    if HandleChange(w, script, v).result.Ok? { DropKeeps(w3); }
  }

  lemma ValidHasEpoch(w: World)
    requires Valid(w)
    ensures w.validity in w.boxes
  {}

  /** A pass that finds the rollover still to be handled, or handled up to its reset, ends safe if it ends well. */
  lemma NextPassRestores(w: World, script: Script)
    requires Valid(w) && BlobsFirst(w) && w.cursor.uidvalidity.Some?
    requires w.cursor.uidvalidity.value in w.boxes
    requires w.cursor.uidvalidity.value < w.validity || w.cursor.lastUid == 0
    ensures var s := Sync(w, script, w.cursor);
            s.result.Ok? ==> Safe(s.w) && StartUid(w.cursor, s.result.value.1) == 0
  {
    hide Scan, HandleChange, Env, Safe, Valid;
    var t := Head(script);
    var w1 := Env(w, t.env);
    EnvIsCalm(w, t.env);
    CalmIsOnward(w, w1);
    assert BoxGrows(w, w1, w.cursor.uidvalidity.value);
    ValidHasEpoch(w1);
    if t.fault != NoFault { return; }
    var v, cfg := w1.validity, w.cursor;
    var upper := Ceiling(w1.boxes[v], t.advertise);
    if cfg.uidvalidity.value != v {
      HandleChangeRestores(w1, Rest(script), v);
      var h := HandleChange(w1, Rest(script), v);
      if h.result.Ok? {
        SafeIsValid(h.w);
        ZeroCursorOk(h.w, v);
        ScanKeeps(h.w, h.script, v, upper, 0);
        EndScanKeeps(Scan(h.w, h.script, v, upper, 0).w, cfg);
      }
    } else {
      DropKeeps(w1);
      ZeroCursorOk(w1, v);
      ScanKeeps(w1, Rest(script), v, upper, 0);
      EndScanKeeps(Scan(w1, Rest(script), v, upper, 0).w, cfg);
    }
  }

  /**
   Messages would not be skipped: from wherever a crash of the exchanged rollover leaves the
   row, the next pass that succeeds has started from zero, and the state is safe again.
   */
  lemma SwappedRolloverIsHandledAgain(w: World, script: Script, later: Script)
    requires Safe(w) && w.cursor.uidvalidity.Some? && w.cursor.uidvalidity.value != w.validity
    ensures var h := HandleChangeSwapped(w, script, w.validity);
            var s := Sync(h.w, later, h.w.cursor);
            s.result.Ok? ==> Safe(s.w) && StartUid(h.w.cursor, s.result.value.1) == 0
  {
    var v := w.cursor.uidvalidity.value;
    SafeCursorIsRemembered(w);
    SafeHasBlobs(w);
    RememberedStart(w, w.cursor);
    assert v in w.boxes.Keys && w.validity in w.boxes.Keys;
    SwappedRolloverLeaves(w, script, w.validity);
    var h := HandleChangeSwapped(w, script, w.validity);
    hide HandleChangeSwapped, Sync, Safe, Valid, BlobsFirst;
    NextPassRestores(h.w, later);
  }
}
