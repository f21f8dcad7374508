/**
 What each act of an ingest run does to the archive that readers see, and what a run as a
 whole leaves of it.
 */
module IngestEffects {
  import opened Wrappers
  import opened MailDb
  import opened IngestRuns
  import opened LocationRaces

  /** The act commits a transaction that puts the message in the folder. */
  predicate Puts(s: System, act: Act, key: Key, folder: nat) {
    && act.Commit? && act.w in s.txns && s.txns[act.w].Written?
    && (s.txns[act.w].job.account, s.txns[act.w].job.hash) == key && s.txns[act.w].job.folder == folder
  }

  /** The act drops the folder's locations: no transaction holds one of them, updated and not yet committed. */
  predicate Drops(s: System, act: Act, folder: nat) {
    && act == DeleteFolder(folder)
    && forall w :: w in s.txns && s.txns[w].Written? && !s.txns[w].added ==> s.txns[w].job.folder != folder
  }

  lemma DroppedPlaces(parse: Parser, s: System, folder: nat)
    requires Inv(parse, s)
    ensures var s' := Step(parse, s, DeleteFolder(folder));
            ViewOf(s'.db).places
            == if Drops(s, DeleteFolder(folder), folder) then set p | p in ViewOf(s.db).places && p.1 != folder
               else ViewOf(s.db).places
  {
    hide ViewOf, ValidDb, TxnsOk, BlobsFirst, HistoryOk;
    assert FolderHeld(s, folder) <==> !Drops(s, DeleteFolder(folder), folder);
    DbAfterDelete(parse, s.db, folder);
  }

  lemma CommittedPlaces(parse: Parser, s: System, w: nat)
    requires Inv(parse, s) && w in s.txns && s.txns[w].Written?
    ensures ViewOf(Step(parse, s, Commit(w)).db).places
            == ViewOf(s.db).places + {((s.txns[w].job.account, s.txns[w].job.hash), s.txns[w].job.folder)}
  {
    hide ViewOf, Inv, Committed, ValidDb, Keys;
    ValidAfterCommit(parse, s, w);
  }

  lemma SamePlaces(parse: Parser, s: System, act: Act)
    requires !act.DeleteFolder? && !(act.Commit? && act.w in s.txns && s.txns[act.w].Written?)
    ensures Step(parse, s, act).db == s.db
  {
    hide Next;
  }

  /** One act changes at most what it is for: a commit puts one message in one folder, a drop empties one folder. */
  lemma PlacesChangeByTheAct(parse: Parser, s: System, act: Act, key: Key, folder: nat)
    requires Inv(parse, s)
    ensures (key, folder) in ViewOf(Step(parse, s, act).db).places
            <==> Puts(s, act, key, folder) || ((key, folder) in ViewOf(s.db).places && !Drops(s, act, folder))
  {
    hide ViewOf, Inv, Step;
    if act.DeleteFolder? {
      DroppedPlaces(parse, s, act.folder);
    } else if act.Commit? && act.w in s.txns && s.txns[act.w].Written? {
      CommittedPlaces(parse, s, act.w);
    } else {
      SamePlaces(parse, s, act);
    }
  }

  /** The last act of the run that concerns the message's place in the folder put it there. */
  ghost predicate PlacedLast(parse: Parser, s: System, acts: seq<Act>, key: Key, folder: nat)
    decreases |acts|
  {
    acts != [] &&
    var n := |acts| - 1;
    var q := Run(parse, s, acts[..n]);
    Puts(q, acts[n], key, folder) || (!Drops(q, acts[n], folder) && PlacedLast(parse, s, acts[..n], key, folder))
  }

  /** After any run the folder shows the message exactly when it was put there after the folder's last drop. */
  lemma {:induction false} FolderShowsWhatWasPutThere(parse: Parser, s: System, acts: seq<Act>, key: Key, folder: nat)
    requires Start(s)
    ensures (key, folder) in ViewOf(Run(parse, s, acts).db).places <==> PlacedLast(parse, s, acts, key, folder)
    decreases |acts|
  {
    if acts != [] {
      var n := |acts| - 1;
      FolderShowsWhatWasPutThere(parse, s, acts[..n], key, folder);
      StartIsOk(parse, s);
      RunKeepsInv(parse, s, acts[..n]);
      var q := Run(parse, s, acts[..n]);
      assert acts == acts[..n] + [acts[n]];
      RunConcat(parse, s, acts[..n], [acts[n]]);
      hide Step, Inv, ViewOf, Puts, Drops;
      assert Run(parse, q, [acts[n]]) == Step(parse, q, acts[n]) by { assert [acts[n]][1..] == []; }
      hide Run;
      PlacesChangeByTheAct(parse, q, acts[n], key, folder);
    }
  }

  predicate LocationOf(m: Message, folder: nat, location: Location, job: ParseJob) {
    && job.account == m.account && job.hash == m.hash && job.folder == folder
    && location.uid == job.uid && location.uidvalidity == job.uidvalidity && location.flags == job.flags
  }

  /** Each location holds the UID, UIDVALIDITY and flags of one job that committed, of that message and folder. */
  ghost predicate LocationsAreJobs(s: System) {
    forall p :: p in s.db.locations ==>
      && p.0 in s.db.messages
      && exists job :: job in s.done && LocationOf(s.db.messages[p.0], p.1, s.db.locations[p], job)
  }

  lemma CommitKeepsLocations(parse: Parser, s: System, w: nat)
    requires Inv(parse, s) && LocationsAreJobs(s) && w in s.txns && s.txns[w].Written?
    ensures LocationsAreJobs(CommitStep(s, w, s.txns[w]))
  {
    var t := s.txns[w];
    assert TxnOk(parse, s, t) && RowOk(parse, s.db, t);
    CommittedMessages(s.db, t.job, t.id, t.insert);
    var s' := CommitStep(s, w, t);
    hide Inv, TxnOk, RowOk, Apart;
    forall p | p in s'.db.locations
      ensures p.0 in s'.db.messages
              && exists job :: job in s'.done && LocationOf(s'.db.messages[p.0], p.1, s'.db.locations[p], job)
    {
      if p == (t.id, t.job.folder) {
        assert LocationOf(s'.db.messages[p.0], p.1, s'.db.locations[p], t.job);
      } else {
        assert p in s.db.locations;
        var job :| job in s.done && LocationOf(s.db.messages[p.0], p.1, s.db.locations[p], job);
        assert LocationOf(s'.db.messages[p.0], p.1, s'.db.locations[p], job);
      }
    }
  }

  lemma StepKeepsLocations(parse: Parser, s: System, act: Act)
    requires Inv(parse, s) && LocationsAreJobs(s)
    ensures LocationsAreJobs(Step(parse, s, act))
  {
    if act.Commit? && act.w in s.txns && s.txns[act.w].Written? {
      CommitKeepsLocations(parse, s, act.w);
    } else {
      hide Inv, Next, LocationOf, FolderHeld;
    }
  }

  lemma {:induction false} RunKeepsLocations(parse: Parser, s: System, acts: seq<Act>)
    requires Inv(parse, s) && LocationsAreJobs(s)
    ensures LocationsAreJobs(Run(parse, s, acts))
    decreases |acts|
  {
    if acts != [] {
      hide Inv, Step, LocationsAreJobs;
      StepKeepsInv(parse, s, acts[0]);
      StepKeepsLocations(parse, s, acts[0]);
      RunKeepsLocations(parse, Step(parse, s, acts[0]), acts[1..]);
    }
  }

  /** In every run, a location says what one of the committed jobs of its message and folder said. */
  lemma LocationsSayWhatTheirJobsSay(parse: Parser, s: System, acts: seq<Act>)
    requires Start(s)
    ensures LocationsAreJobs(Run(parse, s, acts))
  {
    StartIsOk(parse, s);
    RunKeepsLocations(parse, s, acts);
  }

  /** A job is fetched unless it is dead, and fails at once if its bytes are missing or do not parse. */
  lemma FetchDecides(parse: Parser, s: System, w: nat, job: ParseJob)
    requires w in s.txns && s.txns[w].Idle?
    ensures Step(parse, s, Fetch(w, job)).txns
            == s.txns[w := if job !in s.jobs || job in s.dead then Idle
                           else if (job.account, job.hash) in s.raw && parse(job.hash).Some?
                           then Storing(job, parse(job.hash).value, 0) else Failed(job)]
  {}

  /** A crash or any error that rolls back leaves nothing of a transaction, and frees its worker. */
  lemma RollbackLeavesNothing(parse: Parser, s: System, w: nat)
    requires w in s.txns
    ensures Step(parse, s, Abort(w)) == s.(txns := s.txns[w := Idle])
  {}

  lemma KeyedRow(db: Db, key: Key)
    ensures key in Keys(db) <==> exists i :: i in db.messages && (db.messages[i].account, db.messages[i].hash) == key
  {}

  /**
   The loser of a race to create a message takes the winner's row: its insert is refused once
   the winner has committed, and looking again finds that row. If only the row id was taken,
   looking again finds nothing and the job fails.
   */
  lemma CreationLoserTakesTheWinnersRow(parse: Parser, s: System, w: nat, id: nat)
    requires w in s.txns && s.txns[w].Absent? && !RowHeld(s, w, JobKey(s.txns[w].job), id)
    requires JobKey(s.txns[w].job) in Keys(s.db) || id in s.db.messages
    ensures var job, q := s.txns[w].job, Step(parse, Step(parse, s, Create(w, id)), Refetch(w));
            && q.db == s.db && w in q.txns
            && if exists i :: i in s.db.messages && (s.db.messages[i].account, s.db.messages[i].hash) == (job.account, job.hash)
               then q.txns[w].Known? && q.txns[w].job == job && q.txns[w].insert.None? && q.txns[w].id in s.db.messages
                    && (s.db.messages[q.txns[w].id].account, s.db.messages[q.txns[w].id].hash) == (job.account, job.hash)
               else q.txns[w] == Failed(job)
  {
    var job := s.txns[w].job;
    KeyedRow(s.db, JobKey(job));
    hide RowHeld, Keys;
    var s1 := Step(parse, s, Create(w, id));
    assert s1 == Set(s, w, Lost(job, s.txns[w].parsed));
    hide AfterCreate;
    assert Step(parse, s1, Refetch(w)) == Set(s1, w, Existing(s.db, job, Failed(job)));
  }
}
