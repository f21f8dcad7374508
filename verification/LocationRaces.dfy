/**
 When a job fails because of a location. The recording transaction looks its location up
 and then inserts or updates it; the write is refused when a racing execution inserted the
 row in between, and when the row found was dropped with its folder's locations in between.
 Neither error is transient, so the job fails for good although its bytes are stored and
 can be parsed. For each of the two cases: whether it can happen, decided exactly by which
 jobs are executed and which folders' locations are dropped.
 */
module LocationRaces {
  import opened Wrappers
  import opened MailDb
  import opened IngestRuns

  /** The act is a write, refused, of the location of message `key` in the folder: an insert, or else an update. */
  ghost predicate RefusedNow(parse: Parser, s: System, act: Act, key: Key, folder: nat, insert: bool) {
    && act.Write? && act.w in s.txns && s.txns[act.w].Placing?
    && JobKey(s.txns[act.w].job) == key && s.txns[act.w].job.folder == folder
    && s.txns[act.w].found.Missing? == insert
    && Step(parse, s, act).txns[act.w].Failed?
  }

  ghost predicate Refused(parse: Parser, s: System, acts: seq<Act>, key: Key, folder: nat, insert: bool)
    decreases |acts|
  {
    acts != []
    && (RefusedNow(parse, s, acts[0], key, folder, insert)
        || Refused(parse, Step(parse, s, acts[0]), acts[1..], key, folder, insert))
  }

  predicate Allowed(act: Act, jobs: set<ParseJob>, dropped: set<nat>) {
    (act.Fetch? ==> act.job in jobs) && (act.DeleteFolder? ==> act.folder in dropped)
  }

  /** Only these jobs are executed, and only these folders' locations are dropped. */
  predicate Within(acts: seq<Act>, jobs: set<ParseJob>, dropped: set<nat>) {
    forall act :: act in acts ==> Allowed(act, jobs, dropped)
  }

  /** Some run of these jobs and drops refuses a write to the location. */
  ghost predicate CanRefuse(parse: Parser, s: System, jobs: set<ParseJob>, dropped: set<nat>, key: Key, folder: nat,
                            insert: bool) {
    exists acts :: Within(acts, jobs, dropped) && Refused(parse, s, acts, key, folder, insert)
  }

  /** A queue row holds one job. */
  predicate DistinctRows(jobs: set<ParseJob>) {
    forall j, j' :: j in jobs && j' in jobs && j.row == j'.row ==> j == j'
  }

  predicate Places(job: ParseJob, key: Key, folder: nat) { JobKey(job) == key && job.folder == folder }

  predicate Elsewhere(job: ParseJob, key: Key, folder: nat) { JobKey(job) == key && job.folder != folder }

  /** The folder's locations are dropped, or, for an insert, another job puts the same message in another folder. */
  predicate Exposed(jobs: set<ParseJob>, dropped: set<nat>, key: Key, folder: nat, insert: bool) {
    && (exists job :: job in jobs && Places(job, key, folder))
    && (folder in dropped || (insert && exists job :: job in jobs && Elsewhere(job, key, folder)))
  }

  // Out of harm's way: what every run keeps that is not exposed.

  predicate Executing(s: System, jobs: set<ParseJob>) {
    forall w :: w in s.txns && !s.txns[w].Idle? ==> s.txns[w].job in jobs
  }

  /** Every committed row of the message has its location in the folder, and lookups know it. */
  predicate AtHome(s: System, key: Key, folder: nat) {
    && (forall id :: id in s.db.messages && KeyOf(s.db.messages[id]) == key ==> (id, folder) in s.db.locations)
    && (forall w :: w in s.txns && s.txns[w].Placing? && Places(s.txns[w].job, key, folder) && s.txns[w].found.Missing? ==>
          s.txns[w].insert.Some?)
  }

  predicate Undropped(s: System, folder: nat) {
    forall w :: w in s.txns && s.txns[w].Placing? && s.txns[w].job.folder == folder ==> !s.txns[w].found.Dropped?
  }

  predicate Sheltered(s: System, jobs: set<ParseJob>, key: Key, folder: nat, insert: bool) {
    && Executing(s, jobs)
    && ((exists job :: job in jobs && Places(job, key, folder)) ==>
          if insert then AtHome(s, key, folder) else Undropped(s, folder))
  }

  lemma ExecutingIsKept(parse: Parser, s: System, act: Act, jobs: set<ParseJob>, dropped: set<nat>)
    requires Executing(s, jobs) && Allowed(act, jobs, dropped)
    ensures Executing(Step(parse, s, act), jobs)
  {}

  lemma UndroppedIsKept(parse: Parser, s: System, act: Act, folder: nat)
    requires Undropped(s, folder) && act != DeleteFolder(folder)
    ensures Undropped(Step(parse, s, act), folder)
  {}

  lemma AtHomeIsKept(parse: Parser, s: System, act: Act, jobs: set<ParseJob>, key: Key, folder: nat)
    requires Inv(parse, s) && AtHome(s, key, folder) && act != DeleteFolder(folder)
    requires Executing(s, jobs) && forall job :: job in jobs && JobKey(job) == key ==> job.folder == folder
    ensures AtHome(Step(parse, s, act), key, folder)
  {
    hide ValidDb, BlobsFirst, HistoryOk, Stored, Apart, Keys, RowHeld, PlaceHeld, FolderHeld;
  }

  lemma ShelteredIsKept(parse: Parser, s: System, act: Act, jobs: set<ParseJob>, dropped: set<nat>, key: Key,
                        folder: nat, insert: bool)
    requires Inv(parse, s) && Sheltered(s, jobs, key, folder, insert)
    requires Allowed(act, jobs, dropped) && !Exposed(jobs, dropped, key, folder, insert)
    ensures Sheltered(Step(parse, s, act), jobs, key, folder, insert)
  {
    hide Step, Inv, AtHome, Undropped, Executing;
    ExecutingIsKept(parse, s, act, jobs, dropped);
    if exists job :: job in jobs && Places(job, key, folder) {
      if insert {
        assert forall job :: job in jobs && !Elsewhere(job, key, folder) && JobKey(job) == key ==> job.folder == folder;
        AtHomeIsKept(parse, s, act, jobs, key, folder);
      } else {
        UndroppedIsKept(parse, s, act, folder);
      }
    }
  }

  lemma ShelteredIsNotRefused(parse: Parser, s: System, act: Act, jobs: set<ParseJob>, key: Key, folder: nat, insert: bool)
    requires Inv(parse, s) && Sheltered(s, jobs, key, folder, insert)
    ensures !RefusedNow(parse, s, act, key, folder, insert)
  {
    hide BlobsFirst, HistoryOk, Stored, Apart, Keys, Unique, PlaceHeld, EntryAt, IdealEntry;
    if act.Write? && act.w in s.txns && s.txns[act.w].Placing? && Places(s.txns[act.w].job, key, folder) {
      assert TxnOk(parse, s, s.txns[act.w]) && RowOk(parse, s.db, s.txns[act.w]);
    }
  }

  lemma {:induction false} ShelteredRunsAreNotRefused(parse: Parser, s: System, acts: seq<Act>,
                                                      jobs: set<ParseJob>, dropped: set<nat>, key: Key, folder: nat, insert: bool)
    requires Inv(parse, s) && Sheltered(s, jobs, key, folder, insert)
    requires Within(acts, jobs, dropped) && !Exposed(jobs, dropped, key, folder, insert)
    ensures !Refused(parse, s, acts, key, folder, insert)
    decreases |acts|
  {
    hide Inv, Sheltered, Exposed, Step, RefusedNow;
    if acts != [] {
      ShelteredIsNotRefused(parse, s, acts[0], jobs, key, folder, insert);
      ShelteredIsKept(parse, s, acts[0], jobs, dropped, key, folder, insert);
      StepKeepsInv(parse, s, acts[0]);
      ShelteredRunsAreNotRefused(parse, Step(parse, s, acts[0]), acts[1..], jobs, dropped, key, folder, insert);
    }
  }

  // In harm's way: runs that end with a refused write.

  ghost predicate Leads(parse: Parser, s: System, q: System, jobs: set<ParseJob>, dropped: set<nat>) {
    exists acts :: Within(acts, jobs, dropped) && Run(parse, s, acts) == q
  }

  lemma {:induction false} RunConcat(parse: Parser, s: System, a: seq<Act>, b: seq<Act>)
    ensures Run(parse, s, a + b) == Run(parse, Run(parse, s, a), b)
    decreases |a|
  {
    if a == [] {
      assert a + b == b;
    } else {
      assert (a + b)[1..] == a[1..] + b;
      RunConcat(parse, Step(parse, s, a[0]), a[1..], b);
    }
  }

  lemma {:induction false} RefusedLater(parse: Parser, s: System, a: seq<Act>, b: seq<Act>, key: Key, folder: nat, insert: bool)
    requires Refused(parse, Run(parse, s, a), b, key, folder, insert)
    ensures Refused(parse, s, a + b, key, folder, insert)
    decreases |a|
  {
    if a == [] {
      assert a + b == b;
    } else {
      assert (a + b)[1..] == a[1..] + b;
      RefusedLater(parse, Step(parse, s, a[0]), a[1..], b, key, folder, insert);
    }
  }

  lemma RunLeads(parse: Parser, s: System, acts: seq<Act>, jobs: set<ParseJob>, dropped: set<nat>)
    requires Within(acts, jobs, dropped)
    ensures Leads(parse, s, Run(parse, s, acts), jobs, dropped)
  {}

  lemma LeadsNowhere(parse: Parser, s: System, jobs: set<ParseJob>, dropped: set<nat>)
    ensures Leads(parse, s, s, jobs, dropped)
  {
    assert Run(parse, s, []) == s;
  }

  lemma LeadsOn(parse: Parser, s: System, q: System, r: System, jobs: set<ParseJob>, dropped: set<nat>)
    requires Leads(parse, s, q, jobs, dropped) && Leads(parse, q, r, jobs, dropped)
    ensures Leads(parse, s, r, jobs, dropped)
  {
    hide Run;
    var a :| Within(a, jobs, dropped) && Run(parse, s, a) == q;
    var b :| Within(b, jobs, dropped) && Run(parse, q, b) == r;
    RunConcat(parse, s, a, b);
    assert Within(a + b, jobs, dropped);
  }

  lemma LeadsByStep(parse: Parser, s: System, q: System, act: Act, jobs: set<ParseJob>, dropped: set<nat>)
    requires Leads(parse, s, q, jobs, dropped) && Allowed(act, jobs, dropped)
    ensures Leads(parse, s, Step(parse, q, act), jobs, dropped)
  {
    hide Step;
    assert Run(parse, q, [act]) == Step(parse, q, act) by { assert [act][1..] == []; }
    assert Within([act], jobs, dropped);
    LeadsOn(parse, s, q, Step(parse, q, act), jobs, dropped);
  }

  lemma LeadsToRefusal(parse: Parser, s: System, q: System, act: Act, jobs: set<ParseJob>, dropped: set<nat>,
                       key: Key, folder: nat, insert: bool)
    requires Leads(parse, s, q, jobs, dropped) && RefusedNow(parse, q, act, key, folder, insert)
    ensures CanRefuse(parse, s, jobs, dropped, key, folder, insert)
  {
    hide Step, Run;
    var a :| Within(a, jobs, dropped) && Run(parse, s, a) == q;
    assert Refused(parse, q, [act], key, folder, insert);
    RefusedLater(parse, s, a, [act], key, folder, insert);
    assert Within(a + [act], jobs, dropped);
  }

  /** The job waits in the queue, its bytes stored and parseable. */
  predicate Ready(parse: Parser, s: System, job: ParseJob) {
    job in s.jobs && job !in s.dead && JobKey(job) in s.raw && parse(job.hash).Some?
  }

  predicate AllIdle(s: System) { forall w :: w in s.txns ==> s.txns[w] == Idle }

  /** An upload puts a job in the queue. */
  lemma Uploading(parse: Parser, s: System, job: ParseJob, jobs: set<ParseJob>, dropped: set<nat>)
    requires s.uploads == map[] && NewRow(s, job)
    ensures Leads(parse, s, s.(raw := s.raw + {JobKey(job)}, jobs := s.jobs + {job}), jobs, dropped)
  {
    LeadsNowhere(parse, s, jobs, dropped);
    LeadsByStep(parse, s, s, Put(0, job), jobs, dropped);
    var s1 := Step(parse, s, Put(0, job));
    LeadsByStep(parse, s, s1, Enqueue(0), jobs, dropped);
    assert s1.uploads - {0} == map[];
  }

  lemma {:induction false} StoringFiles(parse: Parser, s: System, w: nat, jobs: set<ParseJob>, dropped: set<nat>)
    returns (q: System)
    requires w in s.txns && s.txns[w].Storing? && s.txns[w].stored <= |s.txns[w].parsed.files|
    ensures Leads(parse, s, q, jobs, dropped)
    ensures q == Set(s, w, Storing(s.txns[w].job, s.txns[w].parsed, |s.txns[w].parsed.files|)).(files := q.files)
    decreases |s.txns[w].parsed.files| - s.txns[w].stored
  {
    LeadsNowhere(parse, s, jobs, dropped);
    if s.txns[w].stored == |s.txns[w].parsed.files| {
      q := s;
      assert s.txns[w := s.txns[w]] == s.txns;
    } else {
      var s1 := Step(parse, s, StoreFile(w));
      LeadsByStep(parse, s, s, StoreFile(w), jobs, dropped);
      q := StoringFiles(parse, s1, w, jobs, dropped);
      LeadsOn(parse, s, s1, q, jobs, dropped);
    }
  }

  /** An idle worker fetches a ready job, stores the files and begins its transaction. */
  lemma Starting(parse: Parser, s: System, w: nat, job: ParseJob, jobs: set<ParseJob>, dropped: set<nat>) returns (q: System)
    requires w in s.txns && s.txns[w].Idle? && Ready(parse, s, job) && job in jobs
    ensures Leads(parse, s, q, jobs, dropped)
    ensures q == Set(s, w, Started(job, parse(job.hash).value)).(files := q.files)
  {
    LeadsNowhere(parse, s, jobs, dropped);
    LeadsByStep(parse, s, s, Fetch(w, job), jobs, dropped);
    var s1 := Step(parse, s, Fetch(w, job));
    assert s1 == Set(s, w, Storing(job, parse(job.hash).value, 0));
    hide Leads;
    var s2 := StoringFiles(parse, s1, w, jobs, dropped);
    LeadsOn(parse, s, s1, s2, jobs, dropped);
    LeadsByStep(parse, s, s2, Begin(w), jobs, dropped);
    q := Step(parse, s2, Begin(w));
  }

  /** A ready job, executed alone, is committed. */
  lemma Committing(parse: Parser, s: System, w: nat, job: ParseJob, id: nat, jobs: set<ParseJob>, dropped: set<nat>)
    returns (q: System)
    requires AllIdle(s) && w in s.txns && Ready(parse, s, job) && job in jobs
    requires id !in s.db.messages && JobKey(job) !in Keys(s.db)
    ensures Leads(parse, s, q, jobs, dropped)
    ensures q == s.(db := Committed(s.db, job, id, parse(job.hash)), files := q.files, done := s.done + {job},
                    placed := s.placed + {(JobKey(job), job.folder)})
  {
    hide Leads, Committed, Keys, JobKey, Run, Step;
    var s1 := Starting(parse, s, w, job, jobs, dropped);
    var acts := [Look(w), Create(w, id), Find(w), Write(w), Commit(w)];
    LoneTransactionCommits(parse, s1, w, id);
    q := Run(parse, s1, acts);
    assert Leads(parse, s1, q, jobs, dropped) by { RunLeads(parse, s1, acts, jobs, dropped); }
    LeadsOn(parse, s, s1, q, jobs, dropped);
    assert s1.txns[w := Idle] == s.txns;
  }
  /** The message has the row, and it alone. */
  predicate RowIs(db: Db, key: Key, id: nat) {
    id in db.messages && KeyOf(db.messages[id]) == key && forall i :: i in db.messages && KeyOf(db.messages[i]) == key ==> i == id
  }

  /** A transaction on an archived message finds its row and looks its location up. */
  lemma Looking(parse: Parser, s: System, q: System, w: nat, job: ParseJob, id: nat, jobs: set<ParseJob>, dropped: set<nat>)
    returns (r: System)
    requires Leads(parse, s, q, jobs, dropped)
    requires w in q.txns && q.txns[w].Started? && q.txns[w].job == job && RowIs(q.db, JobKey(job), id)
    ensures Leads(parse, s, r, jobs, dropped)
    ensures r == Set(q, w, Placing(job, id, None, AfterFind(q.db, job, id)))
  {
    hide Leads, AfterFind;
    LeadsByStep(parse, s, q, Look(w), jobs, dropped);
    var q1 := Step(parse, q, Look(w));
    assert q1 == Set(q, w, Known(job, id, None));
    LeadsByStep(parse, s, q1, Find(w), jobs, dropped);
    r := Step(parse, q1, Find(w));
  }

  /** Two executions that both looked before either wrote: the second insert is refused. */
  lemma SecondInsertIsRefused(parse: Parser, q: System, v: nat, w: nat, job: ParseJob, id: nat) returns (r: System)
    requires v in q.txns && w in q.txns && v != w
    requires q.txns[v] == Placing(job, id, None, Missing) == q.txns[w]
    requires forall u :: u in q.txns && u != v && u != w ==> q.txns[u].Idle?
    requires (id, job.folder) !in q.db.locations
    ensures r == Step(parse, Step(parse, q, Write(v)), Commit(v))
    ensures RefusedNow(parse, r, Write(w), JobKey(job), job.folder, true)
  {
    hide JobKey;
    var q1 := Step(parse, q, Write(v));
    assert q1 == Set(q, v, Written(job, id, None, true));
    r := Step(parse, q1, Commit(v));
    assert r == CommitStep(q1, v, q1.txns[v]);
    assert r.txns[w] == Placing(job, id, None, Missing);
  }

  lemma InsertRace(parse: Parser, s: System, v: nat, w: nat, job: ParseJob, id: nat, jobs: set<ParseJob>, dropped: set<nat>)
    requires AllIdle(s) && v in s.txns && w in s.txns && v != w
    requires Ready(parse, s, job) && job in jobs && RowIs(s.db, JobKey(job), id) && (id, job.folder) !in s.db.locations
    ensures CanRefuse(parse, s, jobs, dropped, JobKey(job), job.folder, true)
  {
    hide Leads, RowIs, RefusedNow, Step, JobKey, CanRefuse;
    var s1 := Starting(parse, s, v, job, jobs, dropped);
    var s2 := Starting(parse, s1, w, job, jobs, dropped);
    LeadsOn(parse, s, s1, s2, jobs, dropped);
    var s3 := Looking(parse, s, s2, v, job, id, jobs, dropped);
    var s4 := Looking(parse, s, s3, w, job, id, jobs, dropped);
    var s5 := SecondInsertIsRefused(parse, s4, v, w, job, id);
    LeadsByStep(parse, s, s4, Write(v), jobs, dropped);
    LeadsByStep(parse, s, Step(parse, s4, Write(v)), Commit(v), jobs, dropped);
    LeadsToRefusal(parse, s, s5, Write(w), jobs, dropped, JobKey(job), job.folder, true);
  }

  /** The folder's locations are dropped after the lookup: the update is refused, and the folder no longer has the message. */
  lemma DroppedUnderTheWorker(parse: Parser, s: System, w: nat, job: ParseJob, id: nat, jobs: set<ParseJob>, dropped: set<nat>)
    returns (q: System)
    requires AllIdle(s) && w in s.txns && Ready(parse, s, job) && job in jobs && job.folder in dropped
    requires RowIs(s.db, JobKey(job), id) && (id, job.folder) in s.db.locations
    ensures Leads(parse, s, q, jobs, dropped) && RefusedNow(parse, q, Write(w), JobKey(job), job.folder, false)
    ensures JobKey(job) in Keys(q.db) && (JobKey(job), job.folder) !in ViewOf(q.db).places
  {
    hide Leads;
    var s1 := Starting(parse, s, w, job, jobs, dropped);
    var s2 := Looking(parse, s, s1, w, job, id, jobs, dropped);
    LeadsByStep(parse, s, s2, DeleteFolder(job.folder), jobs, dropped);
    q := Step(parse, s2, DeleteFolder(job.folder));
    assert !FolderHeld(s2, job.folder);
    assert q.txns[w] == Placing(job, id, None, Dropped);
    PlacesShrink(s2.db, job.folder);
    assert KeyOf(q.db.messages[id]) == JobKey(job);
  }
  lemma RefusesLater(parse: Parser, s: System, q: System, jobs: set<ParseJob>, dropped: set<nat>, key: Key, folder: nat,
                     insert: bool)
    requires Leads(parse, s, q, jobs, dropped) && CanRefuse(parse, q, jobs, dropped, key, folder, insert)
    ensures CanRefuse(parse, s, jobs, dropped, key, folder, insert)
  {
    hide Run, Refused;
    var a :| Within(a, jobs, dropped) && Run(parse, s, a) == q;
    var b :| Within(b, jobs, dropped) && Refused(parse, q, b, key, folder, insert);
    RefusedLater(parse, s, a, b, key, folder, insert);
    assert Within(a + b, jobs, dropped);
  }

  /** From the start, a job's upload and lone execution put its message in row 0. */
  lemma FirstMessage(parse: Parser, s: System, w: nat, job: ParseJob, jobs: set<ParseJob>, dropped: set<nat>) returns (q: System)
    requires AllIdle(s) && w in s.txns && Ready(parse, s, job) && job in jobs && s.db == EMPTY
    ensures Leads(parse, s, q, jobs, dropped)
    ensures q == s.(db := q.db, files := q.files, done := q.done, placed := q.placed)
    ensures RowIs(q.db, JobKey(job), 0) && q.db.locations.Keys == {(0, job.folder)}
  {
    hide Leads;
    q := Committing(parse, s, w, job, 0, jobs, dropped);
  }

  lemma RefusalAfterDrop(parse: Parser, s: System, v: nat, w: nat, job: ParseJob, jobs: set<ParseJob>, dropped: set<nat>,
                         insert: bool)
    requires Start(s) && v in s.txns && w in s.txns && v != w
    requires job in jobs && parse(job.hash).Some? && job.folder in dropped
    ensures CanRefuse(parse, s, jobs, dropped, JobKey(job), job.folder, insert)
  {
    hide Leads, CanRefuse, RefusedNow, ViewOf;
    Uploading(parse, s, job, jobs, dropped);
    var s1 := s.(raw := s.raw + {JobKey(job)}, jobs := s.jobs + {job});
    var s2 := FirstMessage(parse, s1, w, job, jobs, dropped);
    LeadsOn(parse, s, s1, s2, jobs, dropped);
    if insert {
      LeadsByStep(parse, s, s2, DeleteFolder(job.folder), jobs, dropped);
      var s3 := Step(parse, s2, DeleteFolder(job.folder));
      InsertRace(parse, s3, v, w, job, 0, jobs, dropped);
      RefusesLater(parse, s, s3, jobs, dropped, JobKey(job), job.folder, true);
    } else {
      var s3 := DroppedUnderTheWorker(parse, s2, w, job, 0, jobs, dropped);
      LeadsOn(parse, s, s2, s3, jobs, dropped);
      LeadsToRefusal(parse, s, s3, Write(w), jobs, dropped, JobKey(job), job.folder, false);
    }
  }

  lemma RefusalAfterOther(parse: Parser, s: System, v: nat, w: nat, job: ParseJob, other: ParseJob, jobs: set<ParseJob>,
                          dropped: set<nat>)
    requires Start(s) && v in s.txns && w in s.txns && v != w && parse(job.hash).Some?
    requires job in jobs && other in jobs && job.row != other.row && JobKey(other) == JobKey(job) && other.folder != job.folder
    ensures CanRefuse(parse, s, jobs, dropped, JobKey(job), job.folder, true)
  {
    hide Leads, CanRefuse;
    Uploading(parse, s, other, jobs, dropped);
    var s1 := s.(raw := s.raw + {JobKey(other)}, jobs := s.jobs + {other});
    Uploading(parse, s1, job, jobs, dropped);
    var s2 := s1.(raw := s1.raw + {JobKey(job)}, jobs := s1.jobs + {job});
    LeadsOn(parse, s, s1, s2, jobs, dropped);
    var s3 := FirstMessage(parse, s2, w, other, jobs, dropped);
    LeadsOn(parse, s, s2, s3, jobs, dropped);
    InsertRace(parse, s3, v, w, job, 0, jobs, dropped);
    RefusesLater(parse, s, s3, jobs, dropped, JobKey(job), job.folder, true);
  }

  /**
   From any start with two workers or more, and for any set of jobs to execute and of folders
   whose locations may be dropped: some run refuses the insert of a message's location if and
   only if that location is exposed, and likewise for the update. An update is exposed by drops
   of its folder alone; an insert also by a job that puts the same message in another folder.
   */
  lemma RefusedExactlyWhenExposed(parse: Parser, s: System, v: nat, w: nat, jobs: set<ParseJob>, dropped: set<nat>,
                                  key: Key, folder: nat, insert: bool)
    requires Start(s) && v in s.txns && w in s.txns && v != w
    requires DistinctRows(jobs) && parse(key.1).Some?
    ensures CanRefuse(parse, s, jobs, dropped, key, folder, insert) <==> Exposed(jobs, dropped, key, folder, insert)
  {
    hide Run, Refused, Step;
    if Exposed(jobs, dropped, key, folder, insert) {
      var job :| job in jobs && Places(job, key, folder);
      if folder in dropped {
        RefusalAfterDrop(parse, s, v, w, job, jobs, dropped, insert);
      } else {
        var other :| other in jobs && Elsewhere(other, key, folder);
        RefusalAfterOther(parse, s, v, w, job, other, jobs, dropped);
      }
    } else {
      StartIsOk(parse, s);
      forall acts | Within(acts, jobs, dropped) ensures !Refused(parse, s, acts, key, folder, insert) {
        ShelteredRunsAreNotRefused(parse, s, acts, jobs, dropped, key, folder, insert);
      }
    }
  }

  lemma PlaceOfRow(db: Db, id: nat, folder: nat)
    requires (id, folder) in db.locations && id in db.messages
    ensures (KeyOf(db.messages[id]), folder) in ViewOf(db).places
  {}

  /**
   What a refused write leaves, in every run: no row is changed, and the message itself is in the
   archive. After a refused insert it is in the folder too; after a refused update it need not be.
   */
  lemma LosersAreArchived(parse: Parser, s: System, acts: seq<Act>, w: nat)
    requires Start(s)
    ensures var q := Run(parse, s, acts);
            w in q.txns && q.txns[w].Placing? && Step(parse, q, Write(w)).txns[w].Failed? ==>
              var job := q.txns[w].job;
              && Step(parse, q, Write(w)) == Set(q, w, Failed(job))
              && q.txns[w].insert.None? && parse(job.hash).Some? && JobKey(job) in q.raw && JobKey(job) in Keys(q.db)
              && (q.txns[w].found.Missing? ==> (JobKey(job), job.folder) in ViewOf(q.db).places)
  {
    hide Run, HistoryOk, PlaceHeld, Stored, Apart, Start, Unique, EntryAt, IdealEntry, ViewOf, Keys;
    StartIsOk(parse, s);
    RunKeepsInv(parse, s, acts);
    var q := Run(parse, s, acts);
    if w in q.txns && q.txns[w].Placing? {
      var t := q.txns[w];
      assert TxnOk(parse, q, t) && RowOk(parse, q.db, t);
      if t.id in q.db.messages { RowHasKey(q.db, t.id); }
      if t.insert.None? && (t.id, t.job.folder) in q.db.locations { PlaceOfRow(q.db, t.id, t.job.folder); }
    }
  }

  predicate Abandoned(s: System, job: ParseJob) {
    job in s.dead && job !in s.done && forall w :: w in s.txns && !s.txns[w].Idle? ==> s.txns[w].job != job
  }

  lemma AbandonedIsKept(parse: Parser, s: System, act: Act, job: ParseJob)
    requires Abandoned(s, job)
    ensures Abandoned(Step(parse, s, act), job)
  {}

  lemma {:induction false} AbandonedForGood(parse: Parser, s: System, acts: seq<Act>, job: ParseJob)
    requires Abandoned(s, job)
    ensures job !in Run(parse, s, acts).done
    decreases |acts|
  {
    if acts != [] {
      hide Abandoned, Step;
      AbandonedIsKept(parse, s, acts[0], job);
      AbandonedForGood(parse, Step(parse, s, acts[0]), acts[1..], job);
    }
  }

  /** Once its failure is recorded, a job that no other execution holds or has committed is never done in any continuation. */
  lemma LosersFailForGood(parse: Parser, s: System, w: nat, later: seq<Act>)
    requires w in s.txns && s.txns[w].Failed? && s.txns[w].job !in s.done
    requires forall v :: v in s.txns && v != w && !s.txns[v].Idle? ==> s.txns[v].job != s.txns[w].job
    ensures s.txns[w].job !in Run(parse, s, [Bury(w)] + later).done
  {
    var s1 := Step(parse, s, Bury(w));
    assert Abandoned(s1, s.txns[w].job);
    assert ([Bury(w)] + later)[1..] == later;
    AbandonedForGood(parse, s1, later, s.txns[w].job);
  }
}
