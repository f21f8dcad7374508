/**
 Ingest as a state machine: uploads store raw bytes and then enqueue a parse job; any
 number of workers execute jobs, any number of times, their transactions interleaving
 statement by statement. A transaction reads committed rows and its own; an insert that
 would clash with another transaction's uncommitted insert waits, one that clashes with a
 committed row is refused. A worker whose execution failed for good records that in the
 job's queue row, after which the row is never fetched again; one that crashes, or loses its
 connection, leaves the row to be fetched anew.
 */
module IngestRuns {
  import opened Wrappers
  import opened MailDb

  /** What the lookup of a location saw, and what has become of the row since. */
  datatype Seen = Missing | Present | Dropped

  datatype Txn =
    | Idle
    | Storing(job: ParseJob, parsed: Parsed, stored: nat)
    | Started(job: ParseJob, parsed: Parsed)
    | Absent(job: ParseJob, parsed: Parsed)             // the lookup found no row
    | Lost(job: ParseJob, parsed: Parsed)               // the insert hit a unique index
    | Known(job: ParseJob, id: nat, insert: Option<Parsed>)
    | Placing(job: ParseJob, id: nat, insert: Option<Parsed>, found: Seen)
    | Written(job: ParseJob, id: nat, insert: Option<Parsed>, added: bool)
    | Failed(job: ParseJob)                             // rolled back with a non-transient error

  datatype System = System(
    raw: set<Key>,
    files: set<Key>,
    uploads: map<nat, ParseJob>,
    jobs: set<ParseJob>,
    dead: set<ParseJob>,         // queue rows in the failed state
    db: Db,
    txns: map<nat, Txn>,
    done: set<ParseJob>,         // history: jobs some execution of which committed
    placed: set<(Key, nat)>      // history: committed locations, less those of deleted folders
  )

  datatype Act =
    | Put(u: nat, job: ParseJob)
    | Enqueue(u: nat)
    | DeleteFolder(folder: nat)
    | Fetch(w: nat, job: ParseJob)
    | StoreFile(w: nat)
    | Begin(w: nat)
    | Look(w: nat)
    | Create(w: nat, id: nat)
    | Refetch(w: nat)
    | Find(w: nat)
    | Write(w: nat)
    | Commit(w: nat)
    | Bury(w: nat)   // the failure is recorded in the queue row
    | Abort(w: nat)  // a crash, a lost connection or any other error that rolls back

  predicate InTransaction(txn: Txn) { txn.Known? || txn.Placing? || txn.Written? }

  function Set(s: System, w: nat, txn: Txn): System { s.(txns := s.txns[w := txn]) }

  /** Another transaction holds an uncommitted message row with this key or id. */
  predicate RowHeld(s: System, w: nat, key: Key, id: nat) {
    exists v :: v in s.txns && v != w && InTransaction(s.txns[v]) && s.txns[v].insert.Some?
                && (JobKey(s.txns[v].job) == key || s.txns[v].id == id)
  }

  predicate PlaceHeld(s: System, w: nat, id: nat, folder: nat) {
    exists v :: v in s.txns && v != w && s.txns[v].Written? && s.txns[v].id == id && s.txns[v].job.folder == folder
  }

  predicate FolderHeld(s: System, folder: nat) {
    exists v :: v in s.txns && s.txns[v].Written? && !s.txns[v].added && s.txns[v].job.folder == folder
  }

  function WithoutFolder(db: Db, folder: nat): Db {
    db.(locations := map p | p in db.locations && p.1 != folder :: db.locations[p])
  }

  /** A location found and not yet written is gone when its folder's locations are dropped. */
  function AfterDelete(txn: Txn, folder: nat): Txn {
    if txn.Placing? && txn.found.Present? && txn.job.folder == folder then txn.(found := Dropped) else txn
  }

  function EachAfterDelete(txns: map<nat, Txn>, folder: nat): map<nat, Txn> {
    map w | w in txns :: AfterDelete(txns[w], folder)
  }

  ghost function AfterCreate(s: System, w: nat, txn: Txn, id: nat): Txn
    requires txn.Absent?
  {
    if RowHeld(s, w, JobKey(txn.job), id) then txn
    else if JobKey(txn.job) in Keys(s.db) || id in s.db.messages then Lost(txn.job, txn.parsed)
    else Known(txn.job, id, Some(txn.parsed))
  }

  /** The write fails when a racing insert got there first, or when the row to update was deleted. */
  ghost function AfterWrite(s: System, w: nat, txn: Txn): Txn
    requires txn.Placing?
  {
    if PlaceHeld(s, w, txn.id, txn.job.folder) then txn
    else if txn.found.Dropped? || (txn.found.Missing? && (txn.id, txn.job.folder) in s.db.locations) then Failed(txn.job)
    else Written(txn.job, txn.id, txn.insert, txn.found.Missing?)
  }

  ghost function AfterFetch(parse: Parser, s: System, job: ParseJob): Txn {
    if job !in s.jobs || job in s.dead then Idle
    else if JobKey(job) !in s.raw || parse(job.hash).None? then Failed(job)
    else Storing(job, parse(job.hash).value, 0)
  }

  /** The row already committed for the job, if there is one. */
  ghost function Existing(db: Db, job: ParseJob, otherwise: Txn): Txn {
    if JobKey(job) in Keys(db) then Known(job, IdOf(db, JobKey(job)), None) else otherwise
  }

  function AfterFind(db: Db, job: ParseJob, id: nat): Seen {
    if (id, job.folder) in db.locations then Present else Missing
  }

  /** Where a worker's transaction goes, for the steps that touch nothing else. */
  ghost function Next(parse: Parser, s: System, act: Act, w: nat, txn: Txn): Txn {
    match (act, txn)
    case (Fetch(_, job), Idle) => AfterFetch(parse, s, job)
    case (Begin(_), Storing(job, parsed, k)) => if k == |parsed.files| then Started(job, parsed) else txn
    case (Look(_), Started(job, parsed)) => Existing(s.db, job, Absent(job, parsed))
    case (Create(_, id), Absent(_, _)) => AfterCreate(s, w, txn, id)
    case (Refetch(_), Lost(job, _)) => Existing(s.db, job, Failed(job))
    case (Find(_), Known(job, id, insert)) => Placing(job, id, insert, AfterFind(s.db, job, id))
    case (Write(_), Placing(_, _, _, _)) => AfterWrite(s, w, txn)
    case (Abort(_), _) => Idle
    case _ => txn
  }

  function StoreFileStep(s: System, w: nat, txn: Txn): System
    requires txn.Storing? && txn.stored < |txn.parsed.files|
  {
    Set(s, w, Storing(txn.job, txn.parsed, txn.stored + 1)).(
      files := s.files + {(txn.job.account, txn.parsed.files[txn.stored].bytes)})
  }

  function CommitStep(s: System, w: nat, txn: Txn): System
    requires txn.Written?
  {
    Set(s, w, Idle).(db := Committed(s.db, txn.job, txn.id, txn.insert),
                     done := s.done + {txn.job},
                     placed := s.placed + {(JobKey(txn.job), txn.job.folder)})
  }

  function BuryStep(s: System, w: nat, txn: Txn): System
    requires txn.Failed?
  {
    Set(s, w, Idle).(dead := s.dead + {txn.job})
  }

  ghost function WorkerStep(parse: Parser, s: System, act: Act, w: nat): System {
    if w !in s.txns then s
    else if act.StoreFile? then
      if s.txns[w].Storing? && s.txns[w].stored < |s.txns[w].parsed.files| then StoreFileStep(s, w, s.txns[w]) else s
    else if act.Commit? then
      if s.txns[w].Written? then CommitStep(s, w, s.txns[w]) else s
    else if act.Bury? then
      if s.txns[w].Failed? then BuryStep(s, w, s.txns[w]) else s
    else Set(s, w, Next(parse, s, act, w, s.txns[w]))
  }

  /** The upload's queue row is a new one. */
  predicate NewRow(s: System, job: ParseJob) { forall j :: j in s.jobs ==> j.row != job.row }

  ghost function Step(parse: Parser, s: System, act: Act): System {
    match act
    case Put(u, job) =>
      if u in s.uploads then s
      else s.(raw := s.raw + {JobKey(job)}, uploads := s.uploads[u := job])
    case Enqueue(u) =>
      if u in s.uploads && NewRow(s, s.uploads[u]) then s.(jobs := s.jobs + {s.uploads[u]}, uploads := s.uploads - {u}) else s
    case DeleteFolder(folder) =>
      if FolderHeld(s, folder) then s
      else s.(db := WithoutFolder(s.db, folder), txns := EachAfterDelete(s.txns, folder),
              placed := set p | p in s.placed && p.1 != folder)
    case _ => WorkerStep(parse, s, act, act.w)
  }

  ghost function Run(parse: Parser, s: System, acts: seq<Act>): System
    decreases |acts|
  {
    if acts == [] then s else Run(parse, Step(parse, s, acts[0]), acts[1..])
  }

  predicate Start(s: System) {
    && s == System({}, {}, map[], {}, {}, EMPTY, s.txns, {}, {})
    && forall w :: w in s.txns ==> s.txns[w] == Idle
  }

  /** The first `n` files of the job's message are in attachment storage. */
  ghost predicate Stored(s: System, job: ParseJob, files: seq<File>, n: nat)
    requires n <= |files|
  {
    forall i :: 0 <= i < n ==> (job.account, files[i].bytes) in s.files
  }

  ghost predicate RowOk(parse: Parser, db: Db, txn: Txn)
    requires InTransaction(txn)
  {
    if txn.insert.Some? then
      && txn.insert == parse(txn.job.hash) && txn.id !in db.messages && JobKey(txn.job) !in Keys(db)
      && (txn.Placing? ==> txn.found.Missing?)
    else
      txn.id in db.messages && KeyOf(db.messages[txn.id]) == JobKey(txn.job)
  }

  ghost predicate TxnOk(parse: Parser, s: System, txn: Txn) {
    txn.Idle? || txn.Failed?
    || (&& txn.job in s.jobs && parse(txn.job.hash).Some?
        && (txn.Storing? ==>
              && txn.stored <= |parse(txn.job.hash).value.files|
              && Stored(s, txn.job, parse(txn.job.hash).value.files, txn.stored))
        && (!txn.Storing? ==> Stored(s, txn.job, parse(txn.job.hash).value.files, |parse(txn.job.hash).value.files|))
        && (!InTransaction(txn) ==> parse(txn.job.hash) == Some(txn.parsed))
        && (InTransaction(txn) ==> RowOk(parse, s.db, txn)))
  }

  /** No two transactions hold uncommitted rows that the unique indexes would refuse together. */
  ghost predicate Apart(a: Txn, b: Txn) {
    InTransaction(a) && InTransaction(b) && a.insert.Some? && b.insert.Some? ==> JobKey(a.job) != JobKey(b.job) && a.id != b.id
  }

  ghost predicate TxnsOk(parse: Parser, s: System) {
    && (forall w :: w in s.txns ==> TxnOk(parse, s, s.txns[w]))
    && (forall v, w :: v in s.txns && w in s.txns && v != w ==> Apart(s.txns[v], s.txns[w]))
  }

  /** Bytes are stored before anything that refers to them. */
  ghost predicate BlobsFirst(s: System) {
    && (forall u :: u in s.uploads ==> JobKey(s.uploads[u]) in s.raw)
    && (forall job :: job in s.jobs ==> JobKey(job) in s.raw)
    && (forall id :: id in s.db.messages ==> KeyOf(s.db.messages[id]) in s.raw)
    && (forall id, i :: id in s.db.attachments && 0 <= i < |s.db.attachments[id]| ==>
          (s.db.attachments[id][i].account, s.db.attachments[id][i].hash) in s.files)
  }

  ghost predicate HistoryOk(parse: Parser, s: System) {
    && s.done <= s.jobs
    && (forall job :: job in s.done ==> parse(job.hash).Some?)
    && Keys(s.db) == JobKeys(s.done)
    && ViewOf(s.db).places == s.placed
  }

  ghost predicate Inv(parse: Parser, s: System) {
    ValidDb(parse, s.db) && TxnsOk(parse, s) && BlobsFirst(s) && HistoryOk(parse, s)
  }

  /** A transaction that is in order stays so while storage and jobs only grow and the tables stay put. */
  lemma TxnStaysOk(parse: Parser, s: System, s': System, txn: Txn)
    requires TxnOk(parse, s, txn)
    requires s.jobs <= s'.jobs && s.files <= s'.files && s.db == s'.db
    ensures TxnOk(parse, s', txn)
  {}

  /** Changing one transaction keeps the invariant when that transaction is in order. */
  lemma SetKeepsInv(parse: Parser, s: System, w: nat, txn: Txn)
    requires Inv(parse, s) && w in s.txns
    requires TxnOk(parse, s, txn)
    requires forall v :: v in s.txns && v != w ==> Apart(s.txns[v], txn) && Apart(txn, s.txns[v])
    ensures Inv(parse, Set(s, w, txn))
  {}

  lemma MoreFilesKeepInv(parse: Parser, s: System, key: Key)
    requires Inv(parse, s)
    ensures Inv(parse, s.(files := s.files + {key}))
  {}

  lemma StoreFileKeepsInv(parse: Parser, s: System, w: nat)
    requires Inv(parse, s) && w in s.txns && s.txns[w].Storing? && s.txns[w].stored < |s.txns[w].parsed.files|
    ensures Inv(parse, StoreFileStep(s, w, s.txns[w]))
  {
    var txn := s.txns[w];
    var s1 := s.(files := s.files + {(txn.job.account, txn.parsed.files[txn.stored].bytes)});
    var next := Storing(txn.job, txn.parsed, txn.stored + 1);
    assert TxnOk(parse, s1, next) by { assert TxnOk(parse, s, txn); hide ValidDb, HistoryOk, BlobsFirst; }
    MoreFilesKeepInv(parse, s, (txn.job.account, txn.parsed.files[txn.stored].bytes));
    hide Inv, TxnOk;
    SetKeepsInv(parse, s1, w, next);
  }

  lemma PlacesGrow(db: Db, db': Db, id: nat, folder: nat)
    requires forall i :: i in db.messages ==> i in db'.messages && db'.messages[i] == db.messages[i]
    requires forall p :: p in db.locations ==> p.0 in db.messages
    requires forall p :: p in db'.locations <==> p in db.locations || p == (id, folder)
    requires id in db'.messages
    ensures ViewOf(db').places == ViewOf(db).places + {(KeyOf(db'.messages[id]), folder)}
  {
    hide KeyOf, EntryAt;
    forall q | q in ViewOf(db).places + {(KeyOf(db'.messages[id]), folder)} ensures q in ViewOf(db').places {
      if q in ViewOf(db).places {
        var p :| p in db.locations && p.0 in db.messages && q == (KeyOf(db.messages[p.0]), p.1);
        assert p in db'.locations;
      } else {
        assert (id, folder) in db'.locations;
      }
    }
  }

  lemma CommittedMessages(db: Db, job: ParseJob, id: nat, insert: Option<Parsed>)
    ensures Committed(db, job, id, insert).messages
            == if insert.Some? then db.messages[id := MessageRow(job, insert.value)] else db.messages
  {}

  lemma PlacesAfterCommit(parse: Parser, db: Db, job: ParseJob, id: nat, insert: Option<Parsed>)
    requires ValidDb(parse, db)
    requires insert.Some? ==> id !in db.messages
    requires insert.None? ==> id in db.messages && KeyOf(db.messages[id]) == JobKey(job)
    ensures ViewOf(Committed(db, job, id, insert)).places == ViewOf(db).places + {(JobKey(job), job.folder)}
  {
    var db' := Committed(db, job, id, insert);
    CommittedMessages(db, job, id, insert);
    assert forall p :: p in db.locations ==> p.0 in db.messages;
    assert forall p :: p in db'.locations <==> p in db.locations || p == (id, job.folder);
    assert KeyOf(db'.messages[id]) == JobKey(job);
    assert forall i :: i in db.messages ==> i in db'.messages && db'.messages[i] == db.messages[i];
    hide Committed, ValidDb, MessageRow, EntryAt, JobKey, KeyOf;
    PlacesGrow(db, db', id, job.folder);
  }

  lemma RowsAfterCommit(parse: Parser, db: Db, t: Txn, other: Txn)
    requires t.Written? && RowOk(parse, db, t) && ValidDb(parse, db)
    requires InTransaction(other) && RowOk(parse, db, other) && Apart(t, other)
    ensures RowOk(parse, Committed(db, t.job, t.id, t.insert), other)
  {}

  lemma BlobsAfterCommit(parse: Parser, s: System, w: nat)
    requires Inv(parse, s) && w in s.txns && s.txns[w].Written?
    ensures BlobsFirst(CommitStep(s, w, s.txns[w]))
  {
    var t := s.txns[w];
    hide ValidDb, HistoryOk, Keys, RowHeld, PlaceHeld, Apart;
    assert TxnOk(parse, s, t) && RowOk(parse, s.db, t);
  }

  lemma TxnsAfterCommit(parse: Parser, s: System, w: nat)
    requires Inv(parse, s) && w in s.txns && s.txns[w].Written?
    ensures TxnsOk(parse, CommitStep(s, w, s.txns[w]))
  {
    var t := s.txns[w];
    var s' := CommitStep(s, w, t);
    assert TxnOk(parse, s, t);
    hide BlobsFirst, HistoryOk, Committed, ValidDb, RowOk, Stored;
    forall v | v in s'.txns ensures TxnOk(parse, s', s'.txns[v]) {
      if v != w {
        assert TxnOk(parse, s, s.txns[v]) && Apart(t, s.txns[v]);
        if InTransaction(s.txns[v]) { RowsAfterCommit(parse, s.db, t, s.txns[v]); }
      }
    }
  }

  lemma ValidAfterCommit(parse: Parser, s: System, w: nat)
    requires Inv(parse, s) && w in s.txns && s.txns[w].Written?
    ensures var t, db' := s.txns[w], CommitStep(s, w, s.txns[w]).db;
            && ValidDb(parse, db') && Keys(db') == Keys(s.db) + {JobKey(t.job)}
            && ViewOf(db').places == ViewOf(s.db).places + {(JobKey(t.job), t.job.folder)}
            && parse(t.job.hash).Some? && t.job in s.jobs
  {
    var t := s.txns[w];
    hide BlobsFirst, ViewOf, Committed, ValidDb, Keys, HistoryOk, Apart;
    assert TxnOk(parse, s, t);
    CommitKeepsValid(parse, s.db, t.job, t.id, t.insert);
    PlacesAfterCommit(parse, s.db, t.job, t.id, t.insert);
  }

  lemma HistoryAfterCommit(parse: Parser, s: System, w: nat)
    requires Inv(parse, s) && w in s.txns && s.txns[w].Written?
    ensures ValidDb(parse, CommitStep(s, w, s.txns[w]).db)
    ensures HistoryOk(parse, CommitStep(s, w, s.txns[w]))
  {
    hide BlobsFirst, TxnsOk, ViewOf, Committed, ValidDb, Keys, JobKeys;
    ValidAfterCommit(parse, s, w);
    OneMoreJobKey(s.done, s.txns[w].job);
    var s' := CommitStep(s, w, s.txns[w]);
    assert Keys(s'.db) == JobKeys(s'.done);
    assert ViewOf(s'.db).places == s'.placed;
  }

  lemma CommitKeepsInv(parse: Parser, s: System, w: nat)
    requires Inv(parse, s) && w in s.txns && s.txns[w].Written?
    ensures Inv(parse, CommitStep(s, w, s.txns[w]))
  {
    hide BlobsFirst, TxnsOk, HistoryOk, ValidDb, CommitStep;
    HistoryAfterCommit(parse, s, w);
    BlobsAfterCommit(parse, s, w);
    TxnsAfterCommit(parse, s, w);
  }

  lemma PlacesShrink(db: Db, folder: nat)
    ensures ViewOf(WithoutFolder(db, folder)).places == set p | p in ViewOf(db).places && p.1 != folder
  {}

  lemma DbAfterDelete(parse: Parser, db: Db, folder: nat)
    requires ValidDb(parse, db)
    ensures var db' := WithoutFolder(db, folder);
            && ValidDb(parse, db') && Keys(db') == Keys(db)
            && ViewOf(db').places == set p | p in ViewOf(db).places && p.1 != folder
  {
    var db' := WithoutFolder(db, folder);
    assert forall i :: i in db.messages ==> EntryAt(db', i) == EntryAt(db, i);
    hide IdealEntry, EntryAt;
    PlacesShrink(db, folder);
  }

  lemma TxnAfterDelete(parse: Parser, s: System, s': System, txn: Txn, folder: nat)
    requires TxnOk(parse, s, txn) && s'.jobs == s.jobs && s'.files == s.files
    requires s'.db.messages == s.db.messages && Keys(s'.db) == Keys(s.db)
    ensures TxnOk(parse, s', AfterDelete(txn, folder))
  {}

  lemma TxnsAfterDelete(parse: Parser, s: System, s': System, folder: nat)
    requires TxnsOk(parse, s) && s'.txns == EachAfterDelete(s.txns, folder)
    requires s'.jobs == s.jobs && s'.files == s.files
    requires s'.db.messages == s.db.messages && Keys(s'.db) == Keys(s.db)
    ensures TxnsOk(parse, s')
  {
    hide TxnOk, Keys;
    forall v | v in s.txns ensures TxnOk(parse, s', s'.txns[v]) { TxnAfterDelete(parse, s, s', s.txns[v], folder); }
  }

  lemma DeleteFolderKeepsInv(parse: Parser, s: System, folder: nat)
    requires Inv(parse, s)
    ensures Inv(parse, Step(parse, s, DeleteFolder(folder)))
  {
    hide ValidDb, ViewOf, Keys, TxnsOk, AfterDelete, JobKeys, Faithful;
    if !FolderHeld(s, folder) {
      DbAfterDelete(parse, s.db, folder);
      TxnsAfterDelete(parse, s, Step(parse, s, DeleteFolder(folder)), folder);
    }
  }

  lemma UploadKeepsInv(parse: Parser, s: System, act: Act)
    requires Inv(parse, s) && (act.Put? || act.Enqueue?)
    ensures Inv(parse, Step(parse, s, act))
  {
    hide ValidDb, TxnOk, ViewOf, Apart;
    var s' := Step(parse, s, act);
    forall v | v in s'.txns ensures TxnOk(parse, s', s'.txns[v]) { TxnStaysOk(parse, s, s', s'.txns[v]); }
  }

  lemma BuryKeepsInv(parse: Parser, s: System, w: nat)
    requires Inv(parse, s) && w in s.txns && s.txns[w].Failed?
    ensures Inv(parse, BuryStep(s, w, s.txns[w]))
  {
    SetKeepsInv(parse, s, w, Idle);
    hide ValidDb, ViewOf, RowOk;
  }

  lemma NextIsOk(parse: Parser, s: System, act: Act, w: nat)
    requires w in s.txns && TxnOk(parse, s, s.txns[w])
    requires forall p :: p in s.db.locations ==> p.0 in s.db.messages
    ensures TxnOk(parse, s, Next(parse, s, act, w, s.txns[w]))
  {}

  lemma NextStaysApart(parse: Parser, s: System, act: Act, w: nat, v: nat)
    requires w in s.txns && v in s.txns && v != w
    requires Apart(s.txns[v], s.txns[w]) && Apart(s.txns[w], s.txns[v])
    ensures Apart(s.txns[v], Next(parse, s, act, w, s.txns[w])) && Apart(Next(parse, s, act, w, s.txns[w]), s.txns[v])
  {}

  lemma WorkerStepKeepsInv(parse: Parser, s: System, act: Act)
    requires Inv(parse, s) && !act.Put? && !act.Enqueue? && !act.DeleteFolder?
    ensures Inv(parse, WorkerStep(parse, s, act, act.w))
  {
    var w := act.w;
    if w in s.txns {
      if act.Commit? {
        if s.txns[w].Written? { CommitKeepsInv(parse, s, w); }
      } else if act.StoreFile? {
        if s.txns[w].Storing? && s.txns[w].stored < |s.txns[w].parsed.files| { StoreFileKeepsInv(parse, s, w); }
      } else if act.Bury? {
        if s.txns[w].Failed? { BuryKeepsInv(parse, s, w); }
      } else {
        assert forall p :: p in s.db.locations ==> p.0 in s.db.messages;
        hide ValidDb, HistoryOk, BlobsFirst, Next, TxnOk, Apart;
        NextIsOk(parse, s, act, w);
        forall v | v in s.txns && v != w
          ensures Apart(s.txns[v], Next(parse, s, act, w, s.txns[w])) && Apart(Next(parse, s, act, w, s.txns[w]), s.txns[v])
        {
          NextStaysApart(parse, s, act, w, v);
        }
        SetKeepsInv(parse, s, w, Next(parse, s, act, w, s.txns[w]));
      }
    }
  }

  lemma StepKeepsInv(parse: Parser, s: System, act: Act)
    requires Inv(parse, s)
    ensures Inv(parse, Step(parse, s, act))
  {
    if act.Put? || act.Enqueue? { UploadKeepsInv(parse, s, act); }
    else if act.DeleteFolder? { DeleteFolderKeepsInv(parse, s, act.folder); }
    else { WorkerStepKeepsInv(parse, s, act); }
  }

  lemma {:induction false} RunKeepsInv(parse: Parser, s: System, acts: seq<Act>)
    requires Inv(parse, s)
    ensures Inv(parse, Run(parse, s, acts))
    decreases |acts|
  {
    if acts != [] {
      StepKeepsInv(parse, s, acts[0]);
      RunKeepsInv(parse, Step(parse, s, acts[0]), acts[1..]);
    }
  }

  lemma StartIsOk(parse: Parser, s: System)
    requires Start(s)
    ensures Inv(parse, s)
  {}

  ghost predicate NoDeletes(acts: seq<Act>) { forall i :: 0 <= i < |acts| ==> !acts[i].DeleteFolder? }

  /** While no folder is dropped, the committed places are those of the jobs done. */
  ghost predicate PlacesAreDone(s: System) {
    s.placed == set job | job in s.done :: (JobKey(job), job.folder)
  }

  lemma {:induction false} RunKeepsPlaces(parse: Parser, s: System, acts: seq<Act>)
    requires PlacesAreDone(s) && NoDeletes(acts)
    ensures PlacesAreDone(Run(parse, s, acts))
    decreases |acts|
  {
    if acts != [] {
      var s1 := Step(parse, s, acts[0]);
      assert PlacesAreDone(s1) by { hide Run, Committed, Next; }
      RunKeepsPlaces(parse, s1, acts[1..]);
    }
  }

  /**
   In every run, with any interleaving, crashes, races, rollbacks and replays, the message
   rows with their attachments are exactly those of the jobs that committed at least once;
   so are the (message, folder) pairs, until a folder's locations are dropped.
   */
  lemma ArchiveIsItsJobs(parse: Parser, s: System, acts: seq<Act>)
    requires Start(s)
    ensures var q := Run(parse, s, acts);
            && ValidDb(parse, q.db)
            && (forall job :: job in q.done ==> parse(job.hash).Some?)
            && ViewOf(q.db).messages == Ideal(parse, q.done).messages
            && (NoDeletes(acts) ==> ViewOf(q.db) == Ideal(parse, q.done))
  {
    StartIsOk(parse, s);
    RunKeepsInv(parse, s, acts);
    var q := Run(parse, s, acts);
    hide Run;
    ValidViewIsIdeal(parse, q.db, q.done);
    if NoDeletes(acts) { RunKeepsPlaces(parse, s, acts); }
  }

  /** At least once is exactly once in effect: order, number and interleaving of executions do not show. */
  lemma ExactlyOnceInEffect(parse: Parser, s: System, acts: seq<Act>, s': System, acts': seq<Act>)
    requires Start(s) && Start(s') && Run(parse, s, acts).done == Run(parse, s', acts').done
    ensures var db, db' := Run(parse, s, acts).db, Run(parse, s', acts').db;
            && ViewOf(db).messages == ViewOf(db').messages
            && (NoDeletes(acts) && NoDeletes(acts') ==> ViewOf(db) == ViewOf(db'))
  {
    ArchiveIsItsJobs(parse, s, acts);
    ArchiveIsItsJobs(parse, s', acts');
    hide Run, ViewOf, Ideal;
  }

  /** A worker never meets a job whose bytes are missing, and no row refers to bytes that are not stored. */
  lemma BytesComeFirst(parse: Parser, s: System, acts: seq<Act>)
    requires Start(s)
    ensures BlobsFirst(Run(parse, s, acts))
  {
    StartIsOk(parse, s);
    RunKeepsInv(parse, s, acts);
  }

  ghost predicate Alone(s: System, w: nat) {
    w in s.txns && forall v :: v in s.txns && v != w ==> !InTransaction(s.txns[v])
  }

  lemma LookAlone(parse: Parser, s: System, w: nat, job: ParseJob, parsed: Parsed, id: nat)
    requires Alone(s, w) && id !in s.db.messages
    ensures Step(parse, Step(parse, Set(s, w, Started(job, parsed)), Look(w)), Create(w, id))
            == Set(s, w, if JobKey(job) in Keys(s.db) then Known(job, IdOf(s.db, JobKey(job)), None) else Known(job, id, Some(parsed)))
  {
    hide Keys, JobKey;
    var s1 := Step(parse, Set(s, w, Started(job, parsed)), Look(w));
    assert s1 == Set(s, w, Existing(s.db, job, Absent(job, parsed)));
    assert !RowHeld(s1, w, JobKey(job), id);
  }

  lemma PlaceAlone(parse: Parser, s: System, w: nat, job: ParseJob, row: nat, insert: Option<Parsed>)
    requires Alone(s, w)
    ensures Step(parse, Step(parse, Step(parse, Set(s, w, Known(job, row, insert)), Find(w)), Write(w)), Commit(w))
            == Set(s, w, Idle).(db := Committed(s.db, job, row, insert), done := s.done + {job},
                                placed := s.placed + {(JobKey(job), job.folder)})
  {
    hide Keys, Committed, JobKey;
    var found := AfterFind(s.db, job, row);
    var s1 := Step(parse, Set(s, w, Known(job, row, insert)), Find(w));
    assert s1 == Set(s, w, Placing(job, row, insert, found));
    assert !PlaceHeld(s1, w, row, job.folder);
    var s2 := Step(parse, s1, Write(w));
    assert s2 == Set(s, w, Written(job, row, insert, found.Missing?));
    assert Set(s2, w, Idle) == Set(s, w, Idle);
  }

  lemma RunOfFive(parse: Parser, s: System, a: Act, b: Act, c: Act, d: Act, e: Act)
    ensures Run(parse, s, [a, b, c, d, e]) == Step(parse, Step(parse, Step(parse, Step(parse, Step(parse, s, a), b), c), d), e)
  {
    hide Step;
    assert [a, b, c, d, e][1..] == [b, c, d, e];
    assert [b, c, d, e][1..] == [c, d, e];
    assert [c, d, e][1..] == [d, e];
    assert [d, e][1..] == [e];
    var s2 := Step(parse, Step(parse, s, a), b);
    assert Run(parse, s, [a, b, c, d, e]) == Run(parse, s2, [c, d, e]);
    assert Run(parse, s2, [c, d, e]) == Run(parse, Step(parse, Step(parse, s2, c), d), [e]);
  }

  /** A transaction that runs alone ends with its job done, exactly its rows committed and nothing else changed. */
  lemma LoneTransactionCommits(parse: Parser, s: System, w: nat, id: nat)
    requires Alone(s, w) && s.txns[w].Started? && id !in s.db.messages
    ensures Run(parse, s, [Look(w), Create(w, id), Find(w), Write(w), Commit(w)])
            == var job, parsed := s.txns[w].job, s.txns[w].parsed;
               Set(s, w, Idle).(
                 db := if JobKey(job) in Keys(s.db) then Committed(s.db, job, IdOf(s.db, JobKey(job)), None)
                       else Committed(s.db, job, id, Some(parsed)),
                 done := s.done + {job},
                 placed := s.placed + {(JobKey(job), job.folder)})
  {
    var job, parsed, known := s.txns[w].job, s.txns[w].parsed, JobKey(s.txns[w].job) in Keys(s.db);
    var row := if known then IdOf(s.db, JobKey(job)) else id;
    var insert := if known then None else Some(parsed);
    RunOfFive(parse, s, Look(w), Create(w, id), Find(w), Write(w), Commit(w));
    assert s == Set(s, w, Started(job, parsed));
    hide Run, Step, Keys, JobKey, Committed;
    LookAlone(parse, s, w, job, parsed, id);
    PlaceAlone(parse, s, w, job, row, insert);
  }

  /** In every run, the flag and the count of a message agree with its attachment rows. */
  lemma AttachmentsAreCounted(parse: Parser, s: System, acts: seq<Act>, id: nat)
    requires Start(s) && id in Run(parse, s, acts).db.messages
    ensures var db := Run(parse, s, acts).db;
            var m, n := db.messages[id], |Attached(db, id)|;
            && (m.hasAttachments <==> n > 0)
            && (m.hasAttachments <==> m.attachmentCount > 0)
            && m.attachmentCount == (if n <= 0x7fff_ffff then n else 0x7fff_ffff)
            && parse(m.hash).Some? && n == |parse(m.hash).value.files|
  {
    StartIsOk(parse, s);
    RunKeepsInv(parse, s, acts);
    hide Run;
    ValidRowsAreCounted(parse, Run(parse, s, acts).db, id);
  }

  /** In every run, message and attachment rows say what the message's own bytes say, field by field. */
  lemma RowsSayWhatTheBytesSay(parse: Parser, s: System, acts: seq<Act>, id: nat)
    requires Start(s) && id in Run(parse, s, acts).db.messages
    ensures var db := Run(parse, s, acts).db;
            var m, rows := db.messages[id], Attached(db, id);
            && (m.account, m.hash) in Run(parse, s, acts).raw
            && parse(m.hash).Some? && m.envelope == parse(m.hash).value.envelope
            && var files := parse(m.hash).value.files;
               && |rows| == |files|
               && forall i :: 0 <= i < |files| ==>
                    && rows[i].account == m.account && rows[i].hash == files[i].bytes && rows[i].size == |files[i].bytes|
                    && rows[i].name == files[i].name && rows[i].contentType == files[i].contentType
                    && rows[i].isInline == files[i].isInline
                    && (m.account, files[i].bytes) in Run(parse, s, acts).files
  {
    StartIsOk(parse, s);
    RunKeepsInv(parse, s, acts);
    hide Run;
    var q := Run(parse, s, acts);
    ValidRowsSayWhatTheBytesSay(parse, q.db, id);
    assert forall i :: 0 <= i < |Attached(q.db, id)| ==> (Attached(q.db, id)[i].account, Attached(q.db, id)[i].hash) in q.files;
  }
}
