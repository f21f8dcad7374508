/**
 The indexer as a state machine: one process at a time that reconciles, then drains batch
 by batch, interleaved with new mail, account deletion (rows, then bytes, then documents)
 and loss of stored bytes. Any step may fail, and the process may crash between any two.
 */
module IndexRuns {
  import opened Wrappers
  import opened SearchIndex

  datatype Phase =
    | Down
    | Starting
    | Emptied                        // reconcile has cleared the index
    | Requeued                       // and reset the watermarks
    | Ready
    | Fetching(batch: seq<(nat, Row)>, docs: seq<Doc>, k: nat)
    | Written(batch: seq<(nat, Row)>)  // committed, not yet marked

  datatype World = World(
    committed: Index,
    staged: Index,                   // what the next commit leaves
    sidecar: Option<nat>,
    rows: Rows,
    blobs: set<(nat, Blob)>,
    phase: Phase,
    used: set<nat>,                  // history: every message id ever given out
    gone: set<nat>,                  // history: deleted accounts
    poison: set<nat>                 // history: ids whose bytes were found missing or unparseable
  )

  datatype Act =
    | Arrive(id: nat, account: nat, hash: Blob)
    | DropRows(account: nat)
    | DropBlobs(account: nat)
    | DropDocs(account: nat, commits: bool)
    | LoseBlob(key: (nat, Blob))
    | Wipe(sidecarToo: bool)         // open_or_create discards an index of another schema; a crash may spare the sidecar
    | Boot
    | Crash
    | Clear(commits: bool)
    | ResetRows(succeeds: bool)
    | WriteVersion(succeeds: bool)   // a failed write leaves no readable version
    | List
    | FetchOne(fails: bool)
    | Write(calls: nat)              // how many writer calls succeed, the commit last
    | MarkBatch(succeeds: bool)

  function Ids(batch: seq<(nat, Row)>): set<nat> { set i | 0 <= i < |batch| :: batch[i].0 }

  ghost function BatchOf(rows: Rows): (b: seq<(nat, Row)>)
    ensures |b| == |BatchIds(rows)|
    ensures forall i :: 0 <= i < |b| ==> b[i].0 == BatchIds(rows)[i] && b[i].0 in rows && rows[b[i].0] == b[i].1 && !b[i].1.indexed
  {
    var ids := BatchIds(rows);
    assert forall i :: 0 <= i < |ids| ==> ids[i] in Unindexed(rows);
    seq(|ids|, i requires 0 <= i < |ids| => (ids[i], rows[ids[i]]))
  }

  function FetchStep(extract: Extractor, s: World, fails: bool): World
    requires s.phase.Fetching? && s.phase.k < |s.phase.batch|
  {
    var (id, row) := s.phase.batch[s.phase.k];
    if fails then s.(phase := Ready)
    else if Usable(extract, s.blobs, row) then
      s.(phase := s.phase.(docs := s.phase.docs + [DocOf(extract, id, row)], k := s.phase.k + 1))
    else
      s.(phase := s.phase.(k := s.phase.k + 1), poison := s.poison + {id})
  }

  function WriteStep(s: World, calls: nat): World
    requires s.phase.Fetching?
  {
    var staged := Stage(s.staged, s.phase.docs, calls);
    if calls > 2 * |s.phase.docs| then s.(staged := staged, committed := staged, phase := Written(s.phase.batch))
    else s.(staged := staged, phase := Ready)
  }

  ghost function DrainStep(extract: Extractor, s: World, act: Act): World {
    match (act, s.phase)
    case (List, Ready) => if Unindexed(s.rows) == {} then s else s.(phase := Fetching(BatchOf(s.rows), [], 0))
    case (FetchOne(fails), Fetching(batch, _, k)) => if k < |batch| then FetchStep(extract, s, fails) else s
    case (Write(calls), Fetching(batch, _, k)) => if k == |batch| then WriteStep(s, calls) else s
    case (MarkBatch(succeeds), Written(batch)) =>
      s.(rows := if succeeds then Mark(s.rows, Ids(batch)) else s.rows, phase := Ready)
    case _ => s
  }

  function ReconcileStep(s: World, act: Act): World {
    match (act, s.phase)
    case (Clear(commits), Starting) =>
      if !NeedsRebuild(s.sidecar) then s.(phase := Ready)
      else if commits then s.(staged := DeleteAll(s.staged), committed := DeleteAll(s.staged), phase := Emptied)
      else s.(staged := DeleteAll(s.staged), phase := Ready)
    case (ResetRows(succeeds), Emptied) =>
      if succeeds then s.(rows := Reset(s.rows), phase := Requeued) else s.(phase := Ready)
    case (WriteVersion(succeeds), Requeued) =>
      s.(sidecar := if succeeds then Some(SCHEMA_VERSION) else None, phase := Ready)
    case _ => s
  }

  ghost function Step(extract: Extractor, s: World, act: Act): World {
    match act
    case Arrive(id, account, hash) =>
      if id in s.used || account in s.gone then s
      else s.(rows := s.rows[id := Row(account, hash, false)], blobs := s.blobs + {(account, hash)}, used := s.used + {id})
    case DropRows(account) =>
      s.(rows := map id | id in s.rows && s.rows[id].account != account :: s.rows[id], gone := s.gone + {account})
    case DropBlobs(account) =>
      if account in s.gone then s.(blobs := set b | b in s.blobs && b.0 != account) else s
    case DropDocs(account, commits) =>
      if account in s.gone && s.phase != Down then
        var staged := DeleteAccount(s.staged, account);
        s.(staged := staged, committed := if commits then staged else s.committed)
      else s
    case LoseBlob(key) => s.(blobs := s.blobs - {key})
    case Wipe(sidecarToo) =>
      if s.phase == Down then
        s.(committed := EMPTY, staged := EMPTY, sidecar := if sidecarToo then None else s.sidecar)
      else s
    case Boot => if s.phase == Down then s.(phase := Starting) else s
    case Crash => s.(phase := Down, staged := s.committed)
    case _ => if s.phase.Fetching? || s.phase.Written? || s.phase == Ready then DrainStep(extract, s, act) else ReconcileStep(s, act)
  }

  ghost function Run(extract: Extractor, s: World, acts: seq<Act>): World
    decreases |acts|
  {
    if acts == [] then s else Run(extract, Step(extract, s, acts[0]), acts[1..])
  }

  /** A wipe that spares the sidecar finds it stale: whatever changed the schema changed the version too. */
  predicate BumpedNow(s: World, act: Act) {
    act.Wipe? && !act.sidecarToo && s.phase == Down ==> NeedsRebuild(s.sidecar)
  }

  ghost predicate Bumped(extract: Extractor, s: World, acts: seq<Act>)
    decreases |acts|
  {
    acts == [] || (BumpedNow(s, acts[0]) && Bumped(extract, Step(extract, s, acts[0]), acts[1..]))
  }

  predicate Start(s: World) {
    s.committed == EMPTY && s.staged == EMPTY && s.rows == map[] && s.phase == Down
    && s.used == {} && s.gone == {} && s.poison == {}
  }

  ghost predicate RowsOk(s: World) {
    && s.rows.Keys <= s.used
    && (forall id :: id in s.rows ==> s.rows[id].account !in s.gone)
  }

  ghost predicate IndexOk(s: World) {
    && Sound(s.committed) && Sound(s.staged)
    && (s.phase == Down ==> s.staged == s.committed)
    && (s.phase == Emptied || s.phase == Requeued ==> NeedsRebuild(s.sidecar))
    && (s.phase == Requeued ==> Unindexed(s.rows) == s.rows.Keys)
  }

  /** A batch still describes its rows as they are: gone, or unchanged and not yet indexed. */
  ghost predicate BatchOk(s: World, batch: seq<(nat, Row)>) {
    && (forall i, j :: 0 <= i < j < |batch| ==> batch[i].0 != batch[j].0)
    && (forall i :: 0 <= i < |batch| ==> batch[i].0 in s.used)
    && (forall i :: 0 <= i < |batch| && batch[i].0 in s.rows ==> s.rows[batch[i].0] == batch[i].1 && !batch[i].1.indexed)
  }

  ghost predicate DocsOk(extract: Extractor, batch: seq<(nat, Row)>, docs: seq<Doc>, k: nat, poison: set<nat>)
    requires k <= |batch|
  {
    && DistinctIds(docs)
    && (forall i :: 0 <= i < |docs| ==> docs[i].id in Ids(batch[..k]))
    && (forall i :: 0 <= i < k && batch[i].0 !in poison ==>
          extract(batch[i].1.hash).Some? && DocOf(extract, batch[i].0, batch[i].1) in docs)
  }

  /** The row's document is in the index and will still be there after the next commit. */
  ghost predicate Served(extract: Extractor, s: World, id: nat, row: Row) {
    extract(row.hash).Some? && Holds(s.committed, DocOf(extract, id, row)) && Holds(s.staged, DocOf(extract, id, row))
  }

  ghost predicate DrainOk(extract: Extractor, s: World) {
    match s.phase
    case Fetching(batch, docs, k) => BatchOk(s, batch) && k <= |batch| && DocsOk(extract, batch, docs, k, s.poison)
    case Written(batch) =>
      BatchOk(s, batch)
      && forall i :: 0 <= i < |batch| && batch[i].0 in s.rows && batch[i].0 !in s.poison ==> Served(extract, s, batch[i].0, batch[i].1)
    case _ => true
  }

  /** While the sidecar is current, every row marked indexed is served unless it was a poison pill. */
  ghost predicate WatermarkOk(extract: Extractor, s: World) {
    !NeedsRebuild(s.sidecar) ==>
      forall id :: id in s.rows && s.rows[id].indexed && id !in s.poison ==> Served(extract, s, id, s.rows[id])
  }

  ghost predicate Inv(extract: Extractor, s: World) {
    RowsOk(s) && IndexOk(s) && DrainOk(extract, s) && WatermarkOk(extract, s)
  }

  lemma ArriveKeepsInv(extract: Extractor, s: World, act: Act)
    requires Inv(extract, s) && (act.Arrive? || act.DropRows? || act.DropBlobs? || act.LoseBlob?)
    ensures Inv(extract, Step(extract, s, act))
  {
    hide Sound, DocsOk, Holds, DocOf;
  }

  lemma DeletionSpares(ix: Index, account: nat, doc: Doc)
    requires Holds(ix, doc) && doc.account != account
    ensures Holds(DeleteAccount(ix, account), doc)
  {
    var a :| a in ix.docs && ix.docs[a] == doc;
    assert DeleteAccount(ix, account).docs[a] == doc;
  }

  lemma DropDocsKeepsInv(extract: Extractor, s: World, act: Act)
    requires Inv(extract, s) && act.DropDocs?
    ensures Inv(extract, Step(extract, s, act))
  {
    var s' := Step(extract, s, act);
    if s' != s {
      assert Sound(s'.staged);
      hide Sound, Holds, DeleteAccount, DocsOk;
      forall id, row | Served(extract, s, id, row) && row.account !in s.gone ensures Served(extract, s', id, row) {
        DeletionSpares(s.committed, act.account, DocOf(extract, id, row));
        DeletionSpares(s.staged, act.account, DocOf(extract, id, row));
      }
    }
  }

  lemma LifeKeepsInv(extract: Extractor, s: World, act: Act)
    requires Inv(extract, s) && BumpedNow(s, act) && (act.Wipe? || act.Boot? || act.Crash?)
    ensures Inv(extract, Step(extract, s, act))
  {}

  lemma ReconcileKeepsInv(extract: Extractor, s: World, act: Act)
    requires Inv(extract, s)
    ensures Inv(extract, ReconcileStep(s, act))
  {}

  lemma ListKeepsInv(extract: Extractor, s: World)
    requires Inv(extract, s)
    ensures Inv(extract, DrainStep(extract, s, List))
  {}

  lemma FetchKeepsInv(extract: Extractor, s: World, fails: bool)
    requires Inv(extract, s) && s.phase.Fetching? && s.phase.k < |s.phase.batch|
    ensures Inv(extract, FetchStep(extract, s, fails))
  {
    var batch, docs, k := s.phase.batch, s.phase.docs, s.phase.k;
    var s' := FetchStep(extract, s, fails);
    assert Ids(batch[..k + 1]) == Ids(batch[..k]) + {batch[k].0};
    hide Sound, Holds;
    if !fails {
      assert forall i :: 0 <= i < |docs| ==> docs[i].id != batch[k].0;
      assert DocsOk(extract, batch, s'.phase.docs, k + 1, s'.poison);
    }
  }

  lemma WriteKeepsInv(extract: Extractor, s: World, calls: nat)
    requires Inv(extract, s) && s.phase.Fetching? && s.phase.k == |s.phase.batch|
    ensures Inv(extract, WriteStep(s, calls))
  {
    var batch, docs := s.phase.batch, s.phase.docs;
    var s' := WriteStep(s, calls);
    assert batch[..|batch|] == batch;
    StageIsSound(s.staged, docs, calls);
    hide Stage, Sound, Holds;
    forall id | id in s.rows && s.rows[id].indexed && Served(extract, s, id, s.rows[id]) ensures Served(extract, s', id, s'.rows[id]) {
      StageFrame(s.staged, docs, calls, DocOf(extract, id, s.rows[id]));
    }
    if s'.phase.Written? {
      forall i | 0 <= i < |batch| && batch[i].0 !in s.poison ensures Served(extract, s', batch[i].0, batch[i].1) {
        var j :| 0 <= j < |docs| && docs[j] == DocOf(extract, batch[i].0, batch[i].1);
        StageHolds(s.staged, docs, calls, j);
      }
    }
  }

  lemma MarkKeepsInv(extract: Extractor, s: World, succeeds: bool)
    requires Inv(extract, s) && s.phase.Written?
    ensures Inv(extract, DrainStep(extract, s, MarkBatch(succeeds)))
  {}

  lemma StepKeepsInv(extract: Extractor, s: World, act: Act)
    requires Inv(extract, s) && BumpedNow(s, act)
    ensures Inv(extract, Step(extract, s, act))
  {
    match act {
      case Arrive(_, _, _) => ArriveKeepsInv(extract, s, act);
      case DropRows(_) => ArriveKeepsInv(extract, s, act);
      case DropBlobs(_) => ArriveKeepsInv(extract, s, act);
      case LoseBlob(_) => ArriveKeepsInv(extract, s, act);
      case DropDocs(_, _) => DropDocsKeepsInv(extract, s, act);
      case Wipe(_) => LifeKeepsInv(extract, s, act);
      case Boot => LifeKeepsInv(extract, s, act);
      case Crash => LifeKeepsInv(extract, s, act);
      case List => ListKeepsInv(extract, s);
      case FetchOne(fails) => if s.phase.Fetching? && s.phase.k < |s.phase.batch| { FetchKeepsInv(extract, s, fails); }
      case Write(calls) => if s.phase.Fetching? && s.phase.k == |s.phase.batch| { WriteKeepsInv(extract, s, calls); }
      case MarkBatch(succeeds) => if s.phase.Written? { MarkKeepsInv(extract, s, succeeds); }
      case _ => ReconcileKeepsInv(extract, s, act);
    }
  }

  lemma {:induction false} RunKeepsInv(extract: Extractor, s: World, acts: seq<Act>)
    requires Inv(extract, s) && Bumped(extract, s, acts)
    ensures Inv(extract, Run(extract, s, acts))
    decreases |acts|
  {
    if acts != [] {
      hide Inv, Step, BumpedNow;
      StepKeepsInv(extract, s, acts[0]);
      RunKeepsInv(extract, Step(extract, s, acts[0]), acts[1..]);
    }
  }

  lemma StartIsOk(extract: Extractor, s: World)
    requires Start(s)
    ensures Inv(extract, s)
  {}

  /** The committed index has one document for the message, built from its row, and no other. */
  ghost predicate ExactlyOne(ix: Index, doc: Doc) {
    Holds(ix, doc) && forall a :: a in ix.docs && ix.docs[a].id == doc.id ==> ix.docs[a] == doc
  }

  /**
   In every run in which schema changes bump the version, whatever fails or crashes and however
   mail and deletions interleave: no message id ever has two documents, and while the sidecar
   is current every row marked indexed has exactly one committed document, its own, unless it
   was a poison pill.
   */
  lemma IndexAgreesWithWatermark(extract: Extractor, s: World, acts: seq<Act>)
    requires Start(s) && Bumped(extract, s, acts)
    ensures var q := Run(extract, s, acts);
            && AtMostOne(q.committed) && AtMostOne(q.staged)
            && forall id :: !NeedsRebuild(q.sidecar) && id in q.rows && q.rows[id].indexed && id !in q.poison ==>
                 var row := q.rows[id];
                 extract(row.hash).Some? && ExactlyOne(q.committed, Doc(id, row.account, row.hash, extract(row.hash).value))
  {
    StartIsOk(extract, s);
    RunKeepsInv(extract, s, acts);
    var q := Run(extract, s, acts);
    hide Run, DrainOk, BatchOk, DocsOk;
    forall id | !NeedsRebuild(q.sidecar) && id in q.rows && q.rows[id].indexed && id !in q.poison
      ensures extract(q.rows[id].hash).Some? && ExactlyOne(q.committed, DocOf(extract, id, q.rows[id]))
    {
      assert Served(extract, q, id, q.rows[id]);
    }
  }

  /** A message's row stays, with its account and content, until its account is deleted; and none comes back after that. */
  lemma RowsGoWithTheirAccount(extract: Extractor, s: World, act: Act, id: nat)
    requires Inv(extract, s) && id in s.used
    ensures var s' := Step(extract, s, act);
            && id in s'.used
            && (id in s'.rows <==> id in s.rows && act != DropRows(s.rows[id].account))
            && (id in s'.rows ==> s'.rows[id].account == s.rows[id].account && s'.rows[id].hash == s.rows[id].hash)
            && (act.DropRows? ==> act.account in s'.gone)
            && s.gone <= s'.gone
  {}

  lemma GoneGrows(extract: Extractor, s: World, act: Act)
    ensures s.gone <= Step(extract, s, act).gone && (act.DropRows? ==> act.account in Step(extract, s, act).gone)
  {}

  /** In every run, a deleted account has no rows, from its deletion on. */
  lemma {:induction false} DeletedAccountsStayEmpty(extract: Extractor, s: World, acts: seq<Act>, account: nat)
    requires Inv(extract, s) && Bumped(extract, s, acts)
    requires account in s.gone || DropRows(account) in acts
    ensures forall id :: id in Run(extract, s, acts).rows ==> Run(extract, s, acts).rows[id].account != account
    decreases |acts|
  {
    if acts != [] {
      hide Step, BumpedNow, Served, BatchOk, DocsOk, IndexOk, DrainOk, WatermarkOk;
      StepKeepsInv(extract, s, acts[0]);
      GoneGrows(extract, s, acts[0]);
      DeletedAccountsStayEmpty(extract, Step(extract, s, acts[0]), acts[1..], account);
    }
  }

  /** Deleting an account's documents, committed, leaves none of them and all the others. */
  lemma DroppedDocsAreGone(extract: Extractor, s: World, account: nat)
    requires account in s.gone && s.phase != Down && s.staged == s.committed
    ensures var s' := Step(extract, s, DropDocs(account, true));
            forall doc :: Holds(s'.committed, doc) <==> Holds(s.committed, doc) && doc.account != account
  {
    forall doc | Holds(s.committed, doc) && doc.account != account
      ensures Holds(DeleteAccount(s.committed, account), doc)
    {
      DeletionSpares(s.committed, account, doc);
    }
  }

  /** What a failed write or clear leaves uncommitted stays with the writer, and the next commit publishes it. */
  lemma FailedWorkStaysStaged(extract: Extractor, s: World, calls: nat)
    ensures s.phase.Fetching? && s.phase.k == |s.phase.batch| && calls <= 2 * |s.phase.docs| ==>
              var q := Step(extract, s, Write(calls));
              q.committed == s.committed && q.staged == Stage(s.staged, s.phase.docs, calls) && q.rows == s.rows
    ensures s.phase == Starting && NeedsRebuild(s.sidecar) ==>
              var q := Step(extract, s, Clear(false));
              q.committed == s.committed && q.staged.docs == map[] && q.phase == Ready && NeedsRebuild(q.sidecar)
  {}

  /** A row whose bytes are lost before they are read is passed over: it becomes a poison pill, without a document. */
  lemma LostBytesArePassedOver(extract: Extractor, s: World, id: nat, row: Row)
    requires s.phase == Fetching([(id, row)], [], 0)
    ensures var q := Step(extract, Step(extract, s, LoseBlob((row.account, row.hash))), FetchOne(false));
            q.phase == Fetching([(id, row)], [], 1) && id in q.poison && (row.account, row.hash) !in q.blobs
  {
    assert s.phase.batch[0] == (id, row);
  }

  /** No stored bytes are lost, and everything that arrives parses. */
  ghost predicate Lossless(extract: Extractor, acts: seq<Act>) {
    forall i :: 0 <= i < |acts| ==> !acts[i].LoseBlob? && (acts[i].Arrive? ==> extract(acts[i].hash).Some?)
  }

  ghost predicate NoPills(extract: Extractor, s: World) {
    && (forall id :: id in s.rows ==> Usable(extract, s.blobs, s.rows[id]) && id !in s.poison)
    && s.poison <= s.used
  }

  lemma LosslessStep(extract: Extractor, s: World, act: Act)
    requires Inv(extract, s) && NoPills(extract, s) && Lossless(extract, [act])
    ensures NoPills(extract, Step(extract, s, act))
  {
    hide IndexOk, WatermarkOk, DocsOk, Served;
    assert act == [act][0];
    if act.FetchOne? && s.phase.Fetching? && s.phase.k < |s.phase.batch| {
      assert BatchOk(s, s.phase.batch) && s.phase.batch[s.phase.k].0 in s.used;
    }
  }

  lemma {:induction false} LosslessRun(extract: Extractor, s: World, acts: seq<Act>)
    requires Inv(extract, s) && NoPills(extract, s) && Lossless(extract, acts) && Bumped(extract, s, acts)
    ensures NoPills(extract, Run(extract, s, acts))
    decreases |acts|
  {
    if acts != [] {
      hide Inv, Step, NoPills;
      assert Lossless(extract, [acts[0]]);
      StepKeepsInv(extract, s, acts[0]);
      LosslessStep(extract, s, acts[0]);
      LosslessRun(extract, Step(extract, s, acts[0]), acts[1..]);
    }
  }

  /** Without losses there are no poison pills: indexed means searchable. */
  lemma IndexedMeansSearchable(extract: Extractor, s: World, acts: seq<Act>, id: nat)
    requires Start(s) && Lossless(extract, acts) && Bumped(extract, s, acts)
    ensures var q := Run(extract, s, acts);
            !NeedsRebuild(q.sidecar) && id in q.rows && q.rows[id].indexed ==>
              var row := q.rows[id];
              extract(row.hash).Some? && ExactlyOne(q.committed, Doc(id, row.account, row.hash, extract(row.hash).value))
  {
    StartIsOk(extract, s);
    IndexAgreesWithWatermark(extract, s, acts);
    LosslessRun(extract, s, acts);
  }

  /**
   Discarding the index of a stopped process keeps the invariant exactly when the sidecar goes
   too, or is stale, or there was nothing to lose: the wipe relies on every schema change
   bumping the version.
   */
  lemma WipeNeedsAVersionBump(extract: Extractor, s: World, sidecarToo: bool)
    requires Inv(extract, s) && s.phase == Down
    ensures Inv(extract, Step(extract, s, Wipe(sidecarToo)))
            <==> sidecarToo || NeedsRebuild(s.sidecar) || forall id :: id in s.rows && s.rows[id].indexed ==> id in s.poison
  {}

  lemma {:induction false} RunOn(extract: Extractor, s: World, acts: seq<Act>, act: Act)
    ensures Run(extract, s, acts + [act]) == Step(extract, Run(extract, s, acts), act)
    decreases |acts|
  {
    hide Step;
    if acts == [] {
      assert [act][1..] == [];
    } else {
      assert (acts + [act])[1..] == acts[1..] + [act];
      RunOn(extract, Step(extract, s, acts[0]), acts[1..], act);
    }
  }

  /** From a start to a process that is ready, with its sidecar current and nothing indexed. */
  lemma BootsReady(extract: Extractor, s: World) returns (acts: seq<Act>)
    requires Start(s)
    ensures Run(extract, s, acts) == s.(phase := Ready, sidecar := Some(SCHEMA_VERSION))
  {
    var q := s.(phase := Starting);
    acts := [Boot];
    RunOn(extract, s, [], Boot);
    assert q == Run(extract, s, acts);
    hide Run;
    RunOn(extract, s, acts, Clear(true));
    acts := acts + [Clear(true)];
    if NeedsRebuild(s.sidecar) {
      assert Run(extract, s, acts) == s.(phase := Emptied);
      RunOn(extract, s, acts, ResetRows(true));
      acts := acts + [ResetRows(true)];
      assert Run(extract, s, acts) == s.(phase := Requeued);
      RunOn(extract, s, acts, WriteVersion(true));
      acts := acts + [WriteVersion(true)];
    }
  }

  lemma OneToFetch(rows: Rows, id: nat)
    requires rows.Keys == {id} && !rows[id].indexed
    ensures Unindexed(rows) == {id} && BatchOf(rows) == [(id, rows[id])]
  {
    assert Unindexed(rows) == {id};
    assert BatchIds(rows)[0] in {id};
  }

  lemma FetchesOne(extract: Extractor, s: World, id: nat, row: Row)
    requires s.phase == Fetching([(id, row)], [], 0) && Usable(extract, s.blobs, row)
    ensures Step(extract, s, FetchOne(false)) == s.(phase := Fetching([(id, row)], [DocOf(extract, id, row)], 1))
  {
    assert s.phase.batch[0] == (id, row);
    assert [] + [DocOf(extract, id, row)] == [DocOf(extract, id, row)];
  }

  lemma WritesOne(extract: Extractor, s: World, id: nat, row: Row, doc: Doc)
    requires s.phase == Fetching([(id, row)], [doc], 1) && s.rows == map[id := row]
    ensures var q := Step(extract, Step(extract, s, Write(3)), MarkBatch(true));
            q == s.(committed := q.committed, staged := q.staged, phase := Ready, rows := map[id := row.(indexed := true)])
  {
    hide Stage;
    assert Ids([(id, row)]) == {id} by { assert [(id, row)][0].0 == id; }
    assert Step(extract, s, Write(3)) == WriteStep(s, 3);
  }

  /** The four steps that index the only message there is, and mark it. */
  lemma DrainsOne(extract: Extractor, s: World, id: nat, row: Row)
    requires s.phase == Ready && s.rows == map[id := row] && !row.indexed && Usable(extract, s.blobs, row)
    ensures var q := Step(extract, Step(extract, Step(extract, Step(extract, s, List), FetchOne(false)), Write(3)), MarkBatch(true));
            q == s.(committed := q.committed, staged := q.staged, rows := map[id := row.(indexed := true)])
  {
    hide BatchOf, Unindexed, FetchStep, WriteStep, ReconcileStep, Mark;
    OneToFetch(s.rows, id);
    var s1 := Step(extract, s, List);
    assert s1 == s.(phase := Fetching([(id, row)], [], 0));
    hide Step;
    FetchesOne(extract, s1, id, row);
    WritesOne(extract, Step(extract, s1, FetchOne(false)), id, row, DocOf(extract, id, row));
  }

  lemma RunOfFive(extract: Extractor, s: World, a: Act, b: Act, c: Act, d: Act, e: Act)
    ensures Run(extract, s, [a, b, c, d, e])
            == Step(extract, Step(extract, Step(extract, Step(extract, Step(extract, s, a), b), c), d), e)
  {
    hide Step;
    RunOn(extract, s, [], a);
    RunOn(extract, s, [a], b);
    RunOn(extract, s, [a, b], c);
    RunOn(extract, s, [a, b, c], d);
    RunOn(extract, s, [a, b, c, d], e);
    assert [] + [a] == [a] && [a] + [b] == [a, b] && [a, b] + [c] == [a, b, c];
    assert [a, b, c] + [d] == [a, b, c, d] && [a, b, c, d] + [e] == [a, b, c, d, e];
  }

  /** A message arrives, is indexed and marked. */
  lemma IndexesOne(extract: Extractor, s: World, id: nat, row: Row) returns (q: World, acts: seq<Act>)
    requires s.phase == Ready && s.rows == map[] && s.used == {} && s.gone == {} && !row.indexed && extract(row.hash).Some?
    ensures q == Run(extract, s, acts) && q.phase == Ready && q.sidecar == s.sidecar && q.poison == s.poison
    ensures q.rows == map[id := row.(indexed := true)]
  {
    var arrive := Arrive(id, row.account, row.hash);
    acts := [arrive, List, FetchOne(false), Write(3), MarkBatch(true)];
    var s1 := Step(extract, s, arrive);
    hide Step, Run;
    RunOfFive(extract, s, arrive, List, FetchOne(false), Write(3), MarkBatch(true));
    DrainsOne(extract, s1, id, row);
    q := Run(extract, s, acts);
  }

  lemma {:induction false} RunConcat(extract: Extractor, s: World, a: seq<Act>, b: seq<Act>)
    ensures Run(extract, s, a + b) == Run(extract, Run(extract, s, a), b)
    decreases |a|
  {
    if a == [] {
      assert a + b == b;
    } else {
      assert (a + b)[1..] == a[1..] + b;
      RunConcat(extract, Step(extract, s, a[0]), a[1..], b);
    }
  }

  /** Without the bump: from every start, a run that ends with a row marked indexed, a current sidecar and an empty index. */
  lemma UnbumpedWipeForgetsMail(extract: Extractor, s: World, id: nat, row: Row) returns (acts: seq<Act>)
    requires Start(s) && !row.indexed && extract(row.hash).Some?
    ensures var q := Run(extract, s, acts);
            && !NeedsRebuild(q.sidecar) && q.committed == q.staged == EMPTY
            && id in q.rows && q.rows[id] == row.(indexed := true) && id !in q.poison
            && !Bumped(extract, s, acts)
  {
    hide Run, Bumped, Inv;
    var boot := BootsReady(extract, s);
    var q, index := IndexesOne(extract, Run(extract, s, boot), id, row);
    RunConcat(extract, s, boot, index);
    acts := boot + index;
    RunOn(extract, s, acts, Crash);
    acts := acts + [Crash];
    RunOn(extract, s, acts, Wipe(false));
    acts := acts + [Wipe(false)];
    if Bumped(extract, s, acts) { IndexAgreesWithWatermark(extract, s, acts); }
  }
}
