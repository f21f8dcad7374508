/**
 The durable job queue: a table of versioned rows that every operation updates in place.

 Times are whole seconds. `attempt` and `version` are unbounded here; the columns are 16
 and 32 bits wide.
 */
module JobTable {
  import opened Wrappers

  datatype Status = Pending | Running | Completed | Failed

  datatype Row = Row(
    status: Status,
    body: string,           // job type and payload
    priority: int,
    attempt: int,
    maxAttempts: int,
    version: int,
    scheduledAt: int,
    completedAt: Option<int>,
    error: Option<string>
  )

  /** What a worker holds of a job: its id and its row as it was when the job was claimed. */
  datatype Job = Job(id: nat, row: Row)

  datatype Table = Table(rows: map<nat, Row>, nextId: nat)

  const MAX_ATTEMPTS := 3
  const MAX_CLAIM_ATTEMPTS: nat := 5

  function NewRow(body: string, priority: int, scheduledAt: int): Row {
    Row(Pending, body, priority, 0, MAX_ATTEMPTS, 0, scheduledAt, None, None)
  }

  predicate Ready(row: Row, now: int) {
    row.status == Pending && row.scheduledAt <= now
  }

  /** The claim order: priority descending, then scheduled_at ascending, then id ascending. */
  predicate Precedes(rows: map<nat, Row>, i: nat, j: nat) {
    && i in rows && j in rows
    && (|| rows[i].priority > rows[j].priority
        || (rows[i].priority == rows[j].priority &&
            (rows[i].scheduledAt < rows[j].scheduledAt || (rows[i].scheduledAt == rows[j].scheduledAt && i < j))))
  }

  function ReadyIds(rows: map<nat, Row>, now: int): set<nat> {
    set id | id in rows && Ready(rows[id], now)
  }

  /** `id` is the row the claim query selects. */
  ghost predicate IsBest(rows: map<nat, Row>, now: int, id: nat) {
    && id in ReadyIds(rows, now)
    && forall j :: j in ReadyIds(rows, now) && j != id ==> Precedes(rows, id, j)
  }

  function Shift(n: nat): nat {
    if n == 0 then 1 else 2 * Shift(n - 1)
  }

  /** `30_i64 * (1_i64 << min(attempt, 20))`; a claimed job's attempt is at least 1. */
  function BackoffSeconds(attempt: int): int {
    30 * Shift(if attempt < 0 then 0 else if attempt < 20 then attempt else 20)
  }

  // ---- Row updates ----

  function ClaimedRow(row: Row): Row {
    row.(status := Running, attempt := row.attempt + 1, version := row.version + 1)
  }

  function CompletedRow(row: Row, now: int): Row {
    row.(status := Completed, completedAt := Some(now), version := row.version + 1)
  }

  function FailedRow(row: Row, error: string, now: int): Row {
    row.(status := Failed, completedAt := Some(now), error := Some(error), version := row.version + 1)
  }

  /** `fail` decides and computes the delay from the handle, not from the row. */
  function RetriedRow(row: Row, held: Row, error: string, now: int): Row {
    if held.attempt < held.maxAttempts then
      row.(status := Pending, scheduledAt := now + BackoffSeconds(held.attempt), error := Some(error), version := row.version + 1)
    else FailedRow(row, error, now)
  }

  function ResetRow(row: Row): Row {
    if row.status == Running then row.(status := Pending, version := row.version + 1) else row
  }

  predicate Old(row: Row, cutoff: int) {
    row.status in {Completed, Failed} && row.completedAt.Some? && row.completedAt.value < cutoff
  }

  // ---- Operations, each one atomic statement ----

  datatype Op =
    | Enqueue(body: string, priority: int, at: int)
    | Claim(id: nat, version: int)
    | Complete(job: Job, now: int)
    | Fail(job: Job, error: string, now: int)
    | FailTerminal(job: Job, error: string, now: int)
    | Reset
    | DeleteOld(cutoff: int)

  /** `complete`, `fail` and `fail_terminal` filter on id and version alone. */
  predicate Matches(t: Table, job: Job) {
    job.id in t.rows && t.rows[job.id].version == job.row.version
  }

  /** The row matches the optimistic-lock filter of the operation. */
  predicate Affects(t: Table, op: Op) {
    match op
    case Claim(id, version) => id in t.rows && t.rows[id].version == version && t.rows[id].status == Pending
    case Complete(job, _) => Matches(t, job)
    case Fail(job, _, _) => Matches(t, job)
    case FailTerminal(job, _, _) => Matches(t, job)
    case _ => true
  }

  function Apply(t: Table, op: Op): Table {
    if !Affects(t, op) then t else
    match op
    case Enqueue(body, priority, at) => Table(t.rows[t.nextId := NewRow(body, priority, at)], t.nextId + 1)
    case Claim(id, _) => t.(rows := t.rows[id := ClaimedRow(t.rows[id])])
    case Complete(job, now) => t.(rows := t.rows[job.id := CompletedRow(t.rows[job.id], now)])
    case Fail(job, error, now) => t.(rows := t.rows[job.id := RetriedRow(t.rows[job.id], job.row, error, now)])
    case FailTerminal(job, error, now) => t.(rows := t.rows[job.id := FailedRow(t.rows[job.id], error, now)])
    case Reset => t.(rows := map id | id in t.rows :: ResetRow(t.rows[id]))
    case DeleteOld(cutoff) => t.(rows := map id | id in t.rows && !Old(t.rows[id], cutoff) :: t.rows[id])
  }

  function ApplyAll(t: Table, ops: seq<Op>): Table
    decreases |ops|
  {
    if ops == [] then t else ApplyAll(Apply(t, ops[0]), ops[1..])
  }

  // ---- claim_next ----

  ghost function Best(rows: map<nat, Row>, now: int): (best: Option<nat>)
    ensures best.Some? ==> IsBest(rows, now, best.value)
  {
    if exists id :: IsBest(rows, now, id) then
      var id :| IsBest(rows, now, id);
      Some(id)
    else None
  }

  /** What the other workers do between the SELECT and the UPDATE of each try. */
  type Races = seq<seq<Op>>

  function Race(races: Races): seq<Op> {
    if races == [] then [] else races[0]
  }

  function LaterRaces(races: Races): Races {
    if races == [] then [] else races[1..]
  }

  ghost function ClaimNext(t: Table, now: int, races: Races, tries: nat): (Table, Option<Job>)
    decreases tries
  {
    if tries == 0 then (t, None) else
    match Best(t.rows, now)
    case None => (t, None)
    case Some(id) =>
      var claim := Claim(id, t.rows[id].version);
      var t1 := ApplyAll(t, Race(races));
      if Affects(t1, claim) then (Apply(t1, claim), Some(Job(id, Apply(t1, claim).rows[id])))
      else ClaimNext(t1, now, LaterRaces(races), tries - 1)
  }

  lemma PrecedesTransitive(rows: map<nat, Row>, i: nat, j: nat, k: nat)
    requires Precedes(rows, i, j) && Precedes(rows, j, k)
    ensures Precedes(rows, i, k)
  {}

  lemma BestIsUnique(rows: map<nat, Row>, now: int, i: nat, j: nat)
    requires IsBest(rows, now, i) && IsBest(rows, now, j)
    ensures i == j
  {}

  /** The queue as the adapter's object: one field holding the rows, updated by every operation. */
  class JobQueue {
    var rows: map<nat, Row>
    var nextId: nat

    function Contents(): Table
      reads this
    {
      Table(rows, nextId)
    }

    constructor ()
      ensures Contents() == Table(map[], 1)
    {
      rows, nextId := map[], 1;
    }

    method EnqueueAt(body: string, priority: int, at: int) returns (job: Job)
      modifies this
      ensures Contents() == Apply(old(Contents()), Enqueue(body, priority, at))
      ensures job == Job(old(nextId), Row(Pending, body, priority, 0, 3, 0, at, None, None))
      ensures rows == old(rows)[old(nextId) := job.row] && nextId == old(nextId) + 1
    {
      job := Job(nextId, NewRow(body, priority, at));
      rows := rows[nextId := job.row];
      nextId := nextId + 1;
    }

    /** `SELECT ... WHERE pending AND scheduled_at <= now ORDER BY ... LIMIT 1`. */
    method SelectCandidate(now: int) returns (candidate: Option<nat>)
      ensures candidate == Best(rows, now)
      ensures candidate.None? <==> ReadyIds(rows, now) == {}
      ensures candidate.Some? ==> IsBest(rows, now, candidate.value)
      ensures match candidate
              case None => forall j :: j in rows && rows[j].status == Pending ==> rows[j].scheduledAt > now
              case Some(id) =>
                && id in rows && rows[id].status == Pending && rows[id].scheduledAt <= now
                && forall j :: j in rows && rows[j].status == Pending && rows[j].scheduledAt <= now ==>
                     && rows[id].priority >= rows[j].priority
                     && (rows[id].priority == rows[j].priority ==>
                           && rows[id].scheduledAt <= rows[j].scheduledAt
                           && (rows[id].scheduledAt == rows[j].scheduledAt ==> id <= j))
    {
      candidate := None;
      var todo := ReadyIds(rows, now);
      while todo != {}
        invariant todo <= ReadyIds(rows, now)
        invariant candidate.None? ==> todo == ReadyIds(rows, now)
        invariant candidate.Some? ==> candidate.value in ReadyIds(rows, now) - todo
        invariant candidate.Some? ==>
                    forall j :: j in ReadyIds(rows, now) - todo && j != candidate.value ==> Precedes(rows, candidate.value, j)
        decreases |todo|
      {
        var id :| id in todo;
        todo := todo - {id};
        if candidate.None? || Precedes(rows, id, candidate.value) {
          ghost var before := candidate;
          candidate := Some(id);
          if before.Some? {
            forall j | j in ReadyIds(rows, now) - todo && j != id ensures Precedes(rows, id, j) {
              if j != before.value { PrecedesTransitive(rows, id, before.value, j); }
            }
          }
        }
      }
      assert forall j :: j in rows && rows[j].status == Pending && rows[j].scheduledAt <= now ==> j in ReadyIds(rows, now);
      if candidate.Some? {
        assert IsBest(rows, now, candidate.value);
        BestIsUnique(rows, now, candidate.value, Best(rows, now).value);
      }
    }

    /** Other workers' statements, between two statements of ours. */
    method Others(ops: seq<Op>)
      modifies this
      ensures Contents() == ApplyAll(old(Contents()), ops)
    {
      for i := 0 to |ops|
        invariant ApplyAll(old(Contents()), ops) == ApplyAll(Contents(), ops[i..])
      {
        assert ops[i..][0] == ops[i] && ops[i..][1..] == ops[i + 1..];
        var t := Apply(Contents(), ops[i]);
        rows, nextId := t.rows, t.nextId;
      }
    }

    /** Select the best ready row and claim it under its version; on losing a race, try again. */
    method ClaimNextJob(now: int, races: Races) returns (job: Option<Job>)
      modifies this
      ensures (Contents(), job) == ClaimNext(old(Contents()), now, races, 5)
      ensures job.Some? ==> job.value.id in rows && rows[job.value.id] == job.value.row && job.value.row.status == Running
    {
      var later := races;
      for i: nat := 0 to MAX_CLAIM_ATTEMPTS
        invariant ClaimNext(old(Contents()), now, races, MAX_CLAIM_ATTEMPTS)
               == ClaimNext(Contents(), now, later, MAX_CLAIM_ATTEMPTS - i)
      {
        var candidate := SelectCandidate(now);
        if candidate.None? {
          return None;
        }
        var id := candidate.value;
        var version := rows[id].version;
        Others(Race(later));
        if id in rows && rows[id].version == version && rows[id].status == Pending {
          rows := rows[id := ClaimedRow(rows[id])];
          return Some(Job(id, rows[id]));
        }
        later := LaterRaces(later);
      }
      job := None;
    }

    method CompleteJob(job: Job, now: int) returns (ok: bool)
      modifies this
      ensures Contents() == Apply(old(Contents()), Complete(job, now))
      ensures ok == (job.id in old(rows) && old(rows)[job.id].version == job.row.version)
      ensures nextId == old(nextId)
      ensures rows == if !ok then old(rows) else
                var row := old(rows)[job.id];
                old(rows)[job.id := row.(status := Completed, completedAt := Some(now), version := row.version + 1)]
    {
      ok := job.id in rows && rows[job.id].version == job.row.version;
      if ok {
        rows := rows[job.id := CompletedRow(rows[job.id], now)];
      }
    }

    /** Retry with backoff while attempts remain, else fail. */
    method FailJob(job: Job, error: string, now: int) returns (ok: bool)
      modifies this
      ensures Contents() == Apply(old(Contents()), Fail(job, error, now))
      ensures ok == (job.id in old(rows) && old(rows)[job.id].version == job.row.version)
      ensures nextId == old(nextId)
      ensures rows == if !ok then old(rows) else
                var row := old(rows)[job.id].(error := Some(error), version := old(rows)[job.id].version + 1);
                old(rows)[job.id := if job.row.attempt < job.row.maxAttempts
                                    then row.(status := Pending, scheduledAt := now + BackoffSeconds(job.row.attempt))
                                    else row.(status := Failed, completedAt := Some(now))]
    {
      ok := job.id in rows && rows[job.id].version == job.row.version;
      if !ok { return; }
      var row := rows[job.id];
      if job.row.attempt < job.row.maxAttempts {
        var scheduledAt := now + BackoffSeconds(job.row.attempt);
        rows := rows[job.id := row.(status := Pending, scheduledAt := scheduledAt, error := Some(error), version := row.version + 1)];
      } else {
        rows := rows[job.id := row.(status := Failed, completedAt := Some(now), error := Some(error), version := row.version + 1)];
      }
    }

    method FailJobTerminally(job: Job, error: string, now: int) returns (ok: bool)
      modifies this
      ensures Contents() == Apply(old(Contents()), FailTerminal(job, error, now))
      ensures ok == (job.id in old(rows) && old(rows)[job.id].version == job.row.version)
      ensures nextId == old(nextId)
      ensures rows == if !ok then old(rows) else
                var row := old(rows)[job.id];
                old(rows)[job.id := row.(status := Failed, completedAt := Some(now), error := Some(error), version := row.version + 1)]
    {
      ok := job.id in rows && rows[job.id].version == job.row.version;
      if ok {
        rows := rows[job.id := FailedRow(rows[job.id], error, now)];
      }
    }

    method ResetRunningToPending() returns (affected: nat)
      modifies this
      ensures Contents() == Apply(old(Contents()), Reset)
      ensures affected == |set id | id in old(rows) && old(rows)[id].status == Running|
      ensures nextId == old(nextId) && rows.Keys == old(rows).Keys
      ensures forall id :: id in rows ==>
                rows[id] == var row := old(rows)[id];
                            if row.status == Running then row.(status := Pending, version := row.version + 1) else row
    {
      var running := set id | id in rows && rows[id].status == Running;
      rows := map id | id in rows :: ResetRow(rows[id]);
      affected := |running|;
    }

    method DeleteOldJobs(cutoff: int) returns (affected: nat)
      modifies this
      ensures Contents() == Apply(old(Contents()), DeleteOld(cutoff))
      ensures affected == |old(rows).Keys - rows.Keys|
      ensures nextId == old(nextId)
      ensures forall id :: id in rows <==>
                id in old(rows) && !(old(rows)[id].status in {Completed, Failed}
                                     && old(rows)[id].completedAt.Some? && old(rows)[id].completedAt.value < cutoff)
      ensures forall id :: id in rows ==> rows[id] == old(rows)[id]
    {
      var old_ := set id | id in rows && Old(rows[id], cutoff);
      rows := map id | id in rows && !Old(rows[id], cutoff) :: rows[id];
      assert old_ == old(rows).Keys - rows.Keys;
      affected := |old_|;
    }
  }
}
