/**
 Draining the queue at a fixed time: whatever becomes of each job, every ready one is
 claimed exactly once and in the claim order, and nothing else is touched.
 */
module JobDrain {
  import opened Wrappers
  import opened JobTable

  /** What a worker does with a claimed job; `Abandoned` stands for a crash or a lost connection. */
  datatype Outcome = Done | Retry(error: string) | Dead(error: string) | Abandoned

  function Finish(t: Table, job: Job, outcome: Outcome, now: int): Table {
    match outcome
    case Done => Apply(t, Complete(job, now))
    case Retry(error) => Apply(t, Fail(job, error, now))
    case Dead(error) => Apply(t, FailTerminal(job, error, now))
    case Abandoned => t
  }

  function OutcomeOf(outcomes: map<nat, Outcome>, id: nat): Outcome {
    if id in outcomes then outcomes[id] else Abandoned
  }

  /** Claim the row `id`, and finish it. */
  function Work(t: Table, id: nat, outcome: Outcome, now: int): Table
    requires id in t.rows
  {
    var t1 := Apply(t, Claim(id, t.rows[id].version));
    if id in t1.rows then Finish(t1, Job(id, t1.rows[id]), outcome, now) else t1
  }

  lemma {:induction false} ShiftPositive(n: nat)
    ensures Shift(n) > 0
  {
    if n > 0 { ShiftPositive(n - 1); }
  }

  lemma BackoffIsPositive(attempt: int)
    ensures BackoffSeconds(attempt) > 0
  {
    ShiftPositive(if attempt < 0 then 0 else if attempt < 20 then attempt else 20);
  }

  /** Working on a ready job takes it, and only it, out of the ready set. */
  lemma WorkRemovesOne(t: Table, id: nat, outcome: Outcome, now: int)
    requires id in ReadyIds(t.rows, now)
    ensures var t' := Work(t, id, outcome, now);
            && t'.rows.Keys == t.rows.Keys
            && (forall j :: j in t.rows && j != id ==> t'.rows[j] == t.rows[j])
            && ReadyIds(t'.rows, now) == ReadyIds(t.rows, now) - {id}
  {
    BackoffIsPositive(t.rows[id].attempt + 1);
  }

  /** What becomes of a claimed row, by the outcome of its handler. */
  predicate Ended(was: Row, row: Row, outcome: Outcome, now: int) {
    && row.attempt == was.attempt + 1 && row.body == was.body && row.priority == was.priority
    && match outcome
       case Done => row.status == Completed && row.completedAt == Some(now)
       case Retry(error) =>
         && row.error == Some(error)
         && if was.attempt + 1 < was.maxAttempts then row.status == Pending && row.scheduledAt > now
            else row.status == Failed && row.completedAt == Some(now)
       case Dead(error) => row.status == Failed && row.completedAt == Some(now) && row.error == Some(error)
       case Abandoned => row.status == Running
  }

  lemma WorkEnds(t: Table, id: nat, outcome: Outcome, now: int)
    requires id in ReadyIds(t.rows, now)
    ensures id in Work(t, id, outcome, now).rows && Ended(t.rows[id], Work(t, id, outcome, now).rows[id], outcome, now)
  {
    BackoffIsPositive(t.rows[id].attempt + 1);
  }

  ghost function Drain(t: Table, now: int, outcomes: map<nat, Outcome>): (Table, seq<nat>)
    decreases |ReadyIds(t.rows, now)|
  {
    match Best(t.rows, now)
    case None => (t, [])
    case Some(id) =>
      WorkRemovesOne(t, id, OutcomeOf(outcomes, id), now);
      var t1 := Work(t, id, OutcomeOf(outcomes, id), now);
      assert ReadyIds(t1.rows, now) < ReadyIds(t.rows, now);
      var rest := Drain(t1, now, outcomes);
      (rest.0, [id] + rest.1)
  }

  lemma {:induction false} SomeReadyHasBest(rows: map<nat, Row>, now: int, among: set<nat>) returns (id: nat)
    requires among != {} && among <= ReadyIds(rows, now)
    ensures id in among && forall j :: j in among && j != id ==> Precedes(rows, id, j)
    decreases |among|
  {
    var pick :| pick in among;
    id := pick;
    if among != {pick} {
      var rest := SomeReadyHasBest(rows, now, among - {pick});
      if Precedes(rows, rest, pick) {
        id := rest;
      } else {
        forall j | j in among && j != pick ensures Precedes(rows, pick, j) {
          if j != rest { PrecedesTransitive(rows, pick, rest, j); }
        }
      }
    }
  }

  lemma BestExists(rows: map<nat, Row>, now: int)
    ensures Best(rows, now).None? <==> ReadyIds(rows, now) == {}
  {
    if ReadyIds(rows, now) != {} {
      var id := SomeReadyHasBest(rows, now, ReadyIds(rows, now));
      assert IsBest(rows, now, id);
    }
  }

  lemma BestIsFirst(rows: map<nat, Row>, now: int)
    ensures match Best(rows, now)
            case None => true
            case Some(id) => id in ReadyIds(rows, now) && forall j :: j in ReadyIds(rows, now) && j != id ==> Precedes(rows, id, j)
    ensures forall j :: j in ReadyIds(rows, now) ==> j in rows
  {}

  lemma PrecedesDependsOnTwoRows(rows: map<nat, Row>, rows': map<nat, Row>, i: nat, j: nat)
    requires i in rows && j in rows && i in rows' && j in rows' && rows[i] == rows'[i] && rows[j] == rows'[j]
    ensures Precedes(rows, i, j) == Precedes(rows', i, j)
  {}

  /**
   Every ready job is claimed exactly once, in the claim order, and ends as its outcome says:
   Completed, Failed, Pending for later or left Running. Every other row is left alone.
   */
  lemma {:induction false} DrainClaimsEachReadyJobInOrder(t: Table, now: int, outcomes: map<nat, Outcome>)
    ensures var (t', claimed) := Drain(t, now, outcomes);
            && (forall id :: id in claimed <==> id in ReadyIds(t.rows, now))
            && (forall i, j | 0 <= i < j < |claimed| :: Precedes(t.rows, claimed[i], claimed[j]))
            && |claimed| == |ReadyIds(t.rows, now)|
            && t'.rows.Keys == t.rows.Keys
            && (forall id :: id in t.rows && id !in claimed ==> t'.rows[id] == t.rows[id])
            && (forall id :: id in claimed ==>
                  Ended(t.rows[id], t'.rows[id], if id in outcomes then outcomes[id] else Abandoned, now))
            && ReadyIds(t'.rows, now) == {}
    decreases |ReadyIds(t.rows, now)|
  {
    BestExists(t.rows, now);
    BestIsFirst(t.rows, now);
    hide Work, ReadyIds, Precedes, Best, IsBest, Ended;
    if Best(t.rows, now).Some? {
      var id := Best(t.rows, now).value;
      WorkRemovesOne(t, id, OutcomeOf(outcomes, id), now);
      var t1 := Work(t, id, OutcomeOf(outcomes, id), now);
      assert ReadyIds(t1.rows, now) < ReadyIds(t.rows, now);
      BestIsFirst(t1.rows, now);
      DrainClaimsEachReadyJobInOrder(t1, now, outcomes);
      WorkEnds(t, id, OutcomeOf(outcomes, id), now);
      var rest := Drain(t1, now, outcomes).1;
      var claimed := Drain(t, now, outcomes).1;
      assert claimed == [id] + rest;
      forall i, j | 0 <= i < j < |claimed| ensures Precedes(t.rows, claimed[i], claimed[j]) {
        assert claimed[j] == rest[j - 1] && rest[j - 1] in ReadyIds(t1.rows, now);
        if i > 0 {
          assert claimed[i] == rest[i - 1] && Precedes(t1.rows, rest[i - 1], rest[j - 1]);
          assert rest[i - 1] in ReadyIds(t1.rows, now);
          PrecedesDependsOnTwoRows(t.rows, t1.rows, rest[i - 1], rest[j - 1]);
        }
      }
    }
  }

  /** Without competition `claim_next` claims the best ready job, and gives up only when there is none. */
  lemma ClaimNextAlone(t: Table, now: int)
    ensures var (t', job) := ClaimNext(t, now, [], MAX_CLAIM_ATTEMPTS);
            && (job.None? <==> ReadyIds(t.rows, now) == {})
            && (job.None? ==> t' == t)
            && (job.Some? ==>
                  && IsBest(t.rows, now, job.value.id)
                  && t'.rows == t.rows[job.value.id := job.value.row]
                  && job.value.row == var row := t.rows[job.value.id];
                                      row.(status := Running, attempt := row.attempt + 1, version := row.version + 1))
  {
    BestExists(t.rows, now);
  }

  method FinishJob(queue: JobQueue, job: Job, outcome: Outcome, now: int)
    modifies queue
    ensures queue.Contents() == Finish(old(queue.Contents()), job, outcome, now)
  {
    match outcome {
      case Done => var _ := queue.CompleteJob(job, now);
      case Retry(error) => var _ := queue.FailJob(job, error, now);
      case Dead(error) => var _ := queue.FailJobTerminally(job, error, now);
      case Abandoned =>
    }
  }

  /** One turn of the worker loop: claim the best ready job and finish it. */
  method WorkOne(queue: JobQueue, now: int, outcomes: map<nat, Outcome>) returns (worked: Option<nat>)
    modifies queue
    ensures worked == Best(old(queue.rows), now)
    ensures queue.Contents() == if worked.None? then old(queue.Contents())
                                else Work(old(queue.Contents()), worked.value, OutcomeOf(outcomes, worked.value), now)
  {
    ghost var t := queue.Contents();
    ClaimNextAlone(t, now);
    var job := queue.ClaimNextJob(now, []);
    BestExists(t.rows, now);
    if job.None? {
      return None;
    }
    worked := Some(job.value.id);
    BestIsUnique(t.rows, now, job.value.id, Best(t.rows, now).value);
    FinishJob(queue, job.value, OutcomeOf(outcomes, job.value.id), now);
  }

  /** The loop of one worker with the clock stopped: it ends when nothing is ready. */
  method DrainReady(queue: JobQueue, now: int, outcomes: map<nat, Outcome>) returns (claimed: seq<nat>)
    modifies queue
    ensures (queue.Contents(), claimed) == Drain(old(queue.Contents()), now, outcomes)
  {
    hide Work;
    claimed := [];
    ghost var start := queue.Contents();
    while true
      invariant Drain(start, now, outcomes).0 == Drain(queue.Contents(), now, outcomes).0
      invariant Drain(start, now, outcomes).1 == claimed + Drain(queue.Contents(), now, outcomes).1
      decreases |ReadyIds(queue.rows, now)|
    {
      ghost var t := queue.Contents();
      var worked := WorkOne(queue, now, outcomes);
      if worked.None? {
        assert claimed + [] == claimed;
        return;
      }
      var id := worked.value;
      WorkRemovesOne(t, id, OutcomeOf(outcomes, id), now);
      assert ReadyIds(queue.rows, now) < ReadyIds(t.rows, now);
      assert claimed + Drain(t, now, outcomes).1 == claimed + [id] + Drain(queue.Contents(), now, outcomes).1;
      claimed := claimed + [id];
    }
  }
}
