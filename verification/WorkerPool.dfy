/**
 The worker pool at work: parking, waking and claiming lead where they should, and whatever
 the pool does to the table is a run of the job queue, so that the queue's promises hold of it.
 */
module WorkerPool {
  import opened Wrappers
  import opened JobTable
  import opened WakeProtocol
  import JobDrain
  import JobRuns

  lemma {:induction false} AfterConcat(p: Pool, a: seq<Act>, b: seq<Act>)
    ensures After(p, a + b, true) == After(After(p, a, true), b, true)
    decreases |a|
  {
    hide Step;
    if a == [] {
      assert a + b == b;
    } else {
      assert (a + b)[1..] == a[1..] + b;
      AfterConcat(Step(p, a[0], true), a[1..], b);
    }
  }

  lemma AfterThree(p: Pool, a: Act, b: Act, c: Act)
    ensures After(p, [a, b, c], true) == Step(Step(Step(p, a, true), b, true), c, true)
  {
    hide Step;
    assert [a, b, c] == [a] + ([b] + ([c] + []));
    AfterCons(p, a, [b] + ([c] + []), true);
    AfterCons(Step(p, a, true), b, [c] + [], true);
    AfterCons(Step(Step(p, a, true), b, true), c, [], true);
  }

  lemma AfterFour(p: Pool, a: Act, b: Act, c: Act, d: Act)
    ensures After(p, [a, b, c, d], true) == Step(Step(Step(Step(p, a, true), b, true), c, true), d, true)
  {
    hide Step;
    assert [a, b, c, d] == [a] + [b, c, d];
    AfterCons(p, a, [b, c, d], true);
    AfterThree(Step(p, a, true), b, c, d);
  }

  /** A notification wakes every worker that has subscribed, parked or on its way there. */
  lemma NotifyWakesAll(p: Pool, e: nat)
    requires e in p.enqueuers && p.enqueuers[e].Committed?
    ensures var q := Step(p, Notify(e), true);
            && q.t == p.t && e !in q.enqueuers && q.workers.Keys == p.workers.Keys
            && forall w :: w in p.workers ==>
                 match p.workers[w]
                 case Armed(_, since) => q.workers[w] == Armed(true, since)
                 case Looking(_, since, now) => q.workers[w] == Looking(true, since, now)
                 case Missed(_, since) => q.workers[w] == Missed(true, since)
                 case Parked(_, since) => q.workers[w] == Parked(true, since)
                 case _ => q.workers[w] == p.workers[w]
  {}

  /** One look of a worker that has armed: the first ready job becomes its own. */
  lemma LookClaims(p: Pool, w: nat, woken: bool, since: int, now: int)
    requires w in p.workers && p.workers[w] == Looking(woken, since, now) && ReadyIds(p.t.rows, now) != {}
    ensures var q := Step(p, Look(w), true);
            && q.workers[w].Busy? && IsBest(p.t.rows, now, q.workers[w].job.id)
            && q.t.rows.Keys == p.t.rows.Keys
            && (var id := q.workers[w].job.id;
                q.t.rows[id] == q.workers[w].job.row && q.t.rows[id].status == Running && q.t.rows[id].body == p.t.rows[id].body)
  {
    JobDrain.BestExists(p.t.rows, now);
  }

  /** A parked worker that resumes, woken or timed out, claims the first ready job if there is one. */
  lemma ResumedWorkerClaims(p: Pool, w: nat)
    requires w in p.workers && p.workers[w].Parked? && ReadyIds(p.t.rows, p.clock) != {}
    ensures var q := After(p, [Resume(w), Arm(w), ReadClock(w), Look(w)], true);
            && w in q.workers && q.workers[w].Busy? && IsBest(p.t.rows, p.clock, q.workers[w].job.id)
            && q.workers[w].job.id in q.t.rows && q.t.rows[q.workers[w].job.id] == q.workers[w].job.row
            && q.workers[w].job.row.status == Running && q.workers[w].job.row.body == p.t.rows[q.workers[w].job.id].body
  {
    AfterFour(p, Resume(w), Arm(w), ReadClock(w), Look(w));
    var p3 := Step(Step(Step(p, Resume(w), true), Arm(w), true), ReadClock(w), true);
    assert p3 == Set(p, w, Looking(false, p.clock, p.clock));
    hide Step, After, IsBest, ReadyIds;
    LookClaims(p3, w, false, p.clock, p.clock);
  }

  /** An idle worker that finds nothing ready parks, subscribed since before it looked, and touches nothing. */
  lemma EmptyHandedWorkerParks(p: Pool, w: nat)
    requires w in p.workers && p.workers[w].Idle? && ReadyIds(p.t.rows, p.clock) == {}
    ensures After(p, [Arm(w), ReadClock(w), Look(w), Park(w)], true) == Set(p, w, Parked(false, p.clock))
  {
    AfterFour(p, Arm(w), ReadClock(w), Look(w), Park(w));
    JobDrain.BestExists(p.t.rows, p.clock);
  }

  /** What a worker leaves when it finishes: it is idle, and the job is as the outcome says while the handle is good. */
  lemma FinishingFreesTheWorker(p: Pool, w: nat, outcome: JobDrain.Outcome)
    requires w in p.workers && p.workers[w].Busy?
    ensures var q, job := Step(p, Finish(w, outcome), true), p.workers[w].job;
            && q.workers == p.workers[w := Idle]
            && (job.id !in p.t.rows || p.t.rows[job.id].version != job.row.version ==> q.t == p.t)
            && (job.id in p.t.rows && p.t.rows[job.id].version == job.row.version ==>
                  && job.id in q.t.rows
                  && match outcome
                     case Done => q.t.rows[job.id].status == Completed
                     case Dead(_) => q.t.rows[job.id].status == Failed
                     case Retry(_) =>
                       q.t.rows[job.id].status == if job.row.attempt < job.row.maxAttempts then Pending else Failed
                     case Abandoned => q.t == p.t)
  {}

  /** A job scheduled for later is ready once the clock has got there. */
  lemma WaitingJobBecomesReady(p: Pool, id: nat, seconds: nat)
    requires id in p.t.rows && p.t.rows[id].status == Pending && p.t.rows[id].scheduledAt <= p.clock + seconds
    ensures var q := Step(p, Advance(seconds), true);
            q.t == p.t && q.workers == p.workers && id in ReadyIds(q.t.rows, q.clock)
  {}

  lemma EnqueueSteps(p: Pool, e: nat, body: string, priority: int)
    requires e !in p.enqueuers
    ensures var q := Step(Step(Step(p, Begin(e, 0), true), Commit(e, body, priority), true), Notify(e), true);
            && q.t == Table(p.t.rows[p.t.nextId := NewRow(body, priority, p.clock)], p.t.nextId + 1) && q.clock == p.clock
            && forall w :: w in p.workers && p.workers[w].Parked? ==>
                 w in q.workers && q.workers[w] == Parked(true, p.workers[w].since)
  {
    var p2 := Step(Step(p, Begin(e, 0), true), Commit(e, body, priority), true);
    assert p2.enqueuers[e] == Committed(p.t.nextId) && p2.workers == p.workers;
    hide Woken;
    NotifyWakesAll(p2, e);
  }

  /** From enqueue to claim: with nothing else ready, a new job wakes a parked worker, and that worker gets it. */
  lemma AnnouncedJobIsClaimed(p: Pool, w: nat, e: nat, body: string, priority: int)
    requires WakeProtocol.Inv(p) && w in p.workers && p.workers[w].Parked? && e !in p.enqueuers
    requires ReadyIds(p.t.rows, p.clock) == {}
    ensures var announce, claim := [Begin(e, 0), Commit(e, body, priority), Notify(e)], [Resume(w), Arm(w), ReadClock(w), Look(w)];
            var q := After(p, announce + claim, true);
            && w in After(p, announce, true).workers && After(p, announce, true).workers[w] == Parked(true, p.workers[w].since)
            && w in q.workers && q.workers[w].Busy? && q.workers[w].job.id == p.t.nextId && q.workers[w].job.row.body == body
  {
    var announce, claim := [Begin(e, 0), Commit(e, body, priority), Notify(e)], [Resume(w), Arm(w), ReadClock(w), Look(w)];
    AfterConcat(p, announce, claim);
    AfterThree(p, Begin(e, 0), Commit(e, body, priority), Notify(e));
    EnqueueSteps(p, e, body, priority);
    var p3 := After(p, announce, true);
    assert p.t.nextId !in p.t.rows;
    hide After, Step;
    forall id ensures id in ReadyIds(p3.t.rows, p3.clock) <==> id == p.t.nextId {
      if id in p.t.rows { assert id !in ReadyIds(p.t.rows, p.clock); }
    }
    assert p.t.nextId in ReadyIds(p3.t.rows, p3.clock);
    ResumedWorkerClaims(p3, w);
  }

  // ---- The pool is a run of the queue ----

  /** The queue's history accounts for the pool's table, and for every handle a worker holds. */
  ghost predicate Follows(p: Pool, q: JobRuns.Queue) {
    q.t == p.t && forall w :: w in p.workers && p.workers[w].Busy? ==> p.workers[w].job in q.issued
  }

  lemma {:induction false} PermittedOneMore(q: JobRuns.Queue, ops: seq<Op>, op: Op)
    ensures JobRuns.AllPermitted(q, ops + [op])
            <==> JobRuns.AllPermitted(q, ops) && JobRuns.Permitted(JobRuns.After(q, ops), op)
    decreases |ops|
  {
    hide JobRuns.Step, JobRuns.Permitted;
    if ops == [] {
      assert [op][1..] == [];
    } else {
      assert (ops + [op])[1..] == ops[1..] + [op];
      PermittedOneMore(JobRuns.Step(q, ops[0]), ops[1..], op);
    }
  }

  /** What one step of the pool does to the table, if anything. */
  ghost function OpOf(p: Pool, act: Act): Option<Op> {
    match act
    case Commit(e, body, priority) =>
      if e in p.enqueuers && p.enqueuers[e].Stamped? then Some(Enqueue(body, priority, p.enqueuers[e].at)) else None
    case Look(w) =>
      if w in p.workers && p.workers[w].Looking? && Best(p.t.rows, p.workers[w].now).Some? then
        var id := Best(p.t.rows, p.workers[w].now).value;
        Some(Claim(id, p.t.rows[id].version))
      else None
    case Finish(w, outcome) =>
      if w in p.workers && p.workers[w].Busy? then
        var job := p.workers[w].job;
        match outcome
        case Done => Some(Complete(job, p.clock))
        case Retry(error) => Some(Fail(job, error, p.clock))
        case Dead(error) => Some(FailTerminal(job, error, p.clock))
        case Abandoned => None
      else None
    case _ => None
  }

  lemma StepFollows(p: Pool, act: Act, q: JobRuns.Queue)
    requires Follows(p, q)
    ensures match OpOf(p, act)
            case None => Follows(Step(p, act, true), q)
            case Some(op) => JobRuns.Permitted(q, op) && Follows(Step(p, act, true), JobRuns.Step(q, op))
  {}

  /** Whatever the pool does, its table is one that a permitted run of the queue leaves, and its handles were issued by it. */
  lemma {:induction false} PoolRunsTheQueue(p: Pool, acts: seq<Act>, before: seq<Op>) returns (ops: seq<Op>)
    requires JobRuns.AllPermitted(JobRuns.EMPTY, before) && Follows(p, JobRuns.After(JobRuns.EMPTY, before))
    ensures JobRuns.AllPermitted(JobRuns.EMPTY, ops) && Follows(After(p, acts, true), JobRuns.After(JobRuns.EMPTY, ops))
    decreases |acts|
  {
    ops := before;
    if acts != [] {
      hide Step, Follows, JobRuns.Step, JobRuns.Permitted, OpOf;
      StepFollows(p, acts[0], JobRuns.After(JobRuns.EMPTY, before));
      var p1 := Step(p, acts[0], true);
      match OpOf(p, acts[0]) {
        case None =>
        case Some(op) =>
          PermittedOneMore(JobRuns.EMPTY, before, op);
          JobRuns.AfterOneMore(JobRuns.EMPTY, before, op);
          ops := before + [op];
      }
      ops := PoolRunsTheQueue(p1, acts[1..], ops);
    }
  }

  /** So a worker's handle passes the version test exactly while its row is still the very claim it came from. */
  lemma PoolKeepsTheQueuesPromises(p: Pool, acts: seq<Act>, w: nat)
    requires Start(p)
    ensures var q := After(p, acts, true);
            w in q.workers && q.workers[w].Busy? ==>
              var job := q.workers[w].job;
              Matches(q.t, job) <==> job.id in q.t.rows && q.t.rows[job.id] == job.row
  {
    var ops := PoolRunsTheQueue(p, acts, []);
    var q := After(p, acts, true);
    if w in q.workers && q.workers[w].Busy? { JobRuns.HandleMatchesOnlyItsClaim(ops, q.workers[w].job); }
  }
}
