/**
 The wake protocol between enqueuers, which commit a job and then notify the waiting
 workers, and workers, which arm their subscription, claim, and park only when the claim
 came back empty. The steps of any number of both interleave freely; the clock only moves
 forward. A notification reaches the subscriptions armed at that moment and no others.
 */
module WakeProtocol {
  import opened Wrappers
  import opened JobTable
  import JobDrain

  /** `woken` is whether a notification has reached the subscription, `since` when it was armed. */
  datatype Worker =
    | Idle
    | Armed(woken: bool, since: int)
    | Looking(woken: bool, since: int, now: int)  // claim_next has read its clock
    | Missed(woken: bool, since: int)             // the claim came back empty
    | Parked(woken: bool, since: int)
    | Busy(job: Job)

  /** An enqueue fixes scheduled_at first, then commits the row, then notifies. */
  datatype Enqueuer = Stamped(at: int, immediate: bool) | Committed(id: nat)

  datatype Pool = Pool(
    t: Table,
    clock: int,
    workers: map<nat, Worker>,
    enqueuers: map<nat, Enqueuer>,
    immediate: set<nat>  // history: jobs enqueued without a delay
  )

  datatype Act =
    | Advance(seconds: nat)
    | Begin(e: nat, delay: nat)
    | Commit(e: nat, body: string, priority: int)
    | Notify(e: nat)
    | Arm(w: nat)
    | ReadClock(w: nat)
    | Look(w: nat)
    | Park(w: nat)
    | Resume(w: nat)  // woken, timed out, or backing off from a database error
    | Finish(w: nat, outcome: JobDrain.Outcome)

  function Woken(worker: Worker, armFirst: bool): Worker {
    match worker
    case Armed(_, since) => Armed(true, since)
    case Looking(_, since, now) => if armFirst then Looking(true, since, now) else worker
    case Missed(_, since) => if armFirst then Missed(true, since) else worker
    case Parked(_, since) => Parked(true, since)
    case _ => worker
  }

  function Set(p: Pool, w: nat, worker: Worker): Pool {
    p.(workers := p.workers[w := worker])
  }

  ghost function WorkerStep(p: Pool, act: Act, w: nat, armFirst: bool): Pool {
    if w !in p.workers then p else
    match (act, p.workers[w])
    case (Arm(_), Idle) => if armFirst then Set(p, w, Armed(false, p.clock)) else p
    case (ReadClock(_), Armed(woken, since)) => Set(p, w, Looking(woken, since, p.clock))
    case (ReadClock(_), Idle) => if armFirst then p else Set(p, w, Looking(false, p.clock, p.clock))
    case (Look(_), Looking(woken, since, now)) =>
      (match Best(p.t.rows, now)
       case None => Set(p, w, Missed(woken, since))
       case Some(id) =>
         var t := Apply(p.t, Claim(id, p.t.rows[id].version));
         Set(p.(t := t), w, Busy(Job(id, t.rows[id]))))
    case (Park(_), Missed(woken, since)) => Set(p, w, if armFirst then Parked(woken, since) else Parked(false, p.clock))
    case (Resume(_), Busy(_)) => p
    case (Resume(_), _) => Set(p, w, Idle)
    case (Finish(_, outcome), Busy(job)) => Set(p.(t := JobDrain.Finish(p.t, job, outcome, p.clock)), w, Idle)
    case _ => p
  }

  /** `armFirst` is the order of the source; without it a worker subscribes only when it parks. */
  ghost function Step(p: Pool, act: Act, armFirst: bool): Pool {
    match act
    case Advance(seconds) => p.(clock := p.clock + seconds)
    case Begin(e, delay) =>
      if e in p.enqueuers then p
      else p.(enqueuers := p.enqueuers[e := Stamped(p.clock + delay, delay == 0)])
    case Commit(e, body, priority) =>
      if e in p.enqueuers && p.enqueuers[e].Stamped? then
        p.(t := Apply(p.t, Enqueue(body, priority, p.enqueuers[e].at)),
           enqueuers := p.enqueuers[e := Committed(p.t.nextId)],
           immediate := if p.enqueuers[e].immediate then p.immediate + {p.t.nextId} else p.immediate)
      else p
    case Notify(e) =>
      if e in p.enqueuers && p.enqueuers[e].Committed? then
        p.(enqueuers := p.enqueuers - {e}, workers := map w | w in p.workers :: Woken(p.workers[w], armFirst))
      else p
    case _ => WorkerStep(p, act, act.w, armFirst)
  }

  ghost function After(p: Pool, acts: seq<Act>, armFirst: bool): Pool
    decreases |acts|
  {
    if acts == [] then p else After(Step(p, acts[0], armFirst), acts[1..], armFirst)
  }

  /** A job enqueued without delay that no worker has touched yet. */
  predicate Untouched(p: Pool, id: nat) {
    id in p.immediate && id in p.t.rows && p.t.rows[id].status == Pending && p.t.rows[id].version == 0
  }

  /** Some enqueuer has committed the job but not yet notified. */
  ghost predicate Unannounced(p: Pool, id: nat) {
    exists e :: e in p.enqueuers && p.enqueuers[e] == Committed(id)
  }

  predicate Unwoken(worker: Worker) {
    (worker.Armed? || worker.Looking? || worker.Missed? || worker.Parked?) && !worker.woken
  }

  ghost predicate TimesOk(p: Pool) {
    && (forall id :: id in p.t.rows ==> id < p.t.nextId && p.t.rows[id].version >= 0)
    && (forall id :: Untouched(p, id) ==> p.t.rows[id].scheduledAt <= p.clock)
    && (forall e :: e in p.enqueuers ==>
          match p.enqueuers[e]
          case Stamped(at, immediate) => immediate ==> at <= p.clock
          case Committed(id) => id < p.t.nextId)
    && (forall w :: w in p.workers && p.workers[w].Looking? ==> p.workers[w].since <= p.workers[w].now)
    && (forall id :: id in p.immediate ==> id < p.t.nextId)
    && (forall w :: w in p.workers && !p.workers[w].Idle? && !p.workers[w].Busy? ==> p.workers[w].since <= p.clock)
  }

  /**
   What an unwoken worker can rely on: every announced untouched job was there when it
   armed, and once its claim has come back empty there is none.
   */
  ghost predicate Reliable(p: Pool, w: nat)
    requires w in p.workers
  {
    Unwoken(p.workers[w]) ==>
      forall id :: Untouched(p, id) && !Unannounced(p, id) ==>
        !p.workers[w].Missed? && !p.workers[w].Parked? && p.t.rows[id].scheduledAt <= p.workers[w].since
  }

  ghost predicate Inv(p: Pool) {
    TimesOk(p) && forall w :: w in p.workers ==> Reliable(p, w)
  }

  /** A step that only takes untouched jobs away leaves every other worker's reliance intact. */
  ghost predicate Shrinks(p: Pool, p': Pool) {
    && p'.immediate == p.immediate && p'.enqueuers == p.enqueuers
    && forall id :: Untouched(p', id) ==> Untouched(p, id) && p'.t.rows[id] == p.t.rows[id]
  }

  lemma ShrinkKeepsReliable(p: Pool, p': Pool, w: nat)
    requires Shrinks(p, p') && w in p.workers && w in p'.workers && p'.workers[w] == p.workers[w]
    requires Reliable(p, w)
    ensures Reliable(p', w)
  {}

  lemma CommitKeepsInv(p: Pool, act: Act)
    requires Inv(p) && act.Commit? && act.e in p.enqueuers && p.enqueuers[act.e].Stamped?
    ensures Inv(Step(p, act, true))
  {
    var p' := Step(p, act, true);
    assert p'.enqueuers[act.e] == Committed(p.t.nextId);
    forall w | w in p'.workers ensures Reliable(p', w) {
      assert Reliable(p, w);
      forall id | Untouched(p', id) && !Unannounced(p', id) ensures Untouched(p, id) && !Unannounced(p, id) {
        assert id != p.t.nextId;
        forall e | e in p.enqueuers && p.enqueuers[e] == Committed(id) ensures e in p'.enqueuers && p'.enqueuers[e] == Committed(id) {}
      }
    }
  }

  lemma NotifyKeepsInv(p: Pool, act: Act)
    requires Inv(p) && act.Notify? && act.e in p.enqueuers && p.enqueuers[act.e].Committed?
    ensures Inv(Step(p, act, true))
  {
    var p' := Step(p, act, true);
    assert forall w :: w in p'.workers ==> !Unwoken(p'.workers[w]);
  }

  lemma LookKeepsInv(p: Pool, w: nat)
    requires Inv(p) && w in p.workers && p.workers[w].Looking?
    ensures Inv(Step(p, Look(w), true))
  {
    var p' := Step(p, Look(w), true);
    var now := p.workers[w].now;
    forall v | v in p'.workers && v != w ensures Reliable(p', v) {
      assert Reliable(p, v);
      ShrinkKeepsReliable(p, p', v);
    }
    if Unwoken(p'.workers[w]) {
      assert Reliable(p, w);
      forall id | Untouched(p', id) && !Unannounced(p', id) ensures id in ReadyIds(p.t.rows, now) {
        assert Untouched(p, id) && !Unannounced(p, id);
      }
      JobDrain.BestExists(p.t.rows, now);
    }
  }

  lemma FinishKeepsInv(p: Pool, w: nat, outcome: JobDrain.Outcome)
    requires Inv(p) && w in p.workers && p.workers[w].Busy?
    ensures Inv(Step(p, Finish(w, outcome), true))
  {
    var p' := Step(p, Finish(w, outcome), true);
    forall v | v in p'.workers ensures Reliable(p', v) {
      assert Reliable(p, v);
      if v != w { ShrinkKeepsReliable(p, p', v); }
    }
  }

  lemma BeginKeepsInv(p: Pool, act: Act)
    requires Inv(p) && act.Begin?
    ensures Inv(Step(p, act, true))
  {
    var p' := Step(p, act, true);
    forall w | w in p'.workers ensures Reliable(p', w) {
      assert Reliable(p, w);
      forall id | Untouched(p', id) && !Unannounced(p', id) ensures !Unannounced(p, id) {
        assert forall x :: x in p.enqueuers && p.enqueuers[x] == Committed(id) ==>
                             x in p'.enqueuers && p'.enqueuers[x] == Committed(id);
      }
    }
  }

  /** Steps that change nothing but the worker's own state. */
  lemma OwnStepKeepsInv(p: Pool, act: Act)
    requires Inv(p) && (act.Arm? || act.ReadClock? || act.Park? || act.Resume?) && act.w in p.workers
    ensures Inv(Step(p, act, true))
  {
    var p' := Step(p, act, true);
    assert p'.t == p.t && p'.enqueuers == p.enqueuers && p'.immediate == p.immediate && p'.clock == p.clock;
    assert forall id :: Untouched(p', id) == Untouched(p, id);
    assert forall id :: Unannounced(p', id) == Unannounced(p, id);
    assert TimesOk(p');
    hide Untouched, Unannounced, TimesOk;
    forall w | w in p'.workers ensures Reliable(p', w) { assert Reliable(p, w); }
  }

  lemma StepKeepsInv(p: Pool, act: Act)
    requires Inv(p)
    ensures Inv(Step(p, act, true))
  {
    var p' := Step(p, act, true);
    match act {
      case Commit(e, _, _) => if p' != p { CommitKeepsInv(p, act); }
      case Notify(e) => if p' != p { NotifyKeepsInv(p, act); }
      case Look(w) => if p' != p { LookKeepsInv(p, w); }
      case Finish(w, outcome) => if p' != p { FinishKeepsInv(p, w, outcome); }
      case Begin(_, _) => BeginKeepsInv(p, act);
      case Advance(_) => hide Untouched;
      case _ => if act.w in p.workers { OwnStepKeepsInv(p, act); }
    }
  }

  lemma {:induction false} RunKeepsInv(p: Pool, acts: seq<Act>)
    requires Inv(p)
    ensures Inv(After(p, acts, true))
    decreases |acts|
  {
    if acts != [] {
      StepKeepsInv(p, acts[0]);
      RunKeepsInv(Step(p, acts[0], true), acts[1..]);
    }
  }

  predicate Start(p: Pool) {
    p.t == Table(map[], 1) && p.enqueuers == map[] && p.immediate == {} && forall w :: w in p.workers ==> p.workers[w] == Idle
  }

  /**
   No lost wakeup: in every interleaving, while a worker is parked and unwoken, any
   untouched job that was enqueued to run at once is one whose own enqueuer has committed
   it and has still to notify.
   */
  lemma NoLostWakeup(p: Pool, acts: seq<Act>, w: nat, id: nat)
    requires Start(p)
    ensures var q := After(p, acts, true);
            w in q.workers && q.workers[w].Parked? && !q.workers[w].woken && Untouched(q, id) ==> Unannounced(q, id)
  {
    RunKeepsInv(p, acts);
    var q := After(p, acts, true);
    if w in q.workers { assert Reliable(q, w); }
  }

  /** A worker parked and unwoken although a ready job was enqueued and its enqueuer has already notified. */
  ghost predicate LosesWakeup(p: Pool, w: nat, id: nat) {
    && w in p.workers && p.workers[w].Parked? && !p.workers[w].woken
    && Untouched(p, id) && Ready(p.t.rows[id], p.clock) && !Unannounced(p, id)
  }

  lemma EarlyLook(p: Pool, q: Pool)
    requires p == Pool(Table(map[], 1), 0, map[0 := Idle], map[], {})
    requires q == p.(workers := map[0 := Missed(false, 0)])
    ensures Step(Step(p, ReadClock(0), false), Look(0), false) == q
  {}

  lemma LatePark(p: Pool)
    requires p == Pool(Table(map[1 := NewRow("job", 0, 0)], 2), 0, map[0 := Missed(false, 0)], map[], {1})
    ensures LosesWakeup(Step(p, Park(0), false), 0, 1)
  {}

  lemma LateEnqueue(p: Pool, q: Pool)
    requires p == Pool(Table(map[], 1), 0, map[0 := Missed(false, 0)], map[], {})
    requires q == p.(t := Table(map[1 := NewRow("job", 0, 0)], 2), immediate := {1})
    ensures Step(Step(Step(p, Begin(0, 0), false), Commit(0, "job", 0), false), Notify(0), false) == q
  {}

  lemma AfterCons(p: Pool, a: Act, rest: seq<Act>, armFirst: bool)
    ensures After(p, [a] + rest, armFirst) == After(Step(p, a, armFirst), rest, armFirst)
  {}

  lemma AfterSix(p: Pool, a: Act, b: Act, c: Act, d: Act, e: Act, f: Act)
    ensures After(p, [a, b, c, d, e, f], false)
            == Step(Step(Step(Step(Step(Step(p, a, false), b, false), c, false), d, false), e, false), f, false)
  {
    hide Step;
    var p1 := Step(p, a, false);
    var p2 := Step(p1, b, false);
    var p3 := Step(p2, c, false);
    var p4 := Step(p3, d, false);
    var p5 := Step(p4, e, false);
    assert After(Step(p5, f, false), [], false) == Step(p5, f, false);
    hide After;
    assert [a, b, c, d, e, f] == [a] + ([b] + ([c] + ([d] + ([e] + ([f] + [])))));
    AfterCons(p, a, [b] + ([c] + ([d] + ([e] + ([f] + [])))), false);
    AfterCons(p1, b, [c] + ([d] + ([e] + ([f] + []))), false);
    AfterCons(p2, c, [d] + ([e] + ([f] + [])), false);
    AfterCons(p3, d, [e] + ([f] + []), false);
    AfterCons(p4, e, [f] + [], false);
    AfterCons(p5, f, [], false);
  }

  /** Subscribing only when parking loses a wakeup: the notification falls between the claim and the subscription. */
  lemma ArmingLateLosesAWakeup()
    ensures exists p, acts :: Start(p) && LosesWakeup(After(p, acts, false), 0, 1)
  {
    hide Step, After, LosesWakeup;
    var p0 := Pool(Table(map[], 1), 0, map[0 := Idle], map[], {});
    var p2 := p0.(workers := map[0 := Missed(false, 0)]);
    var p5 := p2.(t := Table(map[1 := NewRow("job", 0, 0)], 2), immediate := {1});
    EarlyLook(p0, p2);
    LateEnqueue(p2, p5);
    AfterSix(p0, ReadClock(0), Look(0), Begin(0, 0), Commit(0, "job", 0), Notify(0), Park(0));
    LatePark(p5);
    assert Start(p0);
  }
}
