/**
 What every interleaving of workers keeps: claims, finishes, restarts and cleanups in any
 order, where a worker finishes jobs only with handles it was once given, but may do so
 late, twice, or never.
 */
module JobRuns {
  import opened Wrappers
  import opened JobTable

  datatype Queue = Queue(
    t: Table,
    // History:
    issued: set<Job>,       // every handle a claim has returned
    wins: multiset<Job>,    // handles, by how often a finish with them took effect
    claims: map<nat, nat>,  // claims per job
    resets: map<nat, nat>   // startup resets that hit the job while it was running
  )

  function Count(m: map<nat, nat>, id: nat): nat {
    if id in m then m[id] else 0
  }

  function Held(op: Op): Option<Job> {
    match op
    case Complete(job, _) => Some(job)
    case Fail(job, _, _) => Some(job)
    case FailTerminal(job, _, _) => Some(job)
    case _ => None
  }

  /** A finish uses a handle some claim has returned; everything else may happen at any time. */
  predicate Permitted(q: Queue, op: Op) {
    Held(op).Some? ==> Held(op).value in q.issued
  }

  function Step(q: Queue, op: Op): Queue {
    var t := Apply(q.t, op);
    if !Affects(q.t, op) then q
    else if op.Claim? then
      q.(t := t, issued := q.issued + {Job(op.id, t.rows[op.id])}, claims := q.claims[op.id := Count(q.claims, op.id) + 1])
    else if op.Reset? then
      q.(t := t, resets := map id | id in q.t.rows.Keys + q.resets.Keys ::
           Count(q.resets, id) + if id in q.t.rows && q.t.rows[id].status == Running then 1 else 0)
    else if Held(op).Some? then q.(t := t, wins := q.wins + multiset{Held(op).value})
    else q.(t := t)
  }

  function After(q: Queue, ops: seq<Op>): Queue
    decreases |ops|
  {
    if ops == [] then q else After(Step(q, ops[0]), ops[1..])
  }

  predicate AllPermitted(q: Queue, ops: seq<Op>)
    decreases |ops|
  {
    ops != [] ==> Permitted(q, ops[0]) && AllPermitted(Step(q, ops[0]), ops[1..])
  }

  const EMPTY := Queue(Table(map[], 1), {}, multiset{}, map[], map[])

  // ---- The invariant ----

  predicate RowOk(q: Queue, id: nat)
    requires id in q.t.rows
  {
    var row := q.t.rows[id];
    && id < q.t.nextId
    && row.attempt == Count(q.claims, id)
    && row.maxAttempts == MAX_ATTEMPTS
    && row.attempt <= MAX_ATTEMPTS + Count(q.resets, id)
    && (row.status == Pending ==> row.attempt < MAX_ATTEMPTS + Count(q.resets, id))
    && (row.status == Running ==> Job(id, row) in q.issued)
    && (row.status in {Completed, Failed} <==> row.completedAt.Some?)
  }

  predicate HandleOk(q: Queue, h: Job) {
    && h.row.status == Running
    && 1 <= h.row.attempt <= Count(q.claims, h.id)
    && h.row.maxAttempts == MAX_ATTEMPTS
    && h.id < q.t.nextId
    && q.wins[h] <= 1
    && (h.id in q.t.rows ==>
          && h.row.version <= q.t.rows[h.id].version
          && (h.row.version == q.t.rows[h.id].version ==> q.t.rows[h.id] == h.row && q.wins[h] == 0))
  }

  /** Handles of one job are told apart by their versions, and by their attempts. */
  predicate Apart(g: Job, h: Job) {
    g.id == h.id && g != h ==> (g.row.version < h.row.version <==> g.row.attempt < h.row.attempt) && g.row.attempt != h.row.attempt
  }

  ghost predicate Inv(q: Queue) {
    && (forall id :: id in q.t.rows ==> RowOk(q, id))
    && (forall h :: h in q.issued ==> HandleOk(q, h))
    && (forall g, h :: g in q.issued && h in q.issued ==> Apart(g, h))
    && (forall h :: h in q.wins ==> h in q.issued)
    && (forall id :: id in q.claims ==> id < q.t.nextId)
  }

  lemma ClaimKeepsInv(q: Queue, op: Op)
    requires Inv(q) && op.Claim? && Affects(q.t, op)
    ensures Inv(Step(q, op))
  {
    var q' := Step(q, op);
    var new_ := Job(op.id, q'.t.rows[op.id]);
    assert RowOk(q, op.id);
    forall h | h in q.issued ensures h != new_ { assert HandleOk(q, h); }
    forall id | id in q'.t.rows ensures RowOk(q', id) { assert RowOk(q, id); }
    forall h | h in q'.issued ensures HandleOk(q', h) {
      if h in q.issued { assert HandleOk(q, h); }
    }
    forall g, h | g in q'.issued && h in q'.issued ensures Apart(g, h) {
      if g in q.issued { assert HandleOk(q, g); }
      if h in q.issued { assert HandleOk(q, h); }
    }
  }

  lemma FinishKeepsInv(q: Queue, op: Op)
    requires Inv(q) && Permitted(q, op) && Held(op).Some? && Affects(q.t, op)
    ensures Inv(Step(q, op))
  {
    var q' := Step(q, op);
    var held := Held(op).value;
    assert HandleOk(q, held) && RowOk(q, held.id);
    forall id | id in q'.t.rows ensures RowOk(q', id) { assert RowOk(q, id); }
    forall h | h in q'.issued ensures HandleOk(q', h) {
      assert HandleOk(q, h);
      if h.id == held.id && h != held { assert Apart(h, held); }
    }
  }

  lemma ResetKeepsInv(q: Queue)
    requires Inv(q)
    ensures Inv(Step(q, Reset))
  {
    var q' := Step(q, Reset);
    forall id | id in q'.t.rows ensures RowOk(q', id) { assert RowOk(q, id); }
    forall h | h in q'.issued ensures HandleOk(q', h) { assert HandleOk(q, h); }
  }

  /** Every step of every worker, restart and cleanup keeps the invariant. */
  lemma StepKeepsInv(q: Queue, op: Op)
    requires Inv(q) && Permitted(q, op)
    ensures Inv(Step(q, op))
  {
    if !Affects(q.t, op) { return; }
    if op.Claim? {
      ClaimKeepsInv(q, op);
    } else if Held(op).Some? {
      FinishKeepsInv(q, op);
    } else if op.Reset? {
      ResetKeepsInv(q);
    } else {
      var q' := Step(q, op);
      forall id | id in q'.t.rows ensures RowOk(q', id) { assert id in q.t.rows ==> RowOk(q, id); }
      forall h | h in q'.issued ensures HandleOk(q', h) { assert HandleOk(q, h); }
    }
  }

  lemma {:induction false} RunKeepsInv(q: Queue, ops: seq<Op>)
    requires Inv(q) && AllPermitted(q, ops)
    ensures Inv(After(q, ops))
    decreases |ops|
  {
    if ops != [] {
      StepKeepsInv(q, ops[0]);
      RunKeepsInv(Step(q, ops[0]), ops[1..]);
    }
  }

  // ---- The promises ----

  /**
   After any run, a handle passes the optimistic lock exactly while its job is still the
   very claim it came from: the same row, Running, at the same attempt.
   */
  lemma HandleMatchesOnlyItsClaim(ops: seq<Op>, h: Job)
    requires AllPermitted(EMPTY, ops) && h in After(EMPTY, ops).issued
    ensures var t := After(EMPTY, ops).t;
            Matches(t, h) <==> h.id in t.rows && t.rows[h.id] == h.row
    ensures h.row.status == Running
  {
    RunKeepsInv(EMPTY, ops);
    assert HandleOk(After(EMPTY, ops), h);
  }

  /** Each claim of a job has its own handle, and at most one finish with it ever takes effect. */
  lemma OneFinishPerClaim(ops: seq<Op>, g: Job, h: Job)
    requires AllPermitted(EMPTY, ops)
    requires g in After(EMPTY, ops).issued && h in After(EMPTY, ops).issued && g.id == h.id
    ensures After(EMPTY, ops).wins[h] <= 1
    ensures After(EMPTY, ops).wins[h] == 1 ==> !Matches(After(EMPTY, ops).t, h)
    ensures g.row.attempt == h.row.attempt <==> g == h
    ensures g.row.attempt < h.row.attempt ==> !Matches(After(EMPTY, ops).t, g)
  {
    RunKeepsInv(EMPTY, ops);
    var q := After(EMPTY, ops);
    assert HandleOk(q, g) && HandleOk(q, h) && Apart(g, h);
  }

  lemma VersionsOnlyGrow(q: Queue, op: Op, id: nat)
    requires id < q.t.nextId && id in Step(q, op).t.rows
    ensures id in q.t.rows && q.t.rows[id].version <= Step(q, op).t.rows[id].version
  {}

  /** A handle that no longer matches never matches again, so whatever is done with it changes nothing. */
  lemma {:induction false} StaleHandlesStayStale(q: Queue, ops: seq<Op>, h: Job, op: Op)
    requires Inv(q) && AllPermitted(q, ops) && h in q.issued && !Matches(q.t, h)
    requires Held(op) == Some(h)
    ensures !Matches(After(q, ops).t, h) && Apply(After(q, ops).t, op) == After(q, ops).t
    decreases |ops|
  {
    if ops != [] {
      var q' := Step(q, ops[0]);
      StepKeepsInv(q, ops[0]);
      assert HandleOk(q, h);
      assert h in q'.issued;
      hide Step, Apply, Inv;
      if h.id in q'.t.rows { VersionsOnlyGrow(q, ops[0], h.id); }
      StaleHandlesStayStale(q', ops[1..], h, op);
    }
  }

  lemma TerminalRowStep(q: Queue, op: Op, id: nat)
    requires Inv(q) && Permitted(q, op)
    requires id in q.t.rows && q.t.rows[id].status in {Completed, Failed}
    ensures var t := Step(q, op).t;
            if id in t.rows then t.rows[id] == q.t.rows[id] else op.DeleteOld? && Old(q.t.rows[id], op.cutoff)
  {
    if Held(op).Some? {
      assert HandleOk(q, Held(op).value);
    }
    assert RowOk(q, id);
  }

  lemma KnownStaysKnown(q: Queue, op: Op, id: nat)
    requires Inv(q) && id in q.t.rows
    ensures id < Step(q, op).t.nextId
  {}

  lemma {:induction false} GoneStaysGone(q: Queue, ops: seq<Op>, id: nat)
    requires id !in q.t.rows && id < q.t.nextId
    ensures id !in After(q, ops).t.rows
    decreases |ops|
  {
    if ops != [] { GoneStaysGone(Step(q, ops[0]), ops[1..], id); }
  }

  /** A row that is Completed or Failed stays as it is until the cleanup deletes it. */
  lemma {:induction false} TerminalRowsNeverChange(q: Queue, ops: seq<Op>, id: nat)
    requires Inv(q) && AllPermitted(q, ops)
    requires id in q.t.rows && q.t.rows[id].status in {Completed, Failed}
    ensures id in After(q, ops).t.rows ==> After(q, ops).t.rows[id] == q.t.rows[id]
    ensures id !in After(q, ops).t.rows ==>
              exists cutoff :: DeleteOld(cutoff) in ops && Old(q.t.rows[id], cutoff)
    decreases |ops|
  {
    if ops == [] { return; }
    hide Step, Inv, Old;
    var q' := Step(q, ops[0]);
    StepKeepsInv(q, ops[0]);
    TerminalRowStep(q, ops[0], id);
    KnownStaysKnown(q, ops[0], id);
    if id in q'.t.rows {
      TerminalRowsNeverChange(q', ops[1..], id);
    } else {
      assert ops[0] == DeleteOld(ops[0].cutoff);
      GoneStaysGone(q', ops[1..], id);
    }
  }

  lemma {:induction false} DeletedStaysDeleted(t: Table, ops: seq<Op>, id: nat)
    requires id !in t.rows && id < t.nextId
    ensures id !in ApplyAll(t, ops).rows
    decreases |ops|
  {
    if ops != [] { DeletedStaysDeleted(Apply(t, ops[0]), ops[1..], id); }
  }

  /** What a job is for and how urgent it is never changes; only its state, attempts, schedule and error do. */
  lemma {:induction false} PayloadNeverChanges(t: Table, ops: seq<Op>, id: nat)
    requires id in t.rows && (forall i :: i in t.rows ==> i < t.nextId)
    ensures var t' := ApplyAll(t, ops);
            id in t'.rows ==>
              && t'.rows[id].body == t.rows[id].body && t'.rows[id].priority == t.rows[id].priority
              && t'.rows[id].maxAttempts == t.rows[id].maxAttempts
    decreases |ops|
  {
    if ops != [] {
      var t1 := Apply(t, ops[0]);
      if id in t1.rows {
        PayloadNeverChanges(t1, ops[1..], id);
      } else {
        DeletedStaysDeleted(t1, ops[1..], id);
      }
    }
  }

  /**
   Retries are accounted for: after any run a job's attempt is the number of its claims,
   and exceeds the maximum by at most the number of restarts that caught it running.
   */
  lemma AttemptsAreCounted(ops: seq<Op>, id: nat)
    requires AllPermitted(EMPTY, ops) && id in After(EMPTY, ops).t.rows
    ensures var q := After(EMPTY, ops);
            && q.t.rows[id].attempt == Count(q.claims, id)
            && q.t.rows[id].attempt <= q.t.rows[id].maxAttempts + Count(q.resets, id)
  {
    RunKeepsInv(EMPTY, ops);
    assert RowOk(After(EMPTY, ops), id);
  }

  // ---- What a row says ----

  /** The statement inserts or updates the row. */
  predicate Touches(t: Table, op: Op, id: nat) {
    match op
    case Enqueue(_, _, _) => id == t.nextId
    case Claim(i, version) => i == id && id in t.rows && t.rows[id].version == version && t.rows[id].status == Pending
    case Complete(job, _) => job.id == id && id in t.rows && t.rows[id].version == job.row.version
    case Fail(job, _, _) => job.id == id && id in t.rows && t.rows[id].version == job.row.version
    case FailTerminal(job, _, _) => job.id == id && id in t.rows && t.rows[id].version == job.row.version
    case Reset => id in t.rows && t.rows[id].status == Running
    case DeleteOld(_) => false
  }

  /** The last statement of the run that touched the row. */
  function LastOn(ops: seq<Op>, id: nat): Option<Op>
    decreases |ops|
  {
    if ops == [] then None
    else
      var n := |ops| - 1;
      if Touches(After(EMPTY, ops[..n]).t, ops[n], id) then Some(ops[n]) else LastOn(ops[..n], id)
  }

  /** What a row looks like after the last statement that touched it. */
  predicate Tells(row: Row, op: Op) {
    match op
    case Enqueue(body, priority, at) => row == Row(Pending, body, priority, 0, 3, 0, at, None, None)
    case Claim(_, _) => row.status == Running
    case Complete(_, now) => row.status == Completed && row.completedAt == Some(now)
    case Fail(job, error, now) =>
      && row.error == Some(error)
      && if job.row.attempt < job.row.maxAttempts
         then row.status == Pending && row.scheduledAt == now + BackoffSeconds(job.row.attempt)
         else row.status == Failed && row.completedAt == Some(now)
    case FailTerminal(_, error, now) => row.status == Failed && row.completedAt == Some(now) && row.error == Some(error)
    case Reset => row.status == Pending
    case DeleteOld(_) => false
  }

  lemma {:induction false} AfterOneMore(q: Queue, ops: seq<Op>, op: Op)
    ensures After(q, ops + [op]) == Step(After(q, ops), op)
    decreases |ops|
  {
    if ops == [] {
      assert [op][1..] == [];
    } else {
      assert (ops + [op])[1..] == ops[1..] + [op];
      AfterOneMore(Step(q, ops[0]), ops[1..], op);
    }
  }

  predicate IdsKnown(t: Table) { forall i :: i in t.rows ==> i < t.nextId }

  lemma OneStepTells(q: Queue, op: Op, id: nat)
    requires IdsKnown(q.t)
    ensures IdsKnown(Step(q, op).t)
    ensures id in Step(q, op).t.rows ==>
              if Touches(q.t, op, id) then Tells(Step(q, op).t.rows[id], op)
              else id in q.t.rows && Step(q, op).t.rows[id] == q.t.rows[id]
  {}

  lemma LastOneMore(ops: seq<Op>, op: Op, id: nat)
    ensures LastOn(ops + [op], id) == if Touches(After(EMPTY, ops).t, op, id) then Some(op) else LastOn(ops, id)
  {
    assert (ops + [op])[..|ops|] == ops;
  }

  lemma {:induction false} RowsTell(ops: seq<Op>, id: nat)
    ensures IdsKnown(After(EMPTY, ops).t)
    ensures id in After(EMPTY, ops).t.rows ==>
              LastOn(ops, id).Some? && Tells(After(EMPTY, ops).t.rows[id], LastOn(ops, id).value)
    decreases |ops|
  {
    if ops != [] {
      var n := |ops| - 1;
      RowsTell(ops[..n], id);
      assert ops == ops[..n] + [ops[n]];
      AfterOneMore(EMPTY, ops[..n], ops[n]);
      LastOneMore(ops[..n], ops[n], id);
      OneStepTells(After(EMPTY, ops[..n]), ops[n], id);
    }
  }

  /**
   After any run every row stands as the last statement that touched it left it. In particular
   a job is Completed exactly when that was a `complete`, Running exactly when it was a claim,
   and Failed exactly when it was a failure with no attempt left, or a terminal one.
   */
  lemma RowsTellTheLastStatement(ops: seq<Op>, id: nat)
    requires id in After(EMPTY, ops).t.rows
    ensures var row, last := After(EMPTY, ops).t.rows[id], LastOn(ops, id);
            && last.Some? && Tells(row, last.value)
            && (row.status == Completed <==> last.value.Complete?)
            && (row.status == Running <==> last.value.Claim?)
            && (row.status == Failed <==>
                  || last.value.FailTerminal?
                  || (last.value.Fail? && last.value.job.row.attempt >= last.value.job.row.maxAttempts))
  {
    hide After, LastOn;
    RowsTell(ops, id);
  }

  // ---- Backoff ----

  lemma {:induction false} ShiftGrows(n: nat, m: nat)
    requires n <= m
    ensures 1 <= Shift(n) <= Shift(m)
    decreases m
  {
    if n < m {
      ShiftGrows(n, m - 1);
    } else if n > 0 {
      ShiftGrows(n - 1, m - 1);
    }
  }

  /** The backoff doubles with each attempt up to the twentieth and then stays; in 64 bits it never overflows. */
  lemma BackoffNeverOverflows(attempt: int)
    ensures 30 <= BackoffSeconds(attempt) <= BackoffSeconds(20) == 31_457_280 < 0x8000_0000_0000_0000
    ensures 1 <= attempt <= 20 ==> BackoffSeconds(attempt) == 2 * BackoffSeconds(attempt - 1)
    ensures attempt >= 20 ==> BackoffSeconds(attempt) == BackoffSeconds(20)
  {
    ShiftGrows(if attempt < 0 then 0 else if attempt < 20 then attempt else 20, 20);
    assert Shift(10) == 1024;
    assert Shift(15) == 32 * Shift(10);
    assert Shift(20) == 32 * Shift(15);
  }

  /** A failed job with attempts left is Pending again, one minute later the first time and two the second. */
  lemma RetryDelay(ops: seq<Op>, h: Job, error: string, now: int)
    requires AllPermitted(EMPTY, ops) && h in After(EMPTY, ops).issued
    requires Matches(After(EMPTY, ops).t, h) && h.row.attempt < h.row.maxAttempts
    ensures var row := Apply(After(EMPTY, ops).t, Fail(h, error, now)).rows[h.id];
            && row.status == Pending && row.attempt == h.row.attempt
            && row.scheduledAt == now + if row.attempt == 1 then 60 else 120
  {
    RunKeepsInv(EMPTY, ops);
    var q := After(EMPTY, ops);
    assert HandleOk(q, h);
    hide After, Inv, HandleOk;
    assert Apply(q.t, Fail(h, error, now)).rows[h.id] == RetriedRow(h.row, h.row, error, now);
    assert Shift(1) == 2 && Shift(2) == 4;
  }

  // ---- claim_next ----

  /**
   A claim of `job` that turns `t` into `t'`: first of the ready rows after `before`, still
   pending under its version after `between`.
   */
  ghost predicate IsClaim(t: Table, now: int, job: Job, before: seq<Op>, between: seq<Op>, t': Table) {
    var seen := ApplyAll(t, before);
    var claim := Claim(job.id, job.row.version - 1);
    && IsBest(seen.rows, now, job.id) && seen.rows[job.id].version == job.row.version - 1
    && Affects(ApplyAll(seen, between), claim)
    && t' == Apply(ApplyAll(seen, between), claim)
    && t'.rows[job.id] == job.row && job.row.status == Running
  }

  lemma {:induction false} ApplyAllAppend(t: Table, a: seq<Op>, b: seq<Op>)
    ensures ApplyAll(t, a + b) == ApplyAll(ApplyAll(t, a), b)
    decreases |a|
  {
    if a == [] {
      assert a + b == b;
    } else {
      assert (a + b)[1..] == a[1..] + b;
      ApplyAllAppend(Apply(t, a[0]), a[1..], b);
    }
  }

  /**
   `claim_next` is one claim among other workers' statements, of a row that was the best
   ready one when it was selected; or it is nothing but others' statements.
   */
  lemma {:induction false} ClaimNextIsOneClaim(t: Table, now: int, races: Races, tries: nat)
    ensures var (t', job) := ClaimNext(t, now, races, tries);
            if job.Some? then exists before, between :: IsClaim(t, now, job.value, before, between, t')
            else exists others :: t' == ApplyAll(t, others)
    decreases tries
  {
    var (t', job) := ClaimNext(t, now, races, tries);
    if tries == 0 || Best(t.rows, now).None? {
      assert t' == ApplyAll(t, []);
      return;
    }
    var id := Best(t.rows, now).value;
    var claim := Claim(id, t.rows[id].version);
    var t1 := ApplyAll(t, Race(races));
    if Affects(t1, claim) {
      assert ApplyAll(t, []) == t;
      assert IsClaim(t, now, job.value, [], Race(races), t');
      return;
    }
    ClaimNextIsOneClaim(t1, now, LaterRaces(races), tries - 1);
    hide Affects, IsBest, Apply;
    if job.Some? {
      var before, between :| IsClaim(t1, now, job.value, before, between, t');
      ApplyAllAppend(t, Race(races), before);
      assert IsClaim(t, now, job.value, Race(races) + before, between, t');
    } else {
      var others: seq<Op> :| t' == ApplyAll(t1, others);
      ApplyAllAppend(t, Race(races), others);
    }
  }

  /** The others' statements during the first `k` tries. */
  function RacedBy(t: Table, races: Races, k: nat): Table
    decreases k
  {
    if k == 0 then t else RacedBy(ApplyAll(t, Race(races)), LaterRaces(races), k - 1)
  }

  function RaceAt(races: Races, i: nat): seq<Op> { if i < |races| then races[i] else [] }

  /** A try selects a row, and the others claim or change it before the update. */
  ghost predicate LosesRace(t: Table, now: int, others: seq<Op>) {
    exists id :: IsBest(t.rows, now, id) &&
      var t1 := ApplyAll(t, others);
      id !in t1.rows || t1.rows[id].version != t.rows[id].version || t1.rows[id].status != Pending
  }

  /** The first `k` tries lose their races, and then there are no tries or no ready jobs left. */
  ghost predicate GivesUp(t: Table, now: int, races: Races, tries: nat, k: nat) {
    && k <= tries
    && (forall i: nat :: i < k ==> LosesRace(RacedBy(t, races, i), now, RaceAt(races, i)))
    && (k == tries || Best(RacedBy(t, races, k).rows, now).None?)
  }

  lemma GivesUpOneLater(t: Table, now: int, races: Races, tries: nat, k: nat)
    requires LosesRace(t, now, Race(races)) && GivesUp(ApplyAll(t, Race(races)), now, LaterRaces(races), tries, k)
    ensures GivesUp(t, now, races, tries + 1, k + 1)
  {
    var t1, later := ApplyAll(t, Race(races)), LaterRaces(races);
    hide LosesRace, ApplyAll, Best;
    forall i: nat | i < k + 1 ensures LosesRace(RacedBy(t, races, i), now, RaceAt(races, i)) {
      if i == 0 {
        assert RaceAt(races, 0) == Race(races);
      } else {
        assert RacedBy(t, races, i) == RacedBy(t1, later, i - 1) && RaceAt(races, i) == RaceAt(later, i - 1);
      }
    }
    assert RacedBy(t, races, k + 1) == RacedBy(t1, later, k);
  }

  /** `claim_next` gives up when a try finds nothing ready, or when it has lost all its races; the source tries five times. */
  lemma {:induction false} GivesUpOnlyAfterLosing(t: Table, now: int, races: Races, tries: nat)
    ensures ClaimNext(t, now, races, tries).1.None? ==> exists k: nat :: GivesUp(t, now, races, tries, k)
    decreases tries
  {
    if tries == 0 || Best(t.rows, now).None? {
      assert RacedBy(t, races, 0) == t;
      assert GivesUp(t, now, races, tries, 0);
    } else if ClaimNext(t, now, races, tries).1.None? {
      assert LosesRace(t, now, Race(races)) by { assert IsBest(t.rows, now, Best(t.rows, now).value); }
      hide LosesRace, GivesUp, Best, IsBest;
      GivesUpOnlyAfterLosing(ApplyAll(t, Race(races)), now, LaterRaces(races), tries - 1);
      var k: nat :| GivesUp(ApplyAll(t, Race(races)), now, LaterRaces(races), tries - 1, k);
      GivesUpOneLater(t, now, races, tries - 1, k);
    }
  }
}
