/**
 Delivery comes to an end: over a whole run, however it interleaves, the workers
 take only so many steps for one job. Every claim pays for the steps of one
 attempt, and every step uses up a part of what its worker has left.
 */
module BroadcastTermination {
  import opened Recipients
  import opened Delivery
  import opened BroadcastSystem
  import opened BroadcastGuarantees
  import SlotLimiter

  /** The steps that an attempt takes at most, for n recipients. */
  function PerAttempt(n: nat): nat {
    3 * n + 7
  }

  /** What so many attempts take at most. */
  function Cost(attempts: nat, n: nat): nat {
    if attempts == 0 then 0 else Cost(attempts - 1, n) + PerAttempt(n)
  }

  lemma {:induction false} CostIsProduct(attempts: nat, n: nat)
    ensures Cost(attempts, n) == attempts * PerAttempt(n)
    decreases attempts
  {
    if attempts > 0 {
      CostIsProduct(attempts - 1, n);
      assert attempts * PerAttempt(n) == (attempts - 1) * PerAttempt(n) + PerAttempt(n);
    }
  }

  lemma {:induction false} CostGrows(a: nat, b: nat, n: nat)
    requires a <= b
    ensures Cost(a, n) <= Cost(b, n)
    decreases b
  {
    if a < b {
      CostGrows(a, b - 1, n);
    }
  }

  /** The steps that a worker has left at most, when its job has n recipients. */
  function Left(pc: Pc, n: nat): nat {
    match pc
    case Idle => 0
    case Failing(_, _) => 1
    case Marking(_, _) => 1
    case Summing(_) => 2
    case Walk(_, todo) => 3 * |todo| + 3
    case Record(_, _, _, todo) => 3 * |todo| + 4
    case Send(_, _, todo) => 3 * |todo| + 5
    case Reload(_) => 3 * n + 4
    case Seeding(_, _) => 3 * n + 5
    case Start(_) => 3 * n + 6
    case Slot(_) => PerAttempt(n)
  }

  lemma PendingFits(order: seq<Phone>, rows: map<Phone, Row>)
    requires Distinct(order) && forall p <- order :: p in rows
    ensures |PendingItems(order, rows)| <= |order| <= |rows|
  {
    PendingNoLonger(order, rows);
    var listed := set p | p in order;
    DistinctSize(order);
    SubsetSize(listed, rows.Keys);
  }

  lemma {:induction false} PendingNoLonger(order: seq<Phone>, rows: map<Phone, Row>)
    requires forall p <- order :: p in rows
    ensures |PendingItems(order, rows)| <= |order|
    decreases |order|
  {
    if order != [] {
      PendingNoLonger(order[1..], rows);
    }
  }

  lemma {:induction false} DistinctSize(order: seq<Phone>)
    requires Distinct(order)
    ensures |set p | p in order| == |order|
    decreases |order|
  {
    if order != [] {
      var n := |order| - 1;
      DistinctSize(order[..n]);
      assert (set p | p in order) == (set p | p in order[..n]) + {order[n]};
      assert order[n] !in order[..n];
    }
  }

  /** Each step of a worker uses up a part of what it had left. */
  lemma StepUses(pc: Pc, e: Entry, a: WorkerAction, n: nat)
    requires WorkerStep(pc, e, a).Some? && |e.rows| <= n
    ensures var next := WorkerStep(pc, e, a).value.pc;
      Left(next, n) < Left(pc, n) && (next.Idle? || next.job == pc.job)
  {
    match pc
    case Start(job) => StartUses(job, e, a, n);
    case Reload(job) => ReloadUses(job, e, a, n);
    case Walk(_, _) => LoopUses(pc, e, a, n);
    case Send(_, _, _) => LoopUses(pc, e, a, n);
    case Record(_, _, _, _) => LoopUses(pc, e, a, n);
    case _ => OtherUses(pc, e, a, n);
  }

  lemma OtherUses(pc: Pc, e: Entry, a: WorkerAction, n: nat)
    requires WorkerStep(pc, e, a).Some? && (pc.Slot? || pc.Seeding? || pc.Summing? || pc.Marking? || pc.Failing?)
    ensures var next := WorkerStep(pc, e, a).value.pc; Left(next, n) < Left(pc, n) && (next.Idle? || next.job == pc.job)
  {
  }

  lemma StartUses(job: Job, e: Entry, a: WorkerAction, n: nat)
    requires StartStep(job, e, a).Some? && |e.rows| <= n
    ensures var next := StartStep(job, e, a).value.pc;
      Left(next, n) < Left(Start(job), n) && !next.Idle? && next.job == job
  {
    if a.Load? {
      PendingFits(a.order, e.rows);
    }
  }

  lemma ReloadUses(job: Job, e: Entry, a: WorkerAction, n: nat)
    requires ReloadStep(job, e, a).Some? && |e.rows| <= n
    ensures var next := ReloadStep(job, e, a).value.pc;
      Left(next, n) < Left(Reload(job), n) && !next.Idle? && next.job == job
  {
    if a.LoadAgain? {
      PendingFits(a.order, e.rows);
    }
  }

  lemma LoopUses(pc: Pc, e: Entry, a: WorkerAction, n: nat)
    requires WorkerStep(pc, e, a).Some? && (pc.Walk? || pc.Send? || pc.Record?)
    ensures var next := WorkerStep(pc, e, a).value.pc; Left(next, n) < Left(pc, n) && !next.Idle? && next.job == pc.job
  {
  }

  // ------------------------------------------- what is left for one job

  function LeftFor(pc: Pc, k: JobId, n: nat): nat {
    if Has(pc, k) == 1 then Left(pc, n) else 0
  }

  function WorkersLeft(workers: seq<Pc>, k: JobId, n: nat): nat
    decreases |workers|
  {
    if workers == [] then 0
    else WorkersLeft(workers[..|workers| - 1], k, n) + LeftFor(workers[|workers| - 1], k, n)
  }

  function JobsLeft(jobs: seq<Job>, k: JobId, n: nat): nat {
    Cost(CountJobs(jobs, k), n)
  }

  /** The steps left for job k: those of the workers that have it, and an attempt for each time that it waits. */
  function Remaining(s: State, k: JobId, n: nat): nat {
    JobsLeft(Claims(s.dispatcher), k, n) + JobsLeft(s.queue, k, n) + WorkersLeft(s.workers, k, n)
  }

  lemma {:induction false} LeftUpdate(workers: seq<Pc>, w: nat, pc: Pc, k: JobId, n: nat)
    requires w < |workers|
    ensures WorkersLeft(workers[w := pc], k, n) + LeftFor(workers[w], k, n)
      == WorkersLeft(workers, k, n) + LeftFor(pc, k, n)
    decreases |workers|
  {
    var m := |workers| - 1;
    if w == m {
      assert workers[w := pc][..m] == workers[..m];
    } else {
      assert workers[w := pc][..m] == workers[..m][w := pc];
      LeftUpdate(workers[..m], w, pc, k, n);
    }
  }

  lemma {:induction false} NoneLeft(workers: seq<Pc>, k: JobId, n: nat)
    requires CountWorkers(workers, k) == 0
    ensures WorkersLeft(workers, k, n) == 0
    decreases |workers|
  {
    if workers != [] {
      NoneLeft(workers[..|workers| - 1], k, n);
    }
  }

  lemma OneJobLess(jobs: seq<Job>, k: JobId, n: nat)
    requires jobs != []
    ensures JobsLeft(jobs, k, n) == JobsLeft(jobs[1..], k, n) + if jobs[0].id == k then PerAttempt(n) else 0
  {
    CountCons(jobs, k);
  }

  lemma OneJobMore(jobs: seq<Job>, job: Job, k: JobId, n: nat)
    ensures JobsLeft(jobs + [job], k, n) == JobsLeft(jobs, k, n) + if job.id == k then PerAttempt(n) else 0
  {
    CountSnoc(jobs, job, k);
  }

  /** The step is one that a worker takes for job k. */
  predicate WorksOn(s: State, step: Step, k: JobId) {
    step.Work? && Enabled(s, step.w, step.a) && s.workers[step.w].job.id == k
  }

  predicate ClaimsJob(s: State, step: Step, k: JobId) {
    step.Claim? && Claimable(s, step.ids, step.now) && k in step.ids
  }

  function Paid(s: State, step: Step, k: JobId, n: nat): nat {
    if ClaimsJob(s, step, k) then PerAttempt(n) else 0
  }

  function Used(s: State, step: Step, k: JobId): nat {
    if WorksOn(s, step, k) then 1 else 0
  }

  lemma HandOverPays(s: State, k: JobId, n: nat)
    ensures Remaining(HandOver(s), k, n) <= Remaining(s, k, n)
  {
    if s.dispatcher.Handing? && s.dispatcher.jobs != [] {
      OneJobLess(s.dispatcher.jobs, k, n);
      OneJobMore(s.queue, s.dispatcher.jobs[0], k, n);
    }
  }

  lemma TakePays(s: State, w: nat, k: JobId, n: nat)
    ensures Remaining(Do(s, Take(w)), k, n) == Remaining(s, k, n)
  {
    if w < |s.workers| && s.workers[w].Idle? && s.queue != [] {
      OneJobLess(s.queue, k, n);
      LeftUpdate(s.workers, w, Slot(s.queue[0]), k, n);
    }
  }

  lemma ClaimedLeft(entries: map<JobId, Entry>, ids: seq<JobId>, k: JobId, n: nat)
    requires Distinct(ids) && forall id <- ids :: id in entries && entries[id].job.id == id
    ensures JobsLeft(ClaimedJobs(entries, ids), k, n) == if k in ids then PerAttempt(n) else 0
  {
    CountClaimed(entries, ids, k);
    assert Cost(0, n) == 0 && Cost(1, n) == PerAttempt(n);
  }

  lemma ClaimPays(s: State, ids: seq<JobId>, now: int, k: JobId, n: nat)
    requires EntriesOk(s.entries)
    ensures Remaining(Do(s, Claim(ids, now)), k, n) == Remaining(s, k, n) + Paid(s, Claim(ids, now), k, n)
  {
    if Claimable(s, ids, now) {
      ClaimedLeft(s.entries, ids, k, n);
      var s' := Do(s, Claim(ids, now));
      assert Claims(s'.dispatcher) == ClaimedJobs(s.entries, ids) && s'.queue == s.queue && s'.workers == s.workers;
    }
  }

  lemma WorkPays(s: State, w: nat, a: WorkerAction, k: JobId, n: nat)
    requires k in s.entries ==> |s.entries[k].rows| <= n
    ensures Remaining(WorkAt(s, w, a), k, n) + Used(s, Work(w, a), k) <= Remaining(s, k, n)
  {
    if Enabled(s, w, a) {
      var pc := s.workers[w];
      var next := WorkerStep(pc, s.entries[pc.job.id], a).value;
      StepUses(pc, s.entries[pc.job.id], a, if pc.job.id == k then n else |s.entries[pc.job.id].rows|);
      LeftUpdate(s.workers, w, next.pc, k, n);
    }
  }

  lemma RestartPays(s: State, workers: int, claimBatch: int, k: JobId, n: nat)
    ensures Remaining(Restarted(s, workers, claimBatch), k, n) == 0
  {
    AllIdle(Restarted(s, workers, claimBatch).workers, k);
    NoneLeft(Restarted(s, workers, claimBatch).workers, k, n);
  }

  /** What is left after a step, and the step itself, were left before it, or paid for by a claim. */
  lemma StepPays(s: State, step: Step, k: JobId, n: nat)
    requires EntriesOk(s.entries) && (k in s.entries ==> |s.entries[k].rows| <= n)
    ensures Remaining(Do(s, step), k, n) + Used(s, step, k) <= Remaining(s, k, n) + Paid(s, step, k, n)
  {
    match step
    case Enqueue => HandOverPays(s, k, n);
    case Take(w) => TakePays(s, w, k, n);
    case Claim(ids, now) => ClaimPays(s, ids, now, k, n);
    case Work(w, a) => WorkPays(s, w, a, k, n);
    case Restart(workers, claimBatch) => RestartPays(s, workers, claimBatch, k, n);
    case _ =>
  }

  // ------------------------------------------------------------- whole runs

  /** How many steps of a run workers take for job k. */
  function WorkOn(s: State, steps: seq<Step>, k: JobId): nat
    decreases |steps|
  {
    if steps == [] then 0
    else
      var n := |steps| - 1;
      WorkOn(s, steps[..n], k) + Used(Exec(s, steps[..n]), steps[n], k)
  }

  lemma RowsOnlyGrow(a: map<JobId, Entry>, b: map<JobId, Entry>, k: JobId)
    requires AllEvolve(a, b) && k in a
    ensures k in b && |a[k].rows| <= |b[k].rows|
  {
    ThisEvolves(a, b, k);
    SubsetSize(a[k].rows.Keys, b[k].rows.Keys);
  }

  /** The job has no more recipients before the last step than after it. */
  lemma FewerRowsBefore(s: State, steps: seq<Step>, k: JobId, n: nat)
    requires Inv(s) && steps != [] && (k in Exec(s, steps).entries ==> |Exec(s, steps).entries[k].rows| <= n)
    ensures var mid := Exec(s, steps[..|steps| - 1]); Inv(mid) && (k in mid.entries ==> |mid.entries[k].rows| <= n)
  {
    var mid, last := Exec(s, steps[..|steps| - 1]), steps[|steps| - 1];
    ExecOk(s, steps[..|steps| - 1]);
    DoOk(mid, last);
    if k in mid.entries {
      RowsOnlyGrow(mid.entries, Do(mid, last).entries, k);
    }
  }

  /** The last step of a run, in the terms of the run. */
  lemma LastPays(s: State, steps: seq<Step>, k: JobId, n: nat)
    requires Inv(s) && steps != [] && (k in Exec(s, steps).entries ==> |Exec(s, steps).entries[k].rows| <= n)
    ensures var mid, last := Exec(s, steps[..|steps| - 1]), steps[|steps| - 1];
      Remaining(Exec(s, steps), k, n) + Used(mid, last, k) <= Remaining(mid, k, n) + Paid(mid, last, k, n)
  {
    FewerRowsBefore(s, steps, k, n);
    StepPays(Exec(s, steps[..|steps| - 1]), steps[|steps| - 1], k, n);
  }

  lemma LastClaim(s: State, steps: seq<Step>, k: JobId, n: nat)
    requires steps != []
    ensures var m := |steps| - 1;
      Cost(ClaimsOf(s, steps, k), n) == Cost(ClaimsOf(s, steps[..m], k), n) + Paid(Exec(s, steps[..m]), steps[m], k, n)
  {
  }

  lemma {:induction false} RunPays(s: State, steps: seq<Step>, k: JobId, n: nat)
    requires Inv(s) && (k in Exec(s, steps).entries ==> |Exec(s, steps).entries[k].rows| <= n)
    ensures WorkOn(s, steps, k) + Remaining(Exec(s, steps), k, n) <= Remaining(s, k, n) + Cost(ClaimsOf(s, steps, k), n)
    decreases |steps|
  {
    if steps != [] {
      FewerRowsBefore(s, steps, k, n);
      RunPays(s, steps[..|steps| - 1], k, n);
      LastPays(s, steps, k, n);
      LastClaim(s, steps, k, n);
    }
  }

  /**
   In any run the workers take at most max_attempts * (3 n + 7) steps for a job with n recipients, and only attempts *
   (3 n + 7) of them so far; so no job is worked on for ever.
   */
  lemma WorkIsBounded(workers: int, claimBatch: int, steps: seq<Step>, k: JobId)
    requires k in After(workers, claimBatch, steps).entries
    ensures var e := After(workers, claimBatch, steps).entries[k];
      && 0 <= e.job.attempts <= e.job.maxAttempts
      && WorkOn(Initial(workers, claimBatch), steps, k) <= e.job.attempts * PerAttempt(|e.rows|)
      && e.job.attempts * PerAttempt(|e.rows|) <= e.job.maxAttempts * PerAttempt(|e.rows|)
  {
    var s0, e := Initial(workers, claimBatch), After(workers, claimBatch, steps).entries[k];
    InitialOk(workers, claimBatch);
    ClaimsAreBounded(workers, claimBatch, steps, k);
    RunPays(s0, steps, k, |e.rows|);
    AllIdle(s0.workers, k);
    NoneLeft(s0.workers, k, |e.rows|);
    CostIsProduct(e.job.attempts, |e.rows|);
    CostIsProduct(e.job.maxAttempts, |e.rows|);
    CostGrows(e.job.attempts, e.job.maxAttempts, |e.rows|);
  }

  // ------------------------------------------------------------ one attempt

  /**
   A worker is never stuck: some step of its own is always open to it, and a worker that waits gets its slot in time.
   */
  lemma NeverStuck(s: State, w: nat) returns (a: WorkerAction)
    requires Inv(s) && w < |s.workers| && !s.workers[w].Idle?
    ensures Enabled(s, w, a)
    ensures s.workers[w].Slot? ==> a.Grant?
  {
    var pc := s.workers[w];
    assert WorkerOk(s.entries, pc);
    if pc.Slot? {
      a := Grant(SlotTime(s.grants, pc.job.instance));
      assert SlotStep(pc.job, s.entries[pc.job.id], a).Some?;
    } else {
      a := OpenStep(pc, s.entries[pc.job.id]);
    }
  }

  lemma OpenStep(pc: Pc, e: Entry) returns (a: WorkerAction)
    requires !pc.Idle? && !pc.Slot?
    ensures WorkerStep(pc, e, a).Some? && !a.Grant?
  {
    match pc
    case Walk(job, todo) => a := if todo == [] then Finish else Interrupt; assert WalkStep(job, todo, e, a).Some?;
    case Record(job, item, more, todo) => a := SaveOutcome(Saved); assert RecordStep(job, item, more, todo, e, a).Some?;
    case Summing(_) => a := Sum(true); assert ClosingStep(pc, e, a).Some?;
    case Marking(_, _) => a := Mark(Saved); assert ClosingStep(pc, e, a).Some?;
    case Failing(_, _) => a := Fail(0, Saved); assert ClosingStep(pc, e, a).Some?;
    case Start(job) => a := Interrupt; assert StartStep(job, e, a).Some?;
    case Seeding(job, phones) => a := Interrupt; assert SeedingStep(job, phones, e, a).Some?;
    case Reload(job) => a := Interrupt; assert ReloadStep(job, e, a).Some?;
    case Send(job, item, todo) => a := Interrupt; assert SendStep(job, item, todo, e, a).Some?;
  }

  /** A time at which the instance's slot is free. */
  function SlotTime(grants: seq<SlotLimiter.Grant>, instance: string): (at: int)
    requires SlotLimiter.Produced(grants)
    ensures 0 < at && SlotLimiter.Sensible(grants, at) && SlotLimiter.FreeAt(grants, instance) <= at
  {
    SlotLimiter.ProducedIsSpaced(grants);
    var last := if grants == [] then 1 else grants[|grants| - 1].at;
    var free := SlotLimiter.FreeAt(grants, instance);
    if free <= last then last else free
  }

  /** What a job has left while worker w has it is what w has left. */
  lemma HolderHasAll(s: State, w: nat, n: nat)
    requires Inv(s) && w < |s.workers| && !s.workers[w].Idle?
    ensures Remaining(s, s.workers[w].job.id, n) == Left(s.workers[w], n)
  {
    var k := s.workers[w].job.id;
    assert Held(s, k) <= 1;
    CountUpdate(s.workers, w, Idle, k);
    NoneLeft(s.workers[w := Idle], k, n);
    LeftUpdate(s.workers, w, Idle, k, n);
  }

  lemma {:induction false} SomethingLeft(workers: seq<Pc>, w: nat, n: nat)
    requires w < |workers| && !workers[w].Idle?
    ensures WorkersLeft(workers, workers[w].job.id, n) >= 1
    decreases |workers|
  {
    if w < |workers| - 1 {
      SomethingLeft(workers[..|workers| - 1], w, n);
    }
  }

  /**
   A worker that has a job takes at most as many steps for it as it has left then, before the job is claimed again;
   and by the time that it has taken so many, no worker has the job any more. Since it is never stuck, a worker that
   goes on ends its attempt.
   */
  lemma AttemptEnds(workers: int, claimBatch: int, past: seq<Step>, future: seq<Step>, w: nat)
    requires w < |After(workers, claimBatch, past).workers| && !After(workers, claimBatch, past).workers[w].Idle?
    requires ClaimsOf(After(workers, claimBatch, past), future, After(workers, claimBatch, past).workers[w].job.id) == 0
    ensures var s, s' := After(workers, claimBatch, past), After(workers, claimBatch, past + future);
      var k := s.workers[w].job.id;
      && k in s'.entries
      && var left := Left(s.workers[w], |s'.entries[k].rows|);
      && WorkOn(s, future, k) <= left
      && (WorkOn(s, future, k) == left ==>
            forall v :: 0 <= v < |s'.workers| && !s'.workers[v].Idle? ==> s'.workers[v].job.id != k)
  {
    var s, s' := After(workers, claimBatch, past), After(workers, claimBatch, past + future);
    var k := s.workers[w].job.id;
    AfterOk(workers, claimBatch, past);
    HolderKnows(s, w);
    LaterEvolves(workers, claimBatch, past, future, k);
    ExecAppend(Initial(workers, claimBatch), past, future);
    var n := |s'.entries[k].rows|;
    RunPays(s, future, k, n);
    HolderHasAll(s, w, n);
    forall v | 0 <= v < |s'.workers| && !s'.workers[v].Idle? && s'.workers[v].job.id == k
      ensures WorkOn(s, future, k) < Left(s.workers[w], n)
    {
      SomethingLeft(s'.workers, v, n);
    }
  }
}
