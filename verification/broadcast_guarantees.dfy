/**
 What every run of the broadcast service guarantees, whatever the number of
 workers, the schedule, the send outcomes, the failed saves, the cancellations,
 the receipts and the restarts of the process. A run is any sequence of steps
 from empty tables.
 */
module BroadcastGuarantees {
  import opened Wrappers
  import opened Recipients
  import opened Delivery
  import opened BroadcastSystem
  import SlotLimiter
  import Text

  /** The state after a run from start-up. */
  function After(workers: int, claimBatch: int, steps: seq<Step>): State {
    Exec(Initial(workers, claimBatch), steps)
  }

  lemma AfterOk(workers: int, claimBatch: int, steps: seq<Step>)
    ensures Inv(After(workers, claimBatch, steps))
  {
    InitialOk(workers, claimBatch);
    ExecOk(Initial(workers, claimBatch), steps);
  }

  lemma {:induction false} ExecAppend(s: State, past: seq<Step>, future: seq<Step>)
    ensures Exec(s, past + future) == Exec(Exec(s, past), future)
    decreases |future|
  {
    if future == [] {
      assert past + future == past;
    } else {
      var n := |future| - 1;
      assert (past + future)[..|past + future| - 1] == past + future[..n];
      ExecAppend(s, past, future[..n]);
    }
  }

  lemma LaterEvolves(workers: int, claimBatch: int, past: seq<Step>, future: seq<Step>, k: JobId)
    requires k in After(workers, claimBatch, past).entries
    ensures k in After(workers, claimBatch, past + future).entries
    ensures Evolves(After(workers, claimBatch, past).entries[k], After(workers, claimBatch, past + future).entries[k])
  {
    AfterOk(workers, claimBatch, past);
    ExecOk(After(workers, claimBatch, past), future);
    ExecAppend(Initial(workers, claimBatch), past, future);
    ThisEvolves(After(workers, claimBatch, past).entries, After(workers, claimBatch, past + future).entries, k);
  }

  /** A recipient row never moves backwards, and failed is final. */
  lemma RowsNeverRegress(workers: int, claimBatch: int, past: seq<Step>, future: seq<Step>, k: JobId, p: Phone)
    requires k in After(workers, claimBatch, past).entries && p in After(workers, claimBatch, past).entries[k].rows
    ensures var now, later := After(workers, claimBatch, past), After(workers, claimBatch, past + future);
      && k in later.entries && p in later.entries[k].rows
      && var a, b := now.entries[k].rows[p], later.entries[k].rows[p];
      && Forward(a.status, b.status)
      && (a.status.Failed? ==> b.status.Failed?)
      && (a.deliveredAt.Some? ==> b.deliveredAt == a.deliveredAt)
      && (a.readAt.Some? ==> b.readAt.Some? && a.readAt.value <= b.readAt.value)
      && (!a.status.Pending? ==> b.messageId == a.messageId && b.sentAt == a.sentAt && b.attempts == a.attempts)
  {
    LaterEvolves(workers, claimBatch, past, future, k);
  }

  /** Once a row has left pending, its phone is never handed to SendText again, in this or any later attempt. */
  lemma NeverResent(workers: int, claimBatch: int, past: seq<Step>, future: seq<Step>, k: JobId, p: Phone)
    requires k in After(workers, claimBatch, past).entries && p in After(workers, claimBatch, past).entries[k].rows
    requires !After(workers, claimBatch, past).entries[k].rows[p].status.Pending?
    ensures k in After(workers, claimBatch, past + future).entries
    ensures After(workers, claimBatch, past + future).entries[k].calls[p]
      == After(workers, claimBatch, past).entries[k].calls[p]
  {
    LaterEvolves(workers, claimBatch, past, future, k);
  }

  /**
   SendText is called for a phone at most once per attempt of the job, so at most max_attempts times; and the
   confirmed answers are exactly those whose save was lost, plus one if the row is sent or about to be saved so.
   */
  lemma SendsAreBounded(workers: int, claimBatch: int, steps: seq<Step>, k: JobId, p: Phone)
    requires k in After(workers, claimBatch, steps).entries
    ensures var e := After(workers, claimBatch, steps).entries[k];
      && e.calls[p] <= e.job.attempts <= e.job.maxAttempts
      && (p !in e.rows ==> e.calls[p] == 0)
      && (p in e.rows ==> e.calls[p] <= e.rows[p].attempts <= e.job.attempts)
      && e.confirmed[p] == e.unsaved[p]
           + (if p in e.rows && (e.rows[p].status.Confirmed() || p in e.inflight) then 1 else 0)
      && (e.unsaved[p] == 0 ==> e.confirmed[p] <= 1)
  {
    AfterOk(workers, claimBatch, steps);
    var e := After(workers, claimBatch, steps).entries[k];
    if p in e.rows {
      assert RecipientOk(e, p);
    }
  }

  /**
   What a completed job says about its recipients, in every state from then on. The recipients that Process listed
   last are all sent (or, with failures, all settled); the job has no other recipient exactly when none was seeded
   after that listing.
   */
  lemma CompletedMeans(workers: int, claimBatch: int, steps: seq<Step>, k: JobId)
    requires k in After(workers, claimBatch, steps).entries
    ensures var e := After(workers, claimBatch, steps).entries[k];
      (e.job.status.Completed? ==>
         && e.loaded != {} && e.loaded <= e.rows.Keys
         && (forall p <- e.loaded :: e.rows[p].status.Confirmed())
         && ((forall p <- e.rows :: e.rows[p].status.Confirmed()) <==> e.rows.Keys == e.loaded)
         && (e.settled ==> e.rows.Keys == e.loaded))
    ensures var e := After(workers, claimBatch, steps).entries[k];
      (e.job.status.CompletedWithFailures? ==>
         && e.loaded != {} && e.loaded <= e.rows.Keys
         && (exists p <- e.rows :: e.rows[p].status.Failed?)
         && (forall p <- e.loaded :: !e.rows[p].status.Pending?)
         && ((forall p <- e.rows :: !e.rows[p].status.Pending?) <==> e.rows.Keys == e.loaded)
         && (e.settled ==> e.rows.Keys == e.loaded))
  {
    AfterOk(workers, claimBatch, steps);
    var e := After(workers, claimBatch, steps).entries[k];
    if AllSettled(e) {
      forall p <- e.loaded ensures !e.rows[p].status.Pending? {
        assert Terminated(e, p);
      }
      if p :| p in e.rows && p !in e.loaded {
        assert RecipientOk(e, p);
      }
    }
  }

  // ------------------------------------------------------- completed for good

  ghost predicate NonePending(e: Entry) {
    forall p <- e.rows :: !e.rows[p].status.Pending?
  }

  /** Nobody works on a job that is done. */
  lemma WorkElsewhere(s: State, w: nat, a: WorkerAction, k: JobId)
    requires Inv(s) && k in s.entries && s.entries[k].job.status.Terminal()
    ensures k in WorkAt(s, w, a).entries && WorkAt(s, w, a).entries[k] == s.entries[k]
  {
    if Enabled(s, w, a) {
      assert WorkerOk(s.entries, s.workers[w]);
      assert s.workers[w].job.id != k;
    }
  }

  /** The job is done, will not be seeded any more, and has these recipients. */
  ghost predicate DoneWith(entries: map<JobId, Entry>, k: JobId, phones: set<Phone>) {
    k in entries && entries[k].job.status.Terminal() && !entries[k].seeding && entries[k].rows.Keys == phones
  }

  /** A job that is done and will not be seeded any more gets no new recipient. */
  lemma StepKeepsRecipients(s: State, step: Step, k: JobId, phones: set<Phone>)
    requires Inv(s) && DoneWith(s.entries, k, phones)
    ensures DoneWith(Do(s, step).entries, k, phones)
  {
    match step
    case Work(w, a) => WorkElsewhere(s, w, a, k);
    case Claim(ids, now) => assert Claimable(s, ids, now) ==> k !in ids;
    case Enqueue => assert Do(s, step).entries == s.entries;
    case Take(w) => assert Do(s, step).entries == s.entries;
    case Deliver(r) => assert Receive(s.entries[k], r).rows.Keys == phones;
    case _ =>
  }

  lemma {:induction false} RunKeepsRecipients(s: State, steps: seq<Step>, k: JobId, phones: set<Phone>)
    requires Inv(s) && DoneWith(s.entries, k, phones)
    ensures DoneWith(Exec(s, steps).entries, k, phones)
    decreases |steps|
  {
    if steps != [] {
      var n := |steps| - 1;
      RunKeepsRecipients(s, steps[..n], k, phones);
      ExecOk(s, steps[..n]);
      StepKeepsRecipients(Exec(s, steps[..n]), steps[n], k, phones);
    }
  }

  lemma {:induction false} LongerThanAll(phones: set<Phone>) returns (n: nat)
    ensures n > 0 && forall p <- phones :: |p| < n
    decreases |phones|
  {
    n := 1;
    if phones != {} {
      var p :| p in phones;
      var m := LongerThanAll(phones - {p});
      n := m + |p| + 1;
    }
  }

  /** A phone that a contact may have, other than these. */
  lemma AnotherPhone(phones: set<Phone>) returns (p: Phone)
    ensures p !in phones && p != "" && Text.Trim(p) == p
  {
    var n := LongerThanAll(phones);
    p := seq(n, _ => '1');
    Text.TrimFact(p);
  }

  /** As long as Create has not seeded its snapshot, doing so may still add a recipient. */
  lemma SeedingAddsPending(s: State, k: JobId) returns (step: Step)
    requires Inv(s) && k in s.entries && s.entries[k].seeding
    ensures k in Do(s, step).entries && !NonePending(Do(s, step).entries[k])
  {
    var p := AnotherPhone(s.entries[k].rows.Keys);
    step := SeedSnapshot(k, [Contact(p, "")], Saved);
    Text.TrimFact("");
    assert [Contact(p, "")][..0] == [];
    assert Eligible([Contact(p, "")], s.entries[k].job.instance) == [p];
    var e := Do(s, step).entries[k];
    assert p in e.rows && e.rows[p].status.Pending?;
  }

  /**
   Exactly when a completed job is complete for good: no recipient is pending in any continuation of the run if and
   only if Create has nothing left to seed and none was seeded after Process had listed the recipients. The latter is
   so exactly when none is pending now.
   */
  lemma CompleteForGoodExactly(workers: int, claimBatch: int, past: seq<Step>, k: JobId)
    requires k in After(workers, claimBatch, past).entries
    requires var status := After(workers, claimBatch, past).entries[k].job.status;
      status.Completed? || status.CompletedWithFailures?
    ensures var e := After(workers, claimBatch, past).entries[k];
      && ((forall future :: CompleteAfter(workers, claimBatch, past + future, k))
          <==> !e.seeding && e.rows.Keys == e.loaded)
      && (e.rows.Keys == e.loaded <==> NonePending(e))
  {
    var s := After(workers, claimBatch, past);
    var e := s.entries[k];
    AfterOk(workers, claimBatch, past);
    CompletedMeans(workers, claimBatch, past, k);
    assert NonePending(e) <==> e.rows.Keys == e.loaded;
    if !e.seeding && NonePending(e) {
      forall future ensures CompleteAfter(workers, claimBatch, past + future, k) {
        StaysComplete(workers, claimBatch, past, future, k);
      }
    } else if e.seeding {
      var step := SeedingAddsPending(s, k);
      assert (past + [step])[..|past|] == past;
      assert !CompleteAfter(workers, claimBatch, past + [step], k);
    } else {
      assert past + [] == past;
      assert !CompleteAfter(workers, claimBatch, past + [], k);
    }
  }

  ghost predicate CompleteAfter(workers: int, claimBatch: int, steps: seq<Step>, k: JobId) {
    k in After(workers, claimBatch, steps).entries && NonePending(After(workers, claimBatch, steps).entries[k])
  }

  lemma StaysComplete(workers: int, claimBatch: int, past: seq<Step>, future: seq<Step>, k: JobId)
    requires k in After(workers, claimBatch, past).entries
    requires var e := After(workers, claimBatch, past).entries[k];
      e.job.status.Terminal() && !e.seeding && NonePending(e)
    ensures CompleteAfter(workers, claimBatch, past + future, k)
  {
    AfterOk(workers, claimBatch, past);
    var phones := After(workers, claimBatch, past).entries[k].rows.Keys;
    RunKeepsRecipients(After(workers, claimBatch, past), future, k, phones);
    ExecAppend(Initial(workers, claimBatch), past, future);
    forall p <- After(workers, claimBatch, past).entries[k].rows
      ensures var e := After(workers, claimBatch, past + future).entries[k]; p in e.rows && !e.rows[p].status.Pending?
    {
      RowsNeverRegress(workers, claimBatch, past, future, k, p);
    }
  }

  // ------------------------------------------------------------ who holds jobs

  /** The channel never turns a claimed job away, and the dispatcher's claims fit into it. */
  lemma NeverDrops(workers: int, claimBatch: int, steps: seq<Step>)
    ensures var s := After(workers, claimBatch, steps);
      && s.drops == 0
      && (s.dispatcher.Handing? ==> |s.dispatcher.jobs| + |s.queue| <= Capacity(s))
  {
    AfterOk(workers, claimBatch, steps);
  }

  /**
   A job is in the hands of the dispatcher, the channel and the workers together exactly once while it is being
   processed, and not at all otherwise; no two workers ever have the same job.
   */
  lemma HeldExactlyOnce(workers: int, claimBatch: int, steps: seq<Step>, k: JobId)
    ensures var s := After(workers, claimBatch, steps);
      && Held(s, k)
         == (if k in s.entries && s.entries[k].job.status.Processing? && !s.entries[k].orphaned then 1 else 0)
      && (forall v, w :: 0 <= v < w < |s.workers| && !s.workers[v].Idle? && !s.workers[w].Idle? ==>
            s.workers[v].job.id != s.workers[w].job.id)
  {
    AfterOk(workers, claimBatch, steps);
    var s := After(workers, claimBatch, steps);
    forall v, w | 0 <= v < w < |s.workers| && !s.workers[v].Idle? && !s.workers[w].Idle?
      ensures s.workers[v].job.id != s.workers[w].job.id
    {
      HoldsAlone(s, v);
    }
  }

  /** The steps of a worker after which it walks away from a job without marking it. */
  predicate WalksAway(a: WorkerAction) {
    match a
    case CancelSlot => true
    case Sum(ok) => !ok
    case Mark(save) => save.Missed?
    case Fail(_, save) => save.Missed?
    case _ => false
  }

  /** The steps after which a job may be left without anyone to mark it. */
  predicate GivesUp(step: Step) {
    step.Restart? || (step.Work? && WalksAway(step.a))
  }

  lemma StepKeepsJobs(pc: Pc, e: Entry, w: nat, a: WorkerAction)
    requires WorkerStep(pc, e, a).Some? && !GivesUp(Work(w, a)) && !e.orphaned
    ensures !WorkerStep(pc, e, a).value.entry.orphaned
  {
  }

  lemma StepsKeepJobs(s: State, step: Step)
    requires !GivesUp(step) && forall k <- s.entries :: !s.entries[k].orphaned
    ensures forall k <- Do(s, step).entries :: !Do(s, step).entries[k].orphaned
  {
    if step.Work? && step.w < |s.workers| && !s.workers[step.w].Idle? && s.workers[step.w].job.id in s.entries {
      var pc, e := s.workers[step.w], s.entries[s.workers[step.w].job.id];
      if WorkerStep(pc, e, step.a).Some? {
        StepKeepsJobs(pc, e, step.w, step.a);
      }
    }
  }

  lemma {:induction false} NoneOrphaned(s: State, steps: seq<Step>)
    requires (forall step <- steps :: !GivesUp(step)) && forall k <- s.entries :: !s.entries[k].orphaned
    ensures forall k <- Exec(s, steps).entries :: !Exec(s, steps).entries[k].orphaned
    decreases |steps|
  {
    if steps != [] {
      var n := |steps| - 1;
      NoneOrphaned(s, steps[..n]);
      assert steps[n] in steps;
      StepsKeepJobs(Exec(s, steps[..n]), steps[n]);
    }
  }

  /**
   Without restarts, cancellation and repository errors, every job in processing is queued or held by exactly one
   goroutine.
   */
  lemma NothingOrphaned(workers: int, claimBatch: int, steps: seq<Step>, k: JobId)
    requires forall step <- steps :: !GivesUp(step)
    requires k in After(workers, claimBatch, steps).entries
    ensures var s := After(workers, claimBatch, steps);
      Held(s, k) == if s.entries[k].job.status.Processing? then 1 else 0
  {
    NoneOrphaned(Initial(workers, claimBatch), steps);
    HeldExactlyOnce(workers, claimBatch, steps, k);
  }

  /** How often a run claims job k. */
  function ClaimsOf(s: State, steps: seq<Step>, k: JobId): nat
    decreases |steps|
  {
    if steps == [] then 0
    else
      var n := |steps| - 1;
      var last := steps[n];
      ClaimsOf(s, steps[..n], k)
      + if last.Claim? && Claimable(Exec(s, steps[..n]), last.ids, last.now) && k in last.ids then 1 else 0
  }

  lemma WorkKeepsAttempts(s: State, w: nat, a: WorkerAction, k: JobId)
    requires k in s.entries && w < |s.workers|
    ensures k in WorkAt(s, w, a).entries && WorkAt(s, w, a).entries[k].job.attempts == s.entries[k].job.attempts
  {
    var pc := s.workers[w];
    if !pc.Idle? && pc.job.id in s.entries && WorkerStep(pc, s.entries[pc.job.id], a).Some? {
      AttemptsKept(pc, s.entries[pc.job.id], a);
    }
  }

  lemma OnlyClaimsCount(s: State, step: Step, k: JobId)
    requires k in s.entries
    ensures k in Do(s, step).entries
    ensures Do(s, step).entries[k].job.attempts
         == s.entries[k].job.attempts
            + if step.Claim? && Claimable(s, step.ids, step.now) && k in step.ids then 1 else 0
  {
    if step.Work? && step.w < |s.workers| {
      WorkKeepsAttempts(s, step.w, step.a, k);
    }
  }

  lemma AttemptsKept(pc: Pc, e: Entry, a: WorkerAction)
    requires WorkerStep(pc, e, a).Some?
    ensures WorkerStep(pc, e, a).value.entry.job.attempts == e.job.attempts
  {
    if pc.Summing? || pc.Marking? || pc.Failing? {
      ClosingKeepsAttempts(pc, e, a);
    } else {
      OthersKeepJob(pc, e, a);
    }
  }

  lemma ClosingKeepsAttempts(pc: Pc, e: Entry, a: WorkerAction)
    requires ClosingStep(pc, e, a).Some?
    ensures ClosingStep(pc, e, a).value.entry.job.attempts == e.job.attempts
  {
  }

  /** Only the closing steps change the job's row. */
  lemma OthersKeepJob(pc: Pc, e: Entry, a: WorkerAction)
    requires WorkerStep(pc, e, a).Some? && !pc.Summing? && !pc.Marking? && !pc.Failing?
    ensures WorkerStep(pc, e, a).value.entry.job == e.job
  {
  }

  lemma NewJobsAreUnclaimed(s: State, step: Step, k: JobId)
    requires k !in s.entries
    ensures step.Claim? && Claimable(s, step.ids, step.now) ==> k !in step.ids
    ensures k in Do(s, step).entries ==> Do(s, step).entries[k].job.attempts == 0
  {
  }

  lemma {:induction false} ClaimsCounted(s: State, steps: seq<Step>, k: JobId)
    requires k !in s.entries
    ensures ClaimsOf(s, steps, k) == if k in Exec(s, steps).entries then Exec(s, steps).entries[k].job.attempts else 0
    decreases |steps|
  {
    if steps != [] {
      var n := |steps| - 1;
      ClaimsCounted(s, steps[..n], k);
      if k in Exec(s, steps[..n]).entries {
        OnlyClaimsCount(Exec(s, steps[..n]), steps[n], k);
      } else {
        NewJobsAreUnclaimed(Exec(s, steps[..n]), steps[n], k);
      }
    }
  }

  /** attempts counts the claims of a job, so no job is claimed more than max_attempts times in any run. */
  lemma ClaimsAreBounded(workers: int, claimBatch: int, steps: seq<Step>, k: JobId)
    requires k in After(workers, claimBatch, steps).entries
    ensures var job := After(workers, claimBatch, steps).entries[k].job;
      && ClaimsOf(Initial(workers, claimBatch), steps, k) == job.attempts <= job.maxAttempts
      && (job.status.Queued? ==> job.attempts < job.maxAttempts)
  {
    AfterOk(workers, claimBatch, steps);
    ClaimsCounted(Initial(workers, claimBatch), steps, k);
  }

  lemma HolderKnows(s: State, w: nat)
    requires Inv(s) && w < |s.workers| && !s.workers[w].Idle?
    ensures var job := s.workers[w].job; job.id in s.entries && s.entries[job.id].job == job && 1 <= job.attempts
  {
    assert WorkerOk(s.entries, s.workers[w]);
  }

  lemma FailStep(s: State, w: nat, job: Job, retryable: bool, now: int, save: Save)
    requires w < |s.workers| && s.workers[w] == Failing(job, retryable) && save.Applied()
    requires job.id in s.entries && s.entries[job.id].job == job
    ensures job.id in Do(s, Work(w, Fail(now, save))).entries
    ensures Do(s, Work(w, Fail(now, save))).entries[job.id].job == AfterFailure(job, retryable, now)
  {
    var e := s.entries[job.id];
    assert WorkerStep(s.workers[w], e, Fail(now, save))
      == Some(Next(Idle, e.(job := AfterFailure(job, retryable, now))));
  }

  /**
   A job that failed an attempt and is to be retried is not claimed again before its backoff has passed, and every
   retry happens only while the budget of attempts lasts.
   */
  lemma RetryWaits(workers: int, claimBatch: int, past: seq<Step>, w: nat, now: int, save: Save,
                   future: seq<Step>, ids: seq<JobId>, later: int)
    requires var s := After(workers, claimBatch, past);
      w < |s.workers| && s.workers[w].Failing? && s.workers[w].job.id in ids && save.Applied()
    requires var s := After(workers, claimBatch, past);
      var s' := After(workers, claimBatch, past + [Work(w, Fail(now, save))] + future);
      && Claimable(s', ids, later)
      && s'.entries[s.workers[w].job.id].job.attempts == s.workers[w].job.attempts
    ensures var job := After(workers, claimBatch, past).workers[w].job;
      && job.attempts < job.maxAttempts
      && later >= now + (if job.attempts == 1 then 15 * SECOND
                         else if job.attempts == 2 then 60 * SECOND else 300 * SECOND)
  {
    var s, step := After(workers, claimBatch, past), Work(w, Fail(now, save));
    var k := s.workers[w].job.id;
    AfterOk(workers, claimBatch, past);
    HolderKnows(s, w);
    FailStep(s, w, s.workers[w].job, s.workers[w].retryable, now, save);
    assert (past + [step])[..|past|] == past;
    LaterEvolves(workers, claimBatch, past + [step], future, k);
  }

  /** completed, completed_with_failures and failed are final. */
  lemma TerminalIsFinal(workers: int, claimBatch: int, past: seq<Step>, future: seq<Step>, k: JobId)
    requires k in After(workers, claimBatch, past).entries
    requires After(workers, claimBatch, past).entries[k].job.status.Terminal()
    ensures k in After(workers, claimBatch, past + future).entries
    ensures After(workers, claimBatch, past + future).entries[k].job == After(workers, claimBatch, past).entries[k].job
  {
    LaterEvolves(workers, claimBatch, past, future, k);
  }

  /** The summary of a job adds up in every reachable state. */
  lemma SummariesBalance(workers: int, claimBatch: int, steps: seq<Step>, k: JobId)
    requires k in After(workers, claimBatch, steps).entries
    ensures var t := Summarize(After(workers, claimBatch, steps).entries[k].rows);
      && t.total == t.sent + t.failed + t.pending
      && t.read <= t.delivered <= t.sent
      && t.sent + t.failed <= t.attempted <= t.total
  {
    AfterOk(workers, claimBatch, steps);
    var e := After(workers, claimBatch, steps).entries[k];
    forall p <- e.rows ensures RowOk(e.rows[p]) {
      assert RecipientOk(e, p);
    }
    SummaryBalances(e.rows);
  }

  // ------------------------------------------------------------------- slots

  /** The step lets a job of that instance through the slot limiter. */
  predicate Grants(s: State, step: Step, instance: string) {
    step.Work? && step.a.Grant? && Enabled(s, step.w, step.a) && s.workers[step.w].job.instance == instance
  }

  lemma {:induction false} GrantsStay(s: State, steps: seq<Step>)
    requires forall step <- steps :: !step.Restart?
    ensures s.grants <= Exec(s, steps).grants
    decreases |steps|
  {
    if steps != [] {
      var n := |steps| - 1;
      GrantsStay(s, steps[..n]);
      assert steps[n] in steps;
      StepKeepsGrants(Exec(s, steps[..n]), steps[n]);
    }
  }

  lemma StepKeepsGrants(s: State, step: Step)
    requires !step.Restart?
    ensures s.grants <= Do(s, step).grants
  {
  }

  /**
   Whichever workers take them, two slots of one instance that are granted without a restart in between are at least
   the interval of the earlier job's rate apart.
   */
  lemma GrantsAreSpaced(workers: int, claimBatch: int, past: seq<Step>, first: Step, between: seq<Step>,
                        second: Step, instance: string)
    requires Grants(After(workers, claimBatch, past), first, instance)
    requires forall step <- between :: !step.Restart?
    requires Grants(After(workers, claimBatch, past + [first] + between), second, instance)
    ensures var rate := After(workers, claimBatch, past).workers[first.w].job.ratePerHour;
      first.a.at + SlotLimiter.IntervalForRate(rate) <= second.a.at
  {
    GrantRecorded(workers, claimBatch, past, first, instance);
    LaterGrants(workers, claimBatch, past + [first], between);
    GrantTimely(workers, claimBatch, past + [first] + between, second, instance);
    var s := After(workers, claimBatch, past);
    GrantedBefore(After(workers, claimBatch, past + [first] + between).grants, s.grants,
                  SlotLimiter.Grant(instance, first.a.at, s.workers[first.w].job.ratePerHour), second.a.at);
  }

  lemma GrantRecorded(workers: int, claimBatch: int, past: seq<Step>, step: Step, instance: string)
    requires Grants(After(workers, claimBatch, past), step, instance)
    ensures var s := After(workers, claimBatch, past);
      After(workers, claimBatch, past + [step]).grants
      == s.grants + [SlotLimiter.Grant(instance, step.a.at, s.workers[step.w].job.ratePerHour)]
  {
    assert (past + [step])[..|past|] == past;
  }

  lemma LaterGrants(workers: int, claimBatch: int, past: seq<Step>, future: seq<Step>)
    requires forall step <- future :: !step.Restart?
    ensures After(workers, claimBatch, past).grants <= After(workers, claimBatch, past + future).grants
  {
    ExecAppend(Initial(workers, claimBatch), past, future);
    GrantsStay(After(workers, claimBatch, past), future);
  }

  lemma GrantTimely(workers: int, claimBatch: int, past: seq<Step>, step: Step, instance: string)
    requires Grants(After(workers, claimBatch, past), step, instance)
    ensures var log := After(workers, claimBatch, past).grants;
      SlotLimiter.Produced(log) && SlotLimiter.FreeAt(log, instance) <= step.a.at
  {
    AfterOk(workers, claimBatch, past);
  }

  lemma GrantedBefore(log: seq<SlotLimiter.Grant>, before: seq<SlotLimiter.Grant>, grant: SlotLimiter.Grant, at: int)
    requires SlotLimiter.Produced(log) && before + [grant] <= log && SlotLimiter.FreeAt(log, grant.instance) <= at
    ensures grant.at + grant.Interval() <= at
  {
    assert log[|before|] == grant;
    SlotLimiter.ProducedIsSpaced(log);
    SlotLimiter.FreeAtIsLatest(log, log[|log| - 1].at, |before|);
  }

  /**
   So at a constant rate that the limiter can keep to, no hour sees more than that many attempts of an instance and
   one.
   */
  lemma GrantsPerHour(workers: int, claimBatch: int, steps: seq<Step>, instance: string, from: int, rate: int)
    requires SlotLimiter.AtRate(After(workers, claimBatch, steps).grants, instance, rate)
    requires 0 < rate <= SlotLimiter.IntervalForRate(rate)
    ensures |SlotLimiter.InHour(After(workers, claimBatch, steps).grants, instance, from)| <= rate + 1
  {
    AfterOk(workers, claimBatch, steps);
    SlotLimiter.UsualRates(rate);
    SlotLimiter.HourlyBound(After(workers, claimBatch, steps).grants, instance, from, rate);
  }
}
