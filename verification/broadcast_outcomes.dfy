/**
 Where the contents of the two tables come from, over whole runs: which answer
 of SendText settled a recipient, which error sent a job back to the queue, and
 what Create inserted and when that may be claimed.
 */
module BroadcastOutcomes {
  import opened Wrappers
  import opened Recipients
  import opened Delivery
  import opened BroadcastSystem
  import opened BroadcastGuarantees
  import Text

  // ------------------------------------------------- who settled a recipient

  /** A SendText call: its answer, when that came, and when the attempt began. */
  datatype Call = Call(reply: SendReply, now: int, begun: int)

  /** In that state, the step hands phone p of job k to SendText. */
  predicate IsCall(s: State, step: Step, k: JobId, p: Phone, call: Call) {
    && step.Work? && step.a == Transmit(call.reply, call.now) && step.w < |s.workers|
    && var pc := s.workers[step.w];
    && pc.Send? && pc.job.id == k && pc.item.phone == p && pc.item.row.lastAttemptAt == Some(call.begun)
  }

  /** Some call of the run is that one. */
  ghost predicate Made(s: State, steps: seq<Step>, k: JobId, p: Phone, call: Call) {
    exists i :: 0 <= i < |steps| && IsCall(Exec(s, steps[..i]), steps[i], k, p, call)
  }

  /** The call explains why the row is settled: it was refused for good, or it brought evidence of a message. */
  predicate Explains(call: Call, row: Row) {
    && (row.status.Failed? ==> call.reply == SendError(true) && row.failedAt == Some(call.now))
    && (row.status.Confirmed() ==>
          && Confirms(call.reply)
          && var r := call.reply.result.value;
          && row.messageId == Text.Trim(r.messageId)
          && row.sentAt == Some(if r.timestamp != 0 then r.timestamp else call.begun))
  }

  ghost predicate Explained(s: State, steps: seq<Step>, k: JobId, p: Phone, row: Row) {
    row.status.Pending? || exists call :: Made(s, steps, k, p, call) && Explains(call, row)
  }

  /** The rows that no call explains. */
  ghost function Puzzles(s: State, steps: seq<Step>, entries: map<JobId, Entry>): set<(JobId, Phone)> {
    set k, p | k in entries && p in entries[k].rows && !Explained(s, steps, k, p, entries[k].rows[p]) :: (k, p)
  }

  /** A worker that is about to save an outcome which no call explains. */
  ghost predicate Puzzled(s: State, steps: seq<Step>, pc: Pc) {
    pc.Record? && !Explained(s, steps, pc.job.id, pc.item.phone, pc.item.row)
  }

  ghost predicate RowsExplained(s: State, steps: seq<Step>, entries: map<JobId, Entry>) {
    Puzzles(s, steps, entries) == {}
  }

  /** The workers that a call does not explain. */
  ghost function Puzzling(s: State, steps: seq<Step>, workers: seq<Pc>): set<int> {
    set w | 0 <= w < |workers| && Puzzled(s, steps, workers[w])
  }

  ghost predicate WorkersExplained(s: State, steps: seq<Step>, workers: seq<Pc>) {
    Puzzling(s, steps, workers) == {}
  }

  ghost predicate Clear(s: State, steps: seq<Step>) {
    RowsExplained(s, steps, Exec(s, steps).entries) && WorkersExplained(s, steps, Exec(s, steps).workers)
  }

  lemma WorkerExplained(s: State, steps: seq<Step>, w: nat)
    requires Clear(s, steps) && w < |Exec(s, steps).workers|
    ensures !Puzzled(s, steps, Exec(s, steps).workers[w])
  {
    assert w !in Puzzling(s, steps, Exec(s, steps).workers);
  }

  lemma MadeStays(s: State, steps: seq<Step>, step: Step, k: JobId, p: Phone, call: Call)
    requires Made(s, steps, k, p, call)
    ensures Made(s, steps + [step], k, p, call)
  {
    var i :| 0 <= i < |steps| && IsCall(Exec(s, steps[..i]), steps[i], k, p, call);
    assert (steps + [step])[..i] == steps[..i] && (steps + [step])[i] == steps[i];
  }

  lemma ExplainedStays(s: State, steps: seq<Step>, step: Step, k: JobId, p: Phone, row: Row, row': Row)
    requires Explained(s, steps, k, p, row) && SettledAlike(row, row')
    ensures Explained(s, steps + [step], k, p, row')
  {
    if !row'.status.Pending? {
      var call :| Made(s, steps, k, p, call) && Explains(call, row);
      MadeStays(s, steps, step, k, p, call);
      assert Explains(call, row');
    }
  }

  /** If the second row is settled, then the first is settled in the same way. */
  predicate SettledAlike(row: Row, row': Row) {
    && (row'.status.Failed? ==> row.status.Failed? && row'.failedAt == row.failedAt)
    && (row'.status.Confirmed() ==>
          row.status.Confirmed() && row'.messageId == row.messageId && row'.sentAt == row.sentAt)
  }

  predicate KeepsRows(next: Option<Next>, e: Entry) {
    next.Some? ==> next.value.entry.rows == e.rows
  }

  lemma ClosingKeepsRows(pc: Pc, e: Entry, a: WorkerAction)
    ensures KeepsRows(ClosingStep(pc, e, a), e)
  {
  }

  lemma EarlyStepsKeepRows(job: Job, e: Entry, a: WorkerAction)
    ensures KeepsRows(SlotStep(job, e, a), e) && KeepsRows(StartStep(job, e, a), e)
    ensures KeepsRows(ReloadStep(job, e, a), e)
  {
  }

  lemma SendingKeepsRows(job: Job, item: Item, todo: seq<Item>, e: Entry, a: WorkerAction)
    ensures KeepsRows(SendStep(job, item, todo, e, a), e)
  {
  }

  lemma QuietStep(pc: Pc, e: Entry, a: WorkerAction)
    requires !pc.Walk? && !pc.Record? && !pc.Seeding?
    ensures KeepsRows(WorkerStep(pc, e, a), e)
  {
    if pc.Slot? || pc.Start? || pc.Reload? {
      EarlyStepsKeepRows(pc.job, e, a);
    } else if pc.Send? {
      SendingKeepsRows(pc.job, pc.item, pc.todo, e, a);
    } else {
      ClosingKeepsRows(pc, e, a);
    }
  }

  lemma SeedingRows(job: Job, phones: seq<Phone>, e: Entry, a: WorkerAction, p: Phone)
    requires SeedingStep(job, phones, e, a).Some? && p in SeedingStep(job, phones, e, a).value.entry.rows
    ensures var row := SeedingStep(job, phones, e, a).value.entry.rows[p];
      row.status.Pending? || (p in e.rows && row == e.rows[p])
  {
  }

  /** What a worker step does to the rows: it adds pending ones, resets pending ones, or saves its outcome. */
  lemma WorkRows(pc: Pc, e: Entry, a: WorkerAction, p: Phone)
    requires WorkerStep(pc, e, a).Some? && p in WorkerStep(pc, e, a).value.entry.rows
    ensures var row := WorkerStep(pc, e, a).value.entry.rows[p];
      || row.status.Pending? || (p in e.rows && row == e.rows[p])
      || (pc.Record? && p == pc.item.phone && row == pc.item.row)
  {
    match pc
    case Walk(job, todo) => assert WorkerStep(pc, e, a) == WalkStep(job, todo, e, a);
    case Record(job, item, more, todo) => assert WorkerStep(pc, e, a) == RecordStep(job, item, more, todo, e, a);
    case Seeding(job, phones) => SeedingRows(job, phones, e, a, p);
    case _ => QuietStep(pc, e, a);
  }

  /** A worker comes to save an outcome only by a SendText call, whose answer decides the row. */
  lemma RecordComesFromCall(pc: Pc, e: Entry, a: WorkerAction)
    requires EntryOk(e) && PcOk(pc, e) && WorkerStep(pc, e, a).Some? && WorkerStep(pc, e, a).value.pc.Record?
    ensures pc.Send? && a.Transmit? && pc.item.row.lastAttemptAt.Some?
    ensures var pc' := WorkerStep(pc, e, a).value.pc;
      && pc'.job == pc.job && pc'.item.phone == pc.item.phone
      && (pc'.item.row.status.Pending?
          || Explains(Call(a.reply, a.now, pc.item.row.lastAttemptAt.value), pc'.item.row))
  {
    assert pc.Send? && a.Transmit?;
    assert WorkerStep(pc, e, a) == SendStep(pc.job, pc.item, pc.todo, e, a);
    assert RecipientOk(e, pc.item.phone);
    AnsweredOk(pc.item.row, a.reply, a.now);
  }

  lemma CallMade(s: State, steps: seq<Step>, step: Step, k: JobId, p: Phone, call: Call)
    requires IsCall(Exec(s, steps), step, k, p, call)
    ensures Made(s, steps + [step], k, p, call)
  {
    var all := steps + [step];
    assert all[..|steps|] == steps && all[|steps|] == step;
  }

  lemma RowExplained(s: State, steps: seq<Step>, k: JobId, p: Phone)
    requires Clear(s, steps) && k in Exec(s, steps).entries && p in Exec(s, steps).entries[k].rows
    ensures Explained(s, steps, k, p, Exec(s, steps).entries[k].rows[p])
  {
    assert (k, p) !in Puzzles(s, steps, Exec(s, steps).entries);
  }

  lemma ReceiptKeepsOutcome(e: Entry, r: Receipt, p: Phone)
    requires EntryOk(e) && p in e.rows
    ensures SettledAlike(e.rows[p], Receive(e, r).rows[p])
  {
    assert RecipientOk(e, p);
    ReceiptAdvances(e.rows[p], r);
  }

  lemma SnapshotKeepsOutcome(e: Entry, contacts: seq<Contact>, save: Save, p: Phone)
    requires p in Snapshot(e, contacts, save).rows
    ensures var row' := Snapshot(e, contacts, save).rows[p];
      row'.status.Pending? || (p in e.rows && SettledAlike(e.rows[p], row'))
  {
  }

  /** The row, if it was there before, is settled as it was; a new one is pending. */
  predicate KeepsOutcome(before: map<JobId, Entry>, after: map<JobId, Entry>, k: JobId, p: Phone)
    requires k in after && p in after[k].rows
  {
    || after[k].rows[p].status.Pending?
    || (k in before && p in before[k].rows && SettledAlike(before[k].rows[p], after[k].rows[p]))
  }

  lemma ReceiptsKeepOutcomes(entries: map<JobId, Entry>, r: Receipt, k: JobId, p: Phone)
    requires EntriesOk(entries) && k in entries && p in entries[k].rows
    ensures KeepsOutcome(entries, ReceiveAll(entries, r), k, p)
  {
    ReceiptKeepsOutcome(entries[k], r, p);
  }

  lemma SnapshotsKeepOutcomes(s: State, id: JobId, contacts: seq<Contact>, save: Save, k: JobId, p: Phone)
    requires id in s.entries && s.entries[id].seeding && k in s.entries
    requires p in s.entries[id := Snapshot(s.entries[id], contacts, save)][k].rows
    ensures KeepsOutcome(s.entries, s.entries[id := Snapshot(s.entries[id], contacts, save)], k, p)
  {
    if k == id { SnapshotKeepsOutcome(s.entries[k], contacts, save, p); }
  }

  lemma TableStepsKeepRows(s: State, step: Step, k: JobId, p: Phone)
    requires Inv(s) && (step.Deliver? || step.SeedSnapshot?)
    requires k in Do(s, step).entries && p in Do(s, step).entries[k].rows
    ensures KeepsOutcome(s.entries, Do(s, step).entries, k, p)
  {
    match step
    case Deliver(r) => ReceiptsKeepOutcomes(s.entries, r, k, p);
    case SeedSnapshot(id, contacts, save) =>
      if id in s.entries && s.entries[id].seeding { SnapshotsKeepOutcomes(s, id, contacts, save, k, p); }
  }

  lemma CreateKeepsRows(s: State, step: Step, k: JobId, p: Phone)
    requires step.Create? && k in Do(s, step).entries && p in Do(s, step).entries[k].rows
    ensures KeepsOutcome(s.entries, Do(s, step).entries, k, p)
  {
    assert k in s.entries && Do(s, step).entries[k] == s.entries[k];
  }

  lemma ProcessStepsKeepRows(s: State, step: Step, k: JobId, p: Phone)
    requires step.Claim? || step.Restart? || step.Measure? || step.ClaimError? || step.Enqueue? || step.Take?
    requires k in Do(s, step).entries && p in Do(s, step).entries[k].rows
    ensures KeepsOutcome(s.entries, Do(s, step).entries, k, p)
  {
    assert Do(s, step).entries[k].rows == s.entries[k].rows;
  }

  /** Only the worker that holds the job settles a row in another way. */
  lemma OtherStepsKeepRows(s: State, step: Step, k: JobId, p: Phone)
    requires Inv(s) && !step.Work? && k in Do(s, step).entries && p in Do(s, step).entries[k].rows
    ensures KeepsOutcome(s.entries, Do(s, step).entries, k, p)
  {
    if step.Deliver? || step.SeedSnapshot? {
      TableStepsKeepRows(s, step, k, p);
    } else if step.Create? {
      CreateKeepsRows(s, step, k, p);
    } else {
      ProcessStepsKeepRows(s, step, k, p);
    }
  }

  lemma OtherStepsKeepWorkers(s: State, step: Step, w: nat)
    requires !step.Work? && w < |Do(s, step).workers| && Do(s, step).workers[w].Record?
    ensures w < |s.workers| && Do(s, step).workers[w] == s.workers[w]
  {
  }

  lemma OtherStepClearsRow(s: State, steps: seq<Step>, step: Step, now': State, k: JobId, p: Phone)
    requires Inv(Exec(s, steps)) && Clear(s, steps) && !step.Work? && now' == Do(Exec(s, steps), step)
    requires k in now'.entries && p in now'.entries[k].rows
    ensures Explained(s, steps + [step], k, p, now'.entries[k].rows[p])
  {
    var now := Exec(s, steps);
    OtherStepsKeepRows(now, step, k, p);
    if !now'.entries[k].rows[p].status.Pending? {
      RowExplained(s, steps, k, p);
      ExplainedStays(s, steps, step, k, p, now.entries[k].rows[p], now'.entries[k].rows[p]);
    }
  }

  lemma OtherStepClearsWorker(s: State, steps: seq<Step>, step: Step, now': State, w: nat)
    requires Clear(s, steps) && !step.Work? && now' == Do(Exec(s, steps), step) && w < |now'.workers|
    ensures !Puzzled(s, steps + [step], now'.workers[w])
  {
    if now'.workers[w].Record? {
      OtherStepsKeepWorkers(Exec(s, steps), step, w);
      WorkerExplained(s, steps, w);
      StillClear(s, steps, step, now'.workers[w]);
    }
  }

  lemma OtherStepClear(s: State, steps: seq<Step>, step: Step)
    requires Inv(Exec(s, steps)) && Clear(s, steps) && !step.Work?
    ensures Clear(s, steps + [step])
  {
    var now' := Do(Exec(s, steps), step);
    forall k, p | k in now'.entries && p in now'.entries[k].rows
      ensures Explained(s, steps + [step], k, p, now'.entries[k].rows[p])
    {
      OtherStepClearsRow(s, steps, step, now', k, p);
    }
    forall w | 0 <= w < |now'.workers| ensures !Puzzled(s, steps + [step], now'.workers[w]) {
      OtherStepClearsWorker(s, steps, step, now', w);
    }
    ClearAfter(s, steps, step, now');
  }

  /** What is left to show of a state after one more step. */
  lemma ClearAfter(s: State, steps: seq<Step>, step: Step, now': State)
    requires now' == Do(Exec(s, steps), step)
    requires RowsExplained(s, steps + [step], now'.entries) && WorkersExplained(s, steps + [step], now'.workers)
    ensures Clear(s, steps + [step])
  {
    assert (steps + [step])[..|steps|] == steps;
  }

  lemma StillClear(s: State, steps: seq<Step>, step: Step, pc: Pc)
    requires !Puzzled(s, steps, pc)
    ensures !Puzzled(s, steps + [step], pc)
  {
    if pc.Record? {
      ExplainedStays(s, steps, step, pc.job.id, pc.item.phone, pc.item.row, pc.item.row);
    }
  }

  /** The rows of the job that the step works on. */
  lemma WorkExplains(s: State, steps: seq<Step>, w: nat, a: WorkerAction, p: Phone)
    requires Inv(Exec(s, steps)) && Clear(s, steps) && Enabled(Exec(s, steps), w, a)
    requires var pc := Exec(s, steps).workers[w];
      p in WorkerStep(pc, Exec(s, steps).entries[pc.job.id], a).value.entry.rows
    ensures var pc := Exec(s, steps).workers[w];
      var row := WorkerStep(pc, Exec(s, steps).entries[pc.job.id], a).value.entry.rows[p];
      Explained(s, steps + [Work(w, a)], pc.job.id, p, row)
  {
    var now, pc := Exec(s, steps), Exec(s, steps).workers[w];
    var e, k := now.entries[pc.job.id], pc.job.id;
    var row := WorkerStep(pc, e, a).value.entry.rows[p];
    WorkRows(pc, e, a, p);
    if p in e.rows && row == e.rows[p] {
      RowExplained(s, steps, k, p);
      ExplainedStays(s, steps, Work(w, a), k, p, row, row);
    } else if !row.status.Pending? {
      WorkerExplained(s, steps, w);
      ExplainedStays(s, steps, Work(w, a), k, p, row, row);
    }
  }

  /** The worker that takes the step. */
  lemma WorkerExplains(s: State, steps: seq<Step>, w: nat, a: WorkerAction)
    requires Inv(Exec(s, steps)) && Enabled(Exec(s, steps), w, a)
    ensures var pc := Exec(s, steps).workers[w];
      !Puzzled(s, steps + [Work(w, a)], WorkerStep(pc, Exec(s, steps).entries[pc.job.id], a).value.pc)
  {
    var now, pc := Exec(s, steps), Exec(s, steps).workers[w];
    var pc' := WorkerStep(pc, now.entries[pc.job.id], a).value.pc;
    if pc'.Record? {
      assert WorkerOk(now.entries, pc);
      RecordComesFromCall(pc, now.entries[pc.job.id], a);
      var call := Call(a.reply, a.now, pc.item.row.lastAttemptAt.value);
      CallMade(s, steps, Work(w, a), pc.job.id, pc.item.phone, call);
    }
  }

  lemma WorkClearsRow(s: State, steps: seq<Step>, w: nat, a: WorkerAction, now': State, k: JobId, p: Phone)
    requires Inv(Exec(s, steps)) && Clear(s, steps) && Enabled(Exec(s, steps), w, a)
    requires now' == WorkAt(Exec(s, steps), w, a) && k in now'.entries && p in now'.entries[k].rows
    ensures Explained(s, steps + [Work(w, a)], k, p, now'.entries[k].rows[p])
  {
    var now := Exec(s, steps);
    if k == now.workers[w].job.id {
      WorkExplains(s, steps, w, a, p);
    } else {
      RowExplained(s, steps, k, p);
      ExplainedStays(s, steps, Work(w, a), k, p, now.entries[k].rows[p], now.entries[k].rows[p]);
    }
  }

  lemma WorkClearsWorker(s: State, steps: seq<Step>, w: nat, a: WorkerAction, now': State, v: nat)
    requires Inv(Exec(s, steps)) && Clear(s, steps) && Enabled(Exec(s, steps), w, a)
    requires now' == WorkAt(Exec(s, steps), w, a) && v < |now'.workers|
    ensures !Puzzled(s, steps + [Work(w, a)], now'.workers[v])
  {
    if v == w {
      WorkerExplains(s, steps, w, a);
    } else {
      WorkerExplained(s, steps, v);
      StillClear(s, steps, Work(w, a), Exec(s, steps).workers[v]);
    }
  }

  lemma WorkClearsRows(s: State, steps: seq<Step>, w: nat, a: WorkerAction, now': State)
    requires Inv(Exec(s, steps)) && Clear(s, steps) && Enabled(Exec(s, steps), w, a)
    requires now' == WorkAt(Exec(s, steps), w, a)
    ensures RowsExplained(s, steps + [Work(w, a)], now'.entries)
  {
    forall k, p | k in now'.entries && p in now'.entries[k].rows
      ensures Explained(s, steps + [Work(w, a)], k, p, now'.entries[k].rows[p])
    {
      WorkClearsRow(s, steps, w, a, now', k, p);
    }
  }

  lemma WorkClearsWorkers(s: State, steps: seq<Step>, w: nat, a: WorkerAction, now': State)
    requires Inv(Exec(s, steps)) && Clear(s, steps) && Enabled(Exec(s, steps), w, a)
    requires now' == WorkAt(Exec(s, steps), w, a)
    ensures WorkersExplained(s, steps + [Work(w, a)], now'.workers)
  {
    forall v | 0 <= v < |now'.workers| ensures !Puzzled(s, steps + [Work(w, a)], now'.workers[v]) {
      WorkClearsWorker(s, steps, w, a, now', v);
    }
  }

  lemma WorkClear(s: State, steps: seq<Step>, w: nat, a: WorkerAction)
    requires Inv(Exec(s, steps)) && Clear(s, steps) && Enabled(Exec(s, steps), w, a)
    ensures Clear(s, steps + [Work(w, a)])
  {
    WorkClearsRows(s, steps, w, a, WorkAt(Exec(s, steps), w, a));
    WorkClearsWorkers(s, steps, w, a, WorkAt(Exec(s, steps), w, a));
    ClearAfterWork(s, steps, w, a);
  }

  lemma ClearAfterWork(s: State, steps: seq<Step>, w: nat, a: WorkerAction)
    requires RowsExplained(s, steps + [Work(w, a)], WorkAt(Exec(s, steps), w, a).entries)
    requires WorkersExplained(s, steps + [Work(w, a)], WorkAt(Exec(s, steps), w, a).workers)
    ensures Clear(s, steps + [Work(w, a)])
  {
    WorkIsStep(Exec(s, steps), w, a);
    ClearAfter(s, steps, Work(w, a), WorkAt(Exec(s, steps), w, a));
  }

  lemma WorkIsStep(s: State, w: nat, a: WorkerAction)
    ensures WorkAt(s, w, a) == Do(s, Work(w, a))
  {
  }

  lemma IdleStepClear(s: State, steps: seq<Step>, step: Step)
    requires Clear(s, steps) && Do(Exec(s, steps), step) == Exec(s, steps)
    ensures Clear(s, steps + [step])
  {
    var now := Exec(s, steps);
    forall k, p | k in now.entries && p in now.entries[k].rows
      ensures Explained(s, steps + [step], k, p, now.entries[k].rows[p])
    {
      RowExplained(s, steps, k, p);
      ExplainedStays(s, steps, step, k, p, now.entries[k].rows[p], now.entries[k].rows[p]);
    }
    forall w | 0 <= w < |now.workers| ensures !Puzzled(s, steps + [step], now.workers[w]) {
      WorkerExplained(s, steps, w);
      StillClear(s, steps, step, now.workers[w]);
    }
    ClearAfter(s, steps, step, now);
  }

  lemma {:induction false} AllClear(workers: int, claimBatch: int, steps: seq<Step>)
    ensures Clear(Initial(workers, claimBatch), steps)
    decreases |steps|
  {
    var s := Initial(workers, claimBatch);
    if steps != [] {
      var n := |steps| - 1;
      var step := steps[n];
      assert steps == steps[..n] + [step];
      AllClear(workers, claimBatch, steps[..n]);
      AfterOk(workers, claimBatch, steps[..n]);
      if !step.Work? {
        OtherStepClear(s, steps[..n], step);
      } else if Enabled(Exec(s, steps[..n]), step.w, step.a) {
        WorkClear(s, steps[..n], step.w, step.a);
      } else {
        IdleStepClear(s, steps[..n], step);
      }
    }
  }

  /**
   In every run, a recipient is failed only if SendText was called for it and answered with a permanent error, at the
   time that is recorded; a retryable error, an unconfirmed answer or a crash never fails one. And one is sent only if
   some call for it brought evidence of a message, whose trimmed id and time are those of the row.
   */
  lemma SettledByItsCall(workers: int, claimBatch: int, steps: seq<Step>, k: JobId, p: Phone)
    requires k in After(workers, claimBatch, steps).entries && p in After(workers, claimBatch, steps).entries[k].rows
    ensures var row := After(workers, claimBatch, steps).entries[k].rows[p];
      !row.status.Pending? ==> exists i, call ::
        && 0 <= i < |steps| && IsCall(After(workers, claimBatch, steps[..i]), steps[i], k, p, call)
        && Explains(call, row)
  {
    var s := Initial(workers, claimBatch);
    var row := After(workers, claimBatch, steps).entries[k].rows[p];
    AllClear(workers, claimBatch, steps);
    RowExplained(s, steps, k, p);
    if !row.status.Pending? {
      var call :| Made(s, steps, k, p, call) && Explains(call, row);
      var i :| 0 <= i < |steps| && IsCall(Exec(s, steps[..i]), steps[i], k, p, call);
      assert IsCall(After(workers, claimBatch, steps[..i]), steps[i], k, p, call);
    }
  }

  // ------------------------------------------------------- what was counted

  /** In that state, the step hands phone p of job k to SendText. */
  predicate Sends(s: State, step: Step, k: JobId, p: Phone) {
    && step.Work? && step.a.Transmit? && Enabled(s, step.w, step.a)
    && s.workers[step.w].Send? && s.workers[step.w].job.id == k && s.workers[step.w].item.phone == p
  }

  /** How often a run does. */
  function SendsOf(s: State, steps: seq<Step>, k: JobId, p: Phone): nat
    decreases |steps|
  {
    if steps == [] then 0
    else
      var n := |steps| - 1;
      SendsOf(s, steps[..n], k, p) + Count(Sends(Exec(s, steps[..n]), steps[n], k, p))
  }

  /** And how often the answer is evidence of a message. */
  function ConfirmationsOf(s: State, steps: seq<Step>, k: JobId, p: Phone): nat
    decreases |steps|
  {
    if steps == [] then 0
    else
      var n := |steps| - 1;
      ConfirmationsOf(s, steps[..n], k, p)
      + Count(Sends(Exec(s, steps[..n]), steps[n], k, p) && Confirms(steps[n].a.reply))
  }

  /** The entry tells of one more call, with one more confirmation or not. */
  ghost predicate CountsUp(e: Entry, e': Entry, p: Phone, called: bool, confirmed: bool) {
    e'.calls[p] == e.calls[p] + Count(called) && e'.confirmed[p] == e.confirmed[p] + Count(confirmed)
  }

  lemma AnswerTells(row: Row, reply: SendReply, now: int)
    ensures Answered(row, reply, now).0.status.Sent? <==> Confirms(reply)
  {
  }

  lemma SendingCounts(job: Job, item: Item, todo: seq<Item>, e: Entry, a: WorkerAction, p: Phone)
    requires SendStep(job, item, todo, e, a).Some?
    ensures var called := a.Transmit? && item.phone == p;
      CountsUp(e, SendStep(job, item, todo, e, a).value.entry, p, called, called && Confirms(a.reply))
  {
    if a.Transmit? {
      AnswerTells(item.row, a.reply, a.now);
    }
  }

  lemma OthersDoNotCount(pc: Pc, e: Entry, a: WorkerAction, p: Phone)
    requires WorkerStep(pc, e, a).Some? && !pc.Send?
    ensures CountsUp(e, WorkerStep(pc, e, a).value.entry, p, false, false)
  {
  }

  lemma StepCounts(s: State, step: Step, k: JobId, p: Phone)
    requires k in s.entries
    ensures k in Do(s, step).entries
    ensures var sends := Sends(s, step, k, p);
      CountsUp(s.entries[k], Do(s, step).entries[k], p, sends, sends && Confirms(step.a.reply))
  {
    if step.Work? {
      WorkIsStep(s, step.w, step.a);
      WorkCounts(s, step.w, step.a, k, p);
    }
  }

  lemma WorkCounts(s: State, w: nat, a: WorkerAction, k: JobId, p: Phone)
    requires k in s.entries
    ensures k in WorkAt(s, w, a).entries
    ensures var sends := Sends(s, Work(w, a), k, p);
      CountsUp(s.entries[k], WorkAt(s, w, a).entries[k], p, sends, sends && Confirms(a.reply))
  {
    if Enabled(s, w, a) && s.workers[w].job.id == k {
      var pc := s.workers[w];
      if pc.Send? {
        SendingCounts(pc.job, pc.item, pc.todo, s.entries[k], a, p);
      } else {
        OthersDoNotCount(pc, s.entries[k], a, p);
      }
    }
  }

  lemma NobodySendsYet(s: State, step: Step, k: JobId, p: Phone)
    requires k !in s.entries
    ensures !Sends(s, step, k, p)
    ensures k in Do(s, step).entries ==> Do(s, step).entries[k].calls[p] == Do(s, step).entries[k].confirmed[p] == 0
  {
  }

  lemma {:induction false} SendsCounted(s: State, steps: seq<Step>, k: JobId, p: Phone)
    requires k !in s.entries
    ensures var entries := Exec(s, steps).entries;
      && SendsOf(s, steps, k, p) == (if k in entries then entries[k].calls[p] else 0)
      && ConfirmationsOf(s, steps, k, p) == (if k in entries then entries[k].confirmed[p] else 0)
    decreases |steps|
  {
    if steps != [] {
      var n := |steps| - 1;
      SendsCounted(s, steps[..n], k, p);
      if k in Exec(s, steps[..n]).entries {
        StepCounts(Exec(s, steps[..n]), steps[n], k, p);
      } else {
        NobodySendsYet(Exec(s, steps[..n]), steps[n], k, p);
      }
    }
  }

  /**
   The counts that the history keeps are those of the run: how often its steps hand a phone to SendText, and how often
   that brings evidence of a message. So a phone is called at most once in each attempt of its job.
   */
  lemma HistoryIsTrue(workers: int, claimBatch: int, steps: seq<Step>, k: JobId, p: Phone)
    requires k in After(workers, claimBatch, steps).entries
    ensures var s, e := Initial(workers, claimBatch), After(workers, claimBatch, steps).entries[k];
      && SendsOf(s, steps, k, p) == e.calls[p] <= ClaimsOf(s, steps, k) <= e.job.maxAttempts
      && ConfirmationsOf(s, steps, k, p) == e.confirmed[p]
  {
    SendsCounted(Initial(workers, claimBatch), steps, k, p);
    SendsAreBounded(workers, claimBatch, steps, k, p);
    ClaimsAreBounded(workers, claimBatch, steps, k);
  }

  lemma {:induction false} SendsOfFuture(s: State, past: seq<Step>, future: seq<Step>, k: JobId, p: Phone)
    ensures SendsOf(s, past + future, k, p) == SendsOf(s, past, k, p) + SendsOf(Exec(s, past), future, k, p)
    decreases |future|
  {
    if future == [] {
      assert past + future == past;
    } else {
      var n := |future| - 1;
      assert (past + future)[..|past + future| - 1] == past + future[..n];
      SendsOfFuture(s, past, future[..n], k, p);
      ExecAppend(s, past, future[..n]);
    }
  }

  /** Once a recipient has left pending, no step of any continuation hands its phone to SendText. */
  lemma NoStepSendsAgain(workers: int, claimBatch: int, past: seq<Step>, future: seq<Step>, k: JobId, p: Phone)
    requires k in After(workers, claimBatch, past).entries && p in After(workers, claimBatch, past).entries[k].rows
    requires !After(workers, claimBatch, past).entries[k].rows[p].status.Pending?
    ensures SendsOf(After(workers, claimBatch, past), future, k, p) == 0
  {
    var s := Initial(workers, claimBatch);
    NeverResent(workers, claimBatch, past, future, k, p);
    SendsCounted(s, past, k, p);
    SendsCounted(s, past + future, k, p);
    SendsOfFuture(s, past, future, k, p);
  }

  /** What is saved, and handed on to SendText, when an attempt for the next recipient begins. */
  lemma AttemptIsRecorded(job: Job, todo: seq<Item>, e: Entry, at: int, save: Save)
    requires todo != []
    ensures var step := WorkerStep(Walk(job, todo), e, Begin(at, save));
      var row := todo[0].row.(status := Pending, attempts := todo[0].row.attempts + 1, lastAttemptAt := Some(at));
      && step.Some?
      && step.value.entry == (if save.Missed? then e else e.(rows := e.rows[todo[0].phone := row]))
      && step.value.pc == if save.Saved? then Send(job, Item(todo[0].phone, row), todo[1..]) else Failing(job, true)
  {
  }

  // ------------------------------------------------------- what is retried

  /**
   In every run, a failed attempt whose update reaches the table sends the job back to the queue if and only if the
   error is retryable and attempts are left; it is then available 15 s, 1 min or 5 min later, after the first, the
   second or a later attempt. Otherwise the job is failed. Nothing else about it changes.
   */
  lemma RetriedExactly(workers: int, claimBatch: int, past: seq<Step>, w: nat, now: int, save: Save)
    requires w < |After(workers, claimBatch, past).workers| && After(workers, claimBatch, past).workers[w].Failing?
    ensures var pc := After(workers, claimBatch, past).workers[w];
      var before := After(workers, claimBatch, past).entries;
      var after := After(workers, claimBatch, past + [Work(w, Fail(now, save))]).entries;
      && pc.job.id in before && pc.job.id in after && before[pc.job.id].job == pc.job
      && (save.Applied() ==> FailureWrites(pc.job, pc.retryable, now, after[pc.job.id].job))
      && (!save.Applied() ==> after[pc.job.id].job == pc.job)
      && (forall k <- before :: k != pc.job.id ==> k in after && after[k] == before[k])
  {
    var s, pc := After(workers, claimBatch, past), After(workers, claimBatch, past).workers[w];
    AfterOk(workers, claimBatch, past);
    HolderKnows(s, w);
    FailingStep(pc.job, pc.retryable, s.entries[pc.job.id], now, save);
    assert (past + [Work(w, Fail(now, save))])[..|past|] == past;
  }

  lemma FailingStep(job: Job, retryable: bool, e: Entry, now: int, save: Save)
    requires e.job == job
    ensures var step := WorkerStep(Failing(job, retryable), e, Fail(now, save));
      && step.Some?
      && (save.Applied() ==> FailureWrites(job, retryable, now, step.value.entry.job))
      && (!save.Applied() ==> step.value.entry.job == job)
  {
  }

  // ------------------------------------------------------ what Create inserts

  /** The validation errors of Create. */
  predicate Refuses(input: CreateInput, now: int) {
    || Text.Trim(input.instance) == "" || Text.Trim(input.message) == ""
    || input.delaySec < 0 || input.ratePerHour < 0 || input.maxAttempts < 0
    || (input.scheduledAt.Some? && input.scheduledAt.value < now)
  }

  /** The job asks for what the request asks for; it is available at the later of its delay and its schedule. */
  predicate AsRequested(job: Job, id: JobId, tenant: string, input: CreateInput, now: int) {
    && job.id == id && job.tenant == tenant && job.ratePerHour == input.ratePerHour
    && job.instance == Text.Trim(input.instance) && job.message == Text.Trim(input.message)
    && job.status == Queued && job.attempts == 0 && job.createdAt == now
    && (input.maxAttempts == 0 ==> job.maxAttempts == 3)
    && (input.maxAttempts != 0 ==> job.maxAttempts == input.maxAttempts)
    && now + input.delaySec * 1_000_000_000 <= job.availableAt
    && (input.scheduledAt.Some? ==> input.scheduledAt.value <= job.availableAt)
    && (job.availableAt == now + input.delaySec * 1_000_000_000 || input.scheduledAt == Some(job.availableAt))
  }

  lemma CreatedAsRequested(id: JobId, tenant: string, input: CreateInput, now: int)
    ensures NewJob(id, tenant, input, now).None? <==> Refuses(input, now)
    ensures NewJob(id, tenant, input, now).Some? ==>
      AsRequested(NewJob(id, tenant, input, now).value, id, tenant, input, now)
  {
  }

  /** The step creates the job, by a request that asks for it not to be sent before that time. */
  predicate CreatesFor(s: State, step: Step, k: JobId, from: int) {
    && step.Create? && step.id == k && k !in s.entries && !Refuses(step.input, step.now)
    && (from == step.now + step.input.delaySec * 1_000_000_000 || step.input.scheduledAt == Some(from))
  }

  /** When a step reads the clock for the sake of the job table. */
  function TimeOf(step: Step): Option<int> {
    match step
    case Claim(_, now) => Some(now)
    case Work(_, Fail(now, _)) => Some(now)
    case _ => None
  }

  /** The clock does not run backwards between claims and failures. */
  predicate Timely(steps: seq<Step>) {
    forall i, j :: 0 <= i < j < |steps| && TimeOf(steps[i]).Some? && TimeOf(steps[j]).Some? ==>
      TimeOf(steps[i]).value <= TimeOf(steps[j]).value
  }

  /** The job is not available before that time, and was not claimed before it in these steps. */
  ghost predicate Awaits(s: State, steps: seq<Step>, k: JobId, from: int) {
    && k in Exec(s, steps).entries && from <= Exec(s, steps).entries[k].job.availableAt
    && (Exec(s, steps).entries[k].job.attempts > 0 ==> ClaimedSince(steps, from))
  }

  /** Only a failed attempt makes a job available at another time, and only a claim begins an attempt. */
  lemma StepKeepsAvailable(s: State, step: Step, k: JobId)
    requires Inv(s) && k in s.entries
    ensures k in Do(s, step).entries
    ensures Do(s, step).entries[k].job.attempts == s.entries[k].job.attempts ||
      (step.Claim? && Claimable(s, step.ids, step.now) && k in step.ids)
    ensures Do(s, step).entries[k].job.availableAt == s.entries[k].job.availableAt ||
      (step.Work? && step.a.Fail? && s.entries[k].job.attempts > 0
       && step.a.now <= Do(s, step).entries[k].job.availableAt)
  {
    OnlyClaimsCount(s, step, k);
    if step.Work? {
      WorkKeepsAvailable(s, step.w, step.a, k);
    }
  }

  lemma WorkKeepsAvailable(s: State, w: nat, a: WorkerAction, k: JobId)
    requires Inv(s) && k in s.entries
    ensures var job' := WorkAt(s, w, a).entries[k].job;
      job'.availableAt == s.entries[k].job.availableAt ||
      (a.Fail? && s.entries[k].job.attempts > 0 && a.now <= job'.availableAt)
  {
    if Enabled(s, w, a) && s.workers[w].job.id == k {
      HolderKnows(s, w);
      StepAvailability(s.workers[w], s.entries[k], a);
    }
  }

  lemma StepAvailability(pc: Pc, e: Entry, a: WorkerAction)
    requires WorkerStep(pc, e, a).Some? && pc.job == e.job
    ensures var job' := WorkerStep(pc, e, a).value.entry.job;
      job'.availableAt == e.job.availableAt || (a.Fail? && a.now <= job'.availableAt)
  {
    if pc.Failing? {
      FailingStep(pc.job, pc.retryable, e, a.now, a.save);
    } else if !pc.Summing? && !pc.Marking? {
      OthersKeepJob(pc, e, a);
    }
  }

  /** Some step claims jobs at that time or later. */
  ghost predicate ClaimedSince(steps: seq<Step>, from: int) {
    exists i :: 0 <= i < |steps| && steps[i].Claim? && from <= steps[i].now
  }

  lemma ClaimedStays(steps: seq<Step>, step: Step, from: int)
    requires ClaimedSince(steps, from) || (step.Claim? && from <= step.now)
    ensures ClaimedSince(steps + [step], from)
  {
    if ClaimedSince(steps, from) {
      var i :| 0 <= i < |steps| && steps[i].Claim? && from <= steps[i].now;
      assert (steps + [step])[i] == steps[i];
    } else {
      assert (steps + [step])[|steps|] == step;
    }
  }

  lemma FailsLater(steps: seq<Step>, step: Step, from: int)
    requires ClaimedSince(steps, from) && Timely(steps + [step]) && step.Work? && step.a.Fail?
    ensures from <= step.a.now
  {
    var i :| 0 <= i < |steps| && steps[i].Claim? && from <= steps[i].now;
    var all := steps + [step];
    assert TimeOf(all[i]) == Some(steps[i].now) && TimeOf(all[|steps|]) == Some(step.a.now);
  }

  lemma AwaitsStep(s: State, steps: seq<Step>, step: Step, k: JobId, from: int)
    requires Inv(Exec(s, steps)) && Awaits(s, steps, k, from) && Timely(steps + [step])
    ensures Awaits(s, steps + [step], k, from)
  {
    var now := Exec(s, steps);
    StepKeepsAvailable(now, step, k);
    if now.entries[k].job.attempts > 0 {
      ClaimedStays(steps, step, from);
      if step.Work? && step.a.Fail? {
        FailsLater(steps, step, from);
      }
    } else if step.Claim? && Claimable(now, step.ids, step.now) && k in step.ids {
      assert Due(now.entries[k], step.now);
      ClaimedStays(steps, step, from);
    }
    assert (steps + [step])[..|steps|] == steps;
  }

  lemma {:induction false} AwaitsLater(s: State, steps: seq<Step>, k: JobId, from: int)
    requires Inv(s) && Awaits(s, [], k, from) && Timely(steps)
    ensures Awaits(s, steps, k, from)
    decreases |steps|
  {
    if steps != [] {
      var n := |steps| - 1;
      assert steps == steps[..n] + [steps[n]];
      AwaitsLater(s, steps[..n], k, from);
      ExecOk(s, steps[..n]);
      AwaitsStep(s, steps[..n], steps[n], k, from);
    }
  }

  /**
   In every run whose clock does not run backwards, no attempt of a job begins before the time that it is scheduled
   for, nor before its delay has passed, however often it fails and is retried.
   */
  lemma NotClaimedEarly(workers: int, claimBatch: int, past: seq<Step>, create: Step, k: JobId, from: int,
                        future: seq<Step>, ids: seq<JobId>, now: int)
    requires CreatesFor(After(workers, claimBatch, past), create, k, from) && Timely(future)
    requires Claimable(After(workers, claimBatch, past + [create] + future), ids, now) && k in ids
    ensures from <= now
  {
    var s := After(workers, claimBatch, past + [create]);
    AfterOk(workers, claimBatch, past + [create]);
    assert (past + [create])[..|past|] == past;
    CreatedAsRequested(k, create.tenant, create.input, create.now);
    AwaitsLater(s, future, k, from);
    ExecAppend(Initial(workers, claimBatch), past + [create], future);
    assert Due(After(workers, claimBatch, past + [create] + future).entries[k], now);
  }

  /** The first attempt does not begin early whatever the clock does. */
  lemma FirstClaimNotEarly(workers: int, claimBatch: int, past: seq<Step>, create: Step, k: JobId, from: int,
                           future: seq<Step>, ids: seq<JobId>, now: int)
    requires CreatesFor(After(workers, claimBatch, past), create, k, from)
    requires var s := After(workers, claimBatch, past + [create] + future);
      Claimable(s, ids, now) && k in ids && s.entries[k].job.attempts == 0
    ensures from <= now
  {
    assert (past + [create])[..|past|] == past;
    CreatedAsRequested(k, create.tenant, create.input, create.now);
    LaterEvolves(workers, claimBatch, past + [create], future, k);
    assert Due(After(workers, claimBatch, past + [create] + future).entries[k], now);
  }
}
