/**
 The broadcast service as a whole: the two tables, one dispatcher, a bounded
 channel and any number of workers, under every interleaving of their atomic
 steps with Create calls, delivery receipts and restarts of the process.
 */
module BroadcastSystem {
  import opened Wrappers
  import opened Recipients
  import opened Delivery
  import SlotLimiter
  import Text

  /** Where the dispatcher stands in claimAndEnqueue. */
  datatype Dispatcher = Resting | Claiming(limit: nat) | Handing(jobs: seq<Job>)

  datatype State = State(
    entries: map<JobId, Entry>,
    dispatcher: Dispatcher,
    queue: seq<Job>,
    workers: seq<Pc>,
    claimBatch: nat,
    grants: seq<SlotLimiter.Grant>, // the slots granted by this process, which is what its limiter remembers
    drops: nat)                     // history: how often tryEnqueue found the channel full

  function Capacity(s: State): nat {
    4 * |s.workers|
  }

  /** NewService: a non-positive worker count or batch size is replaced. */
  function Initial(workers: int, claimBatch: int): State {
    var n := if workers <= 0 then 1 else workers;
    State(map[], Resting, [], seq(n, _ => Idle), if claimBatch <= 0 then n else claimBatch, [], 0)
  }

  datatype CreateInput = CreateInput(
    instance: string,
    message: string,
    ratePerHour: int,
    delaySec: int,
    maxAttempts: int,
    scheduledAt: Option<int>)

  /** The validation of Create and the job it inserts; None is a validation error. */
  function NewJob(id: JobId, tenant: string, input: CreateInput, now: int): Option<Job> {
    var instance, message := Text.Trim(input.instance), Text.Trim(input.message);
    if instance == "" || message == "" || input.delaySec < 0 || input.ratePerHour < 0 || input.maxAttempts < 0 then None
    else if input.scheduledAt.Some? && input.scheduledAt.value < now then None
    else
      var delayed := if input.delaySec > 0 then now + input.delaySec * SECOND else now;
      var available := if input.scheduledAt.Some? && input.scheduledAt.value > delayed
        then input.scheduledAt.value else delayed;
      Some(Job(id, tenant, instance, message, input.ratePerHour, Queued, 0,
               if input.maxAttempts <= 0 then 3 else input.maxAttempts, available, now))
  }

  function NewEntry(job: Job): Entry {
    Entry(job, map[], true, false, {}, false, {}, multiset{}, multiset{}, multiset{})
  }

  datatype Step =
    | Create(id: JobId, tenant: string, input: CreateInput, now: int)
    | SeedSnapshot(id: JobId, contacts: seq<Contact>, save: Save)
    | Measure
    | Claim(ids: seq<JobId>, now: int)
    | ClaimError
    | Enqueue
    | Take(w: nat)
    | Work(w: nat, a: WorkerAction)
    | Deliver(r: Receipt)
    | Restart(workers: int, claimBatch: int)

  predicate Due(e: Entry, now: int) {
    e.job.status.Queued? && e.job.availableAt <= now
  }

  function Min(a: nat, b: nat): nat {
    if a < b then a else b
  }

  predicate Claimable(s: State, ids: seq<JobId>, now: int) {
    && s.dispatcher.Claiming?
    && |ids| <= s.dispatcher.limit
    && Distinct(ids)
    && (forall id <- ids :: id in s.entries && Due(s.entries[id], now))
  }

  function ClaimedEntries(entries: map<JobId, Entry>, ids: seq<JobId>): map<JobId, Entry> {
    map k | k in entries :: if k in ids then Claimed(entries[k]) else entries[k]
  }

  function ClaimedJobs(entries: map<JobId, Entry>, ids: seq<JobId>): seq<Job>
    requires forall id <- ids :: id in entries
  {
    seq(|ids|, i requires 0 <= i < |ids| => Claimed(entries[ids[i]]).job)
  }

  /** One step; a step that is not enabled leaves the state as it is. */
  function Do(s: State, step: Step): State {
    match step
    case Create(id, tenant, input, now) =>
      var job := NewJob(id, tenant, input, now);
      if id in s.entries || job.None? then s else s.(entries := s.entries[id := NewEntry(job.value)])
    case SeedSnapshot(id, contacts, save) =>
      if id in s.entries && s.entries[id].seeding
      then s.(entries := s.entries[id := Snapshot(s.entries[id], contacts, save)]) else s
    case Measure =>
      var free := Capacity(s) - |s.queue|;
      if s.dispatcher.Resting? && free > 0 then s.(dispatcher := Claiming(Min(s.claimBatch, free))) else s
    case Claim(ids, now) =>
      if Claimable(s, ids, now)
      then s.(entries := ClaimedEntries(s.entries, ids), dispatcher := Handing(ClaimedJobs(s.entries, ids))) else s
    case ClaimError => if s.dispatcher.Claiming? then s.(dispatcher := Resting) else s
    case Enqueue => HandOver(s)
    case Take(w) =>
      if w < |s.workers| && s.workers[w].Idle? && s.queue != []
      then s.(workers := s.workers[w := Slot(s.queue[0])], queue := s.queue[1..]) else s
    case Work(w, a) => WorkAt(s, w, a)
    case Deliver(r) => s.(entries := ReceiveAll(s.entries, r))
    case Restart(workers, claimBatch) => Restarted(s, workers, claimBatch)
  }

  /** A new process over the same tables. */
  function Restarted(s: State, workers: int, claimBatch: int): State {
    Initial(workers, claimBatch).(entries := AbandonAll(s.entries), drops := s.drops)
  }

  function AbandonAll(entries: map<JobId, Entry>): map<JobId, Entry> {
    map k | k in entries :: Abandoned(entries[k])
  }

  /** MarkRecipientReceipt, on every broadcast. */
  function ReceiveAll(entries: map<JobId, Entry>, r: Receipt): map<JobId, Entry> {
    map k | k in entries :: Receive(entries[k], r)
  }

  /** tryEnqueue on the next claimed job; a full channel drops it, leaving its row in processing. */
  function HandOver(s: State): State {
    if !s.dispatcher.Handing? then s
    else if s.dispatcher.jobs == [] then s.(dispatcher := Resting)
    else
      var job, rest := s.dispatcher.jobs[0], s.dispatcher.jobs[1..];
      if |s.queue| < Capacity(s) then s.(dispatcher := Handing(rest), queue := s.queue + [job])
      else s.(dispatcher := Handing(rest), drops := s.drops + 1)
  }

  /**
   waitForInstanceSlot lets a job through: the last slot of its instance has run out, and the clock has not gone back.
   */
  predicate MayGrant(grants: seq<SlotLimiter.Grant>, job: Job, at: int) {
    0 < at && SlotLimiter.Sensible(grants, at) && SlotLimiter.FreeAt(grants, job.instance) <= at
  }

  function GrantsAfter(grants: seq<SlotLimiter.Grant>, job: Job, a: WorkerAction): seq<SlotLimiter.Grant> {
    if a.Grant? then grants + [SlotLimiter.Grant(job.instance, a.at, job.ratePerHour)] else grants
  }

  /** The action is the next one of worker w. */
  predicate Enabled(s: State, w: nat, a: WorkerAction) {
    && w < |s.workers| && !s.workers[w].Idle? && s.workers[w].job.id in s.entries
    && WorkerStep(s.workers[w], s.entries[s.workers[w].job.id], a).Some?
    && (a.Grant? ==> MayGrant(s.grants, s.workers[w].job, a.at))
  }

  function WorkAt(s: State, w: nat, a: WorkerAction): State {
    if !Enabled(s, w, a) then s
    else
      var pc := s.workers[w];
      var next := WorkerStep(pc, s.entries[pc.job.id], a).value;
      s.(workers := s.workers[w := next.pc], entries := s.entries[pc.job.id := next.entry],
         grants := GrantsAfter(s.grants, pc.job, a))
  }

  function Exec(s: State, steps: seq<Step>): State
    decreases |steps|
  {
    if steps == [] then s else Do(Exec(s, steps[..|steps| - 1]), steps[|steps| - 1])
  }

  // ------------------------------------------------------ who holds a job

  function Has(pc: Pc, k: JobId): nat {
    if !pc.Idle? && pc.job.id == k then 1 else 0
  }

  function CountJobs(jobs: seq<Job>, k: JobId): nat
    decreases |jobs|
  {
    if jobs == [] then 0
    else CountJobs(jobs[..|jobs| - 1], k) + if jobs[|jobs| - 1].id == k then 1 else 0
  }

  function CountWorkers(workers: seq<Pc>, k: JobId): nat
    decreases |workers|
  {
    if workers == [] then 0 else CountWorkers(workers[..|workers| - 1], k) + Has(workers[|workers| - 1], k)
  }

  function Claims(d: Dispatcher): seq<Job> {
    if d.Handing? then d.jobs else []
  }

  /** How many times the dispatcher, the channel and the workers together have job k. */
  function Held(s: State, k: JobId): nat {
    CountJobs(Claims(s.dispatcher), k) + CountJobs(s.queue, k) + CountWorkers(s.workers, k)
  }

  lemma CountSnoc(jobs: seq<Job>, job: Job, k: JobId)
    ensures CountJobs(jobs + [job], k) == CountJobs(jobs, k) + if job.id == k then 1 else 0
  {
    assert (jobs + [job])[..|jobs|] == jobs;
  }

  lemma {:induction false} CountCons(jobs: seq<Job>, k: JobId)
    requires jobs != []
    ensures CountJobs(jobs, k) == CountJobs(jobs[1..], k) + if jobs[0].id == k then 1 else 0
    decreases |jobs|
  {
    var n := |jobs| - 1;
    if n > 0 {
      assert jobs[..n][1..] == jobs[1..][..n - 1];
      CountCons(jobs[..n], k);
    }
  }

  lemma {:induction false} CountPositive(jobs: seq<Job>, i: nat)
    requires i < |jobs|
    ensures CountJobs(jobs, jobs[i].id) >= 1
    decreases |jobs|
  {
    if i < |jobs| - 1 {
      CountPositive(jobs[..|jobs| - 1], i);
    }
  }

  lemma {:induction false} CountUpdate(workers: seq<Pc>, w: nat, pc: Pc, k: JobId)
    requires w < |workers|
    ensures CountWorkers(workers[w := pc], k) + Has(workers[w], k) == CountWorkers(workers, k) + Has(pc, k)
    decreases |workers|
  {
    var n := |workers| - 1;
    if w == n {
      assert workers[w := pc][..n] == workers[..n];
    } else {
      assert workers[w := pc][..n] == workers[..n][w := pc];
      CountUpdate(workers[..n], w, pc, k);
    }
  }

  lemma {:induction false} CountTwice(workers: seq<Pc>, v: nat, w: nat, k: JobId)
    requires v < w < |workers|
    ensures Has(workers[v], k) + Has(workers[w], k) <= CountWorkers(workers, k)
    decreases |workers|
  {
    var n := |workers| - 1;
    if w < n {
      CountTwice(workers[..n], v, w, k);
    } else {
      CountUpdate(workers[..n], v, Idle, k);
    }
  }

  // --------------------------------------------------------- the invariant

  ghost predicate TicketOk(entries: map<JobId, Entry>, job: Job) {
    job.id in entries && PcOk(Slot(job), entries[job.id])
  }

  ghost predicate TicketsOk(entries: map<JobId, Entry>, jobs: seq<Job>) {
    forall i :: 0 <= i < |jobs| ==> TicketOk(entries, jobs[i])
  }

  ghost predicate WorkerOk(entries: map<JobId, Entry>, pc: Pc) {
    pc.Idle? || (pc.job.id in entries && PcOk(pc, entries[pc.job.id]))
  }

  ghost predicate WorkersOk(entries: map<JobId, Entry>, workers: seq<Pc>) {
    forall w :: 0 <= w < |workers| ==> WorkerOk(entries, workers[w])
  }

  ghost predicate EntriesOk(entries: map<JobId, Entry>) {
    forall k <- entries :: entries[k].job.id == k && EntryOk(entries[k])
  }

  function Expected(entries: map<JobId, Entry>, k: JobId): nat {
    if k in entries && Active(entries[k]) then 1 else 0
  }

  /** A job being processed is held exactly once; no other job is held at all. */
  ghost predicate HeldOk(s: State) {
    forall k :: Held(s, k) == Expected(s.entries, k)
  }

  function Reserved(d: Dispatcher): nat {
    match d
    case Resting => 0
    case Claiming(limit) => limit
    case Handing(jobs) => |jobs|
  }

  /** The slots that the dispatcher counted on are still free. */
  predicate RoomOk(s: State) {
    Reserved(s.dispatcher) + |s.queue| <= Capacity(s) && s.drops == 0
  }

  datatype Verdict = Sound | Broken

  /** Whether a state is sound; a value rather than a formula, so that it is taken apart only where that is needed. */
  ghost function Judge(s: State): Verdict {
    if && EntriesOk(s.entries)
       && HeldOk(s)
       && TicketsOk(s.entries, Claims(s.dispatcher))
       && TicketsOk(s.entries, s.queue)
       && WorkersOk(s.entries, s.workers)
       && RoomOk(s)
       && SlotLimiter.Produced(s.grants)
    then Sound else Broken
  }

  ghost predicate Inv(s: State) {
    Judge(s) == Sound
  }

  /** What is left to show of a state whose entries are known to be in order. */
  lemma IsSound(s: State)
    requires EntriesOk(s.entries) && HeldOk(s) && RoomOk(s) && SlotLimiter.Produced(s.grants)
    requires TicketsOk(s.entries, Claims(s.dispatcher)) && TicketsOk(s.entries, s.queue)
    requires WorkersOk(s.entries, s.workers)
    ensures Inv(s)
  {
  }

  /** The jobs that b has lost, or moved in another way than forward. */
  ghost function Strays(a: map<JobId, Entry>, b: map<JobId, Entry>): set<JobId> {
    set k | k in a && !(k in b && Evolves(a[k], b[k]))
  }

  ghost predicate AllEvolve(a: map<JobId, Entry>, b: map<JobId, Entry>) {
    Strays(a, b) == {}
  }

  lemma ThisEvolves(a: map<JobId, Entry>, b: map<JobId, Entry>, k: JobId)
    requires AllEvolve(a, b) && k in a
    ensures k in b && Evolves(a[k], b[k])
  {
    assert k !in Strays(a, b);
  }

  lemma EvolvesTwice(a: map<JobId, Entry>, b: map<JobId, Entry>, c: map<JobId, Entry>)
    requires AllEvolve(a, b) && AllEvolve(b, c)
    ensures AllEvolve(a, c)
  {
    forall k <- a ensures k in c && Evolves(a[k], c[k]) {
      ThisEvolves(a, b, k);
      ThisEvolves(b, c, k);
      EvolvesTransitive(a[k], b[k], c[k]);
    }
  }

  lemma OneEvolves(a: map<JobId, Entry>, k: JobId, e: Entry)
    requires k in a && Evolves(a[k], e)
    ensures AllEvolve(a, a[k := e])
  {
    forall j <- a ensures Evolves(a[j], a[k := e][j]) {
      EvolvesReflexive(a[j]);
    }
  }

  /** Nobody else has the job that worker w has. */
  lemma HoldsAlone(s: State, w: nat)
    requires HeldOk(s) && w < |s.workers| && !s.workers[w].Idle?
    ensures var k := s.workers[w].job.id;
      && (forall v :: 0 <= v < |s.workers| && v != w && !s.workers[v].Idle? ==> s.workers[v].job.id != k)
      && (forall i :: 0 <= i < |s.queue| ==> s.queue[i].id != k)
      && (forall i :: 0 <= i < |Claims(s.dispatcher)| ==> Claims(s.dispatcher)[i].id != k)
  {
    var k := s.workers[w].job.id;
    assert Held(s, k) <= 1;
    CountUpdate(s.workers, w, Idle, k);
    forall v | 0 <= v < |s.workers| && v != w && !s.workers[v].Idle? ensures s.workers[v].job.id != k {
      if v < w { CountTwice(s.workers, v, w, k); } else { CountTwice(s.workers, w, v, k); }
    }
    forall i | 0 <= i < |s.queue| ensures s.queue[i].id != k {
      CountPositive(s.queue, i);
    }
    forall i | 0 <= i < |Claims(s.dispatcher)| ensures Claims(s.dispatcher)[i].id != k {
      CountPositive(Claims(s.dispatcher), i);
    }
  }

  lemma TicketsFrame(a: map<JobId, Entry>, b: map<JobId, Entry>, jobs: seq<Job>)
    requires TicketsOk(a, jobs)
    requires forall i :: 0 <= i < |jobs| && jobs[i].id in a ==> jobs[i].id in b && b[jobs[i].id] == a[jobs[i].id]
    ensures TicketsOk(b, jobs)
  {
    forall i | 0 <= i < |jobs| ensures TicketOk(b, jobs[i]) {
      assert TicketOk(a, jobs[i]);
    }
  }

  lemma WorkersFrame(a: map<JobId, Entry>, b: map<JobId, Entry>, workers: seq<Pc>)
    requires WorkersOk(a, workers)
    requires forall w :: 0 <= w < |workers| && !workers[w].Idle? && workers[w].job.id in a ==>
      workers[w].job.id in b && b[workers[w].job.id] == a[workers[w].job.id]
    ensures WorkersOk(b, workers)
  {
    forall w | 0 <= w < |workers| ensures WorkerOk(b, workers[w]) {
      assert WorkerOk(a, workers[w]);
    }
  }

  /** The holders after worker w has moved on to pc, with job k's entry replaced. */
  lemma HeldAfterWork(s: State, s': State, w: nat, pc: Pc, k: JobId)
    requires HeldOk(s) && w < |s.workers| && !s.workers[w].Idle? && s.workers[w].job.id == k && k in s.entries
    requires Active(s.entries[k])
    requires s' == s.(workers := s.workers[w := pc], entries := s'.entries, grants := s'.grants)
    requires k in s'.entries && forall j :: j != k ==> Expected(s'.entries, j) == Expected(s.entries, j)
    requires Active(s'.entries[k]) == !pc.Idle? && (!pc.Idle? ==> pc.job.id == k)
    ensures HeldOk(s')
  {
    forall j ensures Held(s', j) == Expected(s'.entries, j) {
      CountUpdate(s.workers, w, pc, j);
      assert Held(s, j) == Expected(s.entries, j);
    }
  }

  lemma GrantOk(grants: seq<SlotLimiter.Grant>, job: Job, a: WorkerAction)
    requires SlotLimiter.Produced(grants) && (a.Grant? ==> MayGrant(grants, job, a.at))
    ensures SlotLimiter.Produced(GrantsAfter(grants, job, a))
  {
    if a.Grant? {
      SlotLimiter.GrantProduced(grants, SlotLimiter.Grant(job.instance, a.at, job.ratePerHour));
    }
  }

  lemma WorkOk(s: State, w: nat, a: WorkerAction)
    requires Inv(s)
    ensures Inv(WorkAt(s, w, a)) && AllEvolve(s.entries, WorkAt(s, w, a).entries)
  {
    AllEvolveReflexive(s.entries);
    if Enabled(s, w, a) {
      var pc := s.workers[w];
      assert WorkerOk(s.entries, pc);
      var next := WorkerStep(pc, s.entries[pc.job.id], a).value;
      WorkerStepOk(pc, s.entries[pc.job.id], a);
      GrantOk(s.grants, pc.job, a);
      MovedOk(s, w, pc.job.id, next, GrantsAfter(s.grants, pc.job, a));
    }
  }

  lemma MovedOk(s: State, w: nat, k: JobId, next: Next, grants: seq<SlotLimiter.Grant>)
    requires Inv(s) && w < |s.workers| && !s.workers[w].Idle? && s.workers[w].job.id == k && k in s.entries
    requires Active(s.entries[k]) && StepOk(s.workers[w].job, s.entries[k], next) && SlotLimiter.Produced(grants)
    ensures var s' := s.(workers := s.workers[w := next.pc], entries := s.entries[k := next.entry], grants := grants);
      Inv(s') && AllEvolve(s.entries, s'.entries)
  {
    var s' := s.(workers := s.workers[w := next.pc], entries := s.entries[k := next.entry], grants := grants);
    OneEvolves(s.entries, k, next.entry);
    HeldAfterWork(s, s', w, next.pc, k);
    OthersAfterWork(s, w, k, next);
    IsSound(s');
  }

  /** Nobody else had the job that has moved on. */
  lemma OthersAfterWork(s: State, w: nat, k: JobId, next: Next)
    requires HeldOk(s) && w < |s.workers| && !s.workers[w].Idle? && s.workers[w].job.id == k && k in s.entries
    requires TicketsOk(s.entries, s.queue) && TicketsOk(s.entries, Claims(s.dispatcher))
    requires WorkersOk(s.entries, s.workers)
    requires WorkerOk(s.entries[k := next.entry], next.pc)
    ensures var entries := s.entries[k := next.entry];
      && TicketsOk(entries, s.queue) && TicketsOk(entries, Claims(s.dispatcher))
      && WorkersOk(entries, s.workers[w := next.pc])
  {
    HoldsAlone(s, w);
    TicketsFrame(s.entries, s.entries[k := next.entry], s.queue);
    TicketsFrame(s.entries, s.entries[k := next.entry], Claims(s.dispatcher));
    WorkersAfterWork(s, w, next.pc, s.entries[k := next.entry]);
  }

  lemma WorkersAfterWork(s: State, w: nat, pc: Pc, entries: map<JobId, Entry>)
    requires WorkersOk(s.entries, s.workers) && w < |s.workers| && !s.workers[w].Idle? && WorkerOk(entries, pc)
    requires forall v :: 0 <= v < |s.workers| && v != w && !s.workers[v].Idle? ==>
      s.workers[v].job.id != s.workers[w].job.id
    requires forall k <- s.entries :: k != s.workers[w].job.id ==> k in entries && entries[k] == s.entries[k]
    ensures WorkersOk(entries, s.workers[w := pc])
  {
    var workers := s.workers[w := pc];
    forall v | 0 <= v < |workers| ensures WorkerOk(entries, workers[v]) {
      assert WorkerOk(s.entries, s.workers[v]);
    }
  }

  lemma AllEvolveReflexive(a: map<JobId, Entry>)
    ensures AllEvolve(a, a)
  {
    forall k <- a ensures Evolves(a[k], a[k]) {
      EvolvesReflexive(a[k]);
    }
  }

  /** Steps that only disturb entries from outside: receipts, and Create's late seeding. */
  lemma OutsideOk(s: State, entries: map<JobId, Entry>)
    requires Inv(s) && entries.Keys == s.entries.Keys
    requires forall k <- s.entries :: EntryOk(entries[k]) && Undisturbed(s.entries[k], entries[k])
    ensures Inv(s.(entries := entries)) && AllEvolve(s.entries, entries)
  {
    OutsideEvolves(s.entries, entries);
    OutsideTickets(s, entries, s.queue);
    OutsideTickets(s, entries, Claims(s.dispatcher));
    OutsideWorkers(s, entries);
    assert forall k :: Held(s.(entries := entries), k) == Held(s, k);
  }

  lemma OutsideEvolves(a: map<JobId, Entry>, b: map<JobId, Entry>)
    requires b.Keys == a.Keys && forall k <- a :: Undisturbed(a[k], b[k])
    ensures AllEvolve(a, b)
    ensures forall k :: Expected(b, k) == Expected(a, k)
  {
    forall k <- a ensures Evolves(a[k], b[k]) && Active(b[k]) == Active(a[k]) {
      UndisturbedEvolves(a[k], b[k]);
    }
  }

  lemma OutsideWorkers(s: State, entries: map<JobId, Entry>)
    requires EntriesOk(s.entries) && entries.Keys == s.entries.Keys && WorkersOk(s.entries, s.workers)
    requires forall k <- s.entries :: Undisturbed(s.entries[k], entries[k])
    ensures WorkersOk(entries, s.workers)
  {
    forall w | 0 <= w < |s.workers| ensures WorkerOk(entries, s.workers[w]) {
      var pc := s.workers[w];
      assert WorkerOk(s.entries, pc);
      if !pc.Idle? {
        WorkerSurvives(pc, s.entries[pc.job.id], entries[pc.job.id]);
      }
    }
  }

  lemma OutsideTickets(s: State, entries: map<JobId, Entry>, jobs: seq<Job>)
    requires EntriesOk(s.entries) && entries.Keys == s.entries.Keys && TicketsOk(s.entries, jobs)
    requires forall k <- s.entries :: Undisturbed(s.entries[k], entries[k])
    ensures TicketsOk(entries, jobs)
  {
    forall i | 0 <= i < |jobs| ensures TicketOk(entries, jobs[i]) {
      assert TicketOk(s.entries, jobs[i]);
      WorkerSurvives(Slot(jobs[i]), s.entries[jobs[i].id], entries[jobs[i].id]);
    }
  }

  lemma DeliverOk(s: State, r: Receipt)
    requires Inv(s)
    ensures Inv(s.(entries := ReceiveAll(s.entries, r))) && AllEvolve(s.entries, ReceiveAll(s.entries, r))
  {
    ReceiveAllOk(s.entries, r);
    OutsideOk(s, ReceiveAll(s.entries, r));
  }

  lemma ReceiveAllOk(entries: map<JobId, Entry>, r: Receipt)
    requires EntriesOk(entries)
    ensures ReceiveAll(entries, r).Keys == entries.Keys
    ensures forall k <- entries ::
      EntryOk(ReceiveAll(entries, r)[k]) && Undisturbed(entries[k], ReceiveAll(entries, r)[k])
  {
    forall k <- entries
      ensures EntryOk(ReceiveAll(entries, r)[k]) && Undisturbed(entries[k], ReceiveAll(entries, r)[k])
    {
      ReceiveOk(entries[k], r);
    }
  }

  lemma UndisturbedReflexive(e: Entry)
    ensures Undisturbed(e, e)
  {
  }

  lemma SnapshotStepOk(s: State, id: JobId, contacts: seq<Contact>, save: Save)
    requires Inv(s) && id in s.entries && s.entries[id].seeding
    ensures var entries := s.entries[id := Snapshot(s.entries[id], contacts, save)];
      Inv(s.(entries := entries)) && AllEvolve(s.entries, entries)
  {
    var entries := s.entries[id := Snapshot(s.entries[id], contacts, save)];
    SnapshotOk(s.entries[id], contacts, save);
    forall k <- s.entries ensures EntryOk(entries[k]) && Undisturbed(s.entries[k], entries[k]) {
      UndisturbedReflexive(s.entries[k]);
    }
    assert entries.Keys == s.entries.Keys;
    OutsideOk(s, entries);
  }

  lemma CreateOk(s: State, job: Job)
    requires Inv(s) && job.id !in s.entries
    requires job.status.Queued? && job.attempts == 0 && job.maxAttempts >= 1
    ensures var entries := s.entries[job.id := NewEntry(job)];
      Inv(s.(entries := entries)) && AllEvolve(s.entries, entries)
  {
    var entries := s.entries[job.id := NewEntry(job)];
    OneMoreEntry(s.entries, job);
    TicketsFrame(s.entries, entries, s.queue);
    TicketsFrame(s.entries, entries, Claims(s.dispatcher));
    WorkersFrame(s.entries, entries, s.workers);
    SameHeld(s, s.(entries := entries));
    IsSound(s.(entries := entries));
  }

  lemma OneMoreEntry(entries: map<JobId, Entry>, job: Job)
    requires EntriesOk(entries) && job.id !in entries
    requires job.status.Queued? && job.attempts == 0 && job.maxAttempts >= 1
    ensures EntriesOk(entries[job.id := NewEntry(job)]) && AllEvolve(entries, entries[job.id := NewEntry(job)])
    ensures forall k :: Expected(entries[job.id := NewEntry(job)], k) == Expected(entries, k)
  {
    NewEntryOk(job);
    AllEvolveReflexive(entries);
  }

  lemma SameHeld(s: State, s': State)
    requires HeldOk(s) && s' == s.(entries := s'.entries)
    requires forall k :: Expected(s'.entries, k) == Expected(s.entries, k)
    ensures HeldOk(s')
  {
    forall k ensures Held(s', k) == Expected(s'.entries, k) {
      assert Held(s, k) == Expected(s.entries, k);
    }
  }

  lemma NewEntryOk(job: Job)
    requires job.status.Queued? && job.attempts == 0 && job.maxAttempts >= 1
    ensures EntryOk(NewEntry(job)) && !Active(NewEntry(job))
  {
  }

  lemma TakeOk(s: State, w: nat)
    requires Inv(s) && w < |s.workers| && s.workers[w].Idle? && s.queue != []
    ensures Inv(s.(workers := s.workers[w := Slot(s.queue[0])], queue := s.queue[1..]))
  {
    var s' := s.(workers := s.workers[w := Slot(s.queue[0])], queue := s.queue[1..]);
    forall k ensures Held(s', k) == Expected(s.entries, k) {
      assert Held(s, k) == Expected(s.entries, k);
      CountCons(s.queue, k);
      CountUpdate(s.workers, w, Slot(s.queue[0]), k);
    }
    TicketsSplit(s.entries, s.queue);
    forall v | 0 <= v < |s'.workers| ensures WorkerOk(s.entries, s'.workers[v]) {
      assert v != w ==> WorkerOk(s.entries, s.workers[v]);
    }
  }

  lemma HandOverOk(s: State)
    requires Inv(s) && s.dispatcher.Handing?
    ensures Inv(HandOver(s))
  {
    HandOverHeld(s);
    if s.dispatcher.jobs != [] { TicketsSplit(s.entries, s.dispatcher.jobs); }
  }

  lemma HandOverHeld(s: State)
    requires HeldOk(s) && s.dispatcher.Handing? && (s.dispatcher.jobs != [] ==> |s.queue| < Capacity(s))
    ensures HeldOk(HandOver(s))
  {
    var s', jobs := HandOver(s), s.dispatcher.jobs;
    forall k ensures Held(s', k) == Expected(s.entries, k) {
      assert Held(s, k) == Expected(s.entries, k);
      if jobs != [] {
        CountCons(jobs, k);
        CountSnoc(s.queue, jobs[0], k);
      }
    }
  }

  lemma TicketsSplit(entries: map<JobId, Entry>, jobs: seq<Job>)
    requires TicketsOk(entries, jobs) && jobs != []
    ensures TicketOk(entries, jobs[0]) && TicketsOk(entries, jobs[1..])
  {
    forall i | 0 <= i < |jobs[1..]| ensures TicketOk(entries, jobs[1..][i]) {
      assert TicketOk(entries, jobs[i + 1]);
    }
  }

  lemma {:induction false} CountClaimed(entries: map<JobId, Entry>, ids: seq<JobId>, k: JobId)
    requires Distinct(ids) && forall id <- ids :: id in entries && entries[id].job.id == id
    ensures CountJobs(ClaimedJobs(entries, ids), k) == if k in ids then 1 else 0
    decreases |ids|
  {
    if ids != [] {
      var n := |ids| - 1;
      assert ClaimedJobs(entries, ids)[..n] == ClaimedJobs(entries, ids[..n]);
      assert k in ids <==> k in ids[..n] || k == ids[n];
      CountClaimed(entries, ids[..n], k);
    }
  }

  lemma ClaimedEntriesOk(entries: map<JobId, Entry>, ids: seq<JobId>)
    requires EntriesOk(entries) && forall id <- ids :: id in entries && entries[id].job.status.Queued?
    ensures EntriesOk(ClaimedEntries(entries, ids)) && AllEvolve(entries, ClaimedEntries(entries, ids))
    ensures forall k :: Expected(ClaimedEntries(entries, ids), k) == Expected(entries, k) + if k in ids then 1 else 0
  {
    var claimed := ClaimedEntries(entries, ids);
    forall k <- entries
      ensures EntryOk(claimed[k]) && Evolves(entries[k], claimed[k]) && claimed[k].job.id == k
      ensures k in ids ==> Active(claimed[k]) && !Active(entries[k])
      ensures k !in ids ==> claimed[k] == entries[k]
    {
      EvolvesReflexive(entries[k]);
      if k in ids { ClaimedOk(entries[k]); }
    }
  }

  lemma ClaimedTickets(entries: map<JobId, Entry>, ids: seq<JobId>)
    requires EntriesOk(entries) && forall id <- ids :: id in entries && entries[id].job.status.Queued?
    ensures TicketsOk(ClaimedEntries(entries, ids), ClaimedJobs(entries, ids))
  {
    var jobs := ClaimedJobs(entries, ids);
    forall i | 0 <= i < |ids| ensures TicketOk(ClaimedEntries(entries, ids), jobs[i]) {
      assert ids[i] in ids;
      ClaimedOk(entries[ids[i]]);
    }
  }

  /** Every claimed job was held by nobody, and is now held by the dispatcher. */
  lemma ClaimedHeld(s: State, ids: seq<JobId>)
    requires EntriesOk(s.entries) && HeldOk(s) && s.dispatcher.Claiming? && Distinct(ids)
    requires forall id <- ids :: id in s.entries && s.entries[id].job.status.Queued?
    ensures HeldOk(s.(entries := ClaimedEntries(s.entries, ids), dispatcher := Handing(ClaimedJobs(s.entries, ids))))
  {
    var s' := s.(entries := ClaimedEntries(s.entries, ids), dispatcher := Handing(ClaimedJobs(s.entries, ids)));
    ClaimedEntriesOk(s.entries, ids);
    forall k ensures Held(s', k) == Expected(s'.entries, k) {
      CountClaimed(s.entries, ids, k);
      assert Held(s, k) == Expected(s.entries, k);
    }
  }

  lemma ClaimOk(s: State, ids: seq<JobId>, now: int)
    requires Inv(s) && Claimable(s, ids, now)
    ensures var s' := s.(entries := ClaimedEntries(s.entries, ids), dispatcher := Handing(ClaimedJobs(s.entries, ids)));
      Inv(s') && AllEvolve(s.entries, s'.entries)
  {
    var s' := s.(entries := ClaimedEntries(s.entries, ids), dispatcher := Handing(ClaimedJobs(s.entries, ids)));
    ClaimedEntriesOk(s.entries, ids);
    ClaimedTickets(s.entries, ids);
    ClaimedHeld(s, ids);
    HoldersNotClaimed(s, ids);
    TicketsFrame(s.entries, s'.entries, s.queue);
    WorkersFrame(s.entries, s'.entries, s.workers);
  }

  /** A job that waits in the queue or that a worker holds is not queued in the table. */
  lemma HoldersNotClaimed(s: State, ids: seq<JobId>)
    requires TicketsOk(s.entries, s.queue) && WorkersOk(s.entries, s.workers)
    requires forall id <- ids :: id in s.entries && s.entries[id].job.status.Queued?
    ensures forall i :: 0 <= i < |s.queue| ==> s.queue[i].id !in ids
    ensures forall w :: 0 <= w < |s.workers| && !s.workers[w].Idle? ==> s.workers[w].job.id !in ids
  {
    forall i | 0 <= i < |s.queue| ensures s.queue[i].id !in ids {
      assert TicketOk(s.entries, s.queue[i]);
    }
    forall w | 0 <= w < |s.workers| && !s.workers[w].Idle? ensures s.workers[w].job.id !in ids {
      assert WorkerOk(s.entries, s.workers[w]);
    }
  }

  lemma CreateDoOk(s: State, id: JobId, tenant: string, input: CreateInput, now: int)
    requires Inv(s)
    ensures var s' := Do(s, Create(id, tenant, input, now)); Inv(s') && AllEvolve(s.entries, s'.entries)
  {
    AllEvolveReflexive(s.entries);
    var job := NewJob(id, tenant, input, now);
    if id !in s.entries && job.Some? { CreateOk(s, job.value); }
  }

  lemma TableDoOk(s: State, step: Step)
    requires Inv(s) && (step.SeedSnapshot? || step.Deliver?)
    ensures Inv(Do(s, step)) && AllEvolve(s.entries, Do(s, step).entries)
  {
    AllEvolveReflexive(s.entries);
    match step
    case SeedSnapshot(id, contacts, save) =>
      if id in s.entries && s.entries[id].seeding { SnapshotStepOk(s, id, contacts, save); }
    case Deliver(r) => DeliverOk(s, r);
  }

  lemma DispatcherDoOk(s: State, step: Step)
    requires Inv(s) && (step.Measure? || step.Claim? || step.ClaimError? || step.Enqueue?)
    ensures Inv(Do(s, step)) && AllEvolve(s.entries, Do(s, step).entries)
  {
    AllEvolveReflexive(s.entries);
    match step
    case Measure => SameHolders(s, Do(s, step));
    case Claim(ids, now) => if Claimable(s, ids, now) { ClaimOk(s, ids, now); }
    case ClaimError => SameHolders(s, Do(s, step));
    case Enqueue => if s.dispatcher.Handing? { HandOverOk(s); }
  }

  lemma TakeDoOk(s: State, w: nat)
    requires Inv(s)
    ensures Inv(Do(s, Take(w))) && AllEvolve(s.entries, Do(s, Take(w)).entries)
  {
    AllEvolveReflexive(s.entries);
    if w < |s.workers| && s.workers[w].Idle? && s.queue != [] { TakeOk(s, w); }
  }

  lemma {:induction false} AllIdle(workers: seq<Pc>, k: JobId)
    requires forall w :: 0 <= w < |workers| ==> workers[w].Idle?
    ensures CountWorkers(workers, k) == 0
    decreases |workers|
  {
    if workers != [] {
      AllIdle(workers[..|workers| - 1], k);
    }
  }

  lemma InitialOk(workers: int, claimBatch: int)
    ensures Inv(Initial(workers, claimBatch))
  {
    var s := Initial(workers, claimBatch);
    forall k ensures Held(s, k) == 0 {
      AllIdle(s.workers, k);
    }
  }

  lemma RestartOk(s: State, workers: int, claimBatch: int)
    requires Inv(s)
    ensures Inv(Restarted(s, workers, claimBatch)) && AllEvolve(s.entries, Restarted(s, workers, claimBatch).entries)
  {
    var s' := Restarted(s, workers, claimBatch);
    AbandonedAll(s.entries);
    forall k ensures Held(s', k) == Expected(s'.entries, k) {
      AllIdle(s'.workers, k);
    }
  }

  lemma AbandonedAll(entries: map<JobId, Entry>)
    requires EntriesOk(entries)
    ensures EntriesOk(AbandonAll(entries)) && AllEvolve(entries, AbandonAll(entries))
    ensures forall k <- AbandonAll(entries) :: !Active(AbandonAll(entries)[k])
  {
    forall k <- entries
      ensures var e := AbandonAll(entries)[k]; EntryOk(e) && Evolves(entries[k], e) && !Active(e)
    {
      AbandonedOk(entries[k]);
    }
  }

  /** Every step, from any state that satisfies the invariant. */
  lemma DoOk(s: State, step: Step)
    requires Inv(s)
    ensures Inv(Do(s, step)) && AllEvolve(s.entries, Do(s, step).entries)
  {
    match step
    case Create(id, tenant, input, now) => CreateDoOk(s, id, tenant, input, now);
    case SeedSnapshot(_, _, _) => TableDoOk(s, step);
    case Deliver(_) => TableDoOk(s, step);
    case Take(w) => TakeDoOk(s, w);
    case Work(w, a) => WorkOk(s, w, a);
    case Restart(workers, claimBatch) => RestartOk(s, workers, claimBatch);
    case _ => DispatcherDoOk(s, step);
  }

  lemma SameHolders(s: State, s': State)
    requires Inv(s) && s' == s.(dispatcher := s'.dispatcher) && Claims(s'.dispatcher) == Claims(s.dispatcher)
    requires RoomOk(s')
    ensures Inv(s')
  {
    assert forall k :: Held(s', k) == Held(s, k);
  }

  /** Every run of any length keeps the invariant and moves every entry forward. */
  lemma {:induction false} ExecOk(s: State, steps: seq<Step>)
    requires Inv(s)
    ensures Inv(Exec(s, steps)) && AllEvolve(s.entries, Exec(s, steps).entries)
    decreases |steps|
  {
    if steps == [] {
      AllEvolveReflexive(s.entries);
    } else {
      var mid, last := Exec(s, steps[..|steps| - 1]), steps[|steps| - 1];
      ExecOk(s, steps[..|steps| - 1]);
      DoOk(mid, last);
      EvolvesTwice(s.entries, mid.entries, Do(mid, last).entries);
    }
  }
}
