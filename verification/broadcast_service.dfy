/**
 The code of the broadcast service's goroutines, statement by statement, over
 the repository and the channel. Between any two of its atomic operations a
 goroutine lets the others run (Others). Each method leaves a valid service:
 one whose state is that of a run of BroadcastSystem, so that everything proved
 there holds of every execution of this code.
 */
module BroadcastService {
  import opened Wrappers
  import opened Recipients
  import opened Delivery
  import opened BroadcastSystem
  import opened BroadcastGuarantees
  import opened BroadcastOutcomes
  import opened BroadcastRepository
  import SlotLimiter
  import Text

  datatype Goroutine = Worker(w: nat) | TheDispatcher | Creator(id: JobId)

  /** Steps that other goroutines than g may take. */
  predicate Foreign(step: Step, g: Goroutine) {
    match step
    case Take(w) => g != Worker(w)
    case Work(w, _) => g != Worker(w)
    case Measure => g != TheDispatcher
    case Claim(_, _) => g != TheDispatcher
    case ClaimError => g != TheDispatcher
    case Enqueue => g != TheDispatcher
    case SeedSnapshot(id, _, _) => g != Creator(id)
    case Restart(_, _) => false
    case _ => true
  }

  /** The local state of goroutine g is the same in both states. */
  ghost predicate SameLocals(a: State, b: State, g: Goroutine) {
    && |b.workers| == |a.workers| && a.grants <= b.grants
    && (g.Worker? && g.w < |a.workers| ==> b.workers[g.w] == a.workers[g.w])
    && (g.TheDispatcher? ==> b.dispatcher == a.dispatcher && |b.queue| <= |a.queue|)
    && (g.Creator? && g.id in a.entries ==> g.id in b.entries && b.entries[g.id].seeding == a.entries[g.id].seeding)
  }

  lemma WorkKeepsSeeding(pc: Pc, e: Entry, a: WorkerAction)
    requires WorkerStep(pc, e, a).Some?
    ensures WorkerStep(pc, e, a).value.entry.seeding == e.seeding
  {
  }

  lemma ForeignSteps(s: State, step: Step, g: Goroutine)
    requires Foreign(step, g)
    ensures SameLocals(s, Do(s, step), g) && Do(s, step).claimBatch == s.claimBatch
  {
    if step.Work? && step.w < |s.workers| && !s.workers[step.w].Idle? && s.workers[step.w].job.id in s.entries {
      var pc, e := s.workers[step.w], s.entries[s.workers[step.w].job.id];
      if WorkerStep(pc, e, step.a).Some? {
        WorkKeepsSeeding(pc, e, step.a);
      }
    }
  }

  /** What the invariant says about the job that worker w holds. */
  lemma HoldsJob(s: State, w: nat)
    requires Inv(s) && w < |s.workers| && !s.workers[w].Idle?
    ensures var job := s.workers[w].job;
      && job.id in s.entries && s.entries[job.id].job == job && Matches(s.entries, job.tenant, job.id)
      && RowsOf(s.entries, job.tenant, job.id) == s.entries[job.id].rows
  {
    assert WorkerOk(s.entries, s.workers[w]);
    var e := s.entries[s.workers[w].job.id];
    forall p <- e.rows ensures e.rows[p].tenant == e.job.tenant {
      assert RecipientOk(e, p);
    }
  }

  lemma {:induction false} LimitPositive(workers: int, claimBatch: int, steps: seq<Step>)
    ensures var s := After(workers, claimBatch, steps);
      s.claimBatch > 0 && (s.dispatcher.Claiming? ==> s.dispatcher.limit > 0)
    decreases |steps|
  {
    if steps != [] {
      LimitPositive(workers, claimBatch, steps[..|steps| - 1]);
    }
  }

  lemma SummingIsSettled(s: State, w: nat)
    requires Inv(s) && w < |s.workers| && s.workers[w].Summing?
    ensures s.workers[w].job.id in s.entries && AllSettled(s.entries[s.workers[w].job.id])
  {
    assert WorkerOk(s.entries, s.workers[w]);
  }

  /** Where the states do not follow the steps. */
  ghost function Missteps(states: seq<State>, steps: seq<Step>): set<int> {
    set i | 0 <= i < |steps| && !(i + 1 < |states| && states[i + 1] == Do(states[i], steps[i]))
  }

  /** The states are those of a run that takes these steps. */
  ghost predicate IsRun(states: seq<State>, steps: seq<Step>) {
    |states| == |steps| + 1 && Missteps(states, steps) == {}
  }

  lemma RunGoesOn(states: seq<State>, steps: seq<Step>, step: Step, s: State)
    requires IsRun(states, steps) && s == Do(states[|steps|], step)
    ensures IsRun(states + [s], steps + [step])
  {
    forall i | 0 <= i < |steps| + 1 ensures (states + [s])[i + 1] == Do((states + [s])[i], (steps + [step])[i]) {
      assert i !in Missteps(states, steps);
    }
  }

  lemma RunStarts(states: seq<State>, steps: seq<Step>, n: nat)
    requires IsRun(states, steps) && n <= |steps|
    ensures IsRun(states[..n + 1], steps[..n])
  {
    assert Missteps(states[..n + 1], steps[..n]) <= Missteps(states, steps);
  }

  lemma {:induction false} RunIsExec(states: seq<State>, steps: seq<Step>)
    requires IsRun(states, steps)
    ensures states[|steps|] == Exec(states[0], steps)
    decreases |steps|
  {
    if steps != [] {
      var n := |steps| - 1;
      RunStarts(states, steps, n);
      RunIsExec(states[..n + 1], steps[..n]);
      assert n !in Missteps(states, steps);
    }
  }

  /** What stays of a job after the first n steps of a run: its instance, and every row. */
  lemma RunKeeps(workers: int, claimBatch: int, states: seq<State>, steps: seq<Step>, n: nat, k: JobId)
    requires IsRun(states, steps) && states[0] == Initial(workers, claimBatch) && n <= |steps| && k in states[n].entries
    ensures k in states[|steps|].entries
    ensures states[|steps|].entries[k].job.instance == states[n].entries[k].job.instance
    ensures states[n].entries[k].rows.Keys <= states[|steps|].entries[k].rows.Keys
  {
    PrefixIsExec(states, steps, n);
    PrefixIsExec(states, steps, |steps|);
    assert steps[..|steps|] == steps;
    LaterKeeps(workers, claimBatch, steps, n, k);
  }

  lemma LaterKeeps(workers: int, claimBatch: int, steps: seq<Step>, n: nat, k: JobId)
    requires n <= |steps| && k in After(workers, claimBatch, steps[..n]).entries
    ensures var a, b := After(workers, claimBatch, steps[..n]), After(workers, claimBatch, steps);
      && k in b.entries && b.entries[k].job.instance == a.entries[k].job.instance
      && a.entries[k].rows.Keys <= b.entries[k].rows.Keys
  {
    assert steps == steps[..n] + steps[n..];
    LaterEvolves(workers, claimBatch, steps[..n], steps[n..], k);
  }

  lemma PrefixIsExec(states: seq<State>, steps: seq<Step>, n: nat)
    requires IsRun(states, steps) && n <= |steps|
    ensures states[n] == Exec(states[0], steps[..n])
  {
    RunStarts(states, steps, n);
    RunIsExec(states[..n + 1], steps[..n]);
  }

  /** pendingRecipientProgress. */
  function PendingOf(progress: seq<Item>): seq<Item> {
    if progress == [] then []
    else if progress[0].row.status.Pending? then [progress[0]] + PendingOf(progress[1..])
    else PendingOf(progress[1..])
  }

  lemma {:induction false} PendingOfListing(order: seq<Phone>, rows: map<Phone, Row>)
    requires forall p <- order :: p in rows
    ensures PendingOf(Listing(order, rows)) == PendingItems(order, rows)
    decreases |order|
  {
    if order != [] {
      assert Listing(order, rows)[1..] == Listing(order[1..], rows);
      PendingOfListing(order[1..], rows);
    }
  }

  lemma {:induction false} PendingOfSnoc(progress: seq<Item>, item: Item)
    ensures PendingOf(progress + [item]) == PendingOf(progress) + if item.row.status.Pending? then [item] else []
    decreases |progress|
  {
    if progress == [] {
      assert [item][1..] == [];
    } else {
      assert (progress + [item])[1..] == progress[1..] + [item];
      PendingOfSnoc(progress[1..], item);
    }
  }

  method PendingRecipientProgress(progress: seq<Item>) returns (pending: seq<Item>)
    ensures pending == PendingOf(progress)
  {
    pending := [];
    for i := 0 to |progress|
      invariant pending == PendingOf(progress[..i])
    {
      assert progress[..i + 1] == progress[..i] + [progress[i]];
      PendingOfSnoc(progress[..i], progress[i]);
      if progress[i].row.status.Pending? {
        pending := pending + [progress[i]];
      }
    }
    assert progress[..|progress|] == progress;
  }

  /** eligibleBroadcastRecipients: trimmed, non-blank, linked to the instance or to none, each phone once. */
  method EligibleBroadcastRecipients(contacts: seq<Contact>, instance: string) returns (phones: seq<Phone>)
    ensures phones == Eligible(contacts, instance)
  {
    phones := [];
    var seen: set<Phone> := {};
    for i := 0 to |contacts|
      invariant phones == Eligible(contacts[..i], instance)
      invariant forall p :: p in seen <==> p in phones
    {
      assert contacts[..i + 1][..i] == contacts[..i];
      var phone := Text.Trim(contacts[i].phone);
      if phone == "" {
        continue;
      }
      var linked := Text.Trim(contacts[i].instance);
      if linked != "" && linked != instance {
        continue;
      }
      if phone in seen {
        continue;
      }
      seen := seen + {phone};
      phones := phones + [phone];
    }
    assert contacts[..|contacts|] == contacts;
  }

  /** The snapshot has each phone once, in the order of the contacts, and exactly the phones of those that qualify. */
  lemma {:induction false} EligibleIsExact(contacts: seq<Contact>, instance: string)
    ensures Distinct(Eligible(contacts, instance))
    ensures forall p :: p in Eligible(contacts, instance) <==>
      exists c <- contacts :: InvitedTo(c, instance) && Text.Trim(c.phone) == p
    ensures forall n: nat :: n <= |contacts| ==> Eligible(contacts[..n], instance) <= Eligible(contacts, instance)
    decreases |contacts|
  {
    if contacts != [] {
      var n := |contacts| - 1;
      EligibleIsExact(contacts[..n], instance);
      assert forall c :: c in contacts <==> c in contacts[..n] || c == contacts[n];
      forall m: nat | m <= |contacts| ensures Eligible(contacts[..m], instance) <= Eligible(contacts, instance) {
        if m < |contacts| {
          assert contacts[..n][..m] == contacts[..m];
        } else {
          assert contacts[..m] == contacts;
        }
      }
    } else {
      assert forall n: nat :: n <= |contacts| ==> contacts[..n] == contacts;
    }
  }

  /** After step number from of a run, a step puts the job into the channel. */
  ghost predicate HasEntered(schedule: seq<Step>, history: seq<State>, job: Job, from: nat) {
    |history| == |schedule| + 1 &&
    exists n :: from < n < |schedule| && schedule[n] == Enqueue && history[n + 1].queue == history[n].queue + [job]
  }

  /** The jobs that were not put into the channel after step number from. */
  ghost function Missing(schedule: seq<Step>, history: seq<State>, jobs: seq<Job>, from: nat): set<Job> {
    set job | job in jobs && !HasEntered(schedule, history, job, from)
  }

  lemma EnteredStays(schedule: seq<Step>, history: seq<State>, schedule': seq<Step>, history': seq<State>,
                     jobs: seq<Job>, from: nat)
    requires schedule <= schedule' && history <= history' && |history| == |schedule| + 1
    requires |history'| == |schedule'| + 1
    requires Missing(schedule, history, jobs, from) == {}
    ensures Missing(schedule', history', jobs, from) == {}
  {
    forall job <- jobs ensures HasEntered(schedule', history', job, from) {
      assert job !in Missing(schedule, history, jobs, from);
      var n :| from < n < |schedule| && schedule[n] == Enqueue && history[n + 1].queue == history[n].queue + [job];
      assert schedule'[n] == Enqueue && history'[n + 1].queue == history'[n].queue + [job];
    }
  }

  lemma OneMoreEntered(schedule: seq<Step>, history: seq<State>, jobs: seq<Job>, job: Job, from: nat, n: nat)
    requires |history| == |schedule| + 1 && Missing(schedule, history, jobs, from) == {}
    requires from < n < |schedule| && schedule[n] == Enqueue && history[n + 1].queue == history[n].queue + [job]
    ensures Missing(schedule, history, jobs + [job], from) == {}
  {
    assert HasEntered(schedule, history, job, from);
    assert Missing(schedule, history, jobs + [job], from) <= Missing(schedule, history, jobs, from);
  }

  lemma RecordStepIs(job: Job, item: Item, more: bool, rest: seq<Item>, e: Entry, save: Save)
    ensures WorkerStep(Record(job, item, more, rest), e, SaveOutcome(save))
         == Some(Next(if save.Saved? && more then Walk(job, rest) else Failing(job, true), Stored(e, item, save)))
  {
  }

  lemma NoRowsStepIs(job: Job, e: Entry, contacts: seq<Contact>)
    requires !Blank(job) && Lists([], e.rows)
    ensures var phones := Eligible(contacts, job.instance);
      WorkerStep(Start(job), e, Load(contacts, []))
      == Some(Next(if phones == [] then Failing(job, false) else Seeding(job, phones), e))
  {
  }

  lemma GrantStepIs(job: Job, e: Entry, at: int)
    ensures WorkerStep(Slot(job), e, Grant(at)) == Some(Next(Start(job), e))
  {
  }

  lemma SumStepIs(job: Job, e: Entry, ok: bool)
    ensures WorkerStep(Summing(job), e, Sum(ok))
         == Some(if ok then Next(Marking(job, Summarize(e.rows).failed), e) else Next(Idle, Orphan(e)))
  {
  }

  lemma ListStepIs(pc: Pc, e: Entry, order: seq<Phone>, a: WorkerAction)
    requires (pc.Start? && a.Load? && a.order == order && !Blank(pc.job)) || (pc.Reload? && a == LoadAgain(order))
    requires Lists(order, e.rows) && order != []
    ensures WorkerStep(pc, e, a) == Some(Next(Walk(pc.job, PendingItems(order, e.rows)), Listed(e)))
  {
  }

  /**
   What an attempt meets outside: whether all goes well with the context and the statements, whether the instance is
   found, what the contact listing says, and what SendText answers for each phone.
   */
  datatype World = World(calm: bool, instanceKnown: bool, contacts: seq<Contact>, answers: Phone -> SendReply)

  /** The contact has a phone, and is linked to the instance or to none. */
  predicate InvitedTo(c: Contact, instance: string) {
    Text.Trim(c.phone) != "" && (Text.Trim(c.instance) == "" || Text.Trim(c.instance) == instance)
  }

  predicate SomeInvited(contacts: seq<Contact>, instance: string) {
    exists c <- contacts :: InvitedTo(c, instance)
  }

  lemma InvitedAreEligible(contacts: seq<Contact>, instance: string)
    ensures SomeInvited(contacts, instance) <==> Eligible(contacts, instance) != []
  {
    EligibleIsExact(contacts, instance);
    if Eligible(contacts, instance) != [] {
      assert Eligible(contacts, instance)[0] in Eligible(contacts, instance);
    }
    if SomeInvited(contacts, instance) {
      var c :| c in contacts && InvitedTo(c, instance);
      assert Text.Trim(c.phone) in Eligible(contacts, instance);
    }
  }

  /** The job lacks what a delivery needs. */
  predicate Incomplete(job: Job) {
    Text.Trim(job.tenant) == "" || Text.Trim(job.instance) == "" || Text.Trim(job.message) == ""
  }

  /** Only an answer of SendText can keep an attempt in such a world from success. */
  ghost predicate Smooth(world: World, job: Job) {
    world.calm && world.instanceKnown && !Incomplete(job) && SomeInvited(world.contacts, job.instance)
  }

  ghost predicate AllGoOn(world: World) {
    forall p :: GoesOn(world.answers(p))
  }

  /** And in such a world none does. */
  ghost predicate Favourable(world: World, job: Job) {
    Smooth(world, job) && AllGoOn(world)
  }

  /** A SendText call of worker w whose answer ends the recipient loop. */
  predicate StopsLoop(step: Step, w: nat) {
    step.Work? && step.w == w && step.a.Transmit? && !GoesOn(step.a.reply)
  }

  /** There was one among the steps from n on. */
  ghost predicate Stopped(steps: seq<Step>, n: nat, w: nat) {
    exists i :: n <= i < |steps| && StopsLoop(steps[i], w)
  }

  lemma CalledAndStopped(steps: seq<Step>, n: nat, m: nat, w: nat)
    requires m <= n < |steps| && StopsLoop(steps[n], w)
    ensures Stopped(steps, m, w)
  {
  }

  lemma StillStopped(steps: seq<Step>, n: nat, more: seq<Step>, m: nat, w: nat)
    requires Stopped(steps, n, w) && steps <= more && m <= n
    ensures Stopped(more, m, w)
  {
    var i :| n <= i < |steps| && StopsLoop(steps[i], w);
    assert StopsLoop(more[i], w);
  }

  class Service {
    const repo: Repository
    const workerCount: int
    const claimBatchSize: int
    var claimBatch: nat
    var queue: seq<Job>
    var dispatcher: Dispatcher
    var workers: seq<Pc>
    var grants: seq<SlotLimiter.Grant>
    var drops: nat
    ghost var schedule: seq<Step>
    ghost var history: seq<State>

    ghost function View(): State
      reads this, repo
    {
      State(repo.entries, dispatcher, queue, workers, claimBatch, grants, drops)
    }

    /** The steps taken so far form a run of the system that leads exactly here. */
    ghost predicate Valid()
      reads this, repo
    {
      && IsRun(history, schedule)
      && history[0] == Initial(workerCount, claimBatchSize)
      && history[|schedule|] == View()
    }

    /** So everything proved of all runs holds here. */
    lemma Reached()
      requires Valid()
      ensures View() == After(workerCount, claimBatchSize, schedule) && Inv(View())
    {
      RunIsExec(history, schedule);
      AfterOk(workerCount, claimBatchSize, schedule);
    }

    constructor (workerCount: int, claimBatchSize: int)
      ensures Valid() && fresh(repo) && repo.entries == map[] && queue == [] && grants == []
      ensures workerCount > 0 ==> |workers| == workerCount
      ensures workerCount <= 0 ==> |workers| == 1
      ensures claimBatch == if claimBatchSize > 0 then claimBatchSize else |workers|
    {
      repo := new Repository();
      this.workerCount := workerCount;
      this.claimBatchSize := claimBatchSize;
      var n: nat := if workerCount <= 0 then 1 else workerCount;
      claimBatch := if claimBatchSize <= 0 then n else claimBatchSize;
      queue, dispatcher, workers, grants, drops := [], Resting, seq(n, _ => Idle), [], 0;
      schedule, history := [], [Initial(workerCount, claimBatchSize)];
    }

    ghost method Commit(before: State, step: Step)
      requires IsRun(history, schedule) && history[0] == Initial(workerCount, claimBatchSize)
      requires history[|schedule|] == before && View() == Do(before, step)
      modifies this`schedule, this`history
      ensures Valid() && schedule == old(schedule) + [step] && history == old(history) + [View()]
    {
      RunGoesOn(history, schedule, step, View());
      schedule, history := schedule + [step], history + [View()];
    }

    /** Commits a step of worker w that led from before to here. */
    ghost method CommitWork(before: State, w: nat, a: WorkerAction, next: Next)
      requires IsRun(history, schedule) && history[0] == Initial(workerCount, claimBatchSize)
      requires history[|schedule|] == before && w < |before.workers| && !before.workers[w].Idle?
      requires before.workers[w].job.id in before.entries
      requires WorkerStep(before.workers[w], before.entries[before.workers[w].job.id], a) == Some(next)
      requires workers == before.workers[w := next.pc]
      requires repo.entries == before.entries[before.workers[w].job.id := next.entry]
      requires View() == before.(workers := workers, entries := repo.entries) && !a.Grant?
      modifies this`schedule, this`history
      ensures Valid() && schedule == old(schedule) + [Work(w, a)]
    {
      Commit(before, Work(w, a));
    }

    /** Any number of steps of goroutines other than g. */
    method Others(g: Goroutine)
      requires Valid()
      modifies this, repo
      ensures Valid() && SameLocals(old(View()), View(), g) && claimBatch == old(claimBatch)
      ensures old(schedule) <= schedule && old(history) <= history
    {
      var steps: seq<Step> := *;
      for i := 0 to |steps|
        invariant Valid() && SameLocals(old(View()), View(), g) && claimBatch == old(claimBatch)
        invariant old(schedule) <= schedule && old(history) <= history
      {
        if Foreign(steps[i], g) {
          ghost var before := View();
          var s := Do(State(repo.entries, dispatcher, queue, workers, claimBatch, grants, drops), steps[i]);
          repo.entries, dispatcher, queue, workers := s.entries, s.dispatcher, s.queue, s.workers;
          grants, drops := s.grants, s.drops;
          ForeignSteps(before, steps[i], g);
          Commit(before, steps[i]);
        }
      }
    }

    /** A step of worker w that touches no table. */
    method Goto(w: nat, pc: Pc, ghost a: WorkerAction)
      requires Valid() && w < |workers| && !workers[w].Idle? && workers[w].job.id in repo.entries
      requires WorkerStep(workers[w], repo.entries[workers[w].job.id], a)
            == Some(Next(pc, repo.entries[workers[w].job.id]))
      requires !a.Grant?
      modifies this
      ensures Valid() && workers == old(workers)[w := pc] && schedule == old(schedule) + [Work(w, a)]
    {
      ghost var before := View();
      workers := workers[w := pc];
      assert repo.entries == before.entries[before.workers[w].job.id := before.entries[before.workers[w].job.id]];
      CommitWork(before, w, a, Next(pc, before.entries[before.workers[w].job.id]));
    }

    // ------------------------------------------------------------- dispatcher

    /** Each of these jobs was put into the channel at a step after from. */
    ghost predicate AllEntered(jobs: seq<Job>, from: nat)
      reads this
    {
      Missing(schedule, history, jobs, from) == {}
    }

    /**
     claimAndEnqueue. It measures the free slots first and does nothing when there are none. Unless the claim fails,
     it is step number at, of the first due jobs, as many as fit into the channel and the batch; and each of them
     enters the channel, whatever the other goroutines do meanwhile.
     */
    method ClaimAndEnqueue(claimFails: bool) returns (ghost claimed: seq<Job>, ghost at: nat)
      requires Valid() && dispatcher.Resting?
      modifies this, repo
      ensures Valid() && dispatcher.Resting? && |workers| == old(|workers|) && old(schedule) <= schedule
      ensures 4 * |old(workers)| <= |old(queue)| ==> schedule == old(schedule)
      ensures 4 * |old(workers)| > |old(queue)| ==> old(schedule) + [Measure] <= schedule
      ensures 4 * |old(workers)| > |old(queue)| && !claimFails ==>
        |old(schedule)| < at && Claims(at, Min(old(claimBatch), 4 * |old(workers)| - |old(queue)|), claimed)
      ensures 4 * |old(workers)| > |old(queue)| && !claimFails ==> AllEntered(claimed, at)
    {
      claimed, at := [], 0;
      var freeSlots := 4 * |workers| - |queue|;
      if freeSlots <= 0 {
        return;
      }
      var limit := claimBatch;
      if freeSlots < limit {
        limit := freeSlots;
      }
      claimed, at := ClaimUpTo(limit, claimFails);
    }

    /** The part of claimAndEnqueue after the limit is known. */
    method ClaimUpTo(limit: nat, claimFails: bool) returns (ghost claimed: seq<Job>, ghost at: nat)
      requires Valid() && dispatcher.Resting? && 4 * |workers| > |queue|
      requires limit == Min(claimBatch, 4 * |workers| - |queue|)
      modifies this, repo
      ensures Valid() && dispatcher.Resting? && |workers| == old(|workers|) && old(schedule) + [Measure] <= schedule
      ensures !claimFails ==> |old(schedule)| < at && Claims(at, limit, claimed) && AllEntered(claimed, at)
    {
      ghost var before := View();
      dispatcher := Claiming(limit);
      Commit(before, Measure);
      Others(TheDispatcher);
      at := |schedule|;
      var jobs := ClaimJobs(limit, claimFails);
      claimed := jobs;
      if claimFails {
        return;
      }
      EnqueueAll(jobs, at);
    }

    /** Step number at claims these jobs. */
    ghost predicate Claims(at: nat, limit: nat, claimed: seq<Job>)
      reads this
    {
      && at < |schedule| && schedule[at].Claim?
      && at < |history| && Selects(history[at].entries, schedule[at].ids, limit, schedule[at].now)
      && claimed == ClaimedJobs(history[at].entries, schedule[at].ids)
    }

    /** The loop of claimAndEnqueue. */
    method EnqueueAll(jobs: seq<Job>, ghost at: nat)
      requires Valid() && dispatcher == Handing(jobs) && at < |schedule|
      modifies this, repo
      ensures Valid() && dispatcher.Resting? && |workers| == old(|workers|)
      ensures old(schedule) <= schedule && old(history) <= history
      ensures AllEntered(jobs, at)
    {
      for i := 0 to |jobs|
        invariant Valid() && |workers| == old(|workers|)
        invariant dispatcher == Handing(jobs[i..])
        invariant old(schedule) <= schedule && old(history) <= history
        invariant AllEntered(jobs[..i], at)
      {
        assert jobs[i..][1..] == jobs[i + 1..] && jobs[..i + 1] == jobs[..i] + [jobs[i]];
        EnqueueNext(jobs[i], at, jobs[..i]);
      }
      assert jobs[..|jobs|] == jobs;
      ghost var before, schedule0, history0 := View(), schedule, history;
      dispatcher := Resting;
      Commit(before, Enqueue);
      EnteredStays(schedule0, history0, schedule, history, jobs, at);
    }

    /** One turn of the loop: the others run, and the next job enters the channel. */
    method EnqueueNext(job: Job, ghost at: nat, ghost done: seq<Job>)
      requires Valid() && dispatcher.Handing? && dispatcher.jobs != [] && dispatcher.jobs[0] == job && at < |schedule|
      requires AllEntered(done, at)
      modifies this, repo
      ensures Valid() && |workers| == old(|workers|) && dispatcher == Handing(old(dispatcher).jobs[1..])
      ensures old(schedule) <= schedule && old(history) <= history
      ensures AllEntered(done + [job], at)
    {
      ghost var schedule0, history0 := schedule, history;
      Others(TheDispatcher);
      ghost var n := |schedule|;
      TryEnqueue(job);
      EnteredStays(schedule0, history0, schedule, history, done, at);
      OneMoreEntered(schedule, history, done, job, at, n);
    }

    /** The claim itself; an error leaves the dispatcher at rest with nothing claimed. */
    method ClaimJobs(limit: nat, fails: bool) returns (jobs: seq<Job>)
      requires Valid() && dispatcher == Claiming(limit)
      modifies this, repo
      ensures Valid() && workers == old(workers) && old(schedule) <= schedule && old(history) <= history
      ensures fails ==> dispatcher.Resting? && jobs == [] && repo.entries == old(repo.entries)
      ensures !fails ==> dispatcher == Handing(jobs) && Claims(|old(schedule)|, limit, jobs)
    {
      ghost var before := View();
      if fails {
        dispatcher := Resting;
        Commit(before, ClaimError);
        return [];
      }
      var now: int := *;
      ClaimPositive();
      var ids;
      ids, jobs := repo.ClaimNext(limit, now);
      dispatcher := Handing(jobs);
      Commit(before, Claim(ids, now));
    }

    /** A claim is only made with room for it. */
    lemma ClaimPositive()
      requires Valid() && dispatcher.Claiming?
      ensures dispatcher.limit > 0
    {
      Reached();
      LimitPositive(workerCount, claimBatchSize, schedule);
    }

    /** tryEnqueue: the default branch of the select is written out, though it is never taken. */
    method TryEnqueue(job: Job)
      requires Valid() && dispatcher.Handing? && dispatcher.jobs != [] && dispatcher.jobs[0] == job
      modifies this
      ensures Valid() && workers == old(workers)
      ensures queue == old(queue) + [job] && dispatcher == Handing(old(dispatcher).jobs[1..])
      ensures schedule == old(schedule) + [Enqueue] && history == old(history) + [View()]
    {
      ghost var before := View();
      if |queue| < 4 * |workers| {
        queue := queue + [job];
      } else {
        drops := drops + 1;
      }
      dispatcher := Handing(dispatcher.jobs[1..]);
      Commit(before, Enqueue);
      Reached();
    }

    // ----------------------------------------------------------------- worker

    /**
     One turn of worker w: take the oldest job from the channel, if there is one, and handle it. The turn begins with
     that step and ends with one that marks the job or gives it up.
     */
    method WorkerTurn(w: nat, patience: nat, world: World, summaryFails: bool) returns (ghost granted: bool)
      requires Valid() && w < |workers| && workers[w].Idle?
      modifies this, repo
      ensures Valid() && |workers| == old(|workers|) && workers[w].Idle?
      ensures old(queue) == [] ==> schedule == old(schedule) && history == old(history)
      ensures old(queue) != [] ==> old(schedule) + [Take(w)] <= schedule && Ended(w)
      ensures old(queue) != [] && granted && !summaryFails ==> Closed(w)
      ensures old(queue) != [] && granted && !summaryFails && Smooth(world, old(queue)[0]) ==>
        Completing(w) || Stopped(schedule, |old(schedule)|, w)
      ensures old(queue) != [] && granted && !summaryFails && Favourable(world, old(queue)[0]) ==> Completing(w)
    {
      granted := false;
      if queue == [] {
        return;
      }
      ghost var before := View();
      var job := queue[0];
      queue := queue[1..];
      workers := workers[w := Slot(job)];
      Commit(before, Take(w));
      ghost var refusals;
      ghost var n := |schedule|;
      granted, refusals := HandleJob(w, job, patience, world, summaryFails);
      if Stopped(schedule, n, w) {
        StillStopped(schedule, n, schedule, |old(schedule)|, w);
      }
    }

    /** What the invariant says about the job of worker w. */
    ghost predicate HasJob(w: nat, job: Job)
      reads this, repo
    {
      && w < |workers| && !workers[w].Idle? && workers[w].job == job
      && job.id in repo.entries && repo.entries[job.id].job == job && Matches(repo.entries, job.tenant, job.id)
      && RowsOf(repo.entries, job.tenant, job.id) == repo.entries[job.id].rows
    }

    /** The others run; worker w stays where it is, and its job stays its own. */
    method Pause(w: nat, job: Job)
      requires Valid() && w < |workers| && !workers[w].Idle? && workers[w].job == job
      modifies this, repo
      ensures Valid() && |workers| == old(|workers|) && workers[w] == old(workers)[w] && HasJob(w, job)
      ensures old(schedule) <= schedule && old(history) <= history && old(grants) <= grants
    {
      Others(Worker(w));
      Reached();
      HoldsJob(View(), w);
    }

    /** A check of ctx.Err(), or any other place where Process stops with a retryable error; not so when all is calm. */
    method Interrupted(w: nat, job: Job, calm: bool) returns (cancelled: bool)
      requires Valid() && w < |workers| && !workers[w].Idle? && workers[w].job == job
      requires workers[w].Start? || workers[w].Reload? || workers[w].Send?
            || (workers[w].Walk? && workers[w].todo != [])
      modifies this, repo
      ensures Valid() && |workers| == old(|workers|) && old(schedule) <= schedule
      ensures cancelled ==> workers[w] == Failing(job, true)
      ensures !cancelled ==> workers[w] == old(workers)[w] && HasJob(w, job) && old(history) <= history
      ensures calm ==> !cancelled
    {
      Pause(w, job);
      cancelled := *;
      cancelled := cancelled && !calm;
      if cancelled {
        Goto(w, Failing(job, true), Interrupt);
      }
    }

    /** Gives the job up without marking it; its row stays in processing. */
    method GiveUp(w: nat, job: Job, ghost a: WorkerAction)
      requires Valid() && HasJob(w, job)
      requires WorkerStep(workers[w], repo.entries[job.id], a) == Some(Next(Idle, Orphan(repo.entries[job.id])))
      requires !a.Grant?
      modifies this, repo
      ensures Valid() && workers == old(workers)[w := Idle]
      ensures schedule == old(schedule) + [Work(w, a)] && grants == old(grants)
    {
      ghost var before := View();
      repo.entries := repo.entries[job.id := Orphan(repo.entries[job.id])];
      workers := workers[w := Idle];
      CommitWork(before, w, a, Next(Idle, Orphan(before.entries[job.id])));
    }

    /** The last step was worker w's, and marked its job completed or failed, or tried to. */
    ghost predicate Closed(w: nat)
      reads this
    {
      schedule != [] &&
      var step := schedule[|schedule| - 1];
      step.Work? && step.w == w && (step.a.Mark? || step.a.Fail?)
    }

    /** The last step was worker w's, and marked its job or gave it up. */
    ghost predicate Ended(w: nat)
      reads this
    {
      schedule != [] &&
      var step := schedule[|schedule| - 1];
      step.Work? && step.w == w && (step.a.Mark? || step.a.Fail? || WalksAway(step.a))
    }

    /** The last step was worker w's, and marked its job completed, or tried to. */
    ghost predicate Completing(w: nat)
      reads this
    {
      schedule != [] &&
      var step := schedule[|schedule| - 1];
      step.Work? && step.w == w && step.a.Mark?
    }

    /**
     handleJob, whose context outlives that many passes of the wait for the slot. The attempt is given up before it
     begins only if each of them found the instance's slot taken. Once begun it ends in a statement that marks the
     job, unless the summary fails; in a smooth world that is the one for completed jobs, unless some answer of
     SendText has ended the recipient loop.
     */
    method HandleJob(w: nat, job: Job, patience: nat, world: World, summaryFails: bool)
        returns (ghost granted: bool, ghost refusals: seq<SlotLimiter.Refusal>)
      requires Valid() && w < |workers| && workers[w] == Slot(job)
      modifies this, repo
      ensures Valid() && |workers| == old(|workers|) && workers[w].Idle?
      ensures old(schedule) <= schedule && Ended(w)
      ensures !granted ==> |refusals| == patience && old(grants) <= grants && SinceGrants(refusals, |old(grants)|)
      ensures !granted ==> SlotLimiter.Refused(refusals, grants, job.instance)
      ensures granted && !summaryFails ==> Closed(w)
      ensures granted && !summaryFails && Smooth(world, job) ==>
        Completing(w) || Stopped(schedule, |old(schedule)|, w)
      ensures granted && !summaryFails && Favourable(world, job) ==> Completing(w)
    {
      var through;
      through, refusals := WaitForInstanceSlot(w, job, patience);
      granted := through;
      if !through {
        GiveUp(w, job, CancelSlot);
        return;
      }
      ghost var n := |schedule|;
      Attempt(w, job, world, summaryFails);
      if Stopped(schedule, n, w) {
        StillStopped(schedule, n, schedule, |old(schedule)|, w);
      }
    }

    /** These passes came after n grants of the process. */
    ghost predicate SinceGrants(refusals: seq<SlotLimiter.Refusal>, n: nat) {
      forall i :: 0 <= i < |refusals| ==> n <= refusals[i].grants
    }

    /**
     waitForInstanceSlot, with the slots of the process as its limiter remembers them. Each pass reads the clock,
     which does not go back, and either takes the slot or sleeps until it is due.
     */
    method WaitForInstanceSlot(w: nat, job: Job, patience: nat)
        returns (granted: bool, ghost refusals: seq<SlotLimiter.Refusal>)
      requires Valid() && w < |workers| && workers[w] == Slot(job)
      modifies this, repo
      ensures Valid() && |workers| == old(|workers|) && old(schedule) <= schedule && old(grants) <= grants
      ensures granted ==> workers[w] == Start(job) && |grants| > |old(grants)|
      ensures !granted ==> workers[w] == Slot(job) && HasJob(w, job) && |refusals| == patience
      ensures SlotLimiter.Refused(refusals, grants, job.instance) && SinceGrants(refusals, |old(grants)|)
    {
      Pause(w, job);
      var passes, due := 0, 0;
      granted, refusals := false, [];
      while passes < patience
        invariant Valid() && |workers| == old(|workers|) && old(schedule) <= schedule && old(grants) <= grants
        invariant workers[w] == Slot(job) && HasJob(w, job) && passes <= patience && |refusals| == passes
        invariant SlotLimiter.Refused(refusals, grants, job.instance) && SinceGrants(refusals, |old(grants)|)
        invariant SlotLimiter.Slept(refusals, grants, job.instance, due)
      {
        granted, due, refusals := TryOnce(w, job, due, refusals);
        if granted {
          return;
        }
        passes := passes + 1;
      }
    }

    /** One pass, with other goroutines before it. */
    method TryOnce(w: nat, job: Job, due: int, ghost refusals: seq<SlotLimiter.Refusal>)
        returns (granted: bool, due': int, ghost refusals': seq<SlotLimiter.Refusal>)
      requires Valid() && w < |workers| && workers[w] == Slot(job)
      requires SlotLimiter.Refused(refusals, grants, job.instance)
      requires SlotLimiter.Slept(refusals, grants, job.instance, due)
      modifies this, repo
      ensures Valid() && |workers| == old(|workers|) && old(schedule) <= schedule && old(grants) <= grants
      ensures granted ==> workers[w] == Start(job) && |grants| > |old(grants)| && refusals' == refusals
      ensures !granted ==> workers[w] == Slot(job) && HasJob(w, job)
      ensures !granted ==>
        |refusals'| == |refusals| + 1 && refusals <= refusals' && refusals'[|refusals|].grants >= |old(grants)|
      ensures !granted ==> SlotLimiter.Slept(refusals', grants, job.instance, due')
      ensures SlotLimiter.Refused(refusals', grants, job.instance)
    {
      refusals', due' := refusals, due;
      Pause(w, job);
      var now := ReadClock(due);
      if SlotLimiter.FreeAt(grants, job.instance) <= now {
        ghost var before := View();
        ghost var more := grants + [SlotLimiter.Grant(job.instance, now, job.ratePerHour)];
        SlotLimiter.RefusedStays(refusals, old(grants), more, job.instance);
        GrantStepIs(job, repo.entries[job.id], now);
        workers := workers[w := Start(job)];
        grants := grants + [SlotLimiter.Grant(job.instance, now, job.ratePerHour)];
        assert repo.entries == before.entries[job.id := before.entries[job.id]];
        Commit(before, Work(w, Grant(now)));
        granted := true;
      } else {
        SlotLimiter.OneMoreRefusal(refusals, old(grants), job.instance, now, grants);
        refusals' := refusals + [SlotLimiter.Refusal(now, |grants|)];
        due' := SlotLimiter.FreeAt(grants, job.instance);
        granted := false;
      }
    }

    /** A time no earlier than that of the last grant, and than the one slept until. */
    method ReadClock(due: int) returns (now: int)
      requires Valid()
      ensures 0 < now && due <= now && SlotLimiter.Sensible(grants, now)
    {
      Reached();
      SlotLimiter.ProducedIsSpaced(grants);
      var elapsed :| elapsed >= 0;
      now := if grants == [] then 1 else grants[|grants| - 1].at;
      if now < due {
        now := due;
      }
      now := now + elapsed;
    }

    /** The part of handleJob after the slot is granted. */
    method Attempt(w: nat, job: Job, world: World, summaryFails: bool)
      requires Valid() && w < |workers| && workers[w] == Start(job)
      modifies this, repo
      ensures Valid() && |workers| == old(|workers|) && workers[w].Idle?
      ensures old(schedule) <= schedule && Ended(w)
      ensures !summaryFails ==> Closed(w)
      ensures !summaryFails && Smooth(world, job) ==> Completing(w) || Stopped(schedule, |old(schedule)|, w)
      ensures !summaryFails && Favourable(world, job) ==> Completing(w)
    {
      var err := Process(w, job, world);
      if err.Some? {
        ghost var steps := schedule;
        HandleFailure(w, job, err.value);
        if Smooth(world, job) {
          StillStopped(steps, |old(schedule)|, schedule, |old(schedule)|, w);
        }
        return;
      }

      var failures := CountFailures(w, job, summaryFails);
      if failures.Some? {
        MarkDone(w, job, failures.value);
      }
    }

    /** The summary that handleJob takes; on an error it returns, leaving the job in processing. */
    method CountFailures(w: nat, job: Job, fails: bool) returns (failures: Option<nat>)
      requires Valid() && w < |workers| && workers[w] == Summing(job)
      modifies this, repo
      ensures Valid() && |workers| == old(|workers|)
      ensures failures.Some? ==> workers[w] == Marking(job, failures.value)
      ensures failures.None? ==> workers[w].Idle?
      ensures failures.None? <==> fails
      ensures old(schedule) <= schedule && (fails ==> Ended(w))
    {
      Pause(w, job);
      SumStepIs(job, repo.entries[job.id], !fails);
      if fails {
        GiveUp(w, job, Sum(false));
        return None;
      }
      var summary := repo.SummarizeRecipientProgress(job.tenant, job.id);
      Goto(w, Marking(job, summary.failed), Sum(true));
      failures := Some(summary.failed);
    }

    method MarkDone(w: nat, job: Job, failures: nat)
      requires Valid() && w < |workers| && workers[w] == Marking(job, failures)
      modifies this, repo
      ensures Valid() && |workers| == old(|workers|) && workers[w].Idle?
      ensures old(schedule) <= schedule && Completing(w)
      ensures var save := schedule[|schedule| - 1].a.save;
        && job.id in repo.entries
        && repo.entries[job.id].job == if !save.Applied() then job
             else job.(status := if failures == 0 then Completed else CompletedWithFailures)
    {
      Pause(w, job);
      ghost var before := View();
      var save;
      if failures > 0 {
        save := repo.MarkCompletedWithFailures(job.tenant, job.id);
      } else {
        save := repo.MarkCompleted(job.tenant, job.id);
      }
      Leave(w, job, save, before, Mark(save));
    }

    /** handleFailure. */
    method HandleFailure(w: nat, job: Job, retryable: bool)
      requires Valid() && w < |workers| && workers[w] == Failing(job, retryable)
      modifies this, repo
      ensures Valid() && |workers| == old(|workers|) && workers[w].Idle?
      ensures old(schedule) <= schedule && Closed(w)
      ensures var last := schedule[|schedule| - 1].a;
        && last.Fail? && job.id in repo.entries
        && (last.save.Applied() ==> FailureWrites(job, retryable, last.now, repo.entries[job.id].job))
        && (!last.save.Applied() ==> repo.entries[job.id].job == job)
    {
      Pause(w, job);
      var now: int := *;
      var retryAt: Option<int> := None;
      if job.attempts < job.maxAttempts && retryable {
        retryAt := Some(now + BackoffForAttempt(job.attempts));
      }
      ghost var before := View();
      var save := repo.MarkFailed(job.tenant, job.id, retryAt);
      FailingStep(job, retryable, before.entries[job.id], now, save);
      Leave(w, job, save, before, Fail(now, save));
    }

    /** The worker is done with the job, whose closing update may have missed the table. */
    method Leave(w: nat, job: Job, save: Save, ghost before: State, ghost a: WorkerAction)
      requires IsRun(history, schedule) && history[0] == Initial(workerCount, claimBatchSize)
      requires history[|schedule|] == before && w < |workers| && !workers[w].Idle? && workers[w].job == job
      requires View() == before.(entries := repo.entries) && job.id in before.entries
      requires save.Missed? ==> repo.entries == before.entries
      requires !a.Grant?
      requires var step := WorkerStep(workers[w], before.entries[job.id], a);
        step.Some? && step.value.pc.Idle? &&
        if save.Missed? then step.value.entry == Orphan(before.entries[job.id])
        else repo.entries == before.entries[job.id := step.value.entry]
      modifies this, repo
      ensures Valid() && workers == old(workers)[w := Idle]
      ensures schedule == old(schedule) + [Work(w, a)]
      ensures job.id in repo.entries
      ensures repo.entries[job.id] == WorkerStep(old(workers)[w], before.entries[job.id], a).value.entry
    {
      if save.Missed? {
        repo.entries := repo.entries[job.id := Orphan(repo.entries[job.id])];
      }
      ghost var next := WorkerStep(workers[w], before.entries[job.id], a).value;
      workers := workers[w := Idle];
      CommitWork(before, w, a, next);
    }

    /**
     Process. Some(retryable) is its error. On success every recipient that it loaded has been settled, whatever
     receipts, late seeding and other jobs did meanwhile. When nothing else goes wrong it fails only after a SendText
     call with an answer that ends the loop, so in a favourable world it succeeds.
     */
    method Process(w: nat, job: Job, world: World) returns (err: Option<bool>)
      requires Valid() && w < |workers| && workers[w] == Start(job)
      modifies this, repo
      ensures Valid() && |workers| == old(|workers|) && old(schedule) <= schedule
      ensures err.Some? ==> workers[w] == Failing(job, err.value)
      ensures err.None? ==> workers[w] == Summing(job) && job.id in repo.entries && AllSettled(repo.entries[job.id])
      ensures Smooth(world, job) && err.Some? ==> Stopped(schedule, |old(schedule)|, w)
      ensures Favourable(world, job) ==> err.None?
      ensures world.calm && (Incomplete(job) || !world.instanceKnown) ==> err == Some(false)
      ensures world.calm && err == Some(true) ==> Stopped(schedule, |old(schedule)|, w)
      ensures err == Some(false) ==>
        Incomplete(job) || !world.instanceKnown || !SomeInvited(world.contacts, job.instance)
    {
      var cancelled := Interrupted(w, job, world.calm);
      if cancelled {
        return Some(true);
      }
      if Blank(job) || !world.instanceKnown {
        Goto(w, Failing(job, false), Reject);
        return Some(false);
      }

      var progress;
      progress, err := LoadOrSeedRecipientProgress(w, job, world);
      if err.Some? {
        return;
      }
      var pending := PendingRecipientProgress(progress);
      err := SendToAll(w, job, pending, world, |old(schedule)|);
    }

    /** The recipient loop of an attempt that began with step n or later. */
    method SendToAll(w: nat, job: Job, pending: seq<Item>, world: World, ghost n: nat) returns (err: Option<bool>)
      requires Valid() && w < |workers| && workers[w] == Walk(job, pending) && n <= |schedule|
      modifies this, repo
      ensures Valid() && |workers| == old(|workers|) && old(schedule) <= schedule
      ensures err.Some? ==> workers[w] == Failing(job, err.value)
      ensures err.None? ==> workers[w] == Summing(job) && job.id in repo.entries && AllSettled(repo.entries[job.id])
      ensures world.calm && err.Some? ==> Stopped(schedule, n, w)
      ensures world.calm && AllGoOn(world) ==> err.None?
      ensures err != Some(false)
    {
      for i := 0 to |pending|
        invariant Valid() && |workers| == old(|workers|) && old(schedule) <= schedule
        invariant workers[w] == Walk(job, pending[i..])
      {
        assert pending[i..] == [pending[i]] + pending[i + 1..];
        ghost var m := |schedule|;
        err := SendToRecipient(w, job, pending[i], pending[i + 1..], world);
        if err.Some? {
          if world.calm {
            StillStopped(schedule, m, schedule, n, w);
          }
          return;
        }
      }
      LeaveLoop(w, job);
      err := None;
    }

    method LeaveLoop(w: nat, job: Job)
      requires Valid() && w < |workers| && workers[w] == Walk(job, [])
      modifies this, repo
      ensures Valid() && |workers| == old(|workers|) && old(schedule) <= schedule
      ensures workers[w] == Summing(job) && job.id in repo.entries && AllSettled(repo.entries[job.id])
    {
      Pause(w, job);
      Goto(w, Summing(job), Finish);
      Reached();
      SummingIsSettled(View(), w);
    }

    /** loadOrSeedRecipientProgress, with the emptiness check that Process makes on its result. */
    method LoadOrSeedRecipientProgress(w: nat, job: Job, world: World) returns (progress: seq<Item>, err: Option<bool>)
      requires Valid() && w < |workers| && workers[w] == Start(job) && !Blank(job)
      modifies this, repo
      ensures Valid() && |workers| == old(|workers|) && old(schedule) <= schedule
      ensures err.Some? ==> workers[w] == Failing(job, err.value)
      ensures err.None? ==> workers[w] == Walk(job, PendingOf(progress))
      ensures world.calm && SomeInvited(world.contacts, job.instance) ==> err.None?
      ensures err == Some(false) ==> !SomeInvited(world.contacts, job.instance)
      ensures world.calm ==> err != Some(true)
    {
      InvitedAreEligible(world.contacts, job.instance);
      progress := [];
      var cancelled := Interrupted(w, job, world.calm);
      if cancelled {
        return [], Some(true);
      }
      var order;
      order, progress := repo.ListRecipientProgress(job.tenant, job.id);
      if |progress| > 0 {
        Listed(w, job, order, Load(world.contacts, order));
        return progress, None;
      }
      progress, err := SeedAndLoad(w, job, world.contacts, world.calm);
    }

    /** The case of a broadcast that has no rows yet. */
    method SeedAndLoad(w: nat, job: Job, contacts: seq<Contact>, calm: bool)
        returns (progress: seq<Item>, err: Option<bool>)
      requires Valid() && HasJob(w, job) && workers[w] == Start(job) && !Blank(job)
      requires Lists([], repo.entries[job.id].rows)
      modifies this, repo
      ensures Valid() && |workers| == old(|workers|) && old(schedule) <= schedule
      ensures err.Some? ==> workers[w] == Failing(job, err.value)
      ensures err.None? ==> workers[w] == Walk(job, PendingOf(progress))
      ensures calm && Eligible(contacts, job.instance) != [] ==> err.None?
      ensures err == Some(false) ==> Eligible(contacts, job.instance) == []
      ensures calm ==> err != Some(true)
    {
      progress := [];
      NoRowsStepIs(job, repo.entries[job.id], contacts);
      var phones := EligibleBroadcastRecipients(contacts, job.instance);
      if phones == [] {
        Goto(w, Failing(job, false), Load(contacts, []));
        return [], Some(false);
      }
      Goto(w, Seeding(job, phones), Load(contacts, []));
      err := SeedAndReload(w, job, phones, calm);
      if err.Some? {
        return;
      }
      assert phones[0] in repo.entries[job.id].rows;
      progress, err := LoadSeeded(w, job, calm);
    }

    method SeedAndReload(w: nat, job: Job, phones: seq<Phone>, calm: bool) returns (err: Option<bool>)
      requires Valid() && w < |workers| && workers[w] == Seeding(job, phones)
      modifies this, repo
      ensures Valid() && |workers| == old(|workers|) && old(schedule) <= schedule
      ensures err.Some? ==> workers[w] == Failing(job, err.value)
      ensures err.None? ==>
        workers[w] == Reload(job) && job.id in repo.entries && forall p <- phones :: p in repo.entries[job.id].rows
      ensures calm ==> err.None?
      ensures err != Some(false)
    {
      Pause(w, job);
      ghost var before := View();
      var save := repo.SeedRecipientProgress(job, phones, calm);
      workers := workers[w := if save.Saved? then Reload(job) else Failing(job, true)];
      CommitWork(before, w, SaveSeeds(save), SeedingStep(job, phones, before.entries[job.id], SaveSeeds(save)).value);
      err := if save.Saved? then None else Some(true);
    }

    method LoadSeeded(w: nat, job: Job, calm: bool) returns (progress: seq<Item>, err: Option<bool>)
      requires Valid() && w < |workers| && workers[w] == Reload(job) && !Blank(job)
      modifies this, repo
      ensures Valid() && |workers| == old(|workers|) && old(schedule) <= schedule
      ensures err.Some? ==> workers[w] == Failing(job, err.value)
      ensures err.None? ==> workers[w] == Walk(job, PendingOf(progress))
      ensures calm && job.id in old(repo.entries) && old(repo.entries)[job.id].rows != map[] ==> err.None?
      ensures job.id in old(repo.entries) && old(repo.entries)[job.id].rows != map[] ==> err != Some(false)
      ensures calm ==> err != Some(true)
    {
      progress := [];
      ghost var before, n := View(), |schedule|;
      var cancelled := Interrupted(w, job, calm);
      if cancelled {
        return [], Some(true);
      }
      RowsStay(job.id, before, n);
      var order;
      order, progress := repo.ListRecipientProgress(job.tenant, job.id);
      if |progress| == 0 {
        Goto(w, Failing(job, false), LoadAgain(order));
        return [], Some(false);
      }
      Listed(w, job, order, LoadAgain(order));
      err := None;
    }

    /** Since a state n steps into the run, a job has lost no row. */
    lemma RowsStay(id: JobId, earlier: State, n: nat)
      requires Valid() && n <= |schedule| && history[n] == earlier
      ensures id in earlier.entries ==>
        id in repo.entries && earlier.entries[id].rows.Keys <= repo.entries[id].rows.Keys
    {
      if id in earlier.entries {
        RunKeeps(workerCount, claimBatchSize, history, schedule, n, id);
      }
    }

    /** The bookkeeping of a listing that the recipient loop will walk. */
    method Listed(w: nat, job: Job, order: seq<Phone>, ghost a: WorkerAction)
      requires Valid() && HasJob(w, job) && !Blank(job)
      requires (workers[w] == Start(job) && a.Load? && a.order == order)
            || (workers[w] == Reload(job) && a == LoadAgain(order))
      requires Lists(order, repo.entries[job.id].rows) && order != []
      modifies this, repo
      ensures Valid()
      ensures workers == old(workers)[w := Walk(job, PendingOf(Listing(order, old(repo.entries)[job.id].rows)))]
      ensures old(schedule) <= schedule
    {
      ghost var before := View();
      PendingOfListing(order, repo.entries[job.id].rows);
      var pc := Walk(job, PendingItems(order, repo.entries[job.id].rows));
      ListStepIs(workers[w], repo.entries[job.id], order, a);
      workers := workers[w := pc];
      repo.entries := repo.entries[job.id := Delivery.Listed(repo.entries[job.id])];
      CommitWork(before, w, a, Next(pc, Delivery.Listed(before.entries[job.id])));
    }

    /** One turn of the recipient loop. */
    method SendToRecipient(w: nat, job: Job, item: Item, rest: seq<Item>, world: World) returns (err: Option<bool>)
      requires Valid() && w < |workers| && workers[w] == Walk(job, [item] + rest)
      modifies this, repo
      ensures Valid() && |workers| == old(|workers|) && old(schedule) <= schedule
      ensures err.Some? ==> workers[w] == Failing(job, err.value)
      ensures err.None? ==> workers[w] == Walk(job, rest)
      ensures world.calm && err.Some? ==>
        !GoesOn(world.answers(item.phone)) && Stopped(schedule, |old(schedule)|, w)
      ensures err != Some(false)
    {
      var cancelled := Interrupted(w, job, world.calm);
      if cancelled {
        return Some(true);
      }
      var attemptedAt: int := *;
      var row := item.row;
      row := row.(attempts := row.attempts + 1);
      row := row.(lastAttemptAt := Some(attemptedAt));
      row := row.(status := Pending);
      err := SaveAttempt(w, job, item, attemptedAt, row, rest, world.calm);
      if err.Some? {
        return;
      }
      err := SendOnceSaved(w, job, Item(item.phone, row), attemptedAt, rest, world, |old(schedule)|);
    }

    /** The part of that turn after the save before SendText; the turn began with step n or later. */
    method SendOnceSaved(w: nat, job: Job, item: Item, attemptedAt: int, rest: seq<Item>, world: World, ghost n: nat)
        returns (err: Option<bool>)
      requires Valid() && w < |workers| && workers[w] == Send(job, item, rest) && n <= |schedule|
      requires item.row.lastAttemptAt == Some(attemptedAt)
      modifies this, repo
      ensures Valid() && |workers| == old(|workers|) && old(schedule) <= schedule
      ensures err.Some? ==> workers[w] == Failing(job, err.value)
      ensures err.None? ==> workers[w] == Walk(job, rest)
      ensures world.calm && err.Some? ==> !GoesOn(world.answers(item.phone)) && Stopped(schedule, n, w)
      ensures err != Some(false)
    {
      var cancelled := Interrupted(w, job, world.calm);
      if cancelled {
        return Some(true);
      }
      ghost var m := |schedule|;
      err := SendAndRecord(w, job, item, attemptedAt, rest, world);
      if world.calm && err.Some? {
        CalledAndStopped(schedule, m, n, w);
      }
    }

    /** The save before SendText. */
    method SaveAttempt(w: nat, job: Job, item: Item, at: int, row: Row, rest: seq<Item>, calm: bool)
        returns (err: Option<bool>)
      requires Valid() && HasJob(w, job) && workers[w] == Walk(job, [item] + rest)
      requires row == Attempted(item.row, at)
      modifies this, repo
      ensures Valid() && |workers| == old(|workers|) && old(schedule) <= schedule
      ensures err.Some? ==> workers[w] == Failing(job, err.value)
      ensures err.None? ==> workers[w] == Send(job, Item(item.phone, row), rest)
      ensures calm ==> err.None?
      ensures err != Some(false)
    {
      ghost var before := View();
      var save := repo.SaveRecipientProgress(job.id, Item(item.phone, row), calm);
      assert ([item] + rest)[1..] == rest;
      workers := workers[w := if save.Saved? then Send(job, Item(item.phone, row), rest) else Failing(job, true)];
      ghost var step := WalkStep(job, [item] + rest, before.entries[job.id], Begin(at, save));
      CommitWork(before, w, Begin(at, save), step.value);
      err := if save.Saved? then None else Some(true);
    }

    /** SendText, at once, and the branches on its answer. */
    method SendAndRecord(w: nat, job: Job, item: Item, attemptedAt: int, rest: seq<Item>, world: World)
        returns (err: Option<bool>)
      requires Valid() && HasJob(w, job) && workers[w] == Send(job, item, rest)
      requires item.row.lastAttemptAt == Some(attemptedAt)
      modifies this, repo
      ensures Valid() && |workers| == old(|workers|) && old(schedule) <= schedule
      ensures err.Some? ==> workers[w] == Failing(job, err.value)
      ensures err.None? ==> workers[w] == Walk(job, rest)
      ensures Calls(w, |old(schedule)|, world.answers(item.phone))
      ensures world.calm && GoesOn(world.answers(item.phone)) ==> err.None?
      ensures !GoesOn(world.answers(item.phone)) ==> err == Some(true)
      ensures err != Some(false)
      ensures world.calm ==>
        && job.id in repo.entries && item.phone in repo.entries[job.id].rows
        && AnswerWrites(item.row, world.answers(item.phone), schedule[|old(schedule)|].a.now,
                        repo.entries[job.id].rows[item.phone])
    {
      var reply := world.answers(item.phone);
      var now: int := *;
      var row, more := item.row, false;
      match reply {
        case SendError(true) =>
          row := row.(status := Failed);
          row := row.(failedAt := Some(now));
          more := true;
        case SendError(false) =>
          row := row.(status := Pending);
          row := row.(failedAt := None);
        case SendReturned(result) =>
          if !IsConfirmed(result) {
            row := row.(status := Pending);
            row := row.(failedAt := None);
          } else {
            var sentAt := attemptedAt;
            if result.value.timestamp != 0 {
              sentAt := result.value.timestamp;
            }
            row := row.(status := Sent);
            row := row.(sentAt := Some(sentAt));
            row := row.(failedAt := None);
            row := row.(lastStatusAt := Some(sentAt));
            row := row.(messageId := Text.Trim(result.value.messageId));
            more := true;
          }
      }
      Transmitted(w, job, item, rest, reply, now, row, more);
      err := RecordOutcome(w, job, Item(item.phone, row), more, rest, world.calm);
    }

    /** Step number n is a SendText call of worker w, with that answer. */
    ghost predicate Calls(w: nat, n: nat, reply: SendReply)
      reads this
    {
      && n < |schedule| && schedule[n].Work? && schedule[n].w == w
      && schedule[n].a.Transmit? && schedule[n].a.reply == reply
    }

    /** The bookkeeping of a SendText call. */
    method Transmitted(w: nat, job: Job, item: Item, rest: seq<Item>, reply: SendReply, now: int, row: Row, more: bool)
      requires Valid() && HasJob(w, job) && workers[w] == Send(job, item, rest)
      requires (row, more) == Answered(item.row, reply, now)
      modifies this, repo
      ensures Valid() && workers == old(workers)[w := Record(job, Item(item.phone, row), more, rest)]
      ensures schedule == old(schedule) + [Work(w, Transmit(reply, now))]
    {
      ghost var before := View();
      repo.entries := repo.entries[job.id := Called(repo.entries[job.id], item.phone, row.status.Sent?)];
      workers := workers[w := Record(job, Item(item.phone, row), more, rest)];
      ghost var step := SendStep(job, item, rest, before.entries[job.id], Transmit(reply, now));
      CommitWork(before, w, Transmit(reply, now), step.value);
    }

    /** The save after SendText; the loop goes on, or Process stops with a retryable error. */
    method RecordOutcome(w: nat, job: Job, item: Item, more: bool, rest: seq<Item>, calm: bool)
        returns (err: Option<bool>)
      requires Valid() && w < |workers| && workers[w] == Record(job, item, more, rest)
      modifies this, repo
      ensures Valid() && |workers| == old(|workers|) && old(schedule) <= schedule
      ensures err.Some? ==> workers[w] == Failing(job, err.value)
      ensures err.None? ==> workers[w] == Walk(job, rest)
      ensures calm && more ==> err.None?
      ensures !more ==> err == Some(true)
      ensures err != Some(false)
      ensures calm ==>
        && job.id in repo.entries && item.phone in repo.entries[job.id].rows
        && repo.entries[job.id].rows[item.phone] == item.row
    {
      Pause(w, job);
      ghost var before := View();
      var save := repo.SaveRecipientProgress(job.id, item, calm);
      Remember(job.id, item, save, before.entries[job.id]);
      err := if save.Saved? && more then None else Some(true);
      workers := workers[w := if err.None? then Walk(job, rest) else Failing(job, true)];
      RecordStepIs(job, item, more, rest, before.entries[job.id], save);
      CommitWork(before, w, SaveOutcome(save), Next(workers[w], Stored(before.entries[job.id], item, save)));
    }

    /** The history of the save after SendText. */
    method Remember(id: JobId, item: Item, save: Save, ghost before: Entry)
      requires id in repo.entries && repo.entries[id] == Put(before, item.phone, item.row, save)
      modifies repo
      ensures repo.entries == old(repo.entries)[id := Stored(before, item, save)]
    {
      var e := repo.entries[id].(inflight := {});
      if item.row.status.Sent? && save.Missed? {
        e := e.(unsaved := e.unsaved + multiset{item.phone});
      }
      repo.entries := repo.entries[id := e];
    }

    // ---------------------------------------------------------------- callers

    /**
     Create, up to the seeding; the dispatcher and the workers may run between the insert and the seeding. An invalid
     request, a failed insert and an id in use leave everything as it was. Otherwise the first step inserts the job
     and the last one seeds it, and on success every eligible phone of the contacts has a row.
     */
    method Create(id: JobId, tenant: string, input: CreateInput, now: int, insertFails: bool,
                  contacts: Option<seq<Contact>>, seedingWorks: bool)
        returns (created: bool)
      requires Valid()
      modifies this, repo
      ensures Valid() && |workers| == old(|workers|)
      ensures var refused := Refuses(input, now) || insertFails || id in old(repo.entries);
        if refused then !created && schedule == old(schedule) && repo.entries == old(repo.entries)
        else
          && old(schedule) + [BroadcastSystem.Create(id, tenant, input, now)] <= schedule
          && LastSeeds(id, contacts.GetOr([])) && (created <==> contacts.Some? && schedule[|schedule| - 1].save.Saved?)
          && (contacts.Some? && seedingWorks ==> created)
      ensures var refused := Refuses(input, now) || insertFails || id in old(repo.entries);
        !refused ==> |old(schedule)| + 1 < |history| && Inserts(history[|old(schedule)| + 1], id, tenant, input, now)
      ensures created ==> contacts.Some? && id in repo.entries && !repo.entries[id].seeding
      ensures created ==> forall c <- contacts.value :: InvitedTo(c, Text.Trim(input.instance)) ==>
        Text.Trim(c.phone) in repo.entries[id].rows
    {
      CreatedAsRequested(id, tenant, input, now);
      var job := NewJob(id, tenant, input, now);
      if job.None? || insertFails || id in repo.entries {
        return false;
      }
      Insert(id, tenant, input, now, job.value);
      created := SeedSoon(id, contacts, seedingWorks);
    }

    /** The insert of the job. */
    method Insert(id: JobId, ghost tenant: string, ghost input: CreateInput, ghost now: int, job: Job)
      requires Valid() && id !in repo.entries && NewJob(id, tenant, input, now) == Some(job)
      modifies this, repo
      ensures Valid() && workers == old(workers) && history == old(history) + [View()]
      ensures schedule == old(schedule) + [BroadcastSystem.Create(id, tenant, input, now)]
      ensures Inserts(View(), id, tenant, input, now)
      ensures id in repo.entries && repo.entries[id].seeding && repo.entries[id].job == job
    {
      CreatedAsRequested(id, tenant, input, now);
      ghost var before := View();
      repo.entries := repo.entries[id := NewEntry(job)];
      Commit(before, BroadcastSystem.Create(id, tenant, input, now));
    }

    /** The seeding of the snapshot, after anything that the others do. */
    method SeedSoon(id: JobId, contacts: Option<seq<Contact>>, works: bool) returns (seeded: bool)
      requires Valid() && id in repo.entries && repo.entries[id].seeding
      modifies this, repo
      ensures Valid() && |workers| == old(|workers|) && old(schedule) < schedule && old(history) < history
      ensures LastSeeds(id, contacts.GetOr([]))
      ensures seeded <==> contacts.Some? && schedule[|schedule| - 1].save.Saved?
      ensures contacts.Some? && works ==> seeded
      ensures seeded ==> id in repo.entries && !repo.entries[id].seeding
      ensures seeded ==> forall c <- contacts.value :: InvitedTo(c, old(repo.entries)[id].job.instance) ==>
        Text.Trim(c.phone) in repo.entries[id].rows
    {
      ghost var inserted := View();
      ghost var n := |schedule|;
      Others(Creator(id));
      SameJob(id, inserted, n);
      if contacts.Some? {
        EligibleIsExact(contacts.value, inserted.entries[id].job.instance);
      }
      seeded := SeedRecipientSnapshot(id, contacts, works);
    }

    /** In that state the job is as requested, and has no recipients yet. */
    static ghost predicate Inserts(s: State, id: JobId, tenant: string, input: CreateInput, now: int) {
      && id in s.entries && AsRequested(s.entries[id].job, id, tenant, input, now)
      && s.entries[id].rows == map[] && s.entries[id].seeding
    }

    /** The last step seeds the snapshot of job id. */
    ghost predicate LastSeeds(id: JobId, contacts: seq<Contact>)
      reads this
    {
      schedule != [] &&
      var step := schedule[|schedule| - 1];
      step.SeedSnapshot? && step.id == id && step.contacts == contacts
    }

    lemma JobIdIsKey(id: JobId)
      requires Valid() && id in repo.entries
      ensures repo.entries[id].job.id == id
    {
      Reached();
    }

    /** Since a state n steps into the run, a job has kept its instance. */
    lemma SameJob(id: JobId, earlier: State, n: nat)
      requires Valid() && n <= |schedule| && history[n] == earlier && id in earlier.entries && id in repo.entries
      ensures repo.entries[id].job.instance == earlier.entries[id].job.instance
    {
      RunKeeps(workerCount, claimBatchSize, history, schedule, n, id);
    }

    /**
     seedRecipientSnapshot, on whatever the contact listing answers. On success the job has its old rows, and an
     untouched one for every other eligible phone.
     */
    method SeedRecipientSnapshot(id: JobId, contacts: Option<seq<Contact>>, works: bool) returns (seeded: bool)
      requires Valid() && id in repo.entries && repo.entries[id].seeding
      modifies this, repo
      ensures Valid() && workers == old(workers) && id in repo.entries && !repo.entries[id].seeding
      ensures |schedule| == |old(schedule)| + 1 && old(schedule) <= schedule && LastSeeds(id, contacts.GetOr([]))
      ensures old(history) < history
      ensures seeded <==> contacts.Some? && schedule[|schedule| - 1].save.Saved?
      ensures contacts.Some? && works ==> seeded
      ensures seeded ==> (var e := old(repo.entries)[id];
        repo.entries[id].rows == Seeded(e.rows, Eligible(contacts.value, e.job.instance), e.job))
      ensures contacts.None? ==> repo.entries[id].rows == old(repo.entries)[id].rows
    {
      JobIdIsKey(id);
      ghost var before := View();
      var save := SaveSnapshot(id, contacts, works);
      repo.entries := repo.entries[id := repo.entries[id].(seeding := false)];
      assert repo.entries == before.entries[id := Snapshot(before.entries[id], contacts.GetOr([]), save)];
      Commit(before, SeedSnapshot(id, contacts.GetOr([]), save));
      seeded := save.Saved?;
    }

    /** The listing of the contacts, and the insert of the rows, if there are any. */
    method SaveSnapshot(id: JobId, contacts: Option<seq<Contact>>, works: bool) returns (save: Save)
      requires id in repo.entries && repo.entries[id].job.id == id
      modifies repo
      ensures contacts.None? ==> save.Missed?
      ensures contacts.Some? && works ==> save.Saved?
      ensures repo.entries == if save.Applied()
        then (var e := old(repo.entries)[id];
          old(repo.entries)[id := e.(rows := Seeded(e.rows, Eligible(contacts.GetOr([]), e.job.instance), e.job))])
        else old(repo.entries)
    {
      if contacts.None? {
        return Missed;
      }
      var job := repo.entries[id].job;
      var phones := EligibleBroadcastRecipients(contacts.value, job.instance);
      if |phones| == 0 {
        assert Seeded(repo.entries[id].rows, [], job) == repo.entries[id].rows;
        return Saved;
      }
      save := repo.SeedRecipientProgress(job, phones, works);
    }

    /** HandleReceipt, for an instance that was found: one step, which says whether it has changed any row. */
    method HandleReceipt(tenant: string, instance: string, messageId: string, state: string, at: int)
        returns (updated: bool)
      requires Valid()
      modifies this, repo
      ensures Valid() && workers == old(workers)
      ensures schedule
        == old(schedule) + [BroadcastSystem.Deliver(NormalizeReceipt(tenant, instance, messageId, state, at))]
      ensures repo.entries.Keys == old(repo.entries).Keys && forall k <- repo.entries ::
        && repo.entries[k] == old(repo.entries)[k].(rows := repo.entries[k].rows)
        && repo.entries[k].rows.Keys == old(repo.entries)[k].rows.Keys
        && forall p <- repo.entries[k].rows ::
             ReceiptWrites(old(repo.entries)[k].rows[p], tenant, instance, messageId, state, at,
                           repo.entries[k].rows[p])
      ensures updated <==> exists k, p ::
        k in old(repo.entries) && p in old(repo.entries)[k].rows
        && Reaches(old(repo.entries)[k].rows[p], tenant, instance, messageId, state)
    {
      ghost var before := View();
      updated := repo.MarkRecipientReceipt(tenant, instance, messageId, state, at);
      Commit(before, BroadcastSystem.Deliver(NormalizeReceipt(tenant, instance, messageId, state, at)));
    }

    /** The process ends, and a new one starts over the same tables. */
    method StartAgain(workerCount: int, claimBatchSize: int)
      requires Valid()
      modifies this, repo
      ensures Valid() && schedule == old(schedule) + [Restart(workerCount, claimBatchSize)]
      ensures repo.entries == AbandonAll(old(repo.entries)) && queue == [] && dispatcher.Resting?
      ensures forall w :: 0 <= w < |workers| ==> workers[w].Idle?
      ensures workerCount > 0 ==> |workers| == workerCount
      ensures workerCount <= 0 ==> |workers| == 1
      ensures claimBatch == (if claimBatchSize > 0 then claimBatchSize else |workers|) && grants == []
    {
      ghost var before := View();
      var n: nat := if workerCount <= 0 then 1 else workerCount;
      claimBatch := if claimBatchSize <= 0 then n else claimBatchSize;
      queue, dispatcher, workers, grants := [], Resting, seq(n, _ => Idle), [];
      repo.entries := AbandonAll(repo.entries);
      Commit(before, Restart(workerCount, claimBatchSize));
    }
  }
}
