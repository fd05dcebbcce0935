/**
 A concrete run in which Create's seeding comes too late: the job is claimed,
 delivered to the recipients that Process seeded itself, and completed, before
 Create seeds its own snapshot.
 */
module BroadcastRace {
  import opened Wrappers
  import opened Recipients
  import opened Delivery
  import opened BroadcastSystem
  import opened BroadcastGuarantees

  lemma Push(s0: State, steps: seq<Step>, s: State, step: Step) returns (steps': seq<Step>, s': State)
    requires s == Exec(s0, steps)
    ensures steps' == steps + [step] && s' == Do(s, step) && s' == Exec(s0, steps')
  {
    steps', s' := steps + [step], Do(s, step);
    assert steps'[..|steps|] == steps;
  }

  const LATE_JOB: Job := Job("j", "t", "i", "m", 0, Processing, 1, 3, 0, 0)
  const LATE_ENTRY: Entry := NewEntry(LATE_JOB)
  const LATE_ROW: Row := SeedRow("t", "i")
  const LOADED_ENTRY: Entry := LATE_ENTRY.(rows := map["a" := LATE_ROW], loaded := {"a"})

  lemma RunToStart() returns (steps: seq<Step>, s: State)
    ensures s == After(1, 1, steps) && s.workers == [Start(LATE_JOB)] && s.entries == map["j" := LATE_ENTRY]
  {
    var s0 := Initial(1, 1);
    s, steps := s0, [];
    steps, s := Push(s0, steps, s, Create("j", "t", CreateInput("i", "m", 0, 0, 0, None), 0));
    assert s.entries["j"].job == LATE_JOB.(status := Queued, attempts := 0);
    steps, s := Push(s0, steps, s, Measure);
    steps, s := Push(s0, steps, s, Claim(["j"], 0));
    assert s.entries == map["j" := LATE_ENTRY];
    steps, s := Push(s0, steps, s, Enqueue);
    steps, s := Push(s0, steps, s, Take(0));
    steps, s := Push(s0, steps, s, Work(0, Grant(1)));
  }

  /** The effect of a step of worker 0 of a single-worker service, spelled out. */
  lemma WorkerMoves(s: State, pc: Pc, a: WorkerAction, next: Next)
    requires s.workers == [pc] && !pc.Idle? && pc.job.id in s.entries && !a.Grant?
    requires WorkerStep(pc, s.entries[pc.job.id], a) == Some(next)
    ensures Do(s, Work(0, a)) == s.(workers := [next.pc], entries := s.entries[pc.job.id := next.entry])
  {
  }

  lemma LateLoad(e: Entry)
    requires e == LATE_ENTRY
    ensures WorkerStep(Start(LATE_JOB), e, Load([Contact("a", "")], [])) == Some(Next(Seeding(LATE_JOB, ["a"]), e))
  {
    assert [Contact("a", "")][..0] == [];
    assert Eligible([Contact("a", "")], "i") == ["a"];
  }

  lemma LateSeed(e: Entry)
    requires e == LATE_ENTRY
    ensures WorkerStep(Seeding(LATE_JOB, ["a"]), e, SaveSeeds(Saved))
         == Some(Next(Reload(LATE_JOB), e.(rows := map["a" := LATE_ROW])))
  {
    assert Seeded(map[], ["a"], LATE_JOB) == map["a" := LATE_ROW];
  }

  lemma LateList(e: Entry)
    requires e == LATE_ENTRY
    ensures WorkerStep(Reload(LATE_JOB), e.(rows := map["a" := LATE_ROW]), LoadAgain(["a"]))
         == Some(Next(Walk(LATE_JOB, [Item("a", LATE_ROW)]), LOADED_ENTRY))
  {
    assert PendingItems(["a"], map["a" := LATE_ROW]) == [Item("a", LATE_ROW)];
    assert (map["a" := LATE_ROW]).Keys == {"a"};
  }

  const SENT_ROW: Row := Row("t", "i", Sent, 1, Some(1), Some(2), None, None, None, Some(2), "")
  const REPLY: SendReply := SendReturned(Some(SendResult("", 1, 2, "")))

  function SendingEntry(): Entry {
    LOADED_ENTRY.(rows := map["a" := Attempted(LATE_ROW, 1)])
  }

  function SentEntry(): Entry {
    LOADED_ENTRY.(rows := map["a" := SENT_ROW], calls := multiset{"a"}, confirmed := multiset{"a"})
  }

  lemma LateSend()
    ensures WorkerStep(Walk(LATE_JOB, [Item("a", LATE_ROW)]), LOADED_ENTRY, Begin(1, Saved))
         == Some(Next(Send(LATE_JOB, Item("a", Attempted(LATE_ROW, 1)), []), SendingEntry()))
    ensures WorkerStep(Send(LATE_JOB, Item("a", Attempted(LATE_ROW, 1)), []), SendingEntry(), Transmit(REPLY, 2))
         == Some(Next(Record(LATE_JOB, Item("a", SENT_ROW), true, []), Called(SendingEntry(), "a", true)))
    ensures WorkerStep(Record(LATE_JOB, Item("a", SENT_ROW), true, []), Called(SendingEntry(), "a", true),
      SaveOutcome(Saved))
         == Some(Next(Walk(LATE_JOB, []), SentEntry()))
  {
    assert [Item("a", LATE_ROW)][1..] == [];
    assert LOADED_ENTRY.rows["a" := Attempted(LATE_ROW, 1)] == SendingEntry().rows;
    assert multiset{} + multiset{"a"} == multiset{"a"};
    assert Answered(Attempted(LATE_ROW, 1), REPLY, 2) == (SENT_ROW, true);
    assert Called(SendingEntry(), "a", true).rows["a" := SENT_ROW] == map["a" := SENT_ROW];
  }

  lemma RunToWalk() returns (steps: seq<Step>, s: State)
    ensures s == After(1, 1, steps) && s.entries == map["j" := LOADED_ENTRY]
    ensures s.workers == [Walk(LATE_JOB, [Item("a", LATE_ROW)])]
  {
    steps, s := RunToStart();
    var e := s.entries["j"];
    LateLoad(e);
    LateSeed(e);
    LateList(e);
    var seeded := e.(rows := map["a" := LATE_ROW]);
    steps, s := PushWork(steps, s, Load([Contact("a", "")], []), Next(Seeding(LATE_JOB, ["a"]), e));
    steps, s := PushWork(steps, s, SaveSeeds(Saved), Next(Reload(LATE_JOB), seeded));
    steps, s := PushWork(steps, s, LoadAgain(["a"]), Next(Walk(LATE_JOB, [Item("a", LATE_ROW)]), LOADED_ENTRY));
  }

  lemma RunToSent() returns (steps: seq<Step>, s: State)
    ensures s == After(1, 1, steps) && s.workers == [Walk(LATE_JOB, [])] && s.entries == map["j" := SentEntry()]
  {
    steps, s := RunToWalk();
    LateSend();
    var row := Attempted(LATE_ROW, 1);
    var called := Called(SendingEntry(), "a", true);
    steps, s := PushWork(steps, s, Begin(1, Saved), Next(Send(LATE_JOB, Item("a", row), []), SendingEntry()));
    steps, s := PushWork(steps, s, Transmit(REPLY, 2), Next(Record(LATE_JOB, Item("a", SENT_ROW), true, []), called));
    steps, s := PushWork(steps, s, SaveOutcome(Saved), Next(Walk(LATE_JOB, []), SentEntry()));
  }

  lemma PushWork(steps: seq<Step>, s: State, a: WorkerAction, next: Next) returns (steps': seq<Step>, s': State)
    requires s == After(1, 1, steps) && |s.workers| == 1 && !s.workers[0].Idle?
    requires s.workers[0].job.id == "j" && s.entries.Keys == {"j"} && !a.Grant?
    requires WorkerStep(s.workers[0], s.entries["j"], a) == Some(next)
    ensures s' == After(1, 1, steps') && s'.workers == [next.pc] && s'.entries == map["j" := next.entry]
  {
    WorkerMoves(s, s.workers[0], a, next);
    steps', s' := Push(Initial(1, 1), steps, s, Work(0, a));
  }

  lemma RunToMarked() returns (steps: seq<Step>, s: State)
    ensures s == After(1, 1, steps) && s.entries.Keys == {"j"}
    ensures s.entries["j"] == SentEntry().(job := LATE_JOB.(status := Completed))
  {
    steps, s := RunToSent();
    var e := s.entries["j"];
    LateMark(e);
    steps, s := PushWork(steps, s, Finish, Next(Summing(LATE_JOB), e));
    steps, s := PushWork(steps, s, Sum(true), Next(Marking(LATE_JOB, 0), e));
    steps, s := PushWork(steps, s, Mark(Saved), Next(Idle, e.(job := LATE_JOB.(status := Completed))));
  }

  lemma LateMark(e: Entry)
    requires e.job == LATE_JOB && e.rows == map["a" := SENT_ROW]
    ensures WorkerStep(Walk(LATE_JOB, []), e, Finish) == Some(Next(Summing(LATE_JOB), e))
    ensures WorkerStep(Summing(LATE_JOB), e, Sum(true)) == Some(Next(Marking(LATE_JOB, 0), e))
    ensures WorkerStep(Marking(LATE_JOB, 0), e, Mark(Saved))
      == Some(Next(Idle, e.(job := LATE_JOB.(status := Completed))))
  {
    LateSum(e);
  }

  lemma LateSum(e: Entry)
    requires e.job == LATE_JOB && e.rows == map["a" := SENT_ROW]
    ensures WorkerStep(Summing(LATE_JOB), e, Sum(true)) == Some(Next(Marking(LATE_JOB, 0), e))
  {
    CountsFailures(e);
    assert !SomeFailed(e);
  }

  /**
   Create inserts the job before it seeds the recipients. If the job is claimed, delivered and completed in between,
   the recipients seeded afterwards stay pending in a completed job.
   */
  lemma LateSeedStaysPending() returns (steps: seq<Step>)
    ensures var s := After(1, 1, steps);
      && "j" in s.entries && s.entries["j"].job.status.Completed?
      && "b" in s.entries["j"].rows && s.entries["j"].rows["b"].status.Pending?
  {
    var s;
    steps, s := RunToMarked();
    var contacts := [Contact("a", ""), Contact("b", "")];
    assert contacts[..1][..0] == [];
    assert Eligible(contacts[..1], "i") == ["a"];
    assert Eligible(contacts, "i") == ["a", "b"];
    steps, s := Push(Initial(1, 1), steps, s, SeedSnapshot("j", contacts, Saved));
  }
}
