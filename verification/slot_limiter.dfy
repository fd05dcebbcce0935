/** The per-instance slot limiter of the broadcast workers (waitForInstanceSlot). */
module SlotLimiter {
  const HOUR: int := 3_600_000_000_000
  const MILLISECOND: int := 1_000_000

  /** intervalForRate, in nanoseconds. */
  function IntervalForRate(ratePerHour: int): int {
    if ratePerHour <= 0 then 500 * MILLISECOND
    else
      var interval := HOUR / ratePerHour;
      if interval <= 0 then 100 * MILLISECOND else interval
  }

  /**
   The interval for a rate is the longest, in whole nanoseconds, of which that many fit into an hour. Without a rate
   it is half a second, and for one that leaves no nanosecond it is a tenth of a second.
   */
  lemma IntervalFitsRate(rate: int)
    ensures rate <= 0 ==> IntervalForRate(rate) == 500_000_000
    ensures 0 < rate <= 3_600_000_000_000 ==>
      rate * IntervalForRate(rate) <= 3_600_000_000_000 < rate * (IntervalForRate(rate) + 1)
    ensures rate > 3_600_000_000_000 ==> IntervalForRate(rate) == 100_000_000
  {
    if rate > 0 {
      var interval := HOUR / rate;
      assert HOUR == rate * interval + HOUR % rate;
      assert rate * (interval + 1) == rate * interval + rate;
    }
  }

  /** A slot granted to a job of that rate. */
  datatype Grant = Grant(instance: string, at: int, rate: int) {
    function Interval(): int {
      IntervalForRate(rate)
    }
  }

  /** Any two grants to one instance are at least the earlier one's interval apart. */
  predicate Spaced(log: seq<Grant>) {
    forall i, j :: 0 <= i < j < |log| && log[i].instance == log[j].instance ==>
      log[i].at + log[i].Interval() <= log[j].at
  }

  predicate Sensible(log: seq<Grant>, now: int) {
    forall i :: 0 <= i < |log| ==> 0 < log[i].at <= now
  }

  /** When the slot of the instance is free again: the end of its last grant, or 0 if it never had one. */
  function FreeAt(log: seq<Grant>, instance: string): int
    decreases |log|
  {
    if log == [] then 0
    else
      var last := log[|log| - 1];
      if last.instance == instance then last.at + last.Interval() else FreeAt(log[..|log| - 1], instance)
  }

  /** The logs that the limiter can leave: times do not go back, and each grant came when the slot was free again. */
  predicate Produced(log: seq<Grant>)
    decreases |log|
  {
    log == [] ||
    var front, last := log[..|log| - 1], log[|log| - 1];
    Produced(front) && Sensible(front, last.at) && 0 < last.at && FreeAt(front, last.instance) <= last.at
  }

  lemma {:induction false} FreeAtIsLatest(log: seq<Grant>, now: int, i: nat)
    requires i < |log| && Spaced(log) && Sensible(log, now)
    ensures log[i].at + log[i].Interval() <= FreeAt(log, log[i].instance)
    decreases |log|
  {
    var n := |log| - 1;
    IntervalPositive(log[n].rate);
    if log[n].instance != log[i].instance {
      FreeAtIsLatest(log[..n], now, i);
    }
  }

  lemma FreeAtSnoc(log: seq<Grant>, g: Grant, instance: string)
    ensures FreeAt(log + [g], instance) == if g.instance == instance then g.at + g.Interval() else FreeAt(log, instance)
  {
    assert (log + [g])[..|log|] == log;
  }

  lemma GrantKeepsSpacing(log: seq<Grant>, g: Grant)
    requires Sensible(log, g.at) && Spaced(log) && 0 < g.at && FreeAt(log, g.instance) <= g.at
    ensures Sensible(log + [g], g.at) && Spaced(log + [g])
  {
    forall i | 0 <= i < |log| && log[i].instance == g.instance ensures log[i].at + log[i].Interval() <= g.at {
      FreeAtIsLatest(log, g.at, i);
    }
  }

  /** So any two grants to one instance in such a log are at least the earlier one's interval apart. */
  lemma {:induction false} ProducedIsSpaced(log: seq<Grant>)
    requires Produced(log)
    ensures Spaced(log) && (log != [] ==> Sensible(log, log[|log| - 1].at))
    decreases |log|
  {
    if log != [] {
      var front, last := log[..|log| - 1], log[|log| - 1];
      ProducedIsSpaced(front);
      GrantKeepsSpacing(front, last);
      assert log == front + [last];
    }
  }

  /** What one pass of a worker through the loop came to. */
  datatype Pass = Granted | MustWait(wait: int)

  /** A pass that found the slot taken: when it was made, and after how many grants. */
  datatype Refusal = Refusal(at: int, grants: nat)

  /**
   The slot was taken at that pass, which came no earlier than the end of the slot that the pass before was told of.
   */
  predicate WasRefused(refusals: seq<Refusal>, i: nat, log: seq<Grant>, instance: string)
    requires i < |refusals|
  {
    var grants := refusals[i].grants;
    && grants <= |log| && FreeAt(log[..grants], instance) > refusals[i].at
    && (i > 0 ==> refusals[i - 1].grants <= grants && FreeAt(log[..refusals[i - 1].grants], instance) <= refusals[i].at)
  }

  /** The passes that were not. */
  function Unrefused(refusals: seq<Refusal>, log: seq<Grant>, instance: string): set<int> {
    set i | 0 <= i < |refusals| && !WasRefused(refusals, i, log, instance)
  }

  predicate Refused(refusals: seq<Refusal>, log: seq<Grant>, instance: string) {
    Unrefused(refusals, log, instance) == {}
  }

  predicate Within(refusals: seq<Refusal>, grants: nat, from: int, to: int) {
    forall i :: 0 <= i < |refusals| ==> grants <= refusals[i].grants && from <= refusals[i].at <= to
  }

  /** The slot that the last refusal told of is due. */
  predicate Slept(refusals: seq<Refusal>, log: seq<Grant>, instance: string, now: int) {
    refusals != [] ==>
      var last := refusals[|refusals| - 1]; last.grants <= |log| && FreeAt(log[..last.grants], instance) <= now
  }

  lemma RefusedStays(refusals: seq<Refusal>, log: seq<Grant>, longer: seq<Grant>, instance: string)
    requires Refused(refusals, log, instance) && log <= longer
    ensures Refused(refusals, longer, instance)
  {
    forall i | 0 <= i < |refusals| ensures WasRefused(refusals, i, longer, instance) {
      assert i !in Unrefused(refusals, log, instance);
      assert longer[..refusals[i].grants] == log[..refusals[i].grants];
      assert i > 0 ==> longer[..refusals[i - 1].grants] == log[..refusals[i - 1].grants];
    }
  }

  lemma OneMoreRefusal(refusals: seq<Refusal>, log: seq<Grant>, instance: string, at: int, longer: seq<Grant>)
    requires Refused(refusals, log, instance) && log <= longer && FreeAt(longer, instance) > at
    requires Slept(refusals, log, instance, at)
    ensures Refused(refusals + [Refusal(at, |longer|)], longer, instance)
    ensures Slept(refusals + [Refusal(at, |longer|)], longer, instance, FreeAt(longer, instance))
  {
    RefusedStays(refusals, log, longer, instance);
    assert longer[..|longer|] == longer;
    if refusals != [] {
      var last := refusals[|refusals| - 1];
      assert longer[..last.grants] == log[..last.grants];
    }
    AppendRefusal(refusals, longer, instance, at);
  }

  lemma AppendRefusal(refusals: seq<Refusal>, log: seq<Grant>, instance: string, at: int)
    requires Refused(refusals, log, instance) && Slept(refusals, log, instance, at)
    requires log[..|log|] == log && FreeAt(log, instance) > at
    ensures Refused(refusals + [Refusal(at, |log|)], log, instance)
  {
    var more := refusals + [Refusal(at, |log|)];
    forall i | 0 <= i < |more| ensures WasRefused(more, i, log, instance) {
      if i < |refusals| {
        assert i !in Unrefused(refusals, log, instance);
        assert more[i] == refusals[i] && (i > 0 ==> more[i - 1] == refusals[i - 1]);
      }
    }
  }

  /** The map tells of every instance when its slot is free again. */
  ghost predicate Knows(nextInstanceAt: map<string, int>, log: seq<Grant>) {
    forall k :: (if k in nextInstanceAt then nextInstanceAt[k] else 0) == FreeAt(log, k)
  }

  lemma GrantKnown(nextInstanceAt: map<string, int>, log: seq<Grant>, grant: Grant)
    requires Knows(nextInstanceAt, log)
    ensures Knows(nextInstanceAt[grant.instance := grant.at + grant.Interval()], log + [grant])
  {
    var next := nextInstanceAt[grant.instance := grant.at + grant.Interval()];
    forall k ensures (if k in next then next[k] else 0) == FreeAt(log + [grant], k) {
      FreeAtSnoc(log, grant, k);
      assert (if k in nextInstanceAt then nextInstanceAt[k] else 0) == FreeAt(log, k);
    }
  }

  lemma GrantProduced(log: seq<Grant>, grant: Grant)
    requires Produced(log) && Sensible(log, grant.at) && 0 < grant.at && FreeAt(log, grant.instance) <= grant.at
    ensures Produced(log + [grant]) && Sensible(log + [grant], grant.at)
  {
    assert (log + [grant])[..|log|] == log;
  }

  class Limiter {
    var nextInstanceAt: map<string, int>
    var clock: int            // the wall clock; it never runs backwards
    ghost var log: seq<Grant> // the grants so far

    function Next(instance: string): int
      reads this
    {
      if instance in nextInstanceAt then nextInstanceAt[instance] else 0
    }

    ghost predicate Valid()
      reads this
    {
      clock > 0 && Sensible(log, clock) && Produced(log) && Knows(nextInstanceAt, log)
    }

    constructor (start: int)
      requires start > 0
      ensures Valid() && log == [] && clock == start
    {
      nextInstanceAt, log, clock := map[], [], start;
    }

    /**
     One pass under the mutex: a slot is granted exactly when the instance's last grant has run out, and otherwise the
     worker learns how long to sleep before its next pass.
     */
    method TryGrant(instance: string, ratePerHour: int) returns (pass: Pass)
      requires Valid()
      modifies this
      ensures Valid() && old(clock) <= clock
      ensures pass
        == if FreeAt(old(log), instance) <= clock then Granted else MustWait(FreeAt(old(log), instance) - clock)
      ensures log == if pass.Granted? then old(log) + [Grant(instance, clock, ratePerHour)] else old(log)
    {
      var elapsed :| elapsed >= 0;
      clock := clock + elapsed;
      var now, next := clock, Next(instance);
      if next == 0 || next <= now {
        var interval := IntervalForRate(ratePerHour);
        ghost var grant := Grant(instance, now, ratePerHour);
        GrantKnown(nextInstanceAt, log, grant);
        GrantProduced(log, grant);
        nextInstanceAt := nextInstanceAt[instance := now + interval];
        log := log + [grant];
        pass := Granted;
      } else {
        pass := MustWait(next - now);
      }
    }

    /** Other workers pass through the loop, for any instances and at any rates, while the clock goes on. */
    method Others()
      requires Valid()
      modifies this
      ensures Valid() && old(clock) <= clock && old(log) <= log
    {
      var n :| n >= 0;
      for i := 0 to n
        invariant Valid() && old(clock) <= clock && old(log) <= log
      {
        var instance: string, ratePerHour: int := *, *;
        var pass := TryGrant(instance, ratePerHour);
      }
    }

    /**
     waitForInstanceSlot, when its context is cancelled after that many passes. A worker that gets through has been
     granted a slot of its own at that moment; one that does not has made all those passes, found the slot taken each
     time, and slept until it was due.
     */
    method WaitForInstanceSlot(instance: string, ratePerHour: int, cancelledAfter: nat)
        returns (granted: bool, ghost refusals: seq<Refusal>)
      requires Valid()
      modifies this
      ensures Valid() && old(log) <= log && old(clock) <= clock
      ensures granted ==> |log| > |old(log)| && log[|log| - 1] == Grant(instance, clock, ratePerHour)
      ensures Refused(refusals, log, instance)
      ensures Within(refusals, |old(log)|, old(clock), clock)
      ensures if granted then |refusals| < cancelledAfter else |refusals| == cancelledAfter
    {
      var passes := 0;
      refusals := [];
      while passes < cancelledAfter
        invariant Valid() && old(log) <= log && old(clock) <= clock && passes <= cancelledAfter
        invariant |refusals| == passes && Refused(refusals, log, instance)
        invariant Within(refusals, |old(log)|, old(clock), clock)
        invariant Slept(refusals, log, instance, clock)
      {
        granted, refusals := PassOnce(instance, ratePerHour, refusals);
        if granted {
          return;
        }
        passes := passes + 1;
      }
      granted := false;
    }

    /** One turn of the loop, with other workers before it. */
    method PassOnce(instance: string, ratePerHour: int, ghost refusals: seq<Refusal>)
        returns (granted: bool, ghost refusals': seq<Refusal>)
      requires Valid() && Refused(refusals, log, instance) && Slept(refusals, log, instance, clock)
      modifies this
      ensures Valid() && old(log) <= log && old(clock) <= clock
      ensures granted ==>
        |log| > |old(log)| && log[|log| - 1] == Grant(instance, clock, ratePerHour) && refusals' == refusals
      ensures !granted ==> exists at ::
        && old(clock) <= at <= clock && refusals' == refusals + [Refusal(at, |log|)]
        && Slept(refusals', log, instance, clock)
      ensures Refused(refusals', log, instance)
    {
      refusals' := refusals;
      ghost var before := log;
      Others();
      var pass := TryGrant(instance, ratePerHour);
      granted := pass.Granted?;
      if granted {
        RefusedStays(refusals, before, log, instance);
      } else {
        OneMoreRefusal(refusals, before, instance, clock, log);
        refusals' := refusals + [Refusal(clock, |log|)];
        Sleep(pass.wait);
      }
    }

    method Sleep(wait: int)
      requires Valid() && wait >= 0
      modifies this`clock
      ensures Valid() && clock == old(clock) + wait
    {
      clock := clock + wait;
    }
  }

  // ------------------------------------------------------ grants in one hour

  /** The grants of an instance in the half-open hour that begins at from. */
  function InHour(log: seq<Grant>, instance: string, from: int): seq<Grant>
    decreases |log|
  {
    if log == [] then []
    else
      var last := log[|log| - 1];
      InHour(log[..|log| - 1], instance, from)
      + if last.instance == instance && from <= last.at < from + HOUR then [last] else []
  }

  predicate AtRate(log: seq<Grant>, instance: string, ratePerHour: int) {
    forall g <- log :: g.instance == instance ==> g.rate == ratePerHour
  }

  lemma {:induction false} InHourSelects(log: seq<Grant>, instance: string, from: int)
    ensures forall g :: g in InHour(log, instance, from) <==>
      g in log && g.instance == instance && from <= g.at < from + HOUR
    decreases |log|
  {
    if log != [] {
      InHourSelects(log[..|log| - 1], instance, from);
      assert forall g :: g in log <==> g in log[..|log| - 1] || g == log[|log| - 1];
    }
  }

  lemma LastIsLater(log: seq<Grant>, prev: Grant)
    requires Spaced(log) && log != [] && prev in log[..|log| - 1] && prev.instance == log[|log| - 1].instance
    ensures prev.at + prev.Interval() <= log[|log| - 1].at
  {
    var i :| 0 <= i < |log| - 1 && log[..|log| - 1][i] == prev;
    assert log[i] == prev;
  }

  /** The k-th grant of the hour comes at least (k - 1) intervals after the first. */
  lemma {:induction false} HourIsSpread(log: seq<Grant>, instance: string, from: int, rate: int)
    requires Spaced(log) && AtRate(log, instance, rate)
    ensures var hour := InHour(log, instance, from);
      hour != [] ==> (|hour| - 1) * IntervalForRate(rate) <= hour[|hour| - 1].at - from
    decreases |log|
  {
    if log != [] {
      var front, last := log[..|log| - 1], log[|log| - 1];
      assert AtRate(front, instance, rate) by {
        assert forall g <- front :: g in log;
      }
      HourIsSpread(front, instance, from, rate);
      var before := InHour(front, instance, from);
      if before != [] && last.instance == instance {
        InHourSelects(front, instance, from);
        var prev := before[|before| - 1];
        assert prev in before;
        LastIsLater(log, prev);
        Distribute(|before| - 1, IntervalForRate(rate));
      }
    }
  }

  lemma Distribute(a: int, b: int)
    ensures (a + 1) * b == a * b + b
  {
  }

  /** For a constant rate r, no hour holds more than r + 1 grants, as soon as r + 1 intervals fill an hour. */
  lemma HourlyBound(log: seq<Grant>, instance: string, from: int, rate: int)
    requires Produced(log) && AtRate(log, instance, rate) && rate > 0
    requires HOUR <= (rate + 1) * IntervalForRate(rate)
    ensures |InHour(log, instance, from)| <= rate + 1
  {
    var hour := InHour(log, instance, from);
    ProducedIsSpaced(log);
    HourIsSpread(log, instance, from, rate);
    if |hour| > rate + 1 {
      InHourSelects(log, instance, from);
      assert hour[|hour| - 1] in hour;
      IntervalPositive(rate);
      Monotone(rate + 1, |hour| - 1, IntervalForRate(rate));
      assert false;
    }
  }

  /** In particular, a limiter in use keeps to it. */
  lemma LimiterBound(limiter: Limiter, instance: string, from: int, rate: int)
    requires limiter.Valid() && AtRate(limiter.log, instance, rate) && rate > 0
    requires HOUR <= (rate + 1) * IntervalForRate(rate)
    ensures |InHour(limiter.log, instance, from)| <= rate + 1
  {
    HourlyBound(limiter.log, instance, from, rate);
  }

  lemma Monotone(a: int, b: int, c: int)
    requires a <= b && c >= 0
    ensures a * c <= b * c
  {
  }

  /** n grants of one instance, each as early as the limiter allows. */
  function Fastest(instance: string, rate: int, start: int, n: nat): seq<Grant> {
    seq(n, i requires 0 <= i < n => Grant(instance, start + i * IntervalForRate(rate), rate))
  }

  lemma IntervalPositive(rate: int)
    ensures IntervalForRate(rate) > 0
  {
  }

  lemma {:induction false} FastestInHour(instance: string, rate: int, start: int, n: nat)
    requires n > 0 ==> (n - 1) * IntervalForRate(rate) < HOUR
    ensures |InHour(Fastest(instance, rate, start, n), instance, start)| == n
    decreases n
  {
    if n > 0 {
      IntervalPositive(rate);
      var log := Fastest(instance, rate, start, n);
      assert log[..n - 1] == Fastest(instance, rate, start, n - 1);
      if n > 1 {
        Monotone(n - 2, n - 1, IntervalForRate(rate));
      }
      Monotone(0, n - 1, IntervalForRate(rate));
      FastestInHour(instance, rate, start, n - 1);
    }
  }

  /** The limiter grants them all. */
  lemma {:induction false} FastestProduced(instance: string, rate: int, start: int, n: nat)
    requires start > 0
    ensures Produced(Fastest(instance, rate, start, n)) && AtRate(Fastest(instance, rate, start, n), instance, rate)
    decreases n
  {
    if n > 0 {
      var log := Fastest(instance, rate, start, n);
      assert log[..n - 1] == Fastest(instance, rate, start, n - 1);
      FastestProduced(instance, rate, start, n - 1);
      IntervalPositive(rate);
      Monotone(0, n - 1, IntervalForRate(rate));
      forall i | 0 <= i < n - 1 ensures 0 < log[i].at <= log[n - 1].at {
        Monotone(0, i, IntervalForRate(rate));
        Monotone(i, n - 1, IntervalForRate(rate));
      }
      if n > 1 {
        Distribute(n - 2, IntervalForRate(rate));
      }
    }
  }

  /**
   The bound of r + 1 grants an hour holds for every log that the limiter can leave if and only if r + 1 intervals
   fill an hour: otherwise r + 2 grants, each as early as allowed, fit into one.
   */
  lemma HourlyBoundExactly(instance: string, rate: int)
    requires rate > 0
    ensures (forall log: seq<Grant>, from: int :: Produced(log) && AtRate(log, instance, rate) ==>
               |InHour(log, instance, from)| <= rate + 1)
       <==> HOUR <= (rate + 1) * IntervalForRate(rate)
  {
    if HOUR <= (rate + 1) * IntervalForRate(rate) {
      forall log: seq<Grant>, from: int | Produced(log) && AtRate(log, instance, rate)
        ensures |InHour(log, instance, from)| <= rate + 1
      {
        HourlyBound(log, instance, from, rate);
      }
    } else {
      FastestProduced(instance, rate, 1, rate + 2);
      FastestInHour(instance, rate, 1, rate + 2);
    }
  }

  const TOO_FAST: int := 3_000_001

  /** At 3000001 an hour the interval is rounded down so far that the limiter lets through more than that and one. */
  lemma HourlyBoundFails(instance: string)
    ensures exists log: seq<Grant>, from: int ::
      Produced(log) && AtRate(log, instance, TOO_FAST) && |InHour(log, instance, from)| > TOO_FAST + 1
  {
    assert HOUR > (TOO_FAST + 1) * IntervalForRate(TOO_FAST);
    HourlyBoundExactly(instance, TOO_FAST);
  }

  /** r + 1 intervals fill an hour for every rate up to the interval in nanoseconds. */
  lemma UsualRates(rate: int)
    requires 0 < rate <= IntervalForRate(rate)
    ensures HOUR <= (rate + 1) * IntervalForRate(rate)
  {
    if HOUR / rate > 0 {
      var interval := HOUR / rate;
      assert HOUR == interval * rate + HOUR % rate;
      assert (rate + 1) * interval == interval * rate + interval;
    }
  }
}
