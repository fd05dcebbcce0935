/** The in-memory fixed-window rate limiter (MemoryRateLimitStore). */
module RateLimit {
  /** A window's hits so far, and when it ends; end 0 is Go's zero time, the entry of a key that has none. */
  datatype Window = Window(count: int, end: int)

  const NoWindow: Window := Window(0, 0)

  datatype Decision = Decision(allowed: bool, remaining: int, resetAt: int, limit: int, hits: int)

  /** One call for a key, with what it was answered. */
  datatype Hit = Hit(key: string, limit: int, window: int, at: int, allowed: bool)

  /** The window that a hit at time now falls into, with the hit counted. */
  function Counted(w: Window, now: int, window: int): Window {
    if w.end == 0 || now > w.end then Window(1, now + window) else w.(count := w.count + 1)
  }

  /** The entry of a key in a store that never removes any. */
  function WindowOf(log: seq<Hit>, key: string): Window
    decreases |log|
  {
    if log == [] then NoWindow
    else
      var front, last := log[..|log| - 1], log[|log| - 1];
      if last.key == key then Counted(WindowOf(front, key), last.at, last.window) else WindowOf(front, key)
  }

  /** What a store that never removes an entry decides. */
  function Decide(log: seq<Hit>, key: string, limit: int, window: int, now: int): Decision {
    if limit <= 0 then Decision(true, 0, now + window, limit, 0)
    else
      var w := Counted(WindowOf(log, key), now, window);
      Decision(w.count <= limit, if limit - w.count < 0 then 0 else limit - w.count, w.end, limit, w.count)
  }

  /** Calls at times that do not go back, each answered as decided. */
  ghost predicate Genuine(log: seq<Hit>)
    decreases |log|
  {
    log == [] ||
    var front, last := log[..|log| - 1], log[|log| - 1];
    && Genuine(front)
    && last.at > 0 && last.limit > 0
    && (forall i :: 0 <= i < |front| ==> front[i].at <= last.at)
    && last.allowed == Decide(front, last.key, last.limit, last.window, last.at).allowed
  }

  lemma WindowSnoc(log: seq<Hit>, hit: Hit, key: string)
    ensures WindowOf(log + [hit], key)
      == if hit.key == key then Counted(WindowOf(log, key), hit.at, hit.window) else WindowOf(log, key)
  {
    assert (log + [hit])[..|log|] == log;
  }

  lemma WindowsSnoc(log: seq<Hit>, hit: Hit)
    ensures forall k ::
      WindowOf(log + [hit], k)
      == (if k == hit.key then Counted(WindowOf(log, k), hit.at, hit.window) else WindowOf(log, k))
  {
    forall k ensures WindowOf(log + [hit], k)
      == (if k == hit.key then Counted(WindowOf(log, k), hit.at, hit.window) else WindowOf(log, k))
    {
      WindowSnoc(log, hit, k);
    }
  }

  lemma GenuineSnoc(log: seq<Hit>, hit: Hit)
    requires Genuine(log) && hit.at > 0 && hit.limit > 0 && forall i :: 0 <= i < |log| ==> log[i].at <= hit.at
    requires hit.allowed == (Counted(WindowOf(log, hit.key), hit.at, hit.window).count <= hit.limit)
    ensures Genuine(log + [hit])
  {
    assert (log + [hit])[..|log|] == log;
  }

  /** The calls for key among the log's, from number i on. */
  function HitsFrom(log: seq<Hit>, key: string, i: nat): nat
    decreases |log|
  {
    if |log| <= i then 0
    else HitsFrom(log[..|log| - 1], key, i) + if log[|log| - 1].key == key then 1 else 0
  }

  /**
   Call number i of the key opens the window that is current at the end of the log: it came after the window before
   had ended, or was the first one; no call of the key since then came after the end, which lies a window's length after
   call i; and the window counts the calls since then.
   */
  ghost predicate Opened(log: seq<Hit>, key: string, i: nat, w: Window) {
    && i < |log| && log[i].key == key
    && (WindowOf(log[..i], key).end == 0 || log[i].at > WindowOf(log[..i], key).end)
    && w.end == log[i].at + log[i].window
    && (forall j :: i < j < |log| && log[j].key == key ==> log[j].at <= w.end)
    && w.count == HitsFrom(log, key, i)
  }

  /** A key's entry is the window that its last opening call opened. */
  lemma {:induction false} WindowIsItsHits(log: seq<Hit>, key: string) returns (i: nat)
    requires Genuine(log) && exists j :: 0 <= j < |log| && log[j].key == key
    requires forall j :: 0 <= j < |log| ==> log[j].window > 0
    ensures Opened(log, key, i, WindowOf(log, key))
    decreases |log|
  {
    var front, last := log[..|log| - 1], log[|log| - 1];
    assert log == front + [last];
    if forall j :: 0 <= j < |front| ==> front[j].key != key {
      NoWindowYet(front, key);
    }
    if last.key == key && (WindowOf(front, key).end == 0 || last.at > WindowOf(front, key).end) {
      i := |front|;
      OpensNow(front, last);
    } else {
      i := WindowIsItsHits(front, key);
      StaysOpen(front, last, key, i);
    }
  }

  lemma OpensNow(front: seq<Hit>, last: Hit)
    requires WindowOf(front, last.key).end == 0 || last.at > WindowOf(front, last.key).end
    ensures Opened(front + [last], last.key, |front|, WindowOf(front + [last], last.key))
  {
    var log := front + [last];
    assert log[..|log| - 1] == front && log[..|front|] == front;
    assert HitsFrom(front, last.key, |front|) == 0;
  }

  lemma StaysOpen(front: seq<Hit>, last: Hit, key: string, i: nat)
    requires Opened(front, key, i, WindowOf(front, key))
    requires last.key == key ==> WindowOf(front, key).end != 0 && last.at <= WindowOf(front, key).end
    ensures Opened(front + [last], key, i, WindowOf(front + [last], key))
  {
    var log := front + [last];
    assert log[..|log| - 1] == front && log[..i] == front[..i] && log[i] == front[i];
  }

  lemma {:induction false} NoWindowYet(log: seq<Hit>, key: string)
    requires forall j :: 0 <= j < |log| ==> log[j].key != key
    ensures WindowOf(log, key) == NoWindow
    decreases |log|
  {
    if log != [] {
      NoWindowYet(log[..|log| - 1], key);
    }
  }

  /**
   What a call is told: with this call added to the log, it is allowed exactly when it is among the first limit calls
   of its window, is told how many of them are left and when that window ends. Without a limit it is always allowed.
   */
  lemma DecisionTells(log: seq<Hit>, key: string, limit: int, window: int, now: int) returns (i: nat)
    requires Genuine(log) && window > 0 && now > 0
    requires forall j :: 0 <= j < |log| ==> log[j].window > 0 && log[j].at <= now
    ensures var d := Decide(log, key, limit, window, now);
      && d.limit == limit
      && (limit <= 0 ==> d.allowed && d.remaining == 0 && d.resetAt == now + window)
      && (limit > 0 ==>
            var all := log + [Hit(key, limit, window, now, d.allowed)];
            && Opened(all, key, i, Window(d.hits, d.resetAt))
            && (d.allowed <==> d.hits <= limit)
            && (d.allowed ==> d.remaining + d.hits == limit) && (!d.allowed ==> d.remaining == 0))
  {
    i := 0;
    if limit > 0 {
      var d := Decide(log, key, limit, window, now);
      var hit := Hit(key, limit, window, now, d.allowed);
      GenuineSnoc(log, hit);
      WindowSnoc(log, hit, key);
      assert (log + [hit])[|log|] == hit;
      i := WindowIsItsHits(log + [hit], key);
    }
  }

  /** A pruned map against the log: an entry is the one of a store that never prunes, and a missing one had expired. */
  ghost predicate Agrees(entries: map<string, Window>, log: seq<Hit>, clock: int) {
    && clock > 0 && Genuine(log) && (forall i :: 0 <= i < |log| ==> log[i].at <= clock)
    && forall key ::
      if key in entries then entries[key] == WindowOf(log, key)
      else WindowOf(log, key).end == 0 || clock > WindowOf(log, key).end
  }

  predicate Expired(w: Window, now: int) {
    w.end != 0 && now > w.end
  }

  lemma PruneAgrees(entries: map<string, Window>, log: seq<Hit>, now: int, key: string)
    requires Agrees(entries, log, now) && key in entries && Expired(entries[key], now)
    ensures Agrees(entries - {key}, log, now)
  {
  }

  /** One counted hit: what it sees is the window of a store that never prunes. */
  lemma HitAgrees(entries: map<string, Window>, log: seq<Hit>, now: int, key: string, limit: int, window: int)
    requires Agrees(entries, log, now) && limit > 0
    ensures var entry := Counted(if key in entries then entries[key] else NoWindow, now, window);
      && entry == Counted(WindowOf(log, key), now, window)
      && Agrees(entries[key := entry], log + [Hit(key, limit, window, now, entry.count <= limit)], now)
  {
    var entry := Counted(WindowOf(log, key), now, window);
    var hit := Hit(key, limit, window, now, entry.count <= limit);
    GenuineSnoc(log, hit);
    WindowsSnoc(log, hit);
  }

  class MemoryRateLimitStore {
    var entries: map<string, Window>
    var clock: int           // the wall clock; it never runs backwards
    ghost var log: seq<Hit>  // the counted calls so far

    function Lookup(key: string): Window
      reads this
    {
      if key in entries then entries[key] else NoWindow
    }

    ghost predicate Valid()
      reads this
    {
      Agrees(entries, log, clock)
    }

    constructor (start: int)
      requires start > 0
      ensures Valid() && log == [] && clock == start
    {
      entries, clock, log := map[], start, [];
    }

    /** pruneExpired. */
    method PruneExpired(now: int)
      requires Valid() && clock == now
      modifies this`entries
      ensures Valid()
      ensures forall key :: key in entries <==>
        key in old(entries) && (old(entries)[key].end == 0 || now <= old(entries)[key].end)
      ensures forall key <- entries :: entries[key] == old(entries)[key]
    {
      var todo := entries.Keys;
      while todo != {}
        invariant todo <= entries.Keys && Valid()
        invariant forall key <- entries :: key in old(entries) && entries[key] == old(entries)[key]
        invariant forall key <- old(entries) :: key in entries <==> key in todo || !Expired(old(entries)[key], now)
        decreases todo
      {
        var key :| key in todo;
        if Expired(entries[key], now) {
          PruneAgrees(entries, log, now, key);
          entries := entries - {key};
        }
        todo := todo - {key};
      }
    }

    /** Allow decides as a store without pruning would, whatever calls for other keys came before. */
    method Allow(key: string, limit: int, window: int) returns (d: Decision)
      requires Valid()
      modifies this
      ensures Valid() && old(clock) <= clock
      ensures d == Decide(old(log), key, limit, window, clock)
      ensures log == if limit <= 0 then old(log) else old(log) + [Hit(key, limit, window, clock, d.allowed)]
    {
      var elapsed :| elapsed >= 0;
      clock := clock + elapsed;
      if limit <= 0 {
        return Decision(true, 0, clock + window, limit, 0);
      }
      PruneExpired(clock);
      d := Count(key, limit, window);
    }

    /** The part of Allow after the pruning. */
    method Count(key: string, limit: int, window: int) returns (d: Decision)
      requires Valid() && limit > 0
      modifies this`entries, this`log
      ensures Valid()
      ensures d == Decide(old(log), key, limit, window, clock)
      ensures log == old(log) + [Hit(key, limit, window, clock, d.allowed)]
    {
      var now, entry := clock, Lookup(key);
      if entry.end == 0 || now > entry.end {
        entry := Window(0, now + window);
      }
      entry := entry.(count := entry.count + 1);
      HitAgrees(entries, log, now, key, limit, window);
      entries := entries[key := entry];
      var allowed := entry.count <= limit;
      var remaining := limit - entry.count;
      if remaining < 0 {
        remaining := 0;
      }
      d := Decision(allowed, remaining, entry.end, limit, entry.count);
      log := log + [Hit(key, limit, window, now, allowed)];
    }
  }

  // ---------------------------------------------------------------- traffic

  /** Calls of which those for key all carry this limit and window. */
  ghost predicate Traffic(log: seq<Hit>, key: string, limit: int, window: int) {
    Genuine(log) && forall i :: 0 <= i < |log| && log[i].key == key ==> log[i].limit == limit && log[i].window == window
  }

  function AllowedSince(log: seq<Hit>, key: string, from: int): nat
    decreases |log|
  {
    if log == [] then 0
    else
      var last := log[|log| - 1];
      AllowedSince(log[..|log| - 1], key, from) + if last.key == key && last.allowed && from <= last.at then 1 else 0
  }

  /** The calls for key let through at a time in the closed interval from .. to. */
  function AllowedIn(log: seq<Hit>, key: string, from: int, to: int): nat
    decreases |log|
  {
    if log == [] then 0
    else
      var last := log[|log| - 1];
      AllowedIn(log[..|log| - 1], key, from, to)
      + if last.key == key && last.allowed && from <= last.at <= to then 1 else 0
  }

  lemma {:induction false} InWithinSince(log: seq<Hit>, key: string, from: int, to: int)
    ensures AllowedIn(log, key, from, to) <= AllowedSince(log, key, from)
    decreases |log|
  {
    if log != [] {
      InWithinSince(log[..|log| - 1], key, from, to);
    }
  }

  lemma {:induction false} NoneSince(log: seq<Hit>, key: string, from: int)
    requires forall i :: 0 <= i < |log| && log[i].key == key ==> log[i].at < from
    ensures AllowedSince(log, key, from) == 0
    decreases |log|
  {
    if log != [] {
      NoneSince(log[..|log| - 1], key, from);
    }
  }

  function Least(a: int, b: int): int {
    if a < b then a else b
  }

  /** What the current window of a key says about its hits: none is later than its end, and few are recent. */
  ghost predicate Accounted(log: seq<Hit>, key: string, limit: int, window: int, from: int) {
    var w := WindowOf(log, key);
    var start := w.end - window;
    && (w.end == 0 ==> w == NoWindow && AllowedSince(log, key, from) == 0)
    && (w.end != 0 ==> w.count >= 1 && start > 0 && log != [] && start <= log[|log| - 1].at)
    && (forall i :: 0 <= i < |log| && log[i].key == key ==> log[i].at <= w.end)
    && (w.end != 0 && from >= start ==> AllowedSince(log, key, from) <= Least(w.count, limit))
    && (w.end != 0 && from > start ==> AllowedSince(log, key, from) <= Least(w.count, limit) - 1)
    && (w.end != 0 && from >= start - window ==> AllowedSince(log, key, from) <= limit - 1 + Least(w.count, limit))
    && AllowedIn(log, key, from, from + window) <= 2 * limit - 1
  }

  lemma {:induction false} TrafficAccounted(log: seq<Hit>, key: string, limit: int, window: int, from: int)
    requires limit > 0 && window > 0 && Traffic(log, key, limit, window)
    ensures Accounted(log, key, limit, window, from)
    decreases |log|
  {
    if log != [] {
      var front, last := log[..|log| - 1], log[|log| - 1];
      TrafficAccounted(front, key, limit, window, from);
      if last.key == key {
        assert log == front + [last];
        InWithinSince(log, key, from, from + window);
        NoneRecent(front, last, key, limit, window, from);
        HitAccounted(front, last, key, limit, window, from);
      }
    }
  }

  lemma NoneRecent(front: seq<Hit>, last: Hit, key: string, limit: int, window: int, from: int)
    requires Accounted(front, key, limit, window, from)
    ensures WindowOf(front, key).end != 0 && last.at > WindowOf(front, key).end && from >= last.at ==>
      AllowedSince(front, key, from) == 0
  {
    var w := WindowOf(front, key);
    if w.end != 0 && last.at > w.end && from >= last.at {
      NoneSince(front, key, from);
    }
  }

  lemma HitAccounted(front: seq<Hit>, last: Hit, key: string, limit: int, window: int, from: int)
    requires limit > 0 && window > 0 && Accounted(front, key, limit, window, from)
    requires Traffic(front + [last], key, limit, window) && last.key == key
    requires WindowOf(front, key).end != 0 && last.at > WindowOf(front, key).end && from >= last.at ==>
      AllowedSince(front, key, from) == 0
    requires AllowedIn(front + [last], key, from, from + window) <= AllowedSince(front + [last], key, from)
    ensures Accounted(front + [last], key, limit, window, from)
  {
    var log := front + [last];
    assert log[..|log| - 1] == front;
    var w, w' := WindowOf(front, key), WindowOf(log, key);
    assert w' == Counted(w, last.at, window);
    assert last.allowed <==> w'.count <= limit;
  }

  /** Any closed interval as long as the window holds fewer than twice the limit of allowed calls. */
  lemma WindowBound(log: seq<Hit>, key: string, limit: int, window: int, from: int)
    requires limit > 0 && window > 0 && Traffic(log, key, limit, window)
    ensures AllowedIn(log, key, from, from + window) <= 2 * limit - 1
  {
    TrafficAccounted(log, key, limit, window, from);
  }

  function OnlyFor(log: seq<Hit>, key: string): seq<Hit>
    decreases |log|
  {
    if log == [] then []
    else OnlyFor(log[..|log| - 1], key) + if log[|log| - 1].key == key then [log[|log| - 1]] else []
  }

  lemma {:induction false} WindowOfOwnHits(log: seq<Hit>, key: string)
    ensures WindowOf(log, key) == WindowOf(OnlyFor(log, key), key)
    decreases |log|
  {
    if log != [] {
      var front, last := log[..|log| - 1], log[|log| - 1];
      WindowOfOwnHits(front, key);
      if last.key == key {
        var own := OnlyFor(front, key) + [last];
        assert own[..|own| - 1] == OnlyFor(front, key) && own[|own| - 1] == last;
        assert OnlyFor(log, key) == own;
      } else {
        assert OnlyFor(log, key) == OnlyFor(front, key);
      }
    }
  }

  /** Calls for other keys change no decision. */
  lemma KeysAreIndependent(log: seq<Hit>, key: string, limit: int, window: int, now: int)
    ensures Decide(log, key, limit, window, now) == Decide(OnlyFor(log, key), key, limit, window, now)
  {
    WindowOfOwnHits(log, key);
  }

  /** The bound for a store in use. */
  lemma StoreBound(store: MemoryRateLimitStore, key: string, limit: int, window: int, from: int)
    requires store.Valid() && limit > 0 && window > 0
    requires forall hit <- store.log :: hit.key == key ==> hit.limit == limit && hit.window == window
    ensures AllowedIn(store.log, key, from, from + window) <= 2 * limit - 1
  {
    WindowBound(store.log, key, limit, window, from);
  }

  // ------------------------------------------------------------- tightness

  /** n more calls for key, all at time at. */
  function Burst(log: seq<Hit>, key: string, limit: int, window: int, at: int, n: nat): seq<Hit> {
    if n == 0 then log
    else
      var before := Burst(log, key, limit, window, at, n - 1);
      before + [Hit(key, limit, window, at, Decide(before, key, limit, window, at).allowed)]
  }

  /** A log that ends at a given time with the given window, and lets n calls through in the interval. */
  ghost predicate Stands(log: seq<Hit>, key: string, limit: int, window: int, at: int, w: Window, from: int, to: int,
                         n: nat) {
    && Traffic(log, key, limit, window)
    && (forall i :: 0 <= i < |log| ==> log[i].at <= at)
    && WindowOf(log, key) == w
    && AllowedIn(log, key, from, to) == n
  }

  lemma OneMore(log: seq<Hit>, key: string, limit: int, window: int, at: int, w: Window, from: int, to: int, n: nat)
    requires limit > 0 && window > 0 && at > 0 && Stands(log, key, limit, window, at, w, from, to, n)
    requires Counted(w, at, window).count <= limit && from <= at <= to
    ensures Stands(Burst(log, key, limit, window, at, 1), key, limit, window, at,
                   Counted(w, at, window), from, to, n + 1)
  {
    assert Burst(log, key, limit, window, at, 0) == log;
    var hit := Hit(key, limit, window, at, true);
    assert Burst(log, key, limit, window, at, 1) == log + [hit];
    assert (log + [hit])[..|log|] == log;
  }

  lemma OneMoreBurst(log: seq<Hit>, key: string, limit: int, window: int, at: int, n: nat)
    requires n > 0
    ensures Burst(log, key, limit, window, at, n)
         == Burst(Burst(log, key, limit, window, at, n - 1), key, limit, window, at, 1)
  {
    var before := Burst(log, key, limit, window, at, n - 1);
    assert Burst(before, key, limit, window, at, 0) == before;
  }

  lemma {:induction false} BurstAllowed(log: seq<Hit>, key: string, limit: int, window: int, at: int, w: Window,
                                        from: int, to: int, n: nat, more: nat)
    requires limit > 0 && window > 0 && at > 0 && Stands(log, key, limit, window, at, w, from, to, n)
    requires w.end != 0 && at <= w.end && w.count + more <= limit && from <= at <= to
    ensures Stands(Burst(log, key, limit, window, at, more), key, limit, window, at,
                   w.(count := w.count + more), from, to, n + more)
    decreases more
  {
    if more > 0 {
      var before, w' := Burst(log, key, limit, window, at, more - 1), w.(count := w.count + (more - 1));
      BurstAllowed(log, key, limit, window, at, w, from, to, n, more - 1);
      assert Counted(w', at, window) == w.(count := w.count + more);
      OneMore(before, key, limit, window, at, w', from, to, n + (more - 1));
      OneMoreBurst(log, key, limit, window, at, more);
    }
  }

  lemma FirstCall(key: string, limit: int, window: int)
    requires limit > 0 && window > 0
    ensures Stands([Hit(key, limit, window, 1, true)], key, limit, window, 1 + window,
                   Window(1, 1 + window), 2, 2 + window, 0)
  {
    var log := [Hit(key, limit, window, 1, true)];
    assert log[..|log| - 1] == [];
    assert Traffic([], key, limit, window) && WindowOf([], key) == NoWindow && AllowedIn([], key, 2, 2 + window) == 0;
  }

  /** One call, and the rest of its window's limit at the window's end. */
  lemma LateBurst(key: string, limit: int, window: int) returns (log: seq<Hit>)
    requires limit > 0 && window > 0
    ensures Stands(log, key, limit, window, 1 + window, Window(limit, 1 + window), 2, 2 + window, limit - 1)
  {
    FirstCall(key, limit, window);
    var first := [Hit(key, limit, window, 1, true)];
    BurstAllowed(first, key, limit, window, 1 + window, Window(1, 1 + window), 2, 2 + window, 0, limit - 1);
    log := Burst(first, key, limit, window, 1 + window, limit - 1);
  }

  /** A full limit just after. */
  lemma FullBurst(before: seq<Hit>, key: string, limit: int, window: int) returns (log: seq<Hit>)
    requires limit > 0 && window > 0
    requires Stands(before, key, limit, window, 2 + window, Window(limit, 1 + window), 2, 2 + window, limit - 1)
    ensures Traffic(log, key, limit, window) && AllowedIn(log, key, 2, 2 + window) == 2 * limit - 1
  {
    var to := 2 + window;
    OneMore(before, key, limit, window, to, Window(limit, 1 + window), 2, to, limit - 1);
    log := Burst(before, key, limit, window, to, 1);
    BurstAllowed(log, key, limit, window, to, Window(1, to + window), 2, to, limit, limit - 1);
    log := Burst(log, key, limit, window, to, limit - 1);
  }

  /** The bound is exact. */
  lemma WindowBoundIsTight(key: string, limit: int, window: int)
    requires limit > 0 && window > 0
    ensures exists log, from, to ::
      Traffic(log, key, limit, window) && to == from + window && AllowedIn(log, key, from, to) == 2 * limit - 1
  {
    var log := LateBurst(key, limit, window);
    log := FullBurst(log, key, limit, window);
  }
}
