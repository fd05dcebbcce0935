/**
 The chat search cache (chatSearchCache) and the search that uses it. The cache
 is compared with a history that forgets nothing: the latest list stored under
 each key and when. Lists are arrays and labels are references, as Go's slices
 are, so that aliasing between the cache and its callers is part of the model.
 */
module ChatCache {
  import opened Wrappers
  import opened ChatFilter

  const SECOND: int := 1_000_000_000

  /** A chatSearchRecord; null labels are Go's nil slice. */
  datatype Chat = Chat(id: string, pushName: string, remoteJid: string, labels: array?<string>)

  /** What a reader of the record sees; a nil slice and an empty one are the same list of labels. */
  datatype ChatValue = ChatValue(id: string, pushName: string, remoteJid: string, labels: seq<string>)

  ghost function ValueOf(c: Chat): ChatValue
    reads c.labels
  {
    ChatValue(c.id, c.pushName, c.remoteJid, if c.labels == null then [] else c.labels[..])
  }

  ghost function LabelsOf(items: array<Chat>): set<object>
    reads items
  {
    set i | 0 <= i < items.Length && items[i].labels != null :: items[i].labels
  }

  /** The list reads as these values. */
  ghost predicate Shows(items: array<Chat>, values: seq<ChatValue>)
    reads items, LabelsOf(items)
  {
    items.Length == |values| && forall i :: 0 <= i < |values| ==> ValueOf(items[i]) == values[i]
  }

  /** append([]string(nil), labels...), which is nil for an empty slice. */
  method CloneLabels(labels: array<string>) returns (cloned: array?<string>)
    ensures labels.Length == 0 ==> cloned == null
    ensures labels.Length > 0 ==> cloned != null && fresh(cloned) && cloned[..] == labels[..]
  {
    cloned := null;
    if labels.Length > 0 {
      cloned := new string[labels.Length](i requires 0 <= i < labels.Length reads labels => labels[i]);
    }
  }

  /** cloneChatSearchRecords: the copy reads like the original and shares nothing with it. */
  method CloneRecords(items: array<Chat>) returns (cloned: array<Chat>, ghost values: seq<ChatValue>)
    ensures fresh(cloned) && fresh(LabelsOf(cloned))
    ensures Shows(items, values) && Shows(cloned, values)
  {
    cloned := new Chat[items.Length](i requires 0 <= i < items.Length reads items => items[i]);
    values := seq(items.Length, i requires 0 <= i < items.Length reads items, LabelsOf(items) => ValueOf(items[i]));
    for i := 0 to items.Length
      invariant cloned.Length == items.Length
      invariant forall j :: 0 <= j < i && cloned[j].labels != null ==> fresh(cloned[j].labels)
      invariant forall j :: 0 <= j < i ==> ValueOf(cloned[j]) == values[j]
      invariant forall j :: i <= j < items.Length ==> cloned[j] == items[j]
    {
      if items[i].labels != null {
        var labels := CloneLabels(items[i].labels);
        cloned[i] := cloned[i].(labels := labels);
      }
      assert ValueOf(cloned[i]) == ValueOf(items[i]);
    }
  }

  datatype Meta = Meta(cached: bool, stale: bool, refreshedAt: int, expiresAt: int, staleUntil: int,
                       ttlSeconds: int, staleTtlSeconds: int, reason: string)

  datatype SearchResult = SearchResult(items: array<Chat>, meta: Meta)

  datatype CacheEntry = CacheEntry(items: array<Chat>, refreshedAt: int, expiresAt: int, staleUntil: int)

  /** Tenant and instance ids are UUIDs, so they hold no NUL. */
  type Id = s: string | '\0' !in s

  datatype Query = Query(tenant: Id, instance: Id, filter: Filter) {
    function Key(): string {
      CacheKey(tenant, instance, filter)
    }
  }

  /** The bridge filters its records by matchesChatFilter. */
  predicate AllMatch(items: array<Chat>, filter: Filter)
    reads items
  {
    forall i :: 0 <= i < items.Length ==> Matches(items[i].remoteJid, items[i].pushName, filter)
  }

  /** A list, when it was stored, and the query that the bridge answered with it. */
  datatype StoredList = StoredList(values: seq<ChatValue>, at: int, asked: Query)

  /** The list answers the query that has this key. */
  ghost predicate IsAnswer(key: string, list: StoredList) {
    && key == list.asked.Key() && Normalized(list.asked.filter)
    && forall v <- list.values :: Matches(v.remoteJid, v.pushName, list.asked.filter)
  }

  /** The keys whose list answers another query. */
  ghost function Strays(stored: map<string, StoredList>): set<string> {
    set key | key in stored && !IsAnswer(key, stored[key])
  }

  ghost predicate Answered(stored: map<string, StoredList>) {
    Strays(stored) == {}
  }

  lemma OneMoreAnswer(stored: map<string, StoredList>, key: string, list: StoredList)
    requires Answered(stored) && IsAnswer(key, list)
    ensures Answered(stored[key := list])
  {
    var stored' := stored[key := list];
    forall k <- stored' ensures IsAnswer(k, stored'[k]) {
      assert k != key ==> k !in Strays(stored);
    }
  }

  /** So whoever finds a list under the key of an unambiguous filter finds an answer to their own query. */
  lemma AnswersAsker(stored: map<string, StoredList>, q: Query)
    requires Answered(stored) && q.Key() in stored && Normalized(q.filter) && !Ambiguous(q.filter)
    ensures forall v <- stored[q.Key()].values :: Matches(v.remoteJid, v.pushName, q.filter)
  {
    var list := stored[q.Key()];
    assert q.Key() !in Strays(stored);
    SharersAgree(q.tenant, q.instance, q.filter, list.asked.tenant, list.asked.instance, list.asked.filter);
  }

  /**
   One key of the cache's maps against the history: an entry has the stored times, and one that is missing is too old.
   */
  ghost predicate KeyAgrees(key: string, entries: map<string, CacheEntry>, lastLive: map<string, int>,
                            stored: map<string, StoredList>, attempts: map<string, int>, clock: int,
                            freshTTL: int, staleTTL: int) {
    && (key in entries ==>
          && key in stored && key in lastLive
          && entries[key].refreshedAt == stored[key].at
          && entries[key].expiresAt == stored[key].at + freshTTL
          && entries[key].staleUntil == stored[key].at + staleTTL)
    && (key in stored ==> stored[key].at <= clock && (key !in entries ==> clock > stored[key].at + staleTTL))
    && (key in lastLive ==> key in attempts && lastLive[key] == attempts[key] && 0 < attempts[key])
  }

  ghost function Misfits(entries: map<string, CacheEntry>, lastLive: map<string, int>, stored: map<string, StoredList>,
                         attempts: map<string, int>, clock: int, freshTTL: int, staleTTL: int): set<string> {
    set key | key in entries.Keys + stored.Keys + lastLive.Keys
              && !KeyAgrees(key, entries, lastLive, stored, attempts, clock, freshTTL, staleTTL)
  }

  ghost predicate Agrees(entries: map<string, CacheEntry>, lastLive: map<string, int>, stored: map<string, StoredList>,
                         attempts: map<string, int>, clock: int, freshTTL: int, staleTTL: int) {
    Misfits(entries, lastLive, stored, attempts, clock, freshTTL, staleTTL) == {}
  }

  lemma ThisAgrees(entries: map<string, CacheEntry>, lastLive: map<string, int>, stored: map<string, StoredList>,
                   attempts: map<string, int>, clock: int, freshTTL: int, staleTTL: int, key: string)
    requires Agrees(entries, lastLive, stored, attempts, clock, freshTTL, staleTTL)
    ensures KeyAgrees(key, entries, lastLive, stored, attempts, clock, freshTTL, staleTTL)
  {
    assert key !in Misfits(entries, lastLive, stored, attempts, clock, freshTTL, staleTTL);
  }

  lemma LaterAgrees(entries: map<string, CacheEntry>, lastLive: map<string, int>, stored: map<string, StoredList>,
                    attempts: map<string, int>, clock: int, freshTTL: int, staleTTL: int, now: int)
    requires Agrees(entries, lastLive, stored, attempts, clock, freshTTL, staleTTL) && clock <= now
    ensures Agrees(entries, lastLive, stored, attempts, now, freshTTL, staleTTL)
  {
    assert Misfits(entries, lastLive, stored, attempts, now, freshTTL, staleTTL)
      <= Misfits(entries, lastLive, stored, attempts, clock, freshTTL, staleTTL);
  }

  lemma DropAgrees(entries: map<string, CacheEntry>, lastLive: map<string, int>, stored: map<string, StoredList>,
                   attempts: map<string, int>, clock: int, freshTTL: int, staleTTL: int, key: string)
    requires Agrees(entries, lastLive, stored, attempts, clock, freshTTL, staleTTL)
    requires key in entries && clock > entries[key].staleUntil
    ensures Agrees(entries - {key}, lastLive - {key}, stored, attempts, clock, freshTTL, staleTTL)
  {
    ThisAgrees(entries, lastLive, stored, attempts, clock, freshTTL, staleTTL, key);
    assert Misfits(entries - {key}, lastLive - {key}, stored, attempts, clock, freshTTL, staleTTL)
      <= Misfits(entries, lastLive, stored, attempts, clock, freshTTL, staleTTL);
  }

  lemma TouchAgrees(entries: map<string, CacheEntry>, lastLive: map<string, int>, stored: map<string, StoredList>,
                    attempts: map<string, int>, clock: int, freshTTL: int, staleTTL: int, key: string)
    requires Agrees(entries, lastLive, stored, attempts, clock, freshTTL, staleTTL) && clock > 0
    ensures Agrees(entries, lastLive[key := clock], stored, attempts[key := clock], clock, freshTTL, staleTTL)
  {
    ThisAgrees(entries, lastLive, stored, attempts, clock, freshTTL, staleTTL, key);
    assert Misfits(entries, lastLive[key := clock], stored, attempts[key := clock], clock, freshTTL, staleTTL)
      <= Misfits(entries, lastLive, stored, attempts, clock, freshTTL, staleTTL);
  }

  lemma KeepAgrees(entries: map<string, CacheEntry>, lastLive: map<string, int>, stored: map<string, StoredList>,
                   attempts: map<string, int>, clock: int, freshTTL: int, staleTTL: int, key: string,
                   entry: CacheEntry, list: StoredList)
    requires Agrees(entries, lastLive, stored, attempts, clock, freshTTL, staleTTL) && key in lastLive
    requires entry == CacheEntry(entry.items, clock, clock + freshTTL, clock + staleTTL) && list.at == clock
    ensures Agrees(entries[key := entry], lastLive, stored[key := list], attempts, clock, freshTTL, staleTTL)
  {
    ThisAgrees(entries, lastLive, stored, attempts, clock, freshTTL, staleTTL, key);
    assert Misfits(entries[key := entry], lastLive, stored[key := list], attempts, clock, freshTTL, staleTTL)
      <= Misfits(entries, lastLive, stored, attempts, clock, freshTTL, staleTTL);
  }

  /** The keys whose list does not lie within the given objects, or does not read as the list stored last. */
  ghost function Strangers(entries: map<string, CacheEntry>, stored: map<string, StoredList>,
                           repr: set<object>): set<string>
    reads repr
  {
    set key | key in entries && !(
      && key in stored && entries[key].items in repr && LabelsOf(entries[key].items) <= repr
      && Shows(entries[key].items, stored[key].values))
  }

  ghost predicate Owned(entries: map<string, CacheEntry>, stored: map<string, StoredList>, repr: set<object>)
    reads repr
  {
    Strangers(entries, stored, repr) == {}
  }

  lemma OwnsOneMore(entries: map<string, CacheEntry>, stored: map<string, StoredList>, repr: set<object>,
                    key: string, entry: CacheEntry, list: StoredList)
    requires Owned(entries, stored, repr) && Shows(entry.items, list.values)
    ensures Owned(entries[key := entry], stored[key := list], repr + {entry.items} + LabelsOf(entry.items))
  {
    var more := Strangers(entries[key := entry], stored[key := list], repr + {entry.items} + LabelsOf(entry.items));
    forall k | k in more ensures k in Strangers(entries, stored, repr) {
    }
  }

  lemma OwnsFewer(entries: map<string, CacheEntry>, stored: map<string, StoredList>, repr: set<object>, key: string)
    requires Owned(entries, stored, repr)
    ensures Owned(entries - {key}, stored, repr)
  {
    assert Strangers(entries - {key}, stored, repr) <= Strangers(entries, stored, repr);
  }

  lemma OwnsThis(entries: map<string, CacheEntry>, stored: map<string, StoredList>, repr: set<object>, key: string)
    requires Owned(entries, stored, repr) && key in entries
    ensures key in stored && entries[key].items in repr && LabelsOf(entries[key].items) <= repr
    ensures Shows(entries[key].items, stored[key].values)
  {
    assert key !in Strangers(entries, stored, repr);
  }

  class Cache {
    var entries: map<string, CacheEntry>
    var lastLiveAttempt: map<string, int>
    const freshTTL: int
    const staleTTL: int
    const liveThrottle: int
    var clock: int // the latest reading of the clock, which never runs backwards
    // The history: what was last stored under each key, and when each key was last tried live.
    ghost var stored: map<string, StoredList>
    ghost var attempts: map<string, int>
    ghost var Repr: set<object>

    ghost predicate Valid()
      reads this, Repr
    {
      && this !in Repr && clock > 0
      && 0 < freshTTL <= staleTTL && 0 < liveThrottle
      && Agrees(entries, lastLiveAttempt, stored, attempts, clock, freshTTL, staleTTL)
      && Owned(entries, stored, Repr)
    }

    /** newChatSearchCache with its defaults. */
    constructor (freshTTL: int, staleTTL: int, liveThrottle: int)
      ensures Valid() && fresh(Repr) && stored == map[] && attempts == map[] && Answered(stored)
      ensures this.freshTTL == (if freshTTL <= 0 then 30 * SECOND else freshTTL)
      ensures this.staleTTL == (if staleTTL < this.freshTTL then this.freshTTL else staleTTL)
      ensures this.liveThrottle == (if liveThrottle <= 0 then 5 * SECOND else liveThrottle)
    {
      var f := if freshTTL <= 0 then 30 * SECOND else freshTTL;
      this.freshTTL := f;
      this.staleTTL := if staleTTL < f then f else staleTTL;
      this.liveThrottle := if liveThrottle <= 0 then 5 * SECOND else liveThrottle;
      entries, lastLiveAttempt := map[], map[];
      stored, attempts, clock, Repr := map[], map[], 1, {};
    }

    /**
     A list that the caller may do with as it likes: it equals what was stored last, and shares nothing with the
     cache.
     */
    ghost predicate Answers(r: SearchResult, key: string, stale: bool, reason: string)
      reads this, r.items, LabelsOf(r.items)
    {
      && r.items !in Repr && LabelsOf(r.items) !! Repr
      && key in stored
      && Shows(r.items, stored[key].values)
      && r.meta == Meta(true, stale, stored[key].at, stored[key].at + freshTTL, stored[key].at + staleTTL,
                        freshTTL / SECOND, staleTTL / SECOND, reason)
    }

    method ResultFromEntry(entry: CacheEntry, cached: bool, stale: bool, reason: string)
        returns (r: SearchResult, ghost values: seq<ChatValue>)
      ensures fresh(r.items) && fresh(LabelsOf(r.items))
      ensures Shows(entry.items, values) && Shows(r.items, values)
      ensures r.meta == Meta(cached, stale, entry.refreshedAt, entry.expiresAt, entry.staleUntil,
                             freshTTL / SECOND, staleTTL / SECOND, reason)
    {
      var items;
      items, values := CloneRecords(entry.items);
      r := SearchResult(items, Meta(cached, stale, entry.refreshedAt, entry.expiresAt, entry.staleUntil,
                                    freshTTL / SECOND, staleTTL / SECOND, reason));
    }

    /** fresh: answers exactly when the latest list is at most freshTTL old. */
    method Fresh(key: string, now: int) returns (r: Option<SearchResult>)
      requires Valid() && clock <= now
      modifies this`clock
      ensures Valid() && clock == now
      ensures r.Some? <==> key in stored && now <= stored[key].at + freshTTL
      ensures r.Some? ==>
        fresh(r.value.items) && fresh(LabelsOf(r.value.items)) && Answers(r.value, key, false, "fresh_cache")
    {
      Tick(now);
      ThisAgrees(entries, lastLiveAttempt, stored, attempts, clock, freshTTL, staleTTL, key);
      if key !in entries || now > entries[key].expiresAt {
        return None;
      }
      OwnsThis(entries, stored, Repr, key);
      var result, values := ResultFromEntry(entries[key], true, false, "fresh_cache");
      assert values == stored[key].values;
      r := Some(result);
    }

    /**
     throttled: answers exactly when the latest list is servable and the key was tried live less than liveThrottle
     ago.
     */
    method Throttled(key: string, now: int) returns (r: Option<SearchResult>)
      requires Valid() && clock <= now
      modifies this`clock
      ensures Valid() && clock == now
      ensures r.Some? <==>
        key in stored && now <= stored[key].at + staleTTL && key in attempts && now - attempts[key] < liveThrottle
      ensures r.Some? ==>
        fresh(r.value.items) && fresh(LabelsOf(r.value.items)) && Answers(r.value, key, true, "live_query_throttled")
    {
      Tick(now);
      ThisAgrees(entries, lastLiveAttempt, stored, attempts, clock, freshTTL, staleTTL, key);
      if key !in entries || now > entries[key].staleUntil {
        return None;
      }
      var last := if key in lastLiveAttempt then lastLiveAttempt[key] else 0;
      if last == 0 || now - last >= liveThrottle {
        return None;
      }
      OwnsThis(entries, stored, Repr, key);
      var result, values := ResultFromEntry(entries[key], true, true, "live_query_throttled");
      assert values == stored[key].values;
      r := Some(result);
    }

    /**
     beginLiveAttempt: a refusal means a recent attempt, and while the key's list is servable every recent attempt
     means a refusal; afterwards a cleanup may have dropped the attempt.
     */
    method BeginLiveAttempt(key: string, now: int) returns (ok: bool)
      requires Valid() && clock <= now
      modifies this
      ensures Valid() && clock == now && stored == old(stored) && Repr == old(Repr)
      ensures !ok ==> key in old(attempts) && now - old(attempts)[key] < liveThrottle
      ensures key in stored && now <= stored[key].at + staleTTL ==>
        (ok <==> key !in old(attempts) || now - old(attempts)[key] >= liveThrottle)
      ensures attempts == if ok then old(attempts)[key := now] else old(attempts)
    {
      Tick(now);
      ThisAgrees(entries, lastLiveAttempt, stored, attempts, clock, freshTTL, staleTTL, key);
      var last := if key in lastLiveAttempt then lastLiveAttempt[key] else 0;
      if last != 0 && now - last < liveThrottle {
        return false;
      }
      Touch(key);
      ok := true;
    }

    /** A reading of the clock. */
    method Tick(now: int)
      requires Valid() && clock <= now
      modifies this`clock
      ensures Valid() && clock == now
    {
      LaterAgrees(entries, lastLiveAttempt, stored, attempts, clock, freshTTL, staleTTL, now);
      clock := now;
    }

    /** stale: answers exactly when the latest list is at most staleTTL old. */
    method Stale(key: string, now: int, reason: string) returns (r: Option<SearchResult>)
      requires Valid() && clock <= now
      modifies this`clock
      ensures Valid() && clock == now
      ensures r.Some? <==> key in stored && now <= stored[key].at + staleTTL
      ensures r.Some? ==> fresh(r.value.items) && fresh(LabelsOf(r.value.items)) && Answers(r.value, key, true, reason)
    {
      Tick(now);
      ThisAgrees(entries, lastLiveAttempt, stored, attempts, clock, freshTTL, staleTTL, key);
      if key !in entries || now > entries[key].staleUntil {
        return None;
      }
      OwnsThis(entries, stored, Repr, key);
      var result, values := ResultFromEntry(entries[key], true, true, reason);
      assert values == stored[key].values;
      r := Some(result);
    }

    /** cleanupExpiredLocked removes exactly the entries that can no longer be served. */
    method CleanupExpired(now: int)
      requires Valid() && clock == now
      modifies this`entries, this`lastLiveAttempt
      ensures Valid()
      ensures forall key :: key in entries <==> key in old(entries) && now <= old(entries)[key].staleUntil
      ensures forall key <- entries :: entries[key] == old(entries)[key]
    {
      var todo := entries.Keys;
      while todo != {}
        invariant todo <= entries.Keys && Valid()
        invariant forall key <- entries :: key in old(entries) && entries[key] == old(entries)[key]
        invariant forall key <- old(entries) ::
          key in entries <==> key in todo || now <= old(entries)[key].staleUntil
        decreases todo
      {
        var key :| key in todo;
        if now > entries[key].staleUntil {
          Drop(key);
        }
        todo := todo - {key};
      }
    }

    method Drop(key: string)
      requires Valid() && key in entries && clock > entries[key].staleUntil
      modifies this`entries, this`lastLiveAttempt
      ensures Valid() && entries == old(entries) - {key}
    {
      DropAgrees(entries, lastLiveAttempt, stored, attempts, clock, freshTTL, staleTTL, key);
      OwnsFewer(entries, stored, Repr, key);
      entries := entries - {key};
      lastLiveAttempt := lastLiveAttempt - {key};
    }

    /** store: keeps a copy of its own, and returns another. */
    method Store(key: string, items: array<Chat>, now: int, ghost asked: Query)
        returns (r: SearchResult, ghost values: seq<ChatValue>)
      requires Valid() && clock <= now
      modifies this
      ensures Valid() && clock == now && fresh(Repr - old(Repr))
      ensures stored == old(stored)[key := StoredList(values, now, asked)]
      ensures Shows(items, values) && Shows(r.items, values)
      ensures attempts == old(attempts)[key := now]
      ensures fresh(r.items) && fresh(LabelsOf(r.items)) && r.items !in Repr && LabelsOf(r.items) !! Repr
      ensures r.meta == Meta(false, false, now, now + freshTTL, now + staleTTL,
                             freshTTL / SECOND, staleTTL / SECOND, "")
    {
      var own;
      own, values := CloneRecords(items);
      KeepOwn(key, own, values, now, asked);
      ghost var shown;
      r, shown := ResultFromEntry(CacheEntry(own, now, now + freshTTL, now + staleTTL), false, false, "");
      assert shown == values;
    }

    /** The part of store that changes the cache, with the copy that it keeps. */
    method KeepOwn(key: string, own: array<Chat>, ghost values: seq<ChatValue>, now: int, ghost asked: Query)
      requires Valid() && clock <= now && Shows(own, values)
      modifies this
      ensures Valid() && clock == now && Repr == old(Repr) + {own} + LabelsOf(own)
      ensures stored == old(stored)[key := StoredList(values, now, asked)]
      ensures attempts == old(attempts)[key := now]
      ensures Shows(own, values) && LabelsOf(own) == old(LabelsOf(own))
    {
      Prepare(key, now);
      Keep(key, CacheEntry(own, now, now + freshTTL, now + staleTTL), values, asked);
    }

    method Prepare(key: string, now: int)
      requires Valid() && clock <= now
      modifies this`clock, this`entries, this`lastLiveAttempt, this`attempts
      ensures Valid() && clock == now && key in lastLiveAttempt && attempts == old(attempts)[key := now]
    {
      Tick(now);
      CleanupExpired(now);
      Touch(key);
    }

    /** Records a live attempt now. */
    method Touch(key: string)
      requires Valid()
      modifies this`lastLiveAttempt, this`attempts
      ensures Valid() && key in lastLiveAttempt && attempts == old(attempts)[key := clock]
    {
      TouchAgrees(entries, lastLiveAttempt, stored, attempts, clock, freshTTL, staleTTL, key);
      lastLiveAttempt := lastLiveAttempt[key := clock];
      attempts := attempts[key := clock];
    }

    /** The update of the entries, with a list that the cache may keep. */
    method Keep(key: string, entry: CacheEntry, ghost values: seq<ChatValue>, ghost asked: Query)
      requires Valid() && key in lastLiveAttempt
      requires entry == CacheEntry(entry.items, clock, clock + freshTTL, clock + staleTTL)
      requires Shows(entry.items, values)
      modifies this`entries, this`stored, this`Repr
      ensures Valid()
      ensures Repr == old(Repr) + {entry.items} + LabelsOf(entry.items)
      ensures stored == old(stored)[key := StoredList(values, clock, asked)]
    {
      ghost var list := StoredList(values, clock, asked);
      ghost var entries0, stored0, repr0 := entries, stored, Repr;
      KeepAgrees(entries, lastLiveAttempt, stored, attempts, clock, freshTTL, staleTTL, key, entry, list);
      Repr := Repr + {entry.items} + LabelsOf(entry.items);
      entries := entries[key := entry];
      stored := stored[key := list];
      OwnsOneMore(entries0, stored0, repr0, key, entry, list);
    }
  }

  /** Stores a list of records that all match the filter of the query. */
  method StoreAnswer(cache: Cache, key: string, items: array<Chat>, now: int, ghost asked: Query)
      returns (r: SearchResult)
    requires cache.Valid() && Answered(cache.stored) && cache.clock <= now
    requires key == asked.Key() && Normalized(asked.filter) && AllMatch(items, asked.filter)
    modifies cache
    ensures cache.Valid() && Answered(cache.stored) && cache.clock == now && fresh(cache.Repr - old(cache.Repr))
    ensures fresh(r.items) && fresh(LabelsOf(r.items)) && r.items !in cache.Repr && LabelsOf(r.items) !! cache.Repr
    ensures key in cache.stored && cache.stored[key].at == now
    ensures Shows(items, cache.stored[key].values) && Shows(r.items, cache.stored[key].values)
    ensures r.meta == Meta(false, false, now, now + cache.freshTTL, now + cache.staleTTL,
                           cache.freshTTL / SECOND, cache.staleTTL / SECOND, "")
  {
    ghost var before := cache.stored;
    ghost var values;
    r, values := cache.Store(key, items, now, asked);
    forall v <- values ensures Matches(v.remoteJid, v.pushName, asked.filter) {
      var i :| 0 <= i < |values| && values[i] == v;
      assert ValueOf(items[i]) == v;
    }
    OneMoreAnswer(before, key, StoredList(values, now, asked));
  }

  /** Other requests use the cache, for any queries and with any answers to them, as time goes on. */
  method Others(cache: Cache)
    requires cache.Valid() && Answered(cache.stored)
    modifies cache
    ensures cache.Valid() && Answered(cache.stored) && old(cache.clock) <= cache.clock
    ensures fresh(cache.Repr - old(cache.Repr))
  {
    var n :| n >= 0;
    for i := 0 to n
      invariant cache.Valid() && Answered(cache.stored) && old(cache.clock) <= cache.clock
      invariant fresh(cache.Repr - old(cache.Repr))
    {
      assert '\0' !in "";
      var tenant: Id :| '\0' !in tenant;
      var instance: Id :| '\0' !in instance;
      var input: Request, reason: string, which: int := *, *, *;
      var filter := Normalize(input).GetOr(Filter("", ""));
      var items: array?<Chat> :| true;
      var now :| now >= cache.clock;
      var key := CacheKey(tenant, instance, filter);
      if which == 0 {
        var r := cache.Fresh(key, now);
      } else if which == 1 {
        var r := cache.Throttled(key, now);
      } else if which == 2 {
        var r := cache.Stale(key, now, reason);
      } else if which == 3 {
        var ok := cache.BeginLiveAttempt(key, now);
      } else if items != null && Normalize(input).Some? && AllMatch(items, filter) {
        var r := StoreAnswer(cache, key, items, now, Query(tenant, instance, filter));
      }
    }
  }

  /** What the live bridge does with a query: it may be missing, answer or fail. */
  datatype Bridge = Unavailable | Responds(items: array<Chat>) | Fails(reason: string)

  datatype SearchError = InvalidFilter | ThrottledError | BridgeError

  /**
   An answer is the list stored last under the key: the live one just stored, or one at most freshTTL old, or one
   marked stale and at most staleTTL old; and it shares nothing with the cache.
   */
  ghost predicate GoodAnswer(cache: Cache, key: string, found: SearchResult, bridge: Bridge)
    reads cache, found.items, LabelsOf(found.items)
    reads if bridge.Responds? then {bridge.items} + LabelsOf(bridge.items) else {}
  {
    && key in cache.stored
    && Shows(found.items, cache.stored[key].values)
    && found.items !in cache.Repr && LabelsOf(found.items) !! cache.Repr
    && found.meta.refreshedAt == cache.stored[key].at
    && (!found.meta.cached ==>
          cache.stored[key].at == cache.clock && bridge.Responds? && Shows(bridge.items, cache.stored[key].values))
    && (!found.meta.stale ==> cache.clock <= cache.stored[key].at + cache.freshTTL)
    && (!found.meta.cached ==> found.meta.reason == "")
    && (found.meta.cached && !found.meta.stale ==> found.meta.reason == "fresh_cache")
    && (found.meta.stale ==>
          || found.meta.reason == "live_query_throttled"
          || (bridge.Unavailable? && found.meta.reason == "bridge_unavailable")
          || (bridge.Fails? && found.meta.reason == bridge.reason))
    && cache.clock <= cache.stored[key].at + cache.staleTTL
  }

  /**
   Without an answer, the key was tried live a moment ago, or the bridge gave nothing and the cache has nothing young
   enough.
   */
  ghost predicate GoodError(cache: Cache, key: string, error: SearchError, bridge: Bridge)
    reads cache
  {
    && !error.InvalidFilter?
    && (error.ThrottledError? ==> key in cache.attempts && cache.clock - cache.attempts[key] < cache.liveThrottle)
    && (error.BridgeError? ==>
          !bridge.Responds? && (key in cache.stored ==> cache.clock > cache.stored[key].at + cache.staleTTL))
  }

  /** If a list under the key is at most freshTTL old at time now, it is the answer, and marked as cached. */
  ghost predicate ServesFresh(stored: map<string, StoredList>, freshTTL: int, key: string, now: int,
                              r: Result<SearchResult, SearchError>)
    reads if r.Ok? then {r.value.items} + LabelsOf(r.value.items) else {}
  {
    key in stored && now <= stored[key].at + freshTTL ==>
      r.Ok? && r.value.meta.cached && !r.value.meta.stale && Shows(r.value.items, stored[key].values)
  }

  /**
   SearchChats, for an instance that was resolved, whose first lookup is made at time now. A list that is fresh then
   is served. Unless the filter is ambiguous, every record of an answer matches it, whoever caused the list to be
   stored.
   */
  method SearchChats(cache: Cache, tenant: Id, instance: Id, input: Request, bridge: Bridge, now: int)
      returns (r: Result<SearchResult, SearchError>)
    requires cache.Valid() && Answered(cache.stored) && cache.clock <= now
    requires bridge.Responds? && Normalize(input).Some? ==> AllMatch(bridge.items, Normalize(input).value)
    modifies cache
    ensures r.Ok? && Normalize(input).Some? && !Ambiguous(Normalize(input).value) ==>
      AllMatch(r.value.items, Normalize(input).value)
    ensures cache.Valid() && Answered(cache.stored) && fresh(cache.Repr - old(cache.Repr))
    ensures Normalize(input).None? ==> r == Err(InvalidFilter)
    ensures Normalize(input).Some? ==>
      ServesFresh(old(cache.stored), cache.freshTTL, CacheKey(tenant, instance, Normalize(input).value), now, r)
    ensures Normalize(input).Some? && r.Ok? ==>
      GoodAnswer(cache, CacheKey(tenant, instance, Normalize(input).value), r.value, bridge)
    ensures Normalize(input).Some? && r.Err? ==>
      GoodError(cache, CacheKey(tenant, instance, Normalize(input).value), r.error, bridge)
  {
    var filter := Normalize(input);
    if filter.None? {
      return Err(InvalidFilter);
    }
    r := SearchKey(cache, CacheKey(tenant, instance, filter.value), bridge, now, Query(tenant, instance, filter.value));
    if r.Ok? && !Ambiguous(filter.value) {
      AnswersAsker(cache.stored, Query(tenant, instance, filter.value));
    }
  }

  /** The bridge answers this query, which has this key. */
  ghost predicate Serves(bridge: Bridge, key: string, asked: Query)
    reads if bridge.Responds? then {bridge.items} else {}
  {
    key == asked.Key() && Normalized(asked.filter) && (bridge.Responds? ==> AllMatch(bridge.items, asked.filter))
  }

  method SearchKey(cache: Cache, key: string, bridge: Bridge, now: int, ghost asked: Query)
      returns (r: Result<SearchResult, SearchError>)
    requires cache.Valid() && Answered(cache.stored) && Serves(bridge, key, asked) && cache.clock <= now
    modifies cache
    ensures ServesFresh(old(cache.stored), cache.freshTTL, key, now, r)
    ensures cache.Valid() && Answered(cache.stored) && fresh(cache.Repr - old(cache.Repr))
    ensures r.Ok? ==> GoodAnswer(cache, key, r.value, bridge)
    ensures r.Err? ==> GoodError(cache, key, r.error, bridge)
  {
    var cached := AskCache(cache, key, now, bridge);
    if cached.Some? {
      return Ok(cached.value);
    }
    r := AskLive(cache, key, bridge, asked);
  }

  /** The two lookups that come before a live attempt. */
  method AskCache(cache: Cache, key: string, now: int, ghost bridge: Bridge) returns (cached: Option<SearchResult>)
    requires cache.Valid() && Answered(cache.stored) && cache.clock <= now
    modifies cache
    ensures key in old(cache.stored) && now <= old(cache.stored)[key].at + cache.freshTTL ==>
      cached.Some? && ServesFresh(old(cache.stored), cache.freshTTL, key, now, Ok(cached.value))
    ensures cache.Valid() && Answered(cache.stored) && fresh(cache.Repr - old(cache.Repr))
    ensures cached.Some? ==> GoodAnswer(cache, key, cached.value, bridge)
  {
    cached := cache.Fresh(key, now);
    if cached.None? {
      Others(cache);
      var later :| later >= cache.clock;
      cached := cache.Throttled(key, later);
    }
  }

  /** beginLiveAttempt, a little later. */
  method Attempt(cache: Cache, key: string) returns (ok: bool)
    requires cache.Valid() && Answered(cache.stored)
    modifies cache
    ensures cache.Valid() && Answered(cache.stored) && fresh(cache.Repr - old(cache.Repr))
    ensures !ok ==> key in cache.attempts && cache.clock - cache.attempts[key] < cache.liveThrottle
  {
    Others(cache);
    var now :| now >= cache.clock;
    ok := cache.BeginLiveAttempt(key, now);
  }

  method AskLive(cache: Cache, key: string, bridge: Bridge, ghost asked: Query)
      returns (r: Result<SearchResult, SearchError>)
    requires cache.Valid() && Answered(cache.stored) && Serves(bridge, key, asked)
    modifies cache
    ensures cache.Valid() && Answered(cache.stored) && fresh(cache.Repr - old(cache.Repr))
    ensures r.Ok? ==> GoodAnswer(cache, key, r.value, bridge)
    ensures r.Err? ==> GoodError(cache, key, r.error, bridge)
  {
    var ok := Attempt(cache, key);
    if !ok {
      return Err(ThrottledError);
    }
    r := AskBridge(cache, key, bridge, asked);
  }

  /** The part of SearchChats after the live attempt was granted. */
  method AskBridge(cache: Cache, key: string, bridge: Bridge, ghost asked: Query)
      returns (r: Result<SearchResult, SearchError>)
    requires cache.Valid() && Answered(cache.stored) && Serves(bridge, key, asked)
    modifies cache
    ensures cache.Valid() && Answered(cache.stored) && fresh(cache.Repr - old(cache.Repr))
    ensures bridge.Responds? ==> r.Ok? && !r.value.meta.cached
    ensures r.Ok? ==> GoodAnswer(cache, key, r.value, bridge)
    ensures r.Err? ==> GoodError(cache, key, r.error, bridge)
  {
    Others(cache);
    var now :| now >= cache.clock;
    if bridge.Responds? {
      var result := StoreAnswer(cache, key, bridge.items, now, asked);
      return Ok(result);
    }
    var cached := cache.Stale(key, now, if bridge.Unavailable? then "bridge_unavailable" else bridge.reason);
    r := if cached.Some? then Ok(cached.value) else Err(BridgeError);
  }

  /** A write of a caller into a list that it was given: a whole record, or one label of a record. */
  datatype Write = PutChat(i: nat, chat: Chat) | PutLabel(i: nat, j: nat, text: string)

  ghost function LabelsIn(writes: seq<Write>): set<object> {
    set w | w in writes && w.PutChat? && w.chat.labels != null :: w.chat.labels
  }

  method Scribble(items: array<Chat>, write: Write)
    modifies items, LabelsOf(items)
    ensures LabelsOf(items) <= old(LabelsOf(items)) + LabelsIn([write])
  {
    match write {
      case PutChat(i, chat) =>
        if i < items.Length {
          items[i] := chat;
          assert write in [write];
        }
      case PutLabel(i, j, text) =>
        if i < items.Length {
          var labels := items[i].labels;
          if labels != null && j < labels.Length {
            assert labels in LabelsOf(items);
            labels[j] := text;
          }
        }
    }
  }

  method ScribbleAll(items: array<Chat>, writes: seq<Write>)
    modifies items, LabelsOf(items), LabelsIn(writes)
  {
    for k := 0 to |writes|
      invariant LabelsOf(items) <= old(LabelsOf(items)) + LabelsIn(writes)
    {
      assert LabelsIn([writes[k]]) <= LabelsIn(writes);
      Scribble(items, writes[k]);
    }
  }

  /**
   Whatever a caller writes into a list that shares nothing with the cache, as every answer does, into the labels
   there and into those of the records that it puts there: the next answer is still the list stored last.
   */
  method MutationIsHarmless(cache: Cache, given: array<Chat>, writes: seq<Write>, key: string, now: int)
      returns (next: Option<SearchResult>)
    requires cache.Valid() && cache.clock <= now
    requires given !in cache.Repr && LabelsOf(given) !! cache.Repr && LabelsIn(writes) !! cache.Repr
    modifies cache`clock, given, LabelsOf(given), LabelsIn(writes)
    ensures cache.Valid()
    ensures next.Some? <==> key in cache.stored && now <= cache.stored[key].at + cache.freshTTL
    ensures next.Some? ==> Shows(next.value.items, cache.stored[key].values)
  {
    ScribbleAll(given, writes);
    next := cache.Fresh(key, now);
  }
}
