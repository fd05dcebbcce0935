/** The broadcast repository: the statements that the service runs against its two tables. */
module BroadcastRepository {
  import opened Wrappers
  import opened Recipients
  import opened Delivery
  import opened BroadcastSystem

  /** ORDER BY available_at ASC, created_at ASC. */
  predicate NotLater(a: Job, b: Job) {
    a.availableAt < b.availableAt || (a.availableAt == b.availableAt && a.createdAt <= b.createdAt)
  }

  ghost predicate InClaimOrder(entries: map<JobId, Entry>, ids: seq<JobId>)
    requires forall id <- ids :: id in entries
  {
    forall i, j :: 0 <= i < j < |ids| ==> NotLater(entries[ids[i]].job, entries[ids[j]].job)
  }

  /** The ids that SELECT ... ORDER BY ... LIMIT may return; a limit that is not positive is no limit. */
  ghost predicate Selects(entries: map<JobId, Entry>, ids: seq<JobId>, limit: int, now: int) {
    && Distinct(ids)
    && (forall id <- ids ::
          id in entries && entries[id].job.status == Queued && entries[id].job.availableAt <= now)
    && (forall i, j :: 0 <= i < j < |ids| ==>
          var a, b := entries[ids[i]].job, entries[ids[j]].job;
          a.availableAt <= b.availableAt && (a.availableAt == b.availableAt ==> a.createdAt <= b.createdAt))
    && (limit > 0 ==> |ids| <= limit)
    && (forall k <- entries :: entries[k].job.status == Queued && entries[k].job.availableAt <= now && k !in ids ==>
          limit > 0 && |ids| == limit && forall id <- ids ::
            var a, b := entries[id].job, entries[k].job;
            a.availableAt <= b.availableAt && (a.availableAt == b.availableAt ==> a.createdAt <= b.createdAt))
  }

  /** A claim sets status and attempts of these jobs and nothing else, and returns them as updated. */
  ghost predicate ClaimWrites(before: map<JobId, Entry>, ids: seq<JobId>, after: map<JobId, Entry>, jobs: seq<Job>) {
    && after.Keys == before.Keys && |jobs| == |ids|
    && (forall k <- before :: k !in ids ==> after[k] == before[k])
    && forall i :: 0 <= i < |ids| ==>
         && ids[i] in before && jobs[i] == after[ids[i]].job
         && jobs[i] == before[ids[i]].job.(status := Processing, attempts := before[ids[i]].job.attempts + 1)
         && after[ids[i]] == before[ids[i]].(job := jobs[i])
  }

  lemma ClaimWritten(entries: map<JobId, Entry>, ids: seq<JobId>)
    requires forall id <- ids :: id in entries
    ensures ClaimWrites(entries, ids, ClaimedEntries(entries, ids), ClaimedJobs(entries, ids))
  {
  }

  /** Rows of one broadcast in the order of a listing. */
  function Listing(order: seq<Phone>, rows: map<Phone, Row>): seq<Item>
    requires forall p <- order :: p in rows
  {
    seq(|order|, i requires 0 <= i < |order| => Item(order[i], rows[order[i]]))
  }

  /** WHERE tenant_id = ? AND broadcast_id = ?. */
  function RowsOf(entries: map<JobId, Entry>, tenant: string, id: JobId): map<Phone, Row> {
    if id !in entries then map[]
    else map p | p in entries[id].rows && entries[id].rows[p].tenant == tenant :: entries[id].rows[p]
  }

  predicate StandsIn(entries: map<JobId, Entry>, tenant: string, id: JobId, item: Item) {
    && id in entries && item.phone in entries[id].rows
    && item.row == entries[id].rows[item.phone] && item.row.tenant == tenant
  }

  /** These are the rows of the broadcast that have this tenant: all of them, and each as it stands in the table. */
  predicate ListsExactly(entries: map<JobId, Entry>, tenant: string, id: JobId, progress: seq<Item>) {
    && (forall i :: 0 <= i < |progress| ==> StandsIn(entries, tenant, id, progress[i]))
    && (id in entries ==> forall p <- entries[id].rows :: entries[id].rows[p].tenant == tenant ==>
          exists i :: 0 <= i < |progress| && progress[i].phone == p)
    && forall i, j :: 0 <= i < j < |progress| ==> progress[i].phone != progress[j].phone
  }

  lemma ListingIsExact(entries: map<JobId, Entry>, tenant: string, id: JobId, order: seq<Phone>)
    requires Lists(order, RowsOf(entries, tenant, id))
    ensures ListsExactly(entries, tenant, id, Listing(order, RowsOf(entries, tenant, id)))
  {
    var rows := RowsOf(entries, tenant, id);
    var progress := Listing(order, rows);
    forall i | 0 <= i < |progress| ensures StandsIn(entries, tenant, id, progress[i]) {
      assert order[i] in order && order[i] in rows;
    }
    if id in entries {
      forall p | p in entries[id].rows && entries[id].rows[p].tenant == tenant
        ensures exists i :: 0 <= i < |progress| && progress[i].phone == p
      {
        assert p in rows && p in order;
        var i :| 0 <= i < |order| && order[i] == p;
        assert progress[i].phone == p;
      }
    }
  }

  /** WHERE tenant_id = ? AND id = ?. */
  predicate Matches(entries: map<JobId, Entry>, tenant: string, id: JobId) {
    id in entries && entries[id].job.tenant == tenant
  }

  class Repository {
    var entries: map<JobId, Entry>

    constructor ()
      ensures entries == map[]
    {
      entries := map[];
    }

    /** The due job that comes first among rest. */
    method Earliest(rest: set<JobId>) returns (first: JobId)
      requires rest != {} && rest <= entries.Keys
      ensures first in rest && forall k <- rest :: NotLater(entries[first].job, entries[k].job)
    {
      first :| first in rest;
      var unseen := rest - {first};
      while unseen != {}
        invariant unseen <= rest && first in rest
        invariant forall k <- rest :: k !in unseen ==> NotLater(entries[first].job, entries[k].job)
        decreases unseen
      {
        var k :| k in unseen;
        if !NotLater(entries[first].job, entries[k].job) {
          first := k;
        }
        unseen := unseen - {k};
      }
    }

    /**
     The SELECT of ClaimNext: each queued job that is available, by available_at and then created_at; only the limit
     leaves one out, and then one that comes no earlier than any that is selected.
     */
    method SelectDue(limit: int, now: int) returns (ids: seq<JobId>)
      ensures Selects(entries, ids, limit, now)
    {
      var due := set k | k in entries && Due(entries[k], now);
      var rest := due;
      ids := [];
      while rest != {} && (limit <= 0 || |ids| < limit)
        invariant rest <= due
        invariant forall k <- due :: k in rest <==> k !in ids
        invariant Distinct(ids) && forall id <- ids :: id in due
        invariant InClaimOrder(entries, ids)
        invariant forall id <- ids, k <- rest :: NotLater(entries[id].job, entries[k].job)
        invariant limit > 0 ==> |ids| <= limit
        decreases rest
      {
        var first := Earliest(rest);
        ids := ids + [first];
        rest := rest - {first};
      }
    }

    /** ClaimNext: the selected jobs move to processing with one more attempt, and are returned as updated. */
    method ClaimNext(limit: int, now: int) returns (ids: seq<JobId>, jobs: seq<Job>)
      modifies this
      ensures Selects(old(entries), ids, limit, now)
      ensures entries == ClaimedEntries(old(entries), ids)
      ensures jobs == ClaimedJobs(old(entries), ids)
      ensures ClaimWrites(old(entries), ids, entries, jobs)
    {
      ids := SelectDue(limit, now);
      jobs := [];
      for i := 0 to |ids|
        invariant entries == old(entries)
        invariant |jobs| == i && forall j :: 0 <= j < i ==> jobs[j] == entries[ids[j]].job
      {
        jobs := jobs + [entries[ids[i]].job];
      }
      entries := map k | k in entries :: if k in ids then Claimed(entries[k]) else entries[k];
      for i := 0 to |jobs|
        invariant |jobs| == |ids| && entries == ClaimedEntries(old(entries), ids)
        invariant forall j :: 0 <= j < i ==> jobs[j] == Claimed(old(entries)[ids[j]]).job
        invariant forall j :: i <= j < |jobs| ==> jobs[j] == old(entries)[ids[j]].job
      {
        jobs := jobs[i := jobs[i].(status := Processing, attempts := jobs[i].attempts + 1)];
      }
      assert jobs == ClaimedJobs(old(entries), ids);
      ClaimWritten(old(entries), ids);
    }

    /** SeedRecipientProgress: one insert per record, skipping phones that the broadcast already has; it may fail. */
    method SeedRecipientProgress(job: Job, phones: seq<Phone>, works: bool) returns (save: Save)
      modifies this
      ensures job.id !in old(entries) ==> save.Missed?
      ensures job.id in old(entries) && works ==> save.Saved?
      ensures entries == if save.Applied()
        then old(entries)[job.id := old(entries)[job.id].(rows := Seeded(old(entries)[job.id].rows, phones, job))]
        else old(entries)
    {
      save := *;
      if job.id !in entries {
        save := Missed;
      } else if works {
        save := Saved;
      }
      if save.Applied() {
        var rows := entries[job.id].rows;
        for i := 0 to |phones|
          invariant entries == old(entries)
          invariant rows == Seeded(entries[job.id].rows, phones[..i], job)
        {
          SeededSnoc(entries[job.id].rows, phones, i, job);
          if phones[i] !in rows {
            rows := rows[phones[i] := SeedRow(job.tenant, job.instance)];
          }
        }
        assert phones[..|phones|] == phones;
        entries := entries[job.id := entries[job.id].(rows := rows)];
      }
    }

    /** SaveRecipientProgress: insert the row, or overwrite the one under the same phone; it may fail. */
    method SaveRecipientProgress(id: JobId, item: Item, works: bool) returns (save: Save)
      modifies this
      ensures id !in old(entries) ==> save.Missed?
      ensures id in old(entries) && works ==> save.Saved?
      ensures entries == if id in old(entries)
        then old(entries)[id := Put(old(entries)[id], item.phone, item.row, save)] else old(entries)
      ensures save.Applied() ==>
        id in entries && entries[id].rows == old(entries)[id].rows[item.phone := item.row]
    {
      save := *;
      if id !in entries {
        save := Missed;
      } else if works {
        save := Saved;
      }
      if save.Applied() {
        entries := entries[id := entries[id].(rows := entries[id].rows[item.phone := item.row])];
      }
    }

    /** ListRecipientProgress: every row of the broadcast and tenant once, in some order. */
    method ListRecipientProgress(tenant: string, id: JobId) returns (order: seq<Phone>, progress: seq<Item>)
      ensures Lists(order, RowsOf(entries, tenant, id)) && progress == Listing(order, RowsOf(entries, tenant, id))
      ensures ListsExactly(entries, tenant, id, progress)
    {
      var rows := RowsOf(entries, tenant, id);
      var rest := rows.Keys;
      order, progress := [], [];
      while rest != {}
        invariant rest <= rows.Keys && Distinct(order)
        invariant forall p <- order :: p in rows
        invariant forall p <- rows :: p in order <==> p !in rest
        invariant progress == Listing(order, rows)
        decreases rest
      {
        var p :| p in rest;
        order, progress := order + [p], progress + [Item(p, rows[p])];
        rest := rest - {p};
      }
      ListingIsExact(entries, tenant, id, order);
    }

    /**
     SummarizeRecipientProgress: its counts divide the rows of the broadcast and tenant among sent, failed and
     pending, and tell whether any has failed or is left.
     */
    method SummarizeRecipientProgress(tenant: string, id: JobId) returns (summary: Summary)
      ensures summary == Summarize(RowsOf(entries, tenant, id))
      ensures summary.total == |RowsOf(entries, tenant, id)| == summary.sent + summary.failed + summary.pending
      ensures summary.failed > 0 <==>
        exists p <- RowsOf(entries, tenant, id) :: RowsOf(entries, tenant, id)[p].status.Failed?
      ensures summary.pending > 0 <==>
        exists p <- RowsOf(entries, tenant, id) :: RowsOf(entries, tenant, id)[p].status.Pending?
    {
      summary := Summarize(RowsOf(entries, tenant, id));
      StatusesPartition(RowsOf(entries, tenant, id));
      SummaryTells(RowsOf(entries, tenant, id));
    }

    /** MarkRecipientReceipt: updates the addressed rows of every broadcast and says whether there were any. */
    method MarkRecipientReceipt(tenant: string, instance: string, messageId: string, state: string, at: int)
        returns (updated: bool)
      modifies this
      ensures entries == ReceiveAll(old(entries), NormalizeReceipt(tenant, instance, messageId, state, at))
      ensures entries.Keys == old(entries).Keys && forall k <- entries ::
        && entries[k] == old(entries)[k].(rows := entries[k].rows) && entries[k].rows.Keys == old(entries)[k].rows.Keys
        && forall p <- entries[k].rows ::
             ReceiptWrites(old(entries)[k].rows[p], tenant, instance, messageId, state, at, entries[k].rows[p])
      ensures updated <==> exists k, p ::
        k in old(entries) && p in old(entries)[k].rows
        && Reaches(old(entries)[k].rows[p], tenant, instance, messageId, state)
    {
      AllWritten(entries, tenant, instance, messageId, state, at);
      var r := NormalizeReceipt(tenant, instance, messageId, state, at);
      if r.tenant == "" || r.instance == "" || r.messageId == "" || r.kind.OtherReceipt? {
        ReceiveNothing(entries, r);
        return false;
      }
      updated := exists k | k in entries :: exists p | p in entries[k].rows :: Affects(r, entries[k].rows[p]);
      entries := map k | k in entries :: Receive(entries[k], r);
    }

    /** MarkCompleted; an unknown job is an error, as is a failed statement. */
    method MarkCompleted(tenant: string, id: JobId) returns (save: Save)
      modifies this
      ensures id !in old(entries) || old(entries)[id].job.tenant != tenant ==> save.Missed?
      ensures entries == if save.Applied()
        then old(entries)[id := old(entries)[id].(job := old(entries)[id].job.(status := Completed))] else old(entries)
    {
      save := *;
      if !Matches(entries, tenant, id) {
        save := Missed;
      }
      if save.Applied() {
        entries := entries[id := entries[id].(job := entries[id].job.(status := Completed))];
      }
    }

    method MarkCompletedWithFailures(tenant: string, id: JobId) returns (save: Save)
      modifies this
      ensures id !in old(entries) || old(entries)[id].job.tenant != tenant ==> save.Missed?
      ensures entries == if save.Applied()
        then old(entries)[id := old(entries)[id].(job := old(entries)[id].job.(status := CompletedWithFailures))]
        else old(entries)
    {
      save := *;
      if !Matches(entries, tenant, id) {
        save := Missed;
      }
      if save.Applied() {
        entries := entries[id := entries[id].(job := entries[id].job.(status := CompletedWithFailures))];
      }
    }

    /** MarkFailed: back to the queue when a retry time is given, otherwise failed for good. */
    method MarkFailed(tenant: string, id: JobId, retryAt: Option<int>) returns (save: Save)
      modifies this
      ensures id !in old(entries) || old(entries)[id].job.tenant != tenant ==> save.Missed?
      ensures entries == if save.Applied()
        then var job := old(entries)[id].job;
          old(entries)[id := old(entries)[id].(job :=
            if retryAt.Some? then job.(status := Queued, availableAt := retryAt.value) else job.(status := JobFailed))]
        else old(entries)
    {
      save := *;
      if !Matches(entries, tenant, id) {
        save := Missed;
      }
      if save.Applied() {
        var job := entries[id].job;
        if retryAt.Some? {
          job := job.(status := Queued);
          job := job.(availableAt := retryAt.value);
        } else {
          job := job.(status := JobFailed);
        }
        entries := entries[id := entries[id].(job := job)];
      }
    }
  }

  lemma SeededSnoc(rows: map<Phone, Row>, phones: seq<Phone>, i: nat, job: Job)
    requires i < |phones|
    ensures var before := Seeded(rows, phones[..i], job);
      Seeded(rows, phones[..i + 1], job)
      == if phones[i] in before then before else before[phones[i] := SeedRow(job.tenant, job.instance)]
  {
    assert forall p :: p in phones[..i + 1] <==> p in phones[..i] || p == phones[i];
  }

  /** What MarkRecipientReceipt writes, row by row. */
  lemma AllWritten(entries: map<JobId, Entry>, tenant: string, instance: string, messageId: string, state: string,
                   at: int)
    ensures var r := NormalizeReceipt(tenant, instance, messageId, state, at);
      var entries' := ReceiveAll(entries, r);
      && entries'.Keys == entries.Keys
      && (forall k <- entries :: entries'[k] == entries[k].(rows := entries'[k].rows)
            && entries'[k].rows.Keys == entries[k].rows.Keys)
      && forall k <- entries, p <- entries[k].rows ::
           && ReceiptWrites(entries[k].rows[p], tenant, instance, messageId, state, at, entries'[k].rows[p])
           && (Affects(r, entries[k].rows[p]) <==> Reaches(entries[k].rows[p], tenant, instance, messageId, state))
  {
    forall k <- entries, p <- entries[k].rows
      ensures var r := NormalizeReceipt(tenant, instance, messageId, state, at);
        && ReceiptWrites(entries[k].rows[p], tenant, instance, messageId, state, at,
                         ApplyReceipt(entries[k].rows[p], r))
        && (Affects(r, entries[k].rows[p]) <==> Reaches(entries[k].rows[p], tenant, instance, messageId, state))
    {
      ReceiptWritten(entries[k].rows[p], tenant, instance, messageId, state, at);
    }
  }

  lemma ReceiveNothing(entries: map<JobId, Entry>, r: Receipt)
    requires r.tenant == "" || r.instance == "" || r.messageId == "" || r.kind.OtherReceipt?
    ensures entries == ReceiveAll(entries, r)
  {
    forall k <- entries ensures Receive(entries[k], r) == entries[k] {
      assert (map p | p in entries[k].rows :: ApplyReceipt(entries[k].rows[p], r)) == entries[k].rows;
    }
  }
}
