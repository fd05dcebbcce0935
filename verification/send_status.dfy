/**
 The in-memory registry of single sends (package sendstatus): merging of status
 reports, receipts, and its agreement with the recipient rows of a broadcast.
 */
module SendStatus {
  import opened Wrappers
  import Recipients
  import Text

  datatype JobStatus = JobStatus(
    jobId: string,
    instanceId: string,
    instanceName: string,
    reference: string,
    number: string,
    text: string,
    status: string,
    error: string,
    messageId: string,
    serverId: int,
    queuedAt: int, // 0 is Go's zero time
    startedAt: Option<int>,
    finishedAt: Option<int>,
    deliveredAt: Option<int>,
    readAt: Option<int>,
    deliveryConfirmed: bool)
  {
    /** DeliveryStatus: the strongest receipt, or else the reported status. */
    function DeliveryStatus(): string {
      if readAt.Some? then "read" else if deliveredAt.Some? then "delivered" else status
    }
  }

  function OrElse<T>(incoming: Option<T>, existing: Option<T>): Option<T> {
    if incoming.None? then existing else incoming
  }

  function NonEmpty(incoming: string, existing: string): string {
    if incoming == "" then existing else incoming
  }

  /** mergeStatus. */
  function MergeStatus(existing: JobStatus, incoming: JobStatus): JobStatus {
    incoming.(
      reference := NonEmpty(incoming.reference, existing.reference),
      number := NonEmpty(incoming.number, existing.number),
      text := NonEmpty(incoming.text, existing.text),
      messageId := NonEmpty(incoming.messageId, existing.messageId),
      serverId := if incoming.serverId == 0 then existing.serverId else incoming.serverId,
      queuedAt := if incoming.queuedAt == 0 then existing.queuedAt else incoming.queuedAt,
      startedAt := OrElse(incoming.startedAt, existing.startedAt),
      finishedAt := OrElse(incoming.finishedAt, existing.finishedAt),
      deliveredAt := OrElse(incoming.deliveredAt, existing.deliveredAt),
      readAt := OrElse(incoming.readAt, existing.readAt),
      deliveryConfirmed := incoming.deliveryConfirmed || existing.deliveryConfirmed)
  }

  /** What MarkReceipt does to the status that it finds. */
  function Received(job: JobStatus, kind: Recipients.ReceiptKind, at: int): JobStatus {
    match kind
    case DeliveredReceipt => job.(deliveredAt := Some(Recipients.Later(job.deliveredAt, at)), deliveryConfirmed := true)
    case ReadReceipt =>
      job.(deliveredAt := Some(Recipients.Later(job.deliveredAt, at)), readAt := Some(Recipients.Later(job.readAt, at)),
           deliveryConfirmed := true)
    case OtherReceipt => job
  }

  /**
   What a receipt makes of a status, by the name of its state: both set the delivery time, only "read" sets the read
   time, and each keeps the latest.
   */
  predicate Marks(before: JobStatus, name: string, at: int, after: JobStatus) {
    && after == before.(deliveredAt := after.deliveredAt, readAt := after.readAt, deliveryConfirmed := true)
    && Recipients.Noted(before.deliveredAt, at, after.deliveredAt)
    && (name == "read" ==> Recipients.Noted(before.readAt, at, after.readAt))
    && (name == "delivered" ==> after.readAt == before.readAt)
  }

  function ReceivedAll(job: JobStatus, rs: seq<Recipients.Receipt>): JobStatus
    decreases |rs|
  {
    if rs == [] then job
    else Received(ReceivedAll(job, rs[..|rs| - 1]), rs[|rs| - 1].kind, rs[|rs| - 1].at)
  }

  /** The registry's entry and the broadcast's row tell the same story. */
  ghost predicate SameStory(job: JobStatus, row: Recipients.Row) {
    && job.status == "sent"
    && row.status.Confirmed() && Recipients.RowOk(row)
    && job.readAt == row.readAt
    && (job.deliveredAt.Some? <==> row.deliveredAt.Some?)
    && (row.deliveredAt.Some? ==> row.deliveredAt.value <= job.deliveredAt.value)
    && (job.deliveryConfirmed <==> !row.status.Sent?)
  }

  lemma OneReceiptAgrees(job: JobStatus, row: Recipients.Row, r: Recipients.Receipt)
    requires SameStory(job, row) && Recipients.Addresses(r, row)
    ensures SameStory(Received(job, r.kind, r.at), Recipients.ApplyReceipt(row, r))
  {
  }

  /**
   Fed the same receipts in the same order, the registry and the recipient row agree on delivery status and read time.
   (On the delivery time they need not: the row keeps the first, the registry the latest.)
   */
  lemma {:induction false} TrackersAgree(job: JobStatus, row: Recipients.Row, rs: seq<Recipients.Receipt>)
    requires job.status == "sent" && job.deliveredAt == None && job.readAt == None && !job.deliveryConfirmed
    requires Recipients.RowOk(row) && row.status.Sent? && Recipients.AllFor(rs, row)
    ensures var job', row' := ReceivedAll(job, rs), Recipients.ApplyReceipts(row, rs);
      && SameStory(job', row')
      && (job'.DeliveryStatus() == "read" <==> row'.status.Read?)
      && (job'.DeliveryStatus() == "delivered" <==> row'.status.Delivered?)
      && (job'.DeliveryStatus() == "sent" <==> row'.status.Sent?)
      && job'.readAt == row'.readAt
    decreases |rs|
  {
    if rs != [] {
      var front, last := rs[..|rs| - 1], rs[|rs| - 1];
      assert forall r <- front :: r in rs;
      assert last in rs;
      TrackersAgree(job, row, front);
      Recipients.ReceiptsOutcome(row, front);
      OneReceiptAgrees(ReceivedAll(job, front), Recipients.ApplyReceipts(row, front), last);
    }
  }

  /** Hence the registry is as indifferent to the order of receipts as the rows are. */
  lemma RegistryOrderIndependent(job: JobStatus, row: Recipients.Row, rs: seq<Recipients.Receipt>,
                                 rs': seq<Recipients.Receipt>)
    requires job.status == "sent" && job.deliveredAt == None && job.readAt == None && !job.deliveryConfirmed
    requires Recipients.RowOk(row) && row.status.Sent? && Recipients.AllFor(rs, row) && multiset(rs) == multiset(rs')
    ensures ReceivedAll(job, rs).DeliveryStatus() == ReceivedAll(job, rs').DeliveryStatus()
    ensures ReceivedAll(job, rs).readAt == ReceivedAll(job, rs').readAt
  {
    Recipients.SameMembers(rs, rs');
    TrackersAgree(job, row, rs);
    TrackersAgree(job, row, rs');
    Recipients.ReceiptsOrderIndependent(row, rs, rs');
  }

  /** A status report that knows of no receipts. */
  predicate NoReceipts(job: JobStatus) {
    job.deliveredAt == None && job.readAt == None && !job.deliveryConfirmed
  }

  lemma MergeCommutesOnce(existing: JobStatus, incoming: JobStatus, kind: Recipients.ReceiptKind, at: int)
    requires NoReceipts(incoming)
    ensures MergeStatus(Received(existing, kind, at), incoming) == Received(MergeStatus(existing, incoming), kind, at)
  {
  }

  /** Such a report may come before, between or after the receipts: the outcome is the same, and no receipt is lost. */
  lemma {:induction false} MergeCommutes(existing: JobStatus, incoming: JobStatus, rs: seq<Recipients.Receipt>)
    requires NoReceipts(incoming)
    ensures MergeStatus(ReceivedAll(existing, rs), incoming) == ReceivedAll(MergeStatus(existing, incoming), rs)
    ensures var merged := MergeStatus(ReceivedAll(existing, rs), incoming);
      && merged.deliveredAt == ReceivedAll(existing, rs).deliveredAt
      && merged.readAt == ReceivedAll(existing, rs).readAt
      && merged.deliveryConfirmed == ReceivedAll(existing, rs).deliveryConfirmed
    decreases |rs|
  {
    if rs != [] {
      var front, last := rs[..|rs| - 1], rs[|rs| - 1];
      MergeCommutes(existing, incoming, front);
      MergeCommutesOnce(ReceivedAll(existing, front), incoming, last.kind, last.at);
    }
  }

  // ------------------------------------------------------ reports of one job

  datatype TextColumn = Reference | Number | Content | MessageId

  function TextOf(job: JobStatus, column: TextColumn): string {
    match column
    case Reference => job.reference
    case Number => job.number
    case Content => job.text
    case MessageId => job.messageId
  }

  datatype TimeColumn = StartedAt | FinishedAt | DeliveredAt | ReadAt

  function TimeOf(job: JobStatus, column: TimeColumn): Option<int> {
    match column
    case StartedAt => job.startedAt
    case FinishedAt => job.finishedAt
    case DeliveredAt => job.deliveredAt
    case ReadAt => job.readAt
  }

  /** The last of the values that is not blank, or blank if all are. */
  predicate IsLastGiven<T(==)>(values: seq<T>, blank: T, v: T) {
    if v == blank then forall i :: 0 <= i < |values| ==> values[i] == blank
    else exists i :: 0 <= i < |values| && values[i] == v && forall j :: i < j < |values| ==> values[j] == blank
  }

  lemma LastGivenSnoc<T>(values: seq<T>, blank: T, v: T, next: T)
    requires IsLastGiven(values, blank, v)
    ensures IsLastGiven(values + [next], blank, if next == blank then v else next)
  {
    var all := values + [next];
    if next == blank {
      if v != blank {
        var i :| 0 <= i < |values| && values[i] == v && forall j :: i < j < |values| ==> values[j] == blank;
        assert all[i] == v && forall j :: i < j < |all| ==> all[j] == blank;
      }
    } else {
      assert all[|values|] == next;
    }
  }

  function Texts(reports: seq<JobStatus>, column: TextColumn): seq<string> {
    seq(|reports|, i requires 0 <= i < |reports| => TextOf(reports[i], column))
  }

  function Times(reports: seq<JobStatus>, column: TimeColumn): seq<Option<int>> {
    seq(|reports|, i requires 0 <= i < |reports| => TimeOf(reports[i], column))
  }

  function ServerIds(reports: seq<JobStatus>): seq<int> {
    seq(|reports|, i requires 0 <= i < |reports| => reports[i].serverId)
  }

  function QueueTimes(reports: seq<JobStatus>): seq<int> {
    seq(|reports|, i requires 0 <= i < |reports| => reports[i].queuedAt)
  }

  /** What Store makes of successive reports for one job. */
  function Merged(reports: seq<JobStatus>): JobStatus
    requires reports != []
    decreases |reports|
  {
    if |reports| == 1 then reports[0]
    else MergeStatus(Merged(reports[..|reports| - 1]), reports[|reports| - 1])
  }

  /**
   After any number of reports a job has the status, error and instance of the last one; of every other column it has
   the last value that was given at all; and its delivery is confirmed if any report said so.
   */
  ghost predicate LastReportsWin(reports: seq<JobStatus>, merged: JobStatus)
    requires reports != []
  {
    var last := reports[|reports| - 1];
    && merged.jobId == last.jobId && merged.status == last.status && merged.error == last.error
    && merged.instanceId == last.instanceId && merged.instanceName == last.instanceName
    && (forall column :: IsLastGiven(Texts(reports, column), "", TextOf(merged, column)))
    && (forall column :: IsLastGiven(Times(reports, column), None, TimeOf(merged, column)))
    && IsLastGiven(ServerIds(reports), 0, merged.serverId) && IsLastGiven(QueueTimes(reports), 0, merged.queuedAt)
    && (merged.deliveryConfirmed <==> exists r <- reports :: r.deliveryConfirmed)
  }

  lemma {:induction false} ReportsOutcome(reports: seq<JobStatus>)
    requires reports != []
    ensures LastReportsWin(reports, Merged(reports))
    decreases |reports|
  {
    var front, last := reports[..|reports| - 1], reports[|reports| - 1];
    if front != [] {
      ReportsOutcome(front);
      OneMoreReport(front, Merged(front), last);
      assert reports == front + [last];
    } else {
      assert reports == [last];
      FirstReport(last);
    }
  }

  lemma OneGiven<T>(blank: T, v: T)
    ensures IsLastGiven([v], blank, v)
  {
    assert [v][0] == v;
  }

  lemma FirstReport(report: JobStatus)
    ensures LastReportsWin([report], report)
  {
    forall column ensures IsLastGiven(Texts([report], column), "", TextOf(report, column)) {
      assert Texts([report], column) == [TextOf(report, column)];
      OneGiven("", TextOf(report, column));
    }
    forall column ensures IsLastGiven(Times([report], column), None, TimeOf(report, column)) {
      assert Times([report], column) == [TimeOf(report, column)];
      OneGiven(None, TimeOf(report, column));
    }
    assert ServerIds([report]) == [report.serverId] && QueueTimes([report]) == [report.queuedAt];
    OneGiven(0, report.serverId);
    OneGiven(0, report.queuedAt);
  }

  lemma OneMoreText(reports: seq<JobStatus>, merged: JobStatus, next: JobStatus, column: TextColumn)
    requires IsLastGiven(Texts(reports, column), "", TextOf(merged, column))
    ensures IsLastGiven(Texts(reports + [next], column), "", TextOf(MergeStatus(merged, next), column))
  {
    assert Texts(reports + [next], column) == Texts(reports, column) + [TextOf(next, column)];
    LastGivenSnoc(Texts(reports, column), "", TextOf(merged, column), TextOf(next, column));
  }

  lemma OneMoreTime(reports: seq<JobStatus>, merged: JobStatus, next: JobStatus, column: TimeColumn)
    requires IsLastGiven(Times(reports, column), None, TimeOf(merged, column))
    ensures IsLastGiven(Times(reports + [next], column), None, TimeOf(MergeStatus(merged, next), column))
  {
    assert Times(reports + [next], column) == Times(reports, column) + [TimeOf(next, column)];
    LastGivenSnoc(Times(reports, column), None, TimeOf(merged, column), TimeOf(next, column));
  }

  lemma OneMoreNumber(reports: seq<JobStatus>, merged: JobStatus, next: JobStatus)
    requires IsLastGiven(ServerIds(reports), 0, merged.serverId) && IsLastGiven(QueueTimes(reports), 0, merged.queuedAt)
    ensures var all, merged' := reports + [next], MergeStatus(merged, next);
      IsLastGiven(ServerIds(all), 0, merged'.serverId) && IsLastGiven(QueueTimes(all), 0, merged'.queuedAt)
  {
    assert ServerIds(reports + [next]) == ServerIds(reports) + [next.serverId];
    LastGivenSnoc(ServerIds(reports), 0, merged.serverId, next.serverId);
    assert QueueTimes(reports + [next]) == QueueTimes(reports) + [next.queuedAt];
    LastGivenSnoc(QueueTimes(reports), 0, merged.queuedAt, next.queuedAt);
  }

  lemma OneMoreReport(reports: seq<JobStatus>, merged: JobStatus, next: JobStatus)
    requires reports != [] && LastReportsWin(reports, merged)
    ensures LastReportsWin(reports + [next], MergeStatus(merged, next))
  {
    forall column
      ensures IsLastGiven(Texts(reports + [next], column), "", TextOf(MergeStatus(merged, next), column))
    {
      OneMoreText(reports, merged, next, column);
    }
    forall column
      ensures IsLastGiven(Times(reports + [next], column), None, TimeOf(MergeStatus(merged, next), column))
    {
      OneMoreTime(reports, merged, next, column);
    }
    OneMoreNumber(reports, merged, next);
    assert forall r :: r in reports + [next] <==> r in reports || r == next;
  }

  // ---------------------------------------------------------------- registry

  function Key(a: string, b: string): string {
    a + ['|'] + b
  }

  /** tenantJobKey and instanceMessageKey tell their parts apart when the first holds no bar. */
  lemma KeyIsInjective(a: string, b: string, a': string, b': string)
    requires '|' !in a && '|' !in a'
    ensures Key(a, b) == Key(a', b') <==> a == a' && b == b'
  {
    if Key(a, b) == Key(a', b') {
      Text.CutIsUnique(a, b, a', b', '|');
    }
  }

  lemma BarsCollide()
    ensures Key("a|b", "c") == Key("a", "b|c")
  {
  }

  /**
   And only then: no other pair whose first part is free of bars has the key if and only if its own first part is, and
   no other pair at all has it if and only if neither part holds a bar.
   */
  lemma KeyIsUniqueExactly(a: string, b: string)
    ensures (forall a', b' :: '|' !in a' && Key(a, b) == Key(a', b') ==> a == a' && b == b') <==> '|' !in a
    ensures (forall a', b' :: Key(a, b) == Key(a', b') ==> a == a' && b == b') <==> '|' !in a && '|' !in b
  {
    AmongBarFree(a, b);
    if '|' in b {
      var head, rest := CutAtBar(b);
      assert Key(a, b) == Key(a + ['|'] + head, rest);
      assert rest != b;
    } else if '|' !in a {
      forall a', b' | Key(a, b) == Key(a', b') ensures a == a' && b == b' {
        assert Key(a', b')[|a'|] == '|' && Key(a, b)[|a'|] == '|';
        assert |a'| == |a|;
        assert a == Key(a, b)[..|a|] && a' == Key(a', b')[..|a|];
        assert b == Key(a, b)[|a| + 1..] && b' == Key(a', b')[|a| + 1..];
      }
    }
  }

  lemma AmongBarFree(a: string, b: string)
    ensures (forall a', b' :: '|' !in a' && Key(a, b) == Key(a', b') ==> a == a' && b == b') <==> '|' !in a
  {
    if '|' in a {
      var head, rest := CutAtBar(a);
      assert Key(a, b) == Key(head, rest + ['|'] + b);
    } else {
      forall a', b' | '|' !in a' && Key(a, b) == Key(a', b') ensures a == a' && b == b' {
        KeyIsInjective(a, b, a', b');
      }
    }
  }

  /** The part of a text before its first bar, and the part after it. */
  lemma {:induction false} CutAtBar(s: string) returns (head: string, rest: string)
    requires '|' in s
    ensures '|' !in head && s == head + ['|'] + rest && |rest| < |s|
    decreases |s|
  {
    if s[0] == '|' {
      head, rest := "", s[1..];
    } else {
      assert s == [s[0]] + s[1..];
      head, rest := CutAtBar(s[1..]);
      head := [s[0]] + head;
    }
  }

  datatype Record = Record(tenantId: string, status: JobStatus)

  class Registry {
    var jobs: map<string, Record>
    var messageIndex: map<string, string>

    /** The index leads to jobs. */
    ghost predicate Valid()
      reads this
    {
      forall k <- messageIndex :: messageIndex[k] in jobs
    }

    constructor ()
      ensures Valid() && jobs == map[] && messageIndex == map[]
    {
      jobs, messageIndex := map[], map[];
    }

    /** Store: a report for a known job is merged into what is known. */
    method Store(tenantId: string, report: JobStatus)
      requires Valid()
      modifies this
      ensures Valid()
      ensures var key := Key(tenantId, report.jobId);
        var status := if key in old(jobs) then MergeStatus(old(jobs)[key].status, report) else report;
        && jobs == old(jobs)[key := Record(tenantId, status)]
        && messageIndex == if status.instanceId != "" && status.messageId != ""
             then old(messageIndex)[Key(status.instanceId, status.messageId) := key] else old(messageIndex)
    {
      var key, status := Key(tenantId, report.jobId), report;
      if key in jobs {
        status := MergeStatus(jobs[key].status, status);
      }
      jobs := jobs[key := Record(tenantId, status)];
      if status.instanceId != "" && status.messageId != "" {
        messageIndex := messageIndex[Key(status.instanceId, status.messageId) := key];
      }
    }

    method Load(tenantId: string, jobId: string) returns (status: Option<JobStatus>)
      ensures status == if Key(tenantId, jobId) in jobs then Some(jobs[Key(tenantId, jobId)].status) else None
    {
      var key := Key(tenantId, jobId);
      status := if key in jobs then Some(jobs[key].status) else None;
    }

    /** MarkReceipt: reaches exactly the job that the message was stored for last. */
    method MarkReceipt(instanceId: string, messageId: string, state: string, at: int) returns (marked: bool)
      requires Valid()
      modifies this`jobs
      ensures Valid()
      ensures var name := Text.Lower(Text.Trim(state));
        marked <==> Key(instanceId, messageId) in messageIndex && (name == "delivered" || name == "read")
      ensures !marked ==> jobs == old(jobs)
      ensures marked ==> var key := messageIndex[Key(instanceId, messageId)];
        && key in old(jobs) && jobs == old(jobs)[key := old(jobs)[key].(status := jobs[key].status)]
        && Marks(old(jobs)[key].status, Text.Lower(Text.Trim(state)), at, jobs[key].status)
      ensures marked ==> (
        var key := messageIndex[Key(instanceId, messageId)];
        key in old(jobs) &&
        jobs == old(jobs)[key := old(jobs)[key].(
          status := Received(old(jobs)[key].status, Recipients.KindOf(state), at))])
    {
      var index := Key(instanceId, messageId);
      if index !in messageIndex {
        return false;
      }
      var key := messageIndex[index];
      var record := jobs[key];
      var updated := record.status;
      match Recipients.KindOf(state) {
        case DeliveredReceipt =>
          if updated.deliveredAt.None? || at > updated.deliveredAt.value {
            updated := updated.(deliveredAt := Some(at));
          }
          updated := updated.(deliveryConfirmed := true);
        case ReadReceipt =>
          if updated.deliveredAt.None? || at > updated.deliveredAt.value {
            updated := updated.(deliveredAt := Some(at));
          }
          if updated.readAt.None? || at > updated.readAt.value {
            updated := updated.(readAt := Some(at));
          }
          updated := updated.(deliveryConfirmed := true);
        case OtherReceipt =>
          return false;
      }
      jobs := jobs[key := record.(status := updated)];
      marked := true;
    }
  }

  /** A receipt as it reaches MarkReceipt for one message: the state that it reports, and its time. */
  datatype Mark = Mark(state: string, at: int)

  function Receipts(tenantId: string, instanceId: string, messageId: string,
                    marks: seq<Mark>): seq<Recipients.Receipt> {
    seq(|marks|, i requires 0 <= i < |marks| =>
      Recipients.NormalizeReceipt(tenantId, instanceId, messageId, marks[i].state, marks[i].at))
  }

  /**
   The life of a send: a report is stored, receipts for its message arrive, a second report that knows of no receipts
   is stored, and the status is loaded. It is the merged reports with every receipt applied: none went astray or was
   lost.
   */
  method ReportReceiveReport(registry: Registry, tenantId: string, first: JobStatus, marks: seq<Mark>,
                             second: JobStatus)
      returns (status: Option<JobStatus>)
    requires registry.Valid() && second.jobId == first.jobId && NoReceipts(second)
    requires first.instanceId != "" && first.messageId != ""
    modifies registry
    ensures registry.Valid()
    ensures var key := Key(tenantId, first.jobId);
      var known := if key in old(registry.jobs) then MergeStatus(old(registry.jobs)[key].status, first) else first;
      status == Some(ReceivedAll(MergeStatus(known, second),
                                 Receipts(tenantId, first.instanceId, first.messageId, marks)))
  {
    registry.Store(tenantId, first);
    ghost var known := registry.jobs[Key(tenantId, first.jobId)].status;
    MarkAll(registry, Key(tenantId, first.jobId), tenantId, first.instanceId, first.messageId, marks);
    MergeCommutes(known, second, Receipts(tenantId, first.instanceId, first.messageId, marks));
    registry.Store(tenantId, second);
    status := registry.Load(tenantId, first.jobId);
  }

  /** Receipts for a message that leads to this job. */
  method MarkAll(registry: Registry, key: string, tenantId: string, instanceId: string, messageId: string,
                 marks: seq<Mark>)
    requires registry.Valid() && Key(instanceId, messageId) in registry.messageIndex
    requires registry.messageIndex[Key(instanceId, messageId)] == key
    modifies registry`jobs
    ensures registry.Valid() && key in registry.jobs && key in old(registry.jobs)
    ensures registry.jobs[key].status
         == ReceivedAll(old(registry.jobs)[key].status, Receipts(tenantId, instanceId, messageId, marks))
  {
    ghost var known := registry.jobs[key].status;
    for i := 0 to |marks|
      invariant registry.Valid() && key in registry.jobs
      invariant registry.jobs[key].status == ReceivedAll(known, Receipts(tenantId, instanceId, messageId, marks[..i]))
    {
      var marked := registry.MarkReceipt(instanceId, messageId, marks[i].state, marks[i].at);
      assert Receipts(tenantId, instanceId, messageId, marks[..i + 1])[..i]
          == Receipts(tenantId, instanceId, messageId, marks[..i]);
    }
    assert marks[..|marks|] == marks;
  }
}
