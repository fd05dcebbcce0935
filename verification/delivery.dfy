/**
 One broadcast job, its recipient rows, and the worker that holds it: each
 repository call, SendText call and slot grant is one atomic step. What another
 goroutine may do in between is in module BroadcastSystem.
 */
module Delivery {
  import opened Wrappers
  import opened Recipients
  import Text

  type JobId = string

  const SECOND: int := 1_000_000_000
  const MINUTE: int := 60 * SECOND

  datatype JobStatus = Queued | Processing | Completed | CompletedWithFailures | JobFailed {
    predicate Terminal() {
      Completed? || CompletedWithFailures? || JobFailed?
    }
  }

  datatype Job = Job(
    id: JobId,
    tenant: string,
    instance: string,
    message: string,
    ratePerHour: int,
    status: JobStatus,
    attempts: int,
    maxAttempts: int,
    availableAt: int,
    createdAt: int)

  datatype Contact = Contact(phone: string, instance: string)

  /**
   The job row, the recipient rows under its id (their key is (broadcast_id,
   phone)), whether its Create call has yet to seed its snapshot, and a history
   that no step reads:
   - orphaned: the goroutine holding the job gave it up without marking it;
   - loaded: the phones of the rows when Process last listed them;
   - settled: whether Create had finished seeding by then;
   - inflight: phones with a confirmed answer that is not yet saved;
   - calls, confirmed: SendText calls and confirmed answers per phone;
   - unsaved: confirmed answers whose save did not reach the table.
   */
  datatype Entry = Entry(
    job: Job,
    rows: map<Phone, Row>,
    seeding: bool,
    orphaned: bool,
    loaded: set<Phone>,
    settled: bool,
    inflight: set<Phone>,
    calls: multiset<Phone>,
    confirmed: multiset<Phone>,
    unsaved: multiset<Phone>)

  // ------------------------------------------------------------- recipients

  predicate Accepts(contact: Contact, instance: string) {
    && Text.Trim(contact.phone) != ""
    && (Text.Trim(contact.instance) == "" || Text.Trim(contact.instance) == instance)
  }

  /** The phones of eligibleBroadcastRecipients: first occurrences, in contact order. */
  function Eligible(contacts: seq<Contact>, instance: string): seq<Phone>
    decreases |contacts|
  {
    if contacts == [] then []
    else
      var rest := Eligible(contacts[..|contacts| - 1], instance);
      var last := contacts[|contacts| - 1];
      if Accepts(last, instance) && Text.Trim(last.phone) !in rest then rest + [Text.Trim(last.phone)] else rest
  }

  /** INSERT ... ON CONFLICT (broadcast_id, phone) DO NOTHING. */
  function Seeded(rows: map<Phone, Row>, phones: seq<Phone>, job: Job): map<Phone, Row> {
    (map p | p in phones :: SeedRow(job.tenant, job.instance)) + rows
  }

  datatype Item = Item(phone: Phone, row: Row)

  /** pendingRecipientProgress over the listing `order` of the rows. */
  function PendingItems(order: seq<Phone>, rows: map<Phone, Row>): seq<Item>
    requires forall p <- order :: p in rows
  {
    if order == [] then []
    else if rows[order[0]].status.Pending? then [Item(order[0], rows[order[0]])] + PendingItems(order[1..], rows)
    else PendingItems(order[1..], rows)
  }

  predicate Distinct<T(==)>(s: seq<T>) {
    forall i, j :: 0 <= i < j < |s| ==> s[i] != s[j]
  }

  /** An order in which ListRecipientProgress may return the rows. */
  predicate Lists(order: seq<Phone>, rows: map<Phone, Row>) {
    && Distinct(order)
    && (forall p <- order :: p in rows)
    && (forall p <- rows :: p in order)
  }

  // ---------------------------------------------------------------- workers

  /** Where a worker goroutine stands, with the values its local variables hold there. */
  datatype Pc =
    | Idle
    | Slot(job: Job)                                            // waits in waitForInstanceSlot
    | Start(job: Job)                                           // enters Process
    | Seeding(job: Job, phones: seq<Phone>)                     // no rows yet: about to seed them
    | Reload(job: Job)                                          // about to list the seeded rows
    | Walk(job: Job, todo: seq<Item>)                           // head of the recipient loop
    | Send(job: Job, item: Item, todo: seq<Item>)               // attempt saved, about to call SendText
    | Record(job: Job, item: Item, more: bool, todo: seq<Item>) // answer known, about to save the row
    | Summing(job: Job)                                         // Process returned nil
    | Marking(job: Job, failures: nat)                          // about to mark the job completed
    | Failing(job: Job, retryable: bool)                        // Process returned an error

  /** A save may reach the table, miss it, or reach it and still report an error. */
  datatype Save = Saved | Missed | SavedLate {
    predicate Applied() {
      !Missed?
    }
  }

  datatype SendResult = SendResult(messageId: string, serverId: int, timestamp: int, chat: string)

  datatype SendReply = SendError(permanent: bool) | SendReturned(result: Option<SendResult>)

  /** isConfirmedSendAttempt; timestamp 0 stands for Go's zero time. */
  predicate IsConfirmed(result: Option<SendResult>) {
    result.Some? &&
    var r := result.value;
    Text.Trim(r.messageId) != "" || r.serverId != 0 || r.timestamp != 0 || Text.Trim(r.chat) != ""
  }

  datatype WorkerAction =
    | Grant(at: int)                                    // a slot, at that time
    | CancelSlot
    | Interrupt                                         // cancellation or a retryable error inside Process
    | Reject                                            // missing dependency, failed instance lookup
    | Load(contacts: seq<Contact>, order: seq<Phone>)
    | SaveSeeds(save: Save)
    | LoadAgain(order: seq<Phone>)
    | Begin(at: int, save: Save)
    | Transmit(reply: SendReply, now: int)
    | SaveOutcome(save: Save)
    | Finish
    | Sum(ok: bool)
    | Mark(save: Save)
    | Fail(now: int, save: Save)

  predicate Blank(job: Job) {
    Text.Trim(job.tenant) == "" || Text.Trim(job.instance) == "" || Text.Trim(job.message) == ""
  }

  function BackoffForAttempt(attempt: int): int {
    if attempt <= 1 then 15 * SECOND
    else if attempt == 2 then MINUTE
    else 5 * MINUTE
  }

  /** The row as saved before SendText is called. */
  function Attempted(row: Row, at: int): Row {
    row.(attempts := row.attempts + 1, lastAttemptAt := Some(at), status := Pending)
  }

  /** The row as saved after SendText has answered, and whether the loop then goes on. */
  function Answered(row: Row, reply: SendReply, now: int): (Row, bool) {
    match reply
    case SendError(true) => (row.(status := Failed, failedAt := Some(now)), true)
    case SendError(false) => (row.(status := Pending, failedAt := None), false)
    case SendReturned(result) =>
      if !IsConfirmed(result) then (row.(status := Pending, failedAt := None), false)
      else
        var r := result.value;
        var sentAt := if r.timestamp != 0 then r.timestamp else row.lastAttemptAt.GetOr(0);
        (row.(status := Sent, sentAt := Some(sentAt), failedAt := None, lastStatusAt := Some(sentAt),
              messageId := Text.Trim(r.messageId)), true)
  }

  /** The answer tells that a message went out: by an id, a number, a time or a chat. */
  predicate HasEvidence(r: SendResult) {
    !(Text.Trim(r.messageId) == "" && r.serverId == 0 && r.timestamp == 0 && Text.Trim(r.chat) == "")
  }

  predicate Confirms(reply: SendReply) {
    reply.SendReturned? && reply.result.Some? && HasEvidence(reply.result.value)
  }

  /** The recipient loop goes on after such an answer: the recipient is settled, one way or the other. */
  predicate GoesOn(reply: SendReply) {
    reply == SendError(true) || Confirms(reply)
  }

  /**
   What an answer of SendText makes of a pending row, column by column: a permanent error fails it, evidence of a
   message makes it sent, and anything else leaves it pending.
   */
  predicate AnswerWrites(before: Row, reply: SendReply, now: int, after: Row) {
    && after == before.(status := after.status, sentAt := after.sentAt, failedAt := after.failedAt,
                        lastStatusAt := after.lastStatusAt, messageId := after.messageId)
    && (after.status == Failed <==> reply == SendError(true))
    && (after.status == Sent <==> Confirms(reply))
    && (after.status == Pending <==> !GoesOn(reply))
    && after.failedAt == (if reply == SendError(true) then Some(now) else None)
    && (!Confirms(reply) ==>
          after.sentAt == before.sentAt && after.lastStatusAt == before.lastStatusAt
          && after.messageId == before.messageId)
    && (Confirms(reply) ==>
          var r := reply.result.value;
          && after.messageId == Text.Trim(r.messageId) && after.sentAt.Some? && after.lastStatusAt == after.sentAt
          && (r.timestamp != 0 ==> after.sentAt == Some(r.timestamp))
          && (r.timestamp == 0 && before.lastAttemptAt.Some? ==> after.sentAt == before.lastAttemptAt))
  }

  /** What a failed attempt makes of its job: a retryable error leads back to the queue while attempts remain. */
  predicate FailureWrites(before: Job, retryable: bool, now: int, after: Job) {
    && after == before.(status := after.status, availableAt := after.availableAt)
    && (after.status == Queued <==> retryable && before.attempts < before.maxAttempts)
    && (after.status == JobFailed <==> !retryable || before.attempts >= before.maxAttempts)
    && (after.status == JobFailed ==> after.availableAt == before.availableAt)
    && (after.status == Queued ==>
          && (before.attempts <= 1 ==> after.availableAt == now + 15_000_000_000)
          && (before.attempts == 2 ==> after.availableAt == now + 60_000_000_000)
          && (before.attempts >= 3 ==> after.availableAt == now + 300_000_000_000))
  }

  function Put(e: Entry, phone: Phone, row: Row, save: Save): Entry {
    if save.Applied() then e.(rows := e.rows[phone := row]) else e
  }

  function Listed(e: Entry): Entry {
    e.(loaded := e.rows.Keys, settled := !e.seeding)
  }

  function Orphan(e: Entry): Entry {
    e.(orphaned := true)
  }

  /** MarkCompleted or MarkCompletedWithFailures. */
  function Finished(job: Job, failures: nat): Job {
    job.(status := if failures > 0 then CompletedWithFailures else Completed)
  }

  /** MarkFailed as handleFailure calls it. */
  function AfterFailure(job: Job, retryable: bool, now: int): Job {
    if job.attempts < job.maxAttempts && retryable then
      job.(status := Queued, availableAt := now + BackoffForAttempt(job.attempts))
    else job.(status := JobFailed)
  }

  /** What a step leaves: where the worker then stands, and the entry. */
  datatype Next = Next(pc: Pc, entry: Entry)

  function SlotStep(job: Job, e: Entry, a: WorkerAction): Option<Next> {
    match a
    case Grant(_) => Some(Next(Start(job), e))
    case CancelSlot => Some(Next(Idle, Orphan(e)))
    case _ => None
  }

  function StartStep(job: Job, e: Entry, a: WorkerAction): Option<Next> {
    match a
    case Interrupt => Some(Next(Failing(job, true), e))
    case Reject => Some(Next(Failing(job, false), e))
    case Load(contacts, order) =>
      if Blank(job) || !Lists(order, e.rows) then None
      else if order != [] then Some(Next(Walk(job, PendingItems(order, e.rows)), Listed(e)))
      else
        var phones := Eligible(contacts, job.instance);
        Some(Next(if phones == [] then Failing(job, false) else Seeding(job, phones), e))
    case _ => None
  }

  function SeedingStep(job: Job, phones: seq<Phone>, e: Entry, a: WorkerAction): Option<Next> {
    match a
    case Interrupt => Some(Next(Failing(job, true), e))
    case SaveSeeds(save) =>
      Some(Next(if save.Saved? then Reload(job) else Failing(job, true),
                if save.Applied() then e.(rows := Seeded(e.rows, phones, job)) else e))
    case _ => None
  }

  function ReloadStep(job: Job, e: Entry, a: WorkerAction): Option<Next> {
    match a
    case Interrupt => Some(Next(Failing(job, true), e))
    case LoadAgain(order) =>
      if !Lists(order, e.rows) then None
      else if order == [] then Some(Next(Failing(job, false), e))
      else Some(Next(Walk(job, PendingItems(order, e.rows)), Listed(e)))
    case _ => None
  }

  function WalkStep(job: Job, todo: seq<Item>, e: Entry, a: WorkerAction): Option<Next> {
    match a
    case Interrupt => if todo != [] then Some(Next(Failing(job, true), e)) else None
    case Begin(at, save) =>
      if todo == [] then None
      else
        var item := Item(todo[0].phone, Attempted(todo[0].row, at));
        Some(Next(if save.Saved? then Send(job, item, todo[1..]) else Failing(job, true),
                  Put(e, item.phone, item.row, save)))
    case Finish => if todo == [] then Some(Next(Summing(job), e)) else None
    case _ => None
  }

  /** The history of a SendText call and its answer. */
  function Called(e: Entry, p: Phone, confirmed: bool): Entry {
    var e' := e.(calls := e.calls + multiset{p});
    if confirmed then e'.(confirmed := e.confirmed + multiset{p}, inflight := {p}) else e'
  }

  function SendStep(job: Job, item: Item, todo: seq<Item>, e: Entry, a: WorkerAction): Option<Next> {
    match a
    case Interrupt => Some(Next(Failing(job, true), e))
    case Transmit(reply, now) =>
      var (row, more) := Answered(item.row, reply, now);
      Some(Next(Record(job, Item(item.phone, row), more, todo), Called(e, item.phone, row.status.Sent?)))
    case _ => None
  }

  /** Saving the row after the answer; a confirmed answer that misses the table is remembered as unsaved. */
  function Stored(e: Entry, item: Item, save: Save): Entry {
    var e' := Put(e, item.phone, item.row, save).(inflight := {});
    if item.row.status.Sent? && save.Missed? then e'.(unsaved := e.unsaved + multiset{item.phone}) else e'
  }

  function RecordStep(job: Job, item: Item, more: bool, todo: seq<Item>, e: Entry, a: WorkerAction): Option<Next> {
    match a
    case SaveOutcome(save) =>
      Some(Next(if save.Saved? && more then Walk(job, todo) else Failing(job, true), Stored(e, item, save)))
    case _ => None
  }

  function ClosingStep(pc: Pc, e: Entry, a: WorkerAction): Option<Next> {
    match (pc, a)
    case (Summing(job), Sum(ok)) =>
      Some(if ok then Next(Marking(job, Summarize(e.rows).failed), e) else Next(Idle, Orphan(e)))
    case (Marking(job, failures), Mark(save)) =>
      Some(Next(Idle, if save.Applied() then e.(job := Finished(e.job, failures)) else Orphan(e)))
    case (Failing(job, retryable), Fail(now, save)) =>
      Some(Next(Idle, if save.Applied() then e.(job := AfterFailure(e.job, retryable, now)) else Orphan(e)))
    case _ => None
  }

  /** One atomic step of the worker that holds the job; None when the step is not the next one of its code. */
  function WorkerStep(pc: Pc, e: Entry, a: WorkerAction): Option<Next> {
    match pc
    case Idle => None
    case Slot(job) => SlotStep(job, e, a)
    case Start(job) => StartStep(job, e, a)
    case Seeding(job, phones) => SeedingStep(job, phones, e, a)
    case Reload(job) => ReloadStep(job, e, a)
    case Walk(job, todo) => WalkStep(job, todo, e, a)
    case Send(job, item, todo) => SendStep(job, item, todo, e, a)
    case Record(job, item, more, todo) => RecordStep(job, item, more, todo, e, a)
    case Summing(_) => ClosingStep(pc, e, a)
    case Marking(_, _) => ClosingStep(pc, e, a)
    case Failing(_, _) => ClosingStep(pc, e, a)
  }

  // -------------------------------------------------------------- invariants

  /** Some goroutine, or the channel, still has the job. */
  predicate Active(e: Entry) {
    e.job.status.Processing? && !e.orphaned
  }

  ghost predicate JobOk(job: Job) {
    && 1 <= job.maxAttempts
    && 0 <= job.attempts <= job.maxAttempts
    && (job.status.Queued? ==> job.attempts < job.maxAttempts)
    && (!job.status.Queued? ==> job.attempts >= 1)
  }

  ghost predicate RecipientOk(e: Entry, p: Phone)
    requires p in e.rows
  {
    var row := e.rows[p];
    && RowOk(row)
    && row.tenant == e.job.tenant && row.instance == e.job.instance
    && e.confirmed[p] <= e.calls[p] <= row.attempts <= e.job.attempts
    && e.confirmed[p] == e.unsaved[p] + (if row.status.Confirmed() || p in e.inflight then 1 else 0)
    && (p in e.inflight ==> row.status.Pending?)
    && (p !in e.loaded ==> row.status.Pending? && row.attempts == 0)
  }

  ghost predicate Terminated(e: Entry, p: Phone) {
    p in e.rows && !e.rows[p].status.Pending?
  }

  /** Every phone that Process loaded has been settled one way or the other. */
  ghost predicate AllSettled(e: Entry) {
    e.loaded != {} && forall p <- e.loaded :: Terminated(e, p)
  }

  ghost predicate SomeFailed(e: Entry) {
    exists p <- e.rows :: e.rows[p].status.Failed?
  }

  ghost predicate RecipientsOk(e: Entry) {
    && (forall p <- e.rows :: RecipientOk(e, p))
    && (forall p :: p !in e.rows ==> e.calls[p] == e.confirmed[p] == e.unsaved[p] == 0)
  }

  ghost predicate HistoryOk(e: Entry) {
    && e.loaded <= e.rows.Keys
    && e.inflight <= e.rows.Keys
    && (!Active(e) ==> e.inflight == {})
    && (e.orphaned ==> e.job.status.Processing?)
    && (e.settled ==> e.loaded == e.rows.Keys && e.loaded != {} && !e.seeding)
  }

  /** What the two completed statuses say about the recipients. */
  ghost predicate VerdictOk(e: Entry) {
    && (e.job.status.Completed? ==> AllSettled(e) && !SomeFailed(e))
    && (e.job.status.CompletedWithFailures? ==> AllSettled(e) && SomeFailed(e))
  }

  ghost predicate EntryOk(e: Entry) {
    JobOk(e.job) && RecipientsOk(e) && HistoryOk(e) && VerdictOk(e)
  }

  /** No recipient has been attempted since the job was claimed. */
  ghost predicate Unstarted(e: Entry) {
    e.inflight == {} && forall p <- e.rows :: e.rows[p].attempts < e.job.attempts
  }

  predicate DistinctPhones(todo: seq<Item>) {
    forall i, j :: 0 <= i < j < |todo| ==> todo[i].phone != todo[j].phone
  }

  /** A loaded copy is exactly the row in the table, and still pending. */
  ghost predicate Current(e: Entry, item: Item) {
    && item.phone in e.rows && item.phone in e.loaded
    && e.rows[item.phone] == item.row
    && item.row.status.Pending?
  }

  /** The copies that the loop still has to visit are current and not yet attempted in this pass. */
  ghost predicate TodoOk(e: Entry, todo: seq<Item>) {
    && DistinctPhones(todo)
    && (forall i :: 0 <= i < |todo| ==> Current(e, todo[i]) && todo[i].row.attempts < e.job.attempts)
  }

  predicate Visits(todo: seq<Item>, p: Phone) {
    exists i :: 0 <= i < |todo| && todo[i].phone == p
  }

  /** Loaded phones outside todo, and other than the one being sent to, are settled. */
  ghost predicate Covers(e: Entry, todo: seq<Item>, current: set<Phone>) {
    e.loaded != {} && forall p <- e.loaded :: p in current || Visits(todo, p) || Terminated(e, p)
  }

  ghost predicate WalkOk(todo: seq<Item>, e: Entry) {
    e.inflight == {} && TodoOk(e, todo) && Covers(e, todo, {})
  }

  ghost predicate SendOk(item: Item, todo: seq<Item>, e: Entry) {
    && e.inflight == {} && TodoOk(e, todo) && Covers(e, todo, {item.phone})
    && !Visits(todo, item.phone)
    && Current(e, item)
    && e.calls[item.phone] < item.row.attempts
  }

  /** The row about to be saved, against the row that is in the table. */
  ghost predicate AnswerOk(row: Row, before: Row, more: bool) {
    && RowOk(row) && Advances(before, row) && row.attempts == before.attempts
    && before.status.Pending? && (row.status.Pending? || row.status.Sent? || row.status.Failed?)
    && (more <==> !row.status.Pending?)
  }

  ghost predicate RecordOk(item: Item, more: bool, todo: seq<Item>, e: Entry) {
    && TodoOk(e, todo) && Covers(e, todo, {item.phone})
    && !Visits(todo, item.phone)
    && item.phone in e.rows && item.phone in e.loaded
    && AnswerOk(item.row, e.rows[item.phone], more)
    && e.inflight == (if item.row.status.Sent? then {item.phone} else {})
  }

  ghost predicate MarkingOk(failures: nat, e: Entry) {
    e.inflight == {} && AllSettled(e) && (failures > 0 <==> SomeFailed(e))
  }

  ghost predicate PcOk(pc: Pc, e: Entry) {
    && !pc.Idle?
    && pc.job == e.job
    && Active(e)
    && match pc
       case Slot(_) => Unstarted(e)
       case Start(_) => Unstarted(e)
       case Seeding(_, _) => Unstarted(e) && !e.settled
       case Reload(_) => Unstarted(e) && !e.settled
       case Walk(_, todo) => WalkOk(todo, e)
       case Send(_, item, todo) => SendOk(item, todo, e)
       case Record(_, item, more, todo) => RecordOk(item, more, todo, e)
       case Summing(_) => e.inflight == {} && AllSettled(e)
       case Marking(_, failures) => MarkingOk(failures, e)
       case Failing(_, _) => e.inflight == {}
  }

  // ---------------------------------------------------------------- progress

  ghost predicate JobEvolves(e: Entry, e': Entry) {
    && e.job.attempts <= e'.job.attempts
    && e'.job.(status := e.job.status, attempts := e.job.attempts, availableAt := e.job.availableAt) == e.job
    && (e.job.status.Queued? && e'.job.attempts == e.job.attempts ==> e'.job == e.job)
    && (e.job.status.Terminal() ==> e'.job == e.job && e'.loaded == e.loaded && e'.settled == e.settled)
    && (e.orphaned ==> e'.orphaned)
  }

  ghost predicate RowsEvolve(e: Entry, e': Entry) {
    && (forall p <- e.rows :: p in e'.rows && Advances(e.rows[p], e'.rows[p]))
    && (forall p <- e.rows :: !e.rows[p].status.Pending? ==> e'.calls[p] == e.calls[p])
    && e.calls <= e'.calls && e.confirmed <= e'.confirmed && e.unsaved <= e'.unsaved
  }

  /** How an entry may change over any stretch of a run. */
  ghost predicate Evolves(e: Entry, e': Entry) {
    JobEvolves(e, e') && RowsEvolve(e, e')
  }

  lemma EvolvesTransitive(a: Entry, b: Entry, c: Entry)
    requires Evolves(a, b) && Evolves(b, c)
    ensures Evolves(a, c)
  {
    forall p <- a.rows ensures Advances(a.rows[p], c.rows[p]) {
      AdvancesTransitive(a.rows[p], b.rows[p], c.rows[p]);
    }
  }

  lemma EvolvesReflexive(e: Entry)
    ensures Evolves(e, e)
  {
  }

  // ------------------------------------------------- steps keep the invariant

  /** What a worker step has to establish. */
  ghost predicate StepOk(job: Job, e: Entry, next: Next) {
    && EntryOk(next.entry)
    && Evolves(e, next.entry)
    && (if next.pc.Idle? then !Active(next.entry) else PcOk(next.pc, next.entry) && next.pc.job.id == job.id)
  }

  /** e' differs from e in the row and the history of phone p only. */
  ghost predicate OnlyAt(e: Entry, e': Entry, p: Phone, row: Row) {
    && e' == e.(rows := e.rows[p := row], inflight := e'.inflight,
                calls := e'.calls, confirmed := e'.confirmed, unsaved := e'.unsaved)
    && e.inflight <= {p} && e'.inflight <= {p}
    && forall q ::
      && (q != p ==> e'.calls[q] == e.calls[q] && e'.confirmed[q] == e.confirmed[q] && e'.unsaved[q] == e.unsaved[q])
      && e.calls[q] <= e'.calls[q] && e.confirmed[q] <= e'.confirmed[q] && e.unsaved[q] <= e'.unsaved[q]
  }

  lemma OneRowRecipients(e: Entry, e': Entry, p: Phone, row: Row)
    requires RecipientsOk(e) && p in e.rows && OnlyAt(e, e', p, row) && RecipientOk(e', p)
    ensures RecipientsOk(e')
  {
    forall q <- e'.rows ensures RecipientOk(e', q) {
      if q != p {
        assert RecipientOk(e, q);
      }
    }
  }

  lemma OneRowEvolves(e: Entry, e': Entry, p: Phone, row: Row)
    requires p in e.rows && e.rows[p].status.Pending? && OnlyAt(e, e', p, row) && Advances(e.rows[p], row)
    ensures Evolves(e, e')
  {
    forall q <- e.rows ensures q in e'.rows && Advances(e.rows[q], e'.rows[q]) {
    }
  }

  /** A change of the row and the history of one pending phone of a job being processed. */
  lemma OneRowOk(e: Entry, e': Entry, p: Phone, row: Row)
    requires EntryOk(e) && Active(e) && p in e.loaded && e.rows[p].status.Pending?
    requires OnlyAt(e, e', p, row)
    requires RecipientOk(e', p) && Advances(e.rows[p], row)
    ensures EntryOk(e') && Evolves(e, e') && Active(e')
  {
    OneRowRecipients(e, e', p, row);
    OneRowEvolves(e, e', p, row);
    assert e'.rows.Keys == e.rows.Keys;
  }

  lemma {:induction false} PendingItemsOk(order: seq<Phone>, rows: map<Phone, Row>)
    requires Distinct(order) && forall p <- order :: p in rows
    ensures var todo := PendingItems(order, rows);
      && DistinctPhones(todo)
      && (forall i :: 0 <= i < |todo| ==>
           todo[i].phone in order && todo[i].row == rows[todo[i].phone] && todo[i].row.status.Pending?)
      && (forall p <- order :: rows[p].status.Pending? ==> Visits(todo, p))
    decreases |order|
  {
    if order != [] {
      assert order[0] !in order[1..];
      PendingItemsOk(order[1..], rows);
      PendingAreVisited(order, rows);
    }
  }

  lemma PendingAreVisited(order: seq<Phone>, rows: map<Phone, Row>)
    requires order != [] && forall p <- order :: p in rows
    requires forall p <- order[1..] :: rows[p].status.Pending? ==> Visits(PendingItems(order[1..], rows), p)
    ensures forall p <- order :: rows[p].status.Pending? ==> Visits(PendingItems(order, rows), p)
  {
    var todo, rest := PendingItems(order, rows), PendingItems(order[1..], rows);
    forall p <- order | rows[p].status.Pending? ensures Visits(todo, p) {
      if p == order[0] {
        assert todo[0].phone == p;
      } else {
        assert p in order[1..];
        var i :| 0 <= i < |rest| && rest[i].phone == p;
        assert todo[if rows[order[0]].status.Pending? then i + 1 else i].phone == p;
      }
    }
  }

  lemma ListedOk(e: Entry)
    requires EntryOk(e) && Active(e) && e.rows != map[]
    ensures EntryOk(Listed(e)) && Evolves(e, Listed(e)) && Active(Listed(e)) && Listed(e).loaded != {}
  {
    var e' := Listed(e);
    forall p <- e'.rows ensures RecipientOk(e', p) {
      assert RecipientOk(e, p);
    }
    EvolvesReflexive(e);
    var p :| p in e.rows;
    assert p in e'.loaded;
  }

  lemma ListStepOk(e: Entry, order: seq<Phone>)
    requires EntryOk(e) && Active(e) && Unstarted(e)
    requires Lists(order, e.rows) && order != []
    ensures StepOk(e.job, e, Next(Walk(e.job, PendingItems(order, e.rows)), Listed(e)))
  {
    var e', todo := Listed(e), PendingItems(order, e.rows);
    assert order[0] in e.rows;
    ListedOk(e);
    PendingItemsOk(order, e.rows);
    assert Covers(e', todo, {});
  }

  lemma SeedOk(e: Entry, phones: seq<Phone>)
    requires EntryOk(e) && !e.settled
    ensures var e' := e.(rows := Seeded(e.rows, phones, e.job)); EntryOk(e') && Undisturbed(e, e')
  {
    var e' := e.(rows := Seeded(e.rows, phones, e.job));
    forall p <- e'.rows ensures RecipientOk(e', p) {
      if p in e.rows {
        assert RecipientOk(e, p);
      }
    }
    SeedUndisturbed(e, phones);
    SettledSurvives(e, e');
  }

  /** Seeding adds an untouched pending row for every new phone, and changes no other. */
  lemma SeedingAdds(rows: map<Phone, Row>, phones: seq<Phone>, job: Job)
    ensures var rows' := Seeded(rows, phones, job);
      && (forall p :: p in rows' <==> p in rows || p in phones)
      && (forall p <- rows' :: rows'[p] == if p in rows then rows[p]
            else Row(job.tenant, job.instance, Pending, 0, None, None, None, None, None, None, ""))
  {
  }

  lemma SeedUndisturbed(e: Entry, phones: seq<Phone>)
    ensures Undisturbed(e, e.(rows := Seeded(e.rows, phones, e.job)))
  {
    var e' := e.(rows := Seeded(e.rows, phones, e.job));
    assert forall p <- e.rows :: e'.rows[p] == e.rows[p];
  }

  lemma TodoSkips(e: Entry, e': Entry, todo: seq<Item>, p: Phone, row: Row)
    requires TodoOk(e, todo) && !Visits(todo, p)
    requires e'.job == e.job && e'.loaded == e.loaded && e'.rows == e.rows[p := row]
    ensures TodoOk(e', todo)
    ensures Covers(e, todo, {p}) ==> Covers(e', todo, {p})
    ensures Covers(e, todo, {p}) && !row.status.Pending? ==> Covers(e', todo, {})
  {
    assert forall i :: 0 <= i < |todo| ==> todo[i].phone != p;
    assert forall i :: 0 <= i < |todo| && Current(e, todo[i]) ==> Current(e', todo[i]);
    assert forall q <- e.loaded :: Terminated(e, q) && q != p ==> Terminated(e', q);
    assert !row.status.Pending? ==> Terminated(e', p);
  }

  lemma TodoTail(e: Entry, todo: seq<Item>)
    requires TodoOk(e, todo) && todo != [] && Covers(e, todo, {})
    ensures TodoOk(e, todo[1..]) && !Visits(todo[1..], todo[0].phone) && Covers(e, todo[1..], {todo[0].phone})
  {
    var rest := todo[1..];
    assert forall i :: 0 <= i < |rest| ==> rest[i] == todo[i + 1];
    forall p <- e.loaded ensures p in {todo[0].phone} || Visits(rest, p) || Terminated(e, p) {
      if Visits(todo, p) && p != todo[0].phone {
        var i :| 0 <= i < |todo| && todo[i].phone == p;
        assert rest[i - 1].phone == p;
      }
    }
  }

  lemma BeginOk(todo: seq<Item>, e: Entry, at: int)
    requires EntryOk(e) && Active(e) && WalkOk(todo, e) && todo != []
    ensures var p, row := todo[0].phone, Attempted(todo[0].row, at);
      var e' := e.(rows := e.rows[p := row]);
      EntryOk(e') && Evolves(e, e') && Active(e') && SendOk(Item(p, row), todo[1..], e')
  {
    var p, row := todo[0].phone, Attempted(todo[0].row, at);
    var e' := e.(rows := e.rows[p := row]);
    assert Current(e, todo[0]) && RecipientOk(e, p);
    TodoTail(e, todo);
    OneRowOk(e, e', p, row);
    TodoSkips(e, e', todo[1..], p, row);
  }

  lemma AnsweredOk(row: Row, reply: SendReply, now: int)
    requires RowOk(row) && row.status.Pending? && row.attempts >= 1
    ensures AnswerOk(Answered(row, reply, now).0, row, Answered(row, reply, now).1)
    ensures AnswerWrites(row, reply, now, Answered(row, reply, now).0)
    ensures Answered(row, reply, now).1 <==> GoesOn(reply)
  {
  }

  lemma CalledOk(item: Item, row: Row, more: bool, todo: seq<Item>, e: Entry)
    requires EntryOk(e) && Active(e) && SendOk(item, todo, e) && AnswerOk(row, item.row, more)
    ensures var e' := Called(e, item.phone, row.status.Sent?);
      EntryOk(e') && Evolves(e, e') && Active(e') && RecordOk(Item(item.phone, row), more, todo, e')
  {
    var e' := Called(e, item.phone, row.status.Sent?);
    assert RecipientOk(e, item.phone);
    assert e.rows[item.phone := item.row] == e.rows;
    OneRowOk(e, e', item.phone, item.row);
    TodoSkips(e, e', todo, item.phone, item.row);
  }

  lemma StoredOk(item: Item, more: bool, todo: seq<Item>, e: Entry, save: Save)
    requires EntryOk(e) && Active(e) && RecordOk(item, more, todo, e)
    ensures var e' := Stored(e, item, save);
      EntryOk(e') && Evolves(e, e') && Active(e') && e'.inflight == {} && (save.Saved? && more ==> WalkOk(todo, e'))
  {
    var e', p := Stored(e, item, save), item.phone;
    var row := if save.Applied() then item.row else e.rows[p];
    assert RecipientOk(e, p);
    assert e'.rows == e.rows[p := row];
    OneRowOk(e, e', p, row);
    TodoSkips(e, e', todo, p, row);
  }

  lemma JobChangeOk(e: Entry, e': Entry)
    requires EntryOk(e) && Active(e) && e.inflight == {}
    requires e' == e.(job := e'.job, orphaned := e'.orphaned)
    requires JobOk(e'.job) && JobEvolves(e, e') && e'.job.attempts == e.job.attempts
    requires e'.orphaned ==> e'.job == e.job
    requires VerdictOk(e')
    ensures EntryOk(e') && Evolves(e, e')
  {
    forall p <- e'.rows ensures RecipientOk(e', p) {
      assert RecipientOk(e, p);
    }
  }

  lemma CountsFailures(e: Entry)
    ensures Summarize(e.rows).failed > 0 <==> SomeFailed(e)
  {
    SummaryTells(e.rows);
  }

  lemma FinishedOk(e: Entry, failures: nat)
    requires EntryOk(e) && Active(e) && MarkingOk(failures, e)
    ensures var e' := e.(job := Finished(e.job, failures)); EntryOk(e') && Evolves(e, e') && !Active(e')
  {
    var e' := e.(job := Finished(e.job, failures));
    SameRows(e, e');
    JobChangeOk(e, e');
  }

  lemma AfterFailureOk(e: Entry, retryable: bool, now: int)
    requires EntryOk(e) && Active(e) && e.inflight == {}
    ensures var e' := e.(job := AfterFailure(e.job, retryable, now)); EntryOk(e') && Evolves(e, e') && !Active(e')
    ensures FailureWrites(e.job, retryable, now, AfterFailure(e.job, retryable, now))
  {
    JobChangeOk(e, e.(job := AfterFailure(e.job, retryable, now)));
  }

  /** The goroutine gives the job up, leaving its row as it is. */
  lemma OrphanOk(pc: Pc, e: Entry)
    requires EntryOk(e) && PcOk(pc, e) && e.inflight == {}
    ensures StepOk(pc.job, e, Next(Idle, Orphan(e)))
  {
    JobChangeOk(e, Orphan(e));
  }

  lemma SumOk(job: Job, e: Entry)
    requires EntryOk(e) && PcOk(Summing(job), e)
    ensures StepOk(job, e, Next(Marking(job, Summarize(e.rows).failed), e))
  {
    CountsFailures(e);
    EvolvesReflexive(e);
  }

  lemma ClosingStepOk(pc: Pc, e: Entry, a: WorkerAction)
    requires EntryOk(e) && PcOk(pc, e) && ClosingStep(pc, e, a).Some?
    ensures StepOk(pc.job, e, ClosingStep(pc, e, a).value)
  {
    OrphanOk(pc, e);
    match pc
    case Summing(job) => SumOk(job, e);
    case Marking(_, failures) => FinishedOk(e, failures);
    case Failing(_, retryable) => if a.Fail? { AfterFailureOk(e, retryable, a.now); }
    case _ =>
  }

  lemma SameRows(e: Entry, e': Entry)
    requires e'.rows == e.rows && e'.loaded == e.loaded
    ensures SomeFailed(e') == SomeFailed(e) && AllSettled(e') == AllSettled(e)
  {
    assert forall p :: Terminated(e', p) == Terminated(e, p);
  }

  lemma SeedingStepOk(job: Job, phones: seq<Phone>, e: Entry, a: WorkerAction)
    requires EntryOk(e) && PcOk(Seeding(job, phones), e) && SeedingStep(job, phones, e, a).Some?
    ensures StepOk(job, e, SeedingStep(job, phones, e, a).value)
  {
    EvolvesReflexive(e);
    if a.SaveSeeds? && a.save.Applied() {
      var e' := e.(rows := Seeded(e.rows, phones, e.job));
      SeedOk(e, phones);
      UndisturbedEvolves(e, e');
      UnstartedSurvives(e, e');
    }
  }

  lemma StartStepOk(job: Job, e: Entry, a: WorkerAction)
    requires EntryOk(e) && PcOk(Start(job), e) && StartStep(job, e, a).Some?
    ensures StepOk(job, e, StartStep(job, e, a).value)
  {
    EvolvesReflexive(e);
    if a.Load? {
      if a.order != [] {
        ListStepOk(e, a.order);
      } else {
        assert e.loaded == {};
      }
    }
  }

  lemma ReloadStepOk(job: Job, e: Entry, a: WorkerAction)
    requires EntryOk(e) && PcOk(Reload(job), e) && ReloadStep(job, e, a).Some?
    ensures StepOk(job, e, ReloadStep(job, e, a).value)
  {
    EvolvesReflexive(e);
    if a.LoadAgain? && a.order != [] {
      ListStepOk(e, a.order);
    }
  }

  lemma SlotStepOk(job: Job, e: Entry, a: WorkerAction)
    requires EntryOk(e) && PcOk(Slot(job), e) && SlotStep(job, e, a).Some?
    ensures StepOk(job, e, SlotStep(job, e, a).value)
  {
    EvolvesReflexive(e);
    JobChangeOk(e, Orphan(e));
  }

  lemma SendStepOk(job: Job, item: Item, todo: seq<Item>, e: Entry, a: WorkerAction)
    requires EntryOk(e) && Active(e) && SendOk(item, todo, e) && job == e.job && SendStep(job, item, todo, e, a).Some?
    ensures StepOk(job, e, SendStep(job, item, todo, e, a).value)
  {
    if a.Transmit? {
      var (row, more) := Answered(item.row, a.reply, a.now);
      assert RecipientOk(e, item.phone);
      AnsweredOk(item.row, a.reply, a.now);
      CalledOk(item, row, more, todo, e);
    }
  }

  /** A step that changes neither table nor history. */
  lemma StayOk(e: Entry, pc: Pc)
    requires EntryOk(e) && PcOk(pc, e)
    ensures StepOk(e.job, e, Next(pc, e))
  {
    EvolvesReflexive(e);
  }

  lemma BeginStepOk(job: Job, todo: seq<Item>, e: Entry, at: int, save: Save)
    requires EntryOk(e) && Active(e) && WalkOk(todo, e) && job == e.job && todo != []
    ensures StepOk(job, e, WalkStep(job, todo, e, Begin(at, save)).value)
  {
    if save.Missed? {
      StayOk(e, Failing(job, true));
    } else {
      BeginOk(todo, e, at);
    }
  }

  lemma WalkStepOk(job: Job, todo: seq<Item>, e: Entry, a: WorkerAction)
    requires EntryOk(e) && Active(e) && WalkOk(todo, e) && job == e.job && WalkStep(job, todo, e, a).Some?
    ensures StepOk(job, e, WalkStep(job, todo, e, a).value)
  {
    match a
    case Begin(at, save) => BeginStepOk(job, todo, e, at, save);
    case Interrupt => EvolvesReflexive(e);
    case Finish =>
      EvolvesReflexive(e);
      assert AllSettled(e) by {
        assert forall p :: !Visits([], p);
      }
    case _ =>
  }

  lemma RecordStepOk(job: Job, item: Item, more: bool, todo: seq<Item>, e: Entry, a: WorkerAction)
    requires EntryOk(e) && Active(e) && RecordOk(item, more, todo, e) && job == e.job
    requires RecordStep(job, item, more, todo, e, a).Some?
    ensures StepOk(job, e, RecordStep(job, item, more, todo, e, a).value)
  {
    StoredOk(item, more, todo, e, a.save);
  }

  /** Every step of the worker that holds a job keeps the invariant and only moves things forward. */
  lemma WorkerStepOk(pc: Pc, e: Entry, a: WorkerAction)
    requires EntryOk(e) && PcOk(pc, e) && WorkerStep(pc, e, a).Some?
    ensures StepOk(pc.job, e, WorkerStep(pc, e, a).value)
  {
    match pc
    case Walk(job, todo) => WalkStepOk(job, todo, e, a);
    case Send(job, item, todo) => SendStepOk(job, item, todo, e, a);
    case Record(job, item, more, todo) => RecordStepOk(job, item, more, todo, e, a);
    case Summing(_) => ClosingStepOk(pc, e, a);
    case Marking(_, _) => ClosingStepOk(pc, e, a);
    case Failing(_, _) => ClosingStepOk(pc, e, a);
    case Slot(job) => SlotStepOk(job, e, a);
    case Start(job) => StartStepOk(job, e, a);
    case Reload(job) => ReloadStepOk(job, e, a);
    case Seeding(job, phones) => SeedingStepOk(job, phones, e, a);
  }

  // ------------------------------------------------- steps of other parties

  /** What anyone but the holding worker may do to an entry. */
  ghost predicate Undisturbed(e: Entry, e': Entry) {
    && e'.job == e.job && e'.orphaned == e.orphaned && e'.loaded == e.loaded && e'.settled == e.settled
    && e'.inflight == e.inflight && e'.calls == e.calls && e'.confirmed == e.confirmed && e'.unsaved == e.unsaved
    && e.rows.Keys <= e'.rows.Keys
    && (forall p <- e.rows :: Advances(e.rows[p], e'.rows[p]))
    && (forall p <- e.rows :: e.rows[p].status.Pending? ==> e'.rows[p] == e.rows[p])
    && (forall p <- e.rows :: e'.rows[p].attempts == e.rows[p].attempts)
    && (forall p <- e.rows :: e'.rows[p].status.Failed? <==> e.rows[p].status.Failed?)
    && (forall p <- e'.rows :: p !in e.rows ==> e'.rows[p].status.Pending? && e'.rows[p].attempts == 0)
  }

  lemma TodoSurvives(e: Entry, e': Entry, todo: seq<Item>)
    requires Undisturbed(e, e') && TodoOk(e, todo)
    ensures TodoOk(e', todo)
    ensures forall current :: Covers(e, todo, current) ==> Covers(e', todo, current)
  {
    assert forall item :: Current(e, item) ==> Current(e', item);
    assert forall p <- e.loaded :: Terminated(e, p) ==> Terminated(e', p);
  }

  /** The worker's loaded copies stay exact, because a pending row has no message id for a receipt to match. */
  lemma WorkerSurvives(pc: Pc, e: Entry, e': Entry)
    requires EntryOk(e) && Undisturbed(e, e')
    requires PcOk(pc, e)
    ensures PcOk(pc, e')
  {
    match pc
    case Slot(_) => UnstartedSurvives(e, e');
    case Start(_) => UnstartedSurvives(e, e');
    case Seeding(_, _) => UnstartedSurvives(e, e');
    case Reload(_) => UnstartedSurvives(e, e');
    case Walk(_, todo) => TodoSurvives(e, e', todo);
    case Send(_, _, todo) => TodoSurvives(e, e', todo);
    case Record(_, _, _, todo) => TodoSurvives(e, e', todo);
    case Summing(_) => SettledSurvives(e, e');
    case Marking(_, _) => SettledSurvives(e, e');
    case Failing(_, _) =>
  }

  lemma UnstartedSurvives(e: Entry, e': Entry)
    requires Undisturbed(e, e') && Unstarted(e) && e.job.attempts > 0
    ensures Unstarted(e')
  {
    assert forall p <- e'.rows :: p in e.rows || e'.rows[p].attempts == 0;
  }

  lemma SettledSurvives(e: Entry, e': Entry)
    requires Undisturbed(e, e')
    ensures SomeFailed(e') <==> SomeFailed(e)
    ensures AllSettled(e) ==> AllSettled(e')
  {
    assert forall p <- e'.rows :: e'.rows[p].status.Failed? ==> p in e.rows;
    assert forall p <- e.loaded :: Terminated(e, p) ==> Terminated(e', p);
  }

  /** MarkRecipientReceipt, on the rows of one job. */
  function Receive(e: Entry, r: Receipt): Entry {
    e.(rows := map p | p in e.rows :: ApplyReceipt(e.rows[p], r))
  }

  lemma ReceiveOk(e: Entry, r: Receipt)
    requires EntryOk(e)
    ensures EntryOk(Receive(e, r)) && Undisturbed(e, Receive(e, r))
  {
    var e' := Receive(e, r);
    forall p <- e.rows
      ensures RecipientOk(e', p) && Advances(e.rows[p], e'.rows[p])
      ensures e.rows[p].status.Pending? ==> e'.rows[p] == e.rows[p]
      ensures e'.rows[p].status.Failed? <==> e.rows[p].status.Failed?
      ensures e'.rows[p].attempts == e.rows[p].attempts
    {
      assert RecipientOk(e, p);
      ReceiptAdvances(e.rows[p], r);
    }
    assert e'.rows.Keys == e.rows.Keys;
    assert Undisturbed(e, e');
    SettledSurvives(e, e');
  }

  /** Create seeding its snapshot of the contacts, or giving up on it; it may come after the job was claimed. */
  function Snapshot(e: Entry, contacts: seq<Contact>, save: Save): Entry {
    var phones := Eligible(contacts, e.job.instance);
    if save.Applied() then e.(rows := Seeded(e.rows, phones, e.job), seeding := false) else e.(seeding := false)
  }

  lemma SnapshotOk(e: Entry, contacts: seq<Contact>, save: Save)
    requires EntryOk(e) && e.seeding
    ensures EntryOk(Snapshot(e, contacts, save)) && Undisturbed(e, Snapshot(e, contacts, save))
  {
    var seeded := if save.Applied() then e.(rows := Seeded(e.rows, Eligible(contacts, e.job.instance), e.job)) else e;
    if save.Applied() {
      SeedOk(e, Eligible(contacts, e.job.instance));
    }
    var e' := seeded.(seeding := false);
    forall p <- e'.rows ensures RecipientOk(e', p) {
      assert RecipientOk(seeded, p);
    }
    SettledSurvives(e, e');
  }

  lemma UndisturbedEvolves(e: Entry, e': Entry)
    requires Undisturbed(e, e')
    ensures Evolves(e, e') && Active(e') == Active(e)
  {
  }

  /**
   The end of the process: whoever had the job is gone, an answer not yet saved is lost, and Create will not come back
   to seed its snapshot.
   */
  function Abandoned(e: Entry): Entry {
    e.(orphaned := e.orphaned || e.job.status.Processing?, seeding := false,
       inflight := {}, unsaved := e.unsaved + multiset(e.inflight))
  }

  lemma AbandonedOk(e: Entry)
    requires EntryOk(e)
    ensures EntryOk(Abandoned(e)) && Evolves(e, Abandoned(e)) && !Active(Abandoned(e))
  {
    var e' := Abandoned(e);
    forall p <- e'.rows ensures RecipientOk(e', p) {
      assert RecipientOk(e, p);
    }
    EvolvesReflexive(e);
    SameRows(e, e');
  }

  /** ClaimNext, on one job that it selects. */
  function Claimed(e: Entry): Entry {
    e.(job := e.job.(status := Processing, attempts := e.job.attempts + 1))
  }

  lemma ClaimedOk(e: Entry)
    requires EntryOk(e) && e.job.status.Queued?
    ensures EntryOk(Claimed(e)) && Evolves(e, Claimed(e)) && Active(Claimed(e)) && Unstarted(Claimed(e))
    ensures Claimed(e).job.attempts <= e.job.maxAttempts
  {
    var e' := Claimed(e);
    forall p <- e'.rows ensures e'.rows[p].attempts < e'.job.attempts {
      assert RecipientOk(e, p);
    }
  }
}
