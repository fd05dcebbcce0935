/**
 Recipient progress rows of a broadcast (table broadcast_recipient_progress):
 what a receipt does to one row, in which direction a row may move, and what
 the per-broadcast summary counts.
 */
module Recipients {
  import opened Wrappers
  import Text

  type Phone = string

  datatype DeliveryStatus = Pending | Sent | Delivered | Read | Failed {
    /** The statuses that the summary counts as sent. */
    predicate Confirmed() {
      Sent? || Delivered? || Read?
    }
  }

  datatype Row = Row(
    tenant: string,
    instance: string,
    status: DeliveryStatus,
    attempts: nat,
    lastAttemptAt: Option<int>,
    sentAt: Option<int>,
    deliveredAt: Option<int>,
    readAt: Option<int>,
    failedAt: Option<int>,
    lastStatusAt: Option<int>,
    messageId: string)

  function SeedRow(tenant: string, instance: string): Row {
    Row(tenant, instance, Pending, 0, None, None, None, None, None, None, "")
  }

  /** What every writer of the table keeps true of every row. */
  ghost predicate RowOk(row: Row) {
    && (row.attempts > 0 <==> row.lastAttemptAt.Some?)
    && (row.sentAt.Some? <==> row.status.Confirmed())
    && (row.failedAt.Some? <==> row.status.Failed?)
    && (row.deliveredAt.Some? <==> row.status.Delivered? || row.status.Read?)
    && (row.readAt.Some? <==> row.status.Read?)
    && (row.messageId != "" ==> row.status.Confirmed())
    && (!row.status.Pending? ==> row.attempts > 0)
  }

  /** pending -> sent -> delivered -> read, with skips; failed is reached from pending only and never left. */
  predicate Forward(a: DeliveryStatus, b: DeliveryStatus) {
    || a == b
    || a.Pending?
    || (a.Sent? && (b.Delivered? || b.Read?))
    || (a.Delivered? && b.Read?)
  }

  /** How a row may change over any stretch of a run. */
  ghost predicate Advances(a: Row, b: Row) {
    && Forward(a.status, b.status)
    && a.attempts <= b.attempts
    && a.tenant == b.tenant && a.instance == b.instance
    && (!a.status.Pending? ==>
          b.messageId == a.messageId && b.sentAt == a.sentAt && b.failedAt == a.failedAt && b.attempts == a.attempts)
    && (a.deliveredAt.Some? ==> b.deliveredAt == a.deliveredAt)
    && (a.readAt.Some? ==> b.readAt.Some? && a.readAt.value <= b.readAt.value)
  }

  lemma AdvancesTransitive(a: Row, b: Row, c: Row)
    requires Advances(a, b) && Advances(b, c)
    ensures Advances(a, c)
  {
  }

  // ---------------------------------------------------------------- receipts

  datatype ReceiptKind = DeliveredReceipt | ReadReceipt | OtherReceipt

  /** A receipt as MarkRecipientReceipt sees it after trimming its keys and lower-casing its state. */
  datatype Receipt = Receipt(tenant: string, instance: string, messageId: string, kind: ReceiptKind, at: int)

  function KindOf(state: string): ReceiptKind {
    var s := Text.Lower(Text.Trim(state));
    if s == "delivered" then DeliveredReceipt
    else if s == "read" then ReadReceipt
    else OtherReceipt
  }

  function NormalizeReceipt(tenant: string, instance: string, messageId: string, state: string, at: int): Receipt {
    Receipt(Text.Trim(tenant), Text.Trim(instance), Text.Trim(messageId), KindOf(state), at)
  }

  /** The WHERE clause shared by both receipt updates, with the early return on a blank key. */
  predicate Addresses(r: Receipt, row: Row) {
    && r.tenant != "" && r.instance != "" && r.messageId != ""
    && row.tenant == r.tenant && row.instance == r.instance && row.messageId == r.messageId
    && !row.status.Failed?
  }

  /** The rows that the UPDATE of MarkRecipientReceipt selects. */
  predicate Affects(r: Receipt, row: Row) {
    && Addresses(r, row)
    && !r.kind.OtherReceipt?
    && (r.kind.DeliveredReceipt? ==> !row.status.Read?)
  }

  function Later(prev: Option<int>, at: int): int {
    if prev.None? || prev.value < at then at else prev.value
  }

  /** The UPDATE of MarkRecipientReceipt on one row; a row it does not select stays as it is. */
  function ApplyReceipt(row: Row, r: Receipt): Row {
    if !Affects(r, row) then row
    else if r.kind.DeliveredReceipt? then
      row.(status := Delivered, deliveredAt := Some(row.deliveredAt.GetOr(r.at)), lastStatusAt := Some(r.at))
    else
      row.(status := Read, deliveredAt := Some(row.deliveredAt.GetOr(r.at)),
           readAt := Some(Later(row.readAt, r.at)), lastStatusAt := Some(r.at))
  }

  /** A receipt keeps the row invariant, moves the row forward, and cannot touch a row still pending or failed. */
  lemma ReceiptAdvances(row: Row, r: Receipt)
    requires RowOk(row)
    ensures RowOk(ApplyReceipt(row, r)) && Advances(row, ApplyReceipt(row, r))
    ensures row.status.Pending? || row.status.Failed? ==> ApplyReceipt(row, r) == row
    ensures ApplyReceipt(row, r).status.Failed? <==> row.status.Failed?
    ensures ApplyReceipt(row, r).attempts == row.attempts
  {
  }

  /** The row is one that a receipt with these texts is about, and the receipt is one that it takes. */
  predicate Reaches(row: Row, tenant: string, instance: string, messageId: string, state: string) {
    && Text.Trim(tenant) == row.tenant != "" && Text.Trim(instance) == row.instance != ""
    && Text.Trim(messageId) == row.messageId != ""
    && match Text.Lower(Text.Trim(state))
       case "delivered" => !row.status.Failed? && !row.status.Read?
       case "read" => !row.status.Failed?
       case _ => false
  }

  /** The later of the time that was there, if any, and the new one. */
  predicate Noted(before: Option<int>, at: int, after: Option<int>) {
    && after.Some? && at <= after.value && (before.Some? ==> before.value <= after.value)
    && (after == Some(at) || after == before)
  }

  /** What a receipt makes of a row, told from the texts that it comes with. */
  predicate ReceiptWrites(before: Row, tenant: string, instance: string, messageId: string, state: string, at: int,
                          after: Row) {
    && (!Reaches(before, tenant, instance, messageId, state) ==> after == before)
    && (Reaches(before, tenant, instance, messageId, state) ==>
          && after == before.(status := after.status, deliveredAt := after.deliveredAt, readAt := after.readAt,
                              lastStatusAt := Some(at))
          && after.deliveredAt == (if before.deliveredAt.Some? then before.deliveredAt else Some(at))
          && (Text.Lower(Text.Trim(state)) == "delivered" ==>
                after.status == Delivered && after.readAt == before.readAt)
          && (Text.Lower(Text.Trim(state)) == "read" ==>
                after.status == Read && Noted(before.readAt, at, after.readAt)))
  }

  lemma ReceiptWritten(row: Row, tenant: string, instance: string, messageId: string, state: string, at: int)
    ensures var r := NormalizeReceipt(tenant, instance, messageId, state, at);
      && ReceiptWrites(row, tenant, instance, messageId, state, at, ApplyReceipt(row, r))
      && (Affects(r, row) <==> Reaches(row, tenant, instance, messageId, state))
  {
  }

  /**
   What becomes of a row that was just sent, by the name of the state: "delivered" sets the delivery time and no read
   time, "read" sets both, and any other state is ignored.
   */
  lemma SentRowHears(row: Row, tenant: string, instance: string, messageId: string, state: string, at: int, row': Row)
    requires RowOk(row) && row.status.Sent?
    requires Text.Trim(tenant) == row.tenant != "" && Text.Trim(instance) == row.instance != ""
    requires Text.Trim(messageId) == row.messageId != ""
    requires ReceiptWrites(row, tenant, instance, messageId, state, at, row')
    ensures var name := Text.Lower(Text.Trim(state));
      && (name == "delivered" ==> row'.status == Delivered && row'.deliveredAt == Some(at) && row'.readAt == None)
      && (name == "read" ==> row'.status == Read && row'.deliveredAt == Some(at) && row'.readAt == Some(at))
      && (name != "delivered" && name != "read" ==> row' == row)
  {
  }

  /** Receipts applied in the order of the sequence. */
  function ApplyReceipts(row: Row, rs: seq<Receipt>): Row
    decreases |rs|
  {
    if rs == [] then row else ApplyReceipt(ApplyReceipts(row, rs[..|rs| - 1]), rs[|rs| - 1])
  }

  predicate AllFor(rs: seq<Receipt>, row: Row) {
    forall r <- rs :: Addresses(r, row)
  }

  predicate AnyOf(rs: seq<Receipt>, kind: ReceiptKind) {
    exists r <- rs :: r.kind == kind
  }

  /** m is the greatest time of a read receipt in rs. */
  predicate IsLatestRead(rs: seq<Receipt>, m: int) {
    && (exists r <- rs :: r.kind.ReadReceipt? && r.at == m)
    && (forall r <- rs :: r.kind.ReadReceipt? ==> r.at <= m)
  }

  /** What a whole sequence of receipts does to a row that was sent, in closed form. */
  ghost predicate Outcome(row: Row, rs: seq<Receipt>, final: Row) {
    && final.status == (if AnyOf(rs, ReadReceipt) then Read
                        else if AnyOf(rs, DeliveredReceipt) then Delivered else Sent)
    && (final.readAt.Some? <==> AnyOf(rs, ReadReceipt))
    && (final.readAt.Some? ==> IsLatestRead(rs, final.readAt.value))
    && final.messageId == row.messageId && final.tenant == row.tenant && final.instance == row.instance
  }

  lemma {:induction false} ReceiptsOutcome(row: Row, rs: seq<Receipt>)
    requires RowOk(row) && row.status.Sent? && AllFor(rs, row)
    ensures RowOk(ApplyReceipts(row, rs)) && Outcome(row, rs, ApplyReceipts(row, rs))
    decreases |rs|
  {
    if rs == [] {
      assert !AnyOf(rs, ReadReceipt) && !AnyOf(rs, DeliveredReceipt);
    } else {
      var front, last := rs[..|rs| - 1], rs[|rs| - 1];
      assert forall r :: r in rs <==> r in front || r == last;
      ReceiptsOutcome(row, front);
      assert last in rs && Addresses(last, row);
      ReceiptAdvances(ApplyReceipts(row, front), last);
      AnyOfSnoc(front, last, ReadReceipt);
      AnyOfSnoc(front, last, DeliveredReceipt);
      assert rs == front + [last];
      LatestReadSnoc(front, last, ApplyReceipts(row, front).readAt);
    }
  }

  lemma AnyOfSnoc(front: seq<Receipt>, last: Receipt, kind: ReceiptKind)
    ensures AnyOf(front + [last], kind) <==> AnyOf(front, kind) || last.kind == kind
  {
    assert forall r :: r in front + [last] <==> r in front || r == last;
  }

  lemma LatestReadSnoc(front: seq<Receipt>, last: Receipt, prev: Option<int>)
    requires prev.Some? <==> AnyOf(front, ReadReceipt)
    requires prev.Some? ==> IsLatestRead(front, prev.value)
    ensures last.kind.ReadReceipt? ==> IsLatestRead(front + [last], Later(prev, last.at))
    ensures !last.kind.ReadReceipt? && prev.Some? ==> IsLatestRead(front + [last], prev.value)
  {
    assert forall r :: r in front + [last] <==> r in front || r == last;
  }

  /** Receipts may arrive in any order: status and read time come out the same. */
  lemma ReceiptsOrderIndependent(row: Row, rs: seq<Receipt>, rs': seq<Receipt>)
    requires RowOk(row) && row.status.Sent? && AllFor(rs, row)
    requires multiset(rs) == multiset(rs')
    ensures ApplyReceipts(row, rs').status == ApplyReceipts(row, rs).status
    ensures ApplyReceipts(row, rs').readAt == ApplyReceipts(row, rs).readAt
  {
    SameMembers(rs, rs');
    ReceiptsOutcome(row, rs);
    ReceiptsOutcome(row, rs');
    assert forall kind :: AnyOf(rs, kind) <==> AnyOf(rs', kind);
  }

  lemma SameMembers(rs: seq<Receipt>, rs': seq<Receipt>)
    requires multiset(rs) == multiset(rs')
    ensures forall r :: r in rs <==> r in rs'
  {
    assert forall r :: r in multiset(rs) <==> r in rs;
    assert forall r :: r in multiset(rs') <==> r in rs';
  }

  /** The delivery time, by contrast, is the time of whichever receipt came first. */
  lemma {:induction false} DeliveredAtIsFirst(row: Row, rs: seq<Receipt>)
    requires RowOk(row) && row.status.Sent? && AllFor(rs, row)
    requires forall r <- rs :: !r.kind.OtherReceipt?
    ensures ApplyReceipts(row, rs).deliveredAt == if rs == [] then None else Some(rs[0].at)
    decreases |rs|
  {
    if rs != [] {
      var front, last := rs[..|rs| - 1], rs[|rs| - 1];
      assert forall r <- front :: r in rs;
      assert last in rs && Addresses(last, row);
      DeliveredAtIsFirst(row, front);
      ReceiptsOutcome(row, front);
    }
  }

  // ----------------------------------------------------------------- summary

  datatype Summary = Summary(total: nat, attempted: nat, sent: nat, delivered: nat, read: nat, failed: nat,
                             pending: nat)

  function Where(rows: map<Phone, Row>, p: Row -> bool): set<Phone> {
    set k | k in rows && p(rows[k])
  }

  function Summarize(rows: map<Phone, Row>): Summary {
    Summary(
      |rows|,
      |Where(rows, (r: Row) => r.attempts > 0)|,
      |Where(rows, (r: Row) => r.status.Confirmed())|,
      |Where(rows, (r: Row) => r.deliveredAt.Some?)|,
      |Where(rows, (r: Row) => r.readAt.Some?)|,
      |Where(rows, (r: Row) => r.status.Failed?)|,
      |Where(rows, (r: Row) => r.status.Pending?)|)
  }

  function Count(b: bool): nat {
    if b then 1 else 0
  }

  lemma OneMoreWhere(rows: map<Phone, Row>, p: Row -> bool, phone: Phone, row: Row)
    requires phone !in rows
    ensures |Where(rows[phone := row], p)| == |Where(rows, p)| + Count(p(row))
  {
    var more := Where(rows[phone := row], p);
    if p(row) {
      assert more == Where(rows, p) + {phone};
    } else {
      assert more == Where(rows, p);
    }
  }

  /** The summary counts row by row: each one that is added is counted under what its own columns say. */
  lemma SummaryCounts(rows: map<Phone, Row>, phone: Phone, row: Row)
    requires phone !in rows
    ensures Summarize(map[]) == Summary(0, 0, 0, 0, 0, 0, 0)
    ensures var s, s' := Summarize(rows), Summarize(rows[phone := row]);
      && s'.total == s.total + 1
      && s'.attempted == s.attempted + Count(row.attempts != 0)
      && s'.sent == s.sent + Count(row.status in {Sent, Delivered, Read})
      && s'.delivered == s.delivered + Count(row.deliveredAt != None)
      && s'.read == s.read + Count(row.readAt != None)
      && s'.failed == s.failed + Count(row.status == Failed)
      && s'.pending == s.pending + Count(row.status == Pending)
  {
    OneMoreWhere(rows, (r: Row) => r.attempts > 0, phone, row);
    OneMoreWhere(rows, (r: Row) => r.status.Confirmed(), phone, row);
    OneMoreWhere(rows, (r: Row) => r.deliveredAt.Some?, phone, row);
    OneMoreWhere(rows, (r: Row) => r.readAt.Some?, phone, row);
    OneMoreWhere(rows, (r: Row) => r.status.Failed?, phone, row);
    OneMoreWhere(rows, (r: Row) => r.status.Pending?, phone, row);
    NoneWhere();
  }

  lemma NoneWhere()
    ensures forall p: Row -> bool :: Where(map[], p) == {}
  {
  }

  lemma {:induction false} SubsetSize<T>(a: set<T>, b: set<T>)
    requires a <= b
    ensures |a| <= |b|
  {
    assert a + (b - a) == b;
    assert |a + (b - a)| == |a| + |b - a|;
  }

  lemma StatusesPartition(rows: map<Phone, Row>)
    ensures var s := Summarize(rows); s.total == s.sent + s.failed + s.pending
  {
    var sent := Where(rows, (r: Row) => r.status.Confirmed());
    var failed := Where(rows, (r: Row) => r.status.Failed?);
    var pending := Where(rows, (r: Row) => r.status.Pending?);
    assert rows.Keys == sent + failed + pending;
    assert sent !! failed && (sent + failed) !! pending;
    assert |rows| == |rows.Keys| == |sent + failed| + |pending| && |sent + failed| == |sent| + |failed|;
  }

  /** The accounting identities that any table of well-formed rows satisfies. */
  lemma SummaryBalances(rows: map<Phone, Row>)
    requires forall k <- rows :: RowOk(rows[k])
    ensures var s := Summarize(rows);
      && s.total == s.sent + s.failed + s.pending
      && s.read <= s.delivered <= s.sent
      && s.sent + s.failed <= s.attempted <= s.total
  {
    StatusesPartition(rows);
    SettledWereAttempted(rows);
    ReceiptsNest(rows);
  }

  /** What handleJob reads off the summary: whether a recipient has failed. (And, besides, whether one is left.) */
  lemma SummaryTells(rows: map<Phone, Row>)
    ensures Summarize(rows).failed > 0 <==> exists p <- rows :: rows[p].status.Failed?
    ensures Summarize(rows).pending > 0 <==> exists p <- rows :: rows[p].status.Pending?
  {
    var failed := Where(rows, (r: Row) => r.status.Failed?);
    var pending := Where(rows, (r: Row) => r.status.Pending?);
    assert forall p :: p in failed <==> p in rows && rows[p].status.Failed?;
    assert forall p :: p in pending <==> p in rows && rows[p].status.Pending?;
  }

  lemma SettledWereAttempted(rows: map<Phone, Row>)
    requires forall k <- rows :: RowOk(rows[k])
    ensures var s := Summarize(rows); s.sent + s.failed <= s.attempted <= s.total
  {
    var attempted := Where(rows, (r: Row) => r.attempts > 0);
    var sent := Where(rows, (r: Row) => r.status.Confirmed());
    var failed := Where(rows, (r: Row) => r.status.Failed?);
    assert sent !! failed && |sent + failed| == |sent| + |failed|;
    SubsetSize(sent + failed, attempted);
    SubsetSize(attempted, rows.Keys);
  }

  lemma ReceiptsNest(rows: map<Phone, Row>)
    requires forall k <- rows :: RowOk(rows[k])
    ensures var s := Summarize(rows); s.read <= s.delivered <= s.sent
  {
    var sent := Where(rows, (r: Row) => r.status.Confirmed());
    var delivered := Where(rows, (r: Row) => r.deliveredAt.Some?);
    var read := Where(rows, (r: Row) => r.readAt.Some?);
    SubsetSize(read, delivered);
    SubsetSize(delivered, sent);
  }
}
