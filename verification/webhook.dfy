/** Webhook deliveries: dispatch with its dedupe window, the first attempt, and the retry worker. */
module Webhook {
  import opened Wrappers
  import opened WebhookBackoff
  import Text

  datatype Status = Delivered | Retrying | Failed

  datatype Delivery = Delivery(
    tenant: string,
    endpoint: string,
    url: string,
    direction: string,
    eventType: string,
    eventId: string,
    messageId: string,
    status: Status,
    attempts: int,
    maxAttempts: int,
    responseStatus: int,
    body: string,
    nextAttemptAt: Option<int>,
    deliveredAt: Option<int>,
    createdAt: int)

  datatype Endpoint = Endpoint(id: string, tenant: string, url: string, inbound: bool, outbound: bool)

  /** The part of an event that its envelope and its deliveries carry. */
  datatype Event = Event(tenant: string, direction: string, eventType: string, eventId: string, messageId: string,
                         body: string)

  /** One HTTP POST. */
  datatype Post = Post(eventId: string, body: string, at: int)

  /**
   The history of a delivery row: its POSTs, the updates of it that were lost, the dispatch that created it, and
   whether that dispatch had first looked for an earlier delivery of its event.
   */
  datatype Trail = Trail(posts: seq<Post>, lost: nat, dispatch: nat, checked: bool)

  /** A POST, and the endpoint that it went to. */
  datatype Posted = Posted(endpoint: string, post: Post)

  /** What one delivery meets: whether a response came, its status code, and whether the row could be written. */
  datatype Outcome = Outcome(responded: bool, status: int, written: bool) {
    /** A 2xx response. */
    predicate Success() {
      responded && status / 100 == 2
    }
  }

  predicate ShouldDeliver(endpoint: Endpoint, direction: string) {
    if direction == "inbound" then endpoint.inbound else endpoint.outbound
  }

  /** scheduleRetryFields. */
  function Scheduled(d: Delivery, attempt: int, now: int): Delivery
    requires attempt >= 1
  {
    if attempt >= d.maxAttempts then d.(status := Failed, nextAttemptAt := None, deliveredAt := None)
    else d.(status := Retrying, nextAttemptAt := Some(now + BackoffFor(attempt)))
  }

  /** Due for a retry, as ListDueRetries selects. */
  predicate Due(d: Delivery, now: int) {
    d.status.Retrying? && d.nextAttemptAt.Some? && d.nextAttemptAt.value <= now
  }

  /** What every writer keeps true of a delivery row. */
  predicate RowOk(d: Delivery) {
    && 1 <= d.attempts <= d.maxAttempts
    && (d.status.Retrying? <==> d.nextAttemptAt.Some?)
    && (d.status.Delivered? <==> d.deliveredAt.Some?)
    && (d.status.Retrying? ==> d.attempts < d.maxAttempts)
    && (d.status.Failed? ==> d.attempts == d.maxAttempts)
  }

  /**
   The row against its history: every POST carried the row's event and body, and the backoffs lie between the
   attempts.
   */
  predicate TrailOk(d: Delivery, t: Trail, now: int) {
    && |t.posts| == d.attempts + t.lost
    && (forall i :: 0 <= i < |t.posts| ==>
          t.posts[i].eventId == d.eventId && t.posts[i].body == d.body && t.posts[i].at <= now)
    && (t.posts != [] ==>
          && t.posts[0].at <= d.createdAt <= now
          && (d.attempts >= 1 ==> t.posts[0].at + TotalBackoff(d.attempts - 1) <= t.posts[|t.posts| - 1].at)
          && (d.status.Retrying? && d.nextAttemptAt.Some? && d.attempts >= 0 ==>
                t.posts[0].at + TotalBackoff(d.attempts) <= d.nextAttemptAt.value))
  }

  /** The first attempt of deliver, made at time sentAt, with its outcome handled and its row inserted at now. */
  function FirstAttempt(endpoint: Endpoint, event: Event, maxAttempts: int, ok: bool, statusCode: int,
                        now: int): Delivery {
    var d := Delivery(endpoint.tenant, endpoint.id, endpoint.url, event.direction, event.eventType, event.eventId,
                      event.messageId, Retrying, 1, maxAttempts, statusCode, event.body, None, None, now);
    if ok then d.(status := Delivered, deliveredAt := Some(now)) else Scheduled(d, 1, now)
  }

  /** The row after one more attempt of retryDelivery. */
  function NextAttempt(d: Delivery, ok: bool, statusCode: int, now: int): Delivery
    requires d.attempts >= 0
  {
    var d' := d.(attempts := d.attempts + 1, responseStatus := statusCode);
    if ok then d'.(status := Delivered, deliveredAt := Some(now), nextAttemptAt := None)
    else Scheduled(d', d'.attempts, now)
  }

  lemma FirstAttemptOk(endpoint: Endpoint, event: Event, maxAttempts: int, ok: bool, statusCode: int, sentAt: int,
                       now: int,
                       dispatch: nat, checked: bool)
    requires maxAttempts >= 1 && sentAt <= now
    ensures var d := FirstAttempt(endpoint, event, maxAttempts, ok, statusCode, now);
      RowOk(d) && TrailOk(d, Trail([Post(event.eventId, event.body, sentAt)], 0, dispatch, checked), now)
  {
    assert TotalBackoff(0) == 0;
  }

  /** A retry of a due row that is recorded. */
  lemma NextAttemptOk(d: Delivery, t: Trail, ok: bool, statusCode: int, sentAt: int, now: int)
    requires RowOk(d) && TrailOk(d, t, sentAt) && Due(d, sentAt) && sentAt <= now
    ensures var d' := NextAttempt(d, ok, statusCode, now);
      RowOk(d') && TrailOk(d', t.(posts := t.posts + [Post(d.eventId, d.body, sentAt)]), now)
  {
  }

  /** A retry whose update of the row is lost. */
  lemma LostAttemptOk(d: Delivery, t: Trail, sentAt: int, now: int)
    requires RowOk(d) && TrailOk(d, t, sentAt) && sentAt <= now
    ensures TrailOk(d, t.(posts := t.posts + [Post(d.eventId, d.body, sentAt)], lost := t.lost + 1), now)
  {
  }

  /** The rows that HasRecentDelivery counts. */
  predicate Counts(d: Delivery, tenant: string, direction: string, eventType: string, messageId: string, since: int) {
    && d.tenant == tenant && d.direction == direction && d.eventType == eventType && d.messageId == messageId
    && d.createdAt >= since
  }

  predicate SameInbound(a: Delivery, b: Delivery) {
    && a.direction == "inbound" == b.direction && a.messageId != ""
    && a.tenant == b.tenant && a.eventType == b.eventType && a.messageId == b.messageId
  }

  /** A row that a dispatch created after its lookup is more than the window younger than earlier rows of the event. */
  ghost predicate Deduplicated(deliveries: seq<Delivery>, trails: seq<Trail>, window: int)
    requires |deliveries| == |trails|
  {
    forall i, j ::
      0 <= i < j < |deliveries| && SameInbound(deliveries[i], deliveries[j])
      && trails[i].dispatch != trails[j].dispatch && trails[j].checked ==>
      deliveries[i].createdAt + window < deliveries[j].createdAt
  }

  /** No row of the event from an earlier dispatch is young enough to count. */
  ghost predicate Clear(deliveries: seq<Delivery>, trails: seq<Trail>, event: Event, dispatch: nat, window: int,
                        now: int)
    requires |deliveries| == |trails|
  {
    forall i :: 0 <= i < |deliveries| && trails[i].dispatch != dispatch && OfEvent(deliveries[i], event) ==>
      deliveries[i].createdAt + window < now
  }

  predicate OfEvent(d: Delivery, event: Event) {
    && d.tenant == event.tenant && d.direction == event.direction
    && d.eventType == event.eventType && d.messageId == event.messageId
  }

  predicate Dedupes(event: Event) {
    event.direction == "inbound" && event.messageId != ""
  }

  /** The endpoints that get the event, in order. */
  function Selected(endpoints: seq<Endpoint>, direction: string): seq<Endpoint>
    decreases |endpoints|
  {
    if endpoints == [] then []
    else
      var last := endpoints[|endpoints| - 1];
      Selected(endpoints[..|endpoints| - 1], direction) + if ShouldDeliver(last, direction) then [last] else []
  }

  /** How many of the first n rows were written. */
  function Written(outcomes: seq<Outcome>, n: nat): nat
    requires n <= |outcomes|
  {
    if n == 0 then 0 else Written(outcomes, n - 1) + if outcomes[n - 1].written then 1 else 0
  }

  /**
   How a row stands after an attempt at that time: delivered by a 2xx response, and otherwise failed for good when it
   was the last attempt, or due again after the backoff.
   */
  predicate AttemptWrites(d: Delivery, outcome: Outcome, at: int)
    requires d.attempts >= 1
  {
    var ok := outcome.responded && 200 <= outcome.status <= 299;
    && d.responseStatus == outcome.status
    && (d.status == Delivered <==> ok)
    && (d.status == Failed <==> !ok && d.attempts >= d.maxAttempts)
    && (d.status == Retrying <==> !ok && d.attempts < d.maxAttempts)
    && d.deliveredAt == (if ok then Some(at) else None)
    && d.nextAttemptAt == (if d.status == Retrying then Some(at + BackoffFor(d.attempts)) else None)
  }

  /** The two rows differ at most in what an attempt writes. */
  predicate SameDelivery(d: Delivery, copy: Delivery) {
    d == copy.(status := d.status, attempts := d.attempts, responseStatus := d.responseStatus,
               nextAttemptAt := d.nextAttemptAt, deliveredAt := d.deliveredAt)
  }

  /** A row as deliver writes it. */
  predicate RowFor(d: Delivery, endpoint: Endpoint, event: Event, outcome: Outcome) {
    && d.tenant == event.tenant && d.direction == event.direction && d.eventType == event.eventType
    && d.messageId == event.messageId && d.eventId == event.eventId && d.body == event.body
    && d.endpoint == endpoint.id && d.url == endpoint.url
    && d.attempts == 1 && AttemptWrites(d, outcome, d.createdAt)
  }

  /** What is selected grows with the list: an endpoint is added when its flag for the direction is set. */
  lemma SelectedExactly(endpoints: seq<Endpoint>, endpoint: Endpoint, direction: string)
    ensures Selected([], direction) == []
    ensures var takes := (direction == "inbound" && endpoint.inbound) || (direction != "inbound" && endpoint.outbound);
      Selected(endpoints + [endpoint], direction)
      == Selected(endpoints, direction) + if takes then [endpoint] else []
  {
    assert (endpoints + [endpoint])[..|endpoints|] == endpoints;
  }

  /** The k-th of the endpoints has got the k-th of these POSTs. */
  ghost predicate AllPosted(posts: seq<Posted>, endpoints: seq<Endpoint>, event: Event) {
    && |posts| == |endpoints|
    && forall k :: 0 <= k < |posts| ==>
         && posts[k].endpoint == endpoints[k].id
         && posts[k].post.eventId == event.eventId && posts[k].post.body == event.body
  }

  /** These rows are those of the endpoints whose row could be written, in order. */
  ghost predicate AllWritten(rows: seq<Delivery>, endpoints: seq<Endpoint>, event: Event, outcomes: seq<Outcome>) {
    && |endpoints| <= |outcomes| && |rows| == Written(outcomes, |endpoints|)
    && forall k :: 0 <= k < |endpoints| && outcomes[k].written ==>
         Written(outcomes, k) < |rows| && RowFor(rows[Written(outcomes, k)], endpoints[k], event, outcomes[k])
  }

  /** The k-th of the results tells of the k-th of the endpoints. */
  ghost predicate AllReported(results: seq<DeliveryResult>, endpoints: seq<Endpoint>, outcomes: seq<Outcome>) {
    && |results| == |endpoints| <= |outcomes|
    && forall k :: 0 <= k < |results| ==>
         results[k] == DeliveryResult(endpoints[k].id, outcomes[k].Success(), outcomes[k].status)
  }

  lemma OneMorePosted(posts: seq<Posted>, endpoints: seq<Endpoint>, event: Event, p: Posted, endpoint: Endpoint)
    requires AllPosted(posts, endpoints, event)
    requires p.endpoint == endpoint.id && p.post.eventId == event.eventId && p.post.body == event.body
    ensures AllPosted(posts + [p], endpoints + [endpoint], event)
  {
  }

  lemma OneMoreWritten(rows: seq<Delivery>, row: Delivery, endpoints: seq<Endpoint>, event: Event,
                       outcomes: seq<Outcome>, endpoint: Endpoint)
    requires AllWritten(rows, endpoints, event, outcomes) && |endpoints| < |outcomes|
    requires RowFor(row, endpoint, event, outcomes[|endpoints|])
    ensures var rows' := if outcomes[|endpoints|].written then rows + [row] else rows;
      AllWritten(rows', endpoints + [endpoint], event, outcomes)
  {
    var all := endpoints + [endpoint];
    var rows' := if outcomes[|endpoints|].written then rows + [row] else rows;
    assert Written(outcomes, |all|) == Written(outcomes, |endpoints|) + if outcomes[|endpoints|].written then 1 else 0;
    forall k | 0 <= k < |all| && outcomes[k].written
      ensures Written(outcomes, k) < |rows'| && RowFor(rows'[Written(outcomes, k)], all[k], event, outcomes[k])
    {
      assert k < |endpoints| ==> all[k] == endpoints[k];
    }
  }

  /** The rows from n on are of this event and this dispatch. */
  ghost predicate NewRows(ds: seq<Delivery>, ts: seq<Trail>, n: nat, event: Event, dispatch: nat, checked: bool) {
    |ts| == |ds| && forall k :: n <= k < |ds| ==>
      OfEvent(ds[k], event) && ts[k].dispatch == dispatch && ts[k].checked == checked
  }

  lemma TurnAdded(ds: seq<Delivery>, ts: seq<Trail>, n: nat, event: Event, row: Delivery, trail: Trail)
    requires NewRows(ds, ts, n, event, trail.dispatch, trail.checked) && OfEvent(row, event)
    ensures NewRows(ds + [row], ts + [trail], n, event, trail.dispatch, trail.checked)
  {
  }

  lemma TurnReported(results: seq<DeliveryResult>, done: seq<Endpoint>, outcomes: seq<Outcome>, endpoint: Endpoint)
    requires AllReported(results, done, outcomes) && |done| < |outcomes|
    ensures var outcome := outcomes[|done|];
      var result := DeliveryResult(endpoint.id, outcome.Success(), outcome.status);
      AllReported(results + [result], done + [endpoint], outcomes)
  {
  }

  lemma TurnPosted(before: seq<Posted>, posts: seq<Posted>, done: seq<Endpoint>, event: Event, endpoint: Endpoint,
                   at: int)
    requires before <= posts && AllPosted(posts[|before|..], done, event)
    ensures var posts' := posts + [Posted(endpoint.id, Post(event.eventId, event.body, at))];
      AllPosted(posts'[|before|..], done + [endpoint], event)
  {
    var p := Posted(endpoint.id, Post(event.eventId, event.body, at));
    assert (posts + [p])[|before|..] == posts[|before|..] + [p];
    OneMorePosted(posts[|before|..], done, event, p, endpoint);
  }

  lemma TurnWritten(before: seq<Delivery>, rows: seq<Delivery>, row: Delivery, done: seq<Endpoint>, event: Event,
                    outcomes: seq<Outcome>, endpoint: Endpoint)
    requires before <= rows && AllWritten(rows[|before|..], done, event, outcomes) && |done| < |outcomes|
    requires RowFor(row, endpoint, event, outcomes[|done|])
    ensures var rows' := if outcomes[|done|].written then rows + [row] else rows;
      AllWritten(rows'[|before|..], done + [endpoint], event, outcomes)
  {
    assert (rows + [row])[|before|..] == rows[|before|..] + [row];
    OneMoreWritten(rows[|before|..], row, done, event, outcomes, endpoint);
  }

  datatype DeliveryResult = DeliveryResult(endpoint: string, delivered: bool, statusCode: int)

  datatype DispatchError = MissingEventType | RepositoryError

  predicate NoLater(a: Delivery, b: Delivery) {
    a.nextAttemptAt.Some? && b.nextAttemptAt.Some? && a.nextAttemptAt.value <= b.nextAttemptAt.value
  }

  /** WHERE status = 'retrying' AND next_attempt_at <= now ORDER BY next_attempt_at ASC LIMIT. */
  ghost predicate SelectsDue(deliveries: seq<Delivery>, ids: seq<nat>, now: int, limit: nat) {
    && (forall i, j :: 0 <= i < j < |ids| ==> ids[i] != ids[j])
    && (forall i :: 0 <= i < |ids| ==>
          ids[i] < |deliveries| && deliveries[ids[i]].nextAttemptAt.Some?
          && deliveries[ids[i]].status == Retrying && deliveries[ids[i]].nextAttemptAt.value <= now)
    && (forall i, j :: 0 <= i < j < |ids| ==>
          deliveries[ids[i]].nextAttemptAt.value <= deliveries[ids[j]].nextAttemptAt.value)
    && |ids| <= limit
    && (forall k :: 0 <= k < |deliveries| && deliveries[k].status == Retrying && deliveries[k].nextAttemptAt.Some?
                    && deliveries[k].nextAttemptAt.value <= now && k !in ids ==>
          |ids| == limit && forall i :: 0 <= i < |ids| ==>
            deliveries[ids[i]].nextAttemptAt.value <= deliveries[k].nextAttemptAt.value)
  }

  /** The due rows, of which ids come first in order, and rest has not been picked. */
  ghost predicate Picked(deliveries: seq<Delivery>, ids: seq<nat>, due: set<nat>, rest: set<nat>) {
    && rest <= due && (forall k <- due :: k < |deliveries|)
    && (forall k <- due :: k in rest <==> k !in ids)
    && (forall i :: 0 <= i < |ids| ==> ids[i] in due)
    && (forall i, j :: 0 <= i < j < |ids| ==> ids[i] != ids[j])
    && (forall i, j :: 0 <= i < j < |ids| ==> NoLater(deliveries[ids[i]], deliveries[ids[j]]))
    && (forall i, k :: 0 <= i < |ids| && k in rest ==> NoLater(deliveries[ids[i]], deliveries[k]))
  }

  lemma PickNext(deliveries: seq<Delivery>, ids: seq<nat>, due: set<nat>, rest: set<nat>, first: nat)
    requires Picked(deliveries, ids, due, rest) && first in rest
    requires forall k <- rest :: NoLater(deliveries[first], deliveries[k])
    ensures Picked(deliveries, ids + [first], due, rest - {first})
  {
  }

  ghost predicate TableOk(ds: seq<Delivery>, ts: seq<Trail>, now: int, dispatches: nat, window: int) {
    && |ts| == |ds|
    && (forall i :: 0 <= i < |ds| ==> RowOk(ds[i]) && TrailOk(ds[i], ts[i], now) && ts[i].dispatch <= dispatches)
    && Deduplicated(ds, ts, window)
  }

  /** An update of a row that is not of its identity. */
  lemma RowUpdated(ds: seq<Delivery>, ts: seq<Trail>, now: int, dispatches: nat, window: int, id: nat, d: Delivery,
                   t: Trail)
    requires TableOk(ds, ts, now, dispatches, window) && id < |ds|
    requires RowOk(d) && TrailOk(d, t, now)
    requires d.(status := ds[id].status, attempts := ds[id].attempts, responseStatus := ds[id].responseStatus,
                nextAttemptAt := ds[id].nextAttemptAt, deliveredAt := ds[id].deliveredAt) == ds[id]
    requires t.(posts := ts[id].posts, lost := ts[id].lost) == ts[id]
    ensures TableOk(ds[id := d], ts[id := t], now, dispatches, window)
    ensures OnlyRow(ds, ts, ds[id := d], ts[id := t], id)
  {
  }

  /** Nothing but the row id has changed, and no row was added. */
  ghost predicate OnlyRow(ds: seq<Delivery>, ts: seq<Trail>, ds': seq<Delivery>, ts': seq<Trail>, id: nat) {
    && |ts| == |ds| == |ds'| == |ts'| && id < |ds|
    && (forall k :: 0 <= k < |ds| && k != id ==> ds'[k] == ds[k] && ts'[k] == ts[k])
    && ts'[id].dispatch == ts[id].dispatch && ts'[id].checked == ts[id].checked
  }

  /** The rows ids have had one more POST each, and the other rows that were there are as they were. */
  ghost predicate Retried(ds: seq<Delivery>, ts: seq<Trail>, ds': seq<Delivery>, ts': seq<Trail>, ids: seq<nat>) {
    && |ts| == |ds| <= |ds'| == |ts'|
    && forall k :: 0 <= k < |ds| ==>
         if k in ids then |ts'[k].posts| == |ts[k].posts| + 1 else ds'[k] == ds[k] && ts'[k] == ts[k]
  }

  lemma RetriedMore(ds: seq<Delivery>, ts: seq<Trail>, ds0: seq<Delivery>, ts0: seq<Trail>,
                    ds1: seq<Delivery>, ts1: seq<Trail>, ids: seq<nat>)
    requires Retried(ds, ts, ds0, ts0, ids) && ds0 <= ds1 && ts0 <= ts1 && |ds1| == |ts1|
    ensures Retried(ds, ts, ds1, ts1, ids)
  {
  }

  lemma RetriedOne(ds: seq<Delivery>, ts: seq<Trail>, ds0: seq<Delivery>, ts0: seq<Trail>,
                   ds1: seq<Delivery>, ts1: seq<Trail>, ids: seq<nat>, id: nat)
    requires Retried(ds, ts, ds0, ts0, ids) && id !in ids && id < |ds| && OnlyRow(ds0, ts0, ds1, ts1, id)
    requires |ts1[id].posts| == |ts0[id].posts| + 1
    ensures Retried(ds, ts, ds1, ts1, ids + [id])
  {
  }

  class WebhookService {
    var deliveries: seq<Delivery> // the table, in the order of insertion
    var clock: int                // the wall clock; it never runs backwards
    var maxAttempts: int
    const dedupeWindow: int
    ghost var trails: seq<Trail>
    ghost var posted: seq<Posted> // every POST, whether or not a row tells of it
    ghost var dispatches: nat

    ghost predicate Valid()
      reads this
    {
      && maxAttempts >= 1
      && TableOk(deliveries, trails, clock, dispatches, dedupeWindow)
    }

    /** NewService: 5 attempts, and a window of ten minutes. */
    constructor (start: int)
      ensures Valid() && deliveries == [] && maxAttempts == 5 && dedupeWindow == 600 * SECOND
    {
      deliveries, clock, maxAttempts, dedupeWindow := [], start, 5, 600 * SECOND;
      trails, dispatches, posted := [], 0, [];
    }

    method SetMaxAttempts(attempts: int)
      requires Valid()
      modifies this`maxAttempts
      ensures Valid() && maxAttempts == if attempts > 0 then attempts else old(maxAttempts)
    {
      if attempts > 0 {
        maxAttempts := attempts;
      }
    }

    method Tick() returns (now: int)
      requires Valid()
      modifies this`clock
      ensures Valid() && now == clock && old(clock) <= clock
    {
      var elapsed :| elapsed >= 0;
      clock := clock + elapsed;
      now := clock;
    }

    // --------------------------------------------------------------- dispatch

    /** HasRecentDelivery. */
    method HasRecentDelivery(tenant: string, direction: string, eventType: string, messageId: string, since: int)
        returns (seen: bool)
      ensures seen <==>
        messageId != "" && exists i ::
          && 0 <= i < |deliveries| && deliveries[i].tenant == tenant && deliveries[i].direction == direction
          && deliveries[i].eventType == eventType && deliveries[i].messageId == messageId
          && deliveries[i].createdAt >= since
    {
      if messageId == "" {
        return false;
      }
      seen := exists i ::
        0 <= i < |deliveries| && Counts(deliveries[i], tenant, direction, eventType, messageId, since);
    }

    /**
     dispatch, taken one at a time, whose lookup is made at time seenAt. An inbound event with a message id is skipped
     exactly when a delivery of it is then at most the window old, unless that lookup fails. Otherwise, unless the
     listing fails, every endpoint that takes the direction gets exactly one POST, in order, and those whose row could
     be written have one more row each.
     */
    method Dispatch(event: Event, rawEventType: string, endpoints: seq<Endpoint>, lookupFails: bool, listFails: bool,
                    outcomes: seq<Outcome>)
        returns (r: Result<seq<DeliveryResult>, DispatchError>, ghost skipped: bool, ghost seenAt: int)
      requires Valid() && |endpoints| <= |outcomes|
      requires forall endpoint <- endpoints :: endpoint.tenant == event.tenant
      modifies this
      ensures Valid() && old(clock) <= seenAt <= clock && maxAttempts == old(maxAttempts)
      ensures old(deliveries) <= deliveries && old(trails) <= trails && old(posted) <= posted
      ensures Text.Trim(rawEventType) == "" <==> r == Err(MissingEventType)
      ensures skipped <==> (Text.Trim(rawEventType) != "" && event.direction == "inbound" && event.messageId != ""
        && !lookupFails && exists i ::
        0 <= i < |old(deliveries)| && OfEvent(old(deliveries)[i], event)
        && old(deliveries)[i].createdAt >= seenAt - dedupeWindow)
      ensures Text.Trim(rawEventType) != "" ==> (r == Err(RepositoryError) <==> !skipped && listFails)
      ensures r.Err? || skipped ==> deliveries == old(deliveries) && posted == old(posted) && (r.Ok? ==> r.value == [])
      ensures r.Ok? && !skipped ==> var selected := Selected(endpoints, event.direction);
        && AllPosted(posted[|old(posted)|..], selected, event)
        && AllWritten(deliveries[|old(deliveries)|..], selected, event, outcomes)
        && AllReported(r.value, selected, outcomes)
      ensures NewRows(deliveries, trails, |old(deliveries)|, event, dispatches, Dedupes(event) && !lookupFails)
      ensures Text.Trim(rawEventType) != "" ==> dispatches == old(dispatches) + 1
    {
      skipped, seenAt := false, clock;
      if Text.Trim(rawEventType) == "" {
        r := Err(MissingEventType);
        return;
      }
      dispatches := dispatches + 1;
      if event.direction == "inbound" && event.messageId != "" {
        var seen := CheckDuplicate(event, lookupFails);
        seenAt := clock;
        if seen {
          r, skipped := Ok([]), true;
          return;
        }
      }
      if listFails {
        r := Err(RepositoryError);
        return;
      }
      var results := DeliverAll(event, endpoints, outcomes, Dedupes(event) && !lookupFails);
      r := Ok(results);
    }

    /** The dedupe lookup; when it fails the event counts as new. */
    method CheckDuplicate(event: Event, fails: bool) returns (seen: bool)
      requires Valid() && Dedupes(event)
      modifies this`clock
      ensures Valid() && old(clock) <= clock
      ensures seen <==> !fails && exists i ::
        0 <= i < |deliveries| && OfEvent(deliveries[i], event) && deliveries[i].createdAt >= clock - dedupeWindow
    {
      var now := Tick();
      seen := HasRecentDelivery(event.tenant, event.direction, event.eventType, event.messageId, now - dedupeWindow);
      assert forall i :: 0 <= i < |deliveries| ==>
        (Counts(deliveries[i], event.tenant, event.direction, event.eventType, event.messageId, now - dedupeWindow)
         <==> OfEvent(deliveries[i], event) && deliveries[i].createdAt >= now - dedupeWindow);
      if fails {
        seen := false;
      }
    }

    /** The loop over the endpoints. */
    method DeliverAll(event: Event, endpoints: seq<Endpoint>, outcomes: seq<Outcome>, ghost checked: bool)
        returns (results: seq<DeliveryResult>)
      requires Valid() && |endpoints| <= |outcomes| && forall endpoint <- endpoints :: endpoint.tenant == event.tenant
      requires checked ==> Clear(deliveries, trails, event, dispatches, dedupeWindow, clock)
      modifies this`deliveries, this`trails, this`clock, this`posted
      ensures Valid() && old(clock) <= clock
      ensures old(deliveries) <= deliveries && old(trails) <= trails && old(posted) <= posted
      ensures NewRows(deliveries, trails, |old(deliveries)|, event, dispatches, checked)
      ensures var selected := Selected(endpoints, event.direction);
        && AllPosted(posted[|old(posted)|..], selected, event)
        && AllWritten(deliveries[|old(deliveries)|..], selected, event, outcomes)
        && AllReported(results, selected, outcomes)
    {
      results := [];
      ghost var done: seq<Endpoint> := [];
      for i := 0 to |endpoints|
        invariant Valid() && old(clock) <= clock
        invariant old(deliveries) <= deliveries && old(trails) <= trails && old(posted) <= posted
        invariant NewRows(deliveries, trails, |old(deliveries)|, event, dispatches, checked)
        invariant checked ==> Clear(deliveries, trails, event, dispatches, dedupeWindow, clock)
        invariant done == Selected(endpoints[..i], event.direction) && |done| <= i
        invariant AllPosted(posted[|old(posted)|..], done, event) && AllReported(results, done, outcomes)
        invariant AllWritten(deliveries[|old(deliveries)|..], done, event, outcomes)
      {
        assert endpoints[..i + 1][..i] == endpoints[..i];
        if (event.direction == "inbound" && endpoints[i].inbound)
          || (event.direction != "inbound" && endpoints[i].outbound) {
          results := DeliverNext(endpoints[i], event, outcomes, results, checked, done,
                                 old(posted), old(deliveries));
          done := done + [endpoints[i]];
        }
      }
      assert endpoints[..|endpoints|] == endpoints;
    }

    /** One turn of the loop, for the endpoint after those done. */
    method DeliverNext(endpoint: Endpoint, event: Event, outcomes: seq<Outcome>, results: seq<DeliveryResult>,
                       ghost checked: bool, ghost done: seq<Endpoint>,
                       ghost posted0: seq<Posted>, ghost rows0: seq<Delivery>)
        returns (results': seq<DeliveryResult>)
      requires Valid() && endpoint.tenant == event.tenant && |done| < |outcomes| && rows0 <= deliveries
      requires posted0 <= posted
      requires NewRows(deliveries, trails, |rows0|, event, dispatches, checked)
      requires checked ==> Clear(deliveries, trails, event, dispatches, dedupeWindow, clock)
      requires AllPosted(posted[|posted0|..], done, event) && AllReported(results, done, outcomes)
      requires AllWritten(deliveries[|rows0|..], done, event, outcomes)
      modifies this`deliveries, this`trails, this`clock, this`posted
      ensures Valid() && old(clock) <= clock
      ensures old(deliveries) <= deliveries && old(trails) <= trails && old(posted) <= posted
      ensures NewRows(deliveries, trails, |rows0|, event, dispatches, checked)
      ensures checked ==> Clear(deliveries, trails, event, dispatches, dedupeWindow, clock)
      ensures AllPosted(posted[|posted0|..], done + [endpoint], event)
      ensures AllReported(results', done + [endpoint], outcomes)
      ensures AllWritten(deliveries[|rows0|..], done + [endpoint], event, outcomes)
    {
      ghost var posts, rows, histories := posted, deliveries, trails;
      ghost var row, sentAt;
      var result;
      result, row, sentAt := Deliver(endpoint, event, outcomes[|results|], checked);
      results' := results + [result];
      TurnReported(results, done, outcomes, endpoint);
      TurnPosted(posted0, posts, done, event, endpoint, sentAt);
      TurnWritten(rows0, rows, row, done, event, outcomes, endpoint);
      ghost var trail := Trail([Post(event.eventId, event.body, sentAt)], 0, dispatches, checked);
      TurnAdded(rows, histories, |rows0|, event, row, trail);
    }

    /** deliver: one POST, then the insert of its row, which may fail; the row keeps the current maximum of attempts. */
    method Deliver(endpoint: Endpoint, event: Event, outcome: Outcome, ghost checked: bool)
        returns (result: DeliveryResult, ghost row: Delivery, ghost sentAt: int)
      requires Valid() && endpoint.tenant == event.tenant
      requires checked ==> Clear(deliveries, trails, event, dispatches, dedupeWindow, clock)
      modifies this`deliveries, this`trails, this`clock, this`posted
      ensures Valid() && old(clock) <= sentAt <= clock
      ensures checked ==> Clear(deliveries, trails, event, dispatches, dedupeWindow, clock)
      ensures result == DeliveryResult(endpoint.id, outcome.Success(), outcome.status)
      ensures result.delivered <==> outcome.responded && 200 <= outcome.status <= 299
      ensures posted == old(posted) + [Posted(endpoint.id, Post(event.eventId, event.body, sentAt))]
      ensures RowFor(row, endpoint, event, outcome) && row.maxAttempts == maxAttempts && row.createdAt == clock
      ensures deliveries == (if outcome.written then old(deliveries) + [row] else old(deliveries))
      ensures trails == if outcome.written
        then old(trails) + [Trail([Post(event.eventId, event.body, sentAt)], 0, dispatches, checked)] else old(trails)
    {
      var at := SendOnce(endpoint.id, event.eventId, event.body);
      var now := Tick();
      var delivered := outcome.responded && outcome.status >= 200 && outcome.status < 300;
      result := DeliveryResult(endpoint.id, delivered, outcome.status);
      var d := FirstRow(endpoint, event, outcome, now);
      row, sentAt := d, at;
      FirstAttemptOk(endpoint, event, maxAttempts, outcome.Success(), outcome.status, at, now, dispatches, checked);
      CreateDelivery(d, Trail([Post(event.eventId, event.body, at)], 0, dispatches, checked), event, outcome.written);
    }

    /** sendOnce. */
    method SendOnce(endpoint: string, eventId: string, body: string) returns (at: int)
      requires Valid()
      modifies this`clock, this`posted
      ensures Valid() && old(clock) <= at == clock
      ensures posted == old(posted) + [Posted(endpoint, Post(eventId, body, at))]
    {
      at := Tick();
      posted := posted + [Posted(endpoint, Post(eventId, body, at))];
    }

    /** The row that deliver fills in. */
    method FirstRow(endpoint: Endpoint, event: Event, outcome: Outcome, now: int) returns (d: Delivery)
      requires endpoint.tenant == event.tenant
      ensures d == FirstAttempt(endpoint, event, maxAttempts, outcome.Success(), outcome.status, now)
      ensures RowFor(d, endpoint, event, outcome) && d.maxAttempts == maxAttempts && d.createdAt == now
    {
      d := Delivery(endpoint.tenant, endpoint.id, endpoint.url, event.direction, event.eventType, event.eventId,
                    event.messageId, Retrying, 0, maxAttempts, 0, event.body, None, None, now);
      d := d.(attempts := 1);
      d := d.(responseStatus := outcome.status);
      if outcome.responded && outcome.status >= 200 && outcome.status < 300 {
        d := d.(status := Delivered);
        d := d.(deliveredAt := Some(now));
      } else {
        d := Scheduled(d, 1, now);
      }
    }

    /** CreateDelivery; when it fails, the row is missing. */
    method CreateDelivery(d: Delivery, ghost trail: Trail, ghost event: Event, works: bool)
      requires Valid() && RowOk(d) && TrailOk(d, trail, clock) && trail.dispatch == dispatches
      requires OfEvent(d, event) && d.createdAt == clock
      requires trail.checked ==> Clear(deliveries, trails, event, dispatches, dedupeWindow, clock)
      modifies this`deliveries, this`trails
      ensures Valid()
      ensures trail.checked ==> Clear(deliveries, trails, event, dispatches, dedupeWindow, clock)
      ensures deliveries == (if works then old(deliveries) + [d] else old(deliveries))
      ensures trails == (if works then old(trails) + [trail] else old(trails))
    {
      if works {
        deliveries := deliveries + [d];
        trails := trails + [trail];
      }
    }

    // ---------------------------------------------------------------- retries

    /** The due row that comes first among rest. */
    method EarliestDue(rest: set<nat>, now: int) returns (first: nat)
      requires rest != {} && forall k <- rest :: k < |deliveries| && Due(deliveries[k], now)
      ensures first in rest && forall k <- rest :: NoLater(deliveries[first], deliveries[k])
    {
      first :| first in rest;
      var unseen := rest - {first};
      while unseen != {}
        invariant unseen <= rest && first in rest
        invariant forall k <- rest :: k !in unseen ==> NoLater(deliveries[first], deliveries[k])
        decreases unseen
      {
        var k :| k in unseen;
        if !NoLater(deliveries[first], deliveries[k]) {
          first := k;
        }
        unseen := unseen - {k};
      }
    }

    /** ListDueRetries. */
    method ListDueRetries(now: int, limit: int) returns (ids: seq<nat>)
      ensures SelectsDue(deliveries, ids, now, if limit <= 0 then 50 else limit)
    {
      var most: nat := if limit <= 0 then 50 else limit;
      var due := set k: nat | k < |deliveries| && Due(deliveries[k], now);
      var rest := due;
      ids := [];
      while rest != {} && |ids| < most
        invariant |ids| <= most && Picked(deliveries, ids, due, rest)
        decreases rest
      {
        var first := EarliestDue(rest, now);
        PickNext(deliveries, ids, due, rest, first);
        ids := ids + [first];
        rest := rest - {first};
      }
    }

    /** Dispatches of other goroutines between two retries; they only append rows. */
    method Others()
      requires Valid()
      modifies this
      ensures Valid() && old(clock) <= clock && old(deliveries) <= deliveries && old(trails) <= trails
    {
      var n :| n >= 0;
      for i := 0 to n
        invariant Valid() && old(clock) <= clock && old(deliveries) <= deliveries && old(trails) <= trails
      {
        var event: Event, raw: string, endpoints: seq<Endpoint> := *, *, *;
        var lookupFails: bool, listFails: bool, outcomes: seq<Outcome> := *, *, *;
        if |endpoints| <= |outcomes| && forall endpoint <- endpoints :: endpoint.tenant == event.tenant {
          var r, skipped, seenAt := Dispatch(event, raw, endpoints, lookupFails, listFails, outcomes);
        }
      }
    }

    /**
     processDueRetries, cancelled after that many rows: each of the due rows before that gets exactly one more POST,
     and no other row that was there changes, whatever is dispatched meanwhile.
     */
    method ProcessDueRetries(listFails: bool, cancelledAfter: nat) returns (ghost ids: seq<nat>, ghost at: int)
      requires Valid()
      modifies this
      ensures Valid() && old(clock) <= at <= clock
      ensures if listFails then ids == [] else SelectsDue(old(deliveries), ids, at, 50)
      ensures |old(deliveries)| <= |deliveries|
      ensures Retried(old(deliveries), old(trails), deliveries, trails,
                      if |ids| <= cancelledAfter then ids else ids[..cancelledAfter])
    {
      var now := Tick();
      ids, at := [], now;
      if listFails {
        return;
      }
      var listed := ListDueRetries(now, 50);
      ids := listed;
      var due := Copies(listed);
      RetryAll(listed, due, cancelledAfter);
    }

    /** The loop over the due rows. */
    method RetryAll(ids: seq<nat>, due: seq<Delivery>, cancelledAfter: nat)
      requires Valid() && |due| == |ids|
      requires forall k :: 0 <= k < |ids| ==>
        ids[k] < |deliveries| && due[k] == deliveries[ids[k]] && Due(due[k], clock)
      requires forall i, j :: 0 <= i < j < |ids| ==> ids[i] != ids[j]
      modifies this
      ensures Valid() && old(clock) <= clock
      ensures Retried(old(deliveries), old(trails), deliveries, trails,
                      if |ids| <= cancelledAfter then ids else ids[..cancelledAfter])
    {
      for i := 0 to |ids|
        invariant i <= cancelledAfter
        invariant Valid() && old(clock) <= clock
        invariant Retried(old(deliveries), old(trails), deliveries, trails, ids[..i])
      {
        if cancelledAfter == i {
          return;
        }
        assert ids[..i + 1] == ids[..i] + [ids[i]] && ids[i] !in ids[..i];
        RetryNext(old(deliveries), old(trails), ids[..i], ids[i], due[i]);
      }
      assert ids[..|ids|] == ids;
    }

    /** The rows with these ids, as Find copies them. */
    method Copies(ids: seq<nat>) returns (rows: seq<Delivery>)
      requires forall k :: 0 <= k < |ids| ==> ids[k] < |deliveries|
      ensures |rows| == |ids| && forall k :: 0 <= k < |ids| ==> rows[k] == deliveries[ids[k]]
    {
      rows := [];
      for i := 0 to |ids|
        invariant |rows| == i && forall k :: 0 <= k < i ==> rows[k] == deliveries[ids[k]]
      {
        rows := rows + [deliveries[ids[i]]];
      }
    }

    /** One turn of the loop: other goroutines, then the retry of the next row. */
    method RetryNext(ghost ds: seq<Delivery>, ghost ts: seq<Trail>, ghost done: seq<nat>, id: nat, copy: Delivery)
      requires Valid() && Retried(ds, ts, deliveries, trails, done)
      requires id !in done && id < |ds| && copy == ds[id] && Due(copy, clock)
      modifies this
      ensures Valid() && old(clock) <= clock
      ensures Retried(ds, ts, deliveries, trails, done + [id])
    {
      ghost var deliveries0, trails0 := deliveries, trails;
      Others();
      RetriedMore(ds, ts, deliveries0, trails0, deliveries, trails, done);
      deliveries0, trails0 := deliveries, trails;
      var outcome: Outcome := *;
      RetryDelivery(id, copy, outcome);
      RetriedOne(ds, ts, deliveries0, trails0, deliveries, trails, done, id);
    }

    /** retryDelivery: one more POST of the same event; the update of the row may be lost. */
    method RetryDelivery(id: nat, copy: Delivery, outcome: Outcome)
      requires Valid() && id < |deliveries| && copy == deliveries[id] && Due(copy, clock)
      modifies this`deliveries, this`trails, this`clock, this`posted
      ensures Valid() && old(clock) <= clock
      ensures OnlyRow(old(deliveries), old(trails), deliveries, trails, id)
      ensures |posted| == |old(posted)| + 1 && old(posted) <= posted
      ensures var last := posted[|posted| - 1];
        && last == Posted(copy.endpoint, Post(copy.eventId, copy.body, last.post.at))
        && old(clock) <= last.post.at <= clock
        && trails[id].posts == old(trails)[id].posts + [last.post]
      ensures if outcome.written
        then deliveries[id].attempts == copy.attempts + 1 && AttemptWrites(deliveries[id], outcome, clock)
             && SameDelivery(deliveries[id], copy) && trails[id].lost == old(trails)[id].lost
        else deliveries[id] == copy && trails[id].lost == old(trails)[id].lost + 1
    {
      var sentAt := SendOnce(copy.endpoint, copy.eventId, copy.body);
      var now := Tick();
      var d := NextRow(copy, outcome, now);
      NextAttemptOk(copy, trails[id], outcome.Success(), outcome.status, sentAt, now);
      LostAttemptOk(copy, trails[id], sentAt, now);
      UpdateDelivery(id, copy, d, sentAt, outcome.written);
    }

    /** The row that retryDelivery fills in. */
    method NextRow(copy: Delivery, outcome: Outcome, now: int) returns (d: Delivery)
      requires copy.attempts >= 0
      ensures d == NextAttempt(copy, outcome.Success(), outcome.status, now)
      ensures copy.deliveredAt == None ==>
        d.attempts == copy.attempts + 1 && AttemptWrites(d, outcome, now) && SameDelivery(d, copy)
    {
      d := copy;
      d := d.(attempts := d.attempts + 1);
      d := d.(responseStatus := outcome.status);
      if outcome.responded && outcome.status >= 200 && outcome.status < 300 {
        d := d.(status := Delivered);
        d := d.(deliveredAt := Some(now));
        d := d.(nextAttemptAt := None);
      } else {
        d := Scheduled(d, d.attempts, now);
      }
    }

    /** UpdateDelivery, after a POST at sentAt. */
    method UpdateDelivery(id: nat, ghost copy: Delivery, d: Delivery, ghost sentAt: int, works: bool)
      requires Valid() && id < |deliveries| && copy == deliveries[id]
      requires var t := trails[id].(posts := trails[id].posts + [Post(copy.eventId, copy.body, sentAt)]);
        RowOk(d) && TrailOk(d, t, clock) && TrailOk(copy, t.(lost := t.lost + 1), clock)
      requires d.(status := copy.status, attempts := copy.attempts, responseStatus := copy.responseStatus,
                  nextAttemptAt := copy.nextAttemptAt, deliveredAt := copy.deliveredAt) == copy
      modifies this`deliveries, this`trails
      ensures Valid()
      ensures OnlyRow(old(deliveries), old(trails), deliveries, trails, id)
      ensures trails[id].posts == old(trails)[id].posts + [Post(copy.eventId, copy.body, sentAt)]
      ensures if works then deliveries[id] == d && trails[id].lost == old(trails)[id].lost
        else deliveries[id] == copy && trails[id].lost == old(trails)[id].lost + 1
    {
      ghost var posts := trails[id].posts + [Post(copy.eventId, copy.body, sentAt)];
      if works {
        RowUpdated(deliveries, trails, clock, dispatches, dedupeWindow, id, d, trails[id].(posts := posts));
        deliveries := deliveries[id := d];
        trails := trails[id := trails[id].(posts := posts)];
      } else {
        ghost var t := trails[id].(posts := posts, lost := trails[id].lost + 1);
        RowUpdated(deliveries, trails, clock, dispatches, dedupeWindow, id, copy, t);
        assert deliveries[id := copy] == deliveries;
        trails := trails[id := t];
      }
    }
  }

  /**
   The life of a delivery row: it is POSTed once per recorded attempt and once per lost update, always with the same
   event id and body; its status says whether it waits for a retry, was delivered, or used up its attempts; and if it
   failed after at most 30 attempts, the last came at least the sum of the intended backoffs after the first.
   */
  lemma DeliveryBudget(s: WebhookService, i: nat)
    requires s.Valid() && i < |s.deliveries|
    ensures var d, t := s.deliveries[i], s.trails[i];
      && |t.posts| == d.attempts + t.lost <= d.maxAttempts + t.lost
      && (forall p <- t.posts :: p.eventId == d.eventId && p.body == d.body)
      && (d.status.Retrying? <==> d.nextAttemptAt.Some?) && (d.status.Retrying? ==> d.attempts < d.maxAttempts)
      && (d.status.Failed? ==> d.attempts == d.maxAttempts)
      && (d.status.Delivered? <==> d.deliveredAt.Some?)
      && (d.status.Failed? && d.maxAttempts <= 30 ==>
            t.posts[0].at + TotalDoubling(d.maxAttempts - 1) <= t.posts[|t.posts| - 1].at)
  {
    var d := s.deliveries[i];
    if d.status.Failed? && d.maxAttempts <= 30 {
      TotalsAgree(d.maxAttempts - 1);
    }
  }

  /**
   Two dispatches of one inbound event that both created deliveries lie more than the window apart, if the lookup of
   the later one did not fail.
   */
  lemma DispatchesAreDeduplicated(s: WebhookService, i: nat, j: nat)
    requires s.Valid() && i < j < |s.deliveries| && s.trails[j].checked
    requires SameInbound(s.deliveries[i], s.deliveries[j]) && s.trails[i].dispatch != s.trails[j].dispatch
    ensures s.deliveries[i].createdAt + s.dedupeWindow < s.deliveries[j].createdAt
  {
  }
}
