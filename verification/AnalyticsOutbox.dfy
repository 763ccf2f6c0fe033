/** `AnalyticsService`: the outbox table and its dispatch. */
module AnalyticsOutbox {
  import opened Options
  import opened Text

  type EventId = nat

  /** A row of `analytics_outbox`; the payload columns take no part in the delivery. */
  datatype Row = Row(status: string, processedAt: Option<int>, attempts: int, lastError: Option<string>,
                     occurredAt: int, createdAt: int)

  type Outbox = map<EventId, Row>

  const ERROR_LIMIT := 1000
  const BATCH := 25

  function DeliveryStatus(requested: string): string {
    var s := Lower(Trim(requested));
    if s == "" then "pending" else s
  }

  function NewRow(status: string, occurredAt: int, now: int): Row {
    Row(DeliveryStatus(status), None, 0, None, occurredAt, now)
  }

  function ErrorText(message: string): Option<string> {
    var m := Trim(message);
    if m == "" then None else Some(if |m| <= ERROR_LIMIT then m else m[..ERROR_LIMIT])
  }

  /** One UPDATE of `markEventDelivery`: only `last_error` can be cleared. */
  datatype Update = Update(processedAt: Option<int>, status: string, attempts: Option<int>, lastError: string)

  function Marked(row: Row, u: Update): Row {
    row.(processedAt := if u.processedAt.Some? then u.processedAt else row.processedAt,
         status := if Trim(u.status) != "" then Trim(u.status) else row.status,
         attempts := u.attempts.GetOr(row.attempts),
         lastError := ErrorText(u.lastError))
  }

  /** What happened to a dispatch: there was no endpoint, the POST succeeded, or something raised. */
  datatype Outcome = Stored | Sent | Raised(message: string)

  /** The update is computed from the row as it was read, not as it is. */
  function UpdateFor(read: Row, outcome: Outcome, now: int): Update {
    match outcome
    case Stored => Update(Some(now), "stored", Some(read.attempts + 1), "")
    case Sent => Update(Some(now), "sent", Some(read.attempts + 1), "")
    case Raised(message) => Update(None, "failed", Some(read.attempts + 1), message)
  }

  /** A row dispatched on its own, from the values it has. */
  function Dispatched(row: Row, outcome: Outcome, now: int): Row {
    Marked(row, UpdateFor(row, outcome, now))
  }

  function OutcomeOf(endpoint: bool, raised: map<EventId, string>, id: EventId): Outcome {
    if !endpoint then Stored else if id in raised then Raised(raised[id]) else Sent
  }

  /** The WHERE clause of `flushPendingEvents`. */
  predicate Selected(row: Row) {
    row.status == "pending" || row.status == "failed"
  }

  predicate NoLater(a: Row, b: Row) {
    a.occurredAt < b.occurredAt || (a.occurredAt == b.occurredAt && a.createdAt <= b.createdAt)
  }

  function Limit(requested: int): (size: int)
    ensures size > 0
  {
    var n := if requested == 0 then BATCH else requested;
    if n < 1 then 1 else if n > 250 then 250 else n
  }

  ghost predicate Pending(row: Row) {
    row.status == "pending" || row.status == "failed"
  }

  /** The batch of a flush, in the columns: the pending rows that occurred (then were created) first, as many
    * as the size allows. */
  ghost predicate Chosen(outbox: Outbox, batch: set<EventId>, size: int) {
    && batch <= outbox.Keys && |batch| <= size
    && (forall b :: b in batch ==> Pending(outbox[b]))
    && forall k :: k in outbox && Pending(outbox[k]) && k !in batch ==>
         && |batch| == size
         && forall b :: b in batch ==>
              outbox[b].occurredAt < outbox[k].occurredAt
              || (outbox[b].occurredAt == outbox[k].occurredAt && outbox[b].createdAt <= outbox[k].createdAt)
  }

  /** One flush: only the rows of its batch change. */
  ghost predicate Flushes(before: Outbox, after: Outbox, batch: set<EventId>, size: int) {
    && Chosen(before, batch, size) && after.Keys == before.Keys
    && forall k :: k in before && k !in batch ==> after[k] == before[k]
  }

  class AnalyticsService {
    var outbox: Outbox
    const endpoint: bool

    constructor (endpoint: bool)
      ensures outbox == map[] && this.endpoint == endpoint
    {
      outbox := map[];
      this.endpoint := endpoint;
    }

    /** The event is not processed and has no attempts; the next flushes select it exactly when the caller
      * asked for no other status than pending or failed. */
    method EnqueueEvent(freshId: EventId, status: string, occurredAt: int, now: int)
      requires freshId !in outbox
      modifies this
      ensures freshId in outbox && outbox - {freshId} == old(outbox)
      ensures outbox[freshId].processedAt.None? && outbox[freshId].attempts == 0 && outbox[freshId].lastError.None?
      ensures outbox[freshId].occurredAt == occurredAt && outbox[freshId].createdAt == now
      ensures outbox[freshId].status == if Trim(status) == "" then "pending" else Lower(Trim(status))
      ensures Selected(outbox[freshId]) <==> Lower(Trim(status)) in ["", "pending", "failed"]
    {
      outbox := outbox[freshId := NewRow(status, occurredAt, now)];
    }

    method MarkEventDelivery(id: EventId, u: Update)
      modifies this
      ensures outbox == if id in old(outbox) then old(outbox)[id := Marked(old(outbox)[id], u)] else old(outbox)
    {
      if id in outbox {
        var row := outbox[id];
        if u.processedAt.Some? { row := row.(processedAt := u.processedAt); }
        if Trim(u.status) != "" { row := row.(status := Trim(u.status)); }
        if u.attempts.Some? { row := row.(attempts := u.attempts.value); }
        outbox := outbox[id := row.(lastError := ErrorText(u.lastError))];
      }
    }

    /** `raised`: what the POST, or the update after it, threw. True if the dispatch itself throws. */
    method DispatchOutboxRow(id: EventId, read: Row, raised: Option<string>, now: int) returns (threw: bool)
      modifies this
      ensures var outcome := if !endpoint then Stored else if raised.None? then Sent else Raised(raised.value);
        && outbox == (if id in old(outbox) then old(outbox)[id := Marked(old(outbox)[id], UpdateFor(read, outcome, now))] else old(outbox))
        && (threw <==> outcome.Raised?)
    {
      if !endpoint {
        MarkEventDelivery(id, UpdateFor(read, Stored, now));
        return false;
      }
      if raised.None? {
        MarkEventDelivery(id, UpdateFor(read, Sent, now));
        return false;
      }
      MarkEventDelivery(id, UpdateFor(read, Raised(raised.value), now));
      threw := true;
    }

    /** The rows are read once, then dispatched one after another; a failure does not stop the rest, and
      * the order in which the SELECT returned them makes no difference. */
    method DispatchPendingEvents(ids: set<EventId>, raised: map<EventId, string>, now: int) returns (failed: set<EventId>)
      modifies this
      ensures outbox.Keys == old(outbox).Keys
      ensures forall k :: k in outbox ==>
        outbox[k] == if k in ids then Dispatched(old(outbox)[k], OutcomeOf(endpoint, raised, k), now) else old(outbox)[k]
      ensures forall k :: k in failed <==> k in ids && k in old(outbox) && endpoint && k in raised
    {
      hide Marked, UpdateFor, ErrorText;
      var rows := map k | k in ids && k in outbox :: outbox[k];
      var rest := rows.Keys;
      ghost var was := outbox;
      failed := {};
      while rest != {}
        invariant rest <= rows.Keys && outbox.Keys == was.Keys
        invariant forall k :: k in rest || k !in ids ==> (k in outbox <==> k in was) && (k in was ==> outbox[k] == was[k])
        invariant forall k :: k in rows && k !in rest ==> outbox[k] == Dispatched(was[k], OutcomeOf(endpoint, raised, k), now)
        invariant forall k :: k in failed <==> k in rows && k !in rest && endpoint && k in raised
        decreases |rest|
      {
        var id :| id in rest;
        var threw := DispatchOutboxRow(id, rows[id], if id in raised then Some(raised[id]) else None, now);
        failed := if threw then failed + {id} else failed;
        rest := rest - {id};
      }
    }

    /** The oldest selected rows, at most `Limit(limit)` of them, are dispatched; no other row is touched. */
    method FlushPendingEvents(limit: int, raised: map<EventId, string>, now: int) returns (batch: set<EventId>)
      modifies this
      ensures Flushes(old(outbox), outbox, batch, Limit(limit))
      ensures outbox.Keys == old(outbox).Keys
      ensures forall k :: k in outbox ==>
        outbox[k] == if k in batch then Dispatched(old(outbox)[k], OutcomeOf(endpoint, raised, k), now) else old(outbox)[k]
    {
      hide Chosen, Limit, Dispatched;
      batch := SelectPending(Limit(limit));
      var failed := DispatchPendingEvents(batch, raised, now);
    }

    /** SELECT ... ORDER BY occurred_at, created_at LIMIT size. */
    method SelectPending(size: int) returns (batch: set<EventId>)
      requires size > 0
      ensures Chosen(outbox, batch, size)
    {
      var rows := outbox;
      var candidates := set k | k in rows && Selected(rows[k]);
      ghost var all := candidates;
      assert forall k :: k in all <==> k in rows && Selected(rows[k]);
      hide Selected, NoLater, Chosen;
      batch := {};
      while candidates != {} && |batch| < size
        invariant candidates !! batch && candidates + batch == all
        invariant |batch| <= size
        invariant forall b, k :: b in batch && k in candidates ==> NoLater(rows[b], rows[k])
        decreases |candidates|
      {
        ghost var first := Oldest(rows, candidates);
        var next :| next in candidates && forall k :: k in candidates ==> NoLater(rows[next], rows[k]);
        batch, candidates := batch + {next}, candidates - {next};
      }
      ChosenBy(rows, all, batch, size);
    }
  }

  lemma {:induction false} ChosenBy(outbox: Outbox, all: set<EventId>, batch: set<EventId>, size: int)
    requires batch <= all && forall k :: k in all <==> k in outbox && Selected(outbox[k])
    requires |batch| <= size && (batch == all || |batch| == size)
    requires forall b, k :: b in batch && k in all && k !in batch ==> NoLater(outbox[b], outbox[k])
    ensures Chosen(outbox, batch, size)
  {
    assert forall b :: b in batch ==> b in all;
  }

  /** At most 250 rows, 25 unless asked otherwise, and never none. */
  lemma {:induction false} LimitMeans(requested: int)
    ensures 1 <= requested <= 250 ==> Limit(requested) == requested
    ensures requested < 0 ==> Limit(requested) == 1
    ensures requested == 0 ==> Limit(requested) == 25
    ensures requested > 250 ==> Limit(requested) == 250
  {}

  /** The error kept is what a message says, cut after a thousand characters. */
  lemma {:induction false} ErrorTextMeans(message: string)
    ensures Trim(message) == "" ==> ErrorText(message).None?
    ensures 0 < |Trim(message)| <= 1000 ==> ErrorText(message) == Some(Trim(message))
    ensures |Trim(message)| > 1000 ==> ErrorText(message) == Some(Trim(message)[..1000])
  {}

  lemma {:induction false} Oldest(outbox: Outbox, s: set<EventId>) returns (id: EventId)
    requires s != {} && s <= outbox.Keys
    ensures id in s && forall k :: k in s ==> NoLater(outbox[id], outbox[k])
    decreases |s|
  {
    var first :| first in s;
    id := first;
    if s != {first} {
      var other := Oldest(outbox, s - {first});
      id := if NoLater(outbox[first], outbox[other]) then first else other;
      forall k | k in s ensures NoLater(outbox[id], outbox[k]) {
        assert k == first || k in s - {first};
      }
    }
  }
}
