/** Successive flushes of the outbox work a backlog off from its oldest end. */
module AnalyticsBacklog {
  import opened AnalyticsOutbox

  /** The other pending events that occurred (then were created) no later. */
  ghost function InFront(outbox: Outbox, e: EventId): set<EventId>
    requires e in outbox
  {
    set k | k in outbox && k != e && Pending(outbox[k])
      && (outbox[k].occurredAt < outbox[e].occurredAt
          || (outbox[k].occurredAt == outbox[e].occurredAt && outbox[k].createdAt <= outbox[e].createdAt))
  }

  /** Between two flushes nothing happens but that events are enqueued that occurred (then were created)
    * later than `e`. */
  ghost predicate OnlyLaterEvents(earlier: Outbox, later: Outbox, e: EventId)
    requires e in earlier
  {
    && earlier.Keys <= later.Keys && (forall k :: k in earlier ==> later[k] == earlier[k])
    && forall k :: k in later && k !in earlier ==>
         later[k].occurredAt > earlier[e].occurredAt
         || (later[k].occurredAt == earlier[e].occurredAt && later[k].createdAt > earlier[e].createdAt)
  }

  /** A series of flushes whose dispatches are all sent or stored. */
  ghost predicate Series(before: seq<Outbox>, after: seq<Outbox>, batches: seq<set<EventId>>, size: int, e: EventId) {
    && |before| == |after| == |batches|
    && (forall i :: 0 <= i < |batches| ==> e in before[i] && Flushes(before[i], after[i], batches[i], size))
    && (forall i, b :: 0 <= i < |batches| && b in batches[i] ==> after[i][b].status in ["sent", "stored"])
    && forall i :: 0 <= i < |batches| - 1 ==> OnlyLaterEvents(after[i], before[i + 1], e)
  }

  /** A flush that leaves a pending event out takes a full batch of those in front of it. */
  lemma {:induction false} FlushTakesTheFront(before: Outbox, after: Outbox, batch: set<EventId>, size: int, e: EventId)
    requires Flushes(before, after, batch, size) && e in before && Pending(before[e]) && e !in batch
    requires forall b :: b in batch ==> after[b].status in ["sent", "stored"]
    ensures after[e] == before[e] && batch <= InFront(before, e) && InFront(after, e) == InFront(before, e) - batch
    ensures |InFront(after, e)| == |InFront(before, e)| - size
  {
    var front, rest := InFront(before, e), InFront(after, e);
    forall k ensures k in rest <==> k in front - batch {
      if k in batch { assert after[k].status in ["sent", "stored"]; }
    }
    assert front == rest + batch;
  }

  lemma {:induction false} NobodyJumpsIn(earlier: Outbox, later: Outbox, e: EventId)
    requires e in earlier && OnlyLaterEvents(earlier, later, e)
    ensures InFront(later, e) == InFront(earlier, e)
  {}

  lemma {:induction false} DispatchedWithin(before: seq<Outbox>, after: seq<Outbox>, batches: seq<set<EventId>>, size: int, e: EventId)
    returns (i: nat)
    requires size > 0 && batches != [] && Series(before, after, batches, size, e)
    requires Pending(before[0][e]) && |InFront(before[0], e)| < |batches| * size
    ensures i < |batches| && e in batches[i]
    decreases |batches|
  {
    if e in batches[0] {
      return 0;
    }
    FlushTakesTheFront(before[0], after[0], batches[0], size, e);
    assert (|batches| - 1) * size == |batches| * size - size;
    assert |batches| > 1;
    NobodyJumpsIn(after[0], before[1], e);
    TailOfSeries(before, after, batches, size, e);
    hide Series, InFront;
    i := DispatchedWithin(before[1..], after[1..], batches[1..], size, e);
    i := i + 1;
  }

  lemma {:induction false} TailOfSeries(before: seq<Outbox>, after: seq<Outbox>, batches: seq<set<EventId>>, size: int, e: EventId)
    requires |batches| > 1 && Series(before, after, batches, size, e)
    ensures Series(before[1..], after[1..], batches[1..], size, e)
  {
    hide Flushes, OnlyLaterEvents;
    assert forall i :: 0 <= i < |batches| - 1 ==>
      before[1..][i] == before[i + 1] && after[1..][i] == after[i + 1] && batches[1..][i] == batches[i + 1];
  }

  /** A pending event with n others in front of it is dispatched by flush number n / size + 1, however many
    * later events are enqueued in between: no event is overtaken for ever. */
  lemma {:induction false} BacklogDrains(before: seq<Outbox>, after: seq<Outbox>, batches: seq<set<EventId>>, size: int, e: EventId)
    returns (i: nat)
    requires size > 0 && batches != [] && Series(before, after, batches, size, e) && Pending(before[0][e])
    requires |batches| == |InFront(before[0], e)| / size + 1
    ensures i < |batches| && e in batches[i]
  {
    EnoughFlushes(|InFront(before[0], e)|, size);
    hide Series, InFront;
    i := DispatchedWithin(before, after, batches, size, e);
  }

  lemma {:induction false} EnoughFlushes(n: nat, size: int)
    requires size > 0
    ensures n < (n / size + 1) * size
  {
    var q := n / size;
    assert n == q * size + n % size;
    assert (q + 1) * size == q * size + size;
  }
}
