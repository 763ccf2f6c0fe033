/** Overlapping dispatchers of the outbox: nothing locks a row between its SELECT and its UPDATE. */
module AnalyticsDelivery {
  import opened Options
  import opened AnalyticsOutbox

  type FlightId = nat

  /** A dispatch in progress: the row it read, and whether its POST has already succeeded. */
  datatype Flight = Flight(event: EventId, read: Row, posted: bool)

  /** `first` is the status a row was enqueued with, `marks` counts the dispatches of a row that have
    * written their result, `delivered` are the events that were posted or stored. */
  datatype State = State(outbox: Outbox, flights: map<FlightId, Flight>, now: int, endpoint: bool,
                         first: map<EventId, string>, marks: map<EventId, nat>, delivered: set<EventId>)

  datatype Action =
    | Enqueue(id: EventId, status: string, occurredAt: int)
    | Tick(elapsed: nat)
    | Read(flight: FlightId, id: EventId)
    | Post(flight: FlightId)
    | MarkStored(flight: FlightId)
    | MarkSent(flight: FlightId)
    | MarkFailed(flight: FlightId, message: string)
    | Vanish(flight: FlightId)

  ghost predicate Init(s: State) {
    s.outbox == map[] && s.flights == map[] && s.first == map[] && s.marks == map[] && s.delivered == {}
  }

  ghost predicate Enabled(s: State, a: Action) {
    match a
    case Enqueue(id, _, _) => id !in s.outbox && id !in s.first
    case Tick(_) => true
    case Read(flight, id) => flight !in s.flights && id in s.outbox
    case Post(flight) => flight in s.flights && s.endpoint && !s.flights[flight].posted
    case MarkStored(flight) => flight in s.flights && !s.endpoint
    case MarkSent(flight) => flight in s.flights && s.endpoint && s.flights[flight].posted
    // also when the POST succeeded and the update after it raised
    case MarkFailed(flight, _) => flight in s.flights && s.endpoint
    case Vanish(flight) => flight in s.flights
  }

  ghost function Land(s: State, flight: FlightId, outcome: Outcome): State
    requires flight in s.flights
  {
    var f := s.flights[flight];
    s.(flights := s.flights - {flight},
       outbox := if f.event in s.outbox then s.outbox[f.event := Marked(s.outbox[f.event], UpdateFor(f.read, outcome, s.now))] else s.outbox,
       marks := if f.event in s.marks then s.marks[f.event := s.marks[f.event] + 1] else s.marks,
       delivered := if outcome == Stored then s.delivered + {f.event} else s.delivered)
  }

  ghost function Apply(s: State, a: Action): State
    requires Enabled(s, a)
  {
    match a
    case Enqueue(id, status, occurredAt) =>
      s.(outbox := s.outbox[id := NewRow(status, occurredAt, s.now)],
         first := s.first[id := DeliveryStatus(status)], marks := s.marks[id := 0])
    case Tick(elapsed) => s.(now := s.now + elapsed)
    case Read(flight, id) => s.(flights := s.flights[flight := Flight(id, s.outbox[id], false)])
    case Post(flight) =>
      s.(flights := s.flights[flight := s.flights[flight].(posted := true)], delivered := s.delivered + {s.flights[flight].event})
    case MarkStored(flight) => Land(s, flight, Stored)
    case MarkSent(flight) => Land(s, flight, Sent)
    case MarkFailed(flight, message) => Land(s, flight, Raised(message))
    case Vanish(flight) => s.(flights := s.flights - {flight})
  }

  ghost predicate IsRun(ss: seq<State>, acts: seq<Action>) {
    && |ss| == |acts| + 1 && Init(ss[0])
    && forall i :: 0 <= i < |acts| ==> Enabled(ss[i], acts[i]) && ss[i + 1] == Apply(ss[i], acts[i])
  }

  ghost predicate Marks(a: Action) {
    a.MarkStored? || a.MarkSent? || a.MarkFailed?
  }

  // ----- the invariant -----

  ghost predicate RowOk(s: State, id: EventId)
    requires id in s.outbox && id in s.first && id in s.marks
  {
    var row := s.outbox[id];
    && (row.processedAt.Some? ==> id in s.delivered)
    && (row.processedAt.None? && s.marks[id] > 0 ==> row.status == "failed")
    && 0 <= row.attempts <= s.marks[id]
    && (s.marks[id] == 0 ==> row.status == s.first[id] && row.processedAt.None?)
  }

  ghost predicate Inv(s: State) {
    && s.outbox.Keys == s.first.Keys == s.marks.Keys
    && (forall id :: id in s.outbox ==> RowOk(s, id))
    && forall f :: f in s.flights ==>
        var flight := s.flights[f];
        && flight.event in s.outbox && 0 <= flight.read.attempts <= s.marks[flight.event]
        && (flight.posted ==> flight.event in s.delivered)
  }

  lemma StatusTexts()
    ensures Text.Trim("stored") == "stored" && Text.Trim("sent") == "sent" && Text.Trim("failed") == "failed"
  {
    Text.TrimKeepsTrimmed("stored");
    Text.TrimKeepsTrimmed("sent");
    Text.TrimKeepsTrimmed("failed");
  }

  /** The columns that a landing dispatch writes. */
  lemma LandedRow(row: Row, read: Row, outcome: Outcome, now: int)
    ensures var r := Marked(row, UpdateFor(read, outcome, now));
      && r.attempts == read.attempts + 1
      && r.processedAt == (if outcome.Raised? then row.processedAt else Some(now))
      && r.status == (match outcome case Stored => "stored" case Sent => "sent" case Raised(_) => "failed")
      && r.lastError == (match outcome
                         case Raised(m) =>
                           (if Text.Trim(m) == "" then None
                            else Some(if |Text.Trim(m)| <= 1000 then Text.Trim(m) else Text.Trim(m)[..1000]))
                         case _ => None)
      && r.occurredAt == row.occurredAt && r.createdAt == row.createdAt
  {
    StatusTexts();
    Text.TrimKeepsTrimmed("");
  }

  /** A landing dispatch rewrites its own row only. */
  lemma Landing(s: State, a: Action)
    requires Enabled(s, a) && Marks(a) && s.flights[a.flight].event in s.outbox
    ensures var t, id, read := Apply(s, a), s.flights[a.flight].event, s.flights[a.flight].read;
      && t.outbox == s.outbox[id := t.outbox[id]]
      && t.outbox[id].attempts == read.attempts + 1
      && t.outbox[id].processedAt == (if a.MarkFailed? then s.outbox[id].processedAt else Some(s.now))
      && t.outbox[id].status == (if a.MarkStored? then "stored" else if a.MarkSent? then "sent" else "failed")
      && t.marks == (if id in s.marks then s.marks[id := s.marks[id] + 1] else s.marks)
  {
    var flight := s.flights[a.flight];
    LandedRow(s.outbox[flight.event], flight.read,
              if a.MarkStored? then Stored else if a.MarkSent? then Sent else Raised(a.message), s.now);
  }

  lemma {:induction false} RowKept(s: State, a: Action, id: EventId)
    requires Inv(s) && Enabled(s, a) && id in s.outbox
    ensures id in Apply(s, a).outbox && id in Apply(s, a).first && id in Apply(s, a).marks && RowOk(Apply(s, a), id)
  {
    assert RowOk(s, id);
    hide Marked, UpdateFor;
    if Marks(a) {
      Landing(s, a);
    }
  }

  lemma {:induction false} FlightsKept(s: State, a: Action)
    requires Inv(s) && Enabled(s, a)
    ensures var t := Apply(s, a);
      && t.outbox.Keys == t.first.Keys == t.marks.Keys
      && forall f :: f in t.flights ==>
           var flight := t.flights[f];
           && flight.event in t.outbox && 0 <= flight.read.attempts <= t.marks[flight.event]
           && (flight.posted ==> flight.event in t.delivered)
  {
    hide Marked, UpdateFor;
    if a.Read? { assert RowOk(s, a.id); }
  }

  lemma {:induction false} StepKeepsInv(s: State, a: Action)
    requires Inv(s) && Enabled(s, a)
    ensures Inv(Apply(s, a))
  {
    hide Marked, UpdateFor;
    var t := Apply(s, a);
    FlightsKept(s, a);
    forall id | id in t.outbox ensures RowOk(t, id) {
      if id in s.outbox { RowKept(s, a, id); }
    }
  }

  lemma {:induction false} InvHolds(ss: seq<State>, acts: seq<Action>, i: nat)
    requires IsRun(ss, acts) && i < |ss|
    ensures Inv(ss[i])
  {
    if i > 0 {
      InvHolds(ss, acts, i - 1);
      assert Enabled(ss[i - 1], acts[i - 1]) && ss[i - 1 + 1] == Apply(ss[i - 1], acts[i - 1]);
      StepKeepsInv(ss[i - 1], acts[i - 1]);
    }
  }

  // ----- what survives any overlap -----

  /** A processed event was posted or stored; `attempt_count` never exceeds the attempts made; and an
    * event that is not processed stays in the selection of `flushPendingEvents`, unless the caller
    * enqueued it with another status and no result has been written yet. */
  lemma DeliveryGuarantees(ss: seq<State>, acts: seq<Action>, i: nat, id: EventId)
    requires IsRun(ss, acts) && i < |ss| && id in ss[i].outbox
    ensures id in ss[i].first && id in ss[i].marks
    ensures ss[i].outbox[id].processedAt.Some? ==> id in ss[i].delivered
    ensures 0 <= ss[i].outbox[id].attempts <= ss[i].marks[id]
    ensures ss[i].outbox[id].processedAt.None? ==>
      (Selected(ss[i].outbox[id]) <==>
       ss[i].first[id] == "pending" || ss[i].first[id] == "failed" || ss[i].marks[id] > 0)
  {
    InvHolds(ss, acts, i);
    assert RowOk(ss[i], id);
  }

  /** `processed_at` is never cleared: every update carries it over. */
  lemma ProcessedIsNeverCleared(s: State, a: Action, id: EventId)
    requires Enabled(s, a) && id in s.outbox && s.outbox[id].processedAt.Some?
    ensures id in Apply(s, a).outbox && Apply(s, a).outbox[id].processedAt.Some?
  {}

  // ----- what overlap breaks, and exactly when -----

  /** A dispatch finds the row as it read it. */
  ghost predicate FoundAsRead(s: State, a: Action) {
    Marks(a) && a.flight in s.flights && s.flights[a.flight].event in s.outbox ==>
      s.outbox[s.flights[a.flight].event].attempts == s.flights[a.flight].read.attempts
  }

  ghost predicate Exact(s: State) {
    forall id :: id in s.outbox && id in s.marks ==> s.outbox[id].attempts == s.marks[id]
  }

  /** The counter stays exact under a step exactly when a dispatch that lands finds the counter it read. */
  lemma CounterExactIff(s: State, a: Action)
    requires Inv(s) && Enabled(s, a) && Exact(s)
    ensures Exact(Apply(s, a)) <==> FoundAsRead(s, a)
  {
    hide Marked, UpdateFor, RowOk;
    if Marks(a) {
      Landing(s, a);
      assert s.outbox[s.flights[a.flight].event].attempts == s.marks[s.flights[a.flight].event];
      hide Apply;
    }
  }

  /** A counter that is behind stays behind: only a dispatch that read the exact counter could catch up,
    * and then the counter has not moved since. */
  ghost predicate BehindStaysBehind(s: State) {
    forall f :: f in s.flights ==>
      var flight := s.flights[f];
      flight.event in s.outbox && flight.event in s.marks
      && (flight.read.attempts == s.marks[flight.event] ==> s.outbox[flight.event].attempts == s.marks[flight.event])
  }

  /** `t` is `s` after the flight has written its result. */
  ghost predicate Landed(s: State, t: State, f: FlightId) {
    && f in s.flights && t.flights == s.flights - {f}
    && var flight := s.flights[f];
    && flight.event in s.outbox && flight.event in s.marks && flight.event in t.outbox
    && t.outbox == s.outbox[flight.event := t.outbox[flight.event]]
    && t.outbox[flight.event].attempts == flight.read.attempts + 1
    && t.marks == s.marks[flight.event := s.marks[flight.event] + 1]
  }

  lemma {:induction false} MarksLand(s: State, a: Action)
    requires Inv(s) && Enabled(s, a) && Marks(a)
    ensures Landed(s, Apply(s, a), a.flight)
  {
    hide Marked, UpdateFor, RowOk;
    Landing(s, a);
  }

  lemma {:induction false} LandedStaysBehind(s: State, t: State, f: FlightId)
    requires Inv(s) && Landed(s, t, f) && BehindStaysBehind(s)
    ensures BehindStaysBehind(t)
  {
    hide RowOk;
  }

  lemma {:induction false} LandedExact(s: State, t: State, f: FlightId)
    requires Landed(s, t, f) && BehindStaysBehind(s) && Exact(t)
    ensures Exact(s)
  {
    forall id | id in s.outbox && id in s.marks ensures s.outbox[id].attempts == s.marks[id] {
      assert id in t.outbox && id in t.marks;
    }
  }

  lemma {:induction false} BehindStep(s: State, a: Action)
    requires Inv(s) && Enabled(s, a) && BehindStaysBehind(s)
    ensures BehindStaysBehind(Apply(s, a))
    ensures Exact(Apply(s, a)) ==> Exact(s)
  {
    if Marks(a) {
      MarksLand(s, a);
      hide Apply, Inv, Landed, Exact, BehindStaysBehind;
      LandedStaysBehind(s, Apply(s, a), a.flight);
      if Exact(Apply(s, a)) { LandedExact(s, Apply(s, a), a.flight); }
    } else {
      hide RowOk;
      var t := Apply(s, a);
      assert s.outbox.Keys <= t.outbox.Keys && forall id :: id in s.outbox ==> t.outbox[id] == s.outbox[id] && t.marks[id] == s.marks[id];
    }
  }

  /** In a run the counters are exact as long as, and only as long as, every dispatch that landed found the
    * counter it had read. */
  lemma {:induction false} CounterExactThroughIff(ss: seq<State>, acts: seq<Action>, n: nat)
    requires IsRun(ss, acts) && n < |ss|
    ensures Exact(ss[n]) <==> forall k :: 0 <= k < n ==> FoundAsRead(ss[k], acts[k])
    ensures BehindStaysBehind(ss[n])
  {
    if n > 0 {
      CounterExactThroughIff(ss, acts, n - 1);
      InvHolds(ss, acts, n - 1);
      assert Enabled(ss[n - 1], acts[n - 1]) && ss[n - 1 + 1] == Apply(ss[n - 1], acts[n - 1]);
      BehindStep(ss[n - 1], acts[n - 1]);
      hide Apply, Inv, FoundAsRead, Exact, BehindStaysBehind;
      if Exact(ss[n - 1]) {
        CounterExactIff(ss[n - 1], acts[n - 1]);
      }
    }
  }

  /** At most one dispatch per event is in progress, and it holds the row as it is. */
  ghost predicate OneByOne(s: State) {
    && (forall f :: f in s.flights && s.flights[f].event in s.outbox ==> s.outbox[s.flights[f].event] == s.flights[f].read)
    && forall f, g :: f in s.flights && g in s.flights && s.flights[f].event == s.flights[g].event ==> f == g
  }

  /** No dispatch of an event starts while another one is in progress. */
  ghost predicate NoOverlap(ss: seq<State>, acts: seq<Action>) {
    forall i, f :: 0 <= i < |acts| && i < |ss| && acts[i].Read? && f in ss[i].flights ==> ss[i].flights[f].event != acts[i].id
  }

  lemma {:induction false} CounterExactWithoutOverlap(ss: seq<State>, acts: seq<Action>, i: nat)
    requires IsRun(ss, acts) && NoOverlap(ss, acts) && i < |ss|
    ensures Exact(ss[i]) && OneByOne(ss[i])
  {
    if i > 0 {
      var k := i - 1;
      CounterExactWithoutOverlap(ss, acts, k);
      InvHolds(ss, acts, k);
      assert Enabled(ss[k], acts[k]) && ss[k + 1] == Apply(ss[k], acts[k]);
      assert acts[k].Read? ==> forall f :: f in ss[k].flights ==> ss[k].flights[f].event != acts[k].id;
      CounterExactIff(ss[k], acts[k]);
      OneByOneKept(ss[k], acts[k]);
    }
  }

  lemma OneByOneKept(s: State, a: Action)
    requires OneByOne(s) && Enabled(s, a)
    requires a.Read? ==> forall f :: f in s.flights ==> s.flights[f].event != a.id
    requires forall f :: f in s.flights ==> s.flights[f].event in s.outbox
    ensures OneByOne(Apply(s, a))
  {}

  /** Every selected row is still to be delivered. */
  ghost predicate SelectedAreUnprocessed(s: State) {
    forall id :: id in s.outbox && Selected(s.outbox[id]) ==> s.outbox[id].processedAt.None?
  }

  /** A failure is written over a row that another dispatch has already processed. */
  ghost predicate FailsProcessed(s: State, a: Action) {
    a.MarkFailed? && a.flight in s.flights && s.flights[a.flight].event in s.outbox
      && s.outbox[s.flights[a.flight].event].processedAt.Some?
  }

  /** A processed event comes back into the selection exactly when a failure is written over its row. */
  lemma ReselectedIff(s: State, a: Action)
    requires Inv(s) && Enabled(s, a) && SelectedAreUnprocessed(s)
    ensures SelectedAreUnprocessed(Apply(s, a)) <==> !FailsProcessed(s, a)
  {
    hide Marked, UpdateFor, RowOk;
    if Marks(a) {
      Landing(s, a);
      assert Selected(Apply(s, a).outbox[s.flights[a.flight].event]) <==> a.MarkFailed?;
    }
  }

  /** The dispatch that wrote the row of an event last, among the first `n` actions. */
  ghost function LastUpdate(ss: seq<State>, acts: seq<Action>, id: EventId, n: nat): Option<Action>
    requires n <= |acts| < |ss|
  {
    if n == 0 then None
    else
      var a, s := acts[n - 1], ss[n - 1];
      if Marks(a) && a.flight in s.flights && s.flights[a.flight].event == id then Some(a)
      else LastUpdate(ss, acts, id, n - 1)
  }

  ghost function StatusAfter(last: Option<Action>, first: string): string {
    match last
    case None => first
    case Some(a) => if a.MarkStored? then "stored" else if a.MarkSent? then "sent" else "failed"
  }

  lemma {:induction false} LastUpdateWrites(ss: seq<State>, acts: seq<Action>, id: EventId, n: nat)
    requires IsRun(ss, acts) && n < |ss|
    ensures var s, last := ss[n], LastUpdate(ss, acts, id, n);
      if id in s.outbox then id in s.first && s.outbox[id].status == StatusAfter(last, s.first[id]) else last.None?
  {
    if n > 0 {
      LastUpdateWrites(ss, acts, id, n - 1);
      InvHolds(ss, acts, n - 1);
      assert Enabled(ss[n - 1], acts[n - 1]) && ss[n - 1 + 1] == Apply(ss[n - 1], acts[n - 1]);
      StatusStep(ss[n - 1], acts[n - 1], id);
    }
  }

  lemma {:induction false} StatusStep(s: State, a: Action, id: EventId)
    requires Inv(s) && Enabled(s, a)
    ensures var t := Apply(s, a);
      if Marks(a) && s.flights[a.flight].event == id then
        id in t.outbox && id in t.first && t.outbox[id].status == StatusAfter(Some(a), t.first[id])
      else if id in s.outbox then
        id in t.outbox && id in t.first && t.outbox[id].status == s.outbox[id].status && t.first[id] == s.first[id]
      else id in t.outbox ==> id in t.first && t.outbox[id].status == t.first[id]
  {
    hide Marked, UpdateFor;
    if Marks(a) {
      Landing(s, a);
    }
  }

  /** Whether delivered or not, an event is selected exactly when the last dispatch that wrote its row
    * failed, or none has written it and it was enqueued as pending or failed. */
  lemma {:induction false} SelectedIff(ss: seq<State>, acts: seq<Action>, i: nat, id: EventId)
    requires IsRun(ss, acts) && i < |ss| && id in ss[i].outbox
    ensures id in ss[i].first
    ensures Selected(ss[i].outbox[id]) <==>
      match LastUpdate(ss, acts, id, i)
      case Some(a) => a.MarkFailed?
      case None => ss[i].first[id] == "pending" || ss[i].first[id] == "failed"
  {
    LastUpdateWrites(ss, acts, id, i);
    UpdatesMark(ss, acts, id, i);
  }

  lemma {:induction false} UpdatesMark(ss: seq<State>, acts: seq<Action>, id: EventId, n: nat)
    requires n <= |acts| < |ss|
    ensures LastUpdate(ss, acts, id, n).Some? ==> Marks(LastUpdate(ss, acts, id, n).value)
  {
    if n > 0 {
      UpdatesMark(ss, acts, id, n - 1);
    }
  }

  lemma Continue(ss: seq<State>, acts: seq<Action>, a: Action) returns (tt: seq<State>, bb: seq<Action>)
    requires IsRun(ss, acts) && Enabled(ss[|ss| - 1], a)
    ensures tt == ss + [Apply(ss[|ss| - 1], a)] && bb == acts + [a] && IsRun(tt, bb)
  {
    hide Apply, Enabled;
    tt, bb := ss + [Apply(ss[|ss| - 1], a)], acts + [a];
  }

  /** Two dispatchers have read the same fresh row, and one of them has posted it. */
  lemma BothPending() returns (ss: seq<State>, acts: seq<Action>)
    ensures IsRun(ss, acts)
    ensures var s := ss[|ss| - 1];
      && s.endpoint && 0 in s.outbox && s.marks == map[0 := 0] && 0 in s.delivered
      && s.flights == map[0 := Flight(0, s.outbox[0], true), 1 := Flight(0, s.outbox[0], false)]
      && s.outbox[0].attempts == 0
  {
    ss, acts := [State(map[], map[], 0, true, map[], map[], {})], [];
    ss, acts := Continue(ss, acts, Enqueue(0, "", 0));
    ss, acts := Continue(ss, acts, Read(0, 0));
    ss, acts := Continue(ss, acts, Read(1, 0));
    ss, acts := Continue(ss, acts, Post(0));
  }

  /** Two overlapping dispatches of one event: both landed, one is counted, and the delivered event is
    * selected again. */
  lemma OverlapExample() returns (ss: seq<State>, acts: seq<Action>)
    ensures IsRun(ss, acts)
    ensures var s := ss[|ss| - 1];
      && 0 in s.outbox && 0 in s.marks && s.marks[0] == 2 && s.outbox[0].attempts == 1
      && 0 in s.delivered && s.outbox[0].processedAt.Some? && Selected(s.outbox[0])
  {
    ss, acts := BothPending();
    Landing(ss[|ss| - 1], MarkSent(0));
    ss, acts := Continue(ss, acts, MarkSent(0));
    Landing(ss[|ss| - 1], MarkFailed(1, "timeout"));
    ss, acts := Continue(ss, acts, MarkFailed(1, "timeout"));
  }

  /** No overlap is needed for a second delivery: the event was posted, the update after the POST raised,
    * and the failure was written over a row that was never processed. */
  lemma {:induction false} LostUpdateExample() returns (ss: seq<State>, acts: seq<Action>)
    ensures IsRun(ss, acts) && NoOverlap(ss, acts)
    ensures var s := ss[|ss| - 1];
      0 in s.outbox && 0 in s.delivered && s.outbox[0].processedAt.None? && s.flights == map[] && Selected(s.outbox[0])
  {
    ss, acts := [State(map[], map[], 0, true, map[], map[], {})], [];
    ss, acts := Continue(ss, acts, Enqueue(0, "", 0));
    ss, acts := Continue(ss, acts, Read(0, 0));
    ss, acts := Continue(ss, acts, Post(0));
    Landing(ss[|ss| - 1], MarkFailed(0, "timeout"));
    ss, acts := Continue(ss, acts, MarkFailed(0, "timeout"));
  }
}
