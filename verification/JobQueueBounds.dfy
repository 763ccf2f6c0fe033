/** How often a job is attempted: the bound of JobQueue is attained, the naive bound is not kept, and
  * what restores it. */
module JobQueueBounds {
  import opened Options
  import opened JobTable
  import opened JobQueue
  import opened JobQueueProgress

  // ----- the naive bound `attempts <= max_attempts`, and exactly which calls break it -----

  ghost predicate NaiveBound(s: State) {
    forall id :: id in s.jobs ==> s.jobs[id].attempts <= s.jobs[id].task.maxAttempts
  }

  /** A claim that ends on a row that has used its grant: it is only reached by way of `retry`. */
  ghost predicate ClaimsExhausted(s: State, a: Action) {
    && a.EndClaim? && a.tx in s.locks && s.locks[a.tx].id in s.jobs
    && s.jobs[s.locks[a.tx].id].attempts >= s.jobs[s.locks[a.tx].id].task.maxAttempts
  }

  /** One step breaks the naive bound exactly when it is such a claim. */
  lemma {:induction false} NaiveBoundKeptIff(s: State, a: Action)
    requires Enabled(s, a) && NaiveBound(s)
    ensures NaiveBound(Apply(s, a)) <==> !ClaimsExhausted(s, a)
  {
    match a
    case Recover(staleAfterMs) =>
      var t := Apply(s, a);
      assert forall id :: id in t.jobs ==> t.jobs[id].attempts == s.jobs[id].attempts && t.jobs[id].task == s.jobs[id].task;
    case BackfillRows(rows) => BackfillNaive(s, rows);
    case PruneDone(days) => PruneShrinks(s.jobs, s.now, days);
    case EndClaim(tx, _) => assert s.locks[tx].id in Apply(s, a).jobs;
    case _ =>
  }

  lemma {:induction false} BackfillNaive(s: State, rows: seq<SourceRow>)
    requires NaiveBound(s) && forall i :: 0 <= i < |rows| ==> rows[i].task.maxAttempts > 0
    ensures NaiveBound(ApplyBackfill(s, rows))
    decreases |rows|
  {
    if rows != [] {
      BackfillNaive(BackfillOne(s, rows[0]), rows[1..]);
    }
  }

  // ----- which calls make such a claim possible -----

  /** No job has used more than its grant, and a waiting job has an attempt left. */
  ghost predicate WithinGrant(s: State) {
    forall id :: id in s.jobs ==>
      && s.jobs[id].attempts <= s.jobs[id].task.maxAttempts
      && (s.jobs[id].Waiting() ==> s.jobs[id].attempts < s.jobs[id].task.maxAttempts)
  }

  /** The call does not send a row that has used its grant back to `retry`: `recoverStale` never looks
    * at `attempts`, and `fail` looks at the caller's record instead of the row. */
  ghost predicate RespectsGrant(s: State, a: Action) {
    match a
    case Recover(staleAfterMs) =>
      forall id :: id in s.jobs && Stale(s.jobs[id], s.now, staleAfterMs) ==> s.jobs[id].attempts < s.jobs[id].task.maxAttempts
    case SettleFailed(claim, _, _) =>
      RunningRow(s, claim.id) && !GivesUp(claim.row) ==> s.jobs[claim.id].attempts < s.jobs[claim.id].task.maxAttempts
    case _ => true
  }

  lemma GrantKeptIff(s: State, a: Action)
    requires LocksInv(s) && Enabled(s, a) && WithinGrant(s)
    ensures WithinGrant(Apply(s, a)) <==> RespectsGrant(s, a)
  {
    match a
    case Recover(staleAfterMs) => RecoverGrant(s, staleAfterMs);
    case SettleFailed(_, _, _) => FailGrant(s, a);
    case BackfillRows(rows) => BackfillGrant(s, rows);
    case PruneDone(days) => PruneShrinks(s.jobs, s.now, days);
    case EndClaim(tx, _) => assert s.jobs[s.locks[tx].id].Waiting();
    case _ =>
  }

  lemma RecoverGrant(s: State, staleAfterMs: int)
    requires WithinGrant(s)
    ensures WithinGrant(Apply(s, Recover(staleAfterMs))) <==> RespectsGrant(s, Recover(staleAfterMs))
  {
    var t := Apply(s, Recover(staleAfterMs));
    forall id | id in s.jobs && Stale(s.jobs[id], s.now, staleAfterMs)
      ensures t.jobs[id].Waiting() && t.jobs[id].attempts == s.jobs[id].attempts
    {
      assert id in t.jobs;
    }
  }

  lemma FailGrant(s: State, a: Action)
    requires a.SettleFailed? && Enabled(s, a) && WithinGrant(s)
    ensures WithinGrant(Apply(s, a)) <==> RespectsGrant(s, a)
  {
    var t := Apply(s, a);
    if RunningRow(s, a.claim.id) {
      assert t.jobs[a.claim.id] == Failed(s.jobs[a.claim.id], GivesUp(a.claim.row), a.message, a.delayMs, s.now);
    }
  }

  lemma {:induction false} BackfillGrant(s: State, rows: seq<SourceRow>)
    requires WithinGrant(s) && forall i :: 0 <= i < |rows| ==> rows[i].task.maxAttempts > 0
    ensures WithinGrant(ApplyBackfill(s, rows))
    decreases |rows|
  {
    if rows != [] {
      BackfillGrant(BackfillOne(s, rows[0]), rows[1..]);
    }
  }

  /** In a whole run no row is ever sent past its grant exactly when every call respects it. */
  lemma {:induction false} GrantThroughoutIff(ss: seq<State>, acts: seq<Action>)
    requires IsRun(ss, acts)
    ensures (forall i :: 0 <= i < |ss| ==> WithinGrant(ss[i])) <==> forall i :: 0 <= i < |acts| ==> RespectsGrant(ss[i], acts[i])
  {
    EmptyWithinGrant(ss[0]);
    hide WithinGrant, RespectsGrant;
    if forall i :: 0 <= i < |ss| ==> WithinGrant(ss[i]) {
      forall i | 0 <= i < |acts| ensures RespectsGrant(ss[i], acts[i]) {
        GrantStep(ss, acts, i);
        assert WithinGrant(ss[i + 1]);
      }
    }
    if forall i :: 0 <= i < |acts| ==> RespectsGrant(ss[i], acts[i]) {
      for i := 0 to |acts|
        invariant forall k :: 0 <= k <= i ==> WithinGrant(ss[k])
      {
        assert RespectsGrant(ss[i], acts[i]);
        GrantStep(ss, acts, i);
      }
    }
  }

  lemma {:induction false} EmptyWithinGrant(s: State)
    requires Init(s)
    ensures WithinGrant(s)
  {}

  lemma {:induction false} GrantStep(ss: seq<State>, acts: seq<Action>, i: nat)
    requires IsRun(ss, acts) && i < |acts| && WithinGrant(ss[i])
    ensures WithinGrant(ss[i + 1]) <==> RespectsGrant(ss[i], acts[i])
  {
    hide WithinGrant, RespectsGrant;
    InvHolds(ss, acts, i);
    InvParts(ss[i]);
    assert Enabled(ss[i], acts[i]) && ss[i + 1] == Apply(ss[i], acts[i]);
    GrantKeptIff(ss[i], acts[i]);
  }

  /** A run that goes on from another one. */
  ghost predicate GoesOn(ss: seq<State>, acts: seq<Action>, tt: seq<State>, bb: seq<Action>) {
    IsRun(tt, bb) && ss <= tt && acts <= bb
  }

  lemma {:induction false} FreshTx(used: set<TxId>) returns (tx: TxId)
    ensures forall u :: u in used ==> u < tx
  {
    if used == {} {
      tx := 0;
    } else {
      var u :| u in used;
      var rest := FreshTx(used - {u});
      tx := if u < rest then rest else u + 1;
      forall v | v in used ensures v < tx {
        assert v == u || v in used - {u};
      }
    }
  }

  /** A waiting row that has used its grant. */
  ghost predicate Exhausted(s: State, id: JobId) {
    id in s.jobs && s.jobs[id].Waiting() && s.jobs[id].attempts >= s.jobs[id].task.maxAttempts
  }

  /** Leaving `WithinGrant` is what breaks the naive bound: from there workers can claim on until a row
    * has more attempts than its grant. */
  lemma {:induction false} OutsideGrantBreaks(ss: seq<State>, acts: seq<Action>)
    returns (tt: seq<State>, bb: seq<Action>)
    requires IsRun(ss, acts) && !WithinGrant(ss[|ss| - 1])
    ensures GoesOn(ss, acts, tt, bb) && !NaiveBound(tt[|tt| - 1])
  {
    hide Apply, Enabled, Due;
    var s := ss[|ss| - 1];
    tt, bb := ss, acts;
    if NaiveBound(s) {
      var id :| id in s.jobs && Exhausted(s, id);
      if tx :| tx in s.locks && s.locks[tx].id == id {
        ClaimBreaks(s, tx);
        tt, bb := Extend(ss, acts, EndClaim(tx, "worker"));
      } else {
        var elapsed := WaitUntilDue(s, id);
        tt, bb := Extend(ss, acts, Tick(elapsed));
        tt, bb := ClaimUpTo(tt, bb, id);
      }
    }
  }

  lemma {:induction false} ClaimBreaks(s: State, tx: TxId)
    requires tx in s.locks && Exhausted(s, s.locks[tx].id)
    ensures Enabled(s, EndClaim(tx, "worker")) && !NaiveBound(Apply(s, EndClaim(tx, "worker")))
  {
    assert s.locks[tx].id in Apply(s, EndClaim(tx, "worker")).jobs;
  }

  lemma {:induction false} WaitUntilDue(s: State, id: JobId) returns (elapsed: nat)
    requires Exhausted(s, id) && forall tx :: tx in s.locks ==> s.locks[tx].id != id
    ensures Enabled(s, Tick(elapsed))
    ensures var t := Apply(s, Tick(elapsed)); Due(t, id) && Exhausted(t, id)
  {
    elapsed := if s.jobs[id].availableAt < s.now then 0 else s.jobs[id].availableAt - s.now + 1;
  }

  /** One claim after another is begun until the row is reached. */
  lemma {:induction false} ClaimUpTo(ss: seq<State>, acts: seq<Action>, id: JobId)
    returns (tt: seq<State>, bb: seq<Action>)
    requires IsRun(ss, acts)
    requires var s := ss[|ss| - 1]; Due(s, id) && Exhausted(s, id)
    ensures GoesOn(ss, acts, tt, bb) && !NaiveBound(tt[|tt| - 1])
    decreases |Ahead(ss[|ss| - 1], id)|
  {
    hide Apply, Enabled, Due, Ahead, NaiveBound, Exhausted, Inv, IsNext;
    var s := ss[|ss| - 1];
    InvHolds(ss, acts, |ss| - 1);
    var tx, next := BeginNext(s, id);
    var uu, cc := Extend(ss, acts, BeginClaim(tx, next));
    if next == id {
      ClaimBreaks(uu[|uu| - 1], tx);
      tt, bb := Extend(uu, cc, EndClaim(tx, "worker"));
    } else {
      tt, bb := ClaimUpTo(uu, cc, id);
    }
  }

  lemma {:induction false} BeginNext(s: State, id: JobId) returns (tx: TxId, next: JobId)
    requires Inv(s) && Due(s, id) && Exhausted(s, id)
    ensures Enabled(s, BeginClaim(tx, next))
    ensures var t := Apply(s, BeginClaim(tx, next));
      && Exhausted(t, id)
      && (next == id ==> tx in t.locks && t.locks[tx].id == id)
      && (next != id ==> Due(t, id) && |Ahead(t, id)| < |Ahead(s, id)|)
  {
    InvParts(s);
    next := DueMakesClaimSucceed(s, id);
    tx := FreshTx(s.locks.Keys);
    LocksAfterBegin(s, tx, next);
    if next != id {
      hide IsNext, Inv, Ahead, HistoryInv, LocksInv;
      AheadFalls(s, BeginClaim(tx, next), id);
    }
  }

  // ----- the general bound is attained -----

  lemma Extend(ss: seq<State>, acts: seq<Action>, a: Action) returns (tt: seq<State>, bb: seq<Action>)
    requires IsRun(ss, acts) && Enabled(ss[|ss| - 1], a)
    ensures tt == ss + [Apply(ss[|ss| - 1], a)] && bb == acts + [a] && IsRun(tt, bb)
  {
    hide Apply, Enabled;
    tt, bb := ss + [Apply(ss[|ss| - 1], a)], acts + [a];
  }

  /** The table holds job 0 alone, unlocked. */
  ghost predicate Alone(s: State, task: Task, attempts: nat, recoveries: nat) {
    && s.jobs.Keys == {0} && s.jobs[0].task == task && s.jobs[0].attempts == attempts
    && s.recoveries.Keys == {0} && s.recoveries[0] == recoveries && s.retried.Keys == {0}
    && s.locks == map[]
  }

  lemma ClaimAlone(ss: seq<State>, acts: seq<Action>, task: Task, n: nat, r: nat)
    returns (tt: seq<State>, bb: seq<Action>, claim: Claim)
    requires IsRun(ss, acts)
    requires var s := ss[|ss| - 1]; Alone(s, task, n, r) && Ready(s.jobs[0], s.now)
    ensures IsRun(tt, bb)
    ensures var s := tt[|tt| - 1];
      && Alone(s, task, n + 1, r) && s.jobs[0] == claim.row && claim in s.open && claim.id == 0
      && claim.row.status == Running && claim.row.lockedAt == Some(s.now)
  {
    var s := ss[|ss| - 1];
    assert LockedRows(s) == {};
    tt, bb := Extend(ss, acts, BeginClaim(0, 0));
    tt, bb := Extend(tt, bb, EndClaim(0, "worker"));
    claim := Claim(0, Claimed(s.jobs[0], "worker", s.now));
  }

  /** Fail while attempts remain, then let every further attempt be recovered. */
  lemma {:induction false} WaitingAfter(task: Task, n: nat) returns (ss: seq<State>, acts: seq<Action>)
    requires task.maxAttempts > 0
    ensures IsRun(ss, acts)
    ensures var s := ss[|ss| - 1];
      && Alone(s, task, n, if n < task.maxAttempts then 0 else n - task.maxAttempts + 1)
      && Ready(s.jobs[0], s.now)
  {
    if n == 0 {
      var start := State(map[], 0, map[], {}, map[], map[], 0, 0, 0);
      ss, acts := Extend([start], [], Enqueue(0, task));
    } else {
      ss, acts := WaitingAfter(task, n - 1);
      var claim;
      ss, acts, claim := ClaimAlone(ss, acts, task, n - 1, if n - 1 < task.maxAttempts then 0 else n - task.maxAttempts);
      if n < task.maxAttempts {
        ss, acts := FailAlone(ss, acts, task, n, claim);
      } else {
        ss, acts := RecoverAlone(ss, acts, task, n, n - task.maxAttempts);
      }
    }
  }

  lemma FailAlone(ss: seq<State>, acts: seq<Action>, task: Task, n: nat, claim: Claim)
    returns (tt: seq<State>, bb: seq<Action>)
    requires IsRun(ss, acts) && n < task.maxAttempts
    requires var s := ss[|ss| - 1];
      Alone(s, task, n, 0) && s.jobs[0] == claim.row && claim in s.open && claim.id == 0 && claim.row.status == Running
    ensures IsRun(tt, bb)
    ensures var s := tt[|tt| - 1]; Alone(s, task, n, 0) && Ready(s.jobs[0], s.now)
  {
    tt, bb := Extend(ss, acts, SettleFailed(claim, "", 0));
  }

  lemma RecoverAlone(ss: seq<State>, acts: seq<Action>, task: Task, n: nat, r: nat)
    returns (tt: seq<State>, bb: seq<Action>)
    requires IsRun(ss, acts)
    requires var s := ss[|ss| - 1];
      Alone(s, task, n, r) && s.jobs[0].status == Running && s.jobs[0].lockedAt == Some(s.now)
    ensures IsRun(tt, bb)
    ensures var s := tt[|tt| - 1]; Alone(s, task, n, r + 1) && Ready(s.jobs[0], s.now)
  {
    tt, bb := Extend(ss, acts, Tick(1));
    var s := tt[|tt| - 1];
    assert Stale(s.jobs[0], s.now, 0);
    tt, bb := Extend(tt, bb, Recover(0));
  }

  /** For every grant and every number of recoveries some run uses exactly their sum, so the bound of
    * `AttemptsBound` cannot be lowered and, with one recovery, the naive bound is broken. */
  lemma BoundIsAttained(task: Task, recoveries: nat) returns (ss: seq<State>, acts: seq<Action>)
    requires task.maxAttempts > 0
    ensures IsRun(ss, acts)
    ensures var s := ss[|ss| - 1];
      && 0 in s.jobs && s.jobs[0].task == task && 0 in s.recoveries && s.recoveries[0] == recoveries
      && s.jobs[0].attempts == task.maxAttempts + recoveries
  {
    var n := task.maxAttempts - 1 + recoveries;
    ss, acts := WaitingAfter(task, n);
    var claim;
    ss, acts, claim := ClaimAlone(ss, acts, task, n, recoveries);
  }

  // ----- workers that settle in time -----

  /** Every record still held is at most `limit` old, and recovery waits at least that long. */
  ghost predicate Timely(ss: seq<State>, acts: seq<Action>, limit: int) {
    && (forall i, c :: 0 <= i < |ss| && c in ss[i].open ==> InTime(c, ss[i].now, limit))
    && (forall i :: 0 <= i < |acts| && acts[i].Recover? ==> acts[i].staleAfterMs >= limit)
  }

  ghost predicate InTime(c: Claim, now: int, limit: int) {
    c.row.lockedAt.Some? && now <= c.row.lockedAt.value + limit
  }

  /** A held record is the row itself, field for field. */
  ghost predicate HeldAreCurrent(s: State) {
    forall c :: c in s.open ==> c.id in s.jobs && s.jobs[c.id] == c.row && c.row.status == Running
  }

  lemma TimelyStep(s: State, a: Action, limit: int)
    requires LocksInv(s) && HeldAreCurrent(s) && Enabled(s, a)
    requires s.jobs.Keys <= s.recoveries.Keys
    requires forall c :: c in s.open ==> InTime(c, s.now, limit)
    requires a.Recover? ==> a.staleAfterMs >= limit
    ensures HeldAreCurrent(Apply(s, a))
  {
    match a
    case BackfillRows(rows) =>
      BackfillKeepsRows(s, rows);
      BackfillKeepsOpen(s, rows);
    case PruneDone(days) => PruneShrinks(s.jobs, s.now, days);
    case EndClaim(tx, _) => EndClaimStaysCurrent(s, a);
    case SettleDone(_, _) => SettleStaysCurrent(s, a);
    case SettleFailed(_, _, _) => SettleStaysCurrent(s, a);
    case Recover(stale) =>
      forall c | c in s.open ensures !Stale(s.jobs[c.id], s.now, stale) {
        assert InTime(c, s.now, limit);
      }
    case _ =>
  }

  lemma EndClaimStaysCurrent(s: State, a: Action)
    requires a.EndClaim? && Enabled(s, a) && LocksInv(s) && HeldAreCurrent(s)
    ensures HeldAreCurrent(Apply(s, a))
  {}

  lemma SettleStaysCurrent(s: State, a: Action)
    requires (a.SettleDone? || a.SettleFailed?) && Enabled(s, a) && HeldAreCurrent(s)
    ensures HeldAreCurrent(Apply(s, a))
  {
    HeldAreAlone(s, a.claim);
    var t := Apply(s, a);
    forall c | c in t.open ensures c.id in t.jobs && t.jobs[c.id] == c.row && c.row.status == Running {
      assert c in s.open && c != a.claim;
    }
  }

  lemma HeldAreAlone(s: State, claim: Claim)
    requires HeldAreCurrent(s) && claim in s.open
    ensures forall c :: c in s.open && c.id == claim.id ==> c == claim
  {}

  lemma {:induction false} BackfillKeepsOpen(s: State, rows: seq<SourceRow>)
    ensures ApplyBackfill(s, rows).open == s.open
    decreases |rows|
  {
    if rows != [] {
      BackfillKeepsOpen(BackfillOne(s, rows[0]), rows[1..]);
    }
  }

  lemma {:induction false} HeldAreCurrentThroughout(ss: seq<State>, acts: seq<Action>, limit: int, i: nat)
    requires IsRun(ss, acts) && Timely(ss, acts, limit) && i < |ss|
    ensures HeldAreCurrent(ss[i])
  {
    if i > 0 {
      var k := i - 1;
      HeldAreCurrentThroughout(ss, acts, limit, k);
      InvHolds(ss, acts, k);
      assert Enabled(ss[k], acts[k]) && ss[k + 1] == Apply(ss[k], acts[k]);
      assert forall c :: c in ss[k].open ==> InTime(c, ss[k].now, limit);
      TimelyStep(ss[k], acts[k], limit);
    }
  }

  /** If every worker settles or vanishes within the stale limit, no job is ever in two hands, and the
    * record on which `fail` decides is the row. */
  lemma TimelyClaimsAreExclusive(ss: seq<State>, acts: seq<Action>, limit: int, i: nat, c: Claim, d: Claim)
    requires IsRun(ss, acts) && Timely(ss, acts, limit) && i < |ss|
    requires c in ss[i].open && d in ss[i].open && c.id == d.id
    ensures c == d && c.id in ss[i].jobs && ss[i].jobs[c.id] == c.row
  {
    HeldAreCurrentThroughout(ss, acts, limit, i);
  }

  ghost predicate RunningAreHeld(s: State) {
    forall id :: id in s.jobs && s.jobs[id].status == Running ==> Claim(id, s.jobs[id]) in s.open
  }

  lemma RunningAreHeldStep(s: State, a: Action)
    requires HistoryInv(s) && LocksInv(s) && HeldAreCurrent(s) && RunningAreHeld(s) && Enabled(s, a)
    requires !a.Vanish?
    requires a.Recover? ==> RecoversNothing(s, a.staleAfterMs)
    ensures RunningAreHeld(Apply(s, a))
  {
    if a.BackfillRows? {
      BackfillKeepsRunning(s, a.rows);
    } else if a.PruneDone? {
      PruneShrinks(s.jobs, s.now, a.retentionDays);
    }
  }

  lemma {:induction false} BackfillKeepsRunning(s: State, rows: seq<SourceRow>)
    requires RunningAreHeld(s)
    ensures RunningAreHeld(ApplyBackfill(s, rows))
    ensures forall id :: id in s.recoveries && s.recoveries[id] != 0 <==>
                         id in ApplyBackfill(s, rows).recoveries && ApplyBackfill(s, rows).recoveries[id] != 0
    requires forall i :: 0 <= i < |rows| ==> rows[i].id !in s.recoveries
    requires forall i, j :: 0 <= i < j < |rows| ==> rows[i].id != rows[j].id
    decreases |rows|
  {
    if rows != [] {
      assert forall i :: 0 <= i < |rows[1..]| ==> rows[1..][i] == rows[i + 1];
      BackfillKeepsRunning(BackfillOne(s, rows[0]), rows[1..]);
    }
  }

  ghost predicate RecoversNothing(s: State, staleAfterMs: int) {
    forall id :: id in s.jobs ==> !Stale(s.jobs[id], s.now, staleAfterMs)
  }

  ghost predicate NeverRecovered(s: State) {
    forall id :: id in s.recoveries ==> s.recoveries[id] == 0
  }

  lemma {:induction false} TimelyRecoversNothing(ss: seq<State>, acts: seq<Action>, limit: int, i: nat)
    requires IsRun(ss, acts) && Timely(ss, acts, limit) && i < |ss|
    requires forall k :: 0 <= k < |acts| ==> !acts[k].Vanish?
    ensures RunningAreHeld(ss[i]) && NeverRecovered(ss[i])
  {
    if i > 0 {
      var k := i - 1;
      TimelyRecoversNothing(ss, acts, limit, k);
      HeldAreCurrentThroughout(ss, acts, limit, k);
      InvHolds(ss, acts, k);
      var s, a := ss[k], acts[k];
      assert Enabled(s, a) && ss[k + 1] == Apply(s, a);
      if a.Recover? {
        forall id | id in s.jobs ensures !Stale(s.jobs[id], s.now, a.staleAfterMs) {
          if s.jobs[id].status == Running {
            assert InTime(Claim(id, s.jobs[id]), s.now, limit);
          }
        }
      }
      RunningAreHeldStep(s, a);
      if a.BackfillRows? {
        BackfillKeepsRunning(s, a.rows);
      }
    }
  }

  /** With in-time workers that do not vanish, the naive bound holds in every state. */
  lemma TimelyAttemptsBound(ss: seq<State>, acts: seq<Action>, limit: int, i: nat, id: JobId)
    requires IsRun(ss, acts) && Timely(ss, acts, limit) && i < |ss| && id in ss[i].jobs
    requires forall k :: 0 <= k < |acts| ==> !acts[k].Vanish?
    ensures ss[i].jobs[id].attempts <= ss[i].jobs[id].task.maxAttempts
  {
    TimelyRecoversNothing(ss, acts, limit, i);
    AttemptsBound(ss, acts, i, id);
  }
}
