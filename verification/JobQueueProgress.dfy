/** Progress of the queue: a waiting job that is due is reached after boundedly many claims, and a queue
  * that is only worked on drains. */
module JobQueueProgress {
  import opened JobTable
  import opened JobQueue
  import opened Sums

  // ----- no starvation -----

  /** A job that is due, waiting and not in any claim. */
  ghost predicate Due(s: State, id: JobId) {
    id in s.jobs && s.jobs[id].Waiting() && id !in LockedRows(s) && s.jobs[id].availableAt < s.now
  }

  /** The other unclaimed waiting jobs that are ordered no later. */
  ghost function Ahead(s: State, id: JobId): set<JobId> {
    set k | k in s.jobs && id in s.jobs && k != id && k !in LockedRows(s) && s.jobs[k].Waiting() && NoLater(s.jobs[k], s.jobs[id])
  }

  /** A claim run while a job is due always returns some row. */
  lemma DueMakesClaimSucceed(s: State, id: JobId) returns (next: JobId)
    requires Due(s, id)
    ensures IsNext(s.jobs, LockedRows(s), s.now, next)
  {
    var ready := set k | k in s.jobs && k !in LockedRows(s) && Ready(s.jobs[k], s.now);
    assert id in ready;
    next := NextExists(s.jobs, LockedRows(s), s.now, ready);
  }

  ghost function Begins(a: Action): nat { if a.BeginClaim? then 1 else 0 }

  ghost function Aborts(a: Action): nat { if a.AbortClaim? then 1 else 0 }

  /** While the job stays due, every claim takes somebody from ahead of it, and only an aborted claim
    * puts somebody back: new, failed and recovered jobs all queue behind it. */
  lemma AheadFalls(s: State, a: Action, id: JobId)
    requires HistoryInv(s) && LocksInv(s) && Enabled(s, a)
    requires Due(s, id) && Due(Apply(s, a), id)
    ensures |Ahead(Apply(s, a), id)| + Begins(a) <= |Ahead(s, id)| + Aborts(a)
  {
    var t := Apply(s, a);
    if a.BeginClaim? {
      LocksAfterBegin(s, a.tx, a.job);
      assert Ready(s.jobs[id], s.now) && a.job != id;
      assert Ahead(t, id) == Ahead(s, id) - {a.job};
    } else if a.AbortClaim? {
      LocksAfterRelease(s, a.tx);
      SubsetSize(Ahead(t, id), Ahead(s, id) + {s.locks[a.tx].id});
    } else {
      forall k | k in Ahead(t, id) ensures k in Ahead(s, id) {
        NobodyJoins(s, a, id, k);
      }
      SubsetSize(Ahead(t, id), Ahead(s, id));
    }
  }

  lemma NobodyJoins(s: State, a: Action, id: JobId, k: JobId)
    requires HistoryInv(s) && LocksInv(s) && Enabled(s, a) && !a.BeginClaim? && !a.AbortClaim?
    requires Due(s, id) && Due(Apply(s, a), id) && k in Ahead(Apply(s, a), id)
    ensures k in Ahead(s, id)
  {
    match a
    case EndClaim(tx, _) => LocksAfterRelease(s, tx);
    case BackfillRows(rows) =>
      BackfillKeepsRows(s, rows);
      BackfillAddsLate(s, rows);
    case PruneDone(days) => PruneShrinks(s.jobs, s.now, days);
    case _ =>
  }

  lemma {:induction false} SubsetSize(s: set<JobId>, t: set<JobId>)
    requires s <= t
    ensures |s| <= |t|
  {
    assert t == s + (t - s);
  }

  lemma LocksAfterBegin(s: State, tx: TxId, job: JobId)
    requires Enabled(s, BeginClaim(tx, job))
    ensures LockedRows(Apply(s, BeginClaim(tx, job))) == LockedRows(s) + {job}
  {
    var t := Apply(s, BeginClaim(tx, job));
    assert t.locks[tx].id == job;
    forall k | k in LockedRows(s) ensures k in LockedRows(t) {
      var u :| u in s.locks && s.locks[u].id == k;
      assert u in t.locks && t.locks[u].id == k;
    }
  }

  lemma LocksAfterRelease(s: State, tx: TxId)
    requires LocksInv(s) && tx in s.locks
    ensures LockedRows(s.(locks := s.locks - {tx})) == LockedRows(s) - {s.locks[tx].id}
  {
    var t := s.(locks := s.locks - {tx});
    forall k | k in LockedRows(s) - {s.locks[tx].id} ensures k in LockedRows(t) {
      var u :| u in s.locks && s.locks[u].id == k;
      assert u in t.locks && t.locks[u].id == k;
    }
  }

  lemma {:induction false} BackfillAddsLate(s: State, rows: seq<SourceRow>)
    requires forall i :: 0 <= i < |rows| ==> rows[i].id !in s.jobs
    requires forall i, j :: 0 <= i < j < |rows| ==> rows[i].id != rows[j].id
    ensures forall k :: k in ApplyBackfill(s, rows).jobs && k !in s.jobs ==>
      ApplyBackfill(s, rows).jobs[k].availableAt == s.now
    decreases |rows|
  {
    if rows != [] {
      assert forall i :: 0 <= i < |rows[1..]| ==> rows[1..][i] == rows[i + 1];
      BackfillAddsLate(BackfillOne(s, rows[0]), rows[1..]);
      BackfillKeepsRows(BackfillOne(s, rows[0]), rows[1..]);
    }
  }

  ghost function Count(acts: seq<Action>, f: Action -> nat): nat {
    if acts == [] then 0 else Count(acts[..|acts| - 1], f) + f(acts[|acts| - 1])
  }

  /** However the other workers, failures, recoveries and inserts interleave: as long as a due job is
    * left unclaimed, the claims so far are no more than the jobs ahead of it plus the aborted claims. */
  lemma {:induction false} NoStarvation(ss: seq<State>, acts: seq<Action>, id: JobId)
    requires IsTrace(ss, acts) && Inv(ss[0])
    requires forall i :: 0 <= i < |ss| ==> Due(ss[i], id)
    ensures Inv(ss[|acts|])
    ensures |Ahead(ss[|acts|], id)| + Count(acts, Begins) <= |Ahead(ss[0], id)| + Count(acts, Aborts)
    decreases |acts|
  {
    hide Inv, Apply, Enabled, Due, Ahead, Begins, Aborts;
    if acts != [] {
      var n := |acts| - 1;
      var before, done := ss[..n + 1], acts[..n];
      assert forall i :: 0 <= i <= n ==> before[i] == ss[i];
      assert forall i :: 0 <= i < n ==> done[i] == acts[i];
      assert IsTrace(before, done) by {
        forall i | 0 <= i < n ensures Enabled(before[i], done[i]) && before[i + 1] == Apply(before[i], done[i]) {
          assert Enabled(ss[i], acts[i]) && ss[i + 1] == Apply(ss[i], acts[i]);
        }
      }
      NoStarvation(before, done, id);
      assert Enabled(ss[n], acts[n]) && ss[n + 1] == Apply(ss[n], acts[n]);
      InvParts(ss[n]);
      AheadFalls(ss[n], acts[n], id);
      StepKeepsInv(ss[n], acts[n]);
    }
  }

  lemma InvParts(s: State)
    requires Inv(s)
    ensures HistoryInv(s) && LocksInv(s)
  {}

  /** A due job stays due until a claim takes it. */
  lemma {:induction false} DueUntilClaimed(s: State, a: Action, id: JobId)
    requires HistoryInv(s) && LocksInv(s) && Enabled(s, a) && Due(s, id)
    requires !(a.BeginClaim? && a.job == id)
    ensures Due(Apply(s, a), id)
  {
    match a
    case BeginClaim(tx, job) => LocksAfterBegin(s, tx, job);
    case EndClaim(tx, _) => LocksAfterRelease(s, tx);
    case AbortClaim(tx) => LocksAfterRelease(s, tx);
    case BackfillRows(rows) => BackfillKeepsRows(s, rows);
    case PruneDone(days) => PruneShrinks(s.jobs, s.now, days);
    case _ =>
  }

  /** No starvation: by the time more claims have begun than there were jobs ahead of a due job and claims
    * that were aborted, one of them has taken it. */
  lemma {:induction false} DueIsClaimed(ss: seq<State>, acts: seq<Action>, id: JobId) returns (k: nat)
    requires IsTrace(ss, acts) && Inv(ss[0]) && Due(ss[0], id)
    requires Count(acts, Begins) > |Ahead(ss[0], id)| + Count(acts, Aborts)
    ensures k < |acts| && acts[k].BeginClaim? && acts[k].job == id
  {
    hide Inv, Apply, Enabled, Due, Ahead, Begins, Aborts, Count;
    k := 0;
    while k < |acts| && !(acts[k].BeginClaim? && acts[k].job == id)
      invariant k <= |acts| && Inv(ss[k]) && forall i :: 0 <= i <= k ==> Due(ss[i], id)
      decreases |acts| - k
    {
      assert Enabled(ss[k], acts[k]) && ss[k + 1] == Apply(ss[k], acts[k]);
      InvParts(ss[k]);
      DueUntilClaimed(ss[k], acts[k], id);
      StepKeepsInv(ss[k], acts[k]);
      k := k + 1;
    }
    if k == |acts| {
      NoStarvation(ss, acts, id);
    }
  }

  // ----- the queue drains -----

  /** Attempts that a job may still make: what it was granted and has not used, one more per recovery. */
  ghost function Remaining(s: State, id: JobId): int {
    if id in s.jobs && id in s.recoveries
    then s.jobs[id].task.maxAttempts + s.recoveries[id] - s.jobs[id].attempts else 0
  }

  ghost function Weight(s: State, id: JobId): int {
    2 * Remaining(s, id) + if RunningRow(s, id) then 1 else 0
  }

  ghost function Measure(s: State): JobId -> int {
    (id: JobId) => Weight(s, id)
  }

  ghost function Pressure(s: State): int {
    Sum(s.jobs.Keys, Measure(s))
  }

  lemma RemainingIsNatural(s: State, id: JobId)
    requires Inv(s)
    ensures Remaining(s, id) >= 0
  {
    if id in s.jobs {
      assert RowInv(s.jobs[id], s.retried[id], s.recoveries[id]);
      BoundedSetSize(s.retried[id], s.jobs[id].task.maxAttempts);
    }
  }

  /** A queue that is only worked on: nothing is inserted and nothing is recovered. */
  ghost predicate Working(a: Action) {
    !a.Enqueue? && !a.BackfillRows? && !a.Recover?
  }

  /** A claim that completes, or a settlement that finds its row still running. */
  ghost predicate Effective(s: State, a: Action) {
    match a
    case EndClaim(_, _) => true
    case SettleDone(claim, _) => RunningRow(s, claim.id)
    case SettleFailed(claim, _, _) => RunningRow(s, claim.id)
    case _ => false
  }

  lemma PressureFalls(s: State, a: Action)
    requires Inv(s) && Enabled(s, a) && Working(a)
    ensures Effective(s, a) ==> Pressure(Apply(s, a)) < Pressure(s)
    ensures Pressure(Apply(s, a)) <= Pressure(s)
  {
    hide Inv;
    InvParts(s);
    if Effective(s, a) {
      EffectiveLowers(s, a);
    } else if a.PruneDone? {
      PruneLowers(s, a.retentionDays);
    } else {
      assert Apply(s, a).jobs == s.jobs && Apply(s, a).recoveries == s.recoveries;
      SumSame(s.jobs.Keys, Measure(s), Measure(Apply(s, a)));
    }
  }

  lemma EffectiveLowers(s: State, a: Action)
    requires HistoryInv(s) && LocksInv(s) && Enabled(s, a) && Effective(s, a)
    ensures Pressure(Apply(s, a)) == Pressure(s) - 1
  {
    var t := Apply(s, a);
    var id := if a.EndClaim? then s.locks[a.tx].id else a.claim.id;
    assert t.jobs.Keys == s.jobs.Keys && t.recoveries == s.recoveries;
    assert forall k :: k in s.jobs && k != id ==> t.jobs[k] == s.jobs[k];
    assert a.EndClaim? ==> s.jobs[id].Waiting();
    assert Weight(t, id) == Weight(s, id) - 1;
    SumUpdate<JobId>(s.jobs.Keys, Measure(s), Measure(t), id);
  }

  lemma ShrinkLowers(s: State, t: State)
    requires forall id :: id in s.jobs ==> 0 <= Weight(s, id)
    requires t.jobs.Keys <= s.jobs.Keys && forall id :: id in t.jobs ==> t.jobs[id] == s.jobs[id]
    requires t.recoveries == s.recoveries
    ensures Pressure(t) <= Pressure(s)
  {
    SumSame(t.jobs.Keys, Measure(s), Measure(t));
    SumSubset(t.jobs.Keys, s.jobs.Keys, Measure(s));
  }

  lemma {:induction false} PruneLowers(s: State, days: int)
    requires Inv(s)
    ensures Pressure(Apply(s, PruneDone(days))) <= Pressure(s)
  {
    hide Inv, Pressure;
    PruneShrinks(s.jobs, s.now, days);
    forall id | id in s.jobs ensures 0 <= Weight(s, id) {
      RemainingIsNatural(s, id);
    }
    ShrinkLowers(s, Apply(s, PruneDone(days)));
  }

  ghost function EffectiveSteps(ss: seq<State>, acts: seq<Action>): nat
    requires |ss| == |acts| + 1
    decreases |acts|
  {
    if acts == [] then 0
    else
      var n := |acts| - 1;
      EffectiveSteps(ss[..n + 1], acts[..n]) + if Effective(ss[n], acts[n]) then 1 else 0
  }

  /** From any reachable state, with nothing inserted and nothing recovered, at most `Pressure` more
    * claims and effective settlements can happen, whatever the workers do and in whatever order. */
  lemma {:induction false} QueueDrains(ss: seq<State>, acts: seq<Action>)
    requires IsTrace(ss, acts) && Inv(ss[0])
    requires forall i :: 0 <= i < |acts| ==> Working(acts[i])
    ensures Inv(ss[|acts|]) && 0 <= Pressure(ss[|acts|])
    ensures EffectiveSteps(ss, acts) + Pressure(ss[|acts|]) <= Pressure(ss[0])
    decreases |acts|
  {
    hide Inv, Apply, Enabled, Working, Effective, Pressure;
    if acts != [] {
      var n := |acts| - 1;
      var before, done := ss[..n + 1], acts[..n];
      assert forall i :: 0 <= i <= n ==> before[i] == ss[i];
      assert forall i :: 0 <= i < n ==> done[i] == acts[i];
      assert IsTrace(before, done) by {
        forall i | 0 <= i < n ensures Enabled(before[i], done[i]) && before[i + 1] == Apply(before[i], done[i]) {
          assert Enabled(ss[i], acts[i]) && ss[i + 1] == Apply(ss[i], acts[i]);
        }
      }
      QueueDrains(before, done);
      assert Enabled(ss[n], acts[n]) && ss[n + 1] == Apply(ss[n], acts[n]);
      PressureFalls(ss[n], acts[n]);
      StepKeepsInv(ss[n], acts[n]);
    }
    PressureIsNatural(ss[|acts|]);
  }

  lemma PressureIsNatural(s: State)
    requires Inv(s)
    ensures 0 <= Pressure(s)
  {
    forall id | id in s.jobs.Keys ensures 0 <= Measure(s)(id) {
      RemainingIsNatural(s, id);
    }
    SumSubset({}, s.jobs.Keys, Measure(s));
  }

  // ----- how many more claims -----

  /** The sum of the remaining attempts. */
  ghost function Left(s: State): int {
    Sum(s.jobs.Keys, RemainingOf(s))
  }

  ghost function RemainingOf(s: State): JobId -> int {
    (id: JobId) => Remaining(s, id)
  }

  ghost function Ends(a: Action): nat { if a.EndClaim? then 1 else 0 }

  /** Every claim that completes uses up one remaining attempt; pruning can only lower the sum further. */
  lemma {:induction false} LeftFalls(s: State, a: Action)
    requires Inv(s) && Enabled(s, a) && Working(a)
    ensures Left(Apply(s, a)) + Ends(a) <= Left(s)
    ensures !a.PruneDone? ==> Left(Apply(s, a)) + Ends(a) == Left(s)
  {
    hide Inv;
    InvParts(s);
    if a.EndClaim? {
      ClaimUsesOne(s, a);
    } else if a.PruneDone? {
      PruneLeaves(s, a.retentionDays);
    } else {
      SettlingKeepsLeft(s, a);
    }
  }

  lemma {:induction false} ClaimUsesOne(s: State, a: Action)
    requires HistoryInv(s) && LocksInv(s) && Enabled(s, a) && a.EndClaim?
    ensures Left(Apply(s, a)) == Left(s) - 1
  {
    var t := Apply(s, a);
    var id := s.locks[a.tx].id;
    assert t.jobs.Keys == s.jobs.Keys && t.recoveries == s.recoveries;
    assert Remaining(t, id) == Remaining(s, id) - 1;
    SumUpdate<JobId>(s.jobs.Keys, RemainingOf(s), RemainingOf(t), id);
  }

  lemma {:induction false} SettlingKeepsLeft(s: State, a: Action)
    requires Enabled(s, a) && Working(a) && !a.EndClaim? && !a.PruneDone?
    ensures Left(Apply(s, a)) == Left(s)
  {
    var t := Apply(s, a);
    assert t.jobs.Keys == s.jobs.Keys && t.recoveries == s.recoveries;
    assert forall id :: id in s.jobs ==> t.jobs[id].attempts == s.jobs[id].attempts && t.jobs[id].task == s.jobs[id].task;
    SumSame(s.jobs.Keys, RemainingOf(s), RemainingOf(t));
  }

  lemma {:induction false} PruneLeaves(s: State, days: int)
    requires Inv(s)
    ensures Left(Apply(s, PruneDone(days))) <= Left(s)
  {
    hide Inv;
    PruneShrinks(s.jobs, s.now, days);
    var t := Apply(s, PruneDone(days));
    forall id | id in s.jobs.Keys ensures 0 <= RemainingOf(s)(id) {
      RemainingIsNatural(s, id);
    }
    SumSame(t.jobs.Keys, RemainingOf(s), RemainingOf(t));
    SumSubset(t.jobs.Keys, s.jobs.Keys, RemainingOf(s));
  }

  /** With nothing inserted and nothing recovered, at most the sum of the remaining attempts more claims
    * can complete; none is lost but by pruning. */
  lemma {:induction false} ClaimsLeft(ss: seq<State>, acts: seq<Action>)
    requires IsTrace(ss, acts) && Inv(ss[0])
    requires forall i :: 0 <= i < |acts| ==> Working(acts[i])
    ensures Inv(ss[|acts|]) && 0 <= Left(ss[|acts|])
    ensures Count(acts, Ends) + Left(ss[|acts|]) <= Left(ss[0])
    ensures (forall i :: 0 <= i < |acts| ==> !acts[i].PruneDone?) ==> Count(acts, Ends) + Left(ss[|acts|]) == Left(ss[0])
    decreases |acts|
  {
    hide Inv, Apply, Enabled, Working, Left, Ends;
    if acts != [] {
      var n := |acts| - 1;
      var before, done := ss[..n + 1], acts[..n];
      assert forall i :: 0 <= i <= n ==> before[i] == ss[i];
      assert forall i :: 0 <= i < n ==> done[i] == acts[i];
      assert IsTrace(before, done) by {
        forall i | 0 <= i < n ensures Enabled(before[i], done[i]) && before[i + 1] == Apply(before[i], done[i]) {
          assert Enabled(ss[i], acts[i]) && ss[i + 1] == Apply(ss[i], acts[i]);
        }
      }
      ClaimsLeft(before, done);
      assert Enabled(ss[n], acts[n]) && ss[n + 1] == Apply(ss[n], acts[n]);
      LeftFalls(ss[n], acts[n]);
      StepKeepsInv(ss[n], acts[n]);
    }
    LeftIsNatural(ss[|acts|]);
  }

  lemma {:induction false} LeftIsNatural(s: State)
    requires Inv(s)
    ensures 0 <= Left(s)
  {
    forall id | id in s.jobs.Keys ensures 0 <= RemainingOf(s)(id) {
      RemainingIsNatural(s, id);
    }
    SumSubset({}, s.jobs.Keys, RemainingOf(s));
  }
}
