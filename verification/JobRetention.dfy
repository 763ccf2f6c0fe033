/** What the clock promises: finished jobs are kept for as many days as asked and no longer, and a failed job
  * is not claimed again before its delay has passed. */
module JobRetention {
  import opened Options
  import opened JobTable
  import opened JobQueue

  // ----- a finished row through a run -----

  /** `completed_at` is set by completing a job and by nothing else. */
  ghost predicate CompletionInv(s: State) {
    forall id :: id in s.jobs && s.jobs[id].completedAt.Some? ==> s.jobs[id].status == Completed
  }

  lemma {:induction false} CompletionStep(s: State, a: Action)
    requires HistoryInv(s) && LocksInv(s) && CompletionInv(s) && Enabled(s, a)
    ensures CompletionInv(Apply(s, a))
  {
    match a
    case BackfillRows(rows) => BackfillCompletion(s, rows);
    case EndClaim(tx, _) => assert s.jobs[s.locks[tx].id].Waiting();
    case PruneDone(days) => PruneShrinks(s.jobs, s.now, days);
    case _ =>
  }

  lemma {:induction false} BackfillCompletion(s: State, rows: seq<SourceRow>)
    requires CompletionInv(s)
    ensures CompletionInv(ApplyBackfill(s, rows))
    decreases |rows|
  {
    if rows != [] {
      var t := BackfillOne(s, rows[0]);
      assert forall id :: id in t.jobs ==> (id in s.jobs && t.jobs[id] == s.jobs[id]) || t.jobs[id].completedAt.None?;
      hide BackfillOne;
      BackfillCompletion(t, rows[1..]);
    }
  }

  lemma {:induction false} CompletionThroughout(ss: seq<State>, acts: seq<Action>, i: nat)
    requires IsRun(ss, acts) && i < |ss|
    ensures CompletionInv(ss[i])
  {
    if i > 0 {
      CompletionThroughout(ss, acts, i - 1);
      InvHolds(ss, acts, i - 1);
      assert Enabled(ss[i - 1], acts[i - 1]) && ss[i - 1 + 1] == Apply(ss[i - 1], acts[i - 1]);
      CompletionStep(ss[i - 1], acts[i - 1]);
    }
  }

  /** The row is in the table as it is given, or it has been removed for good. */
  ghost predicate StillOrGone(s: State, id: JobId, row: Job) {
    id in s.recoveries && (id in s.jobs ==> s.jobs[id] == row)
  }

  lemma {:induction false} FinishedStep(s: State, a: Action, id: JobId, row: Job)
    requires HistoryInv(s) && LocksInv(s) && Enabled(s, a) && row.Finished() && StillOrGone(s, id, row)
    ensures StillOrGone(Apply(s, a), id, row)
    ensures id in s.jobs && !a.PruneDone? ==> id in Apply(s, a).jobs
  {
    if id in s.jobs {
      FinishedIsFinal(s, a, id);
    }
    if a.BackfillRows? {
      BackfillIsElsewhere(s, a.rows, id);
    }
  }

  lemma {:induction false} BackfillIsElsewhere(s: State, rows: seq<SourceRow>, id: JobId)
    requires forall i :: 0 <= i < |rows| ==> rows[i].id != id
    ensures id in ApplyBackfill(s, rows).jobs <==> id in s.jobs
    ensures id in ApplyBackfill(s, rows).recoveries <==> id in s.recoveries
    decreases |rows|
  {
    if rows != [] {
      assert forall i :: 0 <= i < |rows[1..]| ==> rows[1..][i] == rows[i + 1];
      BackfillIsElsewhere(BackfillOne(s, rows[0]), rows[1..], id);
    }
  }

  lemma {:induction false} TimePasses(ss: seq<State>, acts: seq<Action>, i: nat, j: nat)
    requires IsRun(ss, acts) && i <= j < |ss|
    ensures ss[i].now <= ss[j].now
  {
    if i < j {
      TimePasses(ss, acts, i, j - 1);
      assert Enabled(ss[j - 1], acts[j - 1]) && ss[j - 1 + 1] == Apply(ss[j - 1], acts[j - 1]);
      TimeStep(ss[j - 1], acts[j - 1]);
    }
  }

  lemma {:induction false} TimeStep(s: State, a: Action)
    requires Enabled(s, a)
    ensures s.now <= Apply(s, a).now
  {
    if a.BackfillRows? {
      BackfillKeepsTime(s, a.rows);
    }
  }

  lemma {:induction false} BackfillKeepsTime(s: State, rows: seq<SourceRow>)
    ensures ApplyBackfill(s, rows).now == s.now
    decreases |rows|
  {
    if rows != [] {
      BackfillKeepsTime(BackfillOne(s, rows[0]), rows[1..]);
    }
  }

  /** The job was completed or given up by action `i`, on a row that was still running. */
  ghost predicate FinishedBy(ss: seq<State>, acts: seq<Action>, i: nat, id: JobId)
    requires i < |acts| < |ss|
  {
    && RunningRow(ss[i], id)
    && ((acts[i].SettleDone? && acts[i].claim.id == id)
        || (acts[i].SettleFailed? && acts[i].claim.id == id
            && acts[i].claim.row.attempts >= acts[i].claim.row.task.maxAttempts))
  }

  lemma {:induction false} FinishesAt(ss: seq<State>, acts: seq<Action>, i: nat, id: JobId) returns (row: Job)
    requires IsRun(ss, acts) && i < |acts| && FinishedBy(ss, acts, i, id)
    ensures row.Finished() && (row.status == Completed <==> acts[i].SettleDone?)
    ensures row.completedAt.GetOr(row.updatedAt) == ss[i].now
    ensures id in ss[i + 1].jobs && StillOrGone(ss[i + 1], id, row)
  {
    InvHolds(ss, acts, i);
    CompletionThroughout(ss, acts, i);
    assert Enabled(ss[i], acts[i]) && ss[i + 1] == Apply(ss[i], acts[i]);
    row := ss[i + 1].jobs[id];
  }

  lemma {:induction false} StepOfFinished(ss: seq<State>, acts: seq<Action>, k: nat, id: JobId, row: Job)
    requires IsRun(ss, acts) && k < |acts| && row.Finished() && StillOrGone(ss[k], id, row)
    ensures StillOrGone(ss[k + 1], id, row)
    ensures id in ss[k].jobs && !acts[k].PruneDone? ==> id in ss[k + 1].jobs
    ensures id in ss[k].jobs && acts[k].PruneDone? ==>
      (id !in ss[k + 1].jobs <==> row.completedAt.GetOr(row.updatedAt) < ss[k].now - acts[k].retentionDays * 86400000)
    ensures id !in ss[k].jobs && acts[k].PruneDone? ==> id !in ss[k + 1].jobs
  {
    InvHolds(ss, acts, k);
    assert Enabled(ss[k], acts[k]) && ss[k + 1] == Apply(ss[k], acts[k]);
    FinishedStep(ss[k], acts[k], id, row);
  }

  // ----- the laws -----

  /** A job that was completed or given up at some time is kept, as such, for `days` days of 24 hours, in
    * every run that prunes with no shorter retention. */
  lemma {:induction false} FinishedIsKept(ss: seq<State>, acts: seq<Action>, i: nat, j: nat, id: JobId, days: int)
    requires IsRun(ss, acts) && i < j < |ss| && FinishedBy(ss, acts, i, id)
    requires forall k :: 0 <= k < |acts| && acts[k].PruneDone? ==> acts[k].retentionDays >= days
    requires ss[j].now <= ss[i].now + days * 24 * 60 * 60 * 1000
    ensures id in ss[j].jobs && ss[j].jobs[id].status == if acts[i].SettleDone? then Completed else Dead
  {
    var row := FinishesAt(ss, acts, i, id);
    hide Apply, Enabled, FinishedBy;
    for k := i + 1 to j
      invariant id in ss[k].jobs && StillOrGone(ss[k], id, row)
    {
      TimePasses(ss, acts, k, j);
      StepOfFinished(ss, acts, k, id, row);
    }
  }

  /** And it is gone after any prune with that retention at a later time. */
  lemma {:induction false} FinishedIsPruned(ss: seq<State>, acts: seq<Action>, i: nat, k: nat, id: JobId, days: int)
    requires IsRun(ss, acts) && i < k < |acts| && FinishedBy(ss, acts, i, id)
    requires acts[k] == PruneDone(days) && ss[k].now > ss[i].now + days * 24 * 60 * 60 * 1000
    ensures id !in ss[k + 1].jobs
  {
    var row := FinishesAt(ss, acts, i, id);
    hide Apply, Enabled, FinishedBy;
    for n := i + 1 to k
      invariant StillOrGone(ss[n], id, row)
    {
      StepOfFinished(ss, acts, n, id, row);
    }
    StepOfFinished(ss, acts, k, id, row);
  }

  // ----- the delay of a retry -----

  /** A waiting row that is not to be claimed before `due`, and is not in a claim. */
  ghost predicate Resting(s: State, id: JobId, due: int) {
    id in s.jobs && s.jobs[id].status == Retry && s.jobs[id].availableAt == due && id !in LockedRows(s)
  }

  lemma {:induction false} RestingStep(s: State, a: Action, id: JobId, due: int)
    requires HistoryInv(s) && LocksInv(s) && Enabled(s, a) && Resting(s, id, due)
    requires !(a.BeginClaim? && a.job == id)
    ensures Resting(Apply(s, a), id, due)
  {
    NotLocked(s, a, id);
    if a.EndClaim? { LockedIsOther(s, a.tx, id); }
    hide LockedRows, LocksInv, HistoryInv;
    match a
    case BackfillRows(rows) => BackfillKeepsRows(s, rows);
    case PruneDone(days) => PruneShrinks(s.jobs, s.now, days);
    case _ =>
  }

  lemma {:induction false} LockedIsOther(s: State, tx: TxId, id: JobId)
    requires tx in s.locks && id !in LockedRows(s)
    ensures s.locks[tx].id != id
  {
    assert s.locks[tx].id in LockedRows(s);
  }

  lemma {:induction false} NotLocked(s: State, a: Action, id: JobId)
    requires Enabled(s, a) && id in s.jobs && id !in LockedRows(s) && !(a.BeginClaim? && a.job == id)
    requires a.BackfillRows? ==> forall i :: 0 <= i < |a.rows| ==> a.rows[i].id !in s.jobs
    ensures id !in LockedRows(Apply(s, a))
  {
    if a.BackfillRows? {
      BackfillKeepsRows(s, a.rows);
    }
    forall tx | tx in Apply(s, a).locks ensures Apply(s, a).locks[tx].id != id {
      assert tx in s.locks ==> s.locks[tx].id in LockedRows(s);
    }
  }

  /** A job that failed with an attempt left is not claimed again before the delay is over. */
  lemma {:induction false} RetryWaits(ss: seq<State>, acts: seq<Action>, i: nat, j: nat, id: JobId)
    requires IsRun(ss, acts) && i < j < |acts| && RunningRow(ss[i], id)
    requires acts[i].SettleFailed? && acts[i].claim.id == id
      && acts[i].claim.row.attempts < acts[i].claim.row.task.maxAttempts
    requires acts[j].BeginClaim? && acts[j].job == id
    ensures ss[j].now >= ss[i].now + acts[i].delayMs
  {
    var due := ss[i].now + acts[i].delayMs;
    StartsResting(ss, acts, i, id);
    hide Apply, Enabled, Resting;
    var k := i + 1;
    while k < j && !(acts[k].BeginClaim? && acts[k].job == id)
      invariant i < k <= j && Resting(ss[k], id, due)
      decreases j - k
    {
      InvHolds(ss, acts, k);
      assert Enabled(ss[k], acts[k]) && ss[k + 1] == Apply(ss[k], acts[k]);
      RestingStep(ss[k], acts[k], id, due);
      k := k + 1;
    }
    ClaimsWhenDue(ss, acts, k, id, due);
    TimePasses(ss, acts, k, j);
  }

  lemma {:induction false} StartsResting(ss: seq<State>, acts: seq<Action>, i: nat, id: JobId)
    requires IsRun(ss, acts) && i < |acts| && RunningRow(ss[i], id)
    requires acts[i].SettleFailed? && acts[i].claim.id == id
      && acts[i].claim.row.attempts < acts[i].claim.row.task.maxAttempts
    ensures Resting(ss[i + 1], id, ss[i].now + acts[i].delayMs)
  {
    InvHolds(ss, acts, i);
    assert Enabled(ss[i], acts[i]) && ss[i + 1] == Apply(ss[i], acts[i]);
    assert forall tx :: tx in ss[i].locks ==> ss[i].locks[tx].id != id;
  }

  lemma {:induction false} ClaimsWhenDue(ss: seq<State>, acts: seq<Action>, k: nat, id: JobId, due: int)
    requires IsRun(ss, acts) && k < |acts| && acts[k].BeginClaim? && acts[k].job == id && Resting(ss[k], id, due)
    ensures ss[k].now >= due
  {
    assert Enabled(ss[k], acts[k]);
  }

  // ----- the clock of a claim -----

  /** A claim counts from its start, not from its commit: that is the time by which it becomes stale. */
  lemma {:induction false} ClaimIsDatedFromItsStart(ss: seq<State>, acts: seq<Action>, i: nat, j: nat, tx: TxId)
    requires IsRun(ss, acts) && i < j < |acts|
    requires acts[i].BeginClaim? && acts[i].tx == tx && acts[j].EndClaim? && acts[j].tx == tx
    requires forall k :: i < k < j ==> !((acts[k].EndClaim? || acts[k].AbortClaim?) && acts[k].tx == tx)
    ensures var id := acts[i].job;
      && id in ss[j + 1].jobs && ss[j + 1].jobs[id].status == Running
      && ss[j + 1].jobs[id].lockedAt == Some(ss[i].now) && ss[j + 1].jobs[id].lockedBy == Some(acts[j].worker)
  {
    var lock := Lock(acts[i].job, ss[i].now);
    assert Enabled(ss[i], acts[i]) && ss[i + 1] == Apply(ss[i], acts[i]);
    for k := i + 1 to j
      invariant tx in ss[k].locks && ss[k].locks[tx] == lock
    {
      assert Enabled(ss[k], acts[k]) && ss[k + 1] == Apply(ss[k], acts[k]);
      LockStep(ss[k], acts[k], tx);
    }
    assert Enabled(ss[j], acts[j]) && ss[j + 1] == Apply(ss[j], acts[j]);
  }

  lemma {:induction false} LockStep(s: State, a: Action, tx: TxId)
    requires Enabled(s, a) && tx in s.locks && !((a.EndClaim? || a.AbortClaim?) && a.tx == tx)
    ensures tx in Apply(s, a).locks && Apply(s, a).locks[tx] == s.locks[tx]
  {
    if a.BackfillRows? {
      BackfillKeepsLocks(s, a.rows);
    }
  }

  lemma {:induction false} BackfillKeepsLocks(s: State, rows: seq<SourceRow>)
    ensures ApplyBackfill(s, rows).locks == s.locks
    decreases |rows|
  {
    if rows != [] {
      BackfillKeepsLocks(BackfillOne(s, rows[0]), rows[1..]);
    }
  }
}
