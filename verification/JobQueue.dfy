/** The durable queue as a transition system: one table, a clock, and any number of workers.
  *
  * `claimNext` is two steps, because other transactions run between the row lock taken by
  * FOR UPDATE SKIP LOCKED and the commit of the UPDATE. A worker holds the row it was given until it
  * settles it, however late; `open` is the set of records so held. A worker may also vanish. */
module JobQueue {
  import opened JobTable

  type TxId = nat

  /** A record that a worker holds: the row as `RETURNING job.*` gave it. */
  datatype Claim = Claim(id: JobId, row: Job)

  /** A row lock and the timestamp of the transaction that took it. */
  datatype Lock = Lock(id: JobId, at: int)

  /** `recoveries` and `retried` are history: how often `recoverStale` took the job back, and which
    * attempt numbers have already been failed into `retry`. */
  datatype State = State(jobs: Table, now: int, locks: map<TxId, Lock>, open: set<Claim>,
                         recoveries: map<JobId, nat>, retried: map<JobId, set<nat>>,
                         accepted: nat, backfilled: nat, pruned: nat)

  datatype Action =
    | Tick(elapsed: nat)
    | Enqueue(id: JobId, task: Task)
    | BackfillRows(rows: seq<SourceRow>)
    | BeginClaim(tx: TxId, job: JobId)
    | EndClaim(tx: TxId, worker: WorkerId)
    | AbortClaim(tx: TxId)
    | SettleDone(claim: Claim, result: string)
    | SettleFailed(claim: Claim, message: string, delayMs: nat)
    | Vanish(claim: Claim)
    | Recover(staleAfterMs: int)
    | PruneDone(retentionDays: int)

  ghost function LockedRows(s: State): set<JobId> {
    set tx | tx in s.locks :: s.locks[tx].id
  }

  ghost predicate Init(s: State) {
    s.jobs == map[] && s.locks == map[] && s.open == {} && s.recoveries == map[] && s.retried == map[]
    && s.accepted == s.backfilled == s.pruned == 0
  }

  /** Row ids come from a random UUID generator and are assumed never to repeat. */
  ghost predicate Enabled(s: State, a: Action) {
    match a
    case Tick(_) => true
    case Enqueue(id, task) => id !in s.recoveries && task.maxAttempts > 0
    case BackfillRows(rows) =>
      && (forall i :: 0 <= i < |rows| ==> rows[i].id !in s.recoveries && rows[i].task.maxAttempts > 0)
      && (forall i, j :: 0 <= i < j < |rows| ==> rows[i].id != rows[j].id)
    case BeginClaim(tx, job) => tx !in s.locks && IsNext(s.jobs, LockedRows(s), s.now, job)
    case EndClaim(tx, _) => tx in s.locks && s.locks[tx].id in s.jobs
    case AbortClaim(tx) => tx in s.locks
    case SettleDone(claim, _) => claim in s.open
    case SettleFailed(claim, _, _) => claim in s.open
    case Vanish(claim) => claim in s.open
    case Recover(_) => true
    case PruneDone(_) => true
  }

  ghost function InsertRow(s: State, id: JobId, task: Task): State {
    if HasKey(s.jobs, task.key) then s
    else s.(jobs := Insert(s.jobs, id, task, s.now),
            recoveries := s.recoveries[id := 0], retried := s.retried[id := {}])
  }

  /** One source row of a backfill. */
  ghost function BackfillOne(s: State, row: SourceRow): State {
    var t := InsertRow(s, row.id, row.task);
    if t == s then s else t.(backfilled := s.backfilled + 1)
  }

  ghost function ApplyBackfill(s: State, rows: seq<SourceRow>): State
    decreases |rows|
  {
    if rows == [] then s else ApplyBackfill(BackfillOne(s, rows[0]), rows[1..])
  }

  ghost predicate RunningRow(s: State, id: JobId) {
    id in s.jobs && s.jobs[id].status == Running
  }

  ghost function RecoveryCount(s: State, id: JobId, staleAfterMs: int): nat
    requires id in s.recoveries
  {
    s.recoveries[id] + if id in s.jobs && Stale(s.jobs[id], s.now, staleAfterMs) then 1 else 0
  }

  ghost function Apply(s: State, a: Action): State
    requires Enabled(s, a)
  {
    match a
    case Tick(elapsed) => s.(now := s.now + elapsed)
    case Enqueue(id, task) =>
      var t := InsertRow(s, id, task);
      if t == s then s else t.(accepted := s.accepted + 1)
    case BackfillRows(rows) => ApplyBackfill(s, rows)
    case BeginClaim(tx, job) => s.(locks := s.locks[tx := Lock(job, s.now)])
    case EndClaim(tx, worker) =>
      var lock := s.locks[tx];
      var row := Claimed(s.jobs[lock.id], worker, lock.at);
      s.(jobs := s.jobs[lock.id := row], locks := s.locks - {tx}, open := s.open + {Claim(lock.id, row)})
    case AbortClaim(tx) => s.(locks := s.locks - {tx})
    case SettleDone(claim, result) =>
      s.(jobs := Complete(s.jobs, claim.id, result, s.now), open := s.open - {claim})
    case SettleFailed(claim, message, delayMs) =>
      s.(jobs := Fail(s.jobs, claim.id, claim.row, message, delayMs, s.now), open := s.open - {claim},
         retried := if RunningRow(s, claim.id) && !GivesUp(claim.row) && claim.id in s.retried
                    then s.retried[claim.id := s.retried[claim.id] + {claim.row.attempts}] else s.retried)
    case Vanish(claim) => s.(open := s.open - {claim})
    case Recover(staleAfterMs) =>
      s.(jobs := JobTable.RecoverStale(s.jobs, s.now, staleAfterMs),
         recoveries := map id | id in s.recoveries :: RecoveryCount(s, id, staleAfterMs))
    case PruneDone(retentionDays) =>
      var left := Prune(s.jobs, s.now, retentionDays);
      s.(jobs := left, pruned := s.pruned + (|s.jobs.Keys - left.Keys|))
  }

  /** A run: the actions performed and the states between them. */
  ghost predicate IsTrace(ss: seq<State>, acts: seq<Action>) {
    && |ss| == |acts| + 1
    && forall i :: 0 <= i < |acts| ==> Enabled(ss[i], acts[i]) && ss[i + 1] == Apply(ss[i], acts[i])
  }

  ghost predicate IsRun(ss: seq<State>, acts: seq<Action>) {
    IsTrace(ss, acts) && Init(ss[0])
  }

  // ----- what every state of every run satisfies -----

  /** One row, with its history. It is locked exactly while it runs, and a dead row has used every
    * attempt it was granted. Every entry into a waiting state is accounted for, by the insert, a
    * failure or a recovery, and each entry has been used by one attempt, except the one that a
    * waiting row still has. */
  ghost predicate RowInv(job: Job, retried: set<nat>, recoveries: nat) {
    && job.task.maxAttempts > 0
    && (job.status == Running <==> job.lockedAt.Some?)
    && (job.status == Running <==> job.lockedBy.Some?)
    && (job.status == Pending ==> job.attempts == 0)
    && (!job.Waiting() ==> job.attempts >= 1)
    && (job.status == Dead ==> job.attempts >= job.task.maxAttempts)
    && job.attempts + (if job.Waiting() then 1 else 0) == 1 + |retried| + recoveries
    && forall n :: n in retried ==> 1 <= n < job.task.maxAttempts && n <= job.attempts
  }

  ghost predicate HistoryInv(s: State) {
    s.recoveries.Keys == s.retried.Keys && s.jobs.Keys <= s.recoveries.Keys
  }

  ghost predicate RowsInv(s: State)
    requires HistoryInv(s)
  {
    forall id :: id in s.jobs ==> RowInv(s.jobs[id], s.retried[id], s.recoveries[id])
  }

  /** Row locks are exclusive and only ever held on waiting rows. */
  ghost predicate LocksInv(s: State) {
    && (forall tx :: tx in s.locks ==> s.locks[tx].id in s.jobs && s.jobs[s.locks[tx].id].Waiting())
    && (forall t, u :: t in s.locks && u in s.locks && s.locks[t].id == s.locks[u].id ==> t == u)
  }

  /** A held record has an attempt number that the row has reached and that has not been failed yet. */
  ghost predicate HeldOk(held: Job, job: Job, retried: set<nat>) {
    1 <= held.attempts <= job.attempts && held.task == job.task && held.attempts !in retried
  }

  ghost predicate ClaimsInv(s: State)
    requires HistoryInv(s)
  {
    && (forall c :: c in s.open ==> c.id in s.recoveries)
    && (forall c :: c in s.open && c.id in s.jobs ==> HeldOk(c.row, s.jobs[c.id], s.retried[c.id]))
    && (forall c, d :: c in s.open && d in s.open && c.id == d.id && c.row.attempts == d.row.attempts ==> c == d)
  }

  ghost predicate CountsInv(s: State) {
    |s.jobs| + s.pruned == s.accepted + s.backfilled
  }

  ghost predicate Inv(s: State) {
    HistoryInv(s) && RowsInv(s) && LocksInv(s) && ClaimsInv(s) && UniqueKeys(s.jobs) && CountsInv(s)
  }

  // ----- each action keeps the invariant, one part at a time -----

  /** `t` is `s` with one new pending row, which has no history and no holder. */
  ghost predicate OneMoreRow(s: State, t: State, id: JobId, task: Task) {
    t == s.(jobs := s.jobs[id := NewJob(task, s.now)],
            recoveries := s.recoveries[id := 0], retried := s.retried[id := {}],
            accepted := t.accepted, backfilled := t.backfilled)
  }

  lemma InsertKeepsRows(s: State, t: State, id: JobId, task: Task)
    requires HistoryInv(s) && RowsInv(s) && id !in s.recoveries && task.maxAttempts > 0
    requires OneMoreRow(s, t, id, task)
    ensures HistoryInv(t) && RowsInv(t) && |t.jobs| == |s.jobs| + 1
  {}

  lemma InsertKeepsHolders(s: State, t: State, id: JobId, task: Task)
    requires HistoryInv(s) && LocksInv(s) && ClaimsInv(s) && id !in s.recoveries
    requires OneMoreRow(s, t, id, task) && HistoryInv(t)
    ensures LocksInv(t) && ClaimsInv(t)
  {}

  lemma {:induction false} InsertKeepsInv(s: State, id: JobId, task: Task)
    requires Inv(s) && id !in s.recoveries && task.maxAttempts > 0 && !HasKey(s.jobs, task.key)
    ensures Inv(InsertRow(s, id, task).(accepted := s.accepted + 1))
    ensures Inv(InsertRow(s, id, task).(backfilled := s.backfilled + 1))
  {
    hide HasKey, UniqueKeys, RowInv, LocksInv, ClaimsInv;
    InsertKeepsUniqueKeys(s.jobs, id, task, s.now);
    var t := InsertRow(s, id, task).(accepted := s.accepted + 1);
    InsertKeepsRows(s, t, id, task);
    InsertKeepsHolders(s, t, id, task);
    var u := InsertRow(s, id, task).(backfilled := s.backfilled + 1);
    InsertKeepsRows(s, u, id, task);
    InsertKeepsHolders(s, u, id, task);
  }

  lemma {:induction false} BackfillOneKeepsInv(s: State, row: SourceRow)
    requires Inv(s) && row.id !in s.recoveries && row.task.maxAttempts > 0
    ensures Inv(BackfillOne(s, row)) && BackfillOne(s, row).recoveries.Keys <= s.recoveries.Keys + {row.id}
  {
    hide Inv;
    if !HasKey(s.jobs, row.task.key) {
      InsertKeepsInv(s, row.id, row.task);
    }
  }

  lemma {:induction false} BackfillKeepsInv(s: State, rows: seq<SourceRow>)
    requires Inv(s) && Enabled(s, BackfillRows(rows))
    ensures Inv(ApplyBackfill(s, rows))
    decreases |rows|
  {
    hide Inv, BackfillOne;
    if rows != [] {
      BackfillOneKeepsInv(s, rows[0]);
      assert forall i :: 0 <= i < |rows[1..]| ==> rows[1..][i] == rows[i + 1];
      BackfillKeepsInv(BackfillOne(s, rows[0]), rows[1..]);
    }
  }

  /** The actions that neither insert nor prune leave the set of rows and their tasks alone. */
  ghost predicate SameRows(a: Action) {
    !a.Enqueue? && !a.BackfillRows? && !a.PruneDone?
  }

  lemma UniqueKeysKept(jobs: Table, left: Table)
    requires UniqueKeys(jobs) && left.Keys <= jobs.Keys
    requires forall id :: id in left ==> left[id].task == jobs[id].task
    ensures UniqueKeys(left)
  {}

  lemma KeysKept(s: State, a: Action)
    requires HistoryInv(s) && Enabled(s, a) && SameRows(a)
    ensures var t := Apply(s, a);
      && HistoryInv(t) && t.jobs.Keys == s.jobs.Keys && t.recoveries.Keys == s.recoveries.Keys
      && forall id :: id in t.jobs ==> t.jobs[id].task == s.jobs[id].task
  {}

  lemma RowsKept(s: State, a: Action, id: JobId)
    requires HistoryInv(s) && Enabled(s, a) && SameRows(a) && id in s.jobs
    requires RowInv(s.jobs[id], s.retried[id], s.recoveries[id])
    requires a.SettleFailed? && a.claim.id == id ==> HeldOk(a.claim.row, s.jobs[id], s.retried[id])
    requires a.EndClaim? && s.locks[a.tx].id == id ==> s.jobs[id].Waiting()
    requires HistoryInv(Apply(s, a)) && id in Apply(s, a).jobs
    ensures RowInv(Apply(s, a).jobs[id], Apply(s, a).retried[id], Apply(s, a).recoveries[id])
  {}

  lemma LocksKept(s: State, a: Action)
    requires HistoryInv(s) && LocksInv(s) && Enabled(s, a) && SameRows(a)
    ensures LocksInv(Apply(s, a))
  {}

  lemma ClaimsKept(s: State, a: Action)
    requires HistoryInv(s) && LocksInv(s) && ClaimsInv(s) && Enabled(s, a) && SameRows(a)
    requires forall id :: id in s.retried && id in s.jobs ==> forall n :: n in s.retried[id] ==> n <= s.jobs[id].attempts
    requires HistoryInv(Apply(s, a))
    ensures ClaimsInv(Apply(s, a))
  {}

  lemma PruneShrinks(jobs: Table, now: int, retentionDays: int)
    ensures var left := Prune(jobs, now, retentionDays);
      && left.Keys <= jobs.Keys && |left| + |jobs.Keys - left.Keys| == |jobs|
      && (forall id :: id in left ==> left[id] == jobs[id])
      && (forall id :: id in jobs && !jobs[id].Finished() ==> id in left)
  {}

  lemma ShrinkKeepsInv(s: State, t: State)
    requires Inv(s)
    requires t.jobs.Keys <= s.jobs.Keys && forall id :: id in t.jobs ==> t.jobs[id] == s.jobs[id]
    requires forall id :: id in s.jobs && !s.jobs[id].Finished() ==> id in t.jobs
    requires |t.jobs| + t.pruned == |s.jobs| + s.pruned
    requires t == s.(jobs := t.jobs, pruned := t.pruned)
    ensures Inv(t)
  {
    hide UniqueKeys;
    UniqueKeysKept(s.jobs, t.jobs);
  }

  lemma {:induction false} PruneKeepsInv(s: State, retentionDays: int)
    requires Inv(s)
    ensures Inv(Apply(s, PruneDone(retentionDays)))
  {
    PruneShrinks(s.jobs, s.now, retentionDays);
    var left := Prune(s.jobs, s.now, retentionDays);
    ShrinkKeepsInv(s, s.(jobs := left, pruned := s.pruned + (|s.jobs.Keys - left.Keys|)));
  }

  lemma {:induction false} StepKeepsInv(s: State, a: Action)
    requires Inv(s) && Enabled(s, a)
    ensures Inv(Apply(s, a))
  {
    if a.PruneDone? {
      PruneKeepsInv(s, a.retentionDays);
    } else if a.BackfillRows? {
      BackfillKeepsInv(s, a.rows);
    } else if a.Enqueue? {
      if !HasKey(s.jobs, a.task.key) {
        InsertKeepsInv(s, a.id, a.task);
      }
    } else {
      StepInPlaceKeepsInv(s, a);
    }
  }

  lemma {:induction false} StepInPlaceKeepsInv(s: State, a: Action)
    requires Inv(s) && Enabled(s, a) && SameRows(a)
    ensures Inv(Apply(s, a))
  {
    KeysKept(s, a);
    RowsInPlaceKept(s, a);
    CountsKept(s, a);
    LocksKept(s, a);
    AttemptsOfHistory(s);
    ClaimsKept(s, a);
    hide Apply, Enabled, LocksInv, ClaimsInv, CountsInv, UniqueKeys, RowsInv;
    UniqueKeysKept(s.jobs, Apply(s, a).jobs);
  }

  lemma {:induction false} RowsInPlaceKept(s: State, a: Action)
    requires Inv(s) && Enabled(s, a) && SameRows(a)
    ensures HistoryInv(Apply(s, a)) && RowsInv(Apply(s, a))
  {
    KeysKept(s, a);
    hide Apply, RowInv, UniqueKeys, CountsInv;
    var t := Apply(s, a);
    forall id | id in t.jobs ensures RowInv(t.jobs[id], t.retried[id], t.recoveries[id]) {
      RowsKept(s, a, id);
    }
  }

  lemma {:induction false} AttemptsOfHistory(s: State)
    requires HistoryInv(s) && RowsInv(s)
    ensures forall id :: id in s.retried && id in s.jobs ==> forall n :: n in s.retried[id] ==> n <= s.jobs[id].attempts
  {
    forall id | id in s.jobs ensures forall n :: n in s.retried[id] ==> n <= s.jobs[id].attempts {
      assert RowInv(s.jobs[id], s.retried[id], s.recoveries[id]);
    }
  }

  lemma {:induction false} CountsKept(s: State, a: Action)
    requires HistoryInv(s) && CountsInv(s) && Enabled(s, a) && SameRows(a)
    ensures CountsInv(Apply(s, a))
  {
    KeysKept(s, a);
    assert |Apply(s, a).jobs| == |Apply(s, a).jobs.Keys| == |s.jobs.Keys| == |s.jobs|;
  }

  lemma {:induction false} InvHolds(ss: seq<State>, acts: seq<Action>, i: nat)
    requires IsRun(ss, acts) && i < |ss|
    ensures Inv(ss[i])
  {
    if i > 0 {
      InvHolds(ss, acts, i - 1);
      assert Enabled(ss[i - 1], acts[i - 1]) && ss[i - 1 + 1] == Apply(ss[i - 1], acts[i - 1]);
      StepKeepsInv(ss[i - 1], acts[i - 1]);
    }
  }

  // ----- the bound on attempts -----

  lemma {:induction false} BoundedSetSize(s: set<nat>, max: nat)
    requires forall n :: n in s ==> 1 <= n < max
    requires max > 0
    ensures |s| <= max - 1
  {
    if max == 1 {
      assert forall n :: n !in s;
      assert s == {};
    } else {
      BoundedSetSize(s - {max - 1}, max - 1);
      if max - 1 in s {
        assert s == s - {max - 1} + {max - 1};
      } else {
        assert s == s - {max - 1};
      }
    }
  }

  /** In every run, late settlements of jobs since reclaimed included: no job is attempted more often
    * than its grant plus the times it was recovered, and a dead job has used its grant up. */
  lemma AttemptsBound(ss: seq<State>, acts: seq<Action>, i: nat, id: JobId)
    requires IsRun(ss, acts) && i < |ss| && id in ss[i].jobs
    ensures id in ss[i].recoveries
    ensures ss[i].jobs[id].attempts <= ss[i].jobs[id].task.maxAttempts + ss[i].recoveries[id]
    ensures ss[i].jobs[id].Waiting() ==>
      ss[i].jobs[id].attempts < ss[i].jobs[id].task.maxAttempts + ss[i].recoveries[id]
    ensures ss[i].jobs[id].status == Dead ==> ss[i].jobs[id].attempts >= ss[i].jobs[id].task.maxAttempts
  {
    InvHolds(ss, acts, i);
    var s := ss[i];
    assert RowInv(s.jobs[id], s.retried[id], s.recoveries[id]);
    BoundedSetSize(s.retried[id], s.jobs[id].task.maxAttempts);
  }

  /** Rows in the table are the rows ever inserted and not pruned; each idempotency key has one row;
    * a row is locked exactly while it runs. */
  lemma QueueInvariant(ss: seq<State>, acts: seq<Action>, i: nat)
    requires IsRun(ss, acts) && i < |ss|
    ensures |ss[i].jobs| == ss[i].accepted + ss[i].backfilled - ss[i].pruned
    ensures forall j, k :: j in ss[i].jobs && k in ss[i].jobs && ss[i].jobs[j].task.key == ss[i].jobs[k].task.key ==> j == k
    ensures forall k :: k in ss[i].jobs ==> (ss[i].jobs[k].status == Running <==> ss[i].jobs[k].lockedAt.Some?)
  {
    InvHolds(ss, acts, i);
    assert forall k :: k in ss[i].jobs ==> RowInv(ss[i].jobs[k], ss[i].retried[k], ss[i].recoveries[k]);
  }

  /** An `enqueue` that is answered with `accepted`. */
  ghost predicate Accepted(ss: seq<State>, acts: seq<Action>, i: nat)
    requires i < |acts| < |ss|
  {
    acts[i].Enqueue? && !HasKey(ss[i].jobs, acts[i].task.key)
  }

  /** A row keeps its task for as long as it is in the table, and only pruning takes it out. */
  lemma {:induction false} RowsStay(s: State, a: Action, id: JobId)
    requires HistoryInv(s) && Enabled(s, a) && id in s.jobs
    requires a.PruneDone? ==> id in Apply(s, a).jobs
    ensures id in Apply(s, a).jobs && Apply(s, a).jobs[id].task == s.jobs[id].task
  {
    if a.BackfillRows? {
      BackfillKeepsRows(s, a.rows);
    }
  }

  /** A key is accepted once between prunes: between two accepted calls with one key, a prune has removed
    * the row that the first of them inserted. */
  lemma {:induction false} AcceptedOncePerKey(ss: seq<State>, acts: seq<Action>, i: nat, j: nat) returns (k: nat)
    requires IsRun(ss, acts) && i < j < |acts|
    requires Accepted(ss, acts, i) && Accepted(ss, acts, j) && acts[i].task.key == acts[j].task.key
    ensures i < k < j && acts[k].PruneDone?
    ensures acts[i].id in ss[k].jobs && acts[i].id !in ss[k + 1].jobs
    ensures ss[k].jobs[acts[i].id].task == acts[i].task
  {
    hide Apply, Enabled, HistoryInv;
    var id := acts[i].id;
    InsertsRow(ss, acts, i);
    k := i + 1;
    while k < j && id in ss[k + 1].jobs
      invariant i < k <= j && id in ss[k].jobs && ss[k].jobs[id].task == acts[i].task
      decreases j - k
    {
      StaysAt(ss, acts, k, id);
      k := k + 1;
    }
    assert k < j;
    if !acts[k].PruneDone? {
      StaysAt(ss, acts, k, id);
    }
  }

  lemma {:induction false} InsertsRow(ss: seq<State>, acts: seq<Action>, i: nat)
    requires IsRun(ss, acts) && i < |acts| && Accepted(ss, acts, i)
    ensures acts[i].id in ss[i + 1].jobs && ss[i + 1].jobs[acts[i].id].task == acts[i].task
  {
    assert Enabled(ss[i], acts[i]) && ss[i + 1] == Apply(ss[i], acts[i]);
  }

  lemma {:induction false} StaysAt(ss: seq<State>, acts: seq<Action>, k: nat, id: JobId)
    requires IsRun(ss, acts) && k < |acts| && id in ss[k].jobs
    requires acts[k].PruneDone? ==> id in ss[k + 1].jobs
    ensures id in ss[k + 1].jobs && ss[k + 1].jobs[id].task == ss[k].jobs[id].task
  {
    InvHolds(ss, acts, k);
    assert Enabled(ss[k], acts[k]) && ss[k + 1] == Apply(ss[k], acts[k]);
    RowsStay(ss[k], acts[k], id);
  }

  /** A finished row never changes again; it can only be pruned. */
  lemma FinishedIsFinal(s: State, a: Action, id: JobId)
    requires HistoryInv(s) && LocksInv(s) && Enabled(s, a)
    requires id in s.jobs && s.jobs[id].Finished()
    ensures var t := Apply(s, a);
      (id in t.jobs && t.jobs[id] == s.jobs[id]) || (a.PruneDone? && id !in t.jobs)
  {
    if a.BackfillRows? {
      BackfillKeepsRows(s, a.rows);
    }
  }

  lemma {:induction false} BackfillKeepsRows(s: State, rows: seq<SourceRow>)
    requires forall i :: 0 <= i < |rows| ==> rows[i].id !in s.jobs
    requires forall i, j :: 0 <= i < j < |rows| ==> rows[i].id != rows[j].id
    ensures ApplyBackfill(s, rows).jobs == Backfill(s.jobs, rows, s.now)
    ensures forall id :: id in s.jobs ==> id in ApplyBackfill(s, rows).jobs && ApplyBackfill(s, rows).jobs[id] == s.jobs[id]
    ensures ApplyBackfill(s, rows).locks == s.locks && ApplyBackfill(s, rows).now == s.now
    decreases |rows|
  {
    if rows != [] {
      var u := BackfillOne(s, rows[0]);
      assert u.jobs == Insert(s.jobs, rows[0].id, rows[0].task, s.now);
      BackfillKeepsRows(u, rows[1..]);
    }
  }

  /** Two claims that overlap never return the same row, and the locked row cannot be taken, settled,
    * recovered or pruned before the claim ends: the UPDATE finds it as the SELECT left it. */
  lemma OverlappingClaimsDiffer(ss: seq<State>, acts: seq<Action>, i: nat, t: TxId, u: TxId)
    requires IsRun(ss, acts) && i < |ss|
    requires t in ss[i].locks && u in ss[i].locks && t != u
    ensures ss[i].locks[t].id != ss[i].locks[u].id
    ensures ss[i].locks[t].id in ss[i].jobs && ss[i].jobs[ss[i].locks[t].id].Waiting()
  {
    InvHolds(ss, acts, i);
  }

  lemma {:induction false} LockedRowIsStable(s: State, a: Action, tx: TxId)
    requires HistoryInv(s) && LocksInv(s) && Enabled(s, a) && tx in s.locks
    requires tx in Apply(s, a).locks
    ensures Apply(s, a).locks[tx] == s.locks[tx]
    ensures s.locks[tx].id in Apply(s, a).jobs && Apply(s, a).jobs[s.locks[tx].id] == s.jobs[s.locks[tx].id]
  {
    var id := s.locks[tx].id;
    LockKept(s, a, tx);
    assert a.EndClaim? ==> s.locks[a.tx].id != id;
    hide LocksInv, Apply;
    WaitingRowKept(s, a, id);
  }

  lemma {:induction false} LockKept(s: State, a: Action, tx: TxId)
    requires LocksInv(s) && HistoryInv(s) && Enabled(s, a) && tx in s.locks && tx in Apply(s, a).locks
    ensures Apply(s, a).locks[tx] == s.locks[tx] && (a.EndClaim? ==> a.tx != tx)
    ensures s.locks[tx].id in s.jobs && s.jobs[s.locks[tx].id].Waiting()
  {
    if a.BackfillRows? {
      BackfillKeepsRows(s, a.rows);
    }
  }

  /** Only a claim changes a waiting row. */
  lemma {:induction false} WaitingRowKept(s: State, a: Action, id: JobId)
    requires HistoryInv(s) && Enabled(s, a) && id in s.jobs && s.jobs[id].Waiting()
    requires a.EndClaim? ==> s.locks[a.tx].id != id
    ensures id in Apply(s, a).jobs && Apply(s, a).jobs[id] == s.jobs[id]
  {
    match a
    case BackfillRows(rows) => BackfillKeepsRows(s, rows);
    case PruneDone(days) => PruneShrinks(s.jobs, s.now, days);
    case _ => hide HistoryInv, IsNext;
  }
}
