/** The `operational_jobs` table and the SQL statements that `jobRepository` runs on it.
  * Every statement is a function from the table before it to the table after it; `now` is the
  * transaction timestamp that the database substitutes for NOW(), in milliseconds. */
module JobTable {
  import opened Options

  type JobId = nat      // the random UUID of a row
  type WorkerId = string

  datatype Status = Pending | Running | Retry | Completed | Dead

  /** What a caller hands to `enqueue`, or what a backfill reads from a source row. */
  datatype Task = Task(key: string, kind: string, companyId: Option<string>, payload: string,
                       maxAttempts: int, correlationId: Option<string>)

  datatype Job = Job(task: Task, status: Status, attempts: nat,
                     availableAt: int, createdAt: int, updatedAt: int,
                     lockedAt: Option<int>, lockedBy: Option<WorkerId>,
                     lastError: Option<string>, result: Option<string>, completedAt: Option<int>)
  {
    predicate Waiting() { status == Pending || status == Retry }
    predicate Finished() { status == Completed || status == Dead }
  }

  type Table = map<JobId, Job>

  const ERROR_LIMIT := 2000
  const DAY_MS := 86400000
  const INTERRUPTED := "worker interrupted before completion"

  function NewJob(task: Task, now: int): Job {
    Job(task, Pending, 0, now, now, now, None, None, None, None, None)
  }

  ghost predicate HasKey(jobs: Table, key: string) {
    exists id :: id in jobs && jobs[id].task.key == key
  }

  /** The UNIQUE constraint on `idempotency_key`. */
  ghost predicate UniqueKeys(jobs: Table) {
    forall i, j :: i in jobs && j in jobs && jobs[i].task.key == jobs[j].task.key ==> i == j
  }

  // ----- enqueue and backfill: INSERT ... ON CONFLICT (idempotency_key) -----

  /** On a conflict the row is rewritten with the key it already has, or left alone. */
  ghost function Insert(jobs: Table, id: JobId, task: Task, now: int): Table {
    if HasKey(jobs, task.key) then jobs else jobs[id := NewJob(task, now)]
  }

  datatype SourceRow = SourceRow(id: JobId, task: Task)

  ghost function Backfill(jobs: Table, rows: seq<SourceRow>, now: int): Table
    decreases |rows|
  {
    if rows == [] then jobs
    else Backfill(Insert(jobs, rows[0].id, rows[0].task, now), rows[1..], now)
  }

  // ----- claimNext -----

  predicate Ready(job: Job, now: int) {
    job.Waiting() && job.availableAt <= now
  }

  /** ORDER BY available_at ASC, created_at ASC: `a` is ordered no later than `b`. */
  predicate NoLater(a: Job, b: Job) {
    a.availableAt < b.availableAt || (a.availableAt == b.availableAt && a.createdAt <= b.createdAt)
  }

  /** `id` may be the row that FOR UPDATE SKIP LOCKED LIMIT 1 returns: ties are broken arbitrarily. */
  predicate IsNext(jobs: Table, locked: set<JobId>, now: int, id: JobId) {
    && id in jobs && id !in locked && Ready(jobs[id], now)
    && forall k :: k in jobs && k !in locked && Ready(jobs[k], now) ==> NoLater(jobs[id], jobs[k])
  }

  function Claimed(job: Job, worker: WorkerId, now: int): Job {
    job.(status := Running, attempts := job.attempts + 1,
         lockedAt := Some(now), lockedBy := Some(worker), updatedAt := now)
  }

  // ----- recoverStale -----

  predicate Stale(job: Job, now: int, staleAfterMs: int) {
    job.status == Running && job.lockedAt.Some? && job.lockedAt.value < now - staleAfterMs
  }

  function Recovered(job: Job, now: int): Job {
    job.(status := Retry, lockedAt := None, lockedBy := None, availableAt := now, updatedAt := now,
         lastError := Some(job.lastError.GetOr(INTERRUPTED)))
  }

  function RecoverStale(jobs: Table, now: int, staleAfterMs: int): Table {
    map id | id in jobs :: if Stale(jobs[id], now, staleAfterMs) then Recovered(jobs[id], now) else jobs[id]
  }

  // ----- complete and fail: both act only on a row that is still running -----

  function Complete(jobs: Table, id: JobId, result: string, now: int): Table {
    if id in jobs && jobs[id].status == Running then
      jobs[id := jobs[id].(status := Completed, completedAt := Some(now), updatedAt := now,
                           lockedAt := None, lockedBy := None, lastError := None, result := Some(result))]
    else jobs
  }

  /** The decision is taken from the record the worker holds, not from the row. */
  predicate GivesUp(held: Job) {
    held.attempts >= held.task.maxAttempts
  }

  function Failed(job: Job, dead: bool, message: string, delayMs: nat, now: int): Job {
    job.(status := if dead then Dead else Retry,
         lastError := Some(if |message| <= ERROR_LIMIT then message else message[..ERROR_LIMIT]),
         updatedAt := now,
         availableAt := if dead then job.availableAt else now + delayMs,
         lockedAt := None, lockedBy := None)
  }

  function Fail(jobs: Table, id: JobId, held: Job, message: string, delayMs: nat, now: int): Table {
    if id in jobs && jobs[id].status == Running then
      jobs[id := Failed(jobs[id], GivesUp(held), message, delayMs, now)]
    else jobs
  }

  // ----- pruneFinished -----

  predicate Expired(job: Job, now: int, retentionDays: int) {
    job.Finished() && job.completedAt.GetOr(job.updatedAt) < now - retentionDays * DAY_MS
  }

  function Prune(jobs: Table, now: int, retentionDays: int): Table {
    map id | id in jobs && !Expired(jobs[id], now, retentionDays) :: jobs[id]
  }

  // ----- facts about the statements -----

  /** A ready row that nobody has locked makes `claimNext` return some row. */
  lemma {:induction false} NextExists(jobs: Table, locked: set<JobId>, now: int, ready: set<JobId>) returns (id: JobId)
    requires ready == set k | k in jobs && k !in locked && Ready(jobs[k], now)
    requires ready != {}
    ensures IsNext(jobs, locked, now, id)
  {
    id := Earliest(jobs, ready);
    forall k | k in jobs && k !in locked && Ready(jobs[k], now) ensures NoLater(jobs[id], jobs[k]) {
      assert k in ready;
    }
  }

  lemma {:induction false} Earliest(jobs: Table, s: set<JobId>) returns (id: JobId)
    requires s != {} && s <= jobs.Keys
    ensures id in s && forall k :: k in s ==> NoLater(jobs[id], jobs[k])
    decreases |s|
  {
    var first :| first in s;
    id := first;
    var rest := s - {first};
    if rest != {} {
      var other := Earliest(jobs, rest);
      id := if NoLater(jobs[first], jobs[other]) then first else other;
      forall k | k in s ensures NoLater(jobs[id], jobs[k]) {
        assert k == first || k in rest;
      }
    } else {
      assert s == {first};
    }
  }

  lemma InsertKeepsUniqueKeys(jobs: Table, id: JobId, task: Task, now: int)
    requires UniqueKeys(jobs) && id !in jobs
    ensures UniqueKeys(Insert(jobs, id, task, now))
    ensures HasKey(Insert(jobs, id, task, now), task.key)
  {
    var after := Insert(jobs, id, task, now);
    if !HasKey(jobs, task.key) {
      assert id in after && after[id].task.key == task.key;
    }
  }

  ghost predicate KeysCovered(jobs: Table, rows: seq<SourceRow>) {
    forall i :: 0 <= i < |rows| ==> HasKey(jobs, rows[i].task.key)
  }

  /** Fresh, pairwise different row ids, as `gen_random_uuid()` is assumed to give. */
  predicate FreshIds(jobs: Table, rows: seq<SourceRow>) {
    && (forall i :: 0 <= i < |rows| ==> rows[i].id !in jobs)
    && (forall i, j :: 0 <= i < j < |rows| ==> rows[i].id != rows[j].id)
  }

  /** A backfill keeps every row and leaves every source key present. */
  lemma {:induction false} BackfillCovers(jobs: Table, rows: seq<SourceRow>, now: int)
    requires FreshIds(jobs, rows)
    ensures jobs.Keys <= Backfill(jobs, rows, now).Keys
    ensures forall id :: id in jobs ==> Backfill(jobs, rows, now)[id] == jobs[id]
    ensures KeysCovered(Backfill(jobs, rows, now), rows)
    decreases |rows|
  {
    if rows != [] {
      var mid := Insert(jobs, rows[0].id, rows[0].task, now);
      var after := Backfill(mid, rows[1..], now);
      BackfillCovers(mid, rows[1..], now);
      assert HasKey(mid, rows[0].task.key) by {
        if !HasKey(jobs, rows[0].task.key) {
          assert rows[0].id in mid && mid[rows[0].id].task.key == rows[0].task.key;
        }
      }
      var w :| w in mid && mid[w].task.key == rows[0].task.key;
      assert w in after && after[w].task.key == rows[0].task.key;
      forall i | 0 <= i < |rows| ensures HasKey(after, rows[i].task.key) {
        if i > 0 { assert rows[i] == rows[1..][i - 1]; }
      }
    }
  }

  lemma {:induction false} BackfillNothing(jobs: Table, rows: seq<SourceRow>, now: int)
    requires KeysCovered(jobs, rows)
    ensures Backfill(jobs, rows, now) == jobs
    decreases |rows|
  {
    if rows != [] {
      assert HasKey(jobs, rows[0].task.key);
      forall i | 0 <= i < |rows[1..]| ensures HasKey(jobs, rows[1..][i].task.key) {
        assert rows[1..][i] == rows[i + 1];
      }
      BackfillNothing(jobs, rows[1..], now);
    }
  }

  /** Backfilling again from source tables that still hold the same keys inserts nothing,
    * whatever new row ids and whatever later time the second run uses. */
  lemma BackfillTwice(jobs: Table, rows: seq<SourceRow>, again: seq<SourceRow>, now: int, later: int)
    requires FreshIds(jobs, rows)
    requires |again| == |rows| && forall i :: 0 <= i < |rows| ==> again[i].task == rows[i].task
    ensures Backfill(Backfill(jobs, rows, now), again, later) == Backfill(jobs, rows, now)
  {
    BackfillCovers(jobs, rows, now);
    var after := Backfill(jobs, rows, now);
    forall i | 0 <= i < |again| ensures HasKey(after, again[i].task.key) {
      assert HasKey(after, rows[i].task.key);
    }
    BackfillNothing(after, again, later);
  }
}
