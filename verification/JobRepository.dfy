/** `createJobRepository`: an object over the `operational_jobs` table, one method per statement.
  * Each method is tied to the statement functions of JobTable; the protocol built from the same
  * functions is in JobQueue. */
module JobRepository {
  import opened Options
  import opened JobTable

  datatype Receipt = Receipt(accepted: bool, id: JobId, status: Status)
  datatype ClaimedJob = ClaimedJob(id: JobId, row: Job)
  datatype FailOutcome = WentDead | WillRetry

  /** The columns of `reports` that the backfill reads; "" stands for NULL or an empty text. */
  datatype ReportRow = ReportRow(id: string, companyId: Option<string>, auditBundleId: string, exportDocumentId: string,
                                 reportType: string, targetMarket: string, status: string, storageKey: string,
                                 payload: string)

  datatype EvidenceRow = EvidenceRow(id: string, companyId: Option<string>, status: string, storageProvider: string,
                                     storageKey: string, payload: string)

  function ReportKind(r: ReportRow): string {
    if r.auditBundleId != "" then "audit_bundle"
    else if r.exportDocumentId != "" then "shipment_export_document"
    else if r.reportType == "dataset_export" then "dataset_export"
    else if r.reportType == "compliance" && r.targetMarket != "" then "market_compliance_report"
    else "manual_report"
  }

  function ReportTask(r: ReportRow, maxAttempts: int): Task {
    Task("report:" + r.id, ReportKind(r), r.companyId, r.payload, maxAttempts, None)
  }

  function EvidenceTask(e: EvidenceRow, maxAttempts: int): Task {
    Task("evidence:" + e.id, "evidence_process", e.companyId, e.payload, maxAttempts, None)
  }

  /** The SELECT of each backfill; `ids[i]` is the row id generated for the i-th source row. */
  function ReportRows(reports: seq<ReportRow>, ids: seq<JobId>, maxAttempts: int): seq<SourceRow>
    requires |ids| == |reports|
  {
    if reports == [] then []
    else
      var last := |reports| - 1;
      var before := ReportRows(reports[..last], ids[..last], maxAttempts);
      var r := reports[last];
      if r.status == "processing" && r.storageKey == "" then before + [SourceRow(ids[last], ReportTask(r, maxAttempts))]
      else before
  }

  function EvidenceRows(evidence: seq<EvidenceRow>, ids: seq<JobId>, maxAttempts: int): seq<SourceRow>
    requires |ids| == |evidence|
  {
    if evidence == [] then []
    else
      var last := |evidence| - 1;
      var before := EvidenceRows(evidence[..last], ids[..last], maxAttempts);
      var e := evidence[last];
      if e.status == "uploaded" && e.storageProvider == "local" && e.storageKey != ""
      then before + [SourceRow(ids[last], EvidenceTask(e, maxAttempts))]
      else before
  }

  /** The kind of job that a report asks for: the first that fits. */
  ghost predicate KindFits(r: ReportRow, kind: string) {
    if r.auditBundleId != "" then kind == "audit_bundle"
    else if r.exportDocumentId != "" then kind == "shipment_export_document"
    else if r.reportType == "dataset_export" then kind == "dataset_export"
    else kind == if r.reportType == "compliance" && r.targetMarket != "" then "market_compliance_report" else "manual_report"
  }

  /** The row that the report is to be queued with, under that row id. */
  ghost predicate Queued(r: ReportRow, id: JobId, row: SourceRow, maxAttempts: int) {
    && r.status == "processing" && r.storageKey == ""
    && row.id == id && row.task.key == "report:" + r.id && KindFits(r, row.task.kind)
    && row.task.companyId == r.companyId && row.task.payload == r.payload && row.task.maxAttempts == maxAttempts
  }

  /** Every report in processing that has no file is queued, under its own key and the kind that fits. */
  lemma {:induction false} ReportIsQueued(reports: seq<ReportRow>, ids: seq<JobId>, maxAttempts: int, i: nat) returns (row: SourceRow)
    requires |ids| == |reports| && i < |reports| && reports[i].status == "processing" && reports[i].storageKey == ""
    ensures row in ReportRows(reports, ids, maxAttempts) && Queued(reports[i], ids[i], row, maxAttempts)
    decreases |reports|
  {
    var n := |reports| - 1;
    if i < n {
      row := ReportIsQueued(reports[..n], ids[..n], maxAttempts, i);
    } else {
      row := SourceRow(ids[n], ReportTask(reports[n], maxAttempts));
    }
  }

  /** And nothing else is. */
  lemma {:induction false} OnlyReportsAreQueued(reports: seq<ReportRow>, ids: seq<JobId>, maxAttempts: int, row: SourceRow) returns (i: nat)
    requires |ids| == |reports| && row in ReportRows(reports, ids, maxAttempts)
    ensures i < |reports| && Queued(reports[i], ids[i], row, maxAttempts)
    decreases |reports|
  {
    var n := |reports| - 1;
    if row in ReportRows(reports[..n], ids[..n], maxAttempts) {
      i := OnlyReportsAreQueued(reports[..n], ids[..n], maxAttempts, row);
    } else {
      i := n;
    }
  }

  ghost predicate EvidenceQueued(e: EvidenceRow, id: JobId, row: SourceRow, maxAttempts: int) {
    && e.status == "uploaded" && e.storageProvider == "local" && e.storageKey != ""
    && row.id == id && row.task.key == "evidence:" + e.id && row.task.kind == "evidence_process"
    && row.task.companyId == e.companyId && row.task.payload == e.payload && row.task.maxAttempts == maxAttempts
  }

  /** Every uploaded file in local storage is queued for processing, under its own key. */
  lemma {:induction false} EvidenceIsQueued(evidence: seq<EvidenceRow>, ids: seq<JobId>, maxAttempts: int, i: nat) returns (row: SourceRow)
    requires |ids| == |evidence| && i < |evidence|
    requires evidence[i].status == "uploaded" && evidence[i].storageProvider == "local" && evidence[i].storageKey != ""
    ensures row in EvidenceRows(evidence, ids, maxAttempts) && EvidenceQueued(evidence[i], ids[i], row, maxAttempts)
    decreases |evidence|
  {
    var n := |evidence| - 1;
    if i < n {
      row := EvidenceIsQueued(evidence[..n], ids[..n], maxAttempts, i);
    } else {
      row := SourceRow(ids[n], EvidenceTask(evidence[n], maxAttempts));
    }
  }

  /** And nothing else is. */
  lemma {:induction false} OnlyEvidenceIsQueued(evidence: seq<EvidenceRow>, ids: seq<JobId>, maxAttempts: int, row: SourceRow)
    returns (i: nat)
    requires |ids| == |evidence| && row in EvidenceRows(evidence, ids, maxAttempts)
    ensures i < |evidence| && EvidenceQueued(evidence[i], ids[i], row, maxAttempts)
    decreases |evidence|
  {
    var n := |evidence| - 1;
    if row in EvidenceRows(evidence[..n], ids[..n], maxAttempts) {
      i := OnlyEvidenceIsQueued(evidence[..n], ids[..n], maxAttempts, row);
    } else {
      i := n;
    }
  }

  lemma {:induction false} BackfillAppend(jobs: Table, rows: seq<SourceRow>, row: SourceRow, now: int)
    ensures Backfill(jobs, rows + [row], now) == Insert(Backfill(jobs, rows, now), row.id, row.task, now)
    decreases |rows|
  {
    if rows == [] {
      assert rows + [row] == [row];
      assert Backfill(jobs, [row], now) == Backfill(Insert(jobs, row.id, row.task, now), [row][1..], now);
    } else {
      assert (rows + [row])[1..] == rows[1..] + [row];
      BackfillAppend(Insert(jobs, rows[0].id, rows[0].task, now), rows[1..], row, now);
    }
  }

  class Repository {
    var jobs: Table

    constructor ()
      ensures jobs == map[]
    {
      jobs := map[];
    }

    /** None: the insert violates CHECK (max_attempts > 0) and the statement fails. */
    method Enqueue(task: Task, freshId: JobId, now: int) returns (receipt: Option<Receipt>)
      requires freshId !in jobs
      modifies this
      ensures receipt.None? <==> task.maxAttempts <= 0
      ensures receipt.None? ==> jobs == old(jobs)
      ensures receipt.Some? ==>
        && jobs == Insert(old(jobs), freshId, task, now)
        && receipt.value.id in jobs && jobs[receipt.value.id].task.key == task.key
        && receipt.value.status == jobs[receipt.value.id].status
        && (receipt.value.accepted <==> !HasKey(old(jobs), task.key))
        && (receipt.value.accepted ==>
              && receipt.value.id == freshId && jobs[freshId].task == task
              && jobs[freshId].status == Pending && jobs[freshId].attempts == 0
              && jobs[freshId].availableAt == now && jobs[freshId].createdAt == now
              && jobs[freshId].lockedAt.None? && jobs[freshId].lockedBy.None?)
    {
      if task.maxAttempts <= 0 {
        return None;
      }
      if existing :| existing in jobs && jobs[existing].task.key == task.key {
        receipt := Some(Receipt(false, existing, jobs[existing].status));
      } else {
        jobs := jobs[freshId := NewJob(task, now)];
        receipt := Some(Receipt(true, freshId, Pending));
      }
    }

    method RecoverStaleJobs(staleAfterMs: int, now: int) returns (recovered: nat)
      modifies this
      ensures jobs == RecoverStale(old(jobs), now, staleAfterMs)
      ensures recovered == |set id | id in old(jobs) && Stale(old(jobs)[id], now, staleAfterMs)|
      ensures forall id :: id in old(jobs) ==>
        && id in jobs
        && var was, job := old(jobs)[id], jobs[id];
        if was.status == Running && was.lockedAt.Some? && was.lockedAt.value < now - staleAfterMs
        then job == was.(status := Retry, lockedAt := None, lockedBy := None, availableAt := now, updatedAt := now,
                         lastError := if was.lastError.Some? then was.lastError
                                      else Some("worker interrupted before completion"))
        else job == was
    {
      var stale := set id | id in jobs && Stale(jobs[id], now, staleAfterMs);
      jobs := map id | id in jobs :: if id in stale then Recovered(jobs[id], now) else jobs[id];
      recovered := |stale|;
    }

    method PruneFinished(retentionDays: int, now: int) returns (pruned: nat)
      modifies this
      ensures jobs == Prune(old(jobs), now, retentionDays)
      ensures pruned + |jobs| == |old(jobs)|
    {
      var gone := set id | id in jobs && Expired(jobs[id], now, retentionDays);
      var before := jobs;
      jobs := jobs - gone;
      assert before.Keys == jobs.Keys + gone;
      pruned := |gone|;
    }

    /** INSERT ... ON CONFLICT DO NOTHING for one selected row. */
    method InsertIgnore(id: JobId, task: Task, now: int) returns (inserted: bool)
      requires id !in jobs
      modifies this
      ensures jobs == Insert(old(jobs), id, task, now)
      ensures inserted <==> !HasKey(old(jobs), task.key)
      ensures |jobs| == |old(jobs)| + (if inserted then 1 else 0)
    {
      inserted := forall k :: k in jobs ==> jobs[k].task.key != task.key;
      if inserted {
        jobs := jobs[id := NewJob(task, now)];
      }
    }

    /** `defaultMaxAttempts` is a positive configuration value (src/config/runtime.js). */
    method BackfillReports(reports: seq<ReportRow>, ids: seq<JobId>, defaultMaxAttempts: int, now: int)
      returns (inserted: nat)
      requires |ids| == |reports| && defaultMaxAttempts > 0
      requires forall i :: 0 <= i < |ids| ==> ids[i] !in jobs
      requires forall i, j :: 0 <= i < j < |ids| ==> ids[i] != ids[j]
      modifies this
      ensures jobs == Backfill(old(jobs), ReportRows(reports, ids, defaultMaxAttempts), now)
      ensures inserted + |old(jobs)| == |jobs|
    {
      inserted := 0;
      ghost var start := jobs;
      for i := 0 to |reports|
        invariant jobs == Backfill(start, ReportRows(reports[..i], ids[..i], defaultMaxAttempts), now)
        invariant inserted + |start| == |jobs|
        invariant forall k :: i <= k < |ids| ==> ids[k] !in jobs
      {
        var r := reports[i];
        assert reports[..i + 1][..i] == reports[..i] && ids[..i + 1][..i] == ids[..i];
        if r.status == "processing" && r.storageKey == "" {
          BackfillAppend(start, ReportRows(reports[..i], ids[..i], defaultMaxAttempts),
                         SourceRow(ids[i], ReportTask(r, defaultMaxAttempts)), now);
          var isNew := InsertIgnore(ids[i], ReportTask(r, defaultMaxAttempts), now);
          inserted := if isNew then inserted + 1 else inserted;
        }
      }
      assert reports[..|reports|] == reports && ids[..|ids|] == ids;
    }

    method BackfillEvidence(evidence: seq<EvidenceRow>, ids: seq<JobId>, defaultMaxAttempts: int, now: int)
      returns (inserted: nat)
      requires |ids| == |evidence| && defaultMaxAttempts > 0
      requires forall i :: 0 <= i < |ids| ==> ids[i] !in jobs
      requires forall i, j :: 0 <= i < j < |ids| ==> ids[i] != ids[j]
      modifies this
      ensures jobs == Backfill(old(jobs), EvidenceRows(evidence, ids, defaultMaxAttempts), now)
      ensures inserted + |old(jobs)| == |jobs|
    {
      inserted := 0;
      ghost var start := jobs;
      for i := 0 to |evidence|
        invariant jobs == Backfill(start, EvidenceRows(evidence[..i], ids[..i], defaultMaxAttempts), now)
        invariant inserted + |start| == |jobs|
        invariant forall k :: i <= k < |ids| ==> ids[k] !in jobs
      {
        var e := evidence[i];
        assert evidence[..i + 1][..i] == evidence[..i] && ids[..i + 1][..i] == ids[..i];
        if e.status == "uploaded" && e.storageProvider == "local" && e.storageKey != "" {
          BackfillAppend(start, EvidenceRows(evidence[..i], ids[..i], defaultMaxAttempts),
                         SourceRow(ids[i], EvidenceTask(e, defaultMaxAttempts)), now);
          var isNew := InsertIgnore(ids[i], EvidenceTask(e, defaultMaxAttempts), now);
          inserted := if isNew then inserted + 1 else inserted;
        }
      }
      assert evidence[..|evidence|] == evidence && ids[..|ids|] == ids;
    }

    /** The whole statement run alone: `locked` are the rows that concurrent transactions hold. */
    method ClaimNext(worker: WorkerId, locked: set<JobId>, now: int) returns (job: Option<ClaimedJob>)
      modifies this
      ensures job.None? <==> forall k :: k in old(jobs) && k !in locked ==> !Ready(old(jobs)[k], now)
      ensures job.None? ==> jobs == old(jobs)
      ensures job.Some? ==>
        && IsNext(old(jobs), locked, now, job.value.id)
        && job.value.row == Claimed(old(jobs)[job.value.id], worker, now)
        && job.value.row.status == Running && job.value.row.attempts == old(jobs)[job.value.id].attempts + 1
        && job.value.row.lockedAt == Some(now) && job.value.row.lockedBy == Some(worker)
        && job.value.row.task == old(jobs)[job.value.id].task
        && (forall k :: k in old(jobs) && k !in locked && old(jobs)[k].Waiting() && old(jobs)[k].availableAt <= now ==>
              var first, other := old(jobs)[job.value.id], old(jobs)[k];
              first.availableAt < other.availableAt
              || (first.availableAt == other.availableAt && first.createdAt <= other.createdAt))
        && jobs == old(jobs)[job.value.id := job.value.row]
    {
      var ready := set k | k in jobs && k !in locked && Ready(jobs[k], now);
      if ready == {} {
        assert forall k :: k in jobs && k !in locked && Ready(jobs[k], now) ==> k in ready;
        return None;
      }
      ghost var someRow := NextExists(jobs, locked, now, ready);
      var id :| id in jobs && IsNext(jobs, locked, now, id);
      jobs := jobs[id := Claimed(jobs[id], worker, now)];
      job := Some(ClaimedJob(id, jobs[id]));
    }

    method CompleteJob(id: JobId, result: string, now: int)
      modifies this
      ensures jobs == Complete(old(jobs), id, result, now)
    {
      if id in jobs && jobs[id].status == Running {
        jobs := jobs[id := jobs[id].(status := Completed, completedAt := Some(now), updatedAt := now,
                                     lockedAt := None, lockedBy := None, lastError := None, result := Some(result))];
      }
    }

    /** The answer reports the decision even when no row was updated. */
    method FailJob(held: ClaimedJob, message: string, delayMs: nat, now: int) returns (outcome: FailOutcome)
      modifies this
      ensures jobs == Fail(old(jobs), held.id, held.row, message, delayMs, now)
      ensures outcome == (if held.row.attempts >= held.row.task.maxAttempts then WentDead else WillRetry)
      ensures held.id in old(jobs) && old(jobs)[held.id].status == Running ==>
        && held.id in jobs && jobs[held.id].status == (if outcome == WentDead then Dead else Retry)
        && jobs[held.id].lastError == Some(if |message| <= 2000 then message else message[..2000])
        && (outcome == WillRetry ==> jobs[held.id].availableAt == now + delayMs)
    {
      var isDead := held.row.attempts >= held.row.task.maxAttempts;
      if held.id in jobs && jobs[held.id].status == Running {
        var job := jobs[held.id];
        var error := if |message| <= ERROR_LIMIT then message else message[..ERROR_LIMIT];
        if isDead {
          job := job.(status := Dead);
        } else {
          job := job.(status := Retry, availableAt := now + delayMs);
        }
        jobs := jobs[held.id := job.(lastError := Some(error), updatedAt := now, lockedAt := None, lockedBy := None)];
      }
      outcome := if isDead then WentDead else WillRetry;
    }

    /** SELECT status, COUNT(*) ... GROUP BY status: no entry for a status that has no row. */
    method Counts() returns (counts: map<Status, nat>)
      ensures forall st: Status :: st in counts <==> InStatus(jobs, jobs.Keys, st) != {}
      ensures forall st :: st in counts ==> counts[st] == |InStatus(jobs, jobs.Keys, st)|
    {
      hide InStatus;
      InStatusNone(jobs);
      counts := map[];
      var rest := jobs.Keys;
      ghost var done: set<JobId> := {};
      while rest != {}
        invariant rest <= jobs.Keys && done == jobs.Keys - rest
        invariant forall st: Status :: st in counts <==> InStatus(jobs, done, st) != {}
        invariant forall st :: st in counts ==> counts[st] == |InStatus(jobs, done, st)|
        decreases |rest|
      {
        var id :| id in rest;
        var here := jobs[id].status;
        InStatusAdd(jobs, done, id);
        counts := counts[here := (if here in counts then counts[here] else 0) + 1];
        rest := rest - {id};
        done := done + {id};
      }
      assert done == jobs.Keys;
    }
  }

  ghost function InStatus(jobs: Table, ids: set<JobId>, st: Status): set<JobId> {
    set id | id in ids && id in jobs && jobs[id].status == st
  }

  lemma InStatusNone(jobs: Table)
    ensures forall st: Status :: InStatus(jobs, {}, st) == {}
  {}

  lemma InStatusAdd(jobs: Table, ids: set<JobId>, id: JobId)
    requires id in jobs && id !in ids
    ensures forall st: Status :: InStatus(jobs, ids + {id}, st) != {} <==> st == jobs[id].status || InStatus(jobs, ids, st) != {}
    ensures forall st: Status ::
      |InStatus(jobs, ids + {id}, st)| == |InStatus(jobs, ids, st)| + if st == jobs[id].status then 1 else 0
  {
    forall st: Status
      ensures InStatus(jobs, ids + {id}, st) == InStatus(jobs, ids, st) + if st == jobs[id].status then {id} else {}
    {
      assert id !in InStatus(jobs, ids, st);
    }
  }
}
