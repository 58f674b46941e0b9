/** The `crawl_jobs` table: one row, the row updates its statements make, and the two
    partial unique indexes. A job id is the row's position; no code deletes a job. */
module JobRows {
  import opened Options
  import opened Registry

  type JobId = nat
  type WorkerId = string

  /** Instants are microseconds, the resolution of a Postgres timestamp. */
  type Time = int

  const SECOND: int := 1_000_000
  const BACKOFF_BASE_SECONDS: int := 30
  const DEFAULT_PRIORITY: int := 100
  const DISCOVERY_PRIORITY: int := 150
  const DEFAULT_MAX_ATTEMPTS: int := 5

  datatype JobType = CrawlSource | CrawlUrl | DiscoverDomain | DiscoverSitemap | IngestDataset | Recrawl

  datatype Status = Pending | Running | Success | Failed | Retry

  datatype Job = Job(
    jobType: JobType,
    source: Option<SourceId>,
    target: Option<TargetId>,
    priority: int,
    status: Status,
    attempts: nat,
    maxAttempts: int,
    createdAt: Time,
    scheduledAt: Time,
    startedAt: Option<Time>,
    finishedAt: Option<Time>,
    lockedAt: Option<Time>,
    lockedBy: Option<WorkerId>,
    error: Option<string>)

  predicate Active(j: Job) {
    j.status.Pending? || j.status.Running? || j.status.Retry?
  }

  predicate Waiting(j: Job) {
    j.status.Pending? || j.status.Retry?
  }

  predicate Terminal(j: Job) {
    j.status.Success? || j.status.Failed?
  }

  // ----- Row images written by the statements -----

  function NewJob(jobType: JobType, source: Option<SourceId>, target: Option<TargetId>,
                  priority: int, scheduledAt: Option<Time>, now: Time): Job
  {
    Job(jobType, source, target, priority, Pending, 0, DEFAULT_MAX_ATTEMPTS, now,
        if scheduledAt.Some? then scheduledAt.value else now, None, None, None, None, None)
  }

  /** `at` is the start of the claiming transaction, which is what `now()` means inside it. */
  function Claimed(j: Job, w: WorkerId, at: Time): Job {
    j.(status := Running, startedAt := Some(at), lockedAt := Some(at), lockedBy := Some(w))
  }

  function Completed(j: Job, now: Time): Job {
    j.(status := Success, finishedAt := Some(now), lockedAt := None, lockedBy := None)
  }

  function Pow2(n: nat): nat {
    if n == 0 then 1 else 2 * Pow2(n - 1)
  }

  /** The delay written after the n-th failure. */
  function Backoff(n: nat): int
    requires n >= 1
  {
    BACKOFF_BASE_SECONDS * SECOND * Pow2(n - 1)
  }

  function FailedOnce(j: Job, now: Time, error: string): Job {
    var n := j.attempts + 1;
    if n >= j.maxAttempts then
      j.(status := Failed, attempts := n, error := Some(error), finishedAt := Some(now),
         lockedAt := None, lockedBy := None)
    else
      j.(status := Retry, attempts := n, error := Some(error), scheduledAt := now + Backoff(n),
         lockedAt := None, lockedBy := None)
  }

  /** A NULL `locked_at` never compares as older. */
  predicate IsStale(j: Job, now: Time, staleAfter: nat) {
    j.status.Running? && j.lockedAt.Some? && j.lockedAt.value < now - staleAfter
  }

  function Recovered(j: Job): Job {
    j.(status := Retry, lockedAt := None, lockedBy := None,
       error := Some("recovered from stale RUNNING lock"))
  }

  function RecoverAll(jobs: seq<Job>, now: Time, staleAfter: nat): (r: seq<Job>)
    ensures |r| == |jobs|
    ensures forall k :: 0 <= k < |jobs| ==>
                          r[k] == if IsStale(jobs[k], now, staleAfter) then Recovered(jobs[k]) else jobs[k]
  {
    seq(|jobs|, k requires 0 <= k < |jobs| =>
      if IsStale(jobs[k], now, staleAfter) then Recovered(jobs[k]) else jobs[k])
  }

  lemma RecoveredOnColumns(jobs: seq<Job>, now: Time, staleAfter: nat)
    ensures forall k :: 0 <= k < |jobs| ==>
              var was, row := jobs[k], RecoverAll(jobs, now, staleAfter)[k];
              if was.status.Running? && was.lockedAt.Some? && now - was.lockedAt.value > staleAfter then
                row.status.Retry? && row.lockedAt == None && row.lockedBy == None
                && row.attempts == was.attempts && row.scheduledAt == was.scheduledAt
              else row == was
  {
  }

  // ----- The claim query -----

  predicate Claimable(j: Job, now: Time) {
    Waiting(j) && j.scheduledAt <= now
  }

  /** Strictly earlier in `ORDER BY priority DESC, scheduled_at ASC`. */
  predicate Before(a: Job, b: Job) {
    a.priority > b.priority || (a.priority == b.priority && a.scheduledAt < b.scheduledAt)
  }

  predicate Offered(jobs: seq<Job>, locks: map<JobId, WorkerId>, now: Time, id: int) {
    0 <= id < |jobs| && id !in locks && Claimable(jobs[id], now)
  }

  /** The claim query returns no row. */
  predicate NothingDue(jobs: seq<Job>, locks: map<JobId, WorkerId>, now: Time) {
    forall k :: 0 <= k < |jobs| ==> !Offered(jobs, locks, now, k)
  }

  /** A row that `FOR UPDATE SKIP LOCKED LIMIT 1` may return: ties are broken arbitrarily. */
  predicate IsNext(jobs: seq<Job>, locks: map<JobId, WorkerId>, now: Time, id: int) {
    Offered(jobs, locks, now, id) &&
    forall k :: 0 <= k < |jobs| && Offered(jobs, locks, now, k) ==> !Before(jobs[k], jobs[id])
  }

  /** What the query promises, on the columns. */
  lemma NothingOnColumns(jobs: seq<Job>, locks: map<JobId, WorkerId>, now: Time)
    requires NothingDue(jobs, locks, now)
    ensures forall k :: 0 <= k < |jobs| && k !in locks ==>
              var j := jobs[k];
              (j.status.Pending? || j.status.Retry?) ==> j.scheduledAt > now
  {
    forall k | 0 <= k < |jobs| && k !in locks
      ensures (jobs[k].status.Pending? || jobs[k].status.Retry?) ==> jobs[k].scheduledAt > now
    {
      assert !Offered(jobs, locks, now, k);
    }
  }

  lemma NextOnColumns(jobs: seq<Job>, locks: map<JobId, WorkerId>, now: Time, id: JobId)
    requires IsNext(jobs, locks, now, id)
    ensures id < |jobs| && id !in locks && jobs[id].scheduledAt <= now
    ensures jobs[id].status.Pending? || jobs[id].status.Retry?
    ensures forall k :: 0 <= k < |jobs| && k !in locks ==>
              var a, b := jobs[k], jobs[id];
              (a.status.Pending? || a.status.Retry?) && a.scheduledAt <= now ==>
                a.priority < b.priority || (a.priority == b.priority && a.scheduledAt >= b.scheduledAt)
  {
    forall k | 0 <= k < |jobs| && k !in locks && Claimable(jobs[k], now) ensures !Before(jobs[k], jobs[id]) {
      assert Offered(jobs, locks, now, k);
    }
  }

  // ----- crawl_jobs_active_target_uq and crawl_jobs_active_source_type_uq -----

  /** Two rows that the indexes do not allow together. NULL source ids never collide. */
  predicate Conflicts(a: Job, b: Job) {
    Active(a) && Active(b) &&
    if a.target.Some? then a.target == b.target
    else b.target.None? && a.source.Some? && a.source == b.source && a.jobType == b.jobType
  }

  predicate IndexesHold(jobs: seq<Job>) {
    forall i, k :: 0 <= i < k < |jobs| ==> !Conflicts(jobs[i], jobs[k])
  }

  predicate Violates(jobs: seq<Job>, row: Job) {
    exists k :: 0 <= k < |jobs| && Conflicts(jobs[k], row)
  }

  /** INSERT: rejected as a whole when an index would be violated. */
  function Insert(jobs: seq<Job>, row: Job): seq<Job> {
    if Violates(jobs, row) then jobs else jobs + [row]
  }

  /** Nothing but the API's domain requests carries neither a source nor a target. */
  predicate FromApi(j: Job) {
    j.source.None? && j.target.None?
  }

  // ----- Row invariants -----

  predicate LockColumnsAgree(j: Job) {
    (j.status.Running? <==> j.lockedAt.Some?) && (j.lockedAt.Some? <==> j.lockedBy.Some?)
  }

  /** The retry budget, and what a RUNNING row remembers of its claim. */
  predicate RowOk(j: Job, now: Time) {
    && LockColumnsAgree(j)
    && j.maxAttempts >= 1
    && (Active(j) ==> j.attempts < j.maxAttempts)
    && (j.status.Failed? ==> j.attempts == j.maxAttempts)
    && (j.status.Running? ==> j.scheduledAt <= j.lockedAt.value <= now)
  }

  lemma {:induction false} Pow2Positive(n: nat)
    ensures Pow2(n) >= 1
  {
    if n == 0 {
    } else {
      Pow2Positive(n - 1);
    }
  }
}
