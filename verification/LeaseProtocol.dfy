/** The claim/settle protocol over `crawl_jobs` as a state machine: any number of workers,
    schedulers and API processes interleave, one committed statement or row lock at a time.
    An event whose guard is false changes nothing, so every event list is a run. */
module LeaseProtocol {
  import opened Options
  import opened JobRows
  import opened Registry

  /** Where a worker process stands. `at` is the start of its claiming transaction. */
  datatype Phase = Idle | Selecting(job: JobId, at: Time) | Handling(job: JobId, at: Time)

  datatype State = State(
    now: Time,
    staleAfter: nat,
    jobs: seq<Job>,
    locks: map<JobId, WorkerId>,
    workers: map<WorkerId, Phase>)

  datatype Event =
    | Tick(elapsed: nat)
    | Create(jobType: JobType, source: Option<SourceId>, target: Option<TargetId>, priority: int,
             scheduledAt: Option<Time>)
    | Enqueue
    | Select(w: WorkerId, job: JobId)
    | Commit(w: WorkerId)
    | Complete(w: WorkerId)
    | Fail(w: WorkerId, error: string)
    | Recover
    | Crash(w: WorkerId)

  function PhaseOf(s: State, w: WorkerId): Phase {
    if w in s.workers then s.workers[w] else Idle
  }

  /** A settling UPDATE waits for a claim transaction that holds the row. */
  predicate CanSettle(s: State, w: WorkerId) {
    var p := PhaseOf(s, w);
    p.Handling? && p.job < |s.jobs| && p.job !in s.locks
  }

  predicate CanCommit(s: State, w: WorkerId) {
    var p := PhaseOf(s, w);
    p.Selecting? && p.job < |s.jobs|
  }

  function Settle(s: State, w: WorkerId, row: Job): State
    requires CanSettle(s, w)
  {
    s.(jobs := s.jobs[PhaseOf(s, w).job := row], workers := s.workers[w := Idle])
  }

  function Step(s: State, e: Event): State {
    match e
    case Tick(d) => s.(now := s.now + d)
    case Create(t, source, target, priority, scheduledAt) =>
      s.(jobs := Insert(s.jobs, NewJob(t, source, target, priority, scheduledAt, s.now)))
    case Enqueue =>
      s.(jobs := Insert(s.jobs, NewJob(DiscoverDomain, None, None, DISCOVERY_PRIORITY, None, s.now)))
    case Select(w, id) =>
      if PhaseOf(s, w).Idle? && IsNext(s.jobs, s.locks, s.now, id) then
        s.(locks := s.locks[id := w], workers := s.workers[w := Selecting(id, s.now)])
      else s
    case Commit(w) =>
      if CanCommit(s, w) then
        var p := PhaseOf(s, w);
        s.(jobs := s.jobs[p.job := Claimed(s.jobs[p.job], w, p.at)],
           locks := s.locks - {p.job}, workers := s.workers[w := Handling(p.job, p.at)])
      else s
    case Complete(w) =>
      if CanSettle(s, w) then Settle(s, w, Completed(s.jobs[PhaseOf(s, w).job], s.now)) else s
    case Fail(w, error) =>
      if CanSettle(s, w) then Settle(s, w, FailedOnce(s.jobs[PhaseOf(s, w).job], s.now, error)) else s
    case Recover => s.(jobs := RecoverAll(s.jobs, s.now, s.staleAfter))
    case Crash(w) =>
      var p := PhaseOf(s, w);
      s.(locks := if p.Selecting? then s.locks - {p.job} else s.locks, workers := s.workers[w := Idle])
  }

  function Run(s: State, es: seq<Event>): State {
    if es == [] then s else Step(Run(s, es[..|es| - 1]), es[|es| - 1])
  }

  lemma StepKeepsTimeout(s: State, e: Event)
    ensures Step(s, e).staleAfter == s.staleAfter
  {
  }

  /** The lease premise: a handler settles within the stale timeout of its claim. */
  predicate Timely(s: State, e: Event) {
    e.Complete? || e.Fail? ==>
      var p := PhaseOf(s, e.w);
      p.Handling? ==> s.now <= p.at + s.staleAfter
  }

  predicate LeasedRun(s: State, es: seq<Event>) {
    es == [] || (LeasedRun(s, es[..|es| - 1]) && Timely(Run(s, es[..|es| - 1]), es[|es| - 1]))
  }

  /** Worker w's job is RUNNING under w's own claim. */
  predicate Held(s: State, w: WorkerId) {
    var p := PhaseOf(s, w);
    p.Handling? && p.job < |s.jobs| && s.jobs[p.job].status.Running? &&
    s.jobs[p.job].lockedBy == Some(w) && s.jobs[p.job].lockedAt == Some(p.at)
  }

  predicate Live(s: State, w: WorkerId) {
    PhaseOf(s, w).Handling? && s.now <= PhaseOf(s, w).at + s.staleAfter
  }

  predicate RowsOk(s: State) {
    forall i :: 0 <= i < |s.jobs| ==> RowOk(s.jobs[i], s.now)
  }

  predicate LocksAgree(s: State) {
    && (forall id :: id in s.locks ==>
          id < |s.jobs| && Waiting(s.jobs[id]) && PhaseOf(s, s.locks[id]).Selecting?
          && PhaseOf(s, s.locks[id]).job == id)
    && (forall w :: w in s.workers && s.workers[w].Selecting? ==>
          && s.workers[w].job in s.locks && s.locks[s.workers[w].job] == w
          && s.jobs[s.workers[w].job].scheduledAt <= s.workers[w].at <= s.now)
    && (forall w :: w in s.workers && s.workers[w].Handling? ==>
          s.workers[w].job < |s.jobs| && s.workers[w].at <= s.now)
  }

  predicate LeasesHold(s: State) {
    forall w :: w in s.workers && Live(s, w) ==> Held(s, w)
  }

  predicate Inv(s: State) {
    RowsOk(s) && LocksAgree(s) && LeasesHold(s) && IndexesHold(s.jobs)
  }

  // ----- Index preservation -----

  predicate SameKeys(a: Job, b: Job) {
    a.jobType == b.jobType && a.source == b.source && a.target == b.target
  }

  /** An UPDATE that keeps the keys and activates nothing cannot hit an index. */
  lemma UpdatesKeepIndexes(before: seq<Job>, after: seq<Job>)
    requires IndexesHold(before) && |before| == |after|
    requires forall k :: 0 <= k < |before| ==>
               SameKeys(before[k], after[k]) && (Active(after[k]) ==> Active(before[k]))
    ensures IndexesHold(after)
  {
    forall i, k | 0 <= i < k < |after| ensures !Conflicts(after[i], after[k]) {
      assert !Conflicts(before[i], before[k]);
    }
  }

  lemma InsertKeepsIndexes(jobs: seq<Job>, row: Job)
    requires IndexesHold(jobs)
    ensures IndexesHold(Insert(jobs, row))
  {
  }

  // ----- One step -----

  /** A claim that no statement touched keeps its lease. */
  lemma LeasesCarry(s: State, t: State)
    requires LeasesHold(s)
    requires forall v :: v in t.workers && Live(t, v) ==>
               v in s.workers && Live(s, v) && PhaseOf(s, v) == PhaseOf(t, v)
    requires forall v :: v in t.workers && Live(t, v) && Held(s, v) ==>
               PhaseOf(s, v).job < |t.jobs| && t.jobs[PhaseOf(s, v).job] == s.jobs[PhaseOf(s, v).job]
    ensures LeasesHold(t)
  {
    forall v | v in t.workers && Live(t, v) ensures Held(t, v) {
      assert Held(s, v);
    }
  }

  lemma SettleKeepsInv(s: State, w: WorkerId, row: Job)
    requires Inv(s) && CanSettle(s, w) && Held(s, w)
    requires SameKeys(s.jobs[PhaseOf(s, w).job], row) && RowOk(row, s.now) && !row.status.Running?
    ensures Inv(Settle(s, w, row))
  {
    var t := Settle(s, w, row);
    UpdatesKeepIndexes(s.jobs, t.jobs);
    forall v | v in t.workers && Live(t, v) ensures Held(t, v) {
      assert v in s.workers && Live(s, v) && Held(s, v);
    }
    assert LocksAgree(t);
  }

  lemma SelectKeepsInv(s: State, w: WorkerId, id: JobId)
    requires Inv(s)
    ensures Inv(Step(s, Select(w, id)))
  {
    hide RowOk, IndexesHold;
    var t := Step(s, Select(w, id));
    if t != s {
      assert Offered(s.jobs, s.locks, s.now, id);
      SelectKeepsLocks(s, w, id);
      forall v | v in t.workers && Live(t, v) ensures Held(t, v) {
        assert v in s.workers && Live(s, v) && Held(s, v);
      }
    }
  }

  lemma SelectKeepsLocks(s: State, w: WorkerId, id: JobId)
    requires LocksAgree(s) && PhaseOf(s, w).Idle? && Offered(s.jobs, s.locks, s.now, id)
    ensures LocksAgree(s.(locks := s.locks[id := w], workers := s.workers[w := Selecting(id, s.now)]))
  {
  }

  lemma CommitKeepsLocks(s: State, w: WorkerId, row: Job)
    requires LocksAgree(s) && PhaseOf(s, w).Selecting?
    ensures var p := PhaseOf(s, w);
            p.job < |s.jobs| &&
            LocksAgree(s.(jobs := s.jobs[p.job := row], locks := s.locks - {p.job},
                          workers := s.workers[w := Handling(p.job, p.at)]))
  {
    assert w in s.workers;
  }

  lemma CommitKeepsLeases(s: State, w: WorkerId)
    requires LocksAgree(s) && LeasesHold(s) && CanCommit(s, w)
    ensures LeasesHold(Step(s, Commit(w)))
  {
    var t := Step(s, Commit(w));
    assert w in s.workers && Waiting(s.jobs[PhaseOf(s, w).job]);
    forall v | v in t.workers && Live(t, v) ensures Held(t, v) {
      if v != w { assert v in s.workers && Live(s, v) && Held(s, v); }
    }
  }

  lemma CommitKeepsInv(s: State, w: WorkerId)
    requires Inv(s)
    ensures Inv(Step(s, Commit(w)))
  {
    hide LocksAgree, LeasesHold, IndexesHold;
    var t := Step(s, Commit(w));
    if CanCommit(s, w) {
      var p := PhaseOf(s, w);
      SelectedIsDue(s, w);
      CommitKeepsLocks(s, w, Claimed(s.jobs[p.job], w, p.at));
      CommitKeepsLeases(s, w);
      UpdatesKeepIndexes(s.jobs, t.jobs);
      assert RowOk(s.jobs[p.job], s.now);
      assert RowsOk(t);
    }
  }

  lemma SelectedIsDue(s: State, w: WorkerId)
    requires LocksAgree(s) && PhaseOf(s, w).Selecting?
    ensures var p := PhaseOf(s, w);
            p.job < |s.jobs| && Waiting(s.jobs[p.job]) && s.jobs[p.job].scheduledAt <= p.at <= s.now
  {
    assert w in s.workers;
  }

  lemma RecoverKeepsInv(s: State)
    requires Inv(s)
    ensures Inv(Step(s, Recover))
  {
    hide IndexesHold;
    var t := Step(s, Recover);
    UpdatesKeepIndexes(s.jobs, t.jobs);
    LeasesCarry(s, t);
    RecoverKeepsLocks(s);
  }

  lemma RecoverKeepsLocks(s: State)
    requires LocksAgree(s)
    ensures LocksAgree(Step(s, Recover))
  {
  }

  lemma CrashKeepsInv(s: State, w: WorkerId)
    requires Inv(s)
    ensures Inv(Step(s, Crash(w)))
  {
    hide IndexesHold, RowOk, LocksAgree;
    CrashKeepsLocks(s, w);
    LeasesCarry(s, Step(s, Crash(w)));
  }

  lemma CrashKeepsLocks(s: State, w: WorkerId)
    requires LocksAgree(s)
    ensures LocksAgree(Step(s, Crash(w)))
  {
    hide Step;
    var p := PhaseOf(s, w);
    assert p.Selecting? ==> w in s.workers;
    ForgetKeepsLocks(s, w, if p.Selecting? then s.locks - {p.job} else s.locks);
    CrashIsForget(s, w);
  }

  lemma CrashIsForget(s: State, w: WorkerId)
    ensures var p := PhaseOf(s, w);
            Step(s, Crash(w)) ==
            s.(locks := if p.Selecting? then s.locks - {p.job} else s.locks, workers := s.workers[w := Idle])
  {
  }

  /** Dropping a worker together with the locks it alone held. */
  lemma ForgetKeepsLocks(s: State, w: WorkerId, locks: map<JobId, WorkerId>)
    requires LocksAgree(s)
    requires forall id :: id in locks <==> id in s.locks && s.locks[id] != w
    requires forall id :: id in locks ==> locks[id] == s.locks[id]
    ensures LocksAgree(s.(locks := locks, workers := s.workers[w := Idle]))
  {
  }

  lemma InsertKeepsInv(s: State, row: Job)
    requires Inv(s) && row.status.Pending? && LockColumnsAgree(row) && row.attempts < row.maxAttempts
    ensures Inv(s.(jobs := Insert(s.jobs, row)))
  {
    var t := s.(jobs := Insert(s.jobs, row));
    InsertKeepsIndexes(s.jobs, row);
    forall v | v in t.workers && Live(t, v) ensures Held(t, v) {
      assert v in s.workers && Live(s, v) && Held(s, v);
    }
    assert LocksAgree(t);
  }

  lemma TickKeepsInv(s: State, d: nat)
    requires Inv(s)
    ensures Inv(Step(s, Tick(d)))
  {
    var t := Step(s, Tick(d));
    forall v | v in t.workers && Live(t, v) ensures Held(t, v) {
      assert v in s.workers && Live(s, v) && Held(s, v);
    }
    assert RowsOk(t);
    assert LocksAgree(t);
  }

  /** A settlement that finds its job RUNNING under the settling worker's own claim. */
  predicate Sound(s: State, e: Event) {
    (e.Complete? || e.Fail?) && CanSettle(s, e.w) ==> Held(s, e.w)
  }

  lemma TimelyIsSound(s: State, e: Event)
    requires LeasesHold(s) && Timely(s, e)
    ensures Sound(s, e)
  {
    if (e.Complete? || e.Fail?) && CanSettle(s, e.w) { assert e.w in s.workers && Live(s, e.w); }
  }

  /** All that a settlement has to be is sound; the time it comes at does not matter. */
  lemma SoundStepKeepsInv(s: State, e: Event)
    requires Inv(s) && Sound(s, e)
    ensures Inv(Step(s, e))
  {
    match e
    case Tick(d) => TickKeepsInv(s, d);
    case Create(t, source, target, priority, scheduledAt) =>
      InsertKeepsInv(s, NewJob(t, source, target, priority, scheduledAt, s.now));
    case Enqueue =>
      InsertKeepsInv(s, NewJob(DiscoverDomain, None, None, DISCOVERY_PRIORITY, None, s.now));
    case Select(w, id) => SelectKeepsInv(s, w, id);
    case Commit(w) => CommitKeepsInv(s, w);
    case Complete(w) =>
      if CanSettle(s, w) { SettleKeepsInv(s, w, Completed(s.jobs[PhaseOf(s, w).job], s.now)); }
    case Fail(w, error) =>
      if CanSettle(s, w) { SettleKeepsInv(s, w, FailedOnce(s.jobs[PhaseOf(s, w).job], s.now, error)); }
    case Recover => RecoverKeepsInv(s);
    case Crash(w) => CrashKeepsInv(s, w);
  }

  lemma StepKeepsInv(s: State, e: Event)
    requires Inv(s) && Timely(s, e)
    ensures Inv(Step(s, e))
  {
    TimelyIsSound(s, e);
    SoundStepKeepsInv(s, e);
  }

  /** Only an INSERT can hit an index: every other sound event keeps all keys and activates no row. */
  lemma OnlyInsertsReachTheIndexes(s: State, e: Event)
    requires Inv(s) && Sound(s, e) && !e.Create? && !e.Enqueue?
    ensures |Step(s, e).jobs| == |s.jobs|
    ensures forall k :: 0 <= k < |s.jobs| ==>
              SameKeys(s.jobs[k], Step(s, e).jobs[k]) && (Active(Step(s, e).jobs[k]) ==> Active(s.jobs[k]))
    ensures IndexesHold(Step(s, e).jobs)
  {
    hide IndexesHold;
    if e.Commit? && CanCommit(s, e.w) { SelectedIsDue(s, e.w); }
    UpdatesKeepIndexes(s.jobs, Step(s, e).jobs);
  }

  // ----- Whole runs -----

  lemma {:induction false} RunKeepsInv(s: State, es: seq<Event>)
    requires Inv(s) && LeasedRun(s, es)
    ensures Inv(Run(s, es))
  {
    if es == [] {
    } else {
      RunKeepsInv(s, es[..|es| - 1]);
      StepKeepsInv(Run(s, es[..|es| - 1]), es[|es| - 1]);
    }
  }

  /** The other processes as an environment: late settles do not happen, everything else may. */
  function Drive(s: State, es: seq<Event>): State
    decreases |es|
  {
    if es == [] then s
    else Drive(if Timely(s, es[0]) then Step(s, es[0]) else s, es[1..])
  }

  lemma {:induction false} DriveKeepsInv(s: State, es: seq<Event>)
    requires Inv(s)
    ensures Inv(Drive(s, es))
    decreases |es|
  {
    if es == [] {
    } else {
      if Timely(s, es[0]) { StepKeepsInv(s, es[0]); }
      DriveKeepsInv(if Timely(s, es[0]) then Step(s, es[0]) else s, es[1..]);
    }
  }

  /** A database with no live process and sound rows is a start. */
  predicate Quiet(s: State) {
    RowsOk(s) && s.locks == map[] && s.workers == map[] && IndexesHold(s.jobs)
  }

  /** Exclusive lease: after any leased run from a quiet database, a worker inside its lease
      finds its job RUNNING and locked by itself, no two such workers share a job, status is
      RUNNING exactly when both lock columns are set, and both unique indexes hold without any
      UPDATE having checked them. */
  lemma ExclusiveLease(s: State, es: seq<Event>, w: WorkerId, v: WorkerId)
    requires Quiet(s) && LeasedRun(s, es)
    ensures var t := Run(s, es);
            && (Live(t, w) ==> Held(t, w))
            && (Live(t, w) && Live(t, v) && PhaseOf(t, w).job == PhaseOf(t, v).job ==> w == v)
            && (forall i :: 0 <= i < |t.jobs| ==>
                  var j := t.jobs[i];
                  (j.status.Running? <==> j.lockedAt.Some?) && (j.status.Running? <==> j.lockedBy.Some?))
            && IndexesHold(t.jobs)
    ensures var t := Run(s, es); var p := PhaseOf(t, w);
            p.Handling? && t.now - p.at <= t.staleAfter ==>
              && p.job < |t.jobs| && t.jobs[p.job].status.Running?
              && t.jobs[p.job].lockedBy == Some(w) && t.jobs[p.job].lockedAt == Some(p.at)
  {
    RunKeepsInv(s, es);
    var t := Run(s, es);
    assert Live(t, w) ==> w in t.workers && Held(t, w);
    assert Live(t, v) ==> v in t.workers && Held(t, v);
    forall i | 0 <= i < |t.jobs| ensures LockColumnsAgree(t.jobs[i]) { assert RowOk(t.jobs[i], t.now); }
  }

  /** Row locks: two claim transactions never hold the same row, and the row a transaction holds
      is still waiting and due, whatever ran in between. */
  lemma SkipLockedIsExclusive(s: State, es: seq<Event>, w: WorkerId, v: WorkerId)
    requires Quiet(s) && LeasedRun(s, es)
    requires var t := Run(s, es); PhaseOf(t, w).Selecting?
    ensures var t := Run(s, es); var p := PhaseOf(t, w);
            && p.job < |t.jobs| && (t.jobs[p.job].status.Pending? || t.jobs[p.job].status.Retry?)
            && t.jobs[p.job].scheduledAt <= t.now
            && (PhaseOf(t, v).Selecting? && PhaseOf(t, v).job == p.job ==> v == w)
  {
    RunKeepsInv(s, es);
    var t := Run(s, es);
    assert w in t.workers;
    if PhaseOf(t, v).Selecting? { assert v in t.workers; }
  }

  /** A held job survives `recover_stale_jobs` if and only if its lease has not run out. */
  lemma LeaseSurvivesRecovery(s: State, w: WorkerId)
    requires Held(s, w)
    ensures Held(Step(s, Recover), w) <==> Live(s, w)
  {
  }

  /** At most one active job per crawl target, and per non-null source and job type without a
      target, however many schedulers and API processes insert. */
  lemma ActiveUniqueness(s: State, es: seq<Event>, i: JobId, k: JobId)
    requires Quiet(s) && LeasedRun(s, es)
    requires var t := Run(s, es); i < |t.jobs| && k < |t.jobs|
    requires var a, b := Run(s, es).jobs[i].status, Run(s, es).jobs[k].status;
             !a.Success? && !a.Failed? && !b.Success? && !b.Failed?
    ensures var a, b := Run(s, es).jobs[i], Run(s, es).jobs[k];
            && (a.target.Some? && a.target == b.target ==> i == k)
            && (a.target.None? && b.target.None? && a.source.Some? && a.source == b.source && a.jobType == b.jobType ==>
                  i == k)
  {
    RunKeepsInv(s, es);
    var t := Run(s, es);
    if i < k { assert !Conflicts(t.jobs[i], t.jobs[k]); }
    if k < i { assert !Conflicts(t.jobs[k], t.jobs[i]); }
  }

  /** Requests with neither source nor target are never rejected: the API's stay unbounded. */
  lemma ApiRequestsNeverCollide(s: State)
    ensures |Step(s, Enqueue).jobs| == |s.jobs| + 1
    ensures Step(s, Enqueue).jobs[..|s.jobs|] == s.jobs
    ensures var j := Step(s, Enqueue).jobs[|s.jobs|];
            j.source == None && j.target == None && j.jobType == DiscoverDomain && j.priority == 150
            && j.status == Pending && j.scheduledAt == s.now
  {
  }
}
