/** What whole runs of the protocol do to one job: claims, recoveries, failures and backoff. */
module JobHistory {
  import opened Options
  import opened JobRows
  import opened LeaseProtocol

  // ----- Histories, read off the events -----

  predicate Claims(s: State, e: Event, id: JobId) {
    e.Commit? && CanCommit(s, e.w) && PhaseOf(s, e.w).job == id
  }

  predicate Recovers(s: State, e: Event, id: JobId) {
    e.Recover? && id < |s.jobs| && IsStale(s.jobs[id], s.now, s.staleAfter)
  }

  predicate Fails(s: State, e: Event, id: JobId) {
    e.Fail? && CanSettle(s, e.w) && PhaseOf(s, e.w).job == id
  }

  function ClaimCount(s: State, es: seq<Event>, id: JobId): nat {
    if es == [] then 0 else
      var m := |es| - 1;
      ClaimCount(s, es[..m], id) + if Claims(Run(s, es[..m]), es[m], id) then 1 else 0
  }

  function RecoveryCount(s: State, es: seq<Event>, id: JobId): nat {
    if es == [] then 0 else
      var m := |es| - 1;
      RecoveryCount(s, es[..m], id) + if Recovers(Run(s, es[..m]), es[m], id) then 1 else 0
  }

  /** The instants at which `fail_job` ran for the job, oldest first. */
  function FailTimes(s: State, es: seq<Event>, id: JobId): seq<Time> {
    if es == [] then [] else
      var m := |es| - 1;
      var t := Run(s, es[..m]);
      FailTimes(s, es[..m], id) + if Fails(t, es[m], id) then [t.now] else []
  }

  // ----- Accounting -----

  /** Charged attempts plus the claim that is still out or was spent on success. */
  function Spent(jobs: seq<Job>, id: JobId): nat {
    if id >= |jobs| then 0
    else jobs[id].attempts + if jobs[id].status.Running? || jobs[id].status.Success? then 1 else 0
  }

  lemma StepAccounting(s: State, e: Event, id: JobId)
    requires Inv(s) && Timely(s, e)
    ensures Spent(Step(s, e).jobs, id) + (if Recovers(s, e, id) then 1 else 0)
         == Spent(s.jobs, id) + (if Claims(s, e, id) then 1 else 0)
  {
    if (e.Complete? || e.Fail?) && CanSettle(s, e.w) {
      assert e.w in s.workers && Held(s, e.w);
    }
    if e.Commit? && CanCommit(s, e.w) {
      assert e.w in s.workers && Waiting(s.jobs[PhaseOf(s, e.w).job]);
    }
  }

  /** Every claim of a job is an attempt charged to it, a stale recovery, or the claim that is
      running or succeeded; recoveries charge nothing, so claims alone are not bounded. */
  lemma {:induction false} ClaimAccounting(s: State, es: seq<Event>, id: JobId)
    requires Inv(s) && LeasedRun(s, es)
    ensures Spent(s.jobs, id) + ClaimCount(s, es, id)
         == Spent(Run(s, es).jobs, id) + RecoveryCount(s, es, id)
  {
    if es == [] {
    } else {
      var m := |es| - 1;
      ClaimAccounting(s, es[..m], id);
      RunKeepsInv(s, es[..m]);
      StepAccounting(Run(s, es[..m]), es[m], id);
    }
  }

  /** The accounting law of a job that was never tried before the run, with its budget. */
  lemma FreshClaimAccounting(s: State, es: seq<Event>, id: JobId)
    requires Quiet(s) && LeasedRun(s, es) && id < |Run(s, es).jobs|
    requires id < |s.jobs| ==> s.jobs[id].attempts == 0 && s.jobs[id].status.Pending?
    ensures var j := Run(s, es).jobs[id];
            && ClaimCount(s, es, id) == j.attempts + RecoveryCount(s, es, id)
                                      + (if j.status.Running? || j.status.Success? then 1 else 0)
            && (!j.status.Success? && !j.status.Failed? ==> j.attempts < j.maxAttempts)
            && (j.status.Failed? ==> j.attempts == j.maxAttempts)
  {
    ClaimAccounting(s, es, id);
    RunKeepsInv(s, es);
    assert RowOk(Run(s, es).jobs[id], Run(s, es).now);
  }

  lemma StepKeepsTerminal(s: State, e: Event, id: JobId)
    requires Inv(s) && Timely(s, e) && id < |s.jobs|
    ensures id < |Step(s, e).jobs|
    ensures Terminal(s.jobs[id]) ==> Step(s, e).jobs[id] == s.jobs[id]
    ensures var a, b := s.jobs[id], Step(s, e).jobs[id];
            SameKeys(a, b) && a.maxAttempts == b.maxAttempts && a.createdAt == b.createdAt
  {
    if (e.Complete? || e.Fail?) && CanSettle(s, e.w) {
      assert e.w in s.workers && Held(s, e.w);
    }
    if e.Commit? && CanCommit(s, e.w) {
      assert e.w in s.workers && Waiting(s.jobs[PhaseOf(s, e.w).job]);
    }
  }

  /** SUCCESS and FAILED are final: no later event of a leased run touches the row. */
  lemma {:induction false} TerminalIsFinal(s: State, es: seq<Event>, id: JobId)
    requires Inv(s) && LeasedRun(s, es) && id < |s.jobs|
    ensures id < |Run(s, es).jobs|
    ensures s.jobs[id].status.Success? || s.jobs[id].status.Failed? ==> Run(s, es).jobs[id] == s.jobs[id]
    ensures var a, b := s.jobs[id], Run(s, es).jobs[id];
            SameKeys(a, b) && a.maxAttempts == b.maxAttempts && a.createdAt == b.createdAt
  {
    if es == [] {
    } else {
      var m := |es| - 1;
      TerminalIsFinal(s, es[..m], id);
      RunKeepsInv(s, es[..m]);
      StepKeepsTerminal(Run(s, es[..m]), es[m], id);
    }
  }

  // ----- Backoff -----

  /** Failure instants, the attempt count and the next due time of an untried job agree. */
  predicate BackoffOk(jobs: seq<Job>, id: JobId, ft: seq<Time>) {
    && (id >= |jobs| ==> ft == [])
    && (id < |jobs| ==> |ft| == jobs[id].attempts)
    && (forall i :: 1 <= i < |ft| ==> ft[i] - ft[i - 1] >= Backoff(i))
    && (id < |jobs| && ft != [] && Active(jobs[id]) ==>
          jobs[id].scheduledAt == ft[|ft| - 1] + Backoff(|ft|))
  }

  /** Only a failure changes a row's attempts or due time, and only an insertion activates one. */
  lemma OnlyFailuresReschedule(s: State, e: Event, id: JobId)
    requires Inv(s) && Timely(s, e) && id < |s.jobs| && !Fails(s, e, id)
    ensures id < |Step(s, e).jobs|
    ensures var a, b := s.jobs[id], Step(s, e).jobs[id];
            a.attempts == b.attempts && a.scheduledAt == b.scheduledAt && (Active(b) ==> Active(a))
  {
    if e.Complete? && CanSettle(s, e.w) { assert e.w in s.workers && Held(s, e.w); }
    if e.Commit? && CanCommit(s, e.w) { SelectedIsDue(s, e.w); }
  }

  /** A failing handler ran inside its claim, so not before the row was due. */
  lemma FailureIsAfterDue(s: State, e: Event, id: JobId)
    requires Inv(s) && Timely(s, e) && Fails(s, e, id)
    ensures id < |s.jobs| && s.jobs[id].status.Running? && s.jobs[id].scheduledAt <= s.now
    ensures Step(s, e).jobs == s.jobs[id := FailedOnce(s.jobs[id], s.now, e.error)]
  {
    assert e.w in s.workers && Held(s, e.w);
    assert RowOk(s.jobs[id], s.now);
  }

  /** The n-th failure within the budget leaves a row that is claimable exactly from 30 * 2^(n-1)
      seconds on, and one that exhausts it a row that never is. */
  lemma RetryIsDueExactlyFrom(s: State, w: WorkerId, error: string, t: Time)
    requires CanSettle(s, w)
    ensures var id := PhaseOf(s, w).job;
            var n, row := s.jobs[id].attempts + 1, Step(s, Fail(w, error)).jobs[id];
            && row.attempts == n
            && (Claimable(row, t) <==> n < s.jobs[id].maxAttempts && t >= s.now + 30 * SECOND * Pow2(n - 1))
  {
  }

  /** In seconds: 30 after the first failure, and after each later one twice as many as before. */
  lemma RetryDelaysDouble(s: State, t: State, w: WorkerId, error: string)
    requires CanSettle(s, w) && CanSettle(t, w)
    requires var a, b := s.jobs[PhaseOf(s, w).job], t.jobs[PhaseOf(t, w).job];
             b.attempts == a.attempts + 1 < a.maxAttempts && b.attempts + 1 < b.maxAttempts
    ensures var i, k := PhaseOf(s, w).job, PhaseOf(t, w).job;
            var first, next := Step(s, Fail(w, error)).jobs[i], Step(t, Fail(w, error)).jobs[k];
            && (s.jobs[i].attempts == 0 ==> first.scheduledAt == s.now + 30 * 1_000_000)
            && next.scheduledAt - t.now == 2 * (first.scheduledAt - s.now)
  {
    var n := s.jobs[PhaseOf(s, w).job].attempts;
    assert Pow2(n + 1) == 2 * Pow2(n);
  }

  lemma StepKeepsBackoff(s: State, e: Event, id: JobId, ft: seq<Time>)
    requires Inv(s) && Timely(s, e) && BackoffOk(s.jobs, id, ft)
    ensures BackoffOk(Step(s, e).jobs, id, ft + if Fails(s, e, id) then [s.now] else [])
  {
    assert ft + [] == ft;
    if Fails(s, e, id) {
      FailureIsAfterDue(s, e, id);
      FailureExtendsBackoff(s.jobs, id, ft, s.now, e.error);
    } else if id < |s.jobs| {
      OnlyFailuresReschedule(s, e, id);
    } else {
      NewRowsAreUntried(s, e, id);
    }
  }

  lemma FailureExtendsBackoff(jobs: seq<Job>, id: JobId, ft: seq<Time>, now: Time, error: string)
    requires BackoffOk(jobs, id, ft) && id < |jobs| && jobs[id].status.Running? && jobs[id].scheduledAt <= now
    ensures BackoffOk(jobs[id := FailedOnce(jobs[id], now, error)], id, ft + [now])
  {
  }

  lemma NewRowsAreUntried(s: State, e: Event, id: JobId)
    requires |s.jobs| <= id
    ensures id < |Step(s, e).jobs| ==> Step(s, e).jobs[id].attempts == 0
  {
  }

  lemma {:induction false} RunKeepsBackoff(s: State, es: seq<Event>, id: JobId)
    requires Inv(s) && LeasedRun(s, es)
    requires id < |s.jobs| ==> s.jobs[id].attempts == 0
    ensures BackoffOk(Run(s, es).jobs, id, FailTimes(s, es, id))
  {
    if es == [] {
    } else {
      var m := |es| - 1;
      RunKeepsBackoff(s, es[..m], id);
      RunKeepsInv(s, es[..m]);
      StepKeepsBackoff(Run(s, es[..m]), es[m], id, FailTimes(s, es[..m], id));
    }
  }

  lemma {:induction false} SpacingAddsUp(ft: seq<Time>)
    requires ft != [] && forall i :: 1 <= i < |ft| ==> ft[i] - ft[i - 1] >= 30 * SECOND * Pow2(i - 1)
    ensures ft[|ft| - 1] - ft[0] >= 30 * SECOND * (Pow2(|ft| - 1) - 1)
  {
    if |ft| == 1 {
    } else {
      SpacingAddsUp(ft[..|ft| - 1]);
    }
  }

  /** Backoff bound: whatever is recovered in between, the i-th and (i+1)-th failures of a job
      are at least 30 * 2^(i-1) seconds apart. */
  lemma BackoffBound(s: State, es: seq<Event>, id: JobId)
    requires Quiet(s) && LeasedRun(s, es) && id < |Run(s, es).jobs|
    requires id < |s.jobs| ==> s.jobs[id].attempts == 0
    ensures var ft := FailTimes(s, es, id);
            && |ft| == Run(s, es).jobs[id].attempts
            && (forall i :: 1 <= i < |ft| ==> ft[i] - ft[i - 1] >= 30 * SECOND * Pow2(i - 1))
  {
    hide Run, LeasedRun, FailTimes, Quiet, Inv, BackoffOk;
    QuietInv(s);
    RunKeepsBackoff(s, es, id);
    BackoffInSeconds(Run(s, es).jobs, id, FailTimes(s, es, id));
  }

  lemma BackoffInSeconds(jobs: seq<Job>, id: JobId, ft: seq<Time>)
    requires BackoffOk(jobs, id, ft) && id < |jobs|
    ensures |ft| == jobs[id].attempts && forall i :: 1 <= i < |ft| ==> ft[i] - ft[i - 1] >= 30 * SECOND * Pow2(i - 1)
  {
  }

  /** The failure that exhausts a budget of m attempts is the m-th, and comes at least
      30 * (2^(m-1) - 1) seconds after the first one. */
  lemma PermanentFailureDelay(s: State, es: seq<Event>, id: JobId)
    requires Quiet(s) && LeasedRun(s, es) && id < |Run(s, es).jobs| && Run(s, es).jobs[id].status.Failed?
    requires id < |s.jobs| ==> s.jobs[id].attempts == 0
    ensures var ft, m := FailTimes(s, es, id), Run(s, es).jobs[id].maxAttempts;
            && |ft| == m >= 1
            && ft[m - 1] - ft[0] >= 30 * SECOND * (Pow2(m - 1) - 1)
  {
    hide Run, LeasedRun, FailTimes, Quiet, Inv, Pow2;
    BackoffBound(s, es, id);
    QuietInv(s);
    RunKeepsInv(s, es);
    FailedSpentAll(Run(s, es), id);
    SpacingAddsUp(FailTimes(s, es, id));
  }

  lemma QuietInv(s: State)
    requires Quiet(s)
    ensures Inv(s)
  {
  }

  lemma FailedSpentAll(t: State, id: JobId)
    requires Inv(t) && id < |t.jobs| && t.jobs[id].status.Failed?
    ensures t.jobs[id].attempts == t.jobs[id].maxAttempts >= 1
  {
    assert RowOk(t.jobs[id], t.now);
  }

  // ----- Without the lease premise -----

  const EMPTY := State(0, 30 * 60 * SECOND, [], map[], map[])

  /** Worker "a" overruns its lease, is recovered, and fails late, after "b" finished the job
      and the scheduler queued the target again. */
  const LATE_RUN: seq<Event> := [
    Create(CrawlUrl, Some(1), Some(7), 100, None), Select("a", 0), Commit("a"), Tick(EMPTY.staleAfter + 1),
    Recover, Select("b", 0), Commit("b"), Complete("b"), Create(CrawlUrl, Some(1), Some(7), 100, None),
    Fail("a", "late")]

  const OVERDUE := EMPTY.staleAfter + 1

  function LateRow(status: Status, attempts: nat): Job {
    NewJob(CrawlUrl, Some(1), Some(7), 100, None, 0).(status := status, attempts := attempts)
  }

  lemma RunSnoc(s: State, es: seq<Event>, k: nat)
    requires k < |es|
    ensures Run(s, es[..k + 1]) == Step(Run(s, es[..k]), es[k])
  {
    assert es[..k + 1][..k] == es[..k];
  }

  lemma OneRowClaim(s: State, w: WorkerId)
    requires |s.jobs| == 1 && s.locks == map[] && PhaseOf(s, w).Idle? && Claimable(s.jobs[0], s.now)
    ensures Step(Step(s, Select(w, 0)), Commit(w))
         == s.(jobs := [Claimed(s.jobs[0], w, s.now)],
               workers := s.workers[w := Selecting(0, s.now)][w := Handling(0, s.now)])
  {
    assert Step(s, Select(w, 0)) == s.(locks := map[0 := w], workers := s.workers[w := Selecting(0, s.now)]);
    assert map[0 := w] - {0} == map[];
  }

  lemma LateRunRecovered()
    ensures var t := Run(EMPTY, LATE_RUN[..5]);
            && t.now == OVERDUE && t.staleAfter == EMPTY.staleAfter && t.locks == map[]
            && t.workers == map["a" := Handling(0, 0)]
            && |t.jobs| == 1 && t.jobs[0].status.Retry? && t.jobs[0].scheduledAt == 0
            && SameKeys(t.jobs[0], LateRow(Retry, 0)) && t.jobs[0].attempts == 0 && t.jobs[0].maxAttempts == 5
            && !Timely(t, Fail("a", "late"))
  {
    assert LATE_RUN[..0] == [];
    RunSnoc(EMPTY, LATE_RUN, 0);
    RunSnoc(EMPTY, LATE_RUN, 1);
    RunSnoc(EMPTY, LATE_RUN, 2);
    RunSnoc(EMPTY, LATE_RUN, 3);
    RunSnoc(EMPTY, LATE_RUN, 4);
  }

  lemma LateRunSucceeded()
    ensures var t := Run(EMPTY, LATE_RUN[..8]);
            && t.now == OVERDUE && t.staleAfter == EMPTY.staleAfter && t.locks == map[]
            && PhaseOf(t, "a") == Handling(0, 0)
            && |t.jobs| == 1 && t.jobs[0].status.Success? && SameKeys(t.jobs[0], LateRow(Success, 0))
            && t.jobs[0].attempts == 0 && t.jobs[0].maxAttempts == 5
  {
    LateRunRecovered();
    hide IsNext;
    OneRowClaim(Run(EMPTY, LATE_RUN[..5]), "b");
    RunSnoc(EMPTY, LATE_RUN, 5);
    RunSnoc(EMPTY, LATE_RUN, 6);
    RunSnoc(EMPTY, LATE_RUN, 7);
  }

  /** Settling checks neither status nor owner, so a handler that overruns its lease can pull a
      SUCCESS job back to RETRY, and its UPDATE then is one that hits a unique index. */
  lemma LateSettleBreaksTheLease()
    ensures Quiet(EMPTY) && !LeasedRun(EMPTY, LATE_RUN)
    ensures var t := Run(EMPTY, LATE_RUN[..9]); |t.jobs| == 2 && t.jobs[0].status.Success? && IndexesHold(t.jobs)
    ensures var u := Run(EMPTY, LATE_RUN); |u.jobs| == 2 && u.jobs[0].status.Retry? && !IndexesHold(u.jobs)
  {
    LateRunSucceeded();
    RunSnoc(EMPTY, LATE_RUN, 8);
    RunSnoc(EMPTY, LATE_RUN, 9);
    assert LATE_RUN[..10] == LATE_RUN;
    assert !Timely(Run(EMPTY, LATE_RUN[..9]), LATE_RUN[9]);
    var u := Run(EMPTY, LATE_RUN);
    assert Conflicts(u.jobs[0], u.jobs[1]);
  }

  // ----- Claims without attempts, and a lookup that comes too late -----

  /** A worker that dies in each of its claims, and is recovered each time. */
  const CRASH_CYCLE: seq<Event> := [Select("a", 0), Commit("a"), Crash("a"), Tick(OVERDUE), Recover]

  function CrashLoop(n: nat): seq<Event> {
    if n == 0 then [Create(CrawlUrl, Some(1), Some(7), 100, None)] else CrashLoop(n - 1) + CRASH_CYCLE
  }

  lemma OneMoreEvent(s: State, es: seq<Event>, e: Event, id: JobId)
    ensures Run(s, es + [e]) == Step(Run(s, es), e)
    ensures LeasedRun(s, es + [e]) <==> LeasedRun(s, es) && Timely(Run(s, es), e)
    ensures ClaimCount(s, es + [e], id) == ClaimCount(s, es, id) + if Claims(Run(s, es), e, id) then 1 else 0
  {
    hide Step, Timely, Claims;
    assert (es + [e])[..|es|] == es;
  }

  predicate BetweenCrashes(t: State) {
    && |t.jobs| == 1 && Claimable(t.jobs[0], t.now) && t.jobs[0].attempts == 0 && t.jobs[0].maxAttempts == 5
    && t.locks == map[] && PhaseOf(t, "a").Idle? && t.staleAfter == EMPTY.staleAfter
  }

  lemma CrashCycle(t: State)
    requires BetweenCrashes(t)
    ensures var u := Step(Step(t, Select("a", 0)), Commit("a"));
            && Claims(Step(t, Select("a", 0)), Commit("a"), 0)
            && BetweenCrashes(Step(Step(Step(u, Crash("a")), Tick(OVERDUE)), Recover))
  {
    hide IsNext;
    assert IsNext(t.jobs, t.locks, t.now, 0) by { OnlyRowIsNext(t); }
    OneRowClaim(t, "a");
  }

  lemma OnlyRowIsNext(t: State)
    requires |t.jobs| == 1 && Claimable(t.jobs[0], t.now) && t.locks == map[]
    ensures IsNext(t.jobs, t.locks, t.now, 0)
  {
  }

  /** Claims are not bounded by the retry budget: for every n there is a run in time, of an untried
      job, with n claims and not one attempt. */
  lemma {:induction false} ClaimsAreUnbounded(n: nat)
    ensures LeasedRun(EMPTY, CrashLoop(n)) && ClaimCount(EMPTY, CrashLoop(n), 0) == n
    ensures BetweenCrashes(Run(EMPTY, CrashLoop(n)))
    ensures var t := Run(EMPTY, CrashLoop(n)); |t.jobs| == 1 && t.jobs[0].attempts == 0
  {
    hide ClaimCount, LeasedRun, Run, Step, Claims, BetweenCrashes, IsNext;
    if n == 0 {
      FirstEvent();
    } else {
      ClaimsAreUnbounded(n - 1);
      var es := CrashLoop(n - 1);
      CrashCycle(Run(EMPTY, es));
      var e1, e2, e3 := es + [CRASH_CYCLE[0]], es + CRASH_CYCLE[..2], es + CRASH_CYCLE[..3];
      var e4 := es + CRASH_CYCLE[..4];
      assert e2 == e1 + [CRASH_CYCLE[1]] && e3 == e2 + [CRASH_CYCLE[2]] && e4 == e3 + [CRASH_CYCLE[3]];
      assert CrashLoop(n) == e4 + [CRASH_CYCLE[4]];
      OneMoreEvent(EMPTY, es, CRASH_CYCLE[0], 0);
      OneMoreEvent(EMPTY, e1, CRASH_CYCLE[1], 0);
      OneMoreEvent(EMPTY, e2, CRASH_CYCLE[2], 0);
      OneMoreEvent(EMPTY, e3, CRASH_CYCLE[3], 0);
      OneMoreEvent(EMPTY, e4, CRASH_CYCLE[4], 0);
      NoClaims(Run(EMPTY, es), Run(EMPTY, e2), Run(EMPTY, e3), Run(EMPTY, e4));
    }
    StillUntried(Run(EMPTY, CrashLoop(n)));
  }

  lemma StillUntried(t: State)
    requires BetweenCrashes(t)
    ensures |t.jobs| == 1 && t.jobs[0].attempts == 0
  {
  }

  lemma NoClaims(t0: State, t2: State, t3: State, t4: State)
    ensures !Claims(t0, CRASH_CYCLE[0], 0) && !Claims(t2, CRASH_CYCLE[2], 0) && !Claims(t3, CRASH_CYCLE[3], 0)
    ensures !Claims(t4, CRASH_CYCLE[4], 0)
  {
  }

  lemma FirstEvent()
    ensures LeasedRun(EMPTY, CrashLoop(0)) && ClaimCount(EMPTY, CrashLoop(0), 0) == 0
    ensures BetweenCrashes(Run(EMPTY, CrashLoop(0)))
  {
    hide Step, Claims, BetweenCrashes, Run, LeasedRun, ClaimCount;
    var e := CrashLoop(0)[0];
    NothingYet(EMPTY, 0);
    OneMoreEvent(EMPTY, [], e, 0);
    assert [] + [e] == CrashLoop(0);
    FirstRow();
  }

  lemma NothingYet(s: State, id: JobId)
    ensures Run(s, []) == s && LeasedRun(s, []) && ClaimCount(s, [], id) == 0
  {
  }

  lemma FirstRow()
    ensures var e := Create(CrawlUrl, Some(1), Some(7), 100, None);
            BetweenCrashes(Step(EMPTY, e)) && Timely(EMPTY, e) && !Claims(EMPTY, e, 0)
            && Step(EMPTY, e) == EMPTY.(jobs := [NewJob(CrawlUrl, Some(1), Some(7), 100, None, 0)])
  {
  }

  /** `create_job` can be left without a row to return: its job's key is taken when it inserts, and
      free again once the job in the way has completed, before the lookup. */
  lemma LookupCanComeTooLate()
    ensures var s, row := Run(EMPTY, LATE_RUN[..3]), NewJob(CrawlUrl, Some(1), Some(7), 100, None, 0);
            Violates(s.jobs, row) && !Violates(Drive(s, [Complete("a")]).jobs, row)
  {
    hide Run, Step, Drive, IsNext, BetweenCrashes;
    assert Run(EMPTY, LATE_RUN[..0]) == EMPTY by { NoEvents(EMPTY, LATE_RUN); }
    RunSnoc(EMPTY, LATE_RUN, 0);
    RunSnoc(EMPTY, LATE_RUN, 1);
    RunSnoc(EMPTY, LATE_RUN, 2);
    FirstRow();
    ClaimedThenCompleted(Run(EMPTY, LATE_RUN[..1]));
  }

  lemma NoEvents(s: State, es: seq<Event>)
    ensures Run(s, es[..0]) == s
  {
  }

  lemma ClaimedThenCompleted(t: State)
    requires t == EMPTY.(jobs := [NewJob(CrawlUrl, Some(1), Some(7), 100, None, 0)])
    ensures var s, row := Step(Step(t, Select("a", 0)), Commit("a")), NewJob(CrawlUrl, Some(1), Some(7), 100, None, 0);
            Violates(s.jobs, row) && !Violates(Drive(s, [Complete("a")]).jobs, row)
  {
    hide IsNext;
    OnlyRowIsNext(t);
    OneRowClaim(t, "a");
    var s := Step(Step(t, Select("a", 0)), Commit("a"));
    assert Conflicts(s.jobs[0], NewJob(CrawlUrl, Some(1), Some(7), 100, None, 0));
    assert [Complete("a")][1..] == [];
    assert Drive(s, [Complete("a")]) == Step(s, Complete("a"));
  }
}
