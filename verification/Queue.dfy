/** The job queue operations over the shared table, each tied to the protocol step it is. */
module Queue {
  import opened Options
  import opened JobRows
  import opened LeaseProtocol
  import opened Registry

  function StaleCount(jobs: seq<Job>, now: Time, staleAfter: nat): nat {
    if jobs == [] then 0
    else StaleCount(jobs[..|jobs| - 1], now, staleAfter)
         + if IsStale(jobs[|jobs| - 1], now, staleAfter) then 1 else 0
  }

  lemma RecoveryChanges(j: Job, now: Time, staleAfter: nat)
    ensures IsStale(j, now, staleAfter) ==> Recovered(j) != j
  {
  }

  /** The rows a recovery changes are the stale ones. */
  lemma {:induction false} StaleRowsAreCounted(jobs: seq<Job>, now: Time, staleAfter: nat)
    ensures StaleCount(jobs, now, staleAfter)
         == |set k | 0 <= k < |jobs| && RecoverAll(jobs, now, staleAfter)[k] != jobs[k]|
  {
    hide IsStale, Recovered;
    var changed := set k | 0 <= k < |jobs| && RecoverAll(jobs, now, staleAfter)[k] != jobs[k];
    if jobs == [] {
      assert changed == {};
    } else {
      var m := |jobs| - 1;
      RecoveryChanges(jobs[m], now, staleAfter);
      StaleRowsAreCounted(jobs[..m], now, staleAfter);
      var earlier := set k | 0 <= k < m && RecoverAll(jobs[..m], now, staleAfter)[k] != jobs[..m][k];
      assert changed == if IsStale(jobs[m], now, staleAfter) then earlier + {m} else earlier;
    }
  }

  /** SQL `=` is not true of two NULLs. */
  predicate SqlEq<T(==)>(a: Option<T>, b: Option<T>) {
    a.Some? && a == b
  }

  /** The shared table, the row locks of open claim transactions, the database clock, and the
      point each worker process has reached. */
  class CrawlJobs {
    var now: Time
    const staleAfter: nat
    var jobs: seq<Job>
    var locks: map<JobId, WorkerId>
    var workers: map<WorkerId, Phase>

    function View(): State
      reads this
    {
      State(now, staleAfter, jobs, locks, workers)
    }

    constructor (now: Time, staleAfter: nat)
      ensures View() == State(now, staleAfter, [], map[], map[])
    {
      this.now, this.staleAfter := now, staleAfter;
      jobs, locks, workers := [], map[], map[];
    }

    /** Whatever the other processes do here: any events, disabled ones and late settles skipped. */
    method Interfere(es: seq<Event>)
      modifies this
      ensures View() == Drive(old(View()), es)
    {
      hide Step, Timely;
      var k := 0;
      while k < |es|
        invariant 0 <= k <= |es|
        invariant Drive(View(), es[k..]) == Drive(old(View()), es)
      {
        assert es[k..][1..] == es[k + 1..];
        if Timely(View(), es[k]) {
          StepKeepsTimeout(View(), es[k]);
          var t := Step(View(), es[k]);
          now, jobs, locks, workers := t.now, t.jobs, t.locks, t.workers;
        }
        k := k + 1;
      }
    }

    method Elapse(d: nat)
      modifies this`now
      ensures View() == Step(old(View()), Tick(d))
    {
      now := now + d;
    }

    /** Inserts the job, or after a unique violation looks up the active job of the same key; the
        lookup is a later statement, and `between` is what other processes commit before it. None
        is the lookup that finds no row, which happens exactly when the job that caused the
        violation and every other one of its key is no longer active. */
    method CreateJob(jobType: JobType, source: Option<SourceId>, target: Option<TargetId>, priority: int,
                     scheduledAt: Option<Time>, between: seq<Event>)
      returns (id: Option<JobId>)
      modifies this
      ensures var row := NewJob(jobType, source, target, priority, scheduledAt, old(now));
              if Violates(old(jobs), row) then
                && View() == Drive(old(View()), between)
                && (id.None? <==> !Violates(jobs, row))
                && (id.Some? ==> id.value < |jobs| && Conflicts(jobs[id.value], row))
              else
                && View() == Step(old(View()), Create(jobType, source, target, priority, scheduledAt))
                && id == Some(|old(jobs)|) && jobs == old(jobs) + [row]
      ensures !Violates(old(jobs), NewJob(jobType, source, target, priority, scheduledAt, old(now))) ==>
                var j := jobs[|old(jobs)|];
                && j.jobType == jobType && j.source == source && j.target == target && j.priority == priority
                && j.status == Pending && j.attempts == 0 && j.maxAttempts == 5 && j.createdAt == now
                && j.scheduledAt == (if scheduledAt.Some? then scheduledAt.value else now)
                && j.startedAt == j.finishedAt == j.lockedAt == None && j.lockedBy == j.error == None
    {
      var row := NewJob(jobType, source, target, priority, scheduledAt, now);
      var violation := false;
      for k := 0 to |jobs|
        invariant violation <==> exists i :: 0 <= i < k && Conflicts(jobs[i], row)
      {
        if Conflicts(jobs[k], row) { violation := true; }
      }
      if !violation {
        jobs := jobs + [row];
        return Some(|jobs| - 1);
      }
      Interfere(between);
      for k := 0 to |jobs|
        invariant forall i :: 0 <= i < k ==> !Conflicts(jobs[i], row)
      {
        var hit := if target.Some? then SqlEq(jobs[k].target, target) && Active(jobs[k])
                   else SqlEq(jobs[k].source, source) && jobs[k].jobType == jobType && Active(jobs[k])
                        && jobs[k].target.None?;
        if hit { return Some(k); }
      }
      return None;
    }

    /** First statement of a claim: find and lock the next due job that nobody has locked. */
    method SelectNext(w: WorkerId) returns (r: Option<JobId>)
      requires PhaseOf(View(), w).Idle?
      modifies this`locks, this`workers
      ensures r.None? ==> View() == old(View()) && NothingDue(jobs, locks, now)
      ensures r.Some? ==> IsNext(jobs, old(locks), now, r.value)
                          && View() == Step(old(View()), Select(w, r.value))
      ensures r.None? ==> forall k :: 0 <= k < |jobs| && k !in locks ==>
                var j := jobs[k];
                (j.status.Pending? || j.status.Retry?) ==> j.scheduledAt > now
      ensures r.Some? ==>
                && r.value < |jobs| && r.value !in old(locks) && jobs[r.value].scheduledAt <= now
                && (jobs[r.value].status.Pending? || jobs[r.value].status.Retry?)
                && forall k :: 0 <= k < |jobs| && k !in old(locks) ==>
                     var a, b := jobs[k], jobs[r.value];
                     (a.status.Pending? || a.status.Retry?) && a.scheduledAt <= now ==>
                       a.priority < b.priority || (a.priority == b.priority && a.scheduledAt >= b.scheduledAt)
    {
      r := None;
      for k := 0 to |jobs|
        invariant r.None? ==> forall i :: 0 <= i < k ==> !Offered(jobs, locks, now, i)
        invariant r.Some? ==> r.value < k && Offered(jobs, locks, now, r.value)
        invariant r.Some? ==> forall i :: 0 <= i < k && Offered(jobs, locks, now, i) ==> !Before(jobs[i], jobs[r.value])
      {
        if Offered(jobs, locks, now, k) && (r.None? || Before(jobs[k], jobs[r.value])) {
          r := Some(k);
        }
      }
      if r.None? {
        NothingOnColumns(jobs, locks, now);
      } else {
        NextOnColumns(jobs, locks, now, r.value);
        locks := locks[r.value := w];
        workers := workers[w := Selecting(r.value, now)];
      }
    }

    /** Second statement and commit of a claim; `now()` is still the transaction's start. */
    method CommitClaim(w: WorkerId)
      requires CanCommit(View(), w)
      modifies this`jobs, this`locks, this`workers
      ensures View() == Step(old(View()), Commit(w))
      ensures var p := PhaseOf(old(View()), w);
              && |jobs| == |old(jobs)| && (forall k :: 0 <= k < |jobs| && k != p.job ==> jobs[k] == old(jobs)[k])
              && jobs[p.job].status == Running && jobs[p.job].lockedBy == Some(w)
              && jobs[p.job].lockedAt == jobs[p.job].startedAt == Some(p.at)
              && jobs[p.job].attempts == old(jobs)[p.job].attempts
              && PhaseOf(View(), w) == Handling(p.job, p.at) && p.job !in locks
    {
      var p := workers[w];
      jobs := jobs[p.job := Claimed(jobs[p.job], w, p.at)];
      locks := locks - {p.job};
      workers := workers[w := Handling(p.job, p.at)];
    }

    /** A whole claim with nothing in between. */
    method ClaimJob(w: WorkerId) returns (r: Option<JobId>)
      requires PhaseOf(View(), w).Idle?
      modifies this`jobs, this`locks, this`workers
      ensures r.None? ==> View() == old(View()) && NothingDue(jobs, locks, now)
      ensures r.Some? ==> IsNext(old(jobs), old(locks), now, r.value)
                          && View() == Step(Step(old(View()), Select(w, r.value)), Commit(w))
                          && CanSettle(View(), w) && PhaseOf(View(), w) == Handling(r.value, now)
      ensures r.None? ==> forall k :: 0 <= k < |jobs| && k !in locks ==>
                var j := jobs[k];
                (j.status.Pending? || j.status.Retry?) ==> j.scheduledAt > now
      ensures r.Some? ==>
                && r.value < |old(jobs)| == |jobs| && r.value !in old(locks) && old(jobs)[r.value].scheduledAt <= now
                && (old(jobs)[r.value].status.Pending? || old(jobs)[r.value].status.Retry?)
                && jobs[r.value].status.Running? && jobs[r.value].lockedBy == Some(w)
                && jobs[r.value].lockedAt == jobs[r.value].startedAt == Some(now)
                && forall k :: 0 <= k < |jobs| && k !in old(locks) ==>
                     var a, b := old(jobs)[k], old(jobs)[r.value];
                     (a.status.Pending? || a.status.Retry?) && a.scheduledAt <= now ==>
                       a.priority < b.priority || (a.priority == b.priority && a.scheduledAt >= b.scheduledAt)
    {
      r := SelectNext(w);
      if r.Some? {
        CommitClaim(w);
      }
    }

    method CompleteJob(id: JobId, w: WorkerId)
      requires CanSettle(View(), w) && PhaseOf(View(), w).job == id
      modifies this`jobs, this`workers
      ensures View() == Step(old(View()), Complete(w))
      ensures |jobs| == |old(jobs)| && forall k :: 0 <= k < |jobs| && k != id ==> jobs[k] == old(jobs)[k]
      ensures var was, row := old(jobs)[id], jobs[id];
              && row.status == Success && row.attempts == was.attempts && row.scheduledAt == was.scheduledAt
              && row.finishedAt == Some(now) && row.lockedAt == None && row.lockedBy == None && row.error == was.error
    {
      jobs := jobs[id := Completed(jobs[id], now)];
      workers := workers[w := Idle];
    }

    method FailJob(id: JobId, w: WorkerId, error: string)
      requires CanSettle(View(), w) && PhaseOf(View(), w).job == id
      modifies this`jobs, this`workers
      ensures View() == Step(old(View()), Fail(w, error))
      ensures |jobs| == |old(jobs)| && forall k :: 0 <= k < |jobs| && k != id ==> jobs[k] == old(jobs)[k]
      ensures var was, row := old(jobs)[id], jobs[id];
              && row.attempts == was.attempts + 1 && row.error == Some(error)
              && row.lockedAt == None && row.lockedBy == None
              && row.status == (if was.attempts + 1 >= was.maxAttempts then Failed else Retry)
              && (row.status == Failed ==> row.scheduledAt == was.scheduledAt && row.finishedAt == Some(now))
              && (row.status == Retry ==> row.scheduledAt == now + 30 * SECOND * Pow2(was.attempts))
    {
      var n := jobs[id].attempts + 1;
      if n >= jobs[id].maxAttempts {
        jobs := jobs[id := jobs[id].(status := Failed, attempts := n, error := Some(error),
                                     finishedAt := Some(now), lockedAt := None, lockedBy := None)];
      } else {
        var nextAttempt := now + BACKOFF_BASE_SECONDS * SECOND * Pow2(n - 1);
        jobs := jobs[id := jobs[id].(status := Retry, attempts := n, error := Some(error),
                                     scheduledAt := nextAttempt, lockedAt := None, lockedBy := None)];
      }
      workers := workers[w := Idle];
    }

    /** Puts back the jobs locked for too long and returns how many they are. */
    method RecoverStaleJobs() returns (recovered: nat)
      modifies this`jobs
      ensures View() == Step(old(View()), Recover)
      ensures |jobs| == |old(jobs)| && recovered == |set k | 0 <= k < |jobs| && jobs[k] != old(jobs)[k]|
      ensures forall k :: 0 <= k < |jobs| ==>
                var was, row := old(jobs)[k], jobs[k];
                if was.status.Running? && was.lockedAt.Some? && now - was.lockedAt.value > staleAfter then
                  row.status.Retry? && row.lockedAt == None && row.lockedBy == None
                  && row.attempts == was.attempts && row.scheduledAt == was.scheduledAt
                else row == was
    {
      recovered := 0;
      for k := 0 to |jobs|
        invariant |jobs| == |old(jobs)|
        invariant recovered == StaleCount(old(jobs)[..k], now, staleAfter)
        invariant forall i :: 0 <= i < k ==> jobs[i] == RecoverAll(old(jobs), now, staleAfter)[i]
        invariant forall i :: k <= i < |jobs| ==> jobs[i] == old(jobs)[i]
      {
        assert old(jobs)[..k + 1][..k] == old(jobs)[..k];
        if IsStale(jobs[k], now, staleAfter) {
          jobs := jobs[k := Recovered(jobs[k])];
          recovered := recovered + 1;
        }
      }
      assert old(jobs)[..|jobs|] == old(jobs);
      assert jobs == RecoverAll(old(jobs), now, staleAfter);
      RecoveredOnColumns(old(jobs), now, staleAfter);
      StaleRowsAreCounted(old(jobs), now, staleAfter);
    }
  }
}
