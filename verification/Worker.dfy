/** The worker's claim/dispatch/settle loop. */
module Worker {
  import opened Options
  import opened JobRows
  import opened LeaseProtocol
  import opened Queue
  import opened SeqSums

  /** How often one more pass may still hand the job to a handler. */
  function Allowance(j: Job): nat {
    if !Waiting(j) then 0 else if j.maxAttempts - j.attempts > 1 then j.maxAttempts - j.attempts else 1
  }

  /** What one handling leaves of a row: `outcome` is the handler's error, if any. */
  function Handled(j: Job, w: WorkerId, at: Time, done: Time, outcome: Option<string>): Job {
    if outcome.None? then Completed(Claimed(j, w, at), done)
    else FailedOnce(Claimed(j, w, at), done, outcome.value)
  }

  /** The same on the columns: a return succeeds and charges nothing, an error charges an attempt and
      keeps its message, and the job fails for good exactly when that was the last one. */
  predicate SettledAs(was: Job, row: Job, done: Time, outcome: Option<string>) {
    && row.lockedAt == None && row.lockedBy == None
    && match outcome
       case None => row.status.Success? && row.attempts == was.attempts && row.finishedAt == Some(done)
       case Some(e) =>
         && row.attempts == was.attempts + 1 && row.error == Some(e)
         && if row.attempts >= was.maxAttempts then row.status.Failed? && row.finishedAt == Some(done)
            else row.status.Retry? && row.scheduledAt == done + 30 * SECOND * Pow2(was.attempts)
  }

  lemma HandledSpendsAllowance(j: Job, w: WorkerId, at: Time, done: Time, outcome: Option<string>)
    requires Waiting(j)
    ensures Allowance(Handled(j, w, at, done, outcome)) < Allowance(j)
  {
  }

  /** No retry is due at the instant of its failure. */
  lemma HandledIsNotDue(j: Job, w: WorkerId, now: Time, outcome: Option<string>)
    ensures !Claimable(Handled(j, w, now, now, outcome), now)
  {
    Pow2Positive(j.attempts);
  }

  /** The pass of a worker under a frozen clock: every due row of `table` once, best first. */
  predicate IsDrainOrder(table: seq<Job>, now: Time, log: seq<JobId>) {
    && (forall i :: 0 <= i < |log| ==> log[i] < |table| && Claimable(table[log[i]], now))
    && (forall i, k :: 0 <= i < k < |log| ==> log[i] != log[k] && !Before(table[log[k]], table[log[i]]))
  }

  /** A drain order so far: what is due and not logged yet comes no earlier than what is. */
  predicate IsDrainPrefix(table: seq<Job>, now: Time, log: seq<JobId>) {
    && IsDrainOrder(table, now, log)
    && forall id, i :: 0 <= id < |table| && Claimable(table[id], now) && id !in log && 0 <= i < |log| ==>
                         !Before(table[id], table[log[i]])
  }

  /** A signal arrives during one of the first n handlers. */
  predicate Signalled(signals: nat -> bool, n: nat) {
    n > 0 && (signals(n - 1) || Signalled(signals, n - 1))
  }

  /** Every row but the logged ones is as recovery left it, and no logged row is still RUNNING. */
  predicate OnlyLogged(table: seq<Job>, jobs: seq<Job>, log: seq<JobId>) {
    && |jobs| == |table|
    && (forall i :: 0 <= i < |log| ==> log[i] < |table|)
    && (forall i :: 0 <= i < |table| && (jobs[i].status.Running? || i !in log) ==> jobs[i] == table[i])
    && (forall i :: 0 <= i < |log| ==> !jobs[log[i]].status.Running?)
  }

  /** Under a frozen clock each logged row carries exactly the result of its one handling. */
  predicate EachOnce(table: seq<Job>, jobs: seq<Job>, w: WorkerId, now: Time, log: seq<JobId>,
                     outcomes: nat -> Option<string>)
  {
    && |jobs| == |table| && IsDrainPrefix(table, now, log)
    && forall k :: 0 <= k < |log| ==> jobs[log[k]] == Handled(table[log[k]], w, now, now, outcomes(k))
  }

  /** An empty log holds between passes: then no row is RUNNING under this process. */
  lemma NothingLogged(table: seq<Job>, w: WorkerId, now: Time, outcomes: nat -> Option<string>)
    ensures OnlyLogged(table, table, []) && EachOnce(table, table, w, now, [], outcomes)
  {
  }

  /** Under a frozen clock a logged row is not due again, so the next row is a new one. */
  lemma DrainExtends(table: seq<Job>, jobs: seq<Job>, w: WorkerId, now: Time, log: seq<JobId>, job: JobId,
                     outcomes: nat -> Option<string>)
    requires OnlyLogged(table, jobs, log) && EachOnce(table, jobs, w, now, log, outcomes)
    requires IsNext(jobs, map[], now, job)
    ensures var after := jobs[job := Handled(jobs[job], w, now, now, outcomes(|log|))];
            EachOnce(table, after, w, now, log + [job], outcomes)
  {
    hide Handled, Before, Claimable;
    if job in log {
      var k :| 0 <= k < |log| && log[k] == job;
      HandledIsNotDue(table[job], w, now, outcomes(k));
    }
    forall id | 0 <= id < |table| && Claimable(table[id], now) && id !in log + [job]
      ensures !Before(table[id], table[job])
    {
      assert Offered(jobs, map[], now, id);
    }
  }

  lemma LogExtends(table: seq<Job>, jobs: seq<Job>, log: seq<JobId>, job: JobId, row: Job)
    requires OnlyLogged(table, jobs, log) && job < |table| && !row.status.Running?
    ensures OnlyLogged(table, jobs[job := row], log + [job])
  {
    var after, ext := jobs[job := row], log + [job];
    forall i | 0 <= i < |table| && (after[i].status.Running? || i !in ext) ensures after[i] == table[i] {
      assert i != job;
      assert i in ext ==> i in log;
    }
  }

  lemma HandlingAdvances(table: seq<Job>, jobs: seq<Job>, w: WorkerId, at: Time, done: Time, log: seq<JobId>,
                         job: JobId, outcomes: nat -> Option<string>, after: seq<Job>, frozen: bool)
    requires OnlyLogged(table, jobs, log) && IsNext(jobs, map[], at, job)
    requires after == jobs[job := Handled(jobs[job], w, at, done, outcomes(|log|))]
    requires frozen ==> done == at && EachOnce(table, jobs, w, at, log, outcomes)
    ensures OnlyLogged(table, after, log + [job])
    ensures Sum(Allowance, after) < Sum(Allowance, jobs)
    ensures frozen ==> EachOnce(table, after, w, at, log + [job], outcomes)
  {
    HandledSpendsAllowance(jobs[job], w, at, done, outcomes(|log|));
    SumUpdate(Allowance, jobs, job, after[job]);
    LogExtends(table, jobs, log, job, after[job]);
    if frozen { DrainExtends(table, jobs, w, at, log, job, outcomes); }
  }

  /** What a frozen pass did, on the columns. */
  lemma DrainOnColumns(table: seq<Job>, jobs: seq<Job>, w: WorkerId, now: Time, log: seq<JobId>,
                       outcomes: nat -> Option<string>)
    requires EachOnce(table, jobs, w, now, log, outcomes)
    ensures |jobs| == |table| && forall i :: 0 <= i < |log| ==> log[i] < |table|
    ensures forall k :: 0 <= k < |log| ==>
              && (jobs[log[k]].status.Success? <==> outcomes(k).None?)
              && SettledAs(table[log[k]], jobs[log[k]], now, outcomes(k))
    ensures forall i, k :: 0 <= i < k < |log| ==>
              var a, b := table[log[i]], table[log[k]];
              a.priority > b.priority || (a.priority == b.priority && a.scheduledAt <= b.scheduledAt)
    ensures forall id, i :: 0 <= id < |table| && id !in log && 0 <= i < |log| ==>
              var a, b := table[log[i]], table[id];
              (b.status.Pending? || b.status.Retry?) && b.scheduledAt <= now ==>
                a.priority > b.priority || (a.priority == b.priority && a.scheduledAt <= b.scheduledAt)
  {
    forall k | 0 <= k < |log| ensures SettledAs(table[log[k]], jobs[log[k]], now, outcomes(k)) {
      assert jobs[log[k]] == Handled(table[log[k]], w, now, now, outcomes(k));
    }
  }

  class CrawlWorker {
    const id: WorkerId
    const db: CrawlJobs
    var shutdownRequested: bool

    constructor (id: WorkerId, db: CrawlJobs)
      ensures this.id == id && this.db == db && !shutdownRequested
    {
      this.id, this.db := id, db;
      shutdownRequested := false;
    }

    /** SIGTERM or SIGINT. */
    method RequestShutdown()
      modifies this
      ensures shutdownRequested
    {
      shutdownRequested := true;
    }

    /** Claims the next due job, if any, hands it to its handler and settles it. */
    method HandleNext(delay: nat, outcome: Option<string>) returns (r: Option<JobId>)
      requires PhaseOf(db.View(), id).Idle? && db.locks == map[]
      modifies db
      ensures PhaseOf(db.View(), id).Idle? && db.locks == map[]
      ensures r.None? ==> db.View() == old(db.View()) && NothingDue(db.jobs, db.locks, db.now)
      ensures r.Some? ==>
                && IsNext(old(db.jobs), map[], old(db.now), r.value) && db.now == old(db.now) + delay
                && db.jobs == old(db.jobs)[r.value := Handled(old(db.jobs)[r.value], id, old(db.now), db.now, outcome)]
      ensures r.Some? ==>
                var handed := Step(Step(Step(old(db.View()), Select(id, r.value)), Commit(id)), Tick(delay));
                db.View() == Step(handed, if outcome.None? then Complete(id) else Fail(id, outcome.value))
      ensures r.Some? ==> SettledAs(old(db.jobs)[r.value], db.jobs[r.value], db.now, outcome)
    {
      r := db.ClaimJob(id);
      if r.Some? {
        assert db.locks == map[];
        db.Elapse(delay);
        if outcome.None? {
          db.CompleteJob(r.value, id);
        } else {
          db.FailJob(r.value, id, outcome.value);
        }
      }
    }

    /** The claiming loop of a pass with no other producer or worker. The k-th handler runs for
        `delays(k)`, ends with `outcomes(k)`, and a signal arrives during it when `signals(k)`. */
    method HandleAllDue(outcomes: nat -> Option<string>, delays: nat -> nat, signals: nat -> bool)
      returns (processed: nat, log: seq<JobId>)
      requires PhaseOf(db.View(), id).Idle? && db.locks == map[]
      modifies this, db
      ensures PhaseOf(db.View(), id).Idle? && db.locks == map[]
      ensures processed == |log| <= Sum(Allowance, old(db.jobs))
      ensures OnlyLogged(old(db.jobs), db.jobs, log)
      ensures shutdownRequested <==> old(shutdownRequested) || Signalled(signals, processed)
      ensures processed > 0 ==> !old(shutdownRequested) && !Signalled(signals, processed - 1)
      ensures !shutdownRequested ==> NothingDue(db.jobs, db.locks, db.now)
      ensures (forall k :: delays(k) == 0) ==>
                EachOnce(old(db.jobs), db.jobs, id, old(db.now), log, outcomes) && db.now == old(db.now)
    {
      hide OnlyLogged, EachOnce, NothingDue, Sum;
      NothingLogged(db.jobs, id, db.now, outcomes);
      ghost var table, start := db.jobs, db.now;
      ghost var frozen := forall k :: delays(k) == 0;
      processed, log := 0, [];
      while !shutdownRequested
        invariant PhaseOf(db.View(), id).Idle? && db.locks == map[]
        invariant processed == |log| && processed + Sum(Allowance, db.jobs) <= Sum(Allowance, table)
        invariant OnlyLogged(table, db.jobs, log)
        invariant shutdownRequested <==> old(shutdownRequested) || Signalled(signals, processed)
        invariant processed > 0 ==> !old(shutdownRequested) && !Signalled(signals, processed - 1)
        invariant frozen ==> db.now == start && EachOnce(table, db.jobs, id, start, log, outcomes)
        decreases Sum(Allowance, db.jobs)
      {
        ghost var jobs, at := db.jobs, db.now;
        var job := HandleNext(delays(processed), outcomes(processed));
        if job.None? { break; }
        HandlingAdvances(table, jobs, id, at, db.now, log, job.value, outcomes, db.jobs, frozen);
        if signals(processed) { RequestShutdown(); }
        log := log + [job.value];
        processed := processed + 1;
      }
    }

    /** One pass: recover stale jobs, then handle what is due. It ends after at most as many
        handlings as the waiting jobs have attempts left, leaves no job RUNNING that recovery did
        not leave so, and under a frozen clock handles each due job once, best first. */
    method RunOnce(outcomes: nat -> Option<string>, delays: nat -> nat, signals: nat -> bool)
      returns (processed: nat, log: seq<JobId>)
      requires PhaseOf(db.View(), id).Idle? && db.locks == map[]
      modifies this, db
      ensures PhaseOf(db.View(), id).Idle? && db.locks == map[]
      ensures var table := RecoverAll(old(db.jobs), old(db.now), db.staleAfter);
              && processed == |log| <= Sum(Allowance, table)
              && OnlyLogged(table, db.jobs, log)
              && ((forall k :: delays(k) == 0) ==>
                    EachOnce(table, db.jobs, id, old(db.now), log, outcomes) && db.now == old(db.now))
      ensures (forall k :: delays(k) == 0) ==>
                var table := RecoverAll(old(db.jobs), old(db.now), db.staleAfter);
                && (forall k :: 0 <= k < |log| ==>
                      && (db.jobs[log[k]].status.Success? <==> outcomes(k).None?)
                      && SettledAs(table[log[k]], db.jobs[log[k]], db.now, outcomes(k)))
                && (forall i, k :: 0 <= i < k < |log| ==>
                      var a, b := table[log[i]], table[log[k]];
                      a.priority > b.priority || (a.priority == b.priority && a.scheduledAt <= b.scheduledAt))
                && (forall id, i :: 0 <= id < |table| && id !in log && 0 <= i < |log| ==>
                      var a, b := table[log[i]], table[id];
                      (b.status.Pending? || b.status.Retry?) && b.scheduledAt <= db.now ==>
                        a.priority > b.priority || (a.priority == b.priority && a.scheduledAt <= b.scheduledAt))
      ensures shutdownRequested <==> old(shutdownRequested) || Signalled(signals, processed)
      ensures processed > 0 ==> !old(shutdownRequested) && !Signalled(signals, processed - 1)
      ensures !shutdownRequested ==> NothingDue(db.jobs, db.locks, db.now)
      ensures !shutdownRequested ==> forall k :: 0 <= k < |db.jobs| ==>
                var j := db.jobs[k];
                (j.status.Pending? || j.status.Retry?) ==> j.scheduledAt > db.now
    {
      hide EachOnce, OnlyLogged, NothingDue, Sum, IsStale, Recovered;
      ghost var table := RecoverAll(db.jobs, db.now, db.staleAfter);
      var _ := db.RecoverStaleJobs();
      processed, log := HandleAllDue(outcomes, delays, signals);
      if forall k :: delays(k) == 0 { DrainOnColumns(table, db.jobs, id, db.now, log, outcomes); }
      if !shutdownRequested { NothingOnColumns(db.jobs, db.locks, db.now); }
    }
  }

  /** A frozen pass that no signal cut short handled exactly the due rows. */
  lemma DrainIsComplete(table: seq<Job>, jobs: seq<Job>, w: WorkerId, now: Time, log: seq<JobId>,
                        outcomes: nat -> Option<string>, id: JobId)
    requires OnlyLogged(table, jobs, log) && EachOnce(table, jobs, w, now, log, outcomes)
    requires NothingDue(jobs, map[], now)
    ensures id in log <==> id < |table| && Claimable(table[id], now)
  {
    if id < |table| { assert !Offered(jobs, map[], now, id); }
  }
}
