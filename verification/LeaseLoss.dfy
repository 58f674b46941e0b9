/** Exactly when a claim is lost, and exactly which runs settle nothing but what is still held. */
module LeaseLoss {
  import opened JobRows
  import opened LeaseProtocol
  import opened JobHistory

  // ----- One event -----

  /** What takes a job from the worker that holds it: a recovery pass after its lease, its own crash,
      or a settlement of the job, by whichever worker. */
  predicate Loses(s: State, e: Event, w: WorkerId)
    requires PhaseOf(s, w).Handling?
  {
    || (e.Recover? && !Live(s, w))
    || e == Crash(w)
    || ((e.Complete? || e.Fail?) && CanSettle(s, e.w) && PhaseOf(s, e.w).job == PhaseOf(s, w).job)
  }

  /** Whether timely or not, no other event does. */
  lemma ClaimIsLostExactlyBy(s: State, e: Event, w: WorkerId)
    requires LocksAgree(s) && Held(s, w)
    ensures !Held(Step(s, e), w) <==> Loses(s, e, w)
  {
    if e.Commit? && CanCommit(s, e.w) { assert e.w in s.workers; }
  }

  // ----- Whole runs, late settlements included -----

  lemma SettleKeepsLocks(s: State, w: WorkerId, row: Job)
    requires LocksAgree(s) && CanSettle(s, w)
    ensures LocksAgree(Settle(s, w, row))
  {
  }

  lemma CommitsKeepLocks(s: State, w: WorkerId)
    requires LocksAgree(s)
    ensures LocksAgree(Step(s, Commit(w)))
  {
    if CanCommit(s, w) { CommitKeepsLocks(s, w, Claimed(s.jobs[PhaseOf(s, w).job], w, PhaseOf(s, w).at)); }
  }

  lemma SelectsKeepLocks(s: State, w: WorkerId, id: JobId)
    requires LocksAgree(s)
    ensures LocksAgree(Step(s, Select(w, id)))
  {
    if PhaseOf(s, w).Idle? && IsNext(s.jobs, s.locks, s.now, id) { SelectKeepsLocks(s, w, id); }
  }

  lemma InsertsAndTicksKeepLocks(s: State, e: Event)
    requires LocksAgree(s) && (e.Tick? || e.Create? || e.Enqueue?)
    ensures LocksAgree(Step(s, e))
  {
    hide Violates, NewJob;
  }

  lemma StepKeepsLocks(s: State, e: Event)
    requires LocksAgree(s)
    ensures LocksAgree(Step(s, e))
  {
    hide LocksAgree;
    match e
    case Tick(_) => InsertsAndTicksKeepLocks(s, e);
    case Create(_, _, _, _, _) => InsertsAndTicksKeepLocks(s, e);
    case Enqueue => InsertsAndTicksKeepLocks(s, e);
    case Select(w, id) => SelectsKeepLocks(s, w, id);
    case Commit(w) => CommitsKeepLocks(s, w);
    case Complete(w) =>
      if CanSettle(s, w) { SettleKeepsLocks(s, w, Completed(s.jobs[PhaseOf(s, w).job], s.now)); }
    case Fail(w, error) =>
      if CanSettle(s, w) { SettleKeepsLocks(s, w, FailedOnce(s.jobs[PhaseOf(s, w).job], s.now, error)); }
    case Recover => RecoverKeepsLocks(s);
    case Crash(w) => CrashKeepsLocks(s, w);
  }

  lemma {:induction false} RunKeepsLocks(s: State, es: seq<Event>)
    requires LocksAgree(s)
    ensures LocksAgree(Run(s, es))
  {
    hide LocksAgree, Step;
    if es == [] {
    } else {
      RunKeepsLocks(s, es[..|es| - 1]);
      StepKeepsLocks(Run(s, es[..|es| - 1]), es[|es| - 1]);
    }
  }

  /** The first k events settle only jobs that are RUNNING under the settling worker's claim. */
  predicate SoundUpTo(s: State, es: seq<Event>, k: nat)
    requires k <= |es|
  {
    forall i :: 0 <= i < k ==> Sound(Run(s, es[..i]), es[i])
  }

  /** The i-th event settles a claim of which the j-th was a recovery pass after the lease's end. */
  predicate Overtaken(s: State, es: seq<Event>, j: nat, i: nat)
    requires i < |es| && j < i
  {
    var before, t, e := Run(s, es[..j]), Run(s, es[..i]), es[i];
    && es[j].Recover? && (e.Complete? || e.Fail?) && CanSettle(t, e.w)
    && PhaseOf(before, e.w) == PhaseOf(t, e.w)
    && before.now > PhaseOf(t, e.w).at + before.staleAfter
  }

  ghost predicate NeverOvertaken(s: State, es: seq<Event>) {
    forall j, i :: 0 <= j < i < |es| ==> !Overtaken(s, es, j, i)
  }

  // ----- A recovered claim stays lost -----

  /** The claim p of worker w is gone for good: w is still at it without holding the job, or has
      moved on to a later claim. */
  predicate Dispossessed(t: State, w: WorkerId, p: Phase)
    requires p.Handling?
  {
    && t.now > p.at
    && match PhaseOf(t, w)
       case Idle => true
       case Selecting(_, at) => at > p.at
       case Handling(_, at) => at > p.at || (PhaseOf(t, w) == p && p.job < |t.jobs| && !Held(t, w))
  }

  lemma StepKeepsDispossessed(t: State, e: Event, w: WorkerId, p: Phase)
    requires p.Handling? && Dispossessed(t, w, p)
    ensures Dispossessed(Step(t, e), w, p)
  {
    hide IsNext, Violates;
  }

  lemma RecoveryDispossesses(t: State, w: WorkerId)
    requires PhaseOf(t, w).Handling? && PhaseOf(t, w).job < |t.jobs| && t.now > PhaseOf(t, w).at + t.staleAfter
    ensures Dispossessed(Step(t, Recover), w, PhaseOf(t, w))
  {
  }

  lemma {:induction false} DispossessedStays(s: State, es: seq<Event>, j: nat, i: nat, w: WorkerId, p: Phase)
    requires j <= i <= |es| && p.Handling? && Dispossessed(Run(s, es[..j]), w, p)
    ensures Dispossessed(Run(s, es[..i]), w, p)
    decreases i
  {
    hide Dispossessed, Step;
    if i == j {
    } else {
      DispossessedStays(s, es, j, i - 1, w, p);
      RunSnoc(s, es, i - 1);
      StepKeepsDispossessed(Run(s, es[..i - 1]), es[i - 1], w, p);
    }
  }

  lemma OvertakenIsUnsound(s: State, es: seq<Event>, j: nat, i: nat)
    requires LocksAgree(s) && j < i < |es| && Overtaken(s, es, j, i)
    ensures !Sound(Run(s, es[..i]), es[i])
  {
    hide Run, LocksAgree, Step;
    var w, p := es[i].w, PhaseOf(Run(s, es[..i]), es[i].w);
    RunKeepsLocks(s, es[..j]);
    HandledJobExists(Run(s, es[..j]), w);
    RecoveryDispossesses(Run(s, es[..j]), w);
    RunSnoc(s, es, j);
    DispossessedStays(s, es, j + 1, i, w, p);
  }

  lemma HandledJobExists(t: State, w: WorkerId)
    requires LocksAgree(t) && PhaseOf(t, w).Handling?
    ensures PhaseOf(t, w).job < |t.jobs|
  {
    assert w in t.workers;
  }

  // ----- What else is not held was not claimed -----

  /** Recovered after its lease during the same claim, before event k. */
  predicate RecoveredLate(s: State, es: seq<Event>, k: nat, w: WorkerId, j: nat)
    requires j < k <= |es|
  {
    var before, t := Run(s, es[..j]), Run(s, es[..k]);
    es[j].Recover? && PhaseOf(t, w).Handling? && PhaseOf(before, w) == PhaseOf(t, w)
    && before.now > PhaseOf(t, w).at + before.staleAfter
  }

  lemma HeldStepByStep(t: State, e: Event, w: WorkerId)
    requires LocksAgree(t) && Sound(t, e) && PhaseOf(Step(t, e), w).Handling?
    ensures PhaseOf(t, w) != PhaseOf(Step(t, e), w) ==> Held(Step(t, e), w)
    ensures PhaseOf(t, w) == PhaseOf(Step(t, e), w) && Held(t, w) && !Held(Step(t, e), w) ==>
              e.Recover? && t.now > PhaseOf(t, w).at + t.staleAfter
  {
    if PhaseOf(t, w) == PhaseOf(Step(t, e), w) && Held(t, w) { ClaimIsLostExactlyBy(t, e, w); }
  }

  lemma {:induction false} HeldUnlessRecoveredLate(s: State, es: seq<Event>, k: nat, w: WorkerId)
    requires Quiet(s) && k <= |es| && SoundUpTo(s, es, k) && PhaseOf(Run(s, es[..k]), w).Handling?
    ensures Held(Run(s, es[..k]), w) || exists j :: 0 <= j < k && RecoveredLate(s, es, k, w, j)
    decreases k
  {
    hide Step, Held, LocksAgree;
    assert es[..0] == [];
    if k == 0 {
    } else {
      var t, u := Run(s, es[..k - 1]), Run(s, es[..k]);
      RunSnoc(s, es, k - 1);
      QuietLocks(s);
      RunKeepsLocks(s, es[..k - 1]);
      HeldStepByStep(t, es[k - 1], w);
      if PhaseOf(t, w) == PhaseOf(u, w) && !Held(u, w) {
        if Held(t, w) {
          assert RecoveredLate(s, es, k, w, k - 1);
        } else {
          HeldUnlessRecoveredLate(s, es, k - 1, w);
          var j :| 0 <= j < k - 1 && RecoveredLate(s, es, k - 1, w, j);
          assert RecoveredLate(s, es, k, w, j);
        }
      }
    }
  }

  lemma QuietLocks(s: State)
    requires Quiet(s)
    ensures LocksAgree(s)
  {
  }

  lemma {:induction false} SoundUnlessOvertaken(s: State, es: seq<Event>, k: nat)
    requires Quiet(s) && k <= |es| && NeverOvertaken(s, es)
    ensures SoundUpTo(s, es, k)
  {
    hide Run, Held, Quiet;
    if k == 0 {
    } else {
      var m := k - 1;
      SoundUnlessOvertaken(s, es, m);
      var t, e := Run(s, es[..m]), es[m];
      if (e.Complete? || e.Fail?) && CanSettle(t, e.w) {
        HeldUnlessRecoveredLate(s, es, m, e.w);
        forall j | 0 <= j < m ensures !RecoveredLate(s, es, m, e.w, j) {
          assert !Overtaken(s, es, j, m);
        }
      }
    }
  }

  lemma {:induction false} SoundRunKeepsInv(s: State, es: seq<Event>, k: nat)
    requires Inv(s) && k <= |es| && SoundUpTo(s, es, k)
    ensures Inv(Run(s, es[..k]))
  {
    hide Inv, Step, Sound;
    if k == 0 {
      assert es[..0] == [];
    } else {
      SoundRunKeepsInv(s, es, k - 1);
      RunSnoc(s, es, k - 1);
      SoundStepKeepsInv(Run(s, es[..k - 1]), es[k - 1]);
    }
  }

  /** The exact premise. Over any run from a quiet database, late settlements and all, every
      settlement finds its job RUNNING and locked by the settling worker if and only if none comes
      after a recovery pass that ran past the end of its claim's lease. */
  lemma SettlementsAreSoundUnlessOvertaken(s: State, es: seq<Event>)
    requires Quiet(s)
    ensures SoundUpTo(s, es, |es|) <==> NeverOvertaken(s, es)
    ensures NeverOvertaken(s, es) ==> Inv(Run(s, es))
  {
    hide Run, Quiet, LocksAgree, Overtaken, Sound;
    if NeverOvertaken(s, es) {
      SoundUnlessOvertaken(s, es, |es|);
      QuietInv(s);
      SoundRunKeepsInv(s, es, |es|);
      assert es[..|es|] == es;
    }
    if SoundUpTo(s, es, |es|) {
      forall j, i | 0 <= j < i < |es| ensures !Overtaken(s, es, j, i) {
        QuietLocks(s);
        if Overtaken(s, es, j, i) { OvertakenIsUnsound(s, es, j, i); }
      }
    }
  }

  /** A timely run is one of them, and the late failure that breaks the lease is not. */
  lemma LateRunIsOvertaken()
    ensures Overtaken(EMPTY, LATE_RUN, 4, 9) && !NeverOvertaken(EMPTY, LATE_RUN)
  {
    LateRunBeforeRecovery();
    LateRunSucceeded();
    RunSnoc(EMPTY, LATE_RUN, 8);
    assert |LATE_RUN| == 10 && Overtaken(EMPTY, LATE_RUN, 4, 9);
  }

  lemma LateRunBeforeRecovery()
    ensures var t := Run(EMPTY, LATE_RUN[..4]);
            t.now == OVERDUE && t.staleAfter == EMPTY.staleAfter && PhaseOf(t, "a") == Handling(0, 0)
  {
    assert LATE_RUN[..0] == [];
    RunSnoc(EMPTY, LATE_RUN, 0);
    RunSnoc(EMPTY, LATE_RUN, 1);
    RunSnoc(EMPTY, LATE_RUN, 2);
    RunSnoc(EMPTY, LATE_RUN, 3);
  }

  /** The lease premise is sufficient: a timely run has no overtaken settlement. */
  lemma LeasedRunsAreNeverOvertaken(s: State, es: seq<Event>)
    requires Quiet(s) && LeasedRun(s, es)
    ensures NeverOvertaken(s, es)
  {
    hide Run, Quiet, Overtaken, Inv;
    forall i | 0 <= i < |es| ensures Sound(Run(s, es[..i]), es[i]) {
      LeasedPrefix(s, es, i);
      QuietInv(s);
      RunKeepsInv(s, es[..i]);
      InvLeases(Run(s, es[..i]));
      TimelyIsSound(Run(s, es[..i]), es[i]);
    }
    SettlementsAreSoundUnlessOvertaken(s, es);
  }

  lemma InvLeases(t: State)
    requires Inv(t)
    ensures LeasesHold(t)
  {
  }

  lemma {:induction false} LeasedPrefix(s: State, es: seq<Event>, i: nat)
    requires LeasedRun(s, es) && i < |es|
    ensures LeasedRun(s, es[..i]) && Timely(Run(s, es[..i]), es[i])
    decreases |es|
  {
    hide Timely;
    var m := |es| - 1;
    if i == m {
    } else {
      LeasedPrefix(s, es[..m], i);
      assert es[..m][..i] == es[..i];
    }
  }
}
