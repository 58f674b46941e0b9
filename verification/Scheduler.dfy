/** The scheduler pass, interleaved with workers and API requests at every statement. */
module Scheduler {
  import opened Options
  import opened JobRows
  import opened LeaseProtocol
  import opened Queue
  import opened SeqSums
  import opened Registry

  const DAY: int := 24 * 60 * 60 * SECOND
  const DUE_TARGET_LIMIT: nat := 100

  /** A row of `data_sources`; its id is its position. */
  datatype Source = Source(isActive: bool, frequency: string, nextScheduledAt: Time)

  /** A row of `crawl_targets`; its id is its position. Nothing rewrites `nextCrawlAt`. */
  datatype Target = Target(source: SourceId, active: bool, priority: int, nextCrawlAt: Time)

  function Interval(frequency: string): int {
    if frequency == "DAILY" then DAY else if frequency == "MONTHLY" then 30 * DAY else 7 * DAY
  }

  // ----- The due queries -----

  predicate SourceDue(s: Source, now: Time) {
    s.isActive && s.frequency != "MANUAL" && s.nextScheduledAt <= now
  }

  /** `ORDER BY id ASC`. */
  function DueSources(sources: seq<Source>, now: Time): (r: seq<SourceId>)
    ensures forall i :: i in r <==>
              0 <= i < |sources| && sources[i].isActive && sources[i].frequency != "MANUAL"
              && sources[i].nextScheduledAt <= now
    ensures forall i, k :: 0 <= i < k < |r| ==> r[i] < r[k]
  {
    if sources == [] then [] else
      var m := |sources| - 1;
      var r := DueSources(sources[..m], now);
      assert forall i :: 0 <= i < |r| ==> r[i] in r;
      r + if SourceDue(sources[m], now) then [m] else []
  }

  predicate TargetDue(t: Target, now: Time) {
    t.active && t.nextCrawlAt <= now
  }

  /** `ORDER BY priority DESC, next_crawl_at ASC, id ASC`. */
  predicate TargetFirst(targets: seq<Target>, a: TargetId, b: TargetId)
    requires a < |targets| && b < |targets|
  {
    var x, y := targets[a], targets[b];
    x.priority > y.priority || (x.priority == y.priority &&
    (x.nextCrawlAt < y.nextCrawlAt || (x.nextCrawlAt == y.nextCrawlAt && a < b)))
  }

  predicate TargetOrder(targets: seq<Target>, r: seq<TargetId>) {
    && (forall i :: 0 <= i < |r| ==> r[i] < |targets|)
    && forall i, k :: 0 <= i < k < |r| ==> TargetFirst(targets, r[i], r[k])
  }

  function InsertTarget(targets: seq<Target>, r: seq<TargetId>, id: TargetId): (out: seq<TargetId>)
    requires TargetOrder(targets, r) && id < |targets| && id !in r
    ensures TargetOrder(targets, out) && |out| == |r| + 1
    ensures forall k :: k in out <==> k == id || k in r
  {
    if r == [] then [id]
    else if TargetFirst(targets, id, r[0]) then [id] + r
    else
      var rest := InsertTarget(targets, r[1..], id);
      assert r[0] in r && forall k :: k in r[1..] ==> k < |targets| && TargetFirst(targets, r[0], k);
      assert forall k :: 0 <= k < |rest| ==> rest[k] in rest;
      [r[0]] + rest
  }

  function DueTargets(targets: seq<Target>, now: Time, n: nat): (r: seq<TargetId>)
    requires n <= |targets|
    ensures TargetOrder(targets, r)
    ensures forall i :: i in r <==> 0 <= i < n && targets[i].active && targets[i].nextCrawlAt <= now
  {
    if n == 0 then [] else
      var r := DueTargets(targets, now, n - 1);
      if TargetDue(targets[n - 1], now) then InsertTarget(targets, r, n - 1) else r
  }

  // ----- What other processes may do to the table -----

  /** Keys and creation times stay, nothing becomes active again, and only API jobs appear. */
  predicate OthersOnly(before: seq<Job>, after: seq<Job>) {
    && |before| <= |after|
    && (forall k :: 0 <= k < |before| ==>
          SameKeys(before[k], after[k]) && before[k].createdAt == after[k].createdAt
          && (Active(after[k]) ==> Active(before[k])))
    && (forall k :: |before| <= k < |after| ==> FromApi(after[k]))
  }

  predicate NoCreates(es: seq<Event>) {
    forall e :: e in es ==> !e.Create?
  }

  lemma StepIsOthersOnly(s: State, e: Event)
    requires Inv(s) && Timely(s, e) && !e.Create?
    ensures OthersOnly(s.jobs, Step(s, e).jobs) && s.now <= Step(s, e).now
  {
    if (e.Complete? || e.Fail?) && CanSettle(s, e.w) {
      assert e.w in s.workers && Held(s, e.w);
    }
    if e.Commit? && CanCommit(s, e.w) {
      assert e.w in s.workers && Waiting(s.jobs[PhaseOf(s, e.w).job]);
    }
  }

  /** Workers, recoveries and API requests, in any number and order. */
  lemma {:induction false} DriveIsOthersOnly(s: State, es: seq<Event>)
    requires Inv(s) && NoCreates(es)
    ensures OthersOnly(s.jobs, Drive(s, es).jobs) && s.now <= Drive(s, es).now
    decreases |es|
  {
    if es == [] {
    } else {
      assert es[0] in es;
      if Timely(s, es[0]) { StepKeepsInv(s, es[0]); StepIsOthersOnly(s, es[0]); }
      DriveIsOthersOnly(if Timely(s, es[0]) then Step(s, es[0]) else s, es[1..]);
    }
  }

  function ActiveRow(j: Job): nat { if Active(j) then 1 else 0 }
  function ScheduledRow(j: Job): nat { if FromApi(j) then 0 else 1 }
  function ActiveScheduledRow(j: Job): nat { if Active(j) && !FromApi(j) then 1 else 0 }

  /** Active jobs that no API request asked for. */
  function ActiveScheduled(jobs: seq<Job>): nat { Sum(ActiveScheduledRow, jobs) }

  lemma {:induction false} NoWeight(f: Job -> nat, jobs: seq<Job>)
    requires forall k :: 0 <= k < |jobs| ==> f(jobs[k]) == 0
    ensures Sum(f, jobs) == 0
  {
    if jobs == [] {
    } else {
      NoWeight(f, jobs[..|jobs| - 1]);
    }
  }

  /** Other processes add no scheduled job and activate none. */
  lemma OthersKeepCounts(before: seq<Job>, after: seq<Job>)
    requires OthersOnly(before, after)
    ensures ActiveScheduled(after) <= ActiveScheduled(before)
    ensures Sum(ScheduledRow, after) == Sum(ScheduledRow, before)
  {
    var n := |before|;
    assert after == after[..n] + after[n..];
    SumConcat(ActiveScheduledRow, after[..n], after[n..]);
    SumConcat(ScheduledRow, after[..n], after[n..]);
    NoWeight(ActiveScheduledRow, after[n..]);
    NoWeight(ScheduledRow, after[n..]);
    SumPointwise(ActiveScheduledRow, after[..n], before);
    SumPointwise(ScheduledRow, after[..n], before);
    SumPointwise(ScheduledRow, before, after[..n]);
  }

  /** The three sums count rows: those not finished, those with a source or a target, and both. */
  lemma SumsAreCounts(jobs: seq<Job>)
    ensures Sum(ActiveRow, jobs)
         == |set k | 0 <= k < |jobs| && !jobs[k].status.Success? && !jobs[k].status.Failed?|
    ensures Sum(ScheduledRow, jobs) == |set k | 0 <= k < |jobs| && (jobs[k].source.Some? || jobs[k].target.Some?)|
    ensures ActiveScheduled(jobs)
         == |set k | 0 <= k < |jobs| && !jobs[k].status.Success? && !jobs[k].status.Failed?
                     && (jobs[k].source.Some? || jobs[k].target.Some?)|
  {
    CountedBy(ActiveRow, jobs, set k | 0 <= k < |jobs| && !jobs[k].status.Success? && !jobs[k].status.Failed?);
    CountedBy(ScheduledRow, jobs, set k | 0 <= k < |jobs| && (jobs[k].source.Some? || jobs[k].target.Some?));
    CountedBy(ActiveScheduledRow, jobs, set k | 0 <= k < |jobs| && !jobs[k].status.Success? && !jobs[k].status.Failed?
                                                && (jobs[k].source.Some? || jobs[k].target.Some?));
  }

  lemma {:induction false} CountedBy(f: Job -> nat, jobs: seq<Job>, ids: set<int>)
    requires forall k :: k in ids ==> 0 <= k < |jobs|
    requires forall k :: 0 <= k < |jobs| ==> f(jobs[k]) == if k in ids then 1 else 0
    ensures Sum(f, jobs) == |ids|
  {
    if jobs == [] {
      assert forall k :: k in ids ==> 0 <= k < |jobs|;
      assert ids == {};
    } else {
      var m := |jobs| - 1;
      CountedBy(f, jobs[..m], ids - {m});
    }
  }

  lemma {:induction false} ScheduledIsPartOfActive(jobs: seq<Job>)
    ensures ActiveScheduled(jobs) <= Sum(ActiveRow, jobs)
  {
    if jobs == [] {
    } else {
      ScheduledIsPartOfActive(jobs[..|jobs| - 1]);
    }
  }

  // ----- What the pass adds -----

  predicate IsDiscovery(j: Job, source: SourceId) {
    j.jobType.DiscoverSitemap? && j.source == Some(source) && j.target.None?
  }

  /** Discovery jobs of one source are an interval apart. */
  predicate Apart(jobs: seq<Job>, sources: seq<Source>) {
    forall k, m, i ::
      0 <= k < m < |jobs| && 0 <= i < |sources| && IsDiscovery(jobs[k], i) && IsDiscovery(jobs[m], i) ==>
        jobs[k].createdAt + Interval(sources[i].frequency) <= jobs[m].createdAt
  }

  /** And the source's next due time is an interval after the latest of them, which keeps it so. */
  predicate Spaced(jobs: seq<Job>, sources: seq<Source>) {
    && (forall k, i :: 0 <= k < |jobs| && 0 <= i < |sources| && IsDiscovery(jobs[k], i) ==>
          jobs[k].createdAt + Interval(sources[i].frequency) <= sources[i].nextScheduledAt)
    && Apart(jobs, sources)
  }

  /** In days: the discoveries of a DAILY source are one apart, of a MONTHLY one thirty, else seven. */
  lemma ApartInDays(jobs: seq<Job>, sources: seq<Source>, i: SourceId)
    requires Apart(jobs, sources) && i < |sources|
    ensures forall k, m :: 0 <= k < m < |jobs| && jobs[k].source == jobs[m].source == Some(i)
                           && jobs[k].target == jobs[m].target == None
                           && jobs[k].jobType == jobs[m].jobType == DiscoverSitemap ==>
              jobs[m].createdAt - jobs[k].createdAt >= 24 * 60 * 60 * SECOND *
                (match sources[i].frequency case "DAILY" => 1 case "MONTHLY" => 30 case _ => 7)
  {
    forall k, m | 0 <= k < m < |jobs| && jobs[k].source == jobs[m].source == Some(i)
                  && jobs[k].target == jobs[m].target == None
                  && jobs[k].jobType == jobs[m].jobType == DiscoverSitemap
      ensures jobs[k].createdAt + Interval(sources[i].frequency) <= jobs[m].createdAt
    {
      assert IsDiscovery(jobs[k], i) && IsDiscovery(jobs[m], i);
    }
  }

  lemma OthersKeepSpacing(before: seq<Job>, after: seq<Job>, sources: seq<Source>)
    requires OthersOnly(before, after) && Spaced(before, sources)
    ensures Spaced(after, sources)
  {
  }

  predicate AddedRow(j: Job, targets: seq<Target>, sources: seq<Source>) {
    || FromApi(j)
    || (j.jobType.CrawlUrl? && j.target.Some? && j.target.value < |targets| && targets[j.target.value].active
        && j.source == Some(targets[j.target.value].source))
    || (j.source.Some? && j.source.value < |sources| && IsDiscovery(j, j.source.value)
        && sources[j.source.value].isActive && sources[j.source.value].frequency != "MANUAL")
  }

  /** Old rows as other processes leave them; new rows for due work or for the API, and no
      discovery of an inactive or MANUAL source among them. */
  predicate Grown(before: seq<Job>, after: seq<Job>, targets: seq<Target>, sources: seq<Source>) {
    && |before| <= |after|
    && OthersOnly(before, after[..|before|])
    && forall k :: |before| <= k < |after| ==> AddedRow(after[k], targets, sources)
  }

  /** Only the due time of a source changes. */
  predicate SameRegistry(a: seq<Source>, b: seq<Source>) {
    |a| == |b| && forall i :: 0 <= i < |a| ==> a[i].isActive == b[i].isActive && a[i].frequency == b[i].frequency
  }

  lemma GrownThenOthers(before: seq<Job>, mid: seq<Job>, after: seq<Job>, targets: seq<Target>, sources: seq<Source>)
    requires Grown(before, mid, targets, sources) && OthersOnly(mid, after)
    ensures Grown(before, after, targets, sources)
  {
    forall k | |before| <= k < |after| ensures AddedRow(after[k], targets, sources) {
      if k < |mid| { assert SameKeys(mid[k], after[k]); }
    }
  }

  lemma GrownThenInserted(before: seq<Job>, mid: seq<Job>, row: Job, targets: seq<Target>, sources: seq<Source>)
    requires Grown(before, mid, targets, sources) && AddedRow(row, targets, sources)
    ensures Grown(before, mid + [row], targets, sources)
  {
    assert (mid + [row])[..|before|] == mid[..|before|];
  }

  /** Advancing a source after its job was created restores the spacing. */
  lemma AdvanceKeepsSpacing(before: seq<Job>, row: Job, after: seq<Job>, sources: seq<Source>, i: SourceId, now: Time)
    requires Spaced(before, sources) && i < |sources| && sources[i].nextScheduledAt <= row.createdAt <= now
    requires row.jobType.DiscoverSitemap? && row.source == Some(i) && row.target.None?
    requires OthersOnly(before + [row], after)
    ensures Spaced(after, sources[i := sources[i].(nextScheduledAt := now + Interval(sources[i].frequency))])
  {
    var mid := before + [row];
    var advanced := sources[i := sources[i].(nextScheduledAt := now + Interval(sources[i].frequency))];
    forall k, j | 0 <= k < |mid| && 0 <= j < |sources| && IsDiscovery(mid[k], j)
      ensures mid[k].createdAt + Interval(advanced[j].frequency) <= advanced[j].nextScheduledAt
    {
      if k < |before| { assert IsDiscovery(before[k], j); }
    }
    forall k, m, j | 0 <= k < m < |mid| && 0 <= j < |sources| && IsDiscovery(mid[k], j) && IsDiscovery(mid[m], j)
      ensures mid[k].createdAt + Interval(advanced[j].frequency) <= mid[m].createdAt
    {
      assert IsDiscovery(before[k], j);
      if m < |before| { assert IsDiscovery(before[m], j); }
    }
    assert Spaced(mid, advanced);
    OthersKeepSpacing(mid, after, advanced);
  }

  /** A discovery job whose source was not advanced breaks the spacing, whatever else happens to it. */
  lemma NotAdvancedBreaksSpacing(before: seq<Job>, row: Job, after: seq<Job>, sources: seq<Source>, i: SourceId)
    requires OthersOnly(before + [row], after) && IsDiscovery(row, i)
    requires i < |sources| && sources[i].nextScheduledAt <= row.createdAt
    ensures !Spaced(after, sources)
    ensures Spaced(before, sources) ==> Apart(after, sources)
  {
    var n, mid := |before|, before + [row];
    assert SameKeys(mid[n], after[n]) && mid[n].createdAt == after[n].createdAt;
    assert IsDiscovery(after[n], i);
    if Spaced(before, sources) {
      CreatedApart(before, row, sources, i);
      OthersKeepApart(mid, after, sources);
    }
  }

  lemma OthersKeepApart(before: seq<Job>, after: seq<Job>, sources: seq<Source>)
    requires OthersOnly(before, after) && Apart(before, sources)
    ensures Apart(after, sources)
  {
  }

  /** A discovery created next is apart from the earlier ones exactly when they are all an interval
      old: what a due time that was advanced guarantees, and one that was not does not. */
  lemma NextIsApartExactlyWhen(jobs: seq<Job>, row: Job, sources: seq<Source>, i: SourceId)
    requires Apart(jobs, sources) && IsDiscovery(row, i) && i < |sources|
    ensures Apart(jobs + [row], sources) <==>
              forall k :: 0 <= k < |jobs| && IsDiscovery(jobs[k], i) ==>
                jobs[k].createdAt + Interval(sources[i].frequency) <= row.createdAt
  {
    var more := jobs + [row];
    assert more[|jobs|] == row;
    if Apart(more, sources) {
      forall k | 0 <= k < |jobs| && IsDiscovery(jobs[k], i)
        ensures jobs[k].createdAt + Interval(sources[i].frequency) <= row.createdAt
      {
        assert IsDiscovery(more[k], i) && IsDiscovery(more[|jobs|], i);
      }
    }
  }

  lemma CreatedApart(before: seq<Job>, row: Job, sources: seq<Source>, i: SourceId)
    requires Spaced(before, sources) && IsDiscovery(row, i)
    requires i < |sources| && sources[i].nextScheduledAt <= row.createdAt
    ensures Apart(before + [row], sources)
  {
    NextIsApartExactlyWhen(before, row, sources, i);
  }

  const DUE_DAILY := Source(true, "DAILY", 0)

  /** The harm a kill between the two commits does: once its job has completed, the source is still
      due and free of active jobs, and the next process creates a second discovery at once. */
  lemma NextProcessComesTooSoon()
    ensures var row := NewJob(DiscoverSitemap, Some(0), None, DEFAULT_PRIORITY, None, 0);
            var jobs := [Completed(row, 1)];
            && Spaced([], [DUE_DAILY]) && OthersOnly([row], jobs) && !Spaced(jobs, [DUE_DAILY])
            && SourceDue(DUE_DAILY, 2) && !HasActiveForSource(jobs, 0, DiscoverSitemap)
            && !Apart(jobs + [NewJob(DiscoverSitemap, Some(0), None, DEFAULT_PRIORITY, None, 2)], [DUE_DAILY])
  {
    var row := NewJob(DiscoverSitemap, Some(0), None, DEFAULT_PRIORITY, None, 0);
    var jobs := [Completed(row, 1)];
    var next := NewJob(DiscoverSitemap, Some(0), None, DEFAULT_PRIORITY, None, 2);
    assert [] + [row] == [row];
    NotAdvancedBreaksSpacing([], row, jobs, [DUE_DAILY], 0);
    assert IsDiscovery(jobs[0], 0);
    NextIsApartExactlyWhen(jobs, next, [DUE_DAILY], 0);
  }

  predicate HasActiveForTarget(jobs: seq<Job>, t: TargetId) {
    exists k :: 0 <= k < |jobs| && jobs[k].target == Some(t) && Active(jobs[k])
  }

  predicate HasActiveForSource(jobs: seq<Job>, i: SourceId, jobType: JobType) {
    exists k :: 0 <= k < |jobs| && jobs[k].source == Some(i) && jobs[k].jobType == jobType && Active(jobs[k])
  }

  /** The check before `create_job` is not undone by what other processes do after it. */
  lemma StaysFree(before: seq<Job>, after: seq<Job>, row: Job)
    requires OthersOnly(before, after) && row.source.Some?
    requires if row.target.Some? then !HasActiveForTarget(before, row.target.value)
             else !HasActiveForSource(before, row.source.value, row.jobType)
    ensures !Violates(after, row)
  {
    forall k | 0 <= k < |after| ensures !Conflicts(after[k], row) {
      if k < |before| { assert SameKeys(before[k], after[k]) && (Active(after[k]) ==> Active(before[k])); }
    }
  }

  lemma StaysFreeForSource(before: seq<Job>, after: seq<Job>, i: SourceId, now: Time)
    requires OthersOnly(before, after) && !HasActiveForSource(before, i, DiscoverSitemap)
    ensures !Violates(after, NewJob(DiscoverSitemap, Some(i), None, DEFAULT_PRIORITY, None, now))
  {
    StaysFree(before, after, NewJob(DiscoverSitemap, Some(i), None, DEFAULT_PRIORITY, None, now));
  }

  lemma CrawlJobKeepsSpacing(jobs: seq<Job>, row: Job, sources: seq<Source>)
    requires Spaced(jobs, sources) && row.jobType.CrawlUrl?
    ensures Spaced(jobs + [row], sources)
  {
  }

  predicate HasDiscovery(jobs: seq<Job>, from: nat, i: SourceId) {
    exists k :: from <= k < |jobs| && IsDiscovery(jobs[k], i)
  }

  /** A source whose due time moved got a discovery job since the table was `start`. */
  predicate AdvancedHaveJobs(start: seq<Job>, jobs: seq<Job>, before: seq<Source>, after: seq<Source>) {
    |before| == |after| && forall i :: 0 <= i < |after| && after[i] != before[i] ==> HasDiscovery(jobs, |start|, i)
  }

  lemma NothingAdvanced(start: seq<Job>, jobs: seq<Job>, sources: seq<Source>)
    ensures AdvancedHaveJobs(start, jobs, sources, sources)
  {
  }

  lemma DiscoveriesStay(start: seq<Job>, mid: seq<Job>, jobs: seq<Job>, before: seq<Source>, after: seq<Source>)
    requires AdvancedHaveJobs(start, mid, before, after) && OthersOnly(mid, jobs)
    ensures AdvancedHaveJobs(start, jobs, before, after)
  {
    forall i | 0 <= i < |after| && after[i] != before[i] ensures HasDiscovery(jobs, |start|, i) {
      var k :| |start| <= k < |mid| && IsDiscovery(mid[k], i);
      assert IsDiscovery(jobs[k], i);
    }
  }

  lemma CreatedDiscoveryStays(start: seq<Job>, mid: seq<Job>, row: Job, jobs: seq<Job>, before: seq<Source>,
                              after: seq<Source>, i: SourceId)
    requires AdvancedHaveJobs(start, mid, before, after) && OthersOnly(mid + [row], jobs)
    requires |start| <= |mid| && IsDiscovery(row, i)
    ensures AdvancedHaveJobs(start, jobs, before, after) && HasDiscovery(jobs, |start|, i)
  {
    assert AdvancedHaveJobs(start, mid + [row], before, after) by {
      forall s | 0 <= s < |after| && after[s] != before[s] ensures HasDiscovery(mid + [row], |start|, s) {
        var k :| |start| <= k < |mid| && IsDiscovery(mid[k], s);
        assert IsDiscovery((mid + [row])[k], s);
      }
    }
    DiscoveriesStay(start, mid + [row], jobs, before, after);
    assert IsDiscovery((mid + [row])[|mid|], i) && IsDiscovery(jobs[|mid|], i);
  }

  lemma SameRegistryKeepsGrown(before: seq<Job>, after: seq<Job>, targets: seq<Target>, a: seq<Source>, b: seq<Source>)
    requires Grown(before, after, targets, a) && SameRegistry(a, b)
    ensures Grown(before, after, targets, b)
  {
  }

  /** What one pass looks at: `LIMIT 100`. */
  function DueBatch(targets: seq<Target>, now: Time): seq<TargetId> {
    var due := DueTargets(targets, now, |targets|);
    if |due| > DUE_TARGET_LIMIT then due[..DUE_TARGET_LIMIT] else due
  }

  /** All due targets if there are at most a hundred, otherwise a hundred of them that come before
      every other by priority, due time and id; in that order. */
  lemma DueBatchIsTheFront(targets: seq<Target>, now: Time)
    ensures var r := DueBatch(targets, now);
            && |r| <= 100
            && (forall i :: 0 <= i < |r| ==>
                  r[i] < |targets| && targets[r[i]].active && targets[r[i]].nextCrawlAt <= now)
            && (forall i, k :: 0 <= i < k < |r| ==>
                  var x, y := targets[r[i]], targets[r[k]];
                  x.priority > y.priority || (x.priority == y.priority &&
                  (x.nextCrawlAt < y.nextCrawlAt || (x.nextCrawlAt == y.nextCrawlAt && r[i] < r[k]))))
            && (forall t :: 0 <= t < |targets| && targets[t].active && targets[t].nextCrawlAt <= now && t !in r ==>
                  |r| == 100 && forall i :: 0 <= i < |r| ==>
                    var x, y := targets[r[i]], targets[t];
                    x.priority > y.priority || (x.priority == y.priority &&
                    (x.nextCrawlAt < y.nextCrawlAt || (x.nextCrawlAt == y.nextCrawlAt && r[i] < t))))
  {
    var due, r := DueTargets(targets, now, |targets|), DueBatch(targets, now);
    assert forall i :: 0 <= i < |r| ==> r[i] == due[i] && due[i] in due;
    forall t, i | 0 <= t < |targets| && TargetDue(targets[t], now) && t !in r && 0 <= i < |r|
      ensures TargetFirst(targets, r[i], t)
    {
      assert t in due;
      var k :| 0 <= k < |due| && due[k] == t;
      assert k < |r| ==> r[k] == t;
    }
  }

  /** At one of the moments the target, respectively the source, had an active job. */
  predicate TargetCovered(moments: seq<seq<Job>>, from: nat, t: TargetId) {
    exists m :: from <= m < |moments| && HasActiveForTarget(moments[m], t)
  }

  predicate SourceCovered(moments: seq<seq<Job>>, from: nat, i: SourceId) {
    exists m :: from <= m < |moments| && HasActiveForSource(moments[m], i, DiscoverSitemap)
  }

  predicate AllTargetsCovered(moments: seq<seq<Job>>, from: nat, due: seq<TargetId>) {
    forall k :: 0 <= k < |due| ==> TargetCovered(moments, from, due[k])
  }

  predicate AllSourcesCovered(moments: seq<seq<Job>>, from: nat, due: seq<SourceId>) {
    forall k :: 0 <= k < |due| ==> SourceCovered(moments, from, due[k])
  }

  lemma CoverStays(moments: seq<seq<Job>>, later: seq<seq<Job>>, from: nat, targets: seq<TargetId>,
                   sources: seq<SourceId>)
    requires moments <= later
    ensures AllTargetsCovered(moments, from, targets) ==> AllTargetsCovered(later, from, targets)
    ensures AllSourcesCovered(moments, from, sources) ==> AllSourcesCovered(later, from, sources)
  {
    if AllTargetsCovered(moments, from, targets) {
      forall k | 0 <= k < |targets| ensures TargetCovered(later, from, targets[k]) {
        assert TargetCovered(moments, from, targets[k]);
        var m :| from <= m < |moments| && HasActiveForTarget(moments[m], targets[k]);
        assert HasActiveForTarget(later[m], targets[k]);
      }
    }
    if AllSourcesCovered(moments, from, sources) {
      forall k | 0 <= k < |sources| ensures SourceCovered(later, from, sources[k]) {
        assert SourceCovered(moments, from, sources[k]);
        var m :| from <= m < |moments| && HasActiveForSource(moments[m], sources[k], DiscoverSitemap);
        assert HasActiveForSource(later[m], sources[k], DiscoverSitemap);
      }
    }
  }

  lemma NothingToCover(moments: seq<seq<Job>>, from: nat, targets: seq<TargetId>, sources: seq<SourceId>)
    ensures AllTargetsCovered(moments, from, targets[..0]) && AllSourcesCovered(moments, from, sources[..0])
  {
  }

  /** The next due target is covered by the table of the last moment. */
  lemma TargetCoverGrows(earlier: seq<seq<Job>>, moments: seq<seq<Job>>, from: nat, due: seq<TargetId>, i: nat)
    requires earlier <= moments && |earlier| < |moments| && from <= |earlier| && i < |due|
    requires AllTargetsCovered(earlier, from, due[..i]) && HasActiveForTarget(moments[|moments| - 1], due[i])
    ensures AllTargetsCovered(moments, from, due[..i + 1])
  {
    CoverStays(earlier, moments, from, due[..i], []);
    forall k | 0 <= k < i + 1 ensures TargetCovered(moments, from, due[k]) {
      if k < i { assert due[..i][k] == due[k]; }
    }
  }

  lemma SourceCoverGrows(earlier: seq<seq<Job>>, moments: seq<seq<Job>>, from: nat, due: seq<SourceId>, i: nat)
    requires earlier <= moments && from <= |earlier| && i < |due|
    requires AllSourcesCovered(earlier, from, due[..i]) && SourceCovered(moments, |earlier|, due[i])
    ensures AllSourcesCovered(moments, from, due[..i + 1])
  {
    CoverStays(earlier, moments, from, [], due[..i]);
    forall k | 0 <= k < i + 1 ensures SourceCovered(moments, from, due[k]) {
      if k < i { assert due[..i][k] == due[k]; }
    }
  }

  /** What was due earlier is still due, so covering the later list covers the earlier one. */
  lemma CoverOfEarlierDue(moments: seq<seq<Job>>, from: nat, sources: seq<Source>, asOf: Time, now: Time)
    requires asOf <= now
    ensures AllSourcesCovered(moments, from, DueSources(sources, now)) ==>
              AllSourcesCovered(moments, from, DueSources(sources, asOf))
  {
    var early, late := DueSources(sources, asOf), DueSources(sources, now);
    if AllSourcesCovered(moments, from, late) {
      forall k | 0 <= k < |early| ensures SourceCovered(moments, from, early[k]) {
        assert early[k] in early && early[k] in late;
        var m :| 0 <= m < |late| && late[m] == early[k];
        assert SourceCovered(moments, from, late[m]);
      }
    }
  }

  /** A due target of the batch or a due source has no PENDING, RUNNING or RETRY job. */
  predicate WorkWaits(jobs: seq<Job>, batch: seq<TargetId>, sources: seq<Source>, now: Time) {
    || (exists t :: t in batch &&
          forall k :: 0 <= k < |jobs| && jobs[k].target == Some(t) ==>
            jobs[k].status.Success? || jobs[k].status.Failed?)
    || (exists i :: 0 <= i < |sources| && sources[i].isActive && sources[i].frequency != "MANUAL"
                    && sources[i].nextScheduledAt <= now &&
          forall k :: 0 <= k < |jobs| && jobs[k].source == Some(i) && jobs[k].jobType == DiscoverSitemap ==>
            jobs[k].status.Success? || jobs[k].status.Failed?)
  }

  class SchedulerProcess {
    const db: CrawlJobs
    const maxActive: int
    const maxPerRun: int
    const targets: seq<Target>
    var sources: seq<Source>

    /** What the other processes do at each point of the pass, and where it is killed, if at all. */
    const others: nat -> seq<Event>
    const stopAt: Option<nat>
    var point: nat

    /** Every table the pass itself or a preemption leaves behind, in order. */
    ghost var moments: seq<seq<Job>>

    constructor (db: CrawlJobs, maxActive: int, maxPerRun: int, targets: seq<Target>, sources: seq<Source>,
                 others: nat -> seq<Event>, stopAt: Option<nat>)
      ensures this.db == db && this.maxActive == maxActive && this.maxPerRun == maxPerRun
      ensures this.targets == targets && this.sources == sources && this.others == others && this.stopAt == stopAt
    {
      this.db, this.maxActive, this.maxPerRun, this.targets, this.sources := db, maxActive, maxPerRun, targets, sources;
      this.others, this.stopAt, point, moments := others, stopAt, 0, [];
    }

    /** One scheduler: the others never call `create_job`. */
    ghost predicate Valid()
      reads this, db
    {
      Inv(db.View()) && forall p :: NoCreates(others(p))
    }

    /** So far: `created` rows were added since the table was `start`, and no table since moment
        `seen` held more active scheduled jobs than those account for. */
    ghost predicate Progress(start: seq<Job>, seen: nat, created: nat)
      reads this, db
    {
      && Valid() && Grown(start, db.jobs, targets, sources)
      && ActiveScheduled(db.jobs) <= ActiveScheduled(start) + created
      && Sum(ScheduledRow, db.jobs) == Sum(ScheduledRow, start) + created
      && seen <= |moments|
      && (forall i :: seen <= i < |moments| ==> ActiveScheduled(moments[i]) <= ActiveScheduled(start) + created)
      && ((forall p :: others(p) == []) ==> forall k :: |start| <= k < |db.jobs| ==> Active(db.jobs[k]))
      && ((forall p :: others(p) == []) && created == 0 ==>
            db.jobs == start && forall i :: seen <= i < |moments| ==> moments[i] == start)
    }

    method Pause(ghost start: seq<Job>, ghost seen: nat, ghost created: nat) returns (stopped: bool)
      requires Progress(start, seen, created)
      modifies db, this`point, this`moments
      ensures Progress(start, seen, created)
      ensures OthersOnly(old(db.jobs), db.jobs) && old(db.now) <= db.now && |start| <= |db.jobs|
      ensures moments == old(moments) + [db.jobs]
    {
      hide Inv, OthersOnly, Grown, NoCreates;
      ghost var after := Drive(db.View(), others(point));
      DriveKeepsInv(db.View(), others(point));
      DriveIsOthersOnly(db.View(), others(point));
      OthersKeepCounts(db.jobs, after.jobs);
      GrownThenOthers(start, db.jobs, after.jobs, targets, sources);
      db.Interfere(others(point));
      stopped := stopAt == Some(point);
      point := point + 1;
      moments := moments + [db.jobs];
    }

    /** `create_job` of a row nothing active conflicts with. */
    method CreateFresh(jobType: JobType, source: SourceId, target: Option<TargetId>,
                       ghost start: seq<Job>, ghost seen: nat, ghost created: nat)
      requires Progress(start, seen, created)
      requires var row := NewJob(jobType, Some(source), target, DEFAULT_PRIORITY, None, db.now);
               !Violates(db.jobs, row) && AddedRow(row, targets, sources)
      modifies db, this`moments
      ensures Progress(start, seen, created + 1)
      ensures db.now == old(db.now)
      ensures db.jobs == old(db.jobs) + [NewJob(jobType, Some(source), target, DEFAULT_PRIORITY, None, db.now)]
      ensures moments == old(moments) + [db.jobs]
      ensures var j := db.jobs[|old(db.jobs)|];
              && j.jobType == jobType && j.source == Some(source) && j.target == target && j.priority == 100
              && j.status == Pending && j.createdAt == j.scheduledAt == db.now
    {
      hide Inv, OthersOnly, Grown, NoCreates, Violates, AddedRow, Drive, Sum;
      ghost var row := NewJob(jobType, Some(source), target, DEFAULT_PRIORITY, None, db.now);
      StepKeepsInv(db.View(), Create(jobType, Some(source), target, DEFAULT_PRIORITY, None));
      SumAppend(ActiveScheduledRow, db.jobs, row);
      SumAppend(ScheduledRow, db.jobs, row);
      GrownThenInserted(start, db.jobs, row, targets, sources);
      var _ := db.CreateJob(jobType, Some(source), target, DEFAULT_PRIORITY, None, others(point));
      moments := moments + [db.jobs];
    }

    method ScheduleDueCrawlTargets(budget: int, ghost start: seq<Job>, ghost seen: nat)
      returns (created: nat, skipped: nat, stopped: bool)
      requires Progress(start, seen, 0) && seen <= |moments|
      modifies db, this`point, this`moments
      ensures Progress(start, seen, created) && old(db.now) <= db.now && old(moments) <= moments
      ensures created <= if budget > 0 then budget else 0
      ensures Spaced(old(db.jobs), sources) ==> Spaced(db.jobs, sources)
      ensures !stopped ==> created >= budget || AllTargetsCovered(moments, seen, DueBatch(targets, old(db.now)))
    {
      hide Inv, OthersOnly, Progress, Spaced, Apart, AllTargetsCovered, Violates;
      var due := DueBatch(targets, db.now);
      created, skipped, stopped := 0, 0, false;
      NothingToCover(moments, seen, due, []);
      for i := 0 to |due|
        invariant Progress(start, seen, created) && old(db.now) <= db.now && old(moments) <= moments
        invariant created <= if budget > 0 then budget else 0
        invariant Spaced(old(db.jobs), sources) ==> Spaced(db.jobs, sources)
        invariant AllTargetsCovered(moments, seen, due[..i])
      {
        if created >= budget { break; }
        ghost var before, earlier := db.jobs, moments;
        stopped := Pause(start, seen, created);
        if Spaced(before, sources) { OthersKeepSpacing(before, db.jobs, sources); }
        if stopped { return; }
        var t := due[i];
        assert t in DueTargets(targets, old(db.now), |targets|);
        if HasActiveForTarget(db.jobs, t) {
          TargetCoverGrows(earlier, moments, seen, due, i);
          skipped := skipped + 1;
          continue;
        }
        before := db.jobs;
        stopped := Pause(start, seen, created);
        if Spaced(before, sources) { OthersKeepSpacing(before, db.jobs, sources); }
        if stopped { return; }
        ghost var row := NewJob(CrawlUrl, Some(targets[t].source), Some(t), DEFAULT_PRIORITY, None, db.now);
        StaysFree(before, db.jobs, row);
        if Spaced(db.jobs, sources) { CrawlJobKeepsSpacing(db.jobs, row, sources); }
        CreateFresh(CrawlUrl, targets[t].source, Some(t), start, seen, created);
        assert db.jobs[|db.jobs| - 1] == row;
        TargetCoverGrows(earlier, moments, seen, due, i);
        created := created + 1;
      }
      assert due[..|due|] == due;
    }

    predicate IsEligible(i: SourceId): (r: bool)
      reads this, db
      requires i < |sources|
      ensures r <==>
                && sources[i].isActive && sources[i].frequency != "MANUAL"
                && forall k :: 0 <= k < |db.jobs| && db.jobs[k].source == Some(i)
                               && db.jobs[k].jobType == DiscoverSitemap ==>
                     db.jobs[k].status.Success? || db.jobs[k].status.Failed?
    {
      Eligible(db.jobs, sources[i], i)
    }

    method AdvanceSourceSchedule(i: SourceId, ghost start: seq<Job>, ghost seen: nat, ghost created: nat)
      requires i < |sources| && Progress(start, seen, created)
      modifies this`sources
      ensures var s := old(sources)[i];
              sources == old(sources)[i := s.(nextScheduledAt := db.now + Interval(s.frequency))]
      ensures sources[i].nextScheduledAt - db.now == 24 * 60 * 60 * SECOND *
                (match old(sources)[i].frequency case "DAILY" => 1 case "MONTHLY" => 30 case _ => 7)
      ensures Progress(start, seen, created)
    {
      SameRegistryKeepsGrown(start, db.jobs, targets, sources,
                             sources[i := sources[i].(nextScheduledAt := db.now + Interval(sources[i].frequency))]);
      sources := sources[i := sources[i].(nextScheduledAt := db.now + Interval(sources[i].frequency))];
    }

    /** Creates the discovery job of a due source, then advances the source; killed in between,
        the source stays as it was, due beside its job, and the spacing is broken. */
    method CreateDiscovery(src: SourceId, ghost registry: seq<Source>, ghost start: seq<Job>, ghost seen: nat,
                           ghost count: nat) returns (stopped: bool)
      requires Progress(start, seen, count) && |start| <= |db.jobs| && src < |sources|
      requires SourceDue(sources[src], db.now) && AdvancedHaveJobs(start, db.jobs, registry, sources)
      requires !Violates(db.jobs, NewJob(DiscoverSitemap, Some(src), None, DEFAULT_PRIORITY, None, db.now))
      modifies db, this
      ensures Progress(start, seen, count + 1) && old(db.now) <= db.now
      ensures SameRegistry(old(sources), sources) && AdvancedHaveJobs(start, db.jobs, registry, sources)
      ensures forall j :: 0 <= j < |sources| && j != src ==> sources[j] == old(sources)[j]
      ensures !stopped && Spaced(old(db.jobs), old(sources)) ==> Spaced(db.jobs, sources)
      ensures stopped ==> sources == old(sources) && !Spaced(db.jobs, sources)
      ensures stopped && Spaced(old(db.jobs), old(sources)) ==> Apart(db.jobs, sources)
      ensures old(moments) <= moments && |old(moments)| < |moments|
      ensures HasActiveForSource(moments[|old(moments)|], src, DiscoverSitemap)
    {
      hide Inv, OthersOnly, Progress, Spaced, Apart;
      ghost var before := db.jobs;
      ghost var row := NewJob(DiscoverSitemap, Some(src), None, DEFAULT_PRIORITY, None, db.now);
      CreateFresh(DiscoverSitemap, src, None, start, seen, count);
      assert db.jobs[|db.jobs| - 1] == row;
      stopped := Pause(start, seen, count + 1);
      CreatedDiscoveryStays(start, before, row, db.jobs, registry, sources, src);
      if stopped {
        NotAdvancedBreaksSpacing(before, row, db.jobs, sources, src);
        return;
      }
      if Spaced(before, sources) { AdvanceKeepsSpacing(before, row, db.jobs, sources, src, db.now); }
      AdvanceSourceSchedule(src, start, seen, count + 1);
    }

    /** A pause between two statements of the discovery loop. */
    method PauseAt(ghost start: seq<Job>, ghost seen: nat, ghost created: nat, ghost registry: seq<Source>)
      returns (stopped: bool)
      requires Progress(start, seen, created) && AdvancedHaveJobs(start, db.jobs, registry, sources)
      modifies db, this`point, this`moments
      ensures Progress(start, seen, created) && AdvancedHaveJobs(start, db.jobs, registry, sources)
      ensures OthersOnly(old(db.jobs), db.jobs) && old(db.now) <= db.now && |start| <= |db.jobs|
      ensures moments == old(moments) + [db.jobs]
      ensures Spaced(old(db.jobs), sources) ==> Spaced(db.jobs, sources)
    {
      hide Inv, OthersOnly, Progress, Spaced, Apart;
      ghost var before := db.jobs;
      stopped := Pause(start, seen, created);
      DiscoveriesStay(start, before, db.jobs, registry, sources);
      if Spaced(before, sources) { OthersKeepSpacing(before, db.jobs, sources); }
    }

    /** An ineligible due source has an active job; an eligible one has none. */
    lemma EligibilityOfDue(i: SourceId)
      requires i < |sources| && SourceDue(sources[i], db.now)
      ensures IsEligible(i) <==> !HasActiveForSource(db.jobs, i, DiscoverSitemap)
    {
    }

    /** One due source: skipped for its active job, or given one. */
    method DiscoverNext(src: SourceId, ghost registry: seq<Source>, ghost start: seq<Job>, ghost seen: nat,
                        ghost count: nat) returns (made: bool, stopped: bool)
      requires Progress(start, seen, count) && AdvancedHaveJobs(start, db.jobs, registry, sources)
      requires src < |sources| && SourceDue(sources[src], db.now)
      modifies db, this
      ensures Progress(start, seen, count + if made then 1 else 0) && old(db.now) <= db.now && old(moments) <= moments
      ensures SameRegistry(old(sources), sources) && AdvancedHaveJobs(start, db.jobs, registry, sources)
      ensures forall j :: 0 <= j < |sources| && j != src ==> sources[j] == old(sources)[j]
      ensures !(made && stopped) && Spaced(old(db.jobs), old(sources)) ==> Spaced(db.jobs, sources)
      ensures made && stopped ==> !Spaced(db.jobs, sources)
      ensures made && stopped && Spaced(old(db.jobs), old(sources)) ==> Apart(db.jobs, sources)
      ensures stopped ==> sources == old(sources)
      ensures !stopped ==> SourceCovered(moments, |old(moments)|, src)
    {
      hide Inv, OthersOnly, Progress, Spaced, Apart, AdvancedHaveJobs, Violates, HasActiveForSource, IsEligible;
      made := false;
      stopped := PauseAt(start, seen, count, registry);
      if stopped { return; }
      EligibilityOfDue(src);
      if !IsEligible(src) {
        assert HasActiveForSource(moments[|old(moments)|], src, DiscoverSitemap);
        return;
      }
      ghost var before := db.jobs;
      stopped := PauseAt(start, seen, count, registry);
      if stopped { return; }
      StaysFreeForSource(before, db.jobs, src, db.now);
      made := true;
      stopped := CreateDiscovery(src, registry, start, seen, count);
    }

    /** `torn` is a kill between the two commits of one discovery. */
    method ScheduleDueDiscoveries(budget: int, ghost start: seq<Job>, ghost seen: nat, ghost already: nat)
      returns (created: nat, skipped: nat, stopped: bool, torn: bool)
      requires Progress(start, seen, already) && seen <= |moments|
      modifies db, this
      ensures Progress(start, seen, already + created) && old(db.now) <= db.now && old(moments) <= moments
      ensures SameRegistry(old(sources), sources)
      ensures created <= if budget > 0 then budget else 0
      ensures torn ==> stopped
      ensures Spaced(old(db.jobs), old(sources)) ==> (Spaced(db.jobs, sources) <==> !torn)
      ensures torn && Spaced(old(db.jobs), old(sources)) ==> Apart(db.jobs, sources)
      ensures AdvancedHaveJobs(start, db.jobs, old(sources), sources)
      ensures !stopped ==> created >= budget || AllSourcesCovered(moments, seen, DueSources(old(sources), old(db.now)))
    {
      hide Inv, OthersOnly, Progress, Spaced, Apart, AllSourcesCovered, AdvancedHaveJobs, SourceCovered;
      var due := DueSources(sources, db.now);
      assert forall j :: 0 <= j < |due| ==> due[j] in due;
      ghost var fetched := db.now;
      created, skipped, stopped, torn := 0, 0, false, false;
      NothingToCover(moments, seen, [], due);
      NothingAdvanced(start, db.jobs, sources);
      for i := 0 to |due|
        invariant Progress(start, seen, already + created) && fetched <= db.now && old(moments) <= moments
        invariant SameRegistry(old(sources), sources)
        invariant created <= if budget > 0 then budget else 0
        invariant Spaced(old(db.jobs), old(sources)) ==> Spaced(db.jobs, sources)
        invariant forall j :: i <= j < |due| ==> due[j] < |sources| && sources[due[j]] == old(sources)[due[j]]
        invariant AdvancedHaveJobs(start, db.jobs, old(sources), sources)
        invariant AllSourcesCovered(moments, seen, due[..i])
      {
        if created >= budget { break; }
        ghost var earlier := moments;
        assert due[i] in due;
        var made;
        made, stopped := DiscoverNext(due[i], old(sources), start, seen, already + created);
        if made { created := created + 1; }
        if stopped {
          torn := made;
          return;
        }
        SourceCoverGrows(earlier, moments, seen, due, i);
      }
      assert due[..|due|] == due;
    }

    lemma StartOfPass()
      requires Valid()
      ensures Progress(db.jobs, |moments|, 0) && SameRegistry(sources, sources)
      ensures AdvancedHaveJobs(db.jobs, db.jobs, sources, sources)
    {
      assert db.jobs[..|db.jobs|] == db.jobs;
    }

    /** One pass, killed between any two of its statements or not. At no moment are there more active
        jobs beyond the API's than MAX_ACTIVE_JOBS, if the pass started within it; at most
        MAX_JOBS_PER_SCHEDULER_RUN are added; a due source stays due or got its discovery job; and
        the discoveries of each source stay an interval apart exactly unless the pass was killed
        between the two commits of one. `queried` is when the due targets were looked up. */
    method RunOnce() returns (stopped: bool, torn: bool, ghost queried: Time)
      requires Valid()
      modifies db, this
      ensures Valid() && old(db.now) <= queried <= db.now && old(moments) <= moments
      ensures forall i :: |old(moments)| <= i < |moments| ==>
                ActiveScheduled(moments[i]) <= maxActive || ActiveScheduled(moments[i]) <= ActiveScheduled(old(db.jobs))
      ensures ActiveScheduled(db.jobs) <= maxActive || ActiveScheduled(db.jobs) <= ActiveScheduled(old(db.jobs))
      ensures var added := Sum(ScheduledRow, db.jobs) - Sum(ScheduledRow, old(db.jobs));
              0 <= added && (added <= maxPerRun || added == 0)
      ensures Sum(ActiveRow, old(db.jobs)) >= maxActive ==> db.View() == old(db.View()) && sources == old(sources)
      ensures Grown(old(db.jobs), db.jobs, targets, sources) && SameRegistry(old(sources), sources)
      ensures forall i :: 0 <= i < |sources| && SourceDue(old(sources)[i], old(db.now)) ==>
                SourceDue(sources[i], db.now) || HasDiscovery(db.jobs, |old(db.jobs)|, i)
      ensures (forall p :: others(p) == []) ==> forall k :: |old(db.jobs)| <= k < |db.jobs| ==> Active(db.jobs[k])
      ensures torn ==> stopped
      ensures Spaced(old(db.jobs), old(sources)) ==> (Spaced(db.jobs, sources) <==> !torn)
      ensures torn && Spaced(old(db.jobs), old(sources)) ==> Apart(db.jobs, sources)
      ensures var added := Sum(ScheduledRow, db.jobs) - Sum(ScheduledRow, old(db.jobs));
              !stopped && added < maxPerRun && Sum(ActiveRow, old(db.jobs)) + added < maxActive ==>
                && AllTargetsCovered(moments, |old(moments)|, DueBatch(targets, queried))
                && AllSourcesCovered(moments, |old(moments)|, DueSources(old(sources), old(db.now)))
      ensures !stopped && (forall p :: others(p) == []) && maxPerRun >= 1 && Sum(ActiveRow, old(db.jobs)) < maxActive
              && WorkWaits(old(db.jobs), DueBatch(targets, queried), old(sources), old(db.now)) ==>
                Sum(ScheduledRow, db.jobs) >= Sum(ScheduledRow, old(db.jobs)) + 1
    {
      hide Inv, OthersOnly, Grown, Spaced, Apart, AllTargetsCovered, AllSourcesCovered, AdvancedHaveJobs, SourceDue;
      hide Progress;
      hide HasDiscovery, SameRegistry, DueBatch, DueSources, Sum, Drive, WorkWaits;
      StartOfPass();
      ghost var start, seen, begun := db.jobs, |moments|, db.now;
      var active := Sum(ActiveRow, db.jobs);
      stopped, torn, queried := false, false, db.now;
      if active >= maxActive {
        ProgressBounds(start, seen, 0, active);
        DueStaysDue(start, sources, begun);
        return;
      }
      var budget := Budget(maxActive, maxPerRun, active);
      var crawlCreated, discoveryCreated, skipped := 0, 0, 0;
      ghost var registry := sources;
      stopped := PauseAt(start, seen, 0, sources);
      queried := db.now;
      if !stopped {
        crawlCreated, skipped, stopped := ScheduleDueCrawlTargets(budget, start, seen);
        NothingAdvanced(start, db.jobs, sources);
      }
      if !stopped {
        stopped := PauseAt(start, seen, crawlCreated, sources);
        CoverStays(moments[..|moments| - 1], moments, seen, DueBatch(targets, queried), []);
      }
      if !stopped {
        ghost var earlier, between := moments, db.now;
        discoveryCreated, skipped, stopped, torn :=
          ScheduleDueDiscoveries(budget - crawlCreated, start, seen, crawlCreated);
        CoverOfEarlierDue(moments, seen, registry, begun, between);
        CoverStays(earlier, moments, seen, DueBatch(targets, queried), []);
      }
      ProgressBounds(start, seen, crawlCreated + discoveryCreated, active);
      DueStaysDue(start, registry, begun);
      IdleMeansCovered(start, seen, crawlCreated + discoveryCreated, registry, begun, queried);
    }

    /** A pass that nobody interfered with and that added nothing found active jobs for all that was due. */
    lemma IdleMeansCovered(start: seq<Job>, seen: nat, created: nat, registry: seq<Source>, begun: Time, queried: Time)
      requires Progress(start, seen, created)
      ensures (forall p :: others(p) == []) && created == 0
              && AllTargetsCovered(moments, seen, DueBatch(targets, queried))
              && AllSourcesCovered(moments, seen, DueSources(registry, begun)) ==>
                !WorkWaits(start, DueBatch(targets, queried), registry, begun)
    {
      hide Inv, Grown, NoCreates, Sum, DueBatch;
      if (forall p :: others(p) == []) && created == 0
         && AllTargetsCovered(moments, seen, DueBatch(targets, queried))
         && AllSourcesCovered(moments, seen, DueSources(registry, begun)) {
        var batch, due := DueBatch(targets, queried), DueSources(registry, begun);
        forall t | t in batch ensures HasActiveForTarget(start, t) {
          var i :| 0 <= i < |batch| && batch[i] == t;
          assert TargetCovered(moments, seen, batch[i]);
        }
        forall s | 0 <= s < |registry| && SourceDue(registry[s], begun)
          ensures HasActiveForSource(start, s, DiscoverSitemap)
        {
          assert s in due;
          var i :| 0 <= i < |due| && due[i] == s;
          assert SourceCovered(moments, seen, due[i]);
        }
      }
    }

    /** What the progress of a pass means for its bounds. */
    lemma ProgressBounds(start: seq<Job>, seen: nat, created: nat, active: int)
      requires Progress(start, seen, created) && active == Sum(ActiveRow, start)
      requires created > 0 ==> created <= maxPerRun && active + created <= maxActive
      ensures Valid() && Grown(start, db.jobs, targets, sources) && seen <= |moments|
      ensures forall i :: seen <= i < |moments| ==>
                ActiveScheduled(moments[i]) <= maxActive || ActiveScheduled(moments[i]) <= ActiveScheduled(start)
      ensures ActiveScheduled(db.jobs) <= maxActive || ActiveScheduled(db.jobs) <= ActiveScheduled(start)
      ensures Sum(ScheduledRow, db.jobs) == Sum(ScheduledRow, start) + created
      ensures created <= maxPerRun || created == 0
      ensures (forall p :: others(p) == []) ==> forall k :: |start| <= k < |db.jobs| ==> Active(db.jobs[k])
    {
      hide Grown, Inv, NoCreates;
      ScheduledIsPartOfActive(start);
    }

    lemma DueStaysDue(start: seq<Job>, registry: seq<Source>, begun: Time)
      requires AdvancedHaveJobs(start, db.jobs, registry, sources) && begun <= db.now
      ensures forall i :: 0 <= i < |sources| && SourceDue(registry[i], begun) ==>
                SourceDue(sources[i], db.now) || HasDiscovery(db.jobs, |start|, i)
    {
      forall i | 0 <= i < |sources| && SourceDue(registry[i], begun)
        ensures SourceDue(sources[i], db.now) || HasDiscovery(db.jobs, |start|, i)
      {
        NoDueSourceLost(start, db.jobs, registry, sources, i, begun, db.now);
      }
    }

    /** The sleep between two passes, which a kill may end. */
    method Rest() returns (stopped: bool)
      requires Valid()
      modifies db, this`point, this`moments
      ensures Valid() && moments == old(moments) + [db.jobs]
      ensures ActiveScheduled(db.jobs) <= ActiveScheduled(old(db.jobs))
      ensures Sum(ScheduledRow, db.jobs) == Sum(ScheduledRow, old(db.jobs))
      ensures Spaced(old(db.jobs), sources) ==> Spaced(db.jobs, sources)
    {
      hide Inv, OthersOnly, NoCreates, Spaced, Apart, Sum;
      var es := others(point);
      LoadBetweenPasses(db.View(), es, sources);
      DriveIsOthersOnly(db.View(), es);
      OthersKeepCounts(db.jobs, Drive(db.View(), es).jobs);
      db.Interfere(es);
      stopped := stopAt == Some(point);
      point := point + 1;
      moments := moments + [db.jobs];
    }

    /** The scheduler process: any number of passes, killed somewhere or not. However long it runs, at
        no moment are there more active jobs beyond the API's than MAX_ACTIVE_JOBS, if it started
        within it, and only a kill between the two commits of a discovery ends the spacing. */
    method Loop(passes: nat) returns (stopped: bool, torn: bool)
      requires Valid()
      modifies db, this
      ensures Valid() && old(moments) <= moments
      ensures forall i :: |old(moments)| <= i < |moments| ==>
                ActiveScheduled(moments[i]) <= maxActive || ActiveScheduled(moments[i]) <= ActiveScheduled(old(db.jobs))
      ensures ActiveScheduled(db.jobs) <= maxActive || ActiveScheduled(db.jobs) <= ActiveScheduled(old(db.jobs))
      ensures var added := Sum(ScheduledRow, db.jobs) - Sum(ScheduledRow, old(db.jobs));
              0 <= added && (added <= passes * maxPerRun || added == 0)
      ensures torn ==> stopped
      ensures Spaced(old(db.jobs), old(sources)) ==> (Spaced(db.jobs, sources) <==> !torn)
      ensures torn && Spaced(old(db.jobs), old(sources)) ==> Apart(db.jobs, sources)
    {
      hide Inv, OthersOnly, Grown, Spaced, Apart, AllTargetsCovered, AllSourcesCovered, AdvancedHaveJobs, Sum;
      hide SameRegistry, SourceDue;
      ghost var load, cap := ActiveScheduled(db.jobs), if maxPerRun > 0 then maxPerRun else 0;
      stopped, torn := false, false;
      for k := 0 to passes
        invariant !stopped && !torn
        invariant Valid() && old(moments) <= moments
        invariant forall i :: |old(moments)| <= i < |moments| ==>
                    ActiveScheduled(moments[i]) <= maxActive || ActiveScheduled(moments[i]) <= load
        invariant ActiveScheduled(db.jobs) <= maxActive || ActiveScheduled(db.jobs) <= load
        invariant 0 <= Sum(ScheduledRow, db.jobs) - Sum(ScheduledRow, old(db.jobs)) <= k * cap
        invariant Spaced(old(db.jobs), old(sources)) ==> Spaced(db.jobs, sources)
      {
        OneMore(k, passes, cap);
        ghost var queried;
        stopped, torn, queried := RunOnce();
        if stopped { return; }
        stopped := Rest();
        if stopped { return; }
      }
    }
  }

  lemma OneMore(k: nat, n: nat, cap: int)
    requires k < n && cap >= 0
    ensures k * cap + cap == (k + 1) * cap <= n * cap
  {
  }

  function Budget(maxActive: int, maxPerRun: int, active: int): int {
    if maxPerRun < maxActive - active then maxPerRun else maxActive - active
  }

  // ----- Eligibility as planned -----

  /** What `is_source_eligible_for_scheduling` checks. */
  predicate Eligible(jobs: seq<Job>, s: Source, i: SourceId) {
    s.isActive && s.frequency != "MANUAL" && !HasActiveForSource(jobs, i, DiscoverSitemap)
  }

  /** What the plan has it check: the due time again, and domain discoveries too. */
  predicate EligibleAsPlanned(jobs: seq<Job>, s: Source, i: SourceId, now: Time) {
    && s.isActive && s.frequency != "MANUAL" && s.nextScheduledAt <= now
    && !HasActiveForSource(jobs, i, DiscoverSitemap) && !HasActiveForSource(jobs, i, DiscoverDomain)
  }

  /** On a source the query returns the two rules agree if and only if it has no active domain
      discovery, or an active sitemap discovery besides. */
  lemma RulesAgreeExactlyWhen(jobs: seq<Job>, s: Source, i: SourceId, now: Time)
    requires SourceDue(s, now)
    ensures (Eligible(jobs, s, i) <==> EligibleAsPlanned(jobs, s, i, now)) <==>
              !HasActiveForSource(jobs, i, DiscoverDomain) || HasActiveForSource(jobs, i, DiscoverSitemap)
  {
  }

  /** No domain discovery carries a source. */
  predicate DomainJobsAreSourceless(jobs: seq<Job>) {
    forall k :: 0 <= k < |jobs| && jobs[k].jobType.DiscoverDomain? ==> jobs[k].source.None?
  }

  /** Which is what the producers see to: a pass, with others at work beside it, keeps it so, and then
      the rules agree on every due source. */
  lemma RulesAgreeInPractice(before: seq<Job>, after: seq<Job>, targets: seq<Target>, registry: seq<Source>,
                             s: Source, i: SourceId, now: Time)
    requires DomainJobsAreSourceless(before) && Grown(before, after, targets, registry) && SourceDue(s, now)
    ensures DomainJobsAreSourceless(after)
    ensures Eligible(after, s, i) <==> EligibleAsPlanned(after, s, i, now)
  {
    forall k | 0 <= k < |after| && after[k].jobType.DiscoverDomain? ensures after[k].source.None? {
      if k < |before| { assert after[..|before|][k] == after[k] && SameKeys(before[k], after[k]); }
    }
    RulesAgreeExactlyWhen(after, s, i, now);
  }

  /** No due source is lost: after a pass it is still due, or its discovery job is there. */
  lemma NoDueSourceLost(start: seq<Job>, jobs: seq<Job>, before: seq<Source>, after: seq<Source>, i: SourceId,
                        asOf: Time, now: Time)
    requires AdvancedHaveJobs(start, jobs, before, after) && asOf <= now
    requires i < |before| && SourceDue(before[i], asOf)
    ensures SourceDue(after[i], now) || HasDiscovery(jobs, |start|, i)
  {
  }

  /** Between passes, however long, workers and the API neither raise the scheduled load nor
      disturb the spacing, so the bounds of one pass carry to the next. */
  lemma LoadBetweenPasses(s: State, es: seq<Event>, sources: seq<Source>)
    requires Inv(s) && NoCreates(es)
    ensures Inv(Drive(s, es))
    ensures ActiveScheduled(Drive(s, es).jobs) <= ActiveScheduled(s.jobs)
    ensures Spaced(s.jobs, sources) ==> Spaced(Drive(s, es).jobs, sources)
  {
    DriveKeepsInv(s, es);
    DriveIsOthersOnly(s, es);
    OthersKeepCounts(s.jobs, Drive(s, es).jobs);
    if Spaced(s.jobs, sources) { OthersKeepSpacing(s.jobs, Drive(s, es).jobs, sources); }
  }
}
