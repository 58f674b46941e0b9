/** Spam reports: the summary of one phone, and the flags of all phones in one pass. */
module SpamFlags {
  import opened Options
  import opened Normalizer
  import opened Sorting

  datatype Report = Report(id: string, phone: Option<string>, category: string, reporter: Option<string>)

  datatype Risk = NoRisk | Medium | High

  function ComputeRiskLevel(distinctReporters: nat): Risk {
    if distinctReporters >= 10 then High else if distinctReporters >= 1 then Medium else NoRisk
  }

  // ----- What SQL groups -----

  /** `COALESCE(reporter_ref, id::text)` */
  function ReporterKey(r: Report): string {
    if r.reporter.Some? then r.reporter.value else r.id
  }

  function Reporters(reports: seq<Report>, p: string): set<string> {
    set i | 0 <= i < |reports| && reports[i].phone == Some(p) :: ReporterKey(reports[i])
  }

  function Distinct(reports: seq<Report>, p: string): nat {
    |Reporters(reports, p)|
  }

  function ReportCount(reports: seq<Report>, p: string): nat {
    if reports == [] then 0
    else ReportCount(reports[..|reports| - 1], p) + if reports[|reports| - 1].phone == Some(p) then 1 else 0
  }

  function CategoryCount(reports: seq<Report>, p: string, c: string): nat {
    if reports == [] then 0
    else
      var r := reports[|reports| - 1];
      CategoryCount(reports[..|reports| - 1], p, c) + if r.phone == Some(p) && r.category == c then 1 else 0
  }

  datatype SummaryRow = SummaryRow(category: string, count: nat, reportCount: nat, distinctReporters: nat)

  /** One row for each category reported for p, in any order. */
  ghost predicate IsSummaryJoin(rows: seq<SummaryRow>, reports: seq<Report>, p: string) {
    && (forall i, k :: 0 <= i < k < |rows| ==> rows[i].category != rows[k].category)
    && (forall c :: CategoryCount(reports, p, c) > 0 <==> exists i :: 0 <= i < |rows| && rows[i].category == c)
    && (forall i :: 0 <= i < |rows| ==>
          rows[i] == SummaryRow(rows[i].category, CategoryCount(reports, p, rows[i].category),
                                ReportCount(reports, p), Distinct(reports, p)))
  }

  datatype FlagRow = FlagRow(phone: string, distinctReporters: nat, category: string, count: nat)

  /** One row for each phone and category reported for it, in any order. */
  ghost predicate IsFlagJoin(rows: seq<FlagRow>, reports: seq<Report>) {
    && (forall i, k :: 0 <= i < k < |rows| ==> rows[i].phone != rows[k].phone || rows[i].category != rows[k].category)
    && (forall p, c :: Distinct(reports, p) >= 1 && CategoryCount(reports, p, c) > 0 <==>
          exists i :: 0 <= i < |rows| && rows[i].phone == p && rows[i].category == c)
    && (forall i :: 0 <= i < |rows| ==>
          && rows[i].distinctReporters == Distinct(reports, rows[i].phone)
          && rows[i].count == CategoryCount(reports, rows[i].phone, rows[i].category))
  }

  // ----- The first maximum -----

  /** The category that wins: no other is reported more often, and none before it as often. */
  predicate IsFirstMaximum(counts: seq<nat>, m: nat) {
    && m < |counts|
    && (forall k :: 0 <= k < |counts| ==> counts[k] <= counts[m])
    && (forall k :: 0 <= k < m ==> counts[k] < counts[m])
  }

  lemma FirstMaximumIsUnique(counts: seq<nat>, m: nat, n: nat)
    requires IsFirstMaximum(counts, m) && IsFirstMaximum(counts, n)
    ensures m == n
  {
    assert counts[m] <= counts[n] && counts[n] <= counts[m];
  }

  function SummaryCount(row: SummaryRow): nat { row.count }
  function FlagCount(row: FlagRow): nat { row.count }

  function Counts<R>(count: R -> nat, rows: seq<R>): (r: seq<nat>)
    ensures |r| == |rows| && forall i :: 0 <= i < |rows| ==> r[i] == count(rows[i])
  {
    seq(|rows|, i requires 0 <= i < |rows| => count(rows[i]))
  }

  // ----- The summary of one phone -----

  datatype SpamSummary = SpamSummary(reportCount: nat, distinctReporters: nat, riskLevel: Risk,
                                     topCategory: Option<string>, categoryBreakdown: map<string, nat>)

  ghost predicate Summarizes(s: SpamSummary, rows: seq<SummaryRow>) {
    if rows == [] then s == SpamSummary(0, 0, NoRisk, None, map[])
    else
      && s.reportCount == rows[0].reportCount && s.distinctReporters == rows[0].distinctReporters
      && s.riskLevel == ComputeRiskLevel(rows[0].distinctReporters)
      && (exists m: nat :: IsFirstMaximum(Counts(SummaryCount, rows), m) && s.topCategory == Some(rows[m].category))
      && (forall c :: c in s.categoryBreakdown <==> exists i :: 0 <= i < |rows| && rows[i].category == c)
  }

  /** The loop over the rows of the summary query. */
  method GetSpamSummary(rows: seq<SummaryRow>) returns (s: SpamSummary)
    requires forall i, k :: 0 <= i < k < |rows| ==> rows[i].category != rows[k].category
    ensures Summarizes(s, rows)
    ensures forall i :: 0 <= i < |rows| ==>
        rows[i].category in s.categoryBreakdown && s.categoryBreakdown[rows[i].category] == rows[i].count
    ensures s.riskLevel == High <==> s.distinctReporters >= 10
    ensures s.riskLevel == NoRisk <==> s.distinctReporters == 0
  {
    if |rows| == 0 {
      return SpamSummary(0, 0, NoRisk, None, map[]);
    }
    var breakdown: map<string, nat> := map[];
    var topCategory: Option<string> := None;
    var topCount: int := -1;
    ghost var m: nat := 0;
    for i := 0 to |rows|
      invariant i == 0 ==> topCount == -1
      invariant i > 0 ==> m < i && topCount == rows[m].count && topCategory == Some(rows[m].category)
      invariant forall k :: 0 <= k < i ==> rows[k].count <= topCount && (k < m ==> rows[k].count < topCount)
      invariant forall k :: 0 <= k < i ==> rows[k].category in breakdown && breakdown[rows[k].category] == rows[k].count
      invariant forall c :: c in breakdown ==> exists k :: 0 <= k < i && rows[k].category == c
    {
      breakdown := breakdown[rows[i].category := rows[i].count];
      if rows[i].count > topCount {
        topCount := rows[i].count;
        topCategory := Some(rows[i].category);
        m := i;
      }
    }
    s := SpamSummary(rows[0].reportCount, rows[0].distinctReporters, ComputeRiskLevel(rows[0].distinctReporters),
                     topCategory, breakdown);
    assert IsFirstMaximum(Counts(SummaryCount, rows), m);
  }

  // ----- The flags of all phones -----

  datatype SpamFlag = SpamFlag(distinctReporters: nat, topCategory: string)

  datatype Tally = Tally(distinctReporters: nat, topCategory: string, topCount: nat)

  function RowsOf(rows: seq<FlagRow>, p: string): seq<FlagRow> {
    if rows == [] then []
    else RowsOf(rows[..|rows| - 1], p) + if rows[|rows| - 1].phone == p then [rows[|rows| - 1]] else []
  }

  /** What one pass has to leave for one phone: its rows' first maximum, wherever they stand. */
  ghost predicate Tallied(t: Option<Tally>, own: seq<FlagRow>) {
    if own == [] then t == None
    else exists m: nat ::
        && IsFirstMaximum(Counts(FlagCount, own), m)
        && t == Some(Tally(own[m].distinctReporters, own[m].category, own[m].count))
  }

  function Advance(t: Option<Tally>, row: FlagRow): Option<Tally> {
    if t.None? || row.count > t.value.topCount then Some(Tally(row.distinctReporters, row.category, row.count)) else t
  }

  lemma TallyStep(t: Option<Tally>, own: seq<FlagRow>, row: FlagRow)
    requires Tallied(t, own)
    ensures Tallied(Advance(t, row), own + [row])
  {
    var longer := own + [row];
    assert Counts(FlagCount, longer) == Counts(FlagCount, own) + [row.count];
    if own == [] {
      assert IsFirstMaximum(Counts(FlagCount, longer), 0);
    } else {
      var m: nat :| IsFirstMaximum(Counts(FlagCount, own), m) &&
          t == Some(Tally(own[m].distinctReporters, own[m].category, own[m].count));
      assert longer[m] == own[m];
      var w: nat := if row.count > own[m].count then |own| else m;
      assert IsFirstMaximum(Counts(FlagCount, longer), w);
    }
  }

  lemma RowsOfAppend(rows: seq<FlagRow>, r: FlagRow, p: string)
    ensures RowsOf(rows + [r], p) == RowsOf(rows, p) + if r.phone == p then [r] else []
  {
    assert (rows + [r])[..|rows|] == rows;
  }

  lemma PassStep(tallies: map<string, Tally>, rows: seq<FlagRow>, row: FlagRow, next: Tally)
    requires forall p :: Tallied(Lookup(tallies, p), RowsOf(rows, p))
    requires Advance(Lookup(tallies, row.phone), row) == Some(next)
    ensures forall p :: Tallied(Lookup(tallies[row.phone := next], p), RowsOf(rows + [row], p))
  {
    hide Tallied, RowsOf, Advance;
    forall p ensures Tallied(Lookup(tallies[row.phone := next], p), RowsOf(rows + [row], p)) {
      RowsOfAppend(rows, row, p);
      if p == row.phone {
        TallyStep(Lookup(tallies, p), RowsOf(rows, p), row);
      } else {
        assert RowsOf(rows, p) + [] == RowsOf(rows, p);
      }
    }
  }

  ghost predicate Flagged(f: Option<SpamFlag>, own: seq<FlagRow>) {
    if own == [] then f == None
    else exists m: nat ::
        IsFirstMaximum(Counts(FlagCount, own), m) && f == Some(SpamFlag(own[m].distinctReporters, own[m].category))
  }

  /** Every phone's flag is its rows' first maximum, wherever they stand among the others'. */
  ghost predicate FlagsFor(flags: map<string, SpamFlag>, rows: seq<FlagRow>) {
    forall p :: Flagged(Lookup(flags, p), RowsOf(rows, p))
  }

  /** The single pass over the rows of all phones, however they are interleaved. */
  method GetSpamFlags(rows: seq<FlagRow>) returns (flags: map<string, SpamFlag>)
    ensures FlagsFor(flags, rows)
  {
    hide Tallied, RowsOf;
    var tallies: map<string, Tally> := map[];
    NothingTallied();
    for i := 0 to |rows|
      invariant forall p :: Tallied(Lookup(tallies, p), RowsOf(rows[..i], p))
    {
      var row := rows[i];
      assert rows[..i + 1] == rows[..i] + [row];
      if row.phone !in tallies || row.count > tallies[row.phone].topCount {
        PassStep(tallies, rows[..i], row, Tally(row.distinctReporters, row.category, row.count));
        tallies := tallies[row.phone := Tally(row.distinctReporters, row.category, row.count)];
      } else {
        PassStep(tallies, rows[..i], row, tallies[row.phone]);
        assert tallies[row.phone := tallies[row.phone]] == tallies;
      }
    }
    assert rows[..|rows|] == rows;
    flags := map p | p in tallies :: SpamFlag(tallies[p].distinctReporters, tallies[p].topCategory);
    FlagsOfTallies(tallies, flags, rows);
  }

  lemma FlagsOfTallies(tallies: map<string, Tally>, flags: map<string, SpamFlag>, rows: seq<FlagRow>)
    requires forall p :: Tallied(Lookup(tallies, p), RowsOf(rows, p))
    requires flags == map p | p in tallies :: SpamFlag(tallies[p].distinctReporters, tallies[p].topCategory)
    ensures FlagsFor(flags, rows)
  {
    hide RowsOf, IsFirstMaximum;
    forall p ensures Flagged(Lookup(flags, p), RowsOf(rows, p)) {
      assert Tallied(Lookup(tallies, p), RowsOf(rows, p));
    }
  }

  lemma NothingTallied()
    ensures forall p :: Tallied(Lookup(map[], p), RowsOf([], p))
  {
  }

  // ----- The two agree -----

  lemma {:induction false} RowsOfMembers(rows: seq<FlagRow>, p: string)
    ensures forall r :: r in RowsOf(rows, p) <==> r in rows && r.phone == p
  {
    if rows == [] {
    } else {
      RowsOfMembers(rows[..|rows| - 1], p);
      assert forall r :: r in rows <==> r in rows[..|rows| - 1] || r == rows[|rows| - 1];
    }
  }

  lemma {:induction false} CategoryHasReport(reports: seq<Report>, p: string, c: string)
    ensures CategoryCount(reports, p, c) > 0 <==>
              exists i :: 0 <= i < |reports| && reports[i].phone == Some(p) && reports[i].category == c
  {
    if reports == [] {
    } else {
      var m := |reports| - 1;
      CategoryHasReport(reports[..m], p, c);
      if i :| 0 <= i < m && reports[i].phone == Some(p) && reports[i].category == c {
        assert reports[..m][i] == reports[i];
      }
    }
  }

  /** The counts are numbers of reports. */
  lemma ReportsAreCounted(reports: seq<Report>, p: string, c: string)
    ensures ReportCount(reports, p) == |set i | 0 <= i < |reports| && reports[i].phone == Some(p)|
    ensures CategoryCount(reports, p, c)
         == |set i | 0 <= i < |reports| && reports[i].phone == Some(p) && reports[i].category == c|
  {
    AllCounted(reports, p, set i | 0 <= i < |reports| && reports[i].phone == Some(p));
    CategoryCounted(reports, p, c,
                    set i | 0 <= i < |reports| && reports[i].phone == Some(p) && reports[i].category == c);
  }

  lemma {:induction false} AllCounted(reports: seq<Report>, p: string, ids: set<int>)
    requires forall i :: i in ids <==> 0 <= i < |reports| && reports[i].phone == Some(p)
    ensures ReportCount(reports, p) == |ids|
  {
    if reports == [] {
      assert forall i :: i in ids ==> 0 <= i < |reports|;
      assert ids == {};
    } else {
      AllCounted(reports[..|reports| - 1], p, ids - {|reports| - 1});
    }
  }

  lemma {:induction false} CategoryCounted(reports: seq<Report>, p: string, c: string, ids: set<int>)
    requires forall i :: i in ids <==> 0 <= i < |reports| && reports[i].phone == Some(p) && reports[i].category == c
    ensures CategoryCount(reports, p, c) == |ids|
  {
    if reports == [] {
      assert forall i :: i in ids ==> 0 <= i < |reports|;
      assert ids == {};
    } else {
      CategoryCounted(reports[..|reports| - 1], p, c, ids - {|reports| - 1});
    }
  }

  /** Whatever was reported, the summary query has an answer, and so has the query of the flags. */
  lemma SummaryQueryHasAnAnswer(reports: seq<Report>, p: string) returns (rows: seq<SummaryRow>)
    ensures IsSummaryJoin(rows, reports, p)
  {
    hide CategoryCount, ReportCount, Distinct;
    var list := CanBeListed(set i | 0 <= i < |reports| && reports[i].phone == Some(p) :: reports[i].category);
    rows := seq(|list|, i requires 0 <= i < |list| =>
      SummaryRow(list[i], CategoryCount(reports, p, list[i]), ReportCount(reports, p), Distinct(reports, p)));
    forall c ensures CategoryCount(reports, p, c) > 0 <==> exists i :: 0 <= i < |rows| && rows[i].category == c {
      CategoryHasReport(reports, p, c);
      assert c in list <==> exists i :: 0 <= i < |list| && list[i] == c;
      assert forall i :: 0 <= i < |rows| ==> rows[i].category == list[i];
    }
  }

  lemma FlagQueryHasAnAnswer(reports: seq<Report>) returns (rows: seq<FlagRow>)
    ensures IsFlagJoin(rows, reports)
  {
    hide CategoryCount, Distinct;
    var list := CanBeListed(set i | 0 <= i < |reports| && reports[i].phone.Some? ::
                              (reports[i].phone.value, reports[i].category));
    rows := seq(|list|, i requires 0 <= i < |list| =>
      FlagRow(list[i].0, Distinct(reports, list[i].0), list[i].1, CategoryCount(reports, list[i].0, list[i].1)));
    assert forall i :: 0 <= i < |rows| ==> (rows[i].phone, rows[i].category) == list[i];
    forall p, c
      ensures Distinct(reports, p) >= 1 && CategoryCount(reports, p, c) > 0 <==>
                exists i :: 0 <= i < |rows| && rows[i].phone == p && rows[i].category == c
    {
      CategoryHasReport(reports, p, c);
      ReportedPhones(reports, p);
      if CategoryCount(reports, p, c) > 0 { assert (p, c) in list; }
      if i :| 0 <= i < |rows| && rows[i].phone == p && rows[i].category == c { assert list[i] in list; }
    }
  }

  /** A phone has a reporter exactly when it has a reported category. */
  lemma ReportedPhones(reports: seq<Report>, p: string)
    ensures Distinct(reports, p) >= 1 <==> exists c :: CategoryCount(reports, p, c) > 0
  {
    if c :| CategoryCount(reports, p, c) > 0 {
      CategoryHasReport(reports, p, c);
      var i :| 0 <= i < |reports| && reports[i].phone == Some(p);
      assert ReporterKey(reports[i]) in Reporters(reports, p);
    }
    if Reporters(reports, p) != {} {
      var k :| k in Reporters(reports, p);
      var i :| 0 <= i < |reports| && reports[i].phone == Some(p) && k == ReporterKey(reports[i]);
      CategoryHasReport(reports, p, reports[i].category);
    }
  }

  /** The rows both queries return for p come in the same relative order. */
  predicate SameOrder(own: seq<FlagRow>, rows: seq<SummaryRow>) {
    |own| == |rows| && forall i :: 0 <= i < |own| ==> own[i].category == rows[i].category
  }

  lemma JoinsAgree(reports: seq<Report>, p: string, flagRows: seq<FlagRow>, rows: seq<SummaryRow>)
    requires IsFlagJoin(flagRows, reports) && IsSummaryJoin(rows, reports, p) && SameOrder(RowsOf(flagRows, p), rows)
    ensures Counts(FlagCount, RowsOf(flagRows, p)) == Counts(SummaryCount, rows)
    ensures forall i :: 0 <= i < |rows| ==>
        RowsOf(flagRows, p)[i].distinctReporters == rows[i].distinctReporters == Distinct(reports, p)
    ensures rows == [] <==> Distinct(reports, p) == 0
  {
    hide RowsOf, CategoryCount, Distinct;
    var own := RowsOf(flagRows, p);
    RowsOfMembers(flagRows, p);
    ReportedPhones(reports, p);
    forall i | 0 <= i < |own| ensures own[i].phone == p &&
        own[i].count == CategoryCount(reports, p, own[i].category) && own[i].distinctReporters == Distinct(reports, p) {
      assert own[i] in own && own[i] in flagRows;
      var k :| 0 <= k < |flagRows| && flagRows[k] == own[i];
    }
    if rows != [] { assert CategoryCount(reports, p, rows[0].category) > 0; }
  }

  /** The one pass refines the per-phone summary: over any interleaving of rows, a phone has a flag
      exactly when its risk is not none, with the same reporter count and the same top category. */
  lemma OnePassAgrees(reports: seq<Report>, p: string, flagRows: seq<FlagRow>, rows: seq<SummaryRow>,
                      flags: map<string, SpamFlag>, s: SpamSummary)
    requires IsFlagJoin(flagRows, reports) && IsSummaryJoin(rows, reports, p) && SameOrder(RowsOf(flagRows, p), rows)
    requires FlagsFor(flags, flagRows) && Summarizes(s, rows)
    ensures p in flags <==> s.riskLevel != NoRisk
    ensures p in flags ==>
        flags[p].distinctReporters == s.distinctReporters && Some(flags[p].topCategory) == s.topCategory
    ensures s.distinctReporters == Distinct(reports, p)
    ensures s.riskLevel == High <==> Distinct(reports, p) >= 10
    ensures s.riskLevel == Medium <==> 1 <= Distinct(reports, p) < 10
  {
    hide RowsOf, IsFlagJoin, Distinct;
    JoinsAgree(reports, p, flagRows, rows);
    var own := RowsOf(flagRows, p);
    assert Flagged(Lookup(flags, p), own);
    if rows != [] {
      var m: nat :| IsFirstMaximum(Counts(FlagCount, own), m) &&
          Lookup(flags, p) == Some(SpamFlag(own[m].distinctReporters, own[m].category));
      var n: nat :| IsFirstMaximum(Counts(SummaryCount, rows), n) && s.topCategory == Some(rows[n].category);
      FirstMaximumIsUnique(Counts(SummaryCount, rows), m, n);
    }
  }

  /** What a flag says about the reports themselves, whatever order the rows came in. */
  lemma FlagMeaning(reports: seq<Report>, flagRows: seq<FlagRow>, flags: map<string, SpamFlag>, p: string)
    requires IsFlagJoin(flagRows, reports) && FlagsFor(flags, flagRows)
    ensures p in flags <==> Distinct(reports, p) >= 1
    ensures p in flags ==>
              && flags[p].distinctReporters == Distinct(reports, p)
              && CategoryCount(reports, p, flags[p].topCategory) > 0
              && forall c :: CategoryCount(reports, p, c) <= CategoryCount(reports, p, flags[p].topCategory)
  {
    hide RowsOf, CategoryCount, Distinct;
    var own := RowsOf(flagRows, p);
    RowsOfMembers(flagRows, p);
    ReportedPhones(reports, p);
    ReportedHasRow(reports, flagRows, p);
    assert Flagged(Lookup(flags, p), own);
    if own != [] {
      var m: nat :| IsFirstMaximum(Counts(FlagCount, own), m) &&
          Lookup(flags, p) == Some(SpamFlag(own[m].distinctReporters, own[m].category));
      OwnRow(reports, flagRows, p, m);
      forall c ensures CategoryCount(reports, p, c) <= CategoryCount(reports, p, own[m].category) {
        if CategoryCount(reports, p, c) > 0 {
          var i :| 0 <= i < |flagRows| && flagRows[i].phone == p && flagRows[i].category == c;
          assert flagRows[i] in flagRows && flagRows[i] in own;
          var k :| 0 <= k < |own| && own[k] == flagRows[i];
          assert Counts(FlagCount, own)[k] <= Counts(FlagCount, own)[m];
        }
      }
    }
  }

  lemma ReportedHasRow(reports: seq<Report>, flagRows: seq<FlagRow>, p: string)
    requires IsFlagJoin(flagRows, reports)
    ensures Distinct(reports, p) >= 1 ==> RowsOf(flagRows, p) != []
  {
    hide RowsOf, CategoryCount, Distinct;
    RowsOfMembers(flagRows, p);
    ReportedPhones(reports, p);
    if c :| Distinct(reports, p) >= 1 && CategoryCount(reports, p, c) > 0 {
      var i :| 0 <= i < |flagRows| && flagRows[i].phone == p && flagRows[i].category == c;
      assert flagRows[i] in RowsOf(flagRows, p);
    }
  }

  lemma OwnRow(reports: seq<Report>, flagRows: seq<FlagRow>, p: string, m: nat)
    requires IsFlagJoin(flagRows, reports) && m < |RowsOf(flagRows, p)|
    ensures var r := RowsOf(flagRows, p)[m];
            && r.distinctReporters == Distinct(reports, p) && Distinct(reports, p) >= 1
            && r.count == CategoryCount(reports, p, r.category) > 0
  {
    hide RowsOf, CategoryCount, Distinct;
    var own := RowsOf(flagRows, p);
    RowsOfMembers(flagRows, p);
    assert own[m] in own && own[m] in flagRows;
    var k :| 0 <= k < |flagRows| && flagRows[k] == own[m];
  }

  // ----- Reporting -----

  lemma ReportersAppend(reports: seq<Report>, r: Report, p: string)
    ensures Reporters(reports + [r], p) == Reporters(reports, p) + if r.phone == Some(p) then {ReporterKey(r)} else {}
  {
    var longer := reports + [r];
    forall k ensures k in Reporters(longer, p) <==>
        k in Reporters(reports, p) || (r.phone == Some(p) && k == ReporterKey(r)) {
      if k in Reporters(reports, p) {
        var i :| 0 <= i < |reports| && reports[i].phone == Some(p) && k == ReporterKey(reports[i]);
        assert longer[i] == reports[i];
      }
      if r.phone == Some(p) && k == ReporterKey(r) { assert longer[|reports|] == r; }
      if k in Reporters(longer, p) {
        var i :| 0 <= i < |longer| && longer[i].phone == Some(p) && k == ReporterKey(longer[i]);
        assert i < |reports| ==> longer[i] == reports[i];
      }
    }
  }

  /** Somebody with the same reference reported the same phone before. */
  predicate Repeats(reports: seq<Report>, r: Report) {
    r.reporter.Some? &&
    exists i :: 0 <= i < |reports| && reports[i].phone == r.phone && reports[i].reporter == r.reporter
  }

  predicate NobodyUsed(reports: seq<Report>, id: string) {
    forall i :: 0 <= i < |reports| ==> ReporterKey(reports[i]) != id
  }

  /** One more report raises a phone's reporter count exactly when its key is new for that phone:
      never for a repeated reference, always for a report without one whose id nobody used as a
      reference. */
  lemma OneMoreReport(reports: seq<Report>, r: Report, p: string)
    ensures Distinct(reports + [r], p) == Distinct(reports, p)
            + if r.phone == Some(p) && ReporterKey(r) !in Reporters(reports, p) then 1 else 0
    ensures Repeats(reports, r) ==> Distinct(reports + [r], p) == Distinct(reports, p)
    ensures r.reporter.None? && r.phone == Some(p) && NobodyUsed(reports, r.id) ==>
              Distinct(reports + [r], p) == Distinct(reports, p) + 1
  {
    var keys, k := Reporters(reports, p), ReporterKey(r);
    ReportersAppend(reports, r, p);
    assert k in keys ==> keys + {k} == keys;
    if Repeats(reports, r) && r.phone == Some(p) {
      var i :| 0 <= i < |reports| && reports[i].phone == r.phone && reports[i].reporter == r.reporter;
      assert ReporterKey(reports[i]) in Reporters(reports, p);
    }
  }

  /** Reports are only ever added, and the risk of a phone never falls. */
  lemma {:induction false} RiskNeverFalls(reports: seq<Report>, more: seq<Report>, p: string)
    ensures Distinct(reports, p) <= Distinct(reports + more, p)
    ensures var before, after := ComputeRiskLevel(Distinct(reports, p)), ComputeRiskLevel(Distinct(reports + more, p));
            (before == High ==> after == High) && (before == Medium ==> after == Medium || after == High)
  {
    if more == [] {
      assert reports + more == reports;
    } else {
      var m := |more| - 1;
      RiskNeverFalls(reports, more[..m], p);
      OneMoreReport(reports + more[..m], more[m], p);
      assert reports + more == reports + more[..m] + [more[m]];
    }
  }

  datatype SubmitResult = Rejected(reason: string) | Accepted(phone: string, summary: SpamSummary)

  class SpamReports {
    var reports: seq<Report>

    constructor ()
      ensures reports == []
    {
      reports := [];
    }

    /** `between` are the reports others store before the summary query, and `answer` what it returns.
        The submitted number is at least at medium risk from then on. */
    method SubmitSpamReport(id: string, phoneRaw: string, category: Option<string>, reporterRef: Option<string>,
                            between: seq<Report>, answer: seq<SummaryRow>) returns (result: SubmitResult)
      requires NormalizeTypeScript(phoneRaw).value.Some? ==>
                 IsSummaryJoin(answer, reports + [Submitted(id, phoneRaw, category, reporterRef)] + between,
                               NormalizeTypeScript(phoneRaw).value.value)
      modifies this
      ensures NormalizeTypeScript(phoneRaw).value.None? ==>
          reports == old(reports) && result == Rejected("invalid_phone_format")
      ensures NormalizeTypeScript(phoneRaw).value.Some? ==>
                && reports == old(reports) + [Submitted(id, phoneRaw, category, reporterRef)] + between
                && result.Accepted? && Some(result.phone) == NormalizeTypeScript(phoneRaw).value
                && Summarizes(result.summary, answer)
                && result.summary.distinctReporters == Distinct(reports, result.phone)
                && result.summary.riskLevel != NoRisk
                && (result.summary.riskLevel == High <==> result.summary.distinctReporters >= 10)
      ensures result.Accepted? && |old(reports)| < |reports| ==>
                var r := reports[|old(reports)|];
                && r.id == id && r.phone == Some(result.phone) && r.reporter == reporterRef
                && r.category == if category.Some? then category.value else "SPAM"
    {
      hide NormalizeTypeScript, CategoryCount, Reporters;
      var n := NormalizeTypeScript(phoneRaw);
      if n.value.None? { return Rejected("invalid_phone_format"); }
      var p := n.value.value;
      var r := Submitted(id, phoneRaw, category, reporterRef);
      ghost var before := reports;
      reports := reports + [r];
      ghost var stored := reports;
      reports := reports + between;
      var summary := GetSpamSummary(answer);
      ReportersAppend(before, r, p);
      assert ReporterKey(r) in Reporters(stored, p);
      RiskNeverFalls(stored, between, p);
      ReportedPhones(reports, p);
      result := Accepted(p, summary);
    }
  }

  function Submitted(id: string, phoneRaw: string, category: Option<string>, reporterRef: Option<string>): Report {
    Report(id, NormalizeTypeScript(phoneRaw).value, if category.Some? then category.value else "SPAM", reporterRef)
  }
}
