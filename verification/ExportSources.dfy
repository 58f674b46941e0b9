/** Why the export may trust its tables: every number in them went through the normalizer. */
module ExportSources {
  import opened Options
  import opened Normalizer
  import opened LedgerTables
  import opened LedgerWriters
  import opened AggregatedLedger
  import opened SpamFlags
  import opened CallDirectory
  import opened Registry

  predicate ValuesAreNormalized(l: Ledger) {
    forall k :: 0 <= k < |l.obs| ==> l.obs[k].value == Normalize(l.obs[k].raw).value
  }

  lemma {:induction false} ObserveAllNormalizes(l: Ledger, doc: DocId, cs: seq<Candidate>)
    requires ValuesAreNormalized(l)
    ensures ValuesAreNormalized(ObserveAll(l, doc, cs))
  {
    hide Normalize;
    if cs == [] {
    } else {
      ObserveAllNormalizes(l, doc, cs[..|cs| - 1]);
    }
  }

  lemma {:induction false} ExtractEachNormalizes(l: Ledger, extract: string -> seq<Candidate>, todo: seq<DocId>)
    requires ValuesAreNormalized(l) && forall k :: 0 <= k < |todo| ==> todo[k] < |l.docs|
    ensures ValuesAreNormalized(ExtractEach(l, extract, todo))
    decreases |todo|
  {
    hide ValuesAreNormalized, ObserveAll;
    if todo == [] {
    } else {
      var m, d := ExtractEach(l, extract, todo[..|todo| - 1]), todo[|todo| - 1];
      ExtractEachNormalizes(l, extract, todo[..|todo| - 1]);
      if d < |m.docs| { ObserveAllNormalizes(m, d, extract(m.docs[d].content)); }
    }
  }

  lemma {:induction false} ImportNormalizes(l: Ledger, source: SourceId, e: UserConfirmedEntry, now: int, k: nat)
    requires ValuesAreNormalized(l) && k <= 6
    ensures ValuesAreNormalized(ImportPrefix(l, source, e, now, k))
    decreases k
  {
    hide Normalize, NormalizeTypeScript, UpsertPhone, LinkCount;
    ImplementationsAgree(e.raw);
    if k == 0 {
    } else {
      ImportNormalizes(l, source, e, now, k - 1);
    }
  }

  lemma ApplyNormalizes(l: Ledger, extract: string -> seq<Candidate>, op: Op)
    requires ValuesAreNormalized(l)
    ensures ValuesAreNormalized(Apply(l, extract, op))
  {
    hide Normalize, LastContent, ImportPrefix, ExtractEach, ObserveAll;
    match op
    case CrawlOp(s, t, r, crash) =>
      if r.Fetched? {
        ObserveAllNormalizes(InsertDocument(l, Document(s, Some(t), r.content)), |l.docs|, extract(r.content));
      }
    case RowOp(s, content, values, context, dies) =>
      ObserveAllNormalizes(InsertDocument(l, Document(s, None, content)), |l.docs|, RowCandidates(values, context));
    case ImportOp(s, e, now) => ImportNormalizes(l, s, e, now, 6);
    case NormalizeOp => ExtractEachNormalizes(l, extract, Unextracted(l, |l.docs|));
  }

  lemma {:induction false} RunNormalizes(ledgers: seq<Ledger>, moves: seq<Move>, extract: string -> seq<Candidate>,
                                         guess: ObsId -> string, i: nat)
    requires IsRun(ledgers, moves, extract, guess) && i <= |moves|
    ensures ValuesAreNormalized(ledgers[i])
  {
    hide Apply, Normalize;
    if i == 0 {
    } else {
      RunNormalizes(ledgers, moves, extract, guess, i - 1);
      assert Moves(ledgers[i - 1], ledgers[i], moves[i - 1], extract, guess);
      if moves[i - 1].Write? { ApplyNormalizes(ledgers[i - 1], extract, moves[i - 1].op); }
    }
  }

  lemma {:induction false} CountedIsObserved(obs: seq<Observation>, p: string)
    requires CountOf(obs, p) > 0
    ensures exists k :: 0 <= k < |obs| && obs[k].value == Some(p)
  {
    var m := |obs| - 1;
    if obs[m].value != Some(p) {
      CountedIsObserved(obs[..m], p);
      var k :| 0 <= k < m && obs[..m][k].value == Some(p);
      assert obs[k].value == Some(p);
    }
  }

  /** In every reachable ledger each phone row holds a canonical number with that number's type. */
  lemma PhoneRowsAreCanonical(ledgers: seq<Ledger>, moves: seq<Move>, extract: string -> seq<Candidate>,
                              guess: ObsId -> string,
                              i: nat, p: string)
    requires IsRun(ledgers, moves, extract, guess) && i <= |moves| && p in ledgers[i].phones
    ensures Canonical(p) && ledgers[i].phones[p].kind == KindOf(p)
  {
    hide Moves, Normalize, KindOf, IsE164, IsHotline, IsShortCode, CountOf;
    var l := ledgers[i];
    RunInvariant(ledgers, moves, extract, guess, i);
    RunNormalizes(ledgers, moves, extract, guess, i);
    ConservedPhone(l, p);
    CountedIsObserved(l.obs, p);
    var k :| 0 <= k < |l.obs| && l.obs[k].value == Some(p);
    CanonicalForm(l.obs[k].raw, p);
  }

  /** Every stored report was submitted, so its number is the normalizer's. */
  ghost predicate AllSubmitted(reports: seq<Report>) {
    forall i :: 0 <= i < |reports| ==> exists raw: string :: reports[i].phone == NormalizeTypeScript(raw).value
  }

  /** The export's premise holds of what the writers, the aggregation and the reports leave behind. */
  lemma TablesServeTheExport(ledgers: seq<Ledger>, moves: seq<Move>, extract: string -> seq<Candidate>,
                             guess: ObsId -> string, i: nat,
                             known: set<Known>, reports: seq<Report>, flagRows: seq<FlagRow>,
                             flags: map<string, SpamFlag>)
    requires IsRun(ledgers, moves, extract, guess) && i <= |moves|
    requires forall k :: k in known ==> k.phone in ledgers[i].phones && k.kind == ledgers[i].phones[k.phone].kind
    requires AllSubmitted(reports) && IsFlagJoin(flagRows, reports) && FlagsFor(flags, flagRows)
    ensures Stored(known, flags)
  {
    hide Moves, Normalize, NormalizeTypeScript, KindOf, IsE164, IsHotline, IsShortCode, IsFlagJoin, FlagsFor;
    forall k | k in known ensures Canonical(k.phone) && k.kind == KindOf(k.phone) {
      PhoneRowsAreCanonical(ledgers, moves, extract, guess, i, k.phone);
    }
    forall p | p in flags ensures Canonical(p) {
      FlagMeaning(reports, flagRows, flags, p);
      CategoryHasReport(reports, p, flags[p].topCategory);
      var j :| 0 <= j < |reports| && reports[j].phone == Some(p);
      assert exists raw: string :: reports[j].phone == NormalizeTypeScript(raw).value;
      var raw: string :| reports[j].phone == NormalizeTypeScript(raw).value;
      ImplementationsAgree(raw);
      CanonicalForm(raw, p);
    }
  }

  /** From the reports to the phone: a blocked number was reported by ten or more, and no category
      was reported for it more often than SCAM. */
  lemma BlockedWereReported(reports: seq<Report>, flagRows: seq<FlagRow>, flags: map<string, SpamFlag>,
                            suppressed: set<string>, enabled: bool, blocked: seq<string>, d: string)
    requires IsFlagJoin(flagRows, reports) && FlagsFor(flags, flagRows)
    requires IsBlockList(blocked, enabled, flags, suppressed) && d in blocked
    ensures Distinct(reports, "+" + d) >= 10 && ComputeRiskLevel(Distinct(reports, "+" + d)).High?
    ensures forall c :: CategoryCount(reports, "+" + d, c) <= CategoryCount(reports, "+" + d, "SCAM")
  {
    hide IsFlagJoin, FlagsFor, CategoryCount, Distinct, Callable;
    FlagMeaning(reports, flagRows, flags, "+" + d);
  }
}
