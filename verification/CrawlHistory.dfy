/** What repeated crawls of a target store, and what crashes and re-extraction leave behind. */
module CrawlHistory {
  import opened Options
  import opened Normalizer
  import opened LedgerTables
  import opened LedgerWriters
  import opened Registry

  // ----- Stored documents of one target -----

  /** The sequence without the elements that repeat their predecessor. */
  function Heads(s: seq<string>): seq<string> {
    if s == [] then []
    else Heads(s[..|s| - 1]) + if |s| > 1 && s[|s| - 2] == s[|s| - 1] then [] else [s[|s| - 1]]
  }

  /** The contents that reached the hash comparison of a crawl of t. */
  function Processed(ops: seq<Op>, t: TargetId): seq<string> {
    if ops == [] then []
    else
      var op := ops[|ops| - 1];
      Processed(ops[..|ops| - 1], t)
      + if op.CrawlOp? && op.target == t && op.response.Fetched? && !op.crash.DiesBeforeInsert?
        then [op.response.content] else []
  }

  lemma {:induction false} HeadsEndAlike(s: seq<string>)
    requires s != []
    ensures Heads(s) != [] && Heads(s)[|Heads(s)| - 1] == s[|s| - 1]
  {
    if |s| > 1 { HeadsEndAlike(s[..|s| - 1]); }
  }

  lemma ExtractKeepsDocs(l: Ledger, extract: string -> seq<Candidate>, doc: DocId)
    requires doc < |l.docs|
    ensures Extract(l, extract, doc).docs == l.docs
  {
    ObserveAllIs(l, doc, extract(l.docs[doc].content));
  }

  lemma {:induction false} ExtractEachKeepsDocs(l: Ledger, extract: string -> seq<Candidate>, todo: seq<DocId>)
    requires forall k :: 0 <= k < |todo| ==> todo[k] < |l.docs|
    ensures ExtractEach(l, extract, todo).docs == l.docs
    decreases |todo|
  {
    hide Extract;
    if todo == [] {
    } else {
      ExtractEachKeepsDocs(l, extract, todo[..|todo| - 1]);
      ExtractKeepsDocs(ExtractEach(l, extract, todo[..|todo| - 1]), extract, todo[|todo| - 1]);
    }
  }

  lemma HistoryAppend(docs: seq<Document>, d: Document, t: TargetId)
    ensures History(docs + [d], t) == History(docs, t) + if d.target == Some(t) then [d.content] else []
  {
    assert (docs + [d])[..|docs|] == docs;
  }

  /** What one operation adds to the documents of a target. */
  lemma ApplyHistory(l: Ledger, extract: string -> seq<Candidate>, op: Op, t: TargetId)
    ensures var fetched := op.CrawlOp? && op.target == t && op.response.Fetched? && !op.crash.DiesBeforeInsert?;
            History(Apply(l, extract, op).docs, t)
            == History(l.docs, t) + if fetched && LastContent(l.docs, t) != Some(op.response.content)
                                    then [op.response.content] else []
  {
    hide History, Extract, ImportPrefix, ExtractEach, ObserveAll;
    match op
    case CrawlOp(s, u, r, crash) =>
      if r.Fetched? {
        var d := Document(s, Some(u), r.content);
        HistoryAppend(l.docs, d, t);
        ExtractKeepsDocs(InsertDocument(l, d), extract, |l.docs|);
      }
    case RowOp(s, content, values, context, dies) =>
      HistoryAppend(l.docs, Document(s, None, content), t);
      ObserveAllIs(InsertDocument(l, Document(s, None, content)), |l.docs|, RowCandidates(values, context));
    case ImportOp(s, e, now) =>
      HistoryAppend(l.docs, Document(s, None, e.content), t);
      if NormalizeTypeScript(e.raw).value.Some? { ImportTables(l, s, e, now, 6); } else { SkippedImport(l, s, e, now); }
    case NormalizeOp => ExtractEachKeepsDocs(l, extract, Unextracted(l, |l.docs|));
  }

  /** Crawl history: the documents stored for a target are the contents its crawls processed, with
      adjacent repeats removed, whatever else ran and wherever crawls died. */
  lemma {:induction false} StoredIsProcessedWithoutRepeats(extract: string -> seq<Candidate>, ops: seq<Op>, t: TargetId)
    ensures History(ApplyAll(EMPTY_LEDGER, extract, ops).docs, t) == Heads(Processed(ops, t))
  {
    if ops == [] {
    } else {
      var m := |ops| - 1;
      StoredIsProcessedWithoutRepeats(extract, ops[..m], t);
      ApplyHistory(ApplyAll(EMPTY_LEDGER, extract, ops[..m]), extract, ops[m], t);
      var before := Processed(ops[..m], t);
      if before != [] { HeadsEndAlike(before); }
      if Processed(ops, t) != before {
        assert Processed(ops, t)[..|before|] == before;
      }
    }
  }

  // ----- Observations of one document -----

  function ObservationsOf(obs: seq<Observation>, d: DocId): seq<Observation> {
    if obs == [] then []
    else ObservationsOf(obs[..|obs| - 1], d) + if obs[|obs| - 1].doc == d then [obs[|obs| - 1]] else []
  }

  /** What extracting a content yields for document d. */
  function Extraction(d: DocId, cs: seq<Candidate>): (r: seq<Observation>)
    ensures |r| == |cs| && forall k :: 0 <= k < |cs| ==> r[k] == ObservationOf(d, cs[k])
  {
    seq(|cs|, k requires 0 <= k < |cs| => ObservationOf(d, cs[k]))
  }

  lemma {:induction false} ObserveAllIs(l: Ledger, doc: DocId, cs: seq<Candidate>)
    ensures var m := ObserveAll(l, doc, cs);
            m.docs == l.docs && m.obs == l.obs + Extraction(doc, cs)
            && m.identities == l.identities && m.evidence == l.evidence
  {
    hide ObservationOf, UpsertPhone, Normalize;
    if cs == [] {
    } else {
      var m := |cs| - 1;
      ObserveAllIs(l, doc, cs[..m]);
      assert Extraction(doc, cs) == Extraction(doc, cs[..m]) + [ObservationOf(doc, cs[m])];
    }
  }

  lemma {:induction false} ObservationsConcat(obs: seq<Observation>, more: seq<Observation>, d: DocId)
    ensures ObservationsOf(obs + more, d) == ObservationsOf(obs, d) + ObservationsOf(more, d)
  {
    if more == [] {
      assert obs + more == obs;
    } else {
      ObservationsConcat(obs, more[..|more| - 1], d);
      assert (obs + more)[..|obs + more| - 1] == obs + more[..|more| - 1];
    }
  }

  lemma {:induction false} ObservationsOfOne(more: seq<Observation>, d: DocId, owner: DocId)
    requires forall k :: 0 <= k < |more| ==> more[k].doc == owner
    ensures ObservationsOf(more, d) == if d == owner then more else []
  {
    if more == [] {
    } else {
      ObservationsOfOne(more[..|more| - 1], d, owner);
    }
  }

  lemma {:induction false} ObservationsExist(obs: seq<Observation>, d: DocId)
    ensures HasObservations(obs, d) <==> ObservationsOf(obs, d) != []
  {
    if obs == [] {
    } else {
      ObservationsExist(obs[..|obs| - 1], d);
      var m := |obs| - 1;
      if HasObservations(obs[..m], d) {
        var k :| 0 <= k < m && obs[..m][k].doc == d;
        assert obs[k].doc == d;
      }
      if HasObservations(obs, d) && obs[m].doc != d {
        var k :| 0 <= k < |obs| && obs[k].doc == d;
        assert obs[..m][k].doc == d;
      }
    }
  }

  /** A crawled document has no observations, or exactly those of its content. */
  predicate NoneOrExact(l: Ledger, extract: string -> seq<Candidate>, d: DocId)
    requires d < |l.docs|
  {
    var o := ObservationsOf(l.obs, d);
    o == [] || o == Extraction(d, extract(l.docs[d].content))
  }

  predicate CrawledAreNoneOrExact(l: Ledger, extract: string -> seq<Candidate>) {
    && (forall k :: 0 <= k < |l.obs| ==> l.obs[k].doc < |l.docs|)
    && forall d :: 0 <= d < |l.docs| && l.docs[d].target.Some? ==> NoneOrExact(l, extract, d)
  }

  lemma ExtractedObservations(l: Ledger, extract: string -> seq<Candidate>, doc: DocId, d: DocId)
    requires doc < |l.docs|
    ensures var m := Extract(l, extract, doc);
            ObservationsOf(m.obs, d) == if d == doc && ObservationsOf(l.obs, d) == []
                                        then Extraction(d, extract(l.docs[d].content)) else ObservationsOf(l.obs, d)
  {
    hide HasObservations, ObserveAll, ObservationsOf, Extraction;
    var cs := extract(l.docs[doc].content);
    ObserveAllIs(l, doc, cs);
    ObservationsExist(l.obs, doc);
    ObservationsConcat(l.obs, Extraction(doc, cs), d);
    OwnExtraction(doc, cs);
    ObservationsOfOne(Extraction(doc, cs), d, doc);
  }

  lemma ExtractKeepsOwners(l: Ledger, extract: string -> seq<Candidate>, doc: DocId)
    requires doc < |l.docs| && forall k :: 0 <= k < |l.obs| ==> l.obs[k].doc < |l.docs|
    ensures var m := Extract(l, extract, doc); forall k :: 0 <= k < |m.obs| ==> m.obs[k].doc < |m.docs|
  {
    ObserveAllIs(l, doc, extract(l.docs[doc].content));
  }

  lemma {:induction false} NoObservationsYet(obs: seq<Observation>, d: DocId)
    requires forall k :: 0 <= k < |obs| ==> obs[k].doc < d
    ensures ObservationsOf(obs, d) == []
  {
    if obs == [] {
    } else {
      NoObservationsYet(obs[..|obs| - 1], d);
    }
  }

  /** Appending a document and observations of that document alone. */
  lemma NewDocumentKeepsExact(l: Ledger, m: Ledger, extract: string -> seq<Candidate>, doc: Document,
                              more: seq<Observation>)
    requires CrawledAreNoneOrExact(l, extract)
    requires m.docs == l.docs + [doc] && m.obs == l.obs + more
    requires forall k :: 0 <= k < |more| ==> more[k].doc == |l.docs|
    requires doc.target.Some? ==> more == [] || more == Extraction(|l.docs|, extract(doc.content))
    ensures CrawledAreNoneOrExact(m, extract)
  {
    forall d | 0 <= d < |m.docs| && m.docs[d].target.Some? ensures NoneOrExact(m, extract, d) {
      ObservationsConcat(l.obs, more, d);
      ObservationsOfOne(more, d, |l.docs|);
      if d == |l.docs| { NoObservationsYet(l.obs, d); } else { assert NoneOrExact(l, extract, d); }
    }
  }

  lemma {:induction false} ExtractEachObservations(l: Ledger, extract: string -> seq<Candidate>, todo: seq<DocId>)
    requires forall k :: 0 <= k < |todo| ==> todo[k] < |l.docs|
    requires forall k :: 0 <= k < |l.obs| ==> l.obs[k].doc < |l.docs|
    ensures var m := ExtractEach(l, extract, todo);
            && m.docs == l.docs
            && (forall k :: 0 <= k < |m.obs| ==> m.obs[k].doc < |m.docs|)
            && (forall d :: 0 <= d < |l.docs| ==>
                  ObservationsOf(m.obs, d) == if d in todo && ObservationsOf(l.obs, d) == []
                                              then Extraction(d, extract(l.docs[d].content))
                                              else ObservationsOf(l.obs, d))
    decreases |todo|
  {
    hide Extract, ObservationsOf;
    if todo == [] {
    } else {
      var k := |todo| - 1;
      ExtractEachObservations(l, extract, todo[..k]);
      var m := ExtractEach(l, extract, todo[..k]);
      ExtractKeepsDocs(m, extract, todo[k]);
      ExtractKeepsOwners(m, extract, todo[k]);
      forall d | 0 <= d < |l.docs| { ExtractedObservations(m, extract, todo[k], d); }
    }
  }

  lemma ApplyKeepsExact(l: Ledger, extract: string -> seq<Candidate>, op: Op)
    requires CrawledAreNoneOrExact(l, extract)
    ensures CrawledAreNoneOrExact(Apply(l, extract, op), extract)
  {
    hide LastContent, ObserveAll, ImportPrefix, ExtractEach, ObservationsOf, Unextracted, ObservationOf, Extraction;
    var m := Apply(l, extract, op);
    match op
    case CrawlOp(s, t, r, crash) =>
      if m != l {
        var d := Document(s, Some(t), r.content);
        ObserveAllIs(InsertDocument(l, d), |l.docs|, extract(r.content));
        var more := if crash.DiesBeforeExtract? then [] else Extraction(|l.docs|, extract(r.content));
        NewDocumentHasNone(l.obs, |l.docs|);
        assert l.obs + [] == l.obs;
        assert (l.docs + [d])[|l.docs|] == d;
        OwnExtraction(|l.docs|, extract(r.content));
        NewDocumentKeepsExact(l, m, extract, d, more);
      }
    case RowOp(s, content, values, context, dies) =>
      var d := Document(s, None, content);
      ObserveAllIs(InsertDocument(l, d), |l.docs|, RowCandidates(values, context));
      OwnExtraction(|l.docs|, RowCandidates(values, context));
      assert l.obs + [] == l.obs;
      NewDocumentKeepsExact(l, m, extract, d,
                            if dies then [] else Extraction(|l.docs|, RowCandidates(values, context)));
    case ImportOp(s, e, now) =>
      var n := NormalizeTypeScript(e.raw);
      if n.value.Some? {
        ImportTables(l, s, e, now, 6);
        NewDocumentKeepsExact(l, m, extract, Document(s, None, e.content),
                              [Observation(|l.docs|, e.raw, n.value, e.displayName)]);
      } else { SkippedImport(l, s, e, now); }
    case NormalizeOp =>
      var todo := Unextracted(l, |l.docs|);
      ExtractEachObservations(l, extract, todo);
      forall d | 0 <= d < |m.docs| && m.docs[d].target.Some? ensures NoneOrExact(m, extract, d) {
        assert NoneOrExact(l, extract, d);
      }
  }

  lemma NewDocumentHasNone(obs: seq<Observation>, d: DocId)
    requires forall k :: 0 <= k < |obs| ==> obs[k].doc < d
    ensures !HasObservations(obs, d)
  {
  }

  lemma OwnExtraction(d: DocId, cs: seq<Candidate>)
    ensures forall k :: 0 <= k < |Extraction(d, cs)| ==> Extraction(d, cs)[k].doc == d
  {
  }

  /** Crash recovery: at any time a crawled document's observations are none or exactly its
      extraction; after `run_normalize_only` they are exactly its extraction. */
  lemma {:induction false} CrashesLeaveNoneOrExact(extract: string -> seq<Candidate>, ops: seq<Op>)
    ensures CrawledAreNoneOrExact(ApplyAll(EMPTY_LEDGER, extract, ops), extract)
    ensures var m := NormalizeOnly(ApplyAll(EMPTY_LEDGER, extract, ops), extract);
            forall d :: 0 <= d < |m.docs| && m.docs[d].target.Some? ==>
              ObservationsOf(m.obs, d) == Extraction(d, extract(m.docs[d].content))
  {
    hide Apply, ObservationsOf, Extraction, HasObservations, NoneOrExact, ExtractEach;
    if ops == [] {
    } else {
      CrashesLeaveNoneOrExact(extract, ops[..|ops| - 1]);
      ApplyKeepsExact(ApplyAll(EMPTY_LEDGER, extract, ops[..|ops| - 1]), extract, ops[|ops| - 1]);
    }
    ReextractionIsExact(ApplyAll(EMPTY_LEDGER, extract, ops), extract);
  }

  lemma ReextractionIsExact(l: Ledger, extract: string -> seq<Candidate>)
    requires CrawledAreNoneOrExact(l, extract)
    ensures var m := NormalizeOnly(l, extract);
            forall d :: 0 <= d < |m.docs| && m.docs[d].target.Some? ==>
              ObservationsOf(m.obs, d) == Extraction(d, extract(m.docs[d].content))
  {
    hide ObservationsOf, Extraction, HasObservations, ExtractEach;
    var m := NormalizeOnly(l, extract);
    ExtractEachObservations(l, extract, Unextracted(l, |l.docs|));
    forall d | 0 <= d < |m.docs| && m.docs[d].target.Some?
      ensures ObservationsOf(m.obs, d) == Extraction(d, extract(m.docs[d].content))
    {
      assert NoneOrExact(l, extract, d);
      ObservationsExist(l.obs, d);
    }
  }
}
