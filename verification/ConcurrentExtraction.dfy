/** Extractions that overlap: a crawl, its retry and a re-extraction each look for observations of a
    document first, and store what they extracted in one transaction afterwards. */
module ConcurrentExtraction {
  import opened LedgerTables
  import opened LedgerWriters
  import opened CrawlHistory

  type ProcessId = string

  /** The committed ledger, and what each process found without observations and has not stored yet. */
  datatype Store = Store(ledger: Ledger, pending: map<ProcessId, DocId>)

  /** An extraction ends by its commit, or aborted by a crash or a deadlock between two of them. */
  datatype ExtractionEvent =
    | Added(document: Document)
    | Looked(p: ProcessId, doc: DocId)
    | Committed(p: ProcessId)
    | Aborted(p: ProcessId)

  const NOTHING := Store(EMPTY_LEDGER, map[])

  predicate CanStore(s: Store, p: ProcessId) {
    p in s.pending && s.pending[p] < |s.ledger.docs|
  }

  /** The counters move by relative updates under row locks, so commits take effect one by one. */
  function Proceed(s: Store, extract: string -> seq<Candidate>, e: ExtractionEvent): Store {
    match e
    case Added(d) => s.(ledger := InsertDocument(s.ledger, d))
    case Looked(p, doc) =>
      if p !in s.pending && doc < |s.ledger.docs| && !HasObservations(s.ledger.obs, doc)
      then s.(pending := s.pending[p := doc]) else s
    case Committed(p) =>
      if CanStore(s, p) then
        Store(ObserveAll(s.ledger, s.pending[p], extract(s.ledger.docs[s.pending[p]].content)), s.pending - {p})
      else s
    case Aborted(p) => s.(pending := s.pending - {p})
  }

  /** The store after the first k events. */
  function After(extract: string -> seq<Candidate>, es: seq<ExtractionEvent>, k: nat): Store
    requires k <= |es|
  {
    if k == 0 then NOTHING else Proceed(After(extract, es, k - 1), extract, es[k - 1])
  }

  /** The i-th event stores an extraction of d. */
  predicate Stores(extract: string -> seq<Candidate>, es: seq<ExtractionEvent>, i: nat, d: DocId)
    requires i < |es|
  {
    var s := After(extract, es, i);
    es[i].Committed? && CanStore(s, es[i].p) && s.pending[es[i].p] == d
  }

  function StoreCount(extract: string -> seq<Candidate>, es: seq<ExtractionEvent>, k: nat, d: DocId): nat
    requires k <= |es|
  {
    if k == 0 then 0 else StoreCount(extract, es, k - 1, d) + if Stores(extract, es, k - 1, d) then 1 else 0
  }

  // ----- Counters -----

  /** However extractions overlap, phone counters agree with the observations. */
  lemma {:induction false} OverlapsConserve(extract: string -> seq<Candidate>, es: seq<ExtractionEvent>, k: nat)
    requires k <= |es|
    ensures Conserved(After(extract, es, k).ledger)
  {
    hide Conserved, ObserveAll;
    if k == 0 {
      NothingIsConserved();
    } else {
      OverlapsConserve(extract, es, k - 1);
      var s, e := After(extract, es, k - 1), es[k - 1];
      match e
      case Added(d) => InsertConserves(s.ledger, d);
      case Looked(_, _) =>
      case Committed(p) =>
        if CanStore(s, p) {
          ObserveAllConserves(s.ledger, s.pending[p], extract(s.ledger.docs[s.pending[p]].content));
        }
      case Aborted(_) =>
    }
  }

  // ----- Copies -----

  function Copies(o: seq<Observation>, n: nat): seq<Observation> {
    if n == 0 then [] else Copies(o, n - 1) + o
  }

  lemma {:induction false} CopiesLength(o: seq<Observation>, n: nat)
    ensures |Copies(o, n)| == n * |o|
  {
    if n == 0 {
    } else {
      CopiesLength(o, n - 1);
      assert n * |o| == (n - 1) * |o| + |o|;
    }
  }

  lemma StepKeepsDocs(s: Store, extract: string -> seq<Candidate>, e: ExtractionEvent)
    ensures s.ledger.docs <= Proceed(s, extract, e).ledger.docs
  {
    hide ObserveAll;
    if e.Committed? && CanStore(s, e.p) {
      ObserveAllIs(s.ledger, s.pending[e.p], extract(s.ledger.docs[s.pending[e.p]].content));
    }
  }

  /** Observations belong to stored documents. */
  predicate Owned(l: Ledger) {
    forall k :: 0 <= k < |l.obs| ==> l.obs[k].doc < |l.docs|
  }

  lemma CommitAppends(s: Store, extract: string -> seq<Candidate>, p: ProcessId, d: DocId)
    requires CanStore(s, p) && Owned(s.ledger)
    ensures var doc, t := s.pending[p], Proceed(s, extract, Committed(p)).ledger;
            && t.docs == s.ledger.docs && Owned(t)
            && ObservationsOf(t.obs, d) == ObservationsOf(s.ledger.obs, d)
               + if d == doc then Extraction(doc, extract(s.ledger.docs[doc].content)) else []
  {
    hide ObserveAll, ObservationsOf;
    var doc := s.pending[p];
    var cs := extract(s.ledger.docs[doc].content);
    ObserveAllIs(s.ledger, doc, cs);
    ObservationsConcat(s.ledger.obs, Extraction(doc, cs), d);
    OwnExtraction(doc, cs);
    ObservationsOfOne(Extraction(doc, cs), d, doc);
  }

  /** The observations of d are n copies of its extraction. */
  predicate AreCopies(l: Ledger, extract: string -> seq<Candidate>, d: DocId, n: nat) {
    && Owned(l)
    && (d >= |l.docs| ==> n == 0 && ObservationsOf(l.obs, d) == [])
    && (d < |l.docs| ==> ObservationsOf(l.obs, d) == Copies(Extraction(d, extract(l.docs[d].content)), n))
  }

  lemma StoreMakesCopy(s: Store, extract: string -> seq<Candidate>, p: ProcessId, d: DocId, n: nat)
    requires CanStore(s, p) && AreCopies(s.ledger, extract, d, n)
    ensures AreCopies(Proceed(s, extract, Committed(p)).ledger, extract, d, n + if s.pending[p] == d then 1 else 0)
  {
    hide ObserveAll, ObservationsOf, Extraction, Proceed;
    CommitAppends(s, extract, p, d);
  }

  lemma OthersMakeNone(s: Store, extract: string -> seq<Candidate>, e: ExtractionEvent, d: DocId, n: nat)
    requires AreCopies(s.ledger, extract, d, n) && (e.Committed? ==> !CanStore(s, e.p))
    ensures AreCopies(Proceed(s, extract, e).ledger, extract, d, n)
  {
    hide ObserveAll, ObservationsOf, Extraction, HasObservations;
  }

  /** A document's observations are copies of its extraction, one for each commit. */
  lemma {:induction false} ObservationsAreCopies(extract: string -> seq<Candidate>, es: seq<ExtractionEvent>, k: nat,
                                                 d: DocId)
    requires k <= |es|
    ensures AreCopies(After(extract, es, k).ledger, extract, d, StoreCount(extract, es, k, d))
  {
    hide AreCopies, Proceed;
    if k == 0 {
      NoCopies(extract, d);
    } else {
      ObservationsAreCopies(extract, es, k - 1, d);
      var s, e, n := After(extract, es, k - 1), es[k - 1], StoreCount(extract, es, k - 1, d);
      if e.Committed? && CanStore(s, e.p) {
        StoreMakesCopy(s, extract, e.p, d, n);
      } else {
        OthersMakeNone(s, extract, e, d, n);
      }
    }
  }

  lemma NoCopies(extract: string -> seq<Candidate>, d: DocId)
    ensures AreCopies(EMPTY_LEDGER, extract, d, 0)
  {
    NoObservationsYet([], d);
  }

  // ----- Overlaps -----

  /** Two processes both found d without observations, and both stored it: the one at i, while the
      other was still at it, and the other at j. */
  predicate Overlap(extract: string -> seq<Candidate>, es: seq<ExtractionEvent>, i: nat, j: nat, d: DocId)
    requires i < j < |es|
  {
    && Stores(extract, es, i, d) && Stores(extract, es, j, d)
    && es[j].p != es[i].p
    && es[j].p in After(extract, es, i).pending && After(extract, es, i).pending[es[j].p] == d
  }

  /** With observations in place nobody starts on d again. */
  lemma NobodyStarts(s: Store, extract: string -> seq<Candidate>, e: ExtractionEvent, d: DocId, q: ProcessId)
    requires HasObservations(s.ledger.obs, d)
    ensures HasObservations(Proceed(s, extract, e).ledger.obs, d)
    ensures var t := Proceed(s, extract, e); q in t.pending && t.pending[q] == d ==> q in s.pending && s.pending[q] == d
  {
    hide ObserveAll;
    var k :| 0 <= k < |s.ledger.obs| && s.ledger.obs[k].doc == d;
    var t := Proceed(s, extract, e);
    if e.Committed? && CanStore(s, e.p) {
      ObserveAllIs(s.ledger, s.pending[e.p], extract(s.ledger.docs[s.pending[e.p]].content));
    }
    assert t.ledger.obs[k].doc == d;
  }

  lemma {:induction false} PendingSince(extract: string -> seq<Candidate>, es: seq<ExtractionEvent>, i: nat, j: nat,
                                        d: DocId, q: ProcessId)
    requires i <= j <= |es| && HasObservations(After(extract, es, i).ledger.obs, d)
    requires q in After(extract, es, j).pending && After(extract, es, j).pending[q] == d
    ensures q in After(extract, es, i).pending && After(extract, es, i).pending[q] == d
    ensures HasObservations(After(extract, es, j).ledger.obs, d)
    decreases j
  {
    hide Proceed, HasObservations;
    if i == j {
    } else {
      ObservationsStay(extract, es, i, j - 1, d);
      NobodyStarts(After(extract, es, j - 1), extract, es[j - 1], d, q);
      PendingSince(extract, es, i, j - 1, d, q);
    }
  }

  lemma {:induction false} ObservationsStay(extract: string -> seq<Candidate>, es: seq<ExtractionEvent>, i: nat, j: nat,
                                            d: DocId)
    requires i <= j <= |es| && HasObservations(After(extract, es, i).ledger.obs, d)
    ensures HasObservations(After(extract, es, j).ledger.obs, d)
    decreases j
  {
    hide Proceed, HasObservations;
    if i == j {
    } else {
      ObservationsStay(extract, es, i, j - 1, d);
      NobodyStarts(After(extract, es, j - 1), extract, es[j - 1], d, "");
    }
  }

  lemma {:induction false} DocsStay(extract: string -> seq<Candidate>, es: seq<ExtractionEvent>, i: nat, j: nat)
    requires i <= j <= |es|
    ensures After(extract, es, i).ledger.docs <= After(extract, es, j).ledger.docs
    decreases j
  {
    hide Proceed;
    if i == j {
    } else {
      DocsStay(extract, es, i, j - 1);
      StepKeepsDocs(After(extract, es, j - 1), extract, es[j - 1]);
    }
  }

  /** d is a document with something to extract. */
  predicate HasCandidates(extract: string -> seq<Candidate>, es: seq<ExtractionEvent>, d: DocId) {
    d < |After(extract, es, |es|).ledger.docs| && extract(After(extract, es, |es|).ledger.docs[d].content) != []
  }

  /** Storing an extraction with candidates leaves observations. */
  lemma StoredHasObservations(extract: string -> seq<Candidate>, es: seq<ExtractionEvent>, i: nat, d: DocId)
    requires i < |es| && Stores(extract, es, i, d)
    requires HasCandidates(extract, es, d)
    ensures HasObservations(After(extract, es, i + 1).ledger.obs, d)
  {
    hide ObserveAll, ObservationsOf, HasObservations, Extraction, Proceed;
    var s := After(extract, es, i);
    ObservationsAreCopies(extract, es, i, d);
    DocsStay(extract, es, i, |es|);
    CommitAppends(s, extract, es[i].p, d);
    ExtractionLength(d, extract(s.ledger.docs[d].content));
    ObservationsExist(After(extract, es, i + 1).ledger.obs, d);
  }

  /** Two commits of a document with candidates overlapped. */
  lemma TwoStoresOverlap(extract: string -> seq<Candidate>, es: seq<ExtractionEvent>, i: nat, j: nat, d: DocId)
    requires i < j < |es| && Stores(extract, es, i, d) && Stores(extract, es, j, d)
    requires HasCandidates(extract, es, d)
    ensures Overlap(extract, es, i, j, d)
  {
    hide After, HasObservations;
    StoredHasObservations(extract, es, i, d);
    PendingSince(extract, es, i + 1, j, d, es[j].p);
    StoredIsGone(extract, es, i, d);
  }

  lemma StoredIsGone(extract: string -> seq<Candidate>, es: seq<ExtractionEvent>, i: nat, d: DocId)
    requires i < |es| && Stores(extract, es, i, d)
    ensures After(extract, es, i + 1).pending == After(extract, es, i).pending - {es[i].p}
  {
  }

  lemma ExtractionLength(d: DocId, cs: seq<Candidate>)
    ensures |Extraction(d, cs)| == |cs|
  {
  }

  /** More than one commit, and which two. */
  lemma {:induction false} CountedStore(extract: string -> seq<Candidate>, es: seq<ExtractionEvent>, k: nat, d: DocId)
    returns (i: nat)
    requires k <= |es| && StoreCount(extract, es, k, d) >= 1
    ensures i < k && Stores(extract, es, i, d) && StoreCount(extract, es, i, d) == StoreCount(extract, es, k, d) - 1
  {
    hide Stores;
    if Stores(extract, es, k - 1, d) {
      i := k - 1;
    } else {
      i := CountedStore(extract, es, k - 1, d);
    }
  }

  lemma {:induction false} StoresAreCounted(extract: string -> seq<Candidate>, es: seq<ExtractionEvent>, i: nat, k: nat,
                                            d: DocId)
    requires i < k <= |es| && Stores(extract, es, i, d)
    ensures StoreCount(extract, es, k, d) >= StoreCount(extract, es, i, d) + 1
    decreases k
  {
    hide Stores;
    if k == i + 1 {
    } else {
      StoresAreCounted(extract, es, i, k - 1, d);
    }
  }

  ghost predicate NoOverlap(extract: string -> seq<Candidate>, es: seq<ExtractionEvent>, d: DocId) {
    forall i, j :: 0 <= i < j < |es| ==> !Overlap(extract, es, i, j, d)
  }

  /** Exactly when a document is extracted twice. Its observations are none or exactly its extraction
      if and only if no two processes overlapped on it: the look for observations protects against
      all repetition but that. */
  lemma ExtractedOnceUnlessOverlap(extract: string -> seq<Candidate>, es: seq<ExtractionEvent>, d: DocId)
    requires HasCandidates(extract, es, d)
    ensures NoneOrExact(After(extract, es, |es|).ledger, extract, d) <==> NoOverlap(extract, es, d)
    ensures NoOverlap(extract, es, d) <==> StoreCount(extract, es, |es|, d) <= 1
  {
    hide After, Stores, StoreCount, ObservationsOf, Overlap, Extraction;
    var o := Extraction(d, extract(After(extract, es, |es|).ledger.docs[d].content));
    var n := StoreCount(extract, es, |es|, d);
    ExtractionLength(d, extract(After(extract, es, |es|).ledger.docs[d].content));
    ObservationsAreCopies(extract, es, |es|, d);
    NoneOrOne(o, n);
    if n >= 2 {
      var j := CountedStore(extract, es, |es|, d);
      var i := CountedStore(extract, es, j, d);
      TwoStoresOverlap(extract, es, i, j, d);
    } else {
      forall i, j | 0 <= i < j < |es| ensures !Overlap(extract, es, i, j, d) {
        if Overlap(extract, es, i, j, d) { OverlapCountsTwice(extract, es, i, j, d); }
      }
    }
  }

  lemma OverlapCountsTwice(extract: string -> seq<Candidate>, es: seq<ExtractionEvent>, i: nat, j: nat, d: DocId)
    requires i < j < |es| && Overlap(extract, es, i, j, d)
    ensures StoreCount(extract, es, |es|, d) >= 2
  {
    hide After, StoreCount, Stores;
    StoresAreCounted(extract, es, i, j, d);
    StoresAreCounted(extract, es, j, |es|, d);
  }

  lemma NoneOrOne(o: seq<Observation>, n: nat)
    requires o != []
    ensures (Copies(o, n) == [] || Copies(o, n) == o) <==> n <= 1
  {
    CopiesLength(o, n);
    if n == 1 {
      assert Copies(o, 1) == [] + o;
    } else if n >= 2 {
      assert n * |o| >= 2 * |o|;
    }
  }

  // ----- Two processes -----

  /** A crawl that has committed its document, and a re-extraction that starts before the crawl's own. */
  function TwoExtractors(d: Document): seq<ExtractionEvent> {
    [Added(d), Looked("crawl", 0), Looked("normalize-only", 0), Committed("normalize-only"), Committed("crawl")]
  }

  lemma TwoExtractorsOverlap(extract: string -> seq<Candidate>, d: Document)
    ensures Overlap(extract, TwoExtractors(d), 3, 4, 0)
  {
    var es := TwoExtractors(d);
    var s1 := Proceed(NOTHING, extract, es[0]);
    var s2 := Proceed(s1, extract, es[1]);
    var s3 := Proceed(s2, extract, es[2]);
    assert "crawl"[0] != "normalize-only"[0];
    assert After(extract, es, 0) == NOTHING;
    assert After(extract, es, 1) == s1 && After(extract, es, 2) == s2;
    assert After(extract, es, 3) == s3;
    assert s3.pending["crawl"] == 0 && s3.pending["normalize-only"] == 0;
    StepKeepsDocs(s3, extract, es[3]);
    assert After(extract, es, 4) == Proceed(s3, extract, es[3]);
  }
}
