/** The writers of the evidence ledger: crawl, extraction, dataset rows and confirmed identities. */
module LedgerWriters {
  import opened Options
  import opened Regexes
  import opened Normalizer
  import opened LedgerTables
  import opened Registry

  // ----- Crawling one target -----

  datatype Response = NotModified | FetchFailed | Fetched(content: string)

  /** Where a crawl dies, if it does: each point lies between two commits. */
  datatype Crash = Completes | DiesBeforeInsert | DiesBeforeExtract

  /** The contents stored for a target, oldest first. */
  function History(docs: seq<Document>, t: TargetId): seq<string> {
    if docs == [] then []
    else History(docs[..|docs| - 1], t) + if docs[|docs| - 1].target == Some(t) then [docs[|docs| - 1].content] else []
  }

  /** `ORDER BY created_at DESC LIMIT 1` */
  function LastContent(docs: seq<Document>, t: TargetId): Option<string> {
    var h := History(docs, t);
    if h == [] then None else Some(h[|h| - 1])
  }

  /** The latest document of the target holds this content. */
  predicate LatestHolds(docs: seq<Document>, t: TargetId, c: string) {
    exists k :: 0 <= k < |docs| && docs[k].target == Some(t) && docs[k].content == c &&
      forall j :: k < j < |docs| ==> docs[j].target != Some(t)
  }

  lemma {:induction false} LastContentIsTheLatest(docs: seq<Document>, t: TargetId, c: string)
    ensures LastContent(docs, t) == Some(c) <==> LatestHolds(docs, t, c)
  {
    if docs == [] {
    } else {
      var m := |docs| - 1;
      LastContentIsTheLatest(docs[..m], t, c);
      assert forall k :: 0 <= k < m ==> docs[..m][k] == docs[k];
    }
  }

  function Crawl(l: Ledger, extract: string -> seq<Candidate>, source: SourceId, t: TargetId, r: Response,
                 crash: Crash): Ledger {
    if !r.Fetched? || LastContent(l.docs, t) == Some(r.content) || crash.DiesBeforeInsert? then l
    else
      var m := InsertDocument(l, Document(source, Some(t), r.content));
      if crash.DiesBeforeExtract? then m else Extract(m, extract, |l.docs|)
  }

  // ----- Dataset rows -----

  /** One candidate for each phone column that is not blank. */
  function RowCandidates(values: seq<string>, context: string): seq<Candidate> {
    if values == [] then []
    else
      var v := Strip(Python, values[|values| - 1]);
      RowCandidates(values[..|values| - 1], context) + if v == "" then [] else [Candidate(v, context)]
  }

  /** The columns that are not blank, in their order. */
  function Filled(values: seq<string>): (r: seq<nat>)
    ensures forall k :: 0 <= k < |r| ==> r[k] < |values| && Strip(Python, values[r[k]]) != ""
    ensures forall i, k :: 0 <= i < k < |r| ==> r[i] < r[k]
  {
    if values == [] then []
    else
      var m := |values| - 1;
      Filled(values[..m]) + if Strip(Python, values[m]) == "" then [] else [m]
  }

  lemma {:induction false} FilledIsComplete(values: seq<string>)
    ensures forall i :: i in Filled(values) <==> 0 <= i < |values| && Strip(Python, values[i]) != ""
  {
    hide Strip;
    if values == [] {
    } else {
      FilledIsComplete(values[..|values| - 1]);
    }
  }

  lemma {:induction false} CandidatesAreTheFilled(values: seq<string>, context: string)
    ensures |RowCandidates(values, context)| == |Filled(values)|
    ensures forall k :: 0 <= k < |Filled(values)| ==>
              RowCandidates(values, context)[k] == Candidate(Strip(Python, values[Filled(values)[k]]), context)
  {
    hide Strip;
    if values == [] {
    } else {
      CandidatesAreTheFilled(values[..|values| - 1], context);
    }
  }

  function ProcessRow(l: Ledger, source: SourceId, content: string, values: seq<string>, context: string,
                      dies: bool): Ledger {
    var m := InsertDocument(l, Document(source, None, content));
    if dies then m else ObserveAll(m, |l.docs|, RowCandidates(values, context))
  }

  // ----- Identities confirmed by the user -----

  /** `name` is the display name lower-cased, trimmed and with its blanks collapsed. */
  datatype UserConfirmedEntry = UserConfirmedEntry(raw: string, displayName: string, name: string, identityType: string,
                         category: Option<string>, content: string)

  function LinkCount(evidence: set<Link>, key: IdentityKey): nat {
    |set x | x in evidence && x.identity == key|
  }

  function KeyOf(e: UserConfirmedEntry, p: string): IdentityKey {
    IdentityKey(p, e.name, UserConfirmed)
  }

  /** The ledger after k of the importer's six separately committed statements. */
  function ImportPrefix(l: Ledger, source: SourceId, e: UserConfirmedEntry, now: int, k: nat): Ledger
    requires k <= 6
    decreases k
  {
    var n := NormalizeTypeScript(e.raw);
    if n.value.None? || k == 0 then l
    else
      var m := ImportPrefix(l, source, e, now, k - 1);
      var key := KeyOf(e, n.value.value);
      match k
      case 1 => InsertDocument(m, Document(source, None, e.content))
      case 2 => m.(obs := m.obs + [Observation(|l.docs|, e.raw, n.value, e.displayName)])
      case 3 => m.(phones := UpsertPhone(m.phones, n.value.value, n.kind, false))
      case 4 => m.(identities := m.identities[key :=
                     if key in m.identities then m.identities[key].(category := e.category, lastSeenAt := now)
                     else Identity(e.displayName, e.identityType, e.category, 95, 1, Confirmed, now)])
      case 5 => m.(evidence := m.evidence + {Link(key, |l.obs|)})
      case 6 =>
        if key in m.identities then
          m.(identities := m.identities[key := m.identities[key].(evidenceCount := LinkCount(m.evidence, key))])
        else m
  }

  /** One observation for each phone column in `filled`, which are those that are not blank, in order. */
  ghost predicate FromColumns(more: seq<Observation>, doc: DocId, values: seq<string>, filled: seq<nat>,
                              context: string) {
    && (forall i :: i in filled <==> 0 <= i < |values| && Strip(Python, values[i]) != "")
    && (forall i, k :: 0 <= i < k < |filled| ==> filled[i] < filled[k])
    && |more| == |filled| && forall k :: 0 <= k < |filled| ==>
         && filled[k] < |values|
         && var raw := Strip(Python, values[filled[k]]);
            more[k].doc == doc && more[k].raw == raw && more[k].context == context
            && more[k].value == Normalize(raw).value
  }

  /** What a row leaves: its document, and these observations. */
  lemma RowStores(l: Ledger, source: SourceId, content: string, values: seq<string>, context: string)
    returns (filled: seq<nat>, more: seq<Observation>)
    ensures var m := ProcessRow(l, source, content, values, context, false);
            m.docs == l.docs + [Document(source, None, content)] && m.obs == l.obs + more
    ensures |filled| == |RowCandidates(values, context)| && FromColumns(more, |l.docs|, values, filled, context)
  {
    hide Strip, Normalize, RowCandidates, ObserveAll, Filled;
    filled := Filled(values);
    FilledIsComplete(values);
    CandidatesAreTheFilled(values, context);
    var stored := InsertDocument(l, Document(source, None, content));
    more := ObserveAllStores(stored, |l.docs|, RowCandidates(values, context));
  }

  function Import(l: Ledger, source: SourceId, e: UserConfirmedEntry, now: int): Ledger {
    ImportPrefix(l, source, e, now, 6)
  }

  // ----- Extraction of what was left over -----

  /** `run_normalize_only`: `todo` are the documents its query found without observations. */
  function ExtractEach(l: Ledger, extract: string -> seq<Candidate>, todo: seq<DocId>): Ledger
    requires forall k :: 0 <= k < |todo| ==> todo[k] < |l.docs|
    decreases |todo|
  {
    if todo == [] then l
    else
      var m := ExtractEach(l, extract, todo[..|todo| - 1]);
      if todo[|todo| - 1] < |m.docs| then Extract(m, extract, todo[|todo| - 1]) else m
  }

  function Unextracted(l: Ledger, n: nat): (r: seq<DocId>)
    requires n <= |l.docs|
    ensures forall k :: 0 <= k < |r| ==> r[k] < n
    ensures forall d :: d in r <==> 0 <= d < n && !HasObservations(l.obs, d)
  {
    if n == 0 then [] else Unextracted(l, n - 1) + if HasObservations(l.obs, n - 1) then [] else [n - 1]
  }

  function NormalizeOnly(l: Ledger, extract: string -> seq<Candidate>): Ledger {
    ExtractEach(l, extract, Unextracted(l, |l.docs|))
  }

  // ----- Runs -----

  datatype Op =
    | CrawlOp(source: SourceId, target: TargetId, response: Response, crash: Crash)
    | RowOp(source: SourceId, content: string, values: seq<string>, context: string, dies: bool)
    | ImportOp(source: SourceId, entry: UserConfirmedEntry, now: int)
    | NormalizeOp

  function Apply(l: Ledger, extract: string -> seq<Candidate>, op: Op): Ledger {
    match op
    case CrawlOp(s, t, r, crash) => Crawl(l, extract, s, t, r, crash)
    case RowOp(s, content, values, context, dies) => ProcessRow(l, s, content, values, context, dies)
    case ImportOp(s, e, now) => Import(l, s, e, now)
    case NormalizeOp => NormalizeOnly(l, extract)
  }

  function ApplyAll(l: Ledger, extract: string -> seq<Candidate>, ops: seq<Op>): Ledger {
    if ops == [] then l else Apply(ApplyAll(l, extract, ops[..|ops| - 1]), extract, ops[|ops| - 1])
  }

  const EMPTY_LEDGER := Ledger([], [], map[], map[], {})

  // ----- Conservation -----

  lemma ExtractConserves(l: Ledger, extract: string -> seq<Candidate>, doc: DocId)
    requires Conserved(l) && doc < |l.docs|
    ensures Conserved(Extract(l, extract, doc)) && Extract(l, extract, doc).docs == l.docs
  {
    hide Conserved, ObserveAll;
    ObserveAllConserves(l, doc, extract(l.docs[doc].content));
  }

  lemma {:induction false} ExtractEachConserves(l: Ledger, extract: string -> seq<Candidate>, todo: seq<DocId>)
    requires Conserved(l) && forall k :: 0 <= k < |todo| ==> todo[k] < |l.docs|
    ensures Conserved(ExtractEach(l, extract, todo)) && ExtractEach(l, extract, todo).docs == l.docs
    decreases |todo|
  {
    hide Conserved, Extract;
    if todo == [] {
    } else {
      ExtractEachConserves(l, extract, todo[..|todo| - 1]);
      ExtractConserves(ExtractEach(l, extract, todo[..|todo| - 1]), extract, todo[|todo| - 1]);
    }
  }

  lemma CrawlConserves(l: Ledger, extract: string -> seq<Candidate>, source: SourceId, t: TargetId, r: Response,
                       crash: Crash)
    requires Conserved(l)
    ensures Conserved(Crawl(l, extract, source, t, r, crash))
  {
    hide Conserved, Extract, LastContent;
    if r.Fetched? {
      var m := InsertDocument(l, Document(source, Some(t), r.content));
      InsertConserves(l, Document(source, Some(t), r.content));
      ExtractConserves(m, extract, |l.docs|);
    }
  }

  /** After three statements the importer has counted what it observed; only between its second
      and third is a phone one sighting short. */
  lemma ImportBoundary(l: Ledger, source: SourceId, e: UserConfirmedEntry, now: int, k: nat)
    requires Conserved(l) && k <= 6 && NormalizeTypeScript(e.raw).value.Some?
    ensures Conserved(ImportPrefix(l, source, e, now, k)) <==> k != 2
  {
    hide CountOf, Normalize, NormalizeTypeScript, KindOf, LinkCount;
    var n := NormalizeTypeScript(e.raw);
    var p := n.value.value;
    ImplementationsAgree(e.raw);
    CanonicalForm(e.raw, p);
    var o := Observation(|l.docs|, e.raw, n.value, e.displayName);
    var m := ImportPrefix(l, source, e, now, k);
    ImportTables(l, source, e, now, k);
    forall q ensures PhoneAgrees(l, q) && (k != 2 ==> PhoneAgrees(m, q)) {
      assert PhoneAgrees(l, q);
      CountAppend(l.obs, o, q);
    }
    if k == 2 {
      CountAppend(l.obs, o, p);
      assert !PhoneAgrees(m, p);
    }
  }

  lemma ImportTables(l: Ledger, source: SourceId, e: UserConfirmedEntry, now: int, k: nat)
    requires k <= 6 && NormalizeTypeScript(e.raw).value.Some?
    ensures var n, m := NormalizeTypeScript(e.raw), ImportPrefix(l, source, e, now, k);
            && m.docs == (if k >= 1 then l.docs + [Document(source, None, e.content)] else l.docs)
            && m.obs == (if k >= 2 then l.obs + [Observation(|l.docs|, e.raw, n.value, e.displayName)] else l.obs)
            && m.phones == (if k >= 3 then UpsertPhone(l.phones, n.value.value, n.kind, false) else l.phones)
    decreases k
  {
    hide NormalizeTypeScript, LinkCount, UpsertPhone;
    if k > 0 { ImportTables(l, source, e, now, k - 1); }
  }

  lemma ApplyConserves(l: Ledger, extract: string -> seq<Candidate>, op: Op)
    requires Conserved(l)
    ensures Conserved(Apply(l, extract, op))
  {
    hide Conserved, Crawl, ImportPrefix, ExtractEach, ObserveAll;
    match op
    case CrawlOp(s, t, r, crash) => CrawlConserves(l, extract, s, t, r, crash);
    case RowOp(s, content, values, context, dies) =>
      InsertConserves(l, Document(s, None, content));
      ObserveAllConserves(InsertDocument(l, Document(s, None, content)), |l.docs|, RowCandidates(values, context));
    case ImportOp(s, e, now) =>
      if NormalizeTypeScript(e.raw).value.Some? {
        ImportBoundary(l, s, e, now, 6);
      } else {
        SkippedImport(l, s, e, now);
      }
    case NormalizeOp => ExtractEachConserves(l, extract, Unextracted(l, |l.docs|));
  }

  lemma SkippedImport(l: Ledger, source: SourceId, e: UserConfirmedEntry, now: int)
    requires NormalizeTypeScript(e.raw).value.None?
    ensures Import(l, source, e, now) == l
  {
  }

  /** Ledger conservation: whatever crawls, rows, imports and re-extractions ran, with crawls and
      rows dying between commits or not, every phone's counter is its number of observations and
      its type is its value's. */
  lemma {:induction false} LedgerIsConserved(extract: string -> seq<Candidate>, ops: seq<Op>)
    ensures Conserved(ApplyAll(EMPTY_LEDGER, extract, ops))
  {
    hide Conserved, Apply;
    if ops == [] {
      NothingIsConserved();
    } else {
      LedgerIsConserved(extract, ops[..|ops| - 1]);
      ApplyConserves(ApplyAll(EMPTY_LEDGER, extract, ops[..|ops| - 1]), extract, ops[|ops| - 1]);
    }
  }

  lemma NothingIsConserved()
    ensures Conserved(EMPTY_LEDGER)
  {
  }
}
