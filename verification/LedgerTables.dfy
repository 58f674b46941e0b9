/** The evidence tables, what each committed write does to them, and what they must agree on.
    Documents and observations are insert-only; their ids are their positions. */
module LedgerTables {
  import opened Options
  import opened Normalizer
  import opened Registry

  type DocId = nat
  type ObsId = nat

  /** A stored document. Its content stands for its hash, which is taken to be injective. */
  datatype Document = Document(source: SourceId, target: Option<TargetId>, content: string)

  datatype Candidate = Candidate(raw: string, context: string)

  datatype Observation = Observation(doc: DocId, raw: string, value: Option<string>, context: string)

  datatype PhoneRow = PhoneRow(kind: PhoneType, count: nat)

  datatype Claim = RuleBased | UserConfirmed

  /** The unique key of `phone_identities`. */
  datatype IdentityKey = IdentityKey(phone: string, name: string, claim: Claim)

  datatype ReviewStatus = Unreviewed | Confirmed

  datatype Identity = Identity(displayName: string, identityType: string, category: Option<string>,
                               confidence: int, evidenceCount: nat, status: ReviewStatus, lastSeenAt: int)

  datatype Link = Link(identity: IdentityKey, obs: ObsId)

  datatype Ledger = Ledger(
    docs: seq<Document>,
    obs: seq<Observation>,
    phones: map<string, PhoneRow>,
    identities: map<IdentityKey, Identity>,
    evidence: set<Link>)

  // ----- Committed writes -----

  /** One more sighting. The crawler's upsert overwrites the type, the importer's does not. */
  function UpsertPhone(phones: map<string, PhoneRow>, p: string, kind: PhoneType,
                       overwrite: bool): map<string, PhoneRow> {
    if p in phones then
      phones[p := PhoneRow(if overwrite then kind else phones[p].kind, phones[p].count + 1)]
    else phones[p := PhoneRow(kind, 1)]
  }

  function ObservationOf(doc: DocId, c: Candidate): Observation {
    Observation(doc, c.raw, Normalize(c.raw).value, c.context)
  }

  /** Insert the observation and, when it normalizes, count the phone. */
  function Observe(l: Ledger, doc: DocId, c: Candidate): Ledger {
    var n := Normalize(c.raw);
    l.(obs := l.obs + [ObservationOf(doc, c)],
       phones := if n.value.Some? then UpsertPhone(l.phones, n.value.value, n.kind, true) else l.phones)
  }

  function ObserveAll(l: Ledger, doc: DocId, cs: seq<Candidate>): Ledger {
    if cs == [] then l else Observe(ObserveAll(l, doc, cs[..|cs| - 1]), doc, cs[|cs| - 1])
  }

  /** One observation for each candidate, in order, with its text as found and its normalized value. */
  predicate FromCandidates(more: seq<Observation>, doc: DocId, cs: seq<Candidate>) {
    |more| == |cs| && forall k :: 0 <= k < |cs| ==>
      more[k].doc == doc && more[k].raw == cs[k].raw && more[k].context == cs[k].context
      && more[k].value == Normalize(cs[k].raw).value
  }

  lemma {:induction false} ObserveAllStores(l: Ledger, doc: DocId, cs: seq<Candidate>) returns (more: seq<Observation>)
    ensures ObserveAll(l, doc, cs).docs == l.docs && ObserveAll(l, doc, cs).obs == l.obs + more
    ensures FromCandidates(more, doc, cs)
  {
    hide Normalize;
    if cs == [] {
      more := [];
    } else {
      var m := |cs| - 1;
      var earlier := ObserveAllStores(l, doc, cs[..m]);
      more := earlier + [ObservationOf(doc, cs[m])];
    }
  }

  predicate HasObservations(obs: seq<Observation>, doc: DocId) {
    exists k :: 0 <= k < |obs| && obs[k].doc == doc
  }

  /** `extract_and_store_observations`: one transaction, skipped for a document already done. */
  function Extract(l: Ledger, extract: string -> seq<Candidate>, doc: DocId): Ledger
    requires doc < |l.docs|
  {
    if HasObservations(l.obs, doc) then l else ObserveAll(l, doc, extract(l.docs[doc].content))
  }

  function InsertDocument(l: Ledger, d: Document): Ledger {
    l.(docs := l.docs + [d])
  }

  // ----- Agreement -----

  function CountOf(obs: seq<Observation>, p: string): nat {
    if obs == [] then 0
    else CountOf(obs[..|obs| - 1], p) + if obs[|obs| - 1].value == Some(p) then 1 else 0
  }

  /** A phone row exists exactly for an observed number, counts its observations, and carries the
      type its value has. */
  predicate PhoneAgrees(l: Ledger, p: string) {
    && (p in l.phones <==> CountOf(l.obs, p) > 0)
    && (p in l.phones ==> l.phones[p].count == CountOf(l.obs, p) && l.phones[p].kind == KindOf(p))
  }

  ghost predicate Conserved(l: Ledger) {
    && (forall k :: 0 <= k < |l.obs| ==> l.obs[k].doc < |l.docs|)
    && forall p :: PhoneAgrees(l, p)
  }

  lemma CountAppend(obs: seq<Observation>, o: Observation, p: string)
    ensures CountOf(obs + [o], p) == CountOf(obs, p) + if o.value == Some(p) then 1 else 0
  {
    assert (obs + [o])[..|obs|] == obs;
  }

  lemma ObserveConserves(l: Ledger, doc: DocId, c: Candidate)
    requires Conserved(l) && doc < |l.docs|
    ensures Conserved(Observe(l, doc, c))
  {
    hide CountOf, Normalize, KindOf;
    var m := Observe(l, doc, c);
    if Normalize(c.raw).value.Some? { CanonicalForm(c.raw, Normalize(c.raw).value.value); }
    forall p ensures PhoneAgrees(m, p) {
      assert PhoneAgrees(l, p);
      CountAppend(l.obs, ObservationOf(doc, c), p);
    }
  }

  lemma {:induction false} ObserveAllConserves(l: Ledger, doc: DocId, cs: seq<Candidate>)
    requires Conserved(l) && doc < |l.docs|
    ensures Conserved(ObserveAll(l, doc, cs)) && ObserveAll(l, doc, cs).docs == l.docs
  {
    hide Conserved;
    if cs == [] {
    } else {
      ObserveAllConserves(l, doc, cs[..|cs| - 1]);
      ObserveConserves(ObserveAll(l, doc, cs[..|cs| - 1]), doc, cs[|cs| - 1]);
    }
  }

  lemma InsertConserves(l: Ledger, d: Document)
    requires Conserved(l)
    ensures Conserved(InsertDocument(l, d))
  {
    forall p ensures PhoneAgrees(InsertDocument(l, d), p) { assert PhoneAgrees(l, p); }
  }
}
