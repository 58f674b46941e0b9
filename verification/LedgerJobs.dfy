/** The loops that write the ledger, each equal to the write it is specified by. */
module LedgerJobs {
  import opened Options
  import opened Regexes
  import opened Normalizer
  import opened LedgerTables
  import opened LedgerWriters
  import opened Registry

  function ImportAll(l: Ledger, source: SourceId, entries: seq<UserConfirmedEntry>, now: int): Ledger {
    if entries == [] then l
    else Import(ImportAll(l, source, entries[..|entries| - 1], now), source, entries[|entries| - 1], now)
  }

  datatype ImportResult = Skipped(reason: string) | Imported(identity: IdentityKey)

  function ResultOf(e: UserConfirmedEntry): ImportResult {
    var n := NormalizeTypeScript(e.raw);
    if n.value.None? then Skipped("invalid_phone_format") else Imported(KeyOf(e, n.value.value))
  }

  function CrawlEach(l: Ledger, extract: string -> seq<Candidate>, source: SourceId,
                     batch: seq<(TargetId, Response)>): Ledger {
    if batch == [] then l
    else
      var last := batch[|batch| - 1];
      Crawl(CrawlEach(l, extract, source, batch[..|batch| - 1]), extract, source, last.0, last.1, Completes)
  }

  class EvidenceDb {
    var docs: seq<Document>
    var obs: seq<Observation>
    var phones: map<string, PhoneRow>
    var identities: map<IdentityKey, Identity>
    var evidence: set<Link>

    /** The HTML extractor, seen as a function of the stored content. */
    const extract: string -> seq<Candidate>

    constructor (extract: string -> seq<Candidate>)
      ensures View() == EMPTY_LEDGER && this.extract == extract
    {
      docs, obs, phones, identities, evidence := [], [], map[], map[], {};
      this.extract := extract;
    }

    function View(): Ledger
      reads this
    {
      Ledger(docs, obs, phones, identities, evidence)
    }

    method InsertRawDocument(d: Document) returns (id: DocId)
      modifies this`docs
      ensures View() == InsertDocument(old(View()), d) && id == |old(docs)|
    {
      id := |docs|;
      docs := docs + [d];
    }

    method InsertObservation(doc: DocId, c: Candidate)
      modifies this`obs, this`phones
      ensures View() == Observe(old(View()), doc, c)
      ensures |obs| == |old(obs)| + 1 && obs[..|old(obs)|] == old(obs)
      ensures var o := obs[|old(obs)|];
              o.doc == doc && o.raw == c.raw && o.context == c.context && o.value == Normalize(c.raw).value
    {
      var n := Normalize(c.raw);
      obs := obs + [Observation(doc, c.raw, n.value, c.context)];
      if n.value.Some? {
        var p := n.value.value;
        phones := phones[p := PhoneRow(n.kind, if p in phones then phones[p].count + 1 else 1)];
      }
    }

    /** Returns the number of candidates stored, 0 for a document already extracted. */
    method ExtractAndStoreObservations(doc: DocId) returns (stored: nat)
      requires doc < |docs|
      modifies this`obs, this`phones
      ensures View() == Extract(old(View()), extract, doc)
      ensures stored == if HasObservations(old(obs), doc) then 0 else |extract(docs[doc].content)|
      ensures |old(obs)| <= |obs| && obs[..|old(obs)|] == old(obs)
      ensures FromCandidates(obs[|old(obs)|..], doc, if HasObservations(old(obs), doc) then []
                                                     else extract(docs[doc].content))
    {
      hide Observe, Normalize;
      if HasObservations(obs, doc) {
        assert obs[|obs|..] == [];
        return 0;
      }
      var candidates := extract(docs[doc].content);
      for k := 0 to |candidates|
        invariant View() == ObserveAll(old(View()), doc, candidates[..k])
      {
        assert candidates[..k + 1][..k] == candidates[..k];
        InsertObservation(doc, candidates[k]);
      }
      assert candidates[..|candidates|] == candidates;
      stored := |candidates|;
      ghost var more := ObserveAllStores(old(View()), doc, candidates);
      assert obs[|old(obs)|..] == more;
    }

    /** `run_crawl_url_job` after its fetch. */
    method RunCrawlUrlJob(source: SourceId, t: TargetId, r: Response)
      modifies this`docs, this`obs, this`phones
      ensures View() == Crawl(old(View()), extract, source, t, r, Completes)
      ensures if !r.Fetched? || LatestHolds(old(docs), t, r.content) then View() == old(View())
              else docs == old(docs) + [Document(source, Some(t), r.content)]
    {
      hide LatestHolds;
      if r.Fetched? { LastContentIsTheLatest(docs, t, r.content); }
      if !r.Fetched? { return; }
      if LastContent(docs, t) == Some(r.content) { return; }
      var id := InsertRawDocument(Document(source, Some(t), r.content));
      var _ := ExtractAndStoreObservations(id);
    }

    method CrawlSource(source: SourceId, batch: seq<(TargetId, Response)>)
      modifies this`docs, this`obs, this`phones
      ensures View() == CrawlEach(old(View()), extract, source, batch)
    {
      hide Crawl;
      for k := 0 to |batch|
        invariant View() == CrawlEach(old(View()), extract, source, batch[..k])
      {
        assert batch[..k + 1][..k] == batch[..k];
        RunCrawlUrlJob(source, batch[k].0, batch[k].1);
      }
      assert batch[..|batch|] == batch;
    }

    /** Extracts every document its query finds without observations. */
    method RunNormalizeOnly()
      modifies this`obs, this`phones
      ensures View() == NormalizeOnly(old(View()), extract)
    {
      hide Extract;
      var todo := Unextracted(View(), |docs|);
      for k := 0 to |todo|
        invariant docs == old(docs) && View() == ExtractEach(old(View()), extract, todo[..k])
      {
        assert todo[..k + 1][..k] == todo[..k];
        var _ := ExtractAndStoreObservations(todo[k]);
      }
      assert todo[..|todo|] == todo;
    }

    /** Returns the number of observations created for the row: one for each phone column in `filled`,
        which are those that are not blank, in their order. */
    method ProcessDatasetRow(source: SourceId, content: string, values: seq<string>,
                             context: string) returns (created: nat, ghost filled: seq<nat>)
      modifies this`docs, this`obs, this`phones
      ensures View() == ProcessRow(old(View()), source, content, values, context, false)
      ensures created == |RowCandidates(values, context)|
      ensures docs == old(docs) + [Document(source, None, content)] && created == |filled|
      ensures |old(obs)| <= |obs| && obs[..|old(obs)|] == old(obs)
      ensures FromColumns(obs[|old(obs)|..], |old(docs)|, values, filled, context)
    {
      hide Observe, Normalize, Strip, FromColumns;
      var id := InsertRawDocument(Document(source, None, content));
      ghost var start := View();
      created := 0;
      for k := 0 to |values|
        invariant View() == ObserveAll(start, id, RowCandidates(values[..k], context))
        invariant created == |RowCandidates(values[..k], context)|
      {
        assert values[..k + 1][..k] == values[..k];
        ghost var soFar := RowCandidates(values[..k], context);
        var v := Strip(Python, values[k]);
        if v == "" {
          assert soFar + [] == soFar;
          continue;
        }
        assert (soFar + [Candidate(v, context)])[..|soFar|] == soFar;
        InsertObservation(id, Candidate(v, context));
        created := created + 1;
      }
      assert values[..|values|] == values;
      ghost var more;
      filled, more := RowStores(old(View()), source, content, values, context);
      assert obs[|old(obs)|..] == more;
    }

    /** The six statements of one confirmed identity. */
    method ImportOne(source: SourceId, e: UserConfirmedEntry, now: int) returns (r: ImportResult)
      modifies this
      ensures View() == Import(old(View()), source, e, now)
      ensures r == ResultOf(e)
      ensures NormalizeTypeScript(e.raw).value.None? ==> r.Skipped? && View() == old(View())
      ensures NormalizeTypeScript(e.raw).value.Some? ==>
                && r.Imported? && Some(r.identity.phone) == NormalizeTypeScript(e.raw).value
                && r.identity.name == e.name && r.identity.claim == UserConfirmed
                && docs == old(docs) + [Document(source, None, e.content)]
                && obs == old(obs) + [Observation(|old(docs)|, e.raw, Some(r.identity.phone), e.displayName)]
                && evidence == old(evidence) + {Link(r.identity, |old(obs)|)}
                && r.identity in identities && identities == old(identities)[r.identity := identities[r.identity]]
      ensures r.Imported? && r.identity in identities ==>
                var i := identities[r.identity];
                && i.category == e.category && i.lastSeenAt == now
                && i.evidenceCount == |set x | x in evidence && x.identity == r.identity|
                && (r.identity !in old(identities) ==>
                      i.displayName == e.displayName && i.identityType == e.identityType && i.confidence == 95
                      && i.status == Confirmed)
                && (r.identity in old(identities) ==>
                      var was := old(identities)[r.identity];
                      i.displayName == was.displayName && i.identityType == was.identityType
                      && i.confidence == was.confidence && i.status == was.status)
    {
      hide NormalizeTypeScript;
      var n := NormalizeTypeScript(e.raw);
      if n.value.None? { return Skipped("invalid_phone_format"); }
      ghost var l := View();
      var p := n.value.value;
      var doc := InsertRawDocument(Document(source, None, e.content));
      assert View() == ImportPrefix(l, source, e, now, 1);
      var o := |obs|;
      obs := obs + [Observation(doc, e.raw, n.value, e.displayName)];
      assert View() == ImportPrefix(l, source, e, now, 2);
      phones := phones[p := if p in phones then phones[p].(count := phones[p].count + 1) else PhoneRow(n.kind, 1)];
      assert View() == ImportPrefix(l, source, e, now, 3);
      var key := IdentityKey(p, e.name, UserConfirmed);
      if key in identities {
        identities := identities[key := identities[key].(category := e.category, lastSeenAt := now)];
      } else {
        identities := identities[key := Identity(e.displayName, e.identityType, e.category, 95, 1, Confirmed, now)];
      }
      assert View() == ImportPrefix(l, source, e, now, 4);
      evidence := evidence + {Link(key, o)};
      assert View() == ImportPrefix(l, source, e, now, 5);
      identities := identities[key := identities[key].(evidenceCount := LinkCount(evidence, key))];
      assert View() == ImportPrefix(l, source, e, now, 6);
      r := Imported(key);
    }

    method ImportUserConfirmedIdentities(source: SourceId, entries: seq<UserConfirmedEntry>,
                                         now: int) returns (results: seq<ImportResult>)
      modifies this
      ensures View() == ImportAll(old(View()), source, entries, now)
      ensures |results| == |entries| && forall k :: 0 <= k < |entries| ==> results[k] == ResultOf(entries[k])
    {
      hide ImportPrefix, NormalizeTypeScript, ResultOf;
      results := [];
      for k := 0 to |entries|
        invariant View() == ImportAll(old(View()), source, entries[..k], now)
        invariant |results| == k && forall i :: 0 <= i < k ==> results[i] == ResultOf(entries[i])
      {
        assert entries[..k + 1][..k] == entries[..k];
        var r := ImportOne(source, entries[k], now);
        results := results + [r];
      }
      assert entries[..|entries|] == entries;
    }
  }

  // ----- evidence_count of confirmed identities -----

  /** A confirmed identity's evidence count is its number of linked rows. */
  ghost predicate ConfirmedCountsAgree(l: Ledger) {
    forall k :: k in l.identities && k.claim.UserConfirmed? ==>
        l.identities[k].evidenceCount == LinkCount(l.evidence, k)
  }

  lemma OtherLinksUnchanged(evidence: set<Link>, link: Link, k: IdentityKey)
    requires link.identity != k
    ensures LinkCount(evidence + {link}, k) == LinkCount(evidence, k)
  {
    assert (set x | x in evidence + {link} && x.identity == k) == (set x | x in evidence && x.identity == k);
  }

  /** Importing, however often the same entry is submitted again, keeps the counts equal to the
      links, and links exactly the one observation it made. */
  lemma ImportKeepsConfirmedCounts(l: Ledger, source: SourceId, e: UserConfirmedEntry, now: int)
    requires ConfirmedCountsAgree(l)
    ensures ConfirmedCountsAgree(Import(l, source, e, now))
    ensures var n := NormalizeTypeScript(e.raw);
            n.value.Some? ==>
              Import(l, source, e, now).evidence == l.evidence + {Link(KeyOf(e, n.value.value), |l.obs|)}
  {
    hide NormalizeTypeScript, LinkCount;
    var n := NormalizeTypeScript(e.raw);
    if n.value.Some? {
      var key := KeyOf(e, n.value.value);
      var m := Import(l, source, e, now);
      var m4 := ImportPrefix(l, source, e, now, 4);
      var m5 := ImportPrefix(l, source, e, now, 5);
      assert key in m4.identities && m5.identities == m4.identities;
      ImportIdentities(l, source, e, now);
      forall k | k in m.identities && k.claim.UserConfirmed?
        ensures m.identities[k].evidenceCount == LinkCount(m.evidence, k)
      {
        if k != key { OtherLinksUnchanged(l.evidence, Link(key, |l.obs|), k); }
      }
    }
  }

  /** Links refer to identities and observations that exist, as their foreign keys demand. */
  ghost predicate LinksExist(l: Ledger) {
    forall x :: x in l.evidence ==> x.identity in l.identities && x.obs < |l.obs|
  }

  /** Where an import stands after k statements, a new identity counts an observation it is not linked
      to yet after the fourth, and a known one has a link it does not count yet after the fifth; at no
      other point do a confirmed identity's count and links disagree. */
  lemma ImportCountsExactlyWhen(l: Ledger, source: SourceId, e: UserConfirmedEntry, now: int, k: nat)
    requires ConfirmedCountsAgree(l) && LinksExist(l) && k <= 6 && NormalizeTypeScript(e.raw).value.Some?
    ensures var known := KeyOf(e, NormalizeTypeScript(e.raw).value.value) in l.identities;
            ConfirmedCountsAgree(ImportPrefix(l, source, e, now, k)) <==> !(k == if known then 5 else 4)
  {
    hide NormalizeTypeScript, LinkCount;
    var key := KeyOf(e, NormalizeTypeScript(e.raw).value.value);
    var m := ImportPrefix(l, source, e, now, k);
    var link := Link(key, |l.obs|);
    ImportConfirmed(l, source, e, now, k);
    if key !in l.identities { NoLinks(l, key); }
    OneMoreLink(l.evidence, link);
    forall x | x != key ensures LinkCount(l.evidence + {link}, x) == LinkCount(l.evidence, x) {
      OtherLinksUnchanged(l.evidence, link, x);
    }
    if k == 4 || k == 5 { assert key in m.identities; }
  }

  lemma NoLinks(l: Ledger, key: IdentityKey)
    requires LinksExist(l) && key !in l.identities
    ensures LinkCount(l.evidence, key) == 0
  {
    assert (set x | x in l.evidence && x.identity == key) == {};
  }

  lemma OneMoreLink(evidence: set<Link>, link: Link)
    requires link !in evidence
    ensures LinkCount(evidence + {link}, link.identity) == LinkCount(evidence, link.identity) + 1
  {
    assert (set x | x in evidence + {link} && x.identity == link.identity)
        == (set x | x in evidence && x.identity == link.identity) + {link};
  }

  /** Identities and links after k statements. */
  lemma ImportConfirmed(l: Ledger, source: SourceId, e: UserConfirmedEntry, now: int, k: nat)
    requires k <= 6 && NormalizeTypeScript(e.raw).value.Some?
    ensures var key, m := KeyOf(e, NormalizeTypeScript(e.raw).value.value), ImportPrefix(l, source, e, now, k);
            && m.evidence == (if k >= 5 then l.evidence + {Link(key, |l.obs|)} else l.evidence)
            && (k < 4 ==> m.identities == l.identities)
            && (k >= 4 ==> key in m.identities)
            && (k >= 4 ==> m.identities[key].evidenceCount
                           == if k == 6 then LinkCount(m.evidence, key)
                              else if key in l.identities then l.identities[key].evidenceCount else 1)
            && forall x :: x != key ==> (x in m.identities <==> x in l.identities)
                                        && (x in l.identities ==> m.identities[x] == l.identities[x])
    decreases k
  {
    hide NormalizeTypeScript, LinkCount, UpsertPhone;
    if k == 0 {
    } else {
      ImportConfirmed(l, source, e, now, k - 1);
    }
  }

  lemma ImportIdentities(l: Ledger, source: SourceId, e: UserConfirmedEntry, now: int)
    requires NormalizeTypeScript(e.raw).value.Some?
    ensures var key, m := KeyOf(e, NormalizeTypeScript(e.raw).value.value), Import(l, source, e, now);
            && m.evidence == l.evidence + {Link(key, |l.obs|)} && key in m.identities
            && m.identities[key].evidenceCount == LinkCount(m.evidence, key)
            && forall k :: k != key ==> (k in m.identities <==> k in l.identities)
                                        && (k in l.identities ==> m.identities[k] == l.identities[k])
  {
    hide NormalizeTypeScript, LinkCount;
    var m3 := ImportPrefix(l, source, e, now, 3);
    assert m3 == ImportPrefix(l, source, e, now, 2).(phones := m3.phones);
    var m0, m1 := ImportPrefix(l, source, e, now, 0), ImportPrefix(l, source, e, now, 1);
    var m2 := ImportPrefix(l, source, e, now, 2);
    assert m2.evidence == m1.evidence == m0.evidence;
    assert m2.identities == m1.identities == m0.identities;
    var m4 := ImportPrefix(l, source, e, now, 4);
    var m5 := ImportPrefix(l, source, e, now, 5);
    assert m4.evidence == m3.evidence && m5.identities == m4.identities;
  }
}
