/** Whole runs of the ledger's writers and the aggregation: the evidence adds up. */
module AggregatedLedger {
  import opened Options
  import opened Normalizer
  import opened LedgerTables
  import opened LedgerWriters
  import opened Aggregation
  import opened AggregationLaws
  import opened RowOrder
  import opened Sorting
  import opened Registry

  /** The rows the aggregation joins together: each normalized observation once, in any order.
      `guess` is the name key the rules read off an observation and its source. */
  ghost predicate IsJoin(rows: seq<Row>, obs: seq<Observation>, guess: ObsId -> string) {
    && DistinctIds(rows)
    && (forall r :: r in rows ==> r.obs < |obs| && obs[r.obs].value == Some(r.phone) && r.key == guess(r.obs))
    && (forall o :: 0 <= o < |obs| && obs[o].value.Some? ==> o in IdSet(rows))
  }

  predicate DistinctIds(rows: seq<Row>) {
    forall i, k :: 0 <= i < k < |rows| ==> rows[i].obs != rows[k].obs
  }

  function IdSet(rows: seq<Row>): set<ObsId> {
    set i | 0 <= i < |rows| :: rows[i].obs
  }

  /** One run of the aggregation over the whole ledger. */
  ghost predicate Aggregates(l: Ledger, m: Ledger, rows: seq<Row>, clock: Clock) {
    && m.docs == l.docs && m.obs == l.obs && m.phones == l.phones
    && IdentitiesAfter(l.identities, m.identities, rows, l.phones.Keys, clock)
    && m.evidence == l.evidence + LinksOf(rows, l.phones.Keys)
  }

  datatype Move = Write(op: Op) | Aggregate(rows: seq<Row>, clock: Clock)

  ghost predicate Moves(l: Ledger, m: Ledger, move: Move, extract: string -> seq<Candidate>, guess: ObsId -> string) {
    match move
    case Write(op) => m == Apply(l, extract, op)
    case Aggregate(rows, clock) => IsJoin(rows, l.obs, guess) && Aggregates(l, m, rows, clock)
  }

  /** The ledgers a run goes through, from the empty one. */
  ghost predicate IsRun(ledgers: seq<Ledger>, moves: seq<Move>, extract: string -> seq<Candidate>,
                        guess: ObsId -> string) {
    && |ledgers| == |moves| + 1 && ledgers[0] == EMPTY_LEDGER
    && forall i :: 0 <= i < |moves| ==> Moves(ledgers[i], ledgers[i + 1], moves[i], extract, guess)
  }

  /** Every ledger's rows can be joined, */
  lemma JoinHasAnAnswer(obs: seq<Observation>, guess: ObsId -> string) returns (rows: seq<Row>)
    ensures IsJoin(rows, obs, guess)
  {
    rows := [];
    for o := 0 to |obs|
      invariant DistinctIds(rows) && forall r :: r in rows ==> r.obs < o && obs[r.obs].value == Some(r.phone)
      invariant forall r :: r in rows ==> r.key == guess(r.obs)
      invariant forall q :: 0 <= q < o && obs[q].value.Some? ==> q in IdSet(rows)
    {
      if obs[o].value.Some? {
        var more := rows + [Row(o, obs[o].value.value, guess(o), "", "", None, false, false, false, false)];
        assert forall r :: r in more ==> r in rows || r == more[|rows|];
        assert forall i :: 0 <= i < |rows| ==> more[i] == rows[i] && rows[i] in rows;
        forall q | 0 <= q < o + 1 && obs[q].value.Some? ensures q in IdSet(more) {
          if q < o {
            var i :| 0 <= i < |rows| && rows[i].obs == q;
            assert more[i].obs == q;
          } else {
            assert more[|rows|].obs == q;
          }
        }
        rows := more;
      }
    }
  }

  /** so every run can go on with an aggregation, as it can with any write. */
  lemma RunsGoOn(ledgers: seq<Ledger>, moves: seq<Move>, extract: string -> seq<Candidate>, guess: ObsId -> string,
                 clock: Clock)
    returns (next: Ledger, rows: seq<Row>)
    requires IsRun(ledgers, moves, extract, guess)
    ensures IsRun(ledgers + [next], moves + [Aggregate(rows, clock)], extract, guess)
  {
    hide Apply, IsJoin, AfterRun, LinksOf, IdentitiesAfter;
    var l := ledgers[|moves|];
    rows := JoinHasAnAnswer(l.obs, guess);
    next := l.(identities := AfterRun(l.identities, rows, l.phones.Keys, clock),
               evidence := l.evidence + LinksOf(rows, l.phones.Keys));
    AfterRunIsTheRun(l.identities, rows, l.phones.Keys, clock);
    var longer, steps := ledgers + [next], moves + [Aggregate(rows, clock)];
    forall i | 0 <= i < |steps| ensures Moves(longer[i], longer[i + 1], steps[i], extract, guess) {
      if i < |moves| { assert Moves(ledgers[i], ledgers[i + 1], moves[i], extract, guess); }
    }
  }

  // ----- What holds along a run -----

  /** The observation is one of phone p that the rules name k. */
  predicate Supports(obs: seq<Observation>, guess: ObsId -> string, o: ObsId, p: string, k: string) {
    o < |obs| && obs[o].value == Some(p) && guess(o) == k
  }

  /** Rule-based identities and links come from observations of their phone and name. */
  ghost predicate Grounded(l: Ledger, guess: ObsId -> string) {
    && (forall x :: x in l.evidence && x.identity.claim.RuleBased? ==>
        Supports(l.obs, guess, x.obs, x.identity.phone, x.identity.name))
    && (forall id :: id in l.identities && id.claim.RuleBased? ==>
        exists o :: Supports(l.obs, guess, o, id.phone, id.name))
  }

  /** A writer of the ledger appends observations and leaves the rule-based tables alone. */
  ghost predicate Appends(l: Ledger, m: Ledger) {
    && l.obs <= m.obs
    && (forall x :: x in m.evidence && x.identity.claim.RuleBased? ==> x in l.evidence)
    && (forall id :: id in m.identities && id.claim.RuleBased? ==> id in l.identities)
  }

  lemma {:induction false} ObserveAllAppends(l: Ledger, doc: DocId, cs: seq<Candidate>)
    ensures Appends(l, ObserveAll(l, doc, cs))
  {
    hide Normalize;
    if cs == [] {
    } else {
      ObserveAllAppends(l, doc, cs[..|cs| - 1]);
    }
  }

  lemma ExtractAppends(l: Ledger, extract: string -> seq<Candidate>, doc: DocId)
    requires doc < |l.docs|
    ensures Appends(l, Extract(l, extract, doc))
  {
    hide ObserveAll;
    ObserveAllAppends(l, doc, extract(l.docs[doc].content));
  }

  lemma {:induction false} ExtractEachAppends(l: Ledger, extract: string -> seq<Candidate>, todo: seq<DocId>)
    requires forall k :: 0 <= k < |todo| ==> todo[k] < |l.docs|
    ensures Appends(l, ExtractEach(l, extract, todo))
    decreases |todo|
  {
    hide Extract;
    if todo == [] {
    } else {
      var m, d := ExtractEach(l, extract, todo[..|todo| - 1]), todo[|todo| - 1];
      ExtractEachAppends(l, extract, todo[..|todo| - 1]);
      if d < |m.docs| { ExtractAppends(m, extract, d); }
    }
  }

  lemma {:induction false} ImportAppends(l: Ledger, source: SourceId, e: UserConfirmedEntry, now: int, k: nat)
    requires k <= 6
    ensures Appends(l, ImportPrefix(l, source, e, now, k))
    decreases k
  {
    hide NormalizeTypeScript, UpsertPhone, LinkCount;
    if k == 0 {
    } else {
      ImportAppends(l, source, e, now, k - 1);
    }
  }

  lemma ApplyAppends(l: Ledger, extract: string -> seq<Candidate>, op: Op)
    ensures Appends(l, Apply(l, extract, op))
  {
    hide Extract, LastContent, ImportPrefix, ExtractEach, ObserveAll;
    match op
    case CrawlOp(s, t, r, crash) =>
      if r.Fetched? { ExtractAppends(InsertDocument(l, Document(s, Some(t), r.content)), extract, |l.docs|); }
    case RowOp(s, content, values, context, dies) =>
      ObserveAllAppends(InsertDocument(l, Document(s, None, content)), |l.docs|, RowCandidates(values, context));
    case ImportOp(s, e, now) => ImportAppends(l, s, e, now, 6);
    case NormalizeOp => ExtractEachAppends(l, extract, Unextracted(l, |l.docs|));
  }

  lemma AppendKeepsGrounded(l: Ledger, m: Ledger, guess: ObsId -> string)
    requires Grounded(l, guess) && Appends(l, m)
    ensures Grounded(m, guess)
  {
    assert forall o, p, k :: Supports(l.obs, guess, o, p, k) ==> Supports(m.obs, guess, o, p, k);
  }

  lemma AggregationKeepsGrounded(l: Ledger, m: Ledger, rows: seq<Row>, clock: Clock, guess: ObsId -> string)
    requires Grounded(l, guess) && IsJoin(rows, l.obs, guess) && Aggregates(l, m, rows, clock)
    ensures Grounded(m, guess)
  {
    hide IdentityAfter;
    assert forall i :: 0 <= i < |rows| ==> rows[i] in rows;
    forall id | id in m.identities && id.claim.RuleBased?
      ensures exists o :: Supports(m.obs, guess, o, id.phone, id.name) {
      if id !in l.identities {
        NewIdentityHasRow(l.identities, m.identities, rows, l.phones.Keys, clock, id);
        var i :| 0 <= i < |rows| && id == RuleKey(rows[i].phone, rows[i].key);
        assert Supports(m.obs, guess, rows[i].obs, id.phone, id.name);
      }
    }
  }

  lemma NewIdentityHasRow(before: map<IdentityKey, Identity>, after: map<IdentityKey, Identity>, rows: seq<Row>,
                          phones: set<string>, clock: Clock, id: IdentityKey)
    requires IdentitiesAfter(before, after, rows, phones, clock) && id in after && id !in before
    ensures exists i :: 0 <= i < |rows| && id == RuleKey(rows[i].phone, rows[i].key)
  {
    hide Group, CandidateOf, Upserted;
    KeyHasGroup(rows, phones, id);
    assert Lookup(after, id) == IdentityAfter(before, rows, phones, clock, id);
  }

  lemma {:induction false} RunInvariant(ledgers: seq<Ledger>, moves: seq<Move>, extract: string -> seq<Candidate>,
                                        guess: ObsId -> string, i: nat)
    requires IsRun(ledgers, moves, extract, guess) && i <= |moves|
    ensures Conserved(ledgers[i]) && Grounded(ledgers[i], guess)
  {
    hide Conserved, Grounded, Apply, IsJoin, Aggregates;
    if i == 0 {
      NothingIsConserved();
      NothingIsGrounded(guess);
    } else {
      RunInvariant(ledgers, moves, extract, guess, i - 1);
      var l, m := ledgers[i - 1], ledgers[i];
      assert Moves(l, m, moves[i - 1], extract, guess);
      match moves[i - 1]
      case Write(op) =>
        ApplyConserves(l, extract, op);
        ApplyAppends(l, extract, op);
        AppendKeepsGrounded(l, m, guess);
      case Aggregate(rows, clock) =>
        AggregationConserves(l, m, rows, clock);
        AggregationKeepsGrounded(l, m, rows, clock, guess);
    }
  }

  lemma NothingIsGrounded(guess: ObsId -> string)
    ensures Grounded(EMPTY_LEDGER, guess)
  {
  }

  lemma AggregationConserves(l: Ledger, m: Ledger, rows: seq<Row>, clock: Clock)
    requires Conserved(l) && Aggregates(l, m, rows, clock)
    ensures Conserved(m)
  {
    forall p ensures PhoneAgrees(m, p) { assert PhoneAgrees(l, p); }
  }

  // ----- Counting -----

  lemma {:induction false} DistinctIdCount(g: seq<Row>)
    requires DistinctIds(g)
    ensures |IdSet(g)| == |g|
  {
    if g == [] {
    } else {
      var m := |g| - 1;
      DistinctIdCount(g[..m]);
      assert IdSet(g) == IdSet(g[..m]) + {g[m].obs};
    }
  }

  lemma {:induction false} OfPhoneDistinct(rows: seq<Row>, p: string)
    requires DistinctIds(rows)
    ensures DistinctIds(OfPhone(rows, p))
  {
    if rows == [] {
    } else {
      var m := |rows| - 1;
      OfPhoneDistinct(rows[..m], p);
      OfPhoneMembers(rows[..m], p);
      var g := OfPhone(rows[..m], p);
      assert forall i :: 0 <= i < |g| ==> g[i] in g && g[i] in rows[..m];
    }
  }

  lemma {:induction false} OfKeyDistinct(rows: seq<Row>, k: string)
    requires DistinctIds(rows)
    ensures DistinctIds(OfKey(rows, k))
  {
    if rows == [] {
    } else {
      var m := |rows| - 1;
      OfKeyDistinct(rows[..m], k);
      OfKeyMembers(rows[..m], k);
      var g := OfKey(rows[..m], k);
      assert forall i :: 0 <= i < |g| ==> g[i] in g && g[i] in rows[..m];
    }
  }

  function ObservationsOfPhone(obs: seq<Observation>, p: string): set<ObsId> {
    set o: ObsId | o < |obs| && obs[o].value == Some(p)
  }

  lemma {:induction false} CountOfIsCardinality(obs: seq<Observation>, p: string)
    ensures |ObservationsOfPhone(obs, p)| == CountOf(obs, p)
  {
    if obs == [] {
    } else {
      var m := |obs| - 1;
      CountOfIsCardinality(obs[..m], p);
      var s, t := ObservationsOfPhone(obs, p), ObservationsOfPhone(obs[..m], p);
      assert s == t + if obs[m].value == Some(p) then {m} else {};
    }
  }

  function SupportSet(obs: seq<Observation>, guess: ObsId -> string, p: string, k: string): set<ObsId> {
    set o: ObsId | o < |obs| && Supports(obs, guess, o, p, k)
  }

  lemma IdSetMembers(rows: seq<Row>, o: ObsId)
    ensures o in IdSet(rows) <==> exists r :: r in rows && r.obs == o
  {
    if r :| r in rows && r.obs == o {
      var i :| 0 <= i < |rows| && rows[i] == r;
    }
    if o in IdSet(rows) {
      var i :| 0 <= i < |rows| && rows[i].obs == o;
      assert rows[i] in rows;
    }
  }

  lemma JoinedPhone(rows: seq<Row>, obs: seq<Observation>, guess: ObsId -> string, p: string)
    requires IsJoin(rows, obs, guess)
    ensures |OfPhone(rows, p)| == CountOf(obs, p)
  {
    hide OfPhone, CountOf, IdSet;
    var g := OfPhone(rows, p);
    OfPhoneDistinct(rows, p);
    DistinctIdCount(g);
    CountOfIsCardinality(obs, p);
    OfPhoneMembers(rows, p);
    forall o: ObsId ensures o in IdSet(g) <==> o in ObservationsOfPhone(obs, p) {
      IdSetMembers(g, o);
      IdSetMembers(rows, o);
    }
    assert IdSet(g) == ObservationsOfPhone(obs, p);
  }

  lemma JoinedGroup(rows: seq<Row>, obs: seq<Observation>, guess: ObsId -> string, p: string, k: string)
    requires IsJoin(rows, obs, guess)
    ensures |Group(rows, p, k)| == |SupportSet(obs, guess, p, k)|
  {
    hide OfPhone, OfKey, IdSet;
    var h := Group(rows, p, k);
    OfPhoneDistinct(rows, p);
    OfKeyDistinct(OfPhone(rows, p), k);
    DistinctIdCount(h);
    GroupMembers(rows, p, k);
    forall o: ObsId ensures o in IdSet(h) <==> o in SupportSet(obs, guess, p, k) {
      IdSetMembers(h, o);
      IdSetMembers(rows, o);
    }
    assert IdSet(h) == SupportSet(obs, guess, p, k);
  }

  function GroupSizes(g: seq<Row>, names: seq<string>): nat {
    if names == [] then 0 else GroupSizes(g, names[..|names| - 1]) + |OfKey(g, names[|names| - 1])|
  }

  lemma {:induction false} GroupSizesAppend(g: seq<Row>, r: Row, names: seq<string>)
    requires forall i, k :: 0 <= i < k < |names| ==> names[i] != names[k]
    ensures GroupSizes(g + [r], names) == GroupSizes(g, names) + if r.key in names then 1 else 0
  {
    if names == [] {
    } else {
      var m := |names| - 1;
      GroupSizesAppend(g, r, names[..m]);
      OfKeyAppend(g, r, names[m]);
      assert r.key in names <==> r.key in names[..m] || r.key == names[m];
    }
  }

  lemma {:induction false} NoRowsNoSizes(names: seq<string>)
    ensures GroupSizes([], names) == 0
  {
    if names == [] {
    } else {
      NoRowsNoSizes(names[..|names| - 1]);
    }
  }

  /** The groups partition the rows. */
  lemma {:induction false} GroupSizesAddUp(g: seq<Row>, names: seq<string>)
    requires forall i, k :: 0 <= i < k < |names| ==> names[i] != names[k]
    requires forall r :: r in g ==> r.key in names
    ensures GroupSizes(g, names) == |g|
  {
    if g == [] {
      NoRowsNoSizes(names);
    } else {
      var m := |g| - 1;
      GroupSizesAddUp(g[..m], names);
      GroupSizesAppend(g[..m], g[m], names);
      assert g[..m] + [g[m]] == g;
    }
  }

  // ----- The main result -----

  /** Each observation of a number is linked to exactly one rule-based identity, its number's one of
      its own name; that identity exists and counts its links. */
  ghost predicate EachLinkedOnce(l: Ledger, guess: ObsId -> string) {
    && (forall id: IdentityKey, o: ObsId :: id.claim.RuleBased? ==>
          (Link(id, o) in l.evidence <==> Supports(l.obs, guess, o, id.phone, id.name)))
    && (forall id: IdentityKey :: id.claim.RuleBased? ==>
          (id in l.identities <==> exists o :: Supports(l.obs, guess, o, id.phone, id.name)))
    && (forall id :: id in l.identities && id.claim.RuleBased? ==>
          l.identities[id].evidenceCount == |SupportSet(l.obs, guess, id.phone, id.name)|)
  }

  /** The evidence counts of one phone's rule-based identities, added up along their names. */
  function EvidenceCounts(identities: map<IdentityKey, Identity>, p: string, names: seq<string>): nat {
    if names == [] then 0
    else
      var id := RuleKey(p, names[|names| - 1]);
      EvidenceCounts(identities, p, names[..|names| - 1]) + if id in identities then identities[id].evidenceCount else 0
  }

  /** `names` lists the names of p's rule-based identities, each once. */
  ghost predicate NamesOf(identities: map<IdentityKey, Identity>, p: string, names: seq<string>) {
    && (forall i, k :: 0 <= i < k < |names| ==> names[i] != names[k])
    && (forall n :: n in names <==> RuleKey(p, n) in identities)
  }

  lemma NamesAreListed(identities: map<IdentityKey, Identity>, p: string) returns (names: seq<string>)
    ensures NamesOf(identities, p, names)
  {
    var ids := set id | id in identities && id.claim.RuleBased? && id.phone == p :: id.name;
    names := CanBeListed(ids);
    forall n ensures n in ids <==> RuleKey(p, n) in identities {
      assert RuleKey(p, n).name == n;
    }
  }

  lemma ObservedPhoneIsKnown(l: Ledger, o: ObsId, p: string)
    requires Conserved(l) && o < |l.obs| && l.obs[o].value == Some(p)
    ensures p in l.phones
  {
    assert PhoneAgrees(l, p);
    CountOfIsCardinality(l.obs, p);
    assert o in ObservationsOfPhone(l.obs, p);
  }

  /** What an aggregation leaves for one rule-based identity. */
  lemma AggregatedIdentity(l: Ledger, m: Ledger, rows: seq<Row>, clock: Clock, guess: ObsId -> string, id: IdentityKey)
    requires Conserved(l) && Grounded(l, guess) && IsJoin(rows, l.obs, guess) && Aggregates(l, m, rows, clock)
    requires id.claim.RuleBased?
    ensures id in m.identities <==> exists o :: Supports(l.obs, guess, o, id.phone, id.name)
    ensures id in m.identities ==> Group(rows, id.phone, id.name) != []
    ensures id in m.identities ==> m.identities[id].evidenceCount == |Group(rows, id.phone, id.name)|
  {
    hide Group, CandidateOf, Conserved, LinksOf, KeysOf;
    AggregationKeepsGrounded(l, m, rows, clock, guess);
    if o :| Supports(l.obs, guess, o, id.phone, id.name) {
      SupportedIsKey(l, rows, guess, id, o);
      RunSets(l.identities, m.identities, rows, l.phones.Keys, clock, id);
      GroupCandidate(Group(rows, id.phone, id.name));
    }
  }

  lemma GroupCandidate(g: seq<Row>)
    requires g != []
    ensures |CandidateOf(g).observationIds| == |g|
  {
  }

  lemma SupportedIsKey(l: Ledger, rows: seq<Row>, guess: ObsId -> string, id: IdentityKey, o: ObsId)
    requires Conserved(l) && IsJoin(rows, l.obs, guess) && id.claim.RuleBased? &&
        Supports(l.obs, guess, o, id.phone, id.name)
    ensures id in KeysOf(rows, l.phones.Keys) && Link(id, o) in LinksOf(rows, l.phones.Keys)
  {
    ObservedPhoneIsKnown(l, o, id.phone);
    var i :| 0 <= i < |rows| && rows[i].obs == o;
    assert rows[i] in rows && id == RuleKey(rows[i].phone, rows[i].key);
  }

  lemma AggregatedLinks(l: Ledger, m: Ledger, rows: seq<Row>, clock: Clock, guess: ObsId -> string, id: IdentityKey,
                        o: ObsId)
    requires Conserved(l) && Grounded(l, guess) && IsJoin(rows, l.obs, guess) && Aggregates(l, m, rows, clock)
    requires id.claim.RuleBased?
    ensures Link(id, o) in m.evidence <==> Supports(l.obs, guess, o, id.phone, id.name)
  {
    hide Conserved, IdentitiesAfter;
    AggregationKeepsGrounded(l, m, rows, clock, guess);
    if Supports(l.obs, guess, o, id.phone, id.name) { SupportedIsKey(l, rows, guess, id, o); }
  }

  lemma {:induction false} CountsAreSizes(l: Ledger, m: Ledger, rows: seq<Row>, clock: Clock, guess: ObsId -> string,
                                          p: string, names: seq<string>)
    requires Conserved(l) && Grounded(l, guess) && IsJoin(rows, l.obs, guess) && Aggregates(l, m, rows, clock)
    requires forall n :: n in names ==> RuleKey(p, n) in m.identities
    ensures EvidenceCounts(m.identities, p, names) == GroupSizes(OfPhone(rows, p), names)
  {
    hide Conserved, Grounded, IsJoin, Aggregates, OfPhone, OfKey;
    if names == [] {
    } else {
      CountsAreSizes(l, m, rows, clock, guess, p, names[..|names| - 1]);
      AggregatedIdentity(l, m, rows, clock, guess, RuleKey(p, names[|names| - 1]));
    }
  }

  lemma CountsAddUp(l: Ledger, m: Ledger, rows: seq<Row>, clock: Clock, guess: ObsId -> string, p: string,
                    names: seq<string>)
    requires Conserved(l) && Grounded(l, guess) && IsJoin(rows, l.obs, guess) && Aggregates(l, m, rows, clock)
    requires p in l.phones && NamesOf(m.identities, p, names)
    ensures EvidenceCounts(m.identities, p, names) == l.phones[p].count
  {
    hide Grounded, Aggregates, OfKey, Supports, Group;
    CountsAreSizes(l, m, rows, clock, guess, p, names);
    JoinedPhone(rows, l.obs, guess, p);
    OfPhoneMembers(rows, p);
    forall r | r in OfPhone(rows, p) ensures r.key in names {
      RowSupports(rows, l.obs, guess, r);
      AggregatedIdentity(l, m, rows, clock, guess, RuleKey(p, r.key));
    }
    GroupSizesAddUp(OfPhone(rows, p), names);
    assert PhoneAgrees(l, p);
  }

  lemma RowSupports(rows: seq<Row>, obs: seq<Observation>, guess: ObsId -> string, r: Row)
    requires IsJoin(rows, obs, guess) && r in rows
    ensures Supports(obs, guess, r.obs, r.phone, r.key)
  {
  }

  /** Ledger conservation through aggregation. In any run of crawls, rows, imports, re-extractions
      and aggregations, once an aggregation has run every observation of a number is linked to
      exactly one rule-based identity, every such identity counts its links, and the counts of a
      phone's rule-based identities add up to the phone's own counter, its number of observations. */
  lemma EvidenceAddsUp(ledgers: seq<Ledger>, moves: seq<Move>, extract: string -> seq<Candidate>,
                       guess: ObsId -> string,
                       i: nat, p: string, names: seq<string>)
    requires IsRun(ledgers, moves, extract, guess) && i < |moves| && moves[i].Aggregate?
    ensures EachLinkedOnce(ledgers[i + 1], guess)
    ensures p in ledgers[i + 1].phones <==> CountOf(ledgers[i + 1].obs, p) > 0
    ensures NamesOf(ledgers[i + 1].identities, p, names) && p in ledgers[i + 1].phones ==>
              EvidenceCounts(ledgers[i + 1].identities, p, names)
              == ledgers[i + 1].phones[p].count == CountOf(ledgers[i + 1].obs, p)
  {
    hide Conserved, Grounded, IsJoin, IdentitiesAfter, LinksOf, Group, Supports, SupportSet;
    RunInvariant(ledgers, moves, extract, guess, i);
    RunInvariant(ledgers, moves, extract, guess, i + 1);
    var l, m, rows, clock := ledgers[i], ledgers[i + 1], moves[i].rows, moves[i].clock;
    assert Moves(l, m, moves[i], extract, guess);
    LinkedOnce(l, m, rows, clock, guess);
    ConservedPhone(m, p);
    if NamesOf(m.identities, p, names) && p in m.phones { CountsAddUp(l, m, rows, clock, guess, p, names); }
  }

  lemma ConservedPhone(l: Ledger, p: string)
    requires Conserved(l)
    ensures PhoneAgrees(l, p)
  {
  }

  lemma LinkedOnce(l: Ledger, m: Ledger, rows: seq<Row>, clock: Clock, guess: ObsId -> string)
    requires Conserved(l) && Grounded(l, guess) && IsJoin(rows, l.obs, guess) && Aggregates(l, m, rows, clock)
    ensures EachLinkedOnce(m, guess)
  {
    hide Conserved, Grounded, IsJoin, IdentitiesAfter, LinksOf, Group, Supports, SupportSet;
    forall id: IdentityKey, o: ObsId | id.claim.RuleBased?
      ensures Link(id, o) in m.evidence <==> Supports(m.obs, guess, o, id.phone, id.name)
    {
      AggregatedLinks(l, m, rows, clock, guess, id, o);
    }
    forall id: IdentityKey | id.claim.RuleBased?
      ensures id in m.identities <==> exists o :: Supports(m.obs, guess, o, id.phone, id.name)
      ensures id in m.identities ==> m.identities[id].evidenceCount == |SupportSet(m.obs, guess, id.phone, id.name)|
    {
      AggregatedIdentity(l, m, rows, clock, guess, id);
      JoinedGroup(rows, l.obs, guess, id.phone, id.name);
    }
  }
}
