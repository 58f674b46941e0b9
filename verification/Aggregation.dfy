/** The rule-based aggregation: group observations by phone and guessed name, score, upsert. */
module Aggregation {
  import opened Options
  import opened LedgerTables
  import opened LedgerJobs

  /** One joined row: an observation with its source, and what the rules read off it. The rules
      are deterministic functions of the row, so their results are columns here. */
  datatype Row = Row(obs: ObsId, phone: string, key: string, displayName: string, identityType: string,
                     category: Option<string>, official: bool, trusted: bool, hotline: bool, company: bool)

  // ----- Groups -----

  function OfPhone(rows: seq<Row>, p: string): seq<Row> {
    if rows == [] then []
    else OfPhone(rows[..|rows| - 1], p) + if rows[|rows| - 1].phone == p then [rows[|rows| - 1]] else []
  }

  function OfKey(rows: seq<Row>, k: string): seq<Row> {
    if rows == [] then []
    else OfKey(rows[..|rows| - 1], k) + if rows[|rows| - 1].key == k then [rows[|rows| - 1]] else []
  }

  /** The rows behind one identity. */
  function Group(rows: seq<Row>, p: string, k: string): seq<Row> {
    OfKey(OfPhone(rows, p), k)
  }

  predicate AnyOfficial(g: seq<Row>) { exists i :: 0 <= i < |g| && g[i].official }
  predicate AnyTrusted(g: seq<Row>) { exists i :: 0 <= i < |g| && g[i].trusted }
  predicate AnyHotline(g: seq<Row>) { exists i :: 0 <= i < |g| && g[i].hotline }
  predicate AnyCompany(g: seq<Row>) { exists i :: 0 <= i < |g| && g[i].company }

  /** What `candidatesByKey` accumulates for one key. */
  datatype IdentityCandidate = IdentityCandidate(
    displayName: string, name: string, identityType: string, category: Option<string>, observationIds: seq<ObsId>,
    sourceIsOfficial: bool, sourceTrustHigh: bool, hasHotlineKeyword: bool, hasCongTyKeyword: bool)

  function ObsIds(g: seq<Row>): (r: seq<ObsId>)
    ensures |r| == |g| && forall i :: 0 <= i < |g| ==> r[i] == g[i].obs
  {
    seq(|g|, i requires 0 <= i < |g| => g[i].obs)
  }

  function CandidateOf(g: seq<Row>): IdentityCandidate
    requires g != []
  {
    IdentityCandidate(g[0].displayName, g[0].key, g[0].identityType, g[0].category, ObsIds(g),
                      AnyOfficial(g), AnyTrusted(g), AnyHotline(g), AnyCompany(g))
  }

  function Score(c: IdentityCandidate): int {
    var score := (if c.sourceTrustHigh then 20 else 0) + 10 * |c.observationIds|
                 + (if c.hasHotlineKeyword then 15 else 0) + (if c.hasCongTyKeyword then 15 else 0)
                 + (if c.sourceIsOfficial then 20 else 0);
    if score < 100 then score else 100
  }

  function RuleKey(p: string, k: string): IdentityKey {
    IdentityKey(p, k, RuleBased)
  }

  /** `onConflictDoUpdate`: name and type of an existing identity stay, an absent category too. */
  function Upserted(old_: Option<Identity>, c: IdentityCandidate, now: int): Identity {
    match old_
    case None => Identity(c.displayName, c.identityType, c.category, Score(c), |c.observationIds|, Unreviewed, now)
    case Some(i) => i.(evidenceCount := |c.observationIds|, confidence := Score(c), lastSeenAt := now,
                       category := if c.category.Some? then c.category else i.category)
  }

  // ----- The run, specified pointwise -----

  /** The run reads the clock anew for each identity. */
  type Clock = IdentityKey -> int

  /** Every identity after a run: recomputed from its group if it has one and its phone is known,
      untouched otherwise. */
  ghost predicate IdentitiesAfter(before: map<IdentityKey, Identity>, after: map<IdentityKey, Identity>, rows: seq<Row>,
                                  phones: set<string>, clock: Clock)
  {
    forall id: IdentityKey :: Lookup(after, id) == IdentityAfter(before, rows, phones, clock, id)
  }

  function IdentityAfter(before: map<IdentityKey, Identity>, rows: seq<Row>, phones: set<string>, clock: Clock,
                         id: IdentityKey): Option<Identity> {
    var g := Group(rows, id.phone, id.name);
    if id.claim.RuleBased? && id.phone in phones && g != []
    then Some(Upserted(Lookup(before, id), CandidateOf(g), clock(id)))
    else Lookup(before, id)
  }

  function LinksOf(rows: seq<Row>, phones: set<string>): set<Link> {
    set i | 0 <= i < |rows| && rows[i].phone in phones :: Link(RuleKey(rows[i].phone, rows[i].key), rows[i].obs)
  }

  // ----- Group lemmas -----

  lemma OfPhoneAppend(rows: seq<Row>, r: Row, p: string)
    ensures OfPhone(rows + [r], p) == OfPhone(rows, p) + if r.phone == p then [r] else []
  {
    assert (rows + [r])[..|rows|] == rows;
  }

  lemma OfKeyAppend(rows: seq<Row>, r: Row, k: string)
    ensures OfKey(rows + [r], k) == OfKey(rows, k) + if r.key == k then [r] else []
  {
    assert (rows + [r])[..|rows|] == rows;
  }

  lemma {:induction false} OfPhoneMembers(rows: seq<Row>, p: string)
    ensures forall r :: r in OfPhone(rows, p) <==> r in rows && r.phone == p
  {
    if rows == [] {
    } else {
      OfPhoneMembers(rows[..|rows| - 1], p);
      assert forall r :: r in rows <==> r in rows[..|rows| - 1] || r == rows[|rows| - 1];
    }
  }

  lemma {:induction false} OfKeyMembers(rows: seq<Row>, k: string)
    ensures forall r :: r in OfKey(rows, k) <==> r in rows && r.key == k
  {
    if rows == [] {
    } else {
      OfKeyMembers(rows[..|rows| - 1], k);
      assert forall r :: r in rows <==> r in rows[..|rows| - 1] || r == rows[|rows| - 1];
    }
  }

  lemma GroupMembers(rows: seq<Row>, p: string, k: string)
    ensures forall r :: r in Group(rows, p, k) <==> r in rows && r.phone == p && r.key == k
  {
    OfPhoneMembers(rows, p);
    OfKeyMembers(OfPhone(rows, p), k);
  }

  // ----- The loops -----

  /** Insertion-ordered groups, as a JavaScript Map keeps them. */
  ghost predicate GroupsByPhone(order: seq<string>, groups: map<string, seq<Row>>, rows: seq<Row>) {
    && (forall i, k :: 0 <= i < k < |order| ==> order[i] != order[k])
    && (forall p :: p in order <==> p in groups)
    && (forall p :: p in groups ==> groups[p] != [] && groups[p] == OfPhone(rows, p))
    && (forall r :: r in rows ==> r.phone in groups)
  }

  lemma KnownPhone(order: seq<string>, groups: map<string, seq<Row>>, rows: seq<Row>, r: Row)
    requires GroupsByPhone(order, groups, rows) && r.phone in groups
    ensures GroupsByPhone(order, groups[r.phone := groups[r.phone] + [r]], rows + [r])
  {
    hide OfPhone;
    forall p { OfPhoneAppend(rows, r, p); }
  }

  lemma NewPhone(order: seq<string>, groups: map<string, seq<Row>>, rows: seq<Row>, r: Row)
    requires GroupsByPhone(order, groups, rows) && r.phone !in groups
    ensures GroupsByPhone(order + [r.phone], groups[r.phone := [r]], rows + [r])
  {
    hide OfPhone;
    forall p { OfPhoneAppend(rows, r, p); }
    NoRowsOf(rows, r.phone);
    assert [] + [r] == [r];
  }

  method GroupByPhone(rows: seq<Row>) returns (order: seq<string>, groups: map<string, seq<Row>>)
    ensures GroupsByPhone(order, groups, rows)
  {
    hide GroupsByPhone;
    order, groups := [], map[];
    NoGroups();
    for i := 0 to |rows|
      invariant GroupsByPhone(order, groups, rows[..i])
    {
      var r := rows[i];
      assert rows[..i + 1] == rows[..i] + [r];
      if r.phone !in groups {
        NewPhone(order, groups, rows[..i], r);
        order := order + [r.phone];
        groups := groups[r.phone := [r]];
      } else {
        KnownPhone(order, groups, rows[..i], r);
        groups := groups[r.phone := groups[r.phone] + [r]];
      }
    }
    assert rows[..|rows|] == rows;
  }

  lemma NoGroups()
    ensures GroupsByPhone([], map[], [])
  {
  }

  lemma NoRowsOf(rows: seq<Row>, p: string)
    requires forall r :: r in rows ==> r.phone != p
    ensures OfPhone(rows, p) == []
  {
    OfPhoneMembers(rows, p);
    if OfPhone(rows, p) != [] { assert OfPhone(rows, p)[0] in OfPhone(rows, p); }
  }

  lemma NoRowsWith(rows: seq<Row>, k: string)
    requires forall r :: r in rows ==> r.key != k
    ensures OfKey(rows, k) == []
  {
    OfKeyMembers(rows, k);
    if OfKey(rows, k) != [] { assert OfKey(rows, k)[0] in OfKey(rows, k); }
  }

  ghost predicate CandidatesByKey(order: seq<string>, candidates: map<string, IdentityCandidate>, rows: seq<Row>) {
    && (forall i, k :: 0 <= i < k < |order| ==> order[i] != order[k])
    && (forall k :: k in order <==> k in candidates)
    && (forall k :: k in candidates ==> OfKey(rows, k) != [] && candidates[k] == CandidateOf(OfKey(rows, k)))
    && (forall r :: r in rows ==> r.key in candidates)
  }

  /** The `existing` branch of the loop, and the other one. */
  function Extended(c: IdentityCandidate, r: Row): IdentityCandidate {
    c.(observationIds := c.observationIds + [r.obs],
       sourceIsOfficial := c.sourceIsOfficial || r.official,
       sourceTrustHigh := c.sourceTrustHigh || r.trusted,
       hasHotlineKeyword := c.hasHotlineKeyword || r.hotline,
       hasCongTyKeyword := c.hasCongTyKeyword || r.company)
  }

  function Started(r: Row): IdentityCandidate {
    IdentityCandidate(r.displayName, r.key, r.identityType, r.category, [r.obs],
                      r.official, r.trusted, r.hotline, r.company)
  }

  lemma CandidateExtends(g: seq<Row>, r: Row)
    requires g != []
    ensures CandidateOf(g + [r]) == Extended(CandidateOf(g), r)
  {
    var h := g + [r];
    assert forall i :: 0 <= i < |g| ==> h[i] == g[i];
    assert h[|g|] == r;
    assert ObsIds(h) == ObsIds(g) + [r.obs];
  }

  lemma CandidateStarts(r: Row)
    ensures CandidateOf([r]) == Started(r)
  {
    assert [r][0] == r;
    assert ObsIds([r]) == [r.obs];
  }

  lemma KnownKey(order: seq<string>, candidates: map<string, IdentityCandidate>, rows: seq<Row>, r: Row)
    requires CandidatesByKey(order, candidates, rows) && r.key in candidates
    ensures CandidatesByKey(order, candidates[r.key := Extended(candidates[r.key], r)], rows + [r])
  {
    hide CandidateOf, OfKey, Extended;
    forall k { OfKeyAppend(rows, r, k); }
    CandidateExtends(OfKey(rows, r.key), r);
    assert forall k :: k != r.key ==> OfKey(rows, k) + [] == OfKey(rows, k);
  }

  lemma NewKey(order: seq<string>, candidates: map<string, IdentityCandidate>, rows: seq<Row>, r: Row)
    requires CandidatesByKey(order, candidates, rows) && r.key !in candidates
    ensures CandidatesByKey(order + [r.key], candidates[r.key := Started(r)], rows + [r])
  {
    hide CandidateOf, OfKey, Started;
    forall k { OfKeyAppend(rows, r, k); }
    NoRowsWith(rows, r.key);
    CandidateStarts(r);
    assert [] + [r] == [r];
    assert forall k :: k != r.key ==> OfKey(rows, k) + [] == OfKey(rows, k);
  }

  method CollectCandidates(rows: seq<Row>) returns (order: seq<string>, candidates: map<string, IdentityCandidate>)
    ensures CandidatesByKey(order, candidates, rows)
  {
    hide CandidatesByKey;
    order, candidates := [], map[];
    NoCandidates();
    for i := 0 to |rows|
      invariant CandidatesByKey(order, candidates, rows[..i])
    {
      var r := rows[i];
      assert rows[..i + 1] == rows[..i] + [r];
      if r.key in candidates {
        KnownKey(order, candidates, rows[..i], r);
        candidates := candidates[r.key := Extended(candidates[r.key], r)];
      } else {
        NewKey(order, candidates, rows[..i], r);
        order := order + [r.key];
        candidates := candidates[r.key := Started(r)];
      }
    }
    assert rows[..|rows|] == rows;
  }

  lemma NoCandidates()
    ensures CandidatesByKey([], map[], [])
  {
  }

  // ----- The run over the tables -----

  /** The identities a run upserts. */
  function KeysOf(rows: seq<Row>, phones: set<string>): set<IdentityKey> {
    set i | 0 <= i < |rows| && rows[i].phone in phones :: RuleKey(rows[i].phone, rows[i].key)
  }

  function PhonesOf(rows: seq<Row>): set<string> {
    set i | 0 <= i < |rows| :: rows[i].phone
  }

  /** The tables while the candidates of one phone are upserted: `done` are the keys behind. */
  ghost predicate PhonePartly(before: map<IdentityKey, Identity>, after: map<IdentityKey, Identity>, obs: seq<Row>,
                              p: string,
                              done: set<string>, clock: Clock)
  {
    forall id: IdentityKey :: Lookup(after, id) ==
      if id.claim.RuleBased? && id.phone == p && id.name in done && OfKey(obs, id.name) != []
      then Some(Upserted(Lookup(before, id), CandidateOf(OfKey(obs, id.name)), clock(id)))
      else Lookup(before, id)
  }

  function LinksOfKeys(obs: seq<Row>, p: string, done: set<string>): set<Link> {
    set i | 0 <= i < |obs| && obs[i].key in done :: Link(RuleKey(p, obs[i].key), obs[i].obs)
  }

  function KeySet(obs: seq<Row>): set<string> {
    set i | 0 <= i < |obs| :: obs[i].key
  }

  function LinksTo(key: IdentityKey, ids: seq<ObsId>): set<Link> {
    set i | 0 <= i < |ids| :: Link(key, ids[i])
  }

  lemma LinksToAppend(key: IdentityKey, ids: seq<ObsId>, i: nat)
    requires i < |ids|
    ensures LinksTo(key, ids[..i + 1]) == LinksTo(key, ids[..i]) + {Link(key, ids[i])}
  {
    forall x | x in LinksTo(key, ids[..i + 1]) ensures x in LinksTo(key, ids[..i]) + {Link(key, ids[i])} {
      var k :| 0 <= k < i + 1 && x == Link(key, ids[..i + 1][k]);
      assert k < i ==> ids[..i][k] == ids[k];
    }
    forall x | x in LinksTo(key, ids[..i]) + {Link(key, ids[i])} ensures x in LinksTo(key, ids[..i + 1]) {
      if x in LinksTo(key, ids[..i]) {
        var k :| 0 <= k < i && x == Link(key, ids[..i][k]);
        assert ids[..i + 1][k] == ids[k];
      } else {
        assert ids[..i + 1][i] == ids[i];
      }
    }
  }

  method ComputeScore(c: IdentityCandidate) returns (score: int)
    ensures score == Score(c)
  {
    score := 0;
    if c.sourceTrustHigh { score := score + 20; }
    score := score + 10 * |c.observationIds|;
    if c.hasHotlineKeyword { score := score + 15; }
    if c.hasCongTyKeyword { score := score + 15; }
    if c.sourceIsOfficial { score := score + 20; }
    if score > 100 { score := 100; }
  }

  /** INSERT ... ON CONFLICT DO UPDATE of one candidate's identity. */
  method UpsertIdentity(db: EvidenceDb, key: IdentityKey, c: IdentityCandidate, now: int)
    modifies db`identities
    ensures db.identities == old(db.identities)[key := Upserted(Lookup(old(db.identities), key), c, now)]
    ensures var i := db.identities[key];
            && i.evidenceCount == |c.observationIds| && i.lastSeenAt == now
            && (key !in old(db.identities) ==>
                  i.displayName == c.displayName && i.identityType == c.identityType && i.category == c.category
                  && i.status == Unreviewed)
            && (key in old(db.identities) ==>
                  var was := old(db.identities)[key];
                  && i.displayName == was.displayName && i.identityType == was.identityType && i.status == was.status
                  && i.category == if c.category.Some? then c.category else was.category)
    ensures var points := 10 * |c.observationIds|
                          + (if c.sourceTrustHigh then 20 else 0) + (if c.sourceIsOfficial then 20 else 0)
                          + (if c.hasHotlineKeyword then 15 else 0) + (if c.hasCongTyKeyword then 15 else 0);
            db.identities[key].confidence == if points < 100 then points else 100
  {
    var confidence := ComputeScore(c);
    if key in db.identities {
      var i := db.identities[key].(evidenceCount := |c.observationIds|, confidence := confidence, lastSeenAt := now);
      db.identities := db.identities[key := if c.category.Some? then i.(category := c.category) else i];
    } else {
      db.identities := db.identities[key := Identity(c.displayName, c.identityType, c.category, confidence,
                                                     |c.observationIds|, Unreviewed, now)];
    }
  }

  /** INSERT ... ON CONFLICT DO NOTHING for each observation; counts the rows inserted. */
  method LinkObservations(db: EvidenceDb, key: IdentityKey, ids: seq<ObsId>) returns (created: nat)
    modifies db`evidence
    ensures db.evidence == old(db.evidence) + LinksTo(key, ids)
    ensures created == |db.evidence| - |old(db.evidence)|
  {
    created := 0;
    for i := 0 to |ids|
      invariant db.evidence == old(db.evidence) + LinksTo(key, ids[..i])
      invariant created == |db.evidence| - |old(db.evidence)|
    {
      LinksToAppend(key, ids, i);
      if Link(key, ids[i]) !in db.evidence {
        db.evidence := db.evidence + {Link(key, ids[i])};
        created := created + 1;
      }
    }
    assert ids[..|ids|] == ids;
  }

  function Members(s: seq<string>): set<string> {
    set x | x in s
  }

  lemma MembersAppend(s: seq<string>, i: nat)
    requires i < |s| && forall j, k :: 0 <= j < k < |s| ==> s[j] != s[k]
    ensures Members(s[..i + 1]) == Members(s[..i]) + {s[i]} && s[i] !in Members(s[..i])
  {
    assert s[..i + 1] == s[..i] + [s[i]];
    assert forall x :: x in s[..i] ==> x in s && x != s[i];
  }

  lemma CandidatesAreTheKeys(order: seq<string>, candidates: map<string, IdentityCandidate>, obs: seq<Row>)
    requires CandidatesByKey(order, candidates, obs)
    ensures Members(order) == KeySet(obs)
    ensures forall i :: 0 <= i < |order| ==>
              order[i] in candidates && OfKey(obs, order[i]) != [] &&
                  candidates[order[i]] == CandidateOf(OfKey(obs, order[i]))
  {
    hide CandidateOf;
    forall k | k in candidates ensures k in KeySet(obs) {
      OfKeyMembers(obs, k);
      assert OfKey(obs, k)[0] in OfKey(obs, k);
    }
    assert forall i :: 0 <= i < |obs| ==> obs[i] in obs;
    forall i | 0 <= i < |order| ensures order[i] in candidates { assert order[i] in order; }
  }

  /** The inner loop of the run: one phone's candidates in the order their names appeared. */
  method AggregatePhone(db: EvidenceDb, p: string, obs: seq<Row>, clock: Clock) returns (upserted: nat, created: nat)
    modifies db`identities, db`evidence
    ensures PhonePartly(old(db.identities), db.identities, obs, p, KeySet(obs), clock)
    ensures db.evidence == old(db.evidence) + LinksOfKeys(obs, p, KeySet(obs))
    ensures upserted == |KeySet(obs)| && created == |db.evidence| - |old(db.evidence)|
  {
    hide PhonePartly, CandidateOf, Upserted, LinksOfKeys, Members, KeySet, LinksTo, OfKey;
    var order, candidates := CollectCandidates(obs);
    CandidatesAreTheKeys(order, candidates, obs);
    upserted, created := 0, 0;
    ghost var done: set<string> := {};
    NothingUpserted(db.identities, obs, p, clock);
    assert order[..0] == [];
    for i := 0 to |order|
      invariant done == Members(order[..i])
      invariant upserted == |done| && created == |db.evidence| - |old(db.evidence)|
      invariant PhonePartly(old(db.identities), db.identities, obs, p, done, clock)
      invariant db.evidence == old(db.evidence) + LinksOfKeys(obs, p, done)
    {
      var k := order[i];
      MembersAppend(order, i);
      UpsertExtends(old(db.identities), db.identities, obs, p, done, clock, k);
      LinksExtend(obs, p, done, k);
      var c := candidates[k];
      UpsertIdentity(db, RuleKey(p, k), c, clock(RuleKey(p, k)));
      var n := LinkObservations(db, RuleKey(p, k), c.observationIds);
      upserted := upserted + 1;
      created := created + n;
      done := done + {k};
    }
    assert order[..|order|] == order;
  }

  lemma NothingUpserted(ids: map<IdentityKey, Identity>, obs: seq<Row>, p: string, clock: Clock)
    ensures PhonePartly(ids, ids, obs, p, {}, clock) && LinksOfKeys(obs, p, {}) == {} && Members([]) == {}
  {
  }

  lemma UpsertExtends(before: map<IdentityKey, Identity>, ids: map<IdentityKey, Identity>, obs: seq<Row>, p: string,
                      done: set<string>, clock: Clock, k: string)
    requires PhonePartly(before, ids, obs, p, done, clock) && k !in done && OfKey(obs, k) != []
    ensures PhonePartly(before,
                        ids[RuleKey(p, k) := Upserted(Lookup(ids, RuleKey(p, k)), CandidateOf(OfKey(obs, k)),
                                                      clock(RuleKey(p, k)))],
                        obs, p, done + {k}, clock)
  {
    hide CandidateOf, Upserted, OfKey;
    assert Lookup(ids, RuleKey(p, k)) == Lookup(before, RuleKey(p, k));
  }

  lemma KeyMembers(rows: seq<Row>, phones: set<string>, id: IdentityKey)
    ensures id in KeysOf(rows, phones) <==> exists r :: r in rows && r.phone in phones && id == RuleKey(r.phone, r.key)
  {
    if r :| r in rows && r.phone in phones && id == RuleKey(r.phone, r.key) {
      var i :| 0 <= i < |rows| && rows[i] == r;
    }
    if id in KeysOf(rows, phones) {
      var i :| 0 <= i < |rows| && rows[i].phone in phones && id == RuleKey(rows[i].phone, rows[i].key);
      assert rows[i] in rows;
    }
  }

  lemma LinkMembers(rows: seq<Row>, phones: set<string>, x: Link)
    ensures x in LinksOf(rows, phones) <==>
              exists r :: r in rows && r.phone in phones && x == Link(RuleKey(r.phone, r.key), r.obs)
  {
    if r :| r in rows && r.phone in phones && x == Link(RuleKey(r.phone, r.key), r.obs) {
      var i :| 0 <= i < |rows| && rows[i] == r;
    }
    if x in LinksOf(rows, phones) {
      var i :| 0 <= i < |rows| && rows[i].phone in phones &&
          x == Link(RuleKey(rows[i].phone, rows[i].key), rows[i].obs);
      assert rows[i] in rows;
    }
  }

  lemma KeyLinkMembers(obs: seq<Row>, p: string, done: set<string>, x: Link)
    ensures x in LinksOfKeys(obs, p, done) <==> exists r ::
        r in obs && r.key in done && x == Link(RuleKey(p, r.key), r.obs)
  {
    if r :| r in obs && r.key in done && x == Link(RuleKey(p, r.key), r.obs) {
      var i :| 0 <= i < |obs| && obs[i] == r;
    }
    if x in LinksOfKeys(obs, p, done) {
      var i :| 0 <= i < |obs| && obs[i].key in done && x == Link(RuleKey(p, obs[i].key), obs[i].obs);
      assert obs[i] in obs;
    }
  }

  lemma GroupLinkMembers(g: seq<Row>, key: IdentityKey, x: Link)
    ensures x in LinksTo(key, ObsIds(g)) <==> exists r :: r in g && x == Link(key, r.obs)
  {
    if r :| r in g && x == Link(key, r.obs) {
      var i :| 0 <= i < |g| && g[i] == r;
      assert ObsIds(g)[i] == r.obs;
    }
    if x in LinksTo(key, ObsIds(g)) {
      var i :| 0 <= i < |ObsIds(g)| && x == Link(key, ObsIds(g)[i]);
      assert g[i] in g;
    }
  }

  lemma NameMembers(obs: seq<Row>, k: string)
    ensures k in KeySet(obs) <==> exists r :: r in obs && r.key == k
  {
    if r :| r in obs && r.key == k {
      var i :| 0 <= i < |obs| && obs[i] == r;
    }
    if k in KeySet(obs) {
      var i :| 0 <= i < |obs| && obs[i].key == k;
      assert obs[i] in obs;
    }
  }

  lemma LinksExtend(obs: seq<Row>, p: string, done: set<string>, k: string)
    requires OfKey(obs, k) != []
    ensures var c := CandidateOf(OfKey(obs, k));
            LinksOfKeys(obs, p, done + {k}) == LinksOfKeys(obs, p, done)
                                               + LinksTo(RuleKey(p, k), c.observationIds)
  {
    hide LinksOfKeys, LinksTo, OfKey;
    var links := LinksTo(RuleKey(p, k), ObsIds(OfKey(obs, k)));
    OfKeyMembers(obs, k);
    forall x ensures x in LinksOfKeys(obs, p, done + {k}) <==> x in LinksOfKeys(obs, p, done) + links {
      KeyLinkMembers(obs, p, done + {k}, x);
      KeyLinkMembers(obs, p, done, x);
      GroupLinkMembers(OfKey(obs, k), RuleKey(p, k), x);
    }
  }

  // ----- The outer loop -----

  lemma PhoneJoins(before: map<IdentityKey, Identity>, mid: map<IdentityKey, Identity>,
                   after: map<IdentityKey, Identity>,
                   rows: seq<Row>, phones: set<string>, clock: Clock, p: string)
    requires IdentitiesAfter(before, mid, rows, phones, clock) && p !in phones
    requires PhonePartly(mid, after, OfPhone(rows, p), p, KeySet(OfPhone(rows, p)), clock)
    ensures IdentitiesAfter(before, after, rows, phones + {p}, clock)
  {
    hide CandidateOf, Upserted, OfPhone;
    var obs := OfPhone(rows, p);
    forall id: IdentityKey ensures Lookup(after, id) == IdentityAfter(before, rows, phones + {p}, clock, id) {
      assert Lookup(mid, id) == IdentityAfter(before, rows, phones, clock, id);
      OfKeyMembers(obs, id.name);
      if OfKey(obs, id.name) != [] {
        assert OfKey(obs, id.name)[0] in OfKey(obs, id.name);
        assert id.name in KeySet(obs);
      }
    }
  }

  lemma LinksJoin(rows: seq<Row>, phones: set<string>, p: string)
    ensures LinksOf(rows, phones + {p})
         == LinksOf(rows, phones) + LinksOfKeys(OfPhone(rows, p), p, KeySet(OfPhone(rows, p)))
  {
    hide LinksOf, LinksOfKeys, KeySet, OfPhone;
    var obs := OfPhone(rows, p);
    OfPhoneMembers(rows, p);
    forall x ensures x in LinksOf(rows, phones + {p}) <==>
        x in LinksOf(rows, phones) + LinksOfKeys(obs, p, KeySet(obs)) {
      LinkMembers(rows, phones + {p}, x);
      LinkMembers(rows, phones, x);
      KeyLinkMembers(obs, p, KeySet(obs), x);
      NameMembers(obs, x.identity.name);
    }
  }

  function RuleKeys(p: string, names: set<string>): set<IdentityKey> {
    set k | k in names :: RuleKey(p, k)
  }

  lemma {:induction false} RuleKeysAreDistinct(p: string, names: set<string>)
    ensures |RuleKeys(p, names)| == |names|
  {
    if names == {} {
    } else {
      var k :| k in names;
      RuleKeysAreDistinct(p, names - {k});
      assert RuleKeys(p, names) == RuleKeys(p, names - {k}) + {RuleKey(p, k)};
    }
  }

  lemma KeysJoin(rows: seq<Row>, phones: set<string>, p: string)
    requires p !in phones
    ensures |KeysOf(rows, phones + {p})| == |KeysOf(rows, phones)| + |KeySet(OfPhone(rows, p))|
  {
    hide KeysOf, KeySet, OfPhone;
    var names := KeySet(OfPhone(rows, p));
    OfPhoneMembers(rows, p);
    RuleKeysAreDistinct(p, names);
    forall x
      ensures x in KeysOf(rows, phones + {p}) <==> x in KeysOf(rows, phones) + RuleKeys(p, names)
      ensures !(x in KeysOf(rows, phones) && x in RuleKeys(p, names))
    {
      KeyMembers(rows, phones + {p}, x);
      KeyMembers(rows, phones, x);
      NameMembers(OfPhone(rows, p), x.name);
      assert x in RuleKeys(p, names) <==> x.phone == p && x.claim.RuleBased? && x.name in names;
    }
    assert KeysOf(rows, phones + {p}) == KeysOf(rows, phones) + RuleKeys(p, names);
    assert KeysOf(rows, phones) !! RuleKeys(p, names);
  }

  lemma {:induction false} DistinctLength(s: seq<string>)
    requires forall j, k :: 0 <= j < k < |s| ==> s[j] != s[k]
    ensures |Members(s)| == |s|
  {
    if s == [] {
    } else {
      var m := |s| - 1;
      DistinctLength(s[..m]);
      MembersAppend(s, m);
      assert s[..m + 1] == s;
    }
  }

  lemma PhonesAreTheGroups(order: seq<string>, groups: map<string, seq<Row>>, rows: seq<Row>)
    requires GroupsByPhone(order, groups, rows)
    ensures Members(order) == PhonesOf(rows) && |order| == |PhonesOf(rows)|
    ensures forall i :: 0 <= i < |order| ==> order[i] in groups && groups[order[i]] == OfPhone(rows, order[i])
  {
    DistinctLength(order);
    forall p | p in groups ensures p in PhonesOf(rows) {
      OfPhoneMembers(rows, p);
      assert OfPhone(rows, p)[0] in OfPhone(rows, p);
    }
    assert forall i :: 0 <= i < |rows| ==> rows[i] in rows;
    forall i | 0 <= i < |order| ensures order[i] in groups { assert order[i] in order; }
  }

  /** Only the phones that have rows matter. */
  lemma OnlyPhonesWithRows(before: map<IdentityKey, Identity>, after: map<IdentityKey, Identity>, rows: seq<Row>,
                           phones: set<string>, clock: Clock)
    requires IdentitiesAfter(before, after, rows, PhonesOf(rows) * phones, clock)
    ensures IdentitiesAfter(before, after, rows, phones, clock)
    ensures LinksOf(rows, PhonesOf(rows) * phones) == LinksOf(rows, phones)
    ensures KeysOf(rows, PhonesOf(rows) * phones) == KeysOf(rows, phones)
  {
    hide CandidateOf, Upserted, Group;
    forall id: IdentityKey ensures Lookup(after, id) == IdentityAfter(before, rows, phones, clock, id) {
      assert Lookup(after, id) == IdentityAfter(before, rows, PhonesOf(rows) * phones, clock, id);
      GroupMembers(rows, id.phone, id.name);
      if Group(rows, id.phone, id.name) != [] {
        var r := Group(rows, id.phone, id.name)[0];
        assert r in Group(rows, id.phone, id.name) && r in rows;
      }
    }
  }

  lemma NothingRun(ids: map<IdentityKey, Identity>, rows: seq<Row>, clock: Clock)
    ensures IdentitiesAfter(ids, ids, rows, {}, clock) && LinksOf(rows, {}) == {} && KeysOf(rows, {}) == {} &&
        Members([]) == {}
  {
  }

  method RunAggregation(db: EvidenceDb, rows: seq<Row>, clock: Clock)
    returns (phonesProcessed: nat, identitiesUpserted: nat, evidenceLinksCreated: nat)
    modifies db`identities, db`evidence
    ensures IdentitiesAfter(old(db.identities), db.identities, rows, db.phones.Keys, clock)
    ensures db.evidence == old(db.evidence) + LinksOf(rows, db.phones.Keys)
    ensures phonesProcessed == |PhonesOf(rows)|
    ensures identitiesUpserted == |KeysOf(rows, db.phones.Keys)|
    ensures evidenceLinksCreated == |db.evidence| - |old(db.evidence)|
  {
    hide *;
    var order, groups := GroupByPhone(rows);
    PhonesAreTheGroups(order, groups, rows);
    identitiesUpserted, evidenceLinksCreated := 0, 0;
    ghost var done: set<string> := {};
    NothingRun(db.identities, rows, clock);
    assert order[..0] == [];
    GroupOrderIsDistinct(order, groups, rows);
    for i := 0 to |order|
      invariant done == Members(order[..i]) * db.phones.Keys
      invariant IdentitiesAfter(old(db.identities), db.identities, rows, done, clock)
      invariant db.evidence == old(db.evidence) + LinksOf(rows, done)
      invariant identitiesUpserted == |KeysOf(rows, done)|
      invariant evidenceLinksCreated == |db.evidence| - |old(db.evidence)|
    {
      var p := order[i];
      MembersAppend(order, i);
      if p in db.phones {
        ghost var mid := db.identities;
        var upserted, created := AggregatePhone(db, p, groups[p], clock);
        PhoneJoins(old(db.identities), mid, db.identities, rows, done, clock, p);
        LinksJoin(rows, done, p);
        KeysJoin(rows, done, p);
        identitiesUpserted := identitiesUpserted + upserted;
        evidenceLinksCreated := evidenceLinksCreated + created;
        done := done + {p};
      }
    }
    assert order[..|order|] == order;
    OnlyPhonesWithRows(old(db.identities), db.identities, rows, db.phones.Keys, clock);
    phonesProcessed := |order|;
  }

  lemma GroupOrderIsDistinct(order: seq<string>, groups: map<string, seq<Row>>, rows: seq<Row>)
    requires GroupsByPhone(order, groups, rows)
    ensures forall i, k :: 0 <= i < k < |order| ==> order[i] != order[k]
  {
  }
}
