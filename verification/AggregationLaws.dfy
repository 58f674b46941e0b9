/** What a run of the aggregation means across runs, row orders and growing evidence. */
module AggregationLaws {
  import opened Options
  import opened LedgerTables
  import opened Aggregation

  // ----- Running again -----

  lemma KeyHasGroup(rows: seq<Row>, phones: set<string>, id: IdentityKey)
    ensures id in KeysOf(rows, phones) <==>
        id.claim.RuleBased? && id.phone in phones && Group(rows, id.phone, id.name) != []
  {
    var g := Group(rows, id.phone, id.name);
    GroupMembers(rows, id.phone, id.name);
    if id in KeysOf(rows, phones) {
      var i :| 0 <= i < |rows| && rows[i].phone in phones && id == RuleKey(rows[i].phone, rows[i].key);
      assert rows[i] in g;
    }
    if g != [] {
      assert g[0] in g && g[0] in rows;
      var i :| 0 <= i < |rows| && rows[i] == g[0];
      assert id.claim.RuleBased? ==> id == RuleKey(rows[i].phone, rows[i].key);
    }
  }

  lemma UpsertTwice(old_: Option<Identity>, c: IdentityCandidate, t1: int, t2: int)
    ensures Upserted(Some(Upserted(old_, c, t1)), c, t2) == Upserted(old_, c, t1).(lastSeenAt := t2)
  {
  }

  /** A second run over the same rows creates no evidence link, and of the identities it changes
      the time they were last seen and nothing else. */
  lemma SecondRunChangesOnlyTimes(before: map<IdentityKey, Identity>, first: map<IdentityKey, Identity>,
                                  second: map<IdentityKey, Identity>, rows: seq<Row>, phones: set<string>,
                                  t1: Clock, t2: Clock)
    requires IdentitiesAfter(before, first, rows, phones, t1) && IdentitiesAfter(first, second, rows, phones, t2)
    ensures KeysOf(rows, phones) <= first.Keys && second.Keys == first.Keys
    ensures forall id :: id in first ==>
              second[id] == if id in KeysOf(rows, phones) then first[id].(lastSeenAt := t2(id)) else first[id]
    ensures forall evidence ::
              evidence + LinksOf(rows, phones) + LinksOf(rows, phones) == evidence + LinksOf(rows, phones)
  {
    hide CandidateOf, Upserted, Group, KeysOf, LinksOf;
    forall id: IdentityKey
      ensures id in second <==> id in first
      ensures id in KeysOf(rows, phones) ==> id in first
      ensures id in first ==>
                second[id] == if id in KeysOf(rows, phones) then first[id].(lastSeenAt := t2(id)) else first[id]
    {
      KeyHasGroup(rows, phones, id);
      assert Lookup(first, id) == IdentityAfter(before, rows, phones, t1, id);
      assert Lookup(second, id) == IdentityAfter(first, rows, phones, t2, id);
      if id in KeysOf(rows, phones) {
        UpsertTwice(Lookup(before, id), CandidateOf(Group(rows, id.phone, id.name)), t1(id), t2(id));
      }
    }
  }

  // ----- More rows, and other orders -----

  lemma {:induction false} OfPhoneMultiplicity(rows: seq<Row>, p: string, r: Row)
    ensures multiset(OfPhone(rows, p))[r] == if r.phone == p then multiset(rows)[r] else 0
  {
    if rows == [] {
    } else {
      OfPhoneMultiplicity(rows[..|rows| - 1], p, r);
      assert rows == rows[..|rows| - 1] + [rows[|rows| - 1]];
    }
  }

  lemma {:induction false} OfKeyMultiplicity(rows: seq<Row>, k: string, r: Row)
    ensures multiset(OfKey(rows, k))[r] == if r.key == k then multiset(rows)[r] else 0
  {
    if rows == [] {
    } else {
      OfKeyMultiplicity(rows[..|rows| - 1], k, r);
      assert rows == rows[..|rows| - 1] + [rows[|rows| - 1]];
    }
  }

  lemma GroupMultiplicity(rows: seq<Row>, p: string, k: string, r: Row)
    ensures multiset(Group(rows, p, k))[r] == if r.phone == p && r.key == k then multiset(rows)[r] else 0
  {
    OfKeyMultiplicity(OfPhone(rows, p), k, r);
    OfPhoneMultiplicity(rows, p, r);
  }

  lemma GroupGrows(a: seq<Row>, b: seq<Row>, p: string, k: string)
    requires multiset(a) <= multiset(b)
    ensures multiset(Group(a, p, k)) <= multiset(Group(b, p, k)) && |Group(a, p, k)| <= |Group(b, p, k)|
    ensures forall r :: r in Group(a, p, k) ==> r in Group(b, p, k)
  {
    hide Group;
    var g, h := Group(a, p, k), Group(b, p, k);
    forall r ensures multiset(g)[r] <= multiset(h)[r] {
      GroupMultiplicity(a, p, k, r);
      GroupMultiplicity(b, p, k, r);
    }
    assert multiset(h) == multiset(g) + (multiset(h) - multiset(g));
    assert |multiset(g)| == |g| && |multiset(h)| == |h|;
    forall r | r in g ensures r in h {
      assert r in multiset(g);
      assert r in multiset(h);
    }
  }

  lemma ScoreGrows(g: seq<Row>, h: seq<Row>)
    requires g != [] && |g| <= |h| && forall r :: r in g ==> r in h
    ensures 10 <= Score(CandidateOf(g)) <= Score(CandidateOf(h)) <= 100
  {
    assert forall i :: 0 <= i < |g| ==> g[i] in g && g[i] in h;
  }

  lemma RunSets(before: map<IdentityKey, Identity>, after: map<IdentityKey, Identity>, rows: seq<Row>,
                phones: set<string>,
                clock: Clock, id: IdentityKey)
    requires IdentitiesAfter(before, after, rows, phones, clock) && id in KeysOf(rows, phones)
    ensures Group(rows, id.phone, id.name) != [] && id in after
    ensures after[id] == Upserted(Lookup(before, id), CandidateOf(Group(rows, id.phone, id.name)), clock(id))
  {
    hide CandidateOf, Upserted, Group, KeysOf;
    KeyHasGroup(rows, phones, id);
    assert Lookup(after, id) == IdentityAfter(before, rows, phones, clock, id);
  }

  /** Later runs over more observations never lower a confidence, which stays within 10 to 100. */
  lemma EvidenceNeverHurts(before: map<IdentityKey, Identity>, after: map<IdentityKey, Identity>, rows: seq<Row>,
                           phones: set<string>, clock: Clock,
                           laterBefore: map<IdentityKey, Identity>, later: map<IdentityKey, Identity>,
                           moreRows: seq<Row>,
                           morePhones: set<string>, laterClock: Clock, id: IdentityKey)
    requires IdentitiesAfter(before, after, rows, phones, clock) && id in KeysOf(rows, phones)
    requires IdentitiesAfter(laterBefore, later, moreRows, morePhones, laterClock)
    requires multiset(rows) <= multiset(moreRows) && phones <= morePhones
    ensures id in after && id in later
    ensures 10 <= after[id].confidence <= later[id].confidence <= 100
    ensures after[id].evidenceCount <= later[id].evidenceCount
  {
    hide KeysOf, Group, Score, AnyOfficial, AnyTrusted, AnyHotline, AnyCompany;
    KeyHasGroup(rows, phones, id);
    KeyHasGroup(moreRows, morePhones, id);
    GroupGrows(rows, moreRows, id.phone, id.name);
    RunSets(before, after, rows, phones, clock, id);
    RunSets(laterBefore, later, moreRows, morePhones, laterClock, id);
    ScoreGrows(Group(rows, id.phone, id.name), Group(moreRows, id.phone, id.name));
  }

  // ----- What each piece of evidence is worth -----

  lemma SignalsOfGroup(rows: seq<Row>, p: string, k: string)
    ensures var g := Group(rows, p, k);
            && (g != [] <==> exists s :: s in rows && s.phone == p && s.key == k)
            && (AnyTrusted(g) <==> exists s :: s in rows && s.phone == p && s.key == k && s.trusted)
            && (AnyOfficial(g) <==> exists s :: s in rows && s.phone == p && s.key == k && s.official)
            && (AnyHotline(g) <==> exists s :: s in rows && s.phone == p && s.key == k && s.hotline)
            && (AnyCompany(g) <==> exists s :: s in rows && s.phone == p && s.key == k && s.company)
  {
    hide Group;
    var g := Group(rows, p, k);
    GroupMembers(rows, p, k);
    assert forall i :: 0 <= i < |g| ==> g[i] in g;
    assert forall s :: s in g ==> exists i :: 0 <= i < |g| && g[i] == s;
    assert g != [] ==> g[0] in g;
  }

  lemma GroupAppend(rows: seq<Row>, r: Row)
    ensures Group(rows + [r], r.phone, r.key) == Group(rows, r.phone, r.key) + [r]
  {
    OfPhoneAppend(rows, r, r.phone);
    OfKeyAppend(OfPhone(rows, r.phone), r, r.key);
  }

  /** One more row raises the confidence of its identity by 10 points, by 20 more if it is the first
      trusted one, and the first official one, by 15 more if it is the first with a hotline keyword,
      and the first with a company keyword; all up to 100, and from 0 if it is the first row. */
  lemma OneMoreRowOfEvidence(before: map<IdentityKey, Identity>, x: map<IdentityKey, Identity>, rows: seq<Row>,
                             phones: set<string>, clock: Clock, between: map<IdentityKey, Identity>,
                             y: map<IdentityKey, Identity>, laterClock: Clock, r: Row)
    requires IdentitiesAfter(before, x, rows, phones, clock) && r.phone in phones
    requires IdentitiesAfter(between, y, rows + [r], phones, laterClock)
    ensures var id, p, k := RuleKey(r.phone, r.key), r.phone, r.key;
            var known := exists s :: s in rows && s.phone == p && s.key == k;
            && id in y && (known ==> id in x)
            && var points := (if known then x[id].confidence else 0) + 10
                 + (if r.trusted && !exists s :: s in rows && s.phone == p && s.key == k && s.trusted then 20 else 0)
                 + (if r.official && !exists s :: s in rows && s.phone == p && s.key == k && s.official then 20 else 0)
                 + (if r.hotline && !exists s :: s in rows && s.phone == p && s.key == k && s.hotline then 15 else 0)
                 + (if r.company && !exists s :: s in rows && s.phone == p && s.key == k && s.company then 15 else 0);
               y[id].confidence == if points < 100 then points else 100
  {
    hide Group, CandidateOf, KeysOf, IdentitiesAfter, Score, AnyTrusted, AnyOfficial, AnyHotline, AnyCompany;
    var id, g := RuleKey(r.phone, r.key), Group(rows, r.phone, r.key);
    SignalsOfGroup(rows, r.phone, r.key);
    GroupAppend(rows, r);
    KeyHasGroup(rows, phones, id);
    KeyHasGroup(rows + [r], phones, id);
    RunSets(between, y, rows + [r], phones, laterClock, id);
    if g != [] { RunSets(before, x, rows, phones, clock, id); }
    ScoreOfOneMore(g, r);
  }

  lemma ScoreOfOneMore(g: seq<Row>, r: Row)
    ensures var points := (if g == [] then 0 else Score(CandidateOf(g))) + 10
                          + (if r.trusted && !AnyTrusted(g) then 20 else 0)
                          + (if r.official && !AnyOfficial(g) then 20 else 0)
                          + (if r.hotline && !AnyHotline(g) then 15 else 0)
                          + (if r.company && !AnyCompany(g) then 15 else 0);
            Score(CandidateOf(g + [r])) == if points < 100 then points else 100
  {
    if g == [] {
      assert g + [r] == [r];
      CandidateStarts(r);
    } else {
      hide CandidateOf, Score, Extended, AnyTrusted, AnyOfficial, AnyHotline, AnyCompany;
      CandidateExtends(g, r);
      CandidateSignals(g);
      ScoreExtends(CandidateOf(g), r);
    }
  }

  lemma CandidateSignals(g: seq<Row>)
    requires g != []
    ensures var c := CandidateOf(g);
            && (c.sourceTrustHigh <==> AnyTrusted(g)) && (c.sourceIsOfficial <==> AnyOfficial(g))
            && (c.hasHotlineKeyword <==> AnyHotline(g)) && (c.hasCongTyKeyword <==> AnyCompany(g))
  {
  }

  lemma ScoreExtends(c: IdentityCandidate, r: Row)
    ensures var points := Score(c) + 10
                          + (if r.trusted && !c.sourceTrustHigh then 20 else 0)
                          + (if r.official && !c.sourceIsOfficial then 20 else 0)
                          + (if r.hotline && !c.hasHotlineKeyword then 15 else 0)
                          + (if r.company && !c.hasCongTyKeyword then 15 else 0);
            Score(Extended(c, r)) == if points < 100 then points else 100
  {
  }

  lemma SameMembers(a: seq<Row>, b: seq<Row>)
    requires multiset(a) == multiset(b)
    ensures forall r :: r in a <==> r in b
  {
    forall r ensures r in a <==> r in b {
      assert r in a <==> r in multiset(a);
      assert r in b <==> r in multiset(b);
    }
  }

  lemma SameLinks(a: seq<Row>, b: seq<Row>, phones: set<string>)
    requires forall r :: r in a ==> r in b
    ensures LinksOf(a, phones) <= LinksOf(b, phones) && KeysOf(a, phones) <= KeysOf(b, phones)
  {
    forall i | 0 <= i < |a| && a[i].phone in phones
      ensures Link(RuleKey(a[i].phone, a[i].key), a[i].obs) in LinksOf(b, phones)
      ensures RuleKey(a[i].phone, a[i].key) in KeysOf(b, phones)
    {
      assert a[i] in a;
      var j :| 0 <= j < |b| && b[j] == a[i];
    }
  }

  /** The rows come in no particular order, and confidences, evidence counts and evidence links do
      not depend on it. */
  lemma OrderIsIrrelevant(before: map<IdentityKey, Identity>, x: map<IdentityKey, Identity>,
                          y: map<IdentityKey, Identity>,
                          a: seq<Row>, b: seq<Row>, phones: set<string>, clock: Clock)
    requires multiset(a) == multiset(b)
    requires IdentitiesAfter(before, x, a, phones, clock) && IdentitiesAfter(before, y, b, phones, clock)
    ensures LinksOf(a, phones) == LinksOf(b, phones)
    ensures x.Keys == y.Keys
    ensures forall id :: id in x ==> x[id].confidence == y[id].confidence && x[id].evidenceCount == y[id].evidenceCount
  {
    hide KeysOf, Group, Score, CandidateOf, LinksOf, Upserted;
    SameMembers(a, b);
    SameLinks(a, b, phones);
    SameLinks(b, a, phones);
    forall id: IdentityKey
      ensures id in x <==> id in y
      ensures id in x ==> x[id].confidence == y[id].confidence && x[id].evidenceCount == y[id].evidenceCount
    {
      KeyHasGroup(a, phones, id);
      assert Lookup(x, id) == IdentityAfter(before, a, phones, clock, id);
      assert Lookup(y, id) == IdentityAfter(before, b, phones, clock, id);
      KeyHasGroup(b, phones, id);
      if id in KeysOf(a, phones) {
        EvidenceNeverHurts(before, x, a, phones, clock, before, y, b, phones, clock, id);
        EvidenceNeverHurts(before, y, b, phones, clock, before, x, a, phones, clock, id);
      }
    }
  }
}
