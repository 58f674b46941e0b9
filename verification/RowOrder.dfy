/** The rows of an aggregation come in no particular order. Exactly which columns of an identity that
    order decides, and exactly when a second run over the same rows changes nothing but times. */
module RowOrder {
  import opened Options
  import opened LedgerTables
  import opened Aggregation
  import opened AggregationLaws

  // ----- What a run writes -----

  /** The identities after a run. */
  function AfterRun(before: map<IdentityKey, Identity>, rows: seq<Row>, phones: set<string>, clock: Clock)
    : map<IdentityKey, Identity>
  {
    map id | id in before.Keys + KeysOf(rows, phones) && IdentityAfter(before, rows, phones, clock, id).Some?
      :: IdentityAfter(before, rows, phones, clock, id).value
  }

  lemma AfterRunIsTheRun(before: map<IdentityKey, Identity>, rows: seq<Row>, phones: set<string>, clock: Clock)
    ensures IdentitiesAfter(before, AfterRun(before, rows, phones, clock), rows, phones, clock)
  {
    hide Group, CandidateOf, Upserted, KeysOf;
    forall id: IdentityKey
      ensures Lookup(AfterRun(before, rows, phones, clock), id) == IdentityAfter(before, rows, phones, clock, id)
    {
      KeyHasGroup(rows, phones, id);
    }
  }

  /** The columns taken from the row of the group that comes first. */
  datatype Columns = Columns(displayName: string, identityType: string, category: Option<string>)

  function ColumnsOf(i: Identity): Columns {
    Columns(i.displayName, i.identityType, i.category)
  }

  /** What row r writes into them when it comes first: an existing identity keeps its name and type,
      and its category unless r has one. */
  function WrittenFrom(old_: Option<Identity>, r: Row): Columns {
    match old_
    case None => Columns(r.displayName, r.identityType, r.category)
    case Some(i) => Columns(i.displayName, i.identityType, if r.category.Some? then r.category else i.category)
  }

  lemma FirstRowIsWritten(before: map<IdentityKey, Identity>, rows: seq<Row>, phones: set<string>, clock: Clock,
                          id: IdentityKey)
    requires id in KeysOf(rows, phones)
    ensures id in AfterRun(before, rows, phones, clock) && Group(rows, id.phone, id.name) != []
    ensures ColumnsOf(AfterRun(before, rows, phones, clock)[id])
         == WrittenFrom(Lookup(before, id), Group(rows, id.phone, id.name)[0])
  {
    hide Group, KeysOf, AfterRun, Score;
    AfterRunIsTheRun(before, rows, phones, clock);
    RunSets(before, AfterRun(before, rows, phones, clock), rows, phones, clock, id);
  }

  // ----- Any row of a group can come first -----

  lemma {:induction false} OfPhoneConcat(a: seq<Row>, b: seq<Row>, p: string)
    ensures OfPhone(a + b, p) == OfPhone(a, p) + OfPhone(b, p)
  {
    if b == [] {
      assert a + b == a;
    } else {
      OfPhoneConcat(a, b[..|b| - 1], p);
      assert (a + b)[..|a + b| - 1] == a + b[..|b| - 1];
    }
  }

  lemma {:induction false} OfKeyConcat(a: seq<Row>, b: seq<Row>, k: string)
    ensures OfKey(a + b, k) == OfKey(a, k) + OfKey(b, k)
  {
    if b == [] {
      assert a + b == a;
    } else {
      OfKeyConcat(a, b[..|b| - 1], k);
      assert (a + b)[..|a + b| - 1] == a + b[..|b| - 1];
    }
  }

  lemma FirstOfGroup(r: Row, rest: seq<Row>)
    ensures Group([r] + rest, r.phone, r.key) != [] && Group([r] + rest, r.phone, r.key)[0] == r
  {
    var own := OfPhone(rest, r.phone);
    assert [r][..0] == [];
    assert OfPhone([r], r.phone) == [r] && OfKey([r], r.key) == [r];
    OfPhoneConcat([r], rest, r.phone);
    OfKeyConcat([r], own, r.key);
  }

  lemma BroughtForward(rows: seq<Row>, r: Row) returns (other: seq<Row>)
    requires r in rows
    ensures multiset(other) == multiset(rows) && other != [] && other[0] == r
    ensures Group(other, r.phone, r.key) != [] && Group(other, r.phone, r.key)[0] == r
  {
    var i :| 0 <= i < |rows| && rows[i] == r;
    other := [r] + (rows[..i] + rows[i + 1..]);
    assert rows == rows[..i] + [r] + rows[i + 1..];
    FirstOfGroup(r, rows[..i] + rows[i + 1..]);
  }

  lemma SameGroupMembers(a: seq<Row>, b: seq<Row>, p: string, k: string)
    requires multiset(a) == multiset(b)
    ensures forall r :: r in Group(a, p, k) <==> r in Group(b, p, k)
    ensures |Group(a, p, k)| == |Group(b, p, k)|
  {
    GroupGrows(a, b, p, k);
    GroupGrows(b, a, p, k);
  }

  // ----- One run -----

  /** The run writes the same under every order of its rows, as far as f can tell. */
  ghost predicate EveryOrderWrites<T(!new)>(f: Columns -> T, before: map<IdentityKey, Identity>, rows: seq<Row>,
                                            phones: set<string>, clock: Clock, id: IdentityKey)
    requires id in AfterRun(before, rows, phones, clock)
  {
    forall other :: multiset(other) == multiset(rows) ==>
      && id in AfterRun(before, other, phones, clock)
      && f(ColumnsOf(AfterRun(before, other, phones, clock)[id]))
         == f(ColumnsOf(AfterRun(before, rows, phones, clock)[id]))
  }

  ghost predicate AllRowsWrite<T(!new)>(f: Columns -> T, old_: Option<Identity>, g: seq<Row>) {
    forall r, s :: r in g && s in g ==> f(WrittenFrom(old_, r)) == f(WrittenFrom(old_, s))
  }

  /** Order decides nothing that f sees if and only if all rows of the group would write the same. */
  lemma OrderMattersExactlyWhen<T(!new)>(f: Columns -> T, before: map<IdentityKey, Identity>, rows: seq<Row>,
                                         phones: set<string>, clock: Clock, id: IdentityKey)
    requires id in KeysOf(rows, phones)
    ensures id in AfterRun(before, rows, phones, clock)
    ensures EveryOrderWrites(f, before, rows, phones, clock, id)
       <==> AllRowsWrite(f, Lookup(before, id), Group(rows, id.phone, id.name))
  {
    hide Group, KeysOf, AfterRun, WrittenFrom, ColumnsOf;
    var g := Group(rows, id.phone, id.name);
    FirstRowIsWritten(before, rows, phones, clock, id);
    if AllRowsWrite(f, Lookup(before, id), g) {
      forall other | multiset(other) == multiset(rows)
        ensures id in AfterRun(before, other, phones, clock)
        ensures f(ColumnsOf(AfterRun(before, other, phones, clock)[id]))
             == f(ColumnsOf(AfterRun(before, rows, phones, clock)[id]))
      {
        WrittenInOrder(before, rows, other, phones, clock, id);
      }
    }
    if EveryOrderWrites(f, before, rows, phones, clock, id) {
      forall r | r in g ensures f(WrittenFrom(Lookup(before, id), r)) == f(WrittenFrom(Lookup(before, id), g[0])) {
        GroupMembers(rows, id.phone, id.name);
        var other := BroughtForward(rows, r);
        WrittenInOrder(before, rows, other, phones, clock, id);
      }
    }
  }

  /** Another order of the rows, and what it writes. */
  lemma WrittenInOrder(before: map<IdentityKey, Identity>, rows: seq<Row>, other: seq<Row>, phones: set<string>,
                       clock: Clock, id: IdentityKey)
    requires id in KeysOf(rows, phones) && multiset(other) == multiset(rows)
    ensures id in KeysOf(other, phones) && id in AfterRun(before, other, phones, clock)
    ensures Group(other, id.phone, id.name) != []
    ensures Group(other, id.phone, id.name)[0] in Group(rows, id.phone, id.name)
    ensures ColumnsOf(AfterRun(before, other, phones, clock)[id])
         == WrittenFrom(Lookup(before, id), Group(other, id.phone, id.name)[0])
  {
    hide Group, KeysOf, AfterRun, WrittenFrom, ColumnsOf;
    SameMembers(rows, other);
    SameLinks(rows, other, phones);
    FirstRowIsWritten(before, other, phones, clock, id);
    SameGroupMembers(rows, other, id.phone, id.name);
    assert Group(other, id.phone, id.name)[0] in Group(other, id.phone, id.name);
  }

  function NameColumn(c: Columns): string { c.displayName }
  function TypeColumn(c: Columns): string { c.identityType }
  function CategoryColumn(c: Columns): Option<string> { c.category }

  /** The category that r leaves beside the one the identity has. */
  function CategoryBeside(had: Option<string>, r: Row): Option<string> {
    if r.category.Some? then r.category else had
  }

  /** Column by column, by what can be read off the table and the rows before the run. */
  lemma ColumnsDependOnOrderExactlyWhen(before: map<IdentityKey, Identity>, rows: seq<Row>, phones: set<string>,
                                        clock: Clock, id: IdentityKey)
    requires id in KeysOf(rows, phones)
    ensures id in AfterRun(before, rows, phones, clock)
    ensures var g := Group(rows, id.phone, id.name);
            var had := if id in before then before[id].category else None;
            && (EveryOrderWrites(NameColumn, before, rows, phones, clock, id)
                <==> id in before || forall r, s :: r in g && s in g ==> r.displayName == s.displayName)
            && (EveryOrderWrites(TypeColumn, before, rows, phones, clock, id)
                <==> id in before || forall r, s :: r in g && s in g ==> r.identityType == s.identityType)
            && (EveryOrderWrites(CategoryColumn, before, rows, phones, clock, id)
                <==> forall r, s :: r in g && s in g ==> CategoryBeside(had, r) == CategoryBeside(had, s))
  {
    hide Group, KeysOf, AfterRun, EveryOrderWrites;
    OrderMattersExactlyWhen(NameColumn, before, rows, phones, clock, id);
    OrderMattersExactlyWhen(TypeColumn, before, rows, phones, clock, id);
    OrderMattersExactlyWhen(CategoryColumn, before, rows, phones, clock, id);
    var g, old_ := Group(rows, id.phone, id.name), Lookup(before, id);
    var had := if id in before then before[id].category else None;
    ColumnsWritten(old_, g);
    forall r ensures CategoryColumn(WrittenFrom(old_, r)) == CategoryBeside(had, r) { }
  }

  lemma ColumnsWritten(old_: Option<Identity>, g: seq<Row>)
    ensures AllRowsWrite(NameColumn, old_, g)
       <==> old_.Some? || forall r, s :: r in g && s in g ==> r.displayName == s.displayName
    ensures AllRowsWrite(TypeColumn, old_, g)
       <==> old_.Some? || forall r, s :: r in g && s in g ==> r.identityType == s.identityType
  {
    assert forall r :: old_.None? ==> NameColumn(WrittenFrom(old_, r)) == r.displayName;
    assert forall r :: old_.None? ==> TypeColumn(WrittenFrom(old_, r)) == r.identityType;
  }

  // ----- A second run -----

  /** The run changed nothing but the times its identities were last seen. */
  ghost predicate OnlyTimesChanged(first: map<IdentityKey, Identity>, second: map<IdentityKey, Identity>,
                                   keys: set<IdentityKey>, clock: Clock)
  {
    && second.Keys == first.Keys
    && forall id :: id in first ==> second[id] == if id in keys then first[id].(lastSeenAt := clock(id)) else first[id]
  }

  /** Whatever order the second run meets the rows in. */
  ghost predicate RerunIsQuiet(first: map<IdentityKey, Identity>, rows: seq<Row>, phones: set<string>, clock: Clock) {
    forall other :: multiset(other) == multiset(rows) ==>
      OnlyTimesChanged(first, AfterRun(first, other, phones, clock), KeysOf(rows, phones), clock)
  }

  /** Every row of a known phone has no category or the one its identity has. */
  ghost predicate CategoriesSettled(first: map<IdentityKey, Identity>, rows: seq<Row>, phones: set<string>) {
    forall r :: r in rows && r.phone in phones && r.category.Some? && RuleKey(r.phone, r.key) in first ==>
      r.category == first[RuleKey(r.phone, r.key)].category
  }

  /** What a second run leaves of one identity. */
  lemma RerunOf(before: map<IdentityKey, Identity>, first: map<IdentityKey, Identity>, rows: seq<Row>, other: seq<Row>,
                phones: set<string>, t1: Clock, t2: Clock, id: IdentityKey)
    requires IdentitiesAfter(before, first, rows, phones, t1) && multiset(other) == multiset(rows)
    requires id in KeysOf(rows, phones)
    ensures id in first && id in AfterRun(first, other, phones, t2) && Group(other, id.phone, id.name) != []
    ensures AfterRun(first, other, phones, t2)[id]
         == first[id].(lastSeenAt := t2(id),
                       category := CategoryBeside(first[id].category, Group(other, id.phone, id.name)[0]))
  {
    hide Group, KeysOf, AfterRun, AnyOfficial, AnyTrusted, AnyHotline, AnyCompany, Score;
    var g, h := Group(rows, id.phone, id.name), Group(other, id.phone, id.name);
    RunSets(before, first, rows, phones, t1, id);
    SameMembers(rows, other);
    SameLinks(rows, other, phones);
    AfterRunIsTheRun(first, other, phones, t2);
    RunSets(first, AfterRun(first, other, phones, t2), other, phones, t2, id);
    SameGroupMembers(rows, other, id.phone, id.name);
    ScoreGrows(g, h);
    ScoreGrows(h, g);
  }

  lemma OthersUntouched(first: map<IdentityKey, Identity>, other: seq<Row>, phones: set<string>, clock: Clock,
                        id: IdentityKey)
    requires id !in KeysOf(other, phones)
    ensures Lookup(AfterRun(first, other, phones, clock), id) == Lookup(first, id)
  {
    hide Group, KeysOf, AfterRun, CandidateOf, Upserted;
    AfterRunIsTheRun(first, other, phones, clock);
    KeyHasGroup(other, phones, id);
  }

  /** Re-running the same aggregator is idempotent, up to times and whatever order the rows come in,
      if and only if no row brings a category its identity does not have already. In any case it
      creates no evidence link. */
  lemma RerunIsQuietExactlyWhen(before: map<IdentityKey, Identity>, first: map<IdentityKey, Identity>, rows: seq<Row>,
                                phones: set<string>, t1: Clock, t2: Clock)
    requires IdentitiesAfter(before, first, rows, phones, t1)
    ensures RerunIsQuiet(first, rows, phones, t2) <==> CategoriesSettled(first, rows, phones)
    ensures forall other :: multiset(other) == multiset(rows) ==> LinksOf(other, phones) == LinksOf(rows, phones)
  {
    hide IdentitiesAfter, AfterRun, LinksOf, Group;
    forall other | multiset(other) == multiset(rows) ensures LinksOf(other, phones) == LinksOf(rows, phones) {
      SameMembers(rows, other);
      SameLinks(rows, other, phones);
      SameLinks(other, rows, phones);
    }
    if CategoriesSettled(first, rows, phones) {
      forall other | multiset(other) == multiset(rows)
        ensures OnlyTimesChanged(first, AfterRun(first, other, phones, t2), KeysOf(rows, phones), t2)
      {
        SettledRerun(before, first, rows, other, phones, t1, t2);
      }
    }
    if RerunIsQuiet(first, rows, phones, t2) {
      forall r | r in rows && r.phone in phones && r.category.Some? && RuleKey(r.phone, r.key) in first
        ensures r.category == first[RuleKey(r.phone, r.key)].category
      {
        var id := RuleKey(r.phone, r.key);
        KeyMembers(rows, phones, id);
        var other := BroughtForward(rows, r);
        RerunOf(before, first, rows, other, phones, t1, t2, id);
        assert OnlyTimesChanged(first, AfterRun(first, other, phones, t2), KeysOf(rows, phones), t2);
      }
    }
  }

  lemma SettledRerun(before: map<IdentityKey, Identity>, first: map<IdentityKey, Identity>, rows: seq<Row>,
                     other: seq<Row>,
                     phones: set<string>, t1: Clock, t2: Clock)
    requires IdentitiesAfter(before, first, rows, phones, t1) && multiset(other) == multiset(rows)
    requires CategoriesSettled(first, rows, phones)
    ensures OnlyTimesChanged(first, AfterRun(first, other, phones, t2), KeysOf(rows, phones), t2)
  {
    hide IdentitiesAfter, AfterRun, Group, KeysOf;
    var second := AfterRun(first, other, phones, t2);
    SameMembers(rows, other);
    SameLinks(rows, other, phones);
    SameLinks(other, rows, phones);
    forall id: IdentityKey
      ensures id in second <==> id in first
      ensures id in first ==>
                second[id] == if id in KeysOf(rows, phones) then first[id].(lastSeenAt := t2(id)) else first[id]
    {
      if id in KeysOf(rows, phones) {
        RerunOf(before, first, rows, other, phones, t1, t2, id);
        GroupMembers(other, id.phone, id.name);
        KeyHasGroup(rows, phones, id);
        var r := Group(other, id.phone, id.name)[0];
        assert r in Group(other, id.phone, id.name) && r in rows && id == RuleKey(r.phone, r.key);
      } else {
        OthersUntouched(first, other, phones, t2, id);
      }
    }
  }

  // ----- Two rows -----

  /** The company name in "bank: Cty ABC Hotline tel" before the number, and the hotline of a source
      called "Cty Abc" whose page says "hotline" and "spam" around it. */
  const SHOUTED :=
    Row(0, "+84912345678", "cty abc hotline", "Cty ABC Hotline", "BUSINESS", Some("BANK"), false, false, true, true)
  const SPOKEN :=
    Row(1, "+84912345678", "cty abc hotline", "Cty Abc Hotline", "HOTLINE", Some("SPAM"), false, false, true, false)

  lemma PairGroup(r: Row, s: Row)
    requires r.phone == s.phone && r.key == s.key
    ensures Group([r, s], r.phone, r.key) == [r, s]
  {
    assert [] + [r] == [r] && [r] + [s] == [r, s];
    OfPhoneAppend([], r, r.phone);
    OfPhoneAppend([r], s, r.phone);
    OfKeyAppend([], r, r.key);
    OfKeyAppend([r], s, r.key);
  }

  lemma PairRun(before: map<IdentityKey, Identity>, r: Row, s: Row, clock: Clock)
    requires r.phone == s.phone && r.key == s.key
    ensures var id, after := RuleKey(r.phone, r.key), AfterRun(before, [r, s], {r.phone}, clock);
            id in after && ColumnsOf(after[id]) == WrittenFrom(Lookup(before, id), r)
  {
    hide AfterRun, Group, KeysOf, WrittenFrom;
    PairGroup(r, s);
    assert r in [r, s] by { assert [r, s][0] == r; }
    KeyMembers([r, s], {r.phone}, RuleKey(r.phone, r.key));
    FirstRowIsWritten(before, [r, s], {r.phone}, clock, RuleKey(r.phone, r.key));
  }

  /** All three columns of a new identity depend on the order of these rows, and a second run that
      meets them in the other order changes the category of the identity the first one made. */
  lemma OrderDecidesTheColumns(t1: Clock, t2: Clock)
    ensures multiset([SHOUTED, SPOKEN]) == multiset([SPOKEN, SHOUTED])
    ensures var id := RuleKey(SHOUTED.phone, SHOUTED.key);
            var a := AfterRun(map[], [SHOUTED, SPOKEN], {SHOUTED.phone}, t1);
            var b := AfterRun(map[], [SPOKEN, SHOUTED], {SHOUTED.phone}, t1);
            var again := AfterRun(a, [SPOKEN, SHOUTED], {SHOUTED.phone}, t2);
            && id in a && id in b && id in again
            && a[id].displayName != b[id].displayName && a[id].identityType != b[id].identityType
            && a[id].category == Some("BANK") && b[id].category == Some("SPAM") && again[id].category == Some("SPAM")
  {
    hide AfterRun;
    assert [SHOUTED, SPOKEN] == [SHOUTED] + [SPOKEN] && [SPOKEN, SHOUTED] == [SPOKEN] + [SHOUTED];
    var a := AfterRun(map[], [SHOUTED, SPOKEN], {SHOUTED.phone}, t1);
    PairRun(map[], SHOUTED, SPOKEN, t1);
    PairRun(map[], SPOKEN, SHOUTED, t1);
    PairRun(a, SPOKEN, SHOUTED, t2);
    assert "Cty ABC Hotline"[5] != "Cty Abc Hotline"[5] && "BUSINESS"[0] != "HOTLINE"[0];
  }
}
