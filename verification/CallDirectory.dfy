/** The call directory the API exports to the phone: entries to label and numbers to block. */
module CallDirectory {
  import opened Regexes
  import opened Normalizer
  import opened SpamFlags
  import opened Sorting

  // ----- Numbers -----

  function DigitValue(c: char): int {
    c as int - '0' as int
  }

  /** `BigInt(digits)`, for a string of digits. */
  function Number(s: string): int {
    if s == [] then 0 else 10 * Number(s[..|s| - 1]) + DigitValue(s[|s| - 1])
  }

  predicate PlainDigits(s: string) {
    AllDigits(s) && s[0] != '0'
  }

  function Power10(n: nat): int {
    if n == 0 then 1 else 10 * Power10(n - 1)
  }

  lemma {:induction false} NumberBounds(s: string)
    requires s == [] || AllDigits(s)
    ensures 0 <= Number(s) < Power10(|s|)
    ensures s != [] && s[0] != '0' ==> 0 < Number(s)
  {
    if s == [] {
    } else {
      var init := s[..|s| - 1];
      assert IsDigit(s[|s| - 1]);
      assert forall i :: 0 <= i < |init| ==> init[i] == s[i];
      NumberBounds(init);
    }
  }

  lemma {:induction false} NumberIsInjective(s: string, t: string)
    requires PlainDigits(s) && PlainDigits(t) && Number(s) == Number(t)
    ensures s == t
  {
    var a, b := s[..|s| - 1], t[..|t| - 1];
    var c, d := s[|s| - 1], t[|t| - 1];
    assert IsDigit(c) && IsDigit(d);
    assert forall i :: 0 <= i < |a| ==> a[i] == s[i];
    assert forall i :: 0 <= i < |b| ==> b[i] == t[i];
    NumberBounds(a);
    NumberBounds(b);
    assert Number(a) == Number(b) && c == d;
    assert s == a + [c] && t == b + [d];
    if a != [] && b != [] { NumberIsInjective(a, b); }
  }

  /** The digits of a canonical number: no leading zero, short enough for 64 bits. */
  lemma E164Digits(p: string)
    requires IsE164(p)
    ensures "+" + WithoutPlus(p) == p && PlainDigits(WithoutPlus(p)) && |WithoutPlus(p)| <= 12
  {
    var d := WithoutPlus(p);
    assert d == p[1..];
    forall i | 0 <= i < |d| ensures IsDigit(d[i]) {
      assert d[i] == p[i + 1];
      if i >= 2 { assert p[i + 1] == p[3..][i - 2]; }
    }
  }

  // ----- The snapshot the export reads -----

  /** An identity joined with its phone; `trusted` when some evidence comes from a high-trust source. */
  datatype Known = Known(phone: string, kind: PhoneType, displayName: string, confidence: int,
                         rejected: bool, trusted: bool)

  predicate Eligible(k: Known) {
    !k.rejected && k.kind in {Mobile, Landline} && k.trusted
  }

  datatype DirectoryRow = DirectoryRow(phone: string, displayName: string)

  /** `DISTINCT ON (phone_e164) ... ORDER BY phone_e164, confidence DESC` */
  ghost predicate IsDirectoryQuery(rows: seq<DirectoryRow>, known: set<Known>) {
    && (forall i, k :: 0 <= i < k < |rows| ==> rows[i].phone != rows[k].phone)
    && (forall k :: k in known && Eligible(k) ==> Named(rows, k.phone))
    && (forall i :: 0 <= i < |rows| ==> FromBest(rows[i], known))
  }

  ghost predicate FromBest(row: DirectoryRow, known: set<Known>) {
    exists k :: k in known && Best(k, known) && row == DirectoryRow(k.phone, k.displayName)
  }

  ghost predicate Best(k: Known, known: set<Known>) {
    Eligible(k) && forall j :: j in known && Eligible(j) && j.phone == k.phone ==> j.confidence <= k.confidence
  }

  /** Of the eligible identities of a phone one is the most confident, */
  lemma {:induction false} BestExists(among: set<Known>, p: string) returns (best: Known)
    requires exists k :: k in among && Eligible(k) && k.phone == p
    ensures best in among && best.phone == p && Best(best, among)
    decreases |among|
  {
    var k :| k in among && Eligible(k) && k.phone == p;
    best := k;
    var rest := among - {k};
    if exists j :: j in rest && Eligible(j) && j.phone == p {
      var other := BestExists(rest, p);
      if other.confidence > k.confidence { best := other; }
    }
    assert forall j :: j in among ==> j in rest || j == k;
  }

  /** so the query has an answer for every snapshot. */
  lemma DirectoryQueryHasAnAnswer(known: set<Known>) returns (rows: seq<DirectoryRow>)
    ensures IsDirectoryQuery(rows, known)
  {
    hide Best, Eligible;
    var phones := CanBeListed(set k | k in known && Eligible(k) :: k.phone);
    rows := [];
    for i := 0 to |phones|
      invariant |rows| == i && forall j :: 0 <= j < i ==> rows[j].phone == phones[j] && FromBest(rows[j], known)
    {
      assert phones[i] in phones;
      var best := BestExists(known, phones[i]);
      rows := rows + [DirectoryRow(best.phone, best.displayName)];
    }
    forall k | k in known && Eligible(k) ensures Named(rows, k.phone) {
      assert k.phone in phones;
      var i :| 0 <= i < |phones| && phones[i] == k.phone;
      assert rows[i].phone == k.phone;
    }
  }

  predicate Canonical(p: string) {
    IsE164(p) || IsHotline(p) || IsShortCode(p)
  }

  /** What the tables guarantee the export: numbers that were normalized, types that are theirs. */
  ghost predicate Stored(known: set<Known>, flags: map<string, SpamFlag>) {
    && (forall k :: k in known ==> Canonical(k.phone) && k.kind == KindOf(k.phone))
    && (forall p :: p in flags ==> Canonical(p))
  }

  ghost predicate Enumerates(order: seq<string>, flags: map<string, SpamFlag>) {
    && (forall i, k :: 0 <= i < k < |order| ==> order[i] != order[k])
    && (forall p :: p in order <==> p in flags)
  }

  predicate Callable(p: string) {
    KindOf(p) in {Mobile, Landline}
  }

  lemma CallableIsE164(p: string)
    requires Canonical(p) && Callable(p)
    ensures IsE164(p)
  {
  }

  lemma NoValueNoKind(c: string)
    ensures DecidePython(c).value.None? ==> DecidePython(c).kind == UnknownType
  {
  }

  /** The export normalizes stored numbers once more to learn their type, and learns the same. */
  lemma RenormalizedType(p: string)
    requires Canonical(p)
    ensures NormalizeTypeScript(p).kind in {Mobile, Landline} <==> Callable(p)
  {
    hide DecidePython, NationalResult, Normalize, NormalizeTypeScript, KindOf, Clean, Strip;
    ImplementationsAgree(p);
    CanonicalIsClean(p);
    NormalizeIsDecide(p);
    NoValueNoKind(p);
    if IsE164(p) {
      var n := "0" + p[3..];
      assert FromNational(p, n) by { assert n[1..] == p[3..]; assert WithoutPlus(p)[0] == '8'; }
      NationalDecision(p, n);
      NationalCanonical(n);
      assert "+84" + n[1..] == p;
    } else if IsHotline(p) {
      assert p[0] == '1' && WithoutPlus(p) == p;
      HotlineDecision(p);
    } else if p[0] == '0' {
      RejectedZeroShort(p);
      ShortCodeKind(p);
    } else {
      assert IsDigit(p[0]) && WithoutPlus(p) == p && FromShortCode(p);
      ShortCodeDecision(p);
    }
  }

  lemma NormalizeIsDecide(p: string)
    ensures Normalize(p) == DecidePython(Clean(Strip(Python, p)))
  {
  }

  lemma ShortCodeKind(p: string)
    requires IsShortCode(p)
    ensures KindOf(p) == ShortCode
  {
    assert IsDigit(p[0]);
  }

  // ----- Labels -----

  /** The texts: a name, a name behind a warning sign, a spam warning with its reporter count. */
  datatype Label = Name(text: string) | Warning(text: string) | SpamWarning(scam: bool, reporters: nat)

  datatype Entry = Entry(digits: string, caption: Label)

  /** `/^Unknown \((.+)\)$/` */
  function BestLabel(displayName: string): string {
    var inner := if |displayName| > 10 then displayName[9..|displayName| - 1] else "";
    if |displayName| > 10 && "Unknown (" <= displayName && displayName[|displayName| - 1] == ')'
       && (forall i :: 0 <= i < |inner| ==> inner[i] !in {'\n', '\r'})
    then inner else displayName
  }

  /** The aggregation's fallback name gives back the source's name, and nothing else is cut. */
  lemma WrapperIsStripped(name: string)
    ensures name != "" && (forall i :: 0 <= i < |name| ==> name[i] !in {'\n', '\r'}) ==>
              BestLabel("Unknown (" + name + ")") == name
    ensures BestLabel(name) == name || name == "Unknown (" + BestLabel(name) + ")"
  {
    var wrapped := "Unknown (" + name + ")";
    assert wrapped[9..|wrapped| - 1] == name && "Unknown (" <= wrapped;
    if BestLabel(name) != name {
      assert name == name[..9] + name[9..|name| - 1] + name[|name| - 1..];
      assert name[..9] == "Unknown (" && name[|name| - 1..] == ")";
    }
  }

  function SpamLabel(flag: SpamFlag): Label {
    SpamWarning(flag.topCategory == "SCAM", flag.distinctReporters)
  }

  // ----- Which entries the export holds -----

  predicate Named(rows: seq<DirectoryRow>, p: string) {
    exists i :: 0 <= i < |rows| && rows[i].phone == p
  }

  ghost predicate Exported(p: string, rows: seq<DirectoryRow>, flags: map<string, SpamFlag>, suppressed: set<string>) {
    p !in suppressed && (Named(rows, p) || (p in flags && Callable(p)))
  }

  /** The label of p: a high flag overrides its name, a lower one only warns. */
  ghost predicate Labelled(caption: Label, p: string, rows: seq<DirectoryRow>, flags: map<string, SpamFlag>) {
    if p in flags && (flags[p].distinctReporters >= 10 || !Named(rows, p)) then caption == SpamLabel(flags[p])
    else exists i :: 0 <= i < |rows| && rows[i].phone == p &&
           var best := BestLabel(rows[i].displayName);
           caption == if p in flags then Warning(best) else Name(best)
  }

  /** e is the entry of an exported number. */
  ghost predicate EntryOf(e: Entry, p: string, rows: seq<DirectoryRow>, flags: map<string, SpamFlag>) {
    "+" + e.digits == p && Labelled(e.caption, p, rows, flags)
  }

  function EntryNumber(e: Entry): int {
    Number(e.digits)
  }

  /** Exactly the exported numbers, each once with its label, ascending. */
  ghost predicate IsDirectory(entries: seq<Entry>, rows: seq<DirectoryRow>, flags: map<string, SpamFlag>,
                              suppressed: set<string>) {
    && StrictlyAscending(EntryNumber, entries)
    && (forall p :: Exported(p, rows, flags, suppressed) ==> exists e :: e in entries && EntryOf(e, p, rows, flags))
    && (forall e :: e in entries ==>
        Exported("+" + e.digits, rows, flags, suppressed) && EntryOf(e, "+" + e.digits, rows, flags))
  }

  // ----- Building it -----

  predicate DistinctDigits(entries: seq<Entry>) {
    forall i, k :: 0 <= i < k < |entries| ==> entries[i].digits != entries[k].digits
  }

  /** The entries of the numbers in `phones`, each once, in some order. */
  ghost predicate Collects(entries: seq<Entry>, phones: set<string>, rows: seq<DirectoryRow>,
                           flags: map<string, SpamFlag>) {
    && DistinctDigits(entries)
    && (forall i :: 0 <= i < |entries| ==>
        "+" + entries[i].digits in phones && EntryOf(entries[i], "+" + entries[i].digits, rows, flags))
    && (forall p :: p in phones ==> exists i :: 0 <= i < |entries| && "+" + entries[i].digits == p)
  }

  lemma CollectOne(entries: seq<Entry>, phones: set<string>, rows: seq<DirectoryRow>, flags: map<string, SpamFlag>,
                   e: Entry, p: string)
    requires Collects(entries, phones, rows, flags) && p !in phones && EntryOf(e, p, rows, flags)
    ensures Collects(entries + [e], phones + {p}, rows, flags)
  {
    hide Labelled;
    var more := entries + [e];
    forall i, k | 0 <= i < k < |more| ensures more[i].digits != more[k].digits {
      assert "+" + entries[i].digits in phones;
    }
    forall q | q in phones + {p} ensures exists i :: 0 <= i < |more| && "+" + more[i].digits == q {
      if q in phones {
        var i :| 0 <= i < |entries| && "+" + entries[i].digits == q;
        assert more[i] == entries[i];
      } else {
        assert more[|entries|] == e;
      }
    }
  }

  lemma NothingCollected(rows: seq<DirectoryRow>, flags: map<string, SpamFlag>)
    ensures Collects([], {}, rows, flags)
  {
  }

  /** The entries of the rows, in their order. */
  method CollectKnown(rows: seq<DirectoryRow>, flags: map<string, SpamFlag>) returns (entries: seq<Entry>,
                      seenPhones: set<string>)
    requires forall i, k :: 0 <= i < k < |rows| ==> rows[i].phone != rows[k].phone
    requires forall i :: 0 <= i < |rows| ==> IsE164(rows[i].phone)
    ensures Collects(entries, seenPhones, rows, flags)
    ensures forall p :: p in seenPhones <==> Named(rows, p)
  {
    hide Collects, IsE164, BestLabel, SpamLabel;
    entries, seenPhones := [], {};
    NothingCollected(rows, flags);
    for i := 0 to |rows|
      invariant Collects(entries, seenPhones, rows, flags)
      invariant forall p :: p in seenPhones <==> exists k :: 0 <= k < i && rows[k].phone == p
    {
      var p := rows[i].phone;
      var caption := if p !in flags then Name(BestLabel(rows[i].displayName))
                   else if flags[p].distinctReporters >= 10 then SpamLabel(flags[p])
                   else Warning(BestLabel(rows[i].displayName));
      var e := Entry(WithoutPlus(p), caption);
      E164Digits(p);
      assert Named(rows, p) && EntryOf(e, p, rows, flags);
      CollectOne(entries, seenPhones, rows, flags, e, p);
      seenPhones := seenPhones + {p};
      entries := entries + [e];
    }
  }

  function CallableOf(order: seq<string>): set<string> {
    set p | p in order && Callable(p)
  }

  /** The flagged numbers that no row names. */
  method CollectFlagged(known: seq<Entry>, seenPhones: set<string>, rows: seq<DirectoryRow>,
                        flags: map<string, SpamFlag>, order: seq<string>)
    returns (entries: seq<Entry>)
    requires Collects(known, seenPhones, rows, flags) && forall p :: p in seenPhones <==> Named(rows, p)
    requires Enumerates(order, flags) && forall p :: p in flags ==> Canonical(p)
    ensures Collects(entries, seenPhones + CallableOf(order), rows, flags)
  {
    hide Collects, IsE164, IsHotline, IsShortCode, KindOf, NormalizeTypeScript, SpamLabel;
    entries := known;
    ghost var phones := seenPhones;
    for i := 0 to |order|
      invariant Collects(entries, phones, rows, flags)
      invariant forall p :: p in phones <==> p in seenPhones || (p in order[..i] && Callable(p))
    {
      var p := order[i];
      assert p in order;
      assert order[..i + 1] == order[..i] + [p];
      if p in seenPhones { continue; }
      var kind := NormalizeTypeScript(p).kind;
      RenormalizedType(p);
      if kind != Mobile && kind != Landline { continue; }
      CallableIsE164(p);
      E164Digits(p);
      var e := Entry(WithoutPlus(p), SpamLabel(flags[p]));
      assert EntryOf(e, p, rows, flags);
      assert p !in order[..i];
      CollectOne(entries, phones, rows, flags, e, p);
      entries := entries + [e];
      phones := phones + {p};
    }
    assert order[..|order|] == order;
    assert phones == seenPhones + CallableOf(order);
  }

  /** `entries.filter((e) => !suppressed.has("+" + e.phoneDigits))` */
  function Visible(entries: seq<Entry>, suppressed: set<string>): seq<Entry> {
    if entries == [] then []
    else
      var e := entries[|entries| - 1];
      Visible(entries[..|entries| - 1], suppressed) + if "+" + e.digits in suppressed then [] else [e]
  }

  lemma {:induction false} VisibleMembers(entries: seq<Entry>, suppressed: set<string>)
    requires DistinctDigits(entries)
    ensures forall e :: e in Visible(entries, suppressed) <==> e in entries && "+" + e.digits !in suppressed
    ensures DistinctDigits(Visible(entries, suppressed))
  {
    if entries == [] {
    } else {
      var m := |entries| - 1;
      VisibleMembers(entries[..m], suppressed);
      var v := Visible(entries[..m], suppressed);
      assert entries == entries[..m] + [entries[m]];
      assert forall e :: e in entries <==> e in entries[..m] || e == entries[m];
      forall i | 0 <= i < |v| ensures v[i].digits != entries[m].digits {
        assert v[i] in v && v[i] in entries[..m];
      }
    }
  }

  lemma SortedIsDirectory(entries: seq<Entry>, phones: set<string>, rows: seq<DirectoryRow>,
                          flags: map<string, SpamFlag>, suppressed: set<string>)
    requires Collects(entries, phones, rows, flags)
    requires forall p :: p in phones <==> Named(rows, p) || (p in flags && Callable(p))
    requires forall p :: p in phones ==> IsE164(p)
    ensures IsDirectory(SortBy(EntryNumber, Visible(entries, suppressed)), rows, flags, suppressed)
  {
    hide Labelled, Visible, SortBy, IsE164, Number, Named, Callable;
    var v := Visible(entries, suppressed);
    var sorted := SortBy(EntryNumber, v);
    VisibleMembers(entries, suppressed);
    forall e ensures e in sorted <==> e in entries && "+" + e.digits !in suppressed {
      SortMembers(EntryNumber, v, e);
    }
    EntriesHaveDistinctNumbers(entries, phones, rows, flags, v);
    SortAscends(EntryNumber, v);
    forall p | Exported(p, rows, flags, suppressed) ensures exists e :: e in sorted && EntryOf(e, p, rows, flags) {
      var i :| 0 <= i < |entries| && "+" + entries[i].digits == p;
      assert entries[i] in sorted;
    }
  }

  lemma EntriesHaveDistinctNumbers(entries: seq<Entry>, phones: set<string>, rows: seq<DirectoryRow>,
                                   flags: map<string, SpamFlag>, v: seq<Entry>)
    requires Collects(entries, phones, rows, flags) && forall p :: p in phones ==> IsE164(p)
    requires forall e :: e in v ==> e in entries
    requires DistinctDigits(v)
    ensures DistinctKeys(EntryNumber, v)
  {
    hide EntryOf, Number, IsE164;
    forall i | 0 <= i < |v| ensures PlainDigits(v[i].digits) {
      assert v[i] in v && v[i] in entries;
      E164Digits("+" + v[i].digits);
      assert WithoutPlus("+" + v[i].digits) == v[i].digits;
    }
    forall i, k | 0 <= i < k < |v| ensures EntryNumber(v[i]) != EntryNumber(v[k]) {
      if Number(v[i].digits) == Number(v[k].digits) { NumberIsInjective(v[i].digits, v[k].digits); }
    }
  }

  /** `order` is the iteration order of the flags. */
  method GetCallDirectoryEntries(known: set<Known>, rows: seq<DirectoryRow>, flags: map<string, SpamFlag>,
                                 order: seq<string>, suppressed: set<string>)
    returns (entries: seq<Entry>)
    requires Stored(known, flags) && IsDirectoryQuery(rows, known) && Enumerates(order, flags)
    ensures IsDirectory(entries, rows, flags, suppressed)
  {
    hide Collects, IsE164, IsHotline, IsShortCode, KindOf, IsDirectory;
    RowsAreE164(known, rows, flags);
    var collected, seenPhones := CollectKnown(rows, flags);
    collected := CollectFlagged(collected, seenPhones, rows, flags, order);
    ghost var phones := seenPhones + CallableOf(order);
    forall p | p in phones ensures IsE164(p) {
      if !Named(rows, p) { CallableIsE164(p); }
    }
    SortedIsDirectory(collected, phones, rows, flags, suppressed);
    entries := SortBy(EntryNumber, Visible(collected, suppressed));
  }

  lemma RowsAreE164(known: set<Known>, rows: seq<DirectoryRow>, flags: map<string, SpamFlag>)
    requires Stored(known, flags) && IsDirectoryQuery(rows, known)
    ensures forall i :: 0 <= i < |rows| ==> IsE164(rows[i].phone) && Callable(rows[i].phone)
  {
    hide IsE164, IsHotline, IsShortCode, KindOf;
    forall i | 0 <= i < |rows| ensures IsE164(rows[i].phone) && Callable(rows[i].phone) {
      assert FromBest(rows[i], known);
      var k :| k in known && Best(k, known) && rows[i] == DirectoryRow(k.phone, k.displayName);
      CallableIsE164(k.phone);
    }
  }

  /** The directory read off the snapshot's columns: an unrejected, trusted mobile or landline identity
      has its number listed unless suppressed, and so has a flagged one of these types; */
  lemma DirectoryIsComplete(known: set<Known>, rows: seq<DirectoryRow>, flags: map<string, SpamFlag>,
                            suppressed: set<string>, entries: seq<Entry>)
    requires IsDirectoryQuery(rows, known) && IsDirectory(entries, rows, flags, suppressed)
    ensures forall k :: k in known && !k.rejected && k.trusted && k.phone !in suppressed ==>
              k.kind.Mobile? || k.kind.Landline? ==> exists e :: e in entries && "+" + e.digits == k.phone
    ensures forall p :: p in flags && (KindOf(p).Mobile? || KindOf(p).Landline?) && p !in suppressed ==>
              exists e :: e in entries && "+" + e.digits == p
  {
    hide KindOf, Labelled, StrictlyAscending;
    forall k | k in known && Eligible(k) && k.phone !in suppressed
      ensures exists e :: e in entries && "+" + e.digits == k.phone
    {
      assert Exported(k.phone, rows, flags, suppressed);
    }
    forall p | p in flags && Callable(p) && p !in suppressed ensures exists e :: e in entries && "+" + e.digits == p {
      assert Exported(p, rows, flags, suppressed);
    }
  }

  /** and each label says what it should: scam exactly when SCAM is on top, with the reporter count,
      where ten or more reported or nobody is known; elsewhere the name of the most confident such
      identity, behind a warning exactly when the number is flagged. */
  lemma LabelsMean(known: set<Known>, rows: seq<DirectoryRow>, flags: map<string, SpamFlag>,
                   suppressed: set<string>, entries: seq<Entry>, e: Entry)
    requires IsDirectoryQuery(rows, known) && IsDirectory(entries, rows, flags, suppressed) && e in entries
    ensures var p := "+" + e.digits;
            match e.caption
            case SpamWarning(scam, n) =>
              && p in flags && n == flags[p].distinctReporters && (scam <==> flags[p].topCategory == "SCAM")
              && (n >= 10 || !Named(rows, p))
            case Warning(text) => p in flags && flags[p].distinctReporters < 10 && FromTheBest(text, p, known)
            case Name(text) => p !in flags && FromTheBest(text, p, known)
  {
    hide BestLabel, StrictlyAscending, KindOf;
    var p := "+" + e.digits;
    assert EntryOf(e, p, rows, flags) && Labelled(e.caption, p, rows, flags);
    if !e.caption.SpamWarning? {
      var i :| 0 <= i < |rows| && rows[i].phone == p && e.caption.text == BestLabel(rows[i].displayName);
      assert FromBest(rows[i], known);
    }
  }

  /** An unrejected, trusted identity of p, none of them more confident, has this name. */
  ghost predicate FromTheBest(text: string, p: string, known: set<Known>) {
    exists k :: k in known && k.phone == p && !k.rejected && k.trusted && text == BestLabel(k.displayName)
                && forall j :: j in known && j.phone == p && !j.rejected && j.trusted ==>
                     j.kind.Mobile? || j.kind.Landline? ==> j.confidence <= k.confidence
  }

  // ----- Blocking -----

  predicate Blocked(p: string, enabled: bool, flags: map<string, SpamFlag>, suppressed: set<string>) {
    enabled && p in flags && flags[p].distinctReporters >= 10 && flags[p].topCategory == "SCAM" &&
        p !in suppressed && Callable(p)
  }

  ghost predicate IsBlockList(blocked: seq<string>, enabled: bool, flags: map<string, SpamFlag>,
                              suppressed: set<string>) {
    && StrictlyAscending(Number, blocked)
    && (forall d :: d in blocked <==> Blocked("+" + d, enabled, flags, suppressed))
  }

  method GetBlockedDigits(enabled: bool, flags: map<string, SpamFlag>, order: seq<string>, suppressed: set<string>)
    returns (blocked: seq<string>)
    requires Enumerates(order, flags) && forall p :: p in flags ==> Canonical(p)
    ensures IsBlockList(blocked, enabled, flags, suppressed)
  {
    hide IsE164, IsHotline, IsShortCode, KindOf, NormalizeTypeScript, Number, SortBy;
    blocked := [];
    if !enabled { return; }
    for i := 0 to |order|
      invariant forall k :: 0 <= k < |blocked| ==> PlainDigits(blocked[k]) && "+" + blocked[k] in order[..i]
      invariant forall j, k :: 0 <= j < k < |blocked| ==> blocked[j] != blocked[k]
      invariant forall k :: 0 <= k < |blocked| ==> Blocked("+" + blocked[k], true, flags, suppressed)
      invariant forall p :: p in order[..i] && Blocked(p, true, flags, suppressed) ==>
          WithoutPlus(p) in blocked && "+" + WithoutPlus(p) == p
    {
      var p := order[i];
      assert p in order;
      assert order[..i + 1] == order[..i] + [p];
      if flags[p].distinctReporters < 10 || flags[p].topCategory != "SCAM" { continue; }
      if p in suppressed { continue; }
      var kind := NormalizeTypeScript(p).kind;
      RenormalizedType(p);
      if kind != Mobile && kind != Landline { continue; }
      CallableIsE164(p);
      E164Digits(p);
      assert p !in order[..i];
      blocked := blocked + [WithoutPlus(p)];
    }
    assert order[..|order|] == order;
    BlockListSorts(blocked, enabled, flags, suppressed);
    blocked := SortBy(Number, blocked);
  }

  lemma BlockListSorts(s: seq<string>, enabled: bool, flags: map<string, SpamFlag>, suppressed: set<string>)
    requires forall k :: 0 <= k < |s| ==> PlainDigits(s[k])
    requires forall j, k :: 0 <= j < k < |s| ==> s[j] != s[k]
    requires forall k :: 0 <= k < |s| ==> Blocked("+" + s[k], enabled, flags, suppressed)
    requires forall p :: p in flags && Blocked(p, enabled, flags, suppressed) ==>
        WithoutPlus(p) in s && "+" + WithoutPlus(p) == p
    ensures IsBlockList(SortBy(Number, s), enabled, flags, suppressed)
  {
    hide Number, SortBy, AllDigits, Callable;
    forall j, k | 0 <= j < k < |s| ensures Number(s[j]) != Number(s[k]) {
      if Number(s[j]) == Number(s[k]) { NumberIsInjective(s[j], s[k]); }
    }
    SortAscends(Number, s);
    forall d ensures d in SortBy(Number, s) <==> Blocked("+" + d, enabled, flags, suppressed) {
      SortMembers(Number, s, d);
      assert WithoutPlus("+" + d) == d;
    }
  }

  // ----- The two lists together -----

  /** Neither list names a number twice or a suppressed one; a number is labelled exactly when it is
      exported and blocked exactly when it qualifies; and every blocked number is labelled too, as
      reported for scam by ten or more. */
  lemma ExportIsConsistent(rows: seq<DirectoryRow>, flags: map<string, SpamFlag>, suppressed: set<string>,
                           enabled: bool,
                           entries: seq<Entry>, blocked: seq<string>)
    requires IsDirectory(entries, rows, flags, suppressed) && IsBlockList(blocked, enabled, flags, suppressed)
    ensures DistinctDigits(entries)
    ensures forall i, k :: 0 <= i < k < |blocked| ==> blocked[i] != blocked[k]
    ensures forall e :: e in entries ==> "+" + e.digits !in suppressed
    ensures forall d :: d in blocked ==> "+" + d !in suppressed
    ensures forall d :: d in blocked ==> exists n :: n >= 10 && Entry(d, SpamWarning(true, n)) in entries
  {
    hide Number, Callable, Named;
    forall i, k | 0 <= i < k < |entries| ensures entries[i].digits != entries[k].digits {
      assert EntryNumber(entries[i]) < EntryNumber(entries[k]);
    }
    forall d | d in blocked ensures exists n :: n >= 10 && Entry(d, SpamWarning(true, n)) in entries {
      var p := "+" + d;
      assert Blocked(p, enabled, flags, suppressed) && Exported(p, rows, flags, suppressed);
      var e :| e in entries && EntryOf(e, p, rows, flags);
      assert e.digits == p[1..] == d;
      assert e == Entry(d, SpamWarning(true, flags[p].distinctReporters));
    }
  }

  /** These contracts leave no freedom: there is one directory and one block list of a snapshot,
      whichever order the flags were visited in and however the entries were sorted. */
  lemma ExportIsDetermined(rows: seq<DirectoryRow>, flags: map<string, SpamFlag>, suppressed: set<string>,
                           enabled: bool, a: seq<Entry>, b: seq<Entry>, c: seq<string>, d: seq<string>)
    requires forall i, k :: 0 <= i < k < |rows| ==> rows[i].phone != rows[k].phone
    requires IsDirectory(a, rows, flags, suppressed) && IsDirectory(b, rows, flags, suppressed)
    requires IsBlockList(c, enabled, flags, suppressed) && IsBlockList(d, enabled, flags, suppressed)
    ensures a == b && c == d
  {
    hide Number, Callable, BestLabel;
    AscendingIsUnique(Number, c, d);
    forall e ensures e in a <==> e in b {
      SameEntry(rows, flags, suppressed, a, b, e);
      SameEntry(rows, flags, suppressed, b, a, e);
    }
    AscendingIsUnique(EntryNumber, a, b);
  }

  lemma SameEntry(rows: seq<DirectoryRow>, flags: map<string, SpamFlag>, suppressed: set<string>, a: seq<Entry>,
                  b: seq<Entry>, e: Entry)
    requires forall i, k :: 0 <= i < k < |rows| ==> rows[i].phone != rows[k].phone
    requires IsDirectory(a, rows, flags, suppressed) && IsDirectory(b, rows, flags, suppressed)
    ensures e in a ==> e in b
  {
    hide Number, Callable, BestLabel, SpamLabel;
    if e in a {
      var p := "+" + e.digits;
      var f :| f in b && EntryOf(f, p, rows, flags);
      assert f.digits == p[1..] == e.digits;
      assert f.caption == e.caption;
    }
  }
}
