/** The iOS extension: the order in which the exported lists reach the system. */
module CallDirectoryHandler {
  import opened Options
  import opened Regexes
  import opened Normalizer
  import opened SpamFlags
  import opened Sorting
  import opened CallDirectory

  const MAX_INT64: int := 0x7FFF_FFFF_FFFF_FFFF

  /** `Int64(text)`: an optional sign and digits, or nil, also when the number does not fit. */
  function ParseInt64(s: string): Option<int> {
    var signed := s != [] && s[0] in {'+', '-'};
    var body := if signed then s[1..] else s;
    var n := if signed && s[0] == '-' then -Number(body) else Number(body);
    if AllDigits(body) && -MAX_INT64 - 1 <= n <= MAX_INT64 then Some(n) else None
  }

  /** `Int64($0) ?? 0` */
  function SortKey(s: string): int {
    var n := ParseInt64(s);
    if n.Some? then n.value else 0
  }

  function EntryKey(e: Entry): int {
    SortKey(e.digits)
  }

  /** The numbers of those texts that are numbers, in their order. */
  function Emitted(digits: seq<string>): seq<int> {
    if digits == [] then []
    else
      var n := ParseInt64(digits[|digits| - 1]);
      Emitted(digits[..|digits| - 1]) + if n.Some? then [n.value] else []
  }

  function EmittedEntries(entries: seq<Entry>): seq<(int, Label)> {
    if entries == [] then []
    else
      var e := entries[|entries| - 1];
      var n := ParseInt64(e.digits);
      EmittedEntries(entries[..|entries| - 1]) + if n.Some? then [(n.value, e.caption)] else []
  }

  class ExtensionContext {
    var blocking: seq<int>
    var identification: seq<(int, Label)>

    constructor ()
      ensures blocking == [] && identification == []
    {
      blocking, identification := [], [];
    }

    method AddBlockingEntry(n: int)
      modifies this`blocking
      ensures blocking == old(blocking) + [n]
    {
      blocking := blocking + [n];
    }

    method AddIdentificationEntry(n: int, caption: Label)
      modifies this`identification
      ensures identification == old(identification) + [(n, caption)]
    {
      identification := identification + [(n, caption)];
    }
  }

  method AddAllBlockingEntries(blockedDigits: seq<string>, context: ExtensionContext)
    modifies context`blocking
    ensures context.blocking == old(context.blocking) + Emitted(SortBy(SortKey, blockedDigits))
  {
    hide SortBy, ParseInt64;
    var sorted := SortBy(SortKey, blockedDigits);
    for i := 0 to |sorted|
      invariant context.blocking == old(context.blocking) + Emitted(sorted[..i])
    {
      assert sorted[..i + 1][..i] == sorted[..i];
      var n := ParseInt64(sorted[i]);
      if n.None? { continue; }
      context.AddBlockingEntry(n.value);
    }
    assert sorted[..|sorted|] == sorted;
  }

  method AddAllIdentificationEntries(entries: seq<Entry>, context: ExtensionContext)
    modifies context`identification
    ensures context.identification == old(context.identification) + EmittedEntries(SortBy(EntryKey, entries))
  {
    hide SortBy, ParseInt64;
    var sorted := SortBy(EntryKey, entries);
    for i := 0 to |sorted|
      invariant context.identification == old(context.identification) + EmittedEntries(sorted[..i])
    {
      assert sorted[..i + 1][..i] == sorted[..i];
      var n := ParseInt64(sorted[i].digits);
      if n.None? { continue; }
      context.AddIdentificationEntry(n.value, sorted[i].caption);
    }
    assert sorted[..|sorted|] == sorted;
  }

  /** `snapshot` is what the app last stored, if anything. */
  method BeginRequest(snapshot: Option<(seq<Entry>, seq<string>)>, context: ExtensionContext)
    modifies context
    ensures snapshot.None? ==>
        context.blocking == old(context.blocking) && context.identification == old(context.identification)
    ensures snapshot.Some? ==>
              && context.blocking == old(context.blocking) + Emitted(SortBy(SortKey, snapshot.value.1))
              && context.identification
                 == old(context.identification) + EmittedEntries(SortBy(EntryKey, snapshot.value.0))
  {
    if snapshot.None? { return; }
    AddAllBlockingEntries(snapshot.value.1, context);
    AddAllIdentificationEntries(snapshot.value.0, context);
  }

  /** Exactly the texts of 64-bit numbers parse: digits, perhaps with a sign. */
  lemma ParsedExactlyWhen(digits: string)
    requires AllDigits(digits)
    ensures ParseInt64(digits).Some? <==> Number(digits) < 0x8000_0000_0000_0000
    ensures ParseInt64("-" + digits).Some? <==> Number(digits) <= 0x8000_0000_0000_0000
    ensures ParseInt64(digits).Some? ==> ParseInt64("+" + digits) == ParseInt64(digits) == Some(Number(digits))
    ensures ParseInt64("-" + digits).Some? ==> ParseInt64("-" + digits) == Some(-Number(digits))
    ensures ParseInt64("") == None && ParseInt64("-") == None
  {
    hide Number;
    NumberBounds(digits);
    assert IsDigit(digits[0]);
    assert ("-" + digits)[1..] == digits && ("+" + digits)[1..] == digits;
  }

  // ----- What the system is handed -----

  lemma ExportedDigitsParse(d: string)
    requires PlainDigits(d) && |d| <= 12
    ensures ParseInt64(d) == Some(Number(d)) && SortKey(d) == Number(d)
  {
    hide Number;
    assert IsDigit(d[0]);
    NumberBounds(d);
    PowerGrows(|d|, 12);
    assert Power10(12) == 1_000_000_000_000;
  }

  lemma {:induction false} PowerGrows(m: nat, n: nat)
    requires m <= n
    ensures 1 <= Power10(m) <= Power10(n)
  {
    if m < n { PowerGrows(m, n - 1); } else if m > 0 { PowerGrows(m - 1, n - 1); }
  }

  lemma {:induction false} EmitAll(digits: seq<string>)
    requires forall i :: 0 <= i < |digits| ==> PlainDigits(digits[i]) && |digits[i]| <= 12
    ensures |Emitted(digits)| == |digits| && forall i :: 0 <= i < |digits| ==> Emitted(digits)[i] == Number(digits[i])
  {
    hide ParseInt64, Number, AllDigits;
    if digits == [] {
    } else {
      EmitAll(digits[..|digits| - 1]);
      ExportedDigitsParse(digits[|digits| - 1]);
    }
  }

  lemma {:induction false} EmitAllEntries(entries: seq<Entry>)
    requires forall i :: 0 <= i < |entries| ==> PlainDigits(entries[i].digits) && |entries[i].digits| <= 12
    ensures |EmittedEntries(entries)| == |entries|
    ensures forall i :: 0 <= i < |entries| ==>
        EmittedEntries(entries)[i] == (Number(entries[i].digits), entries[i].caption)
  {
    hide ParseInt64, Number, AllDigits;
    if entries == [] {
    } else {
      EmitAllEntries(entries[..|entries| - 1]);
      ExportedDigitsParse(entries[|entries| - 1].digits);
    }
  }

  lemma DirectoryDigits(known: set<Known>, rows: seq<DirectoryRow>, flags: map<string, SpamFlag>,
                        suppressed: set<string>, e: Entry, entries: seq<Entry>)
    requires Stored(known, flags) && IsDirectoryQuery(rows, known) &&
        IsDirectory(entries, rows, flags, suppressed) && e in entries
    ensures PlainDigits(e.digits) && |e.digits| <= 12
  {
    hide IsE164, IsHotline, IsShortCode, KindOf, PlainDigits, Labelled;
    var p := "+" + e.digits;
    RowsAreE164(known, rows, flags);
    if p in flags && Callable(p) { CallableIsE164(p); }
    E164Digits(p);
    assert WithoutPlus(p) == e.digits;
  }

  /** Every exported entry reaches the system with its label, none is dropped, and the numbers
      arrive in the export's own strictly ascending order: sorting again changes nothing. */
  lemma EntriesArriveInOrder(known: set<Known>, rows: seq<DirectoryRow>, flags: map<string, SpamFlag>,
                             suppressed: set<string>, entries: seq<Entry>)
    requires Stored(known, flags) && IsDirectoryQuery(rows, known) && IsDirectory(entries, rows, flags, suppressed)
    ensures SortBy(EntryKey, entries) == entries
    ensures var sent := EmittedEntries(SortBy(EntryKey, entries));
            && |sent| == |entries|
            && (forall i :: 0 <= i < |sent| ==>
                sent[i] == (Number(entries[i].digits), entries[i].caption) && 0 < sent[i].0 <= MAX_INT64)
            && (forall i, k :: 0 <= i < k < |sent| ==> sent[i].0 < sent[k].0)
  {
    hide Stored, IsDirectoryQuery, ParseInt64, SortKey, Number, SortBy, Exported, EntryOf, AllDigits;
    forall i | 0 <= i < |entries|
      ensures PlainDigits(entries[i].digits) && |entries[i].digits| <= 12 &&
      EntryKey(entries[i]) == EntryNumber(entries[i]) && 0 < Number(entries[i].digits) <= MAX_INT64 {
      DirectoryDigits(known, rows, flags, suppressed, entries[i], entries);
      ExportedDigitsParse(entries[i].digits);
      ParsedFits(entries[i].digits);
    }
    assert forall i, k :: 0 <= i < k < |entries| ==> EntryNumber(entries[i]) < EntryNumber(entries[k]);
    SortFixesAscending(EntryKey, entries);
    EmitAllEntries(entries);
  }

  lemma ParsedFits(d: string)
    requires PlainDigits(d) && ParseInt64(d) == Some(Number(d))
    ensures 0 < Number(d) <= MAX_INT64
  {
    NumberBounds(d);
  }

  /** And so does every number to block. */
  lemma BlocksArriveInOrder(flags: map<string, SpamFlag>, suppressed: set<string>, enabled: bool, blocked: seq<string>)
    requires IsBlockList(blocked, enabled, flags, suppressed) && forall p :: p in flags ==> Canonical(p)
    ensures SortBy(SortKey, blocked) == blocked
    ensures var sent := Emitted(SortBy(SortKey, blocked));
            && |sent| == |blocked|
            && (forall i :: 0 <= i < |sent| ==> sent[i] == Number(blocked[i]) && 0 < sent[i] <= MAX_INT64)
            && (forall i, k :: 0 <= i < k < |sent| ==> sent[i] < sent[k])
  {
    hide ParseInt64, SortKey, Number, SortBy, AllDigits, IsE164, IsHotline, IsShortCode, KindOf;
    forall i | 0 <= i < |blocked|
      ensures PlainDigits(blocked[i]) && |blocked[i]| <= 12 && SortKey(blocked[i]) == Number(blocked[i]) &&
      0 < Number(blocked[i]) <= MAX_INT64 {
      var p := "+" + blocked[i];
      assert blocked[i] in blocked && Blocked(p, enabled, flags, suppressed);
      CallableIsE164(p);
      E164Digits(p);
      assert WithoutPlus(p) == blocked[i];
      ExportedDigitsParse(blocked[i]);
      ParsedFits(blocked[i]);
    }
    SortFixesAscending(SortKey, blocked);
    EmitAll(blocked);
  }
}
