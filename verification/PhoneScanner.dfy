/** The phone candidate pattern and the scan for all its matches in a text. */
module PhoneScanner {
  import opened Options
  import opened Regexes

  const GROUP := Cat(Opt(Cls(Separator)), Cls(Digit))
  const COUNTRY := Cat(Opt(Cls(Lit('+'))), Cat(Cls(Lit('8')), Cls(Lit('4'))))
  const SUBSCRIBER := Cat(Alt(COUNTRY, Cls(Lit('0'))), Rep(GROUP, 8, 10))
  const HOTLINE := Cat(Cls(Lit('1')), Cat(Cls(EightOrNine), Cat(Cls(Lit('0')), Cat(Cls(Lit('0')), Rep(GROUP, 4, 7)))))

  /** `(\+?84|0)(?:[\s.-]?\d){8,10}|1[89]00(?:[\s.-]?\d){4,7}` */
  const PHONE := Alt(SUBSCRIBER, HOTLINE)

  // ----- The greedy scanner -----

  /** End of one optional separator and digit. */
  function GroupEnd(d: Dialect, t: string, i: nat): Option<nat> {
    if i < |t| && IsDigit(t[i]) then Some(i + 1)
    else if i + 1 < |t| && In(d, Separator, t[i]) && IsDigit(t[i + 1]) then Some(i + 2)
    else None
  }

  datatype Taken = Taken(count: nat, end: nat)

  /** As many groups as there are, at most n. */
  function Take(d: Dialect, t: string, i: nat, n: nat): Taken
    decreases n
  {
    if n == 0 || GroupEnd(d, t, i).None? then Taken(0, i)
    else
      var rest := Take(d, t, GroupEnd(d, t, i).value, n - 1);
      Taken(rest.count + 1, rest.end)
  }

  function PrefixEnd(t: string, i: nat): Option<nat> {
    if i + 2 < |t| && t[i] == '+' && t[i + 1] == '8' && t[i + 2] == '4' then Some(i + 3)
    else if i + 1 < |t| && t[i] == '8' && t[i + 1] == '4' then Some(i + 2)
    else if i < |t| && t[i] == '0' then Some(i + 1)
    else None
  }

  predicate HotlineHead(t: string, i: nat) {
    i + 3 < |t| && t[i] == '1' && (t[i + 1] == '8' || t[i + 1] == '9') && t[i + 2] == '0' && t[i + 3] == '0'
  }

  /** Where a match that starts at i ends. */
  function MatchEnd(d: Dialect, t: string, i: nat): Option<nat> {
    if PrefixEnd(t, i).Some? then
      var g := Take(d, t, PrefixEnd(t, i).value, 10);
      if g.count >= 8 then Some(g.end) else None
    else if HotlineHead(t, i) then
      var g := Take(d, t, i + 4, 7);
      if g.count >= 4 then Some(g.end) else None
    else None
  }

  // ----- The scanner is the backtracking matcher -----

  lemma OneStart(d: Dialect, r: Regex, t: string, m: nat)
    ensures EndsFrom(d, r, t, [m]) == Ends(d, r, t, m)
  {
    assert EndsFrom(d, r, t, [m][1..]) == [];
  }

  lemma GroupEnds(d: Dialect, t: string, i: nat)
    ensures Ends(d, GROUP, t, i) == match GroupEnd(d, t, i) case Some(m) => [m] case None => []
  {
    var digit := Cls(Digit);
    OneStart(d, digit, t, i);
    if i < |t| && In(d, Separator, t[i]) {
      assert Ends(d, Opt(Cls(Separator)), t, i) == [i + 1, i];
      assert [i + 1, i][1..] == [i];
    } else {
      assert Ends(d, Opt(Cls(Separator)), t, i) == [i];
    }
  }

  /** Each further group is forced, so the first way is also the longest. */
  lemma {:induction false} RepIsGreedy(d: Dialect, t: string, i: nat, lo: nat, hi: nat)
    requires lo <= hi
    ensures var ends, g := RepEnds(d, GROUP, lo, hi, t, i), Take(d, t, i, hi);
            && (ends == [] <==> g.count < lo)
            && (ends != [] ==> ends[0] == g.end)
            && (forall e :: e in ends ==> e <= g.end)
    decreases hi
  {
    hide Ends, GroupEnd;
    GroupEnds(d, t, i);
    TakeAdvances(d, t, i, hi);
    if hi > 0 && GroupEnd(d, t, i).Some? {
      var m := GroupEnd(d, t, i).value;
      RepIsGreedy(d, t, m, Pred(lo), hi - 1);
      assert [m][1..] == [];
      assert RepFrom(d, GROUP, Pred(lo), hi - 1, t, [m]) == RepEnds(d, GROUP, Pred(lo), hi - 1, t, m);
    }
  }

  lemma {:induction false} TakeAdvances(d: Dialect, t: string, i: nat, n: nat)
    ensures var g := Take(d, t, i, n);
            && i + g.count <= g.end && g.count <= n
            && (g.count > 0 ==> g.end <= |t| && IsDigit(t[g.end - 1]))
            && (g.count == 0 ==> g.end == i)
    decreases n
  {
    if n > 0 && GroupEnd(d, t, i).Some? { TakeAdvances(d, t, GroupEnd(d, t, i).value, n - 1); }
  }

  lemma CountryEnds(d: Dialect, t: string, i: nat)
    ensures Ends(d, Cat(Cls(Lit('8')), Cls(Lit('4'))), t, i)
         == if i + 1 < |t| && t[i] == '8' && t[i + 1] == '4' then [i + 2] else []
  {
    OneStart(d, Cls(Lit('4')), t, i + 1);
  }

  lemma PrefixEnds(d: Dialect, t: string, i: nat)
    ensures Ends(d, Alt(COUNTRY, Cls(Lit('0'))), t, i) == match PrefixEnd(t, i) case Some(m) => [m] case None => []
  {
    hide RepEnds;
    var eightFour := Cat(Cls(Lit('8')), Cls(Lit('4')));
    CountryEnds(d, t, i);
    CountryEnds(d, t, i + 1);
    OneStart(d, eightFour, t, i);
    if i < |t| && t[i] == '+' {
      assert Ends(d, Opt(Cls(Lit('+'))), t, i) == [i + 1, i];
      assert [i + 1, i][1..] == [i];
    } else {
      assert Ends(d, Opt(Cls(Lit('+'))), t, i) == [i];
    }
  }

  lemma HotlineEnds(d: Dialect, t: string, i: nat)
    ensures Ends(d, HOTLINE, t, i) == if HotlineHead(t, i) then RepEnds(d, GROUP, 4, 7, t, i + 4) else []
  {
    hide RepEnds, GroupEnd;
    var r3 := Rep(GROUP, 4, 7);
    var r2 := Cat(Cls(Lit('0')), r3);
    var r1 := Cat(Cls(Lit('0')), r2);
    var r0 := Cat(Cls(EightOrNine), r1);
    OneStart(d, r3, t, i + 4);
    OneStart(d, r2, t, i + 3);
    OneStart(d, r1, t, i + 2);
    OneStart(d, r0, t, i + 1);
    assert Ends(d, r2, t, i + 3) == if i + 3 < |t| && t[i + 3] == '0' then Ends(d, r3, t, i + 4) else [];
    assert Ends(d, r1, t, i + 2) == if i + 2 < |t| && t[i + 2] == '0' then Ends(d, r2, t, i + 3) else [];
  }

  lemma SubscriberEnds(d: Dialect, t: string, i: nat)
    ensures Ends(d, SUBSCRIBER, t, i)
         == match PrefixEnd(t, i) case Some(m) => RepEnds(d, GROUP, 8, 10, t, m) case None => []
  {
    PrefixEnds(d, t, i);
    if PrefixEnd(t, i).Some? { OneStart(d, Rep(GROUP, 8, 10), t, PrefixEnd(t, i).value); }
  }

  lemma PhoneEnds(d: Dialect, t: string, i: nat)
    ensures Ends(d, PHONE, t, i) == Ends(d, SUBSCRIBER, t, i) + Ends(d, HOTLINE, t, i)
    ensures Ends(d, SUBSCRIBER, t, i) == [] || Ends(d, HOTLINE, t, i) == []
  {
    SubscriberEnds(d, t, i);
    HotlineEnds(d, t, i);
  }

  lemma BestEnd(d: Dialect, t: string, i: nat)
    ensures var ends := Ends(d, PHONE, t, i);
            && MatchEnd(d, t, i) == FirstEnd(d, PHONE, t, i) == (if ends == [] then None else Some(ends[0]))
            && (forall e :: e in ends ==> e <= ends[0])
  {
    hide RepEnds;
    PhoneEnds(d, t, i);
    SubscriberEnds(d, t, i);
    HotlineEnds(d, t, i);
    assert Ends(d, PHONE, t, i)
        == if Ends(d, SUBSCRIBER, t, i) == [] then Ends(d, HOTLINE, t, i) else Ends(d, SUBSCRIBER, t, i);
    if PrefixEnd(t, i).Some? {
      RepIsGreedy(d, t, PrefixEnd(t, i).value, 8, 10);
    } else if HotlineHead(t, i) {
      RepIsGreedy(d, t, i + 4, 4, 7);
    }
  }

  /** The scanner stops where backtracking over the pattern stops first, and nowhere a longer
      match would end; it fails exactly where the pattern matches nothing. */
  lemma ScannerIsBacktracking(d: Dialect, t: string, i: nat)
    ensures MatchEnd(d, t, i) == FirstEnd(d, PHONE, t, i)
    ensures MatchEnd(d, t, i).None? <==> forall e: nat :: !Matches(d, PHONE, t, i, e)
    ensures forall e: nat :: Matches(d, PHONE, t, i, e) ==> MatchEnd(d, t, i).Some? && e <= MatchEnd(d, t, i).value
  {
    hide *;
    BestEnd(d, t, i);
    FirstEndIsAMatch(d, PHONE, t, i);
    forall e: nat | Matches(d, PHONE, t, i, e) ensures MatchEnd(d, t, i).Some? && e <= MatchEnd(d, t, i).value {
      EndsAreMatches(d, PHONE, t, i, e);
    }
  }

  // ----- All matches of a text -----

  /** A reported candidate: `text[start..end]`. */
  datatype Span = Span(start: nat, end: nat)

  /** `finditer`: leftmost match first, then on from its end, which a match of this pattern moves. */
  function FindAll(d: Dialect, t: string, from: nat): seq<Span>
    decreases |t| - from
  {
    if from >= |t| then [] else
      match FirstEnd(d, PHONE, t, from)
      case Some(e) => [Span(from, e)] + (if from < e then FindAll(d, t, e) else FindAll(d, t, from + 1))
      case None => FindAll(d, t, from + 1)
  }

  method ScanGroups(d: Dialect, t: string, i: nat, n: nat) returns (count: nat, end: nat)
    ensures Taken(count, end) == Take(d, t, i, n)
  {
    count, end := 0, i;
    while count < n && GroupEnd(d, t, end).Some?
      invariant count <= n
      invariant var rest := Take(d, t, end, n - count); Take(d, t, i, n) == Taken(count + rest.count, rest.end)
    {
      end := GroupEnd(d, t, end).value;
      count := count + 1;
    }
  }

  method ScanAt(d: Dialect, t: string, i: nat) returns (end: Option<nat>)
    ensures end == FirstEnd(d, PHONE, t, i)
  {
    ScannerIsBacktracking(d, t, i);
    var p := PrefixEnd(t, i);
    var count, e;
    if p.Some? {
      count, e := ScanGroups(d, t, p.value, 10);
      if count >= 8 { return Some(e); }
    } else if HotlineHead(t, i) {
      count, e := ScanGroups(d, t, i + 4, 7);
      if count >= 4 { return Some(e); }
    }
    return None;
  }

  predicate AreSlices(t: string, spans: seq<Span>, raws: seq<string>) {
    && |raws| == |spans|
    && forall k :: 0 <= k < |spans| ==>
         spans[k].start <= spans[k].end <= |t| && raws[k] == t[spans[k].start..spans[k].end]
  }

  lemma FindAllStep(d: Dialect, t: string, i: nat)
    requires i < |t|
    ensures FirstEnd(d, PHONE, t, i).None? ==> FindAll(d, t, i) == FindAll(d, t, i + 1)
    ensures FirstEnd(d, PHONE, t, i).Some? ==>
              var e := FirstEnd(d, PHONE, t, i).value;
              i < e <= |t| && FindAll(d, t, i) == [Span(i, e)] + FindAll(d, t, e)
  {
    hide FirstEnd;
    if FirstEnd(d, PHONE, t, i).Some? { MatchBounds(d, t, i); }
  }

  /** The candidate loop: spans and raw strings, in order. */
  method ExtractCandidates(d: Dialect, t: string) returns (spans: seq<Span>, raws: seq<string>)
    ensures spans == FindAll(d, t, 0)
    ensures AreSlices(t, spans, raws)
  {
    hide FirstEnd, FindAll;
    spans, raws := [], [];
    var i := 0;
    while i < |t|
      invariant spans + FindAll(d, t, i) == FindAll(d, t, 0)
      invariant AreSlices(t, spans, raws)
      decreases |t| - i
    {
      var end := ScanAt(d, t, i);
      FindAllStep(d, t, i);
      if end.Some? {
        spans := spans + [Span(i, end.value)];
        raws := raws + [t[i..end.value]];
        i := end.value;
      } else {
        i := i + 1;
      }
    }
    FindAllPastEnd(d, t, i);
  }

  lemma FindAllPastEnd(d: Dialect, t: string, i: nat)
    requires i >= |t|
    ensures FindAll(d, t, i) == []
  {
  }

  // ----- What a candidate looks like -----

  function DigitCount(s: string): nat {
    if s == [] then 0 else DigitCount(s[..|s| - 1]) + if IsDigit(s[|s| - 1]) then 1 else 0
  }

  lemma {:induction false} DigitCountConcat(s: string, t: string)
    ensures DigitCount(s + t) == DigitCount(s) + DigitCount(t)
  {
    if t == [] {
      assert s + t == s;
    } else {
      assert (s + t)[..|s + t| - 1] == s + t[..|t| - 1];
      DigitCountConcat(s, t[..|t| - 1]);
    }
  }

  lemma {:induction false} GroupDigits(d: Dialect, t: string, i: nat)
    requires GroupEnd(d, t, i).Some?
    ensures i < GroupEnd(d, t, i).value <= |t| && DigitCount(t[i..GroupEnd(d, t, i).value]) == 1
  {
    var m := GroupEnd(d, t, i).value;
    if m == i + 2 {
      assert t[i..m] == [t[i]] + [t[i + 1]];
      DigitCountConcat([t[i]], [t[i + 1]]);
      assert !IsDigit(t[i]);
    } else {
      assert t[i..m] == [t[i]];
    }
    assert forall c: char :: DigitCount([c]) == if IsDigit(c) then 1 else 0;
  }

  /** Every group holds one digit. */
  lemma {:induction false} TakeDigits(d: Dialect, t: string, i: nat, n: nat)
    requires i <= |t|
    ensures var g := Take(d, t, i, n); i <= g.end <= |t| && DigitCount(t[i..g.end]) == g.count
    decreases n
  {
    if n > 0 && GroupEnd(d, t, i).Some? {
      var m := GroupEnd(d, t, i).value;
      GroupDigits(d, t, i);
      TakeDigits(d, t, m, n - 1);
      var e := Take(d, t, i, n).end;
      TakeAdvances(d, t, m, n - 1);
      assert t[i..e] == t[i..m] + t[m..e];
      DigitCountConcat(t[i..m], t[m..e]);
    }
  }

  lemma MatchBounds(d: Dialect, t: string, i: nat)
    requires FirstEnd(d, PHONE, t, i).Some?
    ensures i < FirstEnd(d, PHONE, t, i).value <= |t|
  {
    hide Ends, FirstEnd;
    ScannerIsBacktracking(d, t, i);
    if PrefixEnd(t, i).Some? {
      TakeAdvances(d, t, PrefixEnd(t, i).value, 10);
    } else {
      TakeAdvances(d, t, i + 4, 7);
    }
  }

  lemma MatchParts(d: Dialect, t: string, i: nat) returns (p: nat, n: nat)
    requires MatchEnd(d, t, i).Some?
    ensures PrefixEnd(t, i) == Some(p) || (PrefixEnd(t, i).None? && HotlineHead(t, i) && p == i + 4)
    ensures i < p <= |t| && (IsDigit(t[i]) || t[i] == '+')
    ensures MatchEnd(d, t, i).value == Take(d, t, p, n).end
    ensures if PrefixEnd(t, i).Some? then 8 <= Take(d, t, p, n).count <= 10 else 4 <= Take(d, t, p, n).count <= 7
  {
    hide Take;
    if PrefixEnd(t, i).Some? { p, n := PrefixEnd(t, i).value, 10; } else { p, n := i + 4, 7; }
    TakeAdvances(d, t, p, n);
  }

  lemma MatchShape(d: Dialect, t: string, i: nat)
    requires MatchEnd(d, t, i).Some?
    ensures var e := MatchEnd(d, t, i).value;
            && i < e <= |t| && 8 <= DigitCount(t[i..e]) <= 12
            && (IsDigit(t[i]) || t[i] == '+') && IsDigit(t[e - 1])
  {
    hide Take, MatchEnd, DigitCount;
    var p, n := MatchParts(d, t, i);
    var e := MatchEnd(d, t, i).value;
    TakeAdvances(d, t, p, n);
    TakeDigits(d, t, p, n);
    assert t[i..e] == t[i..p] + t[p..e];
    DigitCountConcat(t[i..p], t[p..e]);
    HeadDigits(t, i, p);
  }

  /** A candidate has 8 to 12 digits, starts with one or with '+', and ends with one, so stripping
      it changes nothing. */
  lemma CandidateShape(d: Dialect, t: string, i: nat)
    requires FirstEnd(d, PHONE, t, i).Some?
    ensures var e := FirstEnd(d, PHONE, t, i).value;
            && i < e <= |t| && 8 <= DigitCount(t[i..e]) <= 12
            && (IsDigit(t[i]) || t[i] == '+') && IsDigit(t[e - 1])
  {
    hide *;
    ScannerIsBacktracking(d, t, i);
    MatchShape(d, t, i);
  }

  lemma HeadDigits(t: string, i: nat, p: nat)
    requires PrefixEnd(t, i) == Some(p) || (PrefixEnd(t, i).None? && HotlineHead(t, i) && p == i + 4)
    ensures DigitCount(t[i..p]) == if PrefixEnd(t, i).None? then 4 else if t[i] == '0' then 1 else 2
  {
    assert forall c: char :: DigitCount([c]) == if IsDigit(c) then 1 else 0;
    var s := t[i..p];
    if |s| == 1 {
      assert s == [t[i]];
    } else if |s| == 2 {
      assert s == [t[i]] + [t[i + 1]];
      DigitCountConcat([t[i]], [t[i + 1]]);
    } else if |s| == 3 {
      assert s == [t[i]] + [t[i + 1]] + [t[i + 2]];
      DigitCountConcat([t[i]], [t[i + 1]]);
      DigitCountConcat([t[i]] + [t[i + 1]], [t[i + 2]]);
    } else {
      assert s == [t[i]] + [t[i + 1]] + [t[i + 2]] + [t[i + 3]];
      DigitCountConcat([t[i]], [t[i + 1]]);
      DigitCountConcat([t[i]] + [t[i + 1]], [t[i + 2]]);
      DigitCountConcat([t[i]] + [t[i + 1]] + [t[i + 2]], [t[i + 3]]);
    }
  }

  /** A span the matcher reports at its own start. */
  predicate IsReported(d: Dialect, t: string, s: Span) {
    s.start < s.end <= |t| && FirstEnd(d, PHONE, t, s.start) == Some(s.end)
  }

  predicate InOrder(d: Dialect, t: string, from: nat, s: seq<Span>) {
    && (forall k :: 0 <= k < |s| ==> from <= s[k].start && IsReported(d, t, s[k]))
    && (forall k, m :: 0 <= k < m < |s| ==> s[k].end <= s[m].start)
  }

  /** Reported spans are matches, lie in the text, increase, and do not overlap. */
  lemma {:induction false} SpansAreOrdered(d: Dialect, t: string, from: nat)
    ensures InOrder(d, t, from, FindAll(d, t, from))
    decreases |t| - from
  {
    hide FirstEnd, FindAll;
    if from < |t| {
      FindAllStep(d, t, from);
      SpansAreOrdered(d, t, if FirstEnd(d, PHONE, t, from).Some? then FirstEnd(d, PHONE, t, from).value else from + 1);
    } else {
      FindAllPastEnd(d, t, from);
    }
  }

  /** Some reported span covers the position. */
  predicate Covered(s: seq<Span>, i: nat) {
    exists k :: 0 <= k < |s| && s[k].start <= i < s[k].end
  }

  /** Nothing is missed: wherever the pattern can match, some reported span covers the place. */
  lemma {:induction false} EveryMatchIsCovered(d: Dialect, t: string, from: nat, i: nat, e: nat)
    requires from <= i && Matches(d, PHONE, t, i, e)
    ensures Covered(FindAll(d, t, from), i)
    decreases |t| - from
  {
    hide FirstEnd, FindAll, Matches;
    FirstEndIsAMatch(d, PHONE, t, i);
    MatchBounds(d, t, i);
    FindAllStep(d, t, from);
    var s := FindAll(d, t, from);
    var end := FirstEnd(d, PHONE, t, from);
    if end.Some? && i < end.value {
      assert s[0].start <= i < s[0].end;
    } else {
      var next := if end.Some? then end.value else from + 1;
      if end.None? && i == from { assert false; }
      EveryMatchIsCovered(d, t, next, i, e);
      var rest := FindAll(d, t, next);
      var k :| 0 <= k < |rest| && rest[k].start <= i < rest[k].end;
      assert end.Some? ==> s[k + 1] == rest[k];
    }
  }

  /** The whole report on a text. */
  lemma ReportIsComplete(d: Dialect, t: string)
    ensures InOrder(d, t, 0, FindAll(d, t, 0))
    ensures forall s :: s in FindAll(d, t, 0) ==> s.start < s.end <= |t| && 8 <= DigitCount(t[s.start..s.end]) <= 12
    ensures forall i: nat, e: nat :: Matches(d, PHONE, t, i, e) ==> Covered(FindAll(d, t, 0), i)
  {
    hide FirstEnd, FindAll, Matches, DigitCount;
    SpansAreOrdered(d, t, 0);
    forall s | s in FindAll(d, t, 0)
      ensures s.start < s.end <= |t| && 8 <= DigitCount(t[s.start..s.end]) <= 12
    {
      assert IsReported(d, t, s);
      CandidateShape(d, t, s.start);
    }
    forall i: nat, e: nat | Matches(d, PHONE, t, i, e) ensures Covered(FindAll(d, t, 0), i) {
      EveryMatchIsCovered(d, t, 0, i, e);
    }
  }
}
