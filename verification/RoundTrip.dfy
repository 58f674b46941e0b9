/** From a written mobile number, through the extractor and the normalizer, to its one form. */
module RoundTrip {
  import opened Options
  import opened Regexes
  import opened PhoneScanner
  import opened Normalizer

  /** Nine national digits of a mobile number. */
  predicate IsMobile(digits: string) {
    |digits| == 9 && AllDigits(digits) && ("0" + digits)[..3] in MOBILE_PREFIXES
  }

  /** The digits, each behind at most one separator. */
  function Spell(digits: string, seps: seq<Option<char>>): string
    requires |digits| == |seps|
  {
    if digits == [] then []
    else (if seps[0].Some? then [seps[0].value] else []) + [digits[0]] + Spell(digits[1..], seps[1..])
  }

  predicate AreSeparators(d: Dialect, seps: seq<Option<char>>) {
    forall i :: 0 <= i < |seps| && seps[i].Some? ==> In(d, Separator, seps[i].value)
  }

  /** The text does not go on with an optional separator and a digit. */
  predicate EndsNumber(d: Dialect, after: string) {
    GroupEnd(d, after, 0).None?
  }

  /** No digit and no '+' comes before. */
  predicate NothingKept(before: string) {
    forall i :: 0 <= i < |before| ==> !Kept(before[i])
  }

  /** `u` stands in t at position i. */
  predicate At(t: string, i: nat, u: string) {
    i + |u| <= |t| && t[i..i + |u|] == u
  }

  lemma SpellHead(d: Dialect, t: string, i: nat, digits: string, seps: seq<Option<char>>)
    requires |digits| == |seps| && digits != [] && AllDigits(digits) && AreSeparators(d, seps)
    requires At(t, i, Spell(digits, seps))
    ensures var m := i + if seps[0].Some? then 2 else 1;
            GroupEnd(d, t, i) == Some(m) && At(t, m, Spell(digits[1..], seps[1..]))
            && m + |Spell(digits[1..], seps[1..])| == i + |Spell(digits, seps)|
  {
    var u, rest := Spell(digits, seps), Spell(digits[1..], seps[1..]);
    var k := if seps[0].Some? then 2 else 1;
    assert u[k..] == rest;
    assert t[i..i + |u|][k..] == t[i + k..i + |u|];
    assert t[i] == t[i..i + |u|][0] == u[0];
    if k == 2 { assert t[i + 1] == t[i..i + |u|][1] == u[1]; }
    assert IsDigit(digits[0]);
  }

  /** The scanner takes a spelled number whole, and then whatever group follows it. */
  lemma {:induction false} TakeSpelled(d: Dialect, t: string, i: nat, digits: string, seps: seq<Option<char>>, n: nat)
    requires |digits| == |seps| <= n && AreSeparators(d, seps) && (digits == [] || AllDigits(digits))
    requires At(t, i, Spell(digits, seps)) && GroupEnd(d, t, i + |Spell(digits, seps)|).None?
    ensures Take(d, t, i, n) == Taken(|digits|, i + |Spell(digits, seps)|)
    decreases |digits|
  {
    if digits == [] {
    } else {
      SpellHead(d, t, i, digits, seps);
      assert digits[1..] == [] || AllDigits(digits[1..]);
      TakeSpelled(d, t, i + if seps[0].Some? then 2 else 1, digits[1..], seps[1..], n - 1);
    }
  }

  lemma NextGroup(d: Dialect, t: string, i: nat, after: string)
    requires i <= |t| && t[i..] == after
    ensures GroupEnd(d, t, i).None? <==> GroupEnd(d, after, 0).None?
  {
    if i < |t| { assert t[i] == after[0]; }
    if i + 1 < |t| { assert t[i + 1] == after[1]; }
  }

  /** Nothing can match before the number starts. */
  lemma {:induction false} SkipQuiet(d: Dialect, t: string, from: nat, to: nat)
    requires from <= to <= |t| && forall i :: from <= i < to ==> !Kept(t[i])
    ensures FindAll(d, t, from) == FindAll(d, t, to)
    decreases |t| - from
  {
    hide FindAll, FirstEnd;
    if from < to {
      ScannerIsBacktracking(d, t, from);
      FindAllStep(d, t, from);
      SkipQuiet(d, t, from + 1, to);
    }
  }

  lemma PrefixAt(t: string, i: nat, prefix: string)
    requires prefix in {"0", "84", "+84"} && At(t, i, prefix)
    ensures PrefixEnd(t, i) == Some(i + |prefix|)
  {
    forall k | 0 <= k < |prefix| ensures t[i + k] == prefix[k] {
      assert t[i + k] == t[i..i + |prefix|][k];
    }
  }

  /** A number of eight to ten digits behind a prefix, standing alone, is matched exactly. */
  lemma SpelledNumberMatches(d: Dialect, before: string, prefix: string, digits: string, seps: seq<Option<char>>,
                             after: string)
    requires prefix in {"0", "84", "+84"} && AllDigits(digits) && 8 <= |digits| == |seps| <= 10
    requires AreSeparators(d, seps) && EndsNumber(d, after)
    ensures var t := before + prefix + Spell(digits, seps) + after;
            MatchEnd(d, t, |before|) == Some(|before| + |prefix| + |Spell(digits, seps)|)
  {
    hide Spell, Take;
    var body := Spell(digits, seps);
    var t := before + prefix + body + after;
    var i, p := |before|, |before| + |prefix|;
    assert t[i..p] == prefix && t[p..p + |body|] == body && t[p + |body|..] == after;
    PrefixAt(t, i, prefix);
    NextGroup(d, t, p + |body|, after);
    TakeSpelled(d, t, p, digits, seps, 10);
  }

  lemma {:induction false} CleanSpelled(d: Dialect, digits: string, seps: seq<Option<char>>)
    requires |digits| == |seps| && AreSeparators(d, seps) && (digits == [] || AllDigits(digits))
    ensures Clean(Spell(digits, seps)) == digits
    decreases |digits|
  {
    if digits == [] {
    } else {
      var sep := if seps[0].Some? then [seps[0].value] else [];
      var rest := Spell(digits[1..], seps[1..]);
      assert Spell(digits, seps) == sep + ([digits[0]] + rest);
      CleanConcat(sep, [digits[0]] + rest);
      CleanConcat([digits[0]], rest);
      assert sep != [] ==> !Kept(sep[0]) && sep[..0] == [];
      assert [digits[0]][..0] == [] && Kept(digits[0]);
      CleanSpelled(d, digits[1..], seps[1..]);
    }
  }

  lemma MobileDecision(digits: string)
    requires IsMobile(digits)
    ensures Normalize("0" + digits) == Result(Some("+84" + digits), Mobile, true, 0.95, None)
  {
    hide NationalResult;
    var n := "0" + digits;
    CleanPrefixed("0", digits);
    CleanKeeps(digits);
    assert n[0] == '0' && n[1..] == digits;
    NationalDecision(n, n);
    MobileNational(n);
  }

  lemma MobileNational(n: string)
    requires AllDigits(n) && |n| == 10 && n[0] == '0' && n[..3] in MOBILE_PREFIXES
    ensures NationalResult(n) == Result(Some("+84" + n[1..]), Mobile, true, 0.95, None)
  {
    assert ClassifyHotline(n).None?;
  }

  /** Extract, then normalize: a valid mobile number written as 0..., 84... or +84... with at most
      one separator before each digit after the prefix, in a text with no digit or '+' before it
      and no further group after it, is the first candidate, at exactly its place, and normalizes
      to its single +84 form. */
  lemma ExtractThenNormalize(d: Dialect, before: string, prefix: string, digits: string, seps: seq<Option<char>>,
                             after: string)
    requires prefix in {"0", "84", "+84"} && IsMobile(digits) && |seps| == 9 && AreSeparators(d, seps)
    requires NothingKept(before) && EndsNumber(d, after)
    ensures var written := prefix + Spell(digits, seps);
            var t := before + written + after;
            var found := FindAll(d, t, 0);
            && found != [] && found[0] == Span(|before|, |before| + |written|)
            && t[found[0].start..found[0].end] == written
            && Normalize(written) == Result(Some("+84" + digits), Mobile, true, 0.95, None)
  {
    hide FindAll, FirstEnd, Spell, DecidePython, Clean, Strip;
    var written := prefix + Spell(digits, seps);
    var t := before + written + after;
    FirstCandidate(d, before, prefix, digits, seps, after);
    NormalizeSpelled(d, prefix, digits, seps);
  }

  lemma FirstCandidate(d: Dialect, before: string, prefix: string, digits: string, seps: seq<Option<char>>,
                       after: string)
    requires prefix in {"0", "84", "+84"} && IsMobile(digits) && |seps| == 9 && AreSeparators(d, seps)
    requires NothingKept(before) && EndsNumber(d, after)
    ensures var written := prefix + Spell(digits, seps);
            var t := before + written + after;
            var found := FindAll(d, t, 0);
            && found != [] && found[0] == Span(|before|, |before| + |written|)
            && t[found[0].start..found[0].end] == written
  {
    hide FindAll, FirstEnd, MatchEnd, Spell;
    var written := prefix + Spell(digits, seps);
    var t := before + written + after;
    assert t == before + prefix + Spell(digits, seps) + after;
    SpelledNumberMatches(d, before, prefix, digits, seps, after);
    ScannerIsBacktracking(d, t, |before|);
    assert forall i :: 0 <= i < |before| ==> t[i] == before[i];
    SkipQuiet(d, t, 0, |before|);
    FindAllStep(d, t, |before|);
    assert t[|before|..|before| + |written|] == written;
  }

  lemma NormalizeSpelled(d: Dialect, prefix: string, digits: string, seps: seq<Option<char>>)
    requires prefix in {"0", "84", "+84"} && IsMobile(digits) && |seps| == 9 && AreSeparators(d, seps)
    ensures Normalize(prefix + Spell(digits, seps)) == Result(Some("+84" + digits), Mobile, true, 0.95, None)
  {
    hide Spell, DecidePython, Clean, Strip;
    var body := Spell(digits, seps);
    CleanSpelled(d, digits, seps);
    CleanPrefixed(prefix, body);
    CleanPrefixed(prefix, digits);
    CleanKeeps(digits);
    SpellingsAgree(digits);
    MobileDecision(digits);
  }
}
