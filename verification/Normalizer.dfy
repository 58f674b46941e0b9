/** The Vietnamese phone normalizer, in its two independent implementations. */
module Normalizer {
  import opened Options
  import opened Regexes

  datatype PhoneType = Mobile | Landline | Hotline1800 | Hotline1900 | ShortCode | UnknownType

  datatype Result = Result(value: Option<string>, kind: PhoneType, valid: bool, confidence: real,
                           reason: Option<string>)

  datatype Class = Class(kind: PhoneType, valid: bool, confidence: real)

  const MOBILE_PREFIXES: set<string> := {
    "032", "033", "034", "035", "036", "037", "038", "039", "086", "096", "097", "098",
    "070", "076", "077", "078", "079", "089", "090", "093",
    "081", "082", "083", "084", "085", "088", "091", "094",
    "052", "056", "058", "092",
    "059", "099",
    "087"}

  // ----- Cleaning -----

  function StripLeft(d: Dialect, s: string): string {
    if s != [] && IsSpace(d, s[0]) then StripLeft(d, s[1..]) else s
  }

  function StripRight(d: Dialect, s: string): string {
    if s != [] && IsSpace(d, s[|s| - 1]) then StripRight(d, s[..|s| - 1]) else s
  }

  /** `strip()` or `trim()`. */
  function Strip(d: Dialect, s: string): string {
    StripRight(d, StripLeft(d, s))
  }

  predicate Kept(c: char) {
    IsDigit(c) || c == '+'
  }

  /** Drops `[^\d+]`. */
  function Clean(s: string): string {
    if s == [] then [] else Clean(s[..|s| - 1]) + if Kept(s[|s| - 1]) then [s[|s| - 1]] else []
  }

  /** `^\d+$` */
  predicate AllDigits(s: string) {
    s != [] && forall i :: 0 <= i < |s| ==> IsDigit(s[i])
  }

  function WithoutPlus(s: string): string {
    if "+" <= s then s[1..] else s
  }

  // ----- services/crawler -----

  function ToNational(c: string): Option<string> {
    if "+84" <= c then Some("0" + c[3..])
    else if "84" <= c && |c| >= 11 then Some("0" + c[2..])
    else if "0" <= c then Some(c)
    else None
  }

  function ClassifyMobile(n: string): Option<Class> {
    if |n| == 10 && n[..3] in MOBILE_PREFIXES then Some(Class(Mobile, true, 0.95)) else None
  }

  function ClassifyLandline(n: string): Option<Class> {
    if |n| != 11 || n[1] != '2' then None
    else if n[1..3] in {"24", "28"} then Some(Class(Landline, true, 0.85))
    else Some(Class(Landline, true, 0.75))
  }

  function ClassifyHotline(n: string): Option<Class> {
    if "1900" <= n && 8 <= |n| <= 11 then Some(Class(Hotline1900, true, 0.9))
    else if "1800" <= n && 8 <= |n| <= 11 then Some(Class(Hotline1800, true, 0.9))
    else None
  }

  function Rejected(confidence: real, reason: string): Result {
    Result(None, UnknownType, false, confidence, Some(reason))
  }

  /** The end of the decision, on a national number of digits only. */
  function NationalResult(n: string): Result
    requires AllDigits(n)
  {
    var e164 := "+84" + n[1..];
    var class_ := if ClassifyHotline(n).Some? then ClassifyHotline(n)
                  else if ClassifyMobile(n).Some? then ClassifyMobile(n)
                  else ClassifyLandline(n);
    if class_.Some? then Result(Some(e164), class_.value.kind, class_.value.valid, class_.value.confidence, None)
    else if |n| == 10 || |n| == 11 then Result(Some(e164), UnknownType, false, 0.3, Some("unrecognized_prefix"))
    else Rejected(0.1, "invalid_length")
  }

  function DecidePython(cleaned: string): Result {
    if |cleaned| == 0 then Rejected(0.0, "empty_input")
    else
      var digits := WithoutPlus(cleaned);
      if AllDigits(digits) && ("1900" <= digits || "1800" <= digits) && ClassifyHotline(digits).Some? then
        var h := ClassifyHotline(digits).value;
        Result(Some(digits), h.kind, h.valid, h.confidence, None)
      else if !("0" <= cleaned) && !("+84" <= cleaned) && !("84" <= cleaned && |cleaned| >= 11) then
        if AllDigits(digits) && 3 <= |digits| <= 6 then Result(Some(digits), ShortCode, true, 0.5, None)
        else Rejected(0.1, "no_recognizable_national_prefix")
      else
        var national := ToNational(cleaned);
        if national.None? || !AllDigits(national.value) then Rejected(0.1, "malformed")
        else NationalResult(national.value)
  }

  function Normalize(raw: string): Result {
    DecidePython(Clean(Strip(Python, raw)))
  }

  // ----- apps/api, with tables and rules of its own -----

  const API_MOBILE_PREFIXES: set<string> := {
    "032", "033", "034", "035", "036", "037", "038", "039", "086", "096", "097", "098",
    "070", "076", "077", "078", "079", "089", "090", "093",
    "081", "082", "083", "084", "085", "088", "091", "094",
    "052", "056", "058", "092",
    "059", "099",
    "087"}

  function ToNationalForm(s: string): Option<string> {
    if "+84" <= s then Some("0" + s[3..])
    else if "84" <= s && |s| >= 11 then Some("0" + s[2..])
    else if "0" <= s then Some(s)
    else None
  }

  function MobileClass(n: string): Option<Class> {
    if |n| != 10 then None
    else if n[..3] in API_MOBILE_PREFIXES then Some(Class(Mobile, true, 0.95))
    else None
  }

  function LandlineClass(n: string): Option<Class> {
    if |n| != 11 || n[1..2] != "2" then None
    else if n[1..3] in {"24", "28"} then Some(Class(Landline, true, 0.85))
    else Some(Class(Landline, true, 0.75))
  }

  function HotlineClass(n: string): Option<Class> {
    if "1900" <= n && |n| >= 8 && |n| <= 11 then Some(Class(Hotline1900, true, 0.9))
    else if "1800" <= n && |n| >= 8 && |n| <= 11 then Some(Class(Hotline1800, true, 0.9))
    else None
  }

  function ShortCodeClass(n: string): Option<Class> {
    if AllDigits(n) && 3 <= |n| <= 6 then Some(Class(ShortCode, true, 0.5)) else None
  }

  function OrElse<T>(a: Option<T>, b: Option<T>): Option<T> {
    if a.Some? then a else b
  }

  function DecideTypeScript(cleaned: string): Result {
    if |cleaned| == 0 then Rejected(0.0, "empty_input")
    else
      var digits := if cleaned[0] == '+' then cleaned[1..] else cleaned;
      var hotline := if AllDigits(digits) &&
          ("1900" <= digits || "1800" <= digits) then HotlineClass(digits) else None;
      if hotline.Some? then Result(Some(digits), hotline.value.kind, true, hotline.value.confidence, None)
      else if !("0" <= cleaned || "+84" <= cleaned || ("84" <= cleaned && |cleaned| >= 11)) then
        var short := ShortCodeClass(digits);
        if short.Some? && |digits| <= 6 then Result(Some(digits), ShortCode, true, short.value.confidence, None)
        else Rejected(0.1, "no_recognizable_national_prefix")
      else
        match ToNationalForm(cleaned)
        case None => Rejected(0.1, "malformed")
        case Some(n) =>
          if !AllDigits(n) then Rejected(0.1, "malformed")
          else
            match OrElse(OrElse(HotlineClass(n), MobileClass(n)), LandlineClass(n))
            case Some(c) => Result(Some("+84" + n[1..]), c.kind, c.valid, c.confidence, None)
            case None =>
              if |n| == 10 || |n| == 11
              then Result(Some("+84" + n[1..]), UnknownType, false, 0.3, Some("unrecognized_prefix"))
              else Rejected(0.1, "invalid_length")
  }

  function NormalizeTypeScript(raw: string): Result {
    DecideTypeScript(Clean(Strip(JavaScript, raw)))
  }

  // ----- Cleaning lemmas -----

  lemma {:induction false} CleanConcat(s: string, t: string)
    ensures Clean(s + t) == Clean(s) + Clean(t)
  {
    if t == [] {
      assert s + t == s;
    } else {
      assert (s + t)[..|s + t| - 1] == s + t[..|t| - 1];
      CleanConcat(s, t[..|t| - 1]);
    }
  }

  lemma {:induction false} CleanKeeps(s: string)
    ensures forall i :: 0 <= i < |Clean(s)| ==> Kept(Clean(s)[i])
    ensures (forall i :: 0 <= i < |s| ==> Kept(s[i])) ==> Clean(s) == s
  {
    if s == [] {
    } else {
      CleanKeeps(s[..|s| - 1]);
    }
  }

  lemma {:induction false} StripLeftKeepsClean(d: Dialect, s: string)
    ensures Clean(StripLeft(d, s)) == Clean(s)
  {
    if s != [] && IsSpace(d, s[0]) {
      StripLeftKeepsClean(d, s[1..]);
      assert s == [s[0]] + s[1..];
      CleanConcat([s[0]], s[1..]);
    }
  }

  lemma {:induction false} StripRightKeepsClean(d: Dialect, s: string)
    ensures Clean(StripRight(d, s)) == Clean(s)
  {
    if s != [] && IsSpace(d, s[|s| - 1]) { StripRightKeepsClean(d, s[..|s| - 1]); }
  }

  /** What stripping removes, cleaning removes anyway, whichever engine strips. */
  lemma StripKeepsClean(d: Dialect, s: string)
    ensures Clean(Strip(d, s)) == Clean(s)
  {
    StripLeftKeepsClean(d, s);
    StripRightKeepsClean(d, StripLeft(d, s));
  }

  /** The two sets of rules classify alike. */
  lemma RulesAgree(n: string)
    ensures ToNationalForm(n) == ToNational(n)
    ensures MobileClass(n) == ClassifyMobile(n)
    ensures LandlineClass(n) == ClassifyLandline(n)
    ensures HotlineClass(n) == ClassifyHotline(n)
  {
    if |n| == 11 { assert n[1..2] == [n[1]]; }
  }

  lemma DecisionsAgree(c: string)
    ensures DecidePython(c) == DecideTypeScript(c)
  {
    hide ClassifyMobile, ClassifyLandline, ToNational, MobileClass, LandlineClass, ToNationalForm;
    RulesAgree(c);
    RulesAgree(if c != "" && c[0] == '+' then c[1..] else c);
    if ToNational(c).Some? { RulesAgree(ToNational(c).value); }
  }

  /** The two implementations agree on every input, in every field. */
  lemma ImplementationsAgree(raw: string)
    ensures Normalize(raw) == NormalizeTypeScript(raw)
  {
    StripKeepsClean(Python, raw);
    StripKeepsClean(JavaScript, raw);
    DecisionsAgree(Clean(raw));
  }

  // ----- Canonical forms -----

  predicate IsE164(v: string) {
    "+84" <= v && (|v| == 12 || |v| == 13) && AllDigits(v[3..])
  }

  predicate IsHotline(v: string) {
    ("1800" <= v || "1900" <= v) && 8 <= |v| <= 11 && AllDigits(v)
  }

  predicate IsShortCode(v: string) {
    3 <= |v| <= 6 && AllDigits(v)
  }

  /** The type a canonical value has, whatever it was written as. */
  function KindOf(v: string): PhoneType {
    if "+84" <= v then
      var n := "0" + v[3..];
      if ClassifyMobile(n).Some? then Mobile else if ClassifyLandline(n).Some? then Landline else UnknownType
    else if |v| >= 8 then (if "1900" <= v then Hotline1900 else Hotline1800)
    else ShortCode
  }

  /** How a decision got its value: as a hotline, as a short code, or from a national number. */
  predicate FromHotline(c: string) {
    var digits := WithoutPlus(c);
    AllDigits(digits) && ("1900" <= digits || "1800" <= digits) && 8 <= |digits| <= 11
  }

  predicate FromShortCode(c: string) {
    !FromHotline(c) && !("0" <= c) && !("+84" <= c) && !("84" <= c && |c| >= 11) && IsShortCode(WithoutPlus(c))
  }

  predicate FromNational(c: string, n: string) {
    !FromHotline(c) && ToNational(c) == Some(n) && AllDigits(n) && (|n| == 10 || |n| == 11) && n[0] == '0'
  }

  lemma NationalCanonical(n: string)
    requires AllDigits(n) && n[0] == '0'
    ensures NationalResult(n).value.Some? <==> |n| == 10 || |n| == 11
    ensures NationalResult(n).value.Some? ==>
              var v := "+84" + n[1..];
              && NationalResult(n).value == Some(v) && IsE164(v)
              && NationalResult(n).kind == KindOf(v)
              && (NationalResult(n).valid <==> KindOf(v) != UnknownType)
  {
    var v := "+84" + n[1..];
    assert v[3..] == n[1..] && "0" + v[3..] == n;
  }

  lemma DecisionOrigin(c: string) returns (n: string)
    requires DecidePython(c).value.Some?
    ensures FromHotline(c) || FromShortCode(c) || FromNational(c, n)
    ensures FromHotline(c) ==> DecidePython(c).value == Some(WithoutPlus(c))
    ensures !FromHotline(c) && FromShortCode(c) ==> DecidePython(c).value == Some(WithoutPlus(c))
    ensures !FromHotline(c) && !FromShortCode(c) ==> DecidePython(c) == NationalResult(n)
  {
    hide NationalResult;
    n := if ToNational(c).Some? then ToNational(c).value else "";
    if !FromHotline(c) && !FromShortCode(c) { NationalCanonical(n); }
  }

  lemma HotlineDecision(c: string)
    requires FromHotline(c)
    ensures var v := WithoutPlus(c);
            DecidePython(c) == Result(Some(v), KindOf(v), true, 0.9, None) && KindOf(v) in {Hotline1800, Hotline1900}
  {
    hide NationalResult, ClassifyMobile, ClassifyLandline;
    var v := WithoutPlus(c);
    assert v[0] == '1' && ("1900" <= v ==> v[1] == '9');
  }

  lemma ShortCodeDecision(c: string)
    requires FromShortCode(c)
    ensures var v := WithoutPlus(c);
            DecidePython(c) == Result(Some(v), ShortCode, true, 0.5, None) && KindOf(v) == ShortCode
  {
    hide NationalResult, ClassifyMobile, ClassifyLandline;
    var v := WithoutPlus(c);
    assert IsDigit(v[0]);
  }

  lemma NationalDecision(c: string, n: string)
    requires FromNational(c, n)
    ensures DecidePython(c) == NationalResult(n)
  {
    hide NationalResult, ClassifyMobile, ClassifyLandline;
  }

  lemma DecisionIsCanonical(c: string, v: string)
    requires DecidePython(c).value == Some(v)
    ensures IsE164(v) || IsHotline(v) || IsShortCode(v)
    ensures DecidePython(c).kind == KindOf(v)
    ensures DecidePython(c).valid <==> KindOf(v) != UnknownType
    ensures KindOf(v) in {Mobile, Landline} ==> IsE164(v)
  {
    hide DecidePython, NationalResult, KindOf;
    var n := DecisionOrigin(c);
    if FromHotline(c) {
      HotlineDecision(c);
    } else if FromShortCode(c) {
      ShortCodeDecision(c);
    } else {
      NationalDecision(c, n);
      NationalCanonical(n);
    }
  }

  /** Every normalized value is canonical, and its type and validity are functions of it alone. */
  lemma CanonicalForm(raw: string, v: string)
    requires Normalize(raw).value == Some(v)
    ensures IsE164(v) || IsHotline(v) || IsShortCode(v)
    ensures Normalize(raw).kind == KindOf(v)
    ensures Normalize(raw).valid <==> KindOf(v) != UnknownType
    ensures KindOf(v) in {Mobile, Landline} ==> IsE164(v)
  {
    DecisionIsCanonical(Clean(Strip(Python, raw)), v);
  }

  /** Read off the value: a landline number has eleven national digits and an area code that begins with
      2, a mobile one has ten and a mobile prefix, and hotlines and short codes carry no country code;
      the confidence goes with the type, and with the two big cities' area codes. */
  lemma TypeOnTheValue(raw: string, v: string)
    requires Normalize(raw).value == Some(v)
    ensures var r := Normalize(raw);
            && (r.kind == Landline <==> |v| == 13 && "+842" <= v)
            && (r.kind == Mobile <==> |v| == 12 && "+84" <= v && "0" + v[3..5] in MOBILE_PREFIXES)
            && (r.kind == Hotline1900 <==> 8 <= |v| <= 11 && "1900" <= v)
            && (r.kind == Hotline1800 <==> 8 <= |v| <= 11 && "1800" <= v)
            && (r.kind == ShortCode <==> 3 <= |v| <= 6)
            && r.confidence == match r.kind
                               case Mobile => 0.95
                               case Landline => if v[3..5] == "24" || v[3..5] == "28" then 0.85 else 0.75
                               case Hotline1800 => 0.9
                               case Hotline1900 => 0.9
                               case ShortCode => 0.5
                               case UnknownType => 0.3
  {
    hide DecidePython, NationalResult, KindOf;
    var c := Clean(Strip(Python, raw));
    var n := DecisionOrigin(c);
    if FromHotline(c) {
      HotlineDecision(c);
      HotlineType(v);
    } else if FromShortCode(c) {
      ShortCodeDecision(c);
    } else {
      NationalDecision(c, n);
      NationalType(n);
    }
  }

  lemma HotlineType(v: string)
    requires IsHotline(v)
    ensures KindOf(v) == Hotline1900 <==> "1900" <= v
    ensures KindOf(v) == Hotline1800 <==> "1800" <= v
  {
    assert v[0] == '1' && ("1900" <= v ==> v[1] == '9') && ("1800" <= v ==> v[1] == '8');
  }

  lemma NationalType(n: string)
    requires AllDigits(n) && n[0] == '0' && (|n| == 10 || |n| == 11)
    ensures var r, v := NationalResult(n), "+84" + n[1..];
            && r.value == Some(v) && |v| == |n| + 2
            && (r.kind == Landline <==> |v| == 13 && "+842" <= v)
            && (r.kind == Mobile <==> |v| == 12 && "0" + v[3..5] in MOBILE_PREFIXES)
            && r.kind in {Landline, Mobile, UnknownType}
            && r.confidence == match r.kind
                               case Mobile => 0.95
                               case Landline => if v[3..5] == "24" || v[3..5] == "28" then 0.85 else 0.75
                               case _ => 0.3
  {
    var v := "+84" + n[1..];
    assert v[3..5] == n[1..3] && "0" + v[3..5] == n[..3];
    assert "+842" <= v <==> n[1] == '2' by { assert v[3] == n[1] && v[..3] == "+84"; }
  }

  /** Nine or ten digits behind 0, +84 or 84. */
  predicate IsNational(c: string) {
    || ("0" <= c && 9 <= |c| - 1 <= 10 && AllDigits(c[1..]))
    || ("+84" <= c && 9 <= |c| - 3 <= 10 && AllDigits(c[3..]))
    || ("84" <= c && 9 <= |c| - 2 <= 10 && AllDigits(c[2..]))
  }

  lemma NationalExactlyWhen(c: string)
    ensures IsNational(c) && !FromHotline(c) <==> ToNational(c).Some? && FromNational(c, ToNational(c).value)
  {
    hide FromHotline, AllDigits;
    assert "0" <= c ==> c[0] == '0' && c == "0" + c[1..];
    assert "+84" <= c ==> c[0] == '+';
    assert "84" <= c ==> c[0] == '8';
    if "+84" <= c {
      NationalOf(c, c[3..]);
    } else if "84" <= c && |c| >= 11 {
      NationalOf(c, c[2..]);
    } else if "0" <= c {
      NationalOf(c, c[1..]);
    } else {
      assert ToNational(c) == None;
    }
  }

  lemma NationalOf(c: string, rest: string)
    requires ToNational(c) == Some("0" + rest)
    ensures FromNational(c, "0" + rest) <==> !FromHotline(c) && 9 <= |rest| <= 10 && AllDigits(rest)
  {
    hide FromHotline, ToNational;
    DigitsBehindZero(rest);
  }

  lemma DigitsBehindZero(d: string)
    ensures AllDigits("0" + d) <==> d == [] || AllDigits(d)
  {
    var s := "0" + d;
    assert s[1..] == d && s[0] == '0';
    if AllDigits(s) {
      forall i | 0 <= i < |d| ensures IsDigit(d[i]) { assert s[i + 1] == d[i]; }
    }
  }

  /** Exactly these inputs are numbers: cleaned, 8 to 11 digits that begin with 1800 or 1900; nine or ten
      digits behind 0, +84 or 84; 3 to 6 digits that do not begin with 0 or, behind a plus, with 84. */
  lemma AcceptedExactlyWhen(raw: string)
    ensures var c := Clean(raw); var d := WithoutPlus(c);
            Normalize(raw).value.Some? <==>
              || (AllDigits(d) && ("1800" <= d || "1900" <= d) && 8 <= |d| <= 11)
              || (AllDigits(d) && 3 <= |d| <= 6 && !("0" <= c) && !("+84" <= c))
              || IsNational(c)
  {
    hide NationalResult, DecidePython, IsNational, Clean, Strip;
    StripKeepsClean(Python, raw);
    var c := Clean(raw);
    NationalExactlyWhen(c);
    if Normalize(raw).value.Some? {
      var n := DecisionOrigin(c);
    }
    if FromHotline(c) {
      HotlineDecision(c);
    } else if FromShortCode(c) {
      ShortCodeDecision(c);
    } else if ToNational(c).Some? && FromNational(c, ToNational(c).value) {
      NationalDecision(c, ToNational(c).value);
      NationalCanonical(ToNational(c).value);
    }
  }

  /** What has no value says why: nothing left after cleaning, no national prefix, a plus among the digits
      behind it, or the wrong number of them; and what has one is unsure only of an unknown prefix. */
  lemma ReasonOnTheInput(raw: string)
    ensures var r, c := Normalize(raw), Clean(raw);
            if r.value.Some? then r.reason == if r.kind == UnknownType then Some("unrecognized_prefix") else None
            else
              && r.kind == UnknownType && !r.valid && r.confidence == (if c == "" then 0.0 else 0.1)
              && r.reason == Some(if c == "" then "empty_input"
                                  else if !("0" <= c || "+84" <= c || ("84" <= c && |c| >= 11))
                                  then "no_recognizable_national_prefix"
                                  else if exists i :: 1 <= i < |c| && c[i] == '+' then "malformed"
                                  else "invalid_length")
  {
    StripKeepsClean(Python, raw);
    CleanKeeps(raw);
    ReasonOfDecision(Clean(raw));
  }

  lemma ReasonOfDecision(c: string)
    requires forall i :: 0 <= i < |c| ==> Kept(c[i])
    ensures var r := DecidePython(c);
            if r.value.Some? then r.reason == if r.kind == UnknownType then Some("unrecognized_prefix") else None
            else
              && r.kind == UnknownType && !r.valid && r.confidence == (if c == "" then 0.0 else 0.1)
              && r.reason == Some(if c == "" then "empty_input"
                                  else if !("0" <= c || "+84" <= c || ("84" <= c && |c| >= 11))
                                  then "no_recognizable_national_prefix"
                                  else if exists i :: 1 <= i < |c| && c[i] == '+' then "malformed"
                                  else "invalid_length")
  {
    hide NationalResult, ToNational;
    if "0" <= c || "+84" <= c || ("84" <= c && |c| >= 11) {
      var rest := NationalPart(c);
      DigitsBehindZero(rest);
      NationalReason("0" + rest);
    }
  }

  /** What follows the national prefix holds the only pluses that are not in front. */
  lemma NationalPart(c: string) returns (rest: string)
    requires "0" <= c || "+84" <= c || ("84" <= c && |c| >= 11)
    requires forall i :: 0 <= i < |c| ==> Kept(c[i])
    ensures ToNational(c) == Some("0" + rest)
    ensures (exists i :: 1 <= i < |c| && c[i] == '+') <==> rest != [] && !AllDigits(rest)
  {
    var from := if "+84" <= c then 3 else if "0" <= c then 1 else 2;
    rest := c[from..];
    assert "0" <= c ==> c[0] == '0' && c == "0" + c[1..];
    assert forall i :: from <= i < |c| ==> c[i] == rest[i - from];
    assert forall i :: 1 <= i < from ==> c[i] != '+';
    if i :| 1 <= i < |c| && c[i] == '+' {
      assert !IsDigit(rest[i - from]);
    }
    if rest != [] && !AllDigits(rest) {
      var k :| 0 <= k < |rest| && !IsDigit(rest[k]);
      assert c[from + k] == '+';
    }
  }

  lemma NationalReason(n: string)
    requires n != [] && n[0] == '0'
    ensures AllDigits(n) ==>
              var r := NationalResult(n);
              if r.value.Some? then r.reason == if r.kind == UnknownType then Some("unrecognized_prefix") else None
              else r.kind == UnknownType && !r.valid && r.confidence == 0.1 && r.reason == Some("invalid_length")
  {
  }

  /** What was typed is kept: a value is its cleaned input, perhaps without the plus, or with the country
      code for the leading 0, or with a plus before it. */
  lemma ValueKeepsTheDigits(raw: string, v: string)
    requires Normalize(raw).value == Some(v)
    ensures var c := Clean(raw);
            if |v| >= 12 then v == "+84" + v[3..] && (c == "0" + v[3..] || c == "84" + v[3..] || c == v)
            else c == v || c == "+" + v
  {
    hide DecidePython, NationalResult, Clean, Strip;
    StripKeepsClean(Python, raw);
    var c := Clean(raw);
    var n := DecisionOrigin(c);
    if FromHotline(c) || FromShortCode(c) {
      assert "+" <= c ==> c == "+" + c[1..];
    } else {
      NationalDecision(c, n);
      NationalCanonical(n);
      NationalForms(c, n);
      assert v[3..] == n[1..];
    }
  }

  lemma NationalForms(c: string, n: string)
    requires ToNational(c) == Some(n)
    ensures n != [] && (c == "0" + n[1..] || c == "84" + n[1..] || c == "+84" + n[1..])
  {
    if "+84" <= c {
      assert c == "+84" + c[3..] && n[1..] == c[3..];
    } else if "84" <= c && |c| >= 11 {
      assert c == "84" + c[2..] && n[1..] == c[2..];
    } else {
      assert c == "0" + c[1..];
    }
  }

  /** Two spellings of one number get one type, so an upsert never changes a stored type. */
  lemma TypeIsStable(a: string, b: string)
    requires Normalize(a).value.Some? && Normalize(a).value == Normalize(b).value
    ensures Normalize(a).kind == Normalize(b).kind && Normalize(a).valid == Normalize(b).valid
  {
    CanonicalForm(a, Normalize(a).value.value);
    CanonicalForm(b, Normalize(a).value.value);
  }

  lemma CanonicalIsClean(v: string)
    requires IsE164(v) || IsHotline(v) || IsShortCode(v)
    ensures Clean(Strip(Python, v)) == v
  {
    StripKeepsClean(Python, v);
    forall i | 0 <= i < |v| ensures Kept(v[i]) {
      if IsE164(v) && i >= 3 { assert v[i] == v[3..][i - 3]; }
    }
    CleanKeeps(v);
  }

  /** Normalizing a normalized value gives it back with its type, except for exactly the inputs
      that clean to "+0...", whose short code is then no longer accepted. */
  lemma Idempotence(raw: string, v: string)
    requires Normalize(raw).value == Some(v)
    ensures (Normalize(v).value == Some(v) && Normalize(v).kind == Normalize(raw).kind) <==> !("+0" <= Clean(raw))
    ensures "+0" <= Clean(raw) ==> Normalize(v).value == None
  {
    StripKeepsClean(Python, raw);
    CanonicalForm(raw, v);
    CanonicalIsClean(v);
    DecideAgain(Clean(raw), v);
  }

  /** Such inputs have values: "+012" is a short code, which on its own is not accepted. */
  lemma ZeroShortCodeIsLost()
    ensures "+0" <= Clean("+012") && Normalize("+012").value == Some("012") && Normalize("012").value == None
  {
    hide NationalResult, DecidePython, Clean, Strip, KindOf, ClassifyHotline, ToNational;
    StripKeepsClean(Python, "+012");
    CleanKeeps("+012");
    StripKeepsClean(Python, "012");
    CleanKeeps("012");
    assert WithoutPlus("+012") == "012" && AllDigits("012") && "012"[0] == '0';
    ShortCodeDecision("+012");
    RejectedZeroShort("012");
  }

  lemma DecideAgain(c: string, v: string)
    requires DecidePython(c).value == Some(v)
    ensures if "+0" <= c then DecidePython(v).value == None
            else DecidePython(v).value == Some(v) && DecidePython(v).kind == DecidePython(c).kind
  {
    hide DecidePython, NationalResult, KindOf;
    var n := DecisionOrigin(c);
    if FromHotline(c) {
      HotlineDecision(c);
      assert v[0] == '1' && WithoutPlus(v) == v && FromHotline(v);
      HotlineDecision(v);
    } else if FromShortCode(c) {
      ShortCodeDecision(c);
      assert IsDigit(v[0]) && WithoutPlus(v) == v;
      if v[0] == '0' {
        RejectedZeroShort(v);
      } else {
        assert FromShortCode(v);
        ShortCodeDecision(v);
      }
    } else {
      NationalDecision(c, n);
      NationalCanonical(n);
      assert v == "+84" + n[1..] && v[3..] == n[1..] && "0" + v[3..] == n;
      assert WithoutPlus(v)[0] == '8' && FromNational(v, n);
      NationalDecision(v, n);
    }
  }

  /** Dialled on its own, a short number that starts with 0 is too short to be national. */
  lemma RejectedZeroShort(v: string)
    requires IsShortCode(v) && v[0] == '0'
    ensures DecidePython(v).value == None
  {
    hide NationalResult;
    NationalCanonical(v);
    assert ToNational(v) == Some(v);
  }

  // ----- Spellings of one number -----

  lemma CleanPrefixed(p: string, d: string)
    requires forall i :: 0 <= i < |p| ==> Kept(p[i])
    ensures Clean(Strip(Python, p + d)) == p + Clean(d)
  {
    StripKeepsClean(Python, p + d);
    CleanConcat(p, d);
    CleanKeeps(p);
  }

  /** The national, the "+84" and the "84" spelling agree in every field once nine digits or
      pluses follow; the first two always do. */
  lemma SpellingsAgree(d: string)
    ensures Normalize("0" + d) == Normalize("+84" + d)
    ensures |Clean(d)| >= 9 ==> Normalize("0" + d) == Normalize("84" + d)
  {
    hide DecidePython, Clean, Strip;
    CleanPrefixed("0", d);
    CleanPrefixed("+84", d);
    CleanPrefixed("84", d);
    var c := Clean(d);
    DecideSpellings(c);
  }

  lemma DecideSpellings(c: string)
    ensures DecidePython("0" + c) == DecidePython("+84" + c)
    ensures |c| >= 9 ==> DecidePython("0" + c) == DecidePython("84" + c)
  {
    hide NationalResult, ClassifyHotline;
    var national, plus, bare := "0" + c, "+84" + c, "84" + c;
    assert national[0] == '0' && plus[0] == '+' && bare[0] == '8';
    assert plus[3..] == c && bare[2..] == c && plus[1..] == bare;
    assert ToNational(plus) == Some(national) && ToNational(national) == Some(national);
    assert |c| >= 9 ==> ToNational(bare) == Some(national);
  }

  /** For digits alone the bare "84" spelling normalizes to the same value exactly when it is not
      short enough to be taken for a short code. */
  lemma BareCountryCode(d: string)
    requires d == [] || AllDigits(d)
    ensures Normalize("84" + d).value == Normalize("0" + d).value <==> !(1 <= |d| <= 4)
  {
    hide DecidePython, Clean, Strip;
    CleanPrefixed("0", d);
    CleanPrefixed("84", d);
    CleanKeeps(d);
    DecideBareCountryCode(d);
  }

  lemma DecideBareCountryCode(d: string)
    requires d == [] || AllDigits(d)
    ensures DecidePython("84" + d).value == DecidePython("0" + d).value <==> !(1 <= |d| <= 4)
  {
    if |d| >= 9 { DecideSpellings(d); }
    assert ("84" + d)[0] == '8' && ("0" + d)[0] == '0';
    assert AllDigits("84" + d) && AllDigits("0" + d);
  }
}
