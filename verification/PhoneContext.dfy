/** The context and confidence of a candidate: what stands around it in its own paragraph. */
module PhoneContext {
  import opened Regexes
  import opened PhoneScanner
  import opened Normalizer

  const CONTEXT_WINDOW_CHARS: nat := 80

  datatype PhoneCandidate = PhoneCandidate(raw: string, contextText: string, contextBefore: string,
                                           contextAfter: string, start: nat, end: nat, confidence: real)

  datatype Side = BeforeMatch | AfterMatch

  // ----- Clamping to a paragraph -----

  /** What follows the last line break. */
  function LastParagraph(s: string): string {
    if s == [] || s[|s| - 1] == '\n' then [] else LastParagraph(s[..|s| - 1]) + [s[|s| - 1]]
  }

  /** What precedes the first one. */
  function FirstParagraph(s: string): string {
    if s == [] || s[0] == '\n' then [] else [s[0]] + FirstParagraph(s[1..])
  }

  function Paragraph(s: string, side: Side): string {
    if side.BeforeMatch? then LastParagraph(s) else FirstParagraph(s)
  }

  /** `re.sub(r"\s+", " ", s)` */
  function Collapse(s: string): string {
    if s == [] then []
    else
      var r, c := Collapse(s[..|s| - 1]), s[|s| - 1];
      if !IsSpace(Python, c) then r + [c]
      else if |s| > 1 && IsSpace(Python, s[|s| - 2]) then r
      else r + " "
  }

  function ClampToParagraph(slice: string, side: Side): string {
    Strip(Python, Collapse(Paragraph(slice, side)))
  }

  /** The API's version only turns line breaks into blanks, of which a paragraph has none, and trims. */
  function ClampInApi(slice: string, side: Side): string {
    Strip(JavaScript, Paragraph(slice, side))
  }

  function NonBlanks(s: string): string {
    if s == [] then []
    else NonBlanks(s[..|s| - 1]) + if IsSpace(Python, s[|s| - 1]) then [] else [s[|s| - 1]]
  }

  /** No blank but the space, none at either end, and no two together. */
  predicate WellSpaced(s: string) {
    && (forall i :: 0 <= i < |s| && IsSpace(Python, s[i]) ==> s[i] == ' ')
    && (forall i :: 0 < i < |s| ==> !(s[i - 1] == ' ' && s[i] == ' '))
  }

  predicate Trimmed(s: string) {
    s != [] ==> !IsSpace(Python, s[0]) && !IsSpace(Python, s[|s| - 1])
  }

  lemma {:induction false} NonBlanksConcat(a: string, b: string)
    ensures NonBlanks(a + b) == NonBlanks(a) + NonBlanks(b)
  {
    if b == [] {
      assert a + b == a;
    } else {
      NonBlanksConcat(a, b[..|b| - 1]);
      assert (a + b)[..|a + b| - 1] == a + b[..|b| - 1];
    }
  }

  lemma NonBlanksAppend(s: string, c: char)
    ensures NonBlanks(s + [c]) == NonBlanks(s) + if IsSpace(Python, c) then [] else [c]
  {
    assert (s + [c])[..|s|] == s;
  }

  lemma {:induction false} CollapseKeepsNonBlanks(s: string)
    ensures NonBlanks(Collapse(s)) == NonBlanks(s)
  {
    hide IsSpace;
    if s == [] {
    } else {
      var m := |s| - 1;
      CollapseKeepsNonBlanks(s[..m]);
      NonBlanksAppend(Collapse(s[..m]), s[m]);
      NonBlanksAppend(Collapse(s[..m]), ' ');
      assert IsSpace(Python, ' ') by { SpaceIsBlank(); }
      assert s == s[..m] + [s[m]];
    }
  }

  lemma SpaceIsBlank()
    ensures IsSpace(Python, ' ')
  {
  }

  lemma {:induction false} CollapseSpacesWell(s: string)
    ensures WellSpaced(Collapse(s)) && (Collapse(s) == [] <==> s == [])
    ensures s != [] ==> (Collapse(s)[|Collapse(s)| - 1] == ' ' <==> IsSpace(Python, s[|s| - 1]))
  {
    hide IsSpace;
    SpaceIsBlank();
    if s == [] {
    } else {
      var m := |s| - 1;
      CollapseSpacesWell(s[..m]);
      assert m > 0 ==> s[..m][m - 1] == s[m - 1];
    }
  }

  lemma {:induction false} StripLeftIsSuffix(d: Dialect, s: string)
    ensures StripLeft(d, s) != [] ==> !IsSpace(d, StripLeft(d, s)[0])
    ensures NonBlanks(StripLeft(d, s)) == NonBlanks(s)
    ensures WellSpaced(s) ==> WellSpaced(StripLeft(d, s))
  {
    if s != [] && IsSpace(d, s[0]) {
      StripLeftIsSuffix(d, s[1..]);
      assert s == [s[0]] + s[1..] && [s[0]][..0] == [];
      NonBlanksConcat([s[0]], s[1..]);
      if WellSpaced(s) { WellSpacedTail(s); }
    }
  }

  lemma WellSpacedTail(s: string)
    requires s != [] && WellSpaced(s)
    ensures WellSpaced(s[1..])
  {
    forall i | 0 < i < |s[1..]| ensures !(s[1..][i - 1] == ' ' && s[1..][i] == ' ') {
      assert !(s[(i + 1) - 1] == ' ' && s[i + 1] == ' ');
    }
  }

  lemma {:induction false} StripRightIsPrefix(d: Dialect, s: string)
    ensures var r := StripRight(d, s); r != [] ==> !IsSpace(d, r[|r| - 1]) && r[0] == s[0]
    ensures StripRight(d, s) != [] ==> s != []
    ensures NonBlanks(StripRight(d, s)) == NonBlanks(s)
    ensures WellSpaced(s) ==> WellSpaced(StripRight(d, s))
  {
    if s != [] && IsSpace(d, s[|s| - 1]) { StripRightIsPrefix(d, s[..|s| - 1]); }
  }

  lemma StripKeepsNonBlanks(d: Dialect, s: string)
    ensures NonBlanks(Strip(d, s)) == NonBlanks(s)
    ensures WellSpaced(s) ==> WellSpaced(Strip(d, s))
    ensures d.Python? ==> Trimmed(Strip(d, s))
  {
    hide StripLeft, StripRight;
    StripLeftIsSuffix(d, s);
    StripRightIsPrefix(d, StripLeft(d, s));
  }

  /** A clamped slice is its paragraph with every run of blanks made one space: nothing else is lost,
      and there is no line break. */
  lemma ClampKeepsTheParagraph(slice: string, side: Side)
    ensures var c := ClampToParagraph(slice, side);
            && NonBlanks(c) == NonBlanks(Paragraph(slice, side)) && WellSpaced(c) && Trimmed(c)
            && forall i :: 0 <= i < |c| ==> c[i] != '\n'
  {
    hide Collapse, Strip, Paragraph;
    CollapseKeepsNonBlanks(Paragraph(slice, side));
    CollapseSpacesWell(Paragraph(slice, side));
    StripKeepsNonBlanks(Python, Collapse(Paragraph(slice, side)));
    var c := ClampToParagraph(slice, side);
    assert IsSpace(Python, '\n');
    assert forall i :: 0 <= i < |c| && c[i] == '\n' ==> IsSpace(Python, c[i]);
  }

  /** The two implementations clamp to the same text up to blanks. */
  lemma ClampsAgreeUpToBlanks(slice: string, side: Side)
    ensures NonBlanks(ClampToParagraph(slice, side)) == NonBlanks(ClampInApi(slice, side))
  {
    hide Paragraph, Collapse, Strip;
    ClampKeepsTheParagraph(slice, side);
    StripKeepsNonBlanks(JavaScript, Paragraph(slice, side));
  }

  lemma ParagraphsUnfold(s: string)
    ensures LastParagraph(s) == if s == [] || s[|s| - 1] == '\n' then [] else LastParagraph(s[..|s| - 1]) + [s[|s| - 1]]
    ensures FirstParagraph(s) == if s == [] || s[0] == '\n' then [] else [s[0]] + FirstParagraph(s[1..])
  {
  }

  /** The last paragraph of a window runs from its start or from behind a line break. */
  lemma {:induction false} LastParagraphOf(t: string, from: nat, end: nat) returns (lo: nat)
    requires from <= end <= |t|
    ensures from <= lo <= end && LastParagraph(t[from..end]) == t[lo..end]
    ensures (forall i :: lo <= i < end ==> t[i] != '\n') && (lo == from || t[lo - 1] == '\n')
  {
    hide LastParagraph;
    ParagraphsUnfold(t[from..end]);
    if from == end || t[end - 1] == '\n' {
      lo := end;
    } else {
      lo := LastParagraphOf(t, from, end - 1);
      assert t[from..end][..end - 1 - from] == t[from..end - 1] && t[lo..end] == t[lo..end - 1] + [t[end - 1]];
    }
  }

  lemma {:induction false} FirstParagraphOf(t: string, from: nat, end: nat) returns (hi: nat)
    requires from <= end <= |t|
    ensures from <= hi <= end && FirstParagraph(t[from..end]) == t[from..hi]
    ensures (forall i :: from <= i < hi ==> t[i] != '\n') && (hi == end || t[hi] == '\n')
    decreases end - from
  {
    hide FirstParagraph;
    ParagraphsUnfold(t[from..end]);
    if from == end || t[from] == '\n' {
      hi := from;
    } else {
      hi := FirstParagraphOf(t, from + 1, end);
      assert t[from..end][1..] == t[from + 1..end] && t[from..hi] == [t[from]] + t[from + 1..hi];
    }
  }

  // ----- The candidates of a text -----

  function WindowStart(start: nat): nat {
    if start > CONTEXT_WINDOW_CHARS then start - CONTEXT_WINDOW_CHARS else 0
  }

  function WindowEnd(t: string, end: nat): nat {
    if end + CONTEXT_WINDOW_CHARS < |t| then end + CONTEXT_WINDOW_CHARS else |t|
  }

  /** `Clamp` of the crawler and of the API. */
  function Clamp(d: Dialect, slice: string, side: Side): string {
    if d.Python? then ClampToParagraph(slice, side) else ClampInApi(slice, side)
  }

  predicate LooksFormatted(d: Dialect, raw: string) {
    exists i :: 0 <= i < |raw| && In(d, Separator, raw[i])
  }

  /** `hasKeyword` is the keyword pattern, whose words are mostly not ASCII. */
  function Confidence(d: Dialect, raw: string, contextText: string, hasKeyword: string -> bool): real {
    0.5 + (if LooksFormatted(d, raw) then 0.2 else 0.0) + (if hasKeyword(contextText) then 0.2 else 0.0)
  }

  lemma FormattedMeansSeparated(d: Dialect, raw: string)
    ensures LooksFormatted(d, raw) <==>
              exists i :: 0 <= i < |raw| && (IsSpace(d, raw[i]) || raw[i] == '.' || raw[i] == '-')
  {
    if LooksFormatted(d, raw) {
      var i :| 0 <= i < |raw| && In(d, Separator, raw[i]);
      assert IsSpace(d, raw[i]) || raw[i] == '.' || raw[i] == '-';
    }
    if i :| 0 <= i < |raw| && (IsSpace(d, raw[i]) || raw[i] == '.' || raw[i] == '-') {
      assert In(d, Separator, raw[i]);
    }
  }

  /** A context has the characters of its part of the text but for blanks: the crawler's are single
      spaces inside it, the API only trims. */
  predicate ClampedFrom(d: Dialect, context: string, part: string) {
    && NonBlanks(context) == NonBlanks(part)
    && if d.Python? then WellSpaced(context) && Trimmed(context) else context == Strip(JavaScript, part)
  }

  /** The context before a match reaches back to lo: eighty characters, or to the start of its
      paragraph, or of the text. */
  predicate ReachesBack(d: Dialect, t: string, start: nat, context: string, lo: nat)
    requires start <= |t|
  {
    && lo <= start && start - lo <= 80 && ClampedFrom(d, context, t[lo..start])
    && (forall i :: lo <= i < start ==> t[i] != '\n')
    && (lo == 0 || start - lo == 80 || t[lo - 1] == '\n')
  }

  predicate ReachesOn(d: Dialect, t: string, end: nat, context: string, hi: nat)
    requires end <= |t|
  {
    && end <= hi <= |t| && hi - end <= 80 && ClampedFrom(d, context, t[end..hi])
    && (forall i :: end <= i < hi ==> t[i] != '\n')
    && (hi == |t| || hi - end == 80 || t[hi] == '\n')
  }

  /** The contexts never leave their window or the candidate's paragraph, and lose only blanks of
      what is in both. */
  ghost predicate InContext(d: Dialect, t: string, c: PhoneCandidate) {
    && c.start <= c.end <= |t| && c.raw == t[c.start..c.end]
    && (exists lo: nat :: ReachesBack(d, t, c.start, c.contextBefore, lo))
    && (exists hi: nat :: ReachesOn(d, t, c.end, c.contextAfter, hi))
  }

  lemma ClampIsFromTheParagraph(d: Dialect, slice: string, side: Side)
    ensures ClampedFrom(d, Clamp(d, slice, side), Paragraph(slice, side))
  {
    hide ClampToParagraph, NonBlanks, Paragraph, WellSpaced, Trimmed, Strip;
    ClampKeepsTheParagraph(slice, side);
    ClampsAgreeUpToBlanks(slice, side);
  }

  lemma BeforeInContext(d: Dialect, t: string, start: nat) returns (lo: nat)
    requires start <= |t|
    ensures ReachesBack(d, t, start, Clamp(d, t[WindowStart(start)..start], BeforeMatch), lo)
  {
    hide Clamp, ClampedFrom, LastParagraph;
    ClampIsFromTheParagraph(d, t[WindowStart(start)..start], BeforeMatch);
    lo := LastParagraphOf(t, WindowStart(start), start);
  }

  lemma AfterInContext(d: Dialect, t: string, end: nat) returns (hi: nat)
    requires end <= |t|
    ensures ReachesOn(d, t, end, Clamp(d, t[end..WindowEnd(t, end)], AfterMatch), hi)
  {
    hide Clamp, ClampedFrom, FirstParagraph;
    ClampIsFromTheParagraph(d, t[end..WindowEnd(t, end)], AfterMatch);
    hi := FirstParagraphOf(t, end, WindowEnd(t, end));
  }

  /** The candidate of span s. */
  function CandidateAt(d: Dialect, t: string, s: Span, hasKeyword: string -> bool): PhoneCandidate
    requires s.start <= s.end <= |t|
  {
    var raw := t[s.start..s.end];
    var before := Clamp(d, t[WindowStart(s.start)..s.start], BeforeMatch);
    var after := Clamp(d, t[s.end..WindowEnd(t, s.end)], AfterMatch);
    var text := Strip(d, before + " " + raw + " " + after);
    PhoneCandidate(raw, text, before, after, s.start, s.end, Confidence(d, raw, text, hasKeyword))
  }

  /** c is the candidate of span s and stands in its context; its text is context, number and context;
      a separator in the number and a keyword in the text raise its confidence, each by 0.2, which
      never reaches the cap of 0.95. */
  ghost predicate Describes(d: Dialect, t: string, s: Span, c: PhoneCandidate, hasKeyword: string -> bool) {
    && s.start <= s.end <= |t| && c == CandidateAt(d, t, s, hasKeyword)
    && InContext(d, t, c) && c.start == s.start && c.end == s.end
    && c.contextText == Strip(d, c.contextBefore + " " + c.raw + " " + c.contextAfter)
    && var separated := exists i :: 0 <= i < |c.raw| && (IsSpace(d, c.raw[i]) || c.raw[i] == '.' || c.raw[i] == '-');
       c.confidence == match (separated, hasKeyword(c.contextText))
                       case (false, false) => 0.5
                       case (true, true) => 0.9
                       case _ => 0.7
  }

  /** One candidate for each match, in order. */
  ghost predicate IsReport(d: Dialect, t: string, candidates: seq<PhoneCandidate>, hasKeyword: string -> bool) {
    && |candidates| == |FindAll(d, t, 0)|
    && forall k :: 0 <= k < |candidates| ==> Describes(d, t, FindAll(d, t, 0)[k], candidates[k], hasKeyword)
  }

  method ExtractPhoneCandidates(d: Dialect, t: string,
                                hasKeyword: string -> bool) returns (candidates: seq<PhoneCandidate>)
    ensures IsReport(d, t, candidates, hasKeyword)
  {
    hide FindAll, Clamp, NonBlanks, Strip, LooksFormatted, InContext;
    var spans, raws := ExtractCandidates(d, t);
    candidates := [];
    for i := 0 to |spans|
      invariant |candidates| == i
      invariant forall k :: 0 <= k < i ==> Describes(d, t, spans[k], candidates[k], hasKeyword)
    {
      var start, end := spans[i].start, spans[i].end;
      var before := Clamp(d, t[WindowStart(start)..start], BeforeMatch);
      var after := Clamp(d, t[end..WindowEnd(t, end)], AfterMatch);
      var text := Strip(d, before + " " + raws[i] + " " + after);
      var confidence := 0.5;
      if LooksFormatted(d, raws[i]) { confidence := confidence + 0.2; }
      if hasKeyword(text) { confidence := confidence + 0.2; }
      if confidence > 0.95 { confidence := 0.95; }
      FormattedMeansSeparated(d, raws[i]);
      var c := PhoneCandidate(raws[i], text, before, after, start, end, confidence);
      StandsInContext(d, t, spans[i], hasKeyword);
      candidates := candidates + [c];
    }
  }

  lemma StandsInContext(d: Dialect, t: string, s: Span, hasKeyword: string -> bool)
    requires s.start <= s.end <= |t|
    ensures InContext(d, t, CandidateAt(d, t, s, hasKeyword))
  {
    hide Clamp, NonBlanks, Strip, Confidence;
    var lo := BeforeInContext(d, t, s.start);
    var hi := AfterInContext(d, t, s.end);
  }
}
