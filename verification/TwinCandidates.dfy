/** When the crawler and the API report the same candidates, in every field. */
module TwinCandidates {
  import opened Regexes
  import opened Normalizer
  import opened PhoneScanner
  import opened PhoneContext
  import opened TwinScanners

  // ----- One context -----

  /** What the API's clamp leaves has no blank to collapse or trim for the crawler. */
  predicate Tidy(slice: string, side: Side) {
    WellSpaced(ClampInApi(slice, side)) && Trimmed(ClampInApi(slice, side))
  }

  predicate AllBlank(s: string) {
    forall i :: 0 <= i < |s| ==> IsSpace(Python, s[i])
  }

  lemma {:induction false} CollapseOfBlanks(s: string)
    requires AllBlank(s)
    ensures Collapse(s) == if s == [] then [] else " "
  {
    if s == [] {
    } else {
      CollapseOfBlanks(s[..|s| - 1]);
      if |s| > 1 { assert IsSpace(Python, s[|s| - 2]); }
    }
  }

  lemma {:induction false} CollapseFixes(s: string)
    requires WellSpaced(s)
    ensures Collapse(s) == s
  {
    if s == [] {
    } else {
      var m := |s| - 1;
      CollapseFixes(s[..m]);
      assert s == s[..m] + [s[m]];
      assert m > 0 ==> s[..m][m - 1] == s[m - 1];
    }
  }

  lemma CollapseAppend(s: string, c: char)
    ensures Collapse(s + [c]) == if !IsSpace(Python, c) then Collapse(s) + [c]
                                 else if s != [] && IsSpace(Python, s[|s| - 1]) then Collapse(s)
                                 else Collapse(s) + " "
  {
    assert (s + [c])[..|s|] == s;
  }

  /** Runs of blanks do not cross a place with a character beside it. */
  lemma {:induction false} CollapseConcat(a: string, b: string)
    requires a != [] && b != [] ==> !IsSpace(Python, a[|a| - 1]) || !IsSpace(Python, b[0])
    ensures Collapse(a + b) == Collapse(a) + Collapse(b)
  {
    hide IsSpace, Collapse;
    if b == [] {
      assert a + b == a && Collapse(b) == [] by { CollapseOfBlanks([]); }
    } else {
      var m := |b| - 1;
      var init := b[..m];
      CollapseConcat(a, init);
      CollapseAppend(a + init, b[m]);
      CollapseAppend(init, b[m]);
      assert a + b == (a + init) + [b[m]] && b == init + [b[m]];
      assert init == [] ==> a + init == a && Collapse(init) == [] by { CollapseOfBlanks([]); }
      assert init != [] ==> (a + init)[|a + init| - 1] == init[|init| - 1];
    }
  }

  lemma {:induction false} StripLeftSplits(d: Dialect, s: string)
    ensures var n := |s| - |StripLeft(d, s)|;
            0 <= n && s[n..] == StripLeft(d, s) && AllBlank(s[..n])
  {
    if s != [] && IsSpace(d, s[0]) {
      StripLeftSplits(d, s[1..]);
      var n := |s| - |StripLeft(d, s)|;
      assert s[n..] == s[1..][n - 1..];
      forall i | 0 <= i < n ensures IsSpace(Python, s[i]) {
        if i > 0 { assert s[i] == s[1..][..n - 1][i - 1]; }
      }
    }
  }

  lemma {:induction false} StripRightSplits(d: Dialect, s: string)
    ensures var n := |StripRight(d, s)|;
            n <= |s| && s[..n] == StripRight(d, s) && AllBlank(s[n..])
  {
    if s != [] && IsSpace(d, s[|s| - 1]) {
      var m := |s| - 1;
      StripRightSplits(d, s[..m]);
      var n := |StripRight(d, s)|;
      assert s[..n] == s[..m][..n];
      forall i | n <= i < |s| ensures IsSpace(Python, s[i]) {
        if i < m { assert s[i] == s[..m][n..][i - n]; }
      }
    }
  }

  /** A stripped text is the text between two runs of blanks. */
  lemma StripSplits(d: Dialect, s: string) returns (l: string, r: string)
    ensures s == l + Strip(d, s) + r && AllBlank(l) && AllBlank(r)
  {
    hide StripLeft, StripRight;
    StripLeftSplits(d, s);
    StripRightSplits(d, StripLeft(d, s));
    var rest := StripLeft(d, s);
    l := s[..|s| - |rest|];
    r := rest[|StripRight(d, rest)|..];
    assert s == l + rest && rest == StripRight(d, rest) + r;
  }

  /** Stripping spaces from around a text that neither begins nor ends with a blank. */
  lemma StripSpaces(d: Dialect, c: string, l: string, r: string)
    requires c != [] && Trimmed(c) && l in {"", " "} && r in {"", " "}
    ensures Strip(d, l + c + r) == c
  {
    hide StripLeft, StripRight;
    var s := l + c + r;
    StripLeftSpace(d, c + r);
    assert l == [] ==> s == c + r;
    assert l == " " ==> s == " " + (c + r);
    StripRightSpace(d, c);
    assert r == [] ==> c + r == c;
  }

  lemma StripLeftSpace(d: Dialect, s: string)
    requires s != [] && !IsSpace(Python, s[0])
    ensures StripLeft(d, s) == s && StripLeft(d, " " + s) == s
  {
    assert (" " + s)[1..] == s && (" " + s)[0] == ' ';
  }

  lemma StripRightSpace(d: Dialect, s: string)
    requires s != [] && !IsSpace(Python, s[|s| - 1])
    ensures StripRight(d, s) == s && StripRight(d, s + " ") == s
  {
    assert (s + " ")[..|s|] == s && (s + " ")[|s|] == ' ';
  }

  /** The two clamps leave the same exactly of a tidy slice. */
  lemma ClampsAgreeExactlyWhen(slice: string, side: Side)
    ensures ClampToParagraph(slice, side) == ClampInApi(slice, side) <==> Tidy(slice, side)
  {
    hide Paragraph, Collapse, Strip, WellSpaced, Trimmed, IsSpace;
    ClampKeepsTheParagraph(slice, side);
    if Tidy(slice, side) {
      var p, c := Paragraph(slice, side), ClampInApi(slice, side);
      var l, r := StripSplits(JavaScript, p);
      if c == [] {
        assert p == l + r;
        BlanksStripToNothing(p, l, r);
      } else {
        CollapseAround(l, c, r);
        StripSpaces(Python, c, Collapse(l), Collapse(r));
      }
    }
  }

  lemma CollapseAround(l: string, c: string, r: string)
    requires AllBlank(l) && AllBlank(r) && c != [] && WellSpaced(c) && Trimmed(c)
    ensures Collapse(l + c + r) == Collapse(l) + c + Collapse(r)
    ensures Collapse(l) in {"", " "} && Collapse(r) in {"", " "}
  {
    hide Collapse, AllBlank, WellSpaced;
    CollapseFixes(c);
    CollapseOfBlanks(l);
    CollapseOfBlanks(r);
    CollapseConcat(l, c);
    CollapseConcat(l + c, r);
  }

  lemma BlanksStripToNothing(p: string, l: string, r: string)
    requires p == l + r && AllBlank(l) && AllBlank(r)
    ensures Strip(Python, Collapse(p)) == []
  {
    assert AllBlank(p);
    CollapseOfBlanks(p);
    assert " "[1..] == [];
  }

  // ----- One candidate -----

  /** Around a raw number the two ways to strip do the same. */
  lemma TextsAgree(before: string, raw: string, after: string)
    requires raw != [] && Trimmed(raw) && Trimmed(before) && Trimmed(after)
    ensures Strip(Python, before + " " + raw + " " + after) == Strip(JavaScript, before + " " + raw + " " + after)
  {
    hide Strip, IsSpace;
    var l := if before == [] then " " else "";
    var r := if after == [] then " " else "";
    var c := (if before == [] then "" else before + " ") + raw + (if after == [] then "" else " " + after);
    assert before + " " + raw + " " + after == l + c + r;
    assert before != [] ==> c[0] == before[0];
    assert before == [] ==> c[0] == raw[0];
    assert after != [] ==> c[|c| - 1] == after[|after| - 1];
    assert after == [] ==> c[|c| - 1] == raw[|raw| - 1];
    StripSpaces(Python, c, l, r);
    StripSpaces(JavaScript, c, l, r);
  }

  lemma FormattedAlike(t: string, s: Span)
    requires s.start <= s.end <= |t| && Free(t, s.start, s.end)
    ensures LooksFormatted(Python, t[s.start..s.end]) == LooksFormatted(JavaScript, t[s.start..s.end])
  {
    var raw := t[s.start..s.end];
    forall i | 0 <= i < |raw| ensures In(Python, Separator, raw[i]) == In(JavaScript, Separator, raw[i]) {
      assert raw[i] == t[s.start + i];
    }
  }

  /** Both windows around a span are tidy. */
  predicate TidyAround(t: string, s: Span)
    requires s.start <= s.end <= |t|
  {
    Tidy(t[WindowStart(s.start)..s.start], BeforeMatch) && Tidy(t[s.end..WindowEnd(t, s.end)], AfterMatch)
  }

  /** For a span both scanners report: the candidates agree in every field, the confidence and its
      keyword included, if and only if its windows are tidy. */
  lemma CandidatesAgreeExactlyWhen(t: string, s: Span, hasKeyword: string -> bool)
    requires s.start < s.end <= |t| && Free(t, s.start, s.end) && Trimmed(t[s.start..s.end])
    ensures CandidateAt(Python, t, s, hasKeyword) == CandidateAt(JavaScript, t, s, hasKeyword) <==> TidyAround(t, s)
  {
    hide ClampToParagraph, ClampInApi, Tidy, Strip, LooksFormatted, Free, WellSpaced, Trimmed, NonBlanks;
    var b, a := t[WindowStart(s.start)..s.start], t[s.end..WindowEnd(t, s.end)];
    ClampsAgreeExactlyWhen(b, BeforeMatch);
    ClampsAgreeExactlyWhen(a, AfterMatch);
    ClampKeepsTheParagraph(b, BeforeMatch);
    ClampKeepsTheParagraph(a, AfterMatch);
    TextsAgree(ClampToParagraph(b, BeforeMatch), t[s.start..s.end], ClampToParagraph(a, AfterMatch));
    FormattedAlike(t, s);
  }

  // ----- A whole text -----

  lemma ReportedIsTrimmed(t: string, s: Span)
    requires s in FindAll(Python, t, 0)
    ensures s.start < s.end <= |t| && Trimmed(t[s.start..s.end])
  {
    hide *;
    ReportedShape(t, s);
    EndsTrimmed(t, s);
  }

  lemma ReportedShape(t: string, s: Span)
    requires s in FindAll(Python, t, 0)
    ensures s.start < s.end <= |t| && (IsDigit(t[s.start]) || t[s.start] == '+') && IsDigit(t[s.end - 1])
  {
    hide FindAll, FirstEnd, DigitCount, IsDigit;
    SpansAreOrdered(Python, t, 0);
    var k :| 0 <= k < |FindAll(Python, t, 0)| && FindAll(Python, t, 0)[k] == s;
    assert IsReported(Python, t, s);
    CandidateShape(Python, t, s.start);
  }

  lemma EndsTrimmed(t: string, s: Span)
    requires s.start < s.end <= |t| && (IsDigit(t[s.start]) || t[s.start] == '+') && IsDigit(t[s.end - 1])
    ensures Trimmed(t[s.start..s.end])
  {
  }

  ghost predicate NoneDiffers(t: string) {
    forall s :: s in FindAll(Python, t, 0) ==>
      s.start <= s.end <= |t| && Free(t, s.start, s.end) && TidyAround(t, s)
  }

  /** The two reports of a text are the same, candidate by candidate and field by field, if and only
      if no candidate the crawler reports holds one of the four controls or stands in a window with
      blanks that only the crawler collapses or trims. */
  lemma ReportsAgreeExactlyWhen(t: string, hasKeyword: string -> bool, a: seq<PhoneCandidate>, b: seq<PhoneCandidate>)
    requires IsReport(Python, t, a, hasKeyword) && IsReport(JavaScript, t, b, hasKeyword)
    ensures a == b <==> NoneDiffers(t)
  {
    hide FindAll, InContext, CandidateAt, TidyAround, Free, Trimmed;
    var spans, others := FindAll(Python, t, 0), FindAll(JavaScript, t, 0);
    ScannersAgreeExactlyWhen(t);
    forall k | 0 <= k < |spans|
      ensures spans[k].start < spans[k].end <= |t|
      ensures spans == others && Free(t, spans[k].start, spans[k].end) ==> (a[k] == b[k] <==> TidyAround(t, spans[k]))
    {
      assert spans[k] in spans;
      ReportedIsTrimmed(t, spans[k]);
      if spans == others && Free(t, spans[k].start, spans[k].end) {
        CandidatesAgreeExactlyWhen(t, spans[k], hasKeyword);
      }
    }
    if a == b { SameCandidatesSameSpans(t, hasKeyword, a); }
    if a == b {
      forall s | s in spans ensures s.start <= s.end <= |t| && Free(t, s.start, s.end) && TidyAround(t, s) {
        var k :| 0 <= k < |spans| && spans[k] == s;
      }
    }
  }

  lemma SameCandidatesSameSpans(t: string, hasKeyword: string -> bool, a: seq<PhoneCandidate>)
    requires IsReport(Python, t, a, hasKeyword) && IsReport(JavaScript, t, a, hasKeyword)
    ensures FindAll(Python, t, 0) == FindAll(JavaScript, t, 0)
  {
    hide FindAll, InContext, Clamp, Strip, Confidence;
    var spans, others := FindAll(Python, t, 0), FindAll(JavaScript, t, 0);
    forall k | 0 <= k < |spans| ensures spans[k] == others[k] {
      assert Describes(Python, t, spans[k], a[k], hasKeyword) && Describes(JavaScript, t, others[k], a[k], hasKeyword);
    }
  }
}
