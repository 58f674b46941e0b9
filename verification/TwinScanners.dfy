/** The crawler's scanner and the API's, which run one pattern on two engines. */
module TwinScanners {
  import opened Options
  import opened Regexes
  import opened PhoneScanner

  /** The four characters that only Python's `\s` accepts. */
  predicate IsSeparatorControl(c: char) {
    '\U{1C}' <= c <= '\U{1F}'
  }

  predicate Free(t: string, i: nat, e: nat) {
    forall k :: i <= k < e && k < |t| ==> !IsSeparatorControl(t[k])
  }

  // ----- At one place -----

  lemma GroupsCompared(t: string, i: nat)
    ensures GroupEnd(JavaScript, t, i).Some? ==> GroupEnd(JavaScript, t, i) == GroupEnd(Python, t, i)
    ensures GroupEnd(Python, t, i).Some? ==>
              var m := GroupEnd(Python, t, i).value;
              i < m <= |t| && (GroupEnd(JavaScript, t, i) == Some(m) <==> Free(t, i, m))
  {
    if GroupEnd(Python, t, i).Some? {
      var m := GroupEnd(Python, t, i).value;
      assert Free(t, i, m) <==> !IsSeparatorControl(t[i]) && (m == i + 2 ==> !IsSeparatorControl(t[i + 1]));
    }
  }

  /** The JavaScript engine takes the same groups, or stops earlier: exactly at a control. */
  lemma {:induction false} TakesCompared(t: string, i: nat, n: nat)
    ensures var g, h := Take(Python, t, i, n), Take(JavaScript, t, i, n);
            i <= h.end && if Free(t, i, g.end) then h == g else h.end < g.end && h.count < g.count
    decreases n
  {
    hide GroupEnd;
    if n == 0 || GroupEnd(Python, t, i).None? {
      GroupsCompared(t, i);
    } else {
      var m := GroupEnd(Python, t, i).value;
      GroupsCompared(t, i);
      TakesCompared(t, m, n - 1);
      var g := Take(Python, t, m, n - 1);
      TakeMovesOn(Python, t, m, n - 1);
      assert Free(t, i, g.end) <==> Free(t, i, m) && Free(t, m, g.end);
    }
  }

  lemma {:induction false} TakeMovesOn(d: Dialect, t: string, i: nat, n: nat)
    ensures i <= Take(d, t, i, n).end
    decreases n
  {
    if n == 0 || GroupEnd(d, t, i).None? {
    } else {
      TakeMovesOn(d, t, GroupEnd(d, t, i).value, n - 1);
    }
  }

  lemma HeadsAreFree(t: string, i: nat)
    ensures PrefixEnd(t, i).Some? ==> i < PrefixEnd(t, i).value && Free(t, i, PrefixEnd(t, i).value)
    ensures HotlineHead(t, i) ==> Free(t, i, i + 4)
  {
  }

  /** At one position the engines agree if and only if Python finds nothing there, or a match
      without such a control; a shorter match or none is what JavaScript finds otherwise. */
  lemma MatchesCompared(t: string, i: nat)
    ensures var p, j := MatchEnd(Python, t, i), MatchEnd(JavaScript, t, i);
            && (j.Some? ==> p.Some? && j.value <= p.value)
            && (j == p <==> p.None? || Free(t, i, p.value))
  {
    hide Take, GroupEnd, PrefixEnd, HotlineHead, Free;
    HeadsAreFree(t, i);
    var p := MatchEnd(Python, t, i);
    if PrefixEnd(t, i).Some? {
      var m := PrefixEnd(t, i).value;
      TakesCompared(t, m, 10);
      TakeMovesOn(Python, t, m, 10);
      FreeSplits(t, i, m, Take(Python, t, m, 10).end);
    } else if HotlineHead(t, i) {
      TakesCompared(t, i + 4, 7);
      TakeMovesOn(Python, t, i + 4, 7);
      FreeSplits(t, i, i + 4, Take(Python, t, i + 4, 7).end);
    }
  }

  lemma FreeSplits(t: string, i: nat, m: nat, e: nat)
    requires i <= m <= e
    ensures Free(t, i, e) <==> Free(t, i, m) && Free(t, m, e)
  {
  }

  // ----- In a whole text -----

  /** No candidate holds one of the four controls. */
  predicate AllFree(t: string, spans: seq<Span>) {
    forall k :: 0 <= k < |spans| ==> Free(t, spans[k].start, spans[k].end)
  }

  lemma AllFreeCons(t: string, s: Span, rest: seq<Span>)
    ensures AllFree(t, [s] + rest) <==> Free(t, s.start, s.end) && AllFree(t, rest)
  {
    hide Free;
    var spans := [s] + rest;
    assert spans[0] == s && forall k :: 0 <= k < |rest| ==> spans[k + 1] == rest[k];
    if AllFree(t, spans) {
      forall k | 0 <= k < |rest| ensures Free(t, rest[k].start, rest[k].end) {
        assert Free(t, spans[k + 1].start, spans[k + 1].end);
      }
    }
  }

  lemma StartsAfter(d: Dialect, t: string, from: nat)
    ensures FindAll(d, t, from) != [] ==> FindAll(d, t, from)[0].start >= from
  {
    SpansAreOrdered(d, t, from);
  }

  lemma {:induction false} ReportsCompared(t: string, from: nat)
    ensures FindAll(Python, t, from) == FindAll(JavaScript, t, from) <==> AllFree(t, FindAll(Python, t, from))
    decreases |t| - from
  {
    hide FirstEnd, FindAll, MatchEnd, Free, AllFree;
    if from >= |t| {
      FindAllPastEnd(Python, t, from);
      FindAllPastEnd(JavaScript, t, from);
      NoSpans(t);
    } else {
      ScannerIsBacktracking(Python, t, from);
      ScannerIsBacktracking(JavaScript, t, from);
      MatchesCompared(t, from);
      FindAllStep(Python, t, from);
      FindAllStep(JavaScript, t, from);
      var p, j := MatchEnd(Python, t, from), MatchEnd(JavaScript, t, from);
      if p.None? {
        ReportsCompared(t, from + 1);
      } else {
        AllFreeCons(t, Span(from, p.value), FindAll(Python, t, p.value));
        StartsAfter(JavaScript, t, from + 1);
        if j == p {
          ReportsCompared(t, p.value);
          Uncons(Span(from, p.value), FindAll(Python, t, p.value), FindAll(JavaScript, t, p.value));
        } else {
          assert FindAll(Python, t, from)[0] == Span(from, p.value);
        }
      }
    }
  }

  lemma NoSpans(t: string)
    ensures AllFree(t, [])
  {
  }

  lemma Uncons(s: Span, a: seq<Span>, b: seq<Span>)
    ensures [s] + a == [s] + b <==> a == b
  {
    assert ([s] + a)[1..] == a && ([s] + b)[1..] == b;
  }

  /** The two scanners report the same spans of a text if and only if none of the candidates the
      crawler reports holds one of the controls U+001C to U+001F. */
  lemma ScannersAgreeExactlyWhen(t: string)
    ensures FindAll(Python, t, 0) == FindAll(JavaScript, t, 0)
       <==> forall s :: s in FindAll(Python, t, 0) ==> Free(t, s.start, s.end)
  {
    hide FindAll, Free;
    ReportsCompared(t, 0);
    var spans := FindAll(Python, t, 0);
    assert forall k :: 0 <= k < |spans| ==> spans[k] in spans;
  }

  /** So a text without them is safe, which its caller can see before any scan; and there is a text
      on which the scanners differ. */
  lemma ScannersAgree(t: string)
    ensures Free(t, 0, |t|) ==> FindAll(Python, t, 0) == FindAll(JavaScript, t, 0)
    ensures var u := "0\U{1C}912345678"; FindAll(Python, u, 0) != FindAll(JavaScript, u, 0)
  {
    hide FindAll;
    ScannersAgreeExactlyWhen(t);
    ScannersDiffer();
  }

  lemma ScannersDiffer()
    ensures var u := "0\U{1C}912345678"; FindAll(Python, u, 0) != FindAll(JavaScript, u, 0)
  {
    hide *;
    var u := "0\U{1C}912345678";
    OnlyPythonMatches();
    ScannerIsBacktracking(Python, u, 0);
    ScannerIsBacktracking(JavaScript, u, 0);
    FindAllStep(Python, u, 0);
    FindAllStep(JavaScript, u, 0);
    StartsAfter(JavaScript, u, 1);
  }

  lemma OnlyPythonMatches()
    ensures var u := "0\U{1C}912345678"; MatchEnd(Python, u, 0).Some? && MatchEnd(JavaScript, u, 0).None?
  {
    var u := "0\U{1C}912345678";
    assert PrefixEnd(u, 0) == Some(1);
    assert GroupEnd(JavaScript, u, 1).None?;
    assert GroupEnd(Python, u, 1) == Some(3);
    assert Take(Python, u, 7, 5).count >= 4;
    assert Take(Python, u, 3, 9).count >= 8;
  }
}
