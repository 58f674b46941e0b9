/** Regular expressions over ASCII text: what they match, and the order in which a greedy
    backtracking matcher tries the ways of matching. */
module Regexes {
  import opened Options

  /** `\s` differs between the two engines on four ASCII control characters. */
  datatype Dialect = Python | JavaScript

  predicate IsDigit(c: char) {
    '0' <= c <= '9'
  }

  predicate IsSpace(d: Dialect, c: char) {
    c == ' ' || '\t' <= c <= '\r' || (d.Python? && '\U{1C}' <= c <= '\U{1F}')
  }

  lemma BlanksAre(c: char)
    ensures IsSpace(JavaScript, c) <==> c in {' ', '\t', '\n', '\U{0B}', '\U{0C}', '\r'}
    ensures IsSpace(Python, c) <==> IsSpace(JavaScript, c) || c in {'\U{1C}', '\U{1D}', '\U{1E}', '\U{1F}'}
  {
  }

  datatype CharClass = Lit(c: char) | EightOrNine | Digit | Separator

  /** Separator is `[\s.-]`. */
  predicate In(d: Dialect, k: CharClass, c: char) {
    match k
    case Lit(x) => c == x
    case EightOrNine => c == '8' || c == '9'
    case Digit => IsDigit(c)
    case Separator => IsSpace(d, c) || c == '.' || c == '-'
  }

  datatype Regex =
    | Cls(k: CharClass)
    | Cat(first: Regex, second: Regex)
    | Alt(left: Regex, right: Regex)
    | Opt(body: Regex)
    | Rep(body: Regex, lo: nat, hi: nat)

  // ----- The language: which slices match -----

  ghost predicate Matches(d: Dialect, r: Regex, t: string, i: nat, e: nat)
    decreases r, 0, 0
  {
    match r
    case Cls(k) => i < |t| && e == i + 1 && In(d, k, t[i])
    case Cat(a, b) => exists m: nat :: Matches(d, a, t, i, m) && Matches(d, b, t, m, e)
    case Alt(a, b) => Matches(d, a, t, i, e) || Matches(d, b, t, i, e)
    case Opt(a) => e == i || Matches(d, a, t, i, e)
    case Rep(a, lo, hi) => exists n: nat :: lo <= n <= hi && Times(d, a, n, t, i, e)
  }

  ghost predicate Times(d: Dialect, r: Regex, n: nat, t: string, i: nat, e: nat)
    decreases r, 1, n
  {
    if n == 0 then e == i
    else exists m: nat {:trigger Via(m)} :: Via(m) && Matches(d, r, t, i, m) && Times(d, r, n - 1, t, m, e)
  }

  /** Marks the position between two iterations. */
  ghost predicate Via(m: nat) { true }

  // ----- Backtracking: every way to match, in the order it is tried -----

  function Ends(d: Dialect, r: Regex, t: string, i: nat): seq<nat>
    decreases r, 1, 0, 0
  {
    match r
    case Cls(k) => if i < |t| && In(d, k, t[i]) then [i + 1] else []
    case Cat(a, b) => EndsFrom(d, b, t, Ends(d, a, t, i))
    case Alt(a, b) => Ends(d, a, t, i) + Ends(d, b, t, i)
    case Opt(a) => Ends(d, a, t, i) + [i]
    case Rep(a, lo, hi) => RepEnds(d, a, lo, hi, t, i)
  }

  function EndsFrom(d: Dialect, r: Regex, t: string, starts: seq<nat>): seq<nat>
    decreases r, 2, 0, |starts|
  {
    if starts == [] then [] else Ends(d, r, t, starts[0]) + EndsFrom(d, r, t, starts[1..])
  }

  function Pred(n: nat): nat {
    if n == 0 then 0 else n - 1
  }

  /** One more iteration is tried before stopping. */
  function RepEnds(d: Dialect, r: Regex, lo: nat, hi: nat, t: string, i: nat): seq<nat>
    decreases r, 3, hi, 0
  {
    (if hi == 0 then [] else RepFrom(d, r, Pred(lo), hi - 1, t, Ends(d, r, t, i)))
    + if lo == 0 then [i] else []
  }

  function RepFrom(d: Dialect, r: Regex, lo: nat, hi: nat, t: string, starts: seq<nat>): seq<nat>
    decreases r, 3, hi, 1 + |starts|
  {
    if starts == [] then []
    else RepEnds(d, r, lo, hi, t, starts[0]) + RepFrom(d, r, lo, hi, t, starts[1..])
  }

  // ----- Backtracking finds exactly the language -----

  lemma {:induction false} EndsAreMatches(d: Dialect, r: Regex, t: string, i: nat, e: nat)
    ensures e in Ends(d, r, t, i) <==> Matches(d, r, t, i, e)
    decreases r, 1, 0, 0
  {
    match r
    case Cls(k) =>
    case Cat(a, b) =>
      EndsFromAreMatches(d, b, t, Ends(d, a, t, i), e);
      forall m: nat ensures m in Ends(d, a, t, i) <==> Matches(d, a, t, i, m) { EndsAreMatches(d, a, t, i, m); }
    case Alt(a, b) =>
      EndsAreMatches(d, a, t, i, e);
      EndsAreMatches(d, b, t, i, e);
    case Opt(a) => EndsAreMatches(d, a, t, i, e);
    case Rep(a, lo, hi) => RepEndsAreMatches(d, a, lo, hi, t, i, e);
  }

  lemma {:induction false} EndsFromAreMatches(d: Dialect, r: Regex, t: string, starts: seq<nat>, e: nat)
    ensures e in EndsFrom(d, r, t, starts) <==> exists m :: m in starts && Matches(d, r, t, m, e)
    decreases r, 2, 0, |starts|
  {
    if starts == [] {
    } else {
      EndsAreMatches(d, r, t, starts[0], e);
      EndsFromAreMatches(d, r, t, starts[1..], e);
      assert forall m :: m in starts <==> m == starts[0] || m in starts[1..];
    }
  }

  /** Between lo and hi iterations, from the first one on. */
  ghost predicate Iterates(d: Dialect, r: Regex, lo: nat, hi: nat, t: string, i: nat, e: nat) {
    exists n: nat :: lo <= n <= hi && Times(d, r, n, t, i, e)
  }

  lemma IterationSplits(d: Dialect, r: Regex, lo: nat, hi: nat, t: string, i: nat, e: nat) returns (m: nat)
    requires Iterates(d, r, lo, hi, t, i, e) && !(lo == 0 && e == i)
    ensures hi > 0 && Matches(d, r, t, i, m) && Iterates(d, r, Pred(lo), hi - 1, t, m, e)
  {
    var n: nat :| lo <= n <= hi && Times(d, r, n, t, i, e);
    m :| Via(m) && Matches(d, r, t, i, m) && Times(d, r, n - 1, t, m, e);
  }

  lemma IterationsJoin(d: Dialect, r: Regex, lo: nat, hi: nat, t: string, i: nat, m: nat, e: nat)
    requires hi > 0 && Matches(d, r, t, i, m) && Iterates(d, r, Pred(lo), hi - 1, t, m, e)
    ensures Iterates(d, r, lo, hi, t, i, e)
  {
    var n: nat :| Pred(lo) <= n <= hi - 1 && Times(d, r, n, t, m, e);
    assert Via(m) && Times(d, r, n + 1, t, i, e);
  }

  lemma NoIteration(d: Dialect, r: Regex, hi: nat, t: string, i: nat)
    ensures Iterates(d, r, 0, hi, t, i, i)
  {
    assert Times(d, r, 0, t, i, i);
  }

  lemma {:induction false} RepEndsAreMatches(d: Dialect, r: Regex, lo: nat, hi: nat, t: string, i: nat, e: nat)
    ensures e in RepEnds(d, r, lo, hi, t, i) <==> Iterates(d, r, lo, hi, t, i, e)
    decreases r, 3, hi, 0
  {
    hide Iterates, Matches;
    NoIteration(d, r, hi, t, i);
    var starts := Ends(d, r, t, i);
    if hi == 0 {
    } else {
      RepFromAreMatches(d, r, Pred(lo), hi - 1, t, starts, e);
    }
    if e in RepEnds(d, r, lo, hi, t, i) && !(lo == 0 && e == i) {
      var m :| m in starts && Iterates(d, r, Pred(lo), hi - 1, t, m, e);
      EndsAreMatches(d, r, t, i, m);
      IterationsJoin(d, r, lo, hi, t, i, m, e);
    }
    if Iterates(d, r, lo, hi, t, i, e) && !(lo == 0 && e == i) {
      var m := IterationSplits(d, r, lo, hi, t, i, e);
      EndsAreMatches(d, r, t, i, m);
    }
  }

  lemma {:induction false} RepFromAreMatches(d: Dialect, r: Regex, lo: nat, hi: nat, t: string, starts: seq<nat>,
                                             e: nat)
    ensures e in RepFrom(d, r, lo, hi, t, starts) <==> exists m :: m in starts && Iterates(d, r, lo, hi, t, m, e)
    decreases r, 3, hi, 1 + |starts|
  {
    if starts == [] {
    } else {
      RepEndsAreMatches(d, r, lo, hi, t, starts[0], e);
      RepFromAreMatches(d, r, lo, hi, t, starts[1..], e);
      assert forall m :: m in starts <==> m == starts[0] || m in starts[1..];
    }
  }

  /** A greedy match is the first way found, if any. */
  function FirstEnd(d: Dialect, r: Regex, t: string, i: nat): Option<nat> {
    var ends := Ends(d, r, t, i);
    if ends == [] then None else Some(ends[0])
  }

  /** The matcher fails exactly on an empty language. */
  lemma FirstEndIsAMatch(d: Dialect, r: Regex, t: string, i: nat)
    ensures FirstEnd(d, r, t, i).None? ==> forall e: nat :: !Matches(d, r, t, i, e)
    ensures FirstEnd(d, r, t, i).Some? ==> Matches(d, r, t, i, FirstEnd(d, r, t, i).value)
  {
    hide Ends, Matches;
    var ends := Ends(d, r, t, i);
    if ends == [] {
      forall e: nat ensures !Matches(d, r, t, i, e) { EndsAreMatches(d, r, t, i, e); }
    } else {
      EndsAreMatches(d, r, t, i, ends[0]);
    }
  }
}
