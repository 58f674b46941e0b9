/** Sorting by a numeric key. Where keys are distinct the result is the only ascending order there
    is, so nothing depends on the algorithm. */
module Sorting {
  predicate StrictlyAscending<T>(key: T -> int, s: seq<T>) {
    forall i, k :: 0 <= i < k < |s| ==> key(s[i]) < key(s[k])
  }

  predicate DistinctKeys<T>(key: T -> int, s: seq<T>) {
    forall i, k :: 0 <= i < k < |s| ==> key(s[i]) != key(s[k])
  }

  function Place<T>(key: T -> int, x: T, s: seq<T>): seq<T> {
    if s != [] && key(x) < key(s[|s| - 1]) then Place(key, x, s[..|s| - 1]) + [s[|s| - 1]] else s + [x]
  }

  function SortBy<T>(key: T -> int, s: seq<T>): seq<T> {
    if s == [] then [] else Place(key, s[|s| - 1], SortBy(key, s[..|s| - 1]))
  }

  lemma {:induction false} PlaceMembers<T>(key: T -> int, x: T, s: seq<T>, y: T)
    ensures y in Place(key, x, s) <==> y in s || y == x
  {
    if s != [] && key(x) < key(s[|s| - 1]) {
      var m := |s| - 1;
      PlaceMembers(key, x, s[..m], y);
      assert s == s[..m] + [s[m]];
    }
  }

  lemma {:induction false} PlaceKeepsOrder<T>(key: T -> int, x: T, s: seq<T>)
    requires StrictlyAscending(key, s) && forall y :: y in s ==> key(y) != key(x)
    ensures StrictlyAscending(key, Place(key, x, s))
  {
    if s == [] {
    } else {
      var m := |s| - 1;
      var before := s[..m];
      assert s[m] in s;
      if key(x) < key(s[m]) {
        PlaceKeepsOrder(key, x, before);
        var placed := Place(key, x, before);
        forall i | 0 <= i < |placed| ensures key(placed[i]) < key(s[m]) {
          PlaceMembers(key, x, before, placed[i]);
          if placed[i] in before {
            var k :| 0 <= k < m && before[k] == placed[i];
            assert before[k] == s[k];
          }
        }
      }
    }
  }

  lemma {:induction false} SortMembers<T>(key: T -> int, s: seq<T>, x: T)
    ensures x in SortBy(key, s) <==> x in s
  {
    if s == [] {
    } else {
      var m := |s| - 1;
      SortMembers(key, s[..m], x);
      PlaceMembers(key, s[m], SortBy(key, s[..m]), x);
      assert x in s <==> x in s[..m] || x == s[m];
    }
  }

  lemma {:induction false} SortAscends<T>(key: T -> int, s: seq<T>)
    requires DistinctKeys(key, s)
    ensures StrictlyAscending(key, SortBy(key, s))
  {
    if s == [] {
    } else {
      var m := |s| - 1;
      SortAscends(key, s[..m]);
      forall y | y in SortBy(key, s[..m]) ensures key(y) != key(s[m]) {
        SortMembers(key, s[..m], y);
        var k :| 0 <= k < m && s[k] == y;
      }
      PlaceKeepsOrder(key, s[m], SortBy(key, s[..m]));
    }
  }

  /** Sorting what is ascending already changes nothing. */
  lemma {:induction false} SortFixesAscending<T>(key: T -> int, s: seq<T>)
    requires StrictlyAscending(key, s)
    ensures SortBy(key, s) == s
  {
    if s == [] {
    } else {
      var m := |s| - 1;
      SortFixesAscending(key, s[..m]);
      assert m > 0 ==> key(s[m - 1]) < key(s[m]);
      assert s == s[..m] + [s[m]];
    }
  }

  /** There is only one strictly ascending order of given elements. */
  lemma {:induction false} AscendingIsUnique<T>(key: T -> int, s: seq<T>, t: seq<T>)
    requires StrictlyAscending(key, s) && StrictlyAscending(key, t)
    requires forall x :: x in s <==> x in t
    ensures s == t
  {
    assert t != [] ==> t[0] in t;
    if s == [] {
    } else {
      assert s[|s| - 1] in t;
      var m, n := |s| - 1, |t| - 1;
      LastIsGreatest(key, s, t[n]);
      LastIsGreatest(key, t, s[m]);
      var a, b := s[..m], t[..n];
      forall x ensures x in a <==> x in b {
        InitMembers(key, s, x);
        InitMembers(key, t, x);
      }
      AscendingIsUnique(key, a, b);
      assert s == a + [s[m]] && t == b + [t[n]];
    }
  }

  lemma LastIsGreatest<T>(key: T -> int, s: seq<T>, x: T)
    requires StrictlyAscending(key, s) && x in s
    ensures key(x) <= key(s[|s| - 1]) && (key(x) == key(s[|s| - 1]) ==> x == s[|s| - 1])
  {
    var i :| 0 <= i < |s| && s[i] == x;
  }

  lemma InitMembers<T>(key: T -> int, s: seq<T>, x: T)
    requires StrictlyAscending(key, s) && s != []
    ensures x in s[..|s| - 1] <==> x in s && x != s[|s| - 1]
  {
    var m := |s| - 1;
    if x in s[..m] { var i :| 0 <= i < m && s[..m][i] == x; }
    if x in s && x != s[m] {
      var i :| 0 <= i < |s| && s[i] == x;
      assert s[..m][i] == x;
    }
  }

  /** A finite set can be listed, each element once. */
  lemma {:induction false} CanBeListed<T>(s: set<T>) returns (list: seq<T>)
    ensures forall i, k :: 0 <= i < k < |list| ==> list[i] != list[k]
    ensures forall x :: x in list <==> x in s
  {
    if s == {} {
      list := [];
    } else {
      var x :| x in s;
      var rest := CanBeListed(s - {x});
      list := rest + [x];
      assert x !in rest;
    }
  }
}
