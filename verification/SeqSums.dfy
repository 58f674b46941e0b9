/** Sums of a natural-valued measure over the rows of a table. */
module SeqSums {
  function Sum<T>(f: T -> nat, s: seq<T>): nat
  {
    if s == [] then 0 else Sum(f, s[..|s| - 1]) + f(s[|s| - 1])
  }

  lemma SumAppend<T>(f: T -> nat, s: seq<T>, x: T)
    ensures Sum(f, s + [x]) == Sum(f, s) + f(x)
  {
    assert (s + [x])[..|s|] == s;
  }

  lemma {:induction false} SumConcat<T>(f: T -> nat, s: seq<T>, t: seq<T>)
    ensures Sum(f, s + t) == Sum(f, s) + Sum(f, t)
  {
    if t == [] {
      assert s + t == s;
    } else {
      var m := |t| - 1;
      SumConcat(f, s, t[..m]);
      assert s + t == s + t[..m] + [t[m]];
      SumAppend(f, s + t[..m], t[m]);
    }
  }

  /** Replacing one row moves the sum by the difference of that row alone. */
  lemma {:induction false} SumUpdate<T>(f: T -> nat, s: seq<T>, i: nat, x: T)
    requires i < |s|
    ensures Sum(f, s[i := x]) + f(s[i]) == Sum(f, s) + f(x)
  {
    var m := |s| - 1;
    if i == m {
      assert s[i := x][..m] == s[..m];
    } else {
      SumUpdate(f, s[..m], i, x);
      assert s[i := x][..m] == s[..m][i := x];
    }
  }

  /** Row-wise comparison of two tables of the same length. */
  lemma {:induction false} SumPointwise<T>(f: T -> nat, s: seq<T>, t: seq<T>)
    requires |s| == |t|
    requires forall k :: 0 <= k < |s| ==> f(s[k]) <= f(t[k])
    ensures Sum(f, s) <= Sum(f, t)
  {
    if s == [] {
    } else {
      SumPointwise(f, s[..|s| - 1], t[..|t| - 1]);
    }
  }
}
