/**
 Counting and summing over sequences, with the effect of changing one element.
 */
module Tally {

  /** The sum of w over the elements of s. */
  ghost function Sum<T>(s: seq<T>, w: T -> nat): nat {
    if s == [] then 0 else Sum(s[..|s| - 1], w) + w(s[|s| - 1])
  }

  lemma {:induction false} SumAppend<T>(s: seq<T>, t: seq<T>, w: T -> nat)
    ensures Sum(s + t, w) == Sum(s, w) + Sum(t, w)
    decreases |t|
  {
    if t == [] {
      assert s + t == s;
    } else {
      var n := |t| - 1;
      assert (s + t)[..|s + t| - 1] == s + t[..n];
      SumAppend(s, t[..n], w);
    }
  }

  lemma SumOne<T>(x: T, w: T -> nat)
    ensures Sum([x], w) == w(x)
  {
    assert [x][..0] == [];
  }

  lemma SumSplit<T>(s: seq<T>, i: nat, w: T -> nat)
    requires i < |s|
    ensures Sum(s, w) == Sum(s[..i], w) + w(s[i]) + Sum(s[i + 1..], w)
  {
    assert s == s[..i] + [s[i]] + s[i + 1..];
    SumAppend(s[..i] + [s[i]], s[i + 1..], w);
    SumAppend(s[..i], [s[i]], w);
    SumOne(s[i], w);
  }

  lemma SumUpdate<T>(s: seq<T>, i: nat, x: T, w: T -> nat)
    requires i < |s|
    ensures Sum(s[i := x], w) + w(s[i]) == Sum(s, w) + w(x)
  {
    var s' := s[i := x];
    SumSplit(s, i, w);
    SumSplit(s', i, w);
    assert s'[..i] == s[..i] && s'[i + 1..] == s[i + 1..];
  }

  /** A positive sum has a positive term, and the converse. */
  lemma {:induction false} SumPositive<T>(s: seq<T>, w: T -> nat)
    ensures Sum(s, w) > 0 <==> exists i :: 0 <= i < |s| && w(s[i]) > 0
  {
    if s != [] {
      var n := |s| - 1;
      SumPositive(s[..n], w);
      if w(s[n]) == 0 && exists i :: 0 <= i < |s| && w(s[i]) > 0 {
        var i :| 0 <= i < |s| && w(s[i]) > 0;
        assert s[..n][i] == s[i];
      }
      if i :| 0 <= i < n && w(s[..n][i]) > 0 {
        assert w(s[i]) > 0;
      }
    }
  }

  lemma {:induction false} SumLe<T>(s: seq<T>, v: T -> nat, w: T -> nat)
    requires forall i :: 0 <= i < |s| ==> v(s[i]) <= w(s[i])
    ensures Sum(s, v) <= Sum(s, w)
  {
    if s != [] { SumLe(s[..|s| - 1], v, w); }
  }

  lemma {:induction false} SumPlus<T>(s: seq<T>, u: T -> nat, v: T -> nat, w: T -> nat)
    requires forall i :: 0 <= i < |s| ==> w(s[i]) == u(s[i]) + v(s[i])
    ensures Sum(s, w) == Sum(s, u) + Sum(s, v)
  {
    if s != [] { SumPlus(s[..|s| - 1], u, v, w); }
  }
}
