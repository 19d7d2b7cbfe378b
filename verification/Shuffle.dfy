/**
 The Fisher-Yates shuffle as a function of its draws, and the byte-array view of the
 elements it exchanges (cbase_random.c).
 */
module Shuffle {
  import opened Bits
  import opened Slices

  function Swap<T>(s: seq<T>, i: nat, j: nat): (t: seq<T>)
    requires i < |s| && j < |s|
    ensures |t| == |s|
    ensures multiset(t) == multiset(s)
  {
    s[i := s[j]][j := s[i]]
  }

  /** The k-th draw, for element n - 1 - k, picks that element or an earlier one. */
  ghost predicate ValidDraws(js: seq<nat>, n: nat) {
    |js| == (if n == 0 then 0 else n - 1) &&
    forall k :: 0 <= k < |js| ==> js[k] <= n - 1 - k
  }

  lemma ConsDraw(j: nat, js: seq<nat>, n: nat)
    requires n >= 2 && j < n && ValidDraws(js, n - 1)
    ensures ValidDraws([j] + js, n)
  {
    assert forall k :: 0 < k < n - 1 ==> ([j] + js)[k] == js[k - 1];
  }

  /** The shuffle with the draws js: settle the last element, then shuffle the others. */
  ghost function Shuffled<T>(s: seq<T>, js: seq<nat>): (t: seq<T>)
    requires ValidDraws(js, |s|)
    ensures |t| == |s|
    decreases |s|
  {
    if |s| <= 1 then s
    else
      var n := |s| - 1;
      var t := Swap(s, n, js[0]);
      Shuffled(t[..n], js[1..]) + [t[n]]
  }

  lemma SplitLast<T>(s: seq<T>)
    requires |s| > 0
    ensures s == s[..|s| - 1] + [s[|s| - 1]]
  {
  }

  /** A shuffle only rearranges. */
  lemma {:induction false} ShuffledPermutes<T>(s: seq<T>, js: seq<nat>)
    requires ValidDraws(js, |s|)
    ensures multiset(Shuffled(s, js)) == multiset(s)
    decreases |s|
  {
    if |s| > 1 {
      var n := |s| - 1;
      var t := Swap(s, n, js[0]);
      ShuffledPermutes(t[..n], js[1..]);
      SplitLast(t);
    }
  }

  /** The first draw picks the last element of the result; the old last element takes its place among
      those that the other draws shuffle. */
  lemma ShuffledPicks<T>(s: seq<T>, t: seq<T>, j: nat, js: seq<nat>)
    requires |t| == |s| - 1 && j < |s| && ValidDraws(js, |t|) && t != []
    requires forall i :: 0 <= i < |t| ==> t[i] == if i == j then s[|t|] else s[i]
    ensures ValidDraws([j] + js, |s|) && Shuffled(s, [j] + js) == Shuffled(t, js) + [s[j]]
  {
    hide Swap;
    ConsDraw(j, js, |s|);
    assert ([j] + js)[1..] == js;
    SwapWithLast(s, t, j);
  }

  lemma SwapWithLast<T>(s: seq<T>, t: seq<T>, j: nat)
    requires |t| == |s| - 1 && j < |s|
    requires forall i :: 0 <= i < |t| ==> t[i] == if i == j then s[|t|] else s[i]
    ensures Swap(s, |t|, j)[..|t|] == t && Swap(s, |t|, j)[|t|] == s[j]
  {
    assert |Swap(s, |t|, j)[..|t|]| == |t|;
  }

  /** One shuffle, draw by draw. */
  lemma ShuffleExample()
    ensures ValidDraws([1, 0, 1], 4) && Shuffled([10, 11, 12, 13], [1, 0, 1]) == [12, 13, 10, 11]
  {
    hide Shuffled;
    ShuffledShort([12], []);
    ShuffledPicks([12, 13], [12], 1, []);
    ShuffledPicks([10, 13, 12], [12, 13], 0, [1]);
    ShuffledPicks([10, 11, 12, 13], [10, 13, 12], 1, [0, 1]);
    assert [1] + [] == [1] && [0] + [1] == [0, 1] && [1] + [0, 1] == [1, 0, 1];
    assert [12] + [13] == [12, 13] && [12, 13] + [10] == [12, 13, 10] && [12, 13, 10] + [11] == [12, 13, 10, 11];
  }

  ghost predicate Distinct<T>(s: seq<T>) {
    forall i, j :: 0 <= i < j < |s| ==> s[i] != s[j]
  }

  /** What is left to shuffle once position j has been moved to the end. */
  ghost function Rest<T>(s: seq<T>, j: nat): (t: seq<T>)
    requires j < |s|
    ensures |t| == |s| - 1
    ensures multiset(t) == multiset(s) - multiset{s[j]}
    ensures Distinct(s) ==> Distinct(t)
  {
    hide Distinct, Swap;
    RestDistinct(s, j);
    var t := Swap(s, |s| - 1, j);
    SplitLast(t);
    t[..|s| - 1]
  }

  lemma RestDistinct<T>(s: seq<T>, j: nat)
    requires j < |s|
    ensures Swap(s, |s| - 1, j)[|s| - 1] == s[j]
    ensures Distinct(s) ==> Distinct(Swap(s, |s| - 1, j)[..|s| - 1])
  {
  }

  lemma ShuffledShort<T>(s: seq<T>, js: seq<nat>)
    requires ValidDraws(js, |s|) && |s| <= 1
    ensures Shuffled(s, js) == s
  {
  }

  lemma ShuffledStep<T>(s: seq<T>, js: seq<nat>)
    requires ValidDraws(js, |s|) && |s| > 1
    ensures Shuffled(s, js) == Shuffled(Rest(s, js[0]), js[1..]) + [s[js[0]]]
  {
    hide Swap, Distinct;
    RestDistinct(s, js[0]);
  }

  /** Different draws give different arrangements of distinct elements. */
  lemma {:induction false} ShuffleInjective<T>(s: seq<T>, js: seq<nat>, ks: seq<nat>)
    requires Distinct(s) && ValidDraws(js, |s|) && ValidDraws(ks, |s|)
    requires Shuffled(s, js) == Shuffled(s, ks)
    ensures js == ks
    decreases |s|
  {
    hide Shuffled, Rest;
    if |s| > 1 {
      var t, u := Shuffled(Rest(s, js[0]), js[1..]), Shuffled(Rest(s, ks[0]), ks[1..]);
      ShuffledStep(s, js);
      ShuffledStep(s, ks);
      assert (t + [s[js[0]]])[|s| - 1] == (u + [s[ks[0]]])[|s| - 1];
      assert js[0] == ks[0];
      assert t == (t + [s[js[0]]])[..|s| - 1] == (u + [s[ks[0]]])[..|s| - 1] == u;
      ShuffleInjective(Rest(s, js[0]), js[1..], ks[1..]);
      assert js == [js[0]] + js[1..] && ks == [ks[0]] + ks[1..];
    }
  }

  /** Every rearrangement is the result of some draws. */
  lemma {:induction false} ShuffleSurjective<T>(s: seq<T>, p: seq<T>) returns (js: seq<nat>)
    requires multiset(p) == multiset(s)
    ensures ValidDraws(js, |s|) && Shuffled(s, js) == p
    decreases |s|
  {
    hide Shuffled, Rest;
    assert |p| == |multiset(p)| == |multiset(s)| == |s|;
    if |s| <= 1 {
      js := [];
      ShuffledShort(s, js);
      if |s| == 1 { assert p[0] in multiset(p); }
    } else {
      var n := |s| - 1;
      SplitLast(p);
      assert p[n] in multiset(p) && p[n] in s;
      var j: nat :| j <= n && s[j] == p[n];
      assert multiset(p[..n]) == multiset(p) - multiset{p[n]};
      var rest := ShuffleSurjective(Rest(s, j), p[..n]);
      js := [j] + rest;
      ConsDraw(j, rest, |s|);
      assert js[1..] == rest && js[0] == j;
      ShuffledStep(s, js);
    }
  }

  /* Elements of `stride` bytes inside a byte array */

  /** `len` bytes hold exactly n elements. */
  ghost predicate Spans(len: nat, n: nat, stride: nat) {
    len == n * stride
  }

  ghost function Element(bytes: seq<Byte>, stride: nat, k: nat): seq<Byte>
    requires 0 <= k * stride <= k * stride + stride <= |bytes|
  {
    bytes[k * stride..k * stride + stride]
  }

  lemma ElementFits(stride: nat, k: nat, n: nat)
    requires k < n
    ensures 0 <= k * stride <= k * stride + stride <= n * stride
  {
    MulLe(0, k, stride);
    MulLe(k + 1, n, stride);
    MulDist(k, 1, stride);
  }

  lemma ElementsApart(stride: nat, i: nat, j: nat)
    requires i < j
    ensures i * stride + stride <= j * stride
  {
    MulLe(i + 1, j, stride);
    MulDist(i, 1, stride);
  }

  ghost function Elements(bytes: seq<Byte>, stride: nat, n: nat): (es: seq<seq<Byte>>)
    requires Spans(|bytes|, n, stride)
    ensures |es| == n
    ensures forall k :: 0 <= k < n ==>
              0 <= k * stride <= k * stride + stride <= |bytes| && es[k] == Element(bytes, stride, k)
  {
    if n == 0 then []
    else
      ElementFits(stride, n - 1, n);
      MulDist(n, 1, stride);
      var front := bytes[..(n - 1) * stride];
      var es := Elements(front, stride, n - 1);
      assert forall k | 0 <= k < n - 1 :: es[k] == Element(bytes, stride, k) by {
        forall k | 0 <= k < n - 1
          ensures 0 <= k * stride <= k * stride + stride <= |front| && es[k] == Element(bytes, stride, k)
        {
          ElementFits(stride, k, n - 1);
          assert front[k * stride..k * stride + stride] == bytes[k * stride..k * stride + stride];
        }
      }
      es + [Element(bytes, stride, n - 1)]
  }

  /** Overwriting the bytes of element i changes that element and no other. */
  lemma ElementsUpdate(bytes: seq<Byte>, stride: nat, n: nat, i: nat, e: seq<Byte>)
    requires Spans(|bytes|, n, stride) && i < n && |e| == stride
    requires 0 <= i * stride <= i * stride + stride <= |bytes|
    ensures Elements(Overwrite(bytes, i * stride, e), stride, n) == Elements(bytes, stride, n)[i := e]
  {
    hide Elements, Overwrite;
    var es, es' := Elements(bytes, stride, n), Elements(Overwrite(bytes, i * stride, e), stride, n);
    forall k | 0 <= k < n
      ensures es'[k] == es[i := e][k]
    {
      ElementFits(stride, k, n);
      if k < i { ElementsApart(stride, k, i); }
      if k > i { ElementsApart(stride, i, k); }
      SliceUpdate(bytes, i * stride, e, k * stride);
    }
  }

  /** Exchanging the byte ranges of two elements exchanges the elements. */
  lemma SwapBytes(bytes: seq<Byte>, stride: nat, n: nat, i: nat, j: nat)
    requires Spans(|bytes|, n, stride) && j < i < n
    ensures 0 <= j * stride && j * stride + stride <= i * stride && i * stride + stride <= |bytes|
    ensures var pi, pj := i * stride, j * stride;
            Elements(Overwrite(Overwrite(bytes, pi, bytes[pj..pj + stride]), pj, bytes[pi..pi + stride]), stride, n)
            == Swap(Elements(bytes, stride, n), i, j)
  {
    hide Elements, Overwrite;
    ElementFits(stride, i, n);
    ElementFits(stride, j, n);
    ElementsApart(stride, j, i);
    var es := Elements(bytes, stride, n);
    ElementsUpdate(bytes, stride, n, i, es[j]);
    ElementsUpdate(Overwrite(bytes, i * stride, es[j]), stride, n, j, es[i]);
  }
}
