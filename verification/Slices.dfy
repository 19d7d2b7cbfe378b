/**
 Writing a run of elements over part of a sequence.
 */
module Slices {

  ghost function Overwrite<T>(s: seq<T>, at: nat, e: seq<T>): (t: seq<T>)
    requires at + |e| <= |s|
    ensures |t| == |s|
  {
    s[..at] + e + s[at + |e|..]
  }

  /** A range that is written is what was written; a disjoint one stays. */
  lemma SliceUpdate<T>(s: seq<T>, at: nat, e: seq<T>, a: nat)
    requires at + |e| <= |s| && a + |e| <= |s|
    requires a + |e| <= at || at + |e| <= a || a == at
    ensures Overwrite(s, at, e)[a..a + |e|] == if a == at then e else s[a..a + |e|]
  {
  }

  lemma OverwriteNone<T>(s: seq<T>, at: nat)
    requires at <= |s|
    ensures Overwrite(s, at, []) == s
  {
  }

  /** One element written behind a run. */
  lemma OverwriteOne<T>(s: seq<T>, at: nat, e: seq<T>, x: T)
    requires at + |e| < |s|
    ensures Overwrite(s, at, e)[at + |e| := x] == Overwrite(s, at, e + [x])
  {
  }

  /** Two adjacent runs are one. */
  lemma OverwriteTwice<T>(s: seq<T>, at: nat, a: seq<T>, b: seq<T>)
    requires at + |a| + |b| <= |s|
    ensures Overwrite(Overwrite(s, at, a), at + |a|, b) == Overwrite(s, at, a + b)
  {
    var t := Overwrite(s, at, a);
    assert t[..at + |a|] == s[..at] + a;
    assert t[at + |a| + |b|..] == s[at + |a| + |b|..];
    assert s[..at] + a + b == s[..at] + (a + b);
  }

  /** The front of a run written once more. */
  lemma OverwriteFront<T>(s: seq<T>, at: nat, a: seq<T>, a': seq<T>, b: seq<T>)
    requires at + |a| + |b| <= |s| && |a'| == |a|
    ensures Overwrite(Overwrite(s, at, a + b), at, a') == Overwrite(s, at, a' + b)
  {
    var t := Overwrite(s, at, a + b);
    assert t[..at] == s[..at];
    assert t[at + |a|..] == b + s[at + |a| + |b|..];
    assert s[..at] + a' + (b + s[at + |a| + |b|..]) == s[..at] + (a' + b) + s[at + |a| + |b|..];
  }

  lemma SliceOfSlice<T>(s: seq<T>, base: nat, len: nat, pos: nat, n: nat)
    requires base + len <= |s| && pos + n <= len
    ensures s[base..base + len][pos..pos + n] == s[base + pos..base + pos + n]
  {
    var part := s[base..base + len];
    var x, y := part[pos..pos + n], s[base + pos..base + pos + n];
    forall i | 0 <= i < n ensures x[i] == y[i] {
      assert x[i] == part[pos + i];
    }
  }
}
