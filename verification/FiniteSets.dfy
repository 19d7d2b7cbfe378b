/**
 Counting facts about finite sets of integers.
 */
module FiniteSets {

  /** The integers lo, lo + 1, ..., hi - 1. */
  ghost function Interval(lo: int, hi: int): (s: set<int>)
    ensures forall k :: k in s <==> lo <= k < hi
    ensures |s| == if lo <= hi then hi - lo else 0
    decreases hi - lo
  {
    if lo >= hi then {} else Interval(lo, hi - 1) + {hi - 1}
  }

  lemma IntervalGrows(lo: int, hi: int)
    requires lo <= hi
    ensures Interval(lo, hi) == if lo == hi then {} else Interval(lo, hi - 1) + {hi - 1}
  {
  }

  ghost predicate InjectiveOn<A(!new), B(!new)>(f: A -> B, s: set<A>) {
    forall x, y :: x in s && y in s && f(x) == f(y) ==> x == y
  }

  ghost function Image<A(!new), B(!new)>(f: A -> B, s: set<A>): set<B> {
    set x | x in s :: f(x)
  }

  /** An injective image has as many elements as its source. */
  lemma {:induction false} ImageCard<A(!new), B(!new)>(f: A -> B, s: set<A>)
    requires InjectiveOn(f, s)
    ensures |Image(f, s)| == |s|
    decreases s
  {
    if s == {} {
      assert Image(f, s) == {};
    } else {
      var x :| x in s;
      ImageCard(f, s - {x});
      assert f(x) !in Image(f, s - {x});
      assert Image(f, s) == Image(f, s - {x}) + {f(x)};
    }
  }

  /** f maps s into t and g undoes it. */
  ghost predicate Undoes<A(!new), B(!new)>(g: B -> A, f: A -> B, s: set<A>, t: set<B>) {
    forall x :: x in s ==> f(x) in t && g(f(x)) == x
  }

  lemma BijectionCard<A(!new), B(!new)>(f: A -> B, g: B -> A, s: set<A>, t: set<B>)
    requires Undoes(g, f, s, t) && Undoes(f, g, t, s)
    ensures |s| == |t|
  {
    ImageCard(f, s);
    assert Image(f, s) == t by {
      forall y | y in t ensures y in Image(f, s) { assert f(g(y)) == y; }
    }
  }
}
