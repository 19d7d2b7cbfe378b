/**
 Bounded draws (cbase_random.c): which 32-bit values the multiply-and-reject rule accepts,
 how often each result occurs, and that a run of rejections always ends.
 */
module Bounded {
  import opened Bits
  import opened FiniteSets
  import opened Pcg

  ghost predicate IsBound(b: int) { 0 < b < U32 }

  /** The rejection test: the low word of x * b is not below 2^32 mod b. */
  predicate Accepts(x: nat, b: nat)
    requires b > 0
  {
    x * b % U32 >= U32 % b
  }

  /** The high word of x * b. */
  function Scaled(x: nat, b: nat): int { x * b / U32 }

  /** A greater draw never gives a smaller result. */
  lemma ScaledRises(x: nat, y: nat, b: nat)
    requires x <= y
    ensures Scaled(x, b) <= Scaled(y, b)
  {
    MulLe(x, y, b);
    DivMod(x * b, U32);
    DivMod(y * b, U32);
  }

  ghost function AcceptedFor(b: nat, r: nat): set<int>
    requires b > 0
  {
    set x: int | 0 <= x < U32 && Accepts(x, b) && Scaled(x, b) == r
  }

  lemma MultiplesFrom(b: nat, base: nat) returns (x0: nat)
    requires b > 0
    ensures forall x :: x * b >= base <==> x >= x0
  {
    DivMod(base + b - 1, b);
    var q := (base + b - 1) / b;
    if q < 0 { MulLe(q, -1, b); }
    x0 := q;
    forall x ensures x * b >= base <==> x >= x0 {
      if x >= x0 { MulLe(x0, x, b); } else { MulLe(x, x0 - 1, b); MulDist(x0, 1, b); }
    }
  }

  /** The accepted draws for r are consecutive, and there are floor(2^32 / b) of them. */
  lemma AcceptedInterval(b: nat, r: nat) returns (x0: nat)
    requires IsBound(b) && r < b
    ensures 0 < U32 / b && x0 + U32 / b <= U32
    ensures AcceptedFor(b, r) == Interval(x0, x0 + U32 / b)
  {
    var q, t := U32 / b, U32 % b;
    DivMod(U32, b);
    if q < 1 { MulLe(q, 0, b); }
    x0 := MultiplesFrom(b, r * U32 + t);
    forall x ensures x in AcceptedFor(b, r) <==> x in Interval(x0, x0 + q) {
      if x >= 0 {
        var m := x * b;
        MulLe(0, x, b);
        assert Accepts(x, b) && Scaled(x, b) == r <==> m >= r * U32 + t && m < r * U32 + U32;
        MulDist(x, q, b);
        assert m < r * U32 + U32 <==> (x - q) * b < r * U32 + t;
        if x >= U32 { MulLe(U32, x, b); MulLe(r + 1, b, U32); }
      }
    }
    assert x0 + q - 1 in Interval(x0, x0 + q);
    assert x0 + q - 1 in AcceptedFor(b, r);
  }

  /** Every result below b comes from the same number of accepted 32-bit draws. */
  lemma AcceptedCount(b: nat, r: nat)
    requires IsBound(b) && r < b
    ensures |AcceptedFor(b, r)| == U32 / b
  {
    var x0 := AcceptedInterval(b, r);
  }

  lemma ScaledBound(x: nat, b: nat)
    requires x < U32 && b > 0
    ensures 0 <= Scaled(x, b) < b
  {
    MulLe(0, x, b);
    MulLe(x + 1, U32, b);
    MulDist(x, 1, b);
  }

  /* How long a run of rejections can be */

  ghost predicate FirstAccepted(state: nat, inc: nat, b: nat, n: nat)
    requires IsState(state) && b > 0
  {
    Accepts(Draw(state, inc, n), b) && forall k: nat :: k < n ==> !Accepts(Draw(state, inc, k), b)
  }

  lemma {:induction false} FirstWithin(state: nat, inc: nat, b: nat, n: nat) returns (first: nat)
    requires IsState(state) && b > 0
    requires exists k: nat :: k < n && Accepts(Draw(state, inc, k), b)
    ensures first < n && FirstAccepted(state, inc, b, first)
  {
    if k: nat :| k < n - 1 && Accepts(Draw(state, inc, k), b) {
      first := FirstWithin(state, inc, b, n - 1);
    } else {
      first := n - 1;
    }
  }

  /** An accepted draw turns up within one period, from every state and for every bound. */
  lemma AcceptedEventually(state: nat, inc: nat, b: nat)
    requires IsState(state) && IsInc(inc) && IsBound(b)
    ensures exists first: nat :: first < U64 && FirstAccepted(state, inc, b, first)
  {
    var target := StateFor(0, 0, 1);
    var n := StateReached(state, inc, target);
    assert Draw(state, inc, n) == 1;
    assert Accepts(1, b) by {
      DivSmall(b, U32);
      DivMod(U32, b);
    }
    var first := FirstWithin(state, inc, b, n + 1);
  }

  /** How many draws are rejected before the first accepted one. */
  ghost function Rejections(state: nat, inc: nat, b: nat): (n: nat)
    requires IsState(state) && IsInc(inc) && IsBound(b)
    ensures FirstAccepted(state, inc, b, n) && n < U64
  {
    AcceptedEventually(state, inc, b);
    var n: nat :| FirstAccepted(state, inc, b, n) && n < U64;
    n
  }

  /* What a whole period of draws looks like */

  ghost function DrawsIn(state: nat, inc: nat, xs: set<int>): set<int>
    requires IsState(state)
  {
    set i: int | 0 <= i < U64 && Draw(state, inc, i) in xs
  }

  ghost function StateAfter(state: nat, inc: nat): int -> int
    requires IsState(state)
  {
    i => if i >= 0 then StateAt(state, inc, i) else 0
  }

  /** A period of 2^64 draws contains every 32-bit value exactly 2^32 times. */
  lemma DrawCount(state: nat, inc: nat, y: nat)
    requires IsState(state) && IsInc(inc) && y < U32
    ensures |DrawsIn(state, inc, {y})| == U32
  {
    hide Output, StateAt;
    var f, dom := StateAfter(state, inc), DrawsIn(state, inc, {y});
    forall i, j | i in dom && j in dom && f(i) == f(j)
      ensures i == j
    {
      StateRepeats(state, inc, i, j);
      DivSmall(i, U64);
      DivSmall(j, U64);
    }
    ImageCard(f, dom);
    forall s | s in StatesYielding(y)
      ensures s in Image(f, dom)
    {
      var i := StateReached(state, inc, s);
      assert i in dom && f(i) == s;
    }
    assert Image(f, dom) == StatesYielding(y);
    OutputBalanced(y);
  }

  lemma NoDrawsIn(state: nat, inc: nat)
    requires IsState(state)
    ensures DrawsIn(state, inc, {}) == {}
  {
  }

  lemma {:induction false} DrawsInCount(state: nat, inc: nat, lo: nat, hi: nat)
    requires IsState(state) && IsInc(inc) && lo <= hi <= U32
    ensures |DrawsIn(state, inc, Interval(lo, hi))| == (hi - lo) * U32
    decreases hi
  {
    hide Draw, DrawsIn, Interval, IsState, IsInc;
    IntervalGrows(lo, hi);
    if lo == hi {
      NoDrawsIn(state, inc);
    } else {
      DrawsInCount(state, inc, lo, hi - 1);
      DrawCount(state, inc, hi - 1);
      DrawsInSplit(state, inc, Interval(lo, hi - 1), hi - 1);
      MulDist(hi - 1 - lo, 1, U32);
    }
  }

  lemma DrawsInSplit(state: nat, inc: nat, xs: set<int>, y: int)
    requires IsState(state) && y !in xs
    ensures |DrawsIn(state, inc, xs + {y})| == |DrawsIn(state, inc, xs)| + |DrawsIn(state, inc, {y})|
  {
    hide Draw;
    assert DrawsIn(state, inc, xs + {y}) == DrawsIn(state, inc, xs) + DrawsIn(state, inc, {y});
    assert DrawsIn(state, inc, xs) !! DrawsIn(state, inc, {y});
  }

  /** Over a whole period every result below b is produced equally often: 2^32 * floor(2^32 / b) times. */
  lemma BoundedUniform(state: nat, inc: nat, b: nat, r: nat)
    requires IsState(state) && IsInc(inc) && IsBound(b) && r < b
    ensures |DrawsIn(state, inc, AcceptedFor(b, r))| == U32 / b * U32
  {
    hide *;
    var x0 := AcceptedInterval(b, r);
    DrawsInCount(state, inc, x0, x0 + U32 / b);
  }
}
