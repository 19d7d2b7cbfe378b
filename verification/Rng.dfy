/**
 The generator object of cbase_random.c. Every method advances `state` in place and is
 proved against the run of draws that starts in the old state.
 */
module Random {
  import opened Bits
  import opened Pcg
  import opened Bounded
  import opened Shuffle
  import opened Slices

  const FX16_ONE: int := 65536
  const MAX_STRIDE: nat := 256

  datatype Info = Ok | BadStride

  /** A value drawn, and the state the draw leaves behind. */
  datatype Drawn = Drawn(value: nat, state: nat)

  /** The first accepted draw, scaled; a zero bound draws nothing. */
  ghost function DrawBelow(state: nat, inc: nat, b: nat): (d: Drawn)
    requires IsState(state) && IsInc(inc) && b < U32
    ensures IsState(d.state)
    ensures if b == 0 then d == Drawn(0, state) else d.value < b
  {
    if b == 0 then Drawn(0, state)
    else
      var n := Rejections(state, inc, b);
      ScaledBound(Draw(state, inc, n), b);
      Drawn(Scaled(Draw(state, inc, n), b), StateAt(state, inc, n + 1))
  }

  lemma CastAtMost(n: nat)
    ensures n % U32 <= n
  {
  }

  /** The draws of a shuffle of n elements; the bound is cast to 32 bits. */
  ghost function ShuffleDraws(state: nat, inc: nat, n: nat): (js: seq<nat>)
    requires IsState(state) && IsInc(inc)
    ensures ValidDraws(js, n)
    decreases n
  {
    if n <= 1 then []
    else
      var d := DrawBelow(state, inc, n % U32);
      var rest := ShuffleDraws(d.state, inc, n - 1);
      CastAtMost(n);
      ConsDraw(d.value, rest, n);
      [d.value] + rest
  }

  ghost function ShuffleState(state: nat, inc: nat, n: nat): (s: nat)
    requires IsState(state) && IsInc(inc)
    ensures IsState(s)
    decreases n
  {
    if n <= 1 then state else ShuffleState(DrawBelow(state, inc, n % U32).state, inc, n - 1)
  }

  /** memcpy between two arrays, or between disjoint ranges of one array. */
  method Copy(dst: array<Byte>, d: nat, src: array<Byte>, s: nat, n: nat)
    requires d + n <= dst.Length && s + n <= src.Length
    requires dst != src || d + n <= s || s + n <= d
    modifies dst
    ensures dst[..] == Overwrite(old(dst[..]), d, old(src[..])[s..s + n])
  {
    ghost var was, from := dst[..], src[..];
    for k := 0 to n
      invariant dst != src ==> src[..] == from
      invariant forall i :: 0 <= i < dst.Length ==> dst[i] == if d <= i < d + k then from[s + i - d] else was[i]
    {
      assert src[s + k] == from[s + k];
      dst[d + k] := src[s + k];
    }
    assert dst[..] == was[..d] + from[s..s + n] + was[d + n..];
  }

  class Rng {
    var info: Info
    var state: nat
    var inc: nat

    ghost predicate Valid() reads this {
      IsState(state) && IsInc(inc)
    }

    constructor Seed(seed: nat, stream: nat)
      requires seed < U64 && stream < U64
      ensures Valid() && info == Ok
      ensures inc == 2 * stream % U64 + 1
      ensures state == Step((Step(0, inc) + seed) % U64, inc)
    {
      hide Or, Step;
      info := Ok;
      OddIncrement(stream);
      var i := Or(stream * 2 % U64, 1);
      inc := i;
      var s := Step(0, i);
      s := (s + seed) % U64;
      state := Step(s, i);
    }

    /** One 32-bit draw: the output of the old state. */
    method NextU32() returns (x: nat)
      requires Valid()
      modifies `state
      ensures Valid() && x < U32
      ensures x == Draw(old(state), inc, 0) && state == StateAt(old(state), inc, 1)
    {
      var before := state;
      state := Step(state, inc);
      x := Output(before);
    }

    method NextU64() returns (x: nat)
      requires Valid()
      modifies `state
      ensures Valid() && x < U64
      ensures x == Draw(old(state), inc, 0) * U32 + Draw(old(state), inc, 1)
      ensures state == StateAt(old(state), inc, 2)
    {
      var high := NextU32();
      var low := NextU32();
      Pow2Values();
      DivExact(high, U32);
      OrDisjoint(low, high * U32, 32);
      OrSymmetric(high * U32, low);
      x := Or(high * U32, low);
    }

    /** Lemire's bounded draw: the loop ends because an accepted draw lies ahead. */
    method Below(bound: nat) returns (r: nat)
      requires Valid() && bound < U32
      modifies `state
      ensures Valid()
      ensures Drawn(r, state) == DrawBelow(old(state), inc, bound)
    {
      hide Draw, StateAt, Output, Step;
      if bound == 0 { return 0; }
      ghost var s0, n := state, Rejections(state, inc, bound);
      ghost var k: nat := 0;
      var x := NextU32();
      ScaledBound(x, bound);
      var m := x * bound;
      var l := m % U32;
      assert U32 % bound < bound;
      if l < bound {
        var t := U32 % bound;
        while l < t
          invariant k <= n && state == StateAt(s0, inc, k + 1) && x == Draw(s0, inc, k)
          invariant m == x * bound && l == m % U32 && Valid() && inc == old(inc)
          decreases n - k
        {
          assert !Accepts(Draw(s0, inc, k), bound);
          StateAtSplit(s0, inc, k + 1, 1);
          DrawSplit(s0, inc, k + 1, 0);
          x := NextU32();
          k := k + 1;
          m := x * bound;
          l := m % U32;
        }
      }
      assert Accepts(Draw(s0, inc, k), bound);
      ScaledBound(x, bound);
      r := m / U32;
    }

    /** A draw from [lo, hi]; `lo` itself, without drawing, when the range is empty. */
    method Range(lo: int, hi: int) returns (v: int)
      requires Valid()
      requires -0x8000_0000 <= lo < 0x8000_0000 && -0x8000_0000 <= hi < 0x8000_0000
      modifies `state
      ensures Valid()
      ensures hi < lo ==> v == lo && state == old(state)
      ensures hi >= lo ==> lo <= v <= hi
      ensures lo <= hi && hi - lo + 1 < U32 ==>
                Drawn(v - lo, state) == DrawBelow(old(state), inc, hi - lo + 1)
      ensures lo <= hi && hi - lo + 1 == U32 ==>
                v - lo == Draw(old(state), inc, 0) && state == StateAt(old(state), inc, 1)
    {
      if hi < lo { return lo; }
      var span := hi - lo + 1;
      var r: nat;
      if span >= U32 {
        r := NextU32();
      } else {
        r := Below(span);
      }
      v := lo + r;
    }

    /** The top 16 bits of a draw. */
    method Fx16Unit() returns (v: int)
      requires Valid()
      modifies `state
      ensures Valid() && 0 <= v < 65536
      ensures v == Draw(old(state), inc, 0) / 0x1_0000 && state == StateAt(old(state), inc, 1)
    {
      var u := NextU32();
      v := u / 0x1_0000;
    }

    /** A draw from [lo, hi): the cap on the span never applies. */
    method Fx16Range(lo: int, hi: int) returns (v: int)
      requires Valid()
      requires -0x8000_0000 <= lo < 0x8000_0000 && -0x8000_0000 <= hi < 0x8000_0000
      modifies `state
      ensures Valid()
      ensures hi <= lo ==> v == lo && state == old(state)
      ensures lo < hi ==> lo <= v < hi && Drawn(v - lo, state) == DrawBelow(old(state), inc, hi - lo)
    {
      if hi <= lo { return lo; }
      var span := hi - lo;
      if span > U32 - 1 { span := U32 - 1; }
      var r := Below(span);
      v := lo + r;
    }

    /** True with probability p / 65536; certain outcomes draw nothing. */
    method Chance(p: int) returns (hit: bool)
      requires Valid()
      modifies `state
      ensures Valid()
      ensures p <= 0 ==> !hit && state == old(state)
      ensures p >= 65536 ==> hit && state == old(state)
      ensures 0 < p < 65536 ==>
                hit == (Draw(old(state), inc, 0) < p * 0x1_0000) && state == StateAt(old(state), inc, 1)
    {
      if p <= 0 { return false; }
      if p >= FX16_ONE { return true; }
      var u := Fx16Unit();
      hit := u < p;
    }

    /** Fisher-Yates on n elements of `stride` bytes, in place. */
    method ShuffleBytes(bytes: array<Byte>, n: nat, stride: nat)
      requires Valid() && Spans(bytes.Length, n, stride)
      modifies this, bytes
      ensures Valid() && inc == old(inc)
      ensures n >= 2 && stride > 256 ==>
                info == BadStride && state == old(state) && bytes[..] == old(bytes[..])
      ensures n < 2 || stride <= 256 ==>
                && info == old(info) && state == ShuffleState(old(state), inc, n)
                && Elements(bytes[..], stride, n)
                   == Shuffled(old(Elements(bytes[..], stride, n)), ShuffleDraws(old(state), inc, n))
    {
      if n < 2 { return; }
      if stride > MAX_STRIDE {
        info := BadStride;
        return;
      }
      SettleAll(bytes, n, stride);
    }

    /** The shuffle's loop: position i receives its final element, for i from n - 1 down to 1. */
    method SettleAll(bytes: array<Byte>, n: nat, stride: nat)
      requires Valid() && Spans(bytes.Length, n, stride) && n > 0 && stride <= MAX_STRIDE
      modifies `state, bytes
      ensures Valid() && state == ShuffleState(old(state), inc, n)
      ensures Elements(bytes[..], stride, n)
              == Shuffled(old(Elements(bytes[..], stride, n)), ShuffleDraws(old(state), inc, n))
    {
      hide Spans, Shuffled, Elements, ShuffleDraws, ShuffleState, IsState, IsInc;
      var tmp := new Byte[MAX_STRIDE](_ => 0);
      ghost var es := Elements(bytes[..], stride, n);
      ghost var goal := Shuffled(es, ShuffleDraws(state, inc, n));
      ghost var goalState := ShuffleState(state, inc, n);
      var i := n - 1;
      assert es[..i + 1] == es && goal + es[i + 1..] == goal;
      while i > 0
        invariant i < n && Valid() && inc == old(inc)
        invariant es == Elements(bytes[..], stride, n)
        invariant Shuffled(es[..i + 1], ShuffleDraws(state, inc, i + 1)) + es[i + 1..] == goal
        invariant ShuffleState(state, inc, i + 1) == goalState
      {
        SettleOne(bytes, tmp, i, n, stride);
        es := Elements(bytes[..], stride, n);
        i := i - 1;
      }
      ShuffledShort(es[..1], ShuffleDraws(state, inc, 1));
      assert es == es[..1] + es[1..];
      assert ShuffleState(state, inc, 1) == state by { ShortState(state, inc); }
    }

    /** One pass of the loop leaves the outcome of the whole shuffle unchanged. */
    method SettleOne(bytes: array<Byte>, tmp: array<Byte>, i: nat, n: nat, stride: nat)
      requires Valid() && Spans(bytes.Length, n, stride) && 0 < i < n
      requires stride <= tmp.Length && tmp != bytes
      modifies `state, bytes, tmp
      ensures Valid()
      ensures var es, es' := old(Elements(bytes[..], stride, n)), Elements(bytes[..], stride, n);
              Shuffled(es[..i + 1], ShuffleDraws(old(state), inc, i + 1)) + es[i + 1..]
              == Shuffled(es'[..i], ShuffleDraws(state, inc, i)) + es'[i..]
      ensures ShuffleState(old(state), inc, i + 1) == ShuffleState(state, inc, i)
    {
      hide Spans, Shuffled, Elements, Swap, ShuffleDraws, ShuffleState, DrawBelow;
      ghost var es, js := Elements(bytes[..], stride, n), ShuffleDraws(state, inc, i + 1);
      DrawsStep(state, inc, i + 1);
      var j := Below((i + 1) % U32);
      if j != i {
        SwapElements(bytes, tmp, i, j, n, stride);
      }
      PrefixStep(es, Elements(bytes[..], stride, n), i, js);
      assert js[1..] == ShuffleDraws(state, inc, i);
    }
  }

  /* Draws from a range */

  /** The 32-bit draws that give v in [lo, hi]; the full span takes every draw as it is. */
  ghost function RangeDraws(lo: int, hi: int, v: int): set<int>
    requires lo <= hi
  {
    var span := hi - lo + 1;
    set x: int | 0 <= x < U32 && Taken(x, span) && lo + Offset(x, span) == v
  }

  ghost predicate Taken(x: nat, span: nat)
    requires span > 0
  {
    span == U32 || Accepts(x, span)
  }

  ghost function Offset(x: nat, span: nat): int { if span == U32 then x else Scaled(x, span) }

  /** Every value in [lo, hi] comes from floor(2^32 / span) draws, and over a whole period of the
      generator equally often; the full span of 2^32 values included. */
  lemma RangeUniform(state: nat, inc: nat, lo: int, hi: int, v: int)
    requires IsState(state) && IsInc(inc) && lo <= v <= hi && hi - lo + 1 <= U32
    ensures |RangeDraws(lo, hi, v)| == U32 / (hi - lo + 1)
    ensures |DrawsIn(state, inc, RangeDraws(lo, hi, v))| == U32 / (hi - lo + 1) * U32
  {
    hide DrawsIn, AcceptedFor;
    var span := hi - lo + 1;
    if span == U32 {
      assert RangeDraws(lo, hi, v) == {v - lo};
      DrawCount(state, inc, v - lo);
    } else {
      assert RangeDraws(lo, hi, v) == AcceptedFor(span, v - lo) by { RangeIsBounded(lo, hi, v); }
      AcceptedCount(span, v - lo);
      BoundedUniform(state, inc, span, v - lo);
    }
  }

  lemma RangeIsBounded(lo: int, hi: int, v: int)
    requires lo <= v <= hi && hi - lo + 1 < U32
    ensures RangeDraws(lo, hi, v) == AcceptedFor(hi - lo + 1, v - lo)
  {
  }

  /** A draw that no value of the range comes from. */
  ghost predicate Passed(lo: int, hi: int, x: int)
    requires lo <= hi
  {
    forall v :: lo <= v <= hi ==> x !in RangeDraws(lo, hi, v)
  }

  /** What Range returns comes from the first draw that any value of the range comes from. */
  lemma RangeTakesFirst(state: nat, inc: nat, lo: int, hi: int, v: int, state': nat)
    requires IsState(state) && IsInc(inc) && lo <= hi && hi - lo + 1 <= U32
    requires hi - lo + 1 < U32 ==> v >= lo && Drawn(v - lo, state') == DrawBelow(state, inc, hi - lo + 1)
    requires hi - lo + 1 == U32 ==> v - lo == Draw(state, inc, 0) && state' == StateAt(state, inc, 1)
    ensures exists n: nat :: state' == StateAt(state, inc, n + 1) && Draw(state, inc, n) in RangeDraws(lo, hi, v)
                             && forall k: nat :: k < n ==> Passed(lo, hi, Draw(state, inc, k))
  {
    hide Draw, StateAt;
    var span := hi - lo + 1;
    if span == U32 {
      assert Draw(state, inc, 0) in RangeDraws(lo, hi, v);
    } else {
      var n := Rejections(state, inc, span);
      assert Draw(state, inc, n) in RangeDraws(lo, hi, v);
      forall k: nat | k < n ensures Passed(lo, hi, Draw(state, inc, k)) {
        assert !Accepts(Draw(state, inc, k), span);
      }
    }
  }

  lemma OddIncrement(stream: nat)
    ensures var i := stream * 2 % U64; Or(i, 1) == i + 1 && i == 2 * stream % U64 && IsInc(i + 1)
  {
    hide Or;
    var i := stream * 2 % U64;
    EvenWord(stream);
    OrOne(i);
  }

  lemma EvenWord(x: nat)
    ensures x * 2 % U64 % 2 == 0 && x * 2 % U64 < U64 - 1
  {
    var q, r := x / 0x8000_0000_0000_0000, x % 0x8000_0000_0000_0000;
    DivUnique(x * 2, U64, q, 2 * r);
  }

  lemma ShortState(state: nat, inc: nat)
    requires IsState(state) && IsInc(inc)
    ensures ShuffleState(state, inc, 1) == state
  {
  }

  /** Three memory copies exchange two elements and leave the others alone. */
  method SwapElements(bytes: array<Byte>, tmp: array<Byte>, i: nat, j: nat, n: nat, stride: nat)
    requires Spans(bytes.Length, n, stride) && j < i < n && stride <= tmp.Length && tmp != bytes
    modifies bytes, tmp
    ensures Elements(bytes[..], stride, n) == Swap(old(Elements(bytes[..], stride, n)), i, j)
  {
    hide Spans, Elements, Overwrite;
    SwapBytes(bytes[..], stride, n, i, j);
    SwapRanges(bytes, tmp, i * stride, j * stride, stride);
  }

  method SwapRanges(bytes: array<Byte>, tmp: array<Byte>, pi: nat, pj: nat, n: nat)
    requires pj + n <= pi && pi + n <= bytes.Length && n <= tmp.Length && tmp != bytes
    modifies bytes, tmp
    ensures var was := old(bytes[..]);
            bytes[..] == Overwrite(Overwrite(was, pi, was[pj..pj + n]), pj, was[pi..pi + n])
  {
    hide Overwrite;
    ghost var was, held := bytes[..], tmp[..];
    Copy(tmp, 0, bytes, pi, n);
    SliceUpdate(held, 0, was[pi..pi + n], 0);
    Copy(bytes, pi, bytes, pj, n);
    Copy(bytes, pj, tmp, 0, n);
  }

  lemma DrawsStep(state: nat, inc: nat, n: nat)
    requires IsState(state) && IsInc(inc) && n >= 2
    ensures var d := DrawBelow(state, inc, n % U32);
            && d.value < n
            && ShuffleDraws(state, inc, n) == [d.value] + ShuffleDraws(d.state, inc, n - 1)
            && ShuffleState(state, inc, n) == ShuffleState(d.state, inc, n - 1)
  {
    hide DrawBelow, ValidDraws, IsState, IsInc;
  }

  /** Where the draws of a shuffle come from: `at[k]` numbers are drawn before its k-th one, which is the
      first of those after them that any value from 0 to n - 1 - k comes from. Only where n - k is a
      multiple of 2^32 is the bound cast to zero and nothing drawn. */
  ghost predicate FirstOf(state: nat, inc: nat, from: nat, to: nat, bound: nat, j: nat)
    requires IsState(state)
  {
    if bound % U32 == 0 then to == from && j == 0
    else
      && from < to && Draw(state, inc, to - 1) in RangeDraws(0, bound % U32 - 1, j)
      && (forall m :: from <= m < to - 1 ==> Passed(0, bound % U32 - 1, Draw(state, inc, m)))
  }

  lemma BelowIsFirst(state: nat, inc: nat, from: nat, bound: nat) returns (to: nat)
    requires IsState(state) && IsInc(inc)
    ensures var d := DrawBelow(StateAt(state, inc, from), inc, bound % U32);
            d.state == StateAt(state, inc, to) && FirstOf(state, inc, from, to, bound, d.value)
  {
    hide Draw, StateAt, RangeDraws, Passed, DrawBelow;
    var here, b := StateAt(state, inc, from), bound % U32;
    if b == 0 {
      assert DrawBelow(here, inc, 0) == Drawn(0, here);
      to := from;
    } else {
      var d := DrawBelow(here, inc, b);
      RangeTakesFirst(here, inc, 0, b - 1, d.value, d.state);
      var n: nat :| d.state == StateAt(here, inc, n + 1) && Draw(here, inc, n) in RangeDraws(0, b - 1, d.value)
                    && forall k: nat :: k < n ==> Passed(0, b - 1, Draw(here, inc, k));
      to := from + n + 1;
      StateAtSplit(state, inc, from, n + 1);
      DrawSplit(state, inc, from, n);
      forall m | from <= m < to - 1 ensures Passed(0, b - 1, Draw(state, inc, m)) {
        DrawSplit(state, inc, from, m - from);
        assert Passed(0, b - 1, Draw(here, inc, m - from));
      }
    }
  }

  /** Each exchange of a shuffle is drawn from all positions up to the one that it settles. */
  lemma {:induction false} ShuffleTakesFirst(state: nat, inc: nat, from: nat, n: nat) returns (at: seq<nat>)
    requires IsState(state) && IsInc(inc)
    ensures var js := ShuffleDraws(StateAt(state, inc, from), inc, n);
            && |at| == |js| + 1 && at[0] == from
            && ShuffleState(StateAt(state, inc, from), inc, n) == StateAt(state, inc, at[|js|])
            && forall k :: 0 <= k < |js| ==> FirstOf(state, inc, at[k], at[k + 1], n - k, js[k])
    decreases n
  {
    hide Draw, StateAt, FirstOf, DrawBelow;
    at := [from];
    if n >= 2 {
      hide ShuffleDraws, ShuffleState;
      var here := StateAt(state, inc, from);
      var to := BelowIsFirst(state, inc, from, n);
      DrawsStep(here, inc, n);
      var rest := ShuffleTakesFirst(state, inc, to, n - 1);
      at := [from] + rest;
    }
  }

  lemma LastSettled<T>(s: seq<T>, js: seq<nat>)
    requires |s| > 1 && ValidDraws(js, |s|)
    ensures var n := |s| - 1;
            ValidDraws(js[1..], n) && Shuffled(s, js) == Shuffled(Swap(s, n, js[0])[..n], js[1..]) + [Swap(s, n, js[0])[n]]
  {
    hide Swap;
  }

  lemma PrefixStep<T>(es: seq<T>, es': seq<T>, i: nat, js: seq<nat>)
    requires 0 < i < |es| && ValidDraws(js, i + 1)
    requires es' == if js[0] == i then es else Swap(es, i, js[0])
    ensures ValidDraws(js[1..], i)
    ensures Shuffled(es[..i + 1], js) + es[i + 1..] == Shuffled(es'[..i], js[1..]) + es'[i..]
  {
    hide Shuffled;
    var p, j := es[..i + 1], js[0];
    LastSettled(p, js);
    assert Swap(p, i, j) == es'[..i + 1];
    assert Swap(p, i, j)[..i] == es'[..i];
    assert es'[i..] == [es'[i]] + es[i + 1..];
  }

  /** Different seeds of one stream start in different states. */
  lemma SeedsDiffer(inc: nat, a: nat, b: nat)
    requires IsInc(inc) && a < U64 && b < U64
    requires Step((Step(0, inc) + a) % U64, inc) == Step((Step(0, inc) + b) % U64, inc)
    ensures a == b
  {
    var x, y := (Step(0, inc) + a) % U64, (Step(0, inc) + b) % U64;
    StateRepeatsOnce(x, y, inc);
  }

  /** One step is injective on states. */
  lemma StateRepeatsOnce(x: nat, y: nat, inc: nat)
    requires IsState(x) && IsState(y) && IsInc(inc) && Step(x, inc) == Step(y, inc)
    ensures x == y
  {
    var n := StateReached(x, inc, y);
    StateAtSplit(x, inc, 1, n);
    StateAtSplit(x, inc, n, 1);
    assert StateAt(x, inc, 1) == Step(x, inc) && StateAt(y, inc, 1) == Step(y, inc);
    StateRepeats(x, inc, n + 1, 1);
    StateRepeats(x, inc, n, 0);
    ModStep(n);
  }

  lemma ModStep(n: nat)
    requires (n + 1) % U64 == 1 % U64
    ensures n % U64 == 0
  {
  }
}
