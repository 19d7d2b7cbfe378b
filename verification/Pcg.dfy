/**
 The PCG32 generator (cbase_random.c): the recurrence and the output permutation as
 functions of a 64-bit state, and what every run of draws looks like.
 */
module Pcg {
  import opened Bits
  import opened FiniteSets
  import Lcg

  const MULT: nat := 6364136223846793005

  ghost predicate IsState(state: int) { 0 <= state < U64 }
  ghost predicate IsInc(inc: int) { 0 <= inc < U64 && inc % 2 == 1 }

  /** One step of the 64-bit recurrence. */
  function Step(state: nat, inc: nat): (next: nat)
    ensures next < U64
  {
    (state * MULT + inc) % U64
  }

  /** The XSH-RR permutation: an xorshift of the high bits, rotated by the top five. */
  function Output(state: nat): (x: nat)
    requires state < U64
    ensures x < U32
  {
    var xs := Xor(state / 0x4_0000, state) / 0x800_0000 % U32;
    Rotr(xs, state / 0x800_0000_0000_0000)
  }

  /** Rotation of a 32-bit word to the right, written with two shifts. */
  function Rotr(x: nat, rot: nat): (y: nat)
    requires rot < 32
    ensures y < U32
  {
    Or(Shr(x, rot), x * Pow2((32 - rot) % 32)) % U32
  }

  ghost function StateAt(state: nat, inc: nat, n: nat): (s: nat)
    requires IsState(state)
    ensures IsState(s)
  {
    if n == 0 then state else Step(StateAt(state, inc, n - 1), inc)
  }

  /** The n-th value drawn from `state`. */
  ghost function Draw(state: nat, inc: nat, n: nat): (x: nat)
    requires IsState(state)
    ensures x < U32
  {
    Output(StateAt(state, inc, n))
  }

  lemma {:induction false} StateAtSplit(state: nat, inc: nat, m: nat, n: nat)
    requires IsState(state)
    ensures StateAt(state, inc, m + n) == StateAt(StateAt(state, inc, m), inc, n)
  {
    if n != 0 { StateAtSplit(state, inc, m, n - 1); }
  }

  lemma DrawSplit(state: nat, inc: nat, m: nat, n: nat)
    requires IsState(state)
    ensures Draw(state, inc, m + n) == Draw(StateAt(state, inc, m), inc, n)
  {
    hide Output, Step;
    StateAtSplit(state, inc, m, n);
  }

  /* Full period */

  lemma {:induction false} StateIsOrbit(state: nat, inc: nat, n: nat)
    requires IsState(state)
    ensures StateAt(state, inc, n) == Lcg.Orbit(MULT, inc, state, n) % U64
  {
    if n == 0 {
      DivSmall(state, U64);
    } else {
      StateIsOrbit(state, inc, n - 1);
      var o := Lcg.Orbit(MULT, inc, state, n - 1);
      ModMul(o, MULT, U64);
      ModSum((o % U64) * MULT, inc, U64);
      ModSum(o * MULT, inc, U64);
    }
  }

  lemma SameResidue(x: int, y: int)
    ensures Lcg.Divides(64, x - y) <==> x % U64 == y % U64
  {
    hide Lcg.Divides, Pow2;
    Pow2Values();
    Lcg.DividesIsMod(64, x - y);
    DifferenceMod(x, y);
  }

  lemma DifferenceMod(x: int, y: int)
    ensures (x - y) % U64 == 0 <==> x % U64 == y % U64
  {
    var d := x - y;
    ModSum(d, y, U64);
    DivMod(x, U64);
    DivMod(y, U64);
    if x % U64 == y % U64 { DivExact(x / U64 - y / U64, U64); }
  }

  ghost function OrbitAt(state: nat, inc: nat, n: nat): nat {
    Lcg.Orbit(MULT, inc, state, n)
  }

  lemma OrbitRepeats(state: nat, inc: nat, i: nat, d: nat)
    requires IsInc(inc)
    ensures OrbitAt(state, inc, i + d) % U64 == OrbitAt(state, inc, i) % U64 <==> d % U64 == 0
  {
    Lcg.OrbitMeets(MULT, inc, state, 64, i, d);
    SameResidue(OrbitAt(state, inc, i + d), OrbitAt(state, inc, i));
    SameResidue(d, 0);
  }

  /** The sequence of states repeats after exactly 2^64 steps, and not earlier. */
  lemma StateRepeats(state: nat, inc: nat, i: nat, j: nat)
    requires IsState(state) && IsInc(inc)
    ensures StateAt(state, inc, i) == StateAt(state, inc, j) <==> i % U64 == j % U64
  {
    var lo, hi := if i <= j then i else j, if i <= j then j else i;
    StateIsOrbit(state, inc, i);
    StateIsOrbit(state, inc, j);
    OrbitRepeats(state, inc, lo, hi - lo);
    SameResidue(hi, lo);
    SameResidue(hi - lo, 0);
  }

  /** From every state every other state is reached within one period. */
  lemma StateReached(state: nat, inc: nat, target: nat) returns (n: nat)
    requires IsState(state) && IsInc(inc) && IsState(target)
    ensures n < U64 && StateAt(state, inc, n) == target
  {
    Pow2Values();
    n := Lcg.OrbitReaches(MULT, inc, state, 64, target);
    StateIsOrbit(state, inc, n);
    SameResidue(Lcg.Orbit(MULT, inc, state, n), target);
    DivSmall(target, U64);
  }

  /* The output permutation */

  ghost function Mix(t: nat): nat { Xor(t / 0x4_0000, t) }

  ghost function Unmix(u: nat): nat { Xor(u, Xor(u / 0x4_0000, u / 0x10_0000_0000)) }

  lemma XorCancel(a: nat, b: nat)
    ensures Xor(Xor(a, b), a) == b && Xor(a, Xor(b, a)) == b && Xor(a, Xor(a, b)) == b
  {
    XorSymmetric(Xor(a, b), a);
    XorSymmetric(a, b);
    XorAssoc(a, a, b);
    XorSelf(a);
  }

  lemma XorShr18(a: nat, b: nat)
    ensures Xor(a, b) / 0x4_0000 == Xor(a / 0x4_0000, b / 0x4_0000)
    ensures Xor(a, b) / 0x10_0000_0000 == Xor(a / 0x10_0000_0000, b / 0x10_0000_0000)
  {
    Pow2Values();
    Pow2Add(18, 18);
    XorShr(a, b, 18);
    ShrIsDiv(a, 18);
    ShrIsDiv(b, 18);
    ShrIsDiv(Xor(a, b), 18);
    XorShr(a, b, 36);
    ShrIsDiv(a, 36);
    ShrIsDiv(b, 36);
    ShrIsDiv(Xor(a, b), 36);
  }

  /** The xorshift by 18 is a permutation of the 37-bit numbers. */
  lemma MixBijective(t: nat)
    requires t < 32 * U32
    ensures Unmix(Mix(t)) == t && Mix(Unmix(t)) == t
    ensures Mix(t) < 32 * U32 && Unmix(t) < 32 * U32
    ensures Mix(t) / U32 == t / U32
  {
    var t18, t36 := t / 0x4_0000, t / 0x10_0000_0000;
    assert t18 / 0x4_0000 == t36 && t18 / 0x10_0000_0000 == 0 && t36 / 0x4_0000 == 0;
    XorShr18(t18, t);
    XorCancel(t36, t18);
    assert Xor(0, t36) == t36;
    XorCancel(t18, t);
    XorShr18(t18, t36);
    XorShr18(t, Xor(t18, t36));
    XorCancel(Xor(t18, t36), t);
    Pow2Values();
    XorBound(t18, t, 37);
    XorBound(t18, t36, 37);
    XorBound(t, Xor(t18, t36), 37);
    XorShr(t18, t, 32);
    ShrIsDiv(t18, 32);
    ShrIsDiv(t, 32);
    ShrIsDiv(Mix(t), 32);
    assert t18 / U32 == 0;
  }

  /** Rotation to the left by `rot`, the inverse of the one in `Output`. */
  ghost function Rotl(y: nat, rot: nat): nat
    requires rot < 32
  {
    DivMod(y, Pow2(32 - rot));
    y % Pow2(32 - rot) * Pow2(rot) + Shr(y, 32 - rot)
  }

  /** Two-digit numbers with digit `hi` below `r` and digit `lo` below `p`. */
  lemma TwoDigits(hi: nat, lo: nat, r: nat, p: nat)
    requires hi < r && lo < p
    ensures 0 <= hi * p + lo < r * p
    ensures (hi * p + lo) / p == hi && (hi * p + lo) % p == lo
  {
    MulLe(hi + 1, r, p);
    MulDist(hi, 1, p);
    MulLe(0, hi, p);
    DivUnique(hi * p + lo, p, hi, lo);
  }

  lemma Digits(x: nat, r: nat, p: nat) returns (hi: nat, lo: nat)
    requires p > 0 && r > 0 && x < r * p
    ensures hi < r && lo < p && x == hi * p + lo && hi == x / p && lo == x % p
  {
    DivMod(x, p);
    var q := x / p;
    if q < 0 { MulLe(q, -1, p); }
    if q >= r { MulLe(r, q, p); }
    hi, lo := q, x % p;
  }

  lemma RotateWidth(rot: nat)
    requires rot < 32
    ensures Pow2(rot) * Pow2(32 - rot) == U32 == Pow2(32 - rot) * Pow2(rot)
  {
    hide Pow2;
    Pow2Values();
    Pow2Add(rot, 32 - rot);
    assert rot + (32 - rot) == 32;
  }

  /** The rotation exchanges the two digits of its argument. */
  lemma RotateRight(hi: nat, lo: nat, rot: nat)
    requires rot < 32 && hi < Pow2(32 - rot) && lo < Pow2(rot)
    ensures 0 <= hi * Pow2(rot) + lo < U32
    ensures var x := hi * Pow2(rot) + lo;
            Rotr(x, rot) == lo * Pow2(32 - rot) + hi
  {
    hide Rotr, Or, Shr;
    var p, r := Pow2(32 - rot), Pow2(rot);
    var x := hi * r + lo;
    RotateWidth(rot);
    TwoDigits(hi, lo, p, r);
    ShrIsDiv(x, rot);
    if rot == 0 {
      assert x == hi && lo == 0 && lo * p == 0;
      RotateNone(x);
    } else {
      RotateJoin(hi, lo, 32 - rot, r);
      RotateSome(x, rot);
    }
  }

  lemma RotateNone(x: nat)
    requires x < U32
    ensures Rotr(x, 0) == x
  {
    OrSelf(x);
    DivSmall(x, U32);
  }

  lemma RotateSome(x: nat, rot: nat)
    requires 0 < rot < 32 && 0 <= x * Pow2(32 - rot)
    ensures Rotr(x, rot) == Or(Shr(x, rot), x * Pow2(32 - rot)) % U32
  {
    hide Or, Shr;
    assert (32 - rot) % 32 == 32 - rot;
  }

  lemma RotateJoin(hi: nat, lo: nat, k: nat, r: nat)
    requires hi < Pow2(k) && lo < r && r * Pow2(k) == U32
    ensures 0 <= (hi * r + lo) * Pow2(k)
    ensures Or(hi, (hi * r + lo) * Pow2(k)) % U32 == lo * Pow2(k) + hi
  {
    var p := Pow2(k);
    var x := hi * r + lo;
    MulLe(0, hi, r);
    MulLe(0, x, p);
    DivExact(x, p);
    OrDisjoint(hi, x * p, k);
    MulDist(hi * r, lo, p);
    MulAssoc(hi, r, p);
    TwoDigits(lo, hi, r, p);
    ModAdd(lo * p + hi, hi, U32);
    DivSmall(lo * p + hi, U32);
  }

  lemma RotateBack(x: nat, y: nat, rot: nat)
    requires x < U32 && y < U32 && rot < 32
    ensures Rotr(x, rot) == y <==> x == Rotl(y, rot)
    ensures Rotl(y, rot) < U32
  {
    var p, r := Pow2(32 - rot), Pow2(rot);
    RotateWidth(rot);
    var hi, lo := Digits(x, p, r);
    RotateRight(hi, lo, rot);
    TwoDigits(lo, hi, r, p);
    var yh, yl := Digits(y, r, p);
    ShrIsDiv(y, 32 - rot);
    TwoDigits(yl, yh, p, r);
  }

  lemma OutputOfHigh(state: nat)
    requires IsState(state)
    ensures Output(state) == Rotr(Mix(state / 0x800_0000) % U32, state / 0x800_0000 / U32)
  {
    Pow2Values();
    XorShr(state / 0x4_0000, state, 27);
    ShrIsDiv(state / 0x4_0000, 27);
    ShrIsDiv(state, 27);
    ShrIsDiv(Xor(state / 0x4_0000, state), 27);
    assert state / 0x4_0000 / 0x800_0000 == state / 0x800_0000 / 0x4_0000;
    assert state / 0x800_0000 / U32 == state / 0x800_0000_0000_0000;
  }

  /** The 37 high bits that start with `rot` and yield `y`. */
  ghost function HighFor(rot: nat, y: nat): (t: nat)
    requires rot < 32 && y < U32
    ensures t < 32 * U32 && t / U32 == rot
    ensures Rotr(Mix(t) % U32, rot) == y
  {
    RotateBack(0, y, rot);
    RotateBack(Rotl(y, rot), y, rot);
    var u := rot * U32 + Rotl(y, rot);
    assert u / U32 == rot && u % U32 == Rotl(y, rot);
    MixBijective(u);
    MixBijective(Unmix(u));
    Unmix(u)
  }

  lemma HighDetermines(t: nat, y: nat)
    requires t < 32 * U32 && y < U32
    ensures Rotr(Mix(t) % U32, t / U32) == y <==> t == HighFor(t / U32, y)
  {
    hide Mix, Unmix, Rotr, Rotl, HighFor;
    var h := HighFor(t / U32, y);
    if Rotr(Mix(t) % U32, t / U32) == y {
      MixFrom(t, y);
      MixFrom(h, y);
      MixBijective(t);
      MixBijective(h);
    }
  }

  /** The rotation and the output give the mixed bits. */
  lemma MixFrom(t: nat, y: nat)
    requires t < 32 * U32 && y < U32 && Rotr(Mix(t) % U32, t / U32) == y
    ensures Mix(t) == t / U32 * U32 + Rotl(y, t / U32)
  {
    hide Mix, Rotr, Rotl;
    MixBijective(t);
    RotateBack(Mix(t) % U32, y, t / U32);
    DivMod(Mix(t), U32);
  }

  /** A state from its 37 high bits and its 27 low ones. */
  ghost function Joined(t: nat, low: nat): nat { t * 0x800_0000 + low }

  lemma HighState(t: nat, low: nat)
    requires t < 32 * U32 && low < 0x800_0000
    ensures var s := Joined(t, low);
            && IsState(s) && Output(s) == Rotr(Mix(t) % U32, t / U32)
            && s / 0x800_0000_0000_0000 == t / U32 && s % 0x800_0000 == low
  {
    hide Output, Rotr, Mix;
    var s := Joined(t, low);
    assert s / 0x800_0000 == t && s % 0x800_0000 == low;
    OutputOfHigh(s);
  }

  /** The state with top bits `rot` and low bits `low` whose output is `y`. */
  ghost function StateFor(rot: nat, low: nat, y: nat): (s: nat)
    requires rot < 32 && low < 0x800_0000 && y < U32
    ensures IsState(s) && Output(s) == y
    ensures s / 0x800_0000_0000_0000 == rot && s % 0x800_0000 == low
  {
    hide HighFor, Output, Rotr, Mix, Joined, IsState;
    var t := HighFor(rot, y);
    HighState(t, low);
    Joined(t, low)
  }

  /** Given the bits that select the rotation and the bits it discards, exactly one state yields y. */
  lemma OutputDetermines(state: nat, y: nat)
    requires IsState(state) && y < U32
    ensures Output(state) == y <==>
            state == StateFor(state / 0x800_0000_0000_0000, state % 0x800_0000, y)
  {
    var t := state / 0x800_0000;
    OutputOfHigh(state);
    HighDetermines(t, y);
    assert t / U32 == state / 0x800_0000_0000_0000;
    assert state == t * 0x800_0000 + state % 0x800_0000;
  }

  ghost function StatesYielding(y: nat): set<int> {
    set s: int | 0 <= s < U64 && Output(s) == y
  }

  ghost function NthStateFor(y: nat): int -> int
    requires y < U32
  {
    k => if 0 <= k < U32 then StateFor(k / 0x800_0000, k % 0x800_0000, y) else 0
  }

  ghost function StateIndex(): int -> int {
    s => s / 0x800_0000_0000_0000 * 0x800_0000 + s % 0x800_0000
  }

  lemma NthState(k: int, y: nat)
    requires k in Interval(0, U32) && y < U32
    ensures NthStateFor(y)(k) in StatesYielding(y) && StateIndex()(NthStateFor(y)(k)) == k
  {
    hide Output, StateFor, StateIndex, NthStateFor, StatesYielding, IsState;
    var hi, lo := IndexParts(k);
    var s := StateFor(hi, lo, y);
    NthIs(k, y);
    Yields(s, y);
    IndexIs(s, hi, lo);
  }

  lemma IndexParts(k: int) returns (hi: nat, lo: nat)
    requires 0 <= k < U32
    ensures hi < 32 && lo < 0x800_0000
    ensures hi == k / 0x800_0000 && lo == k % 0x800_0000 && k == hi * 0x800_0000 + lo
  {
    hi, lo := k / 0x800_0000, k % 0x800_0000;
  }

  lemma NthIs(k: int, y: nat)
    requires 0 <= k < U32 && y < U32
    ensures NthStateFor(y)(k) == StateFor(k / 0x800_0000, k % 0x800_0000, y)
  {
    hide StateFor;
  }

  lemma Yields(s: int, y: nat)
    requires IsState(s) && Output(s) == y
    ensures s in StatesYielding(y)
  {
    hide Output;
  }

  lemma IndexIs(s: int, hi: int, lo: int)
    requires s / 0x800_0000_0000_0000 == hi && s % 0x800_0000 == lo
    ensures StateIndex()(s) == hi * 0x800_0000 + lo
  {
  }

  lemma IndexOfState(s: int, y: nat)
    requires y < U32 && s in StatesYielding(y)
    ensures StateIndex()(s) in Interval(0, U32) && NthStateFor(y)(StateIndex()(s)) == s
  {
    hide Output, StateFor;
    OutputDetermines(s, y);
    var hi, lo := s / 0x800_0000_0000_0000, s % 0x800_0000;
    assert 0 <= hi < 32 && 0 <= lo < 0x800_0000;
    var k := hi * 0x800_0000 + lo;
    assert k / 0x800_0000 == hi && k % 0x800_0000 == lo;
    assert StateIndex()(s) == k;
  }

  lemma StatesFromIndices(y: nat)
    requires y < U32
    ensures Undoes(StateIndex(), NthStateFor(y), Interval(0, U32), StatesYielding(y))
  {
    hide StateIndex, NthStateFor, StatesYielding, Interval;
    var f, g, dom, img := NthStateFor(y), StateIndex(), Interval(0, U32), StatesYielding(y);
    forall k | k in dom ensures f(k) in img && g(f(k)) == k { NthState(k, y); }
  }

  lemma IndicesFromStates(y: nat)
    requires y < U32
    ensures Undoes(NthStateFor(y), StateIndex(), StatesYielding(y), Interval(0, U32))
  {
    hide StateIndex, NthStateFor, StatesYielding, Interval;
    var f, g, dom, img := NthStateFor(y), StateIndex(), Interval(0, U32), StatesYielding(y);
    forall s | s in img ensures g(s) in dom && f(g(s)) == s { IndexOfState(s, y); }
  }

  /** XSH-RR is balanced: every 32-bit value is the output of exactly 2^32 states. */
  lemma OutputBalanced(y: nat)
    requires y < U32
    ensures |StatesYielding(y)| == U32
  {
    StatesFromIndices(y);
    IndicesFromStates(y);
    BijectionCard(NthStateFor(y), StateIndex(), Interval(0, U32), StatesYielding(y));
  }
}
