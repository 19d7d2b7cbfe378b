/**
 Digit-by-digit square roots (cbase_fixed.c): the 16.16 loop, the 32.32 loop on 128-bit
 integers, and its copy on pairs of 64-bit words.
 */
module SquareRoot {
  import opened Bits

  /** The digit loop: n is the remainder, res the scaled root so far, bit a power of four. */
  ghost function DigitLoop(n: nat, res: nat, bit: nat): nat
    decreases bit
  {
    if bit == 0 then res
    else if n >= res + bit then DigitLoop(n - (res + bit), res / 2 + bit, bit / 4)
    else DigitLoop(n, res / 2, bit / 4)
  }

  ghost function Shrink(bit: nat, n: nat): (b: nat)
    ensures b <= bit && b <= n
  {
    if bit > n then Shrink(bit / 4, n) else bit
  }

  ghost function Root(n: nat, top: nat): nat { DigitLoop(n, 0, Shrink(top, n)) }

  ghost predicate IsRoot(r: nat, n: nat) { r * r <= n < (r + 1) * (r + 1) }

  lemma SquareOfSum(a: int, b: int)
    ensures (a + b) * (a + b) == a * a + 2 * a * b + b * b
  {
    MulDist(a, b, a + b);
    MulDist(a, b, a);
    MulDist(a, b, b);
    MulAssoc(2, a, b);
  }

  /** What the loop's shifts and sums come to when the digit weight d is halved. */
  lemma HalfDigit(r: nat, d: nat, h: nat)
    requires d == 2 * h
    ensures d * d / 4 == h * h && 2 * r * d / 2 == 2 * r * h && 2 * r * d / 2 + d * d == 2 * (r + d) * h
  {
    MulAssoc(2, h, 2 * h);
    MulAssoc(h, 2, h);
    assert d * d / 4 == h * h;
    MulAssoc(2 * r, 2, h);
    MulAssoc(2, 2 * r, h);
    assert 2 * r * d == 2 * (2 * r * h);
    MulDist(2 * r, 2 * d, h);
    MulAssoc(2, d, h);
    MulAssoc(d, 2, h);
  }

  /** With d = 2^k still to decide, res = 2*r*d and the remainder is n - r^2. */
  lemma {:induction false} DigitLoopRoot(total: nat, r: nat, k: nat)
    requires r * r <= total < (r + 2 * Pow2(k)) * (r + 2 * Pow2(k))
    ensures IsRoot(DigitLoop(total - r * r, 2 * r * Pow2(k), Pow2(k) * Pow2(k)), total)
    decreases k
  {
    var d := Pow2(k);
    SquareOfSum(r, d);
    MulLe(1, d, d);
    MulLe(0, r, d);
    MulAssoc(2, r, d);
    if k == 0 {
      assert d == 1;
    } else {
      var h := Pow2(k - 1);
      HalfDigit(r, d, h);
      if total >= (r + d) * (r + d) {
        DigitLoopRoot(total, r + d, k - 1);
      } else {
        DigitLoopRoot(total, r, k - 1);
      }
    }
  }

  lemma {:induction false} ShrinkFits(n: nat, k: nat) returns (j: nat)
    requires 0 < n < 4 * (Pow2(k) * Pow2(k))
    ensures Shrink(Pow2(k) * Pow2(k), n) == Pow2(j) * Pow2(j)
    ensures n < 4 * (Pow2(j) * Pow2(j))
  {
    MulLe(1, Pow2(k), Pow2(k));
    if Pow2(k) * Pow2(k) > n {
      var h := Pow2(k - 1);
      MulAssoc(2, h, 2 * h);
      MulAssoc(h, 2, h);
      assert Pow2(k) * Pow2(k) / 4 == h * h;
      j := ShrinkFits(n, k - 1);
    } else {
      j := k;
    }
  }

  /** The loop returns the integer square root of every n below four times the starting bit. */
  lemma RootExact(n: nat, k: nat)
    requires 0 < n < 4 * (Pow2(k) * Pow2(k))
    ensures IsRoot(Root(n, Pow2(k) * Pow2(k)), n)
  {
    var j := ShrinkFits(n, k);
    var p := Pow2(j);
    SquareOfSum(p, p);
    MulAssoc(2, p, p);
    assert 2 * 0 * p == 0;
    DigitLoopRoot(n, 0, j);
  }

  lemma RootUnique(r: nat, s: nat, n: nat)
    requires IsRoot(r, n) && IsRoot(s, n)
    ensures r == s
  {
    if r < s {
      MulLe(r + 1, s, s);
      MulLe(r + 1, s, r + 1);
    } else if s < r {
      MulLe(s + 1, r, r);
      MulLe(s + 1, r, s + 1);
    }
  }

  lemma RootBound(r: nat, n: nat, b: nat)
    requires r * r <= n < b * b
    ensures r < b
  {
    if r >= b {
      MulLe(b, r, b);
      MulLe(b, r, r);
    }
  }

  /** cb_fx16_sqrt: the exact integer square root of v * 2^16. */
  method Fx16Sqrt(v: int) returns (r: int)
    requires -0x8000_0000 <= v < 0x8000_0000
    ensures v <= 0 ==> r == 0
    ensures v > 0 ==> r >= 0 && IsRoot(r, v * 0x1_0000)
    ensures 0 <= r < 0x100_0000
  {
    if v <= 0 { return 0; }
    var n: nat := v * 0x1_0000;
    ghost var total := n;
    var res: nat := 0;
    var bit: nat := 0x4000_0000_0000;
    ghost var top: nat := bit;
    Root16(total);
    while bit > n
      invariant Shrink(bit, total) == Shrink(top, total) && n == total
      decreases bit
    {
      bit := bit / 4;
    }
    while bit != 0
      invariant DigitLoop(n, res, bit) == Root(total, top)
      decreases bit
    {
      if n >= res + bit {
        n := n - (res + bit);
        res := res / 2 + bit;
      } else {
        res := res / 2;
      }
      bit := bit / 4;
    }
    r := res;
  }

  lemma Root16(n: nat)
    requires 0 < n < 0x1_0000_0000_0000
    ensures IsRoot(Root(n, 0x4000_0000_0000), n) && Root(n, 0x4000_0000_0000) < 0x100_0000
  {
    Pow2Values();
    RootExact(n, 23);
    RootBound(Root(n, 0x4000_0000_0000), n, 0x100_0000);
  }

  lemma Root32(n: nat)
    requires 0 < n < U32 * U64
    ensures IsRoot(Root(n, 0x4000_0000 * U64), n) && Root(n, 0x4000_0000 * U64) < 0x1_0000_0000_0000
  {
    Pow2Values();
    assert Pow2(47) * Pow2(47) == 0x4000_0000 * U64;
    RootExact(n, 47);
    RootBound(Root(n, 0x4000_0000 * U64), n, 0x1_0000_0000_0000);
  }

  /** cb_fx32_sqrt with 128-bit integers. */
  method Fx32Sqrt(v: int) returns (r: int)
    requires -0x8000_0000_0000_0000 <= v < 0x8000_0000_0000_0000
    ensures v <= 0 ==> r == 0
    ensures v > 0 ==> r >= 0 && IsRoot(r, v * U32) && r == Root(v * U32, 0x4000_0000 * U64)
    ensures 0 <= r < 0x1_0000_0000_0000
  {
    if v <= 0 { return 0; }
    var n: nat := v * U32;
    ghost var total := n;
    var res: nat := 0;
    var bit: nat := 0x4000_0000 * U64;
    ghost var top: nat := bit;
    Root32(total);
    while bit > n
      invariant Shrink(bit, total) == Shrink(top, total) && n == total
      decreases bit
    {
      bit := bit / 4;
    }
    while bit != 0
      invariant DigitLoop(n, res, bit) == Root(total, top)
      decreases bit
    {
      if n >= res + bit {
        n := n - (res + bit);
        res := res / 2 + bit;
      } else {
        res := res / 2;
      }
      bit := bit / 4;
    }
    r := res;
  }

  /* The same loop on pairs of 64-bit words */

  function Pair(hi: nat, lo: nat): nat { hi * U64 + lo }

  /** Right shift of a pair by k bits: `(lo >> k) | (hi << (64 - k))` and `hi >> k`. */
  function ShrLo(hi: nat, lo: nat, k: nat): nat
    requires k <= 64
  {
    Or(Shr(lo, k), hi * Pow2(64 - k) % U64)
  }

  /** The bits a right shift carries from the high word into the low one. */
  lemma CarriedBits(hi: nat, lo: nat)
    requires lo < U64
    ensures hi * 0x8000_0000_0000_0000 % U64 == hi % 2 * 0x8000_0000_0000_0000
    ensures hi * 0x4000_0000_0000_0000 % U64 == hi % 4 * 0x4000_0000_0000_0000
    ensures Pair(hi, lo) / 2 == hi / 2 * U64 + (lo / 2 + hi % 2 * 0x8000_0000_0000_0000)
    ensures Pair(hi, lo) / 4 == hi / 4 * U64 + (lo / 4 + hi % 4 * 0x4000_0000_0000_0000)
  {
    DivUnique(hi * 0x8000_0000_0000_0000, U64, hi / 2, hi % 2 * 0x8000_0000_0000_0000);
    DivUnique(hi * 0x4000_0000_0000_0000, U64, hi / 4, hi % 4 * 0x4000_0000_0000_0000);
    DivUnique(Pair(hi, lo), 2, hi / 2 * U64 + (lo / 2 + hi % 2 * 0x8000_0000_0000_0000), lo % 2);
    DivUnique(Pair(hi, lo), 4, hi / 4 * U64 + (lo / 4 + hi % 4 * 0x4000_0000_0000_0000), lo % 4);
  }

  lemma ShrPair1(hi: nat, lo: nat)
    requires lo < U64
    ensures ShrLo(hi, lo, 1) < U64
    ensures Pair(Shr(hi, 1), ShrLo(hi, lo, 1)) == Pair(hi, lo) / 2 && Shr(hi, 1) == hi / 2
  {
    hide Shr, Or, Pow2;
    CarriedBits(hi, lo);
    ShrSmall(lo);
    ShrSmall(hi);
    assert Pow2(63) == 0x8000_0000_0000_0000 by { Pow2Values(); }
    DivExact(hi % 2, Pow2(63));
    OrDisjoint(lo / 2, hi % 2 * Pow2(63), 63);
  }

  lemma ShrPair2(hi: nat, lo: nat)
    requires lo < U64
    ensures ShrLo(hi, lo, 2) < U64
    ensures Pair(Shr(hi, 2), ShrLo(hi, lo, 2)) == Pair(hi, lo) / 4 && Shr(hi, 2) == hi / 4
  {
    hide Shr, Or, Pow2;
    CarriedBits(hi, lo);
    ShrSmall(lo);
    ShrSmall(hi);
    assert Pow2(62) == 0x4000_0000_0000_0000 by { Pow2Values(); }
    DivExact(hi % 4, Pow2(62));
    OrDisjoint(lo / 4, hi % 4 * Pow2(62), 62);
  }

  datatype Words = Words(hi: nat, lo: nat)

  ghost function Value(w: Words): nat { Pair(w.hi, w.lo) }

  ghost predicate Below(w: Words, high: nat) { w.lo < U64 && w.hi < high }

  /** The carry of a 64-bit addition shows as a wrapped result. */
  function AddWords(a: Words, b: Words): (c: Words)
    requires Below(a, U64) && Below(b, U64) && a.hi + b.hi + 1 < U64
    ensures Below(c, a.hi + b.hi + 2) && Value(c) == Value(a) + Value(b)
  {
    var lo := (a.lo + b.lo) % U64;
    var carry := if lo < a.lo then 1 else 0;
    Words((a.hi + b.hi + carry) % U64, lo)
  }

  function SubWords(a: Words, b: Words): (c: Words)
    requires Below(a, U64) && Below(b, U64) && Value(b) <= Value(a)
    ensures Below(c, U64) && Value(c) == Value(a) - Value(b)
  {
    var lo := (a.lo - b.lo) % U64;
    var borrow := if a.lo < b.lo then 1 else 0;
    Words((a.hi - b.hi - borrow) % U64, lo)
  }

  predicate Less(a: Words, b: Words)
    requires Below(a, U64) && Below(b, U64)
    ensures Less(a, b) <==> Value(a) < Value(b)
  {
    b.hi > a.hi || (b.hi == a.hi && b.lo > a.lo)
  }

  function Half(w: Words): (h: Words)
    requires Below(w, U64)
    ensures Below(h, U64) && h.hi == w.hi / 2 && Value(h) == Value(w) / 2
  {
    ShrPair1(w.hi, w.lo);
    Words(Shr(w.hi, 1), ShrLo(w.hi, w.lo, 1))
  }

  function Quarter(w: Words): (q: Words)
    requires Below(w, U64)
    ensures Below(q, U64) && q.hi == w.hi / 4 && Value(q) == Value(w) / 4
  {
    ShrPair2(w.hi, w.lo);
    Words(Shr(w.hi, 2), ShrLo(w.hi, w.lo, 2))
  }

  /** cb_fx32_sqrt on two 64-bit words: it goes through the states of the 128-bit loop. */
  method Fx32SqrtPairs(v: int) returns (r: int)
    requires -0x8000_0000_0000_0000 <= v < 0x8000_0000_0000_0000
    ensures v <= 0 ==> r == 0
    ensures v > 0 ==> r >= 0 && IsRoot(r, v * U32) && r == Root(v * U32, 0x4000_0000 * U64)
  {
    if v <= 0 { return 0; }
    hide Root, IsRoot, DigitLoop, Shrink, Value;
    ghost var total: nat, top: nat := v * U32, 0x4000_0000 * U64;
    var n := Words(v / U32, v * U32 % U64);
    var res := Words(0, 0);
    assert Value(n) == total by { StartWords(v); }
    var bit := TopDigit(n);
    RootStart(Value(bit), top, total);
    Root32(total);
    assert Value(res) == 0 by { ZeroWords(); }
    res := PairDigits(n, res, bit);
    LowWord(res);
    r := res.lo;
  }

  lemma StartWords(v: nat)
    requires v < 0x8000_0000_0000_0000
    ensures Value(Words(v / U32, v * U32 % U64)) == v * U32
  {
    DivUnique(v * U32, U64, v / U32, v % U32 * U32);
  }

  lemma LowWord(w: Words)
    requires w.lo < U64 && Value(w) < U64
    ensures Value(w) == w.lo
  {
    if w.hi > 0 { MulLe(1, w.hi, U64); }
  }

  lemma ZeroWords()
    ensures Value(Words(0, 0)) == 0
  {
  }

  /** The first loop: the starting bit moves down until it is not above n. */
  method TopDigit(n: Words) returns (bit: Words)
    requires Below(n, U64)
    ensures Below(bit, 0x8000_0000)
    ensures Shrink(Value(bit), Value(n)) == Shrink(0x4000_0000 * U64, Value(n)) && Value(bit) <= Value(n)
  {
    hide Less, Quarter, Shrink;
    bit := Words(0x4000_0000, 0);
    assert Value(bit) == 0x4000_0000 * U64;
    while Less(n, bit)
      invariant Below(bit, 0x8000_0000) && Shrink(Value(bit), Value(n)) == Shrink(0x4000_0000 * U64, Value(n))
      decreases Value(bit)
    {
      ShrinkStep(Value(bit), Value(n));
      bit := Quarter(bit);
    }
  }

  /** The digit loop of the word-pair version. */
  method PairDigits(n0: Words, res0: Words, bit0: Words) returns (res: Words)
    requires Below(n0, U64) && Below(res0, U32) && Below(bit0, 0x8000_0000)
    ensures res.lo < U64 && Value(res) == DigitLoop(Value(n0), Value(res0), Value(bit0))
  {
    hide AddWords, SubWords, Less, Half, Quarter, DigitLoop;
    res := res0;
    var n, bit := n0, bit0;
    while bit.hi != 0 || bit.lo != 0
      invariant Below(n, U64) && Below(res, U32) && Below(bit, 0x8000_0000)
      invariant DigitLoop(Value(n), Value(res), Value(bit)) == DigitLoop(Value(n0), Value(res0), Value(bit0))
      decreases Value(bit)
    {
      DigitStep(Value(n), Value(res), Value(bit));
      var cand := AddWords(res, bit);
      if !Less(n, cand) {
        n := SubWords(n, cand);
        res := AddWords(Half(res), bit);
      } else {
        res := Half(res);
      }
      bit := Quarter(bit);
    }
    DigitStep(Value(n), Value(res), 0);
  }

  lemma ShrinkStep(bit: nat, n: nat)
    requires bit > n
    ensures Shrink(bit, n) == Shrink(bit / 4, n)
  {
  }

  lemma RootStart(bit: nat, top: nat, n: nat)
    requires bit <= n && Shrink(bit, n) == Shrink(top, n)
    ensures Root(n, top) == DigitLoop(n, 0, bit)
  {
  }

  lemma DigitStep(n: nat, res: nat, bit: nat)
    ensures bit == 0 ==> DigitLoop(n, res, bit) == res
    ensures bit > 0 && n >= res + bit ==>
              DigitLoop(n, res, bit) == DigitLoop(n - (res + bit), res / 2 + bit, bit / 4)
    ensures bit > 0 && n < res + bit ==> DigitLoop(n, res, bit) == DigitLoop(n, res / 2, bit / 4)
  {
  }
}
