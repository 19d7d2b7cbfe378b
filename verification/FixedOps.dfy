/**
 Saturating 32.32 arithmetic (cbase_fixed.c). Each operation has a branch on 128-bit
 integers and a portable branch on 64-bit words; this module says where they agree.
 */
module FixedOps {
  import opened Bits

  const MAX: int := 0x7FFF_FFFF_FFFF_FFFF
  const MIN: int := -0x8000_0000_0000_0000
  const I63: int := 0x8000_0000_0000_0000

  type Fx32 = x: int | -0x8000_0000_0000_0000 <= x < 0x8000_0000_0000_0000

  function Saturate(x: int): Fx32 {
    if x > MAX then MAX else if x < MIN then MIN else x
  }

  /** C's division truncates toward zero. */
  function Truncate(a: int, b: int): int
    requires b != 0
  {
    var q := Abs(a) / Abs(b);
    if (a < 0) != (b < 0) then -q else q
  }

  function Abs(x: int): nat { if x < 0 then -x else x }

  /** The quotient toward zero: its product comes within one divisor of the dividend from the side of zero. */
  lemma TruncateTowardZero(a: int, b: int)
    requires b != 0
    ensures var p := Truncate(a, b) * b;
            && Abs(p) <= Abs(a) < Abs(p) + Abs(b) && (a >= 0 ==> p >= 0) && (a <= 0 ==> p <= 0)
  {
    var q := Abs(a) / Abs(b);
    DivMod(Abs(a), Abs(b));
    NotNegative(Abs(a), Abs(b));
    MulLe(0, q, Abs(b));
    SignsOut(q, b);
  }

  lemma SignsOut(q: int, b: int)
    ensures -q * b == -(q * b) && q * -b == -(q * b) && -q * -b == q * b
  {
  }

  /* Conversions between int64_t and uint64_t */

  function Unsigned(x: int): (u: nat)
    ensures u < U64
  {
    x % U64
  }

  function Signed(u: nat): Fx32
    requires u < U64
  {
    if u < I63 then u else u - U64
  }

  /** The sign bit of a 64-bit word. */
  predicate Negative(u: nat) { u >= I63 }

  /** The sign bit is the 64th bit. */
  lemma SignBit(u: nat)
    requires u < U64
    ensures Shr(u, 63) == (if Negative(u) then 1 else 0)
  {
    Pow2Values();
    ShrIsDiv(u, 63);
  }

  lemma XorSign(u: nat, v: nat)
    requires u < U64 && v < U64
    ensures Xor(u, v) < U64
    ensures Negative(Xor(u, v)) <==> Negative(u) != Negative(v)
  {
    hide Shr;
    Pow2Values();
    XorBound(u, v, 64);
    XorShr(u, v, 63);
    SignBit(u);
    SignBit(v);
    SignBit(Xor(u, v));
  }

  lemma AndSign(u: nat, v: nat)
    requires u < U64 && v < U64
    ensures And(u, v) < U64
    ensures Negative(And(u, v)) <==> Negative(u) && Negative(v)
  {
    hide Shr;
    AndBound(u, v);
    AndShr(u, v, 63);
    SignBit(u);
    SignBit(v);
    SignBit(And(u, v));
  }

  lemma {:induction false} AndBound(u: nat, v: nat)
    ensures And(u, v) <= u
  {
    if u != 0 && v != 0 { AndBound(u / 2, v / 2); }
  }

  /** Reading a wrapped 64-bit value as signed. */
  lemma WrappedValue(x: int)
    requires 0 - U64 <= x < U64
    ensures Signed(x % U64) == if x > MAX then x - U64 else if x < MIN then x + U64 else x
  {
    DivUnique(x, U64, if x < 0 then -1 else 0, if x < 0 then x + U64 else x);
  }

  lemma UnsignedSign(a: Fx32)
    ensures Negative(Unsigned(a)) <==> a < 0
  {
    DivUnique(a, U64, if a < 0 then -1 else 0, if a < 0 then a + U64 else a);
  }

  /* Addition and subtraction */

  function AddWide(a: Fx32, b: Fx32): Fx32 { Saturate(a + b) }

  function AddPortable(a: Fx32, b: Fx32): Fx32 {
    var r := Signed((Unsigned(a) + Unsigned(b)) % U64);
    if Negative(And(Xor(Unsigned(a), Unsigned(r)), Xor(Unsigned(b), Unsigned(r))))
    then if a < 0 then MIN else MAX
    else r
  }

  lemma AddWraps(a: Fx32, b: Fx32)
    ensures (Unsigned(a) + Unsigned(b)) % U64 == (a + b) % U64
  {
    ModAdd(Unsigned(a) + Unsigned(b), a / U64 + b / U64, U64);
  }

  /** The wrapped sum and its sign tests give the saturated exact sum. */
  lemma AddAgrees(a: Fx32, b: Fx32)
    ensures AddPortable(a, b) == AddWide(a, b)
  {
    hide And, Xor, Unsigned, Signed, Negative;
    var r := Signed((Unsigned(a) + Unsigned(b)) % U64);
    AddWraps(a, b);
    WrappedValue(a + b);
    UnsignedSign(a);
    UnsignedSign(b);
    UnsignedSign(r);
    XorSign(Unsigned(a), Unsigned(r));
    XorSign(Unsigned(b), Unsigned(r));
    AndSign(Xor(Unsigned(a), Unsigned(r)), Xor(Unsigned(b), Unsigned(r)));
  }

  function SubWide(a: Fx32, b: Fx32): Fx32 { Saturate(a - b) }

  function SubPortable(a: Fx32, b: Fx32): Fx32 {
    var r := Signed((Unsigned(a) - Unsigned(b)) % U64);
    if Negative(And(Xor(Unsigned(a), Unsigned(b)), Xor(Unsigned(a), Unsigned(r))))
    then if a < 0 then MIN else MAX
    else r
  }

  lemma SubWraps(a: Fx32, b: Fx32)
    ensures (Unsigned(a) - Unsigned(b)) % U64 == (a - b) % U64
  {
    ModAdd(Unsigned(a) - Unsigned(b), a / U64 - b / U64, U64);
  }

  lemma SubAgrees(a: Fx32, b: Fx32)
    ensures SubPortable(a, b) == SubWide(a, b)
  {
    hide And, Xor, Unsigned, Signed, Negative;
    var r := Signed((Unsigned(a) - Unsigned(b)) % U64);
    SubWraps(a, b);
    WrappedValue(a - b);
    UnsignedSign(a);
    UnsignedSign(b);
    UnsignedSign(r);
    XorSign(Unsigned(a), Unsigned(b));
    XorSign(Unsigned(a), Unsigned(r));
    AndSign(Xor(Unsigned(a), Unsigned(b)), Xor(Unsigned(a), Unsigned(r)));
  }

  /** Of all representable values the saturated sum and difference are the nearest to the exact ones. */
  lemma AddSubNearest(a: Fx32, b: Fx32, c: Fx32)
    ensures Abs(a + b - AddWide(a, b)) <= Abs(a + b - c)
    ensures Abs(a - b - SubWide(a, b)) <= Abs(a - b - c)
  {
  }

  /* Multiplication */

  function MulWide(a: Fx32, b: Fx32): Fx32 { Saturate(Truncate(a * b, U32)) }

  function MulPortable(a: Fx32, b: Fx32): Fx32 { ShiftProduct(a * b) }

  /** The portable branch on the two words of the exact 128-bit product: shift right by 32. */
  function ShiftProduct(p: int): Fx32 {
    var hi := p / U64;
    var ulo := p % U64;
    var shiftedLo := Signed(Or(ulo / U32, Unsigned(hi) * U32 % U64) % U64);
    var shiftedHi := hi / U32;
    if shiftedHi != (if shiftedLo < 0 then -1 else 0)
    then if shiftedHi < 0 then MIN else MAX
    else shiftedLo
  }

  lemma ShiftedWords(p: int)
    ensures p / U64 * U32 % U64 == p / U64 % U32 * U32
    ensures Unsigned(p / U64) * U32 % U64 == p / U64 % U32 * U32
    ensures p / U32 % U64 == p / U64 % U32 * U32 + p % U64 / U32
    ensures p / U64 / U32 == p / U32 / U64
  {
    var hi, lo := p / U64, p % U64;
    assert p == hi * U64 + lo;
    DivUnique(hi * U32, U64, hi / U32, hi % U32 * U32);
    ModMul(hi, U32, U64);
    DivUnique(p, U32, hi * U32 + lo / U32, lo % U32);
    DivUnique(p / U32, U64, hi / U32, hi % U32 * U32 + lo / U32);
  }

  /** The portable product is the exact product rounded down and then saturated. */
  lemma ShiftFloors(p: int)
    ensures ShiftProduct(p) == Saturate(p / U32)
  {
    hide Or, Signed, Saturate, Unsigned;
    ShiftedWords(p);
    var lo, hi := p % U64 / U32, p / U64 % U32 * U32;
    JoinedWords(p, lo, hi);
    TwoWords(p / U32);
  }

  lemma JoinedWords(p: int, lo: int, hi: int)
    requires lo == p % U64 / U32 && hi == p / U64 % U32 * U32 && hi + lo == p / U32 % U64
    ensures 0 <= lo && 0 <= hi && Or(lo, hi) % U64 == p / U32 % U64
  {
    hide Or, Pow2;
    Pow2Values();
    DivExact(p / U64 % U32, U32);
    OrDisjoint(lo, hi, 32);
    DivSmall(p / U32 % U64, U64);
  }

  /** A 128-bit value saturates when its high word is not the sign of its low word. */
  lemma TwoWords(q: int)
    ensures var lo, hi := Signed(q % U64), q / U64;
            Saturate(q) == if hi != (if lo < 0 then -1 else 0) then if hi < 0 then MIN else MAX else lo
  {
    DivMod(q, U64);
  }

  /** The two branches agree exactly when nothing is rounded, or the product is not
      negative, or it is too small for either; otherwise the portable one is one unit lower. */
  lemma MulAgreesIff(a: Fx32, b: Fx32)
    ensures MulPortable(a, b) == MulWide(a, b) <==>
            a * b >= 0 || a * b % U32 == 0 || a * b < MIN * U32
    ensures MulPortable(a, b) == MulWide(a, b) || MulPortable(a, b) == MulWide(a, b) - 1
  {
    ShiftFloors(a * b);
    var p := a * b;
    assert Truncate(p, U32) == if p < 0 && p % U32 != 0 then p / U32 + 1 else p / U32;
  }

  /** -1/2^32 times 1/2: the 128-bit branch gives 0, the portable branch -1. */
  lemma MulDiffers()
    ensures MulWide(-1, 0x8000_0000) == 0 && MulPortable(-1, 0x8000_0000) == -1
  {
    ShiftFloors(-0x8000_0000);
  }

  /* Division */

  function ByZero(a: Fx32): Fx32 {
    if a == 0 then 0 else if a > 0 then MAX else MIN
  }

  function DivWide(a: Fx32, b: Fx32): Fx32 {
    if b == 0 then ByZero(a) else Saturate(Truncate(a * U32, b))
  }

  /** Division by zero saturates in the direction of the dividend. */
  lemma DivByZero(a: Fx32)
    ensures DivWide(a, 0) == if a < 0 then -0x8000_0000_0000_0000 else if a == 0 then 0 else 0x7FFF_FFFF_FFFF_FFFF
  {
  }

  /** Where nothing saturates, product and quotient are exact up to one unit, rounded toward zero. */
  lemma MulDivRound(a: Fx32, b: Fx32)
    ensures var p, r := a * b, MulWide(a, b) * 0x1_0000_0000;
            -0x8000_0000_0000_0000 < MulWide(a, b) < 0x7FFF_FFFF_FFFF_FFFF ==>
              Abs(r) <= Abs(p) < Abs(r) + 0x1_0000_0000 && (p >= 0 ==> r >= 0) && (p <= 0 ==> r <= 0)
    ensures b != 0 && -0x8000_0000_0000_0000 < DivWide(a, b) < 0x7FFF_FFFF_FFFF_FFFF ==>
              var n, r := a * 0x1_0000_0000, DivWide(a, b) * b;
              Abs(r) <= Abs(n) < Abs(r) + Abs(b) && (n >= 0 ==> r >= 0) && (n <= 0 ==> r <= 0)
  {
    hide Truncate;
    TruncateTowardZero(a * b, U32);
    if b != 0 { TruncateTowardZero(a * U32, b); }
  }

  /** The portable branch: magnitudes, a guard against quotient overflow, and the sign put back. */
  function DivPortable(a: Fx32, b: Fx32): Fx32 {
    if b == 0 then ByZero(a)
    else
      var neg := (a < 0) != (b < 0);
      var ua := if a < 0 then -(a + 1) + 1 else a;
      var ub := if b < 0 then -(b + 1) + 1 else b;
      var numHi := ua / U32;
      var numLo := ua * U32 % U64;
      if numHi >= ub then if neg then MIN else MAX
      else
        NotNegative(numHi * U64 + numLo, ub);
        var q := (numHi * U64 + numLo) / ub;
        if neg then
          if q > MAX + 1 then MIN else if q == MAX + 1 then MIN else -q
        else
          if q > MAX then MAX else q
  }

  lemma DivGuard(ua: nat, ub: nat)
    requires 0 < ub && ua / U32 >= ub
    ensures ua * U32 / ub >= U64
  {
    MulLe(ub * U64, ua * U32, 1);
    var q := ua * U32 / ub;
    DivMod(ua * U32, ub);
    if q < U64 { MulLe(q + 1, U64, ub); MulDist(q, 1, ub); }
  }

  /** Both branches divide exactly, truncating toward zero and saturating. */
  lemma DivAgrees(a: Fx32, b: Fx32)
    ensures DivPortable(a, b) == DivWide(a, b)
  {
    if b != 0 {
      var ua, ub := Abs(a), Abs(b);
      assert Abs(a * U32) == ua * U32;
      assert ua * U32 == ua / U32 * U64 + ua * U32 % U64 by { DivUnique(ua * U32, U64, ua / U32, ua % U32 * U32); }
      if ua / U32 >= ub { DivGuard(ua, ub); }
    }
  }
}
