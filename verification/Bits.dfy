/**
 Bitwise operators and shifts of C's unsigned integers, on natural numbers.

 A C unsigned integer is a `nat` below a power of two; `x >> k` is `x / Pow2(k)` and a
 left shift is a multiplication. `And`, `Or` and `Xor` work bit by bit from the
 least significant end, so they need no width.
 */
module Bits {

  const U32: nat := 0x1_0000_0000
  const U64: nat := 0x1_0000_0000_0000_0000

  type Byte = x: int | 0 <= x < 256

  function Pow2(k: nat): (p: nat)
    ensures p >= 1
  {
    if k == 0 then 1 else 2 * Pow2(k - 1)
  }

  function And(a: nat, b: nat): nat {
    if a == 0 || b == 0 then 0 else (if a % 2 == 1 && b % 2 == 1 then 1 else 0) + 2 * And(a / 2, b / 2)
  }

  function Or(a: nat, b: nat): nat
    decreases a + b
  {
    if a == 0 then b else if b == 0 then a
    else (if a % 2 == 1 || b % 2 == 1 then 1 else 0) + 2 * Or(a / 2, b / 2)
  }

  function Xor(a: nat, b: nat): nat
    decreases a + b
  {
    if a == 0 then b else if b == 0 then a
    else (if a % 2 == b % 2 then 0 else 1) + 2 * Xor(a / 2, b / 2)
  }

  /* Powers of two */

  lemma Pow2Values()
    ensures Pow2(5) == 32 && Pow2(8) == 256 && Pow2(16) == 0x1_0000 && Pow2(18) == 0x4_0000
    ensures Pow2(23) == 0x80_0000 && Pow2(47) == 0x8000_0000_0000 && Pow2(62) == 0x4000_0000_0000_0000
    ensures Pow2(27) == 0x800_0000 && Pow2(32) == U32 && Pow2(37) == 32 * U32
    ensures Pow2(63) == 0x8000_0000_0000_0000 && Pow2(64) == U64
  {
    assert Pow2(8) == 256;
    assert Pow2(16) == 0x1_0000;
    assert Pow2(23) == 0x80_0000;
    assert Pow2(27) == 0x800_0000;
    assert Pow2(37) == 32 * U32;
    assert Pow2(47) == 0x8000_0000_0000;
    assert Pow2(48) == 0x1_0000_0000_0000;
    assert Pow2(55) == 0x80_0000_0000_0000;
    assert Pow2(63) == 0x8000_0000_0000_0000;
  }

  lemma {:induction false} Pow2Add(a: nat, b: nat)
    ensures Pow2(a + b) == Pow2(a) * Pow2(b)
  {
    if b != 0 {
      Pow2Add(a, b - 1);
      assert Pow2(a + b) == 2 * (Pow2(a) * Pow2(b - 1)) == Pow2(a) * (2 * Pow2(b - 1));
    }
  }

  lemma {:induction false} Pow2Mono(a: nat, b: nat)
    requires a <= b
    ensures Pow2(a) <= Pow2(b)
  {
    if a < b { Pow2Mono(a, b - 1); }
  }

  /* Multiplication, division and remainder */

  lemma MulDist(a: int, b: int, c: int)
    ensures (a + b) * c == a * c + b * c
    ensures (a - b) * c == a * c - b * c
  {
  }

  lemma MulLe(a: int, b: int, c: int)
    requires a <= b && 0 <= c
    ensures a * c <= b * c
  {
  }

  lemma MulAssoc(a: int, b: int, c: int)
    ensures a * b * c == a * (b * c) == a * c * b
  {
  }

  lemma DivMod(x: int, d: int)
    requires d > 0
    ensures x == x / d * d + x % d && 0 <= x % d < d
  {
  }

  lemma NotNegative(n: nat, d: nat)
    requires d > 0
    ensures 0 <= n / d <= n
  {
    DivMod(n, d);
    if n / d < 0 { MulLe(n / d, -1, d); }
    MulLe(1, d, n / d);
  }

  lemma DivUnique(x: int, d: int, q: int, r: int)
    requires d > 0 && x == q * d + r && 0 <= r < d
    ensures x / d == q && x % d == r
  {
    var q', r' := x / d, x % d;
    DivMod(x, d);
    MulDist(q', q, d);
    if q' > q {
      MulLe(1, q' - q, d);
    } else if q' < q {
      MulLe(q' - q, -1, d);
    }
  }

  lemma DivSmall(x: int, d: int)
    requires 0 <= x < d
    ensures x / d == 0 && x % d == x
  {
    DivUnique(x, d, 0, x);
  }

  lemma DivExact(q: int, d: int)
    requires d > 0
    ensures q * d / d == q && q * d % d == 0
  {
    DivUnique(q * d, d, q, 0);
  }

  /** The digits of `x` in the mixed base (a, b). */
  lemma DivDiv(x: nat, a: nat, b: nat)
    requires a > 0 && b > 0
    ensures a * b > 0 && x / a / b == x / (a * b)
    ensures x % (a * b) == x % a + x / a % b * a
    ensures x % (a * b) % a == x % a
    ensures x % (a * b) / a == x / a % b
  {
    var q, r := x / a, x % a;
    var q2, r2 := q / b, q % b;
    DivMod(x, a);
    DivMod(q, b);
    MulDist(q2 * b, r2, a);
    MulAssoc(q2, b, a);
    MulAssoc(a, b, 1);
    MulLe(r2 + 1, b, a);
    MulDist(r2, 1, a);
    MulLe(1, b, a);
    MulLe(0, r2, a);
    DivUnique(x, a * b, q2, r2 * a + r);
    DivUnique(r2 * a + r, a, r2, r);
  }

  lemma ModAdd(x: int, k: int, m: int)
    requires m > 0
    ensures (x + k * m) % m == x % m
  {
    DivMod(x, m);
    MulDist(x / m, k, m);
    DivUnique(x + k * m, m, x / m + k, x % m);
  }

  lemma ModSum(x: int, y: int, m: int)
    requires m > 0
    ensures (x % m + y) % m == (x + y) % m
  {
    DivMod(x, m);
    ModAdd(x % m + y, x / m, m);
  }

  lemma ModMul(x: int, y: int, m: int)
    requires m > 0
    ensures (x % m) * y % m == x * y % m
  {
    DivMod(x, m);
    MulDist(x / m * m, x % m, y);
    MulAssoc(x / m, m, y);
    ModAdd((x % m) * y, x / m * y, m);
  }

  /* Bitwise operators */

  /** Shifting or masking by `k` bits, one bit first. */
  lemma ShiftStep(x: nat, k: nat)
    requires k > 0
    ensures x / Pow2(k) == x / 2 / Pow2(k - 1)
    ensures x % Pow2(k) % 2 == x % 2
    ensures x % Pow2(k) / 2 == x / 2 % Pow2(k - 1)
  {
    DivDiv(x, 2, Pow2(k - 1));
  }

  /** `x >> k`, one bit at a time. */
  function Shr(x: nat, k: nat): nat {
    if k == 0 then x else Shr(x / 2, k - 1)
  }

  lemma ShrSmall(x: nat)
    ensures Shr(x, 1) == x / 2 && Shr(x, 2) == x / 4
  {
    assert Shr(x / 2, 1) == x / 2 / 2;
  }

  lemma {:induction false} ShrIsDiv(x: nat, k: nat)
    ensures x / Pow2(k) >= 0 && Shr(x, k) == x / Pow2(k)
    decreases k
  {
    if k != 0 {
      ShrIsDiv(x / 2, k - 1);
      ShiftStep(x, k);
    }
  }

  lemma SameParts(x: nat, y: nat)
    requires x % 2 == y % 2 && x / 2 == y / 2
    ensures x == y
  {
  }

  lemma XorParts(a: nat, b: nat)
    ensures Xor(a, b) % 2 == (if a % 2 == b % 2 then 0 else 1)
    ensures Xor(a, b) / 2 == Xor(a / 2, b / 2)
  {
    var h := Xor(a / 2, b / 2);
    assert Xor(a, b) == (if a % 2 == b % 2 then 0 else 1) + 2 * h;
  }

  lemma AndParts(a: nat, b: nat)
    ensures And(a, b) % 2 == (if a % 2 == 1 && b % 2 == 1 then 1 else 0)
    ensures And(a, b) / 2 == And(a / 2, b / 2)
  {
  }

  lemma OrParts(a: nat, b: nat)
    ensures Or(a, b) % 2 == (if a % 2 == 1 || b % 2 == 1 then 1 else 0)
    ensures Or(a, b) / 2 == Or(a / 2, b / 2)
  {
  }

  lemma {:induction false} XorSymmetric(a: nat, b: nat)
    ensures Xor(a, b) == Xor(b, a)
    decreases a
  {
    if a != 0 && b != 0 { XorSymmetric(a / 2, b / 2); }
  }

  lemma {:induction false} XorSelf(a: nat)
    ensures Xor(a, a) == 0
  {
    if a != 0 { XorSelf(a / 2); }
  }

  lemma {:induction false} XorAssoc(a: nat, b: nat, c: nat)
    ensures Xor(Xor(a, b), c) == Xor(a, Xor(b, c))
    decreases a + b + c
  {
    if a != 0 && b != 0 && c != 0 {
      XorAssoc(a / 2, b / 2, c / 2);
      XorParts(a, b);
      XorParts(b, c);
      XorParts(Xor(a, b), c);
      XorParts(a, Xor(b, c));
      SameParts(Xor(Xor(a, b), c), Xor(a, Xor(b, c)));
    }
  }

  lemma {:induction false} XorShr(a: nat, b: nat, k: nat)
    ensures Shr(Xor(a, b), k) == Xor(Shr(a, k), Shr(b, k))
    decreases k
  {
    if k != 0 {
      XorParts(a, b);
      XorShr(a / 2, b / 2, k - 1);
    }
  }

  lemma {:induction false} XorMod(a: nat, b: nat, k: nat)
    ensures Xor(a, b) % Pow2(k) == Xor(a % Pow2(k), b % Pow2(k))
    decreases k
  {
    if k != 0 {
      var p := Pow2(k - 1);
      XorMod(a / 2, b / 2, k - 1);
      XorParts(a, b);
      XorParts(a % Pow2(k), b % Pow2(k));
      ShiftStep(a, k);
      ShiftStep(b, k);
      ShiftStep(Xor(a, b), k);
      SameParts(Xor(a, b) % Pow2(k), Xor(a % Pow2(k), b % Pow2(k)));
    }
  }

  /** Xor never produces a bit above those of its operands. */
  lemma XorBound(a: nat, b: nat, k: nat)
    requires a < Pow2(k) && b < Pow2(k)
    ensures Xor(a, b) < Pow2(k)
  {
    XorMod(a, b, k);
    DivSmall(a, Pow2(k));
    DivSmall(b, Pow2(k));
    DivMod(Xor(a, b), Pow2(k));
  }

  lemma {:induction false} AndShr(a: nat, b: nat, k: nat)
    ensures Shr(And(a, b), k) == And(Shr(a, k), Shr(b, k))
    decreases k
  {
    if k != 0 {
      AndParts(a, b);
      AndShr(a / 2, b / 2, k - 1);
    }
  }

  /** The k low bits of x, one at a time. */
  function Low(x: nat, k: nat): nat {
    if k == 0 then 0 else x % 2 + 2 * Low(x / 2, k - 1)
  }

  lemma {:induction false} LowIsMod(x: nat, k: nat)
    ensures Low(x, k) == x % Pow2(k)
  {
    if k == 0 {
      assert x % 1 == 0;
    } else {
      LowIsMod(x / 2, k - 1);
      ShiftStep(x, k);
      FromHalves(x % Pow2(k), Low(x / 2, k - 1), x % 2);
    }
  }

  lemma FromHalves(x: int, h: int, bit: int)
    requires x / 2 == h && x % 2 == bit
    ensures x == bit + 2 * h
  {
  }

  lemma {:induction false} AndLow(x: nat, k: nat)
    ensures And(x, Pow2(k) - 1) == Low(x, k)
    decreases k
  {
    hide And;
    if k == 0 {
      AndZero(x);
    } else {
      var m := Pow2(k) - 1;
      AndLow(x / 2, k - 1);
      AndParts(x, m);
      FromHalves(And(x, m), Low(x / 2, k - 1), x % 2);
    }
  }

  lemma AndZero(x: nat)
    ensures And(x, 0) == 0
  {
  }

  /** `x & (2^k - 1)` is the remainder. */
  lemma AndMask(x: nat, k: nat)
    ensures And(x, Pow2(k) - 1) == x % Pow2(k)
  {
    AndLow(x, k);
    LowIsMod(x, k);
  }

  lemma AndAll(x: nat, w: nat)
    requires x < Pow2(w)
    ensures And(x, Pow2(w) - 1) == x
  {
    AndMask(x, w);
    DivSmall(x, Pow2(w));
  }

  lemma {:induction false} AndHigh(x: nat, k: nat, w: nat)
    requires k <= w && x < Pow2(w)
    ensures Pow2(k) <= Pow2(w) && And(x, Pow2(w) - Pow2(k)) == x - Low(x, k)
    decreases w
  {
    hide And;
    Pow2Mono(k, w);
    if k == 0 {
      AndAll(x, w);
    } else {
      var m := Pow2(w) - Pow2(k);
      AndHigh(x / 2, k - 1, w - 1);
      AndParts(x, m);
      FromHalves(And(x, m), x / 2 - Low(x / 2, k - 1), 0);
      FromHalves(x, x / 2, x % 2);
    }
  }

  /** Clearing the low `k` bits with `& ~(2^k - 1)` at width `w` rounds down to a multiple. */
  lemma AndClear(x: nat, k: nat, w: nat)
    requires k <= w && x < Pow2(w)
    ensures Pow2(k) <= Pow2(w)
    ensures And(x, Pow2(w) - Pow2(k)) == x - x % Pow2(k)
  {
    AndHigh(x, k, w);
    LowIsMod(x, k);
  }

  /** Joining two words whose bits do not overlap is addition. */
  lemma {:induction false} OrDisjoint(a: nat, b: nat, k: nat)
    requires a < Pow2(k) && b % Pow2(k) == 0
    ensures Or(a, b) == a + b
    decreases k
  {
    if k != 0 {
      var p := Pow2(k - 1);
      ShiftStep(b, k);
      assert b % 2 == 0 && b / 2 % p == 0;
      OrDisjoint(a / 2, b / 2, k - 1);
      OrParts(a, b);
      var l := Or(a, b);
      assert l == 2 * (l / 2) + l % 2;
      assert a == 2 * (a / 2) + a % 2;
    }
  }

  lemma {:induction false} OrSymmetric(a: nat, b: nat)
    ensures Or(a, b) == Or(b, a)
    decreases a
  {
    if a != 0 && b != 0 { OrSymmetric(a / 2, b / 2); }
  }

  lemma OrOne(x: nat)
    requires x % 2 == 0
    ensures Or(x, 1) == x + 1
  {
    assert x != 0 ==> Or(x, 1) == 1 + 2 * Or(x / 2, 0);
  }

  lemma {:induction false} OrSelf(a: nat)
    ensures Or(a, a) == a
  {
    if a != 0 { OrSelf(a / 2); }
  }
}
