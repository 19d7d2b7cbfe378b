/**
 The linear congruential recurrence behind PCG32, for any multiplier congruent to 1
 modulo 4, any odd increment and any power-of-two modulus: its orbit has full period.
 */
module Lcg {
  import opened Bits

  /** 2^k divides x. */
  ghost predicate Divides(k: nat, x: int) {
    k == 0 || (x % 2 == 0 && Divides(k - 1, x / 2))
  }

  lemma {:induction false} DividesIsMod(k: nat, x: int)
    ensures Divides(k, x) <==> x % Pow2(k) == 0
    decreases k
  {
    if k == 0 {
      assert x % 1 == 0;
    } else {
      var p := Pow2(k - 1);
      DividesIsMod(k - 1, x / 2);
      DivMod(x / 2, p);
      var q, r := x / 2 / p, x / 2 % p;
      MulAssoc(q, p, 2);
      assert x == q * (2 * p) + (2 * r + x % 2);
      DivUnique(x, 2 * p, q, 2 * r + x % 2);
    }
  }

  lemma {:induction false} DividesOdd(k: nat, x: int, o: int)
    requires o % 2 == 1
    ensures Divides(k, x * o) <==> Divides(k, x)
    decreases k
  {
    if k != 0 {
      ParityOfProduct(x, o);
      if x % 2 == 0 {
        MulAssoc(x / 2, 2, o);
        assert x * o == 2 * (x / 2 * o);
        DividesOdd(k - 1, x / 2, o);
      }
    }
  }

  lemma ParityOfProduct(x: int, o: int)
    requires o % 2 == 1
    ensures x * o % 2 == x % 2
  {
    ModMul(x, o, 2);
    assert x % 2 == 0 || x % 2 == 1;
  }

  lemma {:induction false} DividesSum(k: nat, x: int, y: int)
    requires Divides(k, x)
    ensures Divides(k, y) <==> Divides(k, x + y)
    ensures !Divides(k + 1, x) && Divides(k, y) && !Divides(k + 1, y) ==> Divides(k + 1, x + y)
    decreases k
  {
    if k != 0 {
      assert (x + y) % 2 == y % 2;
      if y % 2 == 0 {
        assert (x + y) / 2 == x / 2 + y / 2;
        DividesSum(k - 1, x / 2, y / 2);
      }
    } else {
      assert Divides(1, x) <==> x % 2 == 0;
      assert Divides(1, y) <==> y % 2 == 0;
      assert Divides(1, x + y) <==> (x + y) % 2 == 0;
    }
  }

  ghost function Power(a: nat, n: nat): nat {
    if n == 0 then 1 else a * Power(a, n - 1)
  }

  /** 1 + a + ... + a^(n-1) */
  ghost function Geometric(a: nat, n: nat): nat {
    if n == 0 then 0 else a * Geometric(a, n - 1) + 1
  }

  lemma {:induction false} PowerIsGeometric(a: nat, n: nat)
    requires a >= 1
    ensures Power(a, n) == (a - 1) * Geometric(a, n) + 1
  {
    if n != 0 {
      PowerIsGeometric(a, n - 1);
      PowerStep(a, Geometric(a, n - 1));
    }
  }

  lemma PowerStep(a: int, g: int)
    ensures a * ((a - 1) * g + 1) == (a - 1) * (a * g + 1) + 1
  {
    MulDist((a - 1) * g, 1, a);
    MulDist(a * g, 1, a - 1);
    MulAssoc(a - 1, g, a);
  }

  lemma {:induction false} OddPower(a: nat, n: nat)
    requires a % 2 == 1
    ensures Power(a, n) % 2 == 1
  {
    if n != 0 {
      OddPower(a, n - 1);
      ParityOfProduct(a, Power(a, n - 1));
    }
  }

  lemma {:induction false} GeometricParity(a: nat, n: nat)
    requires a % 2 == 1
    ensures Geometric(a, n) % 2 == n % 2
  {
    if n != 0 {
      var g := Geometric(a, n - 1);
      GeometricParity(a, n - 1);
      ParityOfProduct(g, a);
      assert Geometric(a, n) == g * a + 1;
      OneMore(g * a, n - 1);
    }
  }

  lemma OneMore(x: nat, y: nat)
    requires x % 2 == y % 2
    ensures (x + 1) % 2 == (y + 1) % 2
  {
  }

  lemma {:induction false} GeometricSum(a: nat, m: nat, n: nat)
    requires a >= 1
    ensures Geometric(a, m + n) == Geometric(a, m) * Power(a, n) + Geometric(a, n)
  {
    if n != 0 {
      GeometricSum(a, m, n - 1);
      SumStep(a, Geometric(a, m), Power(a, n - 1), Geometric(a, n - 1));
    }
  }

  lemma SumStep(a: int, s: int, p: int, g: int)
    ensures a * (s * p + g) == s * (a * p) + a * g
  {
    MulDist(s * p, g, a);
    MulAssoc(s, p, a);
  }

  /** The sum over n terms has exactly as many factors of two as n. */
  lemma {:induction false} GeometricDivides(a: nat, k: nat, n: nat)
    requires a % 4 == 1
    ensures Divides(k, Geometric(a, n)) <==> Divides(k, n)
    decreases k
  {
    if k != 0 {
      GeometricParity(a, n);
      if n % 2 == 0 {
        var o := GeometricDouble(a, n / 2);
        DividesOdd(k - 1, Geometric(a, n / 2), o);
        GeometricDivides(a, k - 1, n / 2);
      }
    }
  }

  lemma GeometricDouble(a: nat, m: nat) returns (o: int)
    requires a % 4 == 1
    ensures o % 2 == 1 && Geometric(a, 2 * m) == 2 * (Geometric(a, m) * o)
  {
    hide Geometric, Power;
    var g, q := Geometric(a, m), a / 4 * Geometric(a, m);
    assert 2 * m == m + m;
    GeometricSum(a, m, m);
    PowerIsGeometric(a, m);
    Quarter(a, g);
    o := 2 * q + 1;
    DoubleStep(g, q);
  }

  lemma Quarter(a: nat, g: nat)
    requires a % 4 == 1
    ensures (a - 1) * g == 4 * (a / 4 * g)
  {
    var t := a / 4;
    MulAssoc(4, t, g);
  }

  lemma DoubleStep(g: int, q: int)
    ensures g * (4 * q + 1) + g == 2 * (g * (2 * q + 1))
  {
    MulDist(4 * q, 1, g);
    MulDist(2 * q, 1, g);
    MulAssoc(4, q, g);
    MulAssoc(2, q, g);
  }

  /** The orbit of x under v -> a*v + c, before reduction. */
  ghost function Orbit(a: nat, c: nat, x: nat, n: nat): nat {
    if n == 0 then x else a * Orbit(a, c, x, n - 1) + c
  }

  lemma {:induction false} OrbitClosed(a: nat, c: nat, x: nat, n: nat, e: nat)
    requires a * x + c == x + e
    ensures Orbit(a, c, x, n) == x + Geometric(a, n) * e
  {
    if n != 0 {
      OrbitClosed(a, c, x, n - 1, e);
      ClosedStep(a, x, Geometric(a, n - 1), e);
    }
  }

  lemma ClosedStep(a: int, x: int, g: int, e: int)
    ensures a * (x + g * e) == a * x + (a * g + 1) * e - e
  {
    MulDist(x, g * e, a);
    MulDist(a * g, 1, e);
    MulAssoc(a, g, e);
  }

  lemma OrbitDifference(a: nat, c: nat, x: nat, i: nat, d: nat) returns (o: int)
    requires a % 4 == 1 && c % 2 == 1
    ensures o % 2 == 1
    ensures Orbit(a, c, x, i + d) - Orbit(a, c, x, i) == Geometric(a, d) * o
  {
    hide Geometric, Power, Orbit;
    var e := FirstGap(a, c, x);
    OrbitClosed(a, c, x, i, e);
    OrbitClosed(a, c, x, i + d, e);
    GeometricSum(a, d, i);
    OddPower(a, i);
    o := Power(a, i) * e;
    ParityOfProduct(Power(a, i), e);
    assert i + d == d + i;
    DifferenceStep(Geometric(a, d), Power(a, i), Geometric(a, i), e);
  }

  /** The first step moves by an odd amount. */
  lemma FirstGap(a: nat, c: nat, x: nat) returns (e: nat)
    requires a % 4 == 1 && c % 2 == 1
    ensures a * x + c == x + e && e % 2 == 1
  {
    var q := OneLess(a, x);
    e := q + c;
    OddSum(q, c);
  }

  lemma OneLess(a: nat, x: nat) returns (q: nat)
    requires a % 4 == 1
    ensures a * x == q + x && q % 2 == 0
  {
    var h := a / 4 * 2;
    assert a == 2 * h + 1;
    MulDist(2 * h, 1, x);
    MulAssoc(2, h, x);
    MulLe(0, h, x);
    q := 2 * (h * x);
  }

  lemma OddSum(q: nat, c: nat)
    requires q % 2 == 0 && c % 2 == 1
    ensures (q + c) % 2 == 1
  {
  }

  lemma DifferenceStep(g: int, p: int, h: int, e: int)
    ensures (g * p + h) * e - h * e == g * (p * e)
  {
    MulDist(g * p, h, e);
    MulAssoc(g, p, e);
  }

  /** Two points of the orbit agree modulo 2^k exactly when their distance is a multiple of 2^k. */
  lemma OrbitMeets(a: nat, c: nat, x: nat, k: nat, i: nat, d: nat)
    requires a % 4 == 1 && c % 2 == 1
    ensures Divides(k, Orbit(a, c, x, i + d) - Orbit(a, c, x, i)) <==> Divides(k, d)
  {
    var o := OrbitDifference(a, c, x, i, d);
    DividesOdd(k, Geometric(a, d), o);
    GeometricDivides(a, k, d);
  }

  lemma {:induction false} DividesPow2(k: nat)
    ensures Divides(k, Pow2(k)) && !Divides(k + 1, Pow2(k))
  {
    if k != 0 {
      DividesPow2(k - 1);
      assert Pow2(k) / 2 == Pow2(k - 1);
    } else {
      assert !Divides(1, 1);
    }
  }

  /** Every residue modulo 2^k occurs among the first 2^k points of the orbit. */
  lemma {:induction false} OrbitReaches(a: nat, c: nat, x: nat, k: nat, y: int) returns (n: nat)
    requires a % 4 == 1 && c % 2 == 1
    ensures n < Pow2(k) && Divides(k, Orbit(a, c, x, n) - y)
    decreases k
  {
    hide Orbit;
    if k == 0 {
      n := 0;
    } else {
      var p := Pow2(k - 1);
      n := OrbitReaches(a, c, x, k - 1, y);
      var gap := Orbit(a, c, x, n) - y;
      if !Divides(k, gap) {
        OrbitMeets(a, c, x, k - 1, n, p);
        OrbitMeets(a, c, x, k, n, p);
        DividesPow2(k - 1);
        DividesSum(k - 1, gap, Orbit(a, c, x, n + p) - Orbit(a, c, x, n));
        n := n + p;
      }
    }
  }
}
