/**
 cb_fx16_atan2 (cbase_fixed.c): octant reduction around an interpolated table. Everything
 here holds for any table that rises from 0 to an eighth of a turn.
 */
module ArcTan {
  import opened Bits

  const ONE: int := 65536
  const QUARTER: int := 16384
  const HALF: int := 32768
  const FX16_MAX: int := 0x7FFF_FFFF
  const FX16_MIN: int := -0x8000_0000

  type Fx16 = x: int | -0x8000_0000 <= x < 0x8000_0000

  ghost predicate IsTable(lut: seq<int>) {
    && |lut| == 257 && lut[0] == 0 && lut[256] == 8192
    && forall i, j :: 0 <= i <= j <= 256 ==> lut[i] <= lut[j]
  }

  function Abs(v: Fx16): Fx16 {
    if v == FX16_MIN then FX16_MAX else if v < 0 then -v else v
  }

  /** cb_fx16_div for operands that are not negative. */
  function Ratio(a: nat, b: nat): int
    requires b > 0
  {
    var q := a * ONE / b;
    if q > FX16_MAX then FX16_MAX else q
  }

  function Lookup(lut: seq<int>, t: int): int
    requires |lut| == 257 && 0 <= t <= ONE
  {
    var idx, frac := t / 256, t % 256;
    if idx >= 256 then lut[256]
    else lut[idx] + Scale(lut[idx + 1] - lut[idx], frac)
  }

  /** d * f / 256, truncated toward zero. */
  function Scale(d: int, f: int): int {
    if d * f < 0 then -(-(d * f) / 256) else d * f / 256
  }

  function Atan2(lut: seq<int>, y: Fx16, x: Fx16): (brad: int)
    requires IsTable(lut)
    ensures 0 <= brad < 65536
  {
    if x == 0 && y == 0 then 0
    else if x == 0 then if y > 0 then QUARTER else HALF + QUARTER
    else if y == 0 then if x > 0 then 0 else HALF
    else
      var ax, ay := Abs(x), Abs(y);
      var complement := ay > ax;
      var small, large := if complement then ax else ay, if complement then ay else ax;
      RatioRange(small, large);
      var res := Lookup(lut, Ratio(small, large));
      LookupRange(lut, Ratio(small, large));
      var res1 := if complement then QUARTER - res else res;
      var res2 := if x < 0 then HALF - res1 else res1;
      var res3 := if y < 0 then if res2 == 0 then 0 else 65536 - res2 else res2;
      res3 % 65536
  }

  lemma RatioRange(a: nat, b: nat)
    requires a <= b && b > 0
    ensures 0 <= a * ONE / b <= ONE
    ensures Ratio(a, b) == a * ONE / b
  {
    var q := a * ONE / b;
    DivMod(a * ONE, b);
    if q < 0 { MulLe(q, -1, b); }
    if q > ONE { MulLe(ONE + 1, q, b); MulLe(a, b, ONE); }
  }

  /** A larger numerator or a smaller denominator gives a larger ratio. */
  lemma RatioMono(a: nat, b: nat, c: nat, d: nat)
    requires a <= c && 0 < d <= b
    ensures a * ONE / b <= c * ONE / d
  {
    var q, r := a * ONE / b, c * ONE / d;
    DivMod(a * ONE, b);
    DivMod(c * ONE, d);
    if r < q {
      if r < 0 { MulLe(r, -1, d); }
      MulLe(r + 1, q, b);
      MulLe(d, b, r + 1);
      MulDist(r, 1, d);
    }
  }

  lemma ScaleRange(d: int, f: int, g: int)
    requires 0 <= d && 0 <= f <= g <= 256
    ensures 0 <= Scale(d, f) <= Scale(d, g) <= d
  {
    MulLe(0, f, d);
    MulLe(f, g, d);
    MulLe(g, 256, d);
  }

  lemma LookupRange(lut: seq<int>, t: int)
    requires IsTable(lut) && 0 <= t <= ONE
    ensures 0 <= Lookup(lut, t) <= 8192
    ensures t / 256 < 256 ==> lut[t / 256] <= Lookup(lut, t) <= lut[t / 256 + 1]
  {
    var idx := t / 256;
    if idx < 256 {
      ScaleRange(lut[idx + 1] - lut[idx], t % 256, 256);
    }
  }

  /** The looked-up value is the straight line between two neighbouring entries, rounded down. */
  lemma LookupLine(lut: seq<int>, i: nat, f: nat)
    requires IsTable(lut) && i < 256 && f < 256
    ensures var v := Lookup(lut, 256 * i + f);
            256 * v <= (256 - f) * lut[i] + f * lut[i + 1] < 256 * (v + 1)
    ensures Lookup(lut, 65536) == lut[256]
  {
    var d := lut[i + 1] - lut[i];
    DivUnique(256 * i + f, 256, i, f);
    MulLe(0, d, f);
    DivMod(d * f, 256);
    MulDist(lut[i + 1], lut[i], f);
  }

  /** The quotient of the two coordinates is rounded down and never saturates. */
  lemma RatioFloors(a: nat, b: nat)
    requires a <= b && b > 0
    ensures var q := Ratio(a, b); 0 <= q <= 65536 && q * b <= a * 65536 < (q + 1) * b
  {
    RatioRange(a, b);
    DivMod(a * ONE, b);
    MulDist(Ratio(a, b), 1, b);
  }

  lemma LookupMono(lut: seq<int>, t: int, u: int)
    requires IsTable(lut) && 0 <= t <= u <= ONE
    ensures Lookup(lut, t) <= Lookup(lut, u)
  {
    LookupRange(lut, t);
    LookupRange(lut, u);
    if t / 256 == u / 256 && u / 256 < 256 {
      ScaleRange(lut[t / 256 + 1] - lut[t / 256], t % 256, u % 256);
    }
  }

  /** The angle in the first quadrant, for x > 0 and y >= 0. */
  ghost function Angle(lut: seq<int>, y: nat, x: nat): (a: int)
    requires IsTable(lut) && x > 0
    ensures 0 <= a <= QUARTER
  {
    if y > x then
      RatioRange(x, y);
      LookupRange(lut, x * ONE / y);
      QUARTER - Lookup(lut, x * ONE / y)
    else
      RatioRange(y, x);
      LookupRange(lut, y * ONE / x);
      Lookup(lut, y * ONE / x)
  }

  lemma AngleMono(lut: seq<int>, y: nat, z: nat, x: nat)
    requires IsTable(lut) && x > 0 && y <= z
    ensures Angle(lut, y, x) <= Angle(lut, z, x)
  {
    if z <= x {
      RatioRange(y, x);
      RatioRange(z, x);
      RatioMono(y, x, z, x);
      LookupMono(lut, y * ONE / x, z * ONE / x);
    } else if y > x {
      RatioRange(x, y);
      RatioRange(x, z);
      RatioMono(x, z, x, y);
      LookupMono(lut, x * ONE / z, x * ONE / y);
    } else {
      RatioRange(y, x);
      RatioRange(x, z);
      LookupRange(lut, y * ONE / x);
      LookupRange(lut, x * ONE / z);
    }
  }

  /** A binary angle read as a signed one, from minus half a turn up to half a turn. */
  function SignedAngle(brad: int): int {
    if brad >= HALF then brad - 65536 else brad
  }

  lemma AngleZero(lut: seq<int>, x: nat)
    requires IsTable(lut) && x > 0
    ensures Angle(lut, 0, x) == 0
  {
    RatioRange(0, x);
    DivUnique(0, x, 0, 0);
  }

  /** The octant reduction amounts to the first-quadrant angle with the two signs applied. */
  lemma Atan2Quadrants(lut: seq<int>, y: Fx16, x: Fx16)
    requires IsTable(lut) && x != 0
    ensures var a := Angle(lut, Abs(y), Abs(x));
            Atan2(lut, y, x) == if x > 0 then if y >= 0 then a else (65536 - a) % 65536
                                else if y >= 0 then HALF - a else HALF + a
  {
    hide Lookup, Ratio, IsTable;
    var ax, ay := Abs(x), Abs(y);
    if y == 0 {
      AngleZero(lut, ax);
    } else if ay > ax {
      RatioRange(ax, ay);
      LookupRange(lut, ax * ONE / ay);
    } else {
      RatioRange(ay, ax);
      LookupRange(lut, ay * ONE / ax);
    }
  }

  /** The axes and the diagonals, in 65536ths of a turn. */
  lemma EightDirections(lut: seq<int>, v: Fx16)
    requires IsTable(lut) && v > 0
    ensures Atan2(lut, 0, 0) == 0
    ensures Atan2(lut, 0, v) == 0 && Atan2(lut, v, 0) == 16384
    ensures Atan2(lut, 0, -v) == 32768 && Atan2(lut, -v, 0) == 49152
    ensures Atan2(lut, v, v) == 8192 && Atan2(lut, v, -v) == 24576
    ensures Atan2(lut, -v, -v) == 40960 && Atan2(lut, -v, v) == 57344
  {
    hide Lookup, Ratio, Atan2;
    OnAxes(lut, v);
    Atan2Quadrants(lut, v, v);
    Atan2Quadrants(lut, v, -v);
    Atan2Quadrants(lut, -v, -v);
    Atan2Quadrants(lut, -v, v);
    DiagonalAngle(lut, v);
  }

  lemma OnAxes(lut: seq<int>, v: Fx16)
    requires IsTable(lut) && v > 0
    ensures Atan2(lut, 0, 0) == 0 && Atan2(lut, 0, v) == 0 && Atan2(lut, v, 0) == 16384
    ensures Atan2(lut, 0, -v) == 32768 && Atan2(lut, -v, 0) == 49152
  {
    hide Lookup, Ratio;
  }

  lemma DiagonalAngle(lut: seq<int>, v: nat)
    requires IsTable(lut) && v > 0
    ensures Angle(lut, v, v) == 8192
  {
    DivExact(ONE, v);
    LookupLine(lut, 0, 0);
  }

  /** For a fixed x > 0 the signed angle never decreases as y grows, across every octant switch. */
  lemma Atan2Mono(lut: seq<int>, y: Fx16, z: Fx16, x: Fx16)
    requires IsTable(lut) && x > 0 && y <= z
    ensures SignedAngle(Atan2(lut, y, x)) <= SignedAngle(Atan2(lut, z, x))
  {
    hide Angle, Atan2;
    Atan2Quadrants(lut, y, x);
    Atan2Quadrants(lut, z, x);
    if Abs(y) <= Abs(z) {
      AngleMono(lut, Abs(y), Abs(z), x);
    } else {
      AngleMono(lut, Abs(z), Abs(y), x);
    }
  }

  /** Opposite directions differ by half a turn. */
  lemma Atan2Opposite(lut: seq<int>, y: Fx16, x: Fx16)
    requires IsTable(lut) && (x != 0 || y != 0)
    requires x != FX16_MIN && y != FX16_MIN
    ensures Atan2(lut, -y, -x) == (Atan2(lut, y, x) + HALF) % 65536
  {
    if x == 0 {
      assert -x == 0;
    } else {
      OppositeQuadrants(lut, y, x);
    }
  }

  lemma OppositeQuadrants(lut: seq<int>, y: Fx16, x: Fx16)
    requires IsTable(lut) && x != 0 && x != FX16_MIN && y != FX16_MIN
    ensures Atan2(lut, -y, -x) == (Atan2(lut, y, x) + HALF) % 65536
  {
    hide Angle, Atan2, IsTable;
    Atan2Quadrants(lut, y, x);
    Atan2Quadrants(lut, -y, -x);
    AngleZero(lut, Abs(x));
    assert Abs(-y) == Abs(y) && Abs(-x) == Abs(x);
  }

  /* The table that ships with the library, sixteen entries a row, before the last entry 8192 */

  const ROWS: seq<seq<int>> := [
    [0, 41, 81, 122, 163, 204, 244, 285, 326, 367, 407, 448, 489, 529, 570, 610],
    [651, 692, 732, 773, 813, 854, 894, 935, 975, 1015, 1056, 1096, 1136, 1177, 1217, 1257],
    [1297, 1337, 1377, 1417, 1457, 1497, 1537, 1577, 1617, 1656, 1696, 1736, 1775, 1815, 1854, 1894],
    [1933, 1973, 2012, 2051, 2090, 2129, 2168, 2207, 2246, 2285, 2324, 2363, 2401, 2440, 2478, 2517],
    [2555, 2594, 2632, 2670, 2708, 2746, 2784, 2822, 2860, 2897, 2935, 2973, 3010, 3047, 3085, 3122],
    [3159, 3196, 3233, 3270, 3307, 3344, 3380, 3417, 3453, 3490, 3526, 3562, 3599, 3635, 3670, 3706],
    [3742, 3778, 3813, 3849, 3884, 3920, 3955, 3990, 4025, 4060, 4095, 4129, 4164, 4199, 4233, 4267],
    [4302, 4336, 4370, 4404, 4438, 4471, 4505, 4539, 4572, 4605, 4639, 4672, 4705, 4738, 4771, 4803],
    [4836, 4869, 4901, 4933, 4966, 4998, 5030, 5062, 5094, 5125, 5157, 5188, 5220, 5251, 5282, 5313],
    [5344, 5375, 5406, 5437, 5467, 5498, 5528, 5559, 5589, 5619, 5649, 5679, 5708, 5738, 5768, 5797],
    [5826, 5856, 5885, 5914, 5943, 5972, 6000, 6029, 6058, 6086, 6114, 6142, 6171, 6199, 6227, 6254],
    [6282, 6310, 6337, 6365, 6392, 6419, 6446, 6473, 6500, 6527, 6554, 6580, 6607, 6633, 6660, 6686],
    [6712, 6738, 6764, 6790, 6815, 6841, 6867, 6892, 6917, 6943, 6968, 6993, 7018, 7043, 7068, 7092],
    [7117, 7141, 7166, 7190, 7214, 7238, 7262, 7286, 7310, 7334, 7358, 7381, 7405, 7428, 7451, 7475],
    [7498, 7521, 7544, 7566, 7589, 7612, 7635, 7657, 7679, 7702, 7724, 7746, 7768, 7790, 7812, 7834],
    [7856, 7877, 7899, 7920, 7942, 7963, 7984, 8005, 8026, 8047, 8068, 8089, 8110, 8131, 8151, 8172]]

  lemma RowsRise()
    ensures |ROWS| == 16 && forall k :: 0 <= k < 16 ==> |ROWS[k]| == 16
    ensures ROWS[0][0] == 0 && ROWS[15][15] <= 8192
    ensures forall k, i :: 0 <= k < 16 && 0 <= i < 15 ==> ROWS[k][i] <= ROWS[k][i + 1]
    ensures forall k :: 0 <= k < 15 ==> ROWS[k][15] <= ROWS[k + 1][0]
  {
  }

  function Entry(i: nat): int
    requires i <= 256
  {
    RowsRise();
    if i == 256 then 8192 else ROWS[i / 16][i % 16]
  }

  lemma {:induction false} EntriesRise(i: nat, j: nat)
    requires i <= j <= 256
    ensures Entry(i) <= Entry(j)
    decreases j
  {
    if i < j {
      EntriesRise(i, j - 1);
      EntryStep(j - 1);
    }
  }

  lemma EntryStep(i: nat)
    requires i < 256
    ensures Entry(i) <= Entry(i + 1)
  {
    hide ROWS;
    RowsRise();
    var k, m := i / 16, i % 16;
    if m == 15 {
      assert (i + 1) / 16 == k + 1 && (i + 1) % 16 == 0;
    } else {
      assert (i + 1) / 16 == k && (i + 1) % 16 == m + 1;
    }
  }

  function AtanTable(): seq<int> {
    seq(257, i requires 0 <= i < 257 => Entry(i))
  }

  /** The shipped table rises from 0 to an eighth of a turn, as the results above require. */
  lemma ShippedTable()
    ensures IsTable(AtanTable())
  {
    hide Entry;
    forall i, j | 0 <= i <= j <= 256
      ensures AtanTable()[i] <= AtanTable()[j]
    {
      EntriesRise(i, j);
    }
    EntryEnds();
  }

  lemma EntryEnds()
    ensures Entry(0) == 0 && Entry(256) == 8192
  {
    RowsRise();
  }
}
