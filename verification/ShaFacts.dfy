/**
 What the constants and the byte order of SHA-256 mean, apart from the functions that use
 them: roots of primes, big-endian words, and the shape of padding and of HMAC.
 */
module ShaFacts {
  import opened Bits
  import opened WordOps
  import opened Fips180
  import opened Hash

  /* The first 64 primes */

  const PRIME_ROWS: seq<seq<nat>> := [
    [2, 3, 5, 7, 11, 13, 17, 19],
    [23, 29, 31, 37, 41, 43, 47, 53],
    [59, 61, 67, 71, 73, 79, 83, 89],
    [97, 101, 103, 107, 109, 113, 127, 131],
    [137, 139, 149, 151, 157, 163, 167, 173],
    [179, 181, 191, 193, 197, 199, 211, 223],
    [227, 229, 233, 239, 241, 251, 257, 263],
    [269, 271, 277, 281, 283, 293, 307, 311]]

  function PrimeAt(t: nat): nat
    requires t < 64
  {
    PrimeRows();
    PRIME_ROWS[t / 8][t % 8]
  }

  lemma PrimeRows()
    ensures |PRIME_ROWS| == 8 && forall r :: 0 <= r < 8 ==> |PRIME_ROWS[r]| == 8
  {
  }

  ghost predicate IsPrime(n: nat) {
    n >= 2 && forall d :: 2 <= d < n ==> n % d != 0
  }

  /** No prime below 18 divides n, unless it is n. */
  predicate Sieve(n: nat) {
    && n >= 2
    && (n % 2 != 0 || n == 2) && (n % 3 != 0 || n == 3) && (n % 5 != 0 || n == 5) && (n % 7 != 0 || n == 7)
    && (n % 11 != 0 || n == 11) && (n % 13 != 0 || n == 13) && (n % 17 != 0 || n == 17)
  }

  /** Numbers below 18^2 need no larger divisors. */
  lemma SieveIsPrime(n: nat)
    requires n < 324
    ensures Sieve(n) <==> IsPrime(n)
  {
    if IsPrime(n) {
      assert n > 2 ==> n % 2 != 0;
      assert n > 3 ==> n % 3 != 0;
      assert n > 5 ==> n % 5 != 0;
      assert n > 7 ==> n % 7 != 0;
      assert n > 11 ==> n % 11 != 0;
      assert n > 13 ==> n % 13 != 0;
      assert n > 17 ==> n % 17 != 0;
    }
    if Sieve(n) {
      forall d | 2 <= d < n ensures n % d != 0 {
        if n % d == 0 { NoDivisor(n, d); }
      }
    }
  }

  lemma NoDivisor(n: nat, d: nat)
    requires n < 324 && 2 <= d < n && n % d == 0
    ensures !Sieve(n)
  {
    var e := n / d;
    DivMod(n, d);
    assert n == d * e;
    if e < 2 { MulLe(e, 1, d); }
    if d < 18 {
      SmallDivisor(n, d, e);
    } else {
      if e >= 18 { MulLe(18, d, e); MulLe(18, e, 18); }
      SmallDivisor(n, e, d);
    }
  }

  lemma SmallDivisor(n: nat, d: nat, e: nat)
    requires 2 <= d < 18 && d < n && n == d * e
    ensures !Sieve(n)
  {
    var q := if d % 2 == 0 then 2 else if d % 3 == 0 then 3 else if d % 5 == 0 then 5 else if d % 7 == 0 then 7 else d;
    assert d % q == 0 && q in {2, 3, 5, 7, 11, 13, 17};
    DivMod(d, q);
    MulAssoc(q, d / q, e);
    DivExact(d / q * e, q);
    assert n % q == 0 && q < n;
  }

  predicate NoneSieved(lo: nat, hi: nat)
    decreases hi - lo
  {
    lo >= hi || (!Sieve(lo) && NoneSieved(lo + 1, hi))
  }

  lemma {:induction false} NoneBetween(lo: nat, hi: nat, n: nat)
    requires NoneSieved(lo, hi) && lo <= n < hi
    ensures !Sieve(n)
    decreases hi - lo
  {
    if lo < n { NoneBetween(lo + 1, hi, n); }
  }

  /** Entry t is sieved, and nothing between it and the next entry is. */
  predicate GapFits(t: nat)
    requires t < 63
  {
    Sieve(PrimeAt(t)) && PrimeAt(t) < PrimeAt(t + 1) && NoneSieved(PrimeAt(t) + 1, PrimeAt(t + 1))
  }

  lemma PrimeValues0()
    ensures PrimeAt(0) == 2 && PrimeAt(1) == 3 && PrimeAt(2) == 5 && PrimeAt(3) == 7 && PrimeAt(4) == 11
    ensures PrimeAt(5) == 13 && PrimeAt(6) == 17 && PrimeAt(7) == 19 && PrimeAt(8) == 23 && PrimeAt(9) == 29
    ensures PrimeAt(10) == 31 && PrimeAt(11) == 37 && PrimeAt(12) == 41 && PrimeAt(13) == 43 && PrimeAt(14) == 47
    ensures PrimeAt(15) == 53 && PrimeAt(16) == 59 && PrimeAt(17) == 61 && PrimeAt(18) == 67 && PrimeAt(19) == 71
    ensures PrimeAt(20) == 73 && PrimeAt(21) == 79 && PrimeAt(22) == 83 && PrimeAt(23) == 89 && PrimeAt(24) == 97
    ensures PrimeAt(25) == 101 && PrimeAt(26) == 103 && PrimeAt(27) == 107 && PrimeAt(28) == 109 && PrimeAt(29) == 113
    ensures PrimeAt(30) == 127 && PrimeAt(31) == 131
  {
  }

  lemma PrimeValues32()
    ensures PrimeAt(32) == 137 && PrimeAt(33) == 139 && PrimeAt(34) == 149 && PrimeAt(35) == 151 && PrimeAt(36) == 157
    ensures PrimeAt(37) == 163 && PrimeAt(38) == 167 && PrimeAt(39) == 173 && PrimeAt(40) == 179 && PrimeAt(41) == 181
    ensures PrimeAt(42) == 191 && PrimeAt(43) == 193 && PrimeAt(44) == 197 && PrimeAt(45) == 199 && PrimeAt(46) == 211
    ensures PrimeAt(47) == 223 && PrimeAt(48) == 227 && PrimeAt(49) == 229 && PrimeAt(50) == 233 && PrimeAt(51) == 239
    ensures PrimeAt(52) == 241 && PrimeAt(53) == 251 && PrimeAt(54) == 257 && PrimeAt(55) == 263 && PrimeAt(56) == 269
    ensures PrimeAt(57) == 271 && PrimeAt(58) == 277 && PrimeAt(59) == 281 && PrimeAt(60) == 283 && PrimeAt(61) == 293
    ensures PrimeAt(62) == 307 && PrimeAt(63) == 311
  {
  }

  lemma Sieved0()
    ensures Sieve(2) && NoneSieved(3, 3) && Sieve(3) && NoneSieved(4, 5)
    ensures Sieve(5) && NoneSieved(6, 7) && Sieve(7) && NoneSieved(8, 11)
    ensures Sieve(11) && NoneSieved(12, 13) && Sieve(13) && NoneSieved(14, 17)
    ensures Sieve(17) && NoneSieved(18, 19) && Sieve(19) && NoneSieved(20, 23)
    ensures Sieve(23) && NoneSieved(24, 29) && Sieve(29) && NoneSieved(30, 31)
    ensures Sieve(31) && NoneSieved(32, 37) && Sieve(37) && NoneSieved(38, 41)
    ensures Sieve(41) && NoneSieved(42, 43) && Sieve(43) && NoneSieved(44, 47)
    ensures Sieve(47) && NoneSieved(48, 53) && Sieve(53) && NoneSieved(54, 59)
  {
  }

  lemma Sieved16()
    ensures Sieve(59) && NoneSieved(60, 61) && Sieve(61) && NoneSieved(62, 67)
    ensures Sieve(67) && NoneSieved(68, 71) && Sieve(71) && NoneSieved(72, 73)
    ensures Sieve(73) && NoneSieved(74, 79) && Sieve(79) && NoneSieved(80, 83)
    ensures Sieve(83) && NoneSieved(84, 89) && Sieve(89) && NoneSieved(90, 97)
    ensures Sieve(97) && NoneSieved(98, 101) && Sieve(101) && NoneSieved(102, 103)
    ensures Sieve(103) && NoneSieved(104, 107) && Sieve(107) && NoneSieved(108, 109)
    ensures Sieve(109) && NoneSieved(110, 113) && Sieve(113) && NoneSieved(114, 127)
    ensures Sieve(127) && NoneSieved(128, 131) && Sieve(131) && NoneSieved(132, 137)
  {
  }

  lemma Sieved32()
    ensures Sieve(137) && NoneSieved(138, 139) && Sieve(139) && NoneSieved(140, 149)
    ensures Sieve(149) && NoneSieved(150, 151) && Sieve(151) && NoneSieved(152, 157)
    ensures Sieve(157) && NoneSieved(158, 163) && Sieve(163) && NoneSieved(164, 167)
    ensures Sieve(167) && NoneSieved(168, 173) && Sieve(173) && NoneSieved(174, 179)
    ensures Sieve(179) && NoneSieved(180, 181) && Sieve(181) && NoneSieved(182, 191)
    ensures Sieve(191) && NoneSieved(192, 193) && Sieve(193) && NoneSieved(194, 197)
    ensures Sieve(197) && NoneSieved(198, 199) && Sieve(199) && NoneSieved(200, 211)
    ensures Sieve(211) && NoneSieved(212, 223) && Sieve(223) && NoneSieved(224, 227)
  {
  }

  lemma Sieved48()
    ensures Sieve(227) && NoneSieved(228, 229) && Sieve(229) && NoneSieved(230, 233)
    ensures Sieve(233) && NoneSieved(234, 239) && Sieve(239) && NoneSieved(240, 241)
    ensures Sieve(241) && NoneSieved(242, 251) && Sieve(251) && NoneSieved(252, 257)
    ensures Sieve(257) && NoneSieved(258, 263) && Sieve(263) && NoneSieved(264, 269)
    ensures Sieve(269) && NoneSieved(270, 271) && Sieve(271) && NoneSieved(272, 277)
    ensures Sieve(277) && NoneSieved(278, 281) && Sieve(281) && NoneSieved(282, 283)
    ensures Sieve(283) && NoneSieved(284, 293) && Sieve(293) && NoneSieved(294, 307)
    ensures Sieve(307) && NoneSieved(308, 311)
  {
  }

  lemma AllGaps(t: nat)
    requires t < 63
    ensures GapFits(t)
  {
    hide PrimeAt, Sieve, NoneSieved;
    PrimeValues0();
    PrimeValues32();
    if t < 16 { Sieved0(); } else
    if t < 32 { Sieved16(); } else
    if t < 48 { Sieved32(); } else
    { Sieved48(); }
  }

  /** The table holds the first 64 primes: it starts with 2 and leaves none out. */
  lemma PrimesInOrder(t: nat)
    requires t < 64
    ensures PrimeAt(0) == 2 && IsPrime(PrimeAt(t))
    ensures t < 63 ==> PrimeAt(t) < PrimeAt(t + 1)
    ensures t < 63 ==> forall n: nat :: PrimeAt(t) < n < PrimeAt(t + 1) ==> !IsPrime(n)
  {
    hide Sieve, IsPrime, NoneSieved;
    PrimeBounds(t);
    SieveIsPrime(PrimeAt(t));
    if t < 63 {
      AllGaps(t);
      PrimeBounds(t + 1);
      forall n: nat | PrimeAt(t) < n < PrimeAt(t + 1) ensures !IsPrime(n) {
        NoneBetween(PrimeAt(t) + 1, PrimeAt(t + 1), n);
        SieveIsPrime(n);
      }
    } else {
      LastPrime();
    }
  }

  lemma PrimeBounds(t: nat)
    requires t < 64
    ensures PrimeAt(t) < 324 && PrimeAt(0) == 2
  {
    PrimeRows();
    assert forall r, c :: 0 <= r < 8 && 0 <= c < 8 ==> PRIME_ROWS[r][c] < 324;
  }

  lemma LastPrime()
    ensures Sieve(PrimeAt(63))
  {
  }

  /* The constants are fractional parts of roots */

  /** k is the first 32 bits of the fractional part of the cube root of p. */
  ghost predicate CubeRootBits(p: nat, k: nat) {
    exists c: nat :: RootBits3(p, c, k)
  }

  predicate RootBits3(p: nat, c: nat, k: nat) {
    var x := c * 0x1_0000_0000 + k;
    && k < 0x1_0000_0000 && c * c * c <= p < (c + 1) * (c + 1) * (c + 1)
    && x * x * x <= p * 0x1_0000_0000_0000_0000_0000_0000 < (x + 1) * (x + 1) * (x + 1)
  }

  /** The same for square roots. */
  ghost predicate SquareRootBits(p: nat, k: nat) {
    exists c: nat :: RootBits2(p, c, k)
  }

  predicate RootBits2(p: nat, c: nat, k: nat) {
    var x := c * 0x1_0000_0000 + k;
    && k < 0x1_0000_0000 && c * c <= p < (c + 1) * (c + 1)
    && x * x <= p * 0x1_0000_0000_0000_0000 < (x + 1) * (x + 1)
  }

  lemma ConstantValues0()
    ensures K(0) == 0x428A2F98 && K(1) == 0x71374491 && K(2) == 0xB5C0FBCF && K(3) == 0xE9B5DBA5 && K(4) == 0x3956C25B
    ensures K(5) == 0x59F111F1 && K(6) == 0x923F82A4 && K(7) == 0xAB1C5ED5 && K(8) == 0xD807AA98 && K(9) == 0x12835B01
    ensures K(10) == 0x243185BE && K(11) == 0x550C7DC3 && K(12) == 0x72BE5D74 && K(13) == 0x80DEB1FE && K(14) == 0x9BDC06A7
    ensures K(15) == 0xC19BF174 && K(16) == 0xE49B69C1 && K(17) == 0xEFBE4786 && K(18) == 0x0FC19DC6 && K(19) == 0x240CA1CC
    ensures K(20) == 0x2DE92C6F && K(21) == 0x4A7484AA && K(22) == 0x5CB0A9DC && K(23) == 0x76F988DA && K(24) == 0x983E5152
    ensures K(25) == 0xA831C66D && K(26) == 0xB00327C8 && K(27) == 0xBF597FC7 && K(28) == 0xC6E00BF3 && K(29) == 0xD5A79147
    ensures K(30) == 0x06CA6351 && K(31) == 0x14292967
  {
  }

  lemma ConstantValues32()
    ensures K(32) == 0x27B70A85 && K(33) == 0x2E1B2138 && K(34) == 0x4D2C6DFC && K(35) == 0x53380D13 && K(36) == 0x650A7354
    ensures K(37) == 0x766A0ABB && K(38) == 0x81C2C92E && K(39) == 0x92722C85 && K(40) == 0xA2BFE8A1 && K(41) == 0xA81A664B
    ensures K(42) == 0xC24B8B70 && K(43) == 0xC76C51A3 && K(44) == 0xD192E819 && K(45) == 0xD6990624 && K(46) == 0xF40E3585
    ensures K(47) == 0x106AA070 && K(48) == 0x19A4C116 && K(49) == 0x1E376C08 && K(50) == 0x2748774C && K(51) == 0x34B0BCB5
    ensures K(52) == 0x391C0CB3 && K(53) == 0x4ED8AA4A && K(54) == 0x5B9CCA4F && K(55) == 0x682E6FF3 && K(56) == 0x748F82EE
    ensures K(57) == 0x78A5636F && K(58) == 0x84C87814 && K(59) == 0x8CC70208 && K(60) == 0x90BEFFFA && K(61) == 0xA4506CEB
    ensures K(62) == 0xBEF9A3F7 && K(63) == 0xC67178F2
  {
  }

  lemma Roots0()
    ensures RootBits3(2, 1, 0x428A2F98) && RootBits3(3, 1, 0x71374491) && RootBits3(5, 1, 0xB5C0FBCF)
    ensures RootBits3(7, 1, 0xE9B5DBA5) && RootBits3(11, 2, 0x3956C25B) && RootBits3(13, 2, 0x59F111F1)
    ensures RootBits3(17, 2, 0x923F82A4) && RootBits3(19, 2, 0xAB1C5ED5)
  {
  }

  lemma Roots8()
    ensures RootBits3(23, 2, 0xD807AA98) && RootBits3(29, 3, 0x12835B01) && RootBits3(31, 3, 0x243185BE)
    ensures RootBits3(37, 3, 0x550C7DC3) && RootBits3(41, 3, 0x72BE5D74) && RootBits3(43, 3, 0x80DEB1FE)
    ensures RootBits3(47, 3, 0x9BDC06A7) && RootBits3(53, 3, 0xC19BF174)
  {
  }

  lemma Roots16()
    ensures RootBits3(59, 3, 0xE49B69C1) && RootBits3(61, 3, 0xEFBE4786) && RootBits3(67, 4, 0x0FC19DC6)
    ensures RootBits3(71, 4, 0x240CA1CC) && RootBits3(73, 4, 0x2DE92C6F) && RootBits3(79, 4, 0x4A7484AA)
    ensures RootBits3(83, 4, 0x5CB0A9DC) && RootBits3(89, 4, 0x76F988DA)
  {
  }

  lemma Roots24()
    ensures RootBits3(97, 4, 0x983E5152) && RootBits3(101, 4, 0xA831C66D) && RootBits3(103, 4, 0xB00327C8)
    ensures RootBits3(107, 4, 0xBF597FC7) && RootBits3(109, 4, 0xC6E00BF3) && RootBits3(113, 4, 0xD5A79147)
    ensures RootBits3(127, 5, 0x06CA6351) && RootBits3(131, 5, 0x14292967)
  {
  }

  lemma Roots32()
    ensures RootBits3(137, 5, 0x27B70A85) && RootBits3(139, 5, 0x2E1B2138) && RootBits3(149, 5, 0x4D2C6DFC)
    ensures RootBits3(151, 5, 0x53380D13) && RootBits3(157, 5, 0x650A7354) && RootBits3(163, 5, 0x766A0ABB)
    ensures RootBits3(167, 5, 0x81C2C92E) && RootBits3(173, 5, 0x92722C85)
  {
  }

  lemma Roots40()
    ensures RootBits3(179, 5, 0xA2BFE8A1) && RootBits3(181, 5, 0xA81A664B) && RootBits3(191, 5, 0xC24B8B70)
    ensures RootBits3(193, 5, 0xC76C51A3) && RootBits3(197, 5, 0xD192E819) && RootBits3(199, 5, 0xD6990624)
    ensures RootBits3(211, 5, 0xF40E3585) && RootBits3(223, 6, 0x106AA070)
  {
  }

  lemma Roots48()
    ensures RootBits3(227, 6, 0x19A4C116) && RootBits3(229, 6, 0x1E376C08) && RootBits3(233, 6, 0x2748774C)
    ensures RootBits3(239, 6, 0x34B0BCB5) && RootBits3(241, 6, 0x391C0CB3) && RootBits3(251, 6, 0x4ED8AA4A)
    ensures RootBits3(257, 6, 0x5B9CCA4F) && RootBits3(263, 6, 0x682E6FF3)
  {
  }

  lemma Roots56()
    ensures RootBits3(269, 6, 0x748F82EE) && RootBits3(271, 6, 0x78A5636F) && RootBits3(277, 6, 0x84C87814)
    ensures RootBits3(281, 6, 0x8CC70208) && RootBits3(283, 6, 0x90BEFFFA) && RootBits3(293, 6, 0xA4506CEB)
    ensures RootBits3(307, 6, 0xBEF9A3F7) && RootBits3(311, 6, 0xC67178F2)
  {
  }

  lemma AllRoots(t: nat)
    requires t < 64
    ensures CubeRootBits(PrimeAt(t), K(t) as nat)
  {
    hide PrimeAt, K, RootBits3;
    PrimeValues0();
    PrimeValues32();
    ConstantValues0();
    ConstantValues32();
    if t < 8 { Roots0(); } else
    if t < 16 { Roots8(); } else
    if t < 24 { Roots16(); } else
    if t < 32 { Roots24(); } else
    if t < 40 { Roots32(); } else
    if t < 48 { Roots40(); } else
    if t < 56 { Roots48(); } else
    { Roots56(); }
  }

  /** Section 4.2.2 of FIPS 180-4: constant t is the first 32 bits of the fractional part of the
      cube root of the t-th prime. */
  lemma RoundConstants(t: nat)
    requires t < 64
    ensures CubeRootBits(PrimeAt(t), K(t) as nat)
  {
    AllRoots(t);
  }

  predicate StartFits(t: nat)
    requires t < 8
  {
    ConstantSizes();
    RootBits2(PrimeAt(t), if t < 1 then 1 else if t < 2 then 1 else if t < 4 then 2 else if t < 6 then 3 else 4, H0[t] as nat)
  }

  /** Section 5.3.3: the initial hash value holds those of the square roots of the first eight primes. */
  lemma InitialValue(t: nat)
    requires t < 8
    ensures |H0| == 8 && SquareRootBits(PrimeAt(t), H0[t] as nat)
  {
    ConstantSizes();
    StartRoots();
    assert StartFits(t);
  }

  lemma StartRoots()
    ensures StartFits(0) && StartFits(1) && StartFits(2) && StartFits(3)
    ensures StartFits(4) && StartFits(5) && StartFits(6) && StartFits(7)
  {
  }

  /* Words and bytes */

  lemma PairOfOctets(a: Octet, b: Octet)
    ensures (((a as bv16) << 8) | (b as bv16)) as nat == 0x100 * (a as nat) + (b as nat)
  {
  }

  lemma PairOfHalves(x: bv16, y: bv16)
    ensures (((x as bv32) << 16) | (y as bv32)) as nat == 0x1_0000 * (x as nat) + (y as nat)
  {
  }

  function Joined(a: Octet, b: Octet, c: Octet, d: Octet): Word {
    ((a as bv32) << 24) | ((b as bv32) << 16) | ((c as bv32) << 8) | (d as bv32)
  }

  lemma JoinedHalves(a: Octet, b: Octet, c: Octet, d: Octet)
    ensures Joined(a, b, c, d)
         == (((((a as bv16) << 8) | (b as bv16)) as bv32) << 16) | ((((c as bv16) << 8) | (d as bv16)) as bv32)
  {
  }

  lemma JoinedValue(a: Octet, b: Octet, c: Octet, d: Octet)
    ensures Joined(a, b, c, d) as nat
         == 0x100_0000 * (a as nat) + 0x1_0000 * (b as nat) + 0x100 * (c as nat) + (d as nat)
  {
    PairOfOctets(a, b);
    PairOfOctets(c, d);
    JoinedHalves(a, b, c, d);
    PairOfHalves(((a as bv16) << 8) | (b as bv16), ((c as bv16) << 8) | (d as bv16));
  }

  lemma Digits(a: nat, b: nat, c: nat, d: nat)
    requires a < 256 && b < 256 && c < 256 && d < 256
    ensures var v := 0x100_0000 * a + 0x1_0000 * b + 0x100 * c + d;
            && v / 0x100_0000 % 256 == a && v / 0x1_0000 % 256 == b && v / 0x100 % 256 == c && v % 256 == d
  {
    var v := 0x100_0000 * a + 0x1_0000 * b + 0x100 * c + d;
    DivUnique(v, 0x100_0000, a, 0x1_0000 * b + 0x100 * c + d);
    DivUnique(v, 0x1_0000, 0x100 * a + b, 0x100 * c + d);
    DivUnique(v, 0x100, 0x1_0000 * a + 0x100 * b + c, d);
  }

  lemma OctetBack(a: Octet)
    ensures (a as nat) < 256 && ToOctet(a as nat) == a
  {
  }

  lemma JoinedBigEndian(a: Octet, b: Octet, c: Octet, d: Octet)
    ensures BigEndian(Joined(a, b, c, d) as nat, 4) == [a, b, c, d]
  {
    hide Joined, ToOctet, BigEndian;
    OctetBack(a);
    OctetBack(b);
    OctetBack(c);
    OctetBack(d);
    JoinedValue(a, b, c, d);
    FourDigits(Joined(a, b, c, d) as nat, a as nat, b as nat, c as nat, d as nat);
  }

  lemma FourDigits(v: nat, a: nat, b: nat, c: nat, d: nat)
    requires a < 256 && b < 256 && c < 256 && d < 256
    requires v == 0x100_0000 * a + 0x1_0000 * b + 0x100 * c + d
    ensures BigEndian(v, 4) == [ToOctet(a), ToOctet(b), ToOctet(c), ToOctet(d)]
  {
    hide ToOctet, BigEndian;
    Digits(a, b, c, d);
    BigEndian4(v);
  }

  /** A word of a block is its four bytes, most significant first. */
  lemma WordAtBigEndian(block: seq<Octet>, t: nat)
    requires |block| == 64 && t < 16
    ensures BigEndian(WordAt(block, t) as nat, 4) == block[4 * t..4 * t + 4]
  {
    hide BigEndian;
    JoinedBigEndian(block[4 * t], block[4 * t + 1], block[4 * t + 2], block[4 * t + 3]);
  }

  /** A word is emitted most significant byte first. */
  lemma WordOctetsBigEndian(w: Word)
    ensures WordOctets(w) == BigEndian(w as nat, 4)
  {
    hide BigEndian;
    var bs := WordOctets(w);
    SplitJoined(w);
    JoinedBigEndian(bs[0], bs[1], bs[2], bs[3]);
    assert bs == [bs[0], bs[1], bs[2], bs[3]];
  }

  lemma SplitJoined(w: Word)
    ensures Joined(((w >> 24) & 0xFF) as bv8, ((w >> 16) & 0xFF) as bv8, ((w >> 8) & 0xFF) as bv8, (w & 0xFF) as bv8) == w
  {
  }

  /** Where x has a one Ch takes the bit of y, elsewhere that of z. */
  lemma ChChooses(x: Word, y: Word, z: Word)
    ensures Ch(x, y, z) & x == y & x && Ch(x, y, z) & !x == z & !x
  {
  }

  /** Maj has a one where at least two of its arguments have. */
  lemma MajVotes(x: Word, y: Word, z: Word)
    ensures Maj(x, y, z) == (x & y) | (x & z) | (y & z)
  {
  }

  /* Padding and HMAC */

  /** A padded message is the message, the byte 0x80, zeros, and the length in bits as eight bytes,
      big-endian; it fills as few blocks of 64 bytes as that takes. */
  lemma PadShape(m: seq<Octet>, bits: nat)
    ensures var p := PadWith(m, bits);
            && |p| % 64 == 0 && |m| + 9 <= |p| < |m| + 9 + 64
            && p[..|m|] == m && p[|m|] == 0x80
            && (forall i :: |m| < i < |p| - 8 ==> p[i] == 0)
            && p[|p| - 8..] == BigEndian(bits, 8)
  {
    hide BigEndian;
    var p, z := PadWith(m, bits), Zeros(ZeroCount(|m|));
    assert p == m + [0x80] + z + BigEndian(bits, 8);
    forall i | |m| < i < |p| - 8 ensures p[i] == 0 {
      assert p[i] == z[i - |m| - 1];
    }
  }

  /** Section 2 of RFC 2104: both pads are the key, hashed if longer than 64 bytes and filled up with
      zeros, with every byte xored with 0x36 inside and with 0x5C outside. */
  lemma HmacPads(key: seq<Octet>, text: seq<Octet>) returns (k: seq<Octet>, i: seq<Octet>, o: seq<Octet>)
    requires 8 * |key| < U64 && 8 * (64 + |text|) < U64
    ensures |k| == |i| == |o| == 64
    ensures var short := if |key| > 64 then Sha256(key) else key;
            k[..|short|] == short && forall j :: |short| <= j < 64 ==> k[j] == 0
    ensures forall j :: 0 <= j < 64 ==> i[j] == k[j] ^ 0x36 && o[j] == k[j] ^ 0x5C
    ensures Hmac(key, text) == Sha256(o + Sha256(i + text))
  {
    hide Sha256;
    k := BlockKey(key);
    i, o := XorAll(k, 0x36), XorAll(k, 0x5C);
  }
}
