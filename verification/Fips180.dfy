/**
 32-bit words: the functions of FIPS 180-4 and the macros that cbase_hash.c computes them with.
 */
module WordOps {

  type Word = bv32

  /* FIPS 180-4, section 3.2 and section 4.1.2 */

  function ROTR(x: Word, n: Word): Word
    requires 0 < n < 32
  {
    (x >> n) | (x << (32 - n))
  }

  /** Addition modulo 2^32, as both the standard and C's uint32_t have it. */
  function Add(x: Word, y: Word): Word { x + y }

  function Xor3(x: Word, y: Word, z: Word): Word { x ^ y ^ z }

  function Ch(x: Word, y: Word, z: Word): Word { (x & y) ^ (!x & z) }
  function Maj(x: Word, y: Word, z: Word): Word { (x & y) ^ (x & z) ^ (y & z) }
  function BigSigma0(x: Word): Word { Xor3(ROTR(x, 2), ROTR(x, 13), ROTR(x, 22)) }
  function BigSigma1(x: Word): Word { Xor3(ROTR(x, 6), ROTR(x, 11), ROTR(x, 25)) }
  function SmallSigma0(x: Word): Word { Xor3(ROTR(x, 7), ROTR(x, 18), x >> 3) }
  function SmallSigma1(x: Word): Word { Xor3(ROTR(x, 17), ROTR(x, 19), x >> 10) }

  /* The same in cbase_hash.c */

  /** cb__rotr32: the left half of the rotation goes through 64 bits. */
  function Rotr32(x: Word, n: Word): Word
    requires 0 < n < 32
  {
    (x >> n) | ((((x as bv64) << ((32 - n) as bv64)) & 0xFFFF_FFFF) as bv32)
  }

  function BSIG0(x: Word): Word { Xor3(Rotr32(x, 2), Rotr32(x, 13), Rotr32(x, 22)) }
  function BSIG1(x: Word): Word { Xor3(Rotr32(x, 6), Rotr32(x, 11), Rotr32(x, 25)) }
  function SSIG0(x: Word): Word { Xor3(Rotr32(x, 7), Rotr32(x, 18), x >> 3) }
  function SSIG1(x: Word): Word { Xor3(Rotr32(x, 17), Rotr32(x, 19), x >> 10) }

  lemma ShiftThrough64(x: Word, n: Word)
    requires 0 < n < 32
    ensures ((((x as bv64) << ((32 - n) as bv64)) & 0xFFFF_FFFF) as bv32) == x << (32 - n)
  {
  }

  lemma Rotr32IsRotation(x: Word, n: Word)
    requires 0 < n < 32
    ensures Rotr32(x, n) == ROTR(x, n)
  {
    ShiftThrough64(x, n);
  }

  /** The macros compute the functions of the standard. */
  lemma MacrosAgree(x: Word)
    ensures BSIG0(x) == BigSigma0(x) && BSIG1(x) == BigSigma1(x)
    ensures SSIG0(x) == SmallSigma0(x) && SSIG1(x) == SmallSigma1(x)
  {
    hide Rotr32, ROTR, Xor3;
    Rotr32IsRotation(x, 2); Rotr32IsRotation(x, 13); Rotr32IsRotation(x, 22);
    Rotr32IsRotation(x, 6); Rotr32IsRotation(x, 11); Rotr32IsRotation(x, 25);
    Rotr32IsRotation(x, 7); Rotr32IsRotation(x, 18);
    Rotr32IsRotation(x, 17); Rotr32IsRotation(x, 19);
  }
}

/**
 SHA-256 as FIPS 180-4 defines it, and HMAC as RFC 2104 defines it, on sequences of bytes.
 */
module Fips180 {
  import opened Bits
  import opened WordOps

  type Octet = bv8

  /* Section 4.2.2: constants */

  const K_ROWS: seq<seq<Word>> := [
    [0x428A2F98, 0x71374491, 0xB5C0FBCF, 0xE9B5DBA5, 0x3956C25B, 0x59F111F1, 0x923F82A4, 0xAB1C5ED5],
    [0xD807AA98, 0x12835B01, 0x243185BE, 0x550C7DC3, 0x72BE5D74, 0x80DEB1FE, 0x9BDC06A7, 0xC19BF174],
    [0xE49B69C1, 0xEFBE4786, 0x0FC19DC6, 0x240CA1CC, 0x2DE92C6F, 0x4A7484AA, 0x5CB0A9DC, 0x76F988DA],
    [0x983E5152, 0xA831C66D, 0xB00327C8, 0xBF597FC7, 0xC6E00BF3, 0xD5A79147, 0x06CA6351, 0x14292967],
    [0x27B70A85, 0x2E1B2138, 0x4D2C6DFC, 0x53380D13, 0x650A7354, 0x766A0ABB, 0x81C2C92E, 0x92722C85],
    [0xA2BFE8A1, 0xA81A664B, 0xC24B8B70, 0xC76C51A3, 0xD192E819, 0xD6990624, 0xF40E3585, 0x106AA070],
    [0x19A4C116, 0x1E376C08, 0x2748774C, 0x34B0BCB5, 0x391C0CB3, 0x4ED8AA4A, 0x5B9CCA4F, 0x682E6FF3],
    [0x748F82EE, 0x78A5636F, 0x84C87814, 0x8CC70208, 0x90BEFFFA, 0xA4506CEB, 0xBEF9A3F7, 0xC67178F2]]

  function K(t: nat): Word
    requires t < 64
  {
    RowSizes();
    K_ROWS[t / 8][t % 8]
  }

  lemma RowSizes()
    ensures |K_ROWS| == 8 && forall r :: 0 <= r < 8 ==> |K_ROWS[r]| == 8
  {
  }

  /** Section 5.3.3: the initial hash value. */
  const H0: seq<Word> := [
    0x6A09E667, 0xBB67AE85, 0x3C6EF372, 0xA54FF53A, 0x510E527F, 0x9B05688C, 0x1F83D9AB, 0x5BE0CD19]

  lemma ConstantSizes()
    ensures |H0| == 8
  {
  }

  /* Section 6.2.2: the hash computation for one block */

  function WordAt(block: seq<Octet>, t: nat): Word
    requires |block| == 64 && t < 16
  {
    ((block[4 * t] as bv32) << 24) | ((block[4 * t + 1] as bv32) << 16)
    | ((block[4 * t + 2] as bv32) << 8) | (block[4 * t + 3] as bv32)
  }

  /** The message schedule. */
  function Schedule(block: seq<Octet>, t: nat): Word
    requires |block| == 64 && t < 64
  {
    if t < 16 then WordAt(block, t)
    else Add(Add(Add(SmallSigma1(Schedule(block, t - 2)), Schedule(block, t - 7)),
                 SmallSigma0(Schedule(block, t - 15))), Schedule(block, t - 16))
  }

  datatype Vars = Vars(a: Word, b: Word, c: Word, d: Word, e: Word, f: Word, g: Word, h: Word)

  function Round(v: Vars, k: Word, w: Word): Vars {
    var t1 := Add(Add(Add(Add(v.h, BigSigma1(v.e)), Ch(v.e, v.f, v.g)), k), w);
    var t2 := Add(BigSigma0(v.a), Maj(v.a, v.b, v.c));
    Vars(Add(t1, t2), v.a, v.b, v.c, Add(v.d, t1), v.e, v.f, v.g)
  }

  function Start(s: seq<Word>): Vars
    requires |s| == 8
  {
    Vars(s[0], s[1], s[2], s[3], s[4], s[5], s[6], s[7])
  }

  /** The working variables after t rounds. */
  function Rounds(s: seq<Word>, block: seq<Octet>, t: nat): Vars
    requires |s| == 8 && |block| == 64 && t <= 64
  {
    if t == 0 then Start(s) else Round(Rounds(s, block, t - 1), K(t - 1), Schedule(block, t - 1))
  }

  function AddVars(s: seq<Word>, v: Vars): (r: seq<Word>)
    requires |s| == 8
    ensures |r| == 8
  {
    [Add(s[0], v.a), Add(s[1], v.b), Add(s[2], v.c), Add(s[3], v.d),
     Add(s[4], v.e), Add(s[5], v.f), Add(s[6], v.g), Add(s[7], v.h)]
  }

  function Compress(s: seq<Word>, block: seq<Octet>): (r: seq<Word>)
    requires |s| == 8 && |block| == 64
    ensures |r| == 8
  {
    AddVars(s, Rounds(s, block, 64))
  }

  /** All blocks of a padded message, in order. */
  ghost function Blocks(s: seq<Word>, m: seq<Octet>): (r: seq<Word>)
    requires |s| == 8 && |m| % 64 == 0
    ensures |r| == 8
    decreases |m|
  {
    if m == [] then s else Compress(Blocks(s, m[..|m| - 64]), m[|m| - 64..])
  }

  /* Section 5.1.1: padding */

  function Zeros(k: nat): (z: seq<Octet>)
    ensures |z| == k && forall i :: 0 <= i < k ==> z[i] == 0
  {
    if k == 0 then [] else Zeros(k - 1) + [0]
  }

  /** The smallest k with n + 1 + k congruent to 56 modulo 64 (in bytes). */
  function ZeroCount(n: nat): (k: nat)
    ensures k < 64 && (n + 1 + k) % 64 == 56
  {
    if n % 64 < 56 then 55 - n % 64 else 119 - n % 64
  }

  function ToOctet(v: nat): Octet
    requires v < 256
  {
    v as bv8
  }

  /** A number as k bytes, most significant first. */
  function BigEndian(v: nat, k: nat): (bs: seq<Octet>)
    ensures |bs| == k
    decreases k
  {
    if k == 0 then [] else BigEndian(v / 256, k - 1) + [ToOctet(v % 256)]
  }

  /** The message, the bit 1, zeros, and a 64-bit length field. */
  ghost function PadWith(m: seq<Octet>, bits: nat): (p: seq<Octet>)
    ensures |p| % 64 == 0
  {
    m + [0x80] + Zeros(ZeroCount(|m|)) + BigEndian(bits, 8)
  }

  function WordOctets(w: Word): (bs: seq<Octet>)
    ensures |bs| == 4
  {
    [((w >> 24) & 0xFF) as bv8, ((w >> 16) & 0xFF) as bv8, ((w >> 8) & 0xFF) as bv8, (w & 0xFF) as bv8]
  }

  function Octets(s: seq<Word>): (bs: seq<Octet>)
    ensures |bs| == 4 * |s|
  {
    if s == [] then [] else Octets(s[..|s| - 1]) + WordOctets(s[|s| - 1])
  }

  ghost function DigestWith(m: seq<Octet>, bits: nat): (d: seq<Octet>)
    ensures |d| == 32
  {
    ConstantSizes();
    Octets(Blocks(H0, PadWith(m, bits)))
  }

  /** SHA-256 of a message of less than 2^64 bits. */
  ghost function Sha256(m: seq<Octet>): (d: seq<Octet>)
    requires 8 * |m| < U64
    ensures |d| == 32
  {
    DigestWith(m, 8 * |m|)
  }

  /* RFC 2104, section 2 */

  function XorAll(bs: seq<Octet>, x: Octet): (r: seq<Octet>)
    ensures |r| == |bs| && forall i :: 0 <= i < |bs| ==> r[i] == XorOctet(bs[i], x)
  {
    if bs == [] then [] else XorAll(bs[..|bs| - 1], x) + [XorOctet(bs[|bs| - 1], x)]
  }

  function XorOctet(b: Octet, x: Octet): Octet { b ^ x }

  /** The key, hashed first if it is longer than a block, filled up with zeros. */
  ghost function BlockKey(key: seq<Octet>): (k: seq<Octet>)
    requires 8 * |key| < U64
    ensures |k| == 64
  {
    var short := if |key| > 64 then Sha256(key) else key;
    short + Zeros(64 - |short|)
  }

  ghost function Hmac(key: seq<Octet>, text: seq<Octet>): seq<Octet>
    requires 8 * |key| < U64 && 8 * (64 + |text|) < U64
  {
    var k := BlockKey(key);
    Sha256(XorAll(k, 0x5C) + Sha256(XorAll(k, 0x36) + text))
  }

  /* Hashing block by block */

  lemma {:induction false} BlocksSplit(s: seq<Word>, a: seq<Octet>, b: seq<Octet>)
    requires |s| == 8 && |a| % 64 == 0 && |b| % 64 == 0
    ensures Blocks(s, a + b) == Blocks(Blocks(s, a), b)
    decreases |b|
  {
    hide Compress;
    if b == [] {
      assert a + b == a;
    } else {
      var n := |b| - 64;
      BlocksSplit(s, a, b[..n]);
      assert (a + b)[..|a + b| - 64] == a + b[..n];
      assert (a + b)[|a + b| - 64..] == b[n..];
    }
  }

  lemma OneBlock(s: seq<Word>, b: seq<Octet>)
    requires |s| == 8 && |b| == 64
    ensures Blocks(s, b) == Compress(s, b)
  {
    hide Compress;
    assert b[..0] == [] && b[0..] == b;
  }
}
