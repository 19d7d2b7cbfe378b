/**
 The first six outputs of the generator for seed 42 and stream 54, which the documentation of
 PCG32 publishes, followed step by step from the object.
 */
module PcgExample {
  import opened Bits
  import opened Pcg
  import Random

  /** The exclusive or of two numbers below 16. */
  function Nibble(p: nat, q: nat): nat {
    (if p % 2 == q % 2 then 0 else 1) + (if p / 2 % 2 == q / 2 % 2 then 0 else 2)
    + (if p / 4 % 2 == q / 4 % 2 then 0 else 4) + (if p / 8 % 2 == q / 8 % 2 then 0 else 8)
  }

  /** The exclusive or, four bits at a time. */
  lemma XorNibble(a: nat, b: nat, p: nat, q: nat)
    requires p < 16 && q < 16
    ensures Xor(16 * a + p, 16 * b + q) == 16 * Xor(a, b) + Nibble(p, q)
  {
    hide Xor;
    var p1, p2, p3 := Halves(p);
    var q1, q2, q3 := Halves(q);
    XorBit(8 * a + p1, 8 * b + q1, p % 2, q % 2);
    XorBit(4 * a + p2, 4 * b + q2, p1 % 2, q1 % 2);
    XorBit(2 * a + p3, 2 * b + q3, p2 % 2, q2 % 2);
    XorBit(a, b, p3, q3);
  }

  lemma Halves(p: nat) returns (p1: nat, p2: nat, p3: nat)
    requires p < 16
    ensures p1 == p / 2 && p2 == p / 4 && p3 == p / 8 && p3 == p / 8 % 2 && p3 < 2
    ensures p == 2 * p1 + p % 2 && p1 == 2 * p2 + p1 % 2 && p2 == 2 * p3 + p2 % 2
  {
    p1, p2, p3 := p / 2, p / 4, p / 8;
  }

  lemma XorBit(a: nat, b: nat, p: nat, q: nat)
    requires p < 2 && q < 2
    ensures Xor(2 * a + p, 2 * b + q) == 2 * Xor(a, b) + if p == q then 0 else 1
  {
    hide Xor;
    XorParts(2 * a + p, 2 * b + q);
    FromHalves(Xor(2 * a + p, 2 * b + q), Xor(a, b), if p == q then 0 else 1);
  }

  lemma XorNothing(a: nat)
    ensures Xor(0, a) == a
  {
  }

  /** The output of a state from its 37 high bits `t`, their mixture, and its two digits for the rotation. */
  lemma OutputIs(state: nat, rot: nat, mixed: nat, hi: nat, lo: nat)
    requires IsState(state) && rot < 32
    requires state / 0x800_0000 / U32 == rot && Mix(state / 0x800_0000) % U32 == mixed
    requires hi < Pow2(32 - rot) && lo < Pow2(rot) && mixed == hi * Pow2(rot) + lo
    ensures Output(state) == lo * Pow2(32 - rot) + hi
  {
    hide Output, Mix, Pow2, Rotr;
    OutputOfHigh(state);
    RotateRight(hi, lo, rot);
  }

  lemma Mixed0()
    ensures Mix(0x3_0ae0_d705) == 0x3_0ae0_15bd
  {
    hide Xor;
    XorNibble(0xc2b, 0x30ae_0d70, 0x8, 0x5);
    XorNibble(0xc2, 0x30a_e0d7, 0xb, 0x0);
    XorNibble(0xc, 0x30_ae0d, 0x2, 0x7);
    XorNibble(0x0, 0x3_0ae0, 0xc, 0xd);
    XorNothing(0x3_0ae0);
  }

  lemma Output0()
    ensures Output(0x1857_06b8_2c2e_03f8) == 0xa15c_02b7
  {
    hide Output, Mix;
    Mixed0();
    Power0();
    OutputIs(0x1857_06b8_2c2e_03f8, 3, 0xae0_15bd, 0x15c_02b7, 0x5);
  }

  lemma Power0()
    ensures Pow2(3) == 0x8 && Pow2(29) == 0x2000_0000
  {
    Pow2Steps();
  }

  lemma Mixed1()
    ensures Mix(0x5_68ff_db10) == 0x5_68fe_812f
  {
    hide Xor;
    XorNibble(0x15a3, 0x568f_fdb1, 0xf, 0x0);
    XorNibble(0x15a, 0x568_ffdb, 0x3, 0x1);
    XorNibble(0x15, 0x56_8ffd, 0xa, 0xb);
    XorNibble(0x1, 0x5_68ff, 0x5, 0xd);
    XorNibble(0x0, 0x568f, 0x1, 0xf);
    XorNothing(0x568f);
  }

  lemma Output1()
    ensures Output(0x2b47_fed8_8766_bb05) == 0x7b47_f409
  {
    hide Output, Mix;
    Mixed1();
    Power1();
    OutputIs(0x2b47_fed8_8766_bb05, 5, 0x68fe_812f, 0x347_f409, 0xf);
  }

  lemma Power1()
    ensures Pow2(5) == 0x20 && Pow2(27) == 0x800_0000
  {
    Pow2Steps();
  }

  lemma Mixed2()
    ensures Mix(0x11_6665_2da3) == 0x11_6661_743a
  {
    hide Xor;
    XorNibble(0x4599, 0x1_1666_52da, 0x9, 0x3);
    XorNibble(0x459, 0x1166_652d, 0x9, 0xa);
    XorNibble(0x45, 0x116_6652, 0x9, 0xd);
    XorNibble(0x4, 0x11_6665, 0x5, 0x2);
    XorNibble(0x0, 0x1_1666, 0x4, 0x5);
    XorNothing(0x1_1666);
  }

  lemma Output2()
    ensures Output(0x8b33_296d_19bf_5b4e) == 0xba1d_3330
  {
    hide Output, Mix;
    Mixed2();
    Power2();
    OutputIs(0x8b33_296d_19bf_5b4e, 17, 0x6661_743a, 0x3330, 0x1_743a);
  }

  lemma Power2()
    ensures Pow2(17) == 0x2_0000 && Pow2(15) == 0x8000
  {
    Pow2Steps();
  }

  lemma Mixed3()
    ensures Mix(0x1e_e0f3_0498) == 0x1e_e0f4_bca4
  {
    hide Xor;
    XorNibble(0x7b83, 0x1_ee0f_3049, 0xc, 0x8);
    XorNibble(0x7b8, 0x1ee0_f304, 0x3, 0x9);
    XorNibble(0x7b, 0x1ee_0f30, 0x8, 0x4);
    XorNibble(0x7, 0x1e_e0f3, 0xb, 0x0);
    XorNibble(0x0, 0x1_ee0f, 0x7, 0x3);
    XorNothing(0x1_ee0f);
  }

  lemma Output3()
    ensures Output(0xf707_9824_c154_bf23) == 0x83d2_f293
  {
    hide Output, Mix;
    Mixed3();
    Power3();
    OutputIs(0xf707_9824_c154_bf23, 30, 0xe0f4_bca4, 0x3, 0x20f4_bca4);
  }

  lemma Power3()
    ensures Pow2(30) == 0x4000_0000 && Pow2(2) == 0x4
  {
    Pow2Steps();
  }

  lemma Mixed4()
    ensures Mix(0x1d_77f3_d2f5) == 0x1d_77f4_8f09
  {
    hide Xor;
    XorNibble(0x75df, 0x1_d77f_3d2f, 0xc, 0x5);
    XorNibble(0x75d, 0x1d77_f3d2, 0xf, 0xf);
    XorNibble(0x75, 0x1d7_7f3d, 0xd, 0x2);
    XorNibble(0x7, 0x1d_77f3, 0x5, 0xd);
    XorNibble(0x0, 0x1_d77f, 0x7, 0x3);
    XorNothing(0x1_d77f);
  }

  lemma Output4()
    ensures Output(0xebbf_9e97_aa16_f694) == 0xbfa4_784b
  {
    hide Output, Mix;
    Mixed4();
    Power4();
    OutputIs(0xebbf_9e97_aa16_f694, 29, 0x77f4_8f09, 0x3, 0x17f4_8f09);
  }

  lemma Power4()
    ensures Pow2(29) == 0x2000_0000 && Pow2(3) == 0x8
  {
    Pow2Steps();
  }

  lemma Mixed5()
    ensures Mix(0x10_606a_d3f7) == 0x10_606e_cbed
  {
    hide Xor;
    XorNibble(0x4181, 0x1_0606_ad3f, 0xa, 0x7);
    XorNibble(0x418, 0x1060_6ad3, 0x1, 0xf);
    XorNibble(0x41, 0x106_06ad, 0x8, 0x3);
    XorNibble(0x4, 0x10_606a, 0x1, 0xd);
    XorNibble(0x0, 0x1_0606, 0x4, 0xa);
    XorNothing(0x1_0606);
  }

  lemma Output5()
    ensures Output(0x8303_569f_be80_c471) == 0xcbed_606e
  {
    hide Output, Mix;
    Mixed5();
    Power5();
    OutputIs(0x8303_569f_be80_c471, 16, 0x606e_cbed, 0x606e, 0xcbed);
  }

  lemma Power5()
    ensures Pow2(16) == 0x1_0000 && Pow2(16) == 0x1_0000
  {
    Pow2Steps();
  }

  lemma Pow2Steps()
    ensures Pow2(3) == 8 && Pow2(5) == 32 && Pow2(15) == 0x8000 && Pow2(16) == 0x1_0000 && Pow2(17) == 0x2_0000
    ensures Pow2(27) == 0x800_0000 && Pow2(29) == 0x2000_0000 && Pow2(30) == 0x4000_0000 && Pow2(2) == 4
  {
    Pow2Values();
    assert Pow2(29) == 4 * Pow2(27);
    assert Pow2(17) == 2 * Pow2(16) && Pow2(16) == 2 * Pow2(15);
  }

  /** The states from the seed on. */
  lemma States()
    ensures Step((Step(0, 109) + 42) % U64, 109) == 0x1857_06b8_2c2e_03f8
    ensures Step(0x1857_06b8_2c2e_03f8, 109) == 0x2b47_fed8_8766_bb05
    ensures Step(0x2b47_fed8_8766_bb05, 109) == 0x8b33_296d_19bf_5b4e
    ensures Step(0x8b33_296d_19bf_5b4e, 109) == 0xf707_9824_c154_bf23
    ensures Step(0xf707_9824_c154_bf23, 109) == 0xebbf_9e97_aa16_f694
    ensures Step(0xebbf_9e97_aa16_f694, 109) == 0x8303_569f_be80_c471
  {
  }

  lemma DrawIs(state: nat)
    requires IsState(state)
    ensures Draw(state, 109, 0) == Output(state) && StateAt(state, 109, 1) == Step(state, 109)
  {
    hide Output, Step;
    assert StateAt(state, 109, 0) == state;
  }

  /** The published outputs for seed 42 and stream 54. */
  method Demo() returns (xs: seq<nat>)
    ensures xs == [0xa15c_02b7, 0x7b47_f409, 0xba1d_3330, 0x83d2_f293, 0xbfa4_784b, 0xcbed_606e]
  {
    hide Output, Step, Draw, StateAt;
    States();
    var rng := new Random.Rng.Seed(42, 54);

    Output0();
    DrawIs(0x1857_06b8_2c2e_03f8);
    var x0 := rng.NextU32();
    Output1();
    DrawIs(0x2b47_fed8_8766_bb05);
    var x1 := rng.NextU32();
    Output2();
    DrawIs(0x8b33_296d_19bf_5b4e);
    var x2 := rng.NextU32();
    Output3();
    DrawIs(0xf707_9824_c154_bf23);
    var x3 := rng.NextU32();
    Output4();
    DrawIs(0xebbf_9e97_aa16_f694);
    var x4 := rng.NextU32();
    Output5();
    DrawIs(0x8303_569f_be80_c471);
    var x5 := rng.NextU32();
    xs := [x0, x1, x2, x3, x4, x5];
  }
}
