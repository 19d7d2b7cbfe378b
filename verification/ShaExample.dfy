/**
 The worked example of FIPS 180-4: the message "abc", followed through the message schedule
 and the 64 rounds to its digest.
 */
module ShaExample {
  import opened Bits
  import opened WordOps
  import opened Fips180
  import opened Hash
  import opened ShaFacts

  /** One round: two words are new, the others move on. */
  predicate Goes(a: Word, b: Word, c: Word, d: Word, e: Word, f: Word, g: Word, h: Word,
                 k: Word, w: Word, a': Word, e': Word)
  {
    Round(Vars(a, b, c, d, e, f, g, h), k, w) == Vars(a', a, b, c, e', e, f, g)
  }

  /** One word of the schedule from four earlier ones. */
  predicate Mixes(w2: Word, w7: Word, w15: Word, w16: Word, w: Word) {
    Add(Add(Add(SmallSigma1(w2), w7), SmallSigma0(w15)), w16) == w
  }

  /* The schedule */

  ghost predicate Words0(block: seq<Octet>)
    requires |block| == 64
  {
    && Schedule(block, 0) == 0x61626380 && Schedule(block, 1) == 0x00000000 && Schedule(block, 2) == 0x00000000
    && Schedule(block, 3) == 0x00000000 && Schedule(block, 4) == 0x00000000 && Schedule(block, 5) == 0x00000000
    && Schedule(block, 6) == 0x00000000 && Schedule(block, 7) == 0x00000000
  }

  ghost predicate Words8(block: seq<Octet>)
    requires |block| == 64
  {
    && Schedule(block, 8) == 0x00000000 && Schedule(block, 9) == 0x00000000 && Schedule(block, 10) == 0x00000000
    && Schedule(block, 11) == 0x00000000 && Schedule(block, 12) == 0x00000000 && Schedule(block, 13) == 0x00000000
    && Schedule(block, 14) == 0x00000000 && Schedule(block, 15) == 0x00000018
  }

  ghost predicate Words16(block: seq<Octet>)
    requires |block| == 64
  {
    && Schedule(block, 16) == 0x61626380 && Schedule(block, 17) == 0x000F0000 && Schedule(block, 18) == 0x7DA86405
    && Schedule(block, 19) == 0x600003C6 && Schedule(block, 20) == 0x3E9D7B78 && Schedule(block, 21) == 0x0183FC00
    && Schedule(block, 22) == 0x12DCBFDB && Schedule(block, 23) == 0xE2E2C38E
  }

  ghost predicate Words24(block: seq<Octet>)
    requires |block| == 64
  {
    && Schedule(block, 24) == 0xC8215C1A && Schedule(block, 25) == 0xB73679A2 && Schedule(block, 26) == 0xE5BC3909
    && Schedule(block, 27) == 0x32663C5B && Schedule(block, 28) == 0x9D209D67 && Schedule(block, 29) == 0xEC8726CB
    && Schedule(block, 30) == 0x702138A4 && Schedule(block, 31) == 0xD3B7973B
  }

  ghost predicate Words32(block: seq<Octet>)
    requires |block| == 64
  {
    && Schedule(block, 32) == 0x93F5997F && Schedule(block, 33) == 0x3B68BA73 && Schedule(block, 34) == 0xAFF4FFC1
    && Schedule(block, 35) == 0xF10A5C62 && Schedule(block, 36) == 0x0A8B3996 && Schedule(block, 37) == 0x72AF830A
    && Schedule(block, 38) == 0x9409E33E && Schedule(block, 39) == 0x24641522
  }

  ghost predicate Words40(block: seq<Octet>)
    requires |block| == 64
  {
    && Schedule(block, 40) == 0x9F47BF94 && Schedule(block, 41) == 0xF0A64F5A && Schedule(block, 42) == 0x3E246A79
    && Schedule(block, 43) == 0x27333BA3 && Schedule(block, 44) == 0x0C4763F2 && Schedule(block, 45) == 0x840ABF27
    && Schedule(block, 46) == 0x7A290D5D && Schedule(block, 47) == 0x065C43DA
  }

  ghost predicate Words48(block: seq<Octet>)
    requires |block| == 64
  {
    && Schedule(block, 48) == 0xFB3E89CB && Schedule(block, 49) == 0xCC7617DB && Schedule(block, 50) == 0xB9E66C34
    && Schedule(block, 51) == 0xA9993667 && Schedule(block, 52) == 0x84BADEDD && Schedule(block, 53) == 0xC21462BC
    && Schedule(block, 54) == 0x1487472C && Schedule(block, 55) == 0xB20F7A99
  }

  ghost predicate Words56(block: seq<Octet>)
    requires |block| == 64
  {
    && Schedule(block, 56) == 0xEF57B9CD && Schedule(block, 57) == 0xEBE6B238 && Schedule(block, 58) == 0x9FE3095E
    && Schedule(block, 59) == 0x78BC8D4B && Schedule(block, 60) == 0xA43FCF15 && Schedule(block, 61) == 0x668B2FF8
    && Schedule(block, 62) == 0xEEABA2CC && Schedule(block, 63) == 0x12B1EDEB
  }

  lemma Mixed16()
    ensures Mixes(0x00000000, 0x00000000, 0x00000000, 0x61626380, 0x61626380)
    ensures Mixes(0x00000018, 0x00000000, 0x00000000, 0x00000000, 0x000F0000)
    ensures Mixes(0x61626380, 0x00000000, 0x00000000, 0x00000000, 0x7DA86405)
    ensures Mixes(0x000F0000, 0x00000000, 0x00000000, 0x00000000, 0x600003C6)
    ensures Mixes(0x7DA86405, 0x00000000, 0x00000000, 0x00000000, 0x3E9D7B78)
    ensures Mixes(0x600003C6, 0x00000000, 0x00000000, 0x00000000, 0x0183FC00)
    ensures Mixes(0x3E9D7B78, 0x00000018, 0x00000000, 0x00000000, 0x12DCBFDB)
    ensures Mixes(0x0183FC00, 0x61626380, 0x00000000, 0x00000000, 0xE2E2C38E)
  {
  }

  lemma Mixed24()
    ensures Mixes(0x12DCBFDB, 0x000F0000, 0x00000000, 0x00000000, 0xC8215C1A)
    ensures Mixes(0xE2E2C38E, 0x7DA86405, 0x00000000, 0x00000000, 0xB73679A2)
    ensures Mixes(0xC8215C1A, 0x600003C6, 0x00000000, 0x00000000, 0xE5BC3909)
    ensures Mixes(0xB73679A2, 0x3E9D7B78, 0x00000000, 0x00000000, 0x32663C5B)
    ensures Mixes(0xE5BC3909, 0x0183FC00, 0x00000000, 0x00000000, 0x9D209D67)
    ensures Mixes(0x32663C5B, 0x12DCBFDB, 0x00000000, 0x00000000, 0xEC8726CB)
    ensures Mixes(0x9D209D67, 0xE2E2C38E, 0x00000018, 0x00000000, 0x702138A4)
    ensures Mixes(0xEC8726CB, 0xC8215C1A, 0x61626380, 0x00000018, 0xD3B7973B)
  {
  }

  lemma Mixed32()
    ensures Mixes(0x702138A4, 0xB73679A2, 0x000F0000, 0x61626380, 0x93F5997F)
    ensures Mixes(0xD3B7973B, 0xE5BC3909, 0x7DA86405, 0x000F0000, 0x3B68BA73)
    ensures Mixes(0x93F5997F, 0x32663C5B, 0x600003C6, 0x7DA86405, 0xAFF4FFC1)
    ensures Mixes(0x3B68BA73, 0x9D209D67, 0x3E9D7B78, 0x600003C6, 0xF10A5C62)
    ensures Mixes(0xAFF4FFC1, 0xEC8726CB, 0x0183FC00, 0x3E9D7B78, 0x0A8B3996)
    ensures Mixes(0xF10A5C62, 0x702138A4, 0x12DCBFDB, 0x0183FC00, 0x72AF830A)
    ensures Mixes(0x0A8B3996, 0xD3B7973B, 0xE2E2C38E, 0x12DCBFDB, 0x9409E33E)
    ensures Mixes(0x72AF830A, 0x93F5997F, 0xC8215C1A, 0xE2E2C38E, 0x24641522)
  {
  }

  lemma Mixed40()
    ensures Mixes(0x9409E33E, 0x3B68BA73, 0xB73679A2, 0xC8215C1A, 0x9F47BF94)
    ensures Mixes(0x24641522, 0xAFF4FFC1, 0xE5BC3909, 0xB73679A2, 0xF0A64F5A)
    ensures Mixes(0x9F47BF94, 0xF10A5C62, 0x32663C5B, 0xE5BC3909, 0x3E246A79)
    ensures Mixes(0xF0A64F5A, 0x0A8B3996, 0x9D209D67, 0x32663C5B, 0x27333BA3)
    ensures Mixes(0x3E246A79, 0x72AF830A, 0xEC8726CB, 0x9D209D67, 0x0C4763F2)
    ensures Mixes(0x27333BA3, 0x9409E33E, 0x702138A4, 0xEC8726CB, 0x840ABF27)
    ensures Mixes(0x0C4763F2, 0x24641522, 0xD3B7973B, 0x702138A4, 0x7A290D5D)
    ensures Mixes(0x840ABF27, 0x9F47BF94, 0x93F5997F, 0xD3B7973B, 0x065C43DA)
  {
  }

  lemma Mixed48()
    ensures Mixes(0x7A290D5D, 0xF0A64F5A, 0x3B68BA73, 0x93F5997F, 0xFB3E89CB)
    ensures Mixes(0x065C43DA, 0x3E246A79, 0xAFF4FFC1, 0x3B68BA73, 0xCC7617DB)
    ensures Mixes(0xFB3E89CB, 0x27333BA3, 0xF10A5C62, 0xAFF4FFC1, 0xB9E66C34)
    ensures Mixes(0xCC7617DB, 0x0C4763F2, 0x0A8B3996, 0xF10A5C62, 0xA9993667)
    ensures Mixes(0xB9E66C34, 0x840ABF27, 0x72AF830A, 0x0A8B3996, 0x84BADEDD)
    ensures Mixes(0xA9993667, 0x7A290D5D, 0x9409E33E, 0x72AF830A, 0xC21462BC)
    ensures Mixes(0x84BADEDD, 0x065C43DA, 0x24641522, 0x9409E33E, 0x1487472C)
    ensures Mixes(0xC21462BC, 0xFB3E89CB, 0x9F47BF94, 0x24641522, 0xB20F7A99)
  {
  }

  lemma Mixed56()
    ensures Mixes(0x1487472C, 0xCC7617DB, 0xF0A64F5A, 0x9F47BF94, 0xEF57B9CD)
    ensures Mixes(0xB20F7A99, 0xB9E66C34, 0x3E246A79, 0xF0A64F5A, 0xEBE6B238)
    ensures Mixes(0xEF57B9CD, 0xA9993667, 0x27333BA3, 0x3E246A79, 0x9FE3095E)
    ensures Mixes(0xEBE6B238, 0x84BADEDD, 0x0C4763F2, 0x27333BA3, 0x78BC8D4B)
    ensures Mixes(0x9FE3095E, 0xC21462BC, 0x840ABF27, 0x0C4763F2, 0xA43FCF15)
    ensures Mixes(0x78BC8D4B, 0x1487472C, 0x7A290D5D, 0x840ABF27, 0x668B2FF8)
    ensures Mixes(0xA43FCF15, 0xB20F7A99, 0x065C43DA, 0x7A290D5D, 0xEEABA2CC)
    ensures Mixes(0x668B2FF8, 0xEF57B9CD, 0xFB3E89CB, 0x065C43DA, 0x12B1EDEB)
  {
  }

  lemma Next16(block: seq<Octet>)
    requires |block| == 64 && Words0(block) && Words8(block)
    ensures Words16(block)
  {
    hide Schedule, Add, SmallSigma0, SmallSigma1;
    Mixed16();
    ScheduleIs(block, 16); ScheduleIs(block, 17); ScheduleIs(block, 18); ScheduleIs(block, 19);
    ScheduleIs(block, 20); ScheduleIs(block, 21); ScheduleIs(block, 22); ScheduleIs(block, 23);
  }

  lemma Next24(block: seq<Octet>)
    requires |block| == 64 && Words8(block) && Words16(block)
    ensures Words24(block)
  {
    hide Schedule, Add, SmallSigma0, SmallSigma1;
    Mixed24();
    ScheduleIs(block, 24); ScheduleIs(block, 25); ScheduleIs(block, 26); ScheduleIs(block, 27);
    ScheduleIs(block, 28); ScheduleIs(block, 29); ScheduleIs(block, 30); ScheduleIs(block, 31);
  }

  lemma Next32(block: seq<Octet>)
    requires |block| == 64 && Words16(block) && Words24(block)
    ensures Words32(block)
  {
    hide Schedule, Add, SmallSigma0, SmallSigma1;
    Mixed32();
    ScheduleIs(block, 32); ScheduleIs(block, 33); ScheduleIs(block, 34); ScheduleIs(block, 35);
    ScheduleIs(block, 36); ScheduleIs(block, 37); ScheduleIs(block, 38); ScheduleIs(block, 39);
  }

  lemma Next40(block: seq<Octet>)
    requires |block| == 64 && Words24(block) && Words32(block)
    ensures Words40(block)
  {
    hide Schedule, Add, SmallSigma0, SmallSigma1;
    Mixed40();
    ScheduleIs(block, 40); ScheduleIs(block, 41); ScheduleIs(block, 42); ScheduleIs(block, 43);
    ScheduleIs(block, 44); ScheduleIs(block, 45); ScheduleIs(block, 46); ScheduleIs(block, 47);
  }

  lemma Next48(block: seq<Octet>)
    requires |block| == 64 && Words32(block) && Words40(block)
    ensures Words48(block)
  {
    hide Schedule, Add, SmallSigma0, SmallSigma1;
    Mixed48();
    ScheduleIs(block, 48); ScheduleIs(block, 49); ScheduleIs(block, 50); ScheduleIs(block, 51);
    ScheduleIs(block, 52); ScheduleIs(block, 53); ScheduleIs(block, 54); ScheduleIs(block, 55);
  }

  lemma Next56(block: seq<Octet>)
    requires |block| == 64 && Words40(block) && Words48(block)
    ensures Words56(block)
  {
    hide Schedule, Add, SmallSigma0, SmallSigma1;
    Mixed56();
    ScheduleIs(block, 56); ScheduleIs(block, 57); ScheduleIs(block, 58); ScheduleIs(block, 59);
    ScheduleIs(block, 60); ScheduleIs(block, 61); ScheduleIs(block, 62); ScheduleIs(block, 63);
  }

  lemma ScheduleIs(block: seq<Octet>, t: nat)
    requires |block| == 64 && 16 <= t < 64
    ensures Schedule(block, t) == Add(Add(Add(SmallSigma1(Schedule(block, t - 2)), Schedule(block, t - 7)),
                                          SmallSigma0(Schedule(block, t - 15))), Schedule(block, t - 16))
  {
    hide Add, SmallSigma0, SmallSigma1;
  }

  /* The rounds */

  lemma Rounds0()
    ensures Goes(0x6A09E667, 0xBB67AE85, 0x3C6EF372, 0xA54FF53A, 0x510E527F, 0x9B05688C, 0x1F83D9AB, 0x5BE0CD19,
                 0x428A2F98, 0x61626380, 0x5D6AEBCD, 0xFA2A4622)
    ensures Goes(0x5D6AEBCD, 0x6A09E667, 0xBB67AE85, 0x3C6EF372, 0xFA2A4622, 0x510E527F, 0x9B05688C, 0x1F83D9AB,
                 0x71374491, 0x00000000, 0x5A6AD9AD, 0x78CE7989)
    ensures Goes(0x5A6AD9AD, 0x5D6AEBCD, 0x6A09E667, 0xBB67AE85, 0x78CE7989, 0xFA2A4622, 0x510E527F, 0x9B05688C,
                 0xB5C0FBCF, 0x00000000, 0xC8C347A7, 0xF92939EB)
    ensures Goes(0xC8C347A7, 0x5A6AD9AD, 0x5D6AEBCD, 0x6A09E667, 0xF92939EB, 0x78CE7989, 0xFA2A4622, 0x510E527F,
                 0xE9B5DBA5, 0x00000000, 0xD550F666, 0x24E00850)
    ensures Goes(0xD550F666, 0xC8C347A7, 0x5A6AD9AD, 0x5D6AEBCD, 0x24E00850, 0xF92939EB, 0x78CE7989, 0xFA2A4622,
                 0x3956C25B, 0x00000000, 0x04409A6A, 0x43ADA245)
    ensures Goes(0x04409A6A, 0xD550F666, 0xC8C347A7, 0x5A6AD9AD, 0x43ADA245, 0x24E00850, 0xF92939EB, 0x78CE7989,
                 0x59F111F1, 0x00000000, 0x2B4209F5, 0x714260AD)
    ensures Goes(0x2B4209F5, 0x04409A6A, 0xD550F666, 0xC8C347A7, 0x714260AD, 0x43ADA245, 0x24E00850, 0xF92939EB,
                 0x923F82A4, 0x00000000, 0xE5030380, 0x9B27A401)
    ensures Goes(0xE5030380, 0x2B4209F5, 0x04409A6A, 0xD550F666, 0x9B27A401, 0x714260AD, 0x43ADA245, 0x24E00850,
                 0xAB1C5ED5, 0x00000000, 0x85A07B5F, 0x0C657A79)
  {
  }

  lemma After8(block: seq<Octet>)
    requires |block| == 64 && |H0| == 8 && Words0(block)
    requires Rounds(H0, block, 0) == Vars(0x6A09E667, 0xBB67AE85, 0x3C6EF372, 0xA54FF53A, 0x510E527F, 0x9B05688C, 0x1F83D9AB, 0x5BE0CD19)
    ensures Rounds(H0, block, 8) == Vars(0x85A07B5F, 0xE5030380, 0x2B4209F5, 0x04409A6A, 0x0C657A79, 0x9B27A401, 0x714260AD, 0x43ADA245)
  {
    hide Round, Rounds, Schedule, K, H0;
    ConstantValues0();
    Rounds0();
    RoundsStep(H0, block, 0); RoundsStep(H0, block, 1); RoundsStep(H0, block, 2); RoundsStep(H0, block, 3);
    RoundsStep(H0, block, 4); RoundsStep(H0, block, 5); RoundsStep(H0, block, 6); RoundsStep(H0, block, 7);
  }

  lemma Rounds8()
    ensures Goes(0x85A07B5F, 0xE5030380, 0x2B4209F5, 0x04409A6A, 0x0C657A79, 0x9B27A401, 0x714260AD, 0x43ADA245,
                 0xD807AA98, 0x00000000, 0x8E04ECB9, 0x32CA2D8C)
    ensures Goes(0x8E04ECB9, 0x85A07B5F, 0xE5030380, 0x2B4209F5, 0x32CA2D8C, 0x0C657A79, 0x9B27A401, 0x714260AD,
                 0x12835B01, 0x00000000, 0x8C87346B, 0x1CC92596)
    ensures Goes(0x8C87346B, 0x8E04ECB9, 0x85A07B5F, 0xE5030380, 0x1CC92596, 0x32CA2D8C, 0x0C657A79, 0x9B27A401,
                 0x243185BE, 0x00000000, 0x4798A3F4, 0x436B23E8)
    ensures Goes(0x4798A3F4, 0x8C87346B, 0x8E04ECB9, 0x85A07B5F, 0x436B23E8, 0x1CC92596, 0x32CA2D8C, 0x0C657A79,
                 0x550C7DC3, 0x00000000, 0xF71FC5A9, 0x816FD6E9)
    ensures Goes(0xF71FC5A9, 0x4798A3F4, 0x8C87346B, 0x8E04ECB9, 0x816FD6E9, 0x436B23E8, 0x1CC92596, 0x32CA2D8C,
                 0x72BE5D74, 0x00000000, 0x87912990, 0x1E578218)
    ensures Goes(0x87912990, 0xF71FC5A9, 0x4798A3F4, 0x8C87346B, 0x1E578218, 0x816FD6E9, 0x436B23E8, 0x1CC92596,
                 0x80DEB1FE, 0x00000000, 0xD932EB16, 0x745A48DE)
    ensures Goes(0xD932EB16, 0x87912990, 0xF71FC5A9, 0x4798A3F4, 0x745A48DE, 0x1E578218, 0x816FD6E9, 0x436B23E8,
                 0x9BDC06A7, 0x00000000, 0xC0645FDE, 0x0B92F20C)
    ensures Goes(0xC0645FDE, 0xD932EB16, 0x87912990, 0xF71FC5A9, 0x0B92F20C, 0x745A48DE, 0x1E578218, 0x816FD6E9,
                 0xC19BF174, 0x00000018, 0xB0FA238E, 0x07590DCD)
  {
  }

  lemma After16(block: seq<Octet>)
    requires |block| == 64 && |H0| == 8 && Words8(block)
    requires Rounds(H0, block, 8) == Vars(0x85A07B5F, 0xE5030380, 0x2B4209F5, 0x04409A6A, 0x0C657A79, 0x9B27A401, 0x714260AD, 0x43ADA245)
    ensures Rounds(H0, block, 16) == Vars(0xB0FA238E, 0xC0645FDE, 0xD932EB16, 0x87912990, 0x07590DCD, 0x0B92F20C, 0x745A48DE, 0x1E578218)
  {
    hide Round, Rounds, Schedule, K, H0;
    ConstantValues0();
    Rounds8();
    RoundsStep(H0, block, 8); RoundsStep(H0, block, 9); RoundsStep(H0, block, 10); RoundsStep(H0, block, 11);
    RoundsStep(H0, block, 12); RoundsStep(H0, block, 13); RoundsStep(H0, block, 14); RoundsStep(H0, block, 15);
  }

  lemma Rounds16()
    ensures Goes(0xB0FA238E, 0xC0645FDE, 0xD932EB16, 0x87912990, 0x07590DCD, 0x0B92F20C, 0x745A48DE, 0x1E578218,
                 0xE49B69C1, 0x61626380, 0x21DA9A9B, 0x8034229C)
    ensures Goes(0x21DA9A9B, 0xB0FA238E, 0xC0645FDE, 0xD932EB16, 0x8034229C, 0x07590DCD, 0x0B92F20C, 0x745A48DE,
                 0xEFBE4786, 0x000F0000, 0xC2FBD9D1, 0x846EE454)
    ensures Goes(0xC2FBD9D1, 0x21DA9A9B, 0xB0FA238E, 0xC0645FDE, 0x846EE454, 0x8034229C, 0x07590DCD, 0x0B92F20C,
                 0x0FC19DC6, 0x7DA86405, 0xFE777BBF, 0xCC899961)
    ensures Goes(0xFE777BBF, 0xC2FBD9D1, 0x21DA9A9B, 0xB0FA238E, 0xCC899961, 0x846EE454, 0x8034229C, 0x07590DCD,
                 0x240CA1CC, 0x600003C6, 0xE1F20C33, 0xB0638179)
    ensures Goes(0xE1F20C33, 0xFE777BBF, 0xC2FBD9D1, 0x21DA9A9B, 0xB0638179, 0xCC899961, 0x846EE454, 0x8034229C,
                 0x2DE92C6F, 0x3E9D7B78, 0x9DC68B63, 0x8ADA8930)
    ensures Goes(0x9DC68B63, 0xE1F20C33, 0xFE777BBF, 0xC2FBD9D1, 0x8ADA8930, 0xB0638179, 0xCC899961, 0x846EE454,
                 0x4A7484AA, 0x0183FC00, 0xC2606D6D, 0xE1257970)
    ensures Goes(0xC2606D6D, 0x9DC68B63, 0xE1F20C33, 0xFE777BBF, 0xE1257970, 0x8ADA8930, 0xB0638179, 0xCC899961,
                 0x5CB0A9DC, 0x12DCBFDB, 0xA7A3623F, 0x49F5114A)
    ensures Goes(0xA7A3623F, 0xC2606D6D, 0x9DC68B63, 0xE1F20C33, 0x49F5114A, 0xE1257970, 0x8ADA8930, 0xB0638179,
                 0x76F988DA, 0xE2E2C38E, 0xC5D53D8D, 0xAA47C347)
  {
  }

  lemma After24(block: seq<Octet>)
    requires |block| == 64 && |H0| == 8 && Words16(block)
    requires Rounds(H0, block, 16) == Vars(0xB0FA238E, 0xC0645FDE, 0xD932EB16, 0x87912990, 0x07590DCD, 0x0B92F20C, 0x745A48DE, 0x1E578218)
    ensures Rounds(H0, block, 24) == Vars(0xC5D53D8D, 0xA7A3623F, 0xC2606D6D, 0x9DC68B63, 0xAA47C347, 0x49F5114A, 0xE1257970, 0x8ADA8930)
  {
    hide Round, Rounds, Schedule, K, H0;
    ConstantValues0();
    Rounds16();
    RoundsStep(H0, block, 16); RoundsStep(H0, block, 17); RoundsStep(H0, block, 18); RoundsStep(H0, block, 19);
    RoundsStep(H0, block, 20); RoundsStep(H0, block, 21); RoundsStep(H0, block, 22); RoundsStep(H0, block, 23);
  }

  lemma Rounds24()
    ensures Goes(0xC5D53D8D, 0xA7A3623F, 0xC2606D6D, 0x9DC68B63, 0xAA47C347, 0x49F5114A, 0xE1257970, 0x8ADA8930,
                 0x983E5152, 0xC8215C1A, 0x1C2C2838, 0x2823EF91)
    ensures Goes(0x1C2C2838, 0xC5D53D8D, 0xA7A3623F, 0xC2606D6D, 0x2823EF91, 0xAA47C347, 0x49F5114A, 0xE1257970,
                 0xA831C66D, 0xB73679A2, 0xCDE8037D, 0x14383D8E)
    ensures Goes(0xCDE8037D, 0x1C2C2838, 0xC5D53D8D, 0xA7A3623F, 0x14383D8E, 0x2823EF91, 0xAA47C347, 0x49F5114A,
                 0xB00327C8, 0xE5BC3909, 0xB62EC4BC, 0xC74C6516)
    ensures Goes(0xB62EC4BC, 0xCDE8037D, 0x1C2C2838, 0xC5D53D8D, 0xC74C6516, 0x14383D8E, 0x2823EF91, 0xAA47C347,
                 0xBF597FC7, 0x32663C5B, 0x77D37528, 0xEDFFBFF8)
    ensures Goes(0x77D37528, 0xB62EC4BC, 0xCDE8037D, 0x1C2C2838, 0xEDFFBFF8, 0xC74C6516, 0x14383D8E, 0x2823EF91,
                 0xC6E00BF3, 0x9D209D67, 0x363482C9, 0x6112A3B7)
    ensures Goes(0x363482C9, 0x77D37528, 0xB62EC4BC, 0xCDE8037D, 0x6112A3B7, 0xEDFFBFF8, 0xC74C6516, 0x14383D8E,
                 0xD5A79147, 0xEC8726CB, 0xA0060B30, 0xADE79437)
    ensures Goes(0xA0060B30, 0x363482C9, 0x77D37528, 0xB62EC4BC, 0xADE79437, 0x6112A3B7, 0xEDFFBFF8, 0xC74C6516,
                 0x06CA6351, 0x702138A4, 0xEA992A22, 0x0109AB3A)
    ensures Goes(0xEA992A22, 0xA0060B30, 0x363482C9, 0x77D37528, 0x0109AB3A, 0xADE79437, 0x6112A3B7, 0xEDFFBFF8,
                 0x14292967, 0xD3B7973B, 0x73B33BF5, 0xBA591112)
  {
  }

  lemma After32(block: seq<Octet>)
    requires |block| == 64 && |H0| == 8 && Words24(block)
    requires Rounds(H0, block, 24) == Vars(0xC5D53D8D, 0xA7A3623F, 0xC2606D6D, 0x9DC68B63, 0xAA47C347, 0x49F5114A, 0xE1257970, 0x8ADA8930)
    ensures Rounds(H0, block, 32) == Vars(0x73B33BF5, 0xEA992A22, 0xA0060B30, 0x363482C9, 0xBA591112, 0x0109AB3A, 0xADE79437, 0x6112A3B7)
  {
    hide Round, Rounds, Schedule, K, H0;
    ConstantValues0();
    Rounds24();
    RoundsStep(H0, block, 24); RoundsStep(H0, block, 25); RoundsStep(H0, block, 26); RoundsStep(H0, block, 27);
    RoundsStep(H0, block, 28); RoundsStep(H0, block, 29); RoundsStep(H0, block, 30); RoundsStep(H0, block, 31);
  }

  lemma Rounds32()
    ensures Goes(0x73B33BF5, 0xEA992A22, 0xA0060B30, 0x363482C9, 0xBA591112, 0x0109AB3A, 0xADE79437, 0x6112A3B7,
                 0x27B70A85, 0x93F5997F, 0x98E12507, 0x9CD9F5F6)
    ensures Goes(0x98E12507, 0x73B33BF5, 0xEA992A22, 0xA0060B30, 0x9CD9F5F6, 0xBA591112, 0x0109AB3A, 0xADE79437,
                 0x2E1B2138, 0x3B68BA73, 0xFE604DF5, 0x59249DD3)
    ensures Goes(0xFE604DF5, 0x98E12507, 0x73B33BF5, 0xEA992A22, 0x59249DD3, 0x9CD9F5F6, 0xBA591112, 0x0109AB3A,
                 0x4D2C6DFC, 0xAFF4FFC1, 0xA9A7738C, 0x085F3833)
    ensures Goes(0xA9A7738C, 0xFE604DF5, 0x98E12507, 0x73B33BF5, 0x085F3833, 0x59249DD3, 0x9CD9F5F6, 0xBA591112,
                 0x53380D13, 0xF10A5C62, 0x65A0CFE4, 0xF4B002D6)
    ensures Goes(0x65A0CFE4, 0xA9A7738C, 0xFE604DF5, 0x98E12507, 0xF4B002D6, 0x085F3833, 0x59249DD3, 0x9CD9F5F6,
                 0x650A7354, 0x0A8B3996, 0x41A65CB1, 0x0772A26B)
    ensures Goes(0x41A65CB1, 0x65A0CFE4, 0xA9A7738C, 0xFE604DF5, 0x0772A26B, 0xF4B002D6, 0x085F3833, 0x59249DD3,
                 0x766A0ABB, 0x72AF830A, 0x34DF1604, 0xA507A53D)
    ensures Goes(0x34DF1604, 0x41A65CB1, 0x65A0CFE4, 0xA9A7738C, 0xA507A53D, 0x0772A26B, 0xF4B002D6, 0x085F3833,
                 0x81C2C92E, 0x9409E33E, 0x6DC57A8A, 0xF0781BC8)
    ensures Goes(0x6DC57A8A, 0x34DF1604, 0x41A65CB1, 0x65A0CFE4, 0xF0781BC8, 0xA507A53D, 0x0772A26B, 0xF4B002D6,
                 0x92722C85, 0x24641522, 0x79EA687A, 0x1EFBC0A0)
  {
  }

  lemma After40(block: seq<Octet>)
    requires |block| == 64 && |H0| == 8 && Words32(block)
    requires Rounds(H0, block, 32) == Vars(0x73B33BF5, 0xEA992A22, 0xA0060B30, 0x363482C9, 0xBA591112, 0x0109AB3A, 0xADE79437, 0x6112A3B7)
    ensures Rounds(H0, block, 40) == Vars(0x79EA687A, 0x6DC57A8A, 0x34DF1604, 0x41A65CB1, 0x1EFBC0A0, 0xF0781BC8, 0xA507A53D, 0x0772A26B)
  {
    hide Round, Rounds, Schedule, K, H0;
    ConstantValues32();
    Rounds32();
    RoundsStep(H0, block, 32); RoundsStep(H0, block, 33); RoundsStep(H0, block, 34); RoundsStep(H0, block, 35);
    RoundsStep(H0, block, 36); RoundsStep(H0, block, 37); RoundsStep(H0, block, 38); RoundsStep(H0, block, 39);
  }

  lemma Rounds40()
    ensures Goes(0x79EA687A, 0x6DC57A8A, 0x34DF1604, 0x41A65CB1, 0x1EFBC0A0, 0xF0781BC8, 0xA507A53D, 0x0772A26B,
                 0xA2BFE8A1, 0x9F47BF94, 0xD6670766, 0x26352D63)
    ensures Goes(0xD6670766, 0x79EA687A, 0x6DC57A8A, 0x34DF1604, 0x26352D63, 0x1EFBC0A0, 0xF0781BC8, 0xA507A53D,
                 0xA81A664B, 0xF0A64F5A, 0xDF46652F, 0x838B2711)
    ensures Goes(0xDF46652F, 0xD6670766, 0x79EA687A, 0x6DC57A8A, 0x838B2711, 0x26352D63, 0x1EFBC0A0, 0xF0781BC8,
                 0xC24B8B70, 0x3E246A79, 0x17AA0DFE, 0xDECD4715)
    ensures Goes(0x17AA0DFE, 0xDF46652F, 0xD6670766, 0x79EA687A, 0xDECD4715, 0x838B2711, 0x26352D63, 0x1EFBC0A0,
                 0xC76C51A3, 0x27333BA3, 0x9D4BAF93, 0xFDA24C2E)
    ensures Goes(0x9D4BAF93, 0x17AA0DFE, 0xDF46652F, 0xD6670766, 0xFDA24C2E, 0xDECD4715, 0x838B2711, 0x26352D63,
                 0xD192E819, 0x0C4763F2, 0x26628815, 0xA80F11F0)
    ensures Goes(0x26628815, 0x9D4BAF93, 0x17AA0DFE, 0xDF46652F, 0xA80F11F0, 0xFDA24C2E, 0xDECD4715, 0x838B2711,
                 0xD6990624, 0x840ABF27, 0x72AB4B91, 0xB7755DA1)
    ensures Goes(0x72AB4B91, 0x26628815, 0x9D4BAF93, 0x17AA0DFE, 0xB7755DA1, 0xA80F11F0, 0xFDA24C2E, 0xDECD4715,
                 0xF40E3585, 0x7A290D5D, 0xA14C14B0, 0xD57B94A9)
    ensures Goes(0xA14C14B0, 0x72AB4B91, 0x26628815, 0x9D4BAF93, 0xD57B94A9, 0xB7755DA1, 0xA80F11F0, 0xFDA24C2E,
                 0x106AA070, 0x065C43DA, 0x4172328D, 0xFECF0BC6)
  {
  }

  lemma After48(block: seq<Octet>)
    requires |block| == 64 && |H0| == 8 && Words40(block)
    requires Rounds(H0, block, 40) == Vars(0x79EA687A, 0x6DC57A8A, 0x34DF1604, 0x41A65CB1, 0x1EFBC0A0, 0xF0781BC8, 0xA507A53D, 0x0772A26B)
    ensures Rounds(H0, block, 48) == Vars(0x4172328D, 0xA14C14B0, 0x72AB4B91, 0x26628815, 0xFECF0BC6, 0xD57B94A9, 0xB7755DA1, 0xA80F11F0)
  {
    hide Round, Rounds, Schedule, K, H0;
    ConstantValues32();
    Rounds40();
    RoundsStep(H0, block, 40); RoundsStep(H0, block, 41); RoundsStep(H0, block, 42); RoundsStep(H0, block, 43);
    RoundsStep(H0, block, 44); RoundsStep(H0, block, 45); RoundsStep(H0, block, 46); RoundsStep(H0, block, 47);
  }

  lemma Rounds48()
    ensures Goes(0x4172328D, 0xA14C14B0, 0x72AB4B91, 0x26628815, 0xFECF0BC6, 0xD57B94A9, 0xB7755DA1, 0xA80F11F0,
                 0x19A4C116, 0xFB3E89CB, 0x05757CEB, 0xBD714038)
    ensures Goes(0x05757CEB, 0x4172328D, 0xA14C14B0, 0x72AB4B91, 0xBD714038, 0xFECF0BC6, 0xD57B94A9, 0xB7755DA1,
                 0x1E376C08, 0xCC7617DB, 0xF11BFAA8, 0x6E5C390C)
    ensures Goes(0xF11BFAA8, 0x05757CEB, 0x4172328D, 0xA14C14B0, 0x6E5C390C, 0xBD714038, 0xFECF0BC6, 0xD57B94A9,
                 0x2748774C, 0xB9E66C34, 0x7A0508A1, 0x52F1CCF7)
    ensures Goes(0x7A0508A1, 0xF11BFAA8, 0x05757CEB, 0x4172328D, 0x52F1CCF7, 0x6E5C390C, 0xBD714038, 0xFECF0BC6,
                 0x34B0BCB5, 0xA9993667, 0x886E7A22, 0x49231C1E)
    ensures Goes(0x886E7A22, 0x7A0508A1, 0xF11BFAA8, 0x05757CEB, 0x49231C1E, 0x52F1CCF7, 0x6E5C390C, 0xBD714038,
                 0x391C0CB3, 0x84BADEDD, 0x101FD28F, 0x529E7D00)
    ensures Goes(0x101FD28F, 0x886E7A22, 0x7A0508A1, 0xF11BFAA8, 0x529E7D00, 0x49231C1E, 0x52F1CCF7, 0x6E5C390C,
                 0x4ED8AA4A, 0xC21462BC, 0xF5702FDB, 0x9F4787C3)
    ensures Goes(0xF5702FDB, 0x101FD28F, 0x886E7A22, 0x7A0508A1, 0x9F4787C3, 0x529E7D00, 0x49231C1E, 0x52F1CCF7,
                 0x5B9CCA4F, 0x1487472C, 0x3EC45CDB, 0xE50E1B4F)
    ensures Goes(0x3EC45CDB, 0xF5702FDB, 0x101FD28F, 0x886E7A22, 0xE50E1B4F, 0x9F4787C3, 0x529E7D00, 0x49231C1E,
                 0x682E6FF3, 0xB20F7A99, 0x38CC9913, 0x54CB266B)
  {
  }

  lemma After56(block: seq<Octet>)
    requires |block| == 64 && |H0| == 8 && Words48(block)
    requires Rounds(H0, block, 48) == Vars(0x4172328D, 0xA14C14B0, 0x72AB4B91, 0x26628815, 0xFECF0BC6, 0xD57B94A9, 0xB7755DA1, 0xA80F11F0)
    ensures Rounds(H0, block, 56) == Vars(0x38CC9913, 0x3EC45CDB, 0xF5702FDB, 0x101FD28F, 0x54CB266B, 0xE50E1B4F, 0x9F4787C3, 0x529E7D00)
  {
    hide Round, Rounds, Schedule, K, H0;
    ConstantValues32();
    Rounds48();
    RoundsStep(H0, block, 48); RoundsStep(H0, block, 49); RoundsStep(H0, block, 50); RoundsStep(H0, block, 51);
    RoundsStep(H0, block, 52); RoundsStep(H0, block, 53); RoundsStep(H0, block, 54); RoundsStep(H0, block, 55);
  }

  lemma Rounds56()
    ensures Goes(0x38CC9913, 0x3EC45CDB, 0xF5702FDB, 0x101FD28F, 0x54CB266B, 0xE50E1B4F, 0x9F4787C3, 0x529E7D00,
                 0x748F82EE, 0xEF57B9CD, 0xFCD1887B, 0x9B5E906C)
    ensures Goes(0xFCD1887B, 0x38CC9913, 0x3EC45CDB, 0xF5702FDB, 0x9B5E906C, 0x54CB266B, 0xE50E1B4F, 0x9F4787C3,
                 0x78A5636F, 0xEBE6B238, 0xC062D46F, 0x7E44008E)
    ensures Goes(0xC062D46F, 0xFCD1887B, 0x38CC9913, 0x3EC45CDB, 0x7E44008E, 0x9B5E906C, 0x54CB266B, 0xE50E1B4F,
                 0x84C87814, 0x9FE3095E, 0xFFB70472, 0x6D83BFC6)
    ensures Goes(0xFFB70472, 0xC062D46F, 0xFCD1887B, 0x38CC9913, 0x6D83BFC6, 0x7E44008E, 0x9B5E906C, 0x54CB266B,
                 0x8CC70208, 0x78BC8D4B, 0xB6AE8FFF, 0xB21BAD3D)
    ensures Goes(0xB6AE8FFF, 0xFFB70472, 0xC062D46F, 0xFCD1887B, 0xB21BAD3D, 0x6D83BFC6, 0x7E44008E, 0x9B5E906C,
                 0x90BEFFFA, 0xA43FCF15, 0xB85E2CE9, 0x961F4894)
    ensures Goes(0xB85E2CE9, 0xB6AE8FFF, 0xFFB70472, 0xC062D46F, 0x961F4894, 0xB21BAD3D, 0x6D83BFC6, 0x7E44008E,
                 0xA4506CEB, 0x668B2FF8, 0x04D24D6C, 0x948D25B6)
    ensures Goes(0x04D24D6C, 0xB85E2CE9, 0xB6AE8FFF, 0xFFB70472, 0x948D25B6, 0x961F4894, 0xB21BAD3D, 0x6D83BFC6,
                 0xBEF9A3F7, 0xEEABA2CC, 0xD39A2165, 0xFB121210)
    ensures Goes(0xD39A2165, 0x04D24D6C, 0xB85E2CE9, 0xB6AE8FFF, 0xFB121210, 0x948D25B6, 0x961F4894, 0xB21BAD3D,
                 0xC67178F2, 0x12B1EDEB, 0x506E3058, 0x5EF50F24)
  {
  }

  lemma After64(block: seq<Octet>)
    requires |block| == 64 && |H0| == 8 && Words56(block)
    requires Rounds(H0, block, 56) == Vars(0x38CC9913, 0x3EC45CDB, 0xF5702FDB, 0x101FD28F, 0x54CB266B, 0xE50E1B4F, 0x9F4787C3, 0x529E7D00)
    ensures Rounds(H0, block, 64) == Vars(0x506E3058, 0xD39A2165, 0x04D24D6C, 0xB85E2CE9, 0x5EF50F24, 0xFB121210, 0x948D25B6, 0x961F4894)
  {
    hide Round, Rounds, Schedule, K, H0;
    ConstantValues32();
    Rounds56();
    RoundsStep(H0, block, 56); RoundsStep(H0, block, 57); RoundsStep(H0, block, 58); RoundsStep(H0, block, 59);
    RoundsStep(H0, block, 60); RoundsStep(H0, block, 61); RoundsStep(H0, block, 62); RoundsStep(H0, block, 63);
  }

  /* The message */

  /** The padded message: three bytes, a one, zeros, and the length 24. */
  lemma Padded() returns (block: seq<Octet>)
    ensures block == PadWith([0x61, 0x62, 0x63], 24) && |block| == 64
    ensures block[..4] == [0x61, 0x62, 0x63, 0x80] && block[63] == 24
    ensures forall i :: 4 <= i < 63 ==> block[i] == 0
  {
    hide BigEndian, Zeros;
    block := PadWith([0x61, 0x62, 0x63], 24);
    PadShape([0x61, 0x62, 0x63], 24);
    LengthBytes();
    assert block[56..] == BigEndian(24, 8);
    assert forall i :: 56 <= i < 64 ==> block[i] == block[56..][i - 56];
  }

  lemma LengthBytes()
    ensures BigEndian(24, 8) == [0, 0, 0, 0, 0, 0, 0, 24]
  {
    hide BigEndian;
    LastOctet(24, 8);
    ZeroBytes(7);
    assert BigEndian(24 / 256, 7) == [0, 0, 0, 0, 0, 0, 0];
  }

  lemma {:induction false} ZeroBytes(k: nat)
    ensures forall i :: 0 <= i < k ==> BigEndian(0, k)[i] == 0
  {
    if k > 0 {
      ZeroBytes(k - 1);
      LastOctet(0, k);
    }
  }

  lemma FirstWords(block: seq<Octet>)
    requires |block| == 64 && block[..4] == [0x61, 0x62, 0x63, 0x80] && block[63] == 24
    requires forall i :: 4 <= i < 63 ==> block[i] == 0
    ensures Words0(block) && Words8(block)
  {
    assert block[0] == block[..4][0] && block[1] == block[..4][1] && block[2] == block[..4][2] && block[3] == block[..4][3];
  }

  lemma StartWords()
    ensures |H0| == 8 && Start(H0) == Vars(0x6A09E667, 0xBB67AE85, 0x3C6EF372, 0xA54FF53A, 0x510E527F, 0x9B05688C, 0x1F83D9AB, 0x5BE0CD19)
  {
  }

  /** SHA-256 of "abc" is ba7816bf 8f01cfea 414140de 5dae2223 b00361a3 96177a9c b410ff61 f20015ad. */
  lemma DigestOfAbc()
    ensures Sha256([0x61, 0x62, 0x63]) == [
      0xBA, 0x78, 0x16, 0xBF, 0x8F, 0x01, 0xCF, 0xEA,
      0x41, 0x41, 0x40, 0xDE, 0x5D, 0xAE, 0x22, 0x23,
      0xB0, 0x03, 0x61, 0xA3, 0x96, 0x17, 0x7A, 0x9C,
      0xB4, 0x10, 0xFF, 0x61, 0xF2, 0x00, 0x15, 0xAD]
  {
    hide Rounds, Schedule, H0, Compress, Octets, PadWith;
    var block := Padded();
    FirstWords(block);
    StartWords();
    AllRounds(block);
    OneBlock(H0, block);
    LastSums(block);
    DigestBytes();
  }

  lemma AllRounds(block: seq<Octet>)
    requires |block| == 64 && |H0| == 8 && Words0(block) && Words8(block)
    requires Start(H0) == Vars(0x6A09E667, 0xBB67AE85, 0x3C6EF372, 0xA54FF53A, 0x510E527F, 0x9B05688C, 0x1F83D9AB, 0x5BE0CD19)
    ensures Rounds(H0, block, 64) == Vars(0x506E3058, 0xD39A2165, 0x04D24D6C, 0xB85E2CE9, 0x5EF50F24, 0xFB121210, 0x948D25B6, 0x961F4894)
  {
    hide Words0, Words8, Words16, Words24, Words32, Words40, Words48, Words56, Schedule;
    assert Rounds(H0, block, 0) == Start(H0);
    hide Rounds, Start;
    Next16(block); Next24(block); Next32(block); Next40(block); Next48(block); Next56(block);
    After8(block); After16(block); After24(block); After32(block);
    After40(block); After48(block); After56(block); After64(block);
  }

  lemma LastSums(block: seq<Octet>)
    requires |block| == 64 && |H0| == 8
    requires Rounds(H0, block, 64) == Vars(0x506E3058, 0xD39A2165, 0x04D24D6C, 0xB85E2CE9, 0x5EF50F24, 0xFB121210, 0x948D25B6, 0x961F4894)
    ensures Compress(H0, block) == [0xBA7816BF, 0x8F01CFEA, 0x414140DE, 0x5DAE2223,
                                    0xB00361A3, 0x96177A9C, 0xB410FF61, 0xF20015AD]
  {
    hide Rounds;
    StartWords();
  }

  lemma DigestBytes()
    ensures Octets([0xBA7816BF, 0x8F01CFEA, 0x414140DE, 0x5DAE2223,
                    0xB00361A3, 0x96177A9C, 0xB410FF61, 0xF20015AD]) == [
      0xBA, 0x78, 0x16, 0xBF, 0x8F, 0x01, 0xCF, 0xEA,
      0x41, 0x41, 0x40, 0xDE, 0x5D, 0xAE, 0x22, 0x23,
      0xB0, 0x03, 0x61, 0xA3, 0x96, 0x17, 0x7A, 0x9C,
      0xB4, 0x10, 0xFF, 0x61, 0xF2, 0x00, 0x15, 0xAD]
  {
    hide Octets, WordOctets;
    WordBytes();
    EightWords([0xBA7816BF, 0x8F01CFEA, 0x414140DE, 0x5DAE2223,
                0xB00361A3, 0x96177A9C, 0xB410FF61, 0xF20015AD]);
  }

  lemma WordBytes()
    ensures WordOctets(0xBA7816BF) == [0xBA, 0x78, 0x16, 0xBF]
    ensures WordOctets(0x8F01CFEA) == [0x8F, 0x01, 0xCF, 0xEA]
    ensures WordOctets(0x414140DE) == [0x41, 0x41, 0x40, 0xDE]
    ensures WordOctets(0x5DAE2223) == [0x5D, 0xAE, 0x22, 0x23]
    ensures WordOctets(0xB00361A3) == [0xB0, 0x03, 0x61, 0xA3]
    ensures WordOctets(0x96177A9C) == [0x96, 0x17, 0x7A, 0x9C]
    ensures WordOctets(0xB410FF61) == [0xB4, 0x10, 0xFF, 0x61]
    ensures WordOctets(0xF20015AD) == [0xF2, 0x00, 0x15, 0xAD]
  {
  }

  lemma EightWords(ws: seq<Word>)
    requires |ws| == 8
    ensures Octets(ws) == WordOctets(ws[0]) + WordOctets(ws[1]) + WordOctets(ws[2]) + WordOctets(ws[3])
                          + WordOctets(ws[4]) + WordOctets(ws[5]) + WordOctets(ws[6]) + WordOctets(ws[7])
  {
    hide Octets, WordOctets;
    FourWords(ws[..4]);
    OctetsStep(ws, 4);
    OctetsStep(ws, 5);
    OctetsStep(ws, 6);
    OctetsStep(ws, 7);
    assert ws[..8] == ws;
  }

  lemma FourWords(ws: seq<Word>)
    requires |ws| == 4
    ensures Octets(ws) == WordOctets(ws[0]) + WordOctets(ws[1]) + WordOctets(ws[2]) + WordOctets(ws[3])
  {
    hide Octets, WordOctets;
    FirstWord(ws);
    OctetsStep(ws, 1);
    OctetsStep(ws, 2);
    OctetsStep(ws, 3);
    assert ws[..4] == ws;
  }

  lemma FirstWord(ws: seq<Word>)
    requires ws != []
    ensures Octets(ws[..1]) == WordOctets(ws[0])
  {
    hide Octets, WordOctets;
    NoWords(ws[..0]);
    OctetsStep(ws, 0);
    assert [] + WordOctets(ws[0]) == WordOctets(ws[0]);
  }
}
