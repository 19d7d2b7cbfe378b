/**
 What the entries of the arc tangent table are. Two neighbouring tangents k / 256 and (k + 1) / 256
 belong to angles whose difference has the tangent 256 / (65536 + k (k + 1)); so small an angle is its
 own tangent to within one part in 190000. Summing them gives the arc tangent of every i / 256 in
 units of which the sum of all 256 is an eighth of a turn.
 */
module ArcTable {
  import opened ArcTan
  import Bits

  const SCALE: nat := 0x100_0000_0000

  /** The k-th small angle, scaled by 2^32 and rounded down. */
  function Small(k: nat): nat { SCALE / (65536 + k * (k + 1)) }

  /** The first i small angles. */
  function ArcSum(i: nat): nat { if i == 0 then 0 else ArcSum(i - 1) + Small(i - 1) }

  /** The entry is the share of i small angles in an eighth of a turn, rounded to the nearest. */
  ghost predicate Nearest(i: nat, total: int)
    requires i <= 256
  {
    -total < 2 * (Entry(i) * total - 8192 * ArcSum(i)) < total
  }

  ghost predicate Upto(n: nat, total: int)
    requires n <= 257
  {
    forall i :: 0 <= i < n ==> Nearest(i, total)
  }

  const TOTAL: int := 3373271197

  lemma Small1(k: nat, d: nat, q: nat)
    requires d == 65536 + k * (k + 1) && q * d <= SCALE < (q + 1) * d
    ensures Small(k) == q
  {
    var r := SCALE - q * d;
    assert SCALE == q * d + r && 0 <= r < d;
    Bits.DivUnique(SCALE, d, q, r);
  }

  lemma MoreNearest(i: nat, e: int, sum: nat)
    requires i < 256 && Upto(i, TOTAL) && ArcSum(i) == sum && Entry(i) == e
    requires -TOTAL < 2 * (e * TOTAL - 8192 * sum) < TOTAL
    ensures Upto(i + 1, TOTAL) && ArcSum(i + 1) == sum + Small(i)
  {
    hide Entry, Small;
    assert Nearest(i, TOTAL);
  }

  lemma EntryOf(r: nat, m: nat)
    requires r < 16 && m < 16
    ensures |ROWS| == 16 && |ROWS[r]| == 16 && Entry(16 * r + m) == ROWS[r][m]
  {
    hide ROWS;
    RowsRise();
    Bits.DivUnique(16 * r + m, 16, r, m);
  }

  /** One entry, whose value is e, and one small angle more. */
  lemma At(i: nat, r: nat, m: nat, e: int, angle: nat, sum: nat)
    requires r < 16 && m < 16 && i == 16 * r + m && i < 256
    requires |ROWS| == 16 && |ROWS[r]| == 16 && ROWS[r][m] == e
    requires Upto(i, TOTAL) && ArcSum(i) == sum
    requires var d := 65536 + i * (i + 1); angle * d <= SCALE < (angle + 1) * d
    requires -TOTAL < 2 * (e * TOTAL - 8192 * sum) < TOTAL
    ensures Upto(i + 1, TOTAL) && ArcSum(i + 1) == sum + angle
  {
    hide Entry, ROWS;
    EntryOf(r, m);
    Small1(i, 65536 + i * (i + 1), angle);
    MoreNearest(i, e, sum);
  }

  lemma Entries0()
    ensures |ROWS| == 16 && |ROWS[0]| == 16
    ensures ROWS[0][0] == 0 && ROWS[0][1] == 41 && ROWS[0][2] == 81 && ROWS[0][3] == 122
    ensures ROWS[0][4] == 163 && ROWS[0][5] == 204 && ROWS[0][6] == 244 && ROWS[0][7] == 285
    ensures ROWS[0][8] == 326 && ROWS[0][9] == 367 && ROWS[0][10] == 407 && ROWS[0][11] == 448
    ensures ROWS[0][12] == 489 && ROWS[0][13] == 529 && ROWS[0][14] == 570 && ROWS[0][15] == 610
  {
  }

  lemma Row0()
    requires Upto(0, TOTAL) && ArcSum(0) == 0
    ensures Upto(16, TOTAL) && ArcSum(16) == 268088101
  {
    hide Upto, ArcSum, ROWS;
    Entries0();
    At(0, 0, 0, 0, 16777216, 0);
    At(1, 0, 1, 41, 16776704, 16777216);
    At(2, 0, 2, 81, 16775680, 33553920);
    At(3, 0, 3, 122, 16774144, 50329600);
    At(4, 0, 4, 163, 16772097, 67103744);
    At(5, 0, 5, 204, 16769539, 83875841);
    At(6, 0, 6, 244, 16766470, 100645380);
    At(7, 0, 7, 285, 16762892, 117411850);
    At(8, 0, 8, 326, 16758804, 134174742);
    At(9, 0, 9, 367, 16754207, 150933546);
    At(10, 0, 10, 407, 16749103, 167687753);
    At(11, 0, 11, 448, 16743491, 184436856);
    At(12, 0, 12, 489, 16737374, 201180347);
    At(13, 0, 13, 529, 16730753, 217917721);
    At(14, 0, 14, 570, 16723627, 234648474);
    At(15, 0, 15, 610, 16716000, 251372101);
  }

  lemma Entries1()
    ensures |ROWS| == 16 && |ROWS[1]| == 16
    ensures ROWS[1][0] == 651 && ROWS[1][1] == 692 && ROWS[1][2] == 732 && ROWS[1][3] == 773
    ensures ROWS[1][4] == 813 && ROWS[1][5] == 854 && ROWS[1][6] == 894 && ROWS[1][7] == 935
    ensures ROWS[1][8] == 975 && ROWS[1][9] == 1015 && ROWS[1][10] == 1056 && ROWS[1][11] == 1096
    ensures ROWS[1][12] == 1136 && ROWS[1][13] == 1177 && ROWS[1][14] == 1217 && ROWS[1][15] == 1257
  {
  }

  lemma Row1()
    requires Upto(16, TOTAL) && ArcSum(16) == 268088101
    ensures Upto(32, TOTAL) && ArcSum(32) == 534103309
  {
    hide Upto, ArcSum, ROWS;
    Entries1();
    At(16, 1, 0, 651, 16707871, 268088101);
    At(17, 1, 1, 692, 16699244, 284795972);
    At(18, 1, 2, 732, 16690118, 301495216);
    At(19, 1, 3, 773, 16680496, 318185334);
    At(20, 1, 4, 813, 16670380, 334865830);
    At(21, 1, 5, 854, 16659771, 351536210);
    At(22, 1, 6, 894, 16648672, 368195981);
    At(23, 1, 7, 935, 16637084, 384844653);
    At(24, 1, 8, 975, 16625009, 401481737);
    At(25, 1, 9, 1015, 16612450, 418106746);
    At(26, 1, 10, 1056, 16599408, 434719196);
    At(27, 1, 11, 1096, 16585887, 451318604);
    At(28, 1, 12, 1136, 16571888, 467904491);
    At(29, 1, 13, 1177, 16557413, 484476379);
    At(30, 1, 14, 1217, 16542467, 501033792);
    At(31, 1, 15, 1257, 16527050, 517576259);
  }

  lemma Entries2()
    ensures |ROWS| == 16 && |ROWS[2]| == 16
    ensures ROWS[2][0] == 1297 && ROWS[2][1] == 1337 && ROWS[2][2] == 1377 && ROWS[2][3] == 1417
    ensures ROWS[2][4] == 1457 && ROWS[2][5] == 1497 && ROWS[2][6] == 1537 && ROWS[2][7] == 1577
    ensures ROWS[2][8] == 1617 && ROWS[2][9] == 1656 && ROWS[2][10] == 1696 && ROWS[2][11] == 1736
    ensures ROWS[2][12] == 1775 && ROWS[2][13] == 1815 && ROWS[2][14] == 1854 && ROWS[2][15] == 1894
  {
  }

  lemma Row2()
    requires Upto(32, TOTAL) && ArcSum(32) == 534103309
    ensures Upto(48, TOTAL) && ArcSum(48) == 796067317
  {
    hide Upto, ArcSum, ROWS;
    Entries2();
    At(32, 2, 0, 1297, 16511166, 534103309);
    At(33, 2, 1, 1337, 16494818, 550614475);
    At(34, 2, 2, 1377, 16478008, 567109293);
    At(35, 2, 3, 1417, 16460740, 583587301);
    At(36, 2, 4, 1457, 16443016, 600048041);
    At(37, 2, 5, 1497, 16424839, 616491057);
    At(38, 2, 6, 1537, 16406213, 632915896);
    At(39, 2, 7, 1577, 16387141, 649322109);
    At(40, 2, 8, 1617, 16367625, 665709250);
    At(41, 2, 9, 1656, 16347670, 682076875);
    At(42, 2, 10, 1696, 16327279, 698424545);
    At(43, 2, 11, 1736, 16306454, 714751824);
    At(44, 2, 12, 1775, 16285200, 731058278);
    At(45, 2, 13, 1815, 16263521, 747343478);
    At(46, 2, 14, 1854, 16241419, 763606999);
    At(47, 2, 15, 1894, 16218899, 779848418);
  }

  lemma Entries3()
    ensures |ROWS| == 16 && |ROWS[3]| == 16
    ensures ROWS[3][0] == 1933 && ROWS[3][1] == 1973 && ROWS[3][2] == 2012 && ROWS[3][3] == 2051
    ensures ROWS[3][4] == 2090 && ROWS[3][5] == 2129 && ROWS[3][6] == 2168 && ROWS[3][7] == 2207
    ensures ROWS[3][8] == 2246 && ROWS[3][9] == 2285 && ROWS[3][10] == 2324 && ROWS[3][11] == 2363
    ensures ROWS[3][12] == 2401 && ROWS[3][13] == 2440 && ROWS[3][14] == 2478 && ROWS[3][15] == 2517
  {
  }

  lemma Row3()
    requires Upto(48, TOTAL) && ArcSum(48) == 796067317
    ensures Upto(64, TOTAL) && ArcSum(64) == 1052180456
  {
    hide Upto, ArcSum, ROWS;
    Entries3();
    At(48, 3, 0, 1933, 16195964, 796067317);
    At(49, 3, 1, 1973, 16172618, 812263281);
    At(50, 3, 2, 2012, 16148865, 828435899);
    At(51, 3, 3, 2051, 16124708, 844584764);
    At(52, 3, 4, 2090, 16100152, 860709472);
    At(53, 3, 5, 2129, 16075201, 876809624);
    At(54, 3, 6, 2168, 16049858, 892884825);
    At(55, 3, 7, 2207, 16024128, 908934683);
    At(56, 3, 8, 2246, 15998015, 924958811);
    At(57, 3, 9, 2285, 15971523, 940956826);
    At(58, 3, 10, 2324, 15944656, 956928349);
    At(59, 3, 11, 2363, 15917418, 972873005);
    At(60, 3, 12, 2401, 15889814, 988790423);
    At(61, 3, 13, 2440, 15861848, 1004680237);
    At(62, 3, 14, 2478, 15833524, 1020542085);
    At(63, 3, 15, 2517, 15804847, 1036375609);
  }

  lemma Entries4()
    ensures |ROWS| == 16 && |ROWS[4]| == 16
    ensures ROWS[4][0] == 2555 && ROWS[4][1] == 2594 && ROWS[4][2] == 2632 && ROWS[4][3] == 2670
    ensures ROWS[4][4] == 2708 && ROWS[4][5] == 2746 && ROWS[4][6] == 2784 && ROWS[4][7] == 2822
    ensures ROWS[4][8] == 2860 && ROWS[4][9] == 2897 && ROWS[4][10] == 2935 && ROWS[4][11] == 2973
    ensures ROWS[4][12] == 3010 && ROWS[4][13] == 3047 && ROWS[4][14] == 3085 && ROWS[4][15] == 3122
  {
  }

  lemma Row4()
    requires Upto(64, TOTAL) && ArcSum(64) == 1052180456
    ensures Upto(80, TOTAL) && ArcSum(80) == 1300886795
  {
    hide Upto, ArcSum, ROWS;
    Entries4();
    At(64, 4, 0, 2555, 15775821, 1052180456);
    At(65, 4, 1, 2594, 15746450, 1067956277);
    At(66, 4, 2, 2632, 15716739, 1083702727);
    At(67, 4, 3, 2670, 15686692, 1099419466);
    At(68, 4, 4, 2708, 15656314, 1115106158);
    At(69, 4, 5, 2746, 15625609, 1130762472);
    At(70, 4, 6, 2784, 15594582, 1146388081);
    At(71, 4, 7, 2822, 15563237, 1161982663);
    At(72, 4, 8, 2860, 15531580, 1177545900);
    At(73, 4, 9, 2897, 15499614, 1193077480);
    At(74, 4, 10, 2935, 15467344, 1208577094);
    At(75, 4, 11, 2973, 15434774, 1224044438);
    At(76, 4, 12, 3010, 15401911, 1239479212);
    At(77, 4, 13, 3047, 15368757, 1254881123);
    At(78, 4, 14, 3085, 15335317, 1270249880);
    At(79, 4, 15, 3122, 15301598, 1285585197);
  }

  lemma Entries5()
    ensures |ROWS| == 16 && |ROWS[5]| == 16
    ensures ROWS[5][0] == 3159 && ROWS[5][1] == 3196 && ROWS[5][2] == 3233 && ROWS[5][3] == 3270
    ensures ROWS[5][4] == 3307 && ROWS[5][5] == 3344 && ROWS[5][6] == 3380 && ROWS[5][7] == 3417
    ensures ROWS[5][8] == 3453 && ROWS[5][9] == 3490 && ROWS[5][10] == 3526 && ROWS[5][11] == 3562
    ensures ROWS[5][12] == 3599 && ROWS[5][13] == 3635 && ROWS[5][14] == 3670 && ROWS[5][15] == 3706
  {
  }

  lemma Row5()
    requires Upto(80, TOTAL) && ArcSum(80) == 1300886795
    ensures Upto(96, TOTAL) && ArcSum(96) == 1540915455
  {
    hide Upto, ArcSum, ROWS;
    Entries5();
    At(80, 5, 0, 3159, 15267602, 1300886795);
    At(81, 5, 1, 3196, 15233334, 1316154397);
    At(82, 5, 2, 3233, 15198800, 1331387731);
    At(83, 5, 3, 3270, 15164004, 1346586531);
    At(84, 5, 4, 3307, 15128950, 1361750535);
    At(85, 5, 5, 3344, 15093644, 1376879485);
    At(86, 5, 6, 3380, 15058090, 1391973129);
    At(87, 5, 7, 3417, 15022292, 1407031219);
    At(88, 5, 8, 3453, 14986255, 1422053511);
    At(89, 5, 9, 3490, 14949985, 1437039766);
    At(90, 5, 10, 3526, 14913485, 1451989751);
    At(91, 5, 11, 3562, 14876760, 1466903236);
    At(92, 5, 12, 3599, 14839815, 1481779996);
    At(93, 5, 13, 3635, 14802655, 1496619811);
    At(94, 5, 14, 3670, 14765283, 1511422466);
    At(95, 5, 15, 3706, 14727706, 1526187749);
  }

  lemma Entries6()
    ensures |ROWS| == 16 && |ROWS[6]| == 16
    ensures ROWS[6][0] == 3742 && ROWS[6][1] == 3778 && ROWS[6][2] == 3813 && ROWS[6][3] == 3849
    ensures ROWS[6][4] == 3884 && ROWS[6][5] == 3920 && ROWS[6][6] == 3955 && ROWS[6][7] == 3990
    ensures ROWS[6][8] == 4025 && ROWS[6][9] == 4060 && ROWS[6][10] == 4095 && ROWS[6][11] == 4129
    ensures ROWS[6][12] == 4164 && ROWS[6][13] == 4199 && ROWS[6][14] == 4233 && ROWS[6][15] == 4267
  {
  }

  lemma Row6()
    requires Upto(96, TOTAL) && ArcSum(96) == 1540915455
    ensures Upto(112, TOTAL) && ArcSum(112) == 1771297374
  {
    hide Upto, ArcSum, ROWS;
    Entries6();
    At(96, 6, 0, 3742, 14689926, 1540915455);
    At(97, 6, 1, 3778, 14651949, 1555605381);
    At(98, 6, 2, 3813, 14613780, 1570257330);
    At(99, 6, 3, 3849, 14575423, 1584871110);
    At(100, 6, 4, 3884, 14536882, 1599446533);
    At(101, 6, 5, 3920, 14498162, 1613983415);
    At(102, 6, 6, 3955, 14459267, 1628481577);
    At(103, 6, 7, 3990, 14420202, 1642940844);
    At(104, 6, 8, 4025, 14380972, 1657361046);
    At(105, 6, 9, 4060, 14341580, 1671742018);
    At(106, 6, 10, 4095, 14302032, 1686083598);
    At(107, 6, 11, 4129, 14262331, 1700385630);
    At(108, 6, 12, 4164, 14222481, 1714647961);
    At(109, 6, 13, 4199, 14182488, 1728870442);
    At(110, 6, 14, 4233, 14142356, 1743052930);
    At(111, 6, 15, 4267, 14102088, 1757195286);
  }

  lemma Entries7()
    ensures |ROWS| == 16 && |ROWS[7]| == 16
    ensures ROWS[7][0] == 4302 && ROWS[7][1] == 4336 && ROWS[7][2] == 4370 && ROWS[7][3] == 4404
    ensures ROWS[7][4] == 4438 && ROWS[7][5] == 4471 && ROWS[7][6] == 4505 && ROWS[7][7] == 4539
    ensures ROWS[7][8] == 4572 && ROWS[7][9] == 4605 && ROWS[7][10] == 4639 && ROWS[7][11] == 4672
    ensures ROWS[7][12] == 4705 && ROWS[7][13] == 4738 && ROWS[7][14] == 4771 && ROWS[7][15] == 4803
  {
  }

  lemma Row7()
    requires Upto(112, TOTAL) && ArcSum(112) == 1771297374
    ensures Upto(128, TOTAL) && ArcSum(128) == 1991360077
  {
    hide Upto, ArcSum, ROWS;
    Entries7();
    At(112, 7, 0, 4302, 14061689, 1771297374);
    At(113, 7, 1, 4336, 14021163, 1785359063);
    At(114, 7, 2, 4370, 13980515, 1799380226);
    At(115, 7, 3, 4404, 13939748, 1813360741);
    At(116, 7, 4, 4438, 13898867, 1827300489);
    At(117, 7, 5, 4471, 13857876, 1841199356);
    At(118, 7, 6, 4505, 13816778, 1855057232);
    At(119, 7, 7, 4539, 13775579, 1868874010);
    At(120, 7, 8, 4572, 13734281, 1882649589);
    At(121, 7, 9, 4605, 13692889, 1896383870);
    At(122, 7, 10, 4639, 13651407, 1910076759);
    At(123, 7, 11, 4672, 13609838, 1923728166);
    At(124, 7, 12, 4705, 13568187, 1937338004);
    At(125, 7, 13, 4738, 13526457, 1950906191);
    At(126, 7, 14, 4771, 13484652, 1964432648);
    At(127, 7, 15, 4803, 13442777, 1977917300);
  }

  lemma Entries8()
    ensures |ROWS| == 16 && |ROWS[8]| == 16
    ensures ROWS[8][0] == 4836 && ROWS[8][1] == 4869 && ROWS[8][2] == 4901 && ROWS[8][3] == 4933
    ensures ROWS[8][4] == 4966 && ROWS[8][5] == 4998 && ROWS[8][6] == 5030 && ROWS[8][7] == 5062
    ensures ROWS[8][8] == 5094 && ROWS[8][9] == 5125 && ROWS[8][10] == 5157 && ROWS[8][11] == 5188
    ensures ROWS[8][12] == 5220 && ROWS[8][13] == 5251 && ROWS[8][14] == 5282 && ROWS[8][15] == 5313
  {
  }

  lemma Row8()
    requires Upto(128, TOTAL) && ArcSum(128) == 1991360077
    ensures Upto(144, TOTAL) && ArcSum(144) == 2200705373
  {
    hide Upto, ArcSum, ROWS;
    Entries8();
    At(128, 8, 0, 4836, 13400833, 1991360077);
    At(129, 8, 1, 4869, 13358827, 2004760910);
    At(130, 8, 2, 4901, 13316760, 2018119737);
    At(131, 8, 3, 4933, 13274636, 2031436497);
    At(132, 8, 4, 4966, 13232460, 2044711133);
    At(133, 8, 5, 4998, 13190235, 2057943593);
    At(134, 8, 6, 5030, 13147963, 2071133828);
    At(135, 8, 7, 5062, 13105650, 2084281791);
    At(136, 8, 8, 5094, 13063297, 2097387441);
    At(137, 8, 9, 5125, 13020909, 2110450738);
    At(138, 8, 10, 5157, 12978488, 2123471647);
    At(139, 8, 11, 5188, 12936039, 2136450135);
    At(140, 8, 12, 5220, 12893564, 2149386174);
    At(141, 8, 13, 5251, 12851067, 2162279738);
    At(142, 8, 14, 5282, 12808550, 2175130805);
    At(143, 8, 15, 5313, 12766018, 2187939355);
  }

  lemma Entries9()
    ensures |ROWS| == 16 && |ROWS[9]| == 16
    ensures ROWS[9][0] == 5344 && ROWS[9][1] == 5375 && ROWS[9][2] == 5406 && ROWS[9][3] == 5437
    ensures ROWS[9][4] == 5467 && ROWS[9][5] == 5498 && ROWS[9][6] == 5528 && ROWS[9][7] == 5559
    ensures ROWS[9][8] == 5589 && ROWS[9][9] == 5619 && ROWS[9][10] == 5649 && ROWS[9][11] == 5679
    ensures ROWS[9][12] == 5708 && ROWS[9][13] == 5738 && ROWS[9][14] == 5768 && ROWS[9][15] == 5797
  {
  }

  lemma Row9()
    requires Upto(144, TOTAL) && ArcSum(144) == 2200705373
    ensures Upto(160, TOTAL) && ArcSum(160) == 2399175734
  {
    hide Upto, ArcSum, ROWS;
    Entries9();
    At(144, 9, 0, 5344, 12723472, 2200705373);
    At(145, 9, 1, 5375, 12680917, 2213428845);
    At(146, 9, 2, 5406, 12638355, 2226109762);
    At(147, 9, 3, 5437, 12595789, 2238748117);
    At(148, 9, 4, 5467, 12553222, 2251343906);
    At(149, 9, 5, 5498, 12510657, 2263897128);
    At(150, 9, 6, 5528, 12468097, 2276407785);
    At(151, 9, 7, 5559, 12425545, 2288875882);
    At(152, 9, 8, 5589, 12383003, 2301301427);
    At(153, 9, 9, 5619, 12340474, 2313684430);
    At(154, 9, 10, 5649, 12297962, 2326024904);
    At(155, 9, 11, 5679, 12255468, 2338322866);
    At(156, 9, 12, 5708, 12212996, 2350578334);
    At(157, 9, 13, 5738, 12170547, 2362791330);
    At(158, 9, 14, 5768, 12128125, 2374961877);
    At(159, 9, 15, 5797, 12085732, 2387090002);
  }

  lemma Entries10()
    ensures |ROWS| == 16 && |ROWS[10]| == 16
    ensures ROWS[10][0] == 5826 && ROWS[10][1] == 5856 && ROWS[10][2] == 5885 && ROWS[10][3] == 5914
    ensures ROWS[10][4] == 5943 && ROWS[10][5] == 5972 && ROWS[10][6] == 6000 && ROWS[10][7] == 6029
    ensures ROWS[10][8] == 6058 && ROWS[10][9] == 6086 && ROWS[10][10] == 6114 && ROWS[10][11] == 6142
    ensures ROWS[10][12] == 6171 && ROWS[10][13] == 6199 && ROWS[10][14] == 6227 && ROWS[10][15] == 6254
  {
  }

  lemma Row10()
    requires Upto(160, TOTAL) && ArcSum(160) == 2399175734
    ensures Upto(176, TOTAL) && ArcSum(176) == 2586814856
  {
    hide Upto, ArcSum, ROWS;
    Entries10();
    At(160, 10, 0, 5826, 12043371, 2399175734);
    At(161, 10, 1, 5856, 12001043, 2411219105);
    At(162, 10, 2, 5885, 11958752, 2423220148);
    At(163, 10, 3, 5914, 11916500, 2435178900);
    At(164, 10, 4, 5943, 11874288, 2447095400);
    At(165, 10, 5, 5972, 11832120, 2458969688);
    At(166, 10, 6, 6000, 11789997, 2470801808);
    At(167, 10, 7, 6029, 11747923, 2482591805);
    At(168, 10, 8, 6058, 11705898, 2494339728);
    At(169, 10, 9, 6086, 11663925, 2506045626);
    At(170, 10, 10, 6114, 11622007, 2517709551);
    At(171, 10, 11, 6142, 11580145, 2529331558);
    At(172, 10, 12, 6171, 11538341, 2540911703);
    At(173, 10, 13, 6199, 11496597, 2552450044);
    At(174, 10, 14, 6227, 11454916, 2563946641);
    At(175, 10, 15, 6254, 11413299, 2575401557);
  }

  lemma Entries11()
    ensures |ROWS| == 16 && |ROWS[11]| == 16
    ensures ROWS[11][0] == 6282 && ROWS[11][1] == 6310 && ROWS[11][2] == 6337 && ROWS[11][3] == 6365
    ensures ROWS[11][4] == 6392 && ROWS[11][5] == 6419 && ROWS[11][6] == 6446 && ROWS[11][7] == 6473
    ensures ROWS[11][8] == 6500 && ROWS[11][9] == 6527 && ROWS[11][10] == 6554 && ROWS[11][11] == 6580
    ensures ROWS[11][12] == 6607 && ROWS[11][13] == 6633 && ROWS[11][14] == 6660 && ROWS[11][15] == 6686
  {
  }

  lemma Row11()
    requires Upto(176, TOTAL) && ArcSum(176) == 2586814856
    ensures Upto(192, TOTAL) && ArcSum(192) == 2763827002
  {
    hide Upto, ArcSum, ROWS;
    Entries11();
    At(176, 11, 0, 6282, 11371748, 2586814856);
    At(177, 11, 1, 6310, 11330265, 2598186604);
    At(178, 11, 2, 6337, 11288852, 2609516869);
    At(179, 11, 3, 6365, 11247510, 2620805721);
    At(180, 11, 4, 6392, 11206241, 2632053231);
    At(181, 11, 5, 6419, 11165048, 2643259472);
    At(182, 11, 6, 6446, 11123931, 2654424520);
    At(183, 11, 7, 6473, 11082892, 2665548451);
    At(184, 11, 8, 6500, 11041934, 2676631343);
    At(185, 11, 9, 6527, 11001056, 2687673277);
    At(186, 11, 10, 6554, 10960262, 2698674333);
    At(187, 11, 11, 6580, 10919552, 2709634595);
    At(188, 11, 12, 6607, 10878929, 2720554147);
    At(189, 11, 13, 6633, 10838393, 2731433076);
    At(190, 11, 14, 6660, 10797945, 2742271469);
    At(191, 11, 15, 6686, 10757588, 2753069414);
  }

  lemma Entries12()
    ensures |ROWS| == 16 && |ROWS[12]| == 16
    ensures ROWS[12][0] == 6712 && ROWS[12][1] == 6738 && ROWS[12][2] == 6764 && ROWS[12][3] == 6790
    ensures ROWS[12][4] == 6815 && ROWS[12][5] == 6841 && ROWS[12][6] == 6867 && ROWS[12][7] == 6892
    ensures ROWS[12][8] == 6917 && ROWS[12][9] == 6943 && ROWS[12][10] == 6968 && ROWS[12][11] == 6993
    ensures ROWS[12][12] == 7018 && ROWS[12][13] == 7043 && ROWS[12][14] == 7068 && ROWS[12][15] == 7092
  {
  }

  lemma Row12()
    requires Upto(192, TOTAL) && ArcSum(192) == 2763827002
    ensures Upto(208, TOTAL) && ArcSum(208) == 2930538393
  {
    hide Upto, ArcSum, ROWS;
    Entries12();
    At(192, 12, 0, 6712, 10717323, 2763827002);
    At(193, 12, 1, 6738, 10677150, 2774544325);
    At(194, 12, 2, 6764, 10637072, 2785221475);
    At(195, 12, 3, 6790, 10597089, 2795858547);
    At(196, 12, 4, 6815, 10557203, 2806455636);
    At(197, 12, 5, 6841, 10517415, 2817012839);
    At(198, 12, 6, 6867, 10477726, 2827530254);
    At(199, 12, 7, 6892, 10438137, 2838007980);
    At(200, 12, 8, 6917, 10398649, 2848446117);
    At(201, 12, 9, 6943, 10359264, 2858844766);
    At(202, 12, 10, 6968, 10319982, 2869204030);
    At(203, 12, 11, 6993, 10280805, 2879524012);
    At(204, 12, 12, 7018, 10241734, 2889804817);
    At(205, 12, 13, 7043, 10202769, 2900046551);
    At(206, 12, 14, 7068, 10163911, 2910249320);
    At(207, 12, 15, 7092, 10125162, 2920413231);
  }

  lemma Entries13()
    ensures |ROWS| == 16 && |ROWS[13]| == 16
    ensures ROWS[13][0] == 7117 && ROWS[13][1] == 7141 && ROWS[13][2] == 7166 && ROWS[13][3] == 7190
    ensures ROWS[13][4] == 7214 && ROWS[13][5] == 7238 && ROWS[13][6] == 7262 && ROWS[13][7] == 7286
    ensures ROWS[13][8] == 7310 && ROWS[13][9] == 7334 && ROWS[13][10] == 7358 && ROWS[13][11] == 7381
    ensures ROWS[13][12] == 7405 && ROWS[13][13] == 7428 && ROWS[13][14] == 7451 && ROWS[13][15] == 7475
  {
  }

  lemma Row13()
    requires Upto(208, TOTAL) && ArcSum(208) == 2930538393
    ensures Upto(224, TOTAL) && ArcSum(224) == 3087362710
  {
    hide Upto, ArcSum, ROWS;
    Entries13();
    At(208, 13, 0, 7117, 10086522, 2930538393);
    At(209, 13, 1, 7141, 10047992, 2940624915);
    At(210, 13, 2, 7166, 10009573, 2950672907);
    At(211, 13, 3, 7190, 9971266, 2960682480);
    At(212, 13, 4, 7214, 9933072, 2970653746);
    At(213, 13, 5, 7238, 9894991, 2980586818);
    At(214, 13, 6, 7262, 9857024, 2990481809);
    At(215, 13, 7, 7286, 9819172, 3000338833);
    At(216, 13, 8, 7310, 9781435, 3010158005);
    At(217, 13, 9, 7334, 9743815, 3019939440);
    At(218, 13, 10, 7358, 9706312, 3029683255);
    At(219, 13, 11, 7381, 9668926, 3039389567);
    At(220, 13, 12, 7405, 9631658, 3049058493);
    At(221, 13, 13, 7428, 9594509, 3058690151);
    At(222, 13, 14, 7451, 9557480, 3068284660);
    At(223, 13, 15, 7475, 9520570, 3077842140);
  }

  lemma Entries14()
    ensures |ROWS| == 16 && |ROWS[14]| == 16
    ensures ROWS[14][0] == 7498 && ROWS[14][1] == 7521 && ROWS[14][2] == 7544 && ROWS[14][3] == 7566
    ensures ROWS[14][4] == 7589 && ROWS[14][5] == 7612 && ROWS[14][6] == 7635 && ROWS[14][7] == 7657
    ensures ROWS[14][8] == 7679 && ROWS[14][9] == 7702 && ROWS[14][10] == 7724 && ROWS[14][11] == 7746
    ensures ROWS[14][12] == 7768 && ROWS[14][13] == 7790 && ROWS[14][14] == 7812 && ROWS[14][15] == 7834
  {
  }

  lemma Row14()
    requires Upto(224, TOTAL) && ArcSum(224) == 3087362710
    ensures Upto(240, TOTAL) && ArcSum(240) == 3234771709
  {
    hide Upto, ArcSum, ROWS;
    Entries14();
    At(224, 14, 0, 7498, 9483780, 3087362710);
    At(225, 14, 1, 7521, 9447112, 3096846490);
    At(226, 14, 2, 7544, 9410565, 3106293602);
    At(227, 14, 3, 7566, 9374139, 3115704167);
    At(228, 14, 4, 7589, 9337836, 3125078306);
    At(229, 14, 5, 7612, 9301656, 3134416142);
    At(230, 14, 6, 7635, 9265599, 3143717798);
    At(231, 14, 7, 7657, 9229665, 3152983397);
    At(232, 14, 8, 7679, 9193856, 3162213062);
    At(233, 14, 9, 7702, 9158170, 3171406918);
    At(234, 14, 10, 7724, 9122609, 3180565088);
    At(235, 14, 11, 7746, 9087173, 3189687697);
    At(236, 14, 12, 7768, 9051862, 3198774870);
    At(237, 14, 13, 7790, 9016677, 3207826732);
    At(238, 14, 14, 7812, 8981617, 3216843409);
    At(239, 14, 15, 7834, 8946683, 3225825026);
  }

  lemma Entries15()
    ensures |ROWS| == 16 && |ROWS[15]| == 16
    ensures ROWS[15][0] == 7856 && ROWS[15][1] == 7877 && ROWS[15][2] == 7899 && ROWS[15][3] == 7920
    ensures ROWS[15][4] == 7942 && ROWS[15][5] == 7963 && ROWS[15][6] == 7984 && ROWS[15][7] == 8005
    ensures ROWS[15][8] == 8026 && ROWS[15][9] == 8047 && ROWS[15][10] == 8068 && ROWS[15][11] == 8089
    ensures ROWS[15][12] == 8110 && ROWS[15][13] == 8131 && ROWS[15][14] == 8151 && ROWS[15][15] == 8172
  {
  }

  lemma Row15()
    requires Upto(240, TOTAL) && ArcSum(240) == 3234771709
    ensures Upto(256, TOTAL) && ArcSum(256) == 3373271197
  {
    hide Upto, ArcSum, ROWS;
    Entries15();
    At(240, 15, 0, 7856, 8911876, 3234771709);
    At(241, 15, 1, 7877, 8877195, 3243683585);
    At(242, 15, 2, 7899, 8842640, 3252560780);
    At(243, 15, 3, 7920, 8808213, 3261403420);
    At(244, 15, 4, 7942, 8773912, 3270211633);
    At(245, 15, 5, 7963, 8739739, 3278985545);
    At(246, 15, 6, 7984, 8705693, 3287725284);
    At(247, 15, 7, 8005, 8671774, 3296430977);
    At(248, 15, 8, 8026, 8637983, 3305102751);
    At(249, 15, 9, 8047, 8604319, 3313740734);
    At(250, 15, 10, 8068, 8570784, 3322345053);
    At(251, 15, 11, 8089, 8537376, 3330915837);
    At(252, 15, 12, 8110, 8504096, 3339453213);
    At(253, 15, 13, 8131, 8470944, 3347957309);
    At(254, 15, 14, 8151, 8437920, 3356428253);
    At(255, 15, 15, 8172, 8405024, 3364866173);
  }

  /** Every entry of the shipped table is the nearest whole number to its arc tangent, in units of
      which an eighth of a turn has 8192. */
  lemma EntriesAreArcTangents(i: nat)
    requires i <= 256
    ensures AtanTable()[i] == Entry(i) && Nearest(i, ArcSum(256))
  {
    hide Upto, ArcSum, Entry;
    None();
    Row0();
    Row1();
    Row2();
    Row3();
    Row4();
    Row5();
    Row6();
    Row7();
    Row8();
    Row9();
    Row10();
    Row11();
    Row12();
    Row13();
    Row14();
    Row15();
    Last(i);
  }

  lemma None()
    ensures Upto(0, TOTAL) && ArcSum(0) == 0
  {
  }

  lemma Last(i: nat)
    requires i <= 256 && Upto(256, TOTAL) && ArcSum(256) == TOTAL
    ensures Nearest(i, TOTAL)
  {
    hide ArcSum, Entry;
    if i == 256 { EntryEnds(); }
  }
}
