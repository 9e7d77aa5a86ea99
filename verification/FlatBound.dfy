/** The bins that keep the promise of at most 12.5% waste. */
module FlatBound {
  import opened Basics
  import opened Geometry
  import opened SizeClass

  /** The least size a bin serves. */
  function LeastSize(b: nat): nat { if b == 0 then 1 else ClassSize(b - 1) + 1 }

  /** Every size the bin serves gets a slot of at most 9/8 of it. */
  ghost predicate KeepsPromise(b: nat) {
    forall size: nat | size > 0 && LeastFit(b, size) :: 8 * SlotSize(ClassSize(b)) <= 9 * size
  }

  /** The slot is at most 9/8 of the least size. */
  predicate Tight(b: nat) { 8 * SlotSize(ClassSize(b)) <= 9 * LeastSize(b) }

  /** The least size is the worst one. */
  lemma WorstIsLeast(b: nat)
    requires b < BIN_COUNT
    ensures KeepsPromise(b) <==> Tight(b)
  {
    assert LeastFit(b, LeastSize(b)) by {
      if b > 0 {
        TableIncreases(b - 1);
        forall c: nat | c < b ensures ClassSize(c) < LeastSize(b) { if c < b - 1 { TableSorted(c, b - 1); } }
      }
    }
    forall size: nat | size > 0 && LeastFit(b, size) ensures LeastSize(b) <= size {}
  }

  /** A slot is its class rounded up to 16 bytes. */
  lemma SlotOf(size: nat, slot: nat)
    requires slot % 16 == 0 && 16 <= slot && size <= slot < size + 16
    ensures SlotSize(size) == slot
  {
    SlotSizeBounds(size);
    OnlyOne(size, SlotSize(size), slot);
  }

  lemma OnlyOne(size: nat, a: nat, b: nat)
    requires a % 16 == 0 && b % 16 == 0 && 16 <= a && 16 <= b
    requires size <= a && (a < size + 16 || a == 16) && size <= b < size + 16
    ensures a == b
  {
  }

  /** Of the small bins the odd ones from 7 on. */
  lemma SmallBins(b: nat)
    requires b < SMALL_BIN_COUNT
    ensures Tight(b) <==> b % 2 == 1 && b >= 7
  {
    SmallClass(b);
    if b > 0 { SmallClass(b - 1); }
    SlotOf(8 * (b + 1), 16 * (b / 2 + 1));
  }

  // ---- the medium bins, one growth step after the other ----

  /** `flat` holds exactly the bins among the first `n` medium ones that keep the promise; `c` is the class of the
      last of them, and the unrounded size lies between `lo` and `hi`. */
  ghost predicate Upto(n: nat, flat: set<nat>, c: nat, lo: real, hi: real) {
    && (forall b: nat {:trigger Tight(b)} | SMALL_BIN_COUNT <= b < SMALL_BIN_COUNT + n :: Tight(b) <==> b in flat)
    && (forall b | b in flat :: SMALL_BIN_COUNT <= b < SMALL_BIN_COUNT + n)
    && ClassSize(SMALL_BIN_COUNT - 1 + n) == c
    && lo <= Growth(n) <= hi
  }

  /** The class after one more step, from bounds on the unrounded size. */
  lemma NextClass(n: nat, lo: real, hi: real, c: nat)
    requires lo <= Growth(n + 1) <= hi && c % 16 == 0 && 128 < c <= MEDIUM_MAX
    requires c as real - 15.0 <= lo && (hi < c as real + 1.0 || c == MEDIUM_MAX)
    ensures ClassSize(SMALL_BIN_COUNT + n) == c
  {
    var x := Whole(Growth(n + 1));
    assert c - 15 <= x && (x <= c || c == MEDIUM_MAX);
    RoundUpBounds(x, 16);
  }

  lemma Next(n: nat, flat: set<nat>, c: nat, lo: real, hi: real, c': nat, lo': real, hi': real)
    returns (flat': set<nat>)
    requires Upto(n, flat, c, lo, hi) && lo' <= lo * 1.125 && hi * 1.125 <= hi'
    requires c' % 16 == 0 && 128 < c' <= MEDIUM_MAX
    requires c' as real - 15.0 <= lo' && (hi' < c' as real + 1.0 || c' == MEDIUM_MAX)
    ensures flat' == if 8 * c' <= 9 * (c + 1) then flat + {SMALL_BIN_COUNT + n} else flat
    ensures Upto(n + 1, flat', c', lo', hi')
  {
    GrowthStep(n, lo, hi, lo', hi');
    NextClass(n, lo', hi', c');
    NextTight(SMALL_BIN_COUNT + n, c, c');
    flat' := if 8 * c' <= 9 * (c + 1) then flat + {SMALL_BIN_COUNT + n} else flat;
  }

  lemma GrowthStep(n: nat, lo: real, hi: real, lo': real, hi': real)
    requires lo <= Growth(n) <= hi && lo' <= lo * 1.125 && hi * 1.125 <= hi'
    ensures lo' <= Growth(n + 1) <= hi'
  {
  }

  lemma NextTight(b: nat, c: nat, c': nat)
    requires b > 0 && ClassSize(b - 1) == c && ClassSize(b) == c' && c' % 16 == 0 && c' > 0
    ensures Tight(b) <==> 8 * c' <= 9 * (c + 1)
  {
    SlotOf(c', c');
  }

  lemma Bins16(n: nat, flat: set<nat>) returns (flat': set<nat>)
    requires n == 0 && Upto(n, flat, 128, 128.0, 128.0)
    ensures Upto(n + 5, flat', 240, 230.660156, 230.660157)
    ensures flat' == flat + {16, 18, 19}
  {
    flat' := flat;
    flat' := Next(n, flat', 128, 128.0, 128.0, 144, 144.0, 144.0);
    flat' := Next(n + 1, flat', 144, 144.0, 144.0, 176, 162.0, 162.0);
    flat' := Next(n + 2, flat', 176, 162.0, 162.0, 192, 182.25, 182.25);
    flat' := Next(n + 3, flat', 192, 182.25, 182.25, 208, 205.03125, 205.03125);
    flat' := Next(n + 4, flat', 208, 205.03125, 205.03125, 240, 230.660156, 230.660157);
  }

  lemma Bins21(n: nat, flat: set<nat>) returns (flat': set<nat>)
    requires n == 5 && Upto(n, flat, 240, 230.660156, 230.660157)
    ensures Upto(n + 5, flat', 416, 415.657089, 415.657095)
    ensures flat' == flat + {22, 23, 25}
  {
    flat' := flat;
    flat' := Next(n, flat', 240, 230.660156, 230.660157, 272, 259.492675, 259.492677);
    flat' := Next(n + 1, flat', 272, 259.492675, 259.492677, 304, 291.929259, 291.929262);
    flat' := Next(n + 2, flat', 304, 291.929259, 291.929262, 336, 328.420416, 328.42042);
    flat' := Next(n + 3, flat', 336, 328.420416, 328.42042, 384, 369.472968, 369.472973);
    flat' := Next(n + 4, flat', 384, 369.472968, 369.472973, 416, 415.657089, 415.657095);
  }

  lemma Bins26(n: nat, flat: set<nat>) returns (flat': set<nat>)
    requires n == 10 && Upto(n, flat, 416, 415.657089, 415.657095)
    ensures Upto(n + 5, flat', 752, 749.027569, 749.027583)
    ensures flat' == flat + {27, 28, 30}
  {
    flat' := flat;
    flat' := Next(n, flat', 416, 415.657089, 415.657095, 480, 467.614225, 467.614232);
    flat' := Next(n + 1, flat', 480, 467.614225, 467.614232, 528, 526.066003, 526.066011);
    flat' := Next(n + 2, flat', 528, 526.066003, 526.066011, 592, 591.824253, 591.824263);
    flat' := Next(n + 3, flat', 592, 591.824253, 591.824263, 672, 665.802284, 665.802296);
    flat' := Next(n + 4, flat', 672, 665.802284, 665.802296, 752, 749.027569, 749.027583);
  }

  lemma Bins31(n: nat, flat: set<nat>) returns (flat': set<nat>)
    requires n == 15 && Upto(n, flat, 752, 749.027569, 749.027583)
    ensures Upto(n + 5, flat', 1360, 1349.771998, 1349.772028)
    ensures flat' == flat + {33, 34}
  {
    flat' := flat;
    flat' := Next(n, flat', 752, 749.027569, 749.027583, 848, 842.656015, 842.656031);
    flat' := Next(n + 1, flat', 848, 842.656015, 842.656031, 960, 947.988016, 947.988035);
    flat' := Next(n + 2, flat', 960, 947.988016, 947.988035, 1072, 1066.486518, 1066.48654);
    flat' := Next(n + 3, flat', 1072, 1066.486518, 1066.48654, 1200, 1199.797332, 1199.797358);
    flat' := Next(n + 4, flat', 1200, 1199.797332, 1199.797358, 1360, 1349.771998, 1349.772028);
  }

  lemma Bins36(n: nat, flat: set<nat>) returns (flat': set<nat>)
    requires n == 20 && Upto(n, flat, 1360, 1349.771998, 1349.772028)
    ensures Upto(n + 5, flat', 2432, 2432.332966, 2432.333025)
    ensures flat' == flat + {36, 39, 40}
  {
    flat' := flat;
    flat' := Next(n, flat', 1360, 1349.771998, 1349.772028, 1520, 1518.493497, 1518.493532);
    flat' := Next(n + 1, flat', 1520, 1518.493497, 1518.493532, 1712, 1708.305184, 1708.305224);
    flat' := Next(n + 2, flat', 1712, 1708.305184, 1708.305224, 1936, 1921.843332, 1921.843377);
    flat' := Next(n + 3, flat', 1936, 1921.843332, 1921.843377, 2176, 2162.073748, 2162.0738);
    flat' := Next(n + 4, flat', 2176, 2162.073748, 2162.0738, 2432, 2432.332966, 2432.333025);
  }

  lemma Bins41(n: nat, flat: set<nat>) returns (flat': set<nat>)
    requires n == 25 && Upto(n, flat, 2432, 2432.332966, 2432.333025)
    ensures Upto(n + 5, flat', 4384, 4383.142981, 4383.143094)
    ensures flat' == flat + {41, 43, 44, 45}
  {
    flat' := flat;
    flat' := Next(n, flat', 2432, 2432.332966, 2432.333025, 2736, 2736.374586, 2736.374654);
    flat' := Next(n + 1, flat', 2736, 2736.374586, 2736.374654, 3088, 3078.421409, 3078.421486);
    flat' := Next(n + 2, flat', 3088, 3078.421409, 3078.421486, 3472, 3463.224085, 3463.224172);
    flat' := Next(n + 3, flat', 3472, 3463.224085, 3463.224172, 3904, 3896.127095, 3896.127194);
    flat' := Next(n + 4, flat', 3904, 3896.127095, 3896.127194, 4384, 4383.142981, 4383.143094);
  }

  lemma Bins46(n: nat, flat: set<nat>) returns (flat': set<nat>)
    requires n == 30 && Upto(n, flat, 4384, 4383.142981, 4383.143094)
    ensures Upto(n + 5, flat', 7904, 7898.565972, 7898.566181)
    ensures flat' == flat + {47, 48}
  {
    flat' := flat;
    flat' := Next(n, flat', 4384, 4383.142981, 4383.143094, 4944, 4931.035853, 4931.035981);
    flat' := Next(n + 1, flat', 4944, 4931.035853, 4931.035981, 5552, 5547.415334, 5547.415479);
    flat' := Next(n + 2, flat', 5552, 5547.415334, 5547.415479, 6240, 6240.84225, 6240.842414);
    flat' := Next(n + 3, flat', 6240, 6240.84225, 6240.842414, 7024, 7020.947531, 7020.947716);
    flat' := Next(n + 4, flat', 7024, 7020.947531, 7020.947716, 7904, 7898.565972, 7898.566181);
  }

  lemma Bins51(n: nat, flat: set<nat>) returns (flat': set<nat>)
    requires n == 35 && Upto(n, flat, 7904, 7898.565972, 7898.566181)
    ensures Upto(n + 5, flat', 14240, 14233.47235, 14233.472733)
    ensures flat' == flat + {52, 53}
  {
    flat' := flat;
    flat' := Next(n, flat', 7904, 7898.565972, 7898.566181, 8896, 8885.886718, 8885.886954);
    flat' := Next(n + 1, flat', 8896, 8885.886718, 8885.886954, 10000, 9996.622557, 9996.622824);
    flat' := Next(n + 2, flat', 10000, 9996.622557, 9996.622824, 11248, 11246.200376, 11246.200677);
    flat' := Next(n + 3, flat', 11248, 11246.200376, 11246.200677, 12656, 12651.975423, 12651.975762);
    flat' := Next(n + 4, flat', 12656, 12651.975423, 12651.975762, 14240, 14233.47235, 14233.472733);
  }

  lemma Bins56(n: nat, flat: set<nat>) returns (flat': set<nat>)
    requires n == 40 && Upto(n, flat, 14240, 14233.47235, 14233.472733)
    ensures Upto(n + 5, flat', 25664, 25649.179342, 25649.18004)
    ensures flat' == flat + {56, 57, 59}
  {
    flat' := flat;
    flat' := Next(n, flat', 14240, 14233.47235, 14233.472733, 16016, 16012.656393, 16012.656825);
    flat' := Next(n + 1, flat', 16016, 16012.656393, 16012.656825, 18016, 18014.238442, 18014.238929);
    flat' := Next(n + 2, flat', 18016, 18014.238442, 18014.238929, 20272, 20266.018247, 20266.018796);
    flat' := Next(n + 3, flat', 20272, 20266.018247, 20266.018796, 22800, 22799.270527, 22799.271146);
    flat' := Next(n + 4, flat', 22800, 22799.270527, 22799.271146, 25664, 25649.179342, 25649.18004);
  }

  lemma Bins61(n: nat, flat: set<nat>) returns (flat': set<nat>)
    requires n == 45 && Upto(n, flat, 25664, 25649.179342, 25649.18004)
    ensures Upto(n + 5, flat', 46224, 46220.654018, 46220.655282)
    ensures flat' == flat + {61, 62, 64, 65}
  {
    flat' := flat;
    flat' := Next(n, flat', 25664, 25649.179342, 25649.18004, 28864, 28855.326759, 28855.327545);
    flat' := Next(n + 1, flat', 28864, 28855.326759, 28855.327545, 32464, 32462.242603, 32462.243489);
    flat' := Next(n + 2, flat', 32464, 32462.242603, 32462.243489, 36528, 36520.022928, 36520.023926);
    flat' := Next(n + 3, flat', 36528, 36520.022928, 36520.023926, 41088, 41085.025794, 41085.026917);
    flat' := Next(n + 4, flat', 41088, 41085.025794, 41085.026917, 46224, 46220.654018, 46220.655282);
  }

  lemma Bins66(n: nat, flat: set<nat>) returns (flat': set<nat>)
    requires n == 50 && Upto(n, flat, 46224, 46220.654018, 46220.655282)
    ensures Upto(n + 5, flat', 83296, 83291.119356, 83291.121639)
    ensures flat' == flat + {66, 68, 69, 70}
  {
    flat' := flat;
    flat' := Next(n, flat', 46224, 46220.654018, 46220.655282, 52000, 51998.23577, 51998.237193);
    flat' := Next(n + 1, flat', 52000, 51998.23577, 51998.237193, 58512, 58498.015241, 58498.016843);
    flat' := Next(n + 2, flat', 58512, 58498.015241, 58498.016843, 65824, 65810.267146, 65810.268949);
    flat' := Next(n + 3, flat', 65824, 65810.267146, 65810.268949, 74048, 74036.550539, 74036.552568);
    flat' := Next(n + 4, flat', 74048, 74036.550539, 74036.552568, 83296, 83291.119356, 83291.121639);
  }

  lemma Bins71(n: nat, flat: set<nat>) returns (flat': set<nat>)
    requires n == 55 && Upto(n, flat, 83296, 83291.119356, 83291.121639)
    ensures Upto(n + 4, flat', 131072, 133416.268087, 133416.271749)
    ensures flat' == flat + {72, 73, 74}
  {
    flat' := flat;
    flat' := Next(n, flat', 83296, 83291.119356, 83291.121639, 93712, 93702.509275, 93702.511844);
    flat' := Next(n + 1, flat', 93712, 93702.509275, 93702.511844, 105424, 105415.322934, 105415.325825);
    flat' := Next(n + 2, flat', 105424, 105415.322934, 105415.325825, 118592, 118592.2383, 118592.241554);
    flat' := Next(n + 3, flat', 118592, 118592.2383, 118592.241554, 131072, 133416.268087, 133416.271749);
  }

  /** The medium bins that keep the promise. */
  const FLAT_MEDIUM: set<nat> :=
    ({16, 18, 19} + {22, 23, 25} + {27, 28, 30}) + ({33, 34} + {36, 39, 40} + {41, 43, 44, 45})
    + ({47, 48} + {52, 53} + {56, 57, 59}) + ({61, 62, 64, 65} + {66, 68, 69, 70} + {72, 73, 74})

  lemma Part1(n: nat, flat: set<nat>) returns (flat': set<nat>)
    requires n == 0 && Upto(n, flat, 128, 128.0, 128.0)
    ensures Upto(n + 15, flat', 752, 749.027569, 749.027583)
    ensures flat' == flat + ({16, 18, 19} + {22, 23, 25} + {27, 28, 30})
  {
    flat' := flat;
    flat' := Bins16(n, flat');
    flat' := Bins21(n + 5, flat');
    flat' := Bins26(n + 10, flat');
  }

  lemma Part2(n: nat, flat: set<nat>) returns (flat': set<nat>)
    requires n == 15 && Upto(n, flat, 752, 749.027569, 749.027583)
    ensures Upto(n + 15, flat', 4384, 4383.142981, 4383.143094)
    ensures flat' == flat + ({33, 34} + {36, 39, 40} + {41, 43, 44, 45})
  {
    flat' := flat;
    flat' := Bins31(n, flat');
    flat' := Bins36(n + 5, flat');
    flat' := Bins41(n + 10, flat');
  }

  lemma Part3(n: nat, flat: set<nat>) returns (flat': set<nat>)
    requires n == 30 && Upto(n, flat, 4384, 4383.142981, 4383.143094)
    ensures Upto(n + 15, flat', 25664, 25649.179342, 25649.18004)
    ensures flat' == flat + ({47, 48} + {52, 53} + {56, 57, 59})
  {
    flat' := flat;
    flat' := Bins46(n, flat');
    flat' := Bins51(n + 5, flat');
    flat' := Bins56(n + 10, flat');
  }

  lemma Part4(n: nat, flat: set<nat>) returns (flat': set<nat>)
    requires n == 45 && Upto(n, flat, 25664, 25649.179342, 25649.18004)
    ensures Upto(n + 14, flat', 131072, 133416.268087, 133416.271749)
    ensures flat' == flat + ({61, 62, 64, 65} + {66, 68, 69, 70} + {72, 73, 74})
  {
    flat' := flat;
    flat' := Bins61(n, flat');
    flat' := Bins66(n + 5, flat');
    flat' := Bins71(n + 10, flat');
  }

  lemma NoBins(n: nat)
    requires n == 0
    ensures Upto(n, {}, 128, 128.0, 128.0)
  {
    SmallClass(SMALL_BIN_COUNT - 1 + n);
  }

  lemma AllBins(n: nat)
    requires n == 0
    ensures forall b: nat {:trigger Tight(b)} | SMALL_BIN_COUNT <= b < BIN_COUNT :: Tight(b) <==> b in FLAT_MEDIUM
  {
    NoBins(n);
    var flat: set<nat> := {};
    flat := Part1(n, flat);
    flat := Part2(n + 15, flat);
    flat := Part3(n + 30, flat);
    flat := Part4(n + 45, flat);
    assert flat == FLAT_MEDIUM;
  }

  lemma MediumBins(b: nat)
    requires SMALL_BIN_COUNT <= b < BIN_COUNT
    ensures Tight(b) <==> b in FLAT_MEDIUM
  {
    AllBins(0);
  }

  /** A bin keeps the promise of at most 12.5% waste exactly when it is odd and at least 7, below bin 16, or one of
      the 36 of `FLAT_MEDIUM`. */
  lemma FlatBoundIff(b: nat)
    requires b < BIN_COUNT
    ensures KeepsPromise(b) <==> if b < SMALL_BIN_COUNT then b % 2 == 1 && b >= 7 else b in FLAT_MEDIUM
  {
    WorstIsLeast(b);
    if b < SMALL_BIN_COUNT { SmallBins(b); } else { MediumBins(b); }
  }

  /** Where it fails first: one byte gets a slot of 16. */
  lemma OneByte(b: nat)
    requires b == 0
    ensures LeastFit(b, 1) && SlotSize(ClassSize(b)) == 16
  {
    SmallClass(b);
    SlotOf(ClassSize(b), 16);
  }

  /** Above 128 bytes: a 145-byte request gets a slot of 176. */
  lemma FlatBoundFails(b: nat)
    requires b == 17
    ensures LeastFit(b, 145) && ClassSize(b) == SlotSize(ClassSize(b)) == 176
  {
    var flat: set<nat> := {};
    SmallClass(15);
    var first := Next(b - 17, flat, 128, 128.0, 128.0, 144, 144.0, 144.0);
    var second := Next(b - 16, first, 144, 144.0, 144.0, 176, 162.0, 162.0);
    SlotOf(176, 176);
    forall c: nat | c < b ensures ClassSize(c) < 145 { if c < b - 1 { TableSorted(c, b - 1); } }
  }
}
