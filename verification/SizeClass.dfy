/** The size classes: a generated table, and the search for the least class that fits. */
module SizeClass {
  import opened Basics
  import opened Bits

  const SMALL_MAX := 128
  const MEDIUM_MAX := 131072
  const SMALL_BIN_COUNT := 16
  const BIN_COUNT := 75

  /** The unrounded size after `n` growth steps of 12.5%. */
  function Growth(n: nat): real {
    if n == 0 then 128.0 else Growth(n - 1) * 1.125
  }

  function RoundUp(x: nat, unit: nat): nat
    requires unit > 0
  {
    (x + unit - 1) / unit * unit
  }

  /** The slot size of bin `b`. */
  function ClassSize(b: nat): nat {
    if b < SMALL_BIN_COUNT then (b + 1) * 8
    else
      var rounded := RoundUp(Whole(Growth(b - SMALL_BIN_COUNT + 1)), 16);
      if rounded > MEDIUM_MAX then MEDIUM_MAX else rounded
  }

  function Whole(x: real): nat { if x < 0.0 then 0 else x.Floor }

  lemma {:induction false} GrowthMin(n: nat)
    ensures Growth(n) >= 128.0
  {
    if n > 0 { GrowthMin(n - 1); }
  }

  lemma {:induction false} GrowthAdds(m: nat, n: nat)
    ensures Growth(m + n) * 128.0 == Growth(m) * Growth(n)
    decreases n
  {
    if n > 0 { GrowthAdds(m, n - 1); }
  }

  /** The growth reaches the largest class with its last bin and not before. */
  lemma GrowthEnds()
    ensures 118000.0 < Growth(58) < 119000.0 && Growth(59) > 131072.0
  {
    assert Growth(1) == 144.0 && Growth(2) == 162.0;
    GrowthAdds(2, 2);
    assert Growth(4) == 205.03125;
    GrowthAdds(4, 4);
    assert 328.4 < Growth(8) < 328.5;
    GrowthAdds(8, 8);
    assert 842.5 < Growth(16) < 843.1;
    GrowthAdds(16, 16);
    assert 5545.0 < Growth(32) < 5554.0;
    GrowthAdds(32, 16);
    assert 36497.0 < Growth(48) < 36583.0;
    GrowthAdds(48, 8);
    assert 93637.0 < Growth(56) < 93888.0;
    GrowthAdds(56, 2);
  }

  lemma {:induction false} GrowthMonotone(m: nat, n: nat)
    requires m <= n
    ensures Growth(m) <= Growth(n)
    decreases n
  {
    if m < n { GrowthMonotone(m, n - 1); GrowthMin(n - 1); }
  }

  lemma RoundUpBounds(x: nat, unit: nat)
    requires unit == 16 || unit == 8
    ensures x <= RoundUp(x, unit) < x + unit && RoundUp(x, unit) % unit == 0
  {
  }

  /** The masks of the code round up. */
  lemma MaskRounds(x: nat, unit: nat)
    requires unit == 16 || unit == 8
    ensures AlignUp(x, unit) == RoundUp(x, unit)
  {
    Power(3);
    Power(4);
    AlignUpLeast(x, unit);
    RoundUpBounds(x, unit);
    SameMultiple(x, AlignUp(x, unit), RoundUp(x, unit), unit);
  }

  lemma SameMultiple(x: nat, a: nat, r: nat, unit: nat)
    requires unit > 0 && x <= a < x + unit && x <= r < x + unit && a % unit == 0 && r % unit == 0
    ensures a == r
  {
    if a <= r { SameResidue(a, r, unit); } else { SameResidue(r, a, unit); }
  }

  /** Each growth step raises the rounded size by at least 16 below the cap. */
  lemma RoundedGrows(n: nat)
    requires n > 0
    ensures RoundUp(Whole(Growth(n - 1)), 16) + 16 <= RoundUp(Whole(Growth(n)), 16)
  {
    GrowthMin(n - 1);
    var x, y := Whole(Growth(n - 1)), Whole(Growth(n));
    assert Growth(n) >= Growth(n - 1) + 16.0;
    assert y >= x + 16;
  }

  lemma LastClass()
    ensures ClassSize(BIN_COUNT - 1) == MEDIUM_MAX
  {
    GrowthEnds();
    RoundUpBounds(Whole(Growth(59)), 16);
  }

  lemma SmallClass(b: nat)
    requires b < SMALL_BIN_COUNT
    ensures ClassSize(b) == 8 * (b + 1) && ClassSize(SMALL_BIN_COUNT) == 144
  {
    assert Growth(1) == 144.0;
  }

  /** The medium classes below the last are not cut off. */
  lemma MediumClass(b: nat)
    requires SMALL_BIN_COUNT <= b < BIN_COUNT - 1
    ensures ClassSize(b) == RoundUp(Whole(Growth(b - 15)), 16) < MEDIUM_MAX && ClassSize(b) % 16 == 0
  {
    GrowthEnds();
    GrowthMonotone(b - 15, 58);
    RoundUpBounds(Whole(Growth(b - 15)), 16);
  }

  lemma MediumIncreases(b: nat)
    requires SMALL_BIN_COUNT <= b < BIN_COUNT - 1
    ensures ClassSize(b) < ClassSize(b + 1)
  {
    MediumClass(b);
    if b + 1 < BIN_COUNT - 1 {
      MediumClass(b + 1);
      RoundedGrows(b - 14);
    } else {
      LastClass();
    }
  }

  /** The table is strictly increasing, fills all bins and ends with the largest class. */
  lemma TableIncreases(b: nat)
    requires b + 1 < BIN_COUNT
    ensures ClassSize(b) < ClassSize(b + 1)
    ensures ClassSize(b) < MEDIUM_MAX == ClassSize(BIN_COUNT - 1)
    ensures ClassSize(b) % 8 == 0 && (b >= SMALL_BIN_COUNT ==> ClassSize(b) % 16 == 0)
  {
    LastClass();
    if b >= SMALL_BIN_COUNT {
      MediumClass(b);
      MediumIncreases(b);
    } else {
      SmallClass(b);
      if b + 1 < SMALL_BIN_COUNT { SmallClass(b + 1); }
    }
  }

  lemma {:induction false} TableSorted(b: nat, c: nat)
    requires b < c < BIN_COUNT
    ensures ClassSize(b) < ClassSize(c)
    decreases c
  {
    TableIncreases(c - 1);
    if b < c - 1 { TableSorted(b, c - 1); }
  }

  /** The two corrections of the generating loop never apply. */
  lemma NeverPatched(b: nat)
    requires SMALL_BIN_COUNT <= b < BIN_COUNT
    ensures RoundUp(Whole(Growth(b - SMALL_BIN_COUNT + 1)), 16) > SMALL_MAX
    ensures b > SMALL_BIN_COUNT ==> RoundUp(Whole(Growth(b - SMALL_BIN_COUNT + 1)), 16) > ClassSize(b - 1)
  {
    GrowthMin(b - SMALL_BIN_COUNT);
    RoundUpBounds(Whole(Growth(b - SMALL_BIN_COUNT)), 16);
    RoundedGrows(b - SMALL_BIN_COUNT + 1);
  }

  /** The generating loop leaves no bin to be filled with a copy of the last one. */
  lemma NothingLeft(b: nat)
    requires SMALL_BIN_COUNT <= b <= BIN_COUNT
    requires b == BIN_COUNT || Growth(b - SMALL_BIN_COUNT) >= 131072.0 || ClassSize(b - 1) >= MEDIUM_MAX
    ensures b == BIN_COUNT
  {
    GrowthEnds();
    if b < BIN_COUNT {
      GrowthMonotone(b - SMALL_BIN_COUNT, 58);
      TableIncreases(b - 1);
    }
  }

  /** So the copies the filling loop would write agree with the table. */
  lemma FillsSame(b: nat)
    requires SMALL_BIN_COUNT <= b <= BIN_COUNT
    requires b == BIN_COUNT || Growth(b - SMALL_BIN_COUNT) >= 131072.0 || ClassSize(b - 1) >= MEDIUM_MAX
    ensures forall c: nat | b <= c < BIN_COUNT :: ClassSize(c) == ClassSize(b - 1)
  {
    NothingLeft(b);
  }

  /** Bin `b` is the least one whose slots hold `size` bytes. */
  ghost predicate LeastFit(b: nat, size: nat) {
    && b < BIN_COUNT
    && size <= ClassSize(b)
    && forall c: nat | c < b :: ClassSize(c) < size
  }

  /** Where the search stops: the least class that fits, or the last one when none does. */
  lemma SearchEnds(b: nat, asked: nat, size: nat)
    requires SMALL_BIN_COUNT <= b < BIN_COUNT && SMALL_MAX < size == RoundUp(asked, 8)
    requires b < BIN_COUNT - 1 ==> ClassSize(b) >= size
    requires b > SMALL_BIN_COUNT ==> ClassSize(b - 1) < size
    ensures asked <= MEDIUM_MAX ==> LeastFit(b, asked)
    ensures asked > MEDIUM_MAX ==> b == BIN_COUNT - 1
  {
    RoundUpBounds(asked, 8);
    TableIncreases(if b < BIN_COUNT - 1 then b else b - 1);
    TableIncreases(b - 1);
    forall c: nat | c < b ensures ClassSize(c) < asked {
      if c < b - 1 { TableSorted(c, b - 1); }
      if b > SMALL_BIN_COUNT { MultipleBelow(ClassSize(b - 1), asked); }
    }
  }

  lemma SmallFits(asked: nat)
    requires 0 < asked <= SMALL_MAX
    ensures 8 <= RoundUp(asked, 8) <= SMALL_MAX && LeastFit(RoundUp(asked, 8) / 8 - 1, asked)
  {
  }

  /** Rounding up to 8 bytes in 64-bit arithmetic. */
  function Rounded8(size: nat): nat { AlignUp(size, 8) % WORD }

  lemma Rounded8Is(size: nat)
    requires 0 < size < WORD
    ensures Rounded8(size) == if size <= WORD - 8 then RoundUp(size, 8) else 0
  {
    MaskRounds(size, 8);
    if size <= WORD - 8 { BelowWord(RoundUp(size, 8)); } else { assert RoundUp(size, 8) == WORD; }
  }

  lemma MultipleBelow(x: nat, y: nat)
    requires x % 8 == 0 && x < RoundUp(y, 8)
    ensures x < y
  {
  }

  /** The class chosen for a size above 128 is below 9/8 of the size plus 15 bytes. */
  lemma Waste(b: nat, size: nat)
    requires SMALL_MAX < size <= MEDIUM_MAX && LeastFit(b, size)
    ensures 8 * ClassSize(b) < 9 * size + 120
  {
    assert b >= SMALL_BIN_COUNT;
    var n := b - SMALL_BIN_COUNT + 1;
    GrowthMin(n - 1);
    var x := Growth(n - 1);
    assert ClassSize(b - 1) < size;
    assert x < size as real by {
      if b > SMALL_BIN_COUNT {
        RoundUpBounds(Whole(x), 16);
        TableIncreases(b - 1);
        assert ClassSize(b - 1) >= Whole(x);
      }
    }
    RoundUpBounds(Whole(Growth(n)), 16);
    assert ClassSize(b) as real <= Growth(n) + 15.0;
  }

  /** The tables of the global state, filled once at start-up. */
  class Tables {
    const binSize: array<nat>
    const smallBin: array<nat>

    constructor ()
      ensures fresh(binSize) && fresh(smallBin) && binSize.Length == BIN_COUNT && smallBin.Length == SMALL_MAX / 8 + 1
    {
      binSize := new nat[BIN_COUNT];
      smallBin := new nat[SMALL_MAX / 8 + 1];
    }

    ghost predicate Filled()
      reads binSize, smallBin
    {
      && binSize.Length == BIN_COUNT && smallBin.Length == SMALL_MAX / 8 + 1
      && (forall i | 0 <= i < BIN_COUNT :: binSize[i] == ClassSize(i))
      && (forall s | 0 <= s <= SMALL_MAX / 8 :: smallBin[s] == if s > 0 then s - 1 else 0)
    }

    /** size_class_init. */
    method Init()
      requires binSize.Length == BIN_COUNT && smallBin.Length == SMALL_MAX / 8 + 1 && binSize != smallBin
      modifies binSize, smallBin
      ensures Filled()
    {
      for i := 0 to SMALL_BIN_COUNT
        invariant forall j | 0 <= j < i :: binSize[j] == ClassSize(j)
      {
        binSize[i] := (i + 1) * 8;
      }
      for s := 0 to SMALL_MAX / 8 + 1
        invariant forall j | 0 <= j < s :: smallBin[j] == if j > 0 then j - 1 else 0
        invariant forall j | 0 <= j < SMALL_BIN_COUNT :: binSize[j] == ClassSize(j)
      {
        smallBin[s] := if s > 0 then s - 1 else 0;
      }
      var bin := SMALL_BIN_COUNT;
      var size := 128.0;
      while bin < BIN_COUNT && size < 131072.0
        invariant SMALL_BIN_COUNT <= bin <= BIN_COUNT
        invariant size == Growth(bin - SMALL_BIN_COUNT)
        invariant forall j | 0 <= j < bin :: binSize[j] == ClassSize(j)
        invariant forall s | 0 <= s <= SMALL_MAX / 8 :: smallBin[s] == if s > 0 then s - 1 else 0
      {
        GrowthMin(bin - SMALL_BIN_COUNT);
        size := size * 1.125;
        var rounded := AlignUp(size.Floor, 16);
        MaskRounds(size.Floor, 16);
        assert rounded == RoundUp(Whole(Growth(bin - SMALL_BIN_COUNT + 1)), 16);
        if rounded <= SMALL_MAX { rounded := SMALL_MAX + 16; }
        if bin > SMALL_BIN_COUNT && rounded <= binSize[bin - 1] {
          rounded := binSize[bin - 1] + 16;
        }
        if rounded > MEDIUM_MAX { rounded := MEDIUM_MAX; }
        NeverPatched(bin);
        binSize[bin] := rounded;
        bin := bin + 1;
        if rounded >= MEDIUM_MAX { break; }
      }
      FillsSame(bin);
      for i := bin to BIN_COUNT
        invariant forall j | 0 <= j < i :: binSize[j] == ClassSize(j)
        invariant forall s | 0 <= s <= SMALL_MAX / 8 :: smallBin[s] == if s > 0 then s - 1 else 0
      {
        binSize[i] := binSize[bin - 1];
      }
    }

    /** size_to_bin, with the rounding to 8 bytes in 64-bit arithmetic. */
    method SizeToBin(asked: nat) returns (bin: nat)
      requires Filled() && asked < WORD
      ensures asked <= MEDIUM_MAX ==> LeastFit(bin, if asked == 0 then 1 else asked)
      ensures asked > MEDIUM_MAX ==> bin == if asked <= WORD - 8 then BIN_COUNT - 1 else 0
    {
      var size := if asked == 0 then 1 else asked;
      RoundUpBounds(size, 8);
      Rounded8Is(size);
      size := Rounded8(size);
      if size <= SMALL_MAX {
        bin := smallBin[size / 8];
        if size > 0 { SmallFits(if asked == 0 then 1 else asked); }
        return;
      }
      var lo, hi := SMALL_BIN_COUNT, BIN_COUNT - 1;
      while lo < hi
        invariant SMALL_BIN_COUNT <= lo <= hi < BIN_COUNT
        invariant hi < BIN_COUNT - 1 ==> ClassSize(hi) >= size
        invariant lo > SMALL_BIN_COUNT ==> ClassSize(lo - 1) < size
      {
        var mid := (lo + hi) / 2;
        if binSize[mid] < size {
          lo := mid + 1;
        } else {
          hi := mid;
        }
      }
      bin := lo;
      SearchEnds(bin, if asked == 0 then 1 else asked, size);
    }

    /** bin_to_size. */
    method BinToSize(bin: nat) returns (size: nat)
      requires Filled()
      ensures bin < BIN_COUNT ==> size == ClassSize(bin)
      ensures bin >= BIN_COUNT ==> size == MEDIUM_MAX
    {
      if bin >= BIN_COUNT { return MEDIUM_MAX; }
      return binSize[bin];
    }
  }
}
