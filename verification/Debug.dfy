/** The debug build's allocation bitmap, byte by byte, and the heap check. */
module Debug {
  import opened Basics
  import opened Geometry

  // ---- bits of a byte ----

  /** 1 << i */
  function Mask(i: nat): bv8
    requires i < 8
  {
    if i == 0 then 1 else if i == 1 then 2 else if i == 2 then 4 else if i == 3 then 8
    else if i == 4 then 16 else if i == 5 then 32 else if i == 6 then 64 else 128
  }

  predicate HasBit(b: bv8, i: nat)
    requires i < 8
  {
    b & Mask(i) != 0
  }

  lemma OrSets(b: bv8, i: nat, j: nat)
    requires i < 8 && j < 8
    ensures HasBit(b | Mask(i), j) <==> i == j || HasBit(b, j)
  {
  }

  lemma AndClears(b: bv8, i: nat, j: nat)
    requires i < 8 && j < 8
    ensures HasBit(b & !Mask(i), j) <==> i != j && HasBit(b, j)
  {
  }

  /** __builtin_popcount */
  function Popcount(b: bv8): nat {
    One(b, 0) + One(b, 1) + One(b, 2) + One(b, 3) + One(b, 4) + One(b, 5) + One(b, 6) + One(b, 7)
  }

  function One(b: bv8, i: nat): nat
    requires i < 8
  {
    if HasBit(b, i) then 1 else 0
  }

  // ---- the bitmap as a set ----

  predicate BitAt(bits: seq<bv8>, k: nat) {
    k / 8 < |bits| && HasBit(bits[k / 8], k % 8)
  }

  /** The slots below `n` whose bit is set. */
  function SetBelow(bits: seq<bv8>, n: nat): set<nat> {
    set k: nat | k < n && BitAt(bits, k)
  }

  lemma OneMore(bits: seq<bv8>, n: nat)
    ensures |SetBelow(bits, n + 1)| == |SetBelow(bits, n)| + if BitAt(bits, n) then 1 else 0
  {
    if BitAt(bits, n) {
      assert SetBelow(bits, n + 1) == SetBelow(bits, n) + {n};
    } else {
      assert SetBelow(bits, n + 1) == SetBelow(bits, n);
    }
  }

  /** A byte's popcount is the number of its slots that are set. */
  lemma ByteMore(bits: seq<bv8>, i: nat)
    requires i < |bits|
    ensures |SetBelow(bits, 8 * (i + 1))| == |SetBelow(bits, 8 * i)| + Popcount(bits[i])
  {
    BitMore(bits, i, 0);
    BitMore(bits, i, 1);
    BitMore(bits, i, 2);
    BitMore(bits, i, 3);
    BitMore(bits, i, 4);
    BitMore(bits, i, 5);
    BitMore(bits, i, 6);
    BitMore(bits, i, 7);
  }

  lemma BitMore(bits: seq<bv8>, i: nat, j: nat)
    requires i < |bits| && j < 8
    ensures |SetBelow(bits, 8 * i + j + 1)| == |SetBelow(bits, 8 * i + j)| + One(bits[i], j)
  {
    OneMore(bits, 8 * i + j);
  }

  lemma OrMarks(bits: seq<bv8>, idx: nat)
    requires idx / 8 < |bits|
    ensures SetBelow(bits[idx / 8 := bits[idx / 8] | Mask(idx % 8)], 8 * |bits|) == SetBelow(bits, 8 * |bits|) + {idx}
  {
    var after := bits[idx / 8 := bits[idx / 8] | Mask(idx % 8)];
    forall k: nat | k < 8 * |bits| ensures BitAt(after, k) <==> k == idx || BitAt(bits, k) {
      if k / 8 == idx / 8 { OrSets(bits[idx / 8], idx % 8, k % 8); }
    }
  }

  lemma AndUnmarks(bits: seq<bv8>, idx: nat)
    requires idx / 8 < |bits|
    ensures SetBelow(bits[idx / 8 := bits[idx / 8] & !Mask(idx % 8)], 8 * |bits|) == SetBelow(bits, 8 * |bits|) - {idx}
  {
    var after := bits[idx / 8 := bits[idx / 8] & !Mask(idx % 8)];
    forall k: nat | k < 8 * |bits| ensures BitAt(after, k) <==> k != idx && BitAt(bits, k) {
      if k / 8 == idx / 8 { AndClears(bits[idx / 8], idx % 8, k % 8); }
    }
  }

  class Bitmap {
    const bits: array<bv8>

    constructor (n: nat)
      ensures fresh(bits) && bits.Length == n && Marked() == {}
    {
      bits := new bv8[n](_ => 0);
    }

    ghost function Marked(): set<nat>
      reads bits
    {
      SetBelow(bits[..], 8 * bits.Length)
    }

    /** The atomic fetch_or of debug_mark_allocated; the answer tells whether the call goes on. */
    method Mark(idx: nat) returns (ok: bool)
      requires idx / 8 < bits.Length
      modifies bits
      ensures Marked() == old(Marked()) + {idx}
      ensures ok <==> idx !in old(Marked())
    {
      var was := bits[idx / 8];
      bits[idx / 8] := was | Mask(idx % 8);
      OrMarks(old(bits[..]), idx);
      assert bits[..] == old(bits[..])[idx / 8 := was | Mask(idx % 8)];
      ok := !HasBit(was, idx % 8);
    }

    /** The atomic fetch_and of debug_check_and_mark_freed. */
    method Clear(idx: nat) returns (ok: bool)
      requires idx / 8 < bits.Length
      modifies bits
      ensures Marked() == old(Marked()) - {idx}
      ensures ok <==> idx in old(Marked())
    {
      var was := bits[idx / 8];
      bits[idx / 8] := was & !Mask(idx % 8);
      AndUnmarks(old(bits[..]), idx);
      assert bits[..] == old(bits[..])[idx / 8 := was & !Mask(idx % 8)];
      ok := HasBit(was, idx % 8);
    }
  }
}
