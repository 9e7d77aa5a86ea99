/** The segment registry: an open-addressing table of segment base addresses, without tombstones. */
module Registry {
  const REGISTRY_SIZE := 256
  const SEGMENT_SIZE := 0x40_0000

  function Hash(base: nat): nat { base / SEGMENT_SIZE % REGISTRY_SIZE }

  /** The cell tried at step `i` of the search for `base`. */
  function Probe(base: nat, i: nat): nat { (Hash(base) + i) % REGISTRY_SIZE }

  /** The step at which the search for `base` tries cell `slot`. */
  function Step(base: nat, slot: nat): nat { (slot - Hash(base)) % REGISTRY_SIZE }

  lemma ProbeStep(base: nat, slot: nat, i: nat)
    ensures slot < REGISTRY_SIZE ==> Probe(base, Step(base, slot)) == slot && Step(base, slot) < REGISTRY_SIZE
    ensures i < REGISTRY_SIZE ==> Step(base, Probe(base, i)) == i && Probe(base, i) < REGISTRY_SIZE
  {
  }

  /** The table spreads neighbours: no two of 256 consecutive segments share their first cell. */
  lemma NeighboursSpread(base: nat, i: nat, j: nat)
    requires i < j < REGISTRY_SIZE
    ensures Hash(base + i * SEGMENT_SIZE) != Hash(base + j * SEGMENT_SIZE)
  {
    var q := base / SEGMENT_SIZE;
    assert (base + i * SEGMENT_SIZE) / SEGMENT_SIZE == q + i && (base + j * SEGMENT_SIZE) / SEGMENT_SIZE == q + j;
  }

  function Cell(cells: seq<nat>, base: nat, i: nat): nat
    requires |cells| == REGISTRY_SIZE
  {
    cells[Probe(base, i)]
  }

  /** The search for `base` goes past its first `n` cells. */
  ghost predicate Passed(cells: seq<nat>, base: nat, n: nat)
    requires |cells| == REGISTRY_SIZE
  {
    forall i: nat | i < n :: Cell(cells, base, i) != 0 && Cell(cells, base, i) != base
  }

  /** Every stored base can be found: the search for it passes all cells before its own. */
  ghost predicate Table(cells: seq<nat>) {
    && |cells| == REGISTRY_SIZE
    && forall slot | 0 <= slot < REGISTRY_SIZE && cells[slot] != 0 ::
        Passed(cells, cells[slot], Step(cells[slot], slot))
  }

  // ---- what the three operations compute ----

  function LookupFrom(cells: seq<nat>, base: nat, i: nat): bool
    requires |cells| == REGISTRY_SIZE && i <= REGISTRY_SIZE
    decreases REGISTRY_SIZE - i
  {
    if i == REGISTRY_SIZE then false
    else if Cell(cells, base, i) == base then true
    else if Cell(cells, base, i) == 0 then false
    else LookupFrom(cells, base, i + 1)
  }

  function Lookup(cells: seq<nat>, base: nat): bool
    requires |cells| == REGISTRY_SIZE
  {
    LookupFrom(cells, base, 0)
  }

  function InsertFrom(cells: seq<nat>, base: nat, i: nat): (r: seq<nat>)
    requires |cells| == REGISTRY_SIZE && i <= REGISTRY_SIZE
    ensures |r| == REGISTRY_SIZE
    decreases REGISTRY_SIZE - i
  {
    if i == REGISTRY_SIZE then cells
    else if Cell(cells, base, i) == 0 then cells[Probe(base, i) := base]
    else if Cell(cells, base, i) == base then cells
    else InsertFrom(cells, base, i + 1)
  }

  function Insert(cells: seq<nat>, base: nat): (r: seq<nat>)
    requires |cells| == REGISTRY_SIZE
    ensures |r| == REGISTRY_SIZE
  {
    InsertFrom(cells, base, 0)
  }

  function RemoveFrom(cells: seq<nat>, base: nat, i: nat): (r: seq<nat>)
    requires |cells| == REGISTRY_SIZE && i <= REGISTRY_SIZE
    ensures |r| == REGISTRY_SIZE
    decreases REGISTRY_SIZE - i
  {
    if i == REGISTRY_SIZE then cells
    else if Cell(cells, base, i) == base then cells[Probe(base, i) := 0]
    else if Cell(cells, base, i) == 0 then cells
    else RemoveFrom(cells, base, i + 1)
  }

  function Remove(cells: seq<nat>, base: nat): (r: seq<nat>)
    requires |cells| == REGISTRY_SIZE
    ensures |r| == REGISTRY_SIZE
  {
    RemoveFrom(cells, base, 0)
  }

  // ---- the loops of the code ----

  class Segments {
    const cells: array<nat>

    constructor ()
      ensures fresh(cells) && cells.Length == REGISTRY_SIZE && forall i | 0 <= i < REGISTRY_SIZE :: cells[i] == 0
    {
      cells := new nat[REGISTRY_SIZE](_ => 0);
    }

    /** segment_register, run alone. */
    method Register(base: nat)
      requires cells.Length == REGISTRY_SIZE
      modifies cells
      ensures cells[..] == Insert(old(cells[..]), base)
    {
      var idx := Hash(base);
      for i := 0 to REGISTRY_SIZE
        invariant cells[..] == old(cells[..])
        invariant Insert(cells[..], base) == InsertFrom(cells[..], base, i)
      {
        var slot := (idx + i) % REGISTRY_SIZE;
        assert cells[..][slot] == Cell(cells[..], base, i);
        if cells[slot] == 0 {
          cells[slot] := base;
          return;
        }
        if cells[slot] == base { return; }
      }
    }

    /** segment_unregister, run alone. */
    method Unregister(base: nat)
      requires cells.Length == REGISTRY_SIZE
      modifies cells
      ensures cells[..] == Remove(old(cells[..]), base)
    {
      var idx := Hash(base);
      for i := 0 to REGISTRY_SIZE
        invariant cells[..] == old(cells[..])
        invariant Remove(cells[..], base) == RemoveFrom(cells[..], base, i)
      {
        var slot := (idx + i) % REGISTRY_SIZE;
        assert cells[..][slot] == Cell(cells[..], base, i);
        var val := cells[slot];
        if val == base {
          cells[slot] := 0;
          return;
        }
        if val == 0 { return; }
      }
    }

    /** segment_is_registered, run alone. */
    method IsRegistered(base: nat) returns (found: bool)
      requires cells.Length == REGISTRY_SIZE
      ensures found == Lookup(cells[..], base)
    {
      var idx := Hash(base);
      for i := 0 to REGISTRY_SIZE
        invariant Lookup(cells[..], base) == LookupFrom(cells[..], base, i)
      {
        var slot := (idx + i) % REGISTRY_SIZE;
        assert cells[..][slot] == Cell(cells[..], base, i);
        var val := cells[slot];
        if val == base { return true; }
        if val == 0 { return false; }
      }
      return false;
    }
  }

  // ---- the table agrees with a set ----

  /** Where `base` is stored, its search finds it, and nowhere else is it stored. */
  lemma Unique(cells: seq<nat>, base: nat, slot: nat, other: nat)
    requires Table(cells) && base != 0 && slot < REGISTRY_SIZE && other < REGISTRY_SIZE
    requires cells[slot] == base == cells[other]
    ensures slot == other
  {
    ProbeStep(base, slot, 0);
    ProbeStep(base, other, 0);
    assert Cell(cells, base, Step(base, slot)) == base == Cell(cells, base, Step(base, other));
  }

  /** A search stops where it first meets the base or an empty cell. */
  lemma {:induction false} SearchStops(cells: seq<nat>, base: nat, i: nat, n: nat)
    requires |cells| == REGISTRY_SIZE && i <= n <= REGISTRY_SIZE && Passed(cells, base, n)
    ensures LookupFrom(cells, base, i) == LookupFrom(cells, base, n)
    ensures InsertFrom(cells, base, i) == InsertFrom(cells, base, n)
    ensures RemoveFrom(cells, base, i) == RemoveFrom(cells, base, n)
    decreases n - i
  {
    if i < n {
      SearchStops(cells, base, i + 1, n);
      assert Cell(cells, base, i) != 0 && Cell(cells, base, i) != base;
    }
  }

  /** The step at which the search for `base` stops: REGISTRY_SIZE when it tries every cell in vain. */
  ghost function StopsAt(cells: seq<nat>, base: nat, i: nat): (n: nat)
    requires |cells| == REGISTRY_SIZE && i <= REGISTRY_SIZE && Passed(cells, base, i)
    ensures i <= n <= REGISTRY_SIZE && Passed(cells, base, n)
    ensures n < REGISTRY_SIZE ==> Cell(cells, base, n) == 0 || Cell(cells, base, n) == base
    decreases REGISTRY_SIZE - i
  {
    if i == REGISTRY_SIZE || Cell(cells, base, i) == 0 || Cell(cells, base, i) == base then i
    else StopsAt(cells, base, i + 1)
  }

  /** A search past `n` cells that meets an empty cell, or the end, proves absence. */
  lemma Absent(cells: seq<nat>, base: nat, n: nat)
    requires Table(cells) && base != 0 && n <= REGISTRY_SIZE && Passed(cells, base, n)
    requires n < REGISTRY_SIZE ==> Cell(cells, base, n) == 0
    ensures base !in cells
  {
    var last := if n < REGISTRY_SIZE then Cell(cells, base, n) else 0;
    forall slot | 0 <= slot < REGISTRY_SIZE ensures cells[slot] != base {
      ProbeStep(base, slot, 0);
      var here := Cell(cells, base, Step(base, slot));
      assert here == cells[slot];
    }
  }

  /** Lookup agrees with membership. */
  lemma LookupIff(cells: seq<nat>, base: nat)
    requires Table(cells) && base != 0
    ensures Lookup(cells, base) <==> base in cells
  {
    var n := StopsAt(cells, base, 0);
    SearchStops(cells, base, 0, n);
    if n == REGISTRY_SIZE || Cell(cells, base, n) == 0 {
      Absent(cells, base, n);
    }
  }

  /** For the null base, lookup instead tells whether the table has an empty cell. */
  lemma LookupNull(cells: seq<nat>)
    requires |cells| == REGISTRY_SIZE
    ensures Lookup(cells, 0) <==> 0 in cells
  {
    var n := StopsAt(cells, 0, 0);
    SearchStops(cells, 0, 0, n);
    if 0 in cells {
      var slot :| 0 <= slot < REGISTRY_SIZE && cells[slot] == 0;
      ProbeStep(0, slot, 0);
      assert Cell(cells, 0, Step(0, slot)) == 0;
    }
  }

  /** A write to an empty cell disturbs no search that stopped elsewhere. */
  lemma FillKeeps(cells: seq<nat>, base: nat, n: nat)
    requires Table(cells) && base != 0 && n < REGISTRY_SIZE && Passed(cells, base, n) && Cell(cells, base, n) == 0
    ensures Table(cells[Probe(base, n) := base])
  {
    Absent(cells, base, n);
    var after := cells[Probe(base, n) := base];
    forall slot | 0 <= slot < REGISTRY_SIZE && after[slot] != 0
      ensures Passed(after, after[slot], Step(after[slot], slot))
    {
      ProbeStep(base, slot, n);
      var b := after[slot];
      forall i: nat | i < Step(b, slot) ensures Cell(after, b, i) != 0 && Cell(after, b, i) != b {
        assert slot != Probe(base, n) ==> Cell(cells, b, i) != 0 && Cell(cells, b, i) != b;
        assert slot == Probe(base, n) ==> Cell(cells, b, i) != 0 && Cell(cells, b, i) != b;
      }
    }
  }

  /** Registering adds the base to the set, unless the table is full. */
  lemma InsertIff(cells: seq<nat>, base: nat, b: nat)
    requires Table(cells) && base != 0 && b != 0
    ensures Table(Insert(cells, base))
    ensures b in Insert(cells, base) <==> b in cells || (b == base && 0 in cells)
  {
    var n := StopsAt(cells, base, 0);
    SearchStops(cells, base, 0, n);
    if n == REGISTRY_SIZE {
      FullWhenPassed(cells, base);
    } else if Cell(cells, base, n) == 0 {
      FillKeeps(cells, base, n);
      var after := cells[Probe(base, n) := base];
      assert after[Probe(base, n)] == base;
      if b in cells {
        var slot :| 0 <= slot < REGISTRY_SIZE && cells[slot] == b;
        assert after[slot] == b;
      }
    }
  }

  lemma FullWhenPassed(cells: seq<nat>, base: nat)
    requires |cells| == REGISTRY_SIZE && Passed(cells, base, REGISTRY_SIZE)
    ensures 0 !in cells && base !in cells
  {
    forall slot | 0 <= slot < REGISTRY_SIZE ensures cells[slot] != 0 && cells[slot] != base {
      ProbeStep(base, slot, 0);
      assert Cell(cells, base, Step(base, slot)) == cells[slot];
    }
  }

  // ---- unregistering: no tombstones ----

  /** The search for the base stored in cell `mine` goes through cell `slot` first. */
  predicate Crosses(cells: seq<nat>, mine: nat, slot: nat)
    requires |cells| == REGISTRY_SIZE && mine < REGISTRY_SIZE
  {
    Step(cells[mine], slot) < Step(cells[mine], mine)
  }

  /** Unregistering clears exactly the cell of the base. */
  lemma RemoveClears(cells: seq<nat>, base: nat, slot: nat)
    requires Table(cells) && slot < REGISTRY_SIZE && cells[slot] == base != 0
    ensures Remove(cells, base) == cells[slot := 0]
  {
    ProbeStep(base, slot, 0);
    SearchStops(cells, base, 0, Step(base, slot));
  }

  /** After unregistering `base`, another stored base is still found exactly when its search does not
      go through the cleared cell. */
  lemma RemoveIff(cells: seq<nat>, base: nat, slot: nat, other: nat)
    requires Table(cells) && slot < REGISTRY_SIZE && cells[slot] == base != 0
    requires other < REGISTRY_SIZE && other != slot && cells[other] != 0
    ensures Lookup(Remove(cells, base), cells[other]) <==> !Crosses(cells, other, slot)
  {
    RemoveClears(cells, base, slot);
    var after, c := cells[slot := 0], cells[other];
    ProbeStep(c, slot, 0);
    ProbeStep(c, other, 0);
    var n := if Crosses(cells, other, slot) then Step(c, slot) else Step(c, other);
    forall i: nat | i < n ensures Cell(after, c, i) != 0 && Cell(after, c, i) != c {
      ProbeStep(c, slot, i);
      assert Cell(cells, c, i) != 0 && Cell(cells, c, i) != c;
    }
    SearchStops(after, c, 0, n);
  }

  /** Every lookup of another base answers as before. */
  ghost predicate OthersKept(cells: seq<nat>, base: nat)
    requires |cells| == REGISTRY_SIZE
  {
    forall c: nat | c != 0 && c != base :: Lookup(Remove(cells, base), c) == Lookup(cells, c)
  }

  /** No stored base's search goes through cell `slot` first. */
  ghost predicate NoneCrosses(cells: seq<nat>, slot: nat)
    requires |cells| == REGISTRY_SIZE
  {
    forall mine | 0 <= mine < REGISTRY_SIZE && mine != slot && cells[mine] != 0 :: !Crosses(cells, mine, slot)
  }

  /** Unregistering always loses the base itself, and keeps every other one exactly when no stored
      base's search goes through the cleared cell. */
  lemma RemoveKeepsAll(cells: seq<nat>, base: nat, slot: nat)
    requires Table(cells) && slot < REGISTRY_SIZE && cells[slot] == base != 0
    ensures !Lookup(Remove(cells, base), base)
    ensures OthersKept(cells, base) <==> NoneCrosses(cells, slot)
  {
    RemoveClears(cells, base, slot);
    RemoveGone(cells, base, slot);
    if NoneCrosses(cells, slot) {
      forall c: nat | c != 0 && c != base ensures Lookup(Remove(cells, base), c) == Lookup(cells, c) {
        LookupIff(cells, c);
        if c in cells {
          var mine :| 0 <= mine < REGISTRY_SIZE && cells[mine] == c;
          RemoveIff(cells, base, slot, mine);
        } else {
          RemoveNotFound(cells, slot, c);
        }
      }
    }
    if OthersKept(cells, base) {
      forall mine | 0 <= mine < REGISTRY_SIZE && mine != slot && cells[mine] != 0 ensures !Crosses(cells, mine, slot) {
        var c := cells[mine];
        if c == base { Unique(cells, base, slot, mine); }
        LookupIff(cells, c);
        RemoveIff(cells, base, slot, mine);
      }
    }
  }

  lemma RemoveGone(cells: seq<nat>, base: nat, slot: nat)
    requires Table(cells) && slot < REGISTRY_SIZE && cells[slot] == base != 0
    ensures !Lookup(cells[slot := 0], base)
  {
    var after := cells[slot := 0];
    ProbeStep(base, slot, 0);
    forall i: nat | i < Step(base, slot) ensures Cell(after, base, i) != 0 && Cell(after, base, i) != base {
      ProbeStep(base, slot, i);
      assert Cell(cells, base, i) != 0 && Cell(cells, base, i) != base;
    }
    SearchStops(after, base, 0, Step(base, slot));
  }

  /** A lookup only ever finds what is stored. */
  lemma RemoveNotFound(cells: seq<nat>, slot: nat, c: nat)
    requires |cells| == REGISTRY_SIZE && slot < REGISTRY_SIZE && c != 0 && c !in cells
    ensures !Lookup(cells[slot := 0], c)
  {
    var n := StopsAt(cells[slot := 0], c, 0);
    SearchStops(cells[slot := 0], c, 0, n);
  }

  /** Two bases that hash alike: unregistering the first loses the second. */
  lemma RemoveLosesOne()
    ensures var cells := Insert(Insert(seq(REGISTRY_SIZE, _ => 0), SEGMENT_SIZE), 257 * SEGMENT_SIZE);
            Lookup(cells, 257 * SEGMENT_SIZE) && !Lookup(Remove(cells, SEGMENT_SIZE), 257 * SEGMENT_SIZE)
  {
    var a, b := SEGMENT_SIZE, 257 * SEGMENT_SIZE;
    var empty := seq(REGISTRY_SIZE, _ => 0);
    assert Probe(a, 0) == 1 && Probe(b, 0) == 1 && Probe(b, 1) == 2;
    assert Cell(empty, a, 0) == 0;
    assert Insert(empty, a) == empty[1 := a];
    assert Cell(empty[1 := a], b, 0) == a;
    var cells := empty[1 := a][2 := b];
    assert Insert(empty[1 := a], b) == InsertFrom(empty[1 := a], b, 1) == cells;
    assert Lookup(cells, b) == LookupFrom(cells, b, 1);
    assert Remove(cells, a) == cells[1 := 0];
    assert Cell(cells[1 := 0], b, 0) == 0;
  }
}
