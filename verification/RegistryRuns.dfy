/** Any number of threads registering and looking up segments at once, one atomic access per step. */
module RegistryRuns {
  import opened Basics
  import opened Registry

  /** A thread inside a search, about to try its step `i`. */
  datatype Op = Inserting(base: nat, i: nat) | Looking(base: nat, i: nat)

  /** The table, the searches in progress, and the bases that were ever to be registered. */
  datatype State = State(cells: seq<nat>, ops: map<Tid, Op>, asked: set<nat>)

  datatype Action = Register(t: Tid, base: nat) | TryCas(t: Tid) | Ask(t: Tid, base: nat) | ReadCell(t: Tid)

  predicate Initial(s: State) {
    s.cells == seq(REGISTRY_SIZE, _ => 0) && s.ops == map[] && s.asked == {}
  }

  predicate Enabled(s: State, a: Action) {
    |s.cells| == REGISTRY_SIZE &&
    match a
    case Register(t, base) => t !in s.ops && base != 0
    case Ask(t, base) => t !in s.ops
    case TryCas(t) => t in s.ops && s.ops[t].Inserting?
    case ReadCell(t) => t in s.ops && s.ops[t].Looking?
  }

  /** The search goes on to the next cell, or ends after the last. */
  function Advance(s: State, t: Tid): State
    requires t in s.ops
  {
    var i := s.ops[t].i + 1;
    if i < REGISTRY_SIZE then s.(ops := s.ops[t := s.ops[t].(i := i)]) else s.(ops := s.ops - {t})
  }

  function Apply(s: State, a: Action): State
    requires Enabled(s, a)
  {
    match a
    case Register(t, base) => s.(ops := s.ops[t := Inserting(base, 0)], asked := s.asked + {base})
    case Ask(t, base) => s.(ops := s.ops[t := Looking(base, 0)])
    case TryCas(t) =>
      var op := s.ops[t];
      if Cell(s.cells, op.base, op.i) == 0 then
        s.(cells := s.cells[Probe(op.base, op.i) := op.base], ops := s.ops - {t})
      else if Cell(s.cells, op.base, op.i) == op.base then s.(ops := s.ops - {t})
      else Advance(s, t)
    case ReadCell(t) =>
      if Answer(s, t).Some? then s.(ops := s.ops - {t}) else Advance(s, t)
  }

  /** What the lookup of thread `t` returns at its next step, if it returns there. */
  function Answer(s: State, t: Tid): Option<bool>
    requires t in s.ops && |s.cells| == REGISTRY_SIZE
  {
    var op := s.ops[t];
    if Cell(s.cells, op.base, op.i) == op.base then Some(true)
    else if Cell(s.cells, op.base, op.i) == 0 then Some(false)
    else if op.i + 1 < REGISTRY_SIZE then None
    else Some(false)
  }

  ghost predicate IsRun(states: seq<State>, acts: seq<Action>) {
    && |states| == |acts| + 1
    && Initial(states[0])
    && forall i {:trigger acts[i]} | 0 <= i < |acts| ::
         Enabled(states[i], acts[i]) && states[i + 1] == Apply(states[i], acts[i])
  }

  ghost predicate OpOk(s: State, t: Tid)
    requires |s.cells| == REGISTRY_SIZE
  {
    && t in s.ops
    && s.ops[t].i < REGISTRY_SIZE
    && Passed(s.cells, s.ops[t].base, s.ops[t].i)
    && (s.ops[t].Inserting? ==> s.ops[t].base in s.asked && s.ops[t].base != 0)
  }

  ghost predicate Inv(s: State) {
    && Table(s.cells)
    && (forall t {:trigger OpOk(s, t)} | t in s.ops :: OpOk(s, t))
    && (forall c | c in s.cells :: c == 0 || c in s.asked)
  }

  /** Filling an empty cell leaves every search past the cells it has passed. */
  lemma FillPasses(cells: seq<nat>, slot: nat, c: nat, base: nat, n: nat)
    requires |cells| == REGISTRY_SIZE && slot < REGISTRY_SIZE && cells[slot] == 0 && Passed(cells, base, n)
    ensures Passed(cells[slot := c], base, n)
  {
    var after := cells[slot := c];
    forall i: nat | i < n ensures Cell(after, base, i) != 0 && Cell(after, base, i) != base {
      assert Cell(cells, base, i) != 0 && Cell(cells, base, i) != base;
    }
  }

  lemma PassedOne(cells: seq<nat>, base: nat, n: nat)
    requires |cells| == REGISTRY_SIZE && Passed(cells, base, n)
    requires Cell(cells, base, n) != 0 && Cell(cells, base, n) != base
    ensures Passed(cells, base, n + 1)
  {
  }

  lemma FillStep(s: State, t: Tid)
    requires Inv(s) && t in s.ops && s.ops[t].Inserting? && Cell(s.cells, s.ops[t].base, s.ops[t].i) == 0
    ensures Inv(Apply(s, TryCas(t)))
  {
    var r := Apply(s, TryCas(t));
    assert OpOk(s, t);
    var op := s.ops[t];
    FillKeeps(s.cells, op.base, op.i);
    forall u | u in r.ops ensures OpOk(r, u) {
      assert OpOk(s, u);
      FillPasses(s.cells, Probe(op.base, op.i), op.base, s.ops[u].base, s.ops[u].i);
    }
  }

  lemma StepKeeps(s: State, a: Action)
    requires Inv(s) && Enabled(s, a)
    ensures Inv(Apply(s, a))
  {
    var r := Apply(s, a);
    if a.TryCas? && Cell(s.cells, s.ops[a.t].base, s.ops[a.t].i) == 0 {
      FillStep(s, a.t);
    } else {
      forall u | u in r.ops ensures OpOk(r, u) {
        if u in s.ops {
          assert OpOk(s, u);
          if r.ops[u] != s.ops[u] { PassedOne(s.cells, s.ops[u].base, s.ops[u].i); }
        }
      }
    }
  }

  lemma {:induction false} EveryRun(states: seq<State>, acts: seq<Action>, n: nat)
    requires IsRun(states, acts) && n <= |acts|
    ensures Inv(states[n])
    decreases n
  {
    if n > 0 {
      EveryRun(states, acts, n - 1);
      StepKeeps(states[n - 1], acts[n - 1]);
    }
  }

  /** In every run, a lookup answers whether its base is in the table at the moment it answers, and
      nothing is in the table that was not to be registered. */
  lemma LookupExact(states: seq<State>, acts: seq<Action>, n: nat, t: Tid)
    requires IsRun(states, acts) && n <= |acts|
    requires t in states[n].ops && states[n].ops[t].Looking? && states[n].ops[t].base != 0
    ensures var s, base := states[n], states[n].ops[t].base;
            && |s.cells| == REGISTRY_SIZE
            && (Answer(s, t).Some? ==> Answer(s, t).value == (base in s.cells))
            && (base in s.cells ==> base in s.asked)
  {
    EveryRun(states, acts, n);
    var s := states[n];
    assert OpOk(s, t);
    var op := s.ops[t];
    if Cell(s.cells, op.base, op.i) == 0 {
      Absent(s.cells, op.base, op.i);
    } else if Answer(s, t) == Some(false) {
      PassedOne(s.cells, op.base, op.i);
      Absent(s.cells, op.base, REGISTRY_SIZE);
    }
  }

  /** A registered base stays registered. */
  lemma {:induction false} StaysRegistered(states: seq<State>, acts: seq<Action>, m: nat, n: nat, base: nat)
    requires IsRun(states, acts) && m <= n <= |acts| && base != 0 && base in states[m].cells
    ensures base in states[n].cells
    decreases n
  {
    if m < n {
      StaysRegistered(states, acts, m, n - 1, base);
      EveryRun(states, acts, n - 1);
      var s := states[n - 1];
      var slot :| 0 <= slot < REGISTRY_SIZE && s.cells[slot] == base;
      var a := acts[n - 1];
      assert states[n].cells[slot] == base;
    }
  }

  /** When at most 256 bases are ever to be registered, an insert that returns leaves its base in the
      table; it is dropped only from a table full of 256 other bases. */
  lemma InsertLands(states: seq<State>, acts: seq<Action>, n: nat)
    requires IsRun(states, acts) && n < |acts| && acts[n].TryCas? && acts[n].t in states[n].ops
    requires acts[n].t !in states[n + 1].ops
    ensures var base := states[n].ops[acts[n].t].base;
            || base in states[n + 1].cells
            || (|states[n].asked| > REGISTRY_SIZE && 0 !in states[n].cells && base !in states[n].cells)
  {
    EveryRun(states, acts, n);
    var s := states[n];
    assert OpOk(s, acts[n].t);
    var op := s.ops[acts[n].t];
    var slot := Probe(op.base, op.i);
    if s.cells[slot] == 0 || s.cells[slot] == op.base {
      assert states[n + 1].cells[slot] == op.base;
    } else {
      PassedOne(s.cells, op.base, op.i);
      FullWhenPassed(s.cells, op.base);
      TooMany(s, op.base);
    }
  }

  /** A full table of other bases means more than 256 were asked for. */
  lemma TooMany(s: State, base: nat)
    requires Inv(s) && 0 !in s.cells && base !in s.cells && base in s.asked
    ensures |s.asked| > REGISTRY_SIZE
  {
    forall i, j | 0 <= i < j < REGISTRY_SIZE ensures s.cells[i] != s.cells[j] {
      if s.cells[i] == s.cells[j] {
        assert s.cells[i] in s.cells;
        Unique(s.cells, s.cells[i], i, j);
      }
    }
    NoDupCount(s.cells);
    Subset(Elems(s.cells) + {base}, s.asked);
  }

  lemma {:induction false} Subset(a: set<nat>, b: set<nat>)
    requires a <= b
    ensures |a| <= |b|
  {
    if a != {} {
      var x :| x in a;
      Subset(a - {x}, b - {x});
    }
  }

  /** A lookup that answers after an insert of its base completed finds it. */
  lemma FoundAfterInsert(states: seq<State>, acts: seq<Action>, m: nat, n: nat, t: Tid)
    requires IsRun(states, acts) && m < n <= |acts| && |states[m].asked| <= REGISTRY_SIZE
    requires acts[m].TryCas? && acts[m].t in states[m].ops && acts[m].t !in states[m + 1].ops
    requires t in states[n].ops && states[n].ops[t].Looking? && states[n].ops[t].base == states[m].ops[acts[m].t].base
    ensures |states[n].cells| == REGISTRY_SIZE
    ensures Answer(states[n], t).Some? ==> Answer(states[n], t).value
  {
    InsertLands(states, acts, m);
    EveryRun(states, acts, m);
    assert OpOk(states[m], acts[m].t);
    var base := states[n].ops[t].base;
    StaysRegistered(states, acts, m + 1, n, base);
    LookupExact(states, acts, n, t);
  }

  // ---- the runs contain the operations ----

  /** The state that further steps lead to; None if some step is not possible. */
  function Exec(s: State, acts: seq<Action>): Option<State>
    decreases |acts|
  {
    if acts == [] then Some(s)
    else if Enabled(s, acts[0]) then Exec(Apply(s, acts[0]), acts[1..])
    else None
  }

  lemma FirstStep(s: State, a: Action, acts: seq<Action>)
    requires Enabled(s, a)
    ensures Exec(s, [a] + acts) == Exec(Apply(s, a), acts)
  {
    assert ([a] + acts)[1..] == acts;
  }

  lemma {:induction false} InsertGoesOn(s: State, t: Tid) returns (acts: seq<Action>)
    requires |s.cells| == REGISTRY_SIZE && t in s.ops && s.ops[t].Inserting? && s.ops[t].i < REGISTRY_SIZE
    ensures |acts| <= REGISTRY_SIZE - s.ops[t].i && forall a | a in acts :: a == TryCas(t)
    ensures Exec(s, acts) == Some(s.(cells := InsertFrom(s.cells, s.ops[t].base, s.ops[t].i), ops := s.ops - {t}))
    decreases REGISTRY_SIZE - s.ops[t].i
  {
    var r := Apply(s, TryCas(t));
    var rest: seq<Action> := [];
    if t in r.ops {
      rest := InsertGoesOn(r, t);
      assert r.ops - {t} == s.ops - {t};
    }
    acts := [TryCas(t)] + rest;
    FirstStep(s, TryCas(t), rest);
  }

  /** Left alone, a registration runs to its end in at most 256 further steps, from any state, and does what
      segment_register does without other threads. */
  lemma RegisterAlone(s: State, t: Tid, base: nat) returns (acts: seq<Action>)
    requires |s.cells| == REGISTRY_SIZE && t !in s.ops && base != 0
    ensures |acts| <= REGISTRY_SIZE && forall a | a in acts :: a == TryCas(t)
    ensures Exec(s, [Register(t, base)] + acts) ==
      Some(s.(cells := Insert(s.cells, base), asked := s.asked + {base}))
  {
    var r := Apply(s, Register(t, base));
    acts := InsertGoesOn(r, t);
    assert r.ops - {t} == s.ops;
    FirstStep(s, Register(t, base), acts);
  }

  lemma {:induction false} LookupGoesOn(s: State, t: Tid) returns (acts: seq<Action>, q: State)
    requires |s.cells| == REGISTRY_SIZE && t in s.ops && s.ops[t].Looking? && s.ops[t].i < REGISTRY_SIZE
    ensures |acts| < REGISTRY_SIZE - s.ops[t].i && forall a | a in acts :: a == ReadCell(t)
    ensures Exec(s, acts) == Some(q)
    ensures q.cells == s.cells && q.asked == s.asked && t in q.ops && q.ops - {t} == s.ops - {t}
    ensures Enabled(q, ReadCell(t)) && Answer(q, t) == Some(LookupFrom(s.cells, s.ops[t].base, s.ops[t].i))
    decreases REGISTRY_SIZE - s.ops[t].i
  {
    if Answer(s, t).Some? {
      acts, q := [], s;
    } else {
      var r := Apply(s, ReadCell(t));
      assert r.ops - {t} == s.ops - {t};
      var rest;
      rest, q := LookupGoesOn(r, t);
      acts := [ReadCell(t)] + rest;
      FirstStep(s, ReadCell(t), rest);
    }
  }

  /** Left alone, a lookup answers within 256 further steps, from any state, as segment_is_registered does without
      other threads. */
  lemma AskAlone(s: State, t: Tid, base: nat) returns (acts: seq<Action>, q: State)
    requires |s.cells| == REGISTRY_SIZE && t !in s.ops
    ensures |acts| < REGISTRY_SIZE && forall a | a in acts :: a == ReadCell(t)
    ensures Exec(s, [Ask(t, base)] + acts) == Some(q) && |q.cells| == REGISTRY_SIZE && t in q.ops
    ensures Enabled(q, ReadCell(t)) && Answer(q, t) == Some(Lookup(s.cells, base)) && Apply(q, ReadCell(t)) == s
  {
    var r := Apply(s, Ask(t, base));
    acts, q := LookupGoesOn(r, t);
    assert r.ops - {t} == s.ops;
    FirstStep(s, Ask(t, base), acts);
  }
}
