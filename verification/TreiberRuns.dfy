/** Every run of the tagged stack, and how far its tag protects a pop. */
module TreiberRuns {
  import opened Basics
  import opened Treiber
  import opened TreiberProof

  ghost predicate Initial(s: Stack) {
    && s.tagMod > 0 && s.head == Word(Null, 0) && s.ops == map[] && s.log == []
    && forall k: nat :: k in s.free <==> k < |s.link|
  }

  ghost predicate Goes(s: Stack, a: Action, r: Stack) { Ok(s, a) && r == Apply(s, a) }

  /** A run from an initial state in which every successful pop is fresh. */
  ghost predicate IsRun(states: seq<Stack>, acts: seq<Action>) {
    && |states| == |acts| + 1
    && Initial(states[0])
    && forall i {:trigger acts[i]} | 0 <= i < |acts| :: Goes(states[i], acts[i], states[i + 1])
  }

  ghost predicate Reachable(s: Stack) {
    exists states, acts :: IsRun(states, acts) && states[|acts|] == s
  }

  /** Every state of every run satisfies the invariant. */
  lemma {:induction false} EveryRun(states: seq<Stack>, acts: seq<Action>, n: nat) returns (v: View)
    requires IsRun(states, acts) && n <= |acts|
    ensures Inv(states[n], v)
    decreases n
  {
    if n == 0 {
      var s := states[0];
      v := View([], map[], seq(|s.link|, _ => Free));
      forall k | 0 <= k < |s.link| ensures NodeOk(s, v, k) {}
    } else {
      var w := EveryRun(states, acts, n - 1);
      v := StepKeeps(states[n - 1], w, acts[n - 1]);
    }
  }

  lemma ReachableInv(s: Stack) returns (v: View)
    requires Reachable(s)
    ensures Inv(s, v)
  {
    var states, acts :| IsRun(states, acts) && states[|acts|] == s;
    v := EveryRun(states, acts, |acts|);
  }

  lemma Step(s: Stack, a: Action, r: Stack)
    requires Reachable(s) && Ok(s, a) && r == Apply(s, a)
    ensures Reachable(r)
  {
    var states, acts :| IsRun(states, acts) && states[|acts|] == s;
    var states', acts' := states + [r], acts + [a];
    forall i | 0 <= i < |acts'| ensures Goes(states'[i], acts'[i], states'[i + 1]) {
      if i < |acts| {
        assert Goes(states[i], acts[i], states[i + 1]);
        assert acts'[i] == acts[i] && states'[i] == states[i] && states'[i + 1] == states[i + 1];
      } else {
        assert acts'[i] == a && states'[i] == s && states'[i + 1] == r && Goes(s, a, r);
      }
    }
    assert IsRun(states', acts');
  }

  /** Linearizability, for any number of threads, spurious CAS failures and any tag width: the logged
      updates are a run of an ordinary stack, whose contents the links from the head spell out, and
      every node pushed was either returned once or is still there. */
  lemma Linearizable(s: Stack)
    requires Reachable(s)
    ensures Replay(s.log).Some?
    ensures Chain(s.link, s.head.ptr, Replay(s.log).value)
    ensures Pushes(s.log) == Returns(s.log) + multiset(Replay(s.log).value)
  {
    var v := ReachableInv(s);
    ReplayConserves(s.log);
  }

  /** A pop or a collect that answers null does so at its load, which leaves the state alone; that happens exactly
      when the ordinary stack is empty at that moment, so these answers fit in the same order. */
  lemma NullMeansEmpty(s: Stack, t: Tid, a: Action)
    requires Reachable(s) && t !in s.ops && (a == PopLoad(t) || a == CollectLoad(t))
    ensures Ok(s, a) && (Apply(s, a) == s <==> Replay(s.log) == Some([]))
    ensures Apply(s, a) != s ==> t in Apply(s, a).ops && Apply(s, a).log == s.log
  {
    var v := ReachableInv(s);
    if s.head.ptr.At? { assert t in Apply(s, a).ops; }
  }

  /** A successful collect walks away with exactly the contents, and its nodes are in nobody else's hands. */
  lemma CollectTakesAll(s: Stack, t: Tid)
    requires Reachable(s) && Ok(s, CollectCas(t))
    ensures Replay(s.log).Some? && Replay(Apply(s, CollectCas(t)).log) == Some([])
    ensures var s' := Apply(s, CollectCas(t));
            && s'.ops[t].Draining? && Chain(s'.link, s'.ops[t].cur, Replay(s.log).value)
            && forall k | k in Replay(s.log).value ::
                 k !in s'.free && forall u | u in s'.ops && PushPc(s'.ops[u]) :: s'.ops[u].node != k
  {
    var v := ReachableInv(s);
    var v' := CollectCasStep(s, v, t);
    var s' := Apply(s, CollectCas(t));
    assert ThreadOk(s', v', t);
    forall k | k in v.contents
      ensures k !in s'.free && forall u | u in s'.ops && PushPc(s'.ops[u]) :: s'.ops[u].node != k
    {
      assert NodeOk(s', v', k);
      forall u | u in s'.ops && PushPc(s'.ops[u]) ensures s'.ops[u].node != k { assert ThreadOk(s', v', u); }
    }
  }

  /** The link of a node in the stack does not change while it is there. */
  lemma StackedLinkFixed(s: Stack, a: Action, k: nat)
    requires Reachable(s) && Ok(s, a) && Replay(s.log).Some? && k in Replay(s.log).value
    ensures Fetch(Apply(s, a).link, k) == Fetch(s.link, k)
  {
    var v := ReachableInv(s);
    assert NodeOk(s, v, k);
    if a.PushLink? { assert ThreadOk(s, v, a.t); }
  }

  /** A CAS that fails although it is not spurious means another thread's update succeeded since the
      load; one that succeeds within `tagMod` updates means the head did not change at all since. */
  lemma CasMeansUnchanged(s: Stack, t: Tid)
    requires Reachable(s) && t in s.ops
    requires s.ops[t].PushLinked? || s.ops[t].PopRead? || s.ops[t].CollectLoaded?
    ensures s.head != s.ops[t].word ==> s.ops[t].since < |s.log|
    ensures s.head == s.ops[t].word && |s.log| - s.ops[t].since < s.tagMod ==> s.ops[t].since == |s.log|
  {
    var v := ReachableInv(s);
    assert ThreadOk(s, v, t);
    if s.head == s.ops[t].word && |s.log| - s.ops[t].since < s.tagMod {
      SameResidue(s.ops[t].since, |s.log|, s.tagMod);
    }
  }

  /** A CAS whose loaded word is the head may succeed, whatever is on the stack. */
  lemma CasSucceeds(s: Stack, t: Tid)
    requires Reachable(s) && t in s.ops
    ensures s.ops[t].PushLinked? ==> (Enabled(s, PushCas(t)) <==> s.ops[t].word == s.head)
    ensures s.ops[t].PopRead? ==> (Enabled(s, PopCas(t)) <==> s.ops[t].word == s.head)
    ensures s.ops[t].CollectLoaded? ==> (Enabled(s, CollectCas(t)) <==> s.ops[t].word == s.head)
  {
    var v := ReachableInv(s);
    assert ThreadOk(s, v, t);
  }

  // ---- the runs contain the operations ----

  /** An uninterrupted push. */
  lemma PushRun(s: Stack, t: Tid, k: nat) returns (r: Stack)
    requires Reachable(s) && t !in s.ops && k in s.free && k < |s.link|
    ensures Reachable(r) && r.tagMod == s.tagMod && r.ops == s.ops && r.log == s.log + [Pushed(k)]
    ensures r.free == s.free - {k} && r.link == s.link[k := s.head.ptr] && r.head == Bumped(s, At(k))
  {
    var s1 := PushBegin(s, t, k);
    assert s1.ops - {t} == s.ops;
    r := PushEnd(s1, t);
  }

  lemma PushBegin(s: Stack, t: Tid, k: nat) returns (r: Stack)
    requires Reachable(s) && t !in s.ops && k in s.free
    ensures Reachable(r) && r == s.(free := s.free - {k}, ops := s.ops[t := PushLoaded(k, s.head, |s.log|)])
  {
    var s1 := s.(free := s.free - {k}, ops := s.ops[t := Push(k)]);
    Step(s, PushStart(t, k), s1);
    r := s.(free := s.free - {k}, ops := s.ops[t := PushLoaded(k, s.head, |s.log|)]);
    assert r.ops == s1.ops[t := r.ops[t]];
    Step(s1, PushLoad(t), r);
  }

  lemma PushEnd(s: Stack, t: Tid) returns (r: Stack)
    requires Reachable(s) && t in s.ops && s.ops[t].PushLoaded? && s.ops[t].word == s.head && s.ops[t].node < |s.link|
    ensures Reachable(r) && r.tagMod == s.tagMod && r.ops == s.ops - {t} && r.free == s.free
    ensures r.log == s.log + [Pushed(s.ops[t].node)]
    ensures r.link == s.link[s.ops[t].node := s.head.ptr] && r.head == Bumped(s, At(s.ops[t].node))
  {
    var k := s.ops[t].node;
    var s1 := s.(link := s.link[k := s.head.ptr], ops := s.ops[t := PushLinked(k, s.head, s.ops[t].since)]);
    Step(s, PushLink(t), s1);
    r := s1.(head := Bumped(s, At(k)), ops := s.ops - {t}, log := s.log + [Pushed(k)]);
    assert s1.ops - {t} == s.ops - {t};
    Step(s1, PushCas(t), r);
  }

  /** An uninterrupted pop. */
  lemma PopRun(s: Stack, t: Tid) returns (r: Stack)
    requires Reachable(s) && t !in s.ops && s.head.ptr.At? && s.tagMod > 0
    ensures Reachable(r) && r.tagMod == s.tagMod && r.ops == s.ops && r.log == s.log + [Popped(s.head.ptr.slot)]
    ensures r.free == s.free + {s.head.ptr.slot} && r.link == s.link
    ensures r.head == Bumped(s, Fetch(s.link, s.head.ptr.slot))
  {
    var s1 := PopStart(s, t);
    assert s1.ops - {t} == s.ops;
    var k := s.head.ptr.slot;
    r := s1.(head := Bumped(s, s1.ops[t].next), free := s.free + {k}, ops := s.ops, log := s.log + [Popped(k)]);
    Step(s1, PopCas(t), r);
  }

  lemma PopStart(s: Stack, t: Tid) returns (r: Stack)
    requires Reachable(s) && t !in s.ops && s.head.ptr.At?
    ensures r == s.(ops := s.ops[t := PopRead(s.head, Fetch(s.link, s.head.ptr.slot), |s.log|)])
    ensures Reachable(r)
  {
    var s1 := s.(ops := s.ops[t := PopLoaded(s.head, |s.log|)]);
    Step(s, PopLoad(t), s1);
    r := s.(ops := s.ops[t := PopRead(s.head, Fetch(s.link, s.head.ptr.slot), |s.log|)]);
    assert r.ops == s1.ops[t := r.ops[t]];
    Step(s1, PopNext(t), r);
  }

  // ---- the bound on pops is tight ----

  /** `n` times push a node and pop it again: only the tag moves on. */
  lemma {:induction false} PushPopRuns(s: Stack, t: Tid, k: nat, n: nat) returns (r: Stack)
    requires Reachable(s) && t !in s.ops && k in s.free && k < |s.link| && s.tagMod > 0
    ensures Reachable(r) && r.tagMod == s.tagMod && r.ops == s.ops && r.free == s.free
    ensures |r.log| == |s.log| + 2 * n && r.head.ptr == s.head.ptr
    decreases n
  {
    r := s;
    if n > 0 {
      var s1 := PushRun(s, t, k);
      var s2 := PopRun(s1, t);
      assert s2.free == s.free;
      r := PushPopRuns(s2, t, k, n - 1);
    }
  }

  /** With exactly 65536 updates between the load of a pop and its CAS the tag has come round: there is
      a reachable state in which the CAS succeeds although the stack changed, and leaves the head on
      a node that is free. */
  lemma AbaAfterWrap() returns (s: Stack)
    ensures Reachable(s) && s.tagMod == 65536
    ensures 1 in s.ops && s.ops[1].PopRead? && |s.log| - s.ops[1].since == 65536
    ensures Enabled(s, PopCas(1))
    ensures var r := Apply(s, PopCas(1)); r.head.ptr.At? && r.head.ptr.slot in r.free
  {
    var s0 := Stack(65536, Word(Null, 0), [Null, Null, Null], {0, 1, 2}, map[], []);
    assert IsRun([s0], []);
    var s4 := TwoPushedOneRead(s0);
    TwoStacked(s4);
    var s5 := CollectRun(s4, 2);
    var s6 := PushRun(s5, 2, 0);
    s := PushPopRuns(s6, 2, 2, 32767);
    assert |s.log| == 65538;
    var v := ReachableInv(s);
    assert s.head == Word(At(0), 2);
  }

  lemma TwoStacked(s: Stack)
    requires Reachable(s) && |s.link| == 3 && s.head.ptr == At(0) && s.link[0] == At(1) && s.link[1] == Null
    ensures Replay(s.log) == Some([0, 1]) && Elems([0, 1]) == {0, 1}
  {
    var v := ReachableInv(s);
    assert After([0, 1], 0) == At(1) && After([0, 1], 1) == Null;
    assert Chain(s.link, At(0), [0, 1]);
    ChainUnique(s.link, At(0), v.contents, [0, 1]);
  }

  lemma TwoPushedOneRead(s: Stack) returns (r: Stack)
    requires Reachable(s) && s.tagMod == 65536 && |s.link| == 3 && s.head == Word(Null, 0)
    requires s.free == {0, 1, 2} && s.ops == map[] && s.log == []
    ensures Reachable(r) && r.tagMod == 65536 && |r.log| == 2 && r.ops == map[1 := PopRead(Word(At(0), 2), At(1), 2)]
    ensures r.head == Word(At(0), 2) && |r.link| == 3 && r.link[0] == At(1) && r.link[1] == Null && r.free == {2}
  {
    var s1 := PushRun(s, 2, 1);
    var s2 := PushRun(s1, 2, 0);
    r := PopStart(s2, 1);
  }

  /** An uninterrupted collect, and the walk along what it got. */
  lemma CollectRun(s: Stack, t: Tid) returns (r: Stack)
    requires Reachable(s) && t !in s.ops && s.head.ptr.At?
    ensures Reachable(r) && r.tagMod == s.tagMod && r.ops == s.ops && r.link == s.link && r.head.ptr == Null
    ensures r.log == s.log + [Collected(s.head.ptr.slot)]
    ensures Replay(s.log).Some? && r.free == s.free + Elems(Replay(s.log).value)
  {
    var s1 := CollectBegin(s, t);
    var v := ReachableInv(s);
    assert s1.ops - {t} == s.ops;
    r := Drain(s1, t, v.contents);
  }

  lemma CollectBegin(s: Stack, t: Tid) returns (r: Stack)
    requires Reachable(s) && t !in s.ops && s.head.ptr.At?
    ensures Reachable(r) && r.tagMod == s.tagMod && r.free == s.free && r.link == s.link
    ensures r.log == s.log + [Collected(s.head.ptr.slot)]
    ensures r.head.ptr == Null && r.ops == s.ops[t := Draining(s.head.ptr)]
  {
    var s1 := s.(ops := s.ops[t := CollectLoaded(s.head, |s.log|)]);
    Step(s, CollectLoad(t), s1);
    r := s1.(head := Bumped(s1, Null), ops := s1.ops[t := Draining(s.head.ptr)],
             log := s.log + [Collected(s.head.ptr.slot)]);
    Step(s1, CollectCas(t), r);
  }

  lemma {:induction false} Drain(s: Stack, t: Tid, list: seq<nat>) returns (r: Stack)
    requires Reachable(s) && t in s.ops && s.ops[t] == Draining(First(list)) && Chain(s.link, First(list), list)
    ensures Reachable(r) && r == s.(free := s.free + Elems(list), ops := s.ops - {t})
    decreases |list|
  {
    if list == [] {
      r := s.(ops := s.ops - {t});
      Step(s, DrainNext(t), r);
      assert s.free + Elems(list) == s.free;
    } else {
      ChainSuffix(s.link, First(list), list, 1);
      var s1 := s.(free := s.free + {list[0]}, ops := s.ops[t := Draining(First(list[1..]))]);
      Step(s, DrainNext(t), s1);
      r := Drain(s1, t, list[1..]);
      assert s1.ops - {t} == s.ops - {t};
      assert Elems(list) == {list[0]} + Elems(list[1..]);
      assert s1.free + Elems(list[1..]) == s.free + Elems(list);
    }
  }
}
