/** The stack is linearizable: its successful head updates, in order, are a run of an ordinary
    sequential stack, and what each returned is what that stack returns. */
module TreiberProof {
  import opened Basics
  import opened Treiber

  /** One update of an ordinary stack; None if it returned something the stack would not. */
  function Update(s: seq<nat>, e: Event): Option<seq<nat>> {
    match e
    case Pushed(k) => Some([k] + s)
    case Popped(k) => if First(s) == At(k) then Some(Rest(s)) else None
    case Collected(k) => if First(s) == At(k) then Some([]) else None
  }

  /** The contents of an ordinary stack after the logged updates, if it agrees with all of them. */
  function Replay(log: seq<Event>): Option<seq<nat>> {
    if log == [] then Some([])
    else
      match Replay(log[..|log| - 1])
      case None => None
      case Some(s) => Update(s, log[|log| - 1])
  }

  function PushedBy(e: Event): multiset<nat> {
    match e case Pushed(k) => multiset{k} case _ => multiset{}
  }

  /** What an update of the stack `s` gives back. */
  function ReturnedBy(s: seq<nat>, e: Event): multiset<nat> {
    match e
    case Pushed(_) => multiset{}
    case Popped(k) => multiset{k}
    case Collected(_) => multiset(s)
  }

  /** The nodes that the logged updates pushed, and those they gave back. */
  function Pushes(log: seq<Event>): multiset<nat> {
    if log == [] then multiset{} else Pushes(log[..|log| - 1]) + PushedBy(log[|log| - 1])
  }

  function Returns(log: seq<Event>): multiset<nat>
    requires Replay(log).Some?
  {
    if log == [] then multiset{}
    else Returns(log[..|log| - 1]) + ReturnedBy(Replay(log[..|log| - 1]).value, log[|log| - 1])
  }

  lemma UpdateConserves(s: seq<nat>, e: Event)
    requires Update(s, e).Some?
    ensures multiset(s) + PushedBy(e) == ReturnedBy(s, e) + multiset(Update(s, e).value)
  {
    match e
    case Pushed(k) => assert multiset([k] + s) == multiset{k} + multiset(s);
    case Popped(k) =>
      assert s == [k] + Rest(s);
      assert multiset([k] + Rest(s)) == multiset{k} + multiset(Rest(s));
    case Collected(_) =>
  }

  lemma Exchange(a: multiset<nat>, r: multiset<nat>, s: multiset<nat>, p: multiset<nat>, e: multiset<nat>,
                 s': multiset<nat>)
    requires a == r + s && s + p == e + s'
    ensures a + p == r + e + s'
  {
    assert a + p == r + (s + p);
  }

  /** Nothing is lost or returned twice: what was pushed is what was returned plus what is still there. */
  lemma {:induction false} ReplayConserves(log: seq<Event>)
    requires Replay(log).Some?
    ensures Pushes(log) == Returns(log) + multiset(Replay(log).value)
    decreases |log|
  {
    if log != [] {
      var prefix, e := log[..|log| - 1], log[|log| - 1];
      var s := Replay(prefix).value;
      ReplayConserves(prefix);
      UpdateConserves(s, e);
      Exchange(Pushes(prefix), Returns(prefix), multiset(s), PushedBy(e), ReturnedBy(s, e),
               multiset(Update(s, e).value));
    }
  }

  // ---- the invariant ----

  datatype Place = Free | Pushing(t: Tid) | Stacked | Drained(t: Tid)

  datatype View = View(contents: seq<nat>, drain: map<Tid, seq<nat>>, place: seq<Place>)

  predicate PushPc(pc: PC) { pc.Push? || pc.PushLoaded? || pc.PushLinked? }

  /** A loaded word is the head unless the head was updated since. */
  ghost predicate LoadOk(s: Stack, word: Word, since: nat)
    requires s.tagMod > 0
  {
    && since <= |s.log|
    && word.tag == since % s.tagMod
    && (since == |s.log| ==> s.head == word)
  }

  ghost predicate NodeOk(s: Stack, v: View, k: nat) {
    && k < |v.place|
    && (v.place[k] == Free <==> k in s.free)
    && (v.place[k] == Stacked <==> k in v.contents)
    && (v.place[k].Pushing? ==> v.place[k].t in s.ops && PushPc(s.ops[v.place[k].t]) && s.ops[v.place[k].t].node == k)
    && (v.place[k].Drained? ==> v.place[k].t in s.ops && s.ops[v.place[k].t].Draining?
                                && v.place[k].t in v.drain && k in v.drain[v.place[k].t])
  }

  ghost predicate ThreadOk(s: Stack, v: View, t: Tid)
    requires s.tagMod > 0
  {
    && t in s.ops
    && var pc := s.ops[t];
    && (PushPc(pc) ==> pc.node < |v.place| && v.place[pc.node] == Pushing(t))
    && (pc.PushLoaded? || pc.PushLinked? || pc.PopLoaded? || pc.PopRead? || pc.CollectLoaded? ==>
          LoadOk(s, pc.word, pc.since))
    && (pc.PopLoaded? || pc.PopRead? || pc.CollectLoaded? ==> pc.word.ptr.At?)
    && (pc.PushLinked? ==> Fetch(s.link, pc.node) == pc.word.ptr)
    && (pc.PopRead? && pc.since == |s.log| ==> pc.next == First(Rest(v.contents)))
    && (pc.Draining? ==>
          && t in v.drain && Chain(s.link, pc.cur, v.drain[t])
          && forall k | k in v.drain[t] :: k < |v.place| && v.place[k] == Drained(t))
  }

  ghost predicate Inv(s: Stack, v: View) {
    && 0 < s.tagMod
    && |v.place| == |s.link|
    && s.head.tag == |s.log| % s.tagMod
    && Chain(s.link, s.head.ptr, v.contents)
    && Replay(s.log) == Some(v.contents)
    && (forall k | k in s.free :: k < |s.link|)
    && (forall k {:trigger NodeOk(s, v, k)} | 0 <= k < |s.link| :: NodeOk(s, v, k))
    && (forall t {:trigger ThreadOk(s, v, t)} | t in s.ops :: ThreadOk(s, v, t))
  }

  // ---- one thread acts, the others are undisturbed ----

  ghost predicate Moves(s: Stack, v: View, s': Stack, v': View, t: Tid, moved: set<nat>)
    requires |v.place| == |s.link| == |s'.link| == |v'.place|
  {
    && s'.tagMod == s.tagMod
    && s'.ops - {t} == s.ops - {t}
    && v'.drain - {t} == v.drain - {t}
    && (if s'.log == s.log then s'.head == s.head && v'.contents == v.contents else |s'.log| > |s.log|)
    && (forall k | 0 <= k < |s.link| && v.place[k] != Free && v.place[k] != Pushing(t) :: s'.link[k] == s.link[k])
    && (forall k {:trigger NodeOk(s, v, k)} | 0 <= k < |s.link| && NodeOk(s, v, k) ::
          if k in moved then
            && NodeOk(s', v', k)
            && (v.place[k].Pushing? ==> v.place[k].t == t)
            && (v.place[k].Drained? ==> v.place[k].t == t)
          else
            v'.place[k] == v.place[k] && (k in s.free <==> k in s'.free) && (k in v.contents <==> k in v'.contents)
            && (v.place[k] == Pushing(t) ==> t in s'.ops && PushPc(s'.ops[t]) && s'.ops[t].node == k)
            && (v.place[k] == Drained(t) ==> t in s'.ops && s'.ops[t].Draining? && t in v'.drain && k in v'.drain[t]))
  }

  lemma NodesKeep(s: Stack, v: View, s': Stack, v': View, t: Tid, moved: set<nat>, k: nat)
    requires Inv(s, v) && |s'.link| == |s.link| == |v'.place| && Moves(s, v, s', v', t, moved) && k < |s.link|
    ensures NodeOk(s', v', k)
  {
    assert NodeOk(s, v, k);
    if k !in moved {
      if v.place[k].Pushing? && v.place[k].t != t { assert v.place[k].t in s.ops - {t}; }
      if v.place[k].Drained? && v.place[k].t != t {
        assert v.place[k].t in s.ops - {t} && v.place[k].t in v.drain - {t};
      }
    }
  }

  lemma ThreadsKeep(s: Stack, v: View, s': Stack, v': View, t: Tid, moved: set<nat>, u: Tid)
    requires Inv(s, v) && |s'.link| == |s.link| == |v'.place| && Moves(s, v, s', v', t, moved)
    requires u in s'.ops && u != t
    ensures ThreadOk(s', v', u)
  {
    assert u in s'.ops - {t};
    assert ThreadOk(s, v, u);
    var pc := s.ops[u];
    if PushPc(pc) {
      assert NodeOk(s, v, pc.node);
    } else if pc.Draining? {
      assert u in v.drain - {t};
      forall k | k in v.drain[u] ensures v'.place[k] == Drained(u) && s'.link[k] == s.link[k] {
        assert NodeOk(s, v, k);
      }
      ChainFrame(s.link, s'.link, pc.cur, v.drain[u]);
    }
  }

  lemma MovesKeep(s: Stack, v: View, s': Stack, v': View, t: Tid, moved: set<nat>)
    requires Inv(s, v) && |s'.link| == |s.link| == |v'.place| && Moves(s, v, s', v', t, moved)
    requires t in s'.ops ==> ThreadOk(s', v', t)
    requires s'.head.tag == |s'.log| % s'.tagMod && Chain(s'.link, s'.head.ptr, v'.contents)
    requires Replay(s'.log) == Some(v'.contents)
    requires forall k | k in s'.free :: k < |s'.link|
    ensures Inv(s', v')
  {
    forall k | 0 <= k < |s'.link| ensures NodeOk(s', v', k) { NodesKeep(s, v, s', v', t, moved, k); }
    forall u | u in s'.ops ensures ThreadOk(s', v', u) {
      if u != t { ThreadsKeep(s, v, s', v', t, moved, u); }
    }
  }

  // ---- every step keeps the invariant ----

  /** Steps that do not touch the head. */
  lemma QuietStep(s: Stack, v: View, a: Action) returns (v': View)
    requires Inv(s, v) && Ok(s, a)
    requires !a.PushCas? && !a.PopCas? && !a.CollectCas? && !a.DrainNext? && !a.PushStart? && !a.Scribble?
    ensures Inv(Apply(s, a), v')
  {
    v' := v;
    var s' := Apply(s, a);
    if a.t in s.ops {
      assert ThreadOk(s, v, a.t);
      if PushPc(s.ops[a.t]) { assert NodeOk(s, v, s.ops[a.t].node); }
    }
    if a.PushLink? { ChainFrame(s.link, s'.link, s.head.ptr, v.contents); }
    if a.PopNext? && s.ops[a.t].since == |s.log| && v.contents != [] { ChainSuffix(s.link, s.head.ptr, v.contents, 1); }
    MovesKeep(s, v, s', v, a.t, {});
  }

  lemma PushStartStep(s: Stack, v: View, t: Tid, k: nat) returns (v': View)
    requires Inv(s, v) && Ok(s, PushStart(t, k))
    ensures Inv(Apply(s, PushStart(t, k)), v')
  {
    assert NodeOk(s, v, k);
    v' := v.(place := v.place[k := Pushing(t)]);
    MovesKeep(s, v, Apply(s, PushStart(t, k)), v', t, {k});
  }

  /** The push takes effect: the node joins the contents in front. */
  lemma PushCasStep(s: Stack, v: View, t: Tid) returns (v': View)
    requires Inv(s, v) && Ok(s, PushCas(t))
    ensures Inv(Apply(s, PushCas(t)), v') && v'.contents == [s.ops[t].node] + v.contents
  {
    assert ThreadOk(s, v, t);
    var s' := Apply(s, PushCas(t));
    NextResidue(|s.log|, s.tagMod);
    var k := s.ops[t].node;
    assert NodeOk(s, v, k);
    v' := v.(contents := [k] + v.contents, place := v.place[k := Stacked]);
    ChainPush(s.link, s.head.ptr, v.contents, k);
    assert s'.log[..|s.log|] == s.log;
    MovesKeep(s, v, s', v', t, {k});
  }

  /** The pop takes effect: no update since its load, so what it read is still the next node. */
  lemma PopCasStep(s: Stack, v: View, t: Tid) returns (v': View)
    requires Inv(s, v) && Ok(s, PopCas(t))
    ensures s.ops[t].since == |s.log|
    ensures Inv(Apply(s, PopCas(t)), v') && v.contents == [s.head.ptr.slot] + v'.contents
  {
    assert ThreadOk(s, v, t);
    SameResidue(s.ops[t].since, |s.log|, s.tagMod);
    var s' := Apply(s, PopCas(t));
    NextResidue(|s.log|, s.tagMod);
    var k := s.head.ptr.slot;
    assert k in v.contents && NodeOk(s, v, k);
    v' := v.(contents := Rest(v.contents), place := v.place[k := Free]);
    ChainSuffix(s.link, s.head.ptr, v.contents, 1);
    ChainNoDup(s.link, s.head.ptr, v.contents);
    assert s'.log[..|s.log|] == s.log;
    MovesKeep(s, v, s', v', t, {k});
  }

  /** The collect takes effect: the thread walks away with the whole contents. */
  lemma CollectCasStep(s: Stack, v: View, t: Tid) returns (v': View)
    requires Inv(s, v) && Ok(s, CollectCas(t))
    ensures Inv(Apply(s, CollectCas(t)), v') && v'.contents == [] && t in v'.drain && v'.drain[t] == v.contents
  {
    assert ThreadOk(s, v, t);
    var s' := Apply(s, CollectCas(t));
    NextResidue(|s.log|, s.tagMod);
    var place := seq(|v.place|, k requires 0 <= k < |v.place| =>
      if v.place[k] == Stacked then Drained(t) else v.place[k]);
    v' := v.(contents := [], drain := v.drain[t := v.contents], place := place);
    assert s'.log[..|s.log|] == s.log;
    forall k | 0 <= k < |s.link| && NodeOk(s, v, k) && k in v.contents ensures NodeOk(s', v', k) {}
    MovesKeep(s, v, s', v', t, Elems(v.contents));
  }

  /** A collector releases the next node of its list. */
  lemma DrainStep(s: Stack, v: View, t: Tid) returns (v': View)
    requires Inv(s, v) && Ok(s, DrainNext(t))
    ensures Inv(Apply(s, DrainNext(t)), v')
  {
    assert ThreadOk(s, v, t);
    var s' := Apply(s, DrainNext(t));
    v' := v;
    if s.ops[t].cur.At? {
      var k := s.ops[t].cur.slot;
      assert k in v.drain[t] && NodeOk(s, v, k);
      v' := v.(drain := v.drain[t := Rest(v.drain[t])], place := v.place[k := Free]);
      ChainSuffix(s.link, s.ops[t].cur, v.drain[t], 1);
      ChainNoDup(s.link, s.ops[t].cur, v.drain[t]);
      MovesKeep(s, v, s', v', t, {k});
    } else {
      MovesKeep(s, v, s', v', t, {});
    }
  }

  lemma ScribbleStep(s: Stack, v: View, k: nat, word: Ptr)
    requires Inv(s, v) && Ok(s, Scribble(k, word))
    ensures Inv(Apply(s, Scribble(k, word)), v)
  {
    var s' := Apply(s, Scribble(k, word));
    assert NodeOk(s, v, k);
    ChainFrame(s.link, s'.link, s.head.ptr, v.contents);
    forall j | 0 <= j < |s'.link| ensures NodeOk(s', v, j) { assert NodeOk(s, v, j); }
    forall u | u in s'.ops ensures ThreadOk(s', v, u) {
      assert ThreadOk(s, v, u);
      if s.ops[u].Draining? { ChainFrame(s.link, s'.link, s.ops[u].cur, v.drain[u]); }
    }
  }

  lemma StepKeeps(s: Stack, v: View, a: Action) returns (v': View)
    requires Inv(s, v) && Ok(s, a)
    ensures Inv(Apply(s, a), v')
  {
    match a
    case PushStart(t, k) => v' := PushStartStep(s, v, t, k);
    case PushCas(t) => v' := PushCasStep(s, v, t);
    case PopCas(t) => v' := PopCasStep(s, v, t);
    case CollectCas(t) => v' := CollectCasStep(s, v, t);
    case DrainNext(t) => v' := DrainStep(s, v, t);
    case Scribble(k, word) => ScribbleStep(s, v, k, word); v' := v;
    case _ => v' := QuietStep(s, v, a);
  }
}
