/** The lock-free stack with tagged head, shared by any number of pushers, poppers and collectors. */
module Treiber {
  import opened Basics

  /** A thread's position. `since` counts the successful head updates at the moment of its load. */
  datatype PC =
    | Push(node: nat)
    | PushLoaded(node: nat, word: Word, since: nat)
    | PushLinked(node: nat, word: Word, since: nat)
    | PopLoaded(word: Word, since: nat)
    | PopRead(word: Word, next: Ptr, since: nat)
    | CollectLoaded(word: Word, since: nat)
    | Draining(cur: Ptr)

  /** A successful update of the head, with what it returned. */
  datatype Event = Pushed(node: nat) | Popped(node: nat) | Collected(first: nat)

  datatype Stack = Stack(
    tagMod: nat,            // number of distinct tags: 65536 in the code
    head: Word,
    link: seq<Ptr>,         // the next pointer inside every node
    free: set<nat>,         // nodes in nobody's hands
    ops: map<Tid, PC>,
    log: seq<Event>)        // the successful head updates so far

  datatype Action =
    | PushStart(t: Tid, node: nat)
    | PushLoad(t: Tid)
    | PushLink(t: Tid)
    | PushCas(t: Tid)
    | PopLoad(t: Tid)
    | PopNext(t: Tid)
    | PopCas(t: Tid)
    | CollectLoad(t: Tid)
    | CollectCas(t: Tid)
    | Retry(t: Tid)
    | DrainNext(t: Tid)
    | Scribble(node: nat, word: Ptr)

  predicate Enabled(s: Stack, a: Action) {
    match a
    case PushStart(t, k) => t !in s.ops && k in s.free
    case PushLoad(t) => t in s.ops && s.ops[t].Push?
    case PushLink(t) => t in s.ops && s.ops[t].PushLoaded?
    case PushCas(t) => t in s.ops && s.ops[t].PushLinked? && s.head == s.ops[t].word
    case PopLoad(t) => t !in s.ops
    case PopNext(t) => t in s.ops && s.ops[t].PopLoaded?
    case PopCas(t) => t in s.ops && s.ops[t].PopRead? && s.head == s.ops[t].word && s.head.ptr.At?
    case CollectLoad(t) => t !in s.ops
    case CollectCas(t) => t in s.ops && s.ops[t].CollectLoaded? && s.head == s.ops[t].word && s.head.ptr.At?
    case Retry(t) => t in s.ops && (s.ops[t].PushLinked? || s.ops[t].PopRead? || s.ops[t].CollectLoaded?)
    case DrainNext(t) => t in s.ops && s.ops[t].Draining?
    case Scribble(k, _) => k in s.free
  }

  /** tagged_make(ptr, old_tag + 1). */
  function Bumped(s: Stack, ptr: Ptr): Word {
    Word(ptr, NextTag(s.head.tag, s.tagMod))
  }

  function Store(s: Stack, k: nat, word: Ptr): seq<Ptr> {
    if k < |s.link| then s.link[k := word] else s.link
  }

  function Apply(s: Stack, a: Action): Stack
    requires Enabled(s, a)
  {
    match a
    case PushStart(t, k) => s.(free := s.free - {k}, ops := s.ops[t := Push(k)])
    case PushLoad(t) => s.(ops := s.ops[t := PushLoaded(s.ops[t].node, s.head, |s.log|)])
    case PushLink(t) =>
      var pc := s.ops[t];
      s.(link := Store(s, pc.node, pc.word.ptr), ops := s.ops[t := PushLinked(pc.node, pc.word, pc.since)])
    case PushCas(t) =>
      var k := s.ops[t].node;
      s.(head := Bumped(s, At(k)), ops := s.ops - {t}, log := s.log + [Pushed(k)])
    case PopLoad(t) => if s.head.ptr.Null? then s else s.(ops := s.ops[t := PopLoaded(s.head, |s.log|)])
    case PopNext(t) =>
      var pc := s.ops[t];
      var next := match pc.word.ptr case At(k) => Fetch(s.link, k) case Null => Null;
      s.(ops := s.ops[t := PopRead(pc.word, next, pc.since)])
    case PopCas(t) =>
      var k := s.head.ptr.slot;
      s.(head := Bumped(s, s.ops[t].next), free := s.free + {k}, ops := s.ops - {t}, log := s.log + [Popped(k)])
    case CollectLoad(t) => if s.head.ptr.Null? then s else s.(ops := s.ops[t := CollectLoaded(s.head, |s.log|)])
    case CollectCas(t) =>
      s.(head := Bumped(s, Null), ops := s.ops[t := Draining(s.head.ptr)], log := s.log + [Collected(s.head.ptr.slot)])
    case Retry(t) =>
      (match s.ops[t]
       case PushLinked(k, _, _) => s.(ops := s.ops[t := Push(k)])
       case _ => s.(ops := s.ops - {t}))
    case DrainNext(t) =>
      (match s.ops[t].cur
       case Null => s.(ops := s.ops - {t})
       case At(k) => s.(free := s.free + {k}, ops := s.ops[t := Draining(Fetch(s.link, k))]))
    case Scribble(k, word) => s.(link := Store(s, k, word))
  }

  /** A pop's CAS comes before the tag wraps around: fewer than `tagMod` updates since its load. */
  predicate PopFresh(s: Stack, a: Action) {
    a.PopCas? && a.t in s.ops && s.ops[a.t].PopRead? ==> |s.log| - s.ops[a.t].since < s.tagMod
  }

  predicate Ok(s: Stack, a: Action) {
    Enabled(s, a) && PopFresh(s, a)
  }
}
