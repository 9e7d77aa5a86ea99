/** Vocabulary shared by the allocator model: optional values, the null-terminated
    singly linked lists that live in the first word of free slots, and the
    wrap-around of the 16-bit counters. */
module Basics {

  datatype Option<+T> = None | Some(value: T)

  /** A pointer into a page: null, or the index of a slot. */
  datatype Ptr = Null | At(slot: nat)

  /** The tagged head of a lock-free stack. */
  datatype Word = Word(ptr: Ptr, tag: nat)

  type Tid = nat

  /** The pointer at which a list holding exactly `s` starts. */
  function First(s: seq<nat>): Ptr {
    if s == [] then Null else At(s[0])
  }

  function Rest(s: seq<nat>): seq<nat> { if s == [] then [] else s[1..] }

  /** The link that element `i` of the list `s` carries. */
  function After(s: seq<nat>, i: nat): Ptr
    requires i < |s|
  {
    if i + 1 < |s| then At(s[i + 1]) else Null
  }

  /** The link word of slot `k`. */
  function Fetch(link: seq<Ptr>, k: nat): Ptr {
    if k < |link| then link[k] else Null
  }

  /** `s` is the list that starts at `head` when links are read from `link`. */
  ghost predicate Chain(link: seq<Ptr>, head: Ptr, s: seq<nat>) {
    && head == First(s)
    && (forall k | k in s :: k < |link|)
    && (forall i {:trigger After(s, i)} | 0 <= i < |s| :: Fetch(link, s[i]) == After(s, i))
  }

  /** Dropping a prefix of a list leaves the list that starts at the next element. */
  lemma ChainSuffix(link: seq<Ptr>, head: Ptr, s: seq<nat>, n: nat)
    requires Chain(link, head, s) && n <= |s|
    ensures Chain(link, First(s[n..]), s[n..])
    ensures 0 < n ==> Fetch(link, s[n - 1]) == First(s[n..])
  {
    assert forall k | k in s[n..] :: k in s;
    if 0 < n { assert Fetch(link, s[n - 1]) == After(s, n - 1); }
    forall i | 0 <= i < |s[n..]|
      ensures Fetch(link, s[n..][i]) == After(s[n..], i)
    {
      assert After(s, n + i) == After(s[n..], i);
    }
  }

  /** Writes outside a list leave it alone. */
  lemma ChainFrame(link: seq<Ptr>, link': seq<Ptr>, head: Ptr, s: seq<nat>)
    requires Chain(link, head, s)
    requires forall k | k in s :: k < |link'| && link'[k] == link[k]
    ensures Chain(link', head, s)
  {
    forall i | 0 <= i < |s|
      ensures Fetch(link', s[i]) == After(s, i)
    {
      assert s[i] in s && Fetch(link, s[i]) == After(s, i);
    }
  }

  /** Linking a slot in front of a list. */
  lemma ChainPush(link: seq<Ptr>, head: Ptr, s: seq<nat>, k: nat)
    requires Chain(link, head, s) && k < |link| && link[k] == head
    ensures Chain(link, At(k), [k] + s)
  {
    var r := [k] + s;
    forall i | 0 <= i < |r|
      ensures Fetch(link, r[i]) == After(r, i)
    {
      if 0 < i { assert r[i] == s[i - 1] && After(r, i) == After(s, i - 1); }
    }
  }

  /** Splicing: the last link of `s` is pointed at the list `r`. */
  lemma ChainSplice(link: seq<Ptr>, s: seq<nat>, head: Ptr, r: seq<nat>)
    requires s != [] && s[|s| - 1] < |link| && Chain(link, First(s), s) && Chain(link, head, r)
    requires s[|s| - 1] !in r
    ensures Chain(link[s[|s| - 1] := head], At(s[0]), s + r)
  {
    ChainNoDup(link, First(s), s);
    var link' := link[s[|s| - 1] := head];
    var c := s + r;
    forall i | 0 <= i < |c|
      ensures Fetch(link', c[i]) == After(c, i)
    {
      if i < |s| { assert c[i] == s[i] && Fetch(link, s[i]) == After(s, i); }
      else { assert c[i] == r[i - |s|] && c[i] in r && After(c, i) == After(r, i - |s|); }
    }
  }

  ghost predicate NoDup(s: seq<nat>) {
    forall i, j :: 0 <= i < j < |s| ==> s[i] != s[j]
  }

  /** A list is determined by its head and the links. */
  lemma {:induction false} ChainUnique(link: seq<Ptr>, head: Ptr, s: seq<nat>, r: seq<nat>)
    requires Chain(link, head, s) && Chain(link, head, r)
    ensures s == r
    decreases |s|
  {
    if s != [] && r != [] {
      ChainSuffix(link, head, s, 1);
      ChainSuffix(link, head, r, 1);
      ChainUnique(link, Fetch(link, s[0]), s[1..], r[1..]);
    }
  }

  /** A null-terminated list visits no slot twice. */
  lemma ChainNoDup(link: seq<Ptr>, head: Ptr, s: seq<nat>)
    requires Chain(link, head, s)
    ensures NoDup(s)
  {
    forall i, j | 0 <= i < j < |s|
      ensures s[i] != s[j]
    {
      if s[i] == s[j] {
        ChainSuffix(link, head, s, i);
        ChainSuffix(link, head, s, j);
        ChainUnique(link, At(s[i]), s[i..], s[j..]);
      }
    }
  }

  function Elems(s: seq<nat>): set<nat> { set k | k in s }

  /** A duplicate-free list has as many elements as entries. */
  lemma {:induction false} NoDupCount(s: seq<nat>)
    requires NoDup(s)
    ensures |Elems(s)| == |s|
    decreases |s|
  {
    if s != [] {
      NoDupCount(s[1..]);
      assert s[0] !in s[1..];
      assert s == [s[0]] + s[1..];
      assert Elems(s) == {s[0]} + Elems(s[1..]);
    }
  }

  /** A set of naturals below `n` has at most `n` elements. */
  lemma {:induction false} CountBelow(s: set<nat>, n: nat)
    requires forall k | k in s :: k < n
    ensures |s| <= n
  {
    if n > 0 {
      CountBelow(s - {n - 1}, n - 1);
      assert |s| <= |s - {n - 1}| + 1;
    }
  }

  /** The naturals from `lo` up to, not including, `hi`. */
  function Range(lo: nat, hi: nat): (r: set<nat>)
    ensures forall k :: k in r <==> lo <= k < hi
    ensures lo <= hi ==> |r| == hi - lo
    decreases hi - lo
  {
    if lo < hi then {lo} + Range(lo + 1, hi) else {}
  }

  lemma CountFour(a: set<nat>, b: set<nat>, c: set<nat>, d: set<nat>)
    requires a !! b && a !! c && a !! d && b !! c && b !! d && c !! d
    ensures |a + b + c + d| == |a| + |b| + |c| + |d|
  {
    assert |a + b| == |a| + |b|;
    assert |a + b + c| == |a + b| + |c|;
  }

  /** Four disjoint parts that cover the first `cap` naturals. */
  lemma Covering(live: set<nat>, local: seq<nat>, remote: seq<nat>, bump: nat, cap: nat)
    requires NoDup(local) && NoDup(remote) && bump <= cap
    requires forall k: nat | k < cap :: k in live || k in local || k in remote || bump <= k
    requires forall k | k in live :: k < bump && k !in local && k !in remote
    requires forall k | k in local :: k < bump && k !in remote
    requires forall k | k in remote :: k < bump
    ensures |live| + |local| + |remote| + (cap - bump) == cap
  {
    NoDupCount(local);
    NoDupCount(remote);
    CountFour(live, Elems(local), Elems(remote), Range(bump, cap));
    assert live + Elems(local) + Elems(remote) + Range(bump, cap) == Range(0, cap);
  }

  lemma {:induction false} MulGap(x: nat, y: nat, base: nat)
    requires x < y
    ensures x * base + base <= y * base
    decreases y
  {
    assert y * base == (y - 1) * base + base;
    if x < y - 1 { MulGap(x, y - 1, base); }
  }

  /** Quotient and remainder are determined by their equation. */
  lemma Residue(a: nat, q: nat, r: nat, base: nat)
    requires 0 < base && a == q * base + r && r < base
    ensures a % base == r && a / base == q
  {
    var q' := a / base;
    assert a == base * q' + a % base;
    assert base * q' == q' * base;
    if q' < q {
      MulGap(q', q, base);
    } else if q < q' {
      MulGap(q, q', base);
    }
  }

  /** The tag after `tag`, when tags run from 0 up to, not including, `base` and wrap around. */
  function NextTag(tag: nat, base: nat): nat {
    if tag + 1 < base then tag + 1 else 0
  }

  lemma NextResidue(n: nat, base: nat)
    requires 0 < base
    ensures NextTag(n % base, base) == (n + 1) % base
  {
    var q, r := n / base, n % base;
    assert n == q * base + r;
    if r + 1 < base {
      Residue(n + 1, q, r + 1, base);
    } else {
      assert n + 1 == (q + 1) * base;
      Residue(n + 1, q + 1, 0, base);
    }
  }

  /** Less than `base` apart with the same remainder means equal. */
  lemma SameResidue(m: nat, n: nat, base: nat)
    requires 0 < base && m <= n < m + base && m % base == n % base
    ensures m == n
  {
    assert m == (m / base) * base + m % base && n == (n / base) * base + n % base;
    if m / base < n / base {
      MulGap(m / base, n / base, base);
    } else if n / base < m / base {
      MulGap(n / base, m / base, base);
    }
  }

  const COUNTER_MOD := 65536

  /** uint16_t addition and subtraction. */
  function Add16(x: nat, n: nat): nat { (x + n) % COUNTER_MOD }
  function Sub16(x: nat, n: nat): nat { (x - n) % COUNTER_MOD }

  /** The 16-bit counter `x` holds the integer `n`, up to wrap-around. */
  predicate Holds16(x: nat, n: int) {
    x == n % COUNTER_MOD
  }
}
