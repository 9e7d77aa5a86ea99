/** The global list of large allocations: doubly linked records that the code relinks in place. */
module LargeList {

  class Record {
    const base: nat
    const size: nat
    var userSize: nat
    var next: Record?
    var prev: Record?

    constructor (base: nat, size: nat, userSize: nat)
      ensures this.base == base && this.size == size && this.userSize == userSize
    {
      this.base, this.size, this.userSize := base, size, userSize;
      next, prev := null, null;
    }

    /** The pointer lies in this record's mapping. */
    predicate Covers(ptr: nat) {
      base <= ptr < base + size
    }
  }

  ghost function NodeAt(nodes: seq<Record>, i: int): Record? {
    if 0 <= i < |nodes| then nodes[i] else null
  }

  ghost predicate Distinct(nodes: seq<Record>) {
    forall i, j | 0 <= i < j < |nodes| :: nodes[i] != nodes[j]
  }

  /** The links spell out `nodes`, forwards and backwards. */
  ghost predicate Chained(nodes: seq<Record>)
    reads nodes`next, nodes`prev
  {
    forall i {:trigger LinksAt(nodes, i)} | 0 <= i < |nodes| ::
      LinksAt(nodes, i) == (NodeAt(nodes, i - 1), NodeAt(nodes, i + 1))
  }

  ghost function LinksAt(nodes: seq<Record>, i: nat): (Record?, Record?)
    requires i < |nodes|
    reads nodes`next, nodes`prev
  {
    (nodes[i].prev, nodes[i].next)
  }

  /** The sum of the clients' sizes. */
  ghost function UserTotal(nodes: seq<Record>): nat
    reads nodes`userSize
  {
    if nodes == [] then 0 else nodes[0].userSize + UserTotal(nodes[1..])
  }

  function Without<T>(s: seq<T>, i: nat): seq<T>
    requires i < |s|
  {
    s[..i] + s[i + 1..]
  }

  lemma {:induction false} TotalWithout(nodes: seq<Record>, i: nat)
    requires i < |nodes|
    ensures UserTotal(nodes) == nodes[i].userSize + UserTotal(Without(nodes, i))
    decreases |nodes|
  {
    if i > 0 {
      TotalWithout(nodes[1..], i - 1);
      assert Without(nodes, i)[1..] == Without(nodes[1..], i - 1);
    } else {
      assert Without(nodes, i) == nodes[1..];
    }
  }

  /** The links of element `j` once the neighbours of element `i` are linked to each other. */
  ghost function Bypassing(nodes: seq<Record>, i: nat, j: nat): (Record?, Record?) {
    (NodeAt(nodes, if j == i + 1 then i - 1 else j - 1), NodeAt(nodes, if j == i - 1 then i + 1 else j + 1))
  }

  lemma ChainedWithout(nodes: seq<Record>, i: nat)
    requires i < |nodes|
    requires forall j: nat {:trigger LinksAt(nodes, j)} | j < |nodes| :: LinksAt(nodes, j) == Bypassing(nodes, i, j)
    ensures Chained(Without(nodes, i))
  {
    var rest := Without(nodes, i);
    forall j | 0 <= j < |rest| ensures LinksAt(rest, j) == (NodeAt(rest, j - 1), NodeAt(rest, j + 1)) {
      var was := if j < i then j else j + 1;
      assert rest[j] == nodes[was];
      assert LinksAt(rest, j) == LinksAt(nodes, was);
    }
  }

  class List {
    var head: Record?
    var bytes: int
    var count: nat
    ghost var nodes: seq<Record>

    ghost predicate Valid()
      reads this, nodes
    {
      head == NodeAt(nodes, 0) && count == |nodes| && Distinct(nodes) && Chained(nodes)
    }

    /** The byte counter is the sum of the clients' sizes. */
    ghost predicate Exact()
      reads this, nodes
    {
      bytes == UserTotal(nodes)
    }

    constructor ()
      ensures Valid() && Exact() && nodes == []
    {
      head, bytes, count, nodes := null, 0, 0, [];
    }

    /** The linking part of large_alloc_aligned. */
    method Insert(la: Record)
      requires Valid() && la !in nodes
      modifies this, la`next, la`prev, nodes`prev
      ensures Valid() && nodes == [la] + old(nodes)
      ensures bytes == old(bytes) + la.userSize && (old(Exact()) ==> Exact())
    {
      ghost var was := nodes;
      la.next := head;
      la.prev := null;
      if head != null {
        head.prev := la;
      }
      head := la;
      bytes := bytes + la.userSize;
      count := count + 1;
      nodes := [la] + nodes;
      assert nodes[1..] == was;
      forall j | 0 <= j < |nodes| ensures LinksAt(nodes, j) == (NodeAt(nodes, j - 1), NodeAt(nodes, j + 1)) {
        if j > 0 { assert old(LinksAt(was, j - 1)) == (NodeAt(was, j - 2), NodeAt(was, j)); }
      }
    }

    /** large_find: the first record whose mapping holds the pointer. */
    method Find(ptr: nat) returns (la: Record?, ghost i: nat)
      requires Valid()
      ensures la == NodeAt(nodes, i) && i <= |nodes|
      ensures forall j | 0 <= j < i :: !nodes[j].Covers(ptr)
      ensures la != null ==> la.Covers(ptr)
    {
      la, i := head, 0;
      while la != null && !la.Covers(ptr)
        invariant i <= |nodes| && la == NodeAt(nodes, i)
        invariant forall j | 0 <= j < i :: !nodes[j].Covers(ptr)
        decreases |nodes| - i
      {
        assert LinksAt(nodes, i) == (NodeAt(nodes, i - 1), NodeAt(nodes, i + 1));
        la, i := la.next, i + 1;
      }
    }

    /** The unlinking part of large_free. */
    method Unlink(la: Record, ghost i: nat)
      requires Valid() && i < |nodes| && nodes[i] == la
      modifies this, nodes`next, nodes`prev
      ensures Valid() && nodes == Without(old(nodes), i)
      ensures bytes == old(bytes) - la.userSize
    {
      ghost var was := nodes;
      assert LinksAt(nodes, i) == (NodeAt(nodes, i - 1), NodeAt(nodes, i + 1));
      if la.prev != null { la.prev.next := la.next; }
      if la.next != null { la.next.prev := la.prev; }
      if head == la { head := la.next; }
      forall j: nat | j < |was|
        ensures LinksAt(was, j) == Bypassing(was, i, j)
      {
        assert old(LinksAt(was, j)) == (NodeAt(was, j - 1), NodeAt(was, j + 1));
      }
      ChainedWithout(was, i);
      bytes := bytes - la.userSize;
      count := count - 1;
      nodes := Without(nodes, i);
    }

    /** large_free: the first covering record goes, and nothing happens when there is none. */
    method Free(ptr: nat) returns (la: Record?, ghost i: nat)
      requires Valid()
      modifies this, nodes`next, nodes`prev
      ensures Valid() && (old(Exact()) ==> Exact())
      ensures la == NodeAt(old(nodes), i) && i <= |old(nodes)|
      ensures forall j | 0 <= j < i :: !old(nodes)[j].Covers(ptr)
      ensures if la == null then nodes == old(nodes) else la.Covers(ptr) && nodes == Without(old(nodes), i)
    {
      la, i := Find(ptr);
      if la != null {
        TotalWithout(nodes, i);
        Unlink(la, i);
      }
    }

    /** The in-place branch of my_realloc, which leaves the byte counter as it is: the counter stays exact
        only when the size does not change. */
    method Resize(la: Record, n: nat, ghost i: nat)
      requires Valid() && i < |nodes| && nodes[i] == la
      modifies la`userSize
      ensures Valid() && la.userSize == n
      ensures old(Exact()) ==> (Exact() <==> n == old(la.userSize))
    {
      ghost var rest := Without(nodes, i);
      assert la !in rest by {
        forall j | 0 <= j < |rest| ensures rest[j] != la { assert rest[j] == nodes[if j < i then j else j + 1]; }
      }
      TotalWithout(nodes, i);
      la.userSize := n;
      TotalWithout(nodes, i);
      assert UserTotal(rest) == old(UserTotal(rest));
    }
  }
}
