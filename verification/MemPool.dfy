/** The node pool of the timer: a fixed block of nodes with the free list
    threaded through them, and the system allocator when they are all in use. */
module MemoryPool {

  /** A node holds the index of the next free node, or belongs to the caller. */
  datatype Cell = Free(next: int) | Taken

  class MemPool {
    const capacity: nat
    var buf: seq<Cell>
    var freeNode: int
    var nalloc: int
    /** Addresses from the system allocator: numbers from capacity on. */
    var outside: set<nat>
    /** The free list. */
    ghost var free: seq<nat>

    ghost predicate Valid()
      reads this
    {
      && capacity > 0 && |buf| == capacity
      && freeNode == (if free == [] then -1 else free[0])
      && (forall i :: 0 <= i < |free| ==> LinkAt(buf, free, i))
      && (forall i, j :: 0 <= i < j < |free| ==> free[i] != free[j])
      && (forall n: nat :: n < capacity && buf[n].Free? ==> n in free)
      && nalloc + |free| == capacity
      && (forall n :: n in outside ==> n >= capacity)
    }

    /** The nodes handed out and not given back. */
    ghost function Allocated(): set<nat>
      reads this
    {
      (set n: nat | n < |buf| && buf[n].Taken?) + outside
    }

    constructor (n: nat)
      requires n > 0
      ensures Valid() && Allocated() == {} && capacity == n
    {
      capacity := n;
      new;
      nalloc, freeNode, outside := 0, 0, {};
      buf := Chain(n);
      free := Upto(n);
      forall i: nat | i < n ensures i in Upto(n) { assert Upto(n)[i] == i; }
    }

    /** alloc: a node nobody has. */
    method Alloc() returns (p: nat)
      requires Valid()
      modifies this
      ensures Valid() && p !in old(Allocated()) && Allocated() == old(Allocated()) + {p}
    {
      if nalloc >= capacity {
        p := Fresh();
        outside := outside + {p};
        return;
      }
      p := freeNode;
      assert LinkAt(buf, free, 0);
      ghost var f := free;
      freeNode := buf[p].next;
      buf := buf[p := Taken];
      nalloc := nalloc + 1;
      free := f[1..];
      forall i | 0 <= i < |free| ensures LinkAt(buf, free, i) {
        assert LinkAt(old(buf), f, i + 1) && f[i + 1] != f[0];
      }
    }

    /** The system allocator: an address not in use. */
    method Fresh() returns (p: nat)
      ensures p >= capacity && p !in outside
    {
      p := capacity;
      ghost var seen: set<nat> := {};
      while p in outside
        invariant p >= capacity && seen <= outside && (forall q :: capacity <= q < p ==> q in seen) && (forall q :: q in seen ==> q < p)
        decreases |outside - seen|
      {
        seen := seen + {p};
        p := p + 1;
      }
    }

    /** free: the node can be handed out again. */
    method Release(p: nat)
      requires Valid() && p in Allocated()
      modifies this
      ensures Valid() && Allocated() == old(Allocated()) - {p}
    {
      if p >= capacity {
        outside := outside - {p};
        return;
      }
      ghost var old_ := free;
      forall i | 0 <= i < |free| ensures free[i] != p { assert LinkAt(buf, free, i); }
      buf := buf[p := Free(freeNode)];
      freeNode := p;
      nalloc := nalloc - 1;
      free := [p] + free;
      forall i | 0 <= i < |free| ensures LinkAt(buf, free, i) {
        if i > 0 { assert LinkAt(old(buf), old_, i - 1); }
      }
    }
  }

  /** The i-th free node points to the next one. */
  ghost predicate LinkAt(buf: seq<Cell>, free: seq<nat>, i: nat)
    requires i < |free|
  {
    free[i] < |buf| && buf[free[i]] == Free(if i + 1 < |free| then free[i + 1] else -1)
  }

  function Chain(n: nat): (b: seq<Cell>)
    ensures |b| == n && forall i :: 0 <= i < n ==> b[i] == Free(if i + 1 < n then i + 1 else -1)
  {
    seq(n, i requires 0 <= i < n => Free(if i + 1 < n then i + 1 else -1))
  }

  function Upto(n: nat): (s: seq<nat>)
    ensures |s| == n && forall i :: 0 <= i < n ==> s[i] == i
  {
    seq(n, i => i)
  }
}
