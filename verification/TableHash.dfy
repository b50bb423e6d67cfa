/** The hash part of a Lua table: a chained scatter table with Brent's variation.
    Chains are threaded through the nodes; next is -1 at their end. */
module TableHash {

  /** Integer-valued numbers may live in the array part; NaN is no legal key. */
  datatype Key = NoKey | IntKey(i: int) | NanKey | OtherKey(id: nat)

  datatype Value = Nil | Some(n: int)

  datatype Node = Node(key: Key, val: Value, next: int)

  /** The main position of a key among n nodes: an arbitrary hash function. */
  type Place = (Key, nat) -> nat

  ghost predicate PlaceOk(place: Place) {
    forall k, n: nat :: n > 0 ==> place(k, n) < n
  }

  /** r[i] are the nodes on the chain from node i on; no chain runs in a circle. */
  ghost predicate ChainAt(ns: seq<Node>, r: seq<set<nat>>, i: nat)
    requires i < |ns| == |r|
  {
    && -1 <= ns[i].next < |ns|
    && (ns[i].next < 0 ==> r[i] == {i})
    && (ns[i].next >= 0 ==> i !in r[ns[i].next] && r[i] == {i} + r[ns[i].next])
    && (forall j :: j in r[i] ==> j < |ns|)
  }

  ghost predicate Chained(ns: seq<Node>, r: seq<set<nat>>) {
    |r| == |ns| && forall i :: 0 <= i < |ns| ==> ChainAt(ns, r, i)
  }

  /** At most one node points to a node. */
  ghost predicate OneWay(ns: seq<Node>) {
    forall i, j :: 0 <= i < |ns| && 0 <= j < |ns| && i != j && ns[i].next >= 0 ==> ns[i].next != ns[j].next
  }

  /** A node that never had a key is empty and on no chain. */
  ghost predicate FreeAlone(ns: seq<Node>, r: seq<set<nat>>)
    requires |r| == |ns|
  {
    forall i :: 0 <= i < |ns| && ns[i].key.NoKey? ==>
      ns[i].next == -1 && ns[i].val == Nil && forall j :: 0 <= j < |ns| && j != i ==> i !in r[j]
  }

  ghost predicate Distinct(ns: seq<Node>) {
    forall i, j :: 0 <= i < |ns| && 0 <= j < |ns| && i != j && ns[i].key == ns[j].key ==> ns[i].key.NoKey?
  }

  ghost predicate Legal(ns: seq<Node>) {
    forall i :: 0 <= i < |ns| ==> !ns[i].key.NanKey?
  }

  /** Every key is on the chain from its main position; and if it is not there
      itself, the occupant is in its own main position. */
  ghost predicate HomeAt(ns: seq<Node>, r: seq<set<nat>>, place: Place, i: nat)
    requires i < |ns| == |r|
  {
    ns[i].key.NoKey? ||
    var p := place(ns[i].key, |ns|);
    p < |ns| && i in r[p] && (p != i ==> !ns[p].key.NoKey? && place(ns[p].key, |ns|) == p)
  }

  ghost predicate Homed(ns: seq<Node>, r: seq<set<nat>>, place: Place)
    requires |r| == |ns|
  {
    forall i :: 0 <= i < |ns| ==> HomeAt(ns, r, place, i)
  }

  ghost predicate HashOk(ns: seq<Node>, r: seq<set<nat>>, place: Place) {
    && Chained(ns, r) && OneWay(ns) && FreeAlone(ns, r) && Distinct(ns) && Legal(ns) && Homed(ns, r, place)
  }

  ghost predicate Absent(ns: seq<Node>, k: Key) {
    forall i :: 0 <= i < |ns| ==> ns[i].key != k
  }

  ghost predicate Usable(k: Key) {
    !k.NoKey? && !k.NanKey?
  }

  // ------------------------------------------- reusing the main position

  function PutHere(ns: seq<Node>, mp: nat, k: Key): seq<Node>
    requires mp < |ns|
  {
    ns[mp := ns[mp].(key := k)]
  }

  /** The main position is free, or its old key is dead: the key goes there. */
  lemma PutHereOk(ns: seq<Node>, r: seq<set<nat>>, place: Place, k: Key)
    requires HashOk(ns, r, place) && PlaceOk(place) && Usable(k) && Absent(ns, k) && |ns| > 0
    requires ns[place(k, |ns|)].val == Nil
    ensures HashOk(PutHere(ns, place(k, |ns|), k), r, place)
  {
    var mp := place(k, |ns|);
    var ns' := PutHere(ns, mp, k);
    SelfReach(ns, r, mp);
    forall i | 0 <= i < |ns| ensures ChainAt(ns', r, i) && HomeAt(ns', r, place, i) {
      assert ChainAt(ns, r, i) && HomeAt(ns, r, place, i);
    }
  }

  // --------------------------------------------- behind the main position

  /** The colliding node is in its main position: the new key goes to the free
      node n, second in the chain. */
  function PutBehind(ns: seq<Node>, mp: nat, n: nat, k: Key): seq<Node>
    requires mp < |ns| && n < |ns|
  {
    ns[n := Node(k, Nil, ns[mp].next)][mp := ns[mp].(next := n)]
  }

  function ReachBehind(r: seq<set<nat>>, mp: nat, n: nat): (r': seq<set<nat>>)
    requires mp < |r|
    ensures |r'| == |r|
  {
    seq(|r|, i requires 0 <= i < |r| =>
      if i == n then {n} + (r[mp] - {mp}) else if mp in r[i] then r[i] + {n} else r[i])
  }

  lemma SelfReach(ns: seq<Node>, r: seq<set<nat>>, i: nat)
    requires Chained(ns, r) && i < |ns|
    ensures i in r[i]
  {
    assert ChainAt(ns, r, i);
  }

  lemma BehindChained(ns: seq<Node>, r: seq<set<nat>>, mp: nat, n: nat, k: Key)
    requires Chained(ns, r) && FreeAlone(ns, r) && mp < |ns| && n < |ns| && ns[n].key.NoKey? && mp != n
    ensures Chained(PutBehind(ns, mp, n, k), ReachBehind(r, mp, n))
  {
    var ns', r' := PutBehind(ns, mp, n, k), ReachBehind(r, mp, n);
    forall i | 0 <= i < |ns| ensures ChainAt(ns', r', i) {
      assert ChainAt(ns, r, i) && ChainAt(ns, r, mp) && ChainAt(ns, r, n);
      assert n !in r[mp] && (i != n ==> n !in r[i]);
      if ns[i].next >= 0 && i != n { SelfReach(ns, r, ns[i].next); }
      if ns[mp].next >= 0 { SelfReach(ns, r, ns[mp].next); }
    }
  }

  lemma PutBehindOk(ns: seq<Node>, r: seq<set<nat>>, place: Place, n: nat, k: Key)
    requires HashOk(ns, r, place) && PlaceOk(place) && Usable(k) && Absent(ns, k) && |ns| > 0
    requires var mp := place(k, |ns|); !ns[mp].key.NoKey? && place(ns[mp].key, |ns|) == mp && mp != n
    requires n < |ns| && ns[n].key.NoKey?
    ensures HashOk(PutBehind(ns, place(k, |ns|), n, k), ReachBehind(r, place(k, |ns|), n), place)
  {
    var mp := place(k, |ns|);
    var ns', r' := PutBehind(ns, mp, n, k), ReachBehind(r, mp, n);
    BehindChained(ns, r, mp, n, k);
    BehindOneWay(ns, r, mp, n, k);
    BehindFree(ns, r, mp, n, k);
    BehindHomed(ns, r, place, n, k);
  }

  lemma BehindOneWay(ns: seq<Node>, r: seq<set<nat>>, mp: nat, n: nat, k: Key)
    requires Chained(ns, r) && OneWay(ns) && FreeAlone(ns, r) && mp < |ns| && n < |ns| && ns[n].key.NoKey? && mp != n
    ensures OneWay(PutBehind(ns, mp, n, k))
  {
    var ns' := PutBehind(ns, mp, n, k);
    forall i | 0 <= i < |ns| ensures ns[i].next != n {
      assert ChainAt(ns, r, i);
      if ns[i].next >= 0 { SelfReach(ns, r, ns[i].next); }
    }
  }

  lemma BehindFree(ns: seq<Node>, r: seq<set<nat>>, mp: nat, n: nat, k: Key)
    requires Chained(ns, r) && FreeAlone(ns, r) && mp < |ns| && n < |ns| && ns[n].key.NoKey? && mp != n
    requires !ns[mp].key.NoKey? && Usable(k)
    ensures FreeAlone(PutBehind(ns, mp, n, k), ReachBehind(r, mp, n))
  {
    var ns', r' := PutBehind(ns, mp, n, k), ReachBehind(r, mp, n);
    forall i, j | 0 <= i < |ns| && 0 <= j < |ns| && ns'[i].key.NoKey? && j != i ensures i !in r'[j] {
      assert i !in r[mp] && i !in r[j];
    }
  }

  lemma BehindHomed(ns: seq<Node>, r: seq<set<nat>>, place: Place, n: nat, k: Key)
    requires Chained(ns, r) && Homed(ns, r, place) && PlaceOk(place) && |ns| > 0 && Usable(k)
    requires var mp := place(k, |ns|); !ns[mp].key.NoKey? && place(ns[mp].key, |ns|) == mp && mp != n
    requires n < |ns| && ns[n].key.NoKey?
    ensures Homed(PutBehind(ns, place(k, |ns|), n, k), ReachBehind(r, place(k, |ns|), n), place)
  {
    var mp := place(k, |ns|);
    var ns', r' := PutBehind(ns, mp, n, k), ReachBehind(r, mp, n);
    SelfReach(ns, r, mp);
    forall i | 0 <= i < |ns| ensures HomeAt(ns', r', place, i) {
      assert HomeAt(ns, r, place, i);
    }
  }

  // --------------------------------------------- moving the colliding node

  /** The colliding node is not in its main position: it moves to the free node
      n, its predecessor prev follows it, and the new key takes its place. */
  function PutMoving(ns: seq<Node>, mp: nat, prev: nat, n: nat, k: Key): seq<Node>
    requires mp < |ns| && prev < |ns| && n < |ns|
  {
    ns[prev := ns[prev].(next := n)][n := ns[mp]][mp := Node(k, Nil, -1)]
  }

  function ReachMoving(r: seq<set<nat>>, mp: nat, n: nat): (r': seq<set<nat>>)
    requires mp < |r|
    ensures |r'| == |r|
  {
    seq(|r|, i requires 0 <= i < |r| =>
      if i == mp then {mp}
      else if i == n then {n} + (r[mp] - {mp})
      else if mp in r[i] then r[i] - {mp} + {n} else r[i])
  }

  ghost predicate Movable(ns: seq<Node>, r: seq<set<nat>>, mp: nat, prev: nat, n: nat) {
    && Chained(ns, r) && OneWay(ns) && FreeAlone(ns, r)
    && mp < |ns| && prev < |ns| && n < |ns| && ns[n].key.NoKey? && mp != n && ns[prev].next == mp
  }

  lemma MovingFacts(ns: seq<Node>, r: seq<set<nat>>, mp: nat, prev: nat, n: nat, i: nat)
    requires Movable(ns, r, mp, prev, n) && i < |ns|
    ensures ChainAt(ns, r, i) && i in r[i] && (i != n ==> n !in r[i]) && prev != mp && prev != n
    ensures ns[i].next != n && (i != prev ==> ns[i].next != mp)
    ensures ns[i].next >= 0 ==> ns[i].next in r[ns[i].next]
  {
    assert ChainAt(ns, r, i) && ChainAt(ns, r, prev) && ChainAt(ns, r, n);
    SelfReach(ns, r, i);
    SelfReach(ns, r, mp);
    if ns[i].next >= 0 { SelfReach(ns, r, ns[i].next); }
  }

  lemma MovingChained(ns: seq<Node>, r: seq<set<nat>>, mp: nat, prev: nat, n: nat, k: Key)
    requires Movable(ns, r, mp, prev, n)
    ensures Chained(PutMoving(ns, mp, prev, n, k), ReachMoving(r, mp, n))
  {
    var ns', r' := PutMoving(ns, mp, prev, n, k), ReachMoving(r, mp, n);
    hide Movable, Chained;
    forall i | 0 <= i < |ns| ensures ChainAt(ns', r', i) {
      MovingFacts(ns, r, mp, prev, n, i);
      MovingFacts(ns, r, mp, prev, n, mp);
      MovingFacts(ns, r, mp, prev, n, n);
      if ns[i].next >= 0 { MovingFacts(ns, r, mp, prev, n, ns[i].next); }
      if ns[mp].next >= 0 { MovingFacts(ns, r, mp, prev, n, ns[mp].next); }
    }
    ChainedIs(ns', r');
  }

  lemma ChainedIs(ns: seq<Node>, r: seq<set<nat>>)
    requires |r| == |ns| && forall i :: 0 <= i < |ns| ==> ChainAt(ns, r, i)
    ensures Chained(ns, r)
  {
  }

  lemma MovingOneWay(ns: seq<Node>, r: seq<set<nat>>, mp: nat, prev: nat, n: nat, k: Key)
    requires Movable(ns, r, mp, prev, n)
    ensures OneWay(PutMoving(ns, mp, prev, n, k))
  {
    var ns' := PutMoving(ns, mp, prev, n, k);
    forall i | 0 <= i < |ns| ensures ns[i].next != n && (i != prev ==> ns[i].next != mp) {
      MovingFacts(ns, r, mp, prev, n, i);
    }
  }

  lemma MovingFree(ns: seq<Node>, r: seq<set<nat>>, mp: nat, prev: nat, n: nat, k: Key)
    requires Movable(ns, r, mp, prev, n) && !ns[mp].key.NoKey? && Usable(k)
    ensures FreeAlone(PutMoving(ns, mp, prev, n, k), ReachMoving(r, mp, n))
  {
    var ns', r' := PutMoving(ns, mp, prev, n, k), ReachMoving(r, mp, n);
    MovingFacts(ns, r, mp, prev, n, prev);
    assert !ns[prev].key.NoKey?;
    forall i, j | 0 <= i < |ns| && 0 <= j < |ns| && ns'[i].key.NoKey? && j != i ensures i !in r'[j] {
      assert i !in r[mp] && i !in r[j];
    }
  }

  lemma MovingHomed(ns: seq<Node>, r: seq<set<nat>>, place: Place, prev: nat, n: nat, k: Key)
    requires PlaceOk(place) && |ns| > 0 && Usable(k)
    requires var mp := place(k, |ns|);
             Movable(ns, r, mp, prev, n) && !ns[mp].key.NoKey? && place(ns[mp].key, |ns|) != mp && Homed(ns, r, place)
    ensures Homed(PutMoving(ns, place(k, |ns|), prev, n, k), ReachMoving(r, place(k, |ns|), n), place)
  {
    var mp := place(k, |ns|);
    var ns', r' := PutMoving(ns, mp, prev, n, k), ReachMoving(r, mp, n);
    MovingFacts(ns, r, mp, prev, n, mp);
    MovingFacts(ns, r, mp, prev, n, n);
    assert HomeAt(ns, r, place, mp);
    forall i | 0 <= i < |ns| ensures HomeAt(ns', r', place, i) {
      assert HomeAt(ns, r, place, i);
      MovingFacts(ns, r, mp, prev, n, i);
    }
  }

  lemma PutMovingOk(ns: seq<Node>, r: seq<set<nat>>, place: Place, prev: nat, n: nat, k: Key)
    requires HashOk(ns, r, place) && PlaceOk(place) && Usable(k) && Absent(ns, k) && |ns| > 0
    requires var mp := place(k, |ns|); !ns[mp].key.NoKey? && place(ns[mp].key, |ns|) != mp && mp != n
    requires prev < |ns| && ns[prev].next == place(k, |ns|)
    requires n < |ns| && ns[n].key.NoKey?
    ensures HashOk(PutMoving(ns, place(k, |ns|), prev, n, k), ReachMoving(r, place(k, |ns|), n), place)
  {
    hide Chained, OneWay, FreeAlone, Homed;
    var mp := place(k, |ns|);
    MovingChained(ns, r, mp, prev, n, k);
    MovingOneWay(ns, r, mp, prev, n, k);
    MovingFree(ns, r, mp, prev, n, k);
    MovingHomed(ns, r, place, prev, n, k);
    MovingFacts(ns, r, mp, prev, n, prev);
  }
}
