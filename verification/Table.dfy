/** The Lua table: array part, hash part, growth. */
module LuaTable {
  import opened TableHash
  import opened TableSizes
  import opened TableLook

  /** Where the value of a key is kept. */
  datatype Slot = InArray(i: nat) | InNode(i: nat)

  datatype Outcome = Done | IndexIsNil | IndexIsNaN | Overflow

  function Empty(n: nat): (ns: seq<Node>)
    ensures |ns| == n && forall i :: 0 <= i < n ==> ns[i] == Node(NoKey, Nil, -1)
  {
    seq(n, _ => Node(NoKey, Nil, -1))
  }

  function Alone(n: nat): (r: seq<set<nat>>)
    ensures |r| == n && forall i :: 0 <= i < n ==> r[i] == {i}
  {
    seq(n, i => {i})
  }

  lemma EmptyOk(n: nat, place: Place)
    ensures HashOk(Empty(n), Alone(n), place)
  {
    forall i | 0 <= i < n ensures ChainAt(Empty(n), Alone(n), i) { }
  }

  function Nils(n: nat): (a: seq<Value>)
    ensures |a| == n && forall i :: 0 <= i < n ==> a[i] == Nil
  {
    seq(n, _ => Nil)
  }

  /** One step along a chain. */
  lemma Along(ns: seq<Node>, r: seq<set<nat>>, i: nat, q: nat)
    requires Chained(ns, r) && i < |ns| && q in r[i] && q != i
    ensures 0 <= ns[i].next < |ns| && q in r[ns[i].next] && |r[ns[i].next]| < |r[i]|
  {
    assert ChainAt(ns, r, i);
  }

  lemma Shrinks(ns: seq<Node>, r: seq<set<nat>>, i: nat)
    requires Chained(ns, r) && i < |ns|
    ensures -1 <= ns[i].next < |ns| && (ns[i].next >= 0 ==> |r[ns[i].next]| < |r[i]|)
    ensures ns[i].next < 0 ==> r[i] == {i}
  {
    assert ChainAt(ns, r, i);
  }

  class Table {
    var array_: seq<Value>
    var node: seq<Node>
    var lastfree: int
    var isDummy: bool
    ghost var r: seq<set<nat>>
    const place: Place

    ghost predicate Valid()
      reads this
    {
      && PlaceOk(place) && 0 < |node| <= MAXASIZE && HashOk(node, r, place) && Outside(array_, node) && |array_| <= MAXASIZE
      && (isDummy ==> node == Empty(1) && lastfree <= 0)
      && (!isDummy ==> lastfree <= |node| && forall i :: 0 <= i < |node| && lastfree <= i ==> !node[i].key.NoKey?)
    }

    ghost function Lookup(k: Key): Value
      reads this
    {
      Look(array_, node, k)
    }

    ghost predicate HasRoom()
      reads this
    {
      !isDummy && exists i :: 0 <= i < |node| && node[i].key.NoKey?
    }

    ghost predicate SlotFor(s: Slot, k: Key)
      reads this
    {
      match s
      case InArray(i) => i < |array_| && k == IntKey(i + 1)
      case InNode(i) => i < |node| && node[i].key == k && Usable(k) && !IntIn(k, |array_|)
    }

    // ------------------------------------------------------------ reading

    /** Walks the chain from the key's main position. */
    method FindNode(k: Key) returns (i: int)
      requires Valid() && !k.NoKey?
      ensures i >= 0 ==> i < |node| && node[i].key == k
      ensures i < 0 ==> Absent(node, k)
    {
      i := place(k, |node|);
      forall q | 0 <= q < |node| && node[q].key == k ensures q in r[i] { assert HomeAt(node, r, place, q); }
      while i >= 0 && node[i].key != k
        invariant -1 <= i < |node|
        invariant forall q :: 0 <= q < |node| && node[q].key == k ==> i >= 0 && q in r[i]
        decreases if i < 0 then 0 else 1 + |r[i]|
      {
        Shrinks(node, r, i);
        forall q | 0 <= q < |node| && node[q].key == k ensures node[i].next >= 0 && q in r[node[i].next] {
          Along(node, r, i, q);
        }
        i := node[i].next;
      }
    }

    /** luaH_get: the value the table has for the key. */
    method Get(k: Key) returns (v: Value)
      requires Valid()
      ensures v == Lookup(k)
    {
      if k.NoKey? {
        HashValAbsent(node, k);
        return Nil;
      }
      if IntIn(k, |array_|) { return array_[k.i - 1]; }
      var i := FindNode(k);
      if i >= 0 {
        HashValAt(node, i);
        return node[i].val;
      }
      HashValAbsent(node, k);
      return Nil;
    }

    // ----------------------------------------------------------- inserting

    method GetFreePos() returns (n: int)
      requires Valid()
      modifies this`lastfree
      ensures n >= 0 ==> !isDummy && n == lastfree < |node| && node[n].key.NoKey? && forall i :: n < i < |node| ==> !node[i].key.NoKey?
      ensures n < 0 ==> Valid() && !HasRoom()
    {
      while lastfree > 0
        invariant isDummy ==> lastfree <= 0
        invariant !isDummy ==> lastfree <= |node| && forall i :: 0 <= i < |node| && lastfree <= i ==> !node[i].key.NoKey?
        decreases lastfree
      {
        lastfree := lastfree - 1;
        if node[lastfree].key.NoKey? { return lastfree; }
      }
      lastfree := lastfree - 1;
      return -1;
    }

    /** newkey, when there is a free place: the key gets a node with no value yet. */
    method PlaceKey(k: Key) returns (i: int)
      requires Valid() && Usable(k) && !IntIn(k, |array_|) && Absent(node, k)
      modifies this`node, this`lastfree, this`r
      ensures Valid() && |node| == |old(node)|
      ensures i < 0 ==> old(!HasRoom()) && node == old(node)
      ensures i >= 0 ==> i < |node| && node[i].key == k && UsedKeys(node) <= old(UsedKeys(node)) + {k}
      ensures forall q :: Lookup(q) == old(Lookup(q))
    {
      hide HashOk, HashVal;
      HashParts(node, r, place);
      var mp := place(k, |node|);
      if node[mp].val != Nil || isDummy {
        var n := GetFreePos();
        if n < 0 { return -1; }
        MainUsed(node, r, place, mp);
        i := PlaceColliding(k, mp, n);
      } else {
        PutHereOk(node, r, place, k);
        HashParts(PutHere(node, mp, k), r, place);
        forall q ensures HashVal(PutHere(node, mp, k), q) == HashVal(node, q) { PutHereLook(node, mp, k, q); }
        node := node[mp := node[mp].(key := k)];
        i := mp;
      }
    }

    /** The main position is taken. */
    method PlaceColliding(k: Key, mp: nat, n: nat) returns (i: nat)
      requires PlaceOk(place) && 0 < |node| <= MAXASIZE && HashOk(node, r, place) && Outside(array_, node) && !isDummy && |array_| <= MAXASIZE
      requires Usable(k) && !IntIn(k, |array_|) && Absent(node, k) && mp == place(k, |node|)
      requires n == lastfree < |node| && node[n].key.NoKey? && (forall i :: n < i < |node| ==> !node[i].key.NoKey?)
      requires !node[mp].key.NoKey?
      modifies this`node, this`r
      ensures Valid() && |node| == |old(node)|
      ensures i < |node| && node[i].key == k && UsedKeys(node) <= old(UsedKeys(node)) + {k}
      ensures forall q :: Lookup(q) == old(Lookup(q))
    {
      hide HashOk, HashVal, Outside, UsedKeys, Absent;
      ghost var ns := node;
      var othern := place(node[mp].key, |node|);
      if othern != mp {
        var prev := FindPrev(mp);
        MovingAll(array_, ns, r, place, mp, prev, n, k);
        node := node[prev := node[prev].(next := n)];
        node := node[n := node[mp]];
        node := node[mp := Node(k, Nil, -1)];
        assert node == PutMoving(ns, mp, prev, n, k);
        r := ReachMoving(r, mp, n);
        i := mp;
      } else {
        BehindAll(array_, ns, r, place, mp, n, k);
        node := node[n := Node(k, Nil, node[mp].next)];
        node := node[mp := node[mp].(next := n)];
        assert node == PutBehind(ns, mp, n, k);
        r := ReachBehind(r, mp, n);
        i := n;
      }
    }

    /** The node that points to mp on the chain from its key's main position. */
    method FindPrev(mp: nat) returns (prev: nat)
      requires PlaceOk(place) && HashOk(node, r, place) && mp < |node| && !node[mp].key.NoKey? && place(node[mp].key, |node|) != mp
      ensures prev < |node| && node[prev].next == mp
    {
      assert HomeAt(node, r, place, mp);
      prev := place(node[mp].key, |node|);
      Along(node, r, prev, mp);
      while node[prev].next != mp
        invariant prev < |node| && prev != mp && mp in r[prev]
        decreases |r[prev]|
      {
        Along(node, r, prev, mp);
        prev := node[prev].next;
      }
    }

    // -------------------------------------------------------------- growing

    /** newkey.  With room for the key (`roomy`) it never rehashes; without, it
        rehashes once and then has room. */
    method NewKey(k: Key, ghost roomy: bool) returns (s: Slot, o: Outcome)
      requires Valid() && Usable(k) && !IntIn(k, |array_|) && Absent(node, k) && (roomy ==> HasRoom())
      modifies this
      ensures roomy ==> o.Done? && array_ == old(array_) && |node| == |old(node)| && isDummy == old(isDummy)
      ensures roomy ==> UsedKeys(node) <= old(UsedKeys(node)) + {k}
      ensures o.Done? || (o.Overflow? && |old(Present(array_, node))| >= MAXASIZE)
      ensures o.Done? ==> Valid() && SlotFor(s, k) && forall q :: Lookup(q) == old(Lookup(q))
      decreases if roomy then 0 else 1, 2
    {
      var i := PlaceKey(k);
      if i >= 0 {
        return InNode(i), Done;
      }
      o := Rehash(k);
      if !o.Done? {
        s := InArray(0);
        return;
      }
      s, o := SetSlot(k, true);
    }

    /** luaH_set: the slot of the key, made if need be. */
    method SetSlot(k: Key, ghost roomy: bool) returns (s: Slot, o: Outcome)
      requires Valid() && (roomy ==> Usable(k) && (IntIn(k, |array_|) || !Absent(node, k) || HasRoom()))
      modifies this
      ensures roomy ==> o.Done? && array_ == old(array_) && |node| == |old(node)| && isDummy == old(isDummy)
      ensures roomy ==> UsedKeys(node) <= old(UsedKeys(node)) + (if IntIn(k, |array_|) then {} else {k})
      ensures k.NoKey? <==> o.IndexIsNil?
      ensures k.NanKey? <==> o.IndexIsNaN?
      ensures o.Overflow? ==> |old(Present(array_, node))| >= MAXASIZE
      ensures o.IndexIsNil? || o.IndexIsNaN? ==> Valid()
      ensures o.Done? ==> SlotFor(s, k)
      ensures !o.Overflow? ==> Valid() && forall q :: Lookup(q) == old(Lookup(q))
      decreases if roomy then 0 else 1, 3
    {
      s := InArray(0);
      if IntIn(k, |array_|) {
        return InArray(k.i - 1), Done;
      }
      if k.NoKey? { return s, IndexIsNil; }
      var i := FindNode(k);
      if i >= 0 {
        LegalAt(node, r, place, i);
        return InNode(i), Done;
      }
      if k.NanKey? { return s, IndexIsNaN; }
      s, o := NewKey(k, roomy);
    }

    /** rehash: sizes for all keys and the extra one, then resize.  Afterwards
        the key fits into the array part, or there is a free node for it. */
    method Rehash(ek: Key) returns (o: Outcome)
      requires Valid() && Usable(ek) && !IntIn(ek, |array_|) && Absent(node, ek)
      modifies this
      ensures o.Done? || (o.Overflow? && |old(Present(array_, node))| >= MAXASIZE)
      ensures o.Overflow? <==> exists n: nat :: BestSize(old(Present(array_, node)) + {ek}, n) && |Beyond(old(Present(array_, node)) + {ek}, n)| > MAXASIZE
      ensures o.Done? ==> Valid() && (forall q :: Lookup(q) == old(Lookup(q)))
      ensures o.Done? ==> BestSize(old(Present(array_, node)) + {ek}, |array_|)
      ensures o.Done? ==> IntIn(ek, |array_|) || HasRoom()
      decreases 1, 1
    {
      hide BestSize, HashOk;
      ghost var ks := Present(array_, node) + {ek};
      var nums, nasize, totaluse := CountKeys(ek);
      var na: nat;
      na, nasize := ComputeSizes(nums, nasize, ks);
      SplitKeys(ks, nasize);
      BeyondLess(Present(array_, node), ek, nasize);
      LaterAll(array_, node, ek);
      BestBound(ks, nasize);
      o := Resize(nasize, totaluse - na);
      forall n: nat | BestSize(ks, n) ensures n == nasize { BestUnique(ks, n, nasize); }
      if o.Done? {
        RoomFor(old(Present(array_, node)), ek, nasize, node, r, place);
      } else {
        OverflowBig(old(Present(array_, node)), ek, nasize);
      }
    }

    /** numusearray, numusehash and countint of the extra key. */
    method CountKeys(ek: Key) returns (nums: seq<nat>, nasize: nat, totaluse: nat)
      requires Valid() && !IntIn(ek, |array_|) && Absent(node, ek)
      ensures |nums| == MAXBITS + 1
      ensures var ks := Present(array_, node) + {ek};
              && (forall b: nat :: b <= MAXBITS ==> nums[b] == |Slice(ks, b)|)
              && nasize == Count(ks, MAXASIZE) && totaluse == |ks|
    {
      hide HashOk, Count, Slice, LaterKeys, ArrayKeys, Present, Pow2, Absent, Outside;
      nums, nasize := NumUseArray();
      totaluse := nasize;
      ghost var seen := ArrayKeys(array_, 0);
      var i := |node|;
      LaterNone(node);
      while i > 0
        invariant 0 <= i <= |node| && Counted(nums, nasize, seen) && totaluse == |seen|
        invariant seen == ArrayKeys(array_, 0) + LaterKeys(node, i)
      {
        i := i - 1;
        LaterMore(array_, node, r, place, i);
        if node[i].val != Nil {
          nums, nasize := CountInt(node[i].key, nums, nasize, seen);
          totaluse := totaluse + 1;
          seen := seen + {node[i].key};
        }
      }
      LaterAll(array_, node, ek);
      nums, nasize := CountInt(ek, nums, nasize, seen);
      totaluse := totaluse + 1;
    }

    /** numusearray: slice by slice. */
    method NumUseArray() returns (nums: seq<nat>, ause: nat)
      requires |array_| <= MAXASIZE
      ensures Counted(nums, ause, ArrayKeys(array_, 0)) && ause == |ArrayKeys(array_, 0)|
    {
      hide Pow2, Counted;
      nums := Zeros();
      ause := 0;
      var i, lg, ttlg := 1, 0, 1;
      CountedNone(array_);
      while lg <= MAXBITS
        invariant lg <= MAXBITS + 1 && ttlg == Pow2(lg) && 1 <= i <= |array_| + 1
        invariant i > |array_| || i == (if lg == 0 then 1 else Pow2(lg - 1) + 1)
        invariant Counted(nums, ause, EarlierKeys(array_, i - 1)) && ause == |EarlierKeys(array_, i - 1)|
        invariant lg == MAXBITS + 1 ==> i > |array_|
        decreases MAXBITS + 1 - lg
      {
        var lc, lim := 0, ttlg;
        if lim > |array_| {
          lim := |array_|;
          if i > lim { break; }
        }
        Pow2Next(lg);
        if lg > 0 { Pow2Next(lg - 1); }
        ghost var i0 := i;
        CountedPlusStart(nums, lg, ause, EarlierKeys(array_, i - 1));
        while i <= lim
          invariant i0 <= i && (i <= lim + 1 || i == i0) && 1 <= i <= |array_| + 1
          invariant CountedPlus(nums, lg, lc, ause, EarlierKeys(array_, i - 1))
        {
          CountedSlot(array_, nums, lg, lc, ause, i);
          if array_[i - 1] != Nil { lc := lc + 1; }
          i := i + 1;
        }
        nums := nums[lg := nums[lg] + lc];
        ause := ause + lc;
        lg := lg + 1;
        ttlg := ttlg * 2;
      }
      assert EarlierKeys(array_, i - 1) == ArrayKeys(array_, 0);
    }

    /** countint. */
    method CountInt(k: Key, nums0: seq<nat>, n0: nat, ghost seen: set<Key>) returns (nums: seq<nat>, n: nat)
      requires Counted(nums0, n0, seen) && k !in seen
      ensures Counted(nums, n, seen + {k})
    {
      CountedMore(nums0, n0, seen, k);
      if IntIn(k, MAXASIZE) {
        var b := CeilLog2(k.i);
        nums, n := nums0[b := nums0[b] + 1], n0 + 1;
      } else {
        nums, n := nums0, n0;
      }
    }

    /** setnodevector. */
    method SetNodeVector(size: nat) returns (o: Outcome)
      modifies this`node, this`lastfree, this`isDummy, this`r
      ensures o == if size > MAXASIZE then Overflow else Done
      ensures o.Done? ==> 0 < |node| <= MAXASIZE && node == Empty(|node|) && r == Alone(|node|) && size <= |node|
      ensures o.Done? ==> isDummy == (size == 0) && lastfree == (if isDummy then 0 else |node|) && (isDummy ==> |node| == 1)
    {
      if size == 0 {
        node, r, isDummy, lastfree := Empty(1), Alone(1), true, 0;
        return Done;
      }
      var lsize := CeilLog2(size);
      if lsize < MAXBITS { Pow2Grows(lsize, MAXBITS); }
      if lsize > MAXBITS {
        if MAXBITS < lsize - 1 { Pow2Grows(MAXBITS, lsize - 1); }
        return Overflow;
      }
      node, r, isDummy, lastfree := Empty(Pow2(lsize)), Alone(Pow2(lsize)), false, Pow2(lsize);
      return Done;
    }

    /** While a table is resized: the keys in rest are still to be moved. */
    ghost predicate Moving(a0: seq<Value>, n0: seq<Node>, nasize: nat, nhsize: nat, rest: set<Key>)
      reads this
    {
      && Valid() && |array_| == nasize && nhsize <= |node| && (nhsize > 0 ==> !isDummy)
      && rest <= Present(a0, n0)
      && (forall q :: Lookup(q) == if q in rest then Nil else Look(a0, n0, q))
      && UsedKeys(node) <= Beyond(Present(a0, n0), nasize) - rest
    }

    method Reinsert(k: Key, v: Value, ghost a0: seq<Value>, ghost n0: seq<Node>, ghost nasize: nat, ghost nhsize: nat, ghost rest: set<Key>)
      requires Moving(a0, n0, nasize, nhsize, rest) && k in rest && v == Look(a0, n0, k) && Usable(k)
      requires |Beyond(Present(a0, n0), nasize)| <= nhsize
      modifies this
      ensures Moving(a0, n0, nasize, nhsize, rest - {k})
      decreases 0, 4
    {
      hide HashOk, Look, UsedKeys;
      if !IntIn(k, nasize) {
        HashParts(node, r, place);
        BeyondRoom(Present(a0, n0), nasize, k, rest);
        Room(node, Beyond(Present(a0, n0), nasize) - {k});
      }
      var s, o := SetSlot(k, true);
      Assign(s, k, v);
    }

    /** resize: the table has new sizes and the same contents. */
    method Resize(nasize: nat, nhsize: nat) returns (o: Outcome)
      requires Valid() && nasize <= MAXASIZE && |Beyond(Present(array_, node), nasize)| <= nhsize
      modifies this
      ensures o == if nhsize > MAXASIZE then Overflow else Done
      ensures o.Done? ==> Valid() && |array_| == nasize && (forall q :: Lookup(q) == old(Lookup(q)))
      ensures o.Done? ==> UsedKeys(node) <= Beyond(old(Present(array_, node)), nasize) && nhsize <= |node| && (nhsize > 0 ==> !isDummy)
      decreases 1, 0
    {
      hide HashOk, Look, UsedKeys, Present, NodeKeys, ArrayKeys, Beyond;
      var olda, oldn := array_, node;
      ghost var r0 := r;
      if nasize > |olda| {
        array_ := olda + Nils(nasize - |olda|);
      }
      o := SetNodeVector(nhsize);
      if !o.Done? { return; }
      if nasize < |olda| {
        array_ := olda[..nasize];
      }
      EmptyOk(|node|, place);
      StartMoving(olda, oldn, r0, place, nasize, array_, node);
      MoveArray(olda, oldn, nasize, nhsize);
      MoveNodes(olda, oldn, r0, nasize, nhsize);
    }

    /** The elements of the vanishing slice. */
    method MoveArray(olda: seq<Value>, ghost oldn: seq<Node>, nasize: nat, ghost nhsize: nat)
      requires Moving(olda, oldn, nasize, nhsize, ArrayKeys(olda, nasize) + NodeKeys(oldn, |oldn|)) && Outside(olda, oldn)
      requires |Beyond(Present(olda, oldn), nasize)| <= nhsize
      modifies this
      ensures Moving(olda, oldn, nasize, nhsize, NodeKeys(oldn, |oldn|))
      decreases 0, 5
    {
      hide HashOk, Look, UsedKeys, Present, NodeKeys, ArrayKeys, Beyond;
      var i := nasize;
      while i < |olda|
        invariant nasize <= i && (i <= |olda| || i == nasize)
        invariant Moving(olda, oldn, nasize, nhsize, ArrayKeys(olda, i) + NodeKeys(oldn, |oldn|))
      {
        NextSlot(olda, oldn, i);
        if olda[i] != Nil {
          Reinsert(IntKey(i + 1), olda[i], olda, oldn, nasize, nhsize, ArrayKeys(olda, i) + NodeKeys(oldn, |oldn|));
        }
        i := i + 1;
      }
      NoSlots(olda, i);
      assert ArrayKeys(olda, i) + NodeKeys(oldn, |oldn|) == NodeKeys(oldn, |oldn|);
    }

    /** The elements of the old hash part. */
    method MoveNodes(ghost olda: seq<Value>, oldn: seq<Node>, ghost r0: seq<set<nat>>, ghost nasize: nat, ghost nhsize: nat)
      requires Moving(olda, oldn, nasize, nhsize, NodeKeys(oldn, |oldn|))
      requires HashOk(oldn, r0, place) && Outside(olda, oldn) && |Beyond(Present(olda, oldn), nasize)| <= nhsize
      modifies this
      ensures Moving(olda, oldn, nasize, nhsize, {})
      decreases 0, 5
    {
      hide HashOk, Look, UsedKeys, Present, NodeKeys, ArrayKeys, Beyond;
      var j := |oldn|;
      while j > 0
        invariant 0 <= j <= |oldn|
        invariant Moving(olda, oldn, nasize, nhsize, NodeKeys(oldn, j))
      {
        j := j - 1;
        NextNode(olda, oldn, r0, place, j);
        if oldn[j].val != Nil {
          Reinsert(oldn[j].key, oldn[j].val, olda, oldn, nasize, nhsize, NodeKeys(oldn, j + 1));
        }
      }
      NoNodes(oldn);
    }

    /** setobj to the slot. */
    method Assign(s: Slot, k: Key, v: Value)
      requires Valid() && SlotFor(s, k)
      modifies this`array_, this`node
      ensures Valid() && |array_| == |old(array_)| && |node| == |old(node)| && UsedKeys(node) == old(UsedKeys(node))
      ensures Lookup(k) == v && forall q :: q != k ==> Lookup(q) == old(Lookup(q))
    {
      hide HashVal, HashOk;
      HashParts(node, r, place);
      match s
      case InArray(i) => array_ := array_[i := v];
      case InNode(i) =>
        WriteLook(node, i, v, k);
        forall q ensures HashVal(node[i := node[i].(val := v)], q) == if q == k then v else HashVal(node, q) { WriteLook(node, i, v, q); }
        WriteOk(node, r, place, i, v);
        node := node[i := node[i].(val := v)];
    }

    /** t[k] = v. */
    method Put(k: Key, v: Value) returns (o: Outcome)
      requires Valid()
      modifies this
      ensures k.NoKey? <==> o.IndexIsNil?
      ensures k.NanKey? <==> o.IndexIsNaN?
      ensures o.Overflow? ==> |old(Present(array_, node))| >= MAXASIZE
      ensures !o.Overflow? ==> Valid() && forall q :: Lookup(q) == if q == k && o.Done? then v else old(Lookup(q))
    {
      var s: Slot;
      s, o := SetSlot(k, false);
      if o.Done? { Assign(s, k, v); }
    }

    /** luaH_new. */
    constructor (hash: Place, narray: nat, nhash: nat)
      requires PlaceOk(hash) && narray <= MAXASIZE && nhash <= MAXASIZE
      ensures Valid() && (forall q :: Lookup(q) == Nil) && |array_| == narray && nhash <= |node|
    {
      place := hash;
      array_ := Nils(narray);
      new;
      var o := SetNodeVector(nhash);
      EmptyOk(|node|, place);
      forall q ensures HashVal(Empty(|node|), q) == Nil { EmptyLook(|node|, q); }
    }

    /** luaH_resizearray, which the interpreter calls to enlarge the array part. */
    method ResizeArray(nasize: nat) returns (o: Outcome)
      requires Valid() && |array_| <= nasize <= MAXASIZE
      modifies this
      ensures o.Done? && Valid() && |array_| == nasize && forall q :: Lookup(q) == old(Lookup(q))
    {
      hide HashOk, Look, UsedKeys;
      var nsize := if isDummy then 0 else |node|;
      DemandFits(array_, node, r, place, nasize);
      o := Resize(nasize, nsize);
    }

    // ---------------------------------------------------------- traversal

    /** The key at a traversal index: first the array part, then the nodes. */
    function KeyAt(i: nat): Key
      reads this
      requires i < |array_| + |node|
    {
      if i < |array_| then IntKey(i + 1) else node[i - |array_|].key
    }

    function ValueAt(i: nat): Value
      reads this
      requires i < |array_| + |node|
    {
      if i < |array_| then array_[i] else node[i - |array_|].val
    }

    lemma KeyAtFacts(i: nat, j: nat)
      requires Valid() && i < |array_| + |node| && j < |array_| + |node| && i != j && !KeyAt(i).NoKey?
      ensures KeyAt(i) != KeyAt(j) && Lookup(KeyAt(i)) == ValueAt(i)
    {
      if i >= |array_| { HashValAt(node, i - |array_|); }
    }

    lemma ValueLook(i: nat)
      requires Valid() && i < |array_| + |node| && ValueAt(i) != Nil
      ensures !KeyAt(i).NoKey? && Lookup(KeyAt(i)) == ValueAt(i)
    {
      HashParts(node, r, place);
      if i >= |array_| { HashValAt(node, i - |array_|); }
    }

    /** findindex: -1 before the first key; none for a key that is not there. */
    method FindIndex(k: Key) returns (i: int, ok: bool)
      requires Valid()
      ensures k.NoKey? ==> ok && i == -1
      ensures !k.NoKey? && ok ==> 0 <= i < |array_| + |node| && KeyAt(i) == k
      ensures !ok <==> !k.NoKey? && forall j :: 0 <= j < |array_| + |node| ==> KeyAt(j) != k
    {
      if k.NoKey? { return -1, true; }
      if IntIn(k, |array_|) {
        assert KeyAt(k.i - 1) == k;
        return k.i - 1, true;
      }
      var n := FindNode(k);
      if n >= 0 {
        assert KeyAt(n + |array_|) == k;
        return n + |array_|, true;
      }
      return 0, false;
    }

    /** luaH_next: the next index with a value, if any. */
    method Next(k: Key) returns (i: nat, found: bool, ok: bool)
      requires Valid()
      ensures !ok <==> !k.NoKey? && forall j :: 0 <= j < |array_| + |node| ==> KeyAt(j) != k
      ensures ok && found ==> i < |array_| + |node| && ValueAt(i) != Nil
      ensures ok && !found ==> i == |array_| + |node|
      ensures ok ==> exists i0 :: IndexOf(k, i0) && i0 < i && forall j :: i0 < j < i ==> ValueAt(j) == Nil
    {
      var i0: int;
      i0, ok := FindIndex(k);
      found, i := false, 0;
      if !ok { return; }
      assert IndexOf(k, i0);
      i := i0 + 1;
      while i < |array_|
        invariant i0 < i <= |array_| + |node| && forall j :: i0 < j < i ==> ValueAt(j) == Nil
        decreases |array_| + |node| - i
      {
        if array_[i] != Nil {
          found := true;
          return;
        }
        i := i + 1;
      }
      while i - |array_| < |node|
        invariant i0 < i <= |array_| + |node| && |array_| <= i && forall j :: i0 < j < i ==> ValueAt(j) == Nil
      {
        if node[i - |array_|].val != Nil {
          found := true;
          return;
        }
        i := i + 1;
      }
    }

    ghost predicate IndexOf(k: Key, i: int)
      reads this
    {
      if k.NoKey? then i == -1 else 0 <= i < |array_| + |node| && KeyAt(i) == k
    }

    /** Following next from nil visits every key with a value exactly once. */
    method Traverse() returns (ks: seq<Key>)
      requires Valid()
      ensures forall q :: q in ks <==> Lookup(q) != Nil
      ensures forall i, j :: 0 <= i < j < |ks| ==> ks[i] != ks[j]
    {
      ks := [];
      var k, found, ok, i: nat := NoKey, true, true, 0;
      ghost var at := -1;
      while found
        invariant -1 <= at < |array_| + |node| && IndexOf(k, at) && (at >= 0 ==> !k.NoKey?)
        invariant forall q :: q in ks <==> q in Visited(at)
        invariant forall i, j :: 0 <= i < j < |ks| ==> ks[i] != ks[j]
        invariant !found ==> forall j :: at < j < |array_| + |node| ==> ValueAt(j) == Nil
        decreases |array_| + |node| - at, found
      {
        i, found, ok := Next(k);
        OnlyIndex(k, at);
        if found {
          ghost var at0 := at;
          k := KeyAt(i);
          at := i;
          ValueLook(i);
          VisitedNext(i, at0);
          ks := ks + [k];
        }
      }
      forall q ensures q in ks <==> Lookup(q) != Nil { Reached(q, at); }
    }

    lemma OnlyIndex(k: Key, i: int)
      requires Valid() && IndexOf(k, i)
      ensures forall j :: IndexOf(k, j) ==> j == i
    {
      forall j | IndexOf(k, j) ensures j == i {
        if i >= 0 && j >= 0 && i != j { KeyAtFacts(i, j); }
      }
    }

    function Visited(at: int): set<Key>
      reads this
      requires at < |array_| + |node|
    {
      set j | 0 <= j <= at && ValueAt(j) != Nil :: KeyAt(j)
    }

    lemma VisitedNext(i: nat, at: int)
      requires Valid() && -1 <= at < i < |array_| + |node| && !KeyAt(i).NoKey? && ValueAt(i) != Nil
      requires forall j :: at < j < i ==> ValueAt(j) == Nil
      ensures KeyAt(i) !in Visited(at) && Visited(i) == Visited(at) + {KeyAt(i)}
    {
      forall j | 0 <= j <= at ensures KeyAt(j) != KeyAt(i) { KeyAtFacts(i, j); }
    }

    lemma Reached(q: Key, at: int)
      requires Valid() && -1 <= at < |array_| + |node| && forall j :: at < j < |array_| + |node| ==> ValueAt(j) == Nil
      ensures Lookup(q) != Nil <==> q in Visited(at)
    {
      if Lookup(q) != Nil {
        if IntIn(q, |array_|) {
          assert ValueAt(q.i - 1) != Nil && KeyAt(q.i - 1) == q;
        } else {
          var n :| PresentAt(node, n, q) && node[n].val != Nil;
          assert ValueAt(|array_| + n) != Nil && KeyAt(|array_| + n) == q;
        }
      }
      if q in Visited(at) {
        var j :| 0 <= j <= at && ValueAt(j) != Nil && KeyAt(j) == q;
        ValueLook(j);
      }
    }

    // ------------------------------------------------------------- length

    /** An index with a value whose successor has none. */
    ghost predicate Boundary(n: nat)
      reads this
    {
      (n == 0 || Lookup(IntKey(n)) != Nil) && Lookup(IntKey(n + 1)) == Nil
    }

    /** luaH_getn: some boundary of the table. */
    method GetN() returns (n: nat)
      requires Valid()
      ensures Boundary(n)
    {
      var j := |array_|;
      if j > 0 && array_[j - 1] == Nil {
        n := 0;
        while j - n > 1
          invariant 0 <= n < j <= |array_| && array_[j - 1] == Nil && (n == 0 || array_[n - 1] != Nil)
          decreases j - n
        {
          var m := (n + j) / 2;
          if array_[m - 1] == Nil { j := m; } else { n := m; }
        }
        return;
      }
      if isDummy {
        EmptyLook(1, IntKey(j + 1));
        return j;
      }
      n := UnboundSearch(j);
    }

    method UnboundSearch(j0: nat) returns (i: nat)
      requires Valid() && (j0 == 0 || Lookup(IntKey(j0)) != Nil)
      ensures Boundary(i)
    {
      hide Look, HashOk;
      i := j0;
      var j := j0 + 1;
      var v := Get(IntKey(j));
      while v != Nil
        invariant i < j && j > 0 && v == Lookup(IntKey(j)) && (i == 0 || Lookup(IntKey(i)) != Nil)
        decreases if j > MAX_INT then 0 else 1 + MAX_INT - j
      {
        i := j;
        j := j * 2;
        if j > MAX_INT {
          i := LinearSearch();
          return;
        }
        v := Get(IntKey(j));
      }
      while j - i > 1
        invariant i < j && Lookup(IntKey(j)) == Nil && (i == 0 || Lookup(IntKey(i)) != Nil)
        decreases j - i
      {
        var m := (i + j) / 2;
        v := Get(IntKey(m));
        if v == Nil { j := m; } else { i := m; }
      }
    }

    method LinearSearch() returns (i: nat)
      requires Valid()
      ensures Boundary(i)
    {
      hide Look, HashOk;
      HashParts(node, r, place);
      i := 0;
      var v := Get(IntKey(1));
      AllPresent(array_, node, 0);
      while v != Nil
        invariant v == Lookup(IntKey(i + 1)) && (forall q :: 1 <= q <= i ==> Lookup(IntKey(q)) != Nil)
        invariant i <= |Present(array_, node)|
        decreases |Present(array_, node)| - i
      {
        i := i + 1;
        AllPresent(array_, node, i);
        v := Get(IntKey(i + 1));
      }
    }

    // --------------------------------------------------------- whole runs

    /** After any assignments and enlargements the table is the finite map that
        the assignments describe.  It overflows only when that map has outgrown
        the largest hash part. */
    method Replay(ops: seq<Op>) returns (o: Outcome)
      requires Valid() && forall q :: Lookup(q) == Nil
      modifies this
      ensures o.Done? || (o.Overflow? && exists j :: 0 <= j < |ops| && |MapOf(ops[..j])| >= MAXASIZE)
      ensures o.Done? ==> Valid() && forall q :: Lookup(q) == MapGet(MapOf(ops), q)
    {
      hide Look, HashOk, Present;
      var i := 0;
      while i < |ops|
        invariant 0 <= i <= |ops| && Valid() && forall q :: Lookup(q) == MapGet(MapOf(ops[..i]), q)
      {
        assert ops[..i + 1][..i] == ops[..i];
        PresentMapped(array_, node, r, place, MapOf(ops[..i]));
        match ops[i] {
        case Assign(k, v) => o := Put(k, v);
        case Enlarge(n) =>
          o := Done;
          if |array_| <= n <= MAXASIZE { o := ResizeArray(n); }
        }
        if o.Overflow? { return; }
        i := i + 1;
      }
      assert ops[..i] == ops;
      return Done;
    }
  }

  const MAX_INT: nat := 0x7fffffff - 2

  /** Assigning to nil or NaN is an error and changes nothing. */
  datatype Op = Assign(k: Key, v: Value) | Enlarge(n: nat)

  ghost function MapOf(ops: seq<Op>): map<Key, Value> {
    if ops == [] then map[]
    else
      var m := MapOf(ops[..|ops| - 1]);
      match ops[|ops| - 1]
      case Assign(k, v) => if !Usable(k) then m else if v == Nil then m - {k} else m[k := v]
      case Enlarge(_) => m
  }

  ghost function MapGet(m: map<Key, Value>, k: Key): Value {
    if k in m then m[k] else Nil
  }

  /** A table that is the map m has no more keys than m. */
  lemma PresentMapped(a: seq<Value>, ns: seq<Node>, r: seq<set<nat>>, place: Place, m: map<Key, Value>)
    requires HashOk(ns, r, place) && Outside(a, ns) && forall q :: Look(a, ns, q) == MapGet(m, q)
    ensures |Present(a, ns)| <= |m|
  {
    hide Look, Present;
    HashParts(ns, r, place);
    forall q | q in Present(a, ns) ensures q in m { PresentIs(a, ns, q); }
    Smaller(Present(a, ns), m.Keys);
    assert |m.Keys| == |m|;
  }

  lemma {:induction false} IntsCounted(ks: set<Key>, n: nat)
    requires forall q :: 1 <= q <= n ==> IntKey(q) in ks
    ensures Count(ks, n) == n
  {
    if n == 0 {
      assert InRange(ks, 0) == {};
    } else {
      IntsCounted(ks, n - 1);
      assert InRange(ks, n) == InRange(ks, n - 1) + {IntKey(n)};
    }
  }

  /** A table with n consecutive integer keys has at least n keys. */
  lemma AllPresent(a: seq<Value>, ns: seq<Node>, n: nat)
    requires Distinct(ns) && Outside(a, ns) && ValuesKeyed(ns)
    requires forall q :: 1 <= q <= n ==> Look(a, ns, IntKey(q)) != Nil
    ensures n <= |Present(a, ns)|
  {
    forall q | 1 <= q <= n ensures IntKey(q) in Present(a, ns) { PresentIs(a, ns, IntKey(q)); }
    IntsCounted(Present(a, ns), n);
    Smaller(InRange(Present(a, ns), n), Present(a, ns));
  }

  lemma DemandFits(a: seq<Value>, ns: seq<Node>, r: seq<set<nat>>, place: Place, nasize: nat)
    requires HashOk(ns, r, place) && |a| <= nasize
    ensures |Beyond(Present(a, ns), nasize)| <= |ns|
    ensures (forall i :: 0 <= i < |ns| ==> ns[i].val == Nil) ==> |Beyond(Present(a, ns), nasize)| == 0
  {
    assert Beyond(Present(a, ns), nasize) <= NodeKeys(ns, |ns|);
    NodeKeysBound(ns, |ns|);
    Smaller(Beyond(Present(a, ns), nasize), NodeKeys(ns, |ns|));
    if forall i :: 0 <= i < |ns| ==> ns[i].val == Nil { assert NodeKeys(ns, |ns|) == {}; }
  }

  lemma {:induction false} NodeKeysBound(ns: seq<Node>, n: nat)
    requires n <= |ns|
    ensures |NodeKeys(ns, n)| <= n
  {
    if n == 0 {
      assert NodeKeys(ns, 0) == {};
    } else {
      NodeKeysBound(ns, n - 1);
      assert NodeKeys(ns, n) <= NodeKeys(ns, n - 1) + {ns[n - 1].key};
      Smaller(NodeKeys(ns, n), NodeKeys(ns, n - 1) + {ns[n - 1].key});
    }
  }

  lemma LegalAt(ns: seq<Node>, r: seq<set<nat>>, place: Place, i: nat)
    requires HashOk(ns, r, place) && i < |ns|
    ensures !ns[i].key.NanKey?
  {
  }

  lemma WriteOk(ns: seq<Node>, r: seq<set<nat>>, place: Place, i: nat, v: Value)
    requires HashOk(ns, r, place) && i < |ns| && !ns[i].key.NoKey?
    ensures HashOk(ns[i := ns[i].(val := v)], r, place)
    ensures UsedKeys(ns[i := ns[i].(val := v)]) == UsedKeys(ns)
  {
    var ns' := ns[i := ns[i].(val := v)];
    forall j | 0 <= j < |ns| ensures ChainAt(ns', r, j) && HomeAt(ns', r, place, j) {
      assert ChainAt(ns, r, j) && HomeAt(ns, r, place, j);
    }
    assert forall j :: 0 <= j < |ns| ==> ns'[j].key == ns[j].key;
  }

  // ------------------------------------------------------ counting keys

  ghost predicate Counted(nums: seq<nat>, n: nat, seen: set<Key>) {
    && |nums| == MAXBITS + 1 && n == Count(seen, MAXASIZE)
    && forall b: nat :: b <= MAXBITS ==> nums[b] == |Slice(seen, b)|
  }

  function Zeros(): seq<nat> {
    seq(MAXBITS + 1, _ => 0)
  }

  function LaterKeys(ns: seq<Node>, i: nat): set<Key> {
    set j | i <= j < |ns| && ns[j].val != Nil :: ns[j].key
  }

  function EarlierKeys(a: seq<Value>, i: nat): set<Key> {
    set j | 0 <= j < i && j < |a| && a[j] != Nil :: IntKey(j + 1)
  }

  lemma CountedNone(a: seq<Value>)
    ensures EarlierKeys(a, 0) == {} && Counted(Zeros(), 0, {}) && Pow2(0) == 1
  {
    assert InRange({}, MAXASIZE) == {};
    forall b: nat | b <= MAXBITS ensures |Slice({}, b)| == 0 { assert Slice({}, b) == {}; }
  }

  lemma CountedMore(nums: seq<nat>, n: nat, seen: set<Key>, k: Key)
    requires Counted(nums, n, seen) && k !in seen
    ensures !IntIn(k, MAXASIZE) ==> Counted(nums, n, seen + {k})
    ensures IntIn(k, MAXASIZE) ==> CeilLog2(k.i) <= MAXBITS && Counted(nums[CeilLog2(k.i) := nums[CeilLog2(k.i)] + 1], n + 1, seen + {k})
  {
    hide Pow2, Slice, Count;
    CountMore(seen, k, MAXASIZE);
    forall b: nat | b <= MAXBITS ensures |Slice(seen + {k}, b)| == |Slice(seen, b)| + (if InSlice(k, b) then 1 else 0) {
      SliceMore(seen, k, b);
    }
    if IntIn(k, MAXASIZE) {
      var c := CeilLog2(k.i);
      if c > MAXBITS + 1 { Pow2Grows(MAXBITS, c - 1); }
      assert InSlice(k, c);
      forall b: nat | b <= MAXBITS ensures InSlice(k, b) <==> b == c { SliceOf(k, c, b); }
    } else {
      forall b: nat | b <= MAXBITS ensures !InSlice(k, b) { if b < MAXBITS { Pow2Grows(b, MAXBITS); } }
    }
  }

  ghost predicate CountedPlus(nums: seq<nat>, lg: nat, lc: nat, ause: nat, seen: set<Key>) {
    lg < |nums| && Counted(nums[lg := nums[lg] + lc], ause + lc, seen) && ause + lc == |seen|
  }

  lemma CountedPlusStart(nums: seq<nat>, lg: nat, ause: nat, seen: set<Key>)
    requires Counted(nums, ause, seen) && ause == |seen| && lg <= MAXBITS
    ensures CountedPlus(nums, lg, 0, ause, seen)
  {
    assert nums[lg := nums[lg] + 0] == nums;
  }

  lemma CountedSlot(a: seq<Value>, nums: seq<nat>, lg: nat, lc: nat, ause: nat, i: nat)
    requires 1 <= i <= |a| <= MAXASIZE && CountedPlus(nums, lg, lc, ause, EarlierKeys(a, i - 1)) && lg <= MAXBITS
    requires i <= Pow2(lg) && (lg > 0 ==> Pow2(lg - 1) < i)
    ensures CountedPlus(nums, lg, if a[i - 1] != Nil then lc + 1 else lc, ause, EarlierKeys(a, i))
  {
    hide Pow2, Counted;
    var seen, k := EarlierKeys(a, i - 1), IntKey(i);
    if a[i - 1] != Nil {
      assert EarlierKeys(a, i) == seen + {k};
      CountedMore(nums[lg := nums[lg] + lc], ause + lc, seen, k);
      assert InSlice(k, lg) && InSlice(k, CeilLog2(i));
      SliceOf(k, lg, CeilLog2(i));
      assert nums[lg := nums[lg] + lc][lg := nums[lg] + lc + 1] == nums[lg := nums[lg] + (lc + 1)];
    } else {
      assert EarlierKeys(a, i) == seen;
    }
  }

  lemma LaterMore(a: seq<Value>, ns: seq<Node>, r: seq<set<nat>>, place: Place, i: nat)
    requires HashOk(ns, r, place) && Outside(a, ns) && i < |ns|
    ensures ns[i].val != Nil ==> LaterKeys(ns, i) == LaterKeys(ns, i + 1) + {ns[i].key}
    ensures ns[i].val == Nil ==> LaterKeys(ns, i) == LaterKeys(ns, i + 1)
    ensures ns[i].val != Nil ==> ns[i].key !in ArrayKeys(a, 0) + LaterKeys(ns, i + 1)
  {
  }

  lemma LaterNone(ns: seq<Node>)
    ensures LaterKeys(ns, |ns|) == {}
  {
  }

  lemma LaterAll(a: seq<Value>, ns: seq<Node>, ek: Key)
    requires !IntIn(ek, |a|) && Absent(ns, ek)
    ensures ArrayKeys(a, 0) + LaterKeys(ns, 0) == Present(a, ns) && ek !in Present(a, ns)
  {
    assert LaterKeys(ns, 0) == NodeKeys(ns, |ns|);
  }

  // -------------------------------------------------------- moving keys

  /** The keys that do not fit into an array part of size n. */
  function Beyond(ks: set<Key>, n: nat): set<Key> {
    set k | k in ks && !IntIn(k, n)
  }

  lemma SplitKeys(ks: set<Key>, n: nat)
    ensures |Beyond(ks, n)| + Count(ks, n) == |ks|
  {
    assert ks == Beyond(ks, n) + InRange(ks, n);
  }

  lemma BeyondRoom(ks: set<Key>, n: nat, k: Key, rest: set<Key>)
    requires k in rest && rest <= ks && !IntIn(k, n)
    ensures k in Beyond(ks, n) && |Beyond(ks, n) - {k}| < |Beyond(ks, n)|
    ensures Beyond(ks, n) - rest <= Beyond(ks, n) - {k}
  {
  }

  lemma BeyondMore(ks: set<Key>, ek: Key, n: nat)
    requires ek !in ks
    ensures |Beyond(ks + {ek}, n)| == |Beyond(ks, n)| + (if IntIn(ek, n) then 0 else 1)
  {
    if IntIn(ek, n) {
      assert Beyond(ks + {ek}, n) == Beyond(ks, n);
    } else {
      assert Beyond(ks + {ek}, n) == Beyond(ks, n) + {ek};
    }
  }

  lemma EmptyLook(n: nat, k: Key)
    ensures HashVal(Empty(n), k) == Nil && UsedKeys(Empty(n)) == {}
  {
    assert forall i :: !PresentAt(Empty(n), i, k);
  }

  /** The new table before anything is moved. */
  lemma StartMoving(a0: seq<Value>, n0: seq<Node>, r0: seq<set<nat>>, place: Place, nasize: nat, a: seq<Value>, ns: seq<Node>)
    requires HashOk(n0, r0, place) && Outside(a0, n0) && ns == Empty(|ns|)
    requires a == if nasize > |a0| then a0 + Nils(nasize - |a0|) else a0[..nasize]
    ensures var rest := ArrayKeys(a0, nasize) + NodeKeys(n0, |n0|);
            && rest <= Present(a0, n0) && UsedKeys(ns) == {} && Outside(a, ns)
            && forall q :: Look(a, ns, q) == if q in rest then Nil else Look(a0, n0, q)
  {
    var rest := ArrayKeys(a0, nasize) + NodeKeys(n0, |n0|);
    HashParts(n0, r0, place);
    forall q ensures Look(a, ns, q) == if q in rest then Nil else Look(a0, n0, q) {
      PresentIs(a0, n0, q);
      EmptyLook(|ns|, q);
    }
    EmptyLook(|ns|, NoKey);
  }

  lemma NextSlot(a0: seq<Value>, n0: seq<Node>, i: nat)
    requires i < |a0|
    ensures a0[i] == Nil ==> ArrayKeys(a0, i) == ArrayKeys(a0, i + 1)
    ensures a0[i] != Nil && Outside(a0, n0) ==>
              ArrayKeys(a0, i) + NodeKeys(n0, |n0|) - {IntKey(i + 1)} == ArrayKeys(a0, i + 1) + NodeKeys(n0, |n0|)
    ensures a0[i] != Nil ==> IntKey(i + 1) in ArrayKeys(a0, i)
    ensures Look(a0, n0, IntKey(i + 1)) == a0[i]
  {
    if a0[i] != Nil && Outside(a0, n0) {
      assert ArrayKeys(a0, i) == ArrayKeys(a0, i + 1) + {IntKey(i + 1)};
      assert IntKey(i + 1) !in NodeKeys(n0, |n0|);
    }
  }

  lemma NoSlots(a0: seq<Value>, i: nat)
    requires i >= |a0|
    ensures ArrayKeys(a0, i) == {}
  {
  }

  lemma NoNodes(n0: seq<Node>)
    ensures NodeKeys(n0, 0) == {}
  {
  }

  lemma NextNode(a0: seq<Value>, n0: seq<Node>, r0: seq<set<nat>>, place: Place, j: nat)
    requires HashOk(n0, r0, place) && Outside(a0, n0) && j < |n0|
    ensures n0[j].val == Nil ==> NodeKeys(n0, j + 1) == NodeKeys(n0, j)
    ensures n0[j].val != Nil ==> n0[j].key in NodeKeys(n0, j + 1) && NodeKeys(n0, j + 1) - {n0[j].key} == NodeKeys(n0, j)
    ensures n0[j].val != Nil ==> Usable(n0[j].key) && Look(a0, n0, n0[j].key) == n0[j].val
  {
    HashParts(n0, r0, place);
    if n0[j].val != Nil { HashValAt(n0, j); }
  }

  lemma RoomFor(ks: set<Key>, ek: Key, n: nat, ns: seq<Node>, r: seq<set<nat>>, place: Place)
    requires HashOk(ns, r, place) && ek !in ks && UsedKeys(ns) <= Beyond(ks, n) && |Beyond(ks + {ek}, n)| <= |ns|
    ensures IntIn(ek, n) || exists i :: 0 <= i < |ns| && ns[i].key.NoKey?
  {
    BeyondMore(ks, ek, n);
    if !IntIn(ek, n) { Room(ns, Beyond(ks, n)); }
  }

  lemma OverflowBig(ks: set<Key>, ek: Key, n: nat)
    ensures |Beyond(ks + {ek}, n)| > MAXASIZE ==> |ks| >= MAXASIZE
  {
    Smaller(Beyond(ks + {ek}, n), ks + {ek});
    if ek in ks { assert ks + {ek} == ks; }
  }

  lemma BestBound(ks: set<Key>, n: nat)
    requires BestSize(ks, n)
    ensures n <= MAXASIZE
  {
    if n != 0 {
      var p: nat :| p <= MAXBITS && n == Pow2(p) && Worthy(ks, n);
      if p < MAXBITS { Pow2Grows(p, MAXBITS); }
    }
  }

  lemma BeyondLess(ks: set<Key>, ek: Key, n: nat)
    ensures |Beyond(ks, n)| <= |Beyond(ks + {ek}, n)|
  {
    Smaller(Beyond(ks, n), Beyond(ks + {ek}, n));
  }

  lemma HashParts(ns: seq<Node>, r: seq<set<nat>>, place: Place)
    requires HashOk(ns, r, place)
    ensures |r| == |ns| && Distinct(ns) && Legal(ns) && ValuesKeyed(ns)
  {
  }

  lemma MainUsed(ns: seq<Node>, r: seq<set<nat>>, place: Place, mp: nat)
    requires HashOk(ns, r, place) && mp < |ns|
    ensures ns[mp].val != Nil ==> !ns[mp].key.NoKey?
  {
  }

  /** All that matters about the nodes after an insertion. */
  ghost predicate Grown(a: seq<Value>, ns: seq<Node>, ns': seq<Node>, r': seq<set<nat>>, place: Place, n: nat, k: Key) {
    && HashOk(ns', r', place) && |ns'| == |ns| && Outside(a, ns')
    && UsedKeys(ns') <= UsedKeys(ns) + {k}
    && (forall q :: HashVal(ns', q) == HashVal(ns, q))
    && (forall i :: n <= i < |ns'| ==> !ns'[i].key.NoKey?)
  }

  lemma MovingAll(a: seq<Value>, ns: seq<Node>, r: seq<set<nat>>, place: Place, mp: nat, prev: nat, n: nat, k: Key)
    requires PlaceOk(place) && |ns| > 0 && HashOk(ns, r, place) && Outside(a, ns)
    requires Usable(k) && !IntIn(k, |a|) && Absent(ns, k) && mp == place(k, |ns|)
    requires n < |ns| && ns[n].key.NoKey? && (forall i :: n < i < |ns| ==> !ns[i].key.NoKey?)
    requires !ns[mp].key.NoKey? && place(ns[mp].key, |ns|) != mp && prev < |ns| && ns[prev].next == mp
    ensures |r| == |ns| && prev != mp && prev != n
    ensures Grown(a, ns, PutMoving(ns, mp, prev, n, k), ReachMoving(r, mp, n), place, n, k)
  {
    hide HashOk, HashVal, Absent;
    var ns' := PutMoving(ns, mp, prev, n, k);
    HashParts(ns, r, place);
    PrevApart(ns, r, place, mp, prev, n);
    PutMovingOk(ns, r, place, prev, n, k);
    HashParts(ns', ReachMoving(r, mp, n), place);
    forall q ensures HashVal(ns', q) == HashVal(ns, q) { PutMovingLook(ns, mp, prev, n, k, q); }
  }

  lemma BehindAll(a: seq<Value>, ns: seq<Node>, r: seq<set<nat>>, place: Place, mp: nat, n: nat, k: Key)
    requires PlaceOk(place) && |ns| > 0 && HashOk(ns, r, place) && Outside(a, ns)
    requires Usable(k) && !IntIn(k, |a|) && Absent(ns, k) && mp == place(k, |ns|)
    requires n < |ns| && ns[n].key.NoKey? && (forall i :: n < i < |ns| ==> !ns[i].key.NoKey?)
    requires !ns[mp].key.NoKey? && place(ns[mp].key, |ns|) == mp
    ensures |r| == |ns| && Grown(a, ns, PutBehind(ns, mp, n, k), ReachBehind(r, mp, n), place, n, k)
  {
    hide HashOk, HashVal, Absent;
    var ns' := PutBehind(ns, mp, n, k);
    HashParts(ns, r, place);
    PutBehindOk(ns, r, place, n, k);
    HashParts(ns', ReachBehind(r, mp, n), place);
    forall q ensures HashVal(ns', q) == HashVal(ns, q) { PutBehindLook(ns, mp, n, k, q); }
  }

  lemma PrevApart(ns: seq<Node>, r: seq<set<nat>>, place: Place, mp: nat, prev: nat, n: nat)
    requires HashOk(ns, r, place) && mp < |ns| && prev < |ns| && n < |ns| && ns[n].key.NoKey? && mp != n && ns[prev].next == mp
    ensures prev != n && prev != mp
  {
    MovingFacts(ns, r, mp, prev, n, prev);
  }
}
