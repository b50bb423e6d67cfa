/** What a table contains: its array part and its hash part read as one map. */
module TableLook {
  import opened TableHash
  import opened TableSizes

  predicate PresentAt(ns: seq<Node>, i: int, k: Key) {
    0 <= i < |ns| && ns[i].key == k && !k.NoKey?
  }

  /** The value of a key in the hash part. */
  ghost function HashVal(ns: seq<Node>, k: Key): Value {
    if exists i :: PresentAt(ns, i, k) then
      var i :| PresentAt(ns, i, k);
      ns[i].val
    else Nil
  }

  /** The value of a key in the table. */
  ghost function Look(a: seq<Value>, ns: seq<Node>, k: Key): Value {
    if IntIn(k, |a|) then a[k.i - 1] else HashVal(ns, k)
  }

  lemma HashValAt(ns: seq<Node>, i: nat)
    requires Distinct(ns) && i < |ns| && !ns[i].key.NoKey?
    ensures HashVal(ns, ns[i].key) == ns[i].val
  {
    assert PresentAt(ns, i, ns[i].key);
  }

  lemma HashValAbsent(ns: seq<Node>, k: Key)
    requires Absent(ns, k) || k.NoKey?
    ensures HashVal(ns, k) == Nil
  {
  }

  /** Nodes with the same keys and values, up to keys without a value. */
  ghost predicate Carries(ns: seq<Node>, ns': seq<Node>) {
    forall i :: 0 <= i < |ns| && !ns[i].key.NoKey? && ns[i].val != Nil ==>
      exists j :: PresentAt(ns', j, ns[i].key) && ns'[j].val == ns[i].val
  }

  lemma CarriesOver(ns: seq<Node>, ns': seq<Node>, k: Key)
    requires Distinct(ns) && Distinct(ns') && Carries(ns, ns')
    ensures HashVal(ns, k) != Nil ==> HashVal(ns', k) == HashVal(ns, k)
  {
    if HashVal(ns, k) != Nil {
      var i :| PresentAt(ns, i, k) && ns[i].val != Nil;
      HashValAt(ns, i);
      var j :| PresentAt(ns', j, k) && ns'[j].val == ns[i].val;
      HashValAt(ns', j);
    }
  }

  lemma CarriesSame(ns: seq<Node>, ns': seq<Node>, k: Key)
    requires Distinct(ns) && Distinct(ns') && Carries(ns, ns') && Carries(ns', ns)
    ensures HashVal(ns', k) == HashVal(ns, k)
  {
    CarriesOver(ns, ns', k);
    CarriesOver(ns', ns, k);
  }

  lemma PutHereLook(ns: seq<Node>, mp: nat, k: Key, q: Key)
    requires mp < |ns| && ns[mp].val == Nil && Distinct(ns) && Distinct(PutHere(ns, mp, k))
    ensures HashVal(PutHere(ns, mp, k), q) == HashVal(ns, q)
  {
    var ns' := PutHere(ns, mp, k);
    assert forall i :: 0 <= i < |ns| && i != mp ==> PresentAt(ns', i, ns[i].key) == PresentAt(ns, i, ns[i].key);
    forall i | 0 <= i < |ns| && !ns[i].key.NoKey? && ns[i].val != Nil
      ensures exists j :: PresentAt(ns', j, ns[i].key) && ns'[j].val == ns[i].val { assert PresentAt(ns', i, ns[i].key); }
    forall i | 0 <= i < |ns| && !ns'[i].key.NoKey? && ns'[i].val != Nil
      ensures exists j :: PresentAt(ns, j, ns'[i].key) && ns[j].val == ns'[i].val { assert PresentAt(ns, i, ns'[i].key); }
    CarriesSame(ns, ns', q);
  }

  lemma PutBehindLook(ns: seq<Node>, mp: nat, n: nat, k: Key, q: Key)
    requires mp < |ns| && n < |ns| && mp != n && ns[n].key.NoKey? && Distinct(ns) && Distinct(PutBehind(ns, mp, n, k))
    ensures HashVal(PutBehind(ns, mp, n, k), q) == HashVal(ns, q)
  {
    var ns' := PutBehind(ns, mp, n, k);
    forall i | 0 <= i < |ns| && !ns[i].key.NoKey? && ns[i].val != Nil
      ensures exists j :: PresentAt(ns', j, ns[i].key) && ns'[j].val == ns[i].val { assert PresentAt(ns', i, ns[i].key); }
    forall i | 0 <= i < |ns| && !ns'[i].key.NoKey? && ns'[i].val != Nil
      ensures exists j :: PresentAt(ns, j, ns'[i].key) && ns[j].val == ns'[i].val { assert PresentAt(ns, i, ns'[i].key); }
    CarriesSame(ns, ns', q);
  }

  lemma PutMovingLook(ns: seq<Node>, mp: nat, prev: nat, n: nat, k: Key, q: Key)
    requires mp < |ns| && prev < |ns| && n < |ns| && mp != n && prev != n && prev != mp
    requires ns[n].key.NoKey? && Distinct(ns) && Distinct(PutMoving(ns, mp, prev, n, k))
    ensures HashVal(PutMoving(ns, mp, prev, n, k), q) == HashVal(ns, q)
  {
    var ns' := PutMoving(ns, mp, prev, n, k);
    forall i | 0 <= i < |ns| && !ns[i].key.NoKey? && ns[i].val != Nil
      ensures exists j :: PresentAt(ns', j, ns[i].key) && ns'[j].val == ns[i].val
    {
      assert PresentAt(ns', if i == mp then n else i, ns[i].key);
    }
    forall i | 0 <= i < |ns| && !ns'[i].key.NoKey? && ns'[i].val != Nil
      ensures exists j :: PresentAt(ns, j, ns'[i].key) && ns[j].val == ns'[i].val
    {
      assert PresentAt(ns, if i == n then mp else i, ns'[i].key);
    }
    CarriesSame(ns, ns', q);
  }

  /** Writing a value into the node of a key. */
  lemma WriteLook(ns: seq<Node>, i: nat, v: Value, q: Key)
    requires i < |ns| && !ns[i].key.NoKey? && Distinct(ns)
    ensures HashVal(ns[i := ns[i].(val := v)], q) == if q == ns[i].key then v else HashVal(ns, q)
  {
    var ns' := ns[i := ns[i].(val := v)];
    assert forall j :: 0 <= j < |ns| ==> ns'[j].key == ns[j].key;
    if q == ns[i].key {
      HashValAt(ns', i);
    } else if exists j :: PresentAt(ns, j, q) {
      var j :| PresentAt(ns, j, q);
      HashValAt(ns, j);
      HashValAt(ns', j);
    } else {
      assert forall j :: !PresentAt(ns', j, q) || PresentAt(ns, j, q);
    }
  }

  // ------------------------------------------------------------- key sets

  /** All keys of the nodes, with or without a value. */
  function UsedKeys(ns: seq<Node>): set<Key> {
    set i | 0 <= i < |ns| && !ns[i].key.NoKey? :: ns[i].key
  }

  function NodeKeys(ns: seq<Node>, n: nat): set<Key> {
    set i | 0 <= i < n && i < |ns| && ns[i].val != Nil :: ns[i].key
  }

  function ArrayKeys(a: seq<Value>, from: nat): set<Key> {
    set i | from <= i < |a| && a[i] != Nil :: IntKey(i + 1)
  }

  /** The keys with a value. */
  function Present(a: seq<Value>, ns: seq<Node>): set<Key> {
    ArrayKeys(a, 0) + NodeKeys(ns, |ns|)
  }

  ghost predicate Outside(a: seq<Value>, ns: seq<Node>) {
    forall i :: 0 <= i < |ns| ==> !IntIn(ns[i].key, |a|)
  }

  ghost predicate ValuesKeyed(ns: seq<Node>) {
    forall i :: 0 <= i < |ns| && ns[i].key.NoKey? ==> ns[i].val == Nil
  }

  lemma PresentIs(a: seq<Value>, ns: seq<Node>, k: Key)
    requires Distinct(ns) && Outside(a, ns) && ValuesKeyed(ns)
    ensures k in Present(a, ns) <==> Look(a, ns, k) != Nil
  {
    forall i | 0 <= i < |ns| && ns[i].val != Nil ensures PresentAt(ns, i, ns[i].key) { }
    if IntIn(k, |a|) {
      assert k == IntKey((k.i - 1) + 1);
    } else if exists i :: PresentAt(ns, i, k) {
      var i :| PresentAt(ns, i, k);
      HashValAt(ns, i);
    }
  }

  /** With all nodes in use there are as many keys as nodes. */
  lemma {:induction false} AllUsed(ns: seq<Node>)
    requires Distinct(ns) && forall i :: 0 <= i < |ns| ==> !ns[i].key.NoKey?
    ensures |UsedKeys(ns)| == |ns|
  {
    if ns != [] {
      var m := |ns| - 1;
      var pre := ns[..m];
      AllUsed(pre);
      assert UsedKeys(ns) == UsedKeys(pre) + {ns[m].key} by {
        forall k | k in UsedKeys(ns) ensures k in UsedKeys(pre) + {ns[m].key} {
          var i :| 0 <= i < |ns| && !ns[i].key.NoKey? && ns[i].key == k;
          if i < m { assert pre[i].key == k; }
        }
        forall k | k in UsedKeys(pre) ensures k in UsedKeys(ns) {
          var i :| 0 <= i < m && !pre[i].key.NoKey? && pre[i].key == k;
          assert ns[i].key == k;
        }
      }
    }
  }

  /** So with fewer keys than nodes there is a free node. */
  lemma Room(ns: seq<Node>, ks: set<Key>)
    requires Distinct(ns) && UsedKeys(ns) <= ks && |ks| < |ns|
    ensures exists i :: 0 <= i < |ns| && ns[i].key.NoKey?
  {
    Smaller(UsedKeys(ns), ks);
    if forall i :: 0 <= i < |ns| ==> !ns[i].key.NoKey? { AllUsed(ns); }
  }
}
