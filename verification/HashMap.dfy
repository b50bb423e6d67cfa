/** The hash map with an embedded list of all entries. */
module HashMapT {
  import opened LinkedNodes

  datatype Key = Key(id: int)

  type Hash = Key -> nat

  /** The slot h holds exactly the entries whose keys hash there; entries newer
      than the last rehash come before older ones, the newest first. */
  ghost predicate SlotOk(next: Field, prev: Field, head: int, l: seq<nat>, key: map<nat, Key>, hash: Hash, n: nat, h: nat, epoch: nat)
    requires n > 0
  {
    && List(next, prev, head, l)
    && (forall x :: x in l <==> x in key && hash(key[x]) % n == h)
    && (forall i, j :: 0 <= i < j < |l| && l[j] >= epoch ==> l[j] < l[i])
  }

  ghost predicate TableOk(next: Field, prev: Field, table: seq<int>, buckets: seq<seq<nat>>, key: map<nat, Key>, hash: Hash, epoch: nat) {
    && |table| == |buckets| > 0
    && forall h :: 0 <= h < |table| ==> SlotOk(next, prev, table[h], buckets[h], key, hash, |table|, h, epoch)
  }

  // -------------------------------------------------------------- lookups

  /** The first entry for k in the list, and the last one. */
  ghost function FirstFor(l: seq<nat>, key: map<nat, Key>, k: Key): int {
    if l == [] then NULL else if l[0] in key && key[l[0]] == k then l[0] else FirstFor(l[1..], key, k)
  }

  ghost function LastFor(l: seq<nat>, key: map<nat, Key>, k: Key): int {
    if l == [] then NULL
    else
      var e := l[|l| - 1];
      if e in key && key[e] == k then e else LastFor(l[..|l| - 1], key, k)
  }

  /** The entry that a lookup meets first in the bucket of k. */
  ghost function FirstIn(buckets: seq<seq<nat>>, key: map<nat, Key>, hash: Hash, k: Key): int
    requires |buckets| > 0
  {
    FirstFor(buckets[hash(k) % |buckets|], key, k)
  }

  /** Lookups of k find e; all others are as before. */
  ghost predicate NowFound(buckets: seq<seq<nat>>, key: map<nat, Key>, buckets': seq<seq<nat>>, key': map<nat, Key>, hash: Hash, e: nat, k: Key) {
    && |buckets| > 0 && |buckets'| > 0
    && forall j :: FirstIn(buckets', key', hash, j) == if j == k then e as int else FirstIn(buckets, key, hash, j)
  }

  /** The entries of l that hash to h, the last one first. */
  ghost function Chain(l: seq<nat>, key: map<nat, Key>, hash: Hash, n: nat, h: nat): seq<nat>
    requires n > 0 && forall x :: x in l ==> x in key
  {
    if l == [] then []
    else
      var m, e := l[..|l| - 1], l[|l| - 1];
      (if hash(key[e]) % n == h then [e] else []) + Chain(m, key, hash, n, h)
  }

  class HashMap {
    const hash: Hash
    var table: seq<int>
    var linkHead: int
    var size: nat
    var key: map<nat, Key>
    var data: map<nat, int>
    var next: Field
    var prev: Field
    var linkNext: Field
    var linkPrev: Field
    var last: nat
    ghost var buckets: seq<seq<nat>>
    ghost var link: seq<nat>
    ghost var epoch: nat

    /** Every entry is in exactly one bucket and once in the list of all. */
    ghost predicate Valid()
      reads this
    {
      && TableOk(next, prev, table, buckets, key, hash, epoch)
      && List(linkNext, linkPrev, linkHead, link) && (forall x :: x in link <==> x in key)
      && size == |link| && data.Keys == key.Keys
      && epoch <= last && forall x :: x in key ==> x < last
    }

    /** What find returns. */
    ghost function Lookup(k: Key): int
      requires Valid()
      reads this
    {
      TableSlots(next, prev, table, buckets, key, hash, epoch);
      FirstIn(buckets, key, hash, k)
    }

    constructor (f: Hash, n: nat)
      requires n > 0
      ensures Valid() && link == [] && key == map[] && size == 0 && |table| == n && hash == f
    {
      hash := f;
      table, linkHead, size, last := NoHeads(n), NULL, 0, 0;
      key, data, next, prev, linkNext, linkPrev := map[], map[], map[], map[], map[], map[];
      buckets, link, epoch := NoLists(n), [], 0;
    }

    /** find: the first entry for the key in its bucket, or none.  It is the newest
        since the last rehash, if there is one. */
    method Find(k: Key) returns (e: int)
      requires Valid()
      ensures e >= 0 <==> exists x :: x in key && key[x] == k
      ensures e >= 0 ==> e in key && key[e] == k && forall x :: x in key && key[x] == k && x >= epoch ==> x <= e
      ensures e == Lookup(k) && (e >= 0 || e == NULL)
    {
      hide TableOk, List, SlotOk;
      TableSlots(next, prev, table, buckets, key, hash, epoch);
      var h := hash(k) % |table|;
      ghost var l := buckets[h];
      ghost var i := 0;
      SlotHead(next, prev, table, buckets, key, hash, epoch, h);
      e := table[h];
      while e >= 0 && key[e] != k
        invariant 0 <= i <= |l| && e == (if i < |l| then l[i] else NULL)
        invariant e >= 0 ==> e in key
        invariant forall j :: 0 <= j < i ==> l[j] in key && key[l[j]] != k
        decreases |l| - i
      {
        SlotStep(next, prev, table, buckets, key, hash, epoch, h, i);
        e := next[e];
        i := i + 1;
      }
      SlotFind(next, prev, table, buckets, key, hash, epoch, k, i);
      FirstIs(l, key, k, i);
    }

    /** insert: a new entry at the head of its bucket and of the list of all. */
    method Insert(k: Key, v: int) returns (e: nat)
      requires Valid()
      modifies this
      ensures Valid() && e !in old(key) && key == old(key)[e := k] && data == old(data)[e := v]
      ensures link == [e] + old(link) && size == old(size) + 1 && e >= epoch == old(epoch) && |table| == |old(table)|
      ensures forall j :: Lookup(j) == if j == k then e as int else old(Lookup(j))
    {
      hide TableOk, List, FirstIn;
      e := last;
      last := last + 1;
      AttachBucket(e, k);
      data := data[e := v];
      key := key[e := k];
      AttachLinkHead(e);
      size := size + 1;
    }

    method AttachBucket(e: nat, k: Key)
      requires TableOk(next, prev, table, buckets, key, hash, epoch) && e !in key && epoch <= e && forall x :: x in key ==> x < e
      modifies this`table, this`next, this`prev, this`buckets
      ensures TableOk(next, prev, table, buckets, key[e := k], hash, epoch) && |table| == |old(table)| == |old(buckets)|
      ensures NowFound(old(buckets), key, buckets, key[e := k], hash, e, k)
    {
      hide TableOk, NowFound;
      TableSlots(next, prev, table, buckets, key, hash, epoch);
      var h := hash(k) % |table|;
      PutTable(next, prev, table, buckets, key, hash, epoch, e, k);
      PutLookup(next, prev, table, buckets, key, hash, epoch, e, k);
      if table[h] >= 0 { prev := prev[table[h] as nat := e]; }
      next := next[e := table[h]];
      prev := prev[e := NULL];
      table := table[h := e];
      buckets := buckets[h := [e] + buckets[h]];
    }

    method DetachBucket(e: nat)
      requires TableOk(next, prev, table, buckets, key, hash, epoch) && e in key
      modifies this`table, this`next, this`prev, this`buckets
      ensures TableOk(next, prev, table, buckets, key - {e}, hash, epoch) && |table| == |old(table)| == |old(buckets)|
      ensures forall k :: FirstIn(old(buckets), key, hash, k) != e ==> FirstIn(buckets, key - {e}, hash, k) == FirstIn(old(buckets), key, hash, k)
    {
      hide TableOk, Without;
      TableSlots(next, prev, table, buckets, key, hash, epoch);
      var slot := hash(key[e]) % |table|;
      ghost var j := SlotIndex(next, prev, table, buckets, key, hash, epoch, e);
      CutTable(next, prev, table, buckets, key, hash, epoch, e, j);
      CutLookup(next, prev, table, buckets, key, hash, epoch, e, j);
      var p, q := prev[e], next[e];
      if p >= 0 { next := next[p as nat := q]; }
      if q >= 0 { prev := prev[q as nat := p]; }
      if table[slot] == e { table := table[slot := q]; }
      next := next[e := NULL];
      prev := prev[e := NULL];
      buckets := buckets[slot := Without(buckets[slot], j)];
      assert old(table)[slot := CutHead(old(next), old(table)[slot], e)] == table;
    }

    method AttachLinkHead(e: nat)
      requires List(linkNext, linkPrev, linkHead, link) && e !in link
      modifies this`linkNext, this`linkPrev, this`linkHead, this`link
      ensures List(linkNext, linkPrev, linkHead, link) && link == [e] + old(link)
    {
      PushList(linkNext, linkPrev, linkHead, link, e);
      linkPrev := linkPrev[e := NULL];
      if linkHead < 0 {
        linkNext := linkNext[e := NULL];
        linkHead := e;
      } else {
        linkNext := linkNext[e := linkHead];
        linkPrev := linkPrev[linkHead as nat := e];
        linkHead := e;
      }
      HeadIn(link);
      assert linkPrev == PushPrev(old(linkPrev), old(linkHead), e) && linkNext == PushNext(old(linkNext), old(linkHead), e);
      link := [e] + link;
    }

    method DetachLink(e: nat)
      requires List(linkNext, linkPrev, linkHead, link) && e in link
      modifies this`linkNext, this`linkPrev, this`linkHead, this`link
      ensures List(linkNext, linkPrev, linkHead, link) && link == Minus(old(link), e)
      ensures |link| == |old(link)| - 1 && forall x :: x in link <==> x in old(link) && x != e
    {
      ghost var k :| 0 <= k < |link| && link[k] == e;
      ListDistinct(linkNext, linkPrev, linkHead, link);
      MinusIs(link, k);
      CutList(linkNext, linkPrev, linkHead, link, k);
      NotSelf(linkNext, linkPrev, linkHead, link, k);
      hide List, Minus;
      var p, q := linkPrev[e], linkNext[e];
      if p >= 0 { linkNext := linkNext[p as nat := q]; }
      if q >= 0 { linkPrev := linkPrev[q as nat := p]; }
      if e == linkHead { linkHead := q; }
      linkNext := linkNext[e := NULL];
      linkPrev := linkPrev[e := NULL];
      link := Minus(link, e);
    }

    /** The LRU move: only this entry changes its place, and only in the list, so
        every lookup is as before. */
    method MoveToHead(e: nat)
      requires Valid() && e in key
      modifies this`linkNext, this`linkPrev, this`linkHead, this`link
      ensures Valid() && link == [e] + Minus(old(link), e) && forall k :: Lookup(k) == old(Lookup(k))
    {
      hide TableOk, List, Minus;
      DetachLink(e);
      AttachLinkHead(e);
    }

    /** remove: the entry leaves its bucket and the list; all others stay, and
        lookups that found another one find it again. */
    method Remove(e: nat)
      requires Valid() && e in key
      modifies this
      ensures Valid() && key == old(key) - {e} && data == old(data) - {e} && size == old(size) - 1
      ensures epoch == old(epoch) && |table| == |old(table)| && link == Minus(old(link), e)
      ensures forall k :: old(Lookup(k)) != e ==> Lookup(k) == old(Lookup(k))
    {
      hide TableOk, List, Minus;
      DetachBucket(e);
      DetachLink(e);
      key := key - {e};
      data := data - {e};
      size := size - 1;
    }

    /** remove_get: the entry that find returns is removed. */
    method RemoveGet(k: Key) returns (v: int, found: bool)
      requires Valid()
      modifies this
      ensures Valid() && (found <==> exists x :: x in old(key) && old(key)[x] == k)
      ensures found ==> var e := old(Lookup(k)); e in old(key) && old(key)[e] == k && v == old(data)[e] && key == old(key) - {e} && data == old(data) - {e}
      ensures forall j :: j != k ==> Lookup(j) == old(Lookup(j))
      ensures !found ==> key == old(key) && data == old(data)
    {
      hide TableOk, List;
      var e := Find(k);
      if e < 0 { return 0, false; }
      v := data[e];
      FoundKeys(next, prev, table, buckets, key, hash, epoch);
      Remove(e);
      found := true;
    }

    /** rehash: another number of slots, and in each the entries that hash there,
        in the reverse order of the list of all, which is not touched. */
    method Rehash(n: nat)
      requires Valid() && n > 0
      modifies this`table, this`next, this`prev, this`buckets, this`epoch
      ensures Valid() && |table| == |buckets| == n
      ensures forall h :: 0 <= h < n ==> buckets[h] == Chain(link, key, hash, n, h)
    {
      hide TableOk, List, Chained, Chain, Firsts;
      var newTable := NoHeads(n);
      ghost var newBuckets := NoLists(n);
      ghost var done: map<nat, Key> := map[];
      EmptyTable(next, prev, hash, last, n);
      LinkFacts(linkNext, linkPrev, linkHead, link);
      NoChains(link, key, hash, n);
      var p := linkHead;
      ghost var k := 0;
      while p >= 0
        invariant 0 <= k <= |link| && p == (if k < |link| then link[k] else NULL) && |newTable| == n
        invariant TableOk(next, prev, newTable, newBuckets, done, hash, last)
        invariant Chained(newBuckets, link[..k], key, hash, n)
        invariant done.Keys == Firsts(link, k) && forall x :: x in done ==> x in key && done[x] == key[x]
        decreases |link| - k
      {
        FirstsNext(linkNext, linkPrev, linkHead, link, k);
        assert p in link;
        TableSlots(next, prev, newTable, newBuckets, done, hash, last);
        var h := hash(key[p]) % n;
        PutTable(next, prev, newTable, newBuckets, done, hash, last, p, key[p]);
        ChainNext(newBuckets, link, k, key, hash, n);
        if newTable[h] >= 0 { prev := prev[newTable[h] as nat := p]; }
        next := next[p as nat := newTable[h]];
        prev := prev[p as nat := NULL];
        newTable := newTable[h := p];
        newBuckets := newBuckets[h := [p as nat] + newBuckets[h]];
        done := done[p as nat := key[p]];
        p := linkNext[p];
        k := k + 1;
      }
      FirstsAll(link);
      assert done == key && link[..k] == link;
      table, buckets, epoch := newTable, newBuckets, last;
      ChainedIs(buckets, link, key, hash, n);
    }

    /** remove_all. */
    method RemoveAll()
      requires Valid()
      modifies this
      ensures Valid() && key == map[] && size == 0
    {
      hide TableOk;
      while linkHead >= 0
        invariant Valid()
        decreases size
      {
        HeadIn(link);
        Remove(linkHead);
      }
      assert key.Keys == {};
    }

    /** A lookup finds the same entry after a rehash exactly if no other entry for
        the key stands behind it in the list of all. */
    method FindAcrossRehash(k: Key, n: nat) returns (a: int, b: int)
      requires Valid() && n > 0
      modifies this`table, this`next, this`prev, this`buckets, this`epoch
      ensures Valid() && a == old(Lookup(k)) && b == Lookup(k)
      ensures a == b <==> forall i, j :: 0 <= i < j < |link| && link[i] == a ==> key[link[j]] != k
    {
      hide TableOk, List, Chain;
      a := Find(k);
      Rehash(n);
      b := Find(k);
      ChainFirst(link, key, hash, n, k);
      ListDistinct(linkNext, linkPrev, linkHead, link);
      LastBehind(link, key, k, a);
    }
  }

  /** Two entries with one key: after a rehash the older one is found. */
  method LookupChanges(f: Hash, k: Key, n: nat, m: nat) returns (a: int, b: int)
    requires n > 0 && m > 0
    ensures 0 <= b < a
  {
    var t := new HashMap(f, n);
    var older := t.Insert(k, 0);
    var newer := t.Insert(k, 1);
    assert t.link == [newer, older] && t.link[0] == newer && t.link[1] == older;
    a, b := t.FindAcrossRehash(k, m);
    assert t.key[t.link[1]] == k;
  }

  // ---------------------------------------------- lookups over the operations

  lemma {:induction false} FirstIs(l: seq<nat>, key: map<nat, Key>, k: Key, i: nat)
    requires i <= |l| && (i < |l| ==> l[i] in key && key[l[i]] == k) && forall j :: 0 <= j < i ==> l[j] in key && key[l[j]] != k
    ensures FirstFor(l, key, k) == if i < |l| then l[i] else NULL
  {
    if i > 0 {
      forall j | 0 <= j < i - 1 ensures l[1..][j] in key && key[l[1..][j]] != k { assert l[1..][j] == l[j + 1]; }
      FirstIs(l[1..], key, k, i - 1);
    }
  }

  lemma {:induction false} FirstFrame(l: seq<nat>, key: map<nat, Key>, key': map<nat, Key>, k: Key)
    requires forall x :: x in l ==> x in key && x in key' && key[x] == key'[x]
    ensures FirstFor(l, key, k) == FirstFor(l, key', k)
  {
    if l != [] {
      assert forall x :: x in l[1..] ==> x in l;
      FirstFrame(l[1..], key, key', k);
    }
  }

  lemma PutLookup(next: Field, prev: Field, table: seq<int>, buckets: seq<seq<nat>>, key: map<nat, Key>, hash: Hash, epoch: nat, e: nat, k: Key)
    requires TableOk(next, prev, table, buckets, key, hash, epoch) && e !in key
    ensures var h := hash(k) % |buckets|;
            |buckets| > 0 && NowFound(buckets, key, buckets[h := [e] + buckets[h]], key[e := k], hash, e, k)
  {
    var h := hash(k) % |buckets|;
    var buckets' := buckets[h := [e] + buckets[h]];
    forall j ensures FirstIn(buckets', key[e := k], hash, j) == if j == k then e as int else FirstIn(buckets, key, hash, j) {
      var g := hash(j) % |buckets|;
      assert SlotOk(next, prev, table[g], buckets[g], key, hash, |table|, g, epoch);
      FirstFrame(buckets[g], key, key[e := k], j);
      assert g == h ==> buckets'[g][1..] == buckets[g];
    }
  }

  lemma {:induction false} FirstWithout(l: seq<nat>, key: map<nat, Key>, i: nat, k: Key)
    requires Distinct(l) && i < |l| && (forall x :: x in l ==> x in key) && FirstFor(l, key, k) != l[i]
    ensures FirstFor(Without(l, i), key - {l[i]}, k) == FirstFor(l, key, k)
  {
    CutDistinct(l, i);
    FirstFrame(Without(l, i), key, key - {l[i]}, k);
    FirstSkips(l, key, i, k);
  }

  lemma {:induction false} FirstSkips(l: seq<nat>, key: map<nat, Key>, i: nat, k: Key)
    requires i < |l| && FirstFor(l, key, k) != l[i]
    ensures FirstFor(Without(l, i), key, k) == FirstFor(l, key, k)
  {
    if i == 0 {
      assert Without(l, 0) == l[1..];
    } else {
      assert Without(l, i)[1..] == Without(l[1..], i - 1) && Without(l, i)[0] == l[0];
      if !(l[0] in key && key[l[0]] == k) { FirstSkips(l[1..], key, i - 1, k); }
    }
  }

  lemma CutLookup(next: Field, prev: Field, table: seq<int>, buckets: seq<seq<nat>>, key: map<nat, Key>, hash: Hash, epoch: nat, e: nat, i: nat)
    requires TableOk(next, prev, table, buckets, key, hash, epoch) && e in key
    requires var h := hash(key[e]) % |table|; h < |buckets| && i < |buckets[h]| && buckets[h][i] == e
    ensures var h := hash(key[e]) % |table|;
            forall k :: FirstIn(buckets, key, hash, k) != e ==>
              FirstIn(buckets[h := Without(buckets[h], i)], key - {e}, hash, k) == FirstIn(buckets, key, hash, k)
  {
    var h := hash(key[e]) % |table|;
    forall k | FirstIn(buckets, key, hash, k) != e
      ensures FirstIn(buckets[h := Without(buckets[h], i)], key - {e}, hash, k) == FirstIn(buckets, key, hash, k)
    {
      var g := hash(k) % |table|;
      assert SlotOk(next, prev, table[g], buckets[g], key, hash, |table|, g, epoch);
      if g == h {
        FirstWithout(buckets[g], key, i, k);
      } else {
        FirstFrame(buckets[g], key, key - {e}, k);
      }
    }
  }

  /** What a lookup finds has the key that was looked up. */
  lemma FoundKeys(next: Field, prev: Field, table: seq<int>, buckets: seq<seq<nat>>, key: map<nat, Key>, hash: Hash, epoch: nat)
    requires TableOk(next, prev, table, buckets, key, hash, epoch)
    ensures |buckets| > 0
    ensures forall k :: var e := FirstIn(buckets, key, hash, k); e >= 0 ==> e in key && key[e] == k
  {
    forall k ensures var e := FirstIn(buckets, key, hash, k); e >= 0 ==> e in key && key[e] == k {
      FirstHas(buckets[hash(k) % |buckets|], key, k);
    }
  }

  lemma {:induction false} FirstHas(l: seq<nat>, key: map<nat, Key>, k: Key)
    ensures var e := FirstFor(l, key, k); e >= 0 ==> e in key && key[e] == k
  {
    if l != [] { FirstHas(l[1..], key, k); }
  }

  // ------------------------------------------------------ order after a rehash

  /** Every bucket is the chain of l. */
  ghost predicate Chained(buckets: seq<seq<nat>>, l: seq<nat>, key: map<nat, Key>, hash: Hash, n: nat) {
    && |buckets| == n > 0 && (forall x :: x in l ==> x in key)
    && forall h :: 0 <= h < n ==> buckets[h] == Chain(l, key, hash, n, h)
  }

  lemma ChainedIs(buckets: seq<seq<nat>>, l: seq<nat>, key: map<nat, Key>, hash: Hash, n: nat)
    requires Chained(buckets, l, key, hash, n)
    ensures |buckets| == n && (forall x :: x in l ==> x in key) && forall h :: 0 <= h < n ==> buckets[h] == Chain(l, key, hash, n, h)
  {
  }

  lemma NoChains(l: seq<nat>, key: map<nat, Key>, hash: Hash, n: nat)
    requires n > 0
    ensures Chained(NoLists(n), l[..0], key, hash, n)
  {
  }

  lemma ChainNext(buckets: seq<seq<nat>>, l: seq<nat>, i: nat, key: map<nat, Key>, hash: Hash, n: nat)
    requires i < |l| && l[i] in key && Chained(buckets, l[..i], key, hash, n)
    ensures var h := hash(key[l[i]]) % n;
            0 <= h < n && Chained(buckets[h := [l[i]] + buckets[h]], l[..i + 1], key, hash, n)
  {
    var m := l[..i + 1];
    assert m[..|m| - 1] == l[..i] && m[|m| - 1] == l[i];
    forall x | x in m ensures x in key { assert x in l[..i] || x == l[i]; }
  }

  /** The first of the chain is the last of the list. */
  lemma {:induction false} ChainFirst(l: seq<nat>, key: map<nat, Key>, hash: Hash, n: nat, k: Key)
    requires n > 0 && forall x :: x in l ==> x in key
    ensures FirstFor(Chain(l, key, hash, n, hash(k) % n), key, k) == LastFor(l, key, k)
  {
    if l != [] {
      var m, e, h := l[..|l| - 1], l[|l| - 1], hash(k) % n;
      ChainFirst(m, key, hash, n, k);
      var c := Chain(m, key, hash, n, h);
      assert ([e] + c)[1..] == c && [] + c == c;
    }
  }

  lemma {:induction false} LastIs(l: seq<nat>, key: map<nat, Key>, k: Key) returns (i: nat)
    requires forall x :: x in l ==> x in key
    ensures i <= |l| && LastFor(l, key, k) == (if i < |l| then l[i] else NULL) && (i < |l| ==> key[l[i]] == k)
    ensures forall j :: (if i < |l| then i + 1 else 0) <= j < |l| ==> key[l[j]] != k
  {
    if l == [] { return 0; }
    var m := l[..|l| - 1];
    if key[l[|l| - 1]] == k { return |l| - 1; }
    i := LastIs(m, key, k);
    assert forall j :: 0 <= j < |m| ==> m[j] == l[j];
    if i == |m| { i := |l|; }
  }

  /** An entry found for k is the last one exactly if none stands behind it. */
  lemma LastBehind(l: seq<nat>, key: map<nat, Key>, k: Key, a: int)
    requires Distinct(l) && (forall x :: x in l ==> x in key)
    requires if a >= 0 then a in l && key[a] == k else a == NULL && forall x :: x in l ==> key[x] != k
    ensures a == LastFor(l, key, k) <==> forall i, j :: 0 <= i < j < |l| && l[i] == a ==> key[l[j]] != k
  {
    var i := LastIs(l, key, k);
    if a >= 0 {
      var p :| 0 <= p < |l| && l[p] == a;
      if p != i { assert p < i && l[p] != l[i]; }
    }
  }

  function Firsts(l: seq<nat>, k: nat): set<nat>
    requires k <= |l|
  {
    set i | 0 <= i < k :: l[i]
  }

  lemma FirstsNext(next: Field, prev: Field, head: int, l: seq<nat>, k: nat)
    requires List(next, prev, head, l) && k < |l|
    ensures Firsts(l, k + 1) == Firsts(l, k) + {l[k]} && l[k] !in Firsts(l, k)
    ensures l[k] in next && next[l[k]] == if k + 1 < |l| then l[k + 1] else NULL
  {
    assert LinkAt(next, prev, l, k);
  }

  lemma FirstsAll(l: seq<nat>)
    ensures forall x :: x in Firsts(l, |l|) <==> x in l
  {
  }

  lemma LinkFacts(next: Field, prev: Field, head: int, l: seq<nat>)
    requires List(next, prev, head, l)
    ensures head == (if l == [] then NULL else l[0]) && Firsts(l, 0) == {}
  {
  }

  lemma EmptyTable(next: Field, prev: Field, hash: Hash, epoch: nat, n: nat)
    requires n > 0
    ensures TableOk(next, prev, NoHeads(n), NoLists(n), map[], hash, epoch)
  {
  }

  function NoHeads(n: nat): (t: seq<int>)
    ensures |t| == n && forall h :: 0 <= h < n ==> t[h] == NULL
  {
    seq(n, _ => NULL)
  }

  function NoLists(n: nat): (b: seq<seq<nat>>)
    ensures |b| == n && forall h :: 0 <= h < n ==> b[h] == []
  {
    seq(n, _ => [])
  }

  lemma HeadIn(l: seq<nat>)
    ensures l != [] ==> l[0] in l
  {
  }

  lemma ListDistinct(next: Field, prev: Field, head: int, l: seq<nat>)
    requires List(next, prev, head, l)
    ensures Distinct(l)
  {
  }

  lemma NotSelf(next: Field, prev: Field, head: int, l: seq<nat>, k: nat)
    requires List(next, prev, head, l) && k < |l|
    ensures l[k] in next && l[k] in prev && next[l[k]] != l[k] && prev[l[k]] != l[k]
    ensures next[l[k]] >= 0 ==> next[l[k]] != prev[l[k]]
  {
    assert LinkAt(next, prev, l, k);
  }

  lemma TableSlots(next: Field, prev: Field, table: seq<int>, buckets: seq<seq<nat>>, key: map<nat, Key>, hash: Hash, epoch: nat)
    requires TableOk(next, prev, table, buckets, key, hash, epoch)
    ensures |table| == |buckets| > 0
  {
  }

  lemma SlotHead(next: Field, prev: Field, table: seq<int>, buckets: seq<seq<nat>>, key: map<nat, Key>, hash: Hash, epoch: nat, h: nat)
    requires TableOk(next, prev, table, buckets, key, hash, epoch) && h < |table| == |buckets|
    ensures table[h] == (if buckets[h] == [] then NULL else buckets[h][0])
    ensures buckets[h] != [] ==> buckets[h][0] in key
  {
    assert SlotOk(next, prev, table[h], buckets[h], key, hash, |table|, h, epoch);
    HeadIn(buckets[h]);
  }

  lemma SlotStep(next: Field, prev: Field, table: seq<int>, buckets: seq<seq<nat>>, key: map<nat, Key>, hash: Hash, epoch: nat, h: nat, i: nat)
    requires TableOk(next, prev, table, buckets, key, hash, epoch) && h < |table| == |buckets| && i < |buckets[h]|
    ensures var l := buckets[h];
            && l[i] in next && next[l[i]] == (if i + 1 < |l| then l[i + 1] else NULL)
            && (i + 1 < |l| ==> l[i + 1] in key)
  {
    var l := buckets[h];
    assert SlotOk(next, prev, table[h], l, key, hash, |table|, h, epoch);
    assert LinkAt(next, prev, l, i);
    if i + 1 < |l| { assert l[i + 1] in l; }
  }

  /** The first entry of the bucket with the key. */
  lemma SlotFind(next: Field, prev: Field, table: seq<int>, buckets: seq<seq<nat>>, key: map<nat, Key>, hash: Hash, epoch: nat, k: Key, i: nat)
    requires TableOk(next, prev, table, buckets, key, hash, epoch) && |table| == |buckets| > 0
    requires var l := buckets[hash(k) % |table|];
             && i <= |l| && (i < |l| ==> l[i] in key && key[l[i]] == k) && forall j :: 0 <= j < i ==> l[j] in key && key[l[j]] != k
    ensures var l := buckets[hash(k) % |table|];
            && (i < |l| <==> exists x :: x in key && key[x] == k)
            && (i < |l| ==> forall x :: x in key && key[x] == k && x >= epoch ==> x <= l[i])
  {
    var h := hash(k) % |table|;
    var l := buckets[h];
    assert SlotOk(next, prev, table[h], l, key, hash, |table|, h, epoch);
    forall x | x in key && key[x] == k ensures i < |l| && (x >= epoch ==> x <= l[i]) {
      assert x in l;
      var j :| 0 <= j < |l| && l[j] == x;
      assert j >= i;
      assert j > i && l[j] >= epoch ==> l[j] < l[i];
    }
  }

  /** One more entry, at the head of its bucket. */
  lemma PutTable(next: Field, prev: Field, table: seq<int>, buckets: seq<seq<nat>>, key: map<nat, Key>, hash: Hash, epoch: nat, e: nat, k: Key)
    requires TableOk(next, prev, table, buckets, key, hash, epoch) && e !in key && forall x :: x in key && x >= epoch ==> x < e
    ensures var h := hash(k) % |table|;
            && h < |table|
            && TableOk(PushNext(next, table[h], e), PushPrev(prev, table[h], e), table[h := e], buckets[h := [e] + buckets[h]], key[e := k], hash, epoch)
  {
    var n := |table|;
    var h := hash(k) % n;
    var next', prev' := PushNext(next, table[h], e), PushPrev(prev, table[h], e);
    var table', buckets' := table[h := e], buckets[h := [e] + buckets[h]];
    assert SlotOk(next, prev, table[h], buckets[h], key, hash, n, h, epoch);
    forall g | 0 <= g < n ensures SlotOk(next', prev', table'[g], buckets'[g], key[e := k], hash, n, g, epoch) {
      assert SlotOk(next, prev, table[g], buckets[g], key, hash, n, g, epoch);
      if g == h {
        PushList(next, prev, table[h], buckets[h], e);
        PutOrder(buckets[h], e, epoch);
      } else {
        PutOther(next, prev, table, buckets, key, hash, epoch, e, k, g);
      }
    }
  }

  lemma PutOrder(l: seq<nat>, e: nat, epoch: nat)
    requires (forall x :: x in l && x >= epoch ==> x < e) && forall i, j :: 0 <= i < j < |l| && l[j] >= epoch ==> l[j] < l[i]
    ensures var m := [e] + l; forall i, j :: 0 <= i < j < |m| && m[j] >= epoch ==> m[j] < m[i]
  {
    var m := [e] + l;
    forall i, j | 0 <= i < j < |m| && m[j] >= epoch ensures m[j] < m[i] { assert m[j] == l[j - 1] && l[j - 1] in l; }
  }

  lemma PutOther(next: Field, prev: Field, table: seq<int>, buckets: seq<seq<nat>>, key: map<nat, Key>, hash: Hash, epoch: nat, e: nat, k: Key, g: nat)
    requires TableOk(next, prev, table, buckets, key, hash, epoch) && e !in key && g < |table| && g != hash(k) % |table|
    ensures var h := hash(k) % |table|;
            List(PushNext(next, table[h], e), PushPrev(prev, table[h], e), table[g], buckets[g])
  {
    var n := |table|;
    var h := hash(k) % n;
    assert SlotOk(next, prev, table[h], buckets[h], key, hash, n, h, epoch);
    assert SlotOk(next, prev, table[g], buckets[g], key, hash, n, g, epoch);
    forall x | x in buckets[g] ensures x in next && x in prev && x !in buckets[h] && x != e {
      var i :| 0 <= i < |buckets[g]| && buckets[g][i] == x;
      assert LinkAt(next, prev, buckets[g], i);
    }
    forall x | x in buckets[g]
      ensures x in PushNext(next, table[h], e) && PushNext(next, table[h], e)[x] == next[x]
      ensures x in PushPrev(prev, table[h], e) && PushPrev(prev, table[h], e)[x] == prev[x]
    {
      PushOthers(next, prev, table[h], buckets[h], e, x);
    }
    ListFrame(next, prev, PushNext(next, table[h], e), PushPrev(prev, table[h], e), table[g], buckets[g]);
  }

  lemma SlotIndex(next: Field, prev: Field, table: seq<int>, buckets: seq<seq<nat>>, key: map<nat, Key>, hash: Hash, epoch: nat, e: nat) returns (j: nat)
    requires TableOk(next, prev, table, buckets, key, hash, epoch) && e in key
    ensures var h := hash(key[e]) % |table|; h < |table| && j < |buckets[h]| && buckets[h][j] == e
  {
    var h := hash(key[e]) % |table|;
    assert SlotOk(next, prev, table[h], buckets[h], key, hash, |table|, h, epoch);
    assert e in buckets[h];
    j :| 0 <= j < |buckets[h]| && buckets[h][j] == e;
  }

  /** One entry less. */
  lemma CutTable(next: Field, prev: Field, table: seq<int>, buckets: seq<seq<nat>>, key: map<nat, Key>, hash: Hash, epoch: nat, e: nat, j: nat)
    requires TableOk(next, prev, table, buckets, key, hash, epoch) && e in key
    requires var h := hash(key[e]) % |table|; h < |table| && j < |buckets[h]| && buckets[h][j] == e
    ensures var h := hash(key[e]) % |table|;
            && e in next && e in prev && next[e] != e && prev[e] != e && (next[e] >= 0 ==> next[e] != prev[e])
            && TableOk(CutNext(next, prev, e), CutPrev(next, prev, e), table[h := CutHead(next, table[h], e)],
                       buckets[h := Without(buckets[h], j)], key - {e}, hash, epoch)
  {
    var n := |table|;
    var h := hash(key[e]) % n;
    assert SlotOk(next, prev, table[h], buckets[h], key, hash, n, h, epoch);
    NotSelf(next, prev, table[h], buckets[h], j);
    CutList(next, prev, table[h], buckets[h], j);
    CutDistinct(buckets[h], j);
    var next', prev' := CutNext(next, prev, e), CutPrev(next, prev, e);
    var table', buckets' := table[h := CutHead(next, table[h], e)], buckets[h := Without(buckets[h], j)];
    forall g | 0 <= g < n ensures SlotOk(next', prev', table'[g], buckets'[g], key - {e}, hash, n, g, epoch) {
      assert SlotOk(next, prev, table[g], buckets[g], key, hash, n, g, epoch);
      if g == h {
        CutOrder(buckets[h], j, epoch);
      } else {
        CutOther(next, prev, table, buckets, key, hash, epoch, e, j, g);
      }
    }
  }

  lemma CutOrder(l: seq<nat>, k: nat, epoch: nat)
    requires k < |l| && forall i, j :: 0 <= i < j < |l| && l[j] >= epoch ==> l[j] < l[i]
    ensures var m := Without(l, k); forall i, j :: 0 <= i < j < |m| && m[j] >= epoch ==> m[j] < m[i]
  {
    var m := Without(l, k);
    forall i, j | 0 <= i < j < |m| && m[j] >= epoch ensures m[j] < m[i] {
      assert m[i] == l[if i < k then i else i + 1] && m[j] == l[if j < k then j else j + 1];
    }
  }

  lemma CutOther(next: Field, prev: Field, table: seq<int>, buckets: seq<seq<nat>>, key: map<nat, Key>, hash: Hash, epoch: nat, e: nat, j: nat, g: nat)
    requires TableOk(next, prev, table, buckets, key, hash, epoch) && e in key && g < |table| && g != hash(key[e]) % |table|
    requires var h := hash(key[e]) % |table|; h < |table| && j < |buckets[h]| && buckets[h][j] == e
    ensures e in next && e in prev && List(CutNext(next, prev, e), CutPrev(next, prev, e), table[g], buckets[g])
    ensures forall x :: x in buckets[g] ==> x != e
  {
    var n := |table|;
    var h := hash(key[e]) % n;
    assert SlotOk(next, prev, table[h], buckets[h], key, hash, n, h, epoch);
    assert SlotOk(next, prev, table[g], buckets[g], key, hash, n, g, epoch);
    CutList(next, prev, table[h], buckets[h], j);
    var next', prev' := CutNext(next, prev, e), CutPrev(next, prev, e);
    forall x | x in buckets[g]
      ensures x in next && x in prev && x in next' && x in prev' && next'[x] == next[x] && prev'[x] == prev[x]
    {
      var i :| 0 <= i < |buckets[g]| && buckets[g][i] == x;
      assert LinkAt(next, prev, buckets[g], i) && x !in buckets[h];
      CutOthers(next, prev, table[h], buckets[h], j, x);
    }
    ListFrame(next, prev, next', prev', table[g], buckets[g]);
  }
}
