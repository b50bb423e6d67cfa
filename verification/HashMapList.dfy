/** Doubly linked lists threaded through the fields of numbered nodes. */
module LinkedNodes {

  const NULL: int := -1

  type Field = map<nat, int>

  ghost predicate Distinct(l: seq<nat>) {
    forall i, j :: 0 <= i < j < |l| ==> l[i] != l[j]
  }

  function NextOf(l: seq<nat>, i: nat): int
    requires i < |l|
  {
    if i + 1 < |l| then l[i + 1] else NULL
  }

  function PrevOf(l: seq<nat>, i: nat): int
    requires i < |l|
  {
    if i > 0 then l[i - 1] else NULL
  }

  ghost predicate LinkAt(next: Field, prev: Field, l: seq<nat>, i: nat)
    requires i < |l|
  {
    l[i] in next && l[i] in prev && next[l[i]] == NextOf(l, i) && prev[l[i]] == PrevOf(l, i)
  }

  /** From head, the next fields run through l and the prev fields back. */
  ghost predicate List(next: Field, prev: Field, head: int, l: seq<nat>) {
    && Distinct(l) && head == (if l == [] then NULL else l[0])
    && forall i :: 0 <= i < |l| ==> LinkAt(next, prev, l, i)
  }

  /** The list depends only on the fields of its nodes. */
  lemma ListFrame(next: Field, prev: Field, next': Field, prev': Field, head: int, l: seq<nat>)
    requires List(next, prev, head, l)
    requires forall x :: x in l ==> x in next' && x in prev' && x in next && x in prev && next'[x] == next[x] && prev'[x] == prev[x]
    ensures List(next', prev', head, l)
  {
    forall i | 0 <= i < |l| ensures LinkAt(next', prev', l, i) { assert LinkAt(next, prev, l, i) && l[i] in l; }
  }

  // ---------------------------------------------------------- push at head

  function PushNext(next: Field, head: int, e: nat): Field {
    next[e := head]
  }

  function PushPrev(prev: Field, head: int, e: nat): Field {
    (if head >= 0 then prev[head := e] else prev)[e := NULL]
  }

  lemma PushList(next: Field, prev: Field, head: int, l: seq<nat>, e: nat)
    requires List(next, prev, head, l) && e !in l
    ensures List(PushNext(next, head, e), PushPrev(prev, head, e), e, [e] + l)
  {
    var n', p', m := PushNext(next, head, e), PushPrev(prev, head, e), [e] + l;
    forall i | 0 <= i < |m| ensures LinkAt(n', p', m, i) {
      if i > 0 {
        assert LinkAt(next, prev, l, i - 1) && m[i] == l[i - 1] && l[i - 1] in l;
        assert i > 1 ==> l[i - 1] != l[0];
      }
    }
    forall i, j | 0 <= i < j < |m| ensures m[i] != m[j] { assert m[j] == l[j - 1] && l[j - 1] in l; }
  }

  // --------------------------------------------------------------- detach

  function Without(l: seq<nat>, k: nat): seq<nat>
    requires k < |l|
  {
    l[..k] + l[k + 1..]
  }

  /** p->next = q, q->prev = p, then e's own fields. */
  function CutNext(next: Field, prev: Field, e: nat): Field
    requires e in next && e in prev
  {
    (if prev[e] >= 0 then next[prev[e] as nat := next[e]] else next)[e := NULL]
  }

  function CutPrev(next: Field, prev: Field, e: nat): Field
    requires e in next && e in prev
  {
    (if next[e] >= 0 then prev[next[e] as nat := prev[e]] else prev)[e := NULL]
  }

  function CutHead(next: Field, head: int, e: nat): int
    requires e in next
  {
    if head == e then next[e] else head
  }

  lemma CutList(next: Field, prev: Field, head: int, l: seq<nat>, k: nat)
    requires List(next, prev, head, l) && k < |l|
    ensures var e := l[k];
            && e in next && e in prev
            && List(CutNext(next, prev, e), CutPrev(next, prev, e), CutHead(next, head, e), Without(l, k))
  {
    var e, m := l[k], Without(l, k);
    assert LinkAt(next, prev, l, k);
    var n', p' := CutNext(next, prev, e), CutPrev(next, prev, e);
    forall i | 0 <= i < |m| ensures LinkAt(n', p', m, i) {
      var j := if i < k then i else i + 1;
      assert m[i] == l[j] && LinkAt(next, prev, l, j) && l[j] != e;
      assert j + 1 < |l| ==> l[j + 1] != l[j];
      assert (j != k - 1 && k > 0) ==> l[j] != l[k - 1];
      assert (j != k + 1 && k + 1 < |l|) ==> l[j] != l[k + 1];
    }
    CutDistinct(l, k);
    assert k > 0 ==> l[0] != e;
  }

  lemma CutDistinct(l: seq<nat>, k: nat)
    requires Distinct(l) && k < |l|
    ensures Distinct(Without(l, k)) && forall x :: x in Without(l, k) <==> x in l && x != l[k]
  {
    var m := Without(l, k);
    forall i, j | 0 <= i < j < |m| ensures m[i] != m[j] {
      assert m[i] == l[if i < k then i else i + 1] && m[j] == l[if j < k then j else j + 1];
    }
    forall x | x in l && x != l[k] ensures x in m {
      var i :| 0 <= i < |l| && l[i] == x;
      assert m[if i < k then i else i - 1] == x;
    }
    forall x | x in m ensures x in l && x != l[k] {
      var i :| 0 <= i < |m| && m[i] == x;
      assert m[i] == l[if i < k then i else i + 1];
    }
  }

  /** Fields of nodes outside the list are not touched. */
  lemma CutOthers(next: Field, prev: Field, head: int, l: seq<nat>, k: nat, x: nat)
    requires List(next, prev, head, l) && k < |l| && x !in l
    ensures var e := l[k];
            && e in next && e in prev
            && (x in next ==> x in CutNext(next, prev, e) && CutNext(next, prev, e)[x] == next[x])
            && (x in prev ==> x in CutPrev(next, prev, e) && CutPrev(next, prev, e)[x] == prev[x])
  {
    assert LinkAt(next, prev, l, k) && l[k] in l;
    if k > 0 { assert l[k - 1] in l; }
    if k + 1 < |l| { assert l[k + 1] in l; }
  }

  lemma PushOthers(next: Field, prev: Field, head: int, l: seq<nat>, e: nat, x: nat)
    requires List(next, prev, head, l) && x !in l && x != e
    ensures x in next ==> x in PushNext(next, head, e) && PushNext(next, head, e)[x] == next[x]
    ensures x in prev ==> x in PushPrev(prev, head, e) && PushPrev(prev, head, e)[x] == prev[x]
  {
    if l != [] { assert l[0] in l; }
  }

  /** The list without the node e. */
  function Minus(l: seq<nat>, e: nat): seq<nat> {
    if l == [] then [] else (if l[0] == e then [] else [l[0]]) + Minus(l[1..], e)
  }

  lemma {:induction false} MinusAbsent(l: seq<nat>, e: nat)
    requires e !in l
    ensures Minus(l, e) == l
  {
    if l != [] { MinusAbsent(l[1..], e); }
  }

  lemma {:induction false} MinusIs(l: seq<nat>, k: nat)
    requires Distinct(l) && k < |l|
    ensures Minus(l, l[k]) == Without(l, k)
    ensures |Minus(l, l[k])| == |l| - 1 && Distinct(Minus(l, l[k])) && forall x :: x in Minus(l, l[k]) <==> x in l && x != l[k]
  {
    CutDistinct(l, k);
    if k == 0 {
      MinusAbsent(l[1..], l[0]);
      assert Without(l, 0) == l[1..];
    } else {
      MinusIs(l[1..], k - 1);
      assert l[1..][k - 1] == l[k] && Without(l, k) == [l[0]] + Without(l[1..], k - 1);
    }
  }
}
