/** What the operations of the program do to the references between objects.  The
    colours that barriers change do not matter here. */
module GcMeaning {
  import opened GcHeap
  import opened GcState
  import opened GcInv
  import opened GcClose

  /** The roots: main thread, registry, running thread, the metatables of the basic
      types, and what C code holds. */
  lemma RootsAre(s: State, o: Id)
    ensures o in Roots(s) <==> o == s.main || o == s.registry || o == s.running || Ref(o) in s.mts || o in s.pinned
  {
  }

  /** Everything but o, and the open upvalues that show its stack, refers to what
      it referred to before. */
  ghost predicate OthersSame(h: Heap, h': Heap, o: Id) {
    forall x, k :: x in h && x != o && !Shows(h, x, o) ==> x in h' && (Refers(h', x, k) <==> Refers(h, x, k))
  }

  ghost predicate Shows(h: Heap, u: Id, t: Id) {
    u in h && h[u].body.Open? && h[u].body.thread == t
  }

  /** Only the body of o changed; colours may have. */
  ghost predicate BodyAt(h: Heap, h': Heap, o: Id, b: Body) {
    h'.Keys == h.Keys && o in h && h'[o].body == b && forall x :: x in h && x != o ==> h'[x].body == h[x].body
  }

  lemma BodyAtOthers(h: Heap, h': Heap, o: Id, b: Body)
    requires BodyAt(h, h', o, b)
    ensures OthersSame(h, h', o)
    ensures h[o].body.Thread? == b.Thread? && !b.Thread? ==> forall x, k :: x in h && x != o ==> (Refers(h', x, k) <==> Refers(h, x, k))
  {
  }

  lemma BarrierBodies(s: State, o: Id, v: Value)
    requires o in s.heap
    ensures BodyAt(s.heap, Barrier(s, o, v).heap, o, s.heap[o].body) && BodyAt(s.heap, BarrierT(s, o, v).heap, o, s.heap[o].body)
  {
    hide ReallyMark;
  }

  /** A store: the object refers to exactly the new list, and is of its old kind. */
  lemma StoreMeans(s: State, o: Id, refs: seq<Id>, v: Value)
    requires o in s.heap && (s.heap[o].body.Udata? || s.heap[o].body.Func? || s.heap[o].body.Table? || s.heap[o].body.Proto?)
    ensures var h, h' := s.heap, DoStore(s, o, refs, v).heap;
            && (forall k :: Refers(h', o, k) <==> k in refs)
            && (forall x, k :: x in h && x != o ==> x in h' && (Refers(h', x, k) <==> Refers(h, x, k)))
            && h'[o].body.Udata? == h[o].body.Udata? && h'[o].body.Func? == h[o].body.Func?
            && h'[o].body.Table? == h[o].body.Table? && h'[o].body.Proto? == h[o].body.Proto?
  {
    hide Barrier, BarrierT;
    var b := s.heap[o].body;
    var b' := match b
      case Udata(_) => Udata(refs)
      case Func(_) => Func(refs)
      case Table(_) => Table(refs)
      case _ => Proto(refs);
    var s1 := s.(heap := s.heap[o := s.heap[o].(body := b')]);
    BarrierBodies(s1, o, v);
    BodyAtOthers(s.heap, DoStore(s, o, refs, v).heap, o, b');
  }

  /** Globals and stack: the thread refers to exactly the new ones, and its open
      upvalues to what their slots hold now. */
  lemma SetStackMeans(s: State, t: Id, refs: seq<Id>, stack: seq<Value>)
    requires t in s.heap && s.heap[t].body.Thread?
    ensures var h, h' := s.heap, DoSetStack(s, t, refs, stack).heap;
            && (forall k :: Refers(h', t, k) <==> k in refs || Ref(k) in stack)
            && (forall u, k :: Shows(h, u, t) && u != t && h[u].body.slot < |stack| ==> (Refers(h', u, k) <==> stack[h[u].body.slot] == Ref(k)))
            && OthersSame(h, h', t)
  {
  }

  /** An assignment through an upvalue: it refers to the new value, open or closed;
      through an open one, so does its stack slot. */
  lemma SetUpvalMeans(s: State, u: Id, v: Value)
    requires OpenOk(s.heap) && u in s.heap && (s.heap[u].body.Closed? || s.heap[u].body.Open?)
    ensures var h, h' := s.heap, DoSetUpval(s, u, v).heap;
            && (forall k :: Refers(h', u, k) <==> v == Ref(k))
            && (h[u].body.Closed? ==> forall x, k :: x in h && x != u ==> x in h' && (Refers(h', x, k) <==> Refers(h, x, k)))
            && (h[u].body.Open? ==>
                  var t := h[u].body.thread;
                  && IsThread(h, t) && IsThread(h', t) && h[u].body.slot < |h[t].body.stack|
                  && h'[t].body == h[t].body.(stack := h[t].body.stack[h[u].body.slot := v]) && OthersSame(h, h', t))
  {
    hide Barrier, OpenList;
    var b := s.heap[u].body;
    if b.Closed? {
      var s1 := s.(heap := s.heap[u := s.heap[u].(body := Closed(v))]);
      BarrierBodies(s1, u, v);
      BodyAtOthers(s.heap, DoSetUpval(s, u, v).heap, u, Closed(v));
    } else {
      assert OpenAt(s.heap, u);
    }
  }

  /** A new object has the body asked for, and nothing else changes. */
  lemma NewObjMeans(s: State, b: Body)
    requires s.next !in s.heap
    ensures var h' := DoNewObj(s, b).heap;
            && s.next in h' && h'[s.next].body == b && h'.Keys == s.heap.Keys + {s.next}
            && forall x :: x in s.heap ==> h'[x] == s.heap[x]
  {
  }

  /** luaF_close: an upvalue that stays refers to what it referred to before, and
      so does everything else. */
  lemma CloseOneMeans(s: State, t: Id)
    requires OpenOk(s.heap) && KindsOk(s.heap) && FirstOpenAbove(s.heap, t, 0)
    ensures var h, h' := s.heap, CloseOne(s, t).heap;
            h'.Keys <= h.Keys && forall x, k :: x in h' ==> (Refers(h', x, k) <==> Refers(h, x, k))
  {
    hide Barrier, OpenList;
    var u := s.heap[t].body.open[0];
    FirstOpenIntro(s, t);
    FirstOpenFacts(s.heap, t, u);
    var h := s.heap[t := s.heap[t].(body := s.heap[t].body.(open := s.heap[t].body.open[1..]))];
    if !IsDead(h, s.white, u) {
      LinkBodies(s.(heap := h[u := h[u].(body := Closed(s.heap[t].body.stack[h[u].body.slot]))], uvhead := Without(s.uvhead, u)), u);
    }
  }

  lemma LinkBodies(s: State, u: Id)
    requires u in s.heap && s.heap[u].body.Closed?
    ensures BodyAt(s.heap, LinkUpval(s, u).heap, u, s.heap[u].body)
  {
    hide Barrier;
    var s1 := LinkHead(s, u);
    BarrierBodies(s1.(heap := Paint(s1.heap, u, Black)), u, s.heap[u].body.value);
  }

  lemma {:induction false} CloseMeans(s: State, t: Id, level: nat)
    requires Inv(s)
    ensures var h, h' := s.heap, CloseFrom(s, t, level).heap;
            h'.Keys <= h.Keys && forall x, k :: x in h' ==> (Refers(h', x, k) <==> Refers(h, x, k))
    decreases OpenCount(s.heap, t)
  {
    hide CloseOne, Refers;
    if FirstOpenAbove(s.heap, t, level) {
      CloseOneShrinks(s, t);
      CloseOneKeeps(s, t, {});
      CloseOneMeans(s, t);
      CloseMeans(CloseOne(s, t), t, level);
    }
  }
}
