/** Reclamation: what is garbage when a cycle marks its roots is freed before
    that cycle reaches finalize, unless a lookup brings it back. */
module GcReclaim {
  import opened GcHeap
  import opened GcState
  import opened GcInv
  import opened GcCollector
  import opened GcClose
  import opened GcSweep
  import opened GcCycle
  import opened GcMutator
  import opened GcSafety

  /** The object a lookup returns when it finds one: luaS_newlstr may return a
      string, luaF_findupval an open upvalue, that nothing refers to. */
  ghost function Found(s: State, op: Op): set<Id>
    requires Enabled(s, op)
  {
    match op
    case Intern(content) =>
      var b := s.hash(content) % |s.strt|;
      var i := FindStr(s.heap, s.strt[b], content);
      if i < |s.strt[b]| then {s.strt[b][i]} else {}
    case FindUpval(t, slot) =>
      var open := s.heap[t].body.open;
      var i := UpvalPos(s.heap, open, slot);
      if i < |open| && SlotOf(s.heap, open[i]) == slot then {open[i]} else {}
    case _ => {}
  }

  /** d is a set of garbage: no root is in it, nothing outside refers into it,
      and the marks agree with the phase. */
  ghost predicate Doomed(s: State, d: set<Id>) {
    && (forall r :: r in Roots(s) ==> r !in d)
    && (forall o, k :: o in s.heap && o !in d && k in Kids(s.heap, o) ==> k !in d)
    && (forall o :: o in d ==> o < s.next)
    && (forall o :: o in d && o in s.heap ==> !s.heap[o].fixed && DoomedMark(s, o))
  }

  predicate DoomedMark(s: State, o: Id)
    requires o in s.heap
  {
    match s.phase
    case Propagate => s.heap[o].color.White?
    case SweepString => s.heap[o].color == White(!s.white)
    case Sweep => s.heap[o].color == White(!s.white)
    case _ => false
  }

  /** A closed set that holds the roots holds everything reachable. */
  ghost predicate LiveSet(s: State, live: set<Id>) {
    live <= s.heap.Keys && ClosedSet(s.heap, live) && forall r :: r in Roots(s) ==> r in live
  }

  lemma ReachIn(s: State, live: set<Id>, o: Id)
    requires LiveSet(s, live) && Reach(s, o)
    ensures o in live
  {
    var p :| Path(s.heap, p) && p[0] in Roots(s) && p[|p| - 1] == o;
    PathStays(s.heap, p, live);
  }

  /** What an operation of the program may do, seen from a set it cannot leave. */
  ghost predicate Respects(s: State, s': State, live: set<Id>, found: set<Id>) {
    && s'.phase == s.phase && s'.white == s.white && s.next <= s'.next
    && (forall r :: r in Roots(s') ==> r in live || s.next <= r || r in found)
    && HeapRespects(s.heap, s'.heap, s.next, live, found)
  }

  ghost predicate HeapRespects(h: Heap, h': Heap, next: Id, live: set<Id>, found: set<Id>) {
    && (forall o :: o in h' ==> o in h || next <= o)
    && (forall o, k :: o in h' && k in Kids(h', o) ==> (o in h && o !in found && k in Kids(h, o)) || k in live || next <= k)
    && (forall o :: o in h && o in h' && h[o].color.White? && o !in live && o !in found ==>
          h'[o].color == h[o].color && h'[o].fixed == h[o].fixed)
  }

  lemma RespectsDoomed(s: State, s': State, live: set<Id>, found: set<Id>, d: set<Id>)
    requires Doomed(s, d) && live <= s.heap.Keys - d && Respects(s, s', live, found)
    requires s.phase.Propagate? || s.phase.SweepString? || s.phase.Sweep?
    requires forall o :: o in s.heap ==> o < s.next
    ensures Doomed(s', d - found)
  {
    var d' := d - found;
    forall o, k | o in s'.heap && o !in d' && k in Kids(s'.heap, o) ensures k !in d' {
      if k !in live && k < s.next {
        assert o in s.heap && o !in found && k in Kids(s.heap, o);
      }
    }
    forall o | o in d' && o in s'.heap ensures !s'.heap[o].fixed && DoomedMark(s', o) {
      assert o in s.heap && DoomedMark(s, o);
    }
  }

  lemma DoomedLiveSet(s: State, d: set<Id>)
    requires Doomed(s, d) && Live(s)
    requires s.phase.Propagate? || s.phase.SweepString? || s.phase.Sweep?
    ensures var live := set o | o in s.heap && o !in d && !IsDead(s.heap, s.white, o);
            live <= s.heap.Keys - d && LiveSet(s, live)
  {
    var live := set o | o in s.heap && o !in d && !IsDead(s.heap, s.white, o);
    forall o, k | o in live && o in s.heap && k in Kids(s.heap, o) ensures k in live {
      assert NonDead(s.heap, s.white, o);
      assert NonDead(s.heap, s.white, k);
    }
    forall r | r in Roots(s) ensures r in live {
      assert NonDead(s.heap, s.white, r);
    }
  }

  // ------------------------------------------- operations that add objects

  lemma NewObjRespects(s: State, b: Body, live: set<Id>)
    requires Inv(s) && Enabled(s, NewObj(b)) && LiveSet(s, live)
    ensures Respects(s, DoNewObj(s, b), live, {})
  {
    hide StrOk, RootgcOk, UvOk, PhaseOk, KindsOk, OpenOk, ClosedLive, RootsLive;
    var n := s.next;
    var h' := s.heap[n := Obj(b, White(s.white), false)];
    assert n !in s.heap;
    NewObjRoots(s, b);
    NewObjFields(s, b, h');
    NewObjPhaseSame(s, b);
    forall k | k in Kids(h', n) ensures k in live {
      assert Reach(s, k) by {
        if b.Closed? { assert Ref(k) in [b.value]; }
        if b.Thread? && k !in b.refs { assert Ref(k) in b.stack; }
      }
      ReachIn(s, live, k);
    }
    hide DoNewObj, Enabled, Reach;
    forall o, k | o in h' && k in Kids(h', o) ensures (o in s.heap && k in Kids(s.heap, o)) || k in live {
      if o != n { ExtendedKids(s.heap, s.white, n, b, h', o); }
    }
  }

  lemma NewObjPhaseSame(s: State, b: Body)
    ensures DoNewObj(s, b).phase == s.phase && DoNewObj(s, b).white == s.white
  {
  }

  /** A lookup that finds an object changes that object only. */
  lemma ReviveRespects(s: State, o: Id, live: set<Id>)
    requires LiveSet(s, live) && o in s.heap && forall k :: k in Kids(s.heap, o) ==> k in live
    ensures var h := if IsDead(s.heap, s.white, o) then Paint(s.heap, o, White(s.white)) else s.heap;
            Respects(s, s.(heap := h, pinned := s.pinned + {o}), live, {o})
  {
    var h := if IsDead(s.heap, s.white, o) then Paint(s.heap, o, White(s.white)) else s.heap;
    forall x | x in s.heap ensures Kids(h, x) == Kids(s.heap, x) { KidsPaint(s.heap, o, White(s.white), x); }
    assert Roots(s.(heap := h, pinned := s.pinned + {o})) == Roots(s) + {o};
  }

  lemma InternRespects(s: State, content: string, live: set<Id>)
    requires Inv(s) && Enabled(s, Intern(content)) && LiveSet(s, live)
    ensures Respects(s, DoIntern(s, content), live, Found(s, Intern(content)))
  {
    var b := s.hash(content) % |s.strt|;
    var i := FindStr(s.heap, s.strt[b], content);
    assert s.next !in s.heap && OpenOk(s.heap);
    hide Inv, InvBut, Respects, LiveSet;
    if i < |s.strt[b]| {
      assert Kids(s.heap, s.strt[b][i]) == [];
      ReviveRespects(s, s.strt[b][i], live);
    } else {
      NewStrRespects(s, content, live);
    }
  }

  lemma NewStrRespects(s: State, content: string, live: set<Id>)
    requires |s.strt| > 0 && OpenOk(s.heap) && s.next !in s.heap && LiveSet(s, live)
    requires var b := s.hash(content) % |s.strt|; FindStr(s.heap, s.strt[b], content) == |s.strt[b]|
    ensures Respects(s, DoIntern(s, content), live, {})
  {
    var h' := s.heap[s.next := Obj(Str(content), White(s.white), false)];
    NewStrFields(s, content);
    hide DoIntern;
    forall o, k | o in h' && k in Kids(h', o) ensures o in s.heap && k in Kids(s.heap, o) {
      if o != s.next { ExtendedKids(s.heap, s.white, s.next, Str(content), h', o); }
    }
  }

  lemma NewStrFields(s: State, content: string)
    requires |s.strt| > 0
    requires var b := s.hash(content) % |s.strt|; FindStr(s.heap, s.strt[b], content) == |s.strt[b]|
    ensures var s' := DoIntern(s, content);
            && s'.heap == s.heap[s.next := Obj(Str(content), White(s.white), false)] && s'.next == s.next + 1
            && s'.phase == s.phase && s'.white == s.white && Roots(s') == Roots(s) + {s.next}
  {
  }

  lemma FindUpvalRespects(s: State, t: Id, slot: nat, live: set<Id>)
    requires Inv(s) && Enabled(s, FindUpval(t, slot)) && LiveSet(s, live)
    ensures Respects(s, DoFindUpval(s, t, slot), live, Found(s, FindUpval(t, slot)))
  {
    ReachLive(s, t);
    ReachIn(s, live, t);
    FindUpvalForm(s, t, slot);
    FoundUpvalKids(s, t, slot, live);
    var open := s.heap[t].body.open;
    var i := UpvalPos(s.heap, open, slot);
    assert OpenOk(s.heap) && s.next !in s.heap;
    hide Inv, InvBut, DoFindUpval, NewUpval, Reach, Respects, LiveSet, Kids;
    if i < |open| && SlotOf(s.heap, open[i]) == slot {
      ReviveRespects(s, open[i], live);
    } else {
      NewUpvalRespects(s, t, slot, i, live);
    }
  }

  lemma FoundUpvalKids(s: State, t: Id, slot: nat, live: set<Id>)
    requires OpenOk(s.heap) && ClosedSet(s.heap, live) && t in live && IsThread(s.heap, t) && slot < |s.heap[t].body.stack|
    ensures var open := s.heap[t].body.open;
            forall i, k :: 0 <= i < |open| && SlotOf(s.heap, open[i]) == slot && k in Kids(s.heap, open[i]) ==> k in live
  {
    var open := s.heap[t].body.open;
    forall i, k | 0 <= i < |open| && SlotOf(s.heap, open[i]) == slot && k in Kids(s.heap, open[i]) ensures k in live {
      assert OpenList(s.heap, t, open) && open[i] in open;
      SlotInLive(s.heap, live, t, slot, k);
    }
  }

  lemma NewUpvalRespects(s: State, t: Id, slot: nat, i: nat, live: set<Id>)
    requires OpenOk(s.heap) && LiveSet(s, live) && t in live && IsThread(s.heap, t) && slot < |s.heap[t].body.stack|
    requires i <= |s.heap[t].body.open| && s.next !in s.heap
    ensures Respects(s, NewUpval(s, t, slot, i), live, {})
  {
    var u := s.next;
    var h' := WithUpval(s.heap, s.white, t, u, slot, i);
    WithUpvalRespects(s.heap, s.white, t, u, slot, i, s.next, live);
    hide WithUpval, HeapRespects, OpenOk, ClosedSet;
    assert Roots(NewUpval(s, t, slot, i)) == Roots(s) + {u};
  }

  lemma WithUpvalRespects(h: Heap, white: bool, t: Id, u: Id, slot: nat, i: nat, next: Id, live: set<Id>)
    requires OpenOk(h) && ClosedSet(h, live) && t in live && IsThread(h, t) && slot < |h[t].body.stack|
    requires i <= |h[t].body.open| && u !in h && u == next
    ensures HeapRespects(h, WithUpval(h, white, t, u, slot, i), next, live, {})
  {
    var h' := WithUpval(h, white, t, u, slot, i);
    forall o, k | o in h' && k in Kids(h', o) ensures (o in h && k in Kids(h, o)) || k in live {
      if o == u { SlotInLive(h, live, t, slot, k); } else { WithUpvalKids(h, white, t, u, slot, i, o); }
    }
  }

  lemma SlotInLive(h: Heap, live: set<Id>, t: Id, slot: nat, k: Id)
    requires ClosedSet(h, live) && t in live && IsThread(h, t) && slot < |h[t].body.stack|
    requires k in Ids([h[t].body.stack[slot]])
    ensures k in live
  {
    assert Ref(k) in [h[t].body.stack[slot]];
    assert h[t].body.stack[slot] in h[t].body.stack;
    assert k in Kids(h, t);
  }

  // --------------------------------------------------------------- barriers

  /** Marking from inside the set stays inside it. */
  lemma MarkRespects(s: State, v: Id, live: set<Id>)
    requires IsWhite(s.heap, v) && ClosedSet(s.heap, live) && v in live
    ensures HeapRespects(s.heap, ReallyMark(Marker(s.heap, s.gray), v).heap, s.next, live, {})
  {
    var m0 := Marker(s.heap, s.gray);
    var m := ReallyMark(m0, v);
    ReallyMarkStaysIn(m0, v, live);
    hide ReallyMark;
    forall o | o in s.heap ensures Kids(m.heap, o) == Kids(s.heap, o) { KidsSame(s.heap, m.heap, o); }
  }

  lemma HeapRespectsTrans(a: Heap, b: Heap, c: Heap, next: Id, live: set<Id>)
    requires HeapRespects(a, b, next, live, {}) && HeapRespects(b, c, next, live, {})
    requires a.Keys == b.Keys == c.Keys
    ensures HeapRespects(a, c, next, live, {})
  {
  }

  lemma StoredRespects(h: Heap, o: Id, v: Value, h': Heap, next: Id, live: set<Id>)
    requires Stored(h, o, v, h') && ClosedSet(h, live) && (v.Ref? ==> v.id in live) && o in live
    ensures HeapRespects(h, h', next, live, {}) && ClosedSet(h', live)
  {
    StoredKidsIn(h, o, v, h', live);
    hide Kids;
  }

  lemma StoredKidsIn(h: Heap, o: Id, v: Value, h': Heap, live: set<Id>)
    requires Stored(h, o, v, h') && (v.Ref? ==> v.id in live)
    ensures forall x, k :: x in h' && k in Kids(h', x) ==> k in Kids(h, x) || k in live
  {
    hide Kids;
    forall x, k | x in h' && k in Kids(h', x) ensures k in Kids(h, x) || k in live {
      if x != o { StoredKids(h, o, v, h', x); }
    }
  }

  lemma PaintRespects(h: Heap, o: Id, c: Color, next: Id, live: set<Id>)
    requires o in h && o in live
    ensures HeapRespects(h, Paint(h, o, c), next, live, {})
  {
    forall x | x in h ensures Kids(Paint(h, o, c), x) == Kids(h, x) { KidsPaint(h, o, c, x); }
  }

  lemma BarrierRespects(s: State, o: Id, v: Value, h': Heap, live: set<Id>)
    requires Stored(s.heap, o, v, h') && LiveSet(s, live) && (v.Ref? ==> v.id in live) && o in live
    ensures var s1 := s.(heap := h');
            Respects(s, if h'[o].body.Table? then BarrierT(s1, o, v) else Barrier(s1, o, v), live, {})
  {
    var s1 := s.(heap := h');
    StoredRespects(s.heap, o, v, h', s.next, live);
    if v.Ref? && IsWhite(h', v.id) && h'[o].color.Black? {
      if h'[o].body.Table? {
        PaintRespects(h', o, Gray, s.next, live);
        HeapRespectsTrans(s.heap, h', Paint(h', o, Gray), s.next, live);
      } else if s.phase.Propagate? {
        MarkRespects(s1, v.id, live);
        hide ReallyMark;
        HeapRespectsTrans(s.heap, h', ReallyMark(Marker(h', s.gray), v.id).heap, s.next, live);
      } else {
        PaintRespects(h', o, White(s.white), s.next, live);
        HeapRespectsTrans(s.heap, h', Paint(h', o, White(s.white)), s.next, live);
      }
    }
  }

  lemma StoreRespects(s: State, o: Id, refs: seq<Id>, v: Value, live: set<Id>)
    requires Enabled(s, Store(o, refs, v)) && LiveSet(s, live)
    ensures Respects(s, DoStore(s, o, refs, v), live, {})
  {
    ReachIn(s, live, o);
    if v.Ref? { ReachIn(s, live, v.id); }
    var b := s.heap[o].body;
    var b' := match b
      case Udata(_) => Udata(refs)
      case Func(_) => Func(refs)
      case Table(_) => Table(refs)
      case _ => Proto(refs);
    var h' := s.heap[o := s.heap[o].(body := b')];
    assert Stored(s.heap, o, v, h');
    hide Stored, Respects, LiveSet;
    BarrierRespects(s, o, v, h', live);
  }

  lemma SetClosedUpvalRespects(s: State, u: Id, v: Value, live: set<Id>)
    requires Enabled(s, SetUpval(u, v)) && s.heap[u].body.Closed? && LiveSet(s, live)
    ensures Respects(s, DoSetUpval(s, u, v), live, {})
  {
    ReachIn(s, live, u);
    if v.Ref? { ReachIn(s, live, v.id); }
    var h' := s.heap[u := s.heap[u].(body := Closed(v))];
    forall k | k in Kids(h', u) ensures v == Ref(k) { assert Ref(k) in [v]; }
    assert Stored(s.heap, u, v, h');
    hide Stored, Respects, LiveSet;
    BarrierRespects(s, u, v, h', live);
  }

  // ----------------------------------------------------------------- stacks

  lemma RestackThread(h: Heap, t: Id, refs: seq<Id>, stack: seq<Value>, live: set<Id>, k: Id)
    requires IsThread(h, t) && (k in refs || Ref(k) in stack)
    requires forall r :: r in refs ==> r in live || r in h[t].body.refs
    requires forall j :: 0 <= j < |stack| && stack[j].Ref? ==>
               stack[j].id in live || (j < |h[t].body.stack| && stack[j] == h[t].body.stack[j])
    ensures k in live || k in h[t].body.refs || Ref(k) in h[t].body.stack
  {
    if k !in refs {
      var j :| 0 <= j < |stack| && stack[j] == Ref(k);
      if k !in live { assert h[t].body.stack[j] in h[t].body.stack; }
    }
  }

  lemma RestackRespects(s: State, t: Id, refs: seq<Id>, stack: seq<Value>, live: set<Id>)
    requires IsThread(s.heap, t) && OpenOk(s.heap) && LiveSet(s, live)
    requires forall r :: r in refs ==> r in live || r in s.heap[t].body.refs
    requires forall j :: 0 <= j < |stack| && stack[j].Ref? ==>
               stack[j].id in live || (j < |s.heap[t].body.stack| && stack[j] == s.heap[t].body.stack[j])
    ensures Respects(s, DoSetStack(s, t, refs, stack), live, {})
  {
    hide LiveSet;
    var h, h' := s.heap, DoSetStack(s, t, refs, stack).heap;
    forall x, k | x in h' && k in Kids(h', x) ensures k in Kids(h, x) || k in live {
      if x == t {
        RestackThread(h, t, refs, stack, live, k);
      } else if h[x].body.Open? {
        assert OpenAt(h, x);
        if h[x].body.thread == t {
          assert Ref(k) in [stack[h[x].body.slot]];
          if k !in live { assert Ref(k) in [h[t].body.stack[h[x].body.slot]]; }
        }
      }
    }
    LiveRoots(s, live);
    assert Roots(DoSetStack(s, t, refs, stack)) == Roots(s);
  }

  lemma LiveRoots(s: State, live: set<Id>)
    requires LiveSet(s, live)
    ensures forall r :: r in Roots(s) ==> r in live
  {
  }

  lemma SetStackRespects(s: State, t: Id, refs: seq<Id>, stack: seq<Value>, live: set<Id>)
    requires Inv(s) && Enabled(s, SetStack(t, refs, stack)) && LiveSet(s, live)
    ensures Respects(s, DoSetStack(s, t, refs, stack), live, {})
  {
    forall r | r in refs ensures r in live { ReachIn(s, live, r); }
    forall j | 0 <= j < |stack| && stack[j].Ref? ensures stack[j].id in live {
      assert stack[j] in stack;
      ReachIn(s, live, stack[j].id);
    }
    hide Respects, LiveSet;
    RestackRespects(s, t, refs, stack, live);
  }

  lemma SetOpenUpvalRespects(s: State, u: Id, v: Value, live: set<Id>)
    requires Inv(s) && Enabled(s, SetUpval(u, v)) && s.heap[u].body.Open? && LiveSet(s, live)
    ensures Respects(s, DoSetUpval(s, u, v), live, {})
  {
    if v.Ref? { ReachIn(s, live, v.id); }
    assert OpenAt(s.heap, u);
    var tb := s.heap[s.heap[u].body.thread].body;
    hide Respects, LiveSet;
    RestackRespects(s, s.heap[u].body.thread, tb.refs, tb.stack[s.heap[u].body.slot := v], live);
  }

  // ------------------------------------------------------------------ close

  ghost predicate KidsKept(h: Heap, h': Heap) {
    forall o :: o in h' ==> o in h && Kids(h', o) == Kids(h, o)
  }

  lemma CloseOneRespects(s: State, t: Id, live: set<Id>)
    requires FirstOpenAbove(s.heap, t, 0) && OpenOk(s.heap) && KindsOk(s.heap) && ClosedSet(s.heap, live) && t in live
    ensures HeapRespects(s.heap, CloseOne(s, t).heap, s.next, live, {})
    ensures KidsKept(s.heap, CloseOne(s, t).heap)
    ensures CloseOne(s, t).next == s.next
  {
    var u := s.heap[t].body.open[0];
    FirstOpenIntro(s, t);
    FirstOpenFacts(s.heap, t, u);
    if IsDead(s.heap, s.white, u) {
      DropRespects(s.heap, t, u, s.next, live);
    } else {
      var c := if s.heap[u].color.White? then s.heap[u].color else if s.phase.Propagate? then Black else White(s.white);
      CloseOneForm(s, t, u, c);
      hide CloseOne, OpenOk, KindsOk;
      DetachedRespects(s.heap, t, u, c, s.next, live);
      CloseBarrierRespects(s, t, u, c, live);
    }
  }

  lemma DropRespects(h: Heap, t: Id, u: Id, next: Id, live: set<Id>)
    requires FirstOpen(h, t, u)
    ensures var h' := h[t := h[t].(body := h[t].body.(open := h[t].body.open[1..]))] - {u};
            HeapRespects(h, h', next, live, {}) && KidsKept(h, h')
  {
    FirstOpenFacts(h, t, u);
    var h' := h[t := h[t].(body := h[t].body.(open := h[t].body.open[1..]))] - {u};
    forall o | o in h' ensures Kids(h', o) == Kids(h, o) {
      if h[o].body.Open? { assert OpenAt(h, o); }
    }
  }

  lemma CloseBarrierRespects(s: State, t: Id, u: Id, c: Color, live: set<Id>)
    requires FirstOpen(s.heap, t, u) && u in s.heap && s.heap[u].body.Open? && s.heap[u].body.slot < |s.heap[t].body.stack| && u != t
    requires var h := Detached(s.heap, t, u, c);
             HeapRespects(s.heap, h, s.next, live, {}) && ClosedSet(h, live) && KidsKept(s.heap, h)
    requires ClosedSet(s.heap, live) && t in live
    ensures var s1 := LinkHead(s.(heap := Detached(s.heap, t, u, c), uvhead := Without(s.uvhead, u)), u);
            var s2 := if s.phase.Propagate? then Barrier(s1, u, s1.heap[u].body.value) else s1;
            HeapRespects(s.heap, s2.heap, s.next, live, {}) && KidsKept(s.heap, s2.heap) && s2.next == s.next
  {
    hide ReallyMark, OpenOk, HeapRespects, KidsKept, Marks, ClosedSet;
    var s1 := LinkHead(s.(heap := Detached(s.heap, t, u, c), uvhead := Without(s.uvhead, u)), u);
    var v := s1.heap[u].body.value;
    if v.Ref? && s.phase.Propagate? && IsWhite(s1.heap, v.id) && s1.heap[u].color.Black? {
      SlotInLive(s.heap, live, t, s.heap[u].body.slot, v.id);
      MarkRespects(s1, v.id, live);
      var m := ReallyMark(Marker(s1.heap, s1.gray), v.id);
      MarksKidsKept(s1.heap, m.heap);
      HeapRespectsTrans(s.heap, s1.heap, m.heap, s.next, live);
      KidsKeptTrans(s.heap, s1.heap, m.heap);
    }
  }

  lemma KidsKeptTrans(a: Heap, b: Heap, c: Heap)
    requires KidsKept(a, b) && KidsKept(b, c)
    ensures KidsKept(a, c)
  {
  }

  lemma MarksKidsKept(h: Heap, h': Heap)
    requires Marks(h, h')
    ensures KidsKept(h, h') && h'.Keys == h.Keys
  {
    forall o | o in h ensures Kids(h', o) == Kids(h, o) { KidsSame(h, h', o); }
  }

  lemma DetachedRespects(h: Heap, t: Id, u: Id, c: Color, next: Id, live: set<Id>)
    requires FirstOpen(h, t, u) && ClosedSet(h, live) && u in h && (h[u].color.White? ==> c == h[u].color)
    ensures u in h && h[u].body.Open? && h[u].body.slot < |h[t].body.stack|
    ensures HeapRespects(h, Detached(h, t, u, c), next, live, {}) && ClosedSet(Detached(h, t, u, c), live)
    ensures KidsKept(h, Detached(h, t, u, c))
  {
    FirstOpenFacts(h, t, u);
    forall o | o in h ensures Kids(Detached(h, t, u, c), o) == Kids(h, o) { DetachedKids(h, t, u, c, o); }
  }

  lemma {:induction false} CloseFromRespects(s: State, t: Id, level: nat, live: set<Id>)
    requires Inv(s) && ClosedSet(s.heap, live) && t in live
    ensures HeapRespects(s.heap, CloseFrom(s, t, level).heap, s.next, live, {})
    ensures CloseFrom(s, t, level).phase == s.phase && CloseFrom(s, t, level).white == s.white && CloseFrom(s, t, level).next == s.next
    decreases OpenCount(s.heap, t)
  {
    if FirstOpenAbove(s.heap, t, level) {
      var s1 := CloseOne(s, t);
      CloseOneShrinks(s, t);
      CloseOneRespects(s, t, live);
      CloseMarkStep(s, t);
      CloseOneFreed(s, t);
      hide Inv, InvBut, CloseOne;
      CloseFromRespects(s1, t, level, live);
      ShrinkRespectsTrans(s.heap, s1.heap, CloseFrom(s1, t, level).heap, s.next, live);
    }
  }

  lemma ShrinkRespectsTrans(a: Heap, b: Heap, c: Heap, next: Id, live: set<Id>)
    requires HeapRespects(a, b, next, live, {}) && HeapRespects(b, c, next, live, {})
    requires b.Keys <= a.Keys && forall o :: o in c && o in a ==> o in b
    ensures HeapRespects(a, c, next, live, {})
  {
  }

  lemma CloseRespects(s: State, t: Id, level: nat, live: set<Id>)
    requires Inv(s) && Enabled(s, Close(t, level)) && LiveSet(s, live)
    ensures Respects(s, CloseFrom(s, t, level), live, {})
  {
    ReachIn(s, live, t);
    CloseFromRespects(s, t, level, live);
    CloseFromRoots(s, t, level);
  }

  lemma RootsRespect(s: State, s': State, live: set<Id>)
    requires s'.heap == s.heap && s'.phase == s.phase && s'.white == s.white && s'.next == s.next
    requires forall r :: r in Roots(s') ==> r in live
    ensures Respects(s, s', live, {})
  {
  }

  lemma SetMetaRespects(s: State, mts: seq<Value>, live: set<Id>)
    requires Enabled(s, SetMeta(mts)) && LiveSet(s, live)
    ensures Respects(s, s.(mts := mts), live, {})
  {
    var s' := s.(mts := mts);
    forall r | r in Roots(s') ensures r in live {
      if r in Ids(mts) { assert Ref(r) in mts; ReachIn(s, live, r); } else { assert r in Roots(s); }
    }
    RootsRespect(s, s', live);
  }

  lemma FixRespects(s: State, o: Id, live: set<Id>)
    requires Enabled(s, Fix(o)) && LiveSet(s, live)
    ensures Respects(s, s.(heap := s.heap[o := s.heap[o].(fixed := true)]), live, {})
  {
    ReachIn(s, live, o);
    var h' := s.heap[o := s.heap[o].(fixed := true)];
    forall x | x in s.heap ensures Kids(h', x) == Kids(s.heap, x) { }
    assert Roots(s.(heap := h')) == Roots(s);
  }

  lemma ResizeRespects(s: State, n: nat, live: set<Id>)
    requires n > 0 && LiveSet(s, live)
    ensures Respects(s, ResizeStrings(s, n), live, {})
  {
    assert Roots(ResizeStrings(s, n)) == Roots(s);
    RootsRespect(s, ResizeStrings(s, n), live);
  }

  lemma ProgramRespects(s: State, op: Op, live: set<Id>)
    requires Inv(s) && Enabled(s, op) && !op.Step? && LiveSet(s, live)
    ensures Respects(s, Apply(s, op), live, Found(s, op))
  {
    hide Inv, InvBut, DoNewObj, DoIntern, DoFindUpval, DoStore, DoSetStack, DoSetUpval, CloseFrom, ResizeStrings, Respects;
    match op
    case NewObj(b) => NewObjRespects(s, b, live);
    case Intern(content) => InternRespects(s, content, live);
    case FindUpval(t, slot) => FindUpvalRespects(s, t, slot, live);
    case Store(o, refs, v) => StoreRespects(s, o, refs, v, live);
    case SetStack(t, refs, stack) => SetStackRespects(s, t, refs, stack, live);
    case SetUpval(u, v) =>
      if s.heap[u].body.Open? { SetOpenUpvalRespects(s, u, v, live); } else { SetClosedUpvalRespects(s, u, v, live); }
    case Close(t, level) => CloseRespects(s, t, level, live);
    case SetMeta(mts) => SetMetaRespects(s, mts, live);
    case Resume(t) =>
      ReachIn(s, live, t);
      assert forall r :: r in Roots(s.(running := t)) ==> r == t || r in Roots(s);
      RootsRespect(s, s.(running := t), live);
    case Release(kept) =>
      assert forall r :: r in Roots(s.(pinned := kept)) ==> r in Roots(s);
      RootsRespect(s, s.(pinned := kept), live);
    case Fix(o) => FixRespects(s, o, live);
    case Resize(n) => ResizeRespects(s, n, live);
  }

  predicate Cycling(p: Phase) {
    p.Propagate? || p.SweepString? || p.Sweep?
  }

  lemma ProgramDoomed(s: State, op: Op, d: set<Id>)
    requires Inv(s) && Enabled(s, op) && !op.Step? && Doomed(s, d) && Cycling(s.phase)
    ensures Doomed(Apply(s, op), d - Found(s, op))
  {
    InvLive(s);
    DoomedLiveSet(s, d);
    assert forall o :: o in s.heap ==> o < s.next;
    var live := set o | o in s.heap && o !in d && !IsDead(s.heap, s.white, o);
    hide Inv, InvBut, Apply, Enabled, Doomed, Found, LiveSet;
    ProgramRespects(s, op, live);
    hide Respects;
    RespectsDoomed(s, Apply(s, op), live, Found(s, op), d);
  }

  // ---------------------------------------------------------- the collector

  ghost predicate MarkedIn(h: Heap, live: set<Id>) {
    forall o :: Marked(h, o) ==> o in live
  }

  lemma ClosedSetKept(h: Heap, h': Heap, live: set<Id>)
    requires Advances(h, h') && ClosedSet(h, live)
    ensures ClosedSet(h', live)
  {
    forall o, k | o in live && o in h' && k in Kids(h', o) ensures k in live { AdvancesKids(h, h', o); }
  }

  lemma MarkAllMarkedIn(m: Marker, ids: seq<Id>, live: set<Id>)
    requires MarkedIn(m.heap, live) && ClosedSet(m.heap, live) && forall x :: x in ids ==> x in live
    ensures var r := MarkAll(m, ids); MarkedIn(r.heap, live) && ClosedSet(r.heap, live)
  {
    MarkAllStaysIn(m, ids, live);
    hide MarkAll;
    MarksAdvance(m.heap, MarkAll(m, ids).heap);
    ClosedSetKept(m.heap, MarkAll(m, ids).heap, live);
  }

  lemma PropagateMarkMarkedIn(t: Tracer, live: set<Id>)
    requires t.gray != [] && GrayOk(t.heap, t.gray) && KindsOk(t.heap) && MarkedIn(t.heap, live) && ClosedSet(t.heap, live)
    ensures var r := PropagateMark(t); MarkedIn(r.heap, live) && ClosedSet(r.heap, live)
  {
    var o := t.gray[0];
    var h := if t.heap[o].body.Thread? then t.heap else Paint(t.heap, o, Black);
    assert Advances(t.heap, h) && Marked(t.heap, o);
    ClosedSetKept(t.heap, h, live);
    MarkAllMarkedIn(Marker(h, t.gray[1..]), Kids(t.heap, o), live);
  }

  lemma {:induction false} PropagateAllMarkedIn(t: Tracer, live: set<Id>)
    requires GrayOk(t.heap, t.gray) && KindsOk(t.heap) && MarkedIn(t.heap, live) && ClosedSet(t.heap, live)
    ensures var r := PropagateAll(t); MarkedIn(r.heap, live) && ClosedSet(r.heap, live)
    decreases Whites(t.heap), |t.gray|
  {
    if t.gray != [] {
      PropagateMarkShrinks(t);
      PropagateMarkSpec(t);
      PropagateMarkMarkedIn(t, live);
      PropagateAllMarkedIn(PropagateMark(t), live);
    }
  }

  lemma {:induction false} RemarkMarkedIn(m: Marker, uvs: seq<Id>, live: set<Id>)
    requires MarkedIn(m.heap, live) && ClosedSet(m.heap, live)
    ensures var r := RemarkUpvals(m, uvs); MarkedIn(r.heap, live) && ClosedSet(r.heap, live)
    decreases |uvs|
  {
    if uvs != [] {
      if uvs[0] in m.heap && m.heap[uvs[0]].color.Gray? {
        assert Marked(m.heap, uvs[0]);
        MarkAllMarkedIn(m, Kids(m.heap, uvs[0]), live);
        RemarkMarkedIn(MarkAll(m, Kids(m.heap, uvs[0])), uvs[1..], live);
      } else {
        RemarkMarkedIn(m, uvs[1..], live);
      }
    }
  }

  /** The atomic step marks nothing outside a closed set that holds the marked
      objects and the roots. */
  lemma AtomicMarkedIn(s: State, live: set<Id>)
    requires TriColor(Tracer(s.heap, s.gray, s.grayagain)) && UvOk(s.heap, s.uvhead)
    requires MarkedIn(s.heap, live) && ClosedSet(s.heap, live)
    requires s.running in live && forall r :: r in Ids(s.mts) ==> r in live
    ensures MarkedIn(AtomicMark(s).heap, live)
  {
    var extra := set x | x in s.grayagain;
    RemarkCovers(Tracer(s.heap, s.gray, s.grayagain), s.uvhead);
    RemarkMarkedIn(Marker(s.heap, s.gray), s.uvhead, live);
    var m1 := RemarkUpvals(Marker(s.heap, s.gray), s.uvhead);
    var t1' := Tracer(m1.heap, m1.gray, s.grayagain);
    PropagateAllBoth(t1', extra);
    PropagateAllMarkedIn(t1', live);
    var t1 := PropagateAll(t1');
    var seeds := [s.running] + Ids(s.mts);
    MarkAllBoth(t1, seeds, extra);
    MarkAllMarkedIn(Marker(t1.heap, t1.gray), seeds, live);
    var m2 := MarkAll(Marker(t1.heap, t1.gray), seeds);
    var t2' := Tracer(m2.heap, m2.gray, t1.again);
    PropagateAllBoth(t2', extra);
    PropagateAllMarkedIn(t2', live);
    var t2 := PropagateAll(t2');
    PropagateAllMarkedIn(Tracer(t2.heap, t2.again, []), live);
  }

  lemma CollectsSpared(s: State, s': State, d: set<Id>)
    requires Doomed(s, d) && Collects(s, s') && s'.next == s.next
    requires forall o :: o in d && o in s'.heap ==> DoomedMark(s', o)
    ensures Doomed(s', d)
  {
  }

  lemma StepNext(s: State)
    ensures SingleStep(s).next == s.next
  {
    hide SweepList, MarkAll, PropagateMark, AtomicMark, SweepLeaves, Rehash, Chain, StrCount;
    SweepListNext(s, GCSWEEPMAX);
  }

  lemma {:induction false} CloseFromNext(s: State, t: Id, level: nat)
    ensures CloseFrom(s, t, level).next == s.next
    decreases OpenCount(s.heap, t)
  {
    if FirstOpenAbove(s.heap, t, level) {
      CloseOneShrinks(s, t);
      CloseFromNext(CloseOne(s, t), t, level);
    }
  }

  lemma {:induction false} SweepListNext(s: State, count: nat)
    ensures SweepList(s, count).next == s.next
    decreases count
  {
    if count > 0 && s.sweepgc < |s.rootgc| {
      SweepRootNext(s);
      hide SweepRoot;
      SweepListNext(SweepRoot(s), count - 1);
    }
  }

  lemma SweepRootNext(s: State)
    requires s.sweepgc < |s.rootgc|
    ensures SweepRoot(s).next == s.next
  {
    var o := s.rootgc[s.sweepgc];
    if o in s.heap {
      var s1 := if s.heap[o].body.Thread? then SweepOpen(s, o) else s;
      CloseFromNext(s1.(rootgc := s.rootgc[..s.sweepgc] + s.rootgc[s.sweepgc + 1..]), o, 0);
    }
  }

  lemma DoomedFacts(s: State, s': State, d: set<Id>, o: Id)
    requires Doomed(s, d) && Collects(s, s') && o in d && o in s'.heap && s.phase.Propagate?
    ensures o in s.heap && IsWhite(s.heap, o)
  {
  }

  lemma MarkStepDoomed(s: State, d: set<Id>)
    requires Inv(s) && s.phase.Propagate? && s.pinned == {} && Doomed(s, d)
    ensures Doomed(SingleStep(s), d)
  {
    hide Inv, InvBut, SingleStep, Collects, Doomed, DoomedMark, LiveSet, Live;
    var live := set o | o in s.heap && o !in d && !IsDead(s.heap, s.white, o);
    SingleStepKeeps(s);
    StepNext(s);
    InvLive(s);
    DoomedLiveSet(s, d);
    MarkedSpared(s, d);
    forall o | o in d && o in SingleStep(s).heap ensures DoomedMark(SingleStep(s), o) {
      DoomedFacts(s, SingleStep(s), d, o);
      MarkStepColor(s, live, o);
    }
    CollectsSpared(s, SingleStep(s), d);
  }

  lemma MarkedSpared(s: State, d: set<Id>)
    requires Inv(s) && s.phase.Propagate? && Doomed(s, d)
    ensures MarkedIn(s.heap, set o | o in s.heap && o !in d && !IsDead(s.heap, s.white, o))
  {
  }

  lemma MarkStepColor(s: State, live: set<Id>, o: Id)
    requires Inv(s) && s.phase.Propagate? && LiveSet(s, live) && MarkedIn(s.heap, live) && o !in live
    requires o in SingleStep(s).heap && o in s.heap && IsWhite(s.heap, o)
    ensures DoomedMark(SingleStep(s), o)
  {
    if s.gray != [] {
      PropagateMarkMarkedIn(Tracer(s.heap, s.gray, s.grayagain), live);
    } else {
      AtomicColor(s, live, o);
    }
  }

  lemma AtomicColor(s: State, live: set<Id>, o: Id)
    requires Inv(s) && s.phase.Propagate? && LiveSet(s, live) && MarkedIn(s.heap, live) && o !in live
    requires o in s.heap && IsWhite(s.heap, o)
    ensures o in Atomic(s).heap && DoomedMark(Atomic(s), o)
  {
    AtomicMarkSpec(s);
    assert s.running in Roots(s);
    AtomicMarkedIn(s, live);
    assert NoDead(s.heap, s.white);
    hide AtomicMark, Inv, InvBut;
  }

  lemma SweepStepDoomed(s: State, d: set<Id>)
    requires Inv(s) && (s.phase.SweepString? || s.phase.Sweep?) && s.pinned == {} && Doomed(s, d)
    ensures Doomed(SingleStep(s), d)
  {
    SingleStepKeeps(s);
    StepNext(s);
    SweepStepColors(s);
    hide SingleStep, Collects, Sheds;
    forall o | o in d && o in SingleStep(s).heap ensures DoomedMark(SingleStep(s), o) {
      DoomedStays(s, SingleStep(s), o);
    }
    hide Inv, InvBut;
    CollectsSpared(s, SingleStep(s), d);
  }

  lemma SweepStepColors(s: State)
    requires Inv(s) && (s.phase.SweepString? || s.phase.Sweep?)
    ensures Sheds(s.heap, s.white, SingleStep(s).heap) && SingleStep(s).white == s.white
    ensures SingleStep(s).phase.SweepString? || SingleStep(s).phase.Sweep? || SingleStep(s).phase.Finalize?
  {
    if s.phase.SweepString? { SweepStringStepKeeps(s); } else { SweepStepKeeps(s); }
  }

  /** A doomed object stays dead; at the end of the sweep all is white, so by
      then it is gone. */
  lemma DoomedStays(s: State, s': State, o: Id)
    requires Inv(s') && Sheds(s.heap, s.white, s'.heap) && s'.white == s.white
    requires s'.phase.SweepString? || s'.phase.Sweep? || s'.phase.Finalize?
    requires IsDead(s.heap, s.white, o) && !s.heap[o].fixed && o in s'.heap
    ensures DoomedMark(s', o)
  {
    assert IsDead(s'.heap, s.white, o);
  }

  lemma StepDoomed(s: State, op: Op, d: set<Id>)
    requires Inv(s) && Enabled(s, op) && Doomed(s, d) && Cycling(s.phase)
    ensures Doomed(Apply(s, op), d - Found(s, op))
  {
    hide Inv, InvBut, SingleStep, Doomed;
    if op.Step? {
      if s.phase.Propagate? { MarkStepDoomed(s, d); } else { SweepStepDoomed(s, d); }
      assert d - {} == d;
    } else {
      ProgramDoomed(s, op, d);
    }
  }
}
