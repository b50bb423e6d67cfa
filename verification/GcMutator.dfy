/** Every operation of the running program keeps the collector's invariant. */
module GcMutator {
  import opened GcHeap
  import opened GcState
  import opened GcInv
  import opened GcCollector
  import opened GcClose
  import opened GcSweep
  import opened GcCycle

  // -------------------------------------------------- painting one object

  /** Colours that the sweep does not rely on may change. */
  lemma PaintSwept(s: State, o: Id, c: Color)
    requires PhaseOk(s) && (s.phase.SweepString? || s.phase.Sweep?) && o in s.heap
    requires c == White(s.white) || s.heap[o].color != White(s.white)
    ensures PhaseOk(s.(heap := Paint(s.heap, o, c)))
  {
    var h' := Paint(s.heap, o, c);
    if s.phase.Sweep? {
      forall i | 0 <= i < s.sweepgc && i < |s.rootgc| ensures WhiteAgain(h', s.white, s.rootgc[i]) {
        assert WhiteAgain(s.heap, s.white, s.rootgc[i]);
      }
    }
  }

  /** Bringing a dead leaf or upvalue back: what it refers to is alive. */
  lemma ReviveLive(h: Heap, white: bool, o: Id, roots: set<Id>)
    requires ClosedLive(h, white) && RootsLive(h, white, roots) && o in h
    requires forall k :: k in Kids(h, o) ==> NonDead(h, white, k)
    ensures var h' := Paint(h, o, White(white)); ClosedLive(h', white) && RootsLive(h', white, roots + {o})
  {
    var h' := Paint(h, o, White(white));
    forall x, k | NonDead(h', white, x) && k in Kids(h', x) ensures NonDead(h', white, k) {
      KidsPaint(h, o, White(white), x);
      if x != o { assert NonDead(h, white, x); }
      assert NonDead(h, white, k);
    }
  }

  lemma PinLive(s: State, o: Id)
    requires Live(s) && NonDead(s.heap, s.white, o)
    ensures Live(s.(pinned := s.pinned + {o}))
  {
    assert Roots(s.(pinned := s.pinned + {o})) == Roots(s) + {o};
  }

  /** A lookup that finds an object: dead or not, it is alive and held after. */
  lemma ReviveKeeps(s: State, o: Id)
    requires Inv(s) && o in s.heap && forall k :: k in Kids(s.heap, o) ==> NonDead(s.heap, s.white, k)
    ensures var h := if IsDead(s.heap, s.white, o) then Paint(s.heap, o, White(s.white)) else s.heap;
            Inv(s.(heap := h, pinned := s.pinned + {o}))
  {
    if IsDead(s.heap, s.white, o) {
      ReviveDeadKeeps(s, o);
    } else {
      PinLive(s, o);
      PinRest(s, s.pinned + {o});
    }
  }

  lemma PinRest(s: State, pinned: set<Id>)
    requires Shape(s, {}) && PhaseOk(s)
    ensures Shape(s.(pinned := pinned), {}) && PhaseOk(s.(pinned := pinned))
  {
  }

  lemma ReviveDeadKeeps(s: State, o: Id)
    requires Inv(s) && IsDead(s.heap, s.white, o) && forall k :: k in Kids(s.heap, o) ==> NonDead(s.heap, s.white, k)
    ensures Inv(s.(heap := Paint(s.heap, o, White(s.white)), pinned := s.pinned + {o}))
  {
    var s1 := s.(heap := Paint(s.heap, o, White(s.white)));
    assert s.phase.SweepString? || s.phase.Sweep?;
    hide OpenOk, UvOk, RootgcOk, StrOk, Anchors, ClosedLive, RootsLive, PhaseOk, KindsOk, Kids;
    PaintBodies(s.heap, o, White(s.white));
    OutlineShape(s, s1, {});
    ReviveLive(s.heap, s.white, o, Roots(s));
    PaintSwept(s, o, White(s.white));
    PinRest(s1, s.pinned + {o});
    assert Roots(s1.(pinned := s.pinned + {o})) == Roots(s) + {o};
  }

  // ------------------------------------------------------------ new objects

  /** h' is h with one new white object. */
  ghost predicate Extended(h: Heap, white: bool, n: Id, b: Body, h': Heap) {
    n !in h && h' == h[n := Obj(b, White(white), false)]
  }

  lemma ExtendedKids(h: Heap, white: bool, n: Id, b: Body, h': Heap, o: Id)
    requires Extended(h, white, n, b, h') && OpenOk(h) && o in h
    ensures Kids(h', o) == Kids(h, o)
  {
    if h[o].body.Open? { assert OpenAt(h, o); }
  }

  lemma ExtendedLive(h: Heap, white: bool, n: Id, b: Body, h': Heap, roots: set<Id>)
    requires Extended(h, white, n, b, h') && OpenOk(h) && ClosedLive(h, white) && RootsLive(h, white, roots)
    requires forall k :: k in Kids(h', n) ==> NonDead(h, white, k)
    ensures ClosedLive(h', white) && RootsLive(h', white, roots + {n})
  {
    forall x, k | NonDead(h', white, x) && k in Kids(h', x) ensures NonDead(h', white, k) {
      if x != n {
        ExtendedKids(h, white, n, b, h', x);
        assert NonDead(h, white, x);
      }
      assert NonDead(h, white, k);
    }
  }

  lemma ExtendedOpenOk(h: Heap, white: bool, n: Id, b: Body, h': Heap)
    requires Extended(h, white, n, b, h') && OpenOk(h) && !b.Open? && (b.Thread? ==> b.open == [])
    ensures OpenOk(h')
  {
    forall u | u in h' && h'[u].body.Open? ensures OpenAt(h', u) { assert OpenAt(h, u); }
    forall t | IsThread(h', t) ensures OpenList(h', t, h'[t].body.open) {
      if t != n {
        assert IsThread(h, t) && OpenList(h, t, h[t].body.open);
        OpenListSame(h, h', t, h[t].body.open);
      }
    }
  }

  lemma ExtendedTriColor(t: Tracer, white: bool, n: Id, b: Body, h': Heap)
    requires TriColor(t) && Extended(t.heap, white, n, b, h') && OpenOk(t.heap)
    requires forall o, k :: o in t.heap && k in Kids(t.heap, o) ==> k in t.heap
    ensures TriColor(Tracer(h', t.gray, t.again))
  {
    forall o | Marked(h', o) && o !in t.gray && o !in t.again && !h'[o].body.Str? && !h'[o].body.Open?
      ensures h'[o].color.Black? && Traced(h', o)
    {
      assert Marked(t.heap, o);
      ExtendedKids(t.heap, white, n, b, h', o);
    }
  }

  lemma ExtendedSweptRoots(h: Heap, white: bool, n: Id, b: Body, h': Heap, rootgc: seq<Id>, m: nat)
    requires Extended(h, white, n, b, h') && SweptRoots(h, white, rootgc, m)
    ensures SweptRoots(h', white, rootgc, m)
  {
    forall i | 0 <= i < m && i < |rootgc| ensures WhiteAgain(h', white, rootgc[i]) {
      assert WhiteAgain(h, white, rootgc[i]);
    }
  }

  /** The phase part is kept when a white object enters the heap. */
  lemma ExtendedPhase(s: State, n: Id, b: Body, h': Heap)
    requires PhaseOk(s) && Extended(s.heap, s.white, n, b, h') && OpenOk(s.heap)
    requires ClosedLive(s.heap, s.white)
    ensures PhaseOk(s.(heap := h'))
  {
    match s.phase
    case Propagate =>
      forall o, k | o in s.heap && k in Kids(s.heap, o) ensures k in s.heap {
        assert NonDead(s.heap, s.white, o);
        assert NonDead(s.heap, s.white, k);
      }
      ExtendedTriColor(Tracer(s.heap, s.gray, s.grayagain), s.white, n, b, h');
    case Sweep => ExtendedSweptRoots(s.heap, s.white, n, b, h', s.rootgc, s.sweepgc);
    case _ =>
  }

  /** Insertion at position i of rootgc, seen from the sweep pointer. */
  lemma InsertSwept(h: Heap, white: bool, rootgc: seq<Id>, m: nat, i: nat, n: Id)
    requires SweptRoots(h, white, rootgc, m) && m <= |rootgc| && i <= |rootgc| && WhiteAgain(h, white, n)
    ensures SweptRoots(h, white, rootgc[..i] + [n] + rootgc[i..], if m <= i then m else m + 1)
  {
    var r := rootgc[..i] + [n] + rootgc[i..];
    var m' := if m <= i then m else m + 1;
    forall j | 0 <= j < m' && j < |r| ensures WhiteAgain(h, white, r[j]) {
      if j < i { assert r[j] == rootgc[j]; } else if j > i { assert r[j] == rootgc[j - 1]; }
    }
  }

  lemma InsertRootgc(h: Heap, h': Heap, white: bool, rootgc: seq<Id>, i: nat, n: Id, b: Body)
    requires RootgcOk(h, rootgc, {}) && Extended(h, white, n, b, h') && i <= |rootgc| && !b.Str? && !b.Open?
    ensures RootgcOk(h', rootgc[..i] + [n] + rootgc[i..], {})
  {
    var r := rootgc[..i] + [n] + rootgc[i..];
    assert rootgc == rootgc[..i] + rootgc[i..];
    assert forall o :: o in r <==> o == n || o in rootgc;
    forall p, q | 0 <= p < q < |r| ensures r[p] != r[q] {
      assert n !in rootgc;
    }
  }

  function LinkPos(s: State, b: Body): (i: nat)
    ensures i <= |s.rootgc|
  {
    if b.Udata? && s.main in s.rootgc then IndexOf(s.rootgc, s.main) + 1 else 0
  }

  lemma LinkForm(s: State, o: Id, b: Body)
    ensures Link(s, o, b) ==
            var i := LinkPos(s, b);
            s.(rootgc := s.rootgc[..i] + [o] + s.rootgc[i..], sweepgc := if s.sweepgc <= i then s.sweepgc else s.sweepgc + 1)
  {
    var i := LinkPos(s, b);
    if i == 0 { assert s.rootgc[..0] + [o] + s.rootgc[0..] == [o] + s.rootgc; }
  }

  lemma ExtendedLists(s: State, n: Id, b: Body, h': Heap)
    requires Shape(s, {}) && Extended(s.heap, s.white, n, b, h') && n == s.next
    requires !b.Str? && !b.Open? && (b.Thread? ==> b.open == [])
    ensures UvOk(h', s.uvhead) && StrOk(h', s.strt, s.hash) && Anchors(h', s.main, s.registry, s.running, s.next + 1)
  {
    hide OpenOk, RootgcOk;
    SameStrings(s.heap, h', s.strt, s.hash);
  }

  lemma NewObjKeeps(s: State, b: Body)
    requires Inv(s) && Enabled(s, NewObj(b))
    ensures Inv(DoNewObj(s, b))
  {
    var n := s.next;
    var h' := s.heap[n := Obj(b, White(s.white), false)];
    assert n !in s.heap;
    NewKidsLive(s, b, h');
    NewObjShape(s, b, h');
    ExtendedLive(s.heap, s.white, n, b, h', Roots(s));
    ExtendedPhase(s, n, b, h');
    NewObjPhase(s, b, h');
    NewObjRoots(s, b);
    NewObjFields(s, b, h');
    hide DoNewObj, OpenOk, UvOk, RootgcOk, StrOk, Anchors, ClosedLive, RootsLive, PhaseOk, KindsOk;
  }

  lemma NewKidsLive(s: State, b: Body, h': Heap)
    requires Live(s) && OpenOk(s.heap) && Enabled(s, NewObj(b)) && Extended(s.heap, s.white, s.next, b, h')
    ensures forall k :: k in Kids(h', s.next) ==> NonDead(s.heap, s.white, k)
  {
    forall k | k in Kids(h', s.next) ensures NonDead(s.heap, s.white, k) {
      assert Reach(s, k) by {
        if b.Closed? { assert Ref(k) in [b.value]; }
        if b.Thread? && k !in b.refs { assert Ref(k) in b.stack; }
      }
      ReachLive(s, k);
    }
  }

  lemma NewObjFields(s: State, b: Body, h': Heap)
    requires h' == s.heap[s.next := Obj(b, White(s.white), false)]
    ensures var s' := DoNewObj(s, b);
            && s'.heap == h' && s'.white == s.white && s'.uvhead == s.uvhead && s'.strt == s.strt && s'.hash == s.hash
            && s'.main == s.main && s'.registry == s.registry && s'.running == s.running && s'.next == s.next + 1
  {
  }

  lemma NewObjRoots(s: State, b: Body)
    ensures Roots(DoNewObj(s, b)) == Roots(s) + {s.next}
  {
  }

  lemma NewObjShape(s: State, b: Body, h': Heap)
    requires Shape(s, {}) && Extended(s.heap, s.white, s.next, b, h')
    requires !b.Str? && !b.Open? && (b.Thread? ==> b.open == [])
    ensures Shape(DoNewObj(s, b), {})
  {
    hide OpenOk, UvOk, RootgcOk, StrOk, Anchors, Link;
    var s1 := s.(heap := h', next := s.next + 1, pinned := s.pinned + {s.next});
    LinkForm(s1, s.next, b);
    ExtendedOpenOk(s.heap, s.white, s.next, b, h');
    ExtendedLists(s, s.next, b, h');
    InsertRootgc(s.heap, h', s.white, s.rootgc, LinkPos(s1, b), s.next, b);
  }

  lemma NewObjPhase(s: State, b: Body, h': Heap)
    requires PhaseOk(s.(heap := h')) && Extended(s.heap, s.white, s.next, b, h') && (b.Thread? ==> b.open == [])
    requires KindsOk(s.heap)
    ensures PhaseOk(DoNewObj(s, b)) && KindsOk(h')
  {
    var s1 := s.(heap := h', next := s.next + 1, pinned := s.pinned + {s.next});
    LinkForm(s1, s.next, b);
    if s.phase.Sweep? { InsertSwept(h', s.white, s.rootgc, s.sweepgc, LinkPos(s1, b), s.next); }
  }

  // ---------------------------------------------------------------- strings

  lemma ConsDistinct(n: Id, ids: seq<Id>)
    requires Distinct(ids) && n !in ids
    ensures Distinct([n] + ids)
  {
  }

  lemma NewStrOk(h: Heap, white: bool, n: Id, content: string, h': Heap, strt: seq<seq<Id>>, hash: string -> nat)
    requires StrOk(h, strt, hash) && Extended(h, white, n, Str(content), h')
    requires var b := hash(content) % |strt|; forall j :: 0 <= j < |strt[b]| && strt[b][j] in h ==> h[strt[b][j]].body != Str(content)
    ensures var b := hash(content) % |strt|; StrOk(h', strt[b := [n] + strt[b]], hash)
  {
    var b := hash(content) % |strt|;
    var strt' := strt[b := [n] + strt[b]];
    forall i, o | 0 <= i < |strt'| && o in strt'[i] ensures IsStr(h', o) && Bucket(h', o, hash, |strt'|) == i {
      assert o in strt[i] || (o == n && i == b);
      if o in strt[i] { assert IsStr(h, o) && Bucket(h, o, hash, |strt|) == i; }
    }
    forall o | IsStr(h', o) ensures o in strt'[Bucket(h', o, hash, |strt'|)] {
      if o != n { assert IsStr(h, o) && o in strt[Bucket(h, o, hash, |strt|)]; }
    }
    forall i | 0 <= i < |strt'| ensures Distinct(strt'[i]) {
      assert Distinct(strt[i]);
      if i == b {
        forall x | x in strt[b] ensures x != n { assert IsStr(h, x); }
        ConsDistinct(n, strt[b]);
      }
    }
    forall a | IsStr(h, a) ensures h[a].body != Str(content) {
      assert a in strt[Bucket(h, a, hash, |strt|)];
    }
  }

  lemma NewStrSwept(h: Heap, white: bool, n: Id, content: string, h': Heap, strt: seq<seq<Id>>, b: nat, m: nat)
    requires Extended(h, white, n, Str(content), h') && SweptStrings(h, white, strt, m) && b < |strt|
    ensures SweptStrings(h', white, strt[b := [n] + strt[b]], m)
  {
    var strt' := strt[b := [n] + strt[b]];
    forall i, o | 0 <= i < m && i < |strt'| && o in strt'[i] ensures o in h' && h'[o].color == White(white) {
      if o != n { assert o in strt[i]; }
    }
  }

  function NewStr(s: State, content: string): State
    requires |s.strt| > 0
  {
    var b := s.hash(content) % |s.strt|;
    s.(heap := s.heap[s.next := Obj(Str(content), White(s.white), false)], next := s.next + 1,
       strt := s.strt[b := [s.next] + s.strt[b]], pinned := s.pinned + {s.next})
  }

  lemma NewStrPhase(s: State, content: string, h': Heap)
    requires |s.strt| > 0 && PhaseOk(s.(heap := h')) && PhaseOk(s) && KindsOk(s.heap)
    requires Extended(s.heap, s.white, s.next, Str(content), h')
    ensures PhaseOk(NewStr(s, content)) && KindsOk(h')
  {
    var b := s.hash(content) % |s.strt|;
    if s.phase.SweepString? {
      NewStrSwept(s.heap, s.white, s.next, content, h', s.strt, b, s.sweepstr);
    } else if s.phase.Sweep? {
      NewStrSwept(s.heap, s.white, s.next, content, h', s.strt, b, |s.strt|);
    }
  }

  lemma NewStrShape(s: State, content: string, h': Heap)
    requires Shape(s, {}) && Extended(s.heap, s.white, s.next, Str(content), h')
    requires var b := s.hash(content) % |s.strt|;
             forall j :: 0 <= j < |s.strt[b]| && s.strt[b][j] in s.heap ==> s.heap[s.strt[b][j]].body != Str(content)
    ensures Shape(NewStr(s, content), {})
  {
    NewStrOk(s.heap, s.white, s.next, content, h', s.strt, s.hash);
    hide StrOk, OpenOk;
    ExtendedOpenOk(s.heap, s.white, s.next, Str(content), h');
    assert RootgcOk(h', s.rootgc, {});
  }

  lemma NewStrKeeps(s: State, content: string)
    requires Inv(s)
    requires var b := s.hash(content) % |s.strt|;
             forall j :: 0 <= j < |s.strt[b]| && s.strt[b][j] in s.heap ==> s.heap[s.strt[b][j]].body != Str(content)
    ensures Inv(NewStr(s, content))
  {
    var h' := s.heap[s.next := Obj(Str(content), White(s.white), false)];
    assert s.next !in s.heap;
    ExtendedLive(s.heap, s.white, s.next, Str(content), h', Roots(s));
    ExtendedPhase(s, s.next, Str(content), h');
    hide OpenOk, UvOk, RootgcOk, StrOk, Anchors, ClosedLive, RootsLive, PhaseOk, KindsOk;
    NewStrShape(s, content, h');
    NewStrPhase(s, content, h');
    assert Roots(NewStr(s, content)) == Roots(s) + {s.next};
  }

  lemma InternKeeps(s: State, content: string)
    requires Inv(s)
    ensures |s.strt| > 0 && Inv(DoIntern(s, content))
  {
    var b := s.hash(content) % |s.strt|;
    var i := FindStr(s.heap, s.strt[b], content);
    if i < |s.strt[b]| {
      assert Kids(s.heap, s.strt[b][i]) == [];
      hide Inv, InvBut;
      ReviveKeeps(s, s.strt[b][i]);
    } else {
      NewStrKeeps(s, content);
      var s1 := NewStr(s, content);
      hide Inv, InvBut;
      if StrCount(s1.strt) > |s1.strt| && |s1.strt| <= MAX_INT / 2 {
        assert |s1.strt| == |s.strt|;
        ResizeKeeps(s1, |s1.strt| * 2);
      }
    }
  }

  lemma FixKeeps(s: State, o: Id)
    requires Inv(s) && o in s.heap && s.heap[o].body.Str?
    ensures Inv(s.(heap := s.heap[o := s.heap[o].(fixed := true)]))
  {
    var h' := s.heap[o := s.heap[o].(fixed := true)];
    FixLive(s.heap, s.white, o, Roots(s));
    FixPhase(s, o);
    FixShape(s, o);
    hide OpenOk, UvOk, RootgcOk, StrOk, Anchors, ClosedLive, RootsLive, PhaseOk;
    assert Roots(s.(heap := h')) == Roots(s);
  }

  lemma FixLive(h: Heap, white: bool, o: Id, roots: set<Id>)
    requires ClosedLive(h, white) && RootsLive(h, white, roots) && o in h && h[o].body.Str?
    ensures var h' := h[o := h[o].(fixed := true)]; ClosedLive(h', white) && RootsLive(h', white, roots)
  {
    var h' := h[o := h[o].(fixed := true)];
    forall x, k | NonDead(h', white, x) && k in Kids(h', x) ensures NonDead(h', white, k) {
      assert Kids(h', x) == Kids(h, x);
      assert NonDead(h, white, x);
      assert NonDead(h, white, k);
    }
  }

  lemma FixShape(s: State, o: Id)
    requires Shape(s, {}) && o in s.heap && s.heap[o].body.Str?
    ensures Shape(s.(heap := s.heap[o := s.heap[o].(fixed := true)]), {})
  {
    hide StrOk, Kids;
    var h' := s.heap[o := s.heap[o].(fixed := true)];
    SameStrings(s.heap, h', s.strt, s.hash);
    FixOpenOk(s.heap, o);
    assert RootgcOk(h', s.rootgc, {});
  }

  lemma FixOpenOk(h: Heap, o: Id)
    requires OpenOk(h) && o in h && h[o].body.Str?
    ensures OpenOk(h[o := h[o].(fixed := true)])
  {
    var h' := h[o := h[o].(fixed := true)];
    forall u | u in h' && h'[u].body.Open? ensures OpenAt(h', u) { assert OpenAt(h, u); }
    forall t | IsThread(h', t) ensures OpenList(h', t, h'[t].body.open) {
      assert IsThread(h, t) && OpenList(h, t, h[t].body.open);
      OpenListSame(h, h', t, h[t].body.open);
    }
  }

  lemma FixPhase(s: State, o: Id)
    requires PhaseOk(s) && o in s.heap && s.heap[o].body.Str?
    ensures PhaseOk(s.(heap := s.heap[o := s.heap[o].(fixed := true)]))
  {
    var h' := s.heap[o := s.heap[o].(fixed := true)];
    if s.phase.Propagate? {
      forall x | Traced(s.heap, x) ensures Traced(h', x) { assert Kids(h', x) == Kids(s.heap, x); }
    } else if s.phase.Sweep? {
      forall i | 0 <= i < s.sweepgc && i < |s.rootgc| ensures WhiteAgain(h', s.white, s.rootgc[i]) {
        assert WhiteAgain(s.heap, s.white, s.rootgc[i]);
      }
    }
  }

  // --------------------------------------------------------------- upvalues

  /** The heap with a new open upvalue in the list of its thread. */
  function WithUpval(h: Heap, white: bool, t: Id, u: Id, slot: nat, i: nat): Heap
    requires IsThread(h, t) && i <= |h[t].body.open|
  {
    var b := h[t].body;
    var h1 := h[t := h[t].(body := b.(open := b.open[..i] + [u] + b.open[i..]))];
    h1[u := Obj(Open(t, slot), White(white), false)]
  }

  lemma UpvalListOk(h: Heap, t: Id, u: Id, slot: nat, i: nat, h': Heap)
    requires IsThread(h, t) && OpenList(h, t, h[t].body.open) && i <= |h[t].body.open| && u !in h
    requires forall j :: 0 <= j < i ==> SlotOf(h, h[t].body.open[j]) > slot
    requires i < |h[t].body.open| ==> SlotOf(h, h[t].body.open[i]) < slot
    requires u in h' && h'[u].body == Open(t, slot)
    requires forall x :: x in h[t].body.open ==> x in h' && h'[x].body == h[x].body
    ensures OpenList(h', t, h[t].body.open[..i] + [u] + h[t].body.open[i..])
  {
    var open := h[t].body.open;
    var r := open[..i] + [u] + open[i..];
    assert open == open[..i] + open[i..];
    assert forall x :: x in r <==> x == u || x in open;
    forall p, q | 0 <= p < q < |r| ensures SlotOf(h', r[p]) > SlotOf(h', r[q]) {
      InsertedSlots(h, t, u, slot, i, h', p, q);
    }
  }

  lemma InsertedSlots(h: Heap, t: Id, u: Id, slot: nat, i: nat, h': Heap, p: nat, q: nat)
    requires IsThread(h, t) && OpenList(h, t, h[t].body.open) && i <= |h[t].body.open|
    requires forall j :: 0 <= j < i ==> SlotOf(h, h[t].body.open[j]) > slot
    requires i < |h[t].body.open| ==> SlotOf(h, h[t].body.open[i]) < slot
    requires u in h' && h'[u].body == Open(t, slot) && p < q <= |h[t].body.open|
    requires forall x :: x in h[t].body.open ==> x in h' && h'[x].body == h[x].body
    ensures var r := h[t].body.open[..i] + [u] + h[t].body.open[i..]; SlotOf(h', r[p]) > SlotOf(h', r[q])
  {
    var open := h[t].body.open;
    var r := open[..i] + [u] + open[i..];
    var x := r[p];
    var y := r[q];
    if p < i {
      assert x == open[p] && x in open;
      if q < i { assert y == open[q] && y in open; }
      else if q > i { assert y == open[q - 1] && y in open; }
    } else if p == i {
      assert x == u && y == open[q - 1] && y in open;
      if q > i + 1 { assert SlotOf(h, open[i]) > SlotOf(h, open[q - 1]); }
    } else {
      assert x == open[p - 1] && x in open && y == open[q - 1] && y in open;
    }
  }

  lemma WithUpvalOpenOk(h: Heap, white: bool, t: Id, u: Id, slot: nat, i: nat)
    requires OpenOk(h) && IsThread(h, t) && i <= |h[t].body.open| && u !in h && slot < |h[t].body.stack|
    requires forall j :: 0 <= j < i ==> SlotOf(h, h[t].body.open[j]) > slot
    requires i < |h[t].body.open| ==> SlotOf(h, h[t].body.open[i]) < slot
    ensures OpenOk(WithUpval(h, white, t, u, slot, i))
  {
    var h' := WithUpval(h, white, t, u, slot, i);
    var open := h[t].body.open;
    assert open == open[..i] + open[i..];
    assert OpenList(h, t, open);
    forall x | x in h' && h'[x].body.Open? ensures OpenAt(h', x) {
      if x != u { assert OpenAt(h, x); }
    }
    UpvalListOk(h, t, u, slot, i, h');
    forall y | IsThread(h', y) ensures OpenList(h', y, h'[y].body.open) {
      if y != t {
        assert IsThread(h, y) && OpenList(h, y, h[y].body.open);
        OpenListSame(h, h', y, h[y].body.open);
      }
    }
  }

  lemma WithUpvalKids(h: Heap, white: bool, t: Id, u: Id, slot: nat, i: nat, o: Id)
    requires OpenOk(h) && IsThread(h, t) && i <= |h[t].body.open| && u !in h && o in h
    ensures Kids(WithUpval(h, white, t, u, slot, i), o) == Kids(h, o)
  {
    if h[o].body.Open? { assert OpenAt(h, o); }
  }

  lemma WithUpvalLive(h: Heap, white: bool, t: Id, u: Id, slot: nat, i: nat, roots: set<Id>)
    requires OpenOk(h) && IsThread(h, t) && i <= |h[t].body.open| && u !in h && slot < |h[t].body.stack|
    requires ClosedLive(h, white) && RootsLive(h, white, roots) && NonDead(h, white, t)
    ensures var h' := WithUpval(h, white, t, u, slot, i); ClosedLive(h', white) && RootsLive(h', white, roots + {u})
  {
    var h' := WithUpval(h, white, t, u, slot, i);
    forall x, k | NonDead(h', white, x) && k in Kids(h', x) ensures NonDead(h', white, k) {
      if x == u {
        assert Ref(k) in [h[t].body.stack[slot]] && h[t].body.stack[slot] in h[t].body.stack;
        assert k in Kids(h, t);
      } else {
        WithUpvalKids(h, white, t, u, slot, i, x);
        assert NonDead(h, white, x);
      }
      assert NonDead(h, white, k);
    }
  }

  lemma WithUpvalTriColor(t0: Tracer, white: bool, t: Id, u: Id, slot: nat, i: nat)
    requires TriColor(t0) && OpenOk(t0.heap) && IsThread(t0.heap, t) && i <= |t0.heap[t].body.open| && u !in t0.heap
    requires forall o, k :: o in t0.heap && k in Kids(t0.heap, o) ==> k in t0.heap
    ensures TriColor(Tracer(WithUpval(t0.heap, white, t, u, slot, i), t0.gray, t0.again))
  {
    var h' := WithUpval(t0.heap, white, t, u, slot, i);
    forall o | Marked(h', o) && o !in t0.gray && o !in t0.again && !h'[o].body.Str? && !h'[o].body.Open?
      ensures h'[o].color.Black? && Traced(h', o)
    {
      assert Marked(t0.heap, o);
      WithUpvalKids(t0.heap, white, t, u, slot, i, o);
    }
  }

  lemma WithUpvalSwept(h: Heap, white: bool, t: Id, u: Id, slot: nat, i: nat, rootgc: seq<Id>, m: nat)
    requires IsThread(h, t) && i <= |h[t].body.open| && u !in h && SweptRoots(h, white, rootgc, m)
    ensures SweptRoots(WithUpval(h, white, t, u, slot, i), white, rootgc, m)
  {
    var h' := WithUpval(h, white, t, u, slot, i);
    var open := h[t].body.open;
    assert open == open[..i] + open[i..];
    forall j | 0 <= j < m && j < |rootgc| ensures WhiteAgain(h', white, rootgc[j]) {
      assert WhiteAgain(h, white, rootgc[j]);
    }
  }

  lemma NoDangling(h: Heap, white: bool)
    requires ClosedLive(h, white) && NoDead(h, white)
    ensures forall o, k :: o in h && k in Kids(h, o) ==> k in h
  {
    forall o, k | o in h && k in Kids(h, o) ensures k in h {
      assert NonDead(h, white, o);
      assert NonDead(h, white, k);
    }
  }

  lemma WithUpvalPhase(s: State, t: Id, u: Id, slot: nat, i: nat)
    requires PhaseOk(s) && OpenOk(s.heap) && IsThread(s.heap, t) && i <= |s.heap[t].body.open| && u !in s.heap
    requires ClosedLive(s.heap, s.white) && KindsOk(s.heap)
    ensures var h' := WithUpval(s.heap, s.white, t, u, slot, i); PhaseOk(s.(heap := h')) && KindsOk(h')
  {
    if s.phase.Propagate? {
      NoDangling(s.heap, s.white);
      hide OpenOk, ClosedLive;
      WithUpvalTriColor(Tracer(s.heap, s.gray, s.grayagain), s.white, t, u, slot, i);
      hide TriColor;
    } else if s.phase.Sweep? {
      WithUpvalSwept(s.heap, s.white, t, u, slot, i, s.rootgc, s.sweepgc);
    }
  }

  function NewUpval(s: State, t: Id, slot: nat, i: nat): State
    requires IsThread(s.heap, t) && i <= |s.heap[t].body.open|
  {
    s.(heap := WithUpval(s.heap, s.white, t, s.next, slot, i), next := s.next + 1,
       uvhead := [s.next] + s.uvhead, pinned := s.pinned + {s.next})
  }

  lemma NewUpvalShape(s: State, t: Id, slot: nat, i: nat)
    requires Shape(s, {}) && IsThread(s.heap, t) && i <= |s.heap[t].body.open| && slot < |s.heap[t].body.stack|
    requires forall j :: 0 <= j < i ==> SlotOf(s.heap, s.heap[t].body.open[j]) > slot
    requires i < |s.heap[t].body.open| ==> SlotOf(s.heap, s.heap[t].body.open[i]) < slot
    ensures Shape(NewUpval(s, t, slot, i), {})
  {
    assert s.next !in s.heap;
    hide OpenOk, UvOk, RootgcOk, StrOk, WithUpval, SlotOf, Anchors;
    WithUpvalOpenOk(s.heap, s.white, t, s.next, slot, i);
    WithUpvalStr(s.heap, s.white, t, s.next, slot, i, s.strt, s.hash);
    WithUpvalLists(s, t, slot, i);
  }

  lemma WithUpvalStr(h: Heap, white: bool, t: Id, u: Id, slot: nat, i: nat, strt: seq<seq<Id>>, hash: string -> nat)
    requires StrOk(h, strt, hash) && IsThread(h, t) && i <= |h[t].body.open| && u !in h
    ensures StrOk(WithUpval(h, white, t, u, slot, i), strt, hash)
  {
    SameStrings(h, WithUpval(h, white, t, u, slot, i), strt, hash);
  }

  lemma WithUpvalLists(s: State, t: Id, slot: nat, i: nat)
    requires UvOk(s.heap, s.uvhead) && RootgcOk(s.heap, s.rootgc, {}) && IsThread(s.heap, t) && i <= |s.heap[t].body.open|
    requires Anchors(s.heap, s.main, s.registry, s.running, s.next)
    ensures var h' := WithUpval(s.heap, s.white, t, s.next, slot, i);
            && UvOk(h', [s.next] + s.uvhead) && RootgcOk(h', s.rootgc, {})
            && Anchors(h', s.main, s.registry, s.running, s.next + 1)
  {
  }

  lemma NewUpvalKeeps(s: State, t: Id, slot: nat, i: nat)
    requires Inv(s) && IsThread(s.heap, t) && i <= |s.heap[t].body.open| && slot < |s.heap[t].body.stack|
    requires NonDead(s.heap, s.white, t)
    requires forall j :: 0 <= j < i ==> SlotOf(s.heap, s.heap[t].body.open[j]) > slot
    requires i < |s.heap[t].body.open| ==> SlotOf(s.heap, s.heap[t].body.open[i]) < slot
    ensures Inv(NewUpval(s, t, slot, i))
  {
    hide OpenOk, UvOk, RootgcOk, StrOk, Anchors, ClosedLive, RootsLive, PhaseOk, KindsOk, WithUpval, SlotOf;
    NextUnused(s);
    NewUpvalShape(s, t, slot, i);
    WithUpvalLive(s.heap, s.white, t, s.next, slot, i, Roots(s));
    WithUpvalPhase(s, t, s.next, slot, i);
    PhaseFrame(s.(heap := WithUpval(s.heap, s.white, t, s.next, slot, i)), NewUpval(s, t, slot, i));
    assert Roots(NewUpval(s, t, slot, i)) == Roots(s) + {s.next};
  }

  lemma NextUnused(s: State)
    requires Anchors(s.heap, s.main, s.registry, s.running, s.next)
    ensures s.next !in s.heap
  {
  }

  lemma PhaseFrame(s: State, s': State)
    requires PhaseOk(s) && s' == s.(next := s'.next, uvhead := s'.uvhead, pinned := s'.pinned)
    ensures PhaseOk(s')
  {
  }

  lemma FindUpvalKeeps(s: State, t: Id, slot: nat)
    requires Inv(s) && Enabled(s, FindUpval(t, slot))
    ensures Inv(DoFindUpval(s, t, slot))
  {
    ReachLive(s, t);
    FindUpvalForm(s, t, slot);
    var i := UpvalPos(s.heap, s.heap[t].body.open, slot);
    var found := i < |s.heap[t].body.open| && SlotOf(s.heap, s.heap[t].body.open[i]) == slot;
    hide Inv, InvBut, Kids, SlotOf, DoFindUpval, NewUpval, UpvalPos;
    if found {
      ReviveKeeps(s, s.heap[t].body.open[i]);
    } else {
      NewUpvalKeeps(s, t, slot, i);
    }
  }

  /** luaF_findupval either shares the one upvalue of the slot or inserts. */
  lemma FindUpvalForm(s: State, t: Id, slot: nat)
    requires OpenOk(s.heap) && ClosedLive(s.heap, s.white) && IsThread(s.heap, t) && NonDead(s.heap, s.white, t)
    requires slot < |s.heap[t].body.stack|
    ensures var open := s.heap[t].body.open;
            var i := UpvalPos(s.heap, open, slot);
            && i <= |open|
            && (forall j :: 0 <= j < i ==> SlotOf(s.heap, open[j]) > slot)
            && (if i < |open| && SlotOf(s.heap, open[i]) == slot then
                  && open[i] in s.heap
                  && (forall k :: k in Kids(s.heap, open[i]) ==> NonDead(s.heap, s.white, k))
                  && DoFindUpval(s, t, slot) ==
                     s.(heap := if IsDead(s.heap, s.white, open[i]) then Paint(s.heap, open[i], White(s.white)) else s.heap,
                        pinned := s.pinned + {open[i]})
                else
                  && (i < |open| ==> SlotOf(s.heap, open[i]) < slot)
                  && DoFindUpval(s, t, slot) == NewUpval(s, t, slot, i))
  {
    var open := s.heap[t].body.open;
    var i := UpvalPos(s.heap, open, slot);
    assert OpenList(s.heap, t, open);
    if i < |open| {
      assert open[i] in open;
      if SlotOf(s.heap, open[i]) == slot {
        var v := s.heap[t].body.stack[slot];
        forall k | k in Kids(s.heap, open[i]) ensures NonDead(s.heap, s.white, k) {
          assert Ref(k) in [v] && v in s.heap[t].body.stack;
          assert k in Kids(s.heap, t);
        }
      }
    }
  }

  // ----------------------------------------------------- stores with barrier

  /** An object without a stack whose references can be replaced. */
  predicate Holder(b: Body) {
    b.Udata? || b.Func? || b.Table? || b.Proto? || b.Closed?
  }

  /** h' is h with the references of o replaced by old ones and v. */
  ghost predicate Stored(h: Heap, o: Id, v: Value, h': Heap) {
    && o in h && Holder(h[o].body) && h'.Keys == h.Keys
    && (forall x :: x in h && x != o ==> h'[x] == h[x])
    && Outline(h'[o].body) == Outline(h[o].body) && h'[o].color == h[o].color && h'[o].fixed == h[o].fixed
    && (forall k :: k in Kids(h', o) ==> k in Kids(h, o) || v == Ref(k))
  }

  lemma StoredKids(h: Heap, o: Id, v: Value, h': Heap, x: Id)
    requires Stored(h, o, v, h') && x in h && x != o
    ensures Kids(h', x) == Kids(h, x)
  {
  }

  lemma StoredLive(h: Heap, white: bool, o: Id, v: Value, h': Heap, roots: set<Id>)
    requires Stored(h, o, v, h') && ClosedLive(h, white) && RootsLive(h, white, roots)
    requires v.Ref? ==> NonDead(h, white, v.id)
    ensures ClosedLive(h', white) && RootsLive(h', white, roots)
  {
    assert forall x :: NonDead(h', white, x) <==> NonDead(h, white, x);
    forall x, k | NonDead(h', white, x) && k in Kids(h', x) ensures NonDead(h', white, k) {
      if x != o { StoredKids(h, o, v, h', x); }
      assert NonDead(h, white, x);
    }
  }

  /** Outside the mark phase a store does not disturb the phase. */
  lemma StoredPhase(s: State, o: Id, v: Value, h': Heap)
    requires PhaseOk(s) && !s.phase.Propagate? && Stored(s.heap, o, v, h')
    ensures PhaseOk(s.(heap := h'))
  {
    if s.phase.Sweep? {
      forall i | 0 <= i < s.sweepgc && i < |s.rootgc| ensures WhiteAgain(h', s.white, s.rootgc[i]) {
        assert WhiteAgain(s.heap, s.white, s.rootgc[i]);
      }
    }
  }

  /** Mark phase, after the store and before the barrier: only o may be wrong. */
  lemma StoredListed(t: Tracer, o: Id, v: Value, h': Heap)
    requires TriColor(t) && Stored(t.heap, o, v, h')
    ensures GrayOk(h', t.gray) && GrayOk(h', t.again) && KindsOk(h')
    ensures ListedOrSettled(h', t.gray, t.again + [o])
    ensures Marked(h', o) && o !in t.gray && o !in t.again ==>
              h'[o].color.Black? && forall k :: k in Kids(h', o) && k in h' ==> Marked(h', k) || v == Ref(k)
    ensures h'[o].color.Black? ==> o !in t.gray && o !in t.again
  {
    assert forall x :: Marked(h', x) <==> Marked(t.heap, x);
    forall x | Marked(h', x) && x != o && Traced(t.heap, x) ensures Traced(h', x) {
      StoredKids(t.heap, o, v, h', x);
    }
    if Marked(h', o) && o !in t.gray && o !in t.again {
      assert t.heap[o].color.Black? && Traced(t.heap, o);
    }
  }

  ghost predicate MarkPhase(s: State) {
    s.phase.Propagate? && NoDead(s.heap, s.white) && Marked(s.heap, s.main) && Marked(s.heap, s.registry)
  }

  /** The mark phase before a forward barrier on the black object o. */
  lemma ForwardKeeps(s: State, o: Id, v: Id)
    requires Live(s) && Shape(s, {}) && MarkPhase(s) && IsWhite(s.heap, v)
    requires GrayOk(s.heap, s.gray) && GrayOk(s.heap, s.grayagain) && KindsOk(s.heap)
    requires forall x :: x in s.gray ==> x !in s.grayagain
    requires ListedOrSettled(s.heap, s.gray, s.grayagain + [o])
    requires o in s.heap && s.heap[o].color.Black? && forall k :: k in Kids(s.heap, o) && k in s.heap ==> Marked(s.heap, k) || k == v
    ensures var m := ReallyMark(Marker(s.heap, s.gray), v); Inv(s.(heap := m.heap, gray := m.gray))
  {
    hide ReallyMark, Marks, MarkedFrom, GrayOk, ListedOrSettled, KindsOk, TriColor, OpenOk, UvOk, RootgcOk, StrOk, Anchors,
         ClosedLive, RootsLive, SameOutline, NoDead, Kids, Advances;
    var m0 := Marker(s.heap, s.gray);
    var m := ReallyMark(m0, v);
    var s' := s.(heap := m.heap, gray := m.gray);
    ForwardTriColor(m0, m, s.grayagain, o, v);
    MarksAdvance(s.heap, m.heap);
    AdvancesOutline(s.heap, m.heap);
    OutlineShape(s, s', {});
    AdvancesLive(s.heap, m.heap, s.white, Roots(s));
    AdvancesMarked(s.heap, m.heap);
  }

  lemma AdvancesMarked(h: Heap, h': Heap)
    requires Advances(h, h')
    ensures forall o :: Marked(h, o) ==> Marked(h', o)
  {
  }

  lemma ForwardTriColor(m0: Marker, m: Marker, again: seq<Id>, o: Id, v: Id)
    requires IsWhite(m0.heap, v) && m == ReallyMark(m0, v)
    requires GrayOk(m0.heap, m0.gray) && GrayOk(m0.heap, again) && KindsOk(m0.heap)
    requires forall x :: x in m0.gray ==> x !in again
    requires ListedOrSettled(m0.heap, m0.gray, again + [o])
    requires o in m0.heap && m0.heap[o].color.Black? && forall k :: k in Kids(m0.heap, o) && k in m0.heap ==> Marked(m0.heap, k) || k == v
    ensures TriColor(Tracer(m.heap, m.gray, again)) && KindsOk(m.heap)
  {
    ReallyMarkSpec(m0, v);
    hide ReallyMark;
    MarkKeepsListed(m0, m, again + [o]);
    AgainStays(m0, m, again);
    KidsSame(m0.heap, m.heap, o);
    assert Traced(m.heap, o);
    assert forall x :: x in again + [o] <==> x in again || x == o;
    hide Traced, Kids, MarkedFrom;
    assert ListedOrSettled(m.heap, m.gray, again);
  }

  lemma BackwardTriColor(t: Tracer, o: Id)
    requires GrayOk(t.heap, t.gray) && GrayOk(t.heap, t.again) && KindsOk(t.heap)
    requires forall x :: x in t.gray ==> x !in t.again
    requires ListedOrSettled(t.heap, t.gray, t.again + [o])
    requires o in t.heap && t.heap[o].color.Black? && t.heap[o].body.Table? && o !in t.gray && o !in t.again
    ensures TriColor(Tracer(Paint(t.heap, o, Gray), t.gray, [o] + t.again))
  {
    var h' := Paint(t.heap, o, Gray);
    forall x | Marked(h', x) && x != o && Traced(t.heap, x) ensures Traced(h', x) { KidsPaint(t.heap, o, Gray, x); }
  }

  /** Mark phase: store, then barrier by kind. */
  lemma StoreMarkKeeps(s: State, o: Id, v: Value, h': Heap)
    requires Inv(s) && s.phase.Propagate? && Stored(s.heap, o, v, h') && (v.Ref? ==> NonDead(s.heap, s.white, v.id))
    ensures var s1 := s.(heap := h');
            Inv(if h'[o].body.Table? then BarrierT(s1, o, v) else Barrier(s1, o, v))
  {
    var s1 := s.(heap := h');
    var t := Tracer(s.heap, s.gray, s.grayagain);
    StoredListed(t, o, v, h');
    StoredMarks(s.heap, s.white, o, v, h');
    assert MarkPhase(s1);
    hide TriColor, PhaseOk;
    StoredLive(s.heap, s.white, o, v, h', Roots(s));
    StoredOutline(s.heap, o, v, h');
    OutlineShape(s, s1, {});
    hide OpenOk, UvOk, RootgcOk, StrOk, Anchors, ClosedLive, RootsLive, Stored, SameOutline;
    if v.Ref? && IsWhite(h', v.id) && h'[o].color.Black? {
      if h'[o].body.Table? {
        BackwardTriColor(Tracer(h', s.gray, s.grayagain), o);
        BackwardKeeps(s1, o);
      } else {
        ForwardKeeps(s1, o, v.id);
      }
    } else {
      NoBarrierKeeps(s1, o, v);
    }
  }

  lemma StoredOutline(h: Heap, o: Id, v: Value, h': Heap)
    requires Stored(h, o, v, h')
    ensures SameOutline(h, h')
  {
  }

  lemma StoredMarks(h: Heap, white: bool, o: Id, v: Value, h': Heap)
    requires Stored(h, o, v, h') && NoDead(h, white)
    ensures NoDead(h', white) && forall x :: Marked(h', x) <==> Marked(h, x)
  {
  }

  lemma BackwardKeeps(s: State, o: Id)
    requires Live(s) && Shape(s, {}) && MarkPhase(s) && o in s.heap && s.heap[o].color.Black?
    requires TriColor(Tracer(Paint(s.heap, o, Gray), s.gray, [o] + s.grayagain))
    ensures Inv(s.(heap := Paint(s.heap, o, Gray), grayagain := [o] + s.grayagain))
  {
    hide TriColor, ClosedLive, RootsLive, OpenOk, StrOk, UvOk, RootgcOk, Anchors, KindsOk, Kids;
    var s' := s.(heap := Paint(s.heap, o, Gray), grayagain := [o] + s.grayagain);
    assert Advances(s.heap, s'.heap);
    AdvancesOutline(s.heap, s'.heap);
    AdvancesLive(s.heap, s'.heap, s.white, Roots(s));
    OutlineShape(s, s', {});
    TriKinds(Tracer(s'.heap, s'.gray, s'.grayagain));
    hide Shape;
  }

  lemma NoBarrierKeeps(s: State, o: Id, v: Value)
    requires Live(s) && Shape(s, {}) && MarkPhase(s) && o in s.heap
    requires GrayOk(s.heap, s.gray) && GrayOk(s.heap, s.grayagain) && KindsOk(s.heap)
    requires forall x :: x in s.gray ==> x !in s.grayagain
    requires ListedOrSettled(s.heap, s.gray, s.grayagain + [o])
    requires Marked(s.heap, o) && o !in s.gray && o !in s.grayagain ==>
               s.heap[o].color.Black? && forall k :: k in Kids(s.heap, o) && k in s.heap ==> Marked(s.heap, k) || v == Ref(k)
    requires !(v.Ref? && IsWhite(s.heap, v.id) && s.heap[o].color.Black?)
    ensures Inv(s)
  {
    hide Live, Shape, GrayOk, KindsOk;
    if Marked(s.heap, o) && o !in s.gray && o !in s.grayagain { assert Traced(s.heap, o); }
    assert forall x :: x in s.grayagain + [o] <==> x in s.grayagain || x == o;
    hide Kids, Traced;
    assert ListedOrSettled(s.heap, s.gray, s.grayagain);
  }

  lemma StoredKeeps(s: State, o: Id, v: Value, h': Heap)
    requires Inv(s) && !s.phase.Propagate? && Stored(s.heap, o, v, h') && (v.Ref? ==> NonDead(s.heap, s.white, v.id))
    ensures Inv(s.(heap := h'))
  {
    hide Stored, OpenOk, UvOk, RootgcOk, StrOk, Anchors, ClosedLive, RootsLive, PhaseOk, KindsOk, SameOutline;
    StoredPhase(s, o, v, h');
    StoredKinds(s.heap, o, v, h');
    StoredLive(s.heap, s.white, o, v, h', Roots(s));
    StoredOutline(s.heap, o, v, h');
    OutlineShape(s, s.(heap := h'), {});
  }

  lemma StoredKinds(h: Heap, o: Id, v: Value, h': Heap)
    requires Stored(h, o, v, h') && KindsOk(h)
    ensures KindsOk(h')
  {
  }

  lemma RepaintKeeps(s: State, o: Id, c: Color)
    requires Inv(s) && !s.phase.Propagate? && o in s.heap && s.heap[o].color.Black?
    requires c == White(s.white) || (c.Gray? && s.heap[o].body.Table?)
    ensures Inv(s.(heap := Paint(s.heap, o, c)))
  {
    assert s.phase.SweepString? || s.phase.Sweep?;
    PaintSwept(s, o, c);
    RepaintLive(s.heap, s.white, o, c, Roots(s));
    assert SameOutline(s.heap, Paint(s.heap, o, c)) && KindsOk(Paint(s.heap, o, c));
    hide PhaseOk, SameOutline, OpenOk, UvOk, RootgcOk, StrOk, Anchors, ClosedLive, RootsLive, KindsOk;
    OutlineShape(s, s.(heap := Paint(s.heap, o, c)), {});
  }

  lemma RepaintLive(h: Heap, white: bool, o: Id, c: Color, roots: set<Id>)
    requires ClosedLive(h, white) && RootsLive(h, white, roots) && NonDead(h, white, o) && c != White(!white)
    ensures ClosedLive(Paint(h, o, c), white) && RootsLive(Paint(h, o, c), white, roots)
  {
    var h' := Paint(h, o, c);
    forall x, k | NonDead(h', white, x) && k in Kids(h', x) ensures NonDead(h', white, k) {
      KidsPaint(h, o, c, x);
      assert NonDead(h, white, x);
      assert NonDead(h, white, k);
    }
  }

  lemma AgainFrame(s: State, again: seq<Id>)
    requires Inv(s) && !s.phase.Propagate?
    ensures Inv(s.(grayagain := again))
  {
    assert Roots(s.(grayagain := again)) == Roots(s);
  }

  /** A store with the barrier its kind calls for, in any phase. */
  lemma BarrierKeeps(s: State, o: Id, v: Value, h': Heap)
    requires Inv(s) && Stored(s.heap, o, v, h') && (v.Ref? ==> NonDead(s.heap, s.white, v.id))
    ensures var s1 := s.(heap := h');
            Inv(if h'[o].body.Table? then BarrierT(s1, o, v) else Barrier(s1, o, v))
  {
    hide Inv, InvBut, Stored;
    if s.phase.Propagate? {
      StoreMarkKeeps(s, o, v, h');
    } else {
      StoreSweepKeeps(s, o, v, h');
    }
  }

  lemma StoreSweepKeeps(s: State, o: Id, v: Value, h': Heap)
    requires Inv(s) && !s.phase.Propagate? && Stored(s.heap, o, v, h') && (v.Ref? ==> NonDead(s.heap, s.white, v.id))
    ensures var s1 := s.(heap := h');
            Inv(if h'[o].body.Table? then BarrierT(s1, o, v) else Barrier(s1, o, v))
  {
    var s1 := s.(heap := h');
    hide Inv, InvBut;
    StoredKeeps(s, o, v, h');
    if v.Ref? && IsWhite(h', v.id) && h'[o].color.Black? {
      RepaintKeeps(s1, o, if h'[o].body.Table? then Gray else White(s.white));
      if h'[o].body.Table? { AgainFrame(s1.(heap := Paint(h', o, Gray)), [o] + s.grayagain); }
    }
  }

  lemma StoreKeeps(s: State, o: Id, refs: seq<Id>, v: Value)
    requires Inv(s) && Enabled(s, Store(o, refs, v))
    ensures Inv(DoStore(s, o, refs, v))
  {
    hide Inv, InvBut, Reach;
    InvLiveState(s);
    if v.Ref? { ReachLive(s, v.id); }
    var b := s.heap[o].body;
    var b' := match b
      case Udata(_) => Udata(refs)
      case Func(_) => Func(refs)
      case Table(_) => Table(refs)
      case _ => Proto(refs);
    var h' := s.heap[o := s.heap[o].(body := b')];
    assert Stored(s.heap, o, v, h');
    BarrierKeeps(s, o, v, h');
  }

  // --------------------------------------------------------- stack updates

  /** Stack and globals of t replaced; each new slot holds a live value or what
      it held before. */
  ghost predicate Restacked(h: Heap, white: bool, t: Id, refs: seq<Id>, stack: seq<Value>, h': Heap) {
    && IsThread(h, t) && h' == h[t := h[t].(body := h[t].body.(refs := refs, stack := stack))]
    && (forall r :: r in refs ==> NonDead(h, white, r) || r in h[t].body.refs)
    && (forall j :: 0 <= j < |stack| && stack[j].Ref? ==>
          NonDead(h, white, stack[j].id) || (j < |h[t].body.stack| && stack[j] == h[t].body.stack[j]))
    && (forall u :: u in h[t].body.open ==> SlotOf(h, u) < |stack|)
  }

  lemma RestackedKids(h: Heap, white: bool, t: Id, refs: seq<Id>, stack: seq<Value>, h': Heap, x: Id, k: Id)
    requires Restacked(h, white, t, refs, stack, h') && OpenOk(h) && x in h && k in Kids(h', x)
    ensures k in Kids(h, x) || NonDead(h, white, k)
  {
    if x == t {
      if k !in refs {
        assert Ref(k) in stack;
        var j :| 0 <= j < |stack| && stack[j] == Ref(k);
        if !NonDead(h, white, k) { assert Ref(k) in h[t].body.stack; }
      }
    } else if h[x].body.Open? {
      assert OpenAt(h, x);
      if h[x].body.thread == t {
        var j := h[x].body.slot;
        assert Ref(k) in [stack[j]];
        if !NonDead(h, white, k) { assert Ref(k) in [h[t].body.stack[j]]; }
      }
    }
  }

  lemma RestackedLive(h: Heap, white: bool, t: Id, refs: seq<Id>, stack: seq<Value>, h': Heap, roots: set<Id>)
    requires Restacked(h, white, t, refs, stack, h') && OpenOk(h) && ClosedLive(h, white) && RootsLive(h, white, roots)
    ensures ClosedLive(h', white) && RootsLive(h', white, roots)
  {
    assert forall x :: NonDead(h', white, x) <==> NonDead(h, white, x);
    forall x, k | NonDead(h', white, x) && k in Kids(h', x) ensures NonDead(h', white, k) {
      RestackedKids(h, white, t, refs, stack, h', x, k);
      assert NonDead(h, white, x);
      if k in Kids(h, x) { assert NonDead(h, white, k); }
    }
  }

  lemma RestackedOpenOk(h: Heap, white: bool, t: Id, refs: seq<Id>, stack: seq<Value>, h': Heap)
    requires Restacked(h, white, t, refs, stack, h') && OpenOk(h)
    ensures OpenOk(h')
  {
    forall u | u in h' && h'[u].body.Open? ensures OpenAt(h', u) {
      assert OpenAt(h, u);
      if h[u].body.thread == t { assert SlotOf(h, u) < |stack|; }
    }
    forall y | IsThread(h', y) ensures OpenList(h', y, h'[y].body.open) {
      assert IsThread(h, y) && OpenList(h, y, h[y].body.open);
      OpenListSame(h, h', y, h[y].body.open);
    }
  }

  lemma RestackedTriColor(t0: Tracer, white: bool, t: Id, refs: seq<Id>, stack: seq<Value>, h': Heap)
    requires TriColor(t0) && Restacked(t0.heap, white, t, refs, stack, h')
    ensures TriColor(Tracer(h', t0.gray, t0.again))
  {
    forall x | Marked(h', x) && x !in t0.gray && x !in t0.again && !h'[x].body.Str? && !h'[x].body.Open?
      ensures h'[x].color.Black? && Traced(h', x)
    {
      assert Marked(t0.heap, x) && t0.heap[x].color.Black? && Traced(t0.heap, x);
      assert x != t;
      assert Kids(h', x) == Kids(t0.heap, x);
    }
  }

  lemma RestackedPhase(s: State, t: Id, refs: seq<Id>, stack: seq<Value>, h': Heap)
    requires PhaseOk(s) && KindsOk(s.heap) && Restacked(s.heap, s.white, t, refs, stack, h')
    ensures PhaseOk(s.(heap := h')) && KindsOk(h')
  {
    if s.phase.Propagate? {
      RestackedTriColor(Tracer(s.heap, s.gray, s.grayagain), s.white, t, refs, stack, h');
      hide TriColor;
    } else if s.phase.Sweep? {
      forall i | 0 <= i < s.sweepgc && i < |s.rootgc| ensures WhiteAgain(h', s.white, s.rootgc[i]) {
        assert WhiteAgain(s.heap, s.white, s.rootgc[i]);
      }
    }
  }

  lemma RestackedLists(h: Heap, white: bool, t: Id, refs: seq<Id>, stack: seq<Value>, h': Heap, s: State)
    requires Restacked(h, white, t, refs, stack, h') && h == s.heap && Shape(s, {})
    ensures UvOk(h', s.uvhead) && RootgcOk(h', s.rootgc, {}) && StrOk(h', s.strt, s.hash)
    ensures Anchors(h', s.main, s.registry, s.running, s.next)
  {
    hide OpenOk;
    SameStrings(h, h', s.strt, s.hash);
    hide StrOk;
  }

  lemma RestackKeeps(s: State, t: Id, refs: seq<Id>, stack: seq<Value>, h': Heap)
    requires Inv(s) && Restacked(s.heap, s.white, t, refs, stack, h')
    ensures Inv(s.(heap := h'))
  {
    hide Restacked, OpenOk, UvOk, RootgcOk, StrOk, Anchors, ClosedLive, RootsLive, PhaseOk, KindsOk;
    RestackedLists(s.heap, s.white, t, refs, stack, h', s);
    RestackedOpenOk(s.heap, s.white, t, refs, stack, h');
    RestackedPhase(s, t, refs, stack, h');
    RestackedLive(s.heap, s.white, t, refs, stack, h', Roots(s));
    assert Roots(s.(heap := h')) == Roots(s);
  }

  lemma SetStackKeeps(s: State, t: Id, refs: seq<Id>, stack: seq<Value>)
    requires Inv(s) && Enabled(s, SetStack(t, refs, stack))
    ensures Inv(DoSetStack(s, t, refs, stack))
  {
    var h' := DoSetStack(s, t, refs, stack).heap;
    assert OpenList(s.heap, t, s.heap[t].body.open);
    forall r | r in refs ensures NonDead(s.heap, s.white, r) { ReachLive(s, r); }
    forall j | 0 <= j < |stack| && stack[j].Ref? ensures NonDead(s.heap, s.white, stack[j].id) {
      assert stack[j] in stack;
      ReachLive(s, stack[j].id);
    }
    assert Restacked(s.heap, s.white, t, refs, stack, h');
    hide Inv, InvBut, Restacked, Enabled;
    RestackKeeps(s, t, refs, stack, h');
  }

  lemma SetOpenUpvalKeeps(s: State, u: Id, v: Value)
    requires Inv(s) && Enabled(s, SetUpval(u, v)) && s.heap[u].body.Open?
    ensures Inv(DoSetUpval(s, u, v))
  {
    hide Kids, StrOk, RootgcOk, UvOk, Anchors, PhaseOk, KindsOk;
    if v.Ref? { ReachLive(s, v.id); }
    assert OpenAt(s.heap, u);
    var t := s.heap[u].body.thread;
    var tb := s.heap[t].body;
    var stack := tb.stack[s.heap[u].body.slot := v];
    var h' := DoSetUpval(s, u, v).heap;
    forall x | x in tb.open ensures SlotOf(s.heap, x) < |stack| {
      assert OpenList(s.heap, t, tb.open);
      assert OpenAt(s.heap, x);
    }
    assert Restacked(s.heap, s.white, t, tb.refs, stack, h');
    assert DoSetUpval(s, u, v) == s.(heap := h');
    hide Inv, InvBut, Restacked, Enabled, DoSetUpval;
    RestackKeeps(s, t, tb.refs, stack, h');
  }

  lemma SetClosedUpvalKeeps(s: State, u: Id, v: Value)
    requires Inv(s) && Enabled(s, SetUpval(u, v)) && s.heap[u].body.Closed?
    ensures Inv(DoSetUpval(s, u, v))
  {
    hide Inv, InvBut, Reach;
    InvLiveState(s);
    if v.Ref? { ReachLive(s, v.id); }
    var h' := s.heap[u := s.heap[u].(body := Closed(v))];
    forall k | k in Kids(h', u) ensures v == Ref(k) { assert Ref(k) in [v]; }
    assert Stored(s.heap, u, v, h');
    BarrierKeeps(s, u, v, h');
  }

  lemma InvLiveState(s: State)
    requires Inv(s)
    ensures Live(s)
  {
  }

  // ------------------------------------------------------------- root moves

  lemma RootsKeep(s: State, s': State)
    requires Inv(s) && s' == s.(mts := s'.mts, running := s'.running, pinned := s'.pinned) && IsThread(s.heap, s'.running)
    requires forall r :: r in Roots(s') ==> Reach(s, r)
    ensures Inv(s')
  {
    forall r | r in Roots(s') ensures NonDead(s.heap, s.white, r) { ReachLive(s, r); }
  }

  lemma SetMetaKeeps(s: State, mts: seq<Value>)
    requires Inv(s) && Enabled(s, SetMeta(mts))
    ensures Inv(s.(mts := mts))
  {
    var s' := s.(mts := mts);
    forall r | r in Roots(s') ensures Reach(s, r) {
      if r in Ids(mts) { assert Ref(r) in mts; } else { assert r in Roots(s); ReachRoot(s, r); }
    }
    RootsKeep(s, s');
  }

  lemma ResumeKeeps(s: State, t: Id)
    requires Inv(s) && Enabled(s, Resume(t))
    ensures Inv(s.(running := t))
  {
    var s' := s.(running := t);
    forall r | r in Roots(s') ensures Reach(s, r) {
      if r != t { assert r in Roots(s); ReachRoot(s, r); }
    }
    RootsKeep(s, s');
  }

  lemma ReleaseKeeps(s: State, kept: set<Id>)
    requires Inv(s) && kept <= s.pinned
    ensures Inv(s.(pinned := kept))
  {
    var s' := s.(pinned := kept);
    forall r | r in Roots(s') ensures Reach(s, r) { assert r in Roots(s); ReachRoot(s, r); }
    RootsKeep(s, s');
  }
}
