/** The collector's own steps keep the invariant. */
module GcCollector {
  import opened GcHeap
  import opened GcState
  import opened GcInv

  // ------------------------------------------------- marking and the lists

  /** Same objects, same contents; marked objects stay marked and white objects
      that stay white keep their shade. */
  ghost predicate Advances(h: Heap, h': Heap) {
    && h'.Keys == h.Keys
    && forall o :: o in h ==>
         && h'[o].body == h[o].body && h'[o].fixed == h[o].fixed
         && (h'[o].color.White? ==> h'[o].color == h[o].color)
  }

  /** A body without the references that no list or table looks at. */
  function Outline(b: Body): Body {
    match b
    case Udata(_) => Udata([])
    case Func(_) => Func([])
    case Table(_) => Table([])
    case Proto(_) => Proto([])
    case Closed(_) => Closed(Nil)
    case Thread(_, stack, open) => Thread([], stack, open)
    case _ => b
  }

  ghost predicate SameOutline(h: Heap, h': Heap) {
    h'.Keys == h.Keys && forall o :: o in h ==> Outline(h'[o].body) == Outline(h[o].body) && h'[o].fixed == h[o].fixed
  }

  lemma AdvancesKids(h: Heap, h': Heap, o: Id)
    requires Advances(h, h') && o in h
    ensures Kids(h', o) == Kids(h, o)
  {
  }

  /** The parts of the invariant that do not look at marks survive marking. */
  lemma AdvancesLive(h: Heap, h': Heap, white: bool, roots: set<Id>)
    requires ClosedLive(h, white) && RootsLive(h, white, roots) && NoDead(h, white) && Advances(h, h')
    ensures ClosedLive(h', white) && RootsLive(h', white, roots) && NoDead(h', white)
  {
    forall o, k | NonDead(h', white, o) && k in Kids(h', o) ensures NonDead(h', white, k) {
      AdvancesKids(h, h', o);
      assert NonDead(h, white, o);
      assert NonDead(h, white, k);
    }
  }

  lemma OutlineStr(h: Heap, h': Heap, strt: seq<seq<Id>>, hash: string -> nat)
    requires StrOk(h, strt, hash) && SameOutline(h, h')
    ensures StrOk(h', strt, hash)
  {
    forall i, o | 0 <= i < |strt| && o in strt[i] ensures IsStr(h', o) && Bucket(h', o, hash, |strt|) == i {
      assert IsStr(h, o) && Bucket(h, o, hash, |strt|) == i;
    }
    forall o | IsStr(h', o) ensures o in strt[Bucket(h', o, hash, |strt|)] {
      assert IsStr(h, o) && o in strt[Bucket(h, o, hash, |strt|)];
    }
    assert OnePerContent(h') by { assert forall o :: IsStr(h', o) ==> IsStr(h, o) && h'[o].body == h[o].body; }
  }

  lemma OpenListSame(h: Heap, h': Heap, t: Id, open: seq<Id>)
    requires OpenList(h, t, open) && forall u :: u in open ==> u in h' && Outline(h'[u].body) == Outline(h[u].body)
    ensures OpenList(h', t, open)
  {
    assert forall i :: 0 <= i < |open| ==> open[i] in open && SlotOf(h', open[i]) == SlotOf(h, open[i]);
  }

  lemma OutlineOpen(h: Heap, h': Heap)
    requires OpenOk(h) && SameOutline(h, h')
    ensures OpenOk(h')
  {
    forall u | u in h' && h'[u].body.Open? ensures OpenAt(h', u) { assert OpenAt(h, u); }
    forall t | IsThread(h', t) ensures OpenList(h', t, h'[t].body.open) {
      assert IsThread(h, t);
      OpenListSame(h, h', t, h[t].body.open);
    }
  }

  lemma MarkKeepsListed(m: Marker, r: Marker, again: seq<Id>)
    requires ListedOrSettled(m.heap, m.gray, again) && MarkedFrom(m, r)
    ensures ListedOrSettled(r.heap, r.gray, again)
  {
    forall o | Marked(r.heap, o) && o !in r.gray && o !in again && !r.heap[o].body.Str? && !r.heap[o].body.Open?
      ensures r.heap[o].color.Black? && Traced(r.heap, o)
    {
      if Marked(m.heap, o) { TracedStays(m.heap, r.heap, o); }
    }
  }

  lemma MarkKeepsTriColor(m: Marker, r: Marker, again: seq<Id>)
    requires TriColor(Tracer(m.heap, m.gray, again)) && MarkedFrom(m, r)
    ensures TriColor(Tracer(r.heap, r.gray, again))
  {
    MarkKeepsListed(m, r, again);
    AgainStays(m, r, again);
  }

  /** Every marked object is on the gray list, in `extra`, or fully traced. */
  ghost predicate Covered(h: Heap, gray: seq<Id>, extra: set<Id>) {
    forall o :: Marked(h, o) ==> o in gray || o in extra || Traced(h, o)
  }

  lemma MarkKeepsCovered(m: Marker, r: Marker, extra: set<Id>)
    requires Covered(m.heap, m.gray, extra) && MarkedFrom(m, r)
    ensures Covered(r.heap, r.gray, extra)
  {
    forall o | Marked(r.heap, o) && o !in r.gray && o !in extra ensures Traced(r.heap, o) {
      if Marked(m.heap, o) { TracedStays(m.heap, r.heap, o); }
    }
  }

  lemma PropagateMarkSpec(t: Tracer)
    requires t.gray != [] && GrayOk(t.heap, t.gray) && KindsOk(t.heap)
    ensures var r := PropagateMark(t);
            && Advances(t.heap, r.heap) && GrayOk(r.heap, r.gray) && KindsOk(r.heap)
            && (TriColor(t) ==> TriColor(r))
            && (forall x :: x in r.again <==> x in t.again || (x == t.gray[0] && t.heap[x].body.Thread?))
  {
    hide TriColor, MarkAll;
    var o := t.gray[0];
    var h := if t.heap[o].body.Thread? then t.heap else Paint(t.heap, o, Black);
    var m := Marker(h, t.gray[1..]);
    assert GrayOk(h, t.gray[1..]) && KindsOk(h) && Advances(t.heap, h);
    MarkAllSpec(m, Kids(t.heap, o));
    MarksAdvance(h, MarkAll(m, Kids(t.heap, o)).heap);
    AdvancesTrans(t.heap, h, MarkAll(m, Kids(t.heap, o)).heap);
    if TriColor(t) { PropagateMarkTriColor(t); }
  }

  lemma PropagateMarkTriColor(t: Tracer)
    requires t.gray != [] && TriColor(t)
    ensures TriColor(PropagateMark(t))
  {
    var o := t.gray[0];
    var h := if t.heap[o].body.Thread? then t.heap else Paint(t.heap, o, Black);
    var m := Marker(h, t.gray[1..]);
    MarkAllSpec(m, Kids(t.heap, o));
    PopKeepsListed(t, h);
    PopKeepsGray(t, h);
    TraverseTriColor(t, m, MarkAll(m, Kids(t.heap, o)));
  }

  lemma PopKeepsGray(t: Tracer, h: Heap)
    requires t.gray != [] && TriColor(t)
    requires h == if t.heap[t.gray[0]].body.Thread? then t.heap else Paint(t.heap, t.gray[0], Black)
    ensures GrayOk(h, t.gray[1..]) && KindsOk(h) && GrayOk(h, t.again)
    ensures h[t.gray[0]].body.Thread? ==> GrayOk(h, [t.gray[0]] + t.again)
    ensures forall x :: x in t.gray[1..] ==> x !in [t.gray[0]] + t.again
  {
    assert t.gray[0] !in t.again;
  }

  lemma TraverseTriColor(t: Tracer, m: Marker, r: Marker)
    requires t.gray != [] && var o := t.gray[0]; Marked(t.heap, o)
    requires m == Marker(if t.heap[t.gray[0]].body.Thread? then t.heap else Paint(t.heap, t.gray[0], Black), t.gray[1..])
    requires GrayOk(m.heap, m.gray) && KindsOk(m.heap) && GrayOk(m.heap, t.again)
    requires t.heap[t.gray[0]].body.Thread? ==> GrayOk(m.heap, [t.gray[0]] + t.again)
    requires forall x :: x in m.gray ==> x !in [t.gray[0]] + t.again
    requires ListedOrSettled(m.heap, m.gray, [t.gray[0]] + t.again)
    requires MarkedFrom(m, r) && forall x :: x in Kids(t.heap, t.gray[0]) && x in m.heap ==> Marked(r.heap, x)
    ensures TriColor(Tracer(r.heap, r.gray, if t.heap[t.gray[0]].body.Thread? then [t.gray[0]] + t.again else t.again))
  {
    var o := t.gray[0];
    MarkKeepsListed(m, r, [o] + t.again);
    if t.heap[o].body.Thread? {
      AgainStays(m, r, [o] + t.again);
    } else {
      AgainStays(m, r, t.again);
      assert r.heap[o].color.Black? && Traced(r.heap, o) by {
        KidsPaint(t.heap, o, Black, o);
        KidsSame(m.heap, r.heap, o);
      }
    }
  }

  /** Marking leaves the second list alone. */
  lemma AgainStays(m: Marker, r: Marker, again: seq<Id>)
    requires MarkedFrom(m, r) && GrayOk(m.heap, again) && forall x :: x in m.gray ==> x !in again
    ensures GrayOk(r.heap, again) && forall x :: x in r.gray ==> x !in again
  {
  }

  lemma PopKeepsListed(t: Tracer, h: Heap)
    requires t.gray != [] && ListedOrSettled(t.heap, t.gray, t.again) && Marked(t.heap, t.gray[0])
    requires h == t.heap || h == Paint(t.heap, t.gray[0], Black)
    ensures ListedOrSettled(h, t.gray[1..], [t.gray[0]] + t.again)
  {
    var o := t.gray[0];
    forall x | Marked(h, x) && x != o ensures Traced(t.heap, x) ==> Traced(h, x) {
      KidsPaint(t.heap, o, Black, x);
    }
    assert forall x :: x in t.gray ==> x == o || x in t.gray[1..];
  }

  lemma PropagateMarkCovered(t: Tracer, extra: set<Id>)
    requires t.gray != [] && GrayOk(t.heap, t.gray) && Covered(t.heap, t.gray, extra)
    ensures var r := PropagateMark(t); Covered(r.heap, r.gray, extra)
  {
    var o := t.gray[0];
    var h := if t.heap[o].body.Thread? then t.heap else Paint(t.heap, o, Black);
    var m := Marker(h, t.gray[1..]);
    var r := MarkAll(m, Kids(t.heap, o));
    MarkAllSpec(m, Kids(t.heap, o));
    assert Traced(r.heap, o) by {
      KidsPaint(t.heap, o, Black, o);
      KidsSame(h, r.heap, o);
    }
    forall x | Marked(r.heap, x) && x !in r.gray && x !in extra && x != o ensures Traced(r.heap, x) {
      if Marked(h, x) {
        assert Marked(t.heap, x) && x !in t.gray;
        KidsPaint(t.heap, o, Black, x);
        assert Traced(h, x);
        TracedStays(h, r.heap, x);
      }
    }
  }

  lemma {:induction false} PropagateAllSpec(t: Tracer)
    requires GrayOk(t.heap, t.gray) && KindsOk(t.heap)
    ensures var r := PropagateAll(t);
            && Advances(t.heap, r.heap) && r.gray == [] && KindsOk(r.heap)
            && (TriColor(t) ==> TriColor(r))
            && (forall x :: x in t.again ==> x in r.again)
    decreases Whites(t.heap), |t.gray|
  {
    if t.gray != [] {
      PropagateMarkShrinks(t);
      PropagateMarkSpec(t);
      PropagateAllSpec(PropagateMark(t));
    }
  }

  lemma {:induction false} PropagateAllCovered(t: Tracer, extra: set<Id>)
    requires GrayOk(t.heap, t.gray) && KindsOk(t.heap) && Covered(t.heap, t.gray, extra)
    ensures Covered(PropagateAll(t).heap, [], extra)
    decreases Whites(t.heap), |t.gray|
  {
    if t.gray != [] {
      PropagateMarkShrinks(t);
      PropagateMarkSpec(t);
      PropagateMarkCovered(t, extra);
      PropagateAllCovered(PropagateMark(t), extra);
    }
  }

  lemma {:induction false} RemarkUpvalsSpec(m: Marker, uvs: seq<Id>)
    ensures MarkedFrom(m, RemarkUpvals(m, uvs))
    ensures forall u :: u in uvs && u in m.heap && m.heap[u].color.Gray? ==> Traced(RemarkUpvals(m, uvs).heap, u)
    decreases |uvs|
  {
    if uvs != [] {
      var u := uvs[0];
      var m' := if u in m.heap && m.heap[u].color.Gray? then MarkAll(m, Kids(m.heap, u)) else m;
      if u in m.heap { MarkAllSpec(m, Kids(m.heap, u)); }
      RemarkUpvalsSpec(m', uvs[1..]);
      var r := RemarkUpvals(m, uvs);
      MarkedFromTrans(m, m', r);
      if u in m.heap && m.heap[u].color.Gray? {
        KidsSame(m.heap, m'.heap, u);
        assert Traced(m'.heap, u);
        TracedStays(m'.heap, r.heap, u);
      }
    }
  }

  // -------------------------------------------------------- the mark phase

  /** Shape looks at outlines and fixed bits only. */
  lemma OutlineShape(s: State, s': State, lost: set<Id>)
    requires Shape(s, lost) && SameOutline(s.heap, s'.heap)
    requires s' == s.(heap := s'.heap, gray := s'.gray, grayagain := s'.grayagain, phase := s'.phase,
                      white := s'.white, sweepstr := s'.sweepstr, sweepgc := s'.sweepgc)
    ensures Shape(s', lost) && Roots(s') == Roots(s)
  {
    hide SameOutline, OpenOk, UvOk, RootgcOk, StrOk, Anchors;
    OutlineOpen(s.heap, s'.heap);
    OutlineStr(s.heap, s'.heap, s.strt, s.hash);
    OutlineLists(s.heap, s'.heap, s.uvhead, s.rootgc, lost);
    OutlineAnchors(s.heap, s'.heap, s.main, s.registry, s.running, s.next);
  }

  lemma OutlineLists(h: Heap, h': Heap, uvhead: seq<Id>, rootgc: seq<Id>, lost: set<Id>)
    requires SameOutline(h, h') && UvOk(h, uvhead) && RootgcOk(h, rootgc, lost)
    ensures UvOk(h', uvhead) && RootgcOk(h', rootgc, lost)
  {
  }

  lemma OutlineAnchors(h: Heap, h': Heap, main: Id, registry: Id, running: Id, next: Id)
    requires SameOutline(h, h') && Anchors(h, main, registry, running, next)
    ensures Anchors(h', main, registry, running, next)
  {
  }

  lemma MarksAdvance(h: Heap, h': Heap)
    requires Marks(h, h')
    ensures Advances(h, h')
  {
  }

  /** Marking the roots of an all-white heap. */
  lemma MarkRootMarks(s: State)
    requires AllWhite(s.heap, s.white) && IsThread(s.heap, s.main) && s.registry in s.heap
    ensures var r := MarkRoot(s);
            && Advances(s.heap, r.heap) && TriColor(Tracer(r.heap, r.gray, []))
            && Marked(r.heap, s.main) && Marked(r.heap, s.registry)
  {
    var m0 := Marker(s.heap, []);
    var m1 := MarkAll(m0, [s.main]);
    var rest := s.heap[s.main].body.refs + [s.registry] + Ids(s.mts);
    var m2 := MarkAll(m1, rest);
    MarkAllSpec(m0, [s.main]);
    MarkAllSpec(m1, rest);
    MarkedFromTrans(m0, m1, m2);
    assert s.main in [s.main] && s.registry in rest;
    assert TriColor(Tracer(s.heap, [], []));
    MarkKeepsTriColor(m0, m2, []);
    MarksAdvance(s.heap, m2.heap);
  }

  lemma MarkRootKeeps(s: State)
    requires Inv(s) && (s.phase.Pause? || s.phase.Finalize?)
    ensures Inv(MarkRoot(s))
  {
    hide OpenOk, UvOk, RootgcOk, StrOk, Anchors, ClosedLive, RootsLive, MarkAll, TriColor, AllWhite, NoDead, Advances, SameOutline, KindsOk;
    MarkRootReady(s);
    MarkRootMarks(s);
    AdvancesOutline(s.heap, MarkRoot(s).heap);
    OutlineShape(s, MarkRoot(s), {});
    AdvancesLive(s.heap, MarkRoot(s).heap, s.white, Roots(s));
    TriKinds(Tracer(MarkRoot(s).heap, MarkRoot(s).gray, []));
  }

  lemma MarkRootReady(s: State)
    requires Inv(s) && (s.phase.Pause? || s.phase.Finalize?)
    ensures AllWhite(s.heap, s.white) && NoDead(s.heap, s.white) && IsThread(s.heap, s.main) && s.registry in s.heap
  {
  }

  lemma AdvancesOutline(h: Heap, h': Heap)
    requires Advances(h, h')
    ensures SameOutline(h, h')
  {
  }

  lemma TriKinds(t: Tracer)
    requires TriColor(t)
    ensures KindsOk(t.heap)
  {
  }

  lemma PropagateKeeps(s: State)
    requires Inv(s) && s.phase.Propagate? && s.gray != []
    ensures Inv(SingleStep(s))
  {
    PropagateMarkSpec(Tracer(s.heap, s.gray, s.grayagain));
    OutlineShape(s, SingleStep(s), {});
    AdvancesLive(s.heap, SingleStep(s).heap, s.white, Roots(s));
  }

  /** After remarkupvals only what waits on the second list is not traced. */
  lemma RemarkCovers(t: Tracer, uvhead: seq<Id>)
    requires TriColor(t) && UvOk(t.heap, uvhead)
    ensures var m := RemarkUpvals(Marker(t.heap, t.gray), uvhead);
            && Advances(t.heap, m.heap)
            && TriColor(Tracer(m.heap, m.gray, t.again))
            && Covered(m.heap, m.gray, set x | x in t.again)
  {
    var m0 := Marker(t.heap, t.gray);
    var m := RemarkUpvals(m0, uvhead);
    RemarkUpvalsSpec(m0, uvhead);
    MarkKeepsTriColor(m0, m, t.again);
    forall o | Marked(m.heap, o) && o !in m.gray && o !in t.again ensures Traced(m.heap, o) {
      if IsWhite(t.heap, o) {
        assert Settled(m.heap, o);
      } else if m.heap[o].body.Open? {
        assert o in uvhead && t.heap[o].color.Gray?;
      }
    }
  }

  lemma PropagateAllBoth(t: Tracer, extra: set<Id>)
    requires TriColor(t) && Covered(t.heap, t.gray, extra)
    ensures var r := PropagateAll(t);
            && Advances(t.heap, r.heap) && r.gray == [] && TriColor(r) && Covered(r.heap, [], extra)
            && (forall x :: x in t.again ==> x in r.again)
  {
    PropagateAllSpec(t);
    PropagateAllCovered(t, extra);
  }

  lemma MarkAllBoth(t: Tracer, ids: seq<Id>, extra: set<Id>)
    requires TriColor(t) && Covered(t.heap, t.gray, extra)
    ensures var m := MarkAll(Marker(t.heap, t.gray), ids);
            && Advances(t.heap, m.heap) && TriColor(Tracer(m.heap, m.gray, t.again)) && Covered(m.heap, m.gray, extra)
            && (forall x :: x in ids && x in t.heap ==> Marked(m.heap, x))
  {
    var m := MarkAll(Marker(t.heap, t.gray), ids);
    MarkAllSpec(Marker(t.heap, t.gray), ids);
    MarkKeepsTriColor(Marker(t.heap, t.gray), m, t.again);
    MarkKeepsCovered(Marker(t.heap, t.gray), m, extra);
  }

  /** The second list, traversed last, was all that was left to trace. */
  lemma LastPass(t: Tracer, extra: set<Id>)
    requires TriColor(t) && t.gray == [] && Covered(t.heap, [], extra) && forall x :: x in extra ==> x in t.again
    ensures var r := PropagateAll(Tracer(t.heap, t.again, []));
            Advances(t.heap, r.heap) && KindsOk(r.heap) && Covered(r.heap, [], {})
  {
    var u := Tracer(t.heap, t.again, []);
    assert Covered(u.heap, u.gray, {});
    PropagateAllSpec(u);
    PropagateAllCovered(u, {});
  }

  lemma AdvancesTrans(a: Heap, b: Heap, c: Heap)
    requires Advances(a, b) && Advances(b, c)
    ensures Advances(a, c)
  {
  }

  /** The atomic step leaves every marked object traced and its seeds marked. */
  lemma AtomicMarkSpec(s: State)
    requires TriColor(Tracer(s.heap, s.gray, s.grayagain)) && UvOk(s.heap, s.uvhead)
    ensures var h := AtomicMark(s).heap;
            && Advances(s.heap, h) && KindsOk(h) && Covered(h, [], {})
            && forall r :: (r == s.running || r in Ids(s.mts)) && r in s.heap ==> Marked(h, r)
  {
    var extra := set x | x in s.grayagain;
    RemarkCovers(Tracer(s.heap, s.gray, s.grayagain), s.uvhead);
    var m1 := RemarkUpvals(Marker(s.heap, s.gray), s.uvhead);
    var t1' := Tracer(m1.heap, m1.gray, s.grayagain);
    PropagateAllBoth(t1', extra);
    var t1 := PropagateAll(t1');
    var seeds := [s.running] + Ids(s.mts);
    MarkAllBoth(t1, seeds, extra);
    var m2 := MarkAll(Marker(t1.heap, t1.gray), seeds);
    var t2' := Tracer(m2.heap, m2.gray, t1.again);
    PropagateAllBoth(t2', extra);
    var t2 := PropagateAll(t2');
    LastPass(t2, extra);
    var h := AtomicMark(s).heap;
    AdvancesTrans(s.heap, m1.heap, t1.heap);
    AdvancesTrans(s.heap, t1.heap, m2.heap);
    AdvancesTrans(s.heap, m2.heap, t2.heap);
    AdvancesTrans(s.heap, t2.heap, h);
    forall r | (r == s.running || r in Ids(s.mts)) && r in s.heap ensures Marked(h, r) {
      assert r in seeds;
      assert Marked(m2.heap, r) && Marked(t2.heap, r);
    }
  }

  /** The flip: exactly the unmarked objects become dead. */
  lemma FlipLive(h: Heap, white: bool, roots: set<Id>)
    requires ClosedLive(h, white) && NoDead(h, white) && Covered(h, [], {})
    requires forall r :: r in roots ==> Marked(h, r)
    ensures ClosedLive(h, !white) && RootsLive(h, !white, roots)
    ensures forall o :: IsDead(h, !white, o) <==> IsWhite(h, o)
  {
    forall o, k | NonDead(h, !white, o) && k in Kids(h, o) ensures NonDead(h, !white, k) {
      assert Marked(h, o) && Traced(h, o);
      assert NonDead(h, white, o);
      assert NonDead(h, white, k);
    }
  }

  lemma RootsGetMarked(s: State, h: Heap)
    requires RootsLive(s.heap, s.white, Roots(s)) && s.pinned == {} && Advances(s.heap, h)
    requires Marked(s.heap, s.main) && Marked(s.heap, s.registry)
    requires forall r :: (r == s.running || r in Ids(s.mts)) && r in s.heap ==> Marked(h, r)
    ensures forall r :: r in Roots(s) ==> Marked(h, r)
  {
    forall r | r in Roots(s) ensures Marked(h, r) {
      assert NonDead(s.heap, s.white, r);
    }
  }

  lemma AtomicKeeps(s: State)
    requires Inv(s) && s.phase.Propagate? && s.pinned == {}
    ensures Inv(Atomic(s))
    ensures forall o :: IsDead(Atomic(s).heap, Atomic(s).white, o) <==> IsWhite(AtomicMark(s).heap, o)
  {
    var h := AtomicMark(s).heap;
    AtomicMarkSpec(s);
    OutlineShape(s, Atomic(s), {});
    AdvancesLive(s.heap, h, s.white, Roots(s));
    RootsGetMarked(s, h);
    FlipLive(h, s.white, Roots(s));
    assert SweptStrings(h, !s.white, s.strt, 0);
  }
}
