/** The sweep keeps the invariant and frees only dead objects. */
module GcSweep {
  import opened GcHeap
  import opened GcState
  import opened GcInv
  import opened GcCollector
  import opened GcClose

  // ------------------------------------------------------- leaf-list sweeps

  /** What sweeping a list does to the heap: what is not kept goes, what is
      kept turns white, everything else stays as it was. */
  ghost predicate SweptFrom(h: Heap, white: bool, ids: seq<Id>, h': Heap) {
    && (forall o :: o in h' <==> o in h && (o in ids ==> Kept(h, white, o)))
    && (forall o :: o in h' ==> h'[o] == if o in ids then h[o].(color := White(white)) else h[o])
  }

  ghost predicate Before(ids: seq<Id>, a: Id, b: Id) {
    exists p, q :: 0 <= p < q < |ids| && ids[p] == a && ids[q] == b
  }

  ghost predicate Filtered(h: Heap, white: bool, ids: seq<Id>, list: seq<Id>) {
    && (forall o :: o in list <==> o in ids && Kept(h, white, o))
    && Distinct(list)
    && (forall i, j :: 0 <= i < j < |list| ==> Before(ids, list[i], list[j]))
  }

  lemma BeforeTail(ids: seq<Id>, a: Id, b: Id)
    requires ids != [] && Before(ids[1..], a, b)
    ensures Before(ids, a, b)
  {
    var p, q :| 0 <= p < q < |ids[1..]| && ids[1..][p] == a && ids[1..][q] == b;
    assert ids[p + 1] == a && ids[q + 1] == b;
  }

  lemma {:induction false} SweepLeavesSpec(h: Heap, white: bool, ids: seq<Id>)
    requires Distinct(ids) && forall o :: o in ids ==> o in h
    ensures SweptFrom(h, white, ids, SweepLeaves(h, white, ids).heap)
    ensures Filtered(h, white, ids, SweepLeaves(h, white, ids).list)
    decreases |ids|
  {
    if ids != [] {
      var o, rest := ids[0], ids[1..];
      assert o !in rest && forall x :: x in ids <==> x == o || x in rest;
      var h1 := if Kept(h, white, o) then Paint(h, o, White(white)) else h - {o};
      SweepLeavesSpec(h1, white, rest);
      var r := SweepLeaves(h1, white, rest);
      assert forall x :: x in rest ==> Kept(h1, white, x) == Kept(h, white, x);
      FilteredCons(h, h1, white, ids, r.list);
    }
  }

  lemma FilteredCons(h: Heap, h1: Heap, white: bool, ids: seq<Id>, list: seq<Id>)
    requires ids != [] && Distinct(ids) && Filtered(h1, white, ids[1..], list)
    requires forall x :: x in ids[1..] ==> Kept(h1, white, x) == Kept(h, white, x)
    ensures Filtered(h, white, ids, if Kept(h, white, ids[0]) then [ids[0]] + list else list)
  {
    var o, rest := ids[0], ids[1..];
    var list' := if Kept(h, white, o) then [o] + list else list;
    assert o !in rest && forall x :: x in ids <==> x == o || x in rest;
    var d := |list'| - |list|;
    forall i, j | 0 <= i < j < |list'| ensures Before(ids, list'[i], list'[j]) {
      if i < d {
        assert list'[j] == list[j - 1] && list[j - 1] in list;
        var q :| 0 <= q < |rest| && rest[q] == list'[j];
        assert ids[0] == list'[i] && ids[q + 1] == list'[j];
      } else {
        BeforeTail(ids, list[i - d], list[j - d]);
      }
    }
  }

  lemma SweptKids(h: Heap, white: bool, ids: seq<Id>, h': Heap, o: Id)
    requires SweptFrom(h, white, ids, h') && o in h' && OpenOk(h)
    requires forall x :: x in ids ==> x in h && !h[x].body.Thread?
    ensures Kids(h', o) == Kids(h, o)
  {
    if h[o].body.Open? { assert OpenAt(h, o); }
  }

  /** Sweeping leaves no live reference dangling. */
  lemma SweptLive(h: Heap, white: bool, ids: seq<Id>, h': Heap, roots: set<Id>)
    requires SweptFrom(h, white, ids, h') && OpenOk(h) && ClosedLive(h, white) && RootsLive(h, white, roots)
    requires forall x :: x in ids ==> x in h && !h[x].body.Thread? && (h[x].fixed ==> h[x].body.Str?)
    ensures ClosedLive(h', white) && RootsLive(h', white, roots)
  {
    forall o, k | NonDead(h', white, o) && k in Kids(h', o) ensures NonDead(h', white, k) {
      SweptKids(h, white, ids, h', o);
      assert NonDead(h, white, o);
      assert NonDead(h, white, k);
    }
  }

  // -------------------------------------------------------- string buckets

  lemma SweepBucketShape(s: State, lost: set<Id>)
    requires Shape(s, lost) && s.sweepstr < |s.strt|
    ensures var r := SweepLeaves(s.heap, s.white, s.strt[s.sweepstr]);
            && SweptFrom(s.heap, s.white, s.strt[s.sweepstr], r.heap)
            && Shape(s.(heap := r.heap, strt := s.strt[s.sweepstr := r.list]), lost)
  {
    var ids := s.strt[s.sweepstr];
    BucketFacts(s);
    SweepLeavesSpec(s.heap, s.white, ids);
    var r := SweepLeaves(s.heap, s.white, ids);
    SweptOpenOk(s.heap, s.white, ids, r.heap);
    SweptStrOk(s.heap, s.white, s.strt, s.sweepstr, s.hash, r);
    SweptLists(s.heap, s.white, ids, r.heap, s.uvhead, s.rootgc, lost);
    SweptAnchors(s.heap, s.white, ids, r.heap, s.main, s.registry, s.running, s.next);
  }

  lemma SweptLists(h: Heap, white: bool, ids: seq<Id>, h': Heap, uvhead: seq<Id>, rootgc: seq<Id>, lost: set<Id>)
    requires SweptFrom(h, white, ids, h') && forall o :: o in ids ==> IsStr(h, o)
    requires UvOk(h, uvhead) && RootgcOk(h, rootgc, lost)
    ensures UvOk(h', uvhead) && RootgcOk(h', rootgc, lost)
  {
  }

  lemma SweptAnchors(h: Heap, white: bool, ids: seq<Id>, h': Heap, main: Id, registry: Id, running: Id, next: Id)
    requires SweptFrom(h, white, ids, h') && forall o :: o in ids ==> IsStr(h, o)
    requires Anchors(h, main, registry, running, next)
    ensures Anchors(h', main, registry, running, next)
  {
  }

  lemma SweptOpenOk(h: Heap, white: bool, ids: seq<Id>, h': Heap)
    requires OpenOk(h) && SweptFrom(h, white, ids, h') && forall o :: o in ids ==> IsStr(h, o)
    ensures OpenOk(h')
  {
    forall u | u in h' && h'[u].body.Open? ensures OpenAt(h', u) { assert OpenAt(h, u); }
    forall t | IsThread(h', t) ensures OpenList(h', t, h'[t].body.open) {
      assert IsThread(h, t) && OpenList(h, t, h[t].body.open);
      OpenListSame(h, h', t, h[t].body.open);
    }
  }

  lemma SweptStrOk(h: Heap, white: bool, strt: seq<seq<Id>>, n: nat, hash: string -> nat, r: Swept)
    requires StrOk(h, strt, hash) && n < |strt|
    requires SweptFrom(h, white, strt[n], r.heap) && Filtered(h, white, strt[n], r.list)
    ensures StrOk(r.heap, strt[n := r.list], hash)
  {
    var strt' := strt[n := r.list];
    forall i, o | 0 <= i < |strt'| && o in strt'[i]
      ensures IsStr(r.heap, o) && Bucket(r.heap, o, hash, |strt'|) == i
    {
      assert o in strt[i] && IsStr(h, o) && Bucket(h, o, hash, |strt|) == i;
      assert i != n ==> o !in strt[n];
    }
    forall o | IsStr(r.heap, o) ensures o in strt'[Bucket(r.heap, o, hash, |strt'|)] {
      assert IsStr(h, o) && o in strt[Bucket(h, o, hash, |strt|)];
    }
    assert OnePerContent(r.heap);
  }

  lemma SweepBucketPhase(s: State)
    requires s.phase.SweepString? && PhaseOk(s) && StrOk(s.heap, s.strt, s.hash)
    requires var r := SweepLeaves(s.heap, s.white, s.strt[s.sweepstr]);
             SweptFrom(s.heap, s.white, s.strt[s.sweepstr], r.heap) && Filtered(s.heap, s.white, s.strt[s.sweepstr], r.list)
    ensures PhaseOk(SweepStringStep(s))
  {
    var n := s.sweepstr;
    var s' := SweepStringStep(s);
    forall i, o | 0 <= i < n + 1 && i < |s'.strt| && o in s'.strt[i] ensures o in s'.heap && s'.heap[o].color == White(s.white) {
      if i < n {
        assert o in s.strt[i] && Bucket(s.heap, o, s.hash, |s.strt|) == i;
        assert o !in s.strt[n];
      }
    }
  }

  lemma SweepStringKeeps(s: State)
    requires Inv(s) && s.phase.SweepString?
    ensures Inv(SweepStringStep(s))
    ensures SweptFrom(s.heap, s.white, s.strt[s.sweepstr], SweepStringStep(s).heap)
  {
    hide SweepLeaves, SweptFrom, ClosedLive, RootsLive, StrOk, OpenOk, RootgcOk, UvOk, Anchors, KindsOk, SweptStrings, Kids;
    var ids := s.strt[s.sweepstr];
    var s' := SweepStringStep(s);
    BucketFacts(s);
    SweepLeavesSpec(s.heap, s.white, ids);
    SweepBucketShape(s, {});
    SweptLive(s.heap, s.white, ids, s'.heap, Roots(s));
    SweepBucketPhase(s);
    hide Shape, PhaseOk, Live;
    SweptKindsLive(s, s', ids);
  }

  lemma SweptKindsLive(s: State, s': State, ids: seq<Id>)
    requires KindsOk(s.heap) && SweptFrom(s.heap, s.white, ids, s'.heap) && s'.white == s.white && Roots(s) == Roots(s')
    requires ClosedLive(s'.heap, s.white) && RootsLive(s'.heap, s.white, Roots(s))
    ensures KindsOk(s'.heap) && Live(s')
  {
  }

  lemma BucketFacts(s: State)
    requires StrOk(s.heap, s.strt, s.hash) && s.sweepstr < |s.strt|
    ensures Distinct(s.strt[s.sweepstr]) && forall o :: o in s.strt[s.sweepstr] ==> IsStr(s.heap, o)
  {
  }

  // --------------------------------------------- open upvalues of a thread

  /** Sweeping the open upvalues of the thread under the sweep pointer. */
  lemma SweepOpenForm(h: Heap, white: bool, t: Id)
    requires OpenOk(h) && IsThread(h, t)
    ensures var r := SweepLeaves(h, white, h[t].body.open);
            && SweptFrom(h, white, h[t].body.open, r.heap) && Filtered(h, white, h[t].body.open, r.list)
            && t !in h[t].body.open && t in r.heap
  {
    var open := h[t].body.open;
    assert OpenList(h, t, open);
    forall i, j | 0 <= i < j < |open| ensures open[i] != open[j] {
      assert SlotOf(h, open[i]) > SlotOf(h, open[j]);
    }
    SweepLeavesSpec(h, white, open);
  }

  /** The heap after the open list of t was swept. */
  ghost predicate OpenSwept(h: Heap, white: bool, t: Id, h': Heap) {
    && IsThread(h, t) && IsThread(h', t)
    && (forall o :: o in h' <==> o in h && (o in h[t].body.open ==> Kept(h, white, o)))
    && (forall o :: o in h' && o != t ==> h'[o] == if o in h[t].body.open then h[o].(color := White(white)) else h[o])
    && h'[t].color == h[t].color && h'[t].fixed == h[t].fixed
    && h'[t].body == h[t].body.(open := h'[t].body.open)
    && Filtered(h, white, h[t].body.open, h'[t].body.open)
  }

  lemma SweepOpenEffect(s: State, t: Id)
    requires OpenOk(s.heap) && IsThread(s.heap, t)
    ensures OpenSwept(s.heap, s.white, t, SweepOpen(s, t).heap)
    ensures SweepOpen(s, t) == s.(heap := SweepOpen(s, t).heap, uvhead := SweepOpen(s, t).uvhead)
    ensures forall x :: x in SweepOpen(s, t).uvhead <==> x in s.uvhead && x in SweepOpen(s, t).heap
  {
    SweepOpenForm(s.heap, s.white, t);
  }

  lemma OpenSweptOpenOk(h: Heap, white: bool, t: Id, h': Heap)
    requires OpenOk(h) && OpenSwept(h, white, t, h')
    ensures OpenOk(h')
  {
    forall u | u in h' && h'[u].body.Open? ensures OpenAt(h', u) {
      assert OpenAt(h, u);
      assert h[u].body.thread != t ==> u !in h[t].body.open by { assert OpenList(h, t, h[t].body.open); }
    }
    forall y | IsThread(h', y) ensures OpenList(h', y, h'[y].body.open) {
      assert IsThread(h, y) && OpenList(h, y, h[y].body.open) && OpenList(h, t, h[t].body.open);
      if y == t {
        OpenListFiltered(h, white, t, h[t].body.open, h'[t].body.open);
        OpenListSame(h, h', t, h'[t].body.open);
      } else {
        OpenListSame(h, h', y, h[y].body.open);
      }
    }
  }

  lemma OpenListFiltered(h: Heap, white: bool, t: Id, open: seq<Id>, list: seq<Id>)
    requires OpenList(h, t, open) && Filtered(h, white, open, list)
    ensures OpenList(h, t, list)
  {
    forall i, j | 0 <= i < j < |list| ensures SlotOf(h, list[i]) > SlotOf(h, list[j]) {
      assert Before(open, list[i], list[j]);
    }
  }

  lemma OpenSweptKids(h: Heap, white: bool, t: Id, h': Heap, o: Id)
    requires OpenOk(h) && OpenSwept(h, white, t, h') && o in h'
    ensures Kids(h', o) == Kids(h, o)
  {
    assert OpenList(h, t, h[t].body.open);
    if h[o].body.Open? { assert OpenAt(h, o); }
  }

  lemma OpenSweptLive(h: Heap, white: bool, t: Id, h': Heap, roots: set<Id>)
    requires OpenOk(h) && OpenSwept(h, white, t, h') && ClosedLive(h, white) && RootsLive(h, white, roots)
    requires forall o :: o in h && h[o].fixed ==> !h[o].body.Open?
    ensures ClosedLive(h', white) && RootsLive(h', white, roots)
  {
    assert OpenList(h, t, h[t].body.open);
    forall o, k | NonDead(h', white, o) && k in Kids(h', o) ensures NonDead(h', white, k) {
      OpenSweptKids(h, white, t, h', o);
      assert NonDead(h, white, o);
      assert NonDead(h, white, k);
    }
  }

  lemma OpenSweptShape(s: State, t: Id, s': State, lost: set<Id>)
    requires Shape(s, lost) && OpenSwept(s.heap, s.white, t, s'.heap)
    requires s' == s.(heap := s'.heap, uvhead := s'.uvhead)
    requires forall x :: x in s'.uvhead <==> x in s.uvhead && x in s'.heap
    ensures Shape(s', lost)
  {
    OpenSweptOpenOk(s.heap, s.white, t, s'.heap);
    assert OpenList(s.heap, t, s.heap[t].body.open);
    SameStrings(s.heap, s'.heap, s.strt, s.hash);
  }

  lemma OpenSweptStrings(h: Heap, white: bool, t: Id, h': Heap, strt: seq<seq<Id>>, hash: string -> nat)
    requires OpenOk(h) && StrOk(h, strt, hash) && OpenSwept(h, white, t, h') && SweptStrings(h, white, strt, |strt|)
    ensures SweptStrings(h', white, strt, |strt|)
  {
    assert OpenList(h, t, h[t].body.open);
    forall i, o | 0 <= i < |strt| && o in strt[i] ensures o in h' && h'[o].color == White(white) {
      assert IsStr(h, o);
    }
  }

  lemma OpenSweptRoots(h: Heap, white: bool, t: Id, h': Heap, rootgc: seq<Id>, n: nat)
    requires OpenOk(h) && OpenSwept(h, white, t, h') && SweptRoots(h, white, rootgc, n)
    requires forall o :: o in rootgc ==> o in h && !h[o].body.Open?
    ensures SweptRoots(h', white, rootgc, n)
  {
    assert OpenList(h, t, h[t].body.open);
    forall i | 0 <= i < n && i < |rootgc| ensures WhiteAgain(h', white, rootgc[i]) {
      var o := rootgc[i];
      assert WhiteAgain(h, white, o) && o in rootgc;
      if IsThread(h, o) { assert OpenList(h, o, h[o].body.open); }
    }
  }

  lemma RootgcFacts(h: Heap, rootgc: seq<Id>, lost: set<Id>)
    requires RootgcOk(h, rootgc, lost)
    ensures forall o :: o in rootgc ==> o in h && !h[o].body.Open? && !h[o].body.Str?
  {
  }

  lemma OpenSweptKinds(h: Heap, white: bool, t: Id, h': Heap)
    requires OpenSwept(h, white, t, h') && KindsOk(h)
    ensures KindsOk(h')
  {
  }

  lemma SweepOpenKeeps(s: State, t: Id)
    requires Inv(s) && s.phase.Sweep? && IsThread(s.heap, t)
    ensures Inv(SweepOpen(s, t)) && OpenSwept(s.heap, s.white, t, SweepOpen(s, t).heap)
    ensures SweepOpen(s, t) == s.(heap := SweepOpen(s, t).heap, uvhead := SweepOpen(s, t).uvhead)
  {
    var s' := SweepOpen(s, t);
    SweepOpenEffect(s, t);
    OpenSweptShape(s, t, s', {});
    FixedNotOpen(s);
    OpenSweptLive(s.heap, s.white, t, s'.heap, Roots(s));
    OpenSweptStrings(s.heap, s.white, t, s'.heap, s.strt, s.hash);
    RootgcFacts(s.heap, s.rootgc, {});
    OpenSweptRoots(s.heap, s.white, t, s'.heap, s.rootgc, s.sweepgc);
    OpenSweptKinds(s.heap, s.white, t, s'.heap);
    assert Roots(s') == Roots(s);
  }

  lemma FixedNotOpen(s: State)
    requires Anchors(s.heap, s.main, s.registry, s.running, s.next)
    ensures forall o :: o in s.heap && s.heap[o].fixed ==> !s.heap[o].body.Open?
  {
  }

  // ------------------------------------------------------- what gets freed

  /** Only dead objects without the fixed bit go, what stays refers to what it
      referred to, and who was dead or not stays so. */
  ghost predicate Sheds(h: Heap, white: bool, h': Heap) {
    && (forall o :: o in h' ==> o in h && h'[o].fixed == h[o].fixed && Kids(h', o) == Kids(h, o))
    && (forall o :: o in h && o !in h' ==> IsDead(h, white, o) && !h[o].fixed)
    && (forall o :: IsDead(h', white, o) ==> IsDead(h, white, o))
    && (forall o :: o in h' && IsDead(h, white, o) && !h[o].fixed ==> IsDead(h', white, o))
  }

  lemma ShedsTrans(a: Heap, b: Heap, c: Heap, white: bool)
    requires Sheds(a, white, b) && Sheds(b, white, c)
    ensures Sheds(a, white, c)
  {
  }

  lemma CloseOneSheds(s: State, t: Id)
    requires FirstOpenAbove(s.heap, t, 0) && OpenOk(s.heap) && KindsOk(s.heap) && !s.phase.Propagate?
    requires forall o :: o in s.heap && s.heap[o].fixed ==> !s.heap[o].body.Open?
    ensures var s' := CloseOne(s, t);
            && Sheds(s.heap, s.white, s'.heap) && s'.white == s.white && s'.phase == s.phase
            && IsThread(s'.heap, t) && s'.heap[t].color == s.heap[t].color
  {
    var u := s.heap[t].body.open[0];
    FirstOpenIntro(s, t);
    FirstOpenFacts(s.heap, t, u);
    if IsDead(s.heap, s.white, u) {
      DropSheds(s.heap, s.white, t, u);
    } else {
      CloseOneForm(s, t, u, White(s.white));
      hide CloseOne;
      DetachedSheds(s.heap, s.white, t, u);
    }
  }

  lemma DropSheds(h: Heap, white: bool, t: Id, u: Id)
    requires FirstOpen(h, t, u) && IsDead(h, white, u) && !h[u].fixed
    ensures u in h && Sheds(h, white, h[t := h[t].(body := h[t].body.(open := h[t].body.open[1..]))] - {u})
  {
    FirstOpenFacts(h, t, u);
    var h' := h[t := h[t].(body := h[t].body.(open := h[t].body.open[1..]))] - {u};
    forall o | o in h' ensures Kids(h', o) == Kids(h, o) {
      if h[o].body.Open? { assert OpenAt(h, o); }
    }
  }

  lemma DetachedSheds(h: Heap, white: bool, t: Id, u: Id)
    requires FirstOpen(h, t, u) && NonDead(h, white, u)
    ensures u in h && h[u].body.Open? && h[u].body.slot < |h[t].body.stack|
    ensures Sheds(h, white, Detached(h, t, u, White(white)))
  {
    FirstOpenFacts(h, t, u);
    forall o | o in h ensures Kids(Detached(h, t, u, White(white)), o) == Kids(h, o) { DetachedKids(h, t, u, White(white), o); }
  }

  lemma {:induction false} CloseFromSheds(s: State, t: Id, level: nat, lost: set<Id>)
    requires InvBut(s, lost) && lost <= {t} && !s.phase.Propagate? && IsThread(s.heap, t)
    ensures var s' := CloseFrom(s, t, level);
            && Sheds(s.heap, s.white, s'.heap) && s'.white == s.white && s'.phase == s.phase
            && IsThread(s'.heap, t) && s'.heap[t].color == s.heap[t].color
            && !FirstOpenAbove(s'.heap, t, level)
    decreases OpenCount(s.heap, t)
  {
    if FirstOpenAbove(s.heap, t, level) {
      CloseOneShrinks(s, t);
      CloseOneKeeps(s, t, lost);
      FixedNotOpen(s);
      CloseOneSheds(s, t);
      CloseFromSheds(CloseOne(s, t), t, level, lost);
      ShedsTrans(s.heap, CloseOne(s, t).heap, CloseFrom(s, t, level).heap, s.white);
    }
  }

  // ------------------------------------------------- one object of rootgc

  lemma PaintLive(h: Heap, white: bool, o: Id, roots: set<Id>)
    requires ClosedLive(h, white) && RootsLive(h, white, roots) && NonDead(h, white, o)
    ensures ClosedLive(Paint(h, o, White(white)), white) && RootsLive(Paint(h, o, White(white)), white, roots)
  {
    var h' := Paint(h, o, White(white));
    forall x, k | NonDead(h', white, x) && k in Kids(h', x) ensures NonDead(h', white, k) {
      KidsPaint(h, o, White(white), x);
      assert NonDead(h, white, x);
      assert NonDead(h, white, k);
    }
  }

  lemma PaintPhase(s: State, o: Id)
    requires s.phase.Sweep? && PhaseOk(s) && s.sweepgc < |s.rootgc| && o == s.rootgc[s.sweepgc]
    requires o in s.heap && StrOk(s.heap, s.strt, s.hash)
    requires IsThread(s.heap, o) ==> forall u :: u in s.heap[o].body.open ==> u in s.heap && s.heap[u].color == White(s.white)
    ensures PhaseOk(s.(heap := Paint(s.heap, o, White(s.white)), sweepgc := s.sweepgc + 1))
  {
    var h' := Paint(s.heap, o, White(s.white));
    forall i | 0 <= i < s.sweepgc + 1 && i < |s.rootgc| ensures WhiteAgain(h', s.white, s.rootgc[i]) {
      if i < s.sweepgc { assert WhiteAgain(s.heap, s.white, s.rootgc[i]); }
    }
  }

  lemma KeepRootKeeps(s: State, o: Id)
    requires Inv(s) && s.phase.Sweep? && s.sweepgc < |s.rootgc| && o == s.rootgc[s.sweepgc]
    requires o in s.heap && NonDead(s.heap, s.white, o)
    requires IsThread(s.heap, o) ==> forall u :: u in s.heap[o].body.open ==> u in s.heap && s.heap[u].color == White(s.white)
    ensures Inv(s.(heap := Paint(s.heap, o, White(s.white)), sweepgc := s.sweepgc + 1))
  {
    var s' := s.(heap := Paint(s.heap, o, White(s.white)), sweepgc := s.sweepgc + 1);
    PaintBodies(s.heap, o, White(s.white));
    OutlineShape(s, s', {});
    PaintLive(s.heap, s.white, o, Roots(s));
    PaintPhase(s, o);
  }

  lemma PaintBodies(h: Heap, o: Id, c: Color)
    requires o in h
    ensures SameOutline(h, Paint(h, o, c))
    ensures c.White? && KindsOk(h) ==> KindsOk(Paint(h, o, c))
  {
  }

  lemma PaintSheds(h: Heap, white: bool, o: Id)
    requires NonDead(h, white, o)
    ensures Sheds(h, white, Paint(h, o, White(white)))
  {
    forall x | x in h ensures Kids(Paint(h, o, White(white)), x) == Kids(h, x) { KidsPaint(h, o, White(white), x); }
  }

  function DropAt(ids: seq<Id>, i: nat): seq<Id>
    requires i < |ids|
  {
    ids[..i] + ids[i + 1..]
  }

  lemma DropAtFacts(h: Heap, rootgc: seq<Id>, i: nat)
    requires RootgcOk(h, rootgc, {}) && i < |rootgc|
    ensures RootgcOk(h, DropAt(rootgc, i), {rootgc[i]})
  {
    var r := DropAt(rootgc, i);
    forall o ensures o in r <==> o in rootgc && o != rootgc[i] {
      if o in rootgc && o != rootgc[i] {
        var j :| 0 <= j < |rootgc| && rootgc[j] == o;
        assert r[if j < i then j else j - 1] == o;
      }
    }
  }

  lemma UnlinkKeeps(s: State)
    requires Inv(s) && s.phase.Sweep? && s.sweepgc < |s.rootgc|
    ensures InvBut(s.(rootgc := DropAt(s.rootgc, s.sweepgc)), {s.rootgc[s.sweepgc]})
  {
    DropAtFacts(s.heap, s.rootgc, s.sweepgc);
    var s' := s.(rootgc := DropAt(s.rootgc, s.sweepgc));
    assert Roots(s') == Roots(s);
    DropAtSwept(s.heap, s.white, s.rootgc, s.sweepgc);
  }

  lemma DropAtSwept(h: Heap, white: bool, rootgc: seq<Id>, i: nat)
    requires i < |rootgc| && SweptRoots(h, white, rootgc, i)
    ensures SweptRoots(h, white, DropAt(rootgc, i), i)
  {
    var r := DropAt(rootgc, i);
    forall j | 0 <= j < i ensures WhiteAgain(h, white, r[j]) {
      assert WhiteAgain(h, white, rootgc[j]) && r[j] == rootgc[j];
    }
  }

  /** Removing a dead object that is on no list any more. */
  lemma RemoveKeeps(s: State, o: Id)
    requires InvBut(s, {o}) && s.phase.Sweep? && IsDead(s.heap, s.white, o) && !s.heap[o].fixed
    requires !s.heap[o].body.Str? && !s.heap[o].body.Open? && (s.heap[o].body.Thread? ==> s.heap[o].body.open == [])
    ensures Inv(s.(heap := s.heap - {o}))
  {
    RemoveLive(s.heap, s.white, o, Roots(s));
    RemoveOpen(s.heap, o);
    RemoveShape(s, o);
    RemovePhase(s, o);
  }

  lemma RemoveLive(h: Heap, white: bool, o: Id, roots: set<Id>)
    requires ClosedLive(h, white) && RootsLive(h, white, roots) && IsDead(h, white, o) && OpenOk(h)
    requires h[o].body.Thread? ==> h[o].body.open == []
    ensures ClosedLive(h - {o}, white) && RootsLive(h - {o}, white, roots)
  {
    var h' := h - {o};
    forall x, k | NonDead(h', white, x) && k in Kids(h', x) ensures NonDead(h', white, k) {
      if h[x].body.Open? { assert OpenAt(h, x); }
      assert NonDead(h, white, x) && k in Kids(h, x);
      assert NonDead(h, white, k);
    }
  }

  lemma RemoveOpen(h: Heap, o: Id)
    requires OpenOk(h) && o in h && !h[o].body.Open? && (h[o].body.Thread? ==> h[o].body.open == [])
    ensures OpenOk(h - {o})
  {
    var h' := h - {o};
    forall u | u in h' && h'[u].body.Open? ensures OpenAt(h', u) { assert OpenAt(h, u); }
    forall t | IsThread(h', t) ensures OpenList(h', t, h'[t].body.open) {
      assert IsThread(h, t) && OpenList(h, t, h[t].body.open);
      OpenListSame(h, h', t, h[t].body.open);
    }
  }

  lemma RemoveShape(s: State, o: Id)
    requires Shape(s, {o}) && OpenOk(s.heap - {o}) && RootsLive(s.heap, s.white, Roots(s)) && IsDead(s.heap, s.white, o)
    requires !s.heap[o].body.Str? && !s.heap[o].body.Open?
    ensures Shape(s.(heap := s.heap - {o}), {}) && Roots(s.(heap := s.heap - {o})) == Roots(s)
  {
    SameStrings(s.heap, s.heap - {o}, s.strt, s.hash);
    assert NonDead(s.heap, s.white, s.main) && NonDead(s.heap, s.white, s.registry) && NonDead(s.heap, s.white, s.running);
    RemoveRootgc(s.heap, s.rootgc, o);
  }

  lemma RemoveRootgc(h: Heap, rootgc: seq<Id>, o: Id)
    requires RootgcOk(h, rootgc, {o})
    ensures RootgcOk(h - {o}, rootgc, {})
  {
  }

  lemma RemoveSwept(s: State, o: Id)
    requires StrOk(s.heap, s.strt, s.hash) && SweptStrings(s.heap, s.white, s.strt, |s.strt|) && o in s.heap && !s.heap[o].body.Str?
    ensures SweptStrings(s.heap - {o}, s.white, s.strt, |s.strt|)
  {
    forall i, x | 0 <= i < |s.strt| && x in s.strt[i] ensures x in s.heap && x != o { assert IsStr(s.heap, x); }
  }

  lemma RemovePhase(s: State, o: Id)
    requires PhaseOk(s) && s.phase.Sweep? && o in s.heap && OpenOk(s.heap) && RootgcOk(s.heap, s.rootgc, {o})
    requires !s.heap[o].body.Str? && !s.heap[o].body.Open? && StrOk(s.heap, s.strt, s.hash)
    ensures PhaseOk(s.(heap := s.heap - {o}))
  {
    hide Kids;
    var h' := s.heap - {o};
    RemoveSwept(s, o);
    hide StrOk, SweptStrings;
    forall i | 0 <= i < s.sweepgc && i < |s.rootgc| ensures WhiteAgain(h', s.white, s.rootgc[i]) {
      assert WhiteAgain(s.heap, s.white, s.rootgc[i]) && s.rootgc[i] in s.rootgc;
      if IsThread(h', s.rootgc[i]) { assert OpenList(s.heap, s.rootgc[i], s.heap[s.rootgc[i]].body.open); }
    }
  }

  lemma FreeThreadKeeps(s: State, o: Id)
    requires InvBut(s, {o}) && s.phase.Sweep? && IsDead(s.heap, s.white, o) && !s.heap[o].fixed && IsThread(s.heap, o)
    ensures Inv(FreeRoot(s, o)) && Sheds(s.heap, s.white, FreeRoot(s, o).heap)
    ensures FreeRoot(s, o).phase == s.phase && FreeRoot(s, o).white == s.white
  {
    var s1 := CloseFrom(s, o, 0);
    CloseFromKeeps(s, o, 0, {o});
    CloseFromSheds(s, o, 0, {o});
    NoneLeftOpen(s1.heap, o);
    hide CloseFrom, OpenOk, UvOk, RootgcOk, StrOk, Anchors, ClosedLive, RootsLive, PhaseOk, KindsOk;
    RemoveSheds(s.heap, s1.heap, s.white, o);
    RemoveThreadKeeps(s1, o);
  }

  lemma RemoveThreadKeeps(s: State, o: Id)
    requires InvBut(s, {o}) && s.phase.Sweep? && IsDead(s.heap, s.white, o) && !s.heap[o].fixed
    requires IsThread(s.heap, o) && !FirstOpenAbove(s.heap, o, 0)
    ensures Inv(s.(heap := s.heap - {o}))
  {
    NoneLeftOpen(s.heap, o);
    RemoveKeeps(s, o);
  }

  lemma FreeRootKeeps(s: State, o: Id)
    requires InvBut(s, {o}) && s.phase.Sweep? && IsDead(s.heap, s.white, o) && !s.heap[o].fixed
    requires !s.heap[o].body.Str? && !s.heap[o].body.Open?
    ensures Inv(FreeRoot(s, o)) && Sheds(s.heap, s.white, FreeRoot(s, o).heap)
    ensures FreeRoot(s, o).phase == s.phase && FreeRoot(s, o).white == s.white
  {
    if s.heap[o].body.Thread? {
      FreeThreadKeeps(s, o);
    } else {
      RemoveKeeps(s, o);
      ShedsRefl(s.heap, s.white);
      RemoveSheds(s.heap, s.heap, s.white, o);
    }
  }

  lemma RemoveSheds(h: Heap, h1: Heap, white: bool, o: Id)
    requires Sheds(h, white, h1) && IsDead(h, white, o) && !h[o].fixed && OpenOk(h1) && o in h1
    requires IsThread(h1, o) ==> h1[o].body.open == []
    ensures Sheds(h, white, h1 - {o})
  {
    forall x | x in h1 && x != o ensures Kids(h1 - {o}, x) == Kids(h1, x) {
      if h1[x].body.Open? { assert OpenAt(h1, x); }
    }
  }

  lemma ShedsRefl(h: Heap, white: bool)
    ensures Sheds(h, white, h)
  {
  }

  lemma NoneLeftOpen(h: Heap, t: Id)
    requires OpenOk(h) && IsThread(h, t)
    ensures h[t].body.open == [] || FirstOpenAbove(h, t, 0)
  {
    var open := h[t].body.open;
    assert OpenList(h, t, open);
    if open != [] {
      assert open[0] in open;
      assert OpenAt(h, open[0]);
    }
  }
}
