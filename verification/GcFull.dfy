/** Whole cycles: a cycle interleaved with the program reclaims its garbage,
    and a full collection keeps exactly what is reachable or fixed. */
module GcFull {
  import opened GcHeap
  import opened GcState
  import opened GcInv
  import opened GcSweep
  import opened GcCycle
  import opened GcSafety
  import opened GcReclaim

  // -------------------------------------------------- an interleaved cycle

  ghost function Garbage(s: State): set<Id> {
    set o | o in s.heap && !Reach(s, o) && !s.heap[o].fixed
  }

  ghost function Reachable(s: State): set<Id> {
    set o | o in s.heap && Reach(s, o)
  }

  lemma ReachableClosed(s: State)
    requires Live(s)
    ensures ClosedSet(s.heap, Reachable(s)) && forall r :: r in Roots(s) ==> r in Reachable(s)
  {
    forall o, k | o in Reachable(s) && o in s.heap && k in Kids(s.heap, o) ensures k in Reachable(s) {
      ReachKid(s, o, k);
      ReachLive(s, k);
    }
    forall r | r in Roots(s) ensures r in Reachable(s) {
      ReachRoot(s, r);
      ReachLive(s, r);
    }
  }

  lemma MarkRootStaysIn(s: State, live: set<Id>)
    requires AllWhite(s.heap, s.white) && IsThread(s.heap, s.main)
    requires ClosedSet(s.heap, live) && forall r :: r in Roots(s) ==> r in live
    ensures MarkedIn(MarkRoot(s).heap, live)
  {
    var m0 := Marker(s.heap, []);
    assert s.main in Roots(s) && s.registry in Roots(s);
    assert MarkedIn(s.heap, live);
    hide AllWhite, ClosedSet, MarkedIn;
    MarkAllMarkedIn(m0, [s.main], live);
    var rest := s.heap[s.main].body.refs + [s.registry] + Ids(s.mts);
    forall x | x in rest ensures x in live {
      if x in s.heap[s.main].body.refs { MainGlobals(s, live, x); } else { assert x in Roots(s); }
    }
    MarkAllMarkedIn(MarkAll(m0, [s.main]), rest, live);
  }

  lemma MainGlobals(s: State, live: set<Id>, x: Id)
    requires IsThread(s.heap, s.main) && x in s.heap[s.main].body.refs && ClosedSet(s.heap, live) && s.main in live
    ensures x in live
  {
    assert x in Kids(s.heap, s.main);
  }

  /** Marking the roots of an all-white heap marks reachable objects only. */
  lemma MarkRootMarkedIn(s: State)
    requires AllWhite(s.heap, s.white) && Live(s) && IsThread(s.heap, s.main)
    ensures MarkedIn(MarkRoot(s).heap, Reachable(s))
  {
    hide AllWhite, Reachable, MarkRoot, Reach;
    ReachableClosed(s);
    MarkRootStaysIn(s, Reachable(s));
  }

  lemma GarbageKids(s: State, o: Id, k: Id)
    requires Live(s) && Anchors(s.heap, s.main, s.registry, s.running, s.next)
    requires o in s.heap && o !in Garbage(s) && k in Kids(s.heap, o)
    ensures k !in Garbage(s)
  {
    if s.heap[o].fixed && !s.heap[o].body.Str? {
      assert o in Roots(s);
      ReachRoot(s, o);
    }
    if Reach(s, o) { ReachKid(s, o, k); }
  }

  lemma GarbageDoomed(s: State)
    requires Inv(s) && (s.phase.Pause? || s.phase.Finalize?)
    ensures Doomed(MarkRoot(s), Garbage(s))
  {
    hide MarkRoot, Inv, InvBut, Reach, Garbage, Reachable, Anchors, AllWhite, MarkedIn, Live, IsThread, Collects, Doomed;
    PauseFacts(s);
    MarkRootFields(s);
    MarkRootStep(s);
    MarkRootMarkedIn(s);
    GarbageSpared(s, MarkRoot(s));
  }

  lemma PauseFacts(s: State)
    requires Inv(s) && (s.phase.Pause? || s.phase.Finalize?)
    ensures AllWhite(s.heap, s.white) && Live(s) && IsThread(s.heap, s.main)
    ensures Anchors(s.heap, s.main, s.registry, s.running, s.next)
  {
  }

  lemma MarkRootFields(s: State)
    ensures MarkRoot(s).next == s.next && MarkRoot(s).phase.Propagate?
  {
    hide MarkAll;
  }

  lemma GarbageSpared(s: State, s': State)
    requires Live(s) && Anchors(s.heap, s.main, s.registry, s.running, s.next) && Collects(s, s')
    requires s'.next == s.next && s'.phase.Propagate? && MarkedIn(s'.heap, Reachable(s))
    ensures Doomed(s', Garbage(s))
  {
    hide Reach;
    var d := Garbage(s);
    forall r | r in Roots(s') ensures r !in d { ReachRoot(s, r); }
    forall o, k | o in s'.heap && o !in d && k in Kids(s'.heap, o) ensures k !in d {
      hide Garbage;
      GarbageKids(s, o, k);
    }
    forall o | o in d && o in s'.heap ensures !s'.heap[o].fixed && DoomedMark(s', o) {
      assert o !in Reachable(s);
      assert !Marked(s'.heap, o);
    }
  }

  /** All operations but the last are applied inside the cycle. */
  ghost predicate InCycle(s: State, ops: seq<Op>)
    requires ValidRun(s, ops)
    decreases |ops|
  {
    ops == [] || (Cycling(s.phase) && InCycle(Apply(s, ops[0]), ops[1..]))
  }

  /** What lookups of the run brought back. */
  ghost function FoundIn(s: State, ops: seq<Op>): set<Id>
    requires ValidRun(s, ops)
    decreases |ops|
  {
    if ops == [] then {} else Found(s, ops[0]) + FoundIn(Apply(s, ops[0]), ops[1..])
  }

  lemma {:induction false} RunDoomed(s: State, ops: seq<Op>, d: set<Id>)
    requires Inv(s) && ValidRun(s, ops) && InCycle(s, ops) && Doomed(s, d)
    ensures Doomed(After(s, ops), d - FoundIn(s, ops))
    decreases |ops|
  {
    if ops == [] {
      assert d - {} == d;
    } else {
      hide Inv, InvBut, Apply, Enabled, Doomed, Found;
      var s1, d1 := Apply(s, ops[0]), d - Found(s, ops[0]);
      ApplyKeeps(s, ops[0]);
      StepDoomed(s, ops[0], d);
      RunDoomed(s1, ops[1..], d1);
      assert d1 - FoundIn(s1, ops[1..]) == d - FoundIn(s, ops);
    }
  }

  lemma DoomedGone(s: State, d: set<Id>, o: Id)
    requires Doomed(s, d) && s.phase.Finalize? && o in d
    ensures o !in s.heap
  {
  }

  /** Reclamation: an object that is garbage when the cycle starts and that no
      lookup of the run returns is freed by the time the cycle reaches finalize,
      however program and collector steps interleave. */
  lemma Reclaims(s: State, ops: seq<Op>, o: Id)
    requires Inv(s) && (s.phase.Pause? || s.phase.Finalize?)
    requires ValidRun(MarkRoot(s), ops) && InCycle(MarkRoot(s), ops) && After(MarkRoot(s), ops).phase.Finalize?
    requires o in s.heap && !Reach(s, o) && !s.heap[o].fixed && o !in FoundIn(MarkRoot(s), ops)
    ensures o !in After(MarkRoot(s), ops).heap
  {
    assert o in Garbage(s);
    GarbageDoomed(s);
    MarkRootStep(s);
    hide Inv, InvBut, MarkRoot, After, FoundIn, InCycle, ValidRun, Garbage;
    RunDoomed(MarkRoot(s), ops, Garbage(s));
    DoomedGone(After(MarkRoot(s), ops), Garbage(s) - FoundIn(MarkRoot(s), ops), o);
  }

  // -------------------------------------------------------- luaC_fullgc

  /** A collector run as the program sees it. */
  ghost predicate Preserves(s: State, s': State) {
    && Inv(s') && s'.pinned == s.pinned
    && (forall o :: Reach(s', o) <==> Reach(s, o))
    && (forall o :: o in s'.heap ==> o in s.heap && s'.heap[o].fixed == s.heap[o].fixed)
    && (forall o :: o in s.heap && (Reach(s, o) || s.heap[o].fixed) ==> o in s'.heap)
  }

  lemma PreservesTrans(a: State, b: State, c: State)
    requires Preserves(a, b) && Preserves(b, c)
    ensures Preserves(a, c)
  {
    hide Inv, Reach;
  }

  lemma CollectsReach(s: State, s': State, o: Id)
    requires Live(s) && Collects(s, s')
    ensures Reach(s, o) <==> Reach(s', o)
  {
    if Reach(s, o) {
      var p :| Path(s.heap, p) && p[0] in Roots(s) && p[|p| - 1] == o;
      PathKids(s.heap, p);
      PathKids(s'.heap, p);
      forall i | 0 <= i < |p| - 1 ensures p[i] in s'.heap && p[i + 1] in Kids(s'.heap, p[i]) {
        PrefixReach(s, p, i);
        ReachLive(s, p[i]);
      }
      assert Path(s'.heap, p) && p[0] in Roots(s');
    }
    if Reach(s', o) {
      var p :| Path(s'.heap, p) && p[0] in Roots(s') && p[|p| - 1] == o;
      PathKids(s.heap, p);
      PathKids(s'.heap, p);
      assert Path(s.heap, p) && p[0] in Roots(s);
    }
  }

  lemma PrefixReach(s: State, p: seq<Id>, i: nat)
    requires Path(s.heap, p) && p[0] in Roots(s) && i < |p|
    ensures Reach(s, p[i])
  {
    var q := p[..i + 1];
    assert Path(s.heap, q) && q[0] in Roots(s) && q[|q| - 1] == p[i];
  }

  lemma CollectsPreserves(s: State, s': State)
    requires Inv(s) && Inv(s') && Collects(s, s') && s'.pinned == s.pinned
    ensures Preserves(s, s')
  {
    hide Inv, InvBut, Live, Reach, Kids, Roots;
    InvLive(s);
    forall o ensures Reach(s, o) <==> Reach(s', o) { CollectsReach(s, s', o); }
    forall o | Reach(s, o) ensures NonDead(s.heap, s.white, o) { ReachLive(s, o); }
  }

  lemma StepPinned(s: State)
    ensures SingleStep(s).pinned == s.pinned
  {
    hide SweepList, MarkAll, PropagateMark, AtomicMark, SweepLeaves, Rehash, Chain, StrCount;
    SweepListPinned(s, GCSWEEPMAX);
  }

  lemma {:induction false} CloseFromPinned(s: State, t: Id, level: nat)
    ensures CloseFrom(s, t, level).pinned == s.pinned
    decreases OpenCount(s.heap, t)
  {
    if FirstOpenAbove(s.heap, t, level) {
      CloseOneShrinks(s, t);
      CloseFromPinned(CloseOne(s, t), t, level);
    }
  }

  lemma {:induction false} SweepListPinned(s: State, count: nat)
    ensures SweepList(s, count).pinned == s.pinned
    decreases count
  {
    if count > 0 && s.sweepgc < |s.rootgc| {
      SweepRootPinned(s);
      hide SweepRoot;
      SweepListPinned(SweepRoot(s), count - 1);
    }
  }

  lemma SweepRootPinned(s: State)
    requires s.sweepgc < |s.rootgc|
    ensures SweepRoot(s).pinned == s.pinned
  {
    var o := s.rootgc[s.sweepgc];
    if o in s.heap {
      var s1 := if s.heap[o].body.Thread? then SweepOpen(s, o) else s;
      CloseFromPinned(s1.(rootgc := s.rootgc[..s.sweepgc] + s.rootgc[s.sweepgc + 1..]), o, 0);
    }
  }

  lemma StepPreserves(s: State)
    requires Inv(s) && s.pinned == {}
    ensures Preserves(s, SingleStep(s))
  {
    SingleStepKeeps(s);
    StepPinned(s);
    hide Inv, InvBut, SingleStep, Collects;
    CollectsPreserves(s, SingleStep(s));
  }

  /** Start over: forget the marks of an unfinished mark phase. */
  function ResetSweep(s: State): State {
    s.(sweepstr := 0, sweepgc := 0, gray := [], grayagain := [], phase := SweepString)
  }

  lemma ResetKeeps(s: State)
    requires Inv(s) && (s.phase.Pause? || s.phase.Propagate?)
    ensures Inv(ResetSweep(s)) && NoDead(s.heap, s.white) && Preserves(s, ResetSweep(s))
  {
    var s' := ResetSweep(s);
    assert Roots(s') == Roots(s);
    assert Inv(s');
    assert NoDead(s.heap, s.white);
    assert Collects(s, s');
    hide Inv, InvBut, Collects, ResetSweep;
    CollectsPreserves(s, s');
  }

  predicate Sweeping(p: Phase) {
    p.SweepString? || p.Sweep? || p.Finalize?
  }

  function Rank(p: Phase): nat {
    if p.SweepString? then 2 else if p.Sweep? then 1 else 0
  }

  lemma ShedsKeys(s: State, s': State)
    requires SweepsTo(s, s')
    ensures s'.heap.Keys <= s.heap.Keys && Inv(s') && s'.phase.Sweep?
  {
    hide Inv;
  }

  lemma FreeRootGone(s: State, o: Id)
    requires o in s.heap
    ensures o !in FreeRoot(s, o).heap
  {
    hide CloseFrom;
  }

  lemma InvCurrent(s: State, o: Id)
    requires Inv(s) && s.sweepgc < |s.rootgc| && o == s.rootgc[s.sweepgc]
    ensures o in s.heap
  {
    CurrentFacts(s, o);
  }

  lemma SweepRootProgress(s: State)
    requires Inv(s) && s.phase.Sweep? && s.sweepgc < |s.rootgc|
    ensures var s' := SweepRoot(s);
            s'.heap.Keys < s.heap.Keys || (s'.heap.Keys == s.heap.Keys && |s'.rootgc| - s'.sweepgc < |s.rootgc| - s.sweepgc)
  {
    var o := s.rootgc[s.sweepgc];
    InvCurrent(s, o);
    assert IsThread(s.heap, o) <==> s.heap[o].body.Thread?;
    hide *;
    SweepRootKeeps(s);
    ShedsKeys(s, SweepRoot(s));
    var s1 := if s.heap[o].body.Thread? then SweepOpen(s, o) else s;
    if s.heap[o].body.Thread? { SweepOpenTo(s, o); }
    SweepRootForm(s, s1, o);
    if !Kept(s1.heap, s.white, o) { FreeRootGone(s1.(rootgc := DropAt(s1.rootgc, s1.sweepgc)), o); }
  }

  lemma {:induction false} SweepListProgress(s: State, count: nat)
    requires Inv(s) && s.phase.Sweep?
    ensures var s' := SweepList(s, count);
            && s'.heap.Keys <= s.heap.Keys
            && (count > 0 && s.sweepgc < |s.rootgc| && s'.heap.Keys == s.heap.Keys ==>
                  |s'.rootgc| - s'.sweepgc < |s.rootgc| - s.sweepgc)
    decreases count
  {
    hide SweepRoot, Inv, InvBut, SweepsTo;
    if count > 0 && s.sweepgc < |s.rootgc| {
      var s1 := SweepRoot(s);
      SweepRootKeeps(s);
      ShedsKeys(s, s1);
      SweepRootProgress(s);
      SweepListProgress(s1, count - 1);
      if count - 1 == 0 || s1.sweepgc >= |s1.rootgc| { assert SweepList(s1, count - 1) == s1; }
    }
  }

  lemma SweepProgress(s: State)
    requires Inv(s) && s.phase.Sweep?
    ensures var s' := SweepStep(s);
            || s'.phase.Finalize?
            || s'.heap.Keys < s.heap.Keys
            || (s'.heap.Keys == s.heap.Keys && |s'.rootgc| - s'.sweepgc < |s.rootgc| - s.sweepgc)
  {
    SweepListProgress(s, GCSWEEPMAX);
    assert s.sweepgc >= |s.rootgc| ==> SweepList(s, GCSWEEPMAX) == s;
    hide SweepList, Inv, InvBut;
  }

  lemma SweepAdvances(s: State)
    requires Inv(s) && Sweeping(s.phase) && !s.phase.Finalize?
    ensures var s' := SingleStep(s);
            && Sweeping(s'.phase) && Rank(s'.phase) <= Rank(s.phase)
            && (s'.phase == s.phase ==>
                  if s.phase.SweepString? then |s'.strt| - s'.sweepstr < |s.strt| - s.sweepstr
                  else s'.heap.Keys < s.heap.Keys ||
                       (s'.heap.Keys == s.heap.Keys && |s'.rootgc| - s'.sweepgc < |s.rootgc| - s.sweepgc))
  {
    if s.phase.Sweep? {
      SweepStepColors(s);
      SweepProgress(s);
      SweepStepKeeps(s);
      hide Inv, InvBut, SweepStep;
    }
  }

  /** The loop that finishes a pending sweep. */
  function FinishSweep(s: State): State
    requires Inv(s) && s.pinned == {} && Sweeping(s.phase)
    decreases Rank(s.phase), if s.phase.SweepString? then |s.strt| - s.sweepstr else 0, s.heap.Keys,
              if s.phase.Sweep? then |s.rootgc| - s.sweepgc else 0
  {
    if s.phase.Finalize? then s
    else
      StepPreserves(s);
      SweepAdvances(s);
      SweepBounds(s);
      SweepBounds(SingleStep(s));
      FinishSweep(SingleStep(s))
  }

  lemma SweepBounds(s: State)
    requires Inv(s)
    ensures s.phase.SweepString? ==> s.sweepstr < |s.strt|
    ensures s.phase.Sweep? ==> s.sweepgc <= |s.rootgc|
  {
  }

  lemma {:induction false} FinishSweepSpec(s: State)
    requires Inv(s) && s.pinned == {} && Sweeping(s.phase)
    ensures var s' := FinishSweep(s); Preserves(s, s') && s'.phase.Finalize?
    decreases Rank(s.phase), if s.phase.SweepString? then |s.strt| - s.sweepstr else 0, s.heap.Keys,
              if s.phase.Sweep? then |s.rootgc| - s.sweepgc else 0
  {
    hide Inv, InvBut, SingleStep, Reach;
    if s.phase.Finalize? {
    } else {
      StepPreserves(s);
      SweepAdvances(s);
      SweepBounds(s);
      SweepBounds(SingleStep(s));
      FinishSweepSpec(SingleStep(s));
      PreservesTrans(s, SingleStep(s), FinishSweep(SingleStep(s)));
    }
  }

  lemma {:induction false} FinishSweepDoomed(s: State, d: set<Id>)
    requires Inv(s) && s.pinned == {} && Sweeping(s.phase) && Doomed(s, d)
    ensures Doomed(FinishSweep(s), d)
    decreases Rank(s.phase), if s.phase.SweepString? then |s.strt| - s.sweepstr else 0, s.heap.Keys,
              if s.phase.Sweep? then |s.rootgc| - s.sweepgc else 0
  {
    hide Inv, InvBut, SingleStep, Doomed, Reach;
    if !s.phase.Finalize? {
      StepPreserves(s);
      SweepAdvances(s);
      SweepBounds(s);
      SweepBounds(SingleStep(s));
      SweepStepDoomed(s, d);
      FinishSweepDoomed(SingleStep(s), d);
    }
  }

  /** Without dead objects a sweep frees nothing. */
  lemma {:induction false} FinishSweepKeepsAll(s: State)
    requires Inv(s) && s.pinned == {} && Sweeping(s.phase) && NoDead(s.heap, s.white)
    ensures FinishSweep(s).heap.Keys == s.heap.Keys
    decreases Rank(s.phase), if s.phase.SweepString? then |s.strt| - s.sweepstr else 0, s.heap.Keys,
              if s.phase.Sweep? then |s.rootgc| - s.sweepgc else 0
  {
    hide Inv, InvBut, SingleStep, Reach;
    if !s.phase.Finalize? {
      StepPreserves(s);
      SweepAdvances(s);
      SweepBounds(s);
      SweepBounds(SingleStep(s));
      SweepStepColors(s);
      ShedsNothing(s.heap, s.white, SingleStep(s).heap);
      FinishSweepKeepsAll(SingleStep(s));
    }
  }

  lemma ShedsNothing(h: Heap, white: bool, h': Heap)
    requires Sheds(h, white, h') && NoDead(h, white)
    ensures h'.Keys == h.Keys && NoDead(h', white)
  {
    forall o | o in h' ensures h'[o].color != White(!white) { assert IsDead(h', white, o) ==> IsDead(h, white, o); }
  }

  /** The first sweep of a full collection started in pause or propagate only
      turns everything white again: it frees nothing. */
  lemma FirstSweepFreesNothing(s: State)
    requires Inv(s) && s.pinned == {} && (s.phase.Pause? || s.phase.Propagate?)
    ensures Inv(ResetSweep(s)) && FinishSweep(ResetSweep(s)).heap.Keys == s.heap.Keys
  {
    ResetKeeps(s);
    hide Inv, InvBut, Reach;
    FinishSweepKeepsAll(ResetSweep(s));
  }

  /** The mark phase run to its end. */
  function FinishMark(s: State): State
    requires Inv(s) && s.pinned == {} && s.phase.Propagate?
    decreases Whites(s.heap), |s.gray|
  {
    if s.gray == [] then SingleStep(s)
    else
      FinishMarkNext(s);
      FinishMark(SingleStep(s))
  }

  lemma FinishMarkNext(s: State)
    requires Inv(s) && s.pinned == {} && s.phase.Propagate? && s.gray != []
    ensures var s' := SingleStep(s);
            && Inv(s') && s'.pinned == {} && s'.phase.Propagate?
            && Whites(s'.heap) <= Whites(s.heap) && (Whites(s'.heap) == Whites(s.heap) ==> |s'.gray| < |s.gray|)
  {
    hide Inv, InvBut, PropagateMark, Collects;
    StepPreserves(s);
    PropagateMarkShrinks(Tracer(s.heap, s.gray, s.grayagain));
  }

  lemma {:induction false} FinishMarkSpec(s: State, d: set<Id>)
    requires Inv(s) && s.pinned == {} && s.phase.Propagate? && Doomed(s, d)
    ensures var s' := FinishMark(s); Preserves(s, s') && s'.phase.SweepString? && Doomed(s', d)
    decreases Whites(s.heap), |s.gray|
  {
    hide Inv, InvBut, Doomed, Reach, PropagateMark, Atomic;
    StepPreserves(s);
    MarkStepDoomed(s, d);
    AtomicPhase(s);
    if s.gray != [] {
      PropagateMarkShrinks(Tracer(s.heap, s.gray, s.grayagain));
      FinishMarkSpec(SingleStep(s), d);
      PreservesTrans(s, SingleStep(s), FinishMark(SingleStep(s)));
    }
  }

  lemma AtomicPhase(s: State)
    ensures Atomic(s).phase.SweepString?
  {
  }

  /** luaC_fullgc */
  function FullGc(s: State): State
    requires Inv(s) && s.pinned == {}
  {
    FullGcSteps(s);
    var s1 := if s.phase.Pause? || s.phase.Propagate? then ResetSweep(s) else s;
    var s2 := FinishSweep(s1);
    var s3 := FinishMark(MarkRoot(s2));
    FinishSweep(s3).(phase := Pause)
  }

  lemma FullGcSteps(s: State)
    requires Inv(s) && s.pinned == {}
    ensures var s1 := if s.phase.Pause? || s.phase.Propagate? then ResetSweep(s) else s;
            && Inv(s1) && s1.pinned == {} && Sweeping(s1.phase) && Preserves(s, s1)
            && var s2 := FinishSweep(s1);
               && Preserves(s1, s2) && s2.phase.Finalize?
               && var s2' := MarkRoot(s2);
                  && Preserves(s2, s2') && s2'.phase.Propagate? && Doomed(s2', Garbage(s2))
                  && var s3 := FinishMark(s2');
                     && Preserves(s2', s3) && s3.phase.SweepString? && Doomed(s3, Garbage(s2))
                     && var s4 := FinishSweep(s3);
                        Preserves(s3, s4) && s4.phase.Finalize? && Doomed(s4, Garbage(s2))
  {
    hide Inv, InvBut, Doomed, Garbage, Reach, MarkRoot;
    var s1 := if s.phase.Pause? || s.phase.Propagate? then ResetSweep(s) else s;
    if s.phase.Pause? || s.phase.Propagate? { ResetKeeps(s); } else { PreservesRefl(s); }
    FinishSweepSpec(s1);
    var s2 := FinishSweep(s1);
    MarkRootPreserves(s2);
    GarbageDoomed(s2);
    var d := Garbage(s2);
    FinishMarkSpec(MarkRoot(s2), d);
    var s3 := FinishMark(MarkRoot(s2));
    FinishSweepSpec(s3);
    FinishSweepDoomed(s3, d);
  }

  lemma PreservesRefl(s: State)
    requires Inv(s)
    ensures Preserves(s, s)
  {
    hide Inv, Reach;
  }

  lemma MarkRootPreserves(s: State)
    requires Inv(s) && s.phase.Finalize?
    ensures Preserves(s, MarkRoot(s)) && MarkRoot(s).phase.Propagate?
  {
    MarkRootStep(s);
    hide Inv, InvBut, Collects;
    CollectsPreserves(s, MarkRoot(s));
  }

  lemma EndCycle(s: State)
    requires Inv(s) && s.phase.Finalize?
    ensures Inv(s.(phase := Pause)) && forall o :: Reach(s.(phase := Pause), o) <==> Reach(s, o)
  {
    assert Roots(s.(phase := Pause)) == Roots(s);
  }

  /** A full collection keeps exactly the objects that are reachable or fixed,
      whatever state the collector was in. */
  lemma FullGcExact(s: State)
    requires Inv(s) && s.pinned == {}
    ensures var s' := FullGc(s);
            && Inv(s') && s'.phase.Pause?
            && (forall o :: o in s'.heap <==> o in s.heap && (Reach(s, o) || s.heap[o].fixed))
            && (forall o :: Reach(s', o) <==> Reach(s, o))
  {
    hide Inv, InvBut, Doomed, Reach, MarkRoot, FinishSweep, FinishMark, ResetSweep;
    FullGcSteps(s);
    var s1 := if s.phase.Pause? || s.phase.Propagate? then ResetSweep(s) else s;
    var s2 := FinishSweep(s1);
    var s2' := MarkRoot(s2);
    var s3 := FinishMark(s2');
    var s4 := FinishSweep(s3);
    PreservesTrans(s, s1, s2);
    PreservesTrans(s, s2, s2');
    PreservesTrans(s, s2', s3);
    PreservesTrans(s, s3, s4);
    PreservesTrans(s2, s2', s3);
    PreservesTrans(s2, s3, s4);
    FullGcSurvivors(s, s2, s4);
    EndCycle(s4);
  }

  lemma FullGcSurvivors(s: State, s2: State, s4: State)
    requires Preserves(s, s2) && Preserves(s2, s4) && Preserves(s, s4) && s4.phase.Finalize? && Doomed(s4, Garbage(s2))
    ensures Inv(s4) && (forall o :: Reach(s4, o) <==> Reach(s, o))
    ensures forall o :: o in s4.heap <==> o in s.heap && (Reach(s, o) || s.heap[o].fixed)
  {
    hide Inv, Reach;
    forall o | o in s4.heap ensures Reach(s, o) || s.heap[o].fixed {
      assert o !in Garbage(s2);
    }
  }
}
