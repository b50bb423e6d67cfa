/** String-table resizing, whole sweep steps and the collector's single step. */
module GcCycle {
  import opened GcHeap
  import opened GcState
  import opened GcInv
  import opened GcCollector
  import opened GcSweep

  // ------------------------------------------------------- sweeping rootgc

  lemma OpenSweptSheds(h: Heap, white: bool, t: Id, h': Heap)
    requires OpenSwept(h, white, t, h') && OpenOk(h)
    requires forall o :: o in h && h[o].fixed ==> !h[o].body.Open?
    ensures Sheds(h, white, h')
    ensures forall u :: u in h'[t].body.open ==> u in h' && h'[u].color == White(white)
  {
    assert OpenList(h, t, h[t].body.open);
    forall o | o in h' ensures Kids(h', o) == Kids(h, o) { OpenSweptKids(h, white, t, h', o); }
  }

  /** The object under the sweep pointer once its own open upvalues are swept. */
  lemma SweepCurrentKeeps(s: State, o: Id)
    requires Inv(s) && s.phase.Sweep? && s.sweepgc < |s.rootgc| && o == s.rootgc[s.sweepgc]
    requires IsThread(s.heap, o) ==> forall u :: u in s.heap[o].body.open ==> u in s.heap && s.heap[u].color == White(s.white)
    ensures o in s.heap
    ensures Kept(s.heap, s.white, o) ==>
              var h := Paint(s.heap, o, White(s.white));
              Inv(s.(heap := h, sweepgc := s.sweepgc + 1)) && Sheds(s.heap, s.white, h)
    ensures !Kept(s.heap, s.white, o) ==>
              var s' := FreeRoot(s.(rootgc := DropAt(s.rootgc, s.sweepgc)), o);
              && Inv(s') && Sheds(s.heap, s.white, s'.heap)
              && s'.phase == s.phase && s'.white == s.white
  {
    CurrentFacts(s, o);
    if Kept(s.heap, s.white, o) {
      KeepRootKeeps(s, o);
      PaintSheds(s.heap, s.white, o);
    } else {
      UnlinkKeeps(s);
      FreeRootKeeps(s.(rootgc := DropAt(s.rootgc, s.sweepgc)), o);
    }
  }

  lemma CurrentFacts(s: State, o: Id)
    requires Shape(s, {}) && RootsLive(s.heap, s.white, Roots(s)) && s.sweepgc < |s.rootgc| && o == s.rootgc[s.sweepgc]
    ensures o in s.heap && !s.heap[o].body.Str? && !s.heap[o].body.Open?
    ensures Kept(s.heap, s.white, o) ==> NonDead(s.heap, s.white, o)
    ensures !Kept(s.heap, s.white, o) ==> IsDead(s.heap, s.white, o) && !s.heap[o].fixed
  {
    assert o in s.rootgc;
    assert NonDead(s.heap, s.white, s.main);
  }

  /** A stretch of the rootgc sweep: invariant and phase kept, only dead freed. */
  ghost predicate SweepsTo(s: State, s': State) {
    Inv(s') && s'.phase.Sweep? && s'.white == s.white && Sheds(s.heap, s.white, s'.heap)
  }

  lemma SweepsTrans(a: State, b: State, c: State)
    requires SweepsTo(a, b) && SweepsTo(b, c)
    ensures SweepsTo(a, c)
  {
    ShedsTrans(a.heap, b.heap, c.heap, a.white);
  }

  lemma SweepRootForm(s: State, s1: State, o: Id)
    requires s.sweepgc < |s.rootgc| && o == s.rootgc[s.sweepgc] && o in s.heap && o in s1.heap
    requires s1 == if s.heap[o].body.Thread? then SweepOpen(s, o) else s
    requires s1.rootgc == s.rootgc && s1.sweepgc == s.sweepgc
    ensures SweepRoot(s) ==
            if Kept(s1.heap, s.white, o) then s1.(heap := Paint(s1.heap, o, White(s.white)), sweepgc := s1.sweepgc + 1)
            else FreeRoot(s1.(rootgc := DropAt(s1.rootgc, s1.sweepgc)), o)
  {
  }

  lemma SweepCurrentTo(s: State, s1: State, o: Id)
    requires SweepsTo(s, s1) && s1.sweepgc < |s1.rootgc| && o == s1.rootgc[s1.sweepgc]
    requires IsThread(s1.heap, o) ==> forall u :: u in s1.heap[o].body.open ==> u in s1.heap && s1.heap[u].color == White(s.white)
    ensures o in s1.heap
    ensures SweepsTo(s, if Kept(s1.heap, s.white, o)
                        then s1.(heap := Paint(s1.heap, o, White(s.white)), sweepgc := s1.sweepgc + 1)
                        else FreeRoot(s1.(rootgc := DropAt(s1.rootgc, s1.sweepgc)), o))
  {
    SweepCurrentKeeps(s1, o);
    SweepsTrans(s, s1, if Kept(s1.heap, s.white, o)
                       then s1.(heap := Paint(s1.heap, o, White(s.white)), sweepgc := s1.sweepgc + 1)
                       else FreeRoot(s1.(rootgc := DropAt(s1.rootgc, s1.sweepgc)), o));
  }

  lemma SweepOpenTo(s: State, o: Id)
    requires Inv(s) && s.phase.Sweep? && IsThread(s.heap, o)
    ensures SweepsTo(s, SweepOpen(s, o))
    ensures o in SweepOpen(s, o).heap && IsThread(SweepOpen(s, o).heap, o)
    ensures forall u :: u in SweepOpen(s, o).heap[o].body.open ==>
              u in SweepOpen(s, o).heap && SweepOpen(s, o).heap[u].color == White(s.white)
    ensures SweepOpen(s, o).rootgc == s.rootgc && SweepOpen(s, o).sweepgc == s.sweepgc
  {
    SweepOpenKeeps(s, o);
    FixedNotOpen(s);
    OpenSweptSheds(s.heap, s.white, o, SweepOpen(s, o).heap);
  }

  lemma SweepRootKeeps(s: State)
    requires Inv(s) && s.phase.Sweep? && s.sweepgc < |s.rootgc|
    ensures SweepsTo(s, SweepRoot(s))
  {
    var o := s.rootgc[s.sweepgc];
    CurrentFacts(s, o);
    var s1 := if s.heap[o].body.Thread? then SweepOpen(s, o) else s;
    if s.heap[o].body.Thread? { SweepOpenTo(s, o); }
    SweepCurrentTo(s, s1, o);
    SweepRootForm(s, s1, o);
  }

  lemma SweepsRefl(s: State)
    requires Inv(s) && s.phase.Sweep?
    ensures SweepsTo(s, s)
  {
  }

  lemma SweepListUnfold(s: State, s1: State, count: nat)
    requires count > 0 && s.sweepgc < |s.rootgc| && s1 == SweepRoot(s)
    ensures SweepList(s, count) == SweepList(s1, count - 1)
  {
  }

  lemma SweepsPre(s: State, s1: State)
    requires SweepsTo(s, s1)
    ensures Inv(s1) && s1.phase.Sweep?
  {
  }

  lemma {:induction false} SweepListKeeps(s: State, count: nat)
    requires Inv(s) && s.phase.Sweep?
    ensures SweepsTo(s, SweepList(s, count))
    decreases count
  {
    if count == 0 || s.sweepgc >= |s.rootgc| {
      SweepsRefl(s);
    } else {
      SweepRootKeeps(s);
      SweepListTail(s, SweepRoot(s), count);
    }
  }

  lemma {:induction false} SweepListTail(s: State, s1: State, count: nat)
    requires count > 0 && SweepsTo(s, s1) && s.sweepgc < |s.rootgc| && s1 == SweepRoot(s)
    ensures SweepsTo(s, SweepList(s, count))
    decreases count, 0
  {
    hide *;
    SweepsPre(s, s1);
    SweepListKeeps(s1, count - 1);
    SweepListUnfold(s, s1, count);
    SweepsTrans(s, s1, SweepList(s1, count - 1));
  }

  /** Past the end of both sweeps every object is white again. */
  lemma SweptAll(s: State)
    requires Shape(s, {}) && s.phase.Sweep? && PhaseOk(s) && s.sweepgc >= |s.rootgc|
    ensures AllWhite(s.heap, s.white)
  {
    forall o | o in s.heap ensures s.heap[o].color == White(s.white) {
      if s.heap[o].body.Str? {
        assert IsStr(s.heap, o);
        assert o in s.strt[Bucket(s.heap, o, s.hash, |s.strt|)];
      } else if s.heap[o].body.Open? {
        assert OpenAt(s.heap, o);
        var t := s.heap[o].body.thread;
        assert t in s.rootgc;
        var i :| 0 <= i < |s.rootgc| && s.rootgc[i] == t;
        assert WhiteAgain(s.heap, s.white, s.rootgc[i]);
      } else {
        assert o in s.rootgc;
        var i :| 0 <= i < |s.rootgc| && s.rootgc[i] == o;
        assert WhiteAgain(s.heap, s.white, s.rootgc[i]);
      }
    }
  }

  // ------------------------------------------------------------ luaS_resize

  ghost predicate Apart(strt: seq<seq<Id>>) {
    && (forall i :: 0 <= i < |strt| ==> Distinct(strt[i]))
    && (forall i, j, o :: 0 <= i < j < |strt| && o in strt[i] ==> o !in strt[j])
  }

  lemma {:induction false} ChainSpec(strt: seq<seq<Id>>)
    requires Apart(strt)
    ensures Distinct(Chain(strt))
    ensures forall o :: o in Chain(strt) <==> exists i :: 0 <= i < |strt| && o in strt[i]
  {
    if strt != [] {
      var rest := strt[1..];
      assert Apart(rest);
      ChainSpec(rest);
      forall o ensures o in Chain(strt) <==> exists i :: 0 <= i < |strt| && o in strt[i] {
        if o in Chain(rest) {
          var i :| 0 <= i < |rest| && o in rest[i];
          assert o in strt[i + 1];
        }
        if exists i :: 0 <= i < |strt| && o in strt[i] {
          var i :| 0 <= i < |strt| && o in strt[i];
          assert i > 0 ==> o in rest[i - 1];
        }
      }
      forall o | o in strt[0] ensures o !in Chain(rest) {
        assert forall i :: 0 <= i < |rest| ==> rest[i] == strt[i + 1] && o !in rest[i];
      }
      var a, b := strt[0], Chain(rest);
      assert forall i :: 0 <= i < |b| ==> b[i] in b;
    }
  }

  /** Each string of the list moves, once, to the bucket of its hash. */
  lemma {:induction false} RehashSpec(h: Heap, hash: string -> nat, ids: seq<Id>, table: seq<seq<Id>>)
    requires |table| > 0 && Distinct(ids)
    requires forall o :: o in ids ==> IsStr(h, o)
    requires forall i, o :: 0 <= i < |table| && o in table[i] ==> o !in ids
    requires forall i :: 0 <= i < |table| ==> Distinct(table[i])
    ensures var r := Rehash(h, hash, ids, table);
            && (forall i, o :: 0 <= i < |r| ==> (o in r[i] <==> o in table[i] || (o in ids && Bucket(h, o, hash, |table|) == i)))
            && (forall i :: 0 <= i < |r| ==> Distinct(r[i]))
    decreases |ids|
  {
    if ids != [] {
      var o, rest := ids[0], ids[1..];
      assert o !in rest && forall x :: x in ids <==> x == o || x in rest;
      var b := Bucket(h, o, hash, |table|);
      var table' := table[b := [o] + table[b]];
      assert Distinct(table'[b]);
      RehashSpec(h, hash, rest, table');
    }
  }

  lemma BucketsApart(h: Heap, strt: seq<seq<Id>>, hash: string -> nat)
    requires StrOk(h, strt, hash)
    ensures Apart(strt)
  {
    forall i, j, o | 0 <= i < j < |strt| && o in strt[i] ensures o !in strt[j] {
      assert Bucket(h, o, hash, |strt|) == i;
    }
  }

  lemma ResizeStrOk(h: Heap, strt: seq<seq<Id>>, hash: string -> nat, n: nat)
    requires StrOk(h, strt, hash) && n > 0
    ensures StrOk(h, Rehash(h, hash, Chain(strt), NewTable(n)), hash)
  {
    hide Rehash, Chain;
    BucketsApart(h, strt, hash);
    ChainSpec(strt);
    var ids := Chain(strt);
    var table := NewTable(n);
    assert forall o :: o in ids ==> IsStr(h, o);
    RehashSpec(h, hash, ids, table);
    var r := Rehash(h, hash, ids, table);
    forall o | IsStr(h, o) ensures o in r[Bucket(h, o, hash, |r|)] {
      assert o in strt[Bucket(h, o, hash, |strt|)];
    }
    forall i, o | 0 <= i < |r| && o in r[i] ensures IsStr(h, o) && Bucket(h, o, hash, |r|) == i {
      assert o in table[i] || (o in ids && Bucket(h, o, hash, |table|) == i);
    }
  }

  lemma AllStringsSwept(h: Heap, white: bool, strt: seq<seq<Id>>, strt': seq<seq<Id>>, hash: string -> nat)
    requires StrOk(h, strt, hash) && StrOk(h, strt', hash) && SweptStrings(h, white, strt, |strt|)
    ensures SweptStrings(h, white, strt', |strt'|)
  {
    forall i, o | 0 <= i < |strt'| && o in strt'[i] ensures o in h && h[o].color == White(white) {
      assert IsStr(h, o);
      assert o in strt[Bucket(h, o, hash, |strt|)];
    }
  }

  lemma ResizeKeeps(s: State, n: nat)
    requires Inv(s) && n > 0
    ensures Inv(ResizeStrings(s, n)) && ResizeStrings(s, n).heap == s.heap && ResizeStrings(s, n).white == s.white
  {
    if !s.phase.SweepString? {
      var s' := ResizeStrings(s, n);
      ResizeStrOk(s.heap, s.strt, s.hash, n);
      if s.phase.Sweep? { AllStringsSwept(s.heap, s.white, s.strt, s'.strt, s.hash); }
      assert Roots(s') == Roots(s);
    }
  }

  // ---------------------------------------------------------- single step

  lemma SweepStepKeeps(s: State)
    requires Inv(s) && s.phase.Sweep?
    ensures Inv(SweepStep(s)) && Sheds(s.heap, s.white, SweepStep(s).heap) && SweepStep(s).white == s.white
    ensures SweepStep(s).phase.Sweep? || SweepStep(s).phase.Finalize?
  {
    var s1 := SweepList(s, GCSWEEPMAX);
    SweepListKeeps(s, GCSWEEPMAX);
    if s1.sweepgc >= |s1.rootgc| {
      SweptAll(s1);
      EndSweep(s1);
    }
  }

  lemma EndSweep(s: State)
    requires Inv(s) && s.phase.Sweep? && AllWhite(s.heap, s.white)
    ensures Inv(CheckSizes(s).(phase := Finalize)) && CheckSizes(s).heap == s.heap && CheckSizes(s).white == s.white
  {
    if StrCount(s.strt) < |s.strt| / 4 && |s.strt| > MINSTRTABSIZE * 2 {
      ResizeKeeps(s, |s.strt| / 2);
    }
    assert Roots(CheckSizes(s).(phase := Finalize)) == Roots(CheckSizes(s));
  }

  lemma SweptSheds(h: Heap, white: bool, ids: seq<Id>, h': Heap)
    requires SweptFrom(h, white, ids, h') && OpenOk(h) && forall x :: x in ids ==> x in h && !h[x].body.Thread?
    ensures Sheds(h, white, h')
  {
    forall o | o in h' ensures Kids(h', o) == Kids(h, o) { SweptKids(h, white, ids, h', o); }
  }

  /** A collector step seen from the program: the roots stay, what stays keeps
      its references, and only dead objects without the fixed bit go. */
  ghost predicate Collects(s: State, s': State) {
    && Roots(s') == Roots(s)
    && (forall o :: o in s'.heap ==> o in s.heap && s'.heap[o].fixed == s.heap[o].fixed && Kids(s'.heap, o) == Kids(s.heap, o))
    && (forall o :: o in s.heap && o !in s'.heap ==> IsDead(s.heap, s.white, o) && !s.heap[o].fixed)
  }

  lemma AdvancesCollects(s: State, s': State)
    requires Advances(s.heap, s'.heap) && Roots(s') == Roots(s)
    ensures Collects(s, s')
  {
    forall o | o in s.heap ensures Kids(s'.heap, o) == Kids(s.heap, o) { AdvancesKids(s.heap, s'.heap, o); }
  }

  lemma ShedsCollects(s: State, s': State)
    requires Sheds(s.heap, s.white, s'.heap) && Roots(s') == Roots(s)
    ensures Collects(s, s')
  {
  }

  lemma SweepStepRoots(s: State)
    requires Inv(s) && s.phase.Sweep?
    ensures Roots(SweepStep(s)) == Roots(s)
  {
    SweepListRoots(s, GCSWEEPMAX);
    hide *;
    CheckSizesRoots(SweepList(s, GCSWEEPMAX));
    SweepStepForm(s);
  }

  lemma SweepStepForm(s: State)
    ensures SweepStep(s) == SweepList(s, GCSWEEPMAX) || SweepStep(s) == CheckSizes(SweepList(s, GCSWEEPMAX)).(phase := Finalize)
  {
    hide SweepList, CheckSizes;
  }

  lemma CheckSizesRoots(s: State)
    ensures Roots(CheckSizes(s)) == Roots(s) == Roots(CheckSizes(s).(phase := Finalize))
  {
  }

  lemma CloseOneRoots(s: State, t: Id)
    requires FirstOpenAbove(s.heap, t, 0)
    ensures Roots(CloseOne(s, t)) == Roots(s)
  {
    hide ReallyMark, Paint, Without, IsDead, IsWhite, FirstOpenAbove;
  }

  lemma {:induction false} CloseFromRoots(s: State, t: Id, level: nat)
    ensures Roots(CloseFrom(s, t, level)) == Roots(s)
    decreases OpenCount(s.heap, t)
  {
    if FirstOpenAbove(s.heap, t, level) {
      CloseOneShrinks(s, t);
      CloseOneRoots(s, t);
      hide CloseOne, Roots;
      CloseFromRoots(CloseOne(s, t), t, level);
    }
  }

  lemma SweepRootRoots(s: State)
    requires s.sweepgc < |s.rootgc|
    ensures Roots(SweepRoot(s)) == Roots(s)
  {
    var o := s.rootgc[s.sweepgc];
    if o in s.heap {
      var s1 := if s.heap[o].body.Thread? then SweepOpen(s, o) else s;
      assert Roots(s1) == Roots(s);
      var s2 := s1.(rootgc := s.rootgc[..s.sweepgc] + s.rootgc[s.sweepgc + 1..]);
      CloseFromRoots(s2, o, 0);
    }
  }

  lemma {:induction false} SweepListRoots(s: State, count: nat)
    ensures Roots(SweepList(s, count)) == Roots(s)
    decreases count
  {
    if count > 0 && s.sweepgc < |s.rootgc| {
      SweepRootRoots(s);
      SweepListRoots(SweepRoot(s), count - 1);
    }
  }

  /** The collector's step keeps the invariant and frees nothing but dead
      objects. */
  lemma SingleStepKeeps(s: State)
    requires Inv(s) && s.pinned == {}
    ensures Inv(SingleStep(s)) && Collects(s, SingleStep(s))
  {
    var s' := SingleStep(s);
    match s.phase
    case Pause => MarkRootStep(s);
    case Propagate => if s.gray != [] { PropagateStep(s); } else { AtomicStep(s); }
    case SweepString => SweepStringStepKeeps(s);
    case Sweep =>
      SweepStepKeeps(s);
      SweepStepRoots(s);
      hide Inv, InvBut, Roots, SweepStep;
      ShedsCollects(s, s');
    case Finalize => assert Roots(s') == Roots(s);
  }

  lemma MarkRootStep(s: State)
    requires Inv(s) && (s.phase.Pause? || s.phase.Finalize?)
    ensures Inv(MarkRoot(s)) && Collects(s, MarkRoot(s))
  {
    hide Inv, InvBut, MarkRoot, Roots, Advances, Collects, TriColor, AllWhite, IsThread;
    MarkRootReady(s);
    MarkRootKeeps(s);
    MarkRootMarks(s);
    MarkRootRoots(s);
    AdvancesCollects(s, MarkRoot(s));
  }

  lemma MarkRootRoots(s: State)
    ensures Roots(MarkRoot(s)) == Roots(s)
  {
    hide MarkAll;
  }

  lemma PropagateStep(s: State)
    requires Inv(s) && s.phase.Propagate? && s.gray != []
    ensures Inv(SingleStep(s)) && Collects(s, SingleStep(s))
  {
    PropagateKeeps(s);
    PropagateMarkSpec(Tracer(s.heap, s.gray, s.grayagain));
    assert Roots(SingleStep(s)) == Roots(s);
    assert Advances(s.heap, SingleStep(s).heap);
    hide Inv, InvBut, SingleStep;
    AdvancesCollects(s, SingleStep(s));
  }

  lemma AtomicStep(s: State)
    requires Inv(s) && s.phase.Propagate? && s.pinned == {}
    ensures Inv(Atomic(s)) && Collects(s, Atomic(s))
  {
    AtomicKeeps(s);
    AtomicMarkSpec(s);
    assert Roots(Atomic(s)) == Roots(s);
    assert Advances(s.heap, Atomic(s).heap);
    hide Inv, InvBut, Atomic;
    AdvancesCollects(s, Atomic(s));
  }

  lemma SweepStringStepKeeps(s: State)
    requires Inv(s) && s.phase.SweepString?
    ensures Inv(SweepStringStep(s)) && Collects(s, SweepStringStep(s))
    ensures Sheds(s.heap, s.white, SweepStringStep(s).heap)
  {
    SweepStringKeeps(s);
    BucketFacts(s);
    SweptSheds(s.heap, s.white, s.strt[s.sweepstr], SweepStringStep(s).heap);
    assert Roots(SweepStringStep(s)) == Roots(s);
    hide Inv, InvBut, SweepStringStep;
    ShedsCollects(s, SweepStringStep(s));
  }
}
