/** The collector as the program runs it: one global state updated in place by
    methods with the loops of the source, each proved equal to the function of
    the state machine whose properties the other Gc modules establish. */
module GcMachine {
  import opened GcHeap
  import S = GcState
  import opened GcInv
  import opened GcCollector
  import GcCycle
  import GcMutator
  import GcMeaning
  import GcFull
  import GcSafety

  lemma MarkAllStep(m: Marker, ids: seq<Id>, i: nat)
    requires i < |ids|
    ensures MarkAll(m, ids[i..]) == MarkAll(if IsWhite(m.heap, ids[i]) then ReallyMark(m, ids[i]) else m, ids[i + 1..])
  {
    hide GcHeap.ReallyMark;
    assert ids[i..][0] == ids[i] && ids[i..][1..] == ids[i + 1..];
  }

  lemma MarkAllNone(m: Marker, ids: seq<Id>)
    ensures MarkAll(m, ids[|ids|..]) == m
  {
  }

  class GlobalState {
    var heap: Heap
    var next: Id
    var white: bool
    var phase: S.Phase
    var gray: seq<Id>
    var grayagain: seq<Id>
    var rootgc: seq<Id>
    var sweepgc: nat
    var strt: seq<seq<Id>>
    var sweepstr: nat
    const hash: string -> nat
    var uvhead: seq<Id>
    var main: Id
    var registry: Id
    var mts: seq<Value>
    var running: Id
    ghost var pinned: set<Id>

    ghost function St(): S.State
      reads this
    {
      S.State(heap, next, white, phase, gray, grayagain, rootgc, sweepgc, strt, sweepstr, hash, uvhead,
              main, registry, mts, running, pinned)
    }

    /** A fresh interpreter state: a fixed main thread that holds the globals,
        and the registry. */
    constructor (hash: string -> nat)
      ensures St() == GcSafety.Initial(hash) && Inv(St())
    {
      this.hash := hash;
      heap := map[0 := Obj(Thread([1], [], []), White(false), true), 1 := Obj(Table([]), White(false), false),
                  2 := Obj(Table([]), White(false), false)];
      next, white, phase := 3, false, S.Pause;
      gray, grayagain, rootgc, sweepgc := [], [], [2, 1, 0], 0;
      strt, sweepstr := S.NewTable(S.MINSTRTABSIZE), 0;
      uvhead, main, registry, mts, running, pinned := [], 0, 2, [], 0, {};
      new;
      GcSafety.InitialInv(hash);
    }

    ghost function Mk(): Marker
      reads this
    {
      Marker(heap, gray)
    }

    // ------------------------------------------------------------ marking

    method ReallyMark(o: Id)
      requires IsWhite(heap, o)
      modifies this`heap, this`gray
      ensures Mk() == GcHeap.ReallyMark(old(Mk()), o)
      decreases Whites(heap), 1, 0
    {
      ghost var m := Mk();
      var b := heap[o].body;
      heap := Paint(heap, o, Gray);
      assert Whites(heap) == Whites(m.heap) - {o};
      match b {
        case Str(_) =>
        case Udata(refs) =>
          heap := Paint(heap, o, Black);
          assert heap == Paint(m.heap, o, Black);
          assert Whites(heap) == Whites(m.heap) - {o};
          MarkRefs(refs);
        case Closed(v) =>
          MarkRefs(Ids([v]));
          heap := Paint(heap, o, Black);
        case Open(_, _) =>
          assert Kids(heap, o) == Kids(m.heap, o) by { KidsPaint(m.heap, o, Gray, o); }
          MarkRefs(Kids(heap, o));
        case _ =>
          gray := [o] + gray;
      }
    }

    /** The marking loop of the traverse functions. */
    method MarkRefs(ids: seq<Id>)
      modifies this`heap, this`gray
      ensures Mk() == MarkAll(old(Mk()), ids)
      decreases Whites(heap), 2, |ids|
    {
      hide MarkAll, GcHeap.ReallyMark;
      ghost var whites := Whites(heap);
      ghost var goal := MarkAll(Mk(), ids);
      var i := 0;
      while i < |ids|
        invariant i <= |ids|
        invariant MarkAll(Mk(), ids[i..]) == goal
        invariant Whites(heap) <= whites
      {
        ghost var h := heap;
        MarkAllStep(Mk(), ids, i);
        if IsWhite(heap, ids[i]) {
          ReallyMark(ids[i]);
          assert Marks(h, heap);
        }
        i := i + 1;
      }
      MarkAllNone(Mk(), ids);
    }

    ghost function Tr(): S.Tracer
      reads this
    {
      S.Tracer(heap, gray, grayagain)
    }

    method PropagateMark()
      requires gray != [] && gray[0] in heap
      modifies this`heap, this`gray, this`grayagain
      ensures Tr() == S.PropagateMark(old(Tr()))
    {
      var o := gray[0];
      gray := gray[1..];
      var kids := Kids(heap, o);
      if heap[o].body.Thread? {
        grayagain := [o] + grayagain;
      } else {
        heap := Paint(heap, o, Black);
      }
      MarkRefs(kids);
    }

    method PropagateAll()
      requires GrayOk(heap, gray) && KindsOk(heap)
      modifies this`heap, this`gray, this`grayagain
      ensures Tr() == S.PropagateAll(old(Tr())) && gray == []
    {
      ghost var goal := S.PropagateAll(Tr());
      while gray != []
        invariant GrayOk(heap, gray) && KindsOk(heap)
        invariant S.PropagateAll(Tr()) == goal
        decreases Whites(heap), |gray|
      {
        S.PropagateMarkShrinks(Tr());
        PropagateMarkSpec(Tr());
        PropagateMark();
      }
    }

    method RemarkUpvals()
      modifies this`heap, this`gray
      ensures Mk() == S.RemarkUpvals(old(Mk()), uvhead)
    {
      ghost var goal := S.RemarkUpvals(Mk(), uvhead);
      var i := 0;
      while i < |uvhead|
        invariant i <= |uvhead|
        invariant S.RemarkUpvals(Mk(), uvhead[i..]) == goal
      {
        var u := uvhead[i];
        assert uvhead[i..][0] == u && uvhead[i..][1..] == uvhead[i + 1..];
        if u in heap && heap[u].color.Gray? {
          MarkRefs(Kids(heap, u));
        }
        i := i + 1;
      }
    }

    method MarkRoot()
      requires IsThread(heap, main)
      modifies this`heap, this`gray, this`grayagain, this`phase
      ensures St() == S.MarkRoot(old(St()))
    {
      hide MarkAll, Ids, Kids, S.MarkRoot;
      MarkRootIs(St());
      gray, grayagain := [], [];
      var globals := heap[main].body.refs;
      MarkRefs([main]);
      MarkRefs(globals + [registry] + Ids(mts));
      phase := S.Propagate;
    }

    /** The marking of the uninterruptible step. */
    method AtomicMark()
      requires TriColor(Tr()) && UvOk(heap, uvhead)
      modifies this`heap, this`gray, this`grayagain
      ensures Tr() == S.AtomicMark(old(St()))
    {
      hide MarkAll, S.PropagateAll, S.RemarkUpvals, Covered, Advances, TriColor, GrayOk, KindsOk, UvOk;
      ghost var extra := set x | x in grayagain;
      RemarkCovers(Tr(), uvhead);
      RemarkUpvals();
      PropagateAllBoth(Tr(), extra);
      TriLists(Tr());
      PropagateAll();
      MarkAllBoth(Tr(), [running] + Ids(mts), extra);
      MarkRefs([running] + Ids(mts));
      PropagateAllBoth(Tr(), extra);
      TriLists(Tr());
      PropagateAll();
      TriLists(Tr());
      gray, grayagain := grayagain, [];
      PropagateAll();
    }

    /** The uninterruptible end of the mark phase: mark, then flip the white. */
    method Atomic()
      requires TriColor(Tr()) && UvOk(heap, uvhead)
      modifies this`heap, this`gray, this`grayagain, this`white, this`sweepstr, this`sweepgc, this`phase
      ensures St() == S.Atomic(old(St()))
    {
      hide S.AtomicMark, TriColor, UvOk;
      AtomicMark();
      white := !white;
      sweepstr, sweepgc, phase := 0, 0, S.SweepString;
    }

    // ----------------------------------------------------------- sweeping

    /** sweeplist over a bucket or the open upvalues of a thread. */
    method SweepLeaves(ids: seq<Id>) returns (list: seq<Id>)
      modifies this`heap
      ensures S.Swept(heap, list) == S.SweepLeaves(old(heap), white, ids)
    {
      ghost var goal := S.SweepLeaves(heap, white, ids);
      list := [];
      var i := 0;
      while i < |ids|
        invariant i <= |ids|
        invariant var r := S.SweepLeaves(heap, white, ids[i..]); S.Swept(r.heap, list + r.list) == goal
      {
        assert ids[i..][0] == ids[i] && ids[i..][1..] == ids[i + 1..];
        ghost var rest := S.SweepLeaves(heap, white, ids[i..]);
        if S.Kept(heap, white, ids[i]) {
          heap := Paint(heap, ids[i], White(white));
          ghost var r := S.SweepLeaves(heap, white, ids[i + 1..]);
          assert list + ([ids[i]] + r.list) == (list + [ids[i]]) + r.list;
          list := list + [ids[i]];
        } else {
          heap := heap - {ids[i]};
        }
        i := i + 1;
      }
      assert ids[i..] == [];
    }

    method BarrierF(o: Id, v: Id)
      requires o in heap && IsWhite(heap, v)
      modifies this`heap, this`gray
      ensures St() == S.BarrierF(old(St()), o, v)
    {
      hide GcHeap.ReallyMark;
      if phase.Propagate? {
        ReallyMark(v);
      } else {
        heap := Paint(heap, o, White(white));
      }
    }

    /** luaC_barrierback, where luaC_barriert calls it: a black table got a white value. */
    method BarrierBack(o: Id, ghost v: Value)
      requires o in heap && heap[o].color.Black? && v.Ref? && IsWhite(heap, v.id)
      modifies this`heap, this`grayagain
      ensures St() == S.BarrierT(old(St()), o, v)
    {
      heap := Paint(heap, o, Gray);
      grayagain := [o] + grayagain;
    }

    /** A store into an object and its barrier: afterwards the collector's invariant
        holds again. */
    method Store(o: Id, refs: seq<Id>, v: Value)
      requires Inv(St()) && Enabled(St(), S.Store(o, refs, v))
      modifies this`heap, this`gray, this`grayagain
      ensures St() == S.DoStore(old(St()), o, refs, v) && Inv(St())
      ensures forall k :: Refers(heap, o, k) <==> k in refs
      ensures forall x, k :: x in old(heap) && x != o ==> x in heap && (Refers(heap, x, k) <==> Refers(old(heap), x, k))
    {
      hide Inv, GcHeap.ReallyMark, Reach, Refers;
      GcMutator.StoreKeeps(St(), o, refs, v);
      GcMeaning.StoreMeans(St(), o, refs, v);
      var b := heap[o].body;
      var stored := match b
        case Udata(_) => Udata(refs)
        case Func(_) => Func(refs)
        case Table(_) => Table(refs)
        case _ => Proto(refs);
      heap := heap[o := heap[o].(body := stored)];
      if v.Ref? && IsWhite(heap, v.id) && heap[o].color.Black? {
        if b.Table? {
          BarrierBack(o, v);
        } else {
          BarrierF(o, v.id);
        }
      }
    }

    method LinkUpval(u: Id)
      requires u in heap && heap[u].body.Closed?
      modifies this`heap, this`gray, this`rootgc, this`sweepgc
      ensures St() == S.LinkUpval(old(St()), u)
    {
      hide GcHeap.ReallyMark;
      rootgc := [u] + rootgc;
      sweepgc := if sweepgc == 0 then 0 else sweepgc + 1;
      if heap[u].color.Gray? {
        if phase.Propagate? {
          var v := heap[u].body.value;
          heap := Paint(heap, u, Black);
          if v.Ref? && IsWhite(heap, v.id) {
            BarrierF(u, v.id);
          }
        } else {
          heap := Paint(heap, u, White(white));
        }
      }
    }

    /** luaF_close */
    method Close(t: Id, level: nat)
      modifies this`heap, this`gray, this`rootgc, this`sweepgc, this`uvhead
      ensures St() == S.CloseFrom(old(St()), t, level)
    {
      hide S.LinkUpval, S.Without;
      ghost var goal := S.CloseFrom(St(), t, level);
      while S.FirstOpenAbove(heap, t, level)
        invariant S.CloseFrom(St(), t, level) == goal
        decreases S.OpenCount(heap, t)
      {
        S.CloseOneShrinks(St(), t);
        ghost var s := St();
        var b := heap[t].body;
        var u := b.open[0];
        heap := heap[t := heap[t].(body := b.(open := b.open[1..]))];
        uvhead := S.Without(uvhead, u);
        if IsDead(heap, white, u) {
          heap := heap - {u};
        } else {
          heap := heap[u := heap[u].(body := Closed(b.stack[heap[u].body.slot]))];
          LinkUpval(u);
        }
        assert St() == S.CloseOne(s, t);
      }
    }

    /** The open upvalues of a thread, swept before the thread itself. */
    method SweepOpen(o: Id)
      requires o in heap && heap[o].body.Thread?
      modifies this`heap, this`uvhead
      ensures St() == S.SweepOpen(old(St()), o) && o in heap && heap[o].body.Thread?
    {
      hide S.SweepLeaves, S.FilterIn;
      var b := heap[o].body;
      var before := heap;
      var list := SweepLeaves(b.open);
      if o !in heap {
        heap := before;
      } else {
        uvhead := S.FilterIn(uvhead, heap);
        heap := heap[o := heap[o].(body := b.(open := list))];
      }
    }

    /** One turn of sweeplist on rootgc. */
    method SweepRoot()
      requires sweepgc < |rootgc|
      modifies this`heap, this`gray, this`rootgc, this`sweepgc, this`uvhead
      ensures St() == S.SweepRoot(old(St()))
    {
      hide S.FreeRoot, S.SweepOpen, S.Kept, Paint;
      var o := rootgc[sweepgc];
      if o !in heap {
        sweepgc := sweepgc + 1;
        return;
      }
      if heap[o].body.Thread? { SweepOpen(o); }
      if S.Kept(heap, white, o) {
        assert o in heap by { KeptIn(heap, white, o); }
        heap := Paint(heap, o, White(white));
        sweepgc := sweepgc + 1;
      } else {
        rootgc := rootgc[..sweepgc] + rootgc[sweepgc + 1..];
        FreeObj(o);
      }
    }

    /** freeobj of an object that has left the list: a thread closes its upvalues. */
    method FreeObj(o: Id)
      requires o in heap
      modifies this`heap, this`gray, this`rootgc, this`sweepgc, this`uvhead
      ensures St() == S.FreeRoot(old(St()), o)
    {
      hide S.CloseFrom;
      if heap[o].body.Thread? {
        Close(o, 0);
      }
      heap := heap - {o};
    }

    method SweepList(count: nat)
      modifies this`heap, this`gray, this`rootgc, this`sweepgc, this`uvhead
      ensures St() == S.SweepList(old(St()), count)
    {
      hide S.SweepRoot;
      ghost var goal := S.SweepList(St(), count);
      var left := count;
      while left > 0 && sweepgc < |rootgc|
        invariant S.SweepList(St(), left) == goal
        decreases left
      {
        SweepRoot();
        left := left - 1;
      }
    }

    // ------------------------------------------------------- string table

    /** luaS_resize: two nested loops over the old chains. */
    method ResizeStrings(n: nat)
      requires n > 0
      modifies this`strt
      ensures St() == S.ResizeStrings(old(St()), n)
    {
      if phase.SweepString? { return; }
      ghost var goal := S.Rehash(heap, hash, S.Chain(strt), S.NewTable(n));
      var table := S.NewTable(n);
      var i := 0;
      while i < |strt|
        invariant i <= |strt| && |table| == n
        invariant S.Rehash(heap, hash, S.Chain(strt[i..]), table) == goal
      {
        assert strt[i..][0] == strt[i] && strt[i..][1..] == strt[i + 1..];
        ghost var later := S.Chain(strt[i + 1..]);
        var j := 0;
        while j < |strt[i]|
          invariant j <= |strt[i]| && |table| == n
          invariant S.Rehash(heap, hash, strt[i][j..] + later, table) == goal
        {
          var p := strt[i][j];
          assert (strt[i][j..] + later)[0] == p && (strt[i][j..] + later)[1..] == strt[i][j + 1..] + later;
          if IsStr(heap, p) {
            var b := hash(heap[p].body.content) % n;
            table := table[b := [p] + table[b]];
          }
          j := j + 1;
        }
        assert strt[i][j..] + later == later;
        i := i + 1;
      }
      assert strt[i..] == [];
      strt := table;
    }

    method CheckSizes()
      modifies this`strt
      ensures St() == S.CheckSizes(old(St()))
    {
      if S.StrCount(strt) < |strt| / 4 && |strt| > S.MINSTRTABSIZE * 2 {
        ResizeStrings(|strt| / 2);
      }
    }

    /** The search along a chain of the string table. */
    method FindString(b: nat, content: string) returns (i: nat)
      requires b < |strt|
      ensures i == S.FindStr(heap, strt[b], content)
    {
      ghost var goal := S.FindStr(heap, strt[b], content);
      i := 0;
      while i < |strt[b]| && !(strt[b][i] in heap && heap[strt[b][i]].body == Str(content))
        invariant i <= |strt[b]| && i + S.FindStr(heap, strt[b][i..], content) == goal
      {
        assert strt[b][i..][0] == strt[b][i] && strt[b][i..][1..] == strt[b][i + 1..];
        i := i + 1;
      }
      assert i < |strt[b]| ==> strt[b][i..][0] == strt[b][i];
    }

    /** luaS_newlstr: walk the chain of the hash; share, revive or create. */
    method NewString(content: string) returns (o: Id)
      requires |strt| > 0
      modifies this`heap, this`next, this`strt, this`pinned
      ensures St() == S.DoIntern(old(St()), content)
      ensures o in heap && heap[o].body == Str(content)
    {
      hide S.ResizeStrings, S.StrCount;
      ghost var s := St();
      var b := hash(content) % |strt|;
      var i := FindString(b, content);
      if i < |strt[b]| {
        o := strt[b][i];
        if IsDead(heap, white, o) { heap := Paint(heap, o, White(white)); }
        pinned := pinned + {o};
      } else {
        o := next;
        heap := heap[o := Obj(Str(content), White(white), false)];
        next := next + 1;
        strt := strt[b := [o] + strt[b]];
        pinned := pinned + {o};
        if S.StrCount(strt) > |strt| && |strt| <= S.MAX_INT / 2 {
          ResizeStrings(|strt| * 2);
          ResizeHeap(s.(heap := heap, next := next, strt := old(strt)[b := [o] + old(strt)[b]], pinned := pinned), |old(strt)| * 2);
        }
      }
    }

    /** The walk of luaF_findupval down to the slot. */
    method SeekUpval(open: seq<Id>, slot: nat) returns (i: nat)
      requires forall u :: u in open ==> u in heap && heap[u].body.Open?
      ensures i == S.UpvalPos(heap, open, slot)
    {
      ghost var goal := S.UpvalPos(heap, open, slot);
      i := 0;
      while i < |open| && SlotOf(heap, open[i]) > slot
        invariant i <= |open| && i + S.UpvalPos(heap, open[i..], slot) == goal
      {
        assert open[i..][0] == open[i] && open[i..][1..] == open[i + 1..];
        i := i + 1;
      }
      assert i < |open| ==> open[i..][0] == open[i] && open[i] in open;
    }

    /** A lookup found o: revive it if dead. */
    method Share(o: Id)
      requires o in heap
      modifies this`heap, this`pinned
      ensures St() == Shared(old(St()), o)
    {
      if IsDead(heap, white, o) { heap := Paint(heap, o, White(white)); }
      pinned := pinned + {o};
    }

    method InsertUpval(t: Id, slot: nat, i: nat) returns (u: Id)
      requires IsThread(heap, t) && i <= |heap[t].body.open|
      modifies this`heap, this`next, this`uvhead, this`pinned
      ensures St() == GcMutator.NewUpval(old(St()), t, slot, i)
      ensures u in heap && heap[u].body == Open(t, slot)
    {
      u := next;
      var b := heap[t].body;
      var h := heap[t := heap[t].(body := b.(open := b.open[..i] + [u] + b.open[i..]))];
      heap, next, uvhead, pinned := h[u := Obj(Open(t, slot), White(white), false)], next + 1, [u] + uvhead, pinned + {u};
    }

    /** luaF_findupval: share, revive or insert. */
    method FindUpval(t: Id, slot: nat) returns (u: Id)
      requires IsThread(heap, t) && OpenOk(heap)
      modifies this`heap, this`next, this`uvhead, this`pinned
      ensures St() == S.DoFindUpval(old(St()), t, slot)
      ensures u in heap && heap[u].body == Open(t, slot)
    {
      hide OpenOk, OpenList, S.DoFindUpval, GcMutator.NewUpval, S.UpvalPos;
      var open := heap[t].body.open;
      OpenListOf(heap, t);
      FindCases(St(), t, slot);
      var i := SeekUpval(open, slot);
      if i < |open| && heap[open[i]].body.slot == slot {
        u := open[i];
        Share(u);
      } else {
        u := InsertUpval(t, slot, i);
      }
    }

    // --------------------------------------------------------------- steps

    /** singlestep; every internal assertion of the source holds because the
        invariant does. */
    method SingleStep()
      requires Inv(St()) && pinned == {}
      modifies this
      ensures St() == S.SingleStep(old(St())) && Inv(St()) && GcCycle.Collects(old(St()), St())
    {
      hide S.Atomic, S.PropagateMark, S.SweepList, S.CheckSizes, S.SweepLeaves, MarkAll, Inv, InvBut, GcCycle.Collects, TriColor, UvOk;
      GcCycle.SingleStepKeeps(St());
      StepReady(St());
      match phase {
        case Pause => MarkRoot();
        case Propagate =>
          if gray != [] { PropagateMark(); } else { Atomic(); }
        case SweepString =>
          if sweepstr >= |strt| {
            phase := S.Sweep;
          } else {
            var list := SweepLeaves(strt[sweepstr]);
            strt := strt[sweepstr := list];
            sweepstr := sweepstr + 1;
            if sweepstr >= |strt| { phase := S.Sweep; }
          }
        case Sweep =>
          SweepList(S.GCSWEEPMAX);
          if sweepgc >= |rootgc| {
            CheckSizes();
            phase := S.Finalize;
          }
        case Finalize => phase := S.Pause;
      }
    }

    /** The loop of luaC_fullgc that finishes a pending sweep. */
    method FinishSweep()
      requires Inv(St()) && pinned == {} && GcFull.Sweeping(phase)
      modifies this
      ensures St() == GcFull.FinishSweep(old(St()))
    {
      hide Inv, S.SingleStep, Reach;
      ghost var goal := GcFull.FinishSweep(St());
      while !phase.Finalize?
        invariant Inv(St()) && pinned == {} && GcFull.Sweeping(phase)
        invariant GcFull.FinishSweep(St()) == goal
        decreases GcFull.Rank(phase), if phase.SweepString? then |strt| - sweepstr else 0, heap.Keys,
                  if phase.Sweep? then |rootgc| - sweepgc else 0
      {
        GcFull.StepPreserves(St());
        GcFull.SweepAdvances(St());
        GcFull.SweepBounds(St());
        SingleStep();
        GcFull.SweepBounds(St());
      }
    }

    method FinishMark()
      requires Inv(St()) && pinned == {} && phase.Propagate?
      modifies this
      ensures St() == GcFull.FinishMark(old(St()))
    {
      hide Inv, Reach, S.PropagateMark, S.Atomic;
      ghost var goal := GcFull.FinishMark(St());
      while gray != []
        invariant Inv(St()) && pinned == {} && phase.Propagate?
        invariant GcFull.FinishMark(St()) == goal
        decreases Whites(heap), |gray|
      {
        GcFull.StepPreserves(St());
        S.PropagateMarkShrinks(Tr());
        SingleStep();
      }
      SingleStep();
    }

    /** A cycle that was only marking is given up: everything is swept first. */
    method ResetSweep()
      modifies this`sweepstr, this`sweepgc, this`gray, this`grayagain, this`phase
      ensures St() == if old(phase.Pause? || phase.Propagate?) then GcFull.ResetSweep(old(St())) else old(St())
    {
      if phase.Pause? || phase.Propagate? {
        sweepstr, sweepgc, gray, grayagain := 0, 0, [], [];
        phase := S.SweepString;
      }
    }

    /** A whole cycle from its start. */
    method MarkAndSweep()
      requires IsThread(heap, main)
      requires var s := S.MarkRoot(St());
               && Inv(s) && s.pinned == {} && s.phase.Propagate?
               && var s' := GcFull.FinishMark(s); Inv(s') && s'.pinned == {} && GcFull.Sweeping(s'.phase)
      modifies this
      ensures St() == GcFull.FinishSweep(GcFull.FinishMark(S.MarkRoot(old(St()))))
    {
      hide Inv, InvBut, S.MarkRoot, GcFull.FinishSweep, GcFull.FinishMark, Kids, Ids;
      MarkRoot();
      FinishMark();
      FinishSweep();
    }

    /** luaC_fullgc keeps exactly what is reachable or fixed. */
    method FullGc()
      requires Inv(St()) && pinned == {}
      modifies this
      ensures Inv(St()) && phase.Pause?
      ensures forall o :: o in heap <==> o in old(heap) && (old(Reach(St(), o)) || old(heap)[o].fixed)
    {
      hide Inv, InvBut, Reach, S.MarkRoot, GcFull.FinishSweep, GcFull.FinishMark, GcFull.ResetSweep, Kids, Ids;
      ghost var s := St();
      GcFull.FullGcSteps(s);
      GcFull.FullGcExact(s);
      ResetSweep();
      FinishSweep();
      AnchoredMain(St());
      MarkAndSweep();
      phase := S.Pause;
      assert St() == GcFull.FullGc(s);
    }
  }

  function Shared(s: S.State, o: Id): S.State
    requires o in s.heap
  {
    var h := if IsDead(s.heap, s.white, o) then Paint(s.heap, o, White(s.white)) else s.heap;
    s.(heap := h, pinned := s.pinned + {o})
  }

  lemma MarkRootIs(s: S.State)
    requires IsThread(s.heap, s.main)
    ensures var r := MarkAll(MarkAll(Marker(s.heap, []), [s.main]), s.heap[s.main].body.refs + [s.registry] + Ids(s.mts));
            S.MarkRoot(s) == s.(heap := r.heap, gray := r.gray, grayagain := [], phase := S.Propagate)
  {
    hide MarkAll, Ids;
  }

  lemma FindCases(s: S.State, t: Id, slot: nat)
    requires IsThread(s.heap, t)
    requires forall u :: u in s.heap[t].body.open ==> u in s.heap && s.heap[u].body.Open? && s.heap[u].body.thread == t
    ensures var open := s.heap[t].body.open;
            var i := S.UpvalPos(s.heap, open, slot);
            && i <= |open|
            && (i < |open| ==> open[i] in s.heap && s.heap[open[i]].body.Open? && s.heap[open[i]].body.thread == t)
            && S.DoFindUpval(s, t, slot) ==
               if i < |open| && s.heap[open[i]].body.slot == slot then Shared(s, open[i]) else GcMutator.NewUpval(s, t, slot, i)
  {
    var open := s.heap[t].body.open;
    var i := S.UpvalPos(s.heap, open, slot);
    assert i < |open| ==> open[i] in open;
  }

  lemma OpenListOf(h: Heap, t: Id)
    requires OpenOk(h) && IsThread(h, t)
    ensures forall u :: u in h[t].body.open ==> u in h && h[u].body.Open? && h[u].body.thread == t
  {
    assert OpenList(h, t, h[t].body.open);
  }

  lemma ResizeHeap(s: S.State, n: nat)
    requires n > 0
    ensures S.ResizeStrings(s, n).heap == s.heap
  {
  }

  lemma AnchoredMain(s: S.State)
    requires Inv(s)
    ensures IsThread(s.heap, s.main)
  {
  }

  /** What the parts of a single step rely on. */
  lemma StepReady(s: S.State)
    requires Inv(s)
    ensures IsThread(s.heap, s.main)
    ensures s.phase.Propagate? && s.gray != [] ==> s.gray[0] in s.heap
    ensures s.phase.Propagate? ==> TriColor(S.Tracer(s.heap, s.gray, s.grayagain)) && UvOk(s.heap, s.uvhead)
  {
  }

  lemma KeptIn(h: Heap, white: bool, o: Id)
    requires S.Kept(h, white, o)
    ensures o in h
  {
  }

  lemma TriLists(t: S.Tracer)
    requires TriColor(t)
    ensures GrayOk(t.heap, t.gray) && GrayOk(t.heap, t.again) && KindsOk(t.heap)
  {
  }
}
