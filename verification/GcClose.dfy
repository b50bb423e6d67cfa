/** Closing upvalues keeps the invariant in every phase. */
module GcClose {
  import opened GcHeap
  import opened GcState
  import opened GcInv
  import opened GcCollector

  // ------------------------------------------------------------ one upvalue

  /** The heap after u left the list of its thread t with its own copy of the
      value, painted c. */
  function Detached(h: Heap, t: Id, u: Id, c: Color): Heap
    requires t in h && h[t].body.Thread? && h[t].body.open != []
    requires u in h && h[u].body.Open? && h[u].body.slot < |h[t].body.stack|
  {
    var b := h[t].body;
    var h1 := h[t := h[t].(body := b.(open := b.open[1..]))];
    h1[u := h1[u].(body := Closed(b.stack[h[u].body.slot]), color := c)]
  }

  ghost predicate FirstOpen(h: Heap, t: Id, u: Id) {
    OpenOk(h) && IsThread(h, t) && h[t].body.open != [] && u == h[t].body.open[0]
  }

  lemma FirstOpenFacts(h: Heap, t: Id, u: Id)
    requires FirstOpen(h, t, u)
    ensures u in h && h[u].body.Open? && h[u].body.thread == t && h[u].body.slot < |h[t].body.stack| && u != t
    ensures u !in h[t].body.open[1..]
    ensures forall x :: x in h[t].body.open ==> x == u || x in h[t].body.open[1..]
    ensures forall t' :: IsThread(h, t') && t' != t ==> u !in h[t'].body.open
  {
    var open := h[t].body.open;
    assert OpenList(h, t, open) && u in open;
    assert OpenAt(h, u);
    forall i | 1 <= i < |open| ensures open[i] != u {
      assert SlotOf(h, open[0]) > SlotOf(h, open[i]);
    }
    forall t' | IsThread(h, t') && t' != t ensures u !in h[t'].body.open {
      assert OpenList(h, t', h[t'].body.open);
    }
  }

  lemma DetachedKids(h: Heap, t: Id, u: Id, c: Color, o: Id)
    requires FirstOpen(h, t, u) && o in h
    ensures u in h && h[u].body.Open? && h[u].body.slot < |h[t].body.stack|
    ensures Kids(Detached(h, t, u, c), o) == Kids(h, o)
  {
    FirstOpenFacts(h, t, u);
  }

  lemma DetachedOpen(h: Heap, t: Id, u: Id, c: Color)
    requires FirstOpen(h, t, u)
    ensures u in h && h[u].body.Open? && h[u].body.slot < |h[t].body.stack|
    ensures OpenOk(Detached(h, t, u, c))
  {
    FirstOpenFacts(h, t, u);
    DropFirstOpen(h, t, u, Detached(h, t, u, c));
  }

  /** Taking the first open upvalue away, whatever becomes of it. */
  lemma DropFirstOpen(h: Heap, t: Id, u: Id, h': Heap)
    requires FirstOpen(h, t, u) && IsThread(h', t)
    requires h'[t].body == h[t].body.(open := h[t].body.open[1..])
    requires forall o :: o in h' ==> o in h && (o != t && o != u ==> h'[o].body == h[o].body)
    requires forall o :: o in h && o != u ==> o in h'
    requires u in h' ==> !h'[u].body.Open? && !h'[u].body.Thread?
    ensures OpenOk(h')
  {
    FirstOpenFacts(h, t, u);
    forall x | x in h' && h'[x].body.Open? ensures OpenAt(h', x) {
      assert OpenAt(h, x);
    }
    forall y | IsThread(h', y) ensures OpenList(h', y, h'[y].body.open) {
      assert IsThread(h, y) && OpenList(h, y, h[y].body.open);
      if y == t { OpenListTail(h, y); }
      OpenListSame(h, h', y, h'[y].body.open);
    }
  }

  lemma OpenListTail(h: Heap, t: Id)
    requires IsThread(h, t) && OpenList(h, t, h[t].body.open) && h[t].body.open != []
    ensures OpenList(h, t, h[t].body.open[1..])
  {
    var open := h[t].body.open;
    forall i, j | 0 <= i < j < |open[1..]| ensures SlotOf(h, open[1..][i]) > SlotOf(h, open[1..][j]) {
      assert SlotOf(h, open[i + 1]) > SlotOf(h, open[j + 1]);
    }
  }

  lemma DetachedLive(h: Heap, white: bool, roots: set<Id>, t: Id, u: Id, c: Color)
    requires FirstOpen(h, t, u) && ClosedLive(h, white) && RootsLive(h, white, roots)
    requires NonDead(h, white, u) && c != White(!white)
    ensures u in h && h[u].body.Open? && h[u].body.slot < |h[t].body.stack|
    ensures ClosedLive(Detached(h, t, u, c), white) && RootsLive(Detached(h, t, u, c), white, roots)
  {
    FirstOpenFacts(h, t, u);
    var h' := Detached(h, t, u, c);
    assert forall o :: NonDead(h', white, o) <==> NonDead(h, white, o);
    forall o, k | NonDead(h', white, o) && k in Kids(h', o) ensures NonDead(h', white, k) {
      DetachedKids(h, t, u, c, o);
      assert NonDead(h, white, o);
    }
  }

  lemma SameStrings(h: Heap, h': Heap, strt: seq<seq<Id>>, hash: string -> nat)
    requires StrOk(h, strt, hash)
    requires forall o :: IsStr(h', o) <==> IsStr(h, o)
    requires forall o :: IsStr(h, o) && o in h' ==> h'[o].body == h[o].body
    ensures StrOk(h', strt, hash)
  {
    forall i, o | 0 <= i < |strt| && o in strt[i] ensures IsStr(h', o) && Bucket(h', o, hash, |strt|) == i {
      assert IsStr(h, o) && Bucket(h, o, hash, |strt|) == i;
    }
    forall o | IsStr(h', o) ensures o in strt[Bucket(h', o, hash, |strt|)] {
      assert IsStr(h, o) && o in strt[Bucket(h, o, hash, |strt|)];
    }
  }

  lemma DetachedShape(s: State, t: Id, u: Id, c: Color, lost: set<Id>)
    requires Shape(s, lost) && FirstOpen(s.heap, t, u) && u !in lost
    ensures u in s.heap && s.heap[u].body.Open? && s.heap[u].body.slot < |s.heap[t].body.stack|
    ensures var s' := LinkHead(s.(heap := Detached(s.heap, t, u, c), uvhead := Without(s.uvhead, u)), u);
            Shape(s', lost) && Roots(s') == Roots(s)
  {
    hide OpenOk, UvOk, RootgcOk, StrOk, Anchors;
    FirstOpenFacts(s.heap, t, u);
    hide Detached;
    DetachedOpen(s.heap, t, u, c);
    DetachedStr(s.heap, s.strt, s.hash, t, u, c);
    DetachedUv(s.heap, s.uvhead, t, u, c);
    DetachedRootgc(s.heap, s.rootgc, t, u, c, lost);
    DetachedAnchors(s, t, u, c);
  }

  lemma DetachedStr(h: Heap, strt: seq<seq<Id>>, hash: string -> nat, t: Id, u: Id, c: Color)
    requires StrOk(h, strt, hash) && FirstOpen(h, t, u)
    ensures u in h && h[u].body.Open? && h[u].body.slot < |h[t].body.stack|
    ensures StrOk(Detached(h, t, u, c), strt, hash)
  {
    FirstOpenFacts(h, t, u);
    SameStrings(h, Detached(h, t, u, c), strt, hash);
  }

  lemma DetachedUv(h: Heap, uvhead: seq<Id>, t: Id, u: Id, c: Color)
    requires UvOk(h, uvhead) && FirstOpen(h, t, u)
    ensures u in h && h[u].body.Open? && h[u].body.slot < |h[t].body.stack|
    ensures UvOk(Detached(h, t, u, c), Without(uvhead, u))
  {
    FirstOpenFacts(h, t, u);
  }

  lemma DetachedAnchors(s: State, t: Id, u: Id, c: Color)
    requires Anchors(s.heap, s.main, s.registry, s.running, s.next) && FirstOpen(s.heap, t, u)
    ensures u in s.heap && s.heap[u].body.Open? && s.heap[u].body.slot < |s.heap[t].body.stack|
    ensures Anchors(Detached(s.heap, t, u, c), s.main, s.registry, s.running, s.next)
  {
    FirstOpenFacts(s.heap, t, u);
  }

  lemma DetachedRootgc(h: Heap, rootgc: seq<Id>, t: Id, u: Id, c: Color, lost: set<Id>)
    requires RootgcOk(h, rootgc, lost) && FirstOpen(h, t, u) && u !in lost
    ensures u in h && h[u].body.Open? && h[u].body.slot < |h[t].body.stack|
    ensures RootgcOk(Detached(h, t, u, c), [u] + rootgc, lost)
  {
    FirstOpenFacts(h, t, u);
    assert u !in rootgc;
    assert forall x :: x in [u] + rootgc <==> x == u || x in rootgc;
  }

  lemma DetachedKinds(h: Heap, t: Id, u: Id, c: Color)
    requires FirstOpen(h, t, u) && KindsOk(h)
    ensures u in h && h[u].body.Open? && h[u].body.slot < |h[t].body.stack|
    ensures KindsOk(Detached(h, t, u, c))
  {
    FirstOpenFacts(h, t, u);
  }

  /** Mark phase: the closed upvalue is white still, or black and settled once
      its value is marked. */
  lemma DetachedTriColor(t0: Tracer, t: Id, u: Id, c: Color)
    requires TriColor(t0) && FirstOpen(t0.heap, t, u)
    requires u in t0.heap && (c == t0.heap[u].color || (t0.heap[u].color.Gray? && c.Black?))
    requires c.Gray? ==> false
    ensures u in t0.heap && t0.heap[u].body.Open? && t0.heap[u].body.slot < |t0.heap[t].body.stack|
    ensures var h := Detached(t0.heap, t, u, c);
            && GrayOk(h, t0.gray) && GrayOk(h, t0.again) && KindsOk(h)
            && ListedOrSettled(h, t0.gray, t0.again + [u])
            && (Marked(h, u) ==> c.Black?)
  {
    FirstOpenFacts(t0.heap, t, u);
    DetachedKinds(t0.heap, t, u, c);
    var h := Detached(t0.heap, t, u, c);
    forall o | Marked(h, o) && o !in t0.gray && o !in t0.again && o != u && !h[o].body.Str? && !h[o].body.Open?
      ensures h[o].color.Black? && Traced(h, o)
    {
      assert Marked(t0.heap, o) && Traced(t0.heap, o);
      DetachedKids(t0.heap, t, u, c, o);
      assert forall k :: Marked(t0.heap, k) ==> Marked(h, k);
    }
  }

  // ------------------------------------------------------------- luaF_close

  /** The upvalue is dead: it is freed, and nothing that lives refers to it. */
  lemma CloseDeadKeeps(s: State, t: Id, lost: set<Id>)
    requires InvBut(s, lost) && FirstOpenAbove(s.heap, t, 0)
    requires IsDead(s.heap, s.white, s.heap[t].body.open[0])
    ensures InvBut(CloseOne(s, t), lost)
  {
    CloseDeadShape(s, t, lost);
    CloseDeadLive(s, t);
    CloseDeadPhase(s, t);
  }

  lemma CloseDeadShape(s: State, t: Id, lost: set<Id>)
    requires Shape(s, lost) && FirstOpenAbove(s.heap, t, 0)
    requires IsDead(s.heap, s.white, s.heap[t].body.open[0])
    ensures Shape(CloseOne(s, t), lost) && Roots(CloseOne(s, t)) == Roots(s)
  {
    hide StrOk, RootgcOk, Anchors, ReallyMark;
    var u := s.heap[t].body.open[0];
    FirstOpenFacts(s.heap, t, u);
    DropFirstOpen(s.heap, t, u, CloseOne(s, t).heap);
    hide OpenOk;
    SameStrings(s.heap, CloseOne(s, t).heap, s.strt, s.hash);
    DropLists(s.heap, CloseOne(s, t).heap, s.rootgc, lost, t, u);
    DropAnchors(s, CloseOne(s, t).heap, t, u);
  }

  lemma DropLists(h: Heap, h': Heap, rootgc: seq<Id>, lost: set<Id>, t: Id, u: Id)
    requires RootgcOk(h, rootgc, lost) && u in h && h[u].body.Open? && IsThread(h, t) && IsThread(h', t)
    requires h'.Keys == h.Keys - {u} && forall o :: o in h' && o != t ==> h'[o].body == h[o].body
    ensures RootgcOk(h', rootgc, lost)
  {
  }

  lemma DropAnchors(s: State, h': Heap, t: Id, u: Id)
    requires Anchors(s.heap, s.main, s.registry, s.running, s.next) && u in s.heap && s.heap[u].body.Open?
    requires IsThread(s.heap, t) && IsThread(h', t)
    requires h'.Keys == s.heap.Keys - {u} && forall o :: o in h' ==> h'[o].fixed == s.heap[o].fixed
    requires forall o :: o in h' && o != t ==> h'[o].body == s.heap[o].body
    ensures Anchors(h', s.main, s.registry, s.running, s.next)
  {
  }

  lemma CloseDeadLive(s: State, t: Id)
    requires Live(s) && OpenOk(s.heap) && FirstOpenAbove(s.heap, t, 0) && KindsOk(s.heap)
    requires IsDead(s.heap, s.white, s.heap[t].body.open[0])
    ensures Live(CloseOne(s, t)) && KindsOk(CloseOne(s, t).heap)
  {
    var u := s.heap[t].body.open[0];
    FirstOpenFacts(s.heap, t, u);
    assert Roots(CloseOne(s, t)) == Roots(s);
    DeadGoneLive(s.heap, CloseOne(s, t).heap, s.white, Roots(s), t, u);
  }

  lemma CloseDeadPhase(s: State, t: Id)
    requires PhaseOk(s) && OpenOk(s.heap) && FirstOpenAbove(s.heap, t, 0) && StrOk(s.heap, s.strt, s.hash)
    requires IsDead(s.heap, s.white, s.heap[t].body.open[0])
    requires forall o :: o in s.rootgc ==> o in s.heap && !s.heap[o].body.Open?
    ensures PhaseOk(CloseOne(s, t))
  {
    var u := s.heap[t].body.open[0];
    var h, h' := s.heap, CloseOne(s, t).heap;
    FirstOpenFacts(h, t, u);
    DropFirstOpen(h, t, u, h');
    hide OpenOk, WhiteAgain, SweptRoots;
    assert s.phase.SweepString? || s.phase.Sweep?;
    StringsStay(h, h', s.strt, s.hash, u);
    if s.phase.Sweep? { OpenTailSwept(h, h', s.white, s.rootgc, s.sweepgc, t); }
  }

  lemma StringsStay(h: Heap, h': Heap, strt: seq<seq<Id>>, hash: string -> nat, u: Id)
    requires StrOk(h, strt, hash) && u in h && h[u].body.Open?
    requires h'.Keys == h.Keys - {u} && forall o :: o in h' ==> h'[o].color == h[o].color
    ensures forall i, o :: 0 <= i < |strt| && o in strt[i] ==> o in h' && h'[o].color == h[o].color
  {
    forall i, o | 0 <= i < |strt| && o in strt[i] ensures o in h' && h'[o].color == h[o].color { assert IsStr(h, o); }
  }

  lemma DeadGoneLive(h: Heap, h': Heap, white: bool, roots: set<Id>, t: Id, u: Id)
    requires ClosedLive(h, white) && RootsLive(h, white, roots) && IsDead(h, white, u) && IsThread(h, t) && IsThread(h', t)
    requires h'.Keys == h.Keys - {u} && forall o :: o in h' ==> h'[o].color == h[o].color
    requires forall o :: o in h' && o != t ==> h'[o].body == h[o].body
    requires h'[t].body.refs == h[t].body.refs && h'[t].body.stack == h[t].body.stack
    ensures ClosedLive(h', white) && RootsLive(h', white, roots)
  {
    forall o, k | NonDead(h', white, o) && k in Kids(h', o) ensures NonDead(h', white, k) {
      assert NonDead(h, white, o) && k in Kids(h, o);
      assert NonDead(h, white, k);
    }
  }

  lemma OpenTailSwept(h: Heap, h': Heap, white: bool, rootgc: seq<Id>, n: nat, t: Id)
    requires SweptRoots(h, white, rootgc, n) && IsThread(h, t) && OpenOk(h')
    requires forall i :: 0 <= i < |rootgc| ==> rootgc[i] in h ==> rootgc[i] in h'
    requires forall o :: o in h' && o in h ==> h'[o].color == h[o].color
    requires forall o :: o in h' ==> o in h && (o != t ==> h'[o].body == h[o].body)
    requires t in h' && h'[t].body.Thread? && forall x :: x in h'[t].body.open ==> x in h[t].body.open
    ensures SweptRoots(h', white, rootgc, n)
  {
    forall i | 0 <= i < n && i < |rootgc| ensures WhiteAgain(h', white, rootgc[i]) {
      assert WhiteAgain(h, white, rootgc[i]);
      if IsThread(h', rootgc[i]) { assert OpenList(h', rootgc[i], h'[rootgc[i]].body.open); }
    }
  }

  lemma DetachedSwept(h: Heap, white: bool, rootgc: seq<Id>, n: nat, t: Id, u: Id, c: Color)
    requires FirstOpen(h, t, u) && SweptRoots(h, white, rootgc, n)
    requires u in h && c == White(white)
    ensures u in h && h[u].body.Open? && h[u].body.slot < |h[t].body.stack|
    ensures SweptRoots(Detached(h, t, u, c), white, [u] + rootgc, if n == 0 then 0 else n + 1)
  {
    FirstOpenFacts(h, t, u);
    var h' := Detached(h, t, u, c);
    var r := [u] + rootgc;
    forall i | 0 <= i < n + 1 && i < |r| && n > 0 ensures WhiteAgain(h', white, r[i]) {
      if i > 0 { assert WhiteAgain(h, white, rootgc[i - 1]); }
    }
  }

  lemma DetachedSweptStrings(h: Heap, white: bool, strt: seq<seq<Id>>, n: nat, hash: string -> nat, t: Id, u: Id, c: Color)
    requires FirstOpen(h, t, u) && SweptStrings(h, white, strt, n) && StrOk(h, strt, hash)
    ensures u in h && h[u].body.Open? && h[u].body.slot < |h[t].body.stack|
    ensures SweptStrings(Detached(h, t, u, c), white, strt, n)
  {
    FirstOpenFacts(h, t, u);
    var h' := Detached(h, t, u, c);
    forall i, o | 0 <= i < n && i < |strt| && o in strt[i] ensures o in h' && h'[o].color == White(white) {
      assert IsStr(h, o);
    }
  }

  /** What CloseOne does to an upvalue that is not dead. */
  lemma CloseOneForm(s: State, t: Id, u: Id, c: Color)
    requires FirstOpen(s.heap, t, u) && u in s.heap && !IsDead(s.heap, s.white, u) && !s.heap[u].color.Black?
    requires c == if s.heap[u].color.White? then s.heap[u].color else if s.phase.Propagate? then Black else White(s.white)
    ensures FirstOpenAbove(s.heap, t, 0)
    ensures var s1 := LinkHead(s.(heap := Detached(s.heap, t, u, c), uvhead := Without(s.uvhead, u)), u);
            && s1.heap[u].body.Closed?
            && CloseOne(s, t) == if s.phase.Propagate? then Barrier(s1, u, s1.heap[u].body.value) else s1
  {
    FirstOpenFacts(s.heap, t, u);
    var b := s.heap[t].body;
    var h := s.heap[t := s.heap[t].(body := b.(open := b.open[1..]))];
    var h1 := h[u := h[u].(body := Closed(b.stack[h[u].body.slot]))];
    assert Paint(h1, u, c) == Detached(s.heap, t, u, c);
    assert c == s.heap[u].color ==> h1 == Detached(s.heap, t, u, c);
  }

  lemma CloseWhitePhase(s: State, t: Id, u: Id)
    requires PhaseOk(s) && !s.phase.Propagate? && FirstOpen(s.heap, t, u) && StrOk(s.heap, s.strt, s.hash)
    ensures u in s.heap && s.heap[u].body.Open? && s.heap[u].body.slot < |s.heap[t].body.stack|
    ensures PhaseOk(LinkHead(s.(heap := Detached(s.heap, t, u, White(s.white)), uvhead := Without(s.uvhead, u)), u))
  {
    var c := White(s.white);
    FirstOpenFacts(s.heap, t, u);
    if s.phase.Sweep? {
      DetachedSwept(s.heap, s.white, s.rootgc, s.sweepgc, t, u, c);
      DetachedSweptStrings(s.heap, s.white, s.strt, |s.strt|, s.hash, t, u, c);
    } else if s.phase.SweepString? {
      DetachedSweptStrings(s.heap, s.white, s.strt, s.sweepstr, s.hash, t, u, c);
    }
  }

  /** Outside the mark phase a closed upvalue comes out white. */
  lemma CloseWhiteKeeps(s: State, t: Id, u: Id, lost: set<Id>)
    requires InvBut(s, lost) && lost <= {t} && FirstOpen(s.heap, t, u) && !s.phase.Propagate?
    requires NonDead(s.heap, s.white, u) && !s.heap[u].color.Black?
    ensures FirstOpenAbove(s.heap, t, 0) && InvBut(CloseOne(s, t), lost)
  {
    var c := White(s.white);
    FirstOpenFacts(s.heap, t, u);
    CloseOneForm(s, t, u, c);
    DetachedShape(s, t, u, c, lost);
    DetachedLive(s.heap, s.white, Roots(s), t, u, c);
    DetachedKinds(s.heap, t, u, c);
    CloseWhitePhase(s, t, u);
  }

  lemma CloseMarkAlmost(s: State, t: Id, u: Id, c: Color)
    requires s.phase.Propagate? && TriColor(Tracer(s.heap, s.gray, s.grayagain)) && FirstOpen(s.heap, t, u)
    requires NoDead(s.heap, s.white) && Marked(s.heap, s.main) && Marked(s.heap, s.registry)
    requires u in s.heap && !s.heap[u].color.Black? && c == if s.heap[u].color.White? then s.heap[u].color else Black
    ensures u in s.heap && s.heap[u].body.Open? && s.heap[u].body.slot < |s.heap[t].body.stack|
    ensures AlmostTriColor(LinkHead(s.(heap := Detached(s.heap, t, u, c), uvhead := Without(s.uvhead, u)), u), u)
  {
    FirstOpenFacts(s.heap, t, u);
    DetachedTriColor(Tracer(s.heap, s.gray, s.grayagain), t, u, c);
    DetachedMarks(s.heap, s.white, t, u, c);
    NotListed(s.heap, s.gray, u);
    NotListed(s.heap, s.grayagain, u);
  }

  lemma NotListed(h: Heap, gray: seq<Id>, u: Id)
    requires GrayOk(h, gray) && u in h && !Listed(h[u].body)
    ensures u !in gray
  {
  }

  lemma DetachedMarks(h: Heap, white: bool, t: Id, u: Id, c: Color)
    requires FirstOpen(h, t, u) && NoDead(h, white) && u in h && (c.Black? || c == h[u].color)
    ensures u in h && h[u].body.Open? && h[u].body.slot < |h[t].body.stack|
    ensures NoDead(Detached(h, t, u, c), white)
    ensures forall o :: Marked(h, o) ==> Marked(Detached(h, t, u, c), o)
  {
    FirstOpenFacts(h, t, u);
  }

  /** Mark phase: a white upvalue stays white, a gray one turns black and its
      value is marked. */
  lemma CloseMarkKeeps(s: State, t: Id, u: Id, lost: set<Id>)
    requires InvBut(s, lost) && lost <= {t} && FirstOpen(s.heap, t, u) && s.phase.Propagate?
    requires NonDead(s.heap, s.white, u) && !s.heap[u].color.Black?
    ensures FirstOpenAbove(s.heap, t, 0) && InvBut(CloseOne(s, t), lost)
  {
    var c := if s.heap[u].color.White? then s.heap[u].color else Black;
    FirstOpenFacts(s.heap, t, u);
    CloseOneForm(s, t, u, c);
    DetachedShape(s, t, u, c, lost);
    DetachedLive(s.heap, s.white, Roots(s), t, u, c);
    CloseMarkAlmost(s, t, u, c);
    BarrierSettles(LinkHead(s.(heap := Detached(s.heap, t, u, c), uvhead := Without(s.uvhead, u)), u), u, lost);
  }

  lemma BarrierSettles(s: State, u: Id, lost: set<Id>)
    requires Live(s) && Shape(s, lost) && AlmostTriColor(s, u)
    ensures InvBut(Barrier(s, u, s.heap[u].body.value), lost)
  {
    var v := s.heap[u].body.value;
    if v.Ref? && IsWhite(s.heap, v.id) && s.heap[u].color.Black? {
      SettleClosed(s, u, v.id, lost);
    } else {
      ClosedSettled(s, u, lost);
    }
  }

  ghost predicate AlmostTriColor(s: State, u: Id) {
    && GrayOk(s.heap, s.gray) && GrayOk(s.heap, s.grayagain) && (forall x :: x in s.gray ==> x !in s.grayagain)
    && KindsOk(s.heap) && ListedOrSettled(s.heap, s.gray, s.grayagain + [u])
    && u in s.heap && s.heap[u].body.Closed? && u !in s.gray && u !in s.grayagain && !s.heap[u].color.Gray?
    && Marked(s.heap, s.main) && Marked(s.heap, s.registry) && NoDead(s.heap, s.white) && s.phase.Propagate?
  }

  lemma ClosedSettled(s: State, u: Id, lost: set<Id>)
    requires Live(s) && Shape(s, lost) && AlmostTriColor(s, u)
    requires IsWhite(s.heap, u) || s.heap[u].body.value.Nil? || Marked(s.heap, s.heap[u].body.value.id)
             || s.heap[u].body.value.id !in s.heap
    ensures InvBut(s, lost)
  {
    if Marked(s.heap, u) { assert Traced(s.heap, u); }
    assert ListedOrSettled(s.heap, s.gray, s.grayagain);
  }

  lemma SettleClosed(s: State, u: Id, v: Id, lost: set<Id>)
    requires Live(s) && Shape(s, lost) && AlmostTriColor(s, u)
    requires s.heap[u].color.Black? && s.heap[u].body.value == Ref(v) && IsWhite(s.heap, v)
    ensures var m := ReallyMark(Marker(s.heap, s.gray), v); InvBut(s.(heap := m.heap, gray := m.gray), lost)
  {
    var m0 := Marker(s.heap, s.gray);
    var m := ReallyMark(m0, v);
    var s' := s.(heap := m.heap, gray := m.gray);
    ReallyMarkSpec(m0, v);
    MarkKeepsListed(m0, m, s.grayagain + [u]);
    AgainStays(m0, m, s.grayagain);
    MarksAdvance(s.heap, m.heap);
    OutlineShape(s, s', lost);
    AdvancesLive(s.heap, m.heap, s.white, Roots(s));
    ClosedSettled(s', u, lost);
  }

  lemma FirstOpenIntro(s: State, t: Id)
    requires OpenOk(s.heap) && FirstOpenAbove(s.heap, t, 0) && KindsOk(s.heap)
    ensures FirstOpen(s.heap, t, s.heap[t].body.open[0]) && !s.heap[s.heap[t].body.open[0]].color.Black?
  {
  }

  lemma CloseOneKeeps(s: State, t: Id, lost: set<Id>)
    requires InvBut(s, lost) && lost <= {t} && FirstOpenAbove(s.heap, t, 0)
    ensures InvBut(CloseOne(s, t), lost)
  {
    var u := s.heap[t].body.open[0];
    FirstOpenIntro(s, t);
    if IsDead(s.heap, s.white, u) {
      CloseDeadKeeps(s, t, lost);
    } else if s.phase.Propagate? {
      CloseMarkKeeps(s, t, u, lost);
    } else {
      CloseWhiteKeeps(s, t, u, lost);
    }
  }

  lemma {:induction false} CloseFromKeeps(s: State, t: Id, level: nat, lost: set<Id>)
    requires InvBut(s, lost) && lost <= {t}
    ensures InvBut(CloseFrom(s, t, level), lost)
    decreases OpenCount(s.heap, t)
  {
    if FirstOpenAbove(s.heap, t, level) {
      CloseOneShrinks(s, t);
      CloseOneKeeps(s, t, lost);
      CloseFromKeeps(CloseOne(s, t), t, level, lost);
    }
  }
}
