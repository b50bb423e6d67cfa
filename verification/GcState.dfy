/** The collector's state machine and the operations of the running program
    that touch it, as functions on one global state. */
module GcState {
  import opened GcHeap

  datatype Phase = Pause | Propagate | SweepString | Sweep | Finalize

  const GCSWEEPMAX := 40
  const MINSTRTABSIZE := 32
  const MAX_INT := 0x7FFF_FFFF

  /** `rootgc` and the buckets of `strt` are the linked lists of the source as
      sequences; `sweepgc` is the position the sweep pointer designates, zero
      standing for the list head itself.  `pinned` holds the objects that only
      C locals refer to: no collection runs while there are any. */
  datatype State = State(
    heap: Heap, next: Id, white: bool, phase: Phase,
    gray: seq<Id>, grayagain: seq<Id>,
    rootgc: seq<Id>, sweepgc: nat,
    strt: seq<seq<Id>>, sweepstr: nat, hash: string -> nat,
    uvhead: seq<Id>,
    main: Id, registry: Id, mts: seq<Value>, running: Id, pinned: set<Id>)

  // ------------------------------------------------------------ mark phase

  datatype Tracer = Tracer(heap: Heap, gray: seq<Id>, again: seq<Id>)

  /** propagatemark: blacken the head of the gray list and mark what it refers
      to; a thread stays gray and moves to the second list instead. */
  function PropagateMark(t: Tracer): Tracer
    requires t.gray != []
  {
    var o := t.gray[0];
    if o !in t.heap then t.(gray := t.gray[1..])
    else if t.heap[o].body.Thread? then
      var m := MarkAll(Marker(t.heap, t.gray[1..]), Kids(t.heap, o));
      Tracer(m.heap, m.gray, [o] + t.again)
    else
      var m := MarkAll(Marker(Paint(t.heap, o, Black), t.gray[1..]), Kids(t.heap, o));
      Tracer(m.heap, m.gray, t.again)
  }

  lemma PropagateMarkShrinks(t: Tracer)
    requires t.gray != []
    ensures var r := PropagateMark(t);
            Whites(r.heap) <= Whites(t.heap) &&
            (Whites(r.heap) == Whites(t.heap) ==> |r.gray| < |t.gray|)
  {
    var o := t.gray[0];
    if o in t.heap {
      var h := if t.heap[o].body.Thread? then t.heap else Paint(t.heap, o, Black);
      MarkAllSpec(Marker(h, t.gray[1..]), Kids(t.heap, o));
      assert Whites(PropagateMark(t).heap) <= Whites(h) <= Whites(t.heap);
    }
  }

  function PropagateAll(t: Tracer): Tracer
    decreases Whites(t.heap), |t.gray|
  {
    if t.gray == [] then t
    else PropagateMarkShrinks(t); PropagateAll(PropagateMark(t))
  }

  /** remarkupvals: mark the current value of every gray open upvalue. */
  function RemarkUpvals(m: Marker, uvs: seq<Id>): Marker
    decreases |uvs|
  {
    if uvs == [] then m
    else if uvs[0] in m.heap && m.heap[uvs[0]].color.Gray? then
      RemarkUpvals(MarkAll(m, Kids(m.heap, uvs[0])), uvs[1..])
    else RemarkUpvals(m, uvs[1..])
  }

  function MarkRoot(s: State): State {
    var m := MarkAll(Marker(s.heap, []), [s.main]);
    var globals := if s.main in s.heap && s.heap[s.main].body.Thread? then s.heap[s.main].body.refs else [];
    var r := MarkAll(m, globals + [s.registry] + Ids(s.mts));
    s.(heap := r.heap, gray := r.gray, grayagain := [], phase := Propagate)
  }

  /** The marking that ends a mark phase: values of open upvalues, what the
      barriers left, the running thread and the basic metatables, and last the
      threads and tables set aside. */
  function AtomicMark(s: State): Tracer {
    var m1 := RemarkUpvals(Marker(s.heap, s.gray), s.uvhead);
    var t1 := PropagateAll(Tracer(m1.heap, m1.gray, s.grayagain));
    var m2 := MarkAll(Marker(t1.heap, t1.gray), [s.running] + Ids(s.mts));
    var t2 := PropagateAll(Tracer(m2.heap, m2.gray, t1.again));
    PropagateAll(Tracer(t2.heap, t2.again, []))
  }

  function Atomic(s: State): State {
    var t := AtomicMark(s);
    s.(heap := t.heap, gray := t.gray, grayagain := t.again,
       white := !s.white, sweepstr := 0, sweepgc := 0, phase := SweepString)
  }

  // ----------------------------------------------------------- sweep phase

  /** sweeplist's test: the object is not of the dead white, or it is fixed. */
  predicate Kept(h: Heap, white: bool, o: Id) {
    o in h && (h[o].color != White(!white) || h[o].fixed)
  }

  datatype Swept = Swept(heap: Heap, list: seq<Id>)

  /** sweeplist over a list without threads: a string bucket or the open
      upvalues of one thread. */
  function SweepLeaves(h: Heap, white: bool, ids: seq<Id>): Swept {
    if ids == [] then Swept(h, [])
    else if Kept(h, white, ids[0]) then
      var r := SweepLeaves(Paint(h, ids[0], White(white)), white, ids[1..]);
      Swept(r.heap, [ids[0]] + r.list)
    else SweepLeaves(h - {ids[0]}, white, ids[1..])
  }

  function FilterIn(ids: seq<Id>, h: Heap): (r: seq<Id>)
    ensures forall x :: x in r <==> x in ids && x in h
  {
    if ids == [] then []
    else if ids[0] in h then [ids[0]] + FilterIn(ids[1..], h)
    else FilterIn(ids[1..], h)
  }

  function Without(ids: seq<Id>, o: Id): (r: seq<Id>)
    ensures forall x :: x in r <==> x in ids && x != o
  {
    if ids == [] then []
    else if ids[0] == o then Without(ids[1..], o)
    else [ids[0]] + Without(ids[1..], o)
  }

  /** Link at the head of rootgc: a sweep pointer at the head sees the new
      object, any other sweep pointer keeps its place. */
  function LinkHead(s: State, o: Id): State {
    s.(rootgc := [o] + s.rootgc, sweepgc := if s.sweepgc == 0 then 0 else s.sweepgc + 1)
  }

  /** luaC_barrierf */
  function BarrierF(s: State, o: Id, v: Id): State
    requires o in s.heap && IsWhite(s.heap, v)
  {
    if s.phase.Propagate? then
      var m := ReallyMark(Marker(s.heap, s.gray), v);
      s.(heap := m.heap, gray := m.gray)
    else s.(heap := Paint(s.heap, o, White(s.white)))
  }

  /** luaC_barrier: only a black object that now refers to a white one matters. */
  function Barrier(s: State, o: Id, v: Value): State
    requires o in s.heap
  {
    if v.Ref? && IsWhite(s.heap, v.id) && s.heap[o].color.Black? then BarrierF(s, o, v.id) else s
  }

  /** luaC_barriert with luaC_barrierback. */
  function BarrierT(s: State, o: Id, v: Value): State
    requires o in s.heap
  {
    if v.Ref? && IsWhite(s.heap, v.id) && s.heap[o].color.Black? then
      s.(heap := Paint(s.heap, o, Gray), grayagain := [o] + s.grayagain)
    else s
  }

  /** luaC_linkupval, for an upvalue that has just been closed. */
  function LinkUpval(s: State, u: Id): State
    requires u in s.heap && s.heap[u].body.Closed?
  {
    var s := LinkHead(s, u);
    if s.heap[u].color.Gray? then
      if s.phase.Propagate? then Barrier(s.(heap := Paint(s.heap, u, Black)), u, s.heap[u].body.value)
      else s.(heap := Paint(s.heap, u, White(s.white)))
    else s
  }

  predicate FirstOpenAbove(h: Heap, t: Id, level: nat) {
    && t in h && h[t].body.Thread? && h[t].body.open != []
    && var u := h[t].body.open[0];
       u in h && h[u].body.Open? && level <= h[u].body.slot < |h[t].body.stack|
  }

  /** One turn of luaF_close: the first open upvalue leaves the thread's list
      and is freed if dead; otherwise it takes over the value of its slot. */
  function CloseOne(s: State, t: Id): State
    requires FirstOpenAbove(s.heap, t, 0)
  {
    var b := s.heap[t].body;
    var u := b.open[0];
    var h := s.heap[t := s.heap[t].(body := b.(open := b.open[1..]))];
    if IsDead(h, s.white, u) then
      s.(heap := h - {u}, uvhead := Without(s.uvhead, u))
    else
      var v := b.stack[h[u].body.slot];
      LinkUpval(s.(heap := h[u := h[u].(body := Closed(v))], uvhead := Without(s.uvhead, u)), u)
  }

  function OpenCount(h: Heap, t: Id): nat {
    if t in h && h[t].body.Thread? then |h[t].body.open| else 0
  }

  lemma CloseOneShrinks(s: State, t: Id)
    requires FirstOpenAbove(s.heap, t, 0)
    ensures OpenCount(CloseOne(s, t).heap, t) < OpenCount(s.heap, t)
    ensures CloseOne(s, t).heap.Keys <= s.heap.Keys
  {
  }

  /** luaF_close */
  function CloseFrom(s: State, t: Id, level: nat): State
    decreases OpenCount(s.heap, t)
  {
    if FirstOpenAbove(s.heap, t, level) then
      CloseOneShrinks(s, t);
      CloseFrom(CloseOne(s, t), t, level)
    else s
  }

  /** sweeplist on the open upvalues of a thread. */
  function SweepOpen(s: State, t: Id): State
    requires t in s.heap && s.heap[t].body.Thread?
  {
    var r := SweepLeaves(s.heap, s.white, s.heap[t].body.open);
    if t !in r.heap then s
    else
      s.(heap := r.heap[t := r.heap[t].(body := s.heap[t].body.(open := r.list))],
         uvhead := FilterIn(s.uvhead, r.heap))
  }

  /** freeobj on a member of rootgc already unlinked: a thread closes what is
      left of its upvalues first. */
  function FreeRoot(s: State, o: Id): State
    requires o in s.heap
  {
    var s1 := if s.heap[o].body.Thread? then CloseFrom(s, o, 0) else s;
    s1.(heap := s1.heap - {o})
  }

  /** One turn of sweeplist on rootgc. */
  function SweepRoot(s: State): State
    requires s.sweepgc < |s.rootgc|
  {
    var o := s.rootgc[s.sweepgc];
    if o !in s.heap then s.(sweepgc := s.sweepgc + 1)
    else
      var s1 := if s.heap[o].body.Thread? then SweepOpen(s, o) else s;
      if Kept(s1.heap, s.white, o) then
        s1.(heap := Paint(s1.heap, o, White(s.white)), sweepgc := s.sweepgc + 1)
      else FreeRoot(s1.(rootgc := s.rootgc[..s.sweepgc] + s.rootgc[s.sweepgc + 1..]), o)
  }

  function SweepList(s: State, count: nat): State
    decreases count
  {
    if count == 0 || s.sweepgc >= |s.rootgc| then s
    else SweepList(SweepRoot(s), count - 1)
  }

  // ---------------------------------------------------------- string table

  function StrCount(strt: seq<seq<Id>>): nat {
    if strt == [] then 0 else |strt[0]| + StrCount(strt[1..])
  }

  function Chain(strt: seq<seq<Id>>): seq<Id> {
    if strt == [] then [] else strt[0] + Chain(strt[1..])
  }

  /** Hang each string of a list at the head of its new bucket. */
  function Rehash(h: Heap, hash: string -> nat, ids: seq<Id>, table: seq<seq<Id>>): (r: seq<seq<Id>>)
    requires |table| > 0
    ensures |r| == |table|
  {
    if ids == [] then table
    else if ids[0] in h && h[ids[0]].body.Str? then
      var b := hash(h[ids[0]].body.content) % |table|;
      Rehash(h, hash, ids[1..], table[b := [ids[0]] + table[b]])
    else Rehash(h, hash, ids[1..], table)
  }

  function NewTable(n: nat): (r: seq<seq<Id>>)
    ensures |r| == n && forall i :: 0 <= i < n ==> r[i] == []
  {
    seq(n, _ => [])
  }

  /** luaS_resize: refused while the string sweep walks the table. */
  function ResizeStrings(s: State, n: nat): State
    requires n > 0
  {
    if s.phase.SweepString? then s
    else s.(strt := Rehash(s.heap, s.hash, Chain(s.strt), NewTable(n)))
  }

  /** Position in the chain of the string with this content, or its length. */
  function FindStr(h: Heap, chain: seq<Id>, content: string): (i: nat)
    ensures i <= |chain|
    ensures i < |chain| ==> chain[i] in h && h[chain[i]].body == Str(content)
    ensures forall j :: 0 <= j < i && chain[j] in h ==> h[chain[j]].body != Str(content)
  {
    if chain == [] then 0
    else if chain[0] in h && h[chain[0]].body == Str(content) then 0
    else 1 + FindStr(h, chain[1..], content)
  }

  // ------------------------------------------------------------ single step

  function CheckSizes(s: State): State {
    if StrCount(s.strt) < |s.strt| / 4 && |s.strt| > MINSTRTABSIZE * 2
    then ResizeStrings(s, |s.strt| / 2) else s
  }

  function SweepStringStep(s: State): State {
    if s.sweepstr >= |s.strt| then s.(phase := Sweep)
    else
      var r := SweepLeaves(s.heap, s.white, s.strt[s.sweepstr]);
      s.(heap := r.heap, strt := s.strt[s.sweepstr := r.list], sweepstr := s.sweepstr + 1,
         phase := if s.sweepstr + 1 >= |s.strt| then Sweep else SweepString)
  }

  function SweepStep(s: State): State {
    var s1 := SweepList(s, GCSWEEPMAX);
    if s1.sweepgc >= |s1.rootgc| then CheckSizes(s1).(phase := Finalize) else s1
  }

  function SingleStep(s: State): State {
    match s.phase
    case Pause => MarkRoot(s)
    case Propagate =>
      if s.gray != [] then
        var t := PropagateMark(Tracer(s.heap, s.gray, s.grayagain));
        s.(heap := t.heap, gray := t.gray, grayagain := t.again)
      else Atomic(s)
    case SweepString => SweepStringStep(s)
    case Sweep => SweepStep(s)
    case Finalize => s.(phase := Pause)
  }

  // ---------------------------------------------------- the running program

  datatype Op =
    | NewObj(body: Body)
    | Intern(content: string)
    | FindUpval(thread: Id, slot: nat)
    | Store(obj: Id, refs: seq<Id>, v: Value)
    | SetStack(thread: Id, refs: seq<Id>, stack: seq<Value>)
    | SetUpval(upval: Id, v: Value)
    | Close(thread: Id, level: nat)
    | SetMeta(mts: seq<Value>)
    | Resume(thread: Id)
    | Release(kept: set<Id>)
    | Fix(str: Id)
    | Resize(n: nat)
    | Step

  function IndexOf(ids: seq<Id>, o: Id): (i: nat)
    ensures i <= |ids| && (i < |ids| ==> ids[i] == o) && (o in ids ==> i < |ids|)
  {
    if ids == [] then 0 else if ids[0] == o then 0 else 1 + IndexOf(ids[1..], o)
  }

  /** luaC_link, or for userdata the place right behind the main thread. */
  function Link(s: State, o: Id, b: Body): State {
    if b.Udata? && s.main in s.rootgc then
      var i := IndexOf(s.rootgc, s.main) + 1;
      s.(rootgc := s.rootgc[..i] + [o] + s.rootgc[i..],
         sweepgc := if s.sweepgc <= i then s.sweepgc else s.sweepgc + 1)
    else LinkHead(s, o)
  }

  function DoNewObj(s: State, b: Body): State {
    var s1 := s.(heap := s.heap[s.next := Obj(b, White(s.white), false)],
                 next := s.next + 1, pinned := s.pinned + {s.next});
    Link(s1, s.next, b)
  }

  /** luaS_newlstr: a dead string that is asked for again is revived. */
  function DoIntern(s: State, content: string): State
    requires |s.strt| > 0
  {
    var b := s.hash(content) % |s.strt|;
    var i := FindStr(s.heap, s.strt[b], content);
    if i < |s.strt[b]| then
      var o := s.strt[b][i];
      var h := if IsDead(s.heap, s.white, o) then Paint(s.heap, o, White(s.white)) else s.heap;
      s.(heap := h, pinned := s.pinned + {o})
    else
      var o := s.next;
      var s1 := s.(heap := s.heap[o := Obj(Str(content), White(s.white), false)], next := o + 1,
                   strt := s.strt[b := [o] + s.strt[b]], pinned := s.pinned + {o});
      if StrCount(s1.strt) > |s1.strt| && |s1.strt| <= MAX_INT / 2
      then ResizeStrings(s1, |s1.strt| * 2) else s1
  }

  /** First position of the open list whose slot is not above `slot`. */
  function UpvalPos(h: Heap, open: seq<Id>, slot: nat): (i: nat)
    ensures i <= |open|
    ensures forall j :: 0 <= j < i ==> open[j] in h && h[open[j]].body.Open? && h[open[j]].body.slot > slot
    ensures i < |open| && open[i] in h && h[open[i]].body.Open? ==> h[open[i]].body.slot <= slot
  {
    if open == [] then 0
    else if open[0] in h && h[open[0]].body.Open? && h[open[0]].body.slot > slot
    then 1 + UpvalPos(h, open[1..], slot)
    else 0
  }

  /** luaF_findupval: an open upvalue of that slot is shared, and revived if
      dead; otherwise a new one enters the list in its place. */
  function DoFindUpval(s: State, t: Id, slot: nat): State
    requires t in s.heap && s.heap[t].body.Thread?
  {
    var b := s.heap[t].body;
    var i := UpvalPos(s.heap, b.open, slot);
    if i < |b.open| && b.open[i] in s.heap && s.heap[b.open[i]].body == Open(t, slot) then
      var u := b.open[i];
      var h := if IsDead(s.heap, s.white, u) then Paint(s.heap, u, White(s.white)) else s.heap;
      s.(heap := h, pinned := s.pinned + {u})
    else
      var u := s.next;
      var h := s.heap[t := s.heap[t].(body := b.(open := b.open[..i] + [u] + b.open[i..]))];
      s.(heap := h[u := Obj(Open(t, slot), White(s.white), false)], next := u + 1,
         uvhead := [u] + s.uvhead, pinned := s.pinned + {u})
  }

  /** A store into an object, followed by the barrier the source uses for its
      kind: backward for tables, forward for everything else. */
  function DoStore(s: State, o: Id, refs: seq<Id>, v: Value): State
    requires o in s.heap
    requires var b := s.heap[o].body; b.Udata? || b.Func? || b.Table? || b.Proto?
  {
    var b := s.heap[o].body;
    var b' := match b
      case Udata(_) => Udata(refs)
      case Func(_) => Func(refs)
      case Table(_) => Table(refs)
      case _ => Proto(refs);
    var s1 := s.(heap := s.heap[o := s.heap[o].(body := b')]);
    if b.Table? then BarrierT(s1, o, v) else Barrier(s1, o, v)
  }

  /** Stack slots and globals of a thread change without a barrier. */
  function DoSetStack(s: State, t: Id, refs: seq<Id>, stack: seq<Value>): State
    requires t in s.heap && s.heap[t].body.Thread?
  {
    s.(heap := s.heap[t := s.heap[t].(body := s.heap[t].body.(refs := refs, stack := stack))])
  }

  /** OP_SETUPVAL: through an open upvalue the store lands in a stack slot,
      even when the thread that owns the stack is garbage. */
  function DoSetUpval(s: State, u: Id, v: Value): State
    requires u in s.heap && (s.heap[u].body.Closed? || s.heap[u].body.Open?)
  {
    var b := s.heap[u].body;
    if b.Closed? then Barrier(s.(heap := s.heap[u := s.heap[u].(body := Closed(v))]), u, v)
    else if b.thread in s.heap && s.heap[b.thread].body.Thread? && b.slot < |s.heap[b.thread].body.stack| then
      var tb := s.heap[b.thread].body;
      DoSetStack(s, b.thread, tb.refs, tb.stack[b.slot := v])
    else s
  }
}
