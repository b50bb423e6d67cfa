/** Objects, colours and the marking procedure of the incremental collector.

    An object is an identity in a finite map.  Every non-collectable value is
    `Nil`, because the collector never looks at it; the array and hash entries,
    metatable, environment, constants and upvalues of an object are one list of
    references in the order the collector visits them. */
module GcHeap {

  type Id = nat

  datatype Value = Nil | Ref(id: Id)

  /** White comes in two shades; which one is current flips once per cycle. */
  datatype Color = White(bit: bool) | Gray | Black

  datatype Body =
    | Str(content: string)
    | Udata(refs: seq<Id>)
    | Func(refs: seq<Id>)
    | Table(refs: seq<Id>)
    | Proto(refs: seq<Id>)
    | Closed(value: Value)
    | Open(thread: Id, slot: nat)
    | Thread(refs: seq<Id>, stack: seq<Value>, open: seq<Id>)

  datatype Obj = Obj(body: Body, color: Color, fixed: bool)

  type Heap = map<Id, Obj>

  function Ids(vs: seq<Value>): (r: seq<Id>)
    ensures forall i :: i in r <==> Ref(i) in vs
  {
    if vs == [] then []
    else if vs[0].Ref? then [vs[0].id] + Ids(vs[1..])
    else Ids(vs[1..])
  }

  /** The references the collector follows from an object.  An open upvalue
      shows what its stack slot holds now; a thread does not hold its upvalues. */
  function Kids(h: Heap, o: Id): seq<Id>
    requires o in h
  {
    match h[o].body
    case Str(_) => []
    case Udata(refs) => refs
    case Func(refs) => refs
    case Table(refs) => refs
    case Proto(refs) => refs
    case Closed(v) => Ids([v])
    case Open(t, slot) =>
      if t in h && h[t].body.Thread? && slot < |h[t].body.stack| then Ids([h[t].body.stack[slot]]) else []
    case Thread(refs, stack, _) => refs + Ids(stack)
  }

  /** What an object's fields refer to: entries, metatable, environment, constants
      or upvalues; the value of a closed upvalue; the value in the stack slot of an
      open one; the globals and the stack of a thread. */
  ghost predicate Refers(h: Heap, o: Id, k: Id) {
    o in h &&
    match h[o].body
    case Str(_) => false
    case Udata(refs) => k in refs
    case Func(refs) => k in refs
    case Table(refs) => k in refs
    case Proto(refs) => k in refs
    case Closed(v) => v == Ref(k)
    case Open(t, slot) => t in h && h[t].body.Thread? && slot < |h[t].body.stack| && h[t].body.stack[slot] == Ref(k)
    case Thread(refs, stack, _) => k in refs || Ref(k) in stack
  }

  /** The collector follows exactly the references of an object. */
  lemma FollowsAll(h: Heap, o: Id, k: Id)
    ensures o in h && k in Kids(h, o) <==> Refers(h, o, k)
  {
  }

  predicate IsWhite(h: Heap, o: Id) {
    o in h && h[o].color.White?
  }

  predicate Marked(h: Heap, o: Id) {
    o in h && !h[o].color.White?
  }

  /** isdead: the object carries the white that is not current. */
  predicate IsDead(h: Heap, white: bool, o: Id) {
    o in h && h[o].color == White(!white)
  }

  predicate NonDead(h: Heap, white: bool, o: Id) {
    o in h && h[o].color != White(!white)
  }

  /** The kinds of object that wait on a gray list. */
  predicate Listed(b: Body) {
    b.Func? || b.Table? || b.Proto? || b.Thread?
  }

  function Whites(h: Heap): set<Id> {
    set o | o in h && h[o].color.White?
  }

  function Paint(h: Heap, o: Id, c: Color): Heap
    requires o in h
  {
    h[o := h[o].(color := c)]
  }

  /** h' differs from h only in that some white objects are no longer white. */
  ghost predicate Marks(h: Heap, h': Heap) {
    && h'.Keys == h.Keys
    && forall o :: o in h ==>
         && h'[o].body == h[o].body
         && h'[o].fixed == h[o].fixed
         && (h'[o].color == h[o].color || (h[o].color.White? && !h'[o].color.White?))
  }

  /** Everything the object refers to has been marked. */
  ghost predicate Traced(h: Heap, o: Id) {
    o in h && forall k :: k in Kids(h, o) && k in h ==> Marked(h, k)
  }

  lemma KidsSame(h: Heap, h': Heap, o: Id)
    requires Marks(h, h') && o in h
    ensures Kids(h', o) == Kids(h, o)
  {
  }

  lemma TracedStays(h: Heap, h': Heap, o: Id)
    requires Marks(h, h') && Traced(h, o)
    ensures Traced(h', o)
  {
    KidsSame(h, h', o);
  }

  // ------------------------------------------------------------- marking

  datatype Marker = Marker(heap: Heap, gray: seq<Id>)

  /** reallymarkobject: strings turn gray and stay so, userdata and closed
      upvalues turn black at once, open upvalues stay gray, every other object
      is put at the head of the gray list. */
  function ReallyMark(m: Marker, o: Id): (r: Marker)
    requires IsWhite(m.heap, o)
    ensures Marks(m.heap, r.heap) && Marked(r.heap, o)
    decreases Whites(m.heap), 1, 0
  {
    var h := Paint(m.heap, o, Gray);
    assert Whites(h) == Whites(m.heap) - {o};
    match m.heap[o].body
    case Str(_) => Marker(h, m.gray)
    case Udata(refs) =>
      var b := Paint(m.heap, o, Black);
      assert Whites(b) == Whites(m.heap) - {o};
      MarkAll(Marker(b, m.gray), refs)
    case Closed(v) =>
      var r := MarkAll(Marker(h, m.gray), Ids([v]));
      Marker(Paint(r.heap, o, Black), r.gray)
    case Open(_, _) => MarkAll(Marker(h, m.gray), Kids(m.heap, o))
    case _ => Marker(h, [o] + m.gray)
  }

  /** markobject / markvalue over a list of references. */
  function MarkAll(m: Marker, ids: seq<Id>): (r: Marker)
    ensures Marks(m.heap, r.heap)
    decreases Whites(m.heap), 2, |ids|
  {
    if ids == [] then m
    else
      var m' := MarkOne(m, ids[0]);
      assert Whites(m'.heap) <= Whites(m.heap);
      MarkAll(m', ids[1..])
  }

  function MarkOne(m: Marker, o: Id): (r: Marker)
    ensures Marks(m.heap, r.heap)
    ensures o in m.heap ==> Marked(r.heap, o)
    decreases Whites(m.heap), 1, 1
  {
    if IsWhite(m.heap, o) then ReallyMark(m, o) else m
  }

  // -------------------------------------------- what marking establishes

  /** Marked for good: nothing it refers to is white, and it needs no list. */
  ghost predicate Settled(h: Heap, o: Id) {
    Traced(h, o) && (h[o].color.Black? || h[o].body.Str? || h[o].body.Open?)
  }

  /** A gray list: gray objects of the listed kinds, each once. */
  ghost predicate GrayOk(h: Heap, gray: seq<Id>) {
    && (forall i :: 0 <= i < |gray| ==> gray[i] in h && h[gray[i]].color.Gray? && Listed(h[gray[i]].body))
    && (forall i, j :: 0 <= i < j < |gray| ==> gray[i] != gray[j])
  }

  /** Strings, threads and open upvalues are never black. */
  ghost predicate KindsOk(h: Heap) {
    forall o :: o in h && (h[o].body.Str? || h[o].body.Thread? || h[o].body.Open?) ==> !h[o].color.Black?
  }

  /** r is m after some marking: newly marked objects are listed or settled. */
  ghost predicate MarkedFrom(m: Marker, r: Marker) {
    && Marks(m.heap, r.heap)
    && (forall x :: IsWhite(m.heap, x) && Marked(r.heap, x) ==> x in r.gray || Settled(r.heap, x))
    && (forall x :: x in m.gray ==> x in r.gray)
    && (forall x :: x in r.gray && x !in m.gray ==> IsWhite(m.heap, x))
    && (GrayOk(m.heap, m.gray) ==> GrayOk(r.heap, r.gray))
    && (KindsOk(m.heap) ==> KindsOk(r.heap))
    && (Whites(r.heap) == Whites(m.heap) ==> r.gray == m.gray)
  }

  lemma MarkedFromTrans(a: Marker, b: Marker, c: Marker)
    requires MarkedFrom(a, b) && MarkedFrom(b, c)
    ensures MarkedFrom(a, c)
  {
    forall x | IsWhite(a.heap, x) && Marked(c.heap, x)
      ensures x in c.gray || Settled(c.heap, x)
    {
      if Marked(b.heap, x) && x !in b.gray { TracedStays(b.heap, c.heap, x); }
    }
    assert Whites(c.heap) <= Whites(b.heap) <= Whites(a.heap);
  }

  /** Colouring one white object and marking on from there. */
  lemma MarkedFromPaint(m: Marker, o: Id, c: Color, r: Marker)
    requires IsWhite(m.heap, o) && !c.White?
    requires MarkedFrom(Marker(Paint(m.heap, o, c), m.gray), r)
    requires Settled(r.heap, o)
    requires c.Black? ==> m.heap[o].body.Udata?
    ensures MarkedFrom(m, r)
  {
    var p := Paint(m.heap, o, c);
    assert GrayOk(m.heap, m.gray) ==> GrayOk(p, m.gray);
    assert KindsOk(m.heap) ==> KindsOk(p);
    assert o in Whites(m.heap) && o !in Whites(r.heap);
  }

  /** Kids looks at bodies only. */
  lemma KidsPaint(h: Heap, o: Id, c: Color, x: Id)
    requires o in h && x in h
    ensures Kids(Paint(h, o, c), x) == Kids(h, x)
  {
  }

  lemma SettledPaintBlack(h: Heap, o: Id, x: Id)
    requires Marked(h, o) && Settled(h, x)
    ensures Settled(Paint(h, o, Black), x)
  {
    KidsPaint(h, o, Black, x);
  }

  lemma SettledSelf(h: Heap, o: Id)
    requires Traced(h, o)
    ensures Settled(Paint(h, o, Black), o)
  {
    KidsPaint(h, o, Black, o);
  }

  /** Painting an object that is on no list. */
  lemma PaintOffList(h: Heap, o: Id, c: Color, gray: seq<Id>)
    requires o in h && o !in gray && !h[o].body.Str? && !h[o].body.Thread? && !h[o].body.Open?
    ensures GrayOk(h, gray) ==> GrayOk(Paint(h, o, c), gray)
    ensures KindsOk(h) ==> KindsOk(Paint(h, o, c))
  {
    assert forall i :: 0 <= i < |gray| ==> gray[i] in gray;
  }

  lemma WhiteOffList(h: Heap, o: Id, gray: seq<Id>)
    requires IsWhite(h, o)
    ensures GrayOk(h, gray) ==> o !in gray
  {
  }

  /** gray2black on a closed upvalue once its value is marked. */
  lemma MarkedFromBlacken(m: Marker, o: Id, q: Marker)
    requires IsWhite(m.heap, o) && m.heap[o].body.Closed?
    requires MarkedFrom(Marker(Paint(m.heap, o, Gray), m.gray), q) && Traced(q.heap, o)
    ensures MarkedFrom(m, Marker(Paint(q.heap, o, Black), q.gray))
  {
    hide Settled, GrayOk, KindsOk;
    var p := Paint(m.heap, o, Gray);
    var r := Marker(Paint(q.heap, o, Black), q.gray);
    WhiteOffList(m.heap, o, m.gray);
    if o !in m.gray { PaintOffList(m.heap, o, Gray, m.gray); }
    PaintOffList(m.heap, o, Gray, []);
    PaintOffList(q.heap, o, Black, []);
    if o !in q.gray { PaintOffList(q.heap, o, Black, q.gray); }
    assert o in Whites(m.heap) && o !in Whites(r.heap);
    SettledSelf(q.heap, o);
    forall x | IsWhite(m.heap, x) && Marked(r.heap, x) && x != o && x !in r.gray
      ensures Settled(r.heap, x)
    {
      SettledPaintBlack(q.heap, o, x);
    }
  }

  lemma {:induction false} ReallyMarkSpec(m: Marker, o: Id)
    requires IsWhite(m.heap, o)
    ensures MarkedFrom(m, ReallyMark(m, o))
    decreases Whites(m.heap), 1, 0
  {
    var h := Paint(m.heap, o, Gray);
    var b := Paint(m.heap, o, Black);
    assert Whites(h) == Whites(m.heap) - {o} == Whites(b);
    var r := ReallyMark(m, o);
    match m.heap[o].body
    case Str(_) =>
      assert o in Whites(m.heap) && o !in Whites(r.heap);
    case Udata(refs) =>
      MarkAllSpec(Marker(b, m.gray), refs);
      MarkedFromPaint(m, o, Black, r);
    case Closed(v) =>
      MarkAllSpec(Marker(h, m.gray), Ids([v]));
      MarkedFromBlacken(m, o, MarkAll(Marker(h, m.gray), Ids([v])));
    case Open(_, _) =>
      MarkAllSpec(Marker(h, m.gray), Kids(m.heap, o));
      KidsSame(m.heap, r.heap, o);
      MarkedFromPaint(m, o, Gray, r);
    case _ =>
      assert o in Whites(m.heap) && o !in Whites(r.heap);
  }

  lemma {:induction false} MarkAllSpec(m: Marker, ids: seq<Id>)
    ensures MarkedFrom(m, MarkAll(m, ids))
    ensures forall x :: x in ids && x in m.heap ==> Marked(MarkAll(m, ids).heap, x)
    decreases Whites(m.heap), 2, |ids|
  {
    if ids != [] {
      var m' := MarkOne(m, ids[0]);
      assert Whites(m'.heap) <= Whites(m.heap);
      if IsWhite(m.heap, ids[0]) { ReallyMarkSpec(m, ids[0]); }
      MarkAllSpec(m', ids[1..]);
      MarkedFromTrans(m, m', MarkAll(m', ids[1..]));
    }
  }

  /** A set closed under reference, as far as the heap goes. */
  ghost predicate ClosedSet(h: Heap, s: set<Id>) {
    forall o, k :: o in s && o in h && k in Kids(h, o) ==> k in s
  }

  /** Marking never leaves a closed set that holds its seeds. */
  lemma {:induction false} ReallyMarkStaysIn(m: Marker, o: Id, s: set<Id>)
    requires IsWhite(m.heap, o) && ClosedSet(m.heap, s) && o in s
    ensures forall x :: IsWhite(m.heap, x) && Marked(ReallyMark(m, o).heap, x) ==> x in s
    decreases Whites(m.heap), 1, 0
  {
    var h := Paint(m.heap, o, Gray);
    var b := Paint(m.heap, o, Black);
    assert Whites(h) == Whites(m.heap) - {o} == Whites(b);
    assert Marks(m.heap, h) && Marks(m.heap, b);
    forall x | x in h ensures Kids(h, x) == Kids(m.heap, x) == Kids(b, x) {
      KidsSame(m.heap, h, x);
      KidsSame(m.heap, b, x);
    }
    match m.heap[o].body
    case Udata(refs) => MarkAllStaysIn(Marker(b, m.gray), refs, s);
    case Closed(v) => MarkAllStaysIn(Marker(h, m.gray), Ids([v]), s);
    case Open(_, _) => MarkAllStaysIn(Marker(h, m.gray), Kids(m.heap, o), s);
    case _ =>
  }

  lemma {:induction false} MarkAllStaysIn(m: Marker, ids: seq<Id>, s: set<Id>)
    requires ClosedSet(m.heap, s) && forall x :: x in ids ==> x in s
    ensures forall x :: IsWhite(m.heap, x) && Marked(MarkAll(m, ids).heap, x) ==> x in s
    decreases Whites(m.heap), 2, |ids|
  {
    if ids != [] {
      var m' := MarkOne(m, ids[0]);
      assert Whites(m'.heap) <= Whites(m.heap);
      if IsWhite(m.heap, ids[0]) { ReallyMarkStaysIn(m, ids[0], s); }
      forall x | x in m.heap ensures Kids(m'.heap, x) == Kids(m.heap, x) { KidsSame(m.heap, m'.heap, x); }
      MarkAllStaysIn(m', ids[1..], s);
    }
  }
}
