/** Reachability, what the running program may do, and the invariant that the
    collector and the program keep together. */
module GcInv {
  import opened GcHeap
  import opened GcState

  // ---------------------------------------------------------- reachability

  function Roots(s: State): set<Id> {
    {s.main, s.registry, s.running} + s.pinned + (set i | i in Ids(s.mts))
  }

  ghost predicate Path(h: Heap, p: seq<Id>) {
    && |p| > 0
    && forall i :: 0 <= i < |p| - 1 ==> Refers(h, p[i], p[i + 1])
  }

  lemma PathKids(h: Heap, p: seq<Id>)
    ensures Path(h, p) <==> |p| > 0 && forall i :: 0 <= i < |p| - 1 ==> p[i] in h && p[i + 1] in Kids(h, p[i])
  {
    hide Refers, Kids;
    if Path(h, p) {
      forall i | 0 <= i < |p| - 1 ensures p[i] in h && p[i + 1] in Kids(h, p[i]) { FollowsAll(h, p[i], p[i + 1]); }
    }
    if |p| > 0 && forall i :: 0 <= i < |p| - 1 ==> p[i] in h && p[i + 1] in Kids(h, p[i]) {
      forall i | 0 <= i < |p| - 1 ensures Refers(h, p[i], p[i + 1]) { FollowsAll(h, p[i], p[i + 1]); }
    }
  }

  /** Some chain of references leads from a root to the object. */
  ghost predicate Reach(s: State, o: Id) {
    exists p :: Path(s.heap, p) && p[0] in Roots(s) && p[|p| - 1] == o
  }

  ghost predicate Access(s: State, v: Value) {
    v.Ref? ==> Reach(s, v.id)
  }

  // ------------------------------------------------------------ operations

  /** What the program may ask for: it names only objects it can reach, and
      lets the collector run only while nothing is held by C locals alone. */
  ghost predicate Enabled(s: State, op: Op) {
    match op
    case NewObj(b) =>
      (match b
       case Str(_) => false
       case Open(_, _) => false
       case Closed(v) => Access(s, v)
       case Thread(refs, stack, open) =>
         open == [] && (forall r :: r in refs ==> Reach(s, r)) && (forall v :: v in stack ==> Access(s, v))
       case _ => forall r :: r in b.refs ==> Reach(s, r))
    case Intern(_) => |s.strt| > 0
    case FindUpval(t, slot) =>
      Reach(s, t) && t in s.heap && s.heap[t].body.Thread? && slot < |s.heap[t].body.stack|
    case Store(o, refs, v) =>
      && Reach(s, o) && o in s.heap && Access(s, v)
      && var b := s.heap[o].body;
         && (b.Udata? || b.Func? || b.Table? || b.Proto?)
         && forall r :: r in refs ==> r in b.refs || v == Ref(r)
    case SetStack(t, refs, stack) =>
      && Reach(s, t) && t in s.heap && s.heap[t].body.Thread?
      && (forall r :: r in refs ==> Reach(s, r))
      && (forall v :: v in stack ==> Access(s, v))
      && (forall u :: u in s.heap[t].body.open && u in s.heap && s.heap[u].body.Open? ==> s.heap[u].body.slot < |stack|)
    case SetUpval(u, v) =>
      Reach(s, u) && u in s.heap && (s.heap[u].body.Closed? || s.heap[u].body.Open?) && Access(s, v)
    case Close(t, level) => Reach(s, t)
    case SetMeta(mts) => forall v :: v in mts ==> Access(s, v)
    case Resume(t) => Reach(s, t) && t in s.heap && s.heap[t].body.Thread?
    case Release(kept) => kept <= s.pinned
    case Fix(o) => Reach(s, o) && o in s.heap && s.heap[o].body.Str?
    case Resize(n) => n > 0
    case Step => s.pinned == {}
  }

  function Apply(s: State, op: Op): State
    requires Enabled(s, op)
  {
    match op
    case NewObj(b) => DoNewObj(s, b)
    case Intern(content) => DoIntern(s, content)
    case FindUpval(t, slot) => DoFindUpval(s, t, slot)
    case Store(o, refs, v) => DoStore(s, o, refs, v)
    case SetStack(t, refs, stack) => DoSetStack(s, t, refs, stack)
    case SetUpval(u, v) => DoSetUpval(s, u, v)
    case Close(t, level) => CloseFrom(s, t, level)
    case SetMeta(mts) => s.(mts := mts)
    case Resume(t) => s.(running := t)
    case Release(kept) => s.(pinned := kept)
    case Fix(o) => s.(heap := s.heap[o := s.heap[o].(fixed := true)])
    case Resize(n) => ResizeStrings(s, n)
    case Step => SingleStep(s)
  }

  // ------------------------------------------------------------- invariant

  /** What is not dead refers only to things that exist and are not dead. */
  ghost predicate ClosedLive(h: Heap, white: bool) {
    forall o, k :: NonDead(h, white, o) && k in Kids(h, o) ==> NonDead(h, white, k)
  }

  ghost predicate RootsLive(h: Heap, white: bool, roots: set<Id>) {
    forall r :: r in roots ==> NonDead(h, white, r)
  }

  ghost predicate Distinct(ids: seq<Id>) {
    forall i, j :: 0 <= i < j < |ids| ==> ids[i] != ids[j]
  }

  function SlotOf(h: Heap, u: Id): int {
    if u in h && h[u].body.Open? then h[u].body.slot else -1
  }

  predicate IsThread(h: Heap, o: Id) {
    o in h && h[o].body.Thread?
  }

  /** The open list of a thread holds its own open upvalues, strictly
      descending in the slot: at most one per slot. */
  ghost predicate OpenList(h: Heap, t: Id, open: seq<Id>) {
    && (forall u :: u in open ==> u in h && h[u].body.Open? && h[u].body.thread == t)
    && (forall i, j :: 0 <= i < j < |open| ==> SlotOf(h, open[i]) > SlotOf(h, open[j]))
  }

  ghost predicate OpenAt(h: Heap, u: Id) {
    && u in h && h[u].body.Open? && IsThread(h, h[u].body.thread)
    && var b := h[h[u].body.thread].body; h[u].body.slot < |b.stack| && u in b.open
  }

  /** The open upvalues are exactly what the lists of the threads hold. */
  ghost predicate OpenOk(h: Heap) {
    && (forall u :: u in h && h[u].body.Open? ==> OpenAt(h, u))
    && (forall t :: IsThread(h, t) ==> OpenList(h, t, h[t].body.open))
  }

  ghost predicate UvOk(h: Heap, uvhead: seq<Id>) {
    forall u :: u in uvhead <==> u in h && h[u].body.Open?
  }

  /** rootgc links every object that is neither a string nor an open upvalue,
      apart from one that is being unlinked. */
  ghost predicate RootgcOk(h: Heap, rootgc: seq<Id>, lost: set<Id>) {
    && Distinct(rootgc)
    && forall o :: o in rootgc <==> o in h && !h[o].body.Str? && !h[o].body.Open? && o !in lost
  }

  ghost predicate AllWhite(h: Heap, white: bool) {
    forall o :: o in h ==> h[o].color == White(white)
  }

  ghost predicate NoDead(h: Heap, white: bool) {
    forall o :: o in h ==> h[o].color != White(!white)
  }

  /** The tricolour invariant.  Threads and open upvalues change without a
      barrier, so a marked thread must still be on a list and open upvalues
      carry no promise; every other marked object is on a list or settled. */
  ghost predicate TriColor(t: Tracer) {
    && GrayOk(t.heap, t.gray) && GrayOk(t.heap, t.again)
    && (forall x :: x in t.gray ==> x !in t.again)
    && KindsOk(t.heap) && ListedOrSettled(t.heap, t.gray, t.again)
  }

  ghost predicate ListedOrSettled(h: Heap, gray: seq<Id>, again: seq<Id>) {
    forall o :: Marked(h, o) ==>
      o in gray || o in again || h[o].body.Str? || h[o].body.Open? || (h[o].color.Black? && Traced(h, o))
  }

  ghost predicate WhiteAgain(h: Heap, white: bool, o: Id) {
    && o in h && h[o].color == White(white)
    && (h[o].body.Thread? ==> forall u :: u in h[o].body.open ==> u in h && h[u].color == White(white))
  }

  /** The first n buckets are white again. */
  ghost predicate SweptStrings(h: Heap, white: bool, strt: seq<seq<Id>>, n: nat) {
    forall i, o :: 0 <= i < n && i < |strt| && o in strt[i] ==> o in h && h[o].color == White(white)
  }

  ghost predicate SweptRoots(h: Heap, white: bool, rootgc: seq<Id>, n: nat) {
    forall i :: 0 <= i < n && i < |rootgc| ==> WhiteAgain(h, white, rootgc[i])
  }

  ghost predicate PhaseOk(s: State) {
    match s.phase
    case Pause => AllWhite(s.heap, s.white)
    case Finalize => AllWhite(s.heap, s.white)
    case Propagate =>
      && TriColor(Tracer(s.heap, s.gray, s.grayagain)) && NoDead(s.heap, s.white)
      && Marked(s.heap, s.main) && Marked(s.heap, s.registry)
    case SweepString => s.sweepstr < |s.strt| && s.sweepgc == 0 && SweptStrings(s.heap, s.white, s.strt, s.sweepstr)
    case Sweep =>
      && s.sweepgc <= |s.rootgc| && SweptStrings(s.heap, s.white, s.strt, |s.strt|)
      && SweptRoots(s.heap, s.white, s.rootgc, s.sweepgc)
  }

  /** Interning: a string sits once in the bucket of its hash, and no content
      has two strings. */
  ghost predicate StrOk(h: Heap, strt: seq<seq<Id>>, hash: string -> nat) {
    && |strt| > 0
    && (forall i, o :: 0 <= i < |strt| && o in strt[i] ==> IsStr(h, o) && Bucket(h, o, hash, |strt|) == i)
    && (forall o :: IsStr(h, o) ==> o in strt[Bucket(h, o, hash, |strt|)])
    && (forall i :: 0 <= i < |strt| ==> Distinct(strt[i]))
    && OnePerContent(h)
  }

  ghost predicate OnePerContent(h: Heap) {
    forall a, b :: IsStr(h, a) && IsStr(h, b) && h[a].body == h[b].body ==> a == b
  }

  predicate IsStr(h: Heap, o: Id) {
    o in h && h[o].body.Str?
  }

  function Bucket(h: Heap, o: Id, hash: string -> nat, n: nat): (i: nat)
    requires IsStr(h, o) && n > 0
    ensures i < n
  {
    hash(h[o].body.content) % n
  }

  /** The permanent objects are there; only strings and the main thread are
      fixed; identities above `next` are unused. */
  ghost predicate Anchors(h: Heap, main: Id, registry: Id, running: Id, next: Id) {
    && IsThread(h, main) && h[main].fixed && IsThread(h, running)
    && registry in h && h[registry].body.Table?
    && (forall o :: o in h && h[o].fixed ==> h[o].body.Str? || o == main)
    && (forall o :: o in h ==> o < next)
  }

  /** The lists and tables agree with the heap. */
  ghost predicate Shape(s: State, lost: set<Id>) {
    && Anchors(s.heap, s.main, s.registry, s.running, s.next)
    && OpenOk(s.heap) && UvOk(s.heap, s.uvhead) && RootgcOk(s.heap, s.rootgc, lost)
    && StrOk(s.heap, s.strt, s.hash)
  }

  ghost predicate Live(s: State) {
    ClosedLive(s.heap, s.white) && RootsLive(s.heap, s.white, Roots(s))
  }

  ghost predicate InvBut(s: State, lost: set<Id>) {
    Live(s) && Shape(s, lost) && KindsOk(s.heap) && PhaseOk(s)
  }

  ghost predicate Inv(s: State) {
    InvBut(s, {})
  }

  // ------------------------------------------------------ first consequence

  lemma {:induction false} PathStays(h: Heap, p: seq<Id>, live: set<Id>)
    requires Path(h, p) && p[0] in live && live <= h.Keys && ClosedSet(h, live)
    ensures p[|p| - 1] in live
  {
    PathKids(h, p);
    PathKids(h, p[1..]);
    if |p| > 1 {
      assert p[0] in h && p[1] in Kids(h, p[0]);
      assert p[1] in live;
      assert Path(h, p[1..]) by {
        forall i | 0 <= i < |p[1..]| - 1 ensures p[1..][i] in h && p[1..][i + 1] in Kids(h, p[1..][i]) {
          assert p[i + 1] in h && p[i + 2] in Kids(h, p[i + 1]);
        }
      }
      PathStays(h, p[1..], live);
    }
  }

  /** The heart of safety: what can be reached exists and is not dead. */
  lemma ReachLive(s: State, o: Id)
    requires Live(s) && Reach(s, o)
    ensures NonDead(s.heap, s.white, o)
  {
    var p :| Path(s.heap, p) && p[0] in Roots(s) && p[|p| - 1] == o;
    var live := set x | x in s.heap && NonDead(s.heap, s.white, x);
    forall x, k | x in live && x in s.heap && k in Kids(s.heap, x) ensures k in live {
      assert NonDead(s.heap, s.white, x);
      assert NonDead(s.heap, s.white, k);
    }
    PathStays(s.heap, p, live);
  }

  lemma ReachRoot(s: State, o: Id)
    requires o in Roots(s)
    ensures Reach(s, o)
  {
    assert Path(s.heap, [o]) && [o][0] in Roots(s);
  }

  lemma ReachKid(s: State, o: Id, k: Id)
    requires Reach(s, o) && o in s.heap && k in Kids(s.heap, o)
    ensures Reach(s, k)
  {
    var p :| Path(s.heap, p) && p[0] in Roots(s) && p[|p| - 1] == o;
    var q := p + [k];
    PathKids(s.heap, p);
    PathKids(s.heap, q);
    assert Path(s.heap, q) && q[0] in Roots(s) && q[|q| - 1] == k;
  }
}
