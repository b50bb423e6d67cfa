/** Safety over every interleaving: nothing reachable is ever freed. */
module GcSafety {
  import opened GcHeap
  import opened GcState
  import opened GcInv
  import opened GcClose
  import opened GcSweep
  import opened GcCycle
  import opened GcMutator

  /** Every enabled operation, of the program or the collector, keeps the
      invariant. */
  lemma ApplyKeeps(s: State, op: Op)
    requires Inv(s) && Enabled(s, op)
    ensures Inv(Apply(s, op))
  {
    hide Inv, InvBut, SingleStep, DoNewObj, DoIntern, DoFindUpval, DoStore, DoSetStack, DoSetUpval, CloseFrom, ResizeStrings;
    match op
    case NewObj(b) => NewObjKeeps(s, b);
    case Intern(content) => InternKeeps(s, content);
    case FindUpval(t, slot) => FindUpvalKeeps(s, t, slot);
    case Store(o, refs, v) => StoreKeeps(s, o, refs, v);
    case SetStack(t, refs, stack) => SetStackKeeps(s, t, refs, stack);
    case SetUpval(u, v) => if s.heap[u].body.Open? { SetOpenUpvalKeeps(s, u, v); } else { SetClosedUpvalKeeps(s, u, v); }
    case Close(t, level) => CloseKeeps(s, t, level);
    case SetMeta(mts) => SetMetaKeeps(s, mts);
    case Resume(t) => ResumeKeeps(s, t);
    case Release(kept) => ReleaseKeeps(s, kept);
    case Fix(o) => FixKeeps(s, o);
    case Resize(n) => ResizeKeeps(s, n);
    case Step => SingleStepKeeps(s);
  }

  lemma CloseKeeps(s: State, t: Id, level: nat)
    requires Inv(s)
    ensures Inv(CloseFrom(s, t, level))
  {
    hide InvBut, CloseFrom;
    CloseFromKeeps(s, t, level, {});
  }

  // ------------------------------------------------------------ what is freed

  lemma CloseOneFreed(s: State, t: Id)
    requires FirstOpenAbove(s.heap, t, 0)
    ensures forall o :: o in s.heap && o !in CloseOne(s, t).heap ==> IsDead(s.heap, s.white, o)
    ensures CloseOne(s, t).heap.Keys <= s.heap.Keys && CloseOne(s, t).white == s.white && CloseOne(s, t).phase == s.phase
  {
  }

  /** Mark phase: luaF_close frees nothing. */
  lemma {:induction false} CloseFromMarkPhase(s: State, t: Id, level: nat)
    requires Inv(s) && s.phase.Propagate?
    ensures CloseFrom(s, t, level).heap.Keys == s.heap.Keys
    decreases OpenCount(s.heap, t)
  {
    if FirstOpenAbove(s.heap, t, level) {
      CloseOneShrinks(s, t);
      CloseOneFreed(s, t);
      NoDeadInMarkPhase(s);
      CloseMarkStep(s, t);
      hide Inv, InvBut, CloseOne;
      CloseFromMarkPhase(CloseOne(s, t), t, level);
    }
  }

  lemma NoDeadInMarkPhase(s: State)
    requires Inv(s) && s.phase.Propagate?
    ensures NoDead(s.heap, s.white)
  {
  }

  lemma CloseMarkStep(s: State, t: Id)
    requires Inv(s) && FirstOpenAbove(s.heap, t, 0)
    ensures Inv(CloseOne(s, t))
  {
    hide InvBut, CloseOne, FirstOpenAbove;
    CloseOneKeeps(s, t, {});
  }

  lemma CloseFreed(s: State, t: Id, level: nat)
    requires Inv(s)
    ensures forall o :: o in s.heap && o !in CloseFrom(s, t, level).heap ==> IsDead(s.heap, s.white, o)
  {
    if s.phase.Propagate? {
      CloseFromMarkPhase(s, t, level);
    } else if IsThread(s.heap, t) {
      CloseFromSheds(s, t, level, {});
    }
  }

  /** No operation frees an object that is not dead. */
  lemma ApplyFrees(s: State, op: Op)
    requires Inv(s) && Enabled(s, op)
    ensures forall o :: o in s.heap && o !in Apply(s, op).heap ==> IsDead(s.heap, s.white, o)
  {
    hide Inv, InvBut, CloseFrom, SingleStep, Kids;
    match op
    case Close(t, level) => CloseFreed(s, t, level);
    case Step => SingleStepKeeps(s);
    case _ => ProgramKeepsKeys(s, op);
  }

  lemma ProgramKeepsKeys(s: State, op: Op)
    requires Enabled(s, op) && !op.Close? && !op.Step?
    ensures s.heap.Keys <= Apply(s, op).heap.Keys
  {
    hide Reach, Access, Enabled, Kids;
    if op.Store? || op.SetUpval? { StoreKeepsKeys(s, op); } else { OtherKeepsKeys(s, op); }
  }

  lemma StoreKeepsKeys(s: State, op: Op)
    requires Enabled(s, op) && (op.Store? || op.SetUpval?)
    ensures s.heap.Keys <= Apply(s, op).heap.Keys
  {
    hide Reach, Access, Enabled, Kids;
  }

  lemma OtherKeepsKeys(s: State, op: Op)
    requires Enabled(s, op) && !op.Close? && !op.Step? && !op.Store? && !op.SetUpval?
    ensures s.heap.Keys <= Apply(s, op).heap.Keys
  {
    hide Reach, Access, Enabled, Kids;
  }

  // ------------------------------------------------------------------- runs

  /** Each operation is one the program may perform in the state it meets. */
  ghost predicate ValidRun(s: State, ops: seq<Op>)
    decreases |ops|
  {
    ops == [] || (Enabled(s, ops[0]) && ValidRun(Apply(s, ops[0]), ops[1..]))
  }

  ghost function After(s: State, ops: seq<Op>): State
    requires ValidRun(s, ops)
    decreases |ops|
  {
    if ops == [] then s else After(Apply(s, ops[0]), ops[1..])
  }

  /** The next operation leaves everything reachable in the heap. */
  ghost predicate SafeStep(s: State, op: Op)
    requires Enabled(s, op)
  {
    forall o :: Reach(s, o) ==> o in s.heap && !IsDead(s.heap, s.white, o) && o in Apply(s, op).heap
  }

  ghost predicate SafeRun(s: State, ops: seq<Op>)
    requires ValidRun(s, ops)
    decreases |ops|
  {
    ops == [] || (SafeStep(s, ops[0]) && SafeRun(Apply(s, ops[0]), ops[1..]))
  }

  lemma StepIsSafe(s: State, op: Op)
    requires Inv(s) && Enabled(s, op)
    ensures SafeStep(s, op)
  {
    hide Inv, InvBut, Apply, Enabled;
    ApplyFrees(s, op);
    forall o | Reach(s, o) ensures o in s.heap && !IsDead(s.heap, s.white, o) && o in Apply(s, op).heap {
      InvLive(s);
      ReachLive(s, o);
    }
  }

  lemma InvLive(s: State)
    requires Inv(s)
    ensures Live(s)
  {
  }

  /** Safety: over every interleaving of program and collector steps, in every
      phase, an object reachable from the roots is never freed. */
  lemma {:induction false} Safety(s: State, ops: seq<Op>)
    requires Inv(s) && ValidRun(s, ops)
    ensures SafeRun(s, ops) && Inv(After(s, ops))
    decreases |ops|
  {
    if ops != [] {
      hide Inv, InvBut, Apply, Enabled, SafeStep;
      StepIsSafe(s, ops[0]);
      ApplyKeeps(s, ops[0]);
      Safety(Apply(s, ops[0]), ops[1..]);
    }
  }

  /** Strings stay interned over every run: equal content is one object. */
  lemma InternedForever(s: State, ops: seq<Op>, a: Id, b: Id)
    requires Inv(s) && ValidRun(s, ops)
    ensures var e := After(s, ops);
            a in e.heap && b in e.heap && e.heap[a].body.Str? && e.heap[b].body.Str? ==>
              (e.heap[a].body.content == e.heap[b].body.content <==> a == b)
  {
    hide After, ValidRun, SafeRun, Inv, InvBut;
    Safety(s, ops);
    OneObject(After(s, ops), a, b);
  }

  lemma OneObject(s: State, a: Id, b: Id)
    requires Inv(s)
    ensures a in s.heap && b in s.heap && s.heap[a].body.Str? && s.heap[b].body.Str? ==>
              (s.heap[a].body.content == s.heap[b].body.content <==> a == b)
  {
    assert IsStr(s.heap, a) && IsStr(s.heap, b) && s.heap[a].body == s.heap[b].body ==> a == b;
  }

  // ---------------------------------------------------------- initial state

  /** The state when f_luaopen has made the tables: the main thread holds the
      globals, and the registry is a table of its own. */
  function Initial(hash: string -> nat): State {
    State(map[0 := Obj(Thread([1], [], []), White(false), true), 1 := Obj(Table([]), White(false), false),
              2 := Obj(Table([]), White(false), false)],
          3, false, Pause, [], [], [2, 1, 0], 0, NewTable(MINSTRTABSIZE), 0, hash, [], 0, 2, [], 0, {})
  }

  /** luaS_fix(luaS_new(...)): a name that is never collected. */
  ghost function FixName(s: State, name: string): State
    requires |s.strt| > 0
  {
    var t := DoIntern(s, name);
    t.(heap := map o | o in t.heap :: if t.heap[o].body == Str(name) then t.heap[o].(fixed := true) else t.heap[o], pinned := {})
  }

  /** The state that lua_newstate returns, with the names of events, reserved
      words and the memory error. */
  ghost function Opened(hash: string -> nat, names: seq<string>): (s: State)
    ensures |s.strt| > 0
  {
    if names == [] then Initial(hash)
    else
      var s := Opened(hash, names[..|names| - 1]);
      InternTable(s, names[|names| - 1]);
      FixName(s, names[|names| - 1])
  }

  lemma InternTable(s: State, content: string)
    requires |s.strt| > 0
    ensures |DoIntern(s, content).strt| > 0
  {
    hide Rehash;
  }

  lemma InitialKids(hash: string -> nat)
    ensures var s := Initial(hash); Kids(s.heap, 0) == [1] && Kids(s.heap, 1) == [] && Kids(s.heap, 2) == [] && Roots(s) == {0, 2}
  {
    var s := Initial(hash);
    assert Kids(s.heap, 0) == [1] && Kids(s.heap, 1) == [] && Kids(s.heap, 2) == [];
    assert Roots(s) == {0, 2};
  }

  lemma InitialLive(hash: string -> nat)
    ensures var s := Initial(hash); Live(s) && KindsOk(s.heap) && PhaseOk(s)
  {
    InitialKids(hash);
    hide Kids, Roots, Ids;
  }

  lemma InitialShape(hash: string -> nat)
    ensures Shape(Initial(hash), {})
  {
    hide Kids, Ids;
  }

  lemma InitialInv(hash: string -> nat)
    ensures Inv(Initial(hash))
  {
    InitialLive(hash);
    InitialShape(hash);
    hide Live, Shape, KindsOk, PhaseOk;
  }

  ghost predicate HasFixed(h: Heap, name: string) {
    exists o :: o in h && h[o].body == Str(name) && h[o].fixed
  }

  /** Interning leaves every object's contents and fixed bit, and there is then a
      string with the content. */
  lemma InternHeap(s: State, content: string)
    requires |s.strt| > 0 && Inv(s)
    ensures var h := DoIntern(s, content).heap;
            && (exists o :: o in h && h[o].body == Str(content))
            && forall o :: o in s.heap ==> o in h && h[o].body == s.heap[o].body && h[o].fixed == s.heap[o].fixed
  {
    hide InvBut, StrCount, Rehash;
    var t := DoIntern(s, content);
    var b := s.hash(content) % |s.strt|;
    var i := FindStr(s.heap, s.strt[b], content);
    var o := if i < |s.strt[b]| then s.strt[b][i] else s.next;
    NextIsNew(s);
    assert o in t.heap && t.heap[o].body == Str(content);
  }

  lemma NextIsNew(s: State)
    requires Inv(s)
    ensures s.next !in s.heap
  {
  }

  lemma FixNameKeeps(s: State, name: string)
    requires |s.strt| > 0 && Inv(s)
    ensures Inv(FixName(s, name)) && HasFixed(FixName(s, name).heap, name)
    ensures forall n :: HasFixed(s.heap, n) ==> HasFixed(FixName(s, name).heap, n)
  {
    hide Inv, InvBut, DoIntern;
    InternKeeps(s, name);
    InternHeap(s, name);
    var t, r := DoIntern(s, name), FixName(s, name);
    var o :| o in t.heap && t.heap[o].body == Str(name);
    forall a | a in t.heap && t.heap[a].body == Str(name) ensures a == o { OneObject(t, a, o); }
    var u := t.(heap := t.heap[o := t.heap[o].(fixed := true)]);
    assert r.heap == u.heap;
    FixKeeps(t, o);
    ReleaseKeeps(u, {});
    assert r == u.(pinned := {});
    assert r.heap[o].body == Str(name) && r.heap[o].fixed;
    forall n | HasFixed(s.heap, n) ensures HasFixed(r.heap, n) {
      var a :| a in s.heap && s.heap[a].body == Str(n) && s.heap[a].fixed;
      assert a in r.heap && r.heap[a].body == Str(n) && r.heap[a].fixed;
    }
  }

  /** A new state has the invariant, and all its names are fixed. */
  lemma {:induction false} InitialOk(hash: string -> nat, names: seq<string>)
    ensures Inv(Opened(hash, names)) && Opened(hash, names).pinned == {}
    ensures forall n :: n in names ==> HasFixed(Opened(hash, names).heap, n)
  {
    hide Inv, InvBut, DoIntern, HasFixed;
    if names == [] {
      InitialInv(hash);
    } else {
      var before, name := names[..|names| - 1], names[|names| - 1];
      InitialOk(hash, before);
      FixNameKeeps(Opened(hash, before), name);
      assert names == before + [name];
    }
  }
}
