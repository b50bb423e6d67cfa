/** exp2reg: the lists of an expression are closed, on the code behind it when
    its jumps bring their value, on two LOADBOOLs when they do not. */
module CodeClose {
  import opened CodeVm
  import opened CodeRun
  import opened CodeLists
  import opened CodeSem
  import opened CodeFlow
  import opened CodeEmit
  import opened CodeLink
  import opened CodeChange

  /** How the value gets loaded: no jump needs one; an expression in its register
      jumps over the loads; a comparison falls into them. */
  datatype Loads = NoLoads | JumpOver | FallIn

  function Tail(reg: nat): seq<Instr> {
    [LOADBOOL(reg, false, true), LOADBOOL(reg, true, false)]
  }

  /** The code with the loads, before the lists are closed. */
  function Loaded(s: Fs, how: Loads, reg: nat): seq<Instr> {
    match how
    case NoLoads => s.code
    case JumpOver => Joined(s.code + [JMP(NO_JUMP)], [|s.code|], s.pend) + Tail(reg)
    case FallIn => s.code + Tail(reg)
  }

  function LoadedPend(s: Fs, how: Loads): seq<nat> {
    if how == JumpOver then [|s.code|] + s.pend else s.pend
  }

  function Closed(s: Fs, l: Lists, how: Loads, reg: nat): Fs {
    var c := Loaded(s, how, reg);
    s.(code := Retarget(Retarget(c, l.f, |c|, reg, |c| - 2), l.t, |c|, reg, |c| - 1),
       jpc := Head(LoadedPend(s, how)), pend := LoadedPend(s, how), last := |c|)
  }

  lemma LoadedAt(s: Fs, how: Loads, reg: nat)
    requires ListIs(s.code, s.jpc, s.pend)
    ensures var c := Loaded(s, how, reg);
            && |c| == |s.code| + (match how case NoLoads => 0 case JumpOver => 3 case FallIn => 2)
            && (forall p :: 0 <= p < |s.code| ==> c[p] == s.code[p])
            && (how != NoLoads ==> c[|c| - 2] == LOADBOOL(reg, false, true) && c[|c| - 1] == LOADBOOL(reg, true, false))
            && (how == JumpOver ==> c[|s.code|].JMP?)
  {
  }

  /** What closing the lists makes of each instruction. */
  lemma ClosedAt(c: seq<Instr>, f: seq<nat>, t: seq<nat>, vt: int, reg: nat, pf: int, pt: int, p: nat)
    requires p < |c| && (forall j :: j in f ==> j !in t) && (forall j :: j in t || j in f ==> j < |c| && c[j].JMP?)
    ensures var c' := Retarget(Retarget(c, f, vt, reg, pf), t, vt, reg, pt);
            && |c'| == |c|
            && c'[p] == (if p in t then JMP((if HasTestset(c, p) then vt else pt) - (p + 1))
                         else if p in f then JMP((if HasTestset(c, p) then vt else pf) - (p + 1))
                         else if (p + 1 in t || p + 1 in f) && c[p].TESTSET? then SetReg(c[p], reg)
                         else c[p])
  {
    var c1 := Retarget(c, f, vt, reg, pf);
    assert p in t ==> HasTestset(c1, p) == HasTestset(c, p);
  }

  /** Closing is possible: the expression's jumps are where they belong. */
  ghost predicate Closable(s: Fs, outer: set<nat>, k: Kind, l: Lists, how: Loads, reg: nat) {
    && Linked(s, outer, Heads(k, l), l) && Plain(k) && Opens(s, Open(s, outer, k, l)) && reg < NO_REG
    && (how == FallIn ==> s.pend == [])
    && (how == NoLoads ==> forall j :: j in l.t || j in l.f ==> HasTestset(s.code, j))
  }

  const None := Lists([], [])

  lemma ClosedSame(s: Fs, outer: set<nat>, k: Kind, l: Lists, how: Loads, reg: nat, p: nat)
    requires Closable(s, outer, k, l, how, reg) && p < |Loaded(s, how, reg)|
    ensures var c := Loaded(s, how, reg); var c' := Closed(s, l, how, reg).code;
            && |c'| == |c|
            && c'[p] == (if p in l.t then JMP((if HasTestset(c, p) then |c| else |c| - 1) - (p + 1))
                         else if p in l.f then JMP((if HasTestset(c, p) then |c| else |c| - 2) - (p + 1))
                         else if (p + 1 in l.t || p + 1 in l.f) && c[p].TESTSET? then SetReg(c[p], reg)
                         else c[p])
  {
    hide Retarget, Loaded, HasTestset, SetReg, Linked, ListIs, Open;
    var c := Loaded(s, how, reg);
    LinkedList(s, outer, Heads(k, l), l);
    LoadedAt(s, how, reg);
    ListsApart(s, outer, Heads(k, l), l);
    forall j | j in l.t || j in l.f ensures j < |c| && c[j].JMP? { LoadedOpen(s, outer, k, l, how, reg, j); }
    ClosedAt(c, l.f, l.t, |c|, reg, |c| - 2, |c| - 1, p);
  }

  lemma LoadedOpen(s: Fs, outer: set<nat>, k: Kind, l: Lists, how: Loads, reg: nat, p: nat)
    requires Closable(s, outer, k, l, how, reg)
    ensures var open, open' := Open(s, outer, k, l), Open(Closed(s, l, how, reg), outer, VNonreloc(reg), None);
            && (p in open' <==> (p in open && p !in l.t && p !in l.f) || (how == JumpOver && p == |s.code|))
            && (p in l.t || p in l.f || p in s.pend ==> p in open)
  {
    hide Retarget, Loaded, ListIs, Opens;
    ElemsAppend([|s.code|], s.pend);
    assert p in l.t ==> p in Elems(l.t);
    assert p in l.f ==> p in Elems(l.f);
  }

  lemma ClosedPatched(s: Fs, outer: set<nat>, k: Kind, l: Lists, how: Loads, reg: nat, p: nat)
    requires Closable(s, outer, k, l, how, reg) && p < |s.code| <= |Closed(s, l, how, reg).code|
    ensures Patched(s.code, Open(s, outer, k, l), Closed(s, l, how, reg).code,
                    Open(Closed(s, l, how, reg), outer, VNonreloc(reg), None), |s.code|, p)
  {
    hide Retarget, Loaded, Open, Linked, ListIs, Closed;
    LinkedList(s, outer, Heads(k, l), l);
    LoadedAt(s, how, reg);
    ClosedSame(s, outer, k, l, how, reg, p);
    LoadedOpen(s, outer, k, l, how, reg, p);
    LoadedOpen(s, outer, k, l, how, reg, p + 1);
    LoadedTest(s, outer, k, l, how, reg, p);
  }

  lemma LinkedList(s: Fs, outer: set<nat>, e: Exp, l: Lists)
    requires Linked(s, outer, e, l)
    ensures ListIs(s.code, s.jpc, s.pend)
  {
  }

  lemma LoadedTest(s: Fs, outer: set<nat>, k: Kind, l: Lists, how: Loads, reg: nat, p: nat)
    requires Closable(s, outer, k, l, how, reg) && p <= |s.code|
    ensures p < |s.code| || how != JumpOver ==> HasTestset(Loaded(s, how, reg), p) == HasTestset(s.code, p)
    ensures HasTestset(s.code, p) ==> Loaded(s, how, reg)[p - 1] == s.code[p - 1]
  {
    hide Loaded;
    LoadedAt(s, how, reg);
  }

  lemma ClosedRelinked(s: Fs, outer: set<nat>, k: Kind, l: Lists, how: Loads, reg: nat)
    requires Closable(s, outer, k, l, how, reg)
    ensures Relinked(s.code, Open(s, outer, k, l), Closed(s, l, how, reg).code,
                     Open(Closed(s, l, how, reg), outer, VNonreloc(reg), None), |s.code|)
    ensures |Closed(s, l, how, reg).code| == |Loaded(s, how, reg)| >= |s.code|
  {
    hide Retarget, Loaded, Open, Linked, ListIs, Patched, Opens;
    LinkedList(s, outer, Heads(k, l), l);
    LoadedAt(s, how, reg);
    assert |Closed(s, l, how, reg).code| == |Loaded(s, how, reg)|;
    forall p | 0 <= p < |s.code|
      ensures Patched(s.code, Open(s, outer, k, l), Closed(s, l, how, reg).code,
                      Open(Closed(s, l, how, reg), outer, VNonreloc(reg), None), |s.code|, p)
    {
      ClosedPatched(s, outer, k, l, how, reg, p);
    }
  }

  // ----------------------------------------------------------- where runs go

  function Landing(c: seq<Instr>, l: Lists, how: Loads, reg: nat, b: Out): Out
    requires reg < 256
  {
    match b
    case Fall(r) => if how == FallIn then Fall(r[reg := Bool(false)]) else b
    case Exit(j, _, r) =>
      if j in l.t then Fall(r[reg := ExitVal(c, j, r, true)])
      else if j in l.f then Fall(r[reg := ExitVal(c, j, r, false)])
      else b
    case _ => b
  }

  /** The two loads do what they say. */
  lemma RunLoads(c: seq<Instr>, open: set<nat>, env: Env, reg: nat, r: Regs)
    requires |c| >= 2 && reg < 256 && c[|c| - 2] == LOADBOOL(reg, false, true) && c[|c| - 1] == LOADBOOL(reg, true, false)
    ensures Run(c, open, env, |c| - 2, r, |c|) == Fall(r[reg := Bool(false)])
    ensures Run(c, open, env, |c| - 1, r, |c|) == Fall(r[reg := Bool(true)])
  {
    RunDone(c, open, env, |c|, r[reg := Bool(false)]);
    RunDone(c, open, env, |c|, r[reg := Bool(true)]);
  }

  lemma ClosedTail(s: Fs, outer: set<nat>, k: Kind, l: Lists, how: Loads, reg: nat)
    requires Closable(s, outer, k, l, how, reg)
    ensures var c := Closed(s, l, how, reg).code;
            && (how != NoLoads ==> |c| >= 2 && c[|c| - 2] == LOADBOOL(reg, false, true) && c[|c| - 1] == LOADBOOL(reg, true, false))
            && (how == JumpOver ==> |s.code| < |c| && c[|s.code|].JMP? && |s.code| in Open(Closed(s, l, how, reg), outer, VNonreloc(reg), None))
            && (how == FallIn ==> |c| == |s.code| + 2) && (how == NoLoads ==> |c| == |s.code|)
  {
    hide Retarget, Loaded, Linked, ListIs, Opens;
    LinkedList(s, outer, Heads(k, l), l);
    LoadedAt(s, how, reg);
    var n := |Loaded(s, how, reg)|;
    NotListed(s, outer, k, l, how, reg);
    if how != NoLoads {
      ClosedSame(s, outer, k, l, how, reg, n - 1);
      ClosedSame(s, outer, k, l, how, reg, n - 2);
      ClosedSame(s, outer, k, l, how, reg, |s.code|);
      LoadedOpen(s, outer, k, l, how, reg, |s.code|);
    } else if n > 0 {
      ClosedSame(s, outer, k, l, how, reg, n - 1);
    }
  }

  lemma NotListed(s: Fs, outer: set<nat>, k: Kind, l: Lists, how: Loads, reg: nat)
    requires Closable(s, outer, k, l, how, reg)
    ensures forall p :: p >= |s.code| ==> p !in l.t && p !in l.f
  {
    forall p | p >= |s.code| ensures p !in l.t && p !in l.f { LoadedOpen(s, outer, k, l, how, reg, p); }
  }

  /** What the closed code does at a jump j of the lists: the target, and the
      instruction in front of it. */
  lemma JumpClosed(s: Fs, outer: set<nat>, k: Kind, l: Lists, how: Loads, reg: nat, j: nat)
    requires Closable(s, outer, k, l, how, reg) && (j in l.t || j in l.f) && j < |s.code|
    ensures var c' := Closed(s, l, how, reg).code;
            && j < |s.code| <= |c'| && j !in Open(Closed(s, l, how, reg), outer, VNonreloc(reg), None)
            && c'[j] == JMP((if HasTestset(s.code, j) then |c'| else if j in l.t then |c'| - 1 else |c'| - 2) - (j + 1))
            && (HasTestset(s.code, j) ==> c'[j - 1] == SetReg(s.code[j - 1], reg))
            && (!HasTestset(s.code, j) ==> !HasTestset(c', j) && how != NoLoads)
  {
    hide Retarget, Loaded, Open, Linked, ListIs, Closed, Opens, SetReg;
    LinkedList(s, outer, Heads(k, l), l);
    LoadedAt(s, how, reg);
    ClosedSame(s, outer, k, l, how, reg, j);
    LoadedOpen(s, outer, k, l, how, reg, j);
    LoadedTest(s, outer, k, l, how, reg, j);
    if j > 0 {
      ClosedSame(s, outer, k, l, how, reg, j - 1);
      if HasTestset(s.code, j) { BeforeJump(s, outer, k, l, how, reg, j - 1); }
    }
  }

  lemma LandedSet(c: seq<Instr>, c': seq<Instr>, j: nat, reg: nat, r: Regs, sense: bool)
    requires HasTestset(c, j) && j <= |c'| && c[j - 1].b < 256 && reg < NO_REG && c'[j - 1] == SetReg(c[j - 1], reg)
    ensures Landed(c', j, true, r) == r[reg := ExitVal(c, j, r, sense)]
  {
  }

  /** A run that left by a jump j of the lists brings its value to the register. */
  lemma JumpLands(x: Ctx, s: Fs, outer: set<nat>, k: Kind, l: Lists, how: Loads, reg: nat, j: nat, r: Regs)
    requires Closable(s, outer, k, l, how, reg) && (j in l.t || j in l.f) && j < |s.code|
    requires HasTestset(s.code, j) ==> s.code[j - 1].b < 256
    ensures var s' := Closed(s, l, how, reg); var c' := s'.code; var open' := Open(s', outer, VNonreloc(reg), None);
            && j < |c'| && c'[j].JMP? && j !in open'
            && Jump(c', open', EnvOf(x, s'), j, true, Landed(c', j, true, r), |c'|) ==
                 Fall(r[reg := ExitVal(s.code, j, r, j in l.t)])
  {
    hide Open, Linked, ListIs, Closed, Opens, SetReg, Run;
    var s' := Closed(s, l, how, reg);
    var open' := Open(s', outer, VNonreloc(reg), None);
    var env := EnvOf(x, s');
    JumpClosed(s, outer, k, l, how, reg, j);
    ClosedTail(s, outer, k, l, how, reg);
    if HasTestset(s.code, j) {
      LandedSet(s.code, s'.code, j, reg, r, j in l.t);
      RunDone(s'.code, open', env, |s'.code|, Landed(s'.code, j, true, r));
    } else {
      assert Landed(s'.code, j, true, r) == r;
      RunLoads(s'.code, open', env, reg, r);
    }
  }

  lemma BeforeJump(s: Fs, outer: set<nat>, k: Kind, l: Lists, how: Loads, reg: nat, p: nat)
    requires Closable(s, outer, k, l, how, reg) && p < |s.code| && s.code[p].TESTSET?
    ensures p !in l.t && p !in l.f
  {
    LoadedOpen(s, outer, k, l, how, reg, p);
  }

  lemma ClosedFlow(x: Ctx, s: Fs, outer: set<nat>, k: Kind, l: Lists, how: Loads, reg: nat, r0: Regs)
    requires Closable(s, outer, k, l, how, reg) && x.origin <= |s.code|
    requires Sane(s.code, l, Flow(x, s, outer, k, l, r0))
    ensures Flow(x, Closed(s, l, how, reg), outer, VNonreloc(reg), None, r0) ==
              Landing(s.code, l, how, reg, Flow(x, s, outer, k, l, r0))
  {
    hide Closed, Open, Opens, Linked, Relinked, HasTestset, Run, Jump, ExitVal;
    var s' := Closed(s, l, how, reg);
    var open, open' := Open(s, outer, k, l), Open(s', outer, VNonreloc(reg), None);
    var env, env' := EnvOf(x, s), EnvOf(x, s');
    var o := RunTo(x, s, open, r0, |s.code|);
    ClosedRelinked(s, outer, k, l, how, reg);
    ClosedKs(s, l, how, reg);
    RunRelinked(s.code, open, env, s'.code, open', env', x.origin, r0, |s.code|, |s'.code|);
    RunExit(s.code, open, env, x.origin, r0, |s.code|);
    match o
    case Fall(r) => FallLands(x, s, outer, k, l, how, reg, r);
    case Exit(j, via, r) =>
      LoadedOpen(s, outer, k, l, how, reg, j);
      ListedNotPending(s, outer, Heads(k, l), l, j);
      if j in l.t || j in l.f {
        ExitTest(s.code, j);
        JumpLands(x, s, outer, k, l, how, reg, j, r);
      }
    case _ =>
  }

  lemma ExitTest(c: seq<Instr>, j: nat)
    ensures HasTestset(c, j) ==> c[j - 1].TESTSET?
  {
  }

  lemma ListedNotPending(s: Fs, outer: set<nat>, e: Exp, l: Lists, j: nat)
    requires Linked(s, outer, e, l)
    ensures j in l.t || j in l.f ==> j !in s.pend
  {
    assert j in l.t ==> j in Elems(l.t);
    assert j in l.f ==> j in Elems(l.f);
    assert j in s.pend ==> j in Elems(s.pend);
  }

  lemma ClosedKs(s: Fs, l: Lists, how: Loads, reg: nat)
    ensures Closed(s, l, how, reg).ks == s.ks && Closed(s, l, how, reg).pend == LoadedPend(s, how)
  {
  }

  lemma FallLands(x: Ctx, s: Fs, outer: set<nat>, k: Kind, l: Lists, how: Loads, reg: nat, r: Regs)
    requires Closable(s, outer, k, l, how, reg)
    ensures var s' := Closed(s, l, how, reg); var open' := Open(s', outer, VNonreloc(reg), None);
            && |s.code| <= |s'.code|
            && Settled(Run(s'.code, open', EnvOf(x, s'), |s.code|, r, |s'.code|), s'.pend) ==
                 Fall(if how == FallIn then r[reg := Bool(false)] else r)
  {
    hide Closed, Open, Opens, Linked, HasTestset;
    var s' := Closed(s, l, how, reg);
    var open' := Open(s', outer, VNonreloc(reg), None);
    ClosedTail(s, outer, k, l, how, reg);
    ClosedKs(s, l, how, reg);
    if how == FallIn { RunLoads(s'.code, open', EnvOf(x, s'), reg, r); }
    if how == NoLoads { RunDone(s'.code, open', EnvOf(x, s'), |s.code|, r); }
  }

  // ------------------------------------------------------- the state after

  lemma ClosedKeeps(s: Fs, outer: set<nat>, k: Kind, l: Lists, how: Loads, reg: nat)
    requires Closable(s, outer, k, l, how, reg)
    ensures SameJumps(s.code, Closed(s, l, how, reg).code, outer + Elems(s.pend))
  {
    hide Retarget, Loaded, ListIs, Closed;
    var c' := Closed(s, l, how, reg).code;
    LinkedList(s, outer, Heads(k, l), l);
    LoadedAt(s, how, reg);
    forall j | j in outer + Elems(s.pend) && j < |s.code| ensures j < |c'| && c'[j] == s.code[j] && SameTest(s.code, c', j) {
      ClosedSame(s, outer, k, l, how, reg, j);
      ListedNotPending(s, outer, Heads(k, l), l, j);
      assert j in l.t ==> j in Elems(l.t);
      assert j in l.f ==> j in Elems(l.f);
      if j > 0 {
        ClosedSame(s, outer, k, l, how, reg, j - 1);
        if s.code[j - 1].TESTSET? { BeforeJump(s, outer, k, l, how, reg, j - 1); }
      }
    }
  }

  lemma ClosedPending(s: Fs, outer: set<nat>, k: Kind, l: Lists, how: Loads, reg: nat)
    requires Closable(s, outer, k, l, how, reg)
    ensures ListIs(Closed(s, l, how, reg).code, Head(LoadedPend(s, how)), LoadedPend(s, how))
  {
    hide Retarget, ListIs, SameJumps, Opens, HasTestset;
    var s' := Closed(s, l, how, reg);
    LinkedList(s, outer, Heads(k, l), l);
    LoadedAt(s, how, reg);
    ListIsHead(s.code, s.pend);
    ClosedKeeps(s, outer, k, l, how, reg);
    SameJumpsSub(s.code, s'.code, outer + Elems(s.pend), Elems(s.pend));
    SameJumpsList(s.code, s'.code, s.jpc, s.pend);
    if how == JumpOver {
      ClosedSame(s, outer, k, l, how, reg, |s.code|);
      NotListed(s, outer, k, l, how, reg);
      assert s'.code[|s.code|] == Loaded(s, how, reg)[|s.code|];
      assert Loaded(s, how, reg)[|s.code|] == JMP(if s.pend == [] then NO_JUMP else Head(s.pend) - (|s.code| + 1));
      ListCons(s.code, s'.code, s.pend);
    }
  }

  lemma DistinctCons(n: nat, q: seq<nat>)
    requires Distinct(q) && forall j :: j in q ==> j < n
    ensures Distinct([n] + q)
  {
    var s := [n] + q;
    forall i, j | 0 <= i < j < |s| ensures s[i] != s[j] {
      assert s[j] == q[j - 1] && q[j - 1] in q;
    }
  }

  lemma ListCons(c: seq<Instr>, c': seq<Instr>, q: seq<nat>)
    requires ListIs(c', Head(q), q) && ListIs(c, Head(q), q) && |c| < |c'|
    requires c'[|c|] == JMP(if q == [] then NO_JUMP else Head(q) - (|c| + 1))
    ensures ListIs(c', |c|, [|c|] + q)
  {
    hide Distinct;
    var s := [|c|] + q;
    forall j | j in q ensures j < |c| { ListJump(c, Head(q), q, j); }
    DistinctCons(|c|, q);
    forall k | 0 <= k < |s| ensures s[k] < |c'| && c'[s[k]] == JMP(LinkOf(s, k)) {
      if k > 0 {
        assert s[k] == q[k - 1] && LinkOf(s, k) == LinkOf(q, k - 1);
        assert c'[q[k - 1]] == JMP(LinkOf(q, k - 1));
      }
    }
  }

  lemma ClosedLinked(s: Fs, outer: set<nat>, k: Kind, l: Lists, how: Loads, reg: nat)
    requires Closable(s, outer, k, l, how, reg)
    ensures Linked(Closed(s, l, how, reg), outer, Heads(VNonreloc(reg), None), None)
    ensures SameJumps(s.code, Closed(s, l, how, reg).code, outer)
  {
    hide Retarget, Loaded, ListIs, HasTestset, SameTest, Opens;
    var s' := Closed(s, l, how, reg);
    ClosedPending(s, outer, k, l, how, reg);
    ClosedKeeps(s, outer, k, l, how, reg);
    ElemsAppend([|s.code|], s.pend);
    ListEmpty(s'.code);
    ClosedRelinked(s, outer, k, l, how, reg);
  }

  /** All runs of the expression, by whichever way, arrive with its value. */
  lemma CloseLists(x: Ctx, s: Fs, outer: set<nat>, k: Kind, l: Lists, how: Loads, reg: nat)
    requires Ok(x, s, outer, Heads(k, l), l) && Plain(k) && reg < NO_REG && (reg < x.nactvar || reg == s.free - 1)
    requires how == FallIn ==> s.pend == []
    requires how == NoLoads ==> forall j :: j in l.t || j in l.f ==> HasTestset(s.code, j)
    ensures var s' := Closed(s, l, how, reg);
            && Ok(x, s', outer, Heads(VNonreloc(reg), None), None)
            && SameJumps(s.code, s'.code, outer)
            && forall r0: Regs :: Clean(x, r0) ==>
                 Flow(x, s', outer, VNonreloc(reg), None, r0) == Landing(s.code, l, how, reg, Flow(x, s, outer, k, l, r0))
  {
    hide Linked, Flow, Clean, Open, RunTo, ExitVal, SameJumps, HasTestset, Retarget, Loaded, Opens, Landing;
    var s' := Closed(s, l, how, reg);
    LinkedOpens(s, outer, Heads(k, l), l, x);
    ClosedLinked(s, outer, k, l, how, reg);
    ClosedRelinked(s, outer, k, l, how, reg);
    forall r0: Regs | Clean(x, r0)
      ensures Flow(x, s', outer, VNonreloc(reg), None, r0) == Landing(s.code, l, how, reg, Flow(x, s, outer, k, l, r0))
      ensures Sane(s'.code, None, Flow(x, s', outer, VNonreloc(reg), None, r0))
    {
      ClosedFlow(x, s, outer, k, l, how, reg, r0);
      LandingNot(s.code, l, how, reg, Flow(x, s, outer, k, l, r0));
    }
  }

  lemma LandingNot(c: seq<Instr>, l: Lists, how: Loads, reg: nat, b: Out)
    requires reg < 256 && Sane(c, l, b)
    ensures !Landing(c, l, how, reg, b).Stuck?
  {
  }
}
