/** What each operation on an expression does, and how such steps compose. */
module CodeSteps {
  import opened CodeVm
  import opened CodeLists
  import opened CodeSem
  import opened CodeFlow
  import opened CodeEmit
  import opened CodeLink
  import opened CodeChange
  import opened CodeStore
  import opened CodeClose

  ghost predicate SameTests(c: seq<Instr>, c': seq<Instr>, l: Lists) {
    forall j :: j in l.t || j in l.f ==> SameTest(c, c', j)
  }

  /** discharge2reg: a run that arrived has the value in the register. */
  predicate Placed(x: Ctx, s: Fs, k: Kind, reg: nat, b: Out, a: Out)
    requires reg < 256
  {
    if k.VJmp? || !b.Fall? then a == b
    else match HereRes(k, s.code, EnvOf(x, s), b.regs)
      case Val(v) => a == Fall(b.regs[reg := v])
      case Fails => false
  }

  ghost predicate Placing(x: Ctx, s: Fs, s': Fs, outer: set<nat>, k: Kind, k': Kind, l: Lists, reg: nat)
    requires reg < 256
  {
    && SameJumps(s.code, s'.code, outer) && SameTests(s.code, s'.code, l)
    && forall r0: Regs :: Clean(x, r0) ==>
         Placed(x, s, k, reg, Flow(x, s, outer, k, l, r0), Flow(x, s', outer, k', l, r0))
  }

  /** exp2reg. */
  ghost predicate Delivering(x: Ctx, s: Fs, s': Fs, outer: set<nat>, k: Kind, l: Lists, reg: nat) {
    && SameJumps(s.code, s'.code, outer)
    && forall r0: Regs :: Clean(x, r0) ==>
         Delivered(Carried(x, s, k, l, Flow(x, s, outer, k, l, r0)), Flow(x, s', outer, VNonreloc(reg), None, r0), reg)
  }

  /** exp2RK. */
  ghost predicate Holding(x: Ctx, s: Fs, s': Fs, outer: set<nat>, k: Kind, l: Lists, o: nat, base: nat) {
    && SameJumps(s.code, s'.code, outer)
    && forall r0: Regs :: Clean(x, r0) ==>
         Held(Carried(x, s, k, l, Flow(x, s, outer, k, l, r0)), Flow(x, s', outer, VNil, None, r0), s'.ks, o, base)
  }

  /** goiftrue, goiffalse. */
  ghost predicate Branching(x: Ctx, s: Fs, s': Fs, outer: set<nat>, k: Kind, l: Lists, q: seq<nat>, sense: bool, base: nat) {
    && SameJumps(s.code, s'.code, outer)
    && forall r0: Regs :: Clean(x, r0) ==>
         Branched(Carried(x, s, k, l, Flow(x, s, outer, k, l, r0)),
                  Flow(x, s', outer, VNil, With(None, !sense, q), r0), s'.code, q, sense, base)
  }

  /** codenot. */
  ghost predicate Negating(x: Ctx, s: Fs, s': Fs, outer: set<nat>, k: Kind, l: Lists, k': Kind, l': Lists, base: nat) {
    && SameJumps(s.code, s'.code, outer)
    && forall r0: Regs :: Clean(x, r0) ==>
         && Negated(Carried(x, s, k, l, Flow(x, s, outer, k, l, r0)), Carried(x, s', k', l', Flow(x, s', outer, k', l', r0)), base)
         && (!Flow(x, s, outer, k, l, r0).Fall? ==> Flow(x, s', outer, k', l', r0) == Flow(x, s, outer, k, l, r0))
  }

  /** A whole expression. */
  ghost predicate Computing(x: Ctx, s: Fs, s': Fs, outer: set<nat>, k: Kind, l: Lists, base: nat, e: Expr) {
    && SameJumps(s.code, s'.code, outer)
    && forall r0: Regs :: Clean(x, r0) ==>
         Computed(x, s', k, l, base, e, Flow(x, s, outer, VNil, None, r0), Flow(x, s', outer, k, l, r0))
  }

  // ---------------------------------------------------------- discharge2reg

  lemma NilsOne(r: Regs, reg: nat)
    requires reg < 256
    ensures SetNils(r, reg, reg) == r[reg := Nil]
  {
  }

  /** The instruction that puts a value of kind k into reg. */
  predicate Loads1(i: Instr, k: Kind, reg: nat, ks: seq<Value>) {
    match k
    case VNil => i == LOADNIL(reg, reg)
    case VTrue => i == LOADBOOL(reg, true, false)
    case VFalse => i == LOADBOOL(reg, false, false)
    case VK(n) => i == LOADK(reg, n)
    case VKNum(n) => i.LOADK? && i.a == reg && i.bx < |ks| && ks[i.bx] == Num(n)
    case VNonreloc(r) => i == MOVE(reg, r)
    case _ => false
  }

  lemma SameTestsOf(c: seq<Instr>, c': seq<Instr>, js: set<nat>, l: Lists)
    requires SameJumps(c, c', js) && Elems(l.t) + Elems(l.f) <= js && forall j :: j in js ==> j < |c|
    ensures SameTests(c, c', l)
  {
    forall j | j in l.t || j in l.f ensures SameTest(c, c', j) { assert j in Elems(l.t) + Elems(l.f); }
  }

  lemma PlaceEmit(x: Ctx, s: Fs, outer: set<nat>, e: Exp, l: Lists, i: Instr, reg: nat)
    requires Ok(x, s, outer, e, l) && reg < 256 && (reg < x.nactvar || reg == s.free - 1)
    requires Loads1(i, e.k, reg, s.ks) && x.nactvar <= MAXSTACK
    ensures Ok(x, Emit(s, [i]), outer, Exp(VNonreloc(reg), e.t, e.f), l)
    ensures Placing(x, s, Emit(s, [i]), outer, e.k, VNonreloc(reg), l, reg)
  {
    hide Linked, Flow, Flows, Clean, SameJumps, Nilable, Retarget, SetNils;
    var js := outer + Elems(l.t) + Elems(l.f);
    EmitPlain(x, s, outer, e, l, i, VNonreloc(reg));
    EmittedOpens(x, s, outer, e, l);
    SameTestsOf(s.code, Emit(s, [i]).code, js, l);
    SameJumpsSub(s.code, Emit(s, [i]).code, js, outer);
    forall r0: Regs | Clean(x, r0)
      ensures Placed(x, s, e.k, reg, Flow(x, s, outer, e.k, l, r0), Flow(x, Emit(s, [i]), outer, VNonreloc(reg), l, r0))
    {
      var b := Flow(x, s, outer, e.k, l, r0);
      if b.Fall? { NilsOne(b.regs, reg); }
    }
  }

  /** luaK_nil. */
  ghost predicate Clearing(x: Ctx, s: Fs, s': Fs, outer: set<nat>, k: Kind, l: Lists, from: nat, n: nat)
    requires n > 0
  {
    && SameJumps(s.code, s'.code, outer) && SameTests(s.code, s'.code, l)
    && forall r0: Regs :: Clean(x, r0) ==>
         var b := Flow(x, s, outer, k, l, r0);
         Flow(x, s', outer, k, l, r0) == if b.Fall? then Fall(SetNils(b.regs, from, from + n - 1)) else b
  }

  /** At the start of a function the registers are clear already. */
  lemma ClearStart(x: Ctx, s: Fs, outer: set<nat>, e: Exp, l: Lists, from: nat, n: nat)
    requires Ok(x, s, outer, e, l) && Plain(e.k) && s.code == [] && from >= x.nactvar && n > 0
    ensures Clearing(x, s, s, outer, e.k, l, from, n)
  {
    hide Linked, Sane, Open;
    forall r0: Regs | Clean(x, r0)
      ensures var b := Flow(x, s, outer, e.k, l, r0);
              Flow(x, s, outer, e.k, l, r0) == if b.Fall? then Fall(SetNils(b.regs, from, from + n - 1)) else b
    {
      RunDone(s.code, Open(s, outer, e.k, l), EnvOf(x, s), 0, r0);
      assert SetNils(r0, from, from + n - 1) == r0;
    }
  }

  lemma ClearMerge(x: Ctx, s: Fs, outer: set<nat>, e: Exp, l: Lists, from: nat, n: nat)
    requires Ok(x, s, outer, e, l) && Plain(e.k) && Mergeable(s, from) && n > 0
    ensures Ok(x, Merged(s, from, n), outer, e, l)
    ensures Clearing(x, s, Merged(s, from, n), outer, e.k, l, from, n)
  {
    hide Ok, Flow, Clean, SameJumps, SetNils, Merged, SameTest;
    MergeNils(x, s, outer, e, l, from, n);
  }

  lemma ClearEmit(x: Ctx, s: Fs, outer: set<nat>, e: Exp, l: Lists, from: nat, n: nat)
    requires Ok(x, s, outer, e, l) && Plain(e.k) && n > 0
    ensures var s' := Emit(s, [LOADNIL(from, from + n - 1)]);
            Ok(x, s', outer, e, l) && Clearing(x, s, s', outer, e.k, l, from, n)
  {
    hide Linked, Flow, Flows, Clean, SameJumps, Nilable, Retarget, SetNils, SameTest;
    var s' := Emit(s, [LOADNIL(from, from + n - 1)]);
    var js := outer + Elems(l.t) + Elems(l.f);
    EmitPlain(x, s, outer, e, l, LOADNIL(from, from + n - 1), e.k);
    EmittedOpens(x, s, outer, e, l);
    SameTestsOf(s.code, s'.code, js, l);
    SameJumpsSub(s.code, s'.code, js, outer);
  }

  lemma PlaceNil(x: Ctx, s: Fs, s': Fs, outer: set<nat>, e: Exp, l: Lists, reg: nat)
    requires e.k == VNil && reg < 256 && (reg < x.nactvar || reg == s'.free - 1)
    requires Ok(x, s', outer, e, l) && Clearing(x, s, s', outer, VNil, l, reg, 1)
    ensures Ok(x, s', outer, Exp(VNonreloc(reg), e.t, e.f), l)
    ensures Placing(x, s, s', outer, VNil, VNonreloc(reg), l, reg)
  {
    hide Linked, Flows, Clean, SameJumps, Nilable, SetNils, SameTests, Flow, KindOk;
    Bookkeeping(x, s', outer, e, l, s'.last, s'.free, VNonreloc(reg));
    assert s'.(last := s'.last, free := s'.free) == s';
    RegKind(x, s', reg);
    forall r0: Regs | Clean(x, r0)
      ensures Placed(x, s, VNil, reg, Flow(x, s, outer, VNil, l, r0), Flow(x, s', outer, VNonreloc(reg), l, r0))
    {
      var b := Flow(x, s, outer, VNil, l, r0);
      if b.Fall? { NilsOne(b.regs, reg); }
    }
  }

  lemma RegKind(x: Ctx, s: Fs, reg: nat)
    requires reg < x.nactvar || reg == s.free - 1
    ensures KindOk(x, s, VNonreloc(reg))
  {
  }

  lemma PlaceReloc(x: Ctx, s: Fs, outer: set<nat>, p: nat, e: Exp, l: Lists, reg: nat)
    requires Ok(x, s, outer, e, l) && e.k == VReloc(p) && reg < 256 && (reg < x.nactvar || reg == s.free - 1)
    ensures var s' := s.(code := Completed(s.code, p, reg));
            && Ok(x, s', outer, Exp(VNonreloc(reg), e.t, e.f), l)
            && Placing(x, s, s', outer, e.k, VNonreloc(reg), l, reg)
  {
    hide Linked, Flow, Flows, Clean, SameJumps, Nilable, SameTest;
    Complete(x, s, outer, p, e, l, reg);
  }

  lemma PlaceSame(x: Ctx, s: Fs, outer: set<nat>, e: Exp, l: Lists, reg: nat)
    requires Ok(x, s, outer, e, l) && reg < 256 && (e.k == VNonreloc(reg) || e.k.VJmp?)
    ensures Placing(x, s, s, outer, e.k, e.k, l, reg)
  {
    hide Linked, Flow, Flows, Clean, Nilable;
    forall r0: Regs | Clean(x, r0)
      ensures Placed(x, s, e.k, reg, Flow(x, s, outer, e.k, l, r0), Flow(x, s, outer, e.k, l, r0))
    {
      var b := Flow(x, s, outer, e.k, l, r0);
      if b.Fall? && !e.k.VJmp? { assert b.regs[reg := b.regs[reg]] == b.regs; }
    }
  }

  // -------------------------------------------------------------- exp2reg

  lemma DeliverPlain(x: Ctx, s: Fs, s': Fs, outer: set<nat>, k: Kind, reg: nat)
    requires reg < 256 && !k.VJmp? && Placing(x, s, s', outer, k, VNonreloc(reg), None, reg)
    requires Flows(x, s, outer, k, None)
    ensures Delivering(x, s, s', outer, k, None, reg)
  {
    hide Flow, Clean, SameJumps, HereRes;
    forall r0: Regs | Clean(x, r0)
      ensures Delivered(Carried(x, s, k, None, Flow(x, s, outer, k, None, r0)), Flow(x, s', outer, VNonreloc(reg), None, r0), reg)
    {
      assert Placed(x, s, k, reg, Flow(x, s, outer, k, None, r0), Flow(x, s', outer, VNonreloc(reg), None, r0));
    }
  }

  lemma DeliverOne(x: Ctx, s: Fs, c: seq<Instr>, k: Kind, l: Lists, how: Loads, reg: nat, b: Out, a: Out)
    requires reg < 256 && !k.VJmp? && how != FallIn && Placed(x, s, k, reg, b, a) && SameTests(s.code, c, l) && !b.Stuck?
    ensures Delivered(Carried(x, s, k, l, b), Landing(c, l, how, reg, a), reg)
  {
  }

  /** The value is in its register; the lists are closed. */
  lemma DeliverClosed(x: Ctx, s: Fs, s1: Fs, outer: set<nat>, k: Kind, l: Lists, how: Loads, reg: nat)
    requires reg < NO_REG && (reg < x.nactvar || reg == s1.free - 1) && !k.VJmp? && how != FallIn
    requires Placing(x, s, s1, outer, k, VNonreloc(reg), l, reg) && Flows(x, s, outer, k, l)
    requires Ok(x, s1, outer, Heads(VNonreloc(reg), l), l)
    requires how == NoLoads ==> forall j :: j in l.t || j in l.f ==> HasTestset(s1.code, j)
    ensures Ok(x, Closed(s1, l, how, reg), outer, Heads(VNonreloc(reg), None), None)
    ensures Delivering(x, s, Closed(s1, l, how, reg), outer, k, l, reg)
  {
    hide Ok, Flow, Clean, SameJumps, HereRes, Closed, Landing, SameTests, Delivered, Carried, Placed, HasTestset;
    CloseLists(x, s1, outer, VNonreloc(reg), l, how, reg);
    var s2 := Closed(s1, l, how, reg);
    SameJumpsTrans(s.code, s1.code, s2.code, outer);
    forall r0: Regs | Clean(x, r0)
      ensures Delivered(Carried(x, s, k, l, Flow(x, s, outer, k, l, r0)), Flow(x, s2, outer, VNonreloc(reg), None, r0), reg)
    {
      SaneNot(s.code, l, Flow(x, s, outer, k, l, r0));
      DeliverOne(x, s, s1.code, k, l, how, reg, Flow(x, s, outer, k, l, r0), Flow(x, s1, outer, VNonreloc(reg), l, r0));
    }
  }

  lemma SameJumpsTrans(c0: seq<Instr>, c1: seq<Instr>, c2: seq<Instr>, js: set<nat>)
    requires SameJumps(c0, c1, js) && SameJumps(c1, c2, js)
    ensures SameJumps(c0, c2, js)
  {
  }

  lemma DeliverTest(x: Ctx, s: Fs, c: seq<Instr>, j: nat, l: Lists, reg: nat, b: Out)
    requires reg < 256 && KindOk(x, s, VJmp(j)) && s.code[j - 1].CMP? && (forall i :: SameTest(s.code, c, i))
    requires Sane(s.code, l, b) && j !in l.t && j !in l.f
    ensures var a := if b.Fall? then Tested(s.code[j - 1], j, EnvOf(x, s), b.regs) else b;
            Delivered(Carried(x, s, VJmp(j), l, b), Landing(c, With(l, true, l.t + [j]), FallIn, reg, a), reg)
            || (b.Exit? && b.j == j)
  {
    hide RkVal;
    if b.Exit? { assert SameTest(s.code, c, b.j); }
    assert SameTest(s.code, c, j);
  }

  /** A comparison: its jump joins the true list, and falling through is false. */
  lemma DeliverJump(x: Ctx, s: Fs, outer: set<nat>, j: nat, l: Lists, reg: nat)
    requires Ok(x, s, outer, Heads(VJmp(j), l), l) && s.code[j - 1].CMP?
    requires reg < NO_REG && (reg < x.nactvar || reg == s.free - 1)
    ensures var s1 := s.(code := Joined(s.code, l.t, [j])); var l1 := Lists(l.t + [j], l.f);
            && Ok(x, s1, outer, Heads(VNil, l1), l1)
            && Ok(x, Closed(s1, l1, FallIn, reg), outer, Heads(VNonreloc(reg), None), None)
            && Delivering(x, s, Closed(s1, l1, FallIn, reg), outer, VJmp(j), l, reg)
  {
    hide Linked, Flow, Clean, SameJumps, HereRes, Closed, Landing, SameTest, Delivered, Carried, Sane, Nilable, Tested, Joined;
    var s1, l1 := s.(code := Joined(s.code, l.t, [j])), Lists(l.t + [j], l.f);
    Adopt(x, s, outer, j, l, true);
    OwnApart(s, outer, Heads(VJmp(j), l), l, j);
    CloseLists(x, s1, outer, VNil, l1, FallIn, reg);
    var s2 := Closed(s1, l1, FallIn, reg);
    SameJumpsTrans(s.code, s1.code, s2.code, outer);
    forall r0: Regs | Clean(x, r0)
      ensures Delivered(Carried(x, s, VJmp(j), l, Flow(x, s, outer, VJmp(j), l, r0)), Flow(x, s2, outer, VNonreloc(reg), None, r0), reg)
    {
      DeliverTest(x, s, s1.code, j, l, reg, Flow(x, s, outer, VJmp(j), l, r0));
      NotOwnExit(x, s, outer, j, l, r0);
    }
  }

  /** The jump of a comparison lies behind the code that has run. */
  lemma NotOwnExit(x: Ctx, s: Fs, outer: set<nat>, j: nat, l: Lists, r0: Regs)
    requires KindOk(x, s, VJmp(j))
    ensures var b := Flow(x, s, outer, VJmp(j), l, r0); !(b.Exit? && b.j == j)
  {
    if x.origin <= |s.code| - 2 {
      RunExit(s.code, Open(s, outer, VJmp(j), l), EnvOf(x, s), x.origin, r0, |s.code| - 2);
    }
  }
}
