/** From the single steps to the meaning of whole expressions. */
module CodeExpr {
  import opened CodeVm
  import opened CodeLists
  import opened CodeSem
  import opened CodeFlow
  import opened CodeEmit
  import opened CodeLink
  import opened CodeChange
  import opened CodeStore
  import opened CodeClose
  import opened CodeSteps

  // --------------------------------------------------------------- exp2RK

  lemma HoldDelivered(x: Ctx, s: Fs, s': Fs, outer: set<nat>, k: Kind, l: Lists, reg: nat, base: nat)
    requires Delivering(x, s, s', outer, k, l, reg) && base <= reg < 256
    ensures Holding(x, s, s', outer, k, l, reg, base)
  {
    hide Flow, Clean, SameJumps, Carried;
    forall r0: Regs | Clean(x, r0)
      ensures Held(Carried(x, s, k, l, Flow(x, s, outer, k, l, r0)), Flow(x, s', outer, VNil, None, r0), s'.ks, reg, base)
    {
      PlainFlow(x, s', outer, VNonreloc(reg), VNil, None, r0);
      assert Delivered(Carried(x, s, k, l, Flow(x, s, outer, k, l, r0)), Flow(x, s', outer, VNonreloc(reg), None, r0), reg);
    }
  }

  /** A run does not depend on which plain descriptor comes after it. */
  lemma PlainFlow(x: Ctx, s: Fs, outer: set<nat>, k: Kind, k': Kind, l: Lists, r0: Regs)
    requires Plain(k) && Plain(k')
    ensures Flow(x, s, outer, k, l, r0) == Flow(x, s, outer, k', l, r0)
  {
    PlainOpen(s, s, outer, k, k', l);
  }

  /** A register is an operand as it is. */
  lemma HoldRegister(x: Ctx, s: Fs, outer: set<nat>, reg: nat, base: nat)
    requires reg < 256 && Flows(x, s, outer, VNonreloc(reg), None)
    ensures Holding(x, s, s, outer, VNonreloc(reg), None, reg, base)
  {
    hide Flow, Clean;
    forall r0: Regs | Clean(x, r0)
      ensures Held(Carried(x, s, VNonreloc(reg), None, Flow(x, s, outer, VNonreloc(reg), None, r0)),
                   Flow(x, s, outer, VNil, None, r0), s.ks, reg, base)
    {
      PlainFlow(x, s, outer, VNonreloc(reg), VNil, None, r0);
    }
  }

  /** So is a constant with a small index. */
  lemma HoldConstant(x: Ctx, s: Fs, outer: set<nat>, k: Kind, ks': seq<Value>, n: nat, base: nat)
    requires Ok(x, s, outer, Heads(k, None), None) && Plain(k) && s.ks <= ks' && n < |ks'|
    requires forall r: Regs :: HereRes(k, s.code, EnvOf(x, s), r) == Val(ks'[n])
    ensures Ok(x, s.(ks := ks'), outer, Heads(VK(n), None), None)
    ensures Holding(x, s, s.(ks := ks'), outer, k, None, BITRK + n, base)
  {
    hide Linked, Flow, Flows, Clean, HereRes, Nilable, Proper;
    var s' := s.(ks := ks');
    MoreConstants(x, s, outer, Heads(k, None), None, ks');
    Bookkeeping(x, s', outer, Heads(k, None), None, s'.last, s'.free, VK(n));
    assert s'.(last := s'.last, free := s'.free) == s';
    forall r0: Regs | Clean(x, r0)
      ensures Held(Carried(x, s, k, None, Flow(x, s, outer, k, None, r0)), Flow(x, s', outer, VNil, None, r0), ks', BITRK + n, base)
    {
      PlainFlow(x, s', outer, k, VNil, None, r0);
      FlowNotStuck(x, s, outer, k, None, r0);
      var b := Flow(x, s, outer, k, None, r0);
      if b.Fall? { assert HereRes(k, s.code, EnvOf(x, s), b.regs) == Val(ks'[n]); }
    }
  }

  lemma FlowNotStuck(x: Ctx, s: Fs, outer: set<nat>, k: Kind, l: Lists, r0: Regs)
    requires Flows(x, s, outer, k, l) && Clean(x, r0)
    ensures !Flow(x, s, outer, k, l, r0).Stuck? && Sane(s.code, l, Flow(x, s, outer, k, l, r0))
  {
  }

  // ---------------------------------------------------------- jumponcond

  /** The test in front of jump j makes the jump if the truth of the value is
      cond; and then j brings the value. */
  ghost predicate TestedOn(x: Ctx, s: Fs, k: Kind, s': Fs, j: nat, cond: bool, base: nat, b: Out, a: Out)
    requires 0 < j <= |s'.code| && TestOk(s'.code[j - 1], s'.ks)
  {
    if !b.Fall? then a == b
    else
      a.Fall? && Kept(b.regs, a.regs, base) &&
      match HereRes(k, s.code, EnvOf(x, s), b.regs)
      case Val(v) =>
        && TakenRes(s'.code[j - 1], EnvOf(x, s'), a.regs) == Val(Bool(Truthy(v) == cond))
        && (Truthy(v) == cond ==> ExitVal(s'.code, j, a.regs, cond) == v)
      case Fails => TakenRes(s'.code[j - 1], EnvOf(x, s'), a.regs) == Fails
  }

  ghost predicate Testing(x: Ctx, s: Fs, s': Fs, outer: set<nat>, k: Kind, l: Lists, j: nat, cond: bool, base: nat)
    requires 0 < j <= |s'.code| && TestOk(s'.code[j - 1], s'.ks)
  {
    && SameJumps(s.code, s'.code, outer) && SameTests(s.code, s'.code, l) && Which(cond, s'.code[j - 1])
    && forall r0: Regs :: Clean(x, r0) ==>
         TestedOn(x, s, k, s', j, cond, base, Flow(x, s, outer, k, l, r0), Flow(x, s', outer, VJmp(j), l, r0))
  }

  lemma CmpTested(x: Ctx, s: Fs, k: Kind, s': Fs, j: nat, base: nat, b: Out)
    requires 0 < j <= |s'.code| && TestOk(s'.code[j - 1], s'.ks) && s'.code[j - 1].CMP? && k == VJmp(j)
    requires s == s'
    ensures TestedOn(x, s, k, s', j, true, base, b, b)
  {
    hide RkVal;
  }

  /** goiffalse: a comparison already jumps when it holds ... */
  lemma TestCompare(x: Ctx, s: Fs, outer: set<nat>, j: nat, l: Lists, base: nat)
    requires Ok(x, s, outer, Heads(VJmp(j), l), l) && s.code[j - 1].CMP?
    ensures Testing(x, s, s, outer, VJmp(j), l, j, true, base)
  {
    hide Flow, Flows, Clean, Linked, Nilable, TestedOn;
    forall r0: Regs | Clean(x, r0)
      ensures TestedOn(x, s, VJmp(j), s, j, true, base, Flow(x, s, outer, VJmp(j), l, r0), Flow(x, s, outer, VJmp(j), l, r0))
    {
      CmpTested(x, s, VJmp(j), s, j, base, Flow(x, s, outer, VJmp(j), l, r0));
    }
  }

  lemma CmpInverted(x: Ctx, s: Fs, j: nat, base: nat, b: Out)
    requires KindOk(x, s, VJmp(j)) && s.code[j - 1].CMP?
    ensures TestedOn(x, s, VJmp(j), s.(code := Inverted(s.code, j - 1)), j, false, base, b, b)
  {
    hide RkVal;
  }

  /** ... and for goiftrue it is inverted. */
  lemma TestInverted(x: Ctx, s: Fs, outer: set<nat>, j: nat, l: Lists, base: nat)
    requires Ok(x, s, outer, Heads(VJmp(j), l), l) && s.code[j - 1].CMP?
    ensures var s' := s.(code := Inverted(s.code, j - 1));
            && Ok(x, s', outer, Heads(VJmp(j), l), l)
            && Testing(x, s, s', outer, VJmp(j), l, j, false, base)
  {
    hide Flow, Flows, Clean, Linked, Nilable, TestedOn, SameJumps, SameTest;
    var s' := s.(code := Inverted(s.code, j - 1));
    Invert(x, s, outer, j, Heads(VJmp(j), l), l);
    forall r0: Regs | Clean(x, r0)
      ensures TestedOn(x, s, VJmp(j), s', j, false, base, Flow(x, s, outer, VJmp(j), l, r0), Flow(x, s', outer, VJmp(j), l, r0))
    {
      CmpInverted(x, s, j, base, Flow(x, s, outer, VJmp(j), l, r0));
    }
  }

  lemma EmitEnds(s: Fs, i: Instr)
    ensures var c := Emit(s, [i, JMP(NO_JUMP)]).code;
            |c| == |s.code| + 2 && c[|s.code|] == i && c[|s.code| + 1] == JMP(NO_JUMP)
    ensures Emit(s, [i, JMP(NO_JUMP)]).ks == s.ks
  {
  }

  /** A NOT in hand is dropped, and its operand tested for the opposite. */
  lemma TestNot(x: Ctx, s: Fs, outer: set<nat>, p: nat, l: Lists, cond: bool, base: nat)
    requires Ok(x, s, outer, Heads(VReloc(p), l), l)
    ensures var s' := Emit(s.(code := s.code[..p]), [TEST(s.code[p].b, !cond), JMP(NO_JUMP)]);
            && Ok(x, s', outer, Heads(VJmp(p + 1), l), l)
            && Testing(x, s, s', outer, VReloc(p), l, p + 1, cond, base)
  {
    hide Flow, Flows, Clean, Linked, Nilable, SameJumps, SameTest, Retarget, HereRes;
    var e := Heads(VReloc(p), l);
    var s1 := s.(code := s.code[..p]);
    var i := TEST(s.code[p].b, !cond);
    var s' := Emit(s1, [i, JMP(NO_JUMP)]);
    var js := outer + Elems(l.t) + Elems(l.f);
    Trim(x, s, outer, p, e, l);
    EmitTest(x, s1, outer, Heads(VNil, l), l, i);
    EmitEnds(s1, i);
    SameJumpsTrans(s.code, s1.code, s'.code, js);
    EmittedOpens(x, s, outer, e, l);
    SameTestsOf(s.code, s'.code, js, l);
    SameJumpsSub(s.code, s'.code, js, outer);
    forall r0: Regs | Clean(x, r0)
      ensures TestedOn(x, s, VReloc(p), s', p + 1, cond, base, Flow(x, s, outer, VReloc(p), l, r0), Flow(x, s', outer, VJmp(p + 1), l, r0))
    {
      NotTested(x, s, p, s', cond, base, Flow(x, s, outer, VReloc(p), l, r0));
    }
  }

  lemma NotTested(x: Ctx, s: Fs, p: nat, s': Fs, cond: bool, base: nat, b: Out)
    requires KindOk(x, s, VReloc(p)) && p < |s'.code| && s'.code[p] == TEST(s.code[p].b, !cond)
    ensures TestedOn(x, s, VReloc(p), s', p + 1, cond, base, b, b)
  {
  }

  /** A value in a register is tested, to be set by the jump. */
  lemma TestRegister(x: Ctx, s: Fs, s1: Fs, outer: set<nat>, k: Kind, l: Lists, reg: nat, cond: bool, base: nat)
    requires reg < 256 && !k.VJmp? && Placing(x, s, s1, outer, k, VNonreloc(reg), l, reg)
    requires Ok(x, s1, outer, Heads(VNonreloc(reg), l), l) && (base <= reg || k == VNonreloc(reg))
    ensures var s' := Emit(s1, [TESTSET(NO_REG, reg, cond), JMP(NO_JUMP)]);
            && Ok(x, s', outer, Heads(VJmp(|s1.code| + 1), l), l)
            && Testing(x, s, s', outer, k, l, |s1.code| + 1, cond, base)
  {
    hide Flow, Flows, Clean, Linked, Nilable, SameJumps, SameTest, Retarget, HereRes, Placed, KindOk;
    var i := TESTSET(NO_REG, reg, cond);
    var s' := Emit(s1, [i, JMP(NO_JUMP)]);
    var js := outer + Elems(l.t) + Elems(l.f);
    EmitTest(x, s1, outer, Heads(VNonreloc(reg), l), l, i);
    EmitEnds(s1, i);
    EmittedOpens(x, s1, outer, Heads(VNonreloc(reg), l), l);
    SameTestsOf(s1.code, s'.code, js, l);
    SameTestsTrans(s.code, s1.code, s'.code, l);
    SameJumpsSub(s1.code, s'.code, js, outer);
    SameJumpsTrans(s.code, s1.code, s'.code, outer);
    forall r0: Regs | Clean(x, r0)
      ensures TestedOn(x, s, k, s', |s1.code| + 1, cond, base, Flow(x, s, outer, k, l, r0), Flow(x, s', outer, VJmp(|s1.code| + 1), l, r0))
    {
      RegTested(x, s, k, s', |s1.code| + 1, reg, cond, base, Flow(x, s, outer, k, l, r0), Flow(x, s1, outer, VNonreloc(reg), l, r0));
    }
  }

  lemma SameTestsTrans(c0: seq<Instr>, c1: seq<Instr>, c2: seq<Instr>, l: Lists)
    requires SameTests(c0, c1, l) && SameTests(c1, c2, l)
    ensures SameTests(c0, c2, l)
  {
  }

  lemma RegTested(x: Ctx, s: Fs, k: Kind, s': Fs, j: nat, reg: nat, cond: bool, base: nat, b: Out, a: Out)
    requires reg < 256 && !k.VJmp? && Placed(x, s, k, reg, b, a) && 0 < j <= |s'.code| && s'.code[j - 1] == TESTSET(NO_REG, reg, cond)
    requires base <= reg || k == VNonreloc(reg)
    ensures TestedOn(x, s, k, s', j, cond, base, b, a)
  {
    if k == VNonreloc(reg) && b.Fall? { assert b.regs[reg := b.regs[reg]] == b.regs; }
  }

  // ------------------------------------------------- goiftrue, goiffalse

  lemma BranchOne(x: Ctx, s: Fs, k: Kind, l: Lists, s1: Fs, j: nat, sense: bool, base: nat, b: Out, a: Out, c: seq<Instr>)
    requires 0 < j <= |s1.code| && TestOk(s1.code[j - 1], s1.ks)
    requires TestedOn(x, s, k, s1, j, !sense, base, b, a) && Sane(s.code, l, b)
    requires j !in l.t && j !in l.f && SameTests(s.code, s1.code, l) && (forall i :: SameTest(s1.code, c, i))
    requires forall i :: i in l.t ==> i !in l.f
    ensures var a2 := if a.Fall? then Tested(s1.code[j - 1], j, EnvOf(x, s1), a.regs) else a;
            Branched(Carried(x, s, k, l, b), Settled(a2, Side(l, sense)), c, Side(l, !sense) + [j], sense, base)
  {
    hide RkVal, HereRes, TakenRes, TestOk;
    assert SameTest(s1.code, c, j);
    if b.Exit? { assert SameTest(s1.code, c, b.j); }
  }

  /** Control arrives when the truth is `sense`, and leaves by the other list. */
  lemma Branch(x: Ctx, s: Fs, s1: Fs, outer: set<nat>, k: Kind, l: Lists, j: nat, sense: bool, base: nat)
    requires Ok(x, s1, outer, Heads(VJmp(j), l), l) && Testing(x, s, s1, outer, k, l, j, !sense, base)
    requires Flows(x, s, outer, k, l)
    ensures var s2 := s1.(code := Joined(s1.code, Side(l, !sense), [j]));
            var l2 := With(l, !sense, Side(l, !sense) + [j]);
            var q := Side(l, !sense) + [j];
            && Ok(x, s2, outer, Heads(VNil, l2), l2)
            && Ok(x, Here(s2, Side(l, sense)), outer, Heads(VNil, With(None, !sense, q)), With(None, !sense, q))
            && Branching(x, s, Here(s2, Side(l, sense)), outer, k, l, q, sense, base)
  {
    hide Flow, Flows, Clean, Linked, Nilable, SameJumps, SameTest, TestedOn, Carried, Branched, Joined, Here, TestOk, Tested, Settled, SameTests, Sane;
    var q := Side(l, !sense) + [j];
    var s2, l2 := s1.(code := Joined(s1.code, Side(l, !sense), [j])), With(l, !sense, q);
    Adopt(x, s1, outer, j, l, !sense);
    PatchHere(x, s2, outer, VNil, l2, sense);
    var s3 := Here(s2, Side(l, sense));
    assert With(l2, sense, []) == With(None, !sense, q);
    SameJumpsTrans(s.code, s1.code, s2.code, outer);
    SameJumpsTrans(s.code, s2.code, s3.code, outer);
    AllTests(s1.code, s2.code, s3.code);
    OwnApart(s1, outer, Heads(VJmp(j), l), l, j);
    ListsApart(s1, outer, Heads(VJmp(j), l), l);
    forall r0: Regs | Clean(x, r0)
      ensures Branched(Carried(x, s, k, l, Flow(x, s, outer, k, l, r0)),
                       Flow(x, s3, outer, VNil, With(None, !sense, q), r0), s3.code, q, sense, base)
    {
      FlowNotStuck(x, s, outer, k, l, r0);
      BranchOne(x, s, k, l, s1, j, sense, base, Flow(x, s, outer, k, l, r0), Flow(x, s1, outer, VJmp(j), l, r0), s3.code);
    }
  }

  lemma AllTests(c0: seq<Instr>, c1: seq<Instr>, c2: seq<Instr>)
    requires (forall i :: SameTest(c0, c1, i)) && (forall i :: SameTest(c1, c2, i))
    ensures forall i :: SameTest(c0, c2, i)
  {
    forall i ensures SameTest(c0, c2, i) { assert SameTest(c0, c1, i) && SameTest(c1, c2, i); }
  }

  lemma KeepGoingOne(x: Ctx, s: Fs, k: Kind, l: Lists, sense: bool, base: nat, b: Out, c: seq<Instr>)
    requires Sane(s.code, l, b) && (forall i :: SameTest(s.code, c, i)) && (forall i :: i in l.t ==> i !in l.f)
    requires forall r: Regs :: var h := HereRes(k, s.code, EnvOf(x, s), r); h.Val? && Truthy(h.v) == sense
    ensures Branched(Carried(x, s, k, l, b), Settled(b, Side(l, sense)), c, Side(l, !sense), sense, base)
  {
    hide HereRes;
    if b.Exit? { assert SameTest(s.code, c, b.j); }
    if b.Fall? { var h := HereRes(k, s.code, EnvOf(x, s), b.regs); }
  }

  /** A constant whose truth is known needs no test. */
  lemma KeepGoing(x: Ctx, s: Fs, outer: set<nat>, k: Kind, l: Lists, sense: bool, base: nat)
    requires Ok(x, s, outer, Heads(k, l), l) && Plain(k)
    requires forall r: Regs :: var h := HereRes(k, s.code, EnvOf(x, s), r); h.Val? && Truthy(h.v) == sense
    ensures var s' := Here(s, Side(l, sense)); var q := Side(l, !sense);
            && Ok(x, s', outer, Heads(VNil, With(None, !sense, q)), With(None, !sense, q))
            && Branching(x, s, s', outer, k, l, q, sense, base)
  {
    hide Flow, Flows, Clean, Linked, Nilable, SameJumps, SameTest, Carried, Branched, Here, Settled, HereRes, Sane;
    var s', q := Here(s, Side(l, sense)), Side(l, !sense);
    var l' := With(None, !sense, q);
    PatchHere(x, s, outer, k, l, sense);
    assert With(l, sense, []) == l';
    ListsApart(s, outer, Heads(k, l), l);
    Bookkeeping(x, s', outer, Heads(k, l'), l', s'.last, s'.free, VNil);
    assert s'.(last := s'.last, free := s'.free) == s';
    forall r0: Regs | Clean(x, r0)
      ensures Branched(Carried(x, s, k, l, Flow(x, s, outer, k, l, r0)), Flow(x, s', outer, VNil, l', r0), s'.code, q, sense, base)
    {
      FlowNotStuck(x, s, outer, k, l, r0);
      PlainFlow(x, s', outer, k, VNil, l', r0);
      KeepGoingOne(x, s, k, l, sense, base, Flow(x, s, outer, k, l, r0), s'.code);
    }
  }

  // -------------------------------------------------------------- codenot

  ghost predicate Opposite(x: Ctx, s: Fs, k: Kind, s': Fs, k': Kind, base: nat, b: Out, a: Out) {
    if !b.Fall? then a == b
    else a.Fall? && Kept(b.regs, a.regs, base) &&
         HereRes(k', s'.code, EnvOf(x, s'), a.regs) == NotRes(HereRes(k, s.code, EnvOf(x, s), b.regs))
  }

  ghost predicate Inverting(x: Ctx, s: Fs, s': Fs, outer: set<nat>, k: Kind, l: Lists, k': Kind, base: nat) {
    && SameJumps(s.code, s'.code, outer)
    && forall r0: Regs :: Clean(x, r0) ==>
         Opposite(x, s, k, s', k', base, Flow(x, s, outer, k, l, r0), Flow(x, s', outer, k', l, r0))
  }

  lemma NegateOne(x: Ctx, s: Fs, k: Kind, l: Lists, s1: Fs, k': Kind, s2: Fs, base: nat, b: Out, a: Out)
    requires Opposite(x, s, k, s1, k', base, b, a) && Sane(s.code, l, b) && s2.ks == s1.ks
    requires forall r: Regs :: HereRes(k', s2.code, EnvOf(x, s1), r) == HereRes(k', s1.code, EnvOf(x, s1), r)
    requires forall j :: j in l.t || j in l.f ==> !HasTestset(s2.code, j)
    requires forall i :: i in l.t ==> i !in l.f
    ensures Negated(Carried(x, s, k, l, b), Carried(x, s2, k', Lists(l.f, l.t), a), base)
    ensures !b.Fall? ==> a == b
  {
    hide HereRes;
    if b.Fall? { assert HereRes(k', s2.code, EnvOf(x, s1), a.regs) == HereRes(k', s1.code, EnvOf(x, s1), a.regs); }
  }

  /** The value is inverted; then the lists change sides. */
  lemma Negate_(x: Ctx, s: Fs, s1: Fs, outer: set<nat>, k: Kind, l: Lists, k': Kind, base: nat)
    requires Ok(x, s1, outer, Heads(k', l), l) && Inverting(x, s, s1, outer, k, l, k', base) && Flows(x, s, outer, k, l)
    ensures var s2 := s1.(code := Dropped(s1.code, l)); var l' := Lists(l.f, l.t);
            && Ok(x, s2, outer, Heads(k', l'), l')
            && (Proper(x, s1, k') ==> Proper(x, s2, k'))
            && Negating(x, s, s2, outer, k, l, k', l', base)
  {
    hide Flow, Flows, Clean, Linked, Nilable, SameJumps, Carried, Negated, Opposite, HereRes, Sane, Dropped, KindOk, HasTestset, Proper;
    var s2, l' := s1.(code := Dropped(s1.code, l)), Lists(l.f, l.t);
    SwapLists(x, s1, outer, Heads(k', l), l);
    ListsApart(s1, outer, Heads(k', l), l);
    SameJumpsTrans(s.code, s1.code, s2.code, outer);
    forall r0: Regs | Clean(x, r0)
      ensures Negated(Carried(x, s, k, l, Flow(x, s, outer, k, l, r0)), Carried(x, s2, k', l', Flow(x, s2, outer, k', l', r0)), base)
      ensures !Flow(x, s, outer, k, l, r0).Fall? ==> Flow(x, s2, outer, k', l', r0) == Flow(x, s, outer, k, l, r0)
    {
      FlowNotStuck(x, s, outer, k, l, r0);
      NegateOne(x, s, k, l, s1, k', s2, base, Flow(x, s, outer, k, l, r0), Flow(x, s1, outer, k', l, r0));
    }
  }

  /** The opposite of a constant is known. */
  lemma InvertConstant(x: Ctx, s: Fs, outer: set<nat>, k: Kind, l: Lists, k': Kind, base: nat)
    requires Ok(x, s, outer, Heads(k, l), l) && Plain(k) && (k' == VTrue || k' == VFalse)
    requires forall r: Regs :: var h := HereRes(k, s.code, EnvOf(x, s), r); h.Val? && Truthy(h.v) == (k' == VFalse)
    ensures Ok(x, s, outer, Heads(k', l), l) && Inverting(x, s, s, outer, k, l, k', base)
  {
    hide Flow, Flows, Clean, Linked, Nilable;
    Bookkeeping(x, s, outer, Heads(k, l), l, s.last, s.free, k');
    assert s.(last := s.last, free := s.free) == s;
    forall r0: Regs | Clean(x, r0)
      ensures Opposite(x, s, k, s, k', base, Flow(x, s, outer, k, l, r0), Flow(x, s, outer, k', l, r0))
    {
      PlainFlow(x, s, outer, k, k', l, r0);
      var b := Flow(x, s, outer, k, l, r0);
      if b.Fall? { var h := HereRes(k, s.code, EnvOf(x, s), b.regs); }
    }
  }

  lemma InvertCompare(x: Ctx, s: Fs, outer: set<nat>, j: nat, l: Lists, base: nat)
    requires Ok(x, s, outer, Heads(VJmp(j), l), l) && s.code[j - 1].CMP?
    ensures var s' := s.(code := Inverted(s.code, j - 1));
            && Ok(x, s', outer, Heads(VJmp(j), l), l) && Proper(x, s', VJmp(j))
            && Inverting(x, s, s', outer, VJmp(j), l, VJmp(j), base)
  {
    hide Flow, Flows, Clean, Linked, Nilable, SameJumps, HereRes, TestOk, Inverted;
    var s' := s.(code := Inverted(s.code, j - 1));
    Invert(x, s, outer, j, Heads(VJmp(j), l), l);
    forall r0: Regs | Clean(x, r0)
      ensures Opposite(x, s, VJmp(j), s', VJmp(j), base, Flow(x, s, outer, VJmp(j), l, r0), Flow(x, s', outer, VJmp(j), l, r0))
    {
      var b := Flow(x, s, outer, VJmp(j), l, r0);
      if b.Fall? { assert HereRes(VJmp(j), s'.code, EnvOf(x, s), b.regs) == NotRes(HereRes(VJmp(j), s.code, EnvOf(x, s), b.regs)); }
    }
  }

  lemma NotEnds(s: Fs, reg: nat)
    ensures var c := Emit(s, [NOT(0, reg)]).code; |c| == |s.code| + 1 && c[|s.code|] == NOT(0, reg)
    ensures Emit(s, [NOT(0, reg)]).pend == [] && Emit(s, [NOT(0, reg)]).free == s.free
  {
  }

  /** A value in a register gets a NOT behind it. */
  lemma InvertRegister(x: Ctx, s: Fs, s1: Fs, outer: set<nat>, k: Kind, l: Lists, reg: nat, base: nat)
    requires reg < 256 && !k.VJmp? && Placing(x, s, s1, outer, k, VNonreloc(reg), l, reg)
    requires Ok(x, s1, outer, Heads(VNonreloc(reg), l), l) && (base <= reg || k == VNonreloc(reg))
    ensures var s' := Emit(s1, [NOT(0, reg)]); var k' := VReloc(|s1.code|);
            && Ok(x, s', outer, Heads(k', l), l)
            && Inverting(x, s, s', outer, k, l, k', base)
  {
    hide Flow, Flows, Clean, Linked, Nilable, SameJumps, Retarget, Placed, Opposite, HereRes, SameTests, Emit;
    var s', k' := Emit(s1, [NOT(0, reg)]), VReloc(|s1.code|);
    NotEnds(s1, reg);
    EmitPlain(x, s1, outer, Heads(VNonreloc(reg), l), l, NOT(0, reg), k');
    var js := outer + Elems(l.t) + Elems(l.f);
    SameJumpsSub(s1.code, s'.code, js, outer);
    SameJumpsTrans(s.code, s1.code, s'.code, outer);
    forall r0: Regs | Clean(x, r0)
      ensures Opposite(x, s, k, s', k', base, Flow(x, s, outer, k, l, r0), Flow(x, s', outer, k', l, r0))
    {
      NotOpposite(x, s, k, s', |s1.code|, reg, base, Flow(x, s, outer, k, l, r0), Flow(x, s1, outer, VNonreloc(reg), l, r0));
    }
  }

  lemma NotOpposite(x: Ctx, s: Fs, k: Kind, s': Fs, p: nat, reg: nat, base: nat, b: Out, a: Out)
    requires reg < 256 && !k.VJmp? && Placed(x, s, k, reg, b, a) && p < |s'.code| && s'.code[p] == NOT(0, reg)
    requires base <= reg || k == VNonreloc(reg)
    ensures Opposite(x, s, k, s', VReloc(p), base, b, a)
  {
    if k == VNonreloc(reg) && b.Fall? { assert b.regs[reg := b.regs[reg]] == b.regs; }
  }

  // --------------------------------------- labels and registers do not matter

  predicate SameCode(s: Fs, s': Fs) {
    s'.code == s.code && s'.ks == s.ks && s'.pend == s.pend
  }

  lemma FlowCode(x: Ctx, s: Fs, s': Fs, outer: set<nat>, k: Kind, l: Lists, r0: Regs)
    requires SameCode(s, s')
    ensures Flow(x, s', outer, k, l, r0) == Flow(x, s, outer, k, l, r0)
  {
    SameOpen(s, s', outer, k, l);
  }

  /** A local variable is the register it lives in. */
  predicate SameKind(k: Kind, k': Kind) {
    k == k' || (k'.VNonreloc? && k == VLocal(k'.r))
  }

  lemma RebasePlacing(x: Ctx, s: Fs, s1: Fs, s2: Fs, outer: set<nat>, k0: Kind, k: Kind, k': Kind, l: Lists, reg: nat)
    requires reg < 256 && SameCode(s, s1) && SameKind(k0, k) && Placing(x, s1, s2, outer, k, k', l, reg)
    ensures Placing(x, s, s2, outer, k0, k', l, reg)
  {
    hide Flow, Clean;
    forall r0: Regs | Clean(x, r0)
      ensures Placed(x, s, k0, reg, Flow(x, s, outer, k0, l, r0), Flow(x, s2, outer, k', l, r0))
    {
      FlowCode(x, s, s1, outer, k, l, r0);
      if k0 != k { PlainFlow(x, s, outer, k0, k, l, r0); }
      assert Placed(x, s1, k, reg, Flow(x, s1, outer, k, l, r0), Flow(x, s2, outer, k', l, r0));
    }
  }

  lemma RebaseDelivering(x: Ctx, s: Fs, s1: Fs, s2: Fs, outer: set<nat>, k: Kind, k': Kind, l: Lists, reg: nat)
    requires SameCode(s, s1) && Delivering(x, s1, s2, outer, k', l, reg)
    requires SameKind(k, k')
    ensures Delivering(x, s, s2, outer, k, l, reg)
  {
    hide Flow, Clean;
    forall r0: Regs | Clean(x, r0)
      ensures Delivered(Carried(x, s, k, l, Flow(x, s, outer, k, l, r0)), Flow(x, s2, outer, VNonreloc(reg), None, r0), reg)
    {
      FlowCode(x, s, s1, outer, k', l, r0);
      if k != k' { PlainFlow(x, s, outer, k, k', l, r0); }
      assert Delivered(Carried(x, s1, k', l, Flow(x, s1, outer, k', l, r0)), Flow(x, s2, outer, VNonreloc(reg), None, r0), reg);
    }
  }

  lemma RebaseHolding(x: Ctx, s: Fs, s2: Fs, outer: set<nat>, k: Kind, k': Kind, l: Lists, o: nat, base: nat)
    requires Holding(x, s, s2, outer, k', l, o, base) && SameKind(k, k')
    ensures Holding(x, s, s2, outer, k, l, o, base)
  {
    hide Flow, Clean;
    forall r0: Regs | Clean(x, r0)
      ensures Held(Carried(x, s, k, l, Flow(x, s, outer, k, l, r0)), Flow(x, s2, outer, VNil, None, r0), s2.ks, o, base)
    {
      if k != k' { PlainFlow(x, s, outer, k, k', l, r0); }
      assert Held(Carried(x, s, k', l, Flow(x, s, outer, k', l, r0)), Flow(x, s2, outer, VNil, None, r0), s2.ks, o, base);
    }
  }

  lemma RebaseTesting(x: Ctx, s: Fs, s1: Fs, s2: Fs, outer: set<nat>, k: Kind, l: Lists, j: nat, cond: bool, base: nat)
    requires SameCode(s1, s2) && 0 < j <= |s1.code| && TestOk(s1.code[j - 1], s1.ks)
    requires Testing(x, s, s1, outer, k, l, j, cond, base)
    ensures Testing(x, s, s2, outer, k, l, j, cond, base)
  {
    hide Flow, Clean, HereRes, TakenRes, TestOk, ExitVal, Kept;
    forall r0: Regs | Clean(x, r0)
      ensures TestedOn(x, s, k, s2, j, cond, base, Flow(x, s, outer, k, l, r0), Flow(x, s2, outer, VJmp(j), l, r0))
    {
      FlowCode(x, s1, s2, outer, VJmp(j), l, r0);
      assert TestedOn(x, s, k, s1, j, cond, base, Flow(x, s, outer, k, l, r0), Flow(x, s1, outer, VJmp(j), l, r0));
    }
  }

  lemma RebaseInverting(x: Ctx, s: Fs, s1: Fs, s2: Fs, outer: set<nat>, k: Kind, l: Lists, k': Kind, base: nat)
    requires SameCode(s1, s2) && Inverting(x, s, s1, outer, k, l, k', base)
    ensures Inverting(x, s, s2, outer, k, l, k', base)
  {
    hide Flow, Clean, HereRes, Kept;
    forall r0: Regs | Clean(x, r0)
      ensures Opposite(x, s, k, s2, k', base, Flow(x, s, outer, k, l, r0), Flow(x, s2, outer, k', l, r0))
    {
      FlowCode(x, s1, s2, outer, k', l, r0);
      assert Opposite(x, s, k, s1, k', base, Flow(x, s, outer, k, l, r0), Flow(x, s1, outer, k', l, r0));
    }
  }

  lemma BranchingLocal(x: Ctx, s: Fs, s2: Fs, outer: set<nat>, r: nat, l: Lists, q: seq<nat>, sense: bool, base: nat)
    requires Branching(x, s, s2, outer, VNonreloc(r), l, q, sense, base)
    ensures Branching(x, s, s2, outer, VLocal(r), l, q, sense, base)
  {
    hide Flow, Clean, Kept;
    forall r0: Regs | Clean(x, r0)
      ensures Branched(Carried(x, s, VLocal(r), l, Flow(x, s, outer, VLocal(r), l, r0)),
                       Flow(x, s2, outer, VNil, With(None, !sense, q), r0), s2.code, q, sense, base)
    {
      PlainFlow(x, s, outer, VLocal(r), VNonreloc(r), l, r0);
      assert Branched(Carried(x, s, VNonreloc(r), l, Flow(x, s, outer, VNonreloc(r), l, r0)),
                      Flow(x, s2, outer, VNil, With(None, !sense, q), r0), s2.code, q, sense, base);
    }
  }

  lemma NegatingLocal(x: Ctx, s: Fs, s2: Fs, outer: set<nat>, r: nat, l: Lists, k': Kind, l': Lists, base: nat)
    requires Negating(x, s, s2, outer, VNonreloc(r), l, k', l', base)
    ensures Negating(x, s, s2, outer, VLocal(r), l, k', l', base)
  {
    hide Flow, Clean, Kept;
    forall r0: Regs | Clean(x, r0)
      ensures Negated(Carried(x, s, VLocal(r), l, Flow(x, s, outer, VLocal(r), l, r0)),
                      Carried(x, s2, k', l', Flow(x, s2, outer, k', l', r0)), base)
      ensures !Flow(x, s, outer, VLocal(r), l, r0).Fall? ==> Flow(x, s2, outer, k', l', r0) == Flow(x, s, outer, VLocal(r), l, r0)
    {
      PlainFlow(x, s, outer, VLocal(r), VNonreloc(r), l, r0);
      assert Negated(Carried(x, s, VNonreloc(r), l, Flow(x, s, outer, VNonreloc(r), l, r0)),
                     Carried(x, s2, k', l', Flow(x, s2, outer, k', l', r0)), base);
    }
  }
}
