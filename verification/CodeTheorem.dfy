/** The meaning of compound expressions from the meaning of their parts. */
module CodeTheorem {
  import opened CodeVm
  import opened CodeLists
  import opened CodeSem
  import opened CodeFlow
  import opened CodeLink
  import opened CodeChange
  import opened CodeStore
  import opened CodeClose
  import opened CodeSteps
  import opened CodeExpr

  /** The expression uses only the first n registers, the local variables. */
  predicate Scoped(e: Expr, n: nat) {
    match e
    case ELocal(r) => r < n
    case EParen(a) => Scoped(a, n)
    case ENot(a) => Scoped(a, n)
    case EAnd(a, b) => Scoped(a, n) && Scoped(b, n)
    case EOr(a, b) => Scoped(a, n) && Scoped(b, n)
    case ERel(_, a, b) => Scoped(a, n) && Scoped(b, n)
    case _ => true
  }

  /** Only the local variables matter for the value. */
  lemma {:induction false} EvalKept(cmp: Cmp, e: Expr, n: nat, r: Regs, r': Regs)
    requires Scoped(e, n) && Kept(r, r', n)
    ensures Eval(cmp, e, r') == Eval(cmp, e, r)
  {
    match e
    case EParen(a) => EvalKept(cmp, a, n, r, r');
    case ENot(a) => EvalKept(cmp, a, n, r, r');
    case EAnd(a, b) => EvalKept(cmp, a, n, r, r'); EvalKept(cmp, b, n, r, r');
    case EOr(a, b) => EvalKept(cmp, a, n, r, r'); EvalKept(cmp, b, n, r, r');
    case ERel(_, a, b) => EvalKept(cmp, a, n, r, r'); EvalKept(cmp, b, n, r, r');
    case _ =>
  }

  lemma KeptTrans(r: Regs, r1: Regs, r2: Regs, base: nat)
    requires Kept(r, r1, base) && Kept(r1, r2, base)
    ensures Kept(r, r2, base)
  {
  }

  lemma KeptLess(r: Regs, r': Regs, base: nat, base': nat)
    requires Kept(r, r', base) && base' <= base
    ensures Kept(r, r', base')
  {
  }

  // ---------------------------------------------------------------- leaves

  /** A constant or a local variable needs no code. */
  lemma ComputeLeaf(x: Ctx, s: Fs, ks': seq<Value>, outer: set<nat>, k: Kind, base: nat, e: Expr)
    requires Ok(x, s, outer, Heads(VNil, None), None) && Plain(k) && s.ks <= ks' && KindOk(x, s.(ks := ks'), k)
    requires forall r: Regs :: Eval(x.cmp, e, r) == HereRes(k, s.code, Env(x.cmp, ks'), r)
    ensures Ok(x, s.(ks := ks'), outer, Heads(k, None), None)
    ensures Computing(x, s, s.(ks := ks'), outer, k, None, base, e)
  {
    hide Flow, Flows, Clean, Linked, Nilable, HereRes, Eval, KindOk, Proper;
    var s' := s.(ks := ks');
    MoreConstants(x, s, outer, Heads(VNil, None), None, ks');
    Bookkeeping(x, s', outer, Heads(VNil, None), None, s'.last, s'.free, k);
    assert s'.(last := s'.last, free := s'.free) == s';
    forall r0: Regs | Clean(x, r0)
      ensures Computed(x, s', k, None, base, e, Flow(x, s, outer, VNil, None, r0), Flow(x, s', outer, k, None, r0))
    {
      PlainFlow(x, s', outer, VNil, k, None, r0);
      FlowNotStuck(x, s, outer, VNil, None, r0);
      var b := Flow(x, s, outer, VNil, None, r0);
      if b.Fall? { assert Eval(x.cmp, e, b.regs) == HereRes(k, s.code, Env(x.cmp, ks'), b.regs); }
    }
  }

  // ------------------------------------------------------------------- not

  lemma NotOne(x: Ctx, s1: Fs, k: Kind, l: Lists, s2: Fs, k': Kind, l': Lists, base: nat, e: Expr, b: Out, a: Out, a': Out)
    requires Computed(x, s1, k, l, base, e, b, a)
    requires Negated(Carried(x, s1, k, l, a), Carried(x, s2, k', l', a'), base)
    requires !b.Fall? ==> Carried(x, s1, k, l, a) == Carried(x, s2, k', l', a') && (a.Exit? ==> Carried(x, s1, k, l, a) == Gone(a))
    requires !a.Stuck? && !a'.Stuck? && (a.Raised? ==> a'.Raised?)
    ensures Computed(x, s2, k', l', base, ENot(e), b, a')
  {
    hide HereRes, ExitVal;
    if b.Fall? && Carried(x, s1, k, l, a).Has? {
      KeptTrans(b.regs, Carried(x, s1, k, l, a).regs, Carried(x, s2, k', l', a').regs, base);
    }
  }

  /** not e. */
  lemma ComputeNot(x: Ctx, s: Fs, s1: Fs, s2: Fs, outer: set<nat>, k: Kind, l: Lists, k': Kind, l': Lists, base: nat, e: Expr)
    requires Computing(x, s, s1, outer, k, l, base, e) && Negating(x, s1, s2, outer, k, l, k', l', base)
    requires Ok(x, s, outer, Heads(VNil, None), None)
    requires Ok(x, s1, outer, Heads(k, l), l) && Ok(x, s2, outer, Heads(k', l'), l')
    ensures Computing(x, s, s2, outer, k', l', base, ENot(e))
  {
    hide Flow, Flows, Clean, Linked, Nilable, KindOk, SameJumps, Computed, Negated, Carried, Eval;
    SameJumpsTrans(s.code, s1.code, s2.code, outer);
    forall r0: Regs | Clean(x, r0)
      ensures Computed(x, s2, k', l', base, ENot(e), Flow(x, s, outer, VNil, None, r0), Flow(x, s2, outer, k', l', r0))
    {
      var b, a, a' := Flow(x, s, outer, VNil, None, r0), Flow(x, s1, outer, k, l, r0), Flow(x, s2, outer, k', l', r0);
      FlowNotStuck(x, s, outer, VNil, None, r0);
      FlowNotStuck(x, s1, outer, k, l, r0);
      FlowNotStuck(x, s2, outer, k', l', r0);
      OuterExit(x, s, outer, r0);
      NotPassing(x, s1, outer, k, l, base, e, b, a);
      GoneOuter(x, s1, outer, Heads(k, l), l, b);
      GoneOuter(x, s2, outer, Heads(k', l'), l', b);
      NotOne(x, s1, k, l, s2, k', l', base, e, b, a, a');
    }
  }

  /** A run that is elsewhere is not touched. */
  lemma NotPassing(x: Ctx, s1: Fs, outer: set<nat>, k: Kind, l: Lists, base: nat, e: Expr, b: Out, a: Out)
    requires Computed(x, s1, k, l, base, e, b, a)
    ensures !b.Fall? ==> a == b
  {
  }

  /** Before an expression, runs leave by the jumps of the surrounding ones. */
  lemma OuterExit(x: Ctx, s: Fs, outer: set<nat>, r0: Regs)
    ensures var b := Flow(x, s, outer, VNil, None, r0); b.Exit? ==> b.j in outer
  {
    if x.origin <= |s.code| {
      RunExit(s.code, Open(s, outer, VNil, None), EnvOf(x, s), x.origin, r0, |s.code|);
    }
  }

  lemma GoneOuter(x: Ctx, s: Fs, outer: set<nat>, e: Exp, l: Lists, b: Out)
    requires Linked(s, outer, e, l)
    ensures b.Exit? && b.j in outer ==> Carried(x, s, e.k, l, b) == Gone(b) && b.j !in l.t && b.j !in l.f
    ensures b.Raised? ==> Carried(x, s, e.k, l, b) == Err
  {
    if b.Exit? && b.j in outer {
      assert b.j in outer + Own(e.k);
      var j := b.j;
      assert (j in l.t) == (j in Elems(l.t)) && (j in l.f) == (j in Elems(l.f));
    }
  }

  // ---------------------------------------------------------------- and, or

  /** `and` goes on to its right operand when the left one is true, `or` when it
      is false. */
  function Logical(sense: bool, a: Expr, b: Expr): Expr {
    if sense then EAnd(a, b) else EOr(a, b)
  }

  lemma OpenAside(s: Fs, outer: set<nat>, q: seq<nat>, sense: bool)
    ensures Open(s, outer + Elems(q), VNil, None) == Open(s, outer, VNil, With(None, sense, q))
  {
    assert Elems([]) == {};
  }

  /** The list of the left operand is set aside while the right one is compiled. */
  lemma SetAside(x: Ctx, s: Fs, outer: set<nat>, q: seq<nat>, sense: bool)
    requires Ok(x, s, outer, Heads(VNil, With(None, sense, q)), With(None, sense, q))
    ensures Ok(x, s, outer + Elems(q), Heads(VNil, None), None)
    ensures ListIs(s.code, Head(q), q) && Apart(outer, Elems(q))
    ensures forall r0: Regs :: Flow(x, s, outer + Elems(q), VNil, None, r0) == Flow(x, s, outer, VNil, With(None, sense, q), r0)
  {
    hide ListIs, Run, Clean;
    var l := With(None, sense, q);
    OpenAside(s, outer, q, sense);
    ListEmpty(s.code);
    AsideLinked(s, outer, q, sense);
    LinkedOpens(s, outer, Heads(VNil, l), l, x);
    forall r0: Regs
      ensures Flow(x, s, outer + Elems(q), VNil, None, r0) == Flow(x, s, outer, VNil, l, r0)
      ensures Clean(x, r0) ==> Sane(s.code, None, Flow(x, s, outer + Elems(q), VNil, None, r0))
    {
      assert Clean(x, r0) ==> Sane(s.code, l, Flow(x, s, outer, VNil, l, r0));
    }
  }

  lemma AsideLinked(s: Fs, outer: set<nat>, q: seq<nat>, sense: bool)
    requires Linked(s, outer, Heads(VNil, With(None, sense, q)), With(None, sense, q))
    ensures Linked(s, outer + Elems(q), Heads(VNil, None), None)
    ensures ListIs(s.code, Head(q), q) && Apart(outer, Elems(q))
  {
    hide ListIs;
    ListEmpty(s.code);
    forall j | j in Elems(q) ensures j < |s.code| && s.code[j].JMP? { ListJump(s.code, Head(q), q, j); }
  }

  /** A run that reached the left operand goes on if its truth is `sense`, and
      leaves with its value by a jump of q otherwise. */
  ghost predicate Decided(x: Ctx, c: seq<Instr>, q: seq<nat>, sense: bool, base: nat, e: Expr, b: Out, a: Out) {
    match b
    case Fall(r) =>
      (match Eval(x.cmp, e, r)
       case Val(v) =>
         if Truthy(v) == sense then a.Fall? && Kept(r, a.regs, base)
         else a.Exit? && a.j in q && Kept(r, a.regs, base) && ExitVal(c, a.j, a.regs, !sense) == v
       case Fails => a == Raised)
    case _ => a == b
  }

  ghost predicate Deciding(x: Ctx, s: Fs, s': Fs, outer: set<nat>, q: seq<nat>, sense: bool, base: nat, e: Expr) {
    && SameJumps(s.code, s'.code, outer)
    && forall r0: Regs :: Clean(x, r0) ==>
         Decided(x, s'.code, q, sense, base, e, Flow(x, s, outer, VNil, None, r0), Flow(x, s', outer, VNil, With(None, !sense, q), r0))
  }

  lemma DecideOne(x: Ctx, s1: Fs, k: Kind, l: Lists, c: seq<Instr>, q: seq<nat>, sense: bool, base: nat, e: Expr, f0: Out, f1: Out, f2: Out)
    requires Computed(x, s1, k, l, base, e, f0, f1) && Branched(Carried(x, s1, k, l, f1), f2, c, q, sense, base)
    requires !f0.Stuck? && (f0.Exit? ==> Carried(x, s1, k, l, f0) == Gone(f0))
    ensures Decided(x, c, q, sense, base, e, f0, f2)
  {
    hide HereRes, ExitVal, Eval;
    var t1 := Carried(x, s1, k, l, f1);
    if f0.Fall? && t1.Has? { KeptTrans(f0.regs, t1.regs, f2.regs, base); }
  }

  /** Computing the left operand and branching on it. */
  lemma Decide(x: Ctx, s: Fs, s1: Fs, s2: Fs, outer: set<nat>, k: Kind, l: Lists, q: seq<nat>, sense: bool, base: nat, e: Expr)
    requires Ok(x, s, outer, Heads(VNil, None), None) && Computing(x, s, s1, outer, k, l, base, e)
    requires Ok(x, s1, outer, Heads(k, l), l) && Branching(x, s1, s2, outer, k, l, q, sense, base)
    ensures Deciding(x, s, s2, outer, q, sense, base, e)
  {
    hide Flow, Flows, Clean, Linked, Nilable, KindOk, SameJumps, Computed, Branched, Carried, Eval, Decided;
    SameJumpsTrans(s.code, s1.code, s2.code, outer);
    forall r0: Regs | Clean(x, r0)
      ensures Decided(x, s2.code, q, sense, base, e, Flow(x, s, outer, VNil, None, r0), Flow(x, s2, outer, VNil, With(None, !sense, q), r0))
    {
      var f0 := Flow(x, s, outer, VNil, None, r0);
      FlowNotStuck(x, s, outer, VNil, None, r0);
      OuterExit(x, s, outer, r0);
      GoneOuter(x, s1, outer, Heads(k, l), l, f0);
      DecideOne(x, s1, k, l, s2.code, q, sense, base, e, f0, Flow(x, s1, outer, k, l, r0), Flow(x, s2, outer, VNil, With(None, !sense, q), r0));
    }
  }

  lemma LogicalEval(cmp: Cmp, sense: bool, a: Expr, b: Expr, r: Regs)
    ensures Eval(cmp, Logical(sense, a, b), r) ==
            match Eval(cmp, a, r)
            case Val(v) => if Truthy(v) == sense then Eval(cmp, b, r) else Val(v)
            case Fails => Fails
  {
  }

  /** One run through the decision and the right operand. */
  lemma LogicalOne(x: Ctx, c2: seq<Instr>, q: seq<nat>, s3: Fs, s4: Fs, k: Kind, l: Lists,
                   sense: bool, base: nat, a: Expr, b: Expr, o0: Out, o2: Out, o3: Out)
    requires Decided(x, c2, q, sense, base, a, o0, o2) && Computed(x, s3, k, l, base, b, o2, o3)
    requires s4.ks == s3.ks && (forall i :: SameTest(s3.code, s4.code, i))
    requires forall r: Regs :: HereRes(k, s4.code, EnvOf(x, s3), r) == HereRes(k, s3.code, EnvOf(x, s3), r)
    requires forall j :: j in q ==> SameTest(c2, s3.code, j) && j !in l.t && j !in l.f
    requires Scoped(b, base)
    ensures Computed(x, s4, k, With(l, !sense, Side(l, !sense) + q), base, Logical(sense, a, b), o0, o3)
  {
    hide HereRes, Scoped, Eval, Logical, Kept, ExitVal, SameTest, Carried;
    if o0.Fall? {
      LogicalEval(x.cmp, sense, a, b, o0.regs);
      var va := Eval(x.cmp, a, o0.regs);
      if va.Val? && Truthy(va.v) == sense {
        EvalKept(x.cmp, b, base, o0.regs, o2.regs);
        CarriedMore(x, s3, s4, k, l, q, !sense, o3);
        var t3 := Carried(x, s3, k, l, o3);
        if t3.Has? { KeptTrans(o0.regs, o2.regs, t3.regs, base); }
      } else if va.Val? {
        CarriedAside(x, c2, s3, s4, k, l, q, sense, o2);
      } else {
        CarriedRaised(x, s4, k, With(l, !sense, Side(l, !sense) + q));
      }
    }
  }

  lemma CarriedRaised(x: Ctx, s: Fs, k: Kind, l: Lists)
    ensures Carried(x, s, k, l, Raised) == Err
  {
  }

  /** A jump of the list set aside brings its value as before. */
  lemma CarriedAside(x: Ctx, c2: seq<Instr>, s3: Fs, s4: Fs, k: Kind, l: Lists, q: seq<nat>, sense: bool, o: Out)
    requires o.Exit? && o.j in q && (forall i :: SameTest(s3.code, s4.code, i))
    requires forall j :: j in q ==> SameTest(c2, s3.code, j) && j !in l.t && j !in l.f
    ensures Carried(x, s4, k, With(l, !sense, Side(l, !sense) + q), o) == Has(ExitVal(c2, o.j, o.regs, !sense), o.regs)
  {
    assert SameTest(c2, s3.code, o.j) && SameTest(s3.code, s4.code, o.j);
  }

  lemma CarriedMore(x: Ctx, s3: Fs, s4: Fs, k: Kind, l: Lists, q: seq<nat>, sense: bool, o: Out)
    requires s4.ks == s3.ks && (forall i :: SameTest(s3.code, s4.code, i)) && !Carried(x, s3, k, l, o).Gone?
    requires forall r: Regs :: HereRes(k, s4.code, EnvOf(x, s3), r) == HereRes(k, s3.code, EnvOf(x, s3), r)
    requires forall j :: j in q ==> j !in l.t && j !in l.f
    ensures Carried(x, s4, k, With(l, sense, Side(l, sense) + q), o) == Carried(x, s3, k, l, o)
  {
    hide HereRes;
    if o.Exit? { assert SameTest(s3.code, s4.code, o.j); }
    if o.Fall? { assert HereRes(k, s4.code, EnvOf(x, s3), o.regs) == HereRes(k, s3.code, EnvOf(x, s3), o.regs); }
  }

  /** The jumps of the list set aside still leave with values of its sense. */
  lemma AsideSane(x: Ctx, c2: seq<Instr>, q: seq<nat>, s3: Fs, k: Kind, l: Lists, sense: bool, base: nat, b: Expr, o2: Out, o3: Out)
    requires Computed(x, s3, k, l, base, b, o2, o3) && Sane(c2, With(None, sense, q), o2) && !o3.Stuck?
    requires forall j :: j in q ==> SameTest(c2, s3.code, j) && j !in l.t && j !in l.f
    ensures Sane(s3.code, With(None, sense, q), o3)
  {
    hide HereRes, Eval;
  }

  lemma AsideTests(s2: Fs, s3: Fs, outer: set<nat>, q: seq<nat>, e: Exp, l: Lists)
    requires SameJumps(s2.code, s3.code, outer + Elems(q)) && ListIs(s2.code, Head(q), q)
    requires Linked(s3, outer + Elems(q), e, l)
    ensures forall j :: j in q ==> SameTest(s2.code, s3.code, j) && j !in l.t && j !in l.f
  {
    forall j | j in q ensures SameTest(s2.code, s3.code, j) && j !in l.t && j !in l.f {
      assert j in outer + Elems(q) && j in outer + Elems(q) + Own(e.k);
      ListJump(s2.code, Head(q), q, j);
      assert (j in l.t) == (j in Elems(l.t)) && (j in l.f) == (j in Elems(l.f));
    }
  }

  /** a and b, a or b. */
  lemma ComputeLogical(x: Ctx, s: Fs, s2: Fs, s3: Fs, outer: set<nat>, q: seq<nat>,
                       k: Kind, l: Lists, sense: bool, base: nat, a: Expr, b: Expr)
    requires Deciding(x, s, s2, outer, q, sense, base, a)
    requires Ok(x, s2, outer, Heads(VNil, With(None, !sense, q)), With(None, !sense, q))
    requires Ok(x, s3, outer + Elems(q), Heads(k, l), l) && Computing(x, s2, s3, outer + Elems(q), k, l, base, b)
    requires Scoped(b, base)
    ensures var s4 := s3.(code := Joined(s3.code, Side(l, !sense), q)); var l4 := With(l, !sense, Side(l, !sense) + q);
            && Ok(x, s4, outer, Heads(k, l4), l4)
            && (Proper(x, s3, k) ==> Proper(x, s4, k))
            && Computing(x, s, s4, outer, k, l4, base, Logical(sense, a, b))
            && ListIs(s3.code, Head(q), q)
  {
    hide Flow, Flows, Clean, Linked, Nilable, KindOk, SameJumps, Computed, Decided, Carried, Eval, Proper, SameTest, HereRes,
         Joined, ListIs, Scoped, Logical, Sane;
    var s4 := s3.(code := Joined(s3.code, Side(l, !sense), q));
    var l4 := With(l, !sense, Side(l, !sense) + q);
    SetAside(x, s2, outer, q, !sense);
    AsideTests(s2, s3, outer, q, Heads(k, l), l);
    SameJumpsSub(s2.code, s3.code, outer + Elems(q), Elems(q));
    SameJumpsSub(s2.code, s3.code, outer + Elems(q), outer);
    StillListed(s2, s3, q);
    forall r0: Regs | Clean(x, r0)
      ensures Sane(s3.code, With(None, !sense, q), Flow(x, s3, outer + Elems(q), k, l, r0))
    {
      FlowNotStuck(x, s2, outer, VNil, With(None, !sense, q), r0);
      FlowNotStuck(x, s3, outer + Elems(q), k, l, r0);
      AsideSane(x, s2.code, q, s3, k, l, !sense, base, b, Flow(x, s2, outer, VNil, With(None, !sense, q), r0),
                Flow(x, s3, outer + Elems(q), k, l, r0));
    }
    Merge(x, s3, outer, k, l, q, !sense);
    SameJumpsTrans(s.code, s2.code, s3.code, outer);
    SameJumpsTrans(s.code, s3.code, s4.code, outer);
    forall r0: Regs | Clean(x, r0)
      ensures Computed(x, s4, k, l4, base, Logical(sense, a, b), Flow(x, s, outer, VNil, None, r0), Flow(x, s4, outer, k, l4, r0))
    {
      LogicalOne(x, s2.code, q, s3, s4, k, l, sense, base, a, b, Flow(x, s, outer, VNil, None, r0),
                 Flow(x, s2, outer, VNil, With(None, !sense, q), r0), Flow(x, s3, outer + Elems(q), k, l, r0));
    }
  }

  lemma StillListed(s2: Fs, s3: Fs, q: seq<nat>)
    requires ListIs(s2.code, Head(q), q) && SameJumps(s2.code, s3.code, Elems(q))
    ensures ListIs(s3.code, Head(q), q)
  {
    forall k | 0 <= k < |q| ensures q[k] < |s3.code| && s3.code[q[k]] == JMP(LinkOf(q, k)) {
      assert q[k] in Elems(q);
    }
  }

  // ------------------------------------------------------------ comparisons

  /** codecomp: greater becomes less with the operands exchanged. */
  function CmpInstr(op: RelOp, o1: nat, o2: nat): Instr {
    match op
    case Eq => CMP(OpEq, true, o1, o2)
    case Ne => CMP(OpEq, false, o1, o2)
    case Lt => CMP(OpLt, true, o1, o2)
    case Le => CMP(OpLe, true, o1, o2)
    case Gt => CMP(OpLt, true, o2, o1)
    case Ge => CMP(OpLe, true, o2, o1)
  }

  lemma CmpMeans(op: RelOp, o1: nat, o2: nat, env: Env, r: Regs, v: Value, w: Value)
    requires RkVal(env.ks, r, o1) == Known(v) && RkVal(env.ks, r, o2) == Known(w)
    ensures TestOk(CmpInstr(op, o1, o2), env.ks)
    ensures TakenRes(CmpInstr(op, o1, o2), env, r) ==
            match Relate(env.cmp, op, v, w)
            case Yes => Val(Bool(true))
            case No => Val(Bool(false))
            case Raise => Fails
  {
  }

  lemma RkKept(ks: seq<Value>, ks': seq<Value>, r: Regs, r': Regs, o: nat, base: nat)
    requires ks <= ks' && Kept(r, r', base) && (o < base || o >= BITRK) && !RkVal(ks, r, o).Bad?
    ensures RkVal(ks', r', o) == RkVal(ks, r, o)
  {
  }

  /** A run that reached the operand has its value in o, or raised an error. */
  ghost predicate Fetched(x: Ctx, ks: seq<Value>, o: nat, base: nat, e: Expr, b: Out, a: Out) {
    match b
    case Fall(r) =>
      (match Eval(x.cmp, e, r)
       case Val(v) => a.Fall? && Kept(r, a.regs, base) && RkVal(ks, a.regs, o) == Known(v)
       case Fails => a == Raised)
    case _ => a == b
  }

  ghost predicate Fetching(x: Ctx, s: Fs, s': Fs, outer: set<nat>, o: nat, base: nat, e: Expr) {
    && SameJumps(s.code, s'.code, outer)
    && forall r0: Regs :: Clean(x, r0) ==>
         Fetched(x, s'.ks, o, base, e, Flow(x, s, outer, VNil, None, r0), Flow(x, s', outer, VNil, None, r0))
  }

  lemma FetchOne(x: Ctx, s1: Fs, k: Kind, l: Lists, ks: seq<Value>, o: nat, base: nat, e: Expr, f0: Out, f1: Out, f2: Out)
    requires Computed(x, s1, k, l, base, e, f0, f1) && Held(Carried(x, s1, k, l, f1), f2, ks, o, base)
    requires !f0.Stuck? && (f0.Exit? ==> Carried(x, s1, k, l, f0) == Gone(f0))
    ensures Fetched(x, ks, o, base, e, f0, f2)
  {
    hide HereRes, ExitVal, Eval, RkVal;
    var t1 := Carried(x, s1, k, l, f1);
    if f0.Fall? && t1.Has? { KeptTrans(f0.regs, t1.regs, f2.regs, base); }
  }

  /** Computing an operand and putting it where the comparison wants it. */
  lemma Fetch(x: Ctx, s: Fs, s1: Fs, s2: Fs, outer: set<nat>, k: Kind, l: Lists, o: nat, base: nat, e: Expr)
    requires Ok(x, s, outer, Heads(VNil, None), None) && Computing(x, s, s1, outer, k, l, base, e)
    requires Ok(x, s1, outer, Heads(k, l), l) && Holding(x, s1, s2, outer, k, l, o, base)
    ensures Fetching(x, s, s2, outer, o, base, e)
  {
    hide Flow, Flows, Clean, Linked, Nilable, KindOk, SameJumps, Computed, Held, Carried, Eval, Fetched;
    SameJumpsTrans(s.code, s1.code, s2.code, outer);
    forall r0: Regs | Clean(x, r0)
      ensures Fetched(x, s2.ks, o, base, e, Flow(x, s, outer, VNil, None, r0), Flow(x, s2, outer, VNil, None, r0))
    {
      var f0 := Flow(x, s, outer, VNil, None, r0);
      FlowNotStuck(x, s, outer, VNil, None, r0);
      OuterExit(x, s, outer, r0);
      GoneOuter(x, s1, outer, Heads(k, l), l, f0);
      FetchOne(x, s1, k, l, s2.ks, o, base, e, f0, Flow(x, s1, outer, k, l, r0), Flow(x, s2, outer, VNil, None, r0));
    }
  }

  /** One run through both operands: both values are at hand for the comparison. */
  lemma OperandsOne(x: Ctx, ks2: seq<Value>, ks4: seq<Value>, o1: nat, o2: nat, base: nat, base2: nat, a: Expr, b: Expr,
                    f0: Out, f2: Out, f4: Out)
    requires f0.Fall? && Fetched(x, ks2, o1, base, a, f0, f2) && Fetched(x, ks4, o2, base2, b, f2, f4)
    requires base <= base2 && Scoped(b, base) && ks2 <= ks4 && (o1 < base2 || o1 >= BITRK)
    ensures var va := Eval(x.cmp, a, f0.regs); var vb := Eval(x.cmp, b, f0.regs);
            if va.Fails? || vb.Fails? then f4 == Raised
            else f4.Fall? && Kept(f0.regs, f4.regs, base) &&
                 RkVal(ks4, f4.regs, o1) == Known(va.v) && RkVal(ks4, f4.regs, o2) == Known(vb.v)
  {
    hide Scoped, Eval, RkVal;
    if f2.Fall? {
      EvalKept(x.cmp, b, base, f0.regs, f2.regs);
      if f4.Fall? {
        RkKept(ks2, ks4, f2.regs, f4.regs, o1, base2);
        KeptLess(f2.regs, f4.regs, base2, base);
        KeptTrans(f0.regs, f2.regs, f4.regs, base);
      }
    }
  }

  lemma CompareOne(x: Ctx, s5: Fs, j: nat, op: RelOp, o1: nat, o2: nat, base: nat, a: Expr, b: Expr, f0: Out, f4: Out)
    requires f0.Fall? && 0 < j <= |s5.code| && s5.code[j - 1] == CmpInstr(op, o1, o2)
    requires var va := Eval(x.cmp, a, f0.regs); var vb := Eval(x.cmp, b, f0.regs);
             if va.Fails? || vb.Fails? then f4 == Raised
             else f4.Fall? && Kept(f0.regs, f4.regs, base) &&
                  RkVal(s5.ks, f4.regs, o1) == Known(va.v) && RkVal(s5.ks, f4.regs, o2) == Known(vb.v)
    ensures Computed(x, s5, VJmp(j), None, base, ERel(op, a, b), f0, f4)
  {
    hide RkVal, CmpInstr, TakenRes, TestOk, Relate;
    var va, vb := Eval(x.cmp, a, f0.regs), Eval(x.cmp, b, f0.regs);
    if va.Val? && vb.Val? { CmpMeans(op, o1, o2, EnvOf(x, s5), f4.regs, va.v, vb.v); }
  }

  /** a < b and the like. */
  lemma ComputeCompare(x: Ctx, s: Fs, s2: Fs, s4: Fs, outer: set<nat>, e4: Exp, op: RelOp, o1: nat, o2: nat,
                       base: nat, base2: nat, a: Expr, b: Expr)
    requires Ok(x, s, outer, Heads(VNil, None), None) && Fetching(x, s, s2, outer, o1, base, a)
    requires Fetching(x, s2, s4, outer, o2, base2, b) && Ok(x, s4, outer, e4, None) && Plain(e4.k)
    requires base <= base2 && Scoped(b, base) && s2.ks <= s4.ks && (o1 < base2 || o1 >= BITRK)
    requires RkOk(o1, s4.ks) && RkOk(o2, s4.ks)
    ensures var s5 := Emit(s4, [CmpInstr(op, o1, o2), JMP(NO_JUMP)]); var k := VJmp(|s4.code| + 1);
            && Ok(x, s5, outer, Heads(k, None), None) && Proper(x, s5, k)
            && Computing(x, s, s5, outer, k, None, base, ERel(op, a, b))
  {
    hide Flow, Flows, Clean, Linked, Nilable, KindOk, SameJumps, Computed, Fetched, Carried, Eval, Scoped, Emit, RkOk;
    var i := CmpInstr(op, o1, o2);
    var s5, k := Emit(s4, [i, JMP(NO_JUMP)]), VJmp(|s4.code| + 1);
    RkTest(op, o1, o2, s4.ks);
    LinkedHeads(s4, outer, e4, None);
    EmitTest(x, s4, outer, e4, None, i);
    EmitEnds(s4, i);
    EmitKind(x, s5, k, op, o1, o2);
    SameJumpsSub(s4.code, s5.code, outer + Elems(None.t) + Elems(None.f), outer);
    SameJumpsTrans(s.code, s2.code, s4.code, outer);
    SameJumpsTrans(s.code, s4.code, s5.code, outer);
    forall r0: Regs | Clean(x, r0)
      ensures Computed(x, s5, k, None, base, ERel(op, a, b), Flow(x, s, outer, VNil, None, r0), Flow(x, s5, outer, k, None, r0))
    {
      PlainFlow(x, s4, outer, e4.k, VNil, None, r0);
      CompareRun(x, s, s2, s4, s5, outer, op, o1, o2, base, base2, a, b, r0);
    }
  }

  lemma RkTest(op: RelOp, o1: nat, o2: nat, ks: seq<Value>)
    requires RkOk(o1, ks) && RkOk(o2, ks)
    ensures TestOk(CmpInstr(op, o1, o2), ks)
  {
  }

  lemma EmitKind(x: Ctx, s: Fs, k: Kind, op: RelOp, o1: nat, o2: nat)
    requires KindOk(x, s, k) && k.VJmp? && s.code[k.info - 1] == CmpInstr(op, o1, o2)
    ensures Proper(x, s, k)
  {
  }

  lemma CompareRun(x: Ctx, s: Fs, s2: Fs, s4: Fs, s5: Fs, outer: set<nat>, op: RelOp, o1: nat, o2: nat,
                   base: nat, base2: nat, a: Expr, b: Expr, r0: Regs)
    requires Clean(x, r0) && s5.ks == s4.ks && |s5.code| == |s4.code| + 2 && s5.code[|s4.code|] == CmpInstr(op, o1, o2)
    requires Fetched(x, s2.ks, o1, base, a, Flow(x, s, outer, VNil, None, r0), Flow(x, s2, outer, VNil, None, r0))
    requires Fetched(x, s4.ks, o2, base2, b, Flow(x, s2, outer, VNil, None, r0), Flow(x, s4, outer, VNil, None, r0))
    requires base <= base2 && Scoped(b, base) && s2.ks <= s4.ks && (o1 < base2 || o1 >= BITRK)
    requires Flow(x, s5, outer, VJmp(|s4.code| + 1), None, r0) == Flow(x, s4, outer, VNil, None, r0)
    ensures Computed(x, s5, VJmp(|s4.code| + 1), None, base, ERel(op, a, b), Flow(x, s, outer, VNil, None, r0),
                     Flow(x, s5, outer, VJmp(|s4.code| + 1), None, r0))
  {
    hide Flow, Clean, HereRes, Scoped, Eval, Kept, ExitVal, RkVal;
    var f0, f2, f4 := Flow(x, s, outer, VNil, None, r0), Flow(x, s2, outer, VNil, None, r0), Flow(x, s4, outer, VNil, None, r0);
    if f0.Fall? {
      OperandsOne(x, s2.ks, s4.ks, o1, o2, base, base2, a, b, f0, f2, f4);
      CompareOne(x, s5, |s4.code| + 1, op, o1, o2, base, a, b, f0, f4);
    }
  }
}
