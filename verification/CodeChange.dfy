/** The other changes to the code: dropped values, inverted tests, removed and
    completed NOTs, new constants, tests with their jump, merged LOADNILs. */
module CodeChange {
  import opened CodeVm
  import opened CodeRun
  import opened CodeLists
  import opened CodeSem
  import opened CodeFlow
  import opened CodeEmit
  import opened CodeLink

  /** A change of the code that no run to the expression can see. */
  lemma Unseen(x: Ctx, s: Fs, outer: set<nat>, k: Kind, l: Lists, s': Fs, k': Kind, l': Lists, r0: Regs)
    requires s.ks <= s'.ks && s'.pend == s.pend && Opens(s, Open(s, outer, k, l))
    requires EndOf(k', s'.code) == EndOf(k, s.code) >= 0
    requires Touched(s.code, Open(s, outer, k, l), s'.code, EndOf(k, s.code))
    requires forall j :: j < EndOf(k, s.code) ==> (j in Open(s', outer, k', l') <==> j in Open(s, outer, k, l))
    requires !Flow(x, s, outer, k, l, r0).Stuck?
    ensures Flow(x, s', outer, k', l', r0) == Flow(x, s, outer, k, l, r0)
  {
    hide Run, Open, TouchedAt;
    var n := EndOf(k, s.code);
    TouchedRelinked(s.code, Open(s, outer, k, l), s'.code, Open(s', outer, k', l'), n);
    RunSame(x, s, Open(s, outer, k, l), s', Open(s', outer, k', l'), n, r0);
  }

  lemma SameTouched(c: seq<Instr>, open: set<nat>, c': seq<Instr>, n: nat)
    requires n <= |c| && n <= |c'| && forall p :: 0 <= p < n ==> c'[p] == c[p]
    ensures Touched(c, open, c', n)
  {
  }

  // ----------------------------------------------------------- new constants

  lemma MoreConstants(x: Ctx, s: Fs, outer: set<nat>, e: Exp, l: Lists, ks': seq<Value>)
    requires Ok(x, s, outer, e, l) && s.ks <= ks'
    ensures Ok(x, s.(ks := ks'), outer, e, l)
    ensures Proper(x, s, e.k) ==> Proper(x, s.(ks := ks'), e.k)
    ensures forall r0: Regs :: Clean(x, r0) ==>
              Flow(x, s.(ks := ks'), outer, e.k, l, r0) == Flow(x, s, outer, e.k, l, r0)
    ensures forall r: Regs :: HereRes(e.k, s.code, Env(x.cmp, ks'), r) == HereRes(e.k, s.code, EnvOf(x, s), r)
  {
    hide Linked, Flow, Clean, Sane, RunTo, Open;
    var s' := s.(ks := ks');
    LinkedOpens(s, outer, e, l, x);
    LinkedPart(s, s', outer, e, l);
    SameOpen(s, s', outer, e.k, l);
    SameTouched(s.code, Open(s, outer, e.k, l), s.code, EndOf(e.k, s.code));
    forall r0: Regs | Clean(x, r0)
      ensures Flow(x, s', outer, e.k, l, r0) == Flow(x, s, outer, e.k, l, r0)
      ensures Nilable(x, s, Open(s, outer, e.k, l)) && s.last < |s.code| && s.code != [] && s.code[|s.code| - 1].LOADNIL? ==>
                !RunTo(x, s', Open(s', outer, e.k, l), r0, |s.code| - 1).Stuck?
    {
      SaneNot(s.code, l, Flow(x, s, outer, e.k, l, r0));
      Unseen(x, s, outer, e.k, l, s', e.k, l, r0);
      if s.last < |s.code| && s.code != [] && s.code[|s.code| - 1].LOADNIL? {
        SameTouched(s.code, Open(s, outer, e.k, l), s.code, |s.code| - 1);
        TouchRun(x, s, Open(s, outer, e.k, l), s', |s.code| - 1, r0);
      }
    }
    forall r: Regs ensures HereRes(e.k, s.code, EnvOf(x, s'), r) == HereRes(e.k, s.code, EnvOf(x, s), r) {
      HereMore(x, s, e.k, ks', r);
    }
  }

  lemma HereMore(x: Ctx, s: Fs, k: Kind, ks': seq<Value>, r: Regs)
    requires KindOk(x, s, k) && s.ks <= ks'
    ensures HereRes(k, s.code, Env(x.cmp, ks'), r) == HereRes(k, s.code, EnvOf(x, s), r)
  {
    if k.VJmp? && s.code[k.info - 1].CMP? {
      var i := s.code[k.info - 1];
      assert RkVal(ks', r, i.rkb) == RkVal(s.ks, r, i.rkb);
      assert RkVal(ks', r, i.rkc) == RkVal(s.ks, r, i.rkc);
    }
  }

  lemma LinkedPart(s: Fs, s': Fs, outer: set<nat>, e: Exp, l: Lists)
    requires Linked(s, outer, e, l) && s'.code == s.code && s'.jpc == s.jpc && s'.pend == s.pend
    requires s'.pend != [] ==> s'.last == s.last
    ensures Linked(s', outer, e, l)
  {
  }

  lemma SameOpen(s: Fs, s': Fs, outer: set<nat>, k: Kind, l: Lists)
    requires s'.pend == s.pend
    ensures Open(s', outer, k, l) == Open(s, outer, k, l)
  {
  }

  // ------------------------------------------------------ registers, labels

  /** Registers taken and freed, and labels, change no run. */
  lemma Bookkeeping(x: Ctx, s: Fs, outer: set<nat>, e: Exp, l: Lists, last': int, free': nat, k': Kind)
    requires Ok(x, s, outer, e, l) && x.nactvar <= free' < MAXSTACK && (last' == s.last || last' == |s.code|)
    requires Plain(k') == Plain(e.k) && (!Plain(k') ==> k' == e.k)
    ensures var s' := s.(last := last', free := free');
            && (KindOk(x, s', k') ==> Ok(x, s', outer, Exp(k', e.t, e.f), l))
            && forall r0: Regs :: Flow(x, s', outer, k', l, r0) == Flow(x, s, outer, e.k, l, r0)
  {
    hide Linked, Clean, Sane, Run, KindOk, Open;
    var s' := s.(last := last', free := free');
    PlainOpen(s, s', outer, e.k, k', l);
    LinkedPending(s, outer, e, l);
    LinkedKind(s, s', outer, e, l, k');
  }

  lemma PlainOpen(s: Fs, s': Fs, outer: set<nat>, k: Kind, k': Kind, l: Lists)
    requires s'.pend == s.pend && Own(k') == Own(k)
    ensures Open(s', outer, k', l) == Open(s, outer, k, l)
  {
  }

  lemma LinkedKind(s: Fs, s': Fs, outer: set<nat>, e: Exp, l: Lists, k': Kind)
    requires Linked(s, outer, e, l) && s'.code == s.code && s'.jpc == s.jpc && s'.pend == s.pend
    requires s'.pend != [] ==> s'.last == |s.code|
    requires Own(k') == Own(e.k)
    ensures Linked(s', outer, Exp(k', e.t, e.f), l)
  {
  }

  lemma LinkedPending(s: Fs, outer: set<nat>, e: Exp, l: Lists)
    requires Linked(s, outer, e, l)
    ensures s.pend != [] ==> s.last == |s.code|
  {
  }

  // -------------------------------------------------------- dropped values

  function Dropped(c: seq<Instr>, l: Lists): (c': seq<Instr>) {
    DropValues(DropValues(c, l.t), l.f)
  }

  lemma DroppedAt(c: seq<Instr>, l: Lists)
    ensures |Dropped(c, l)| == |c|
    ensures forall p :: 0 <= p < |c| ==>
              Dropped(c, l)[p] == if (p + 1 in l.t || p + 1 in l.f) && c[p].TESTSET? then TEST(c[p].b, c[p].c) else c[p]
  {
  }

  lemma DroppedFacts(c: seq<Instr>, l: Lists, open: set<nat>, outer: set<nat>)
    requires Elems(l.t) + Elems(l.f) <= open && outer <= open && Apart(outer, Elems(l.t) + Elems(l.f))
    requires forall j :: j in open ==> j < |c| && c[j].JMP?
    ensures var c' := Dropped(c, l);
            && |c'| == |c|
            && Touched(c, open, c', |c|)
            && SameJumps(c, c', outer)
            && (forall j :: j in l.t || j in l.f ==> !HasTestset(c', j))
            && (forall p :: 0 <= p < |c| && !c[p].TESTSET? ==> c'[p] == c[p])
            && (forall p :: 0 <= p < |c| && c[p].TESTSET? ==> !c'[p].LOADNIL? && TestSame(c'[p], c[p]))
            && (forall p :: 0 <= p < |c| && p + 1 !in l.t && p + 1 !in l.f ==> c'[p] == c[p])
  {
    var c' := Dropped(c, l);
    DroppedAt(c, l);
    forall p | 0 <= p < |c| ensures TouchedAt(c, open, c', p) {
      assert p + 1 in l.t ==> p + 1 in Elems(l.t);
      assert p + 1 in l.f ==> p + 1 in Elems(l.f);
    }
    forall j | j in outer && j < |c| ensures c'[j] == c[j] && SameTest(c, c', j) {
      assert j in l.t ==> j in Elems(l.t);
      assert j in l.f ==> j in Elems(l.f);
    }
    forall j | j in l.t || j in l.f ensures !HasTestset(c', j) {
      assert j in Elems(l.t) + Elems(l.f);
    }
  }

  predicate TestSame(i: Instr, j: Instr) {
    i == j || (j.TESTSET? && i == TEST(j.b, j.c))
  }

  lemma DroppedLinked(s: Fs, outer: set<nat>, e: Exp, l: Lists)
    requires Linked(s, outer, e, l)
    ensures Linked(s.(code := Dropped(s.code, l)), outer, Exp(e.k, e.f, e.t), Lists(l.f, l.t))
    ensures Open(s.(code := Dropped(s.code, l)), outer, e.k, Lists(l.f, l.t)) == Open(s, outer, e.k, l)
    ensures Apart(outer, Elems(l.t) + Elems(l.f)) && Elems(l.t) + Elems(l.f) <= Open(s, outer, e.k, l) && outer <= Open(s, outer, e.k, l)
    ensures forall j :: j in Own(e.k) ==> j !in l.t && j !in l.f
  {
    hide ListIs, DropValues, Own;
    var c1 := DropValues(s.code, l.t);
    ListDropValues(s.code, l.t, s.jpc, s.pend);
    ListDropValues(s.code, l.t, e.t, l.t);
    ListDropValues(s.code, l.t, e.f, l.f);
    ListDropValues(c1, l.f, s.jpc, s.pend);
    ListDropValues(c1, l.f, e.t, l.t);
    ListDropValues(c1, l.f, e.f, l.f);
    DropKeepsJumps(s.code, l.t);
    DropKeepsJumps(c1, l.f);
    ApartSym(Elems(l.t), Elems(l.f));
    assert Open(s.(code := Dropped(s.code, l)), outer, e.k, Lists(l.f, l.t)) == Open(s, outer, e.k, l);
    forall j | j in Own(e.k) ensures j !in l.t && j !in l.f {
      assert j in outer + Own(e.k) && (j in l.t ==> j in Elems(l.t)) && (j in l.f ==> j in Elems(l.f));
    }
  }

  lemma DropKeepsJumps(c: seq<Instr>, s: seq<nat>)
    ensures |DropValues(c, s)| == |c|
    ensures forall p :: 0 <= p < |c| && c[p].JMP? ==> DropValues(c, s)[p].JMP?
  {
  }

  lemma SaneDropped(c: seq<Instr>, c': seq<Instr>, l: Lists, b: Out)
    requires Sane(c, l, b) && forall j :: j in l.t || j in l.f ==> !HasTestset(c', j)
    requires forall j :: j in l.t ==> j !in l.f
    ensures Sane(c', Lists(l.f, l.t), b)
  {
  }

  lemma ListsApart(s: Fs, outer: set<nat>, e: Exp, l: Lists)
    requires Linked(s, outer, e, l)
    ensures forall j :: j in l.t ==> j !in l.f
  {
    forall j | j in l.t ensures j !in l.f { assert j in Elems(l.t) && (j in l.f ==> j in Elems(l.f)); }
  }

  /** The lists of an expression change sides, without their values. */
  lemma SwapLists(x: Ctx, s: Fs, outer: set<nat>, e: Exp, l: Lists)
    requires Ok(x, s, outer, e, l)
    ensures var s' := s.(code := Dropped(s.code, l)); var l' := Lists(l.f, l.t);
            && Ok(x, s', outer, Exp(e.k, e.f, e.t), l')
            && (Proper(x, s, e.k) ==> Proper(x, s', e.k))
            && SameJumps(s.code, s'.code, outer)
            && (forall j :: j in l.t || j in l.f ==> !HasTestset(s'.code, j))
            && (forall env: Env, r: Regs :: HereRes(e.k, s'.code, env, r) == HereRes(e.k, s.code, env, r))
            && forall r0: Regs :: Clean(x, r0) ==>
                 Flow(x, s', outer, e.k, l', r0) == Flow(x, s, outer, e.k, l, r0)
  {
    hide Linked, Flow, Clean, SameJumps, Sane, SameTest, Dropped, ListIs, Open, KindOk, HereRes, HasTestset, RunTo, TouchedAt, Proper;
    var s' := s.(code := Dropped(s.code, l));
    var l' := Lists(l.f, l.t);
    var open := Open(s, outer, e.k, l);
    DroppedLinked(s, outer, e, l);
    LinkedOpens(s, outer, e, l, x);
    DroppedFacts(s.code, l, open, outer);
    DroppedKind(x, s, s', e.k);
    ListsApart(s, outer, e, l);
    forall r0: Regs | Clean(x, r0)
      ensures Flow(x, s', outer, e.k, l', r0) == Flow(x, s, outer, e.k, l, r0)
      ensures Sane(s'.code, l', Flow(x, s', outer, e.k, l', r0))
      ensures s.last < |s.code| && s.code != [] && s.code[|s.code| - 1].LOADNIL? ==>
                !RunTo(x, s', open, r0, |s.code| - 1).Stuck?
    {
      SaneNot(s.code, l, Flow(x, s, outer, e.k, l, r0));
      Unseen(x, s, outer, e.k, l, s', e.k, l', r0);
      SaneDropped(s.code, s'.code, l, Flow(x, s, outer, e.k, l, r0));
      if s.last < |s.code| && s.code != [] && s.code[|s.code| - 1].LOADNIL? {
        TouchRun(x, s, open, s', |s.code| - 1, r0);
      }
    }
  }

  lemma DroppedKind(x: Ctx, s: Fs, s': Fs, k: Kind)
    requires KindOk(x, s, k) && s' == s.(code := s'.code) && |s'.code| == |s.code|
    requires forall p :: 0 <= p < |s.code| && !s.code[p].TESTSET? ==> s'.code[p] == s.code[p]
    requires forall p :: 0 <= p < |s.code| && s.code[p].TESTSET? ==> TestSame(s'.code[p], s.code[p])
    ensures KindOk(x, s', k) && (Proper(x, s, k) ==> Proper(x, s', k))
    ensures forall env: Env, r: Regs :: HereRes(k, s'.code, env, r) == HereRes(k, s.code, env, r)
  {
    forall env: Env, r: Regs ensures HereRes(k, s'.code, env, r) == HereRes(k, s.code, env, r) {
      if k.VJmp? { assert s.code[k.info - 1].TESTSET? ==> TestSame(s'.code[k.info - 1], s.code[k.info - 1]); }
    }
  }

  // ------------------------------------------------------- inverted tests

  function Inverted(c: seq<Instr>, p: nat): seq<Instr>
    requires p < |c| && c[p].CMP?
  {
    c[p := c[p].(cond := !c[p].cond)]
  }

  lemma Invert(x: Ctx, s: Fs, outer: set<nat>, j: nat, e: Exp, l: Lists)
    requires Ok(x, s, outer, e, l) && e.k == VJmp(j) && s.code[j - 1].CMP?
    ensures var s' := s.(code := Inverted(s.code, j - 1));
            && Ok(x, s', outer, e, l) && Proper(x, s', e.k)
            && SameJumps(s.code, s'.code, outer)
            && (forall i :: SameTest(s.code, s'.code, i))
            && (forall r: Regs :: HereRes(e.k, s'.code, EnvOf(x, s), r) == NotRes(HereRes(e.k, s.code, EnvOf(x, s), r)))
            && forall r0: Regs :: Clean(x, r0) ==>
                 Flow(x, s', outer, e.k, l, r0) == Flow(x, s, outer, e.k, l, r0)
  {
    hide Linked, Flow, Clean, Sane, Open, RunTo, TouchedAt, RkVal, ExitVal;
    var s' := s.(code := Inverted(s.code, j - 1));
    LinkedOpens(s, outer, e, l, x);
    OpensApart(s, outer, e, l, j - 1, s', x);
    PlainOpen(s, s', outer, e.k, e.k, l);
    SameTouched(s.code, Open(s, outer, e.k, l), s'.code, EndOf(e.k, s.code));
    forall r0: Regs | Clean(x, r0)
      ensures Flow(x, s', outer, e.k, l, r0) == Flow(x, s, outer, e.k, l, r0)
      ensures Sane(s'.code, l, Flow(x, s', outer, e.k, l, r0))
    {
      SaneNot(s.code, l, Flow(x, s, outer, e.k, l, r0));
      Unseen(x, s, outer, e.k, l, s', e.k, l, r0);
      SaneAll(s.code, s'.code, l, Flow(x, s, outer, e.k, l, r0));
    }
  }

  function NotRes(r: Res): Res {
    match r
    case Val(v) => Val(Bool(!Truthy(v)))
    case Fails => Fails
  }

  lemma SaneAll(c: seq<Instr>, c': seq<Instr>, l: Lists, b: Out)
    requires Sane(c, l, b) && forall i :: SameTest(c, c', i)
    ensures Sane(c', l, b)
  {
    if b.Exit? { assert SameTest(c, c', b.j); }
  }

  /** An instruction that is not a jump may change without disturbing a list. */
  lemma OpensApart(s: Fs, outer: set<nat>, e: Exp, l: Lists, p: nat, s': Fs, x: Ctx)
    requires Linked(s, outer, e, l) && p < |s.code| && !s.code[p].JMP?
    requires |s'.code| == |s.code| && s' == s.(code := s.code[p := s'.code[p]])
    requires !s.code[p].TESTSET? && !s'.code[p].TESTSET?
    ensures Linked(s', outer, e, l)
    ensures SameJumps(s.code, s'.code, outer)
  {
    hide Disjoint, Own;
    ListOther(s.code, s'.code, p, s.jpc, s.pend);
    ListOther(s.code, s'.code, p, e.t, l.t);
    ListOther(s.code, s'.code, p, e.f, l.f);
  }

  lemma ListOther(c: seq<Instr>, c': seq<Instr>, p: nat, h: int, q: seq<nat>)
    requires ListIs(c, h, q) && p < |c| && !c[p].JMP? && |c'| == |c| && c' == c[p := c'[p]]
    ensures ListIs(c', h, q)
  {
    forall j | j in q && j < |c| ensures c'[j] == c[j] { ListJump(c, h, q, j); }
    ListSame(c, c', h, q);
  }

  // ------------------------------------------------- NOTs in hand

  /** The instruction before the end, executed. */
  lemma LastPlain(x: Ctx, s: Fs, open: set<nat>, r0: Regs)
    requires s.code != [] && x.origin < |s.code| && PlainInstr(s.code[|s.code| - 1], s.ks) && Opens(s, open)
    requires !RunTo(x, s, open, r0, |s.code| - 1).Stuck?
    ensures var b := RunTo(x, s, open, r0, |s.code| - 1);
            RunTo(x, s, open, r0, |s.code|) == if b.Fall? then Fall(Exec(s.code[|s.code| - 1], s.ks, b.regs)) else b
  {
    var n := |s.code| - 1;
    var env := EnvOf(x, s);
    SameTouched(s.code, open, s.code, n);
    TouchedRelinked(s.code, open, s.code, open, n);
    RunRelinked(s.code, open, env, s.code, open, env, x.origin, r0, n, |s.code|);
    RunExit(s.code, open, env, x.origin, r0, n);
    var b := RunTo(x, s, open, r0, n);
    if b.Fall? { ExecRun(s.code, open, env, n, b.regs); }
  }

  function Completed(c: seq<Instr>, p: nat, reg: nat): seq<Instr>
    requires p < |c| && c[p].NOT?
  {
    c[p := NOT(reg, c[p].b)]
  }

  /** A relocatable NOT gets its register. */
  lemma Complete(x: Ctx, s: Fs, outer: set<nat>, p: nat, e: Exp, l: Lists, reg: nat)
    requires Ok(x, s, outer, e, l) && e.k == VReloc(p) && reg < 256 && (reg < x.nactvar || reg == s.free - 1)
    ensures var s' := s.(code := Completed(s.code, p, reg)); var e' := Exp(VNonreloc(reg), e.t, e.f);
            && Ok(x, s', outer, e', l)
            && SameJumps(s.code, s'.code, outer)
            && (forall i :: SameTest(s.code, s'.code, i))
            && forall r0: Regs :: Clean(x, r0) ==>
                 var b := Flow(x, s, outer, e.k, l, r0);
                 Flow(x, s', outer, e'.k, l, r0) ==
                   if b.Fall? then Fall(b.regs[reg := Bool(!Truthy(b.regs[s.code[p].b]))]) else b
  {
    hide Linked, Flow, Clean, Sane, Open, RunTo, TouchedAt, ExitVal;
    var s' := s.(code := Completed(s.code, p, reg));
    var e' := Exp(VNonreloc(reg), e.t, e.f);
    LinkedOpens(s, outer, e, l, x);
    OpensApart(s, outer, e, l, p, s', x);
    LinkedKind(s', s', outer, e, l, e'.k);
    PlainOpen(s, s', outer, e.k, e'.k, l);
    SameTouched(s.code, Open(s, outer, e.k, l), s'.code, p);
    forall r0: Regs | Clean(x, r0)
      ensures var b := Flow(x, s, outer, e.k, l, r0);
              var a := Flow(x, s', outer, e'.k, l, r0);
              && a == (if b.Fall? then Fall(b.regs[reg := Bool(!Truthy(b.regs[s.code[p].b]))]) else b)
              && Sane(s'.code, l, a)
    {
      var b := Flow(x, s, outer, e.k, l, r0);
      SaneNot(s.code, l, b);
      CompleteFlow(x, s, outer, p, l, reg, r0);
      SaneAll(s.code, s'.code, l, b);
      SaneFall(s'.code, l);
    }
  }

  lemma SaneFall(c: seq<Instr>, l: Lists)
    ensures forall r: Regs :: Sane(c, l, Fall(r))
  {
  }

  lemma CompleteFlow(x: Ctx, s: Fs, outer: set<nat>, p: nat, l: Lists, reg: nat, r0: Regs)
    requires KindOk(x, s, VReloc(p)) && reg < 256 && x.origin <= p
    requires Opens(s, Open(s, outer, VReloc(p), l))
    requires !Flow(x, s, outer, VReloc(p), l, r0).Stuck?
    ensures var s' := s.(code := Completed(s.code, p, reg)); var b := Flow(x, s, outer, VReloc(p), l, r0);
            Flow(x, s', outer, VNonreloc(reg), l, r0) ==
              if b.Fall? then Fall(b.regs[reg := Bool(!Truthy(b.regs[s.code[p].b]))]) else b
  {
    hide Run, Open;
    var s' := s.(code := Completed(s.code, p, reg));
    var open := Open(s, outer, VReloc(p), l);
    PlainOpen(s, s', outer, VReloc(p), VNonreloc(reg), l);
    SameTouched(s.code, open, s'.code, p);
    TouchRun(x, s, open, s', p, r0);
    LastPlain(x, s', open, r0);
  }

  /** jumponcond removes the NOT again. */
  lemma Trim(x: Ctx, s: Fs, outer: set<nat>, p: nat, e: Exp, l: Lists)
    requires Ok(x, s, outer, e, l) && e.k == VReloc(p)
    ensures var s' := s.(code := s.code[..p]); var e' := Exp(VNil, e.t, e.f);
            && Core(x, s', outer, e', l)
            && SameJumps(s.code, s'.code, outer + Elems(l.t) + Elems(l.f))
            && forall r0: Regs :: Clean(x, r0) ==> Flow(x, s', outer, VNil, l, r0) == Flow(x, s, outer, e.k, l, r0)
  {
    hide Flow, Clean, Sane, Open, RunTo, TouchedAt, ExitVal, Linked;
    var s' := s.(code := s.code[..p]);
    var e' := Exp(VNil, e.t, e.f);
    LinkedOpens(s, outer, e, l, x);
    TrimLinked(x, s, outer, p, e, l);
    PlainOpen(s, s', outer, e.k, VNil, l);
    SameTouched(s.code, Open(s, outer, e.k, l), s'.code, p);
    EmittedOpens(x, s, outer, e, l);
    forall r0: Regs | Clean(x, r0)
      ensures Flow(x, s', outer, VNil, l, r0) == Flow(x, s, outer, e.k, l, r0)
      ensures Sane(s'.code, l, Flow(x, s', outer, VNil, l, r0))
    {
      var b := Flow(x, s, outer, e.k, l, r0);
      SaneNot(s.code, l, b);
      Unseen(x, s, outer, e.k, l, s', VNil, l, r0);
      SaneTrim(x, s, outer, e, l, p, b);
    }
  }

  lemma SaneTrim(x: Ctx, s: Fs, outer: set<nat>, e: Exp, l: Lists, p: nat, b: Out)
    requires Sane(s.code, l, b) && p <= |s.code| && SameJumps(s.code, s.code[..p], outer + Elems(l.t) + Elems(l.f))
    requires forall j :: j in outer + Elems(l.t) + Elems(l.f) ==> j < |s.code|
    ensures Sane(s.code[..p], l, b)
  {
    if b.Exit? && (b.j in l.t || b.j in l.f) {
      assert b.j in outer + Elems(l.t) + Elems(l.f);
    }
  }

  lemma TrimLinked(x: Ctx, s: Fs, outer: set<nat>, p: nat, e: Exp, l: Lists)
    requires Linked(s, outer, e, l) && KindOk(x, s, e.k) && e.k == VReloc(p)
    ensures Linked(s.(code := s.code[..p]), outer, Exp(VNil, e.t, e.f), l)
    ensures SameJumps(s.code, s.code[..p], outer + Elems(l.t) + Elems(l.f))
  {
    hide Disjoint, Own, ListIs;
    ListTrim(s.code, p, s.jpc, s.pend);
    ListTrim(s.code, p, e.t, l.t);
    ListTrim(s.code, p, e.f, l.f);
    LinkedOpens(s, outer, e, l, x);
    TrimSame(s.code, p, outer + Elems(l.t) + Elems(l.f));
    assert Own(VNil) == Own(e.k) == {} by { OwnNone(e.k); OwnNone(VNil); }
  }

  lemma OwnNone(k: Kind)
    requires !k.VJmp?
    ensures Own(k) == {}
  {
  }

  lemma TrimSame(c: seq<Instr>, p: nat, js: set<nat>)
    requires p == |c| - 1 && c[p].NOT? && forall j :: j in js ==> j < |c| && c[j].JMP?
    ensures SameJumps(c, c[..p], js)
  {
    forall j | j in js && j < |c| ensures j < p && c[..p][j] == c[j] && SameTest(c, c[..p], j) { }
  }

  lemma ListTrim(c: seq<Instr>, p: nat, h: int, q: seq<nat>)
    requires ListIs(c, h, q) && p == |c| - 1 && c[p].NOT?
    ensures ListIs(c[..p], h, q)
  {
    hide Distinct, LinkOf;
    forall k | 0 <= k < |q| ensures q[k] < p && c[..p][q[k]] == JMP(LinkOf(q, k)) {
      assert c[q[k]] == JMP(LinkOf(q, k));
    }
  }
}
