/** Tests with their jump, merged LOADNILs, and closing the lists of an
    expression whose value goes into a register. */
module CodeStore {
  import opened CodeVm
  import opened CodeLists
  import opened CodeSem
  import opened CodeFlow
  import opened CodeEmit
  import opened CodeLink
  import opened CodeChange

  // ------------------------------------------------------------- condjump

  lemma TestLinked(x: Ctx, s: Fs, outer: set<nat>, e: Exp, l: Lists, i: Instr)
    requires Linked(s, outer, e, l) && KindOk(x, s, e.k) && Plain(e.k)
    ensures var s' := Emit(s, [i, JMP(NO_JUMP)]); var k' := VJmp(|s.code| + 1);
            && Linked(s', outer, Exp(k', e.t, e.f), l)
            && SameJumps(s.code, s'.code, outer + Elems(l.t) + Elems(l.f))
            && forall j :: j < |s.code| ==> (j in Open(s', outer, k', l) <==> j in Open(s, outer, e.k, l) && j !in s.pend)
  {
    hide ListIs, SameJumps, Retarget;
    var s' := Emit(s, [i, JMP(NO_JUMP)]);
    EmitLinked(x, s, outer, e, l, [i, JMP(NO_JUMP)], VNil);
    LinkedOpens(s, outer, e, l, x);
    EmitOpen(x, s, [i, JMP(NO_JUMP)], outer, e, l, VNil);
    forall j | j in outer + Elems(l.t) + Elems(l.f) ensures j < |s.code| { }
  }

  lemma TestFlow(x: Ctx, s: Fs, outer: set<nat>, e: Exp, l: Lists, i: Instr, r0: Regs)
    requires Linked(s, outer, e, l) && KindOk(x, s, e.k) && Plain(e.k) && x.origin <= |s.code|
    requires !Flow(x, s, outer, e.k, l, r0).Stuck?
    ensures Flow(x, Emit(s, [i, JMP(NO_JUMP)]), outer, VJmp(|s.code| + 1), l, r0) == Flow(x, s, outer, e.k, l, r0)
  {
    hide Linked, KindOk, Run;
    var s' := Emit(s, [i, JMP(NO_JUMP)]);
    var open, open' := Open(s, outer, e.k, l), Open(s', outer, VJmp(|s.code| + 1), l);
    LinkedOpens(s, outer, e, l, x);
    TestLinked(x, s, outer, e, l, i);
    RunEmitted(x, s, open, [i, JMP(NO_JUMP)], open', r0, |s.code|);
    var b := Flow(x, s, outer, e.k, l, r0);
    if b.Fall? { RunDone(s'.code, open', EnvOf(x, s'), |s.code|, b.regs); }
  }

  lemma EmitTest(x: Ctx, s: Fs, outer: set<nat>, e: Exp, l: Lists, i: Instr)
    requires Core(x, s, outer, e, l) && Plain(e.k) && TestOk(i, s.ks)
    ensures var s' := Emit(s, [i, JMP(NO_JUMP)]); var k' := VJmp(|s.code| + 1);
            && Ok(x, s', outer, Exp(k', e.t, e.f), l)
            && SameJumps(s.code, s'.code, outer + Elems(l.t) + Elems(l.f))
            && forall r0: Regs :: Clean(x, r0) ==> Flow(x, s', outer, k', l, r0) == Flow(x, s, outer, e.k, l, r0)
  {
    hide Linked, Flow, RunTo, Clean, SameJumps, Sane, Open, TestOk;
    var s' := Emit(s, [i, JMP(NO_JUMP)]);
    var k' := VJmp(|s.code| + 1);
    TestLinked(x, s, outer, e, l, i);
    EmittedOpens(x, s, outer, e, l);
    assert s'.code[|s.code|] == i && s'.code[|s.code| + 1] == JMP(NO_JUMP) && |s'.code| == |s.code| + 2;
    forall r0: Regs | Clean(x, r0)
      ensures Flow(x, s', outer, k', l, r0) == Flow(x, s, outer, e.k, l, r0)
      ensures Sane(s'.code, l, Flow(x, s', outer, k', l, r0))
    {
      var b := Flow(x, s, outer, e.k, l, r0);
      SaneNot(s.code, l, b);
      TestFlow(x, s, outer, e, l, i, r0);
      SaneSame(s.code, s'.code, l, b, b, outer + Elems(l.t) + Elems(l.f));
    }
  }

  // ------------------------------------------------------------- luaK_nil

  predicate Mergeable(s: Fs, from: nat) {
    && s.last < |s.code| && s.code != [] && s.code[|s.code| - 1].LOADNIL?
    && s.code[|s.code| - 1].a <= from <= s.code[|s.code| - 1].b + 1
  }

  function Merged(s: Fs, from: nat, n: nat): Fs
    requires Mergeable(s, from) && n > 0
  {
    var i := s.code[|s.code| - 1];
    s.(code := s.code[|s.code| - 1 := LOADNIL(i.a, if from + n - 1 > i.b then from + n - 1 else i.b)])
  }

  lemma NilsJoin(r: Regs, a: nat, b: nat, from: nat, n: nat)
    requires a <= from <= b + 1 && n > 0
    ensures SetNils(r, a, if from + n - 1 > b then from + n - 1 else b) == SetNils(SetNils(r, a, b), from, from + n - 1)
  {
  }

  lemma MergeNilsFlow(x: Ctx, s: Fs, open: set<nat>, from: nat, n: nat, r0: Regs)
    requires Mergeable(s, from) && n > 0 && Opens(s, open) && x.origin < |s.code|
    requires !RunTo(x, s, open, r0, |s.code| - 1).Stuck?
    ensures var b := RunTo(x, s, open, r0, |s.code|);
            RunTo(x, Merged(s, from, n), open, r0, |s.code|) ==
              if b.Fall? then Fall(SetNils(b.regs, from, from + n - 1)) else b
    ensures !RunTo(x, Merged(s, from, n), open, r0, |s.code| - 1).Stuck?
  {
    hide RunTo, SetNils;
    var s' := Merged(s, from, n);
    var m := |s.code| - 1;
    SameTouched(s.code, open, s'.code, m);
    TouchRun(x, s, open, s', m, r0);
    LastPlain(x, s, open, r0);
    LastPlain(x, s', open, r0);
    var o := RunTo(x, s, open, r0, m);
    if o.Fall? { NilsJoin(o.regs, s.code[m].a, s.code[m].b, from, n); }
  }

  /** Stretching the LOADNIL in front clears the new registers too. */
  lemma MergeNils(x: Ctx, s: Fs, outer: set<nat>, e: Exp, l: Lists, from: nat, n: nat)
    requires Ok(x, s, outer, e, l) && Plain(e.k) && Mergeable(s, from) && n > 0
    ensures var s' := Merged(s, from, n);
            && Ok(x, s', outer, e, l)
            && SameJumps(s.code, s'.code, outer)
            && (forall i :: SameTest(s.code, s'.code, i))
            && forall r0: Regs :: Clean(x, r0) ==>
                 var b := Flow(x, s, outer, e.k, l, r0);
                 Flow(x, s', outer, e.k, l, r0) == if b.Fall? then Fall(SetNils(b.regs, from, from + n - 1)) else b
  {
    hide Linked, Clean, Sane, Open, RunTo, ExitVal, SetNils;
    var s' := Merged(s, from, n);
    var open := Open(s, outer, e.k, l);
    LinkedPending(s, outer, e, l);
    LinkedOpens(s, outer, e, l, x);
    OpensApart(s, outer, e, l, |s.code| - 1, s', x);
    PlainOpen(s, s', outer, e.k, e.k, l);
    forall r0: Regs | Clean(x, r0)
      ensures var b := Flow(x, s, outer, e.k, l, r0);
              var a := Flow(x, s', outer, e.k, l, r0);
              && a == (if b.Fall? then Fall(SetNils(b.regs, from, from + n - 1)) else b)
              && Sane(s'.code, l, a)
      ensures !RunTo(x, s', open, r0, |s.code| - 1).Stuck?
    {
      MergeNilsFlow(x, s, open, from, n, r0);
      SaneAll(s.code, s'.code, l, Flow(x, s, outer, e.k, l, r0));
      SaneFall(s'.code, l);
    }
  }
}
