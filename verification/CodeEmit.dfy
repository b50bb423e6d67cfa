/** Emitting instructions: plain ones, tests with their jump, and the merging of
    neighbouring LOADNILs. */
module CodeEmit {
  import opened CodeVm
  import opened CodeSem
  import opened CodeFlow

  predicate PlainInstr(i: Instr, ks: seq<Value>) {
    match i
    case MOVE(a, b) => a < 256 && b < 256
    case LOADK(a, k) => a < 256 && k < |ks|
    case LOADBOOL(a, _, skip) => a < 256 && !skip
    case LOADNIL(_, _) => true
    case NOT(a, b) => a < 256 && b < 256
    case _ => false
  }

  function Exec(i: Instr, ks: seq<Value>, r: Regs): Regs
    requires PlainInstr(i, ks)
  {
    match i
    case MOVE(a, b) => r[a := r[b]]
    case LOADK(a, k) => r[a := ks[k]]
    case LOADBOOL(a, v, _) => r[a := Bool(v)]
    case LOADNIL(a, b) => SetNils(r, a, b)
    case NOT(a, b) => r[a := Bool(!Truthy(r[b]))]
  }

  lemma ExecRun(c: seq<Instr>, open: set<nat>, env: Env, n: nat, r: Regs)
    requires n < |c| && PlainInstr(c[n], env.ks)
    ensures Run(c, open, env, n, r, n + 1) == Fall(Exec(c[n], env.ks, r))
  {
  }

  lemma RunDone(c: seq<Instr>, open: set<nat>, env: Env, n: nat, r: Regs)
    requires n <= |c|
    ensures Run(c, open, env, n, r, n) == Fall(r)
  {
  }

  /** The open jumps after an emission. */
  lemma EmitOpen(x: Ctx, s: Fs, new_: seq<Instr>, outer: set<nat>, e: Exp, l: Lists, k': Kind)
    requires Linked(s, outer, e, l) && Plain(e.k) && Own(k') == {}
    ensures Open(Emit(s, new_), outer, k', l) == Open(s, outer, e.k, l) - Elems(s.pend)
  {
    var a, b := Open(Emit(s, new_), outer, k', l), Open(s, outer, e.k, l) - Elems(s.pend);
    forall j ensures j in a <==> j in b { }
  }

  lemma EmitPlainFlow(x: Ctx, s: Fs, outer: set<nat>, e: Exp, l: Lists, i: Instr, k': Kind, r0: Regs)
    requires Linked(s, outer, e, l) && KindOk(x, s, e.k) && Plain(e.k) && PlainInstr(i, s.ks) && !k'.VJmp?
    requires !Flow(x, s, outer, e.k, l, r0).Stuck? && x.origin <= |s.code|
    ensures var b := Flow(x, s, outer, e.k, l, r0);
            Flow(x, Emit(s, [i]), outer, k', l, r0) ==
              if k'.VReloc? || !b.Fall? then b else Fall(Exec(i, s.ks, b.regs))
    ensures !RunTo(x, Emit(s, [i]), Open(Emit(s, [i]), outer, k', l), r0, |s.code|).Stuck?
  {
    hide Linked, KindOk, Exec, PlainInstr, Run;
    var s' := Emit(s, [i]);
    var open, open' := Open(s, outer, e.k, l), Open(s', outer, k', l);
    EmitOpen(x, s, [i], outer, e, l, k');
    LinkedOpens(s, outer, e, l, x);
    RunEmitted(x, s, open, [i], open', r0, |s.code|);
    RunEmitted(x, s, open, [i], open', r0, |s.code| + 1);
    var b := Flow(x, s, outer, e.k, l, r0);
    if b.Fall? {
      ExecRun(s'.code, open', EnvOf(x, s'), |s.code|, b.regs);
      RunDone(s'.code, open', EnvOf(x, s'), |s.code|, b.regs);
    }
  }

  lemma EmitLinked(x: Ctx, s: Fs, outer: set<nat>, e: Exp, l: Lists, new_: seq<Instr>, k': Kind)
    requires Linked(s, outer, e, l) && KindOk(x, s, e.k) && Plain(e.k) && !k'.VJmp?
    ensures Linked(Emit(s, new_), outer, Exp(k', e.t, e.f), l)
    ensures SameJumps(s.code, Emit(s, new_).code, outer + Elems(l.t) + Elems(l.f))
  {
    LinkedOpens(s, outer, e, l, x);
    var js := outer + Elems(l.t) + Elems(l.f);
    EmitKeeps(s, new_, js);
    SameJumpsList(s.code, Emit(s, new_).code, e.t, l.t);
    SameJumpsList(s.code, Emit(s, new_).code, e.f, l.f);
  }

  lemma SaneSame(c: seq<Instr>, c': seq<Instr>, l: Lists, b: Out, b': Out, js: set<nat>)
    requires Sane(c, l, b) && SameJumps(c, c', js) && Elems(l.t) + Elems(l.f) <= js && |c| <= |c'|
    requires forall j :: j in js ==> j < |c|
    requires b' == b || b'.Fall?
    ensures Sane(c', l, b')
  {
    if b'.Exit? {
      assert b.j in l.t ==> b.j in js by { assert b.j in l.t ==> b.j in Elems(l.t); }
      assert b.j in l.f ==> b.j in js by { assert b.j in l.f ==> b.j in Elems(l.f); }
    }
  }

  /** One instruction more: every run that arrived has executed it. */
  lemma EmitPlain(x: Ctx, s: Fs, outer: set<nat>, e: Exp, l: Lists, i: Instr, k': Kind)
    requires Ok(x, s, outer, e, l) && Plain(e.k) && PlainInstr(i, s.ks) && !k'.VJmp? && KindOk(x, Emit(s, [i]), k')
    ensures Ok(x, Emit(s, [i]), outer, Exp(k', e.t, e.f), l)
    ensures SameJumps(s.code, Emit(s, [i]).code, outer + Elems(l.t) + Elems(l.f))
    ensures forall r0: Regs :: Clean(x, r0) ==>
              var b := Flow(x, s, outer, e.k, l, r0);
              Flow(x, Emit(s, [i]), outer, k', l, r0) ==
                if k'.VReloc? || !b.Fall? then b else Fall(Exec(i, s.ks, b.regs))
  {
    hide Linked, Flow, RunTo, Clean, Exec, PlainInstr, SameJumps, Sane, Open;
    var s' := Emit(s, [i]);
    EmitLinked(x, s, outer, e, l, [i], k');
    EmittedOpens(x, s, outer, e, l);
    forall r0: Regs | Clean(x, r0)
      ensures !RunTo(x, s', Open(s', outer, k', l), r0, |s.code|).Stuck?
      ensures Sane(s'.code, l, Flow(x, s', outer, k', l, r0))
      ensures var b := Flow(x, s, outer, e.k, l, r0);
              Flow(x, s', outer, k', l, r0) == if k'.VReloc? || !b.Fall? then b else Fall(Exec(i, s.ks, b.regs))
    {
      var b := Flow(x, s, outer, e.k, l, r0);
      SaneNot(s.code, l, b);
      EmitPlainFlow(x, s, outer, e, l, i, k', r0);
      SaneSame(s.code, s'.code, l, b, Flow(x, s', outer, k', l, r0), outer + Elems(l.t) + Elems(l.f));
    }
  }

  lemma SaneNot(c: seq<Instr>, l: Lists, b: Out)
    requires Sane(c, l, b)
    ensures !b.Stuck?
  {
  }

  lemma EmittedOpens(x: Ctx, s: Fs, outer: set<nat>, e: Exp, l: Lists)
    requires Linked(s, outer, e, l) && KindOk(x, s, e.k)
    ensures forall j :: j in outer + Elems(l.t) + Elems(l.f) ==> j < |s.code|
  {
    LinkedOpens(s, outer, e, l, x);
  }
}
