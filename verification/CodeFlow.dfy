/** How each elementary change of the code changes where its runs go. */
module CodeFlow {
  import opened CodeVm
  import opened CodeRun
  import opened CodeLists
  import opened CodeSem

  // --------------------------------------------------------- where runs leave

  predicate TestRegs(i: Instr) {
    i.TESTSET? ==> i.b < 256
  }

  ghost predicate Leaves(c: seq<Instr>, open: set<nat>, i: nat, end: nat, o: Out) {
    o.Exit? ==> i <= o.j < end <= |c| && o.j in open && c[o.j].JMP? && (o.via ==> o.j > 0 && IsTest(c[o.j - 1]) && TestRegs(c[o.j - 1]))
  }

  /** A run leaves only by an open jump inside the stretch, and through the test
      in front of it only if there is one. */
  lemma {:induction false} RunExit(c: seq<Instr>, open: set<nat>, env: Env, i: nat, r: Regs, end: nat)
    requires i <= end <= |c|
    ensures Leaves(c, open, i, end, Run(c, open, env, i, r, end))
    decreases end - i
  {
    hide RkVal, SetNils, Truthy;
    if i < end {
      match c[i]
      case MOVE(a, b) => if a < 256 && b < 256 { RunExit(c, open, env, i + 1, r[a := r[b]], end); }
      case LOADK(a, k) => if a < 256 && k < |env.ks| { RunExit(c, open, env, i + 1, r[a := env.ks[k]], end); }
      case LOADBOOL(a, v, skip) =>
        if a < 256 && (!skip || i + 2 <= end) { RunExit(c, open, env, if skip then i + 2 else i + 1, r[a := Bool(v)], end); }
      case LOADNIL(a, b) => RunExit(c, open, env, i + 1, SetNils(r, a, b), end);
      case NOT(a, b) => if a < 256 && b < 256 { RunExit(c, open, env, i + 1, r[a := Bool(!Truthy(r[b]))], end); }
      case JMP(_) => JumpExit(c, open, env, i, false, r, end);
      case OTHER =>
      case _ => TestExit(c, open, env, i, r, end);
    }
  }

  lemma {:induction false} TestExit(c: seq<Instr>, open: set<nat>, env: Env, i: nat, r: Regs, end: nat)
    requires i < end <= |c| && IsTest(c[i])
    ensures Leaves(c, open, i, end, Run(c, open, env, i, r, end))
    decreases end - i, 0
  {
    hide RkVal, SetNils, Truthy, Leaves;
    if i + 1 < end && c[i + 1].JMP? {
      RunExit(c, open, env, i + 2, r, end);
      if TestRegs(c[i]) { JumpExit(c, open, env, i + 1, true, r, end); }
      var o := Run(c, open, env, i, r, end);
      if c[i].TESTSET? && c[i].a < 256 && c[i].b < 256 && i + 1 !in open {
        JumpExit(c, open, env, i + 1, true, r[c[i].a := r[c[i].b]], end);
      }
      LeavesLater(c, open, i, i + 1, end, o);
      LeavesLater(c, open, i, i + 2, end, o);
    }
    LeavesOnlyByExit(c, open, i, end);
  }

  lemma LeavesOnlyByExit(c: seq<Instr>, open: set<nat>, i: nat, end: nat)
    ensures Leaves(c, open, i, end, Stuck) && Leaves(c, open, i, end, Raised)
  {
  }

  lemma LeavesLater(c: seq<Instr>, open: set<nat>, i: nat, i': nat, end: nat, o: Out)
    requires i <= i'
    ensures Leaves(c, open, i', end, o) ==> Leaves(c, open, i, end, o)
  {
  }

  lemma {:induction false} JumpExit(c: seq<Instr>, open: set<nat>, env: Env, j: nat, via: bool, r: Regs, end: nat)
    requires j < end <= |c| && c[j].JMP? && (via ==> j > 0 && IsTest(c[j - 1]) && TestRegs(c[j - 1]))
    ensures Leaves(c, open, j, end, Jump(c, open, env, j, via, r, end))
    decreases end - j, 0
  {
    if j !in open {
      var t := j + 1 + c[j].sbx;
      if j < t <= end { RunExit(c, open, env, t, r, end); }
    }
  }

  // ------------------------------------------------------ generic rerunning

  ghost predicate Opens(s: Fs, open: set<nat>) {
    forall j :: j in open ==> j < |s.code| && s.code[j].JMP?
  }

  lemma LinkedOpens(s: Fs, outer: set<nat>, e: Exp, l: Lists, x: Ctx)
    requires Linked(s, outer, e, l) && KindOk(x, s, e.k)
    ensures Opens(s, Open(s, outer, e.k, l))
  {
    forall j | j in Open(s, outer, e.k, l) ensures j < |s.code| && s.code[j].JMP? {
      if j in l.t { ListJump(s.code, e.t, l.t, j); }
      if j in l.f { ListJump(s.code, e.f, l.f, j); }
      if j in s.pend { ListJump(s.code, s.jpc, s.pend, j); }
    }
  }

  lemma ListJump(c: seq<Instr>, h: int, s: seq<nat>, j: nat)
    requires ListIs(c, h, s) && j in s
    ensures j < |c| && c[j].JMP?
  {
  }

  /** Changes that keep the meaning: of links between open jumps, of a TESTSET
      into a TEST in front of one, of what lies behind n, of further constants. */
  lemma RunSame(x: Ctx, s: Fs, open: set<nat>, s': Fs, open': set<nat>, n: nat, r0: Regs)
    requires Relinked(s.code, open, s'.code, open', n) && s.ks <= s'.ks
    requires forall j :: j in open && j < n ==> j in open'
    requires !RunTo(x, s, open, r0, n).Stuck?
    ensures RunTo(x, s', open', r0, n) == RunTo(x, s, open, r0, n)
  {
    RunRelinked(s.code, open, EnvOf(x, s), s'.code, open', EnvOf(x, s'), x.origin, r0, n, n);
    RunExit(s.code, open, EnvOf(x, s), x.origin, r0, n);
  }

  /** The instruction at p is as it was, but for the link of an open jump, or a
      TESTSET in front of one that is a TEST now. */
  ghost predicate TouchedAt(c: seq<Instr>, open: set<nat>, c': seq<Instr>, p: nat)
    requires p < |c| && p < |c'|
  {
    || c'[p] == c[p]
    || (p in open && c[p].JMP? && c'[p].JMP?)
    || (p + 1 in open && c[p].TESTSET? && c'[p] == TEST(c[p].b, c[p].c))
  }

  ghost predicate Touched(c: seq<Instr>, open: set<nat>, c': seq<Instr>, n: nat) {
    n <= |c| && n <= |c'| && forall p :: 0 <= p < n ==> TouchedAt(c, open, c', p)
  }

  lemma TouchedRelinked(c: seq<Instr>, open: set<nat>, c': seq<Instr>, open': set<nat>, n: nat)
    requires Touched(c, open, c', n)
    requires forall j :: j in open && j < n ==> j in open' && c[j].JMP?
    requires forall j :: j in open' && j < n ==> j in open
    ensures Relinked(c, open, c', open', n)
  {
    forall p | 0 <= p < n ensures Patched(c, open, c', open', n, p) {
      assert TouchedAt(c, open, c', p);
    }
  }

  // ------------------------------------------------------------- emission

  /** dischargejpc, then the new instructions. */
  function Emitted(c: seq<Instr>, p: seq<nat>, new_: seq<Instr>): seq<Instr> {
    Retarget(c, p, |c|, NO_REG, |c|) + new_
  }

  function Emit(s: Fs, new_: seq<Instr>): Fs {
    s.(code := Emitted(s.code, s.pend, new_), jpc := NO_JUMP, pend := [])
  }

  lemma EmittedRelinked(c: seq<Instr>, open: set<nat>, p: seq<nat>, new_: seq<Instr>, open': set<nat>)
    requires Elems(p) <= open && (forall j :: j in open ==> j < |c| && c[j].JMP?)
    requires forall j :: j in open' && j < |c| ==> j in open && j !in p
    requires forall j :: j in open && j !in p ==> j in open'
    ensures Relinked(c, open, Emitted(c, p, new_), open', |c|)
  {
    var c' := Emitted(c, p, new_);
    forall q | 0 <= q < |c| ensures Patched(c, open, c', open', |c|, q) {
      assert q + 1 in p ==> q + 1 in Elems(p);
      assert q in p ==> q in Elems(p);
    }
  }

  /** Emitting closes the pending jumps on the new instruction: whoever arrived
      goes on with it, everything else is as before. */
  lemma RunEmitted(x: Ctx, s: Fs, open: set<nat>, new_: seq<Instr>, open': set<nat>, r0: Regs, end: nat)
    requires Elems(s.pend) <= open && Opens(s, open) && |s.code| <= end <= |s.code| + |new_|
    requires forall j :: j in open' && j < |s.code| ==> j in open && j !in s.pend
    requires forall j :: j in open && j !in s.pend ==> j in open'
    requires !RunTo(x, s, open, r0, |s.code|).Stuck?
    ensures var s' := Emit(s, new_); var o := Settled(RunTo(x, s, open, r0, |s.code|), s.pend);
            RunTo(x, s', open', r0, end) ==
              if o.Fall? then Run(s'.code, open', EnvOf(x, s'), |s.code|, o.regs, end) else o
  {
    hide Run;
    var s' := Emit(s, new_);
    var o := RunTo(x, s, open, r0, |s.code|);
    EmittedRelinked(s.code, open, s.pend, new_, open');
    RunRelinked(s.code, open, EnvOf(x, s), s'.code, open', EnvOf(x, s'), x.origin, r0, |s.code|, end);
    RunExit(s.code, open, EnvOf(x, s), x.origin, r0, |s.code|);
    if o.Exit? && o.j in s.pend {
      ClosedTo(s.code, s.pend, new_, o.j);
    }
  }

  lemma ClosedTo(c: seq<Instr>, p: seq<nat>, new_: seq<Instr>, j: nat)
    requires j in p && j < |c|
    ensures var c' := Emitted(c, p, new_);
            c'[j] == JMP(|c| - (j + 1)) && !HasTestset(c', j)
  {
  }

  /** Patching leaves every other jump, and the test in front of it, alone. */
  lemma RetargetKeeps(c: seq<Instr>, s: seq<nat>, vt: int, reg: nat, dt: int, js: set<nat>)
    requires Apart(js, Elems(s)) && (forall j :: j in js || j in s ==> j < |c| && c[j].JMP?)
    ensures SameJumps(c, Retarget(c, s, vt, reg, dt), js)
  {
    var c' := Retarget(c, s, vt, reg, dt);
    forall j | j in js && j < |c| ensures j < |c'| && c'[j] == c[j] && SameTest(c, c', j) {
      assert j in Elems(s) <==> j in s;
      if j > 0 && c[j - 1].TESTSET? { assert c'[j - 1] == c[j - 1]; }
    }
  }

  lemma SameJumpsAppend(c: seq<Instr>, c': seq<Instr>, new_: seq<Instr>, js: set<nat>)
    requires SameJumps(c, c', js) && |c| == |c'|
    ensures SameJumps(c, c' + new_, js)
  {
    forall j | j in js && j < |c| ensures j < |c' + new_| && (c' + new_)[j] == c[j] && SameTest(c, c' + new_, j) {
    }
  }

  lemma SameJumpsList(c: seq<Instr>, c': seq<Instr>, h: int, q: seq<nat>)
    requires ListIs(c, h, q) && |c| <= |c'| && SameJumps(c, c', Elems(q))
    ensures ListIs(c', h, q)
  {
    forall j | j in q && j < |c| ensures c'[j] == c[j] { assert j in Elems(q); }
    ListSame(c, c', h, q);
  }

  /** Jumps that are not pending, and their tests, survive an emission. */
  lemma EmitKeeps(s: Fs, new_: seq<Instr>, js: set<nat>)
    requires Apart(js, Elems(s.pend)) && Opens(s, js) && Opens(s, Elems(s.pend))
    ensures SameJumps(s.code, Emit(s, new_).code, js)
  {
    forall j | j in s.pend ensures j in Elems(s.pend) { }
    RetargetKeeps(s.code, s.pend, |s.code|, NO_REG, |s.code|, js);
    SameJumpsAppend(s.code, Retarget(s.code, s.pend, |s.code|, NO_REG, |s.code|), new_, js);
  }
}
