/** Moving jumps between lists: none of it changes where runs go, only what
    becomes of the runs that leave. */
module CodeLink {
  import opened CodeVm
  import opened CodeRun
  import opened CodeLists
  import opened CodeSem
  import opened CodeFlow
  import opened CodeEmit

  /** What a test in front of the open jump j does. */
  function Tested(i: Instr, j: nat, env: Env, r: Regs): Out
    requires TestOk(i, env.ks)
  {
    match TakenRes(i, env, r)
    case Val(v) => if Truthy(v) then Exit(j, true, r) else Fall(r)
    case Fails => Raised
  }

  lemma TestedRun(c: seq<Instr>, open: set<nat>, env: Env, n: nat, r: Regs)
    requires n + 2 == |c| && TestOk(c[n], env.ks) && c[n + 1].JMP? && n + 1 in open
    ensures Run(c, open, env, n, r, |c|) == Tested(c[n], n + 1, env, r)
  {
    assert Run(c, open, env, n + 2, r, |c|) == Fall(r);
    assert Jump(c, open, env, n + 1, true, r, |c|) == Exit(n + 1, true, r);
  }

  /** Running on through the test and jump at the end of the code. */
  lemma LastTest(x: Ctx, s: Fs, open: set<nat>, r0: Regs)
    requires |s.code| >= 2 && x.origin <= |s.code| - 2 && TestOk(s.code[|s.code| - 2], s.ks)
    requires s.code[|s.code| - 1].JMP? && |s.code| - 1 in open && Opens(s, open)
    requires !RunTo(x, s, open, r0, |s.code| - 2).Stuck?
    ensures var b := RunTo(x, s, open, r0, |s.code| - 2);
            RunTo(x, s, open, r0, |s.code|) ==
              if b.Fall? then Tested(s.code[|s.code| - 2], |s.code| - 1, EnvOf(x, s), b.regs) else b
  {
    var n := |s.code| - 2;
    var env := EnvOf(x, s);
    assert Touched(s.code, open, s.code, n);
    TouchedRelinked(s.code, open, s.code, open, n);
    RunRelinked(s.code, open, env, s.code, open, env, x.origin, r0, n, |s.code|);
    RunExit(s.code, open, env, x.origin, r0, n);
    var b := RunTo(x, s, open, r0, n);
    if b.Fall? { TestedRun(s.code, open, env, n, b.regs); }
  }

  /** Relinking open jumps does not change a run. */
  lemma TouchRun(x: Ctx, s: Fs, open: set<nat>, s': Fs, n: nat, r0: Regs)
    requires Touched(s.code, open, s'.code, n) && Opens(s, open) && s.ks <= s'.ks
    requires !RunTo(x, s, open, r0, n).Stuck?
    ensures RunTo(x, s', open, r0, n) == RunTo(x, s, open, r0, n)
  {
    TouchedRelinked(s.code, open, s'.code, open, n);
    RunSame(x, s, open, s', open, n, r0);
  }

  // ------------------------------------------------------------- joining

  /** luaK_concat: the last jump of s1 gets the head of s2. */
  function Joined(c: seq<Instr>, s1: seq<nat>, s2: seq<nat>): (c': seq<Instr>)
    ensures |c'| == |c|
  {
    if s1 == [] || s2 == [] || s1[|s1| - 1] >= |c| then c
    else c[s1[|s1| - 1] := JMP(Head(s2) - (s1[|s1| - 1] + 1))]
  }

  function Head(s: seq<nat>): int {
    if s == [] then NO_JUMP else s[0]
  }

  lemma JoinedList(c: seq<Instr>, s1: seq<nat>, s2: seq<nat>)
    requires ListIs(c, Head(s1), s1) && ListIs(c, Head(s2), s2) && Apart(Elems(s1), Elems(s2))
    ensures ListIs(Joined(c, s1, s2), Head(s1 + s2), s1 + s2)
  {
    if s1 == [] { assert s1 + s2 == s2; }
    else if s2 == [] { assert s1 + s2 == s1; }
    else {
      forall j | j in s1 ensures j !in s2 { assert j in Elems(s1) && (j in s2 ==> j in Elems(s2)); }
      ListConcat(c, Head(s1), s1, Head(s2), s2);
    }
  }

  lemma ElemsAppend(s: seq<nat>, t: seq<nat>)
    ensures Elems(s + t) == Elems(s) + Elems(t)
  {
    forall j ensures j in Elems(s + t) <==> j in Elems(s) + Elems(t) { }
  }

  /** Only the link of one jump of s1 changes. */
  lemma JoinedTouches(c: seq<Instr>, s1: seq<nat>, s2: seq<nat>, js: set<nat>)
    requires ListIs(c, Head(s1), s1) && Apart(js, Elems(s1))
    ensures SameJumps(c, Joined(c, s1, s2), js)
    ensures forall j :: SameTest(c, Joined(c, s1, s2), j)
    ensures forall open :: Elems(s1) <= open ==> Touched(c, open, Joined(c, s1, s2), |c|)
    ensures forall p :: 0 <= p < |c| && !c[p].JMP? ==> Joined(c, s1, s2)[p] == c[p]
  {
    hide ListIs;
    var c' := Joined(c, s1, s2);
    if s1 != [] && s2 != [] {
      var last := s1[|s1| - 1];
      assert last in s1 && last in Elems(s1);
      ListJump(c, Head(s1), s1, last);
      forall open | Elems(s1) <= open ensures Touched(c, open, c', |c|) {
        forall p | 0 <= p < |c| ensures TouchedAt(c, open, c', p) { }
      }
    }
  }

  /** l with its true list (sense) or its false list replaced. */
  function With(l: Lists, sense: bool, s: seq<nat>): Lists {
    if sense then Lists(s, l.f) else Lists(l.t, s)
  }

  function Side(l: Lists, sense: bool): seq<nat> {
    if sense then l.t else l.f
  }

  function Heads(k: Kind, l: Lists): Exp {
    Exp(k, Head(l.t), Head(l.f))
  }

  lemma LinkedHeads(s: Fs, outer: set<nat>, e: Exp, l: Lists)
    requires Linked(s, outer, e, l)
    ensures e == Heads(e.k, l) && s.jpc == Head(s.pend)
  {
  }

  lemma JoinOpen(s: Fs, outer: set<nat>, k: Kind, l: Lists, q: seq<nat>, outer': set<nat>, k': Kind, sense: bool, s': Fs)
    requires outer + Own(k) == outer' + Own(k') + Elems(q) && s'.pend == s.pend
    ensures Open(s', outer', k', With(l, sense, Side(l, sense) + q)) == Open(s, outer, k, l)
    ensures Elems(Side(l, sense)) <= Open(s, outer, k, l)
  {
    var l' := With(l, sense, Side(l, sense) + q);
    ElemsAppend(Side(l, sense), q);
    forall j ensures j in Open(s', outer', k', l') <==> j in Open(s, outer, k, l) {
      assert j in Open(s', outer', k', l') <==> j in outer' + Own(k') + Elems(q) || j in Elems(l.t) || j in Elems(l.f) || j in Elems(s.pend);
    }
  }

  /** The lists after the jumps of q, which were outer or the expression's own,
      have joined one of them. */
  lemma JoinLinked(x: Ctx, s: Fs, outer: set<nat>, k: Kind, l: Lists, q: seq<nat>, outer': set<nat>, k': Kind, sense: bool)
    requires Linked(s, outer, Heads(k, l), l) && KindOk(x, s, k) && ListIs(s.code, Head(q), q)
    requires outer + Own(k) == outer' + Own(k') + Elems(q) && outer' <= outer
    requires Apart(outer' + Own(k'), Elems(q)) && Apart(outer', Own(k'))
    ensures var s' := s.(code := Joined(s.code, Side(l, sense), q)); var l' := With(l, sense, Side(l, sense) + q);
            Linked(s', outer', Heads(k', l'), l')
  {
    hide ListIs, SameJumps, Joined, KindOk, Open, Own, Elems;
    var a, z := Side(l, sense), Side(l, !sense);
    var s' := s.(code := Joined(s.code, a, q));
    ElemsAppend(a, q);
    JoinApart(outer + Own(k), Elems(l.t), Elems(l.f), Elems(s.pend), outer' + Own(k'), Elems(q));
    ApartUnion(outer, Own(k), Elems(a));
    JoinedList(s.code, a, q);
    JoinedTouches(s.code, a, q, outer + Elems(z) + Elems(s.pend));
    SameJumpsSub(s.code, s'.code, outer + Elems(z) + Elems(s.pend), Elems(z));
    SameJumpsSub(s.code, s'.code, outer + Elems(z) + Elems(s.pend), Elems(s.pend));
    SameJumpsList(s.code, s'.code, s.jpc, s.pend);
    SameJumpsList(s.code, s'.code, Head(z), z);
    JoinedEnd(s.code, a, q);
    ListIsHead(s'.code, z);
  }

  lemma ApartUnion(o: set<nat>, k: set<nat>, a: set<nat>)
    ensures Apart(o + k, a) ==> Apart(o, a) && Apart(k, a)
  {
  }

  lemma ListIsHead(c: seq<Instr>, z: seq<nat>)
    ensures forall h :: ListIs(c, h, z) ==> h == Head(z)
  {
  }

  lemma SameJumpsSub(c: seq<Instr>, c': seq<Instr>, js: set<nat>, js': set<nat>)
    requires SameJumps(c, c', js) && js' <= js
    ensures SameJumps(c, c', js')
  {
  }

  lemma JoinApart(o: set<nat>, t: set<nat>, f: set<nat>, p: set<nat>, o': set<nat>, q: set<nat>)
    requires o == o' + q && Apart(o', q) && Disjoint(o, t, f, p)
    ensures Disjoint(o', t + q, f, p) && Disjoint(o', t, f + q, p)
    ensures Apart(t, q) && Apart(f, q) && Apart(q, t) && Apart(q, f) && Apart(f, t)
  {
  }

  predicate Which(sense: bool, i: Instr) {
    i.TESTSET? ==> i.c == sense
  }

  lemma AdoptSane(x: Ctx, s: Fs, l: Lists, j: nat, sense: bool, c': seq<Instr>, b: Out)
    requires 0 < j < |s.code| && TestOk(s.code[j - 1], s.ks) && Which(sense, s.code[j - 1])
    requires Sane(s.code, l, b) && forall i :: SameTest(s.code, c', i)
    requires j !in l.t && j !in l.f && (b.Exit? ==> b.j != j)
    ensures var a := if b.Fall? then Tested(s.code[j - 1], j, EnvOf(x, s), b.regs) else b;
            Sane(c', With(l, sense, Side(l, sense) + [j]), a)
  {
    hide RkVal;
    var a := if b.Fall? then Tested(s.code[j - 1], j, EnvOf(x, s), b.regs) else b;
    if a.Exit? { assert SameTest(s.code, c', a.j); }
  }

  /** The jump of a comparison or test joins the list it belongs to. */
  lemma Adopt(x: Ctx, s: Fs, outer: set<nat>, j: nat, l: Lists, sense: bool)
    requires Ok(x, s, outer, Heads(VJmp(j), l), l) && Which(sense, s.code[j - 1])
    ensures var s' := s.(code := Joined(s.code, Side(l, sense), [j]));
            var l' := With(l, sense, Side(l, sense) + [j]);
            && Ok(x, s', outer, Heads(VNil, l'), l')
            && SameJumps(s.code, s'.code, outer)
            && (forall i :: SameTest(s.code, s'.code, i))
            && forall r0: Regs :: Clean(x, r0) ==>
                 var b := Flow(x, s, outer, VJmp(j), l, r0);
                 Flow(x, s', outer, VNil, l', r0) ==
                   if b.Fall? then Tested(s.code[j - 1], j, EnvOf(x, s), b.regs) else b
  {
    hide Linked, Flow, Clean, SameJumps, Sane, SameTest, TestOk, Joined, Tested, ListIs, Which;
    var a := Side(l, sense);
    var s' := s.(code := Joined(s.code, a, [j]));
    var l' := With(l, sense, a + [j]);
    OwnList(s, j);
    OwnApart(s, outer, Heads(VJmp(j), l), l, j);
    JoinLinked(x, s, outer, VJmp(j), l, [j], outer, VNil, sense);
    JoinOpen(s, outer, VJmp(j), l, [j], outer, VNil, sense, s');
    SideList(s, outer, Heads(VJmp(j), l), l, sense);
    JoinedTouches(s.code, a, [j], outer);
    LinkedOpens(s, outer, Heads(VJmp(j), l), l, x);
    JoinedEnd(s.code, a, [j]);
    forall r0: Regs | Clean(x, r0)
      ensures var b := Flow(x, s, outer, VJmp(j), l, r0);
              var f := Flow(x, s', outer, VNil, l', r0);
              && f == (if b.Fall? then Tested(s.code[j - 1], j, EnvOf(x, s), b.regs) else b)
              && Sane(s'.code, l', f)
    {
      SaneNot(s.code, l, Flow(x, s, outer, VJmp(j), l, r0));
      AdoptFlow(x, s, outer, j, l, s', l', r0);
      AdoptSane(x, s, l, j, sense, s'.code, Flow(x, s, outer, VJmp(j), l, r0));
    }
  }

  lemma OwnList(s: Fs, j: nat)
    requires j < |s.code| && s.code[j] == JMP(NO_JUMP)
    ensures ListIs(s.code, Head([j]), [j]) && Elems([j]) == {j}
  {
  }

  lemma OwnApart(s: Fs, outer: set<nat>, e: Exp, l: Lists, j: nat)
    requires Linked(s, outer, e, l) && e.k == VJmp(j)
    ensures j !in outer && j !in l.t && j !in l.f && j !in s.pend
  {
    assert j in Own(e.k);
  }

  lemma SideList(s: Fs, outer: set<nat>, e: Exp, l: Lists, sense: bool)
    requires Linked(s, outer, e, l)
    ensures ListIs(s.code, Head(Side(l, sense)), Side(l, sense)) && Apart(outer, Elems(Side(l, sense)))
  {
  }

  lemma JoinedEnd(c: seq<Instr>, s1: seq<nat>, s2: seq<nat>)
    requires ListIs(c, Head(s1), s1)
    ensures forall p :: 0 <= p < |c| ==> Joined(c, s1, s2)[p].JMP? == c[p].JMP?
  {
    if s1 != [] { ListJump(c, Head(s1), s1, s1[|s1| - 1]); }
  }

  lemma AdoptFlow(x: Ctx, s: Fs, outer: set<nat>, j: nat, l: Lists, s': Fs, l': Lists, r0: Regs)
    requires KindOk(x, s, VJmp(j)) && x.origin <= |s.code| - 2
    requires s'.code == s.code || Touched(s.code, Open(s, outer, VJmp(j), l), s'.code, |s.code|)
    requires s' == s.(code := s'.code) && |s'.code| == |s.code|
    requires Open(s', outer, VNil, l') == Open(s, outer, VJmp(j), l) && Opens(s, Open(s, outer, VJmp(j), l))
    requires !Flow(x, s, outer, VJmp(j), l, r0).Stuck?
    ensures var b := Flow(x, s, outer, VJmp(j), l, r0);
            Flow(x, s', outer, VNil, l', r0) == if b.Fall? then Tested(s.code[j - 1], j, EnvOf(x, s), b.regs) else b
    ensures var b := Flow(x, s, outer, VJmp(j), l, r0); b.Exit? ==> b.j != j
  {
    hide TestOk, Opens, Touched, Tested, Run;
    var open := Open(s, outer, VJmp(j), l);
    assert j in open;
    LastTest(x, s, open, r0);
    NotStuck(s.code[j - 1], j, EnvOf(x, s));
    if s'.code != s.code { TouchRun(x, s, open, s', |s.code|, r0); }
    RunExit(s.code, open, EnvOf(x, s), x.origin, r0, |s.code| - 2);
  }

  lemma NotStuck(i: Instr, j: nat, env: Env)
    requires TestOk(i, env.ks)
    ensures forall r: Regs :: !Tested(i, j, env, r).Stuck?
  {
  }

  // -------------------------------------------------------- patchtohere

  function Here(s: Fs, q: seq<nat>): Fs {
    s.(code := Joined(s.code, s.pend, q), jpc := Head(s.pend + q), pend := s.pend + q, last := |s.code|)
  }

  lemma HereLinked(s: Fs, outer: set<nat>, k: Kind, l: Lists, sense: bool)
    requires Linked(s, outer, Heads(k, l), l) && Plain(k)
    ensures Linked(Here(s, Side(l, sense)), outer, Heads(k, With(l, sense, [])), With(l, sense, []))
    ensures Open(Here(s, Side(l, sense)), outer, k, With(l, sense, [])) == Open(s, outer, k, l)
    ensures SameJumps(s.code, Here(s, Side(l, sense)).code, outer)
  {
    hide ListIs, SameJumps, Joined;
    var q, z := Side(l, sense), Side(l, !sense);
    var s' := Here(s, q);
    ElemsAppend(s.pend, q);
    assert Elems([]) == {};
    ApartSym(Elems(q), Elems(s.pend));
    assert Open(s', outer, k, With(l, sense, [])) == Open(s, outer, k, l);
    ListIsHead(s.code, s.pend);
    JoinedList(s.code, s.pend, q);
    JoinedTouches(s.code, s.pend, q, outer + Elems(z));
    SameJumpsSub(s.code, s'.code, outer + Elems(z), Elems(z));
    SameJumpsSub(s.code, s'.code, outer + Elems(z), outer);
    SameJumpsList(s.code, s'.code, Head(z), z);
    JoinedEnd(s.code, s.pend, q);
    ListEmpty(s'.code);
    ApartSym(Elems(l.t), Elems(l.f));
  }

  lemma ApartSym(a: set<nat>, b: set<nat>)
    ensures Apart(a, b) ==> Apart(b, a)
  {
  }

  lemma ListEmpty(c: seq<Instr>)
    ensures ListIs(c, NO_JUMP, [])
  {
  }

  lemma SaneTests(c: seq<Instr>, c': seq<Instr>, l: Lists, b: Out, q: seq<nat>, sense: bool)
    requires Sane(c, l, b) && forall i :: SameTest(c, c', i)
    ensures Sane(c', With(l, sense, []), Settled(b, Side(l, sense)))
  {
    if b.Exit? { assert SameTest(c, c', b.j); }
  }

  /** The runs that leave by the jumps of one list arrive here now. */
  lemma PatchHere(x: Ctx, s: Fs, outer: set<nat>, k: Kind, l: Lists, sense: bool)
    requires Ok(x, s, outer, Heads(k, l), l) && Plain(k)
    ensures var s' := Here(s, Side(l, sense)); var l' := With(l, sense, []);
            && Ok(x, s', outer, Heads(k, l'), l')
            && SameJumps(s.code, s'.code, outer)
            && (forall i :: SameTest(s.code, s'.code, i))
            && forall r0: Regs :: Clean(x, r0) ==>
                 Flow(x, s', outer, k, l', r0) == Settled(Flow(x, s, outer, k, l, r0), Side(l, sense))
  {
    hide Linked, Flow, Clean, SameJumps, Sane, SameTest, Joined, ListIs, Open, Settled;
    var q := Side(l, sense);
    var s', l' := Here(s, q), With(l, sense, []);
    HereLinked(s, outer, k, l, sense);
    PendList(s, outer, Heads(k, l), l, k);
    JoinedTouches(s.code, s.pend, q, {});
    LinkedOpens(s, outer, Heads(k, l), l, x);
    forall r0: Regs | Clean(x, r0)
      ensures Flow(x, s', outer, k, l', r0) == Settled(Flow(x, s, outer, k, l, r0), q)
      ensures Sane(s'.code, l', Flow(x, s', outer, k, l', r0))
    {
      SaneNot(s.code, l, Flow(x, s, outer, k, l, r0));
      HereFlow(x, s, outer, k, l, s', q, l', r0);
      SaneTests(s.code, s'.code, l, Flow(x, s, outer, k, l, r0), q, sense);
    }
  }

  lemma PendList(s: Fs, outer: set<nat>, e: Exp, l: Lists, k: Kind)
    requires Linked(s, outer, e, l)
    ensures ListIs(s.code, Head(s.pend), s.pend) && Apart({}, Elems(s.pend)) && Elems(s.pend) <= Open(s, outer, k, l)
  {
  }

  lemma HereFlow(x: Ctx, s: Fs, outer: set<nat>, k: Kind, l: Lists, s': Fs, q: seq<nat>, l': Lists, r0: Regs)
    requires Plain(k) && s' == Here(s, q) && Opens(s, Open(s, outer, k, l))
    requires Touched(s.code, Open(s, outer, k, l), s'.code, |s.code|)
    requires Open(s', outer, k, l') == Open(s, outer, k, l)
    requires !Flow(x, s, outer, k, l, r0).Stuck?
    ensures Flow(x, s', outer, k, l', r0) == Settled(Flow(x, s, outer, k, l, r0), q)
  {
    hide Run, Opens, Touched, Joined, Open;
    TouchRun(x, s, Open(s, outer, k, l), s', |s.code|, r0);
  }

  // ------------------------------------------------ the list of an operand

  lemma JoinedKind(x: Ctx, s: Fs, k: Kind, a: seq<nat>, q: seq<nat>)
    requires KindOk(x, s, k) && ListIs(s.code, Head(a), a) && Apart(Own(k), Elems(a))
    ensures KindOk(x, s.(code := Joined(s.code, a, q)), k)
    ensures Proper(x, s, k) ==> Proper(x, s.(code := Joined(s.code, a, q)), k)
    ensures forall env: Env, r: Regs :: HereRes(k, Joined(s.code, a, q), env, r) == HereRes(k, s.code, env, r)
  {
    if a != [] && q != [] {
      var last := a[|a| - 1];
      assert last in Elems(a);
      ListJump(s.code, Head(a), a, last);
      assert k.VJmp? ==> k.info in Own(k);
    }
  }

  /** The list q of the left operand, kept outside while the right operand was
      compiled, joins the list of the right operand. */
  lemma Merge(x: Ctx, s: Fs, outer: set<nat>, k: Kind, l: Lists, q: seq<nat>, sense: bool)
    requires Ok(x, s, outer + Elems(q), Heads(k, l), l) && ListIs(s.code, Head(q), q) && Apart(outer, Elems(q))
    requires forall r0: Regs :: Clean(x, r0) ==>
               Sane(s.code, With(Lists([], []), sense, q), Flow(x, s, outer + Elems(q), k, l, r0))
    ensures var s' := s.(code := Joined(s.code, Side(l, sense), q)); var l' := With(l, sense, Side(l, sense) + q);
            && Ok(x, s', outer, Heads(k, l'), l')
            && (Proper(x, s, k) ==> Proper(x, s', k))
            && SameJumps(s.code, s'.code, outer)
            && (forall i :: SameTest(s.code, s'.code, i))
            && (forall env: Env, r: Regs :: HereRes(k, s'.code, env, r) == HereRes(k, s.code, env, r))
            && forall r0: Regs :: Clean(x, r0) ==>
                 Flow(x, s', outer, k, l', r0) == Flow(x, s, outer + Elems(q), k, l, r0)
  {
    hide Linked, Flow, Clean, SameJumps, Sane, SameTest, Joined, ListIs, Open, KindOk, HereRes, Nilable;
    var a := Side(l, sense);
    var s' := s.(code := Joined(s.code, a, q));
    var l' := With(l, sense, a + q);
    MergeApart(s, outer, k, l, q, sense);
    JoinLinked(x, s, outer + Elems(q), k, l, q, outer, k, sense);
    JoinOpen(s, outer + Elems(q), k, l, q, outer, k, sense, s');
    JoinedTouches(s.code, a, q, outer);
    LinkedOpens(s, outer + Elems(q), Heads(k, l), l, x);
    JoinedKind(x, s, k, a, q);
    MergeNil(x, s, Open(s, outer + Elems(q), k, l), a, q);
    forall r0: Regs | Clean(x, r0)
      ensures Flow(x, s', outer, k, l', r0) == Flow(x, s, outer + Elems(q), k, l, r0)
      ensures Sane(s'.code, l', Flow(x, s', outer, k, l', r0))
    {
      SaneNot(s.code, l, Flow(x, s, outer + Elems(q), k, l, r0));
      MergeFlow(x, s, outer + Elems(q), k, l, s', outer, l', r0);
      SaneMerge(s.code, s'.code, l, q, Flow(x, s, outer + Elems(q), k, l, r0), sense);
    }
  }

  lemma MergeApart(s: Fs, outer: set<nat>, k: Kind, l: Lists, q: seq<nat>, sense: bool)
    requires Linked(s, outer + Elems(q), Heads(k, l), l) && Apart(outer, Elems(q))
    ensures outer + Elems(q) + Own(k) == outer + Own(k) + Elems(q)
    ensures Apart(outer + Own(k), Elems(q)) && Apart(outer, Own(k))
    ensures ListIs(s.code, Head(Side(l, sense)), Side(l, sense))
    ensures Apart(outer, Elems(Side(l, sense))) && Apart(Own(k), Elems(Side(l, sense)))
  {
  }

  lemma SaneMerge(c: seq<Instr>, c': seq<Instr>, l: Lists, q: seq<nat>, b: Out, sense: bool)
    requires Sane(c, l, b) && Sane(c, With(Lists([], []), sense, q), b) && forall i :: SameTest(c, c', i)
    ensures Sane(c', With(l, sense, Side(l, sense) + q), b)
  {
    if b.Exit? { assert SameTest(c, c', b.j); }
  }

  lemma MergeFlow(x: Ctx, s: Fs, outer: set<nat>, k: Kind, l: Lists, s': Fs, outer': set<nat>, l': Lists, r0: Regs)
    requires |s'.code| == |s.code| && s' == s.(code := s'.code) && Opens(s, Open(s, outer, k, l))
    requires Touched(s.code, Open(s, outer, k, l), s'.code, |s.code|)
    requires Open(s', outer', k, l') == Open(s, outer, k, l)
    requires !Flow(x, s, outer, k, l, r0).Stuck? && EndOf(k, s.code) >= 0
    ensures Flow(x, s', outer', k, l', r0) == Flow(x, s, outer, k, l, r0)
  {
    hide Run, Opens, Open, TouchedAt;
    TouchRun(x, s, Open(s, outer, k, l), s', EndOf(k, s.code), r0);
  }

  lemma MergeNil(x: Ctx, s: Fs, open: set<nat>, a: seq<nat>, q: seq<nat>)
    requires Nilable(x, s, open) && Opens(s, open) && Touched(s.code, open, Joined(s.code, a, q), |s.code|)
    requires ListIs(s.code, Head(a), a)
    ensures Nilable(x, s.(code := Joined(s.code, a, q)), open)
  {
    hide RunTo, Clean, Joined, ListIs, Opens, TouchedAt;
    var s' := s.(code := Joined(s.code, a, q));
    JoinedTouches(s.code, a, q, {});
    JoinedEnd(s.code, a, q);
    if s.last < |s.code| && s.code != [] && s.code[|s.code| - 1].LOADNIL? {
      forall r0: Regs | Clean(x, r0) ensures !RunTo(x, s', open, r0, |s.code| - 1).Stuck? {
        TouchRun(x, s, open, s', |s.code| - 1, r0);
      }
    }
  }
}
