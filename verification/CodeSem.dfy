/** What the code generator's state means: where control goes when the code so
    far runs, and which value an expression descriptor stands for. */
module CodeSem {
  import opened CodeVm
  import opened CodeLists

  /** The kinds of expression descriptor that occur here. */
  datatype Kind =
    | VNil | VTrue | VFalse
    | VK(info: nat)
    | VKNum(n: int)
    | VLocal(r: nat)
    | VNonreloc(r: nat)
    | VReloc(info: nat)
    | VJmp(info: nat)

  /** t and f are the heads of the lists of jumps taken when the expression is
      true and when it is false. */
  datatype Exp = Exp(k: Kind, t: int, f: int)

  /** The jumps on the two lists. */
  datatype Lists = Lists(t: seq<nat>, f: seq<nat>)

  /** The state of the generator; pend are the jumps of the list jpc. */
  datatype Fs = Fs(code: seq<Instr>, ks: seq<Value>, jpc: int, pend: seq<nat>, last: int, free: nat)

  /** What is fixed: how values compare, where the stretch of code that is
      looked at starts, how many registers are local variables. */
  datatype Ctx = Ctx(cmp: Cmp, origin: nat, nactvar: nat)

  function Elems(s: seq<nat>): set<nat> {
    set j | j in s
  }

  predicate Plain(k: Kind) {
    !k.VReloc? && !k.VJmp?
  }

  function Own(k: Kind): set<nat> {
    if k.VJmp? then {k.info} else {}
  }

  /** All jumps without a target: those of the expressions around this one, of
      this one, and the pending ones. */
  function Open(s: Fs, outer: set<nat>, k: Kind, l: Lists): set<nat> {
    outer + Elems(l.t) + Elems(l.f) + Elems(s.pend) + Own(k)
  }

  /** Where the code that must have run ends: a relocatable or jumping
      expression has its last instructions still in hand. */
  function EndOf(k: Kind, c: seq<Instr>): int {
    match k
    case VReloc(_) => |c| - 1
    case VJmp(_) => |c| - 2
    case _ => |c|
  }

  /** The value the descriptor stands for when control arrives with registers r. */
  function HereRes(k: Kind, c: seq<Instr>, env: Env, r: Regs): Res {
    match k
    case VNil => Val(Nil)
    case VTrue => Val(Bool(true))
    case VFalse => Val(Bool(false))
    case VK(i) => if i < |env.ks| then Val(env.ks[i]) else Fails
    case VKNum(n) => Val(Num(n))
    case VLocal(x) => if x < 256 then Val(r[x]) else Fails
    case VNonreloc(x) => if x < 256 then Val(r[x]) else Fails
    case VReloc(info) =>
      if info < |c| && c[info].NOT? && c[info].b < 256 then Val(Bool(!Truthy(r[c[info].b]))) else Fails
    case VJmp(info) =>
      if 0 < info <= |c| && TestOk(c[info - 1], env.ks) then TakenRes(c[info - 1], env, r) else Fails
  }

  predicate RkOk(x: nat, ks: seq<Value>) {
    x < BITRK || x - BITRK < |ks|
  }

  predicate TestOk(i: Instr, ks: seq<Value>) {
    match i
    case CMP(_, _, b, d) => RkOk(b, ks) && RkOk(d, ks)
    case TEST(a, _) => a < 256
    case TESTSET(a, b, _) => a < 256 && b < 256
    case _ => false
  }

  /** The truth of "this test makes its jump". */
  function TakenRes(i: Instr, env: Env, r: Regs): Res
    requires TestOk(i, env.ks)
  {
    match i
    case CMP(op, cond, b, d) =>
      (match env.cmp(op, RkVal(env.ks, r, b).v, RkVal(env.ks, r, d).v)
       case Yes => Val(Bool(cond))
       case No => Val(Bool(!cond))
       case Raise => Fails)
    case TEST(a, k) => Val(Bool(Truthy(r[a]) == k))
    case TESTSET(_, b, k) => Val(Bool(Truthy(r[b]) == k))
  }

  /** The value of the expression when control leaves by the jump j: what its
      TESTSET tested, or else the plain boolean. */
  function ExitVal(c: seq<Instr>, j: nat, r: Regs, sense: bool): Value {
    if HasTestset(c, j) && c[j - 1].b < 256 then r[c[j - 1].b] else Bool(sense)
  }

  function EnvOf(x: Ctx, s: Fs): Env {
    Env(x.cmp, s.ks)
  }

  /** A pending jump arrives where the code ends. */
  function Settled(o: Out, p: seq<nat>): Out {
    if o.Exit? && o.j in p then Fall(o.regs) else o
  }

  function RunTo(x: Ctx, s: Fs, open: set<nat>, r0: Regs, end: int): Out {
    if x.origin <= end <= |s.code| then Run(s.code, open, EnvOf(x, s), x.origin, r0, end) else Stuck
  }

  /** How the run from the origin, with registers r0, reaches the expression. */
  function Flow(x: Ctx, s: Fs, outer: set<nat>, k: Kind, l: Lists, r0: Regs): Out {
    Settled(RunTo(x, s, Open(s, outer, k, l), r0, EndOf(k, s.code)), s.pend)
  }

  /** At the start of a function every register but the parameters is nil. */
  ghost predicate Clean(x: Ctx, r0: Regs) {
    x.origin == 0 ==> forall i :: x.nactvar <= i < 256 ==> r0[i] == Nil
  }

  // ------------------------------------------------------------ invariant

  ghost predicate Apart(s: set<nat>, t: set<nat>) {
    forall j :: j in s ==> j !in t
  }

  ghost predicate Disjoint(o: set<nat>, a: set<nat>, b: set<nat>, p: set<nat>) {
    Apart(o, a) && Apart(o, b) && Apart(o, p) && Apart(a, b) && Apart(a, p) && Apart(b, p)
  }

  /** The jump lists are threaded through the code and share no jump. */
  ghost predicate Linked(s: Fs, outer: set<nat>, e: Exp, l: Lists) {
    && ListIs(s.code, s.jpc, s.pend) && ListIs(s.code, e.t, l.t) && ListIs(s.code, e.f, l.f)
    && Apart(outer, Own(e.k)) && Disjoint(outer + Own(e.k), Elems(l.t), Elems(l.f), Elems(s.pend))
    && (forall j :: j in outer ==> j < |s.code| && s.code[j].JMP?)
    && (s.pend != [] ==> s.last == |s.code|)
  }

  predicate KindOk(x: Ctx, s: Fs, k: Kind) {
    match k
    case VK(i) => i < |s.ks|
    case VLocal(r) => r < x.nactvar
    case VNonreloc(r) => r < x.nactvar || r == s.free - 1
    case VReloc(i) => i == |s.code| - 1 && s.code[i].NOT? && s.code[i].b < 256 && s.pend == []
    case VJmp(i) =>
      i == |s.code| - 1 && i > 0 && s.code[i] == JMP(NO_JUMP) && s.pend == [] && TestOk(s.code[i - 1], s.ks)
    case _ => true
  }

  /** A constant descriptor is a string, a jumping one a comparison, a register a
      local variable: so it is for the descriptors of whole expressions. */
  predicate Proper(x: Ctx, s: Fs, k: Kind)
    requires KindOk(x, s, k)
  {
    match k
    case VK(i) => Truthy(s.ks[i])
    case VJmp(i) => s.code[i - 1].CMP?
    case VNonreloc(r) => r < x.nactvar
    case _ => true
  }

  /** What a run brings to the point where the expression's value is wanted: a
      value and the registers, an error, or control is elsewhere. */
  datatype Carry = Has(v: Value, regs: Regs) | Err | Gone(o: Out)

  function Carried(x: Ctx, s: Fs, k: Kind, l: Lists, b: Out): Carry {
    match b
    case Fall(r) => (match HereRes(k, s.code, EnvOf(x, s), r) case Val(v) => Has(v, r) case Fails => Err)
    case Exit(j, _, r) =>
      if j in l.t then Has(ExitVal(s.code, j, r, true), r)
      else if j in l.f then Has(ExitVal(s.code, j, r, false), r)
      else Gone(b)
    case Raised => Err
    case Stuck => Gone(Stuck)
  }

  /** A run never gets stuck before the expression, and the jumps on its lists
      are taken, behind their tests, with true and with false values. */
  predicate Sane(c: seq<Instr>, l: Lists, b: Out) {
    && !b.Stuck?
    && (b.Exit? && b.j in l.t ==> b.via && Truthy(ExitVal(c, b.j, b.regs, true)))
    && (b.Exit? && b.j in l.f ==> b.via && !Truthy(ExitVal(c, b.j, b.regs, false)))
  }

  ghost predicate Flows(x: Ctx, s: Fs, outer: set<nat>, k: Kind, l: Lists) {
    && x.origin <= EndOf(k, s.code)
    && forall r0: Regs :: Clean(x, r0) ==> Sane(s.code, l, Flow(x, s, outer, k, l, r0))
  }

  /** A LOADNIL that a later one may be merged into lies in the stretch, and
      every run that passes it has come to it. */
  ghost predicate Nilable(x: Ctx, s: Fs, open: set<nat>) {
    s.last < |s.code| && s.code != [] && s.code[|s.code| - 1].LOADNIL? ==>
      && x.origin < |s.code|
      && forall r0: Regs :: Clean(x, r0) ==> !RunTo(x, s, open, r0, |s.code| - 1).Stuck?
  }

  ghost predicate Core(x: Ctx, s: Fs, outer: set<nat>, e: Exp, l: Lists) {
    && Linked(s, outer, e, l) && KindOk(x, s, e.k)
    && x.nactvar <= s.free < MAXSTACK
    && Flows(x, s, outer, e.k, l)
  }

  /** What holds between any two operations of the generator. */
  ghost predicate Ok(x: Ctx, s: Fs, outer: set<nat>, e: Exp, l: Lists) {
    Core(x, s, outer, e, l) && Nilable(x, s, Open(s, outer, e.k, l))
  }

  // ------------------------------------------------------------ relations

  ghost predicate Kept(r: Regs, r': Regs, base: nat) {
    forall i :: 0 <= i < base && i < 256 ==> r'[i] == r[i]
  }

  /** The jump j has the same TESTSET, or still none, in front of it. */
  predicate SameTest(c: seq<Instr>, c': seq<Instr>, j: nat) {
    HasTestset(c', j) == HasTestset(c, j) && (HasTestset(c, j) ==> c'[j - 1] == c[j - 1])
  }

  /** The jumps in js are untouched. */
  ghost predicate SameJumps(c: seq<Instr>, c': seq<Instr>, js: set<nat>) {
    forall j :: j in js && j < |c| ==> j < |c'| && c'[j] == c[j] && SameTest(c, c', j)
  }

  /** Compiling e: a run b that reached the start of its code goes on to its
      value, keeping the registers below base; any other run is not affected. */
  ghost predicate Computed(x: Ctx, s: Fs, k: Kind, l: Lists, base: nat, e: Expr, b: Out, a: Out) {
    match b
    case Fall(r) =>
      var res := Eval(x.cmp, e, r);
      (match Carried(x, s, k, l, a)
       case Has(v, r') => res == Val(v) && Kept(r, r', base)
       case Err => res.Fails?
       case Gone(_) => false)
    case _ => a == b
  }

  /** exp2reg: the value is in the register, and nothing else changed. */
  predicate Delivered(b: Carry, a: Out, reg: nat) {
    match b
    case Has(v, r) => reg < 256 && a == Fall(r[reg := v])
    case Err => a == Raised
    case Gone(o) => a == o
  }

  /** exp2RK: the value is in the register or constant o. */
  ghost predicate Held(b: Carry, a: Out, ks: seq<Value>, o: nat, base: nat) {
    match b
    case Has(v, r) => a.Fall? && Kept(r, a.regs, base) && RkVal(ks, a.regs, o) == Known(v)
    case Err => a == Raised
    case Gone(g) => a == g
  }

  /** goiftrue (sense) and goiffalse: control arrives if the truth of the value
      is `sense`, and leaves with the value by a jump of s otherwise. */
  ghost predicate Branched(b: Carry, a: Out, c: seq<Instr>, s: seq<nat>, sense: bool, base: nat) {
    match b
    case Has(v, r) =>
      if Truthy(v) == sense then a.Fall? && Kept(r, a.regs, base)
      else a.Exit? && a.j in s && Kept(r, a.regs, base) && ExitVal(c, a.j, a.regs, !sense) == v
    case Err => a == Raised
    case Gone(o) => a == o
  }

  /** codenot. */
  ghost predicate Negated(b: Carry, a: Carry, base: nat) {
    match b
    case Has(v, r) => a.Has? && a.v == Bool(!Truthy(v)) && Kept(r, a.regs, base)
    case _ => a == b
  }
}
