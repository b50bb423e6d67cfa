/** The instructions that logical and relational expressions compile to, what
    the interpreter does with them, and what the expressions mean. */
module CodeVm {

  /** Numbers, strings and objects are opaque; only nil and false are false. */
  datatype Value = Nil | Bool(b: bool) | Num(n: int) | Str(s: string) | Obj(id: nat)

  predicate Truthy(v: Value) {
    v != Nil && v != Bool(false)
  }

  datatype CmpOp = OpEq | OpLt | OpLe

  /** A comparison answers or raises an error; how is not the point here. */
  datatype Answer = Yes | No | Raise

  type Cmp = (CmpOp, Value, Value) -> Answer

  // ---------------------------------------------------------- expressions

  datatype RelOp = Eq | Ne | Lt | Le | Gt | Ge

  datatype Expr =
    | ENil | ETrue | EFalse
    | ENum(n: int)
    | EStr(s: string)
    | ELocal(r: nat)
    | EParen(e: Expr)
    | ENot(e: Expr)
    | EAnd(a: Expr, b: Expr)
    | EOr(a: Expr, b: Expr)
    | ERel(op: RelOp, a: Expr, b: Expr)

  datatype Res = Val(v: Value) | Fails

  /** `a > b` is `b < a`, `a >= b` is `b <= a`, `~=` negates `==`. */
  function Relate(cmp: Cmp, op: RelOp, x: Value, y: Value): Answer {
    match op
    case Eq => cmp(OpEq, x, y)
    case Ne => Negate(cmp(OpEq, x, y))
    case Lt => cmp(OpLt, x, y)
    case Le => cmp(OpLe, x, y)
    case Gt => cmp(OpLt, y, x)
    case Ge => cmp(OpLe, y, x)
  }

  function Negate(a: Answer): Answer {
    match a case Yes => No case No => Yes case Raise => Raise
  }

  /** The registers of one activation. */
  type Regs = r: seq<Value> | |r| == 256 witness seq(256, _ => Nil)

  /** The Lua value of an expression over the locals in the registers. */
  function Eval(cmp: Cmp, e: Expr, r: Regs): Res {
    match e
    case ENil => Val(Nil)
    case ETrue => Val(Bool(true))
    case EFalse => Val(Bool(false))
    case ENum(n) => Val(Num(n))
    case EStr(s) => Val(Str(s))
    case ELocal(l) => if l < 256 then Val(r[l]) else Fails
    case EParen(a) => Eval(cmp, a, r)
    case ENot(a) =>
      (match Eval(cmp, a, r) case Val(v) => Val(Bool(!Truthy(v))) case Fails => Fails)
    case EAnd(a, b) =>
      (match Eval(cmp, a, r) case Val(v) => if Truthy(v) then Eval(cmp, b, r) else Val(v) case Fails => Fails)
    case EOr(a, b) =>
      (match Eval(cmp, a, r) case Val(v) => if Truthy(v) then Val(v) else Eval(cmp, b, r) case Fails => Fails)
    case ERel(op, a, b) =>
      var x := Eval(cmp, a, r);
      if x.Fails? then Fails else
      var y := Eval(cmp, b, r);
      if y.Fails? then Fails else
      match Relate(cmp, op, x.v, y.v)
      case Yes => Val(Bool(true))
      case No => Val(Bool(false))
      case Raise => Fails
  }

  // --------------------------------------------------------- instructions

  const NO_REG: nat := 255
  const NO_JUMP: int := -1
  const BITRK: nat := 256
  const MAXINDEXRK: nat := 255
  const MAXSTACK: nat := 250
  const MAXARG_Bx: nat := 262143
  const MAXARG_sBx: int := 131071

  datatype Instr =
    | MOVE(a: nat, b: nat)
    | LOADK(a: nat, bx: nat)
    | LOADBOOL(a: nat, v: bool, skip: bool)
    | LOADNIL(a: nat, b: nat)
    | NOT(a: nat, b: nat)
    | JMP(sbx: int)
    | CMP(op: CmpOp, cond: bool, rkb: nat, rkc: nat)
    | TEST(a: nat, c: bool)
    | TESTSET(a: nat, b: nat, c: bool)
    | OTHER

  /** testTMode: the instruction decides whether the jump behind it is taken. */
  predicate IsTest(i: Instr) {
    i.CMP? || i.TEST? || i.TESTSET?
  }

  datatype Rk = Known(v: Value) | Bad

  /** RKB, RKC: a register, or with the ninth bit a constant. */
  function RkVal(ks: seq<Value>, r: Regs, x: nat): Rk {
    if x < BITRK then Known(r[x]) else if x - BITRK < |ks| then Known(ks[x - BITRK]) else Bad
  }

  function SetNils(r: Regs, a: nat, b: nat): Regs {
    seq(256, i requires 0 <= i < 256 => if a <= i <= b then Nil else r[i])
  }

  /** How a stretch of code ends: at its end, by an open jump (`via` the test in
      front of it or not), by an error of a comparison; Stuck is a stretch that is not well formed. */
  datatype Out = Fall(regs: Regs) | Exit(j: nat, via: bool, regs: Regs) | Raised | Stuck

  datatype Env = Env(cmp: Cmp, ks: seq<Value>)

  /** luaV_execute from i up to `end`, on code whose jumps at the positions in
      `open` have no target yet: taking one of them leaves the stretch.  Every
      other jump goes forward.  A TESTSET in front of an open jump has no
      register to set yet. */
  function Run(c: seq<Instr>, open: set<nat>, env: Env, i: nat, r: Regs, end: nat): Out
    requires i <= end <= |c|
    decreases end - i
  {
    if i == end then Fall(r)
    else match c[i]
      case MOVE(a, b) => if a < 256 && b < 256 then Run(c, open, env, i + 1, r[a := r[b]], end) else Stuck
      case LOADK(a, k) => if a < 256 && k < |env.ks| then Run(c, open, env, i + 1, r[a := env.ks[k]], end) else Stuck
      case LOADBOOL(a, v, skip) =>
        if a >= 256 then Stuck
        else if !skip then Run(c, open, env, i + 1, r[a := Bool(v)], end)
        else if i + 2 <= end then Run(c, open, env, i + 2, r[a := Bool(v)], end) else Stuck
      case LOADNIL(a, b) => Run(c, open, env, i + 1, SetNils(r, a, b), end)
      case NOT(a, b) => if a < 256 && b < 256 then Run(c, open, env, i + 1, r[a := Bool(!Truthy(r[b]))], end) else Stuck
      case JMP(_) => Jump(c, open, env, i, false, r, end)
      case CMP(op, cond, b, d) =>
        if i + 1 == end || !c[i + 1].JMP? then Stuck
        else
          var x, y := RkVal(env.ks, r, b), RkVal(env.ks, r, d);
          if x.Bad? || y.Bad? then Stuck
          else (match env.cmp(op, x.v, y.v)
                case Raise => Raised
                case Yes => if cond then Jump(c, open, env, i + 1, true, r, end) else Run(c, open, env, i + 2, r, end)
                case No => if !cond then Jump(c, open, env, i + 1, true, r, end) else Run(c, open, env, i + 2, r, end))
      case TEST(a, k) =>
        if i + 1 == end || !c[i + 1].JMP? || a >= 256 then Stuck
        else if Truthy(r[a]) == k then Jump(c, open, env, i + 1, true, r, end)
        else Run(c, open, env, i + 2, r, end)
      case TESTSET(a, b, k) =>
        if i + 1 == end || !c[i + 1].JMP? || a >= 256 || b >= 256 then Stuck
        else if Truthy(r[b]) == k then
          Jump(c, open, env, i + 1, true, if i + 1 in open then r else r[a := r[b]], end)
        else Run(c, open, env, i + 2, r, end)
      case OTHER => Stuck
  }

  /** dojump of the JMP at j. */
  function Jump(c: seq<Instr>, open: set<nat>, env: Env, j: nat, via: bool, r: Regs, end: nat): Out
    requires j < end <= |c| && c[j].JMP?
    decreases end - j, 0
  {
    if j in open then Exit(j, via, r)
    else
      var t := j + 1 + c[j].sbx;
      if j < t <= end then Run(c, open, env, t, r, end) else Stuck
  }
}
