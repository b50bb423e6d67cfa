/** The interpreter's loop, and code that is compiled and then run by it. */
module CodeMachine {
  import opened CodeVm
  import opened CodeLaws
  import opened CodeGen
  import Sem = CodeSem
  import opened CodeTheorem

  /** l_isfalse */
  predicate IsFalse(v: Value) {
    v == Nil || v == Bool(false)
  }

  datatype Halt = End(regs: Regs) | Error

  /** luaV_execute on code without open jumps: fetch, advance, execute. */
  method Execute(c: seq<Instr>, env: Env, start: nat, r0: Regs, end: nat) returns (o: Halt)
    requires start <= end <= |c| && !Run(c, {}, env, start, r0, end).Stuck?
    ensures match Run(c, {}, env, start, r0, end)
            case Fall(r) => o == End(r)
            case Raised => o == Error
            case _ => false
  {
    var pc, r := start, r0;
    while pc != end
      invariant start <= pc <= end && Run(c, {}, env, pc, r, end) == Run(c, {}, env, start, r0, end)
      decreases end - pc
    {
      var i := c[pc];
      var next: int := pc + 1;
      match i {
        case MOVE(a, b) => r := r[a := r[b]];
        case LOADK(a, bx) => r := r[a := env.ks[bx]];
        case LOADBOOL(a, v, skip) =>
          r := r[a := Bool(v)];
          if skip { next := next + 1; }
        case LOADNIL(a, b) => r := LoadNil(r, a, b);
        case NOT(a, b) => r := r[a := Bool(IsFalse(r[b]))];
        case JMP(sbx) => next := next + sbx;
        case CMP(op, cond, b, d) =>
          var x := RkVal(env.ks, r, b);
          var y := RkVal(env.ks, r, d);
          var answer := env.cmp(op, x.v, y.v);
          if answer == Raise { return Error; }
          if (answer == Yes) == cond { next := next + c[next].sbx; }
          next := next + 1;
        case TEST(a, k) =>
          if IsFalse(r[a]) != k { next := next + c[next].sbx; }
          next := next + 1;
        case TESTSET(a, b, k) =>
          if IsFalse(r[b]) != k {
            r := r[a := r[b]];
            next := next + c[next].sbx;
          }
          next := next + 1;
      }
      pc := next;
    }
    o := End(r);
  }

  /** The registers from b down to a. */
  method LoadNil(r0: Regs, a: nat, b: nat) returns (r: Regs)
    ensures r == SetNils(r0, a, b)
  {
    r := r0;
    var j := b + 1;
    while j > a
      invariant a <= j || j == b + 1
      invariant forall i :: 0 <= i < 256 ==> r[i] == if j <= i <= b then Nil else r0[i]
    {
      j := j - 1;
      if j < 256 { r := r[j := Nil]; }
    }
  }

  /** `v = e` in a new function with n parameters, compiled and then executed: the
      local has the value of e and no other one changes, or the error of e is
      raised.  A small expression compiles. */
  method CompileAndRun(cmp: Cmp, e: Expr, n: nat, v: nat, r0: Regs) returns (compiled: bool, o: Halt)
    requires v < n < MAXSTACK && Scoped(e, n) && forall i :: n <= i < 256 ==> r0[i] == Nil
    ensures Bulk(e) < 131000 && n + RelDepth(e) + 1 < MAXSTACK ==> compiled
    ensures compiled ==>
              match Eval(cmp, e, r0)
              case Fails => o == Error
              case Val(w) => o.End? && o.regs[v] == w && forall i :: 0 <= i < n && i != v ==> o.regs[i] == r0[i]
  {
    hide Run, Scoped, Eval, RelDepth, Bulk;
    var fs := new FuncState(cmp, n);
    fs.AssignLocal(e, v, OTHER, {});
    compiled := fs.err.Fine?;
    if !compiled { return false, Error; }
    CleanStart(fs.X(), r0);
    o := Execute(fs.code, Env(cmp, fs.k), 0, r0, |fs.code| - 1);
  }

  lemma CleanStart(x: Sem.Ctx, r: Regs)
    requires forall i :: x.nactvar <= i < 256 ==> r[i] == Nil
    ensures Sem.Clean(x, r)
  {
  }

  /** `v = m > n` and its like, compiled and executed, leave the relation of the two
      numbers in v. */
  method CompareAndRun(cmp: Cmp, op: RelOp, m: int, k: int, n: nat, v: nat, r0: Regs) returns (o: Halt)
    requires Numeric(cmp) && v < n < 200 && forall i :: n <= i < 256 ==> r0[i] == Nil
    ensures o.End? && o.regs[v] == Bool(Stands(op, m, k))
  {
    NumbersCompare(cmp, op, m, k, r0);
    var e := ERel(op, ENum(m), ENum(k));
    SmallCompare(op, m, k, n);
    var compiled;
    compiled, o := CompileAndRun(cmp, e, n, v, r0);
  }

  lemma SmallCompare(op: RelOp, m: int, k: int, n: nat)
    ensures var e := ERel(op, ENum(m), ENum(k)); Bulk(e) == 12 && RelDepth(e) == 1 && Scoped(e, n)
  {
    var a, b := ENum(m), ENum(k);
    assert Bulk(a) == 1 && Bulk(b) == 1 && RelDepth(a) == 0 && RelDepth(b) == 0;
    assert RelDepth(ERel(op, a, b)) == Max(0, 1);
  }
}
