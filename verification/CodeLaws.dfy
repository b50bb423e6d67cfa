/** What expressions mean, operator by operator and in plain terms. */
module CodeLaws {
  import opened CodeVm

  /** A comparison that is the usual one on numbers. */
  ghost predicate Numeric(cmp: Cmp) {
    forall m, n ::
      && cmp(OpEq, Num(m), Num(n)) == (if m == n then Yes else No)
      && cmp(OpLt, Num(m), Num(n)) == (if m < n then Yes else No)
      && cmp(OpLe, Num(m), Num(n)) == (if m <= n then Yes else No)
  }

  predicate Stands(op: RelOp, m: int, n: int) {
    match op
    case Eq => m == n
    case Ne => m != n
    case Lt => m < n
    case Le => m <= n
    case Gt => m > n
    case Ge => m >= n
  }

  /** On numbers the six operators are the six relations. */
  lemma NumbersCompare(cmp: Cmp, op: RelOp, m: int, n: int, r: Regs)
    requires Numeric(cmp)
    ensures Eval(cmp, ERel(op, ENum(m), ENum(n)), r) == Val(Bool(Stands(op, m, n)))
  {
    assert cmp(OpEq, Num(m), Num(n)) == if m == n then Yes else No;
    assert cmp(OpEq, Num(n), Num(m)) == if m == n then Yes else No;
  }

  /** On any operands `==`, `<` and `<=` ask the comparison, in this order. */
  lemma BasicCompare(cmp: Cmp, a: Expr, b: Expr, r: Regs, x: Value, y: Value)
    requires Eval(cmp, a, r) == Val(x) && Eval(cmp, b, r) == Val(y)
    ensures Eval(cmp, ERel(Eq, a, b), r) == (match cmp(OpEq, x, y) case Yes => Val(Bool(true)) case No => Val(Bool(false)) case Raise => Fails)
    ensures Eval(cmp, ERel(Lt, a, b), r) == (match cmp(OpLt, x, y) case Yes => Val(Bool(true)) case No => Val(Bool(false)) case Raise => Fails)
    ensures Eval(cmp, ERel(Le, a, b), r) == (match cmp(OpLe, x, y) case Yes => Val(Bool(true)) case No => Val(Bool(false)) case Raise => Fails)
  {
  }

  /** `a > b` is `b < a`, `a >= b` is `b <= a`, and `a ~= b` is `not (a == b)`. */
  lemma DerivedCompare(cmp: Cmp, a: Expr, b: Expr, r: Regs, x: Value, y: Value)
    requires Eval(cmp, a, r) == Val(x) && Eval(cmp, b, r) == Val(y)
    ensures Eval(cmp, ERel(Gt, a, b), r) == Eval(cmp, ERel(Lt, b, a), r)
    ensures Eval(cmp, ERel(Ge, a, b), r) == Eval(cmp, ERel(Le, b, a), r)
    ensures Eval(cmp, ERel(Ne, a, b), r) == Eval(cmp, ENot(ERel(Eq, a, b)), r)
  {
  }

  /** An operand that raises an error raises it for the whole. */
  lemma FailingOperand(cmp: Cmp, op: RelOp, a: Expr, b: Expr, r: Regs)
    requires Eval(cmp, a, r) == Fails || Eval(cmp, b, r) == Fails
    ensures Eval(cmp, ERel(op, a, b), r) == Fails
  {
  }

  /** Constants, locals and parentheses. */
  lemma Leaves(cmp: Cmp, n: int, s: string, l: nat, e: Expr, r: Regs)
    ensures Eval(cmp, ENil, r) == Val(Nil) && Eval(cmp, ETrue, r) == Val(Bool(true)) && Eval(cmp, EFalse, r) == Val(Bool(false))
    ensures Eval(cmp, ENum(n), r) == Val(Num(n)) && Eval(cmp, EStr(s), r) == Val(Str(s))
    ensures l < 256 ==> Eval(cmp, ELocal(l), r) == Val(r[l])
    ensures Eval(cmp, EParen(e), r) == Eval(cmp, e, r)
  {
  }

  /** nil and false are false and everything else is true; `not` gives a boolean,
      `and` and `or` give one of their operands, the second only if need be. */
  lemma Logic(cmp: Cmp, a: Expr, b: Expr, r: Regs)
    ensures Eval(cmp, a, r) in {Val(Nil), Val(Bool(false))} ==>
              && Eval(cmp, ENot(a), r) == Val(Bool(true))
              && Eval(cmp, EAnd(a, b), r) == Eval(cmp, a, r)
              && Eval(cmp, EOr(a, b), r) == Eval(cmp, b, r)
    ensures Eval(cmp, a, r) !in {Val(Nil), Val(Bool(false)), Fails} ==>
              && Eval(cmp, ENot(a), r) == Val(Bool(false))
              && Eval(cmp, EAnd(a, b), r) == Eval(cmp, b, r)
              && Eval(cmp, EOr(a, b), r) == Eval(cmp, a, r)
    ensures Eval(cmp, a, r) == Fails ==>
              Eval(cmp, ENot(a), r) == Fails && Eval(cmp, EAnd(a, b), r) == Fails && Eval(cmp, EOr(a, b), r) == Fails
  {
  }
}
