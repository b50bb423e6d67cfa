/** How the meaning of a stretch of code changes when instructions are added
    behind it and its open jumps are patched. */
module CodeRun {
  import opened CodeVm

  /** One instruction before and after patching: an open jump may get a target
      behind the stretch; the TESTSET in front of one may get its register or
      become a TEST; nothing else changes. */
  ghost predicate Patched(c: seq<Instr>, open: set<nat>, c': seq<Instr>, open': set<nat>, n: nat, p: nat)
    requires p < n <= |c| && n <= |c'|
  {
    if p in open then
      c[p].JMP? && c'[p].JMP? && (p !in open' ==> n <= p + 1 + c'[p].sbx)
    else
      && p !in open'
      && (|| c'[p] == c[p]
          || (&& c[p].TESTSET? && p + 1 in open
              && (c'[p] == TEST(c[p].b, c[p].c) ||
                  (p + 1 !in open' && c'[p].TESTSET? && c'[p].a < 256 && c'[p].b == c[p].b && c'[p].c == c[p].c))))
  }

  /** The first n instructions of c' are those of c with open jumps patched. */
  ghost predicate Relinked(c: seq<Instr>, open: set<nat>, c': seq<Instr>, open': set<nat>, n: nat) {
    n <= |c| && n <= |c'| && forall p :: 0 <= p < n ==> Patched(c, open, c', open', n, p)
  }

  ghost predicate Extends(env: Env, env': Env) {
    env'.cmp == env.cmp && env.ks <= env'.ks
  }

  /** What a jump that left by j does to the registers once it is patched. */
  function Landed(c: seq<Instr>, j: nat, via: bool, r: Regs): Regs {
    if via && 0 < j <= |c| && c[j - 1].TESTSET? && c[j - 1].a < 256 && c[j - 1].b < 256
    then r[c[j - 1].a := r[c[j - 1].b]] else r
  }

  /** The patched code runs as the old code did; where the old code left by a
      jump that has a target now, it goes on from there. */
  function Resumed(o: Out, c: seq<Instr>, open: set<nat>, env: Env, n: nat, end: nat): Out
    requires n <= end <= |c|
  {
    match o
    case Fall(r) => Run(c, open, env, n, r, end)
    case Exit(j, via, r) =>
      if j in open then o
      else if j < end && c[j].JMP? then Jump(c, open, env, j, via, Landed(c, j, via, r), end)
      else Stuck
    case _ => o
  }

  lemma RkSame(env: Env, env': Env, r: Regs, x: nat)
    requires Extends(env, env') && !RkVal(env.ks, r, x).Bad?
    ensures RkVal(env'.ks, r, x) == RkVal(env.ks, r, x)
  {
  }

  lemma {:induction false} RunRelinked(c: seq<Instr>, open: set<nat>, env: Env, c': seq<Instr>, open': set<nat>, env': Env,
                                       i: nat, r: Regs, n: nat, end: nat)
    requires Relinked(c, open, c', open', n) && Extends(env, env') && i <= n <= end <= |c'|
    requires !Run(c, open, env, i, r, n).Stuck?
    ensures Run(c', open', env', i, r, end) == Resumed(Run(c, open, env, i, r, n), c', open', env', n, end)
    decreases n - i
  {
    if i < n {
      assert Patched(c, open, c', open', n, i);
      if i + 1 < n { assert Patched(c, open, c', open', n, i + 1); }
      match c[i]
      case MOVE(a, b) => RunRelinked(c, open, env, c', open', env', i + 1, r[a := r[b]], n, end);
      case LOADK(a, k) => RunRelinked(c, open, env, c', open', env', i + 1, r[a := env.ks[k]], n, end);
      case LOADBOOL(a, v, skip) =>
        RunRelinked(c, open, env, c', open', env', if skip then i + 2 else i + 1, r[a := Bool(v)], n, end);
      case LOADNIL(a, b) => RunRelinked(c, open, env, c', open', env', i + 1, SetNils(r, a, b), n, end);
      case NOT(a, b) => RunRelinked(c, open, env, c', open', env', i + 1, r[a := Bool(!Truthy(r[b]))], n, end);
      case JMP(_) => JumpRelinked(c, open, env, c', open', env', i, false, r, n, end);
      case CMP(op, cond, b, d) =>
        RkSame(env, env', r, b);
        RkSame(env, env', r, d);
        var ans := env.cmp(op, RkVal(env.ks, r, b).v, RkVal(env.ks, r, d).v);
        if ans != Raise {
          if cond == (ans == Yes) {
            JumpRelinked(c, open, env, c', open', env', i + 1, true, r, n, end);
          } else {
            RunRelinked(c, open, env, c', open', env', i + 2, r, n, end);
          }
        }
      case TEST(a, k) =>
        if Truthy(r[a]) == k { JumpRelinked(c, open, env, c', open', env', i + 1, true, r, n, end); }
        else { RunRelinked(c, open, env, c', open', env', i + 2, r, n, end); }
      case TESTSET(a, b, k) =>
        if Truthy(r[b]) == k {
          JumpRelinked(c, open, env, c', open', env', i + 1, true, if i + 1 in open then r else r[a := r[b]], n, end);
        } else {
          RunRelinked(c, open, env, c', open', env', i + 2, r, n, end);
        }
      case OTHER =>
    }
  }

  lemma {:induction false} JumpRelinked(c: seq<Instr>, open: set<nat>, env: Env, c': seq<Instr>, open': set<nat>, env': Env,
                                        j: nat, via: bool, r: Regs, n: nat, end: nat)
    requires Relinked(c, open, c', open', n) && Extends(env, env') && j < n <= end <= |c'|
    requires c[j].JMP? && !Jump(c, open, env, j, via, r, n).Stuck?
    ensures c'[j].JMP?
    ensures j !in open ==> j !in open'
    ensures j !in open ==>
              Jump(c', open', env', j, via, r, end) == Resumed(Jump(c, open, env, j, via, r, n), c', open', env', n, end)
    decreases n - j, 0
  {
    assert Patched(c, open, c', open', n, j);
    if j !in open {
      RunRelinked(c, open, env, c', open', env', j + 1 + c[j].sbx, r, n, end);
    }
  }
}
