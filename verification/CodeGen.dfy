/** The code generator: the instruction array, its jump lists and its registers,
    changed step by step. */
module CodeGen {
  import opened CodeVm
  import opened CodeLists
  import opened CodeSem
  import opened CodeFlow
  import opened CodeEmit
  import opened CodeLink
  import opened CodeChange
  import opened CodeStore
  import opened CodeClose
  import opened CodeSteps
  import opened CodeExpr
  import opened CodeTheorem

  /** The syntax errors the generator raises when a limit is passed. */
  datatype Error = Fine | TooLong | TooComplex | TooManyConstants

  function GetJump(c: seq<Instr>, pc: nat): int
    requires pc < |c| && c[pc].JMP?
  {
    if c[pc].sbx == NO_JUMP then NO_JUMP else pc + 1 + c[pc].sbx
  }

  /** The next jump of a list. */
  lemma GetNext(c: seq<Instr>, l: int, s: seq<nat>, i: nat)
    requires ListIs(c, l, s) && i < |s|
    ensures s[i] < |c| && c[s[i]].JMP?
    ensures GetJump(c, s[i]) == if i + 1 < |s| then s[i + 1] else NO_JUMP
  {
    assert c[s[i]] == JMP(LinkOf(s, i));
    if i + 1 < |s| { assert s[i] != s[i + 1]; }
  }

  /** The jumps of a list in front of its i-th. */
  lemma ListPrefix(c: seq<Instr>, l: int, s: seq<nat>, i: nat)
    requires ListIs(c, l, s) && i < |s|
    ensures s[i] !in s[..i] && s[..i + 1] == s[..i] + [s[i]] && s[i] < |c| && c[s[i]].JMP?
    ensures forall q :: q in s[..i] ==> q < |c| && c[q].JMP?
  {
    hide ListIs;
    ListDistinct(c, l, s);
    DistinctPrefix(s, i);
    assert s[i] in s;
    ListJump(c, l, s, s[i]);
    forall q | q in s[..i] ensures q < |c| && c[q].JMP? {
      assert q in s;
      ListJump(c, l, s, q);
    }
  }

  lemma ListDistinct(c: seq<Instr>, l: int, s: seq<nat>)
    requires ListIs(c, l, s)
    ensures Distinct(s)
  {
  }

  lemma DistinctPrefix(s: seq<nat>, i: nat)
    requires Distinct(s) && i < |s|
    ensures s[i] !in s[..i] && s[..i + 1] == s[..i] + [s[i]]
  {
  }

  lemma RetargetAt(c: seq<Instr>, q: seq<nat>, j: nat, vt: int, reg: nat, dt: int, p: nat)
    requires j !in q && j < |c| && c[j].JMP? && p < |c| && forall i :: i in q ==> i < |c| && c[i].JMP?
    ensures var c1, c2 := Retarget(c, q, vt, reg, dt), Retarget(c, q + [j], vt, reg, dt);
            c2[p] == if p == j then JMP((if HasTestset(c, j) then vt else dt) - (j + 1))
                     else if p + 1 == j && c[p].TESTSET? then SetReg(c[p], reg) else c1[p]
    ensures p == j ==> Retarget(c, q, vt, reg, dt)[p] == c[p]
    ensures p + 1 == j ==> (c[p].TESTSET? <==> Retarget(c, q, vt, reg, dt)[p].TESTSET?)
    ensures p + 1 == j && c[p].TESTSET? ==> Retarget(c, q, vt, reg, dt)[p] == c[p]
  {
    assert p in q + [j] <==> p in q || p == j;
    assert p + 1 in q + [j] <==> p + 1 in q || p + 1 == j;
  }

  /** Patching one more jump of the list. */
  lemma RetargetNext(c: seq<Instr>, l: int, s: seq<nat>, i: nat, vt: int, reg: nat, dt: int)
    requires ListIs(c, l, s) && i < |s|
    ensures var c1, c2 := Retarget(c, s[..i], vt, reg, dt), Retarget(c, s[..i + 1], vt, reg, dt);
            var j := s[i];
            && j < |c| && c1[j] == c[j] && c[j].JMP? && HasTestset(c1, j) == HasTestset(c, j)
            && (HasTestset(c, j) ==> c1[j - 1] == c[j - 1])
            && (HasTestset(c, j) ==> c2 == c1[j - 1 := SetReg(c[j - 1], reg)][j := JMP(vt - (j + 1))])
            && (!HasTestset(c, j) ==> c2 == c1[j := JMP(dt - (j + 1))])
  {
    hide ListIs, Retarget;
    var j := s[i];
    var c1, c2 := Retarget(c, s[..i], vt, reg, dt), Retarget(c, s[..i + 1], vt, reg, dt);
    ListPrefix(c, l, s, i);
    RetargetAt(c, s[..i], j, vt, reg, dt, j);
    if j > 0 { RetargetAt(c, s[..i], j, vt, reg, dt, j - 1); }
    forall p | 0 <= p < |c| && p != j && p + 1 != j ensures c2[p] == c1[p] { RetargetAt(c, s[..i], j, vt, reg, dt, p); }
  }

  lemma DropAt(c: seq<Instr>, q: seq<nat>, j: nat, p: nat)
    requires j !in q && j < |c| && c[j].JMP? && p < |c|
    ensures DropValues(c, q + [j])[p] == if p + 1 == j && c[p].TESTSET? then TEST(c[p].b, c[p].c) else DropValues(c, q)[p]
    ensures p == j || p + 1 == j ==> DropValues(c, q)[p] == c[p]
  {
    assert p + 1 in q + [j] <==> p + 1 in q || p + 1 == j;
  }

  lemma DropNext(c: seq<Instr>, l: int, s: seq<nat>, i: nat)
    requires ListIs(c, l, s) && i < |s|
    ensures var c1, c2 := DropValues(c, s[..i]), DropValues(c, s[..i + 1]);
            var j := s[i];
            && j < |c| && c1[j] == c[j] && c2[j] == c[j] && c[j].JMP? && HasTestset(c1, j) == HasTestset(c, j)
            && (HasTestset(c, j) ==> c1[j - 1] == c[j - 1] && c2 == c1[j - 1 := TEST(c[j - 1].b, c[j - 1].c)])
            && (!HasTestset(c, j) ==> c2 == c1)
  {
    hide ListIs, DropValues;
    var j := s[i];
    var c1, c2 := DropValues(c, s[..i]), DropValues(c, s[..i + 1]);
    ListPrefix(c, l, s, i);
    DropAt(c, s[..i], j, j);
    if j > 0 { DropAt(c, s[..i], j, j - 1); }
    forall p | 0 <= p < |c| && p + 1 != j ensures c2[p] == c1[p] { DropAt(c, s[..i], j, p); }
  }

  class FuncState {
    var code: seq<Instr>
    var k: seq<Value>
    var h: map<Value, nat>
    var jpc: int
    var lasttarget: int
    var freereg: nat
    var nactvar: nat
    var maxstacksize: nat
    var err: Error
    ghost var pend: seq<nat>
    ghost var origin: nat
    ghost const cmp: Cmp

    /** open_func, with n parameters as the first local variables. */
    constructor (ghost order: Cmp, n: nat)
      requires n < MAXSTACK
      ensures Between({}) && code == [] && k == [] && nactvar == freereg == n && cmp == order
    {
      code, k, h, jpc, lasttarget := [], [], map[], NO_JUMP, -1;
      freereg, nactvar, maxstacksize, err := n, n, if n < 2 then 2 else n, Fine;
      pend, origin, cmp := [], 0, order;
    }

    ghost function Now(): Fs
      reads this
    {
      Fs(code, k, jpc, pend, lasttarget, freereg)
    }

    ghost function X(): Ctx
      reads this
    {
      Ctx(cmp, origin, nactvar)
    }

    /** The constant table knows where each constant is, and the frame has room
        for every register in use. */
    ghost predicate Valid()
      reads this
    {
      && (forall v :: v in h ==> h[v] < |k| && k[h[v]] == v)
      && freereg <= maxstacksize < MAXSTACK
    }

    /** A limit was passed, and which: the length of a jump, the number of
        constants, or the registers up to `top`. */
    ghost predicate Blamed(top: nat)
      reads this
    {
      match err
      case Fine => true
      case TooLong => |code| > MAXARG_sBx
      case TooComplex => top >= MAXSTACK
      case TooManyConstants => |k| >= MAXARG_Bx
    }

    /** There is room for the code, the constants and the registers of e: none of
        the limits can be passed. */
    ghost predicate Roomy(e: Expr)
      reads this
    {
      |code| + Bulk(e) + 5 <= MAXARG_sBx && |k| + Bulk(e) + 1 < MAXARG_Bx && freereg + RelDepth(e) + 1 < MAXSTACK
    }

    ghost predicate Good(outer: set<nat>, e: Exp, l: Lists)
      reads this
    {
      err.Fine? && Valid() && Ok(X(), Now(), outer, e, l)
    }

    // ------------------------------------------------------- jump lists

    method FixJump(pc: nat, dest: nat)
      requires err.Fine? && pc < |code| && code[pc].JMP? && dest <= |code|
      modifies this`code, this`err
      ensures err == if -MAXARG_sBx <= dest - (pc + 1) <= MAXARG_sBx then Fine else TooLong
      ensures Blamed(0) && |code| == |old(code)|
      ensures err.Fine? ==> code == old(code)[pc := JMP(dest - (pc + 1))]
    {
      var offset := dest - (pc + 1);
      if offset > MAXARG_sBx || -offset > MAXARG_sBx {
        err := TooLong;
        return;
      }
      code := code[pc := JMP(offset)];
    }

    /** luaK_concat: the result heads the first list followed by the second. */
    method Concat(l1: int, l2: int, ghost s1: seq<nat>, ghost s2: seq<nat>) returns (l: int)
      requires err.Fine? && ListIs(code, l1, s1) && ListIs(code, l2, s2)
      modifies this`code, this`err
      ensures Blamed(0) && |code| == |old(code)|
      ensures err.Fine? ==> code == Joined(old(code), s1, s2) && l == Head(s1 + s2)
    {
      hide ListIs;
      ListIsHead(code, s1);
      ListIsHead(code, s2);
      if l2 == NO_JUMP {
        assert s1 + s2 == s1;
        return l1;
      }
      if l1 == NO_JUMP {
        assert s1 + s2 == s2;
        return l2;
      }
      var list := l1;
      ghost var i := 0;
      GetNext(code, l1, s1, 0);
      while GetJump(code, list) != NO_JUMP
        invariant 0 <= i < |s1| && list == s1[i] && list < |code| && code[list].JMP?
        invariant GetJump(code, list) == if i + 1 < |s1| then s1[i + 1] else NO_JUMP
        invariant code == old(code) && err.Fine?
        decreases |s1| - i
      {
        list := GetJump(code, list);
        i := i + 1;
        GetNext(code, l1, s1, i);
      }
      assert s2[0] in s2;
      ListJump(code, l2, s2, s2[0]);
      FixJump(list, l2);
      l := l1;
    }

    /** patchtestreg on the instruction in front of the jump: true if it was a
        TESTSET. */
    method PatchTestReg(node: nat, reg: nat) returns (set_: bool)
      requires node < |code| && code[node].JMP?
      modifies this`code
      ensures set_ == HasTestset(old(code), node)
      ensures code == if set_ then old(code)[node - 1 := SetReg(old(code)[node - 1], reg)] else old(code)
    {
      if !(node >= 1 && code[node - 1].TESTSET?) { return false; }
      if reg != NO_REG && reg != code[node - 1].b {
        code := code[node - 1 := TESTSET(reg, code[node - 1].b, code[node - 1].c)];
      } else {
        code := code[node - 1 := TEST(code[node - 1].b, code[node - 1].c)];
      }
      return true;
    }

    /** patchlistaux: every jump of the list goes to its target, and no other
        instruction changes. */
    method PatchListAux(list: int, vtarget: nat, reg: nat, dtarget: int, ghost s: seq<nat>)
      requires err.Fine? && ListIs(code, list, s) && vtarget <= |code| && dtarget <= |code|
      requires dtarget < 0 ==> forall i :: 0 <= i < |s| ==> HasTestset(code, s[i])
      modifies this`code, this`err
      ensures Blamed(0) && |code| == |old(code)|
      ensures err.Fine? ==> code == Retarget(old(code), s, vtarget, reg, dtarget)
    {
      hide Retarget, ListIs, Joined, SetReg;
      var l := list;
      ListIsHead(code, s);
      ghost var i := 0;
      ghost var c := code;
      RetargetNone(code, vtarget, reg, dtarget);
      assert s[..0] == [];
      while l != NO_JUMP
        invariant 0 <= i <= |s| && err.Fine? && |code| == |c|
        invariant l == if i < |s| then s[i] else NO_JUMP
        invariant code == Retarget(c, s[..i], vtarget, reg, dtarget)
        decreases |s| - i
      {
        GetNext(c, list, s, i);
        RetargetNext(c, list, s, i, vtarget, reg, dtarget);
        var next := GetJump(code, l);
        var isSet := PatchTestReg(l, reg);
        if isSet {
          FixJump(l, vtarget);
        } else {
          FixJump(l, dtarget);
        }
        if !err.Fine? { return; }
        l := next;
        i := i + 1;
      }
      assert s[..i] == s;
    }

    method NeedValue(list: int, ghost s: seq<nat>) returns (need: bool)
      requires ListIs(code, list, s)
      ensures need == exists j :: j in s && !HasTestset(code, j)
    {
      hide ListIs;
      ListIsHead(code, s);
      var l := list;
      ghost var i := 0;
      while l != NO_JUMP
        invariant 0 <= i <= |s|
        invariant l == if i < |s| then s[i] else NO_JUMP
        invariant forall m :: 0 <= m < i ==> HasTestset(code, s[m])
        decreases |s| - i
      {
        GetNext(code, list, s, i);
        if !(l >= 1 && code[l - 1].TESTSET?) {
          assert s[i] in s && !HasTestset(code, s[i]);
          return true;
        }
        l := GetJump(code, l);
        i := i + 1;
      }
      return false;
    }

    method RemoveValues(list: int, ghost s: seq<nat>)
      requires ListIs(code, list, s)
      modifies this`code
      ensures code == DropValues(old(code), s)
    {
      hide DropValues, ListIs;
      ListIsHead(code, s);
      var l := list;
      ghost var i := 0;
      ghost var c := code;
      DropNone(code);
      assert s[..0] == [];
      while l != NO_JUMP
        invariant 0 <= i <= |s| && |code| == |c|
        invariant l == if i < |s| then s[i] else NO_JUMP
        invariant code == DropValues(c, s[..i])
        decreases |s| - i
      {
        GetNext(c, list, s, i);
        DropNext(c, list, s, i);
        ghost var c1 := code;
        var isSet := PatchTestReg(l, NO_REG);
        assert isSet ==> SetReg(c1[l - 1], NO_REG) == TEST(c[l - 1].b, c[l - 1].c);
        l := GetJump(code, l);
        i := i + 1;
      }
      assert s[..i] == s;
    }

    // --------------------------------------------------------- emission

    /** dischargejpc: the pending jumps go to the next instruction. */
    method DischargeJpc()
      requires err.Fine? && ListIs(code, jpc, pend)
      modifies this`code, this`err, this`jpc, this`pend
      ensures Blamed(0)
      ensures |code| == |old(code)|
      ensures err.Fine? ==> code == Retarget(old(code), old(pend), |old(code)|, NO_REG, |old(code)|)
      ensures err.Fine? ==> jpc == NO_JUMP && pend == []
    {
      PatchListAux(jpc, |code|, NO_REG, |code|, pend);
      if !err.Fine? { return; }
      jpc := NO_JUMP;
      pend := [];
    }

    /** luaK_code. */
    method Code(i: Instr)
      requires err.Fine? && ListIs(code, jpc, pend)
      modifies this`code, this`err, this`jpc, this`pend
      ensures Blamed(0)
      ensures |code| <= |old(code)| + 1
      ensures err.Fine? ==> Now() == Emit(old(Now()), [i])
    {
      hide Retarget, ListIs;
      DischargeJpc();
      if !err.Fine? { return; }
      code := code + [i];
    }

    /** luaK_jump: a new jump, heading a list with the pending ones. */
    method Jump_() returns (j: nat)
      requires err.Fine? && ListIs(code, jpc, pend)
      modifies this`code, this`err, this`jpc, this`pend
      ensures Blamed(0)
      ensures |code| <= |old(code)| + 1
      ensures err.Fine? ==> j == |old(code)|
      ensures err.Fine? ==> Now() == old(Now()).(code := Joined(old(code) + [JMP(NO_JUMP)], [j], old(pend)), jpc := NO_JUMP, pend := [])
    {
      hide Retarget, Joined;
      j := 0;
      var saved := jpc;
      ghost var p := pend;
      jpc := NO_JUMP;
      pend := [];
      RetargetNone(code, |code|, NO_REG, |code|);
      Code(JMP(NO_JUMP));
      if !err.Fine? { return; }
      j := |code| - 1;
      JumpAlone(old(code), saved, p);
      var l := Concat(j, saved, [j], p);
    }

    /** condjump. */
    method CondJump(i: Instr) returns (j: nat)
      requires err.Fine? && ListIs(code, jpc, pend)
      modifies this`code, this`err, this`jpc, this`pend
      ensures Blamed(0)
      ensures |code| <= |old(code)| + 2
      ensures err.Fine? ==> j == |old(code)| + 1 && Now() == Emit(old(Now()), [i, JMP(NO_JUMP)])
    {
      hide Retarget;
      j := 0;
      Code(i);
      if !err.Fine? { return; }
      ListEmpty(code);
      j := Jump_();
      EmitTwo(old(Now()), i);
    }

    method PatchToHere(list: int, ghost s: seq<nat>)
      requires err.Fine? && ListIs(code, jpc, pend) && ListIs(code, list, s)
      modifies this`code, this`err, this`jpc, this`pend, this`lasttarget
      ensures Blamed(0)
      ensures |code| == |old(code)|
      ensures err.Fine? ==> Now() == Here(old(Now()), s)
    {
      hide ListIs, Joined;
      lasttarget := |code|;
      var l := Concat(jpc, list, pend, s);
      if !err.Fine? { return; }
      jpc := l;
      pend := pend + s;
    }

    // ------------------------------------------------ registers, constants

    method ReserveRegs(n: nat)
      requires err.Fine? && Valid()
      modifies this`freereg, this`maxstacksize, this`err
      ensures Blamed(old(freereg) + n) && err == if old(freereg) + n < MAXSTACK then Fine else TooComplex
      ensures err.Fine? ==> Valid() && freereg == old(freereg) + n
      ensures !err.Fine? ==> freereg == old(freereg)
    {
      var newstack := freereg + n;
      if newstack > maxstacksize {
        if newstack >= MAXSTACK {
          err := TooComplex;
          return;
        }
        maxstacksize := newstack;
      }
      freereg := freereg + n;
    }

    /** freeexp; the register freed is always the last one taken. */
    method FreeExp(e: Exp)
      requires Valid() && (e.k.VNonreloc? && e.k.r >= nactvar ==> e.k.r == freereg - 1)
      modifies this`freereg
      ensures Valid() && freereg == if e.k.VNonreloc? && e.k.r >= nactvar then old(freereg) - 1 else old(freereg)
    {
      if e.k.VNonreloc? && e.k.r >= nactvar {
        freereg := freereg - 1;
      }
    }

    /** addk: equal constants share an entry. */
    method AddK(v: Value) returns (i: nat)
      requires err.Fine? && Valid()
      modifies this`k, this`h, this`err
      ensures Blamed(0) && old(k) <= k && err == if v in old(h) || |old(k)| < MAXARG_Bx then Fine else TooManyConstants
      ensures |k| <= |old(k)| + 1
      ensures err.Fine? ==> Valid() && i < |k| && k[i] == v && i <= |old(k)|
    {
      if v in h {
        i := h[v];
        return;
      }
      i := |k|;
      if |k| >= MAXARG_Bx {
        err := TooManyConstants;
        return;
      }
      k := k + [v];
      h := h[v := i];
    }

    // ------------------------------------------------------- discharging

    /** luaK_nil: the registers are nil, by a LOADNIL only where one is needed. */
    method Nil_(from: nat, n: nat, ghost outer: set<nat>, ghost e: Exp, ghost l: Lists)
      requires Good(outer, e, l) && Plain(e.k) && n > 0
      modifies this`code, this`err, this`jpc, this`pend
      ensures Blamed(0)
      ensures |code| <= |old(code)| + 1
      ensures err.Fine? ==> Good(outer, e, l) && Clearing(X(), old(Now()), Now(), outer, e.k, l, from, n)
    {
      hide Linked, Flows, Nilable, KindOk, Clearing, Emit;
      ghost var s, x := Now(), X();
      if |code| > lasttarget {
        if |code| == 0 {
          if from >= nactvar {
            ClearStart(x, s, outer, e, l, from, n);
            return;
          }
        } else {
          var previous := code[|code| - 1];
          if previous.LOADNIL? && previous.a <= from <= previous.b + 1 {
            ClearMerge(x, s, outer, e, l, from, n);
            if from + n - 1 > previous.b {
              code := code[|code| - 1 := LOADNIL(previous.a, from + n - 1)];
            }
            assert Now() == Merged(s, from, n);
            return;
          }
        }
      }
      LinkedList(s, outer, e, l);
      ClearEmit(x, s, outer, e, l, from, n);
      Code(LOADNIL(from, from + n - 1));
    }

    /** discharge2reg: the value of anything but a comparison goes into reg. */
    method Discharge2Reg(e0: Exp, reg: nat, ghost outer: set<nat>, ghost l: Lists) returns (e: Exp)
      requires Good(outer, e0, l) && reg < MAXSTACK && nactvar <= MAXSTACK && (reg < nactvar || reg == freereg - 1)
      modifies this`code, this`err, this`jpc, this`pend, this`k, this`h
      ensures Blamed(0) && old(k) <= k
      ensures |code| <= |old(code)| + 1 && |k| <= |old(k)| + 1
      ensures e == Exp(if e0.k.VJmp? then e0.k else VNonreloc(reg), e0.t, e0.f)
      ensures e0.k.VJmp? ==> err.Fine? && Now() == old(Now())
      ensures err.Fine? ==> Good(outer, e, l) && Placing(X(), old(Now()), Now(), outer, e0.k, e.k, l, reg)
    {
      hide Ok, ListIs, KindOk, Proper, Placing, Clearing, Emit, Completed, Flow, HereRes;
      ghost var s, x := Now(), X();
      e := DischargeVars(e0);
      DischargedOk(x, s, outer, e0, l);
      ghost var e1 := e;
      OkFacts(x, s, outer, e, l);
      match e.k {
      case VNil =>
        Nil_(reg, 1, outer, e, l);
        if err.Fine? { PlaceNil(x, s, Now(), outer, e1, l, reg); }
      case VTrue =>
        PlaceEmit(x, s, outer, e, l, LOADBOOL(reg, true, false), reg);
        Code(LOADBOOL(reg, true, false));
      case VFalse =>
        PlaceEmit(x, s, outer, e, l, LOADBOOL(reg, false, false), reg);
        Code(LOADBOOL(reg, false, false));
      case VK(i) =>
        PlaceEmit(x, s, outer, e, l, LOADK(reg, i), reg);
        Code(LOADK(reg, i));
      case VKNum(n) =>
        var i := AddK(Num(n));
        if err.Fine? {
          PlaceNumber(x, s, k, outer, e, l, n, i, reg);
          Code(LOADK(reg, i));
        }
      case VReloc(p) =>
        PlaceReloc(x, s, outer, p, e, l, reg);
        code := code[p := NOT(reg, code[p].b)];
        assert code == Completed(s.code, p, reg) by { CompletedIs(s.code, p, reg); }
      case VNonreloc(r) =>
        if reg != r {
          PlaceEmit(x, s, outer, e, l, MOVE(reg, r), reg);
          Code(MOVE(reg, r));
        } else {
          PlaceSame(x, s, outer, e, l, reg);
        }
      case VJmp(_) =>
        PlaceSame(x, s, outer, e, l, reg);
        return;
      }
      e := Exp(VNonreloc(reg), e.t, e.f);
      if err.Fine? { RebasePlacing(x, s, s, Now(), outer, e0.k, e1.k, e.k, l, reg); }
    }

    // -------------------------------------------------------- exp2reg

    method CodeLabel(reg: nat, v: bool, skip: bool) returns (p: nat)
      requires err.Fine? && jpc == NO_JUMP && pend == []
      modifies this`code, this`err, this`jpc, this`pend, this`lasttarget
      ensures Blamed(0)
      ensures |code| <= |old(code)| + 1
      ensures err.Fine? ==> p == |old(code)| && lasttarget == p && code == old(code) + [LOADBOOL(reg, v, skip)]
      ensures err.Fine? ==> jpc == NO_JUMP && pend == []
    {
      hide Retarget;
      lasttarget := |code|;
      p := |code|;
      ListEmpty(code);
      RetargetNone(code, |code|, NO_REG, |code|);
      Code(LOADBOOL(reg, v, skip));
    }

    /** The two loads for jumps that bring no value, with a jump over them unless
        the expression is a comparison. */
    method LoadValues(reg: nat, jumping: bool) returns (pf: nat, pt: nat)
      requires err.Fine? && ListIs(code, jpc, pend) && (jumping ==> pend == [])
      modifies this`code, this`err, this`jpc, this`pend, this`lasttarget
      ensures Blamed(0)
      ensures |code| <= |old(code)| + 3
      ensures var how := if jumping then FallIn else JumpOver;
              err.Fine? ==>
                && code == Loaded(old(Now()), how, reg) && pend == LoadedPend(old(Now()), how)
                && jpc == Head(pend) && pf == |code| - 2 && pt == |code| - 1
                && ListIs(code, jpc, pend)
    {
      hide Joined, ListIs;
      pf, pt := 0, 0;
      ghost var s := Now();
      var fj := NO_JUMP;
      ListIsHead(code, pend);
      if !jumping {
        fj := Jump_();
        if !err.Fine? { return; }
      }
      pf := CodeLabel(reg, false, true);
      if !err.Fine? { return; }
      pt := CodeLabel(reg, true, false);
      if !err.Fine? { return; }
      ghost var q := if jumping then [] else [|s.code|] + s.pend;
      LoadedList(s, if jumping then FallIn else JumpOver, reg);
      assert code == Loaded(s, if jumping then FallIn else JumpOver, reg);
      ListEmpty(code);
      JoinedEmpty(code, q);
      PatchToHere(fj, q);
      if !err.Fine? { return; }
      assert [] + q == q;
    }

    /** The second half of exp2reg: the lists are closed. */
    method CloseJumps(t: int, f: int, reg: nat, jumping: bool, ghost l: Lists) returns (ghost how: Loads)
      requires err.Fine? && ListIs(code, jpc, pend) && ListIs(code, t, l.t) && ListIs(code, f, l.f)
      requires forall j :: j in l.t ==> j !in l.f
      requires forall j :: j in l.t || j in l.f ==> j !in pend
      requires jumping ==> pend == [] && exists j :: j in l.t && !HasTestset(code, j)
      modifies this`code, this`err, this`jpc, this`pend, this`lasttarget
      ensures Blamed(0)
      ensures |code| <= |old(code)| + 3
      ensures err.Fine? ==> Now() == Closed(old(Now()), l, how, reg)
      ensures how.FallIn? <==> jumping
      ensures how.NoLoads? ==> forall j :: j in l.t || j in l.f ==> HasTestset(old(code), j)
    {
      hide Retarget, ListIs, Loaded, HasTestset;
      ghost var s := Now();
      how := if jumping then FallIn else NoLoads;
      var need := NeedValue(t, l.t);
      if !need { need := NeedValue(f, l.f); }
      var pf, pt := NO_JUMP, NO_JUMP;
      ListIsHead(code, pend);
      LoadedNone(s, reg);
      if need {
        how := if jumping then FallIn else JumpOver;
        pf, pt := LoadValues(reg, jumping);
        if !err.Fine? { return; }
      }
      var final := |code|;
      lasttarget := final;
      assert code == Loaded(s, how, reg);
      LoadedLists(s, how, reg, t, f, l, pf, pt);
      PatchListAux(f, final, reg, pf, l.f);
      if !err.Fine? { return; }
      ClosedLists(s, how, reg, t, f, l, pf, pt);
      PatchListAux(t, final, reg, pt, l.t);
    }

    /** exp2reg of a comparison: its jump joins the true list. */
    method JumpToReg(e1: Exp, reg: nat, ghost outer: set<nat>, ghost l: Lists)
      requires Good(outer, e1, l) && reg < MAXSTACK && (reg < nactvar || reg == freereg - 1)
      requires e1.k.VJmp? && 0 < e1.k.info <= |code| && code[e1.k.info - 1].CMP?
      modifies this`code, this`err, this`jpc, this`pend, this`lasttarget
      ensures Blamed(0)
      ensures |code| <= |old(code)| + 3
      ensures err.Fine? ==> Good(outer, Heads(VNonreloc(reg), None), None) && Delivering(X(), old(Now()), Now(), outer, e1.k, l, reg)
    {
      hide Ok, ListIs, KindOk, Proper, Delivering, Closed, Joined, HasTestset, Flow, Clean;
      ghost var s1, x := Now(), X();
      OkFacts(x, s1, outer, e1, l);
      var j := e1.k.info;
      DeliverJump(x, s1, outer, j, l, reg);
      OwnList(s1, j);
      var t := Concat(e1.t, j, l.t, [j]);
      if !err.Fine? { return; }
      OkFacts(x, Now(), outer, Heads(VNil, Lists(l.t + [j], l.f)), Lists(l.t + [j], l.f));
      NotPending(x, Now(), outer, Heads(VNil, Lists(l.t + [j], l.f)), Lists(l.t + [j], l.f));
      CmpJump(s1.code, l.t, [j], j);
      assert j in l.t + [j];
      ghost var how := CloseJumps(t, e1.f, reg, true, Lists(l.t + [j], l.f));
    }

    /** exp2reg: by whichever way control reaches the value, it ends up in reg,
        and no other register changes. */
    method Exp2Reg(e0: Exp, reg: nat, ghost outer: set<nat>, ghost l: Lists) returns (e: Exp)
      requires Good(outer, e0, l) && reg < MAXSTACK && nactvar <= MAXSTACK && (reg < nactvar || reg == freereg - 1)
      requires e0.k.VJmp? ==> code[e0.k.info - 1].CMP?
      modifies this`code, this`err, this`jpc, this`pend, this`lasttarget, this`k, this`h
      ensures Blamed(0) && old(k) <= k
      ensures |code| <= |old(code)| + 4 && |k| <= |old(k)| + 1
      ensures e == Heads(VNonreloc(reg), None)
      ensures err.Fine? ==> Good(outer, e, None) && Delivering(X(), old(Now()), Now(), outer, e0.k, l, reg)
    {
      hide Ok, ListIs, KindOk, Proper, Placing, Delivering, Closed, Joined, HasTestset, Flow, Clean, Elems, Apart;
      ghost var s, x := Now(), X();
      OkFacts(x, s, outer, e0, l);
      e := Exp(VNonreloc(reg), NO_JUMP, NO_JUMP);
      var e1 := Discharge2Reg(e0, reg, outer, l);
      if !err.Fine? { return; }
      ghost var s1 := Now();
      OkFacts(x, s1, outer, e1, l);
      if e1.k.VJmp? {
        JumpToReg(e1, reg, outer, l);
      } else {
        if e1.t != e1.f {
          NotPending(x, s1, outer, e1, l);
          ghost var how := CloseJumps(e1.t, e1.f, reg, false, l);
          if err.Fine? { DeliverClosed(x, s, s1, outer, e0.k, l, how, reg); }
        } else {
          NoLists(s1.code, e1, l);
          DeliverPlain(x, s, s1, outer, e0.k, reg);
        }
      }
    }

    ghost predicate Temp(e: Exp)
      reads this
    {
      e.k.VNonreloc? && e.k.r >= nactvar
    }

    ghost predicate Comparing(e: Exp)
      reads this
    {
      e.k.VJmp? ==> 0 < e.k.info <= |code| && code[e.k.info - 1].CMP?
    }

    method Exp2NextReg(e0: Exp, ghost outer: set<nat>, ghost l: Lists) returns (e: Exp)
      requires Good(outer, e0, l) && Comparing(e0)
      modifies this`code, this`err, this`jpc, this`pend, this`lasttarget, this`k, this`h, this`freereg, this`maxstacksize
      ensures Blamed(old(freereg) + 1) && old(k) <= k
      ensures |code| <= |old(code)| + 4 && |k| <= |old(k)| + 1
      ensures err.Fine? ==>
                && freereg == (if old(Temp(e0)) then old(freereg) else old(freereg) + 1) && freereg > nactvar
                && e == Heads(VNonreloc(freereg - 1), None) && Good(outer, e, None)
                && Delivering(X(), old(Now()), Now(), outer, e0.k, l, freereg - 1)
    {
      hide Ok, ListIs, KindOk, Proper, Delivering, Flows;
      ghost var s, x := Now(), X();
      e := DischargeVars(e0);
      DischargedOk(x, s, outer, e0, l);
      OkFacts(x, s, outer, e, l);
      OkRegs(x, s, outer, e0, l);
      OkRegs(x, s, outer, e, l);
      FreeExp(e);
      ReserveRegs(1);
      if !err.Fine? { return; }
      TakeReg(x, s, outer, e, l, freereg);
      ghost var e1, s1 := e, Now();
      e := Exp2Reg(e, freereg - 1, outer, l);
      if err.Fine? { RebaseDelivering(x, s, s1, Now(), outer, e0.k, e1.k, l, freereg - 1); }
    }

    method Exp2AnyReg(e0: Exp, ghost outer: set<nat>, ghost l: Lists) returns (e: Exp)
      requires Good(outer, e0, l) && Comparing(e0)
      modifies this`code, this`err, this`jpc, this`pend, this`lasttarget, this`k, this`h, this`freereg, this`maxstacksize
      ensures Blamed(old(freereg) + 1) && old(k) <= k
      ensures |code| <= |old(code)| + 4 && |k| <= |old(k)| + 1
      ensures e0.k.VNonreloc? && l == None ==> err.Fine? && Now() == old(Now()) && e == e0
      ensures err.Fine? ==>
                && e.k.VNonreloc? && e == Heads(e.k, None) && Good(outer, e, None)
                && freereg == (if old(Temp(e0)) || e.k.r < nactvar then old(freereg) else old(freereg) + 1)
                && Holding(X(), old(Now()), Now(), outer, e0.k, l, e.k.r, if old(Temp(e0)) then old(freereg) - 1 else old(freereg))
    {
      hide Ok, ListIs, KindOk, Proper, Delivering, Holding, Flows;
      ghost var s, x := Now(), X();
      e := DischargeVars(e0);
      DischargedOk(x, s, outer, e0, l);
      OkFacts(x, s, outer, e, l);
      OkRegs(x, s, outer, e0, l);
      OkRegs(x, s, outer, e, l);
      ghost var base := if Temp(e0) then freereg - 1 else freereg;
      if e.k.VNonreloc? {
        if e.t == e.f {
          NoLists(code, e, l);
          HoldRegister(x, s, outer, e.k.r, base);
          RebaseHolding(x, s, s, outer, e0.k, e.k, l, e.k.r, base);
          return;
        }
        if e.k.r >= nactvar {
          ghost var k1 := e.k;
          HeadsNone(s.code, e, l);
          e := Exp2Reg(e, e.k.r, outer, l);
          if err.Fine? {
            RebaseDelivering(x, s, s, Now(), outer, e0.k, k1, l, e.k.r);
            HoldDelivered(x, s, Now(), outer, e0.k, l, e.k.r, base);
          }
          return;
        }
        HeadsNone(s.code, e, l);
      }
      ghost var k1 := e.k;
      e := Exp2NextReg(e, outer, l);
      if err.Fine? {
        RebaseDelivering(x, s, s, Now(), outer, e0.k, k1, l, e.k.r);
        HoldDelivered(x, s, Now(), outer, e0.k, l, e.k.r, base);
      }
    }

    /** exp2RK: the value is a constant operand or in a register. */
    method Exp2RK(e0: Exp, ghost outer: set<nat>, ghost l: Lists) returns (e: Exp, o: nat)
      requires Good(outer, e0, l) && Comparing(e0)
      modifies this`code, this`err, this`jpc, this`pend, this`lasttarget, this`k, this`h, this`freereg, this`maxstacksize
      ensures Blamed(old(freereg) + 1) && old(k) <= k
      ensures |code| <= |old(code)| + 4 && |k| <= |old(k)| + 1
      ensures Operand(e0.k) && l == None ==> err.Fine? && Now() == old(Now()) && e == e0
      ensures err.Fine? ==>
                && Operand(e.k) && o == OperandOf(e.k) && e == Heads(e.k, None) && Good(outer, e, None)
                && freereg == (if old(Temp(e0)) || o < nactvar || o >= BITRK then old(freereg) else old(freereg) + 1)
                && Holding(X(), old(Now()), Now(), outer, e0.k, l, o, if old(Temp(e0)) then old(freereg) - 1 else old(freereg))
    {
      hide Ok, ListIs, KindOk, Proper, Holding, Flows;
      ghost var s, x := Now(), X();
      ghost var base := if Temp(e0) then freereg - 1 else freereg;
      OkFacts(x, s, outer, e0, l);
      OkRegs(x, s, outer, e0, l);
      o := 0;
      if e0.t != e0.f {
        HeadsNone(s.code, e0, l);
        e := Exp2AnyReg(e0, outer, l);
        if !err.Fine? { return; }
        OkRegs(x, Now(), outer, e, None);
        o := e.k.r;
        return;
      }
      NoLists(code, e0, l);
      e := DischargeVars(e0);
      DischargedOk(x, s, outer, e0, l);
      ghost var e1 := e;
      if e.k.VKNum? || e.k.VTrue? || e.k.VFalse? || e.k.VNil? {
        if |k| <= MAXINDEXRK {
          var v := ConstantOf(e.k);
          var i := AddK(v);
          if !err.Fine? { return; }
          ConstantHere(x, s, k, e.k, i);
          HoldConstant(x, s, outer, e.k, k, i, base);
          e := Exp(VK(i), NO_JUMP, NO_JUMP);
          o := BITRK + i;
          return;
        }
      } else if e.k.VK? && e.k.info <= MAXINDEXRK {
        VkHere(x, s, e.k);
        HoldConstant(x, s, outer, e.k, k, e.k.info, base);
        assert s.(ks := k) == s;
        o := BITRK + e.k.info;
        return;
      }
      e := Exp2AnyReg(e, outer, l);
      if !err.Fine? { return; }
      OkRegs(x, Now(), outer, e, None);
      o := e.k.r;
      RebaseHolding(x, s, Now(), outer, e0.k, e1.k, l, o, base);
    }

    // ----------------------------------------------------------- branches

    method Discharge2AnyReg(e0: Exp, ghost outer: set<nat>, ghost l: Lists) returns (e: Exp)
      requires Good(outer, e0, l) && !e0.k.VJmp? && !e0.k.VLocal?
      modifies this`code, this`err, this`jpc, this`pend, this`k, this`h, this`freereg, this`maxstacksize
      ensures Blamed(old(freereg) + 1) && old(k) <= k
      ensures |code| <= |old(code)| + 1 && |k| <= |old(k)| + 1
      ensures err.Fine? ==>
                && e.k.VNonreloc? && e == Heads(e.k, l) && Good(outer, e, l) && e.k.r < MAXSTACK
                && (if e0.k.VNonreloc? then e == e0 && freereg == old(freereg)
                    else e.k.r == old(freereg) && freereg == old(freereg) + 1)
                && Placing(X(), old(Now()), Now(), outer, e0.k, e.k, l, e.k.r)
    {
      hide Ok, ListIs, KindOk, Proper, Placing, Flows;
      ghost var s, x := Now(), X();
      e := e0;
      OkFacts(x, s, outer, e, l);
      OkRegs(x, s, outer, e, l);
      if !e.k.VNonreloc? {
        ReserveRegs(1);
        if !err.Fine? { return; }
        TakeReg(x, s, outer, e, l, freereg);
        ghost var s1 := Now();
        e := Discharge2Reg(e, freereg - 1, outer, l);
        if err.Fine? { RebasePlacing(x, s, s1, Now(), outer, e0.k, e0.k, e.k, l, e.k.r); }
      } else {
        PlaceSame(x, s, outer, e, l, e.k.r);
      }
    }

    /** jumponcond: a test and a jump taken if the truth of the value is cond. */
    method JumpOnCond(e0: Exp, cond: bool, ghost outer: set<nat>, ghost l: Lists) returns (j: nat)
      requires Good(outer, e0, l) && !e0.k.VJmp? && !e0.k.VLocal? && !Temp(e0)
      modifies this`code, this`err, this`jpc, this`pend, this`k, this`h, this`freereg, this`maxstacksize
      ensures Blamed(old(freereg) + 1) && old(k) <= k
      ensures |code| <= |old(code)| + 3 && |k| <= |old(k)| + 1
      ensures err.Fine? ==>
                && freereg == old(freereg) && Good(outer, Heads(VJmp(j), l), l)
                && 0 < j <= |code| && TestOk(code[j - 1], k)
                && Testing(X(), old(Now()), Now(), outer, e0.k, l, j, cond, freereg)
    {
      hide Ok, ListIs, KindOk, Proper, Placing, Flows, Testing, Emit, TestOk, Elems, Apart;
      ghost var s, x := Now(), X();
      j := 0;
      OkFacts(x, s, outer, e0, l);
      OkRegs(x, s, outer, e0, l);
      if e0.k.VReloc? {
        var ie := code[e0.k.info];
        TestNot(x, s, outer, e0.k.info, l, cond, freereg);
        TrimPending(x, s, outer, e0, l);
        code := code[..|code| - 1];
        j := CondJump(TEST(ie.b, !cond));
        if err.Fine? { JumpTestOk(x, Now(), outer, l, j); }
        return;
      }
      j := JumpOnReg(e0, cond, outer, l);
    }

    /** The last part of jumponcond: the value goes to a register and is tested. */
    method JumpOnReg(e0: Exp, cond: bool, ghost outer: set<nat>, ghost l: Lists) returns (j: nat)
      requires Good(outer, e0, l) && !e0.k.VJmp? && !e0.k.VLocal? && !Temp(e0)
      modifies this`code, this`err, this`jpc, this`pend, this`k, this`h, this`freereg, this`maxstacksize
      ensures Blamed(old(freereg) + 1) && old(k) <= k
      ensures |code| <= |old(code)| + 3 && |k| <= |old(k)| + 1
      ensures err.Fine? ==>
                && freereg == old(freereg) && Good(outer, Heads(VJmp(j), l), l)
                && 0 < j <= |code| && TestOk(code[j - 1], k)
                && Testing(X(), old(Now()), Now(), outer, e0.k, l, j, cond, freereg)
    {
      hide Ok, ListIs, KindOk, Proper, Placing, Flows, Testing, Emit, TestOk, Elems, Apart;
      ghost var s, x := Now(), X();
      j := 0;
      OkRegs(x, s, outer, e0, l);
      var e := Discharge2AnyReg(e0, outer, l);
      if !err.Fine? { return; }
      ghost var s1 := Now();
      OkHeads(x, s1, outer, e, l);
      OkRegs(x, s1, outer, e, l);
      TempReg(x, s1, outer, e, l);
      TestRegister(x, s, s1, outer, e0.k, l, e.k.r, cond, s.free);
      FreeExp(e);
      j := CondJump(TESTSET(NO_REG, e.k.r, cond));
      if err.Fine? {
        ghost var s2 := Emit(s1, [TESTSET(NO_REG, e.k.r, cond), JMP(NO_JUMP)]);
        EmitFree(s1, [TESTSET(NO_REG, e.k.r, cond), JMP(NO_JUMP)], s.free);
        JumpTestOk(x, s2, outer, l, j);
        FreeReg(x, s2, outer, Heads(VJmp(j), l), l, s.free);
        RebaseTesting(x, s, s2, Now(), outer, e0.k, l, j, cond, s.free);
      }
    }

    /** The jump taken if the truth of the value is cond: that of a comparison,
        inverted if need be, or a new one. */
    method JumpIf(e: Exp, cond: bool, ghost outer: set<nat>, ghost l: Lists) returns (j: nat)
      requires Good(outer, e, l) && Proper(X(), Now(), e.k) && !e.k.VLocal?
      modifies this`code, this`err, this`jpc, this`pend, this`k, this`h, this`freereg, this`maxstacksize
      ensures Blamed(old(freereg) + 1) && old(k) <= k
      ensures |code| <= |old(code)| + 3 && |k| <= |old(k)| + 1
      ensures err.Fine? ==>
                && freereg == old(freereg) && Good(outer, Heads(VJmp(j), l), l)
                && 0 < j <= |code| && TestOk(code[j - 1], k)
                && Testing(X(), old(Now()), Now(), outer, e.k, l, j, cond, freereg)
    {
      hide Ok, ListIs, KindOk, Flows, Testing, TestOk, Inverted, Elems, Apart, Flow, Clean, HereRes;
      ghost var s, x := Now(), X();
      OkHeads(x, s, outer, e, l);
      ProperRegs(x, s, outer, e, l);
      if e.k.VJmp? {
        j := e.k.info;
        JumpTestOk(x, s, outer, l, j);
        if cond {
          TestCompare(x, s, outer, j, l, freereg);
        } else {
          TestInverted(x, s, outer, j, l, freereg);
          code := code[j - 1 := code[j - 1].(cond := !code[j - 1].cond)];
          assert code == Inverted(s.code, j - 1) by { InvertedIs(s.code, j - 1); }
          JumpTestOk(x, Now(), outer, l, j);
        }
      } else {
        j := JumpOnCond(e, cond, outer, l);
      }
    }

    /** goiftrue: control goes on if the value is true, and leaves by the list f
        with the value if it is false. */
    method GoIfTrue(e0: Exp, ghost outer: set<nat>, ghost l: Lists) returns (f: int, ghost q: seq<nat>)
      requires Good(outer, e0, l) && Proper(X(), Now(), e0.k)
      modifies this`code, this`err, this`jpc, this`pend, this`lasttarget, this`k, this`h, this`freereg, this`maxstacksize
      ensures Blamed(old(freereg) + 1) && old(k) <= k
      ensures |code| <= |old(code)| + 3 && |k| <= |old(k)| + 1
      ensures err.Fine? ==>
                && freereg == old(freereg) && f == Head(q) && Good(outer, Heads(VNil, Lists([], q)), Lists([], q))
                && Branching(X(), old(Now()), Now(), outer, e0.k, l, q, true, freereg)
    {
      hide Ok, ListIs, KindOk, Flows, Testing, TestOk, Branching, Joined, Here, Inverted, Flow, Clean, Elems, Proper, HereRes;
      f, q := NO_JUMP, [];
      ghost var s, x := Now(), X();
      var e := DischargeVars(e0);
      DischargedOk(x, s, outer, e0, l);
      OkHeads(x, s, outer, e, l);
      ProperRegs(x, s, outer, e, l);
      if e.k.VK? || e.k.VKNum? || e.k.VTrue? {
        q := l.f;
        f := e.f;
        KnownTrue(x, s, outer, e, l);
        KeepGoing(x, s, outer, e.k, l, true, freereg);
        PatchToHere(e.t, l.t);
        return;
      }
      var pc := JumpIf(e, false, outer, l);
      if !err.Fine? { return; }
      ghost var s1 := Now();
      JumpTestOk(x, s1, outer, l, pc);
      OkHeads(x, s1, outer, Heads(VJmp(pc), l), l);
      Branch(x, s, s1, outer, e.k, l, pc, true, freereg);
      f := Concat(e.f, pc, l.f, [pc]);
      if !err.Fine? { return; }
      q := l.f + [pc];
      OkHeads(x, Now(), outer, Heads(VNil, Lists(l.t, q)), Lists(l.t, q));
      PatchToHere(e.t, l.t);
      if err.Fine? && e0.k.VLocal? { BranchingLocal(x, s, Now(), outer, e0.k.r, l, q, true, freereg); }
    }

    /** goiffalse: the other way round. */
    method GoIfFalse(e0: Exp, ghost outer: set<nat>, ghost l: Lists) returns (t: int, ghost q: seq<nat>)
      requires Good(outer, e0, l) && Proper(X(), Now(), e0.k)
      modifies this`code, this`err, this`jpc, this`pend, this`lasttarget, this`k, this`h, this`freereg, this`maxstacksize
      ensures Blamed(old(freereg) + 1) && old(k) <= k
      ensures |code| <= |old(code)| + 3 && |k| <= |old(k)| + 1
      ensures err.Fine? ==>
                && freereg == old(freereg) && t == Head(q) && Good(outer, Heads(VNil, Lists(q, [])), Lists(q, []))
                && Branching(X(), old(Now()), Now(), outer, e0.k, l, q, false, freereg)
    {
      hide Ok, ListIs, KindOk, Flows, Testing, TestOk, Branching, Joined, Here, Flow, Clean, Elems, Proper, HereRes;
      t, q := NO_JUMP, [];
      ghost var s, x := Now(), X();
      var e := DischargeVars(e0);
      DischargedOk(x, s, outer, e0, l);
      OkHeads(x, s, outer, e, l);
      ProperRegs(x, s, outer, e, l);
      if e.k.VNil? || e.k.VFalse? {
        q := l.t;
        t := e.t;
        KnownFalse(x, s, outer, e, l);
        KeepGoing(x, s, outer, e.k, l, false, freereg);
        PatchToHere(e.f, l.f);
        return;
      }
      var pc := JumpIf(e, true, outer, l);
      if !err.Fine? { return; }
      ghost var s1 := Now();
      JumpTestOk(x, s1, outer, l, pc);
      OkHeads(x, s1, outer, Heads(VJmp(pc), l), l);
      Branch(x, s, s1, outer, e.k, l, pc, false, freereg);
      t := Concat(e.t, pc, l.t, [pc]);
      if !err.Fine? { return; }
      q := l.t + [pc];
      OkHeads(x, Now(), outer, Heads(VNil, Lists(q, l.f)), Lists(q, l.f));
      PatchToHere(e.f, l.f);
      if err.Fine? && e0.k.VLocal? { BranchingLocal(x, s, Now(), outer, e0.k.r, l, q, false, freereg); }
    }

    /** codenot. */
    method CodeNot(e0: Exp, ghost outer: set<nat>, ghost l: Lists) returns (e: Exp, ghost l': Lists)
      requires Good(outer, e0, l) && Proper(X(), Now(), e0.k)
      modifies this`code, this`err, this`jpc, this`pend, this`lasttarget, this`k, this`h, this`freereg, this`maxstacksize
      ensures Blamed(old(freereg) + 1) && old(k) <= k
      ensures |code| <= |old(code)| + 2 && |k| <= |old(k)| + 1
      ensures err.Fine? ==>
                && freereg == old(freereg) && Good(outer, e, l') && Proper(X(), Now(), e.k)
                && Negating(X(), old(Now()), Now(), outer, e0.k, l, e.k, l', freereg)
    {
      hide Ok, ListIs, Flows, Inverting, Negating, Dropped, Inverted, Placing, Emit;
      l' := Lists(l.f, l.t);
      ghost var s, x := Now(), X();
      e := DischargeVars(e0);
      DischargedOk(x, s, outer, e0, l);
      OkFacts(x, s, outer, e, l);
      ProperRegs(x, s, outer, e, l);
      ghost var k0 := e.k;
      if e.k.VNil? || e.k.VFalse? {
        KnownFalse(x, s, outer, e, l);
        InvertConstant(x, s, outer, e.k, l, VTrue, freereg);
        e := Exp(VTrue, e.t, e.f);
      } else if e.k.VK? || e.k.VKNum? || e.k.VTrue? {
        KnownTrue(x, s, outer, e, l);
        InvertConstant(x, s, outer, e.k, l, VFalse, freereg);
        e := Exp(VFalse, e.t, e.f);
      } else if e.k.VJmp? {
        var j := e.k.info;
        InvertCompare(x, s, outer, j, l, freereg);
        code := code[j - 1 := code[j - 1].(cond := !code[j - 1].cond)];
        assert code == Inverted(s.code, j - 1) by { InvertedIs(s.code, j - 1); }
      } else {
        e := NotRegister(e, outer, l);
        if !err.Fine? { return; }
      }
      Negate_(x, s, Now(), outer, k0, l, e.k, s.free);
      ghost var s1 := Now();
      OkFacts(x, s1, outer, e, l);
      e := Exp(e.k, e.f, e.t);
      RemoveValues(e.f, l.t);
      ListDropValues(s1.code, l.t, e.t, l.f);
      RemoveValues(e.t, l.f);
      assert code == Dropped(s1.code, l) by { DroppedIs(s1.code, l); }
      if e0.k.VLocal? { NegatingLocal(x, s, Now(), outer, e0.k.r, l, e.k, l', s.free); }
    }

    /** The last case of codenot: the value goes to a register, and NOT behind it. */
    method NotRegister(e0: Exp, ghost outer: set<nat>, ghost l: Lists) returns (e: Exp)
      requires Good(outer, e0, l) && (e0.k.VReloc? || e0.k.VNonreloc?) && !Temp(e0)
      modifies this`code, this`err, this`jpc, this`pend, this`k, this`h, this`freereg, this`maxstacksize
      ensures Blamed(old(freereg) + 1) && old(k) <= k
      ensures |code| <= |old(code)| + 2 && |k| <= |old(k)| + 1
      ensures err.Fine? ==>
                && freereg == old(freereg) && e == Heads(e.k, l) && e.k.VReloc? && Good(outer, e, l)
                && Inverting(X(), old(Now()), Now(), outer, e0.k, l, e.k, freereg)
    {
      hide Ok, ListIs, Flows, Inverting, Placing, Emit;
      ghost var s, x := Now(), X();
      OkRegs(x, s, outer, e0, l);
      e := Discharge2AnyReg(e0, outer, l);
      if !err.Fine? { return; }
      ghost var s1 := Now();
      OkFacts(x, s1, outer, e, l);
      InvertRegister(x, s, s1, outer, e0.k, l, e.k.r, s.free);
      FreeExp(e);
      var r := e.k.r;
      var p := |code|;
      Code(NOT(0, r));
      e := Exp(VReloc(p), e.t, e.f);
      if err.Fine? {
        ghost var s2 := Emit(s1, [NOT(0, r)]);
        EmitFree(s1, [NOT(0, r)], s.free);
        FreeReg(x, s2, outer, e, l, s.free);
        RebaseInverting(x, s, s2, Now(), outer, e0.k, l, e.k, s.free);
      }
    }

    // -------------------------------------------------- whole expressions

    /** An operand that is itself a comparison or a logical expression may need a
        register while the rest is computed. */
    method Compile(e: Expr, ghost outer: set<nat>) returns (d: Exp, ghost l: Lists)
      requires Good(outer, Heads(VNil, None), None) && Scoped(e, nactvar)
      modifies this`code, this`err, this`jpc, this`pend, this`lasttarget, this`k, this`h, this`freereg, this`maxstacksize
      ensures Blamed(old(freereg) + RelDepth(e) + 1) && old(k) <= k
      ensures |code| <= |old(code)| + Bulk(e) && |k| <= |old(k)| + Bulk(e)
      ensures old(Roomy(e)) ==> err.Fine?
      ensures err.Fine? ==>
                && freereg == old(freereg) && Good(outer, d, l) && Proper(X(), Now(), d.k)
                && Computing(X(), old(Now()), Now(), outer, d.k, l, freereg, e)
      decreases e, 1
    {
      hide Ok, ListIs, KindOk, Flows, Computing, Proper, Flow, Clean, Elems, HereRes, Apart, Eval, Max;
      ghost var s, x := Now(), X();
      l := None;
      d := Exp(VNil, NO_JUMP, NO_JUMP);
      OkRegs(x, s, outer, d, l);
      match e {
      case EParen(a) =>
        d, l := Compile(a, outer);
        if err.Fine? {
          DischargedOk(x, Now(), outer, d, l);
          ComputingParen(x, s, Now(), outer, d, l, freereg, a);
          d := DischargeVars(d);
        }
      case ENot(a) => d, l := CompileNot(a, outer);
      case EAnd(a, b) => d, l := CompileAnd(a, b, outer);
      case EOr(a, b) => d, l := CompileOr(a, b, outer);
      case ERel(op, a, b) => d := CompileRel(op, a, b, outer);
      case EStr(str) =>
        var i := AddK(Str(str));
        if err.Fine? {
          LeafHere(x, s, k, e, VK(i));
          ComputeLeaf(x, s, k, outer, VK(i), freereg, e);
          d := Exp(VK(i), NO_JUMP, NO_JUMP);
        }
      case _ =>
        d := Exp(LeafKind(e), NO_JUMP, NO_JUMP);
        LeafHere(x, s, k, e, d.k);
        ComputeLeaf(x, s, k, outer, d.k, freereg, e);
        assert s.(ks := k) == s;
      }
    }

    method CompileNot(a: Expr, ghost outer: set<nat>) returns (d: Exp, ghost l: Lists)
      requires Good(outer, Heads(VNil, None), None) && Scoped(a, nactvar)
      modifies this`code, this`err, this`jpc, this`pend, this`lasttarget, this`k, this`h, this`freereg, this`maxstacksize
      ensures Blamed(old(freereg) + RelDepth(ENot(a)) + 1) && old(k) <= k
      ensures |code| <= |old(code)| + Bulk(ENot(a)) && |k| <= |old(k)| + Bulk(ENot(a))
      ensures err.Fine? ==>
                && freereg == old(freereg) && Good(outer, d, l) && Proper(X(), Now(), d.k)
                && Computing(X(), old(Now()), Now(), outer, d.k, l, freereg, ENot(a))
      decreases ENot(a), 0
    {
      hide Ok, ListIs, KindOk, Flows, Computing, Negating, Proper, Scoped, Flow, Clean, Elems;
      ghost var s, x := Now(), X();
      d, l := Compile(a, outer);
      if !err.Fine? { return; }
      ghost var s1, k1, l1 := Now(), d.k, l;
      OkFacts(x, s1, outer, d, l);
      d, l := CodeNot(d, outer, l);
      if !err.Fine? { return; }
      OkFacts(x, Now(), outer, d, l);
      ComputeNot(x, s, s1, Now(), outer, k1, l1, d.k, l, freereg, a);
    }

    method CompileAnd(a: Expr, b: Expr, ghost outer: set<nat>) returns (d: Exp, ghost l: Lists)
      requires Good(outer, Heads(VNil, None), None) && Scoped(a, nactvar) && Scoped(b, nactvar)
      modifies this`code, this`err, this`jpc, this`pend, this`lasttarget, this`k, this`h, this`freereg, this`maxstacksize
      ensures Blamed(old(freereg) + RelDepth(EAnd(a, b)) + 1) && old(k) <= k
      ensures |code| <= |old(code)| + Bulk(EAnd(a, b)) && |k| <= |old(k)| + Bulk(EAnd(a, b))
      ensures err.Fine? ==>
                && freereg == old(freereg) && Good(outer, d, l) && Proper(X(), Now(), d.k)
                && Computing(X(), old(Now()), Now(), outer, d.k, l, freereg, EAnd(a, b))
      decreases EAnd(a, b), 0
    {
      hide Ok, ListIs, KindOk, Flows, Computing, Deciding, Proper, Joined, Scoped, Elems, RelDepth, Max, Flow, Clean;
      RelDepthLogical(a, b);
      ghost var s, x := Now(), X();
      ghost var q: seq<nat>;
      var f: int;
      f, q := LeftAnd(a, outer);
      d, l := Exp(VNil, NO_JUMP, NO_JUMP), None;
      if !err.Fine? { return; }
      ghost var s2 := Now();
      SetAside(x, s2, outer, q, false);
      d, l := CompileRight(b, outer + Elems(q));
      if !err.Fine? { return; }
      ComputeLogical(x, s, s2, Now(), outer, q, d.k, l, true, freereg, a, b);
      f := Concat(d.f, f, l.f, q);
      l := Lists(l.t, l.f + q);
      d := Exp(d.k, d.t, f);
    }

    /** The left operand, up to the place where the right one is wanted. */
    method LeftAnd(a: Expr, ghost outer: set<nat>) returns (f: int, ghost q: seq<nat>)
      requires Good(outer, Heads(VNil, None), None) && Scoped(a, nactvar)
      modifies this`code, this`err, this`jpc, this`pend, this`lasttarget, this`k, this`h, this`freereg, this`maxstacksize
      ensures Blamed(old(freereg) + RelDepth(a) + 1) && old(k) <= k
      ensures |code| <= |old(code)| + Bulk(a) + 3 && |k| <= |old(k)| + Bulk(a) + 1
      ensures err.Fine? ==>
                && freereg == old(freereg) && f == Head(q) && Good(outer, Heads(VNil, Lists([], q)), Lists([], q))
                && Deciding(X(), old(Now()), Now(), outer, q, true, freereg, a)
      decreases a, 2
    {
      hide Ok, ListIs, KindOk, Flows, Computing, Branching, Deciding, Proper, Scoped;
      ghost var s, x := Now(), X();
      var d: Exp;
      ghost var l: Lists;
      f, q := NO_JUMP, [];
      d, l := Compile(a, outer);
      if !err.Fine? { return; }
      ghost var s1 := Now();
      OkHeads(x, s1, outer, d, l);
      f, q := GoIfTrue(d, outer, l);
      if err.Fine? { Decide(x, s, s1, Now(), outer, d.k, l, q, true, freereg, a); }
    }

    method CompileOr(a: Expr, b: Expr, ghost outer: set<nat>) returns (d: Exp, ghost l: Lists)
      requires Good(outer, Heads(VNil, None), None) && Scoped(a, nactvar) && Scoped(b, nactvar)
      modifies this`code, this`err, this`jpc, this`pend, this`lasttarget, this`k, this`h, this`freereg, this`maxstacksize
      ensures Blamed(old(freereg) + RelDepth(EOr(a, b)) + 1) && old(k) <= k
      ensures |code| <= |old(code)| + Bulk(EOr(a, b)) && |k| <= |old(k)| + Bulk(EOr(a, b))
      ensures err.Fine? ==>
                && freereg == old(freereg) && Good(outer, d, l) && Proper(X(), Now(), d.k)
                && Computing(X(), old(Now()), Now(), outer, d.k, l, freereg, EOr(a, b))
      decreases EOr(a, b), 0
    {
      hide Ok, ListIs, KindOk, Flows, Computing, Deciding, Proper, Joined, Scoped, Elems, RelDepth, Max, Flow, Clean;
      RelDepthLogical(a, b);
      ghost var s, x := Now(), X();
      ghost var q: seq<nat>;
      var t: int;
      t, q := LeftOr(a, outer);
      d, l := Exp(VNil, NO_JUMP, NO_JUMP), None;
      if !err.Fine? { return; }
      ghost var s2 := Now();
      SetAside(x, s2, outer, q, true);
      d, l := CompileRight(b, outer + Elems(q));
      if !err.Fine? { return; }
      ComputeLogical(x, s, s2, Now(), outer, q, d.k, l, false, freereg, a, b);
      t := Concat(d.t, t, l.t, q);
      l := Lists(l.t + q, l.f);
      d := Exp(d.k, t, d.f);
    }

    /** The left operand, up to the place where the right one is wanted. */
    method LeftOr(a: Expr, ghost outer: set<nat>) returns (t: int, ghost q: seq<nat>)
      requires Good(outer, Heads(VNil, None), None) && Scoped(a, nactvar)
      modifies this`code, this`err, this`jpc, this`pend, this`lasttarget, this`k, this`h, this`freereg, this`maxstacksize
      ensures Blamed(old(freereg) + RelDepth(a) + 1) && old(k) <= k
      ensures |code| <= |old(code)| + Bulk(a) + 3 && |k| <= |old(k)| + Bulk(a) + 1
      ensures err.Fine? ==>
                && freereg == old(freereg) && t == Head(q) && Good(outer, Heads(VNil, Lists(q, [])), Lists(q, []))
                && Deciding(X(), old(Now()), Now(), outer, q, false, freereg, a)
      decreases a, 2
    {
      hide Ok, ListIs, KindOk, Flows, Computing, Branching, Deciding, Proper, Scoped;
      ghost var s, x := Now(), X();
      var d: Exp;
      ghost var l: Lists;
      t, q := NO_JUMP, [];
      d, l := Compile(a, outer);
      if !err.Fine? { return; }
      ghost var s1 := Now();
      OkHeads(x, s1, outer, d, l);
      t, q := GoIfFalse(d, outer, l);
      if err.Fine? { Decide(x, s, s1, Now(), outer, d.k, l, q, false, freereg, a); }
    }

    /** The right operand, its variable discharged. */
    method CompileRight(b: Expr, ghost outer: set<nat>) returns (d: Exp, ghost l: Lists)
      requires Good(outer, Heads(VNil, None), None) && Scoped(b, nactvar)
      modifies this`code, this`err, this`jpc, this`pend, this`lasttarget, this`k, this`h, this`freereg, this`maxstacksize
      ensures Blamed(old(freereg) + RelDepth(b) + 1) && old(k) <= k
      ensures |code| <= |old(code)| + Bulk(b) && |k| <= |old(k)| + Bulk(b)
      ensures err.Fine? ==>
                && freereg == old(freereg) && Good(outer, d, l) && Proper(X(), Now(), d.k) && Scoped(b, freereg)
                && d == Heads(d.k, l) && ListIs(code, d.t, l.t) && ListIs(code, d.f, l.f)
                && Computing(X(), old(Now()), Now(), outer, d.k, l, freereg, b)
      decreases b, 2
    {
      hide Ok, ListIs, KindOk, Flows, Computing, Proper, Scoped;
      ghost var s, x := Now(), X();
      d, l := Compile(b, outer);
      if !err.Fine? { return; }
      DischargedOk(x, Now(), outer, d, l);
      ComputingLocal(x, s, Now(), outer, d, l, freereg, b);
      d := DischargeVars(d);
      OkHeads(x, Now(), outer, d, l);
      OkRegs(x, Now(), outer, d, l);
      ScopedMore(b, nactvar, freereg);
    }

    /** An operand of a comparison: compiled, then a constant or in a register. */
    method CompileOperand(e: Expr, ghost outer: set<nat>) returns (d: Exp, o: nat)
      requires Good(outer, Heads(VNil, None), None) && Scoped(e, nactvar)
      modifies this`code, this`err, this`jpc, this`pend, this`lasttarget, this`k, this`h, this`freereg, this`maxstacksize
      ensures Blamed(old(freereg) + RelDepth(e) + 1) && old(k) <= k
      ensures |code| <= |old(code)| + Bulk(e) + 4 && |k| <= |old(k)| + Bulk(e) + 1
      ensures err.Fine? ==>
                && Operand(d.k) && o == OperandOf(d.k) && d == Heads(d.k, None) && Good(outer, d, None)
                && freereg == (if o < nactvar || o >= BITRK then old(freereg) else old(freereg) + 1)
                && Fetching(X(), old(Now()), Now(), outer, o, old(freereg), e)
      decreases e, 2
    {
      hide Ok, ListIs, KindOk, Flows, Computing, Holding, Fetching, Proper, Scoped, Operand, OperandOf;
      ghost var s, x := Now(), X();
      o := 0;
      ghost var l: Lists;
      d, l := Compile(e, outer);
      if !err.Fine? { return; }
      ghost var s1, k1 := Now(), d.k;
      OkHeads(x, s1, outer, d, l);
      ProperRegs(x, s1, outer, d, l);
      JumpInside(x, s1, outer, d, l);
      d, o := Exp2RK(d, outer, l);
      if err.Fine? { Fetch(x, s, s1, Now(), outer, k1, l, o, s.free, e); }
    }

    /** codecomp, both operands at hand: a comparison and its jump. */
    method CodeComp(op: RelOp, e1: Exp, e2: Exp, ghost a: Expr, ghost b: Expr, ghost s: Fs, ghost s2: Fs, ghost outer: set<nat>) returns (d: Exp)
      requires Good(outer, e2, None) && Operand(e1.k) && Operand(e2.k) && Scoped(b, nactvar)
      requires Ok(X(), s, outer, Heads(VNil, None), None) && Fetching(X(), s, s2, outer, OperandOf(e1.k), s.free, a)
      requires Ok(X(), s2, outer, e1, None) && Fetching(X(), s2, Now(), outer, OperandOf(e2.k), s2.free, b) && s2.ks <= k
      requires s2.free == (if Temp(e1) then s.free + 1 else s.free) && freereg == (if Temp(e2) then s2.free + 1 else s2.free)
      modifies this`code, this`err, this`jpc, this`pend, this`freereg
      ensures Blamed(0)
      ensures |code| <= |old(code)| + 2
      ensures err.Fine? ==>
                && freereg == s.free && Good(outer, d, None) && Proper(X(), Now(), d.k)
                && Computing(X(), s, Now(), outer, d.k, None, freereg, ERel(op, a, b))
    {
      hide Ok, ListIs, KindOk, Flows, Computing, Fetching, Proper, Emit, CmpInstr, Scoped, Flow, Clean, Elems, RkOk;
      ghost var s4, x := Now(), X();
      var o1, o2 := OperandOf(e1.k), OperandOf(e2.k);
      OkRegs(x, s4, outer, e2, None);
      OkRegs(x, s2, outer, e1, None);
      OkRegs(x, s, outer, Heads(VNil, None), None);
      OperandsOk(x, s2, s4, outer, e1, e2);
      ScopedMore(b, nactvar, s.free);
      ComputeCompare(x, s, s2, s4, outer, e2, op, o1, o2, s.free, s2.free, a, b);
      OkHeads(x, s4, outer, e2, None);
      FreeExp(e2);
      FreeExp(e1);
      assert freereg == s.free;
      var j := CondJump(CmpInstr(op, o1, o2));
      d := Exp(VJmp(j), NO_JUMP, NO_JUMP);
      if err.Fine? {
        ghost var i := CmpInstr(op, o1, o2);
        ghost var s5 := Emit(s4, [i, JMP(NO_JUMP)]);
        EmitFree(s4, [i, JMP(NO_JUMP)], s.free);
        FreeReg(x, s5, outer, d, None, s.free);
        OkHeads(x, s5, outer, d, None);
        FreeProper(x, s5, d.k, s.free);
        FreeComputing(x, s, s5, Now(), outer, d.k, None, s.free, ERel(op, a, b));
      }
    }

    /** infix and posfix for comparisons. */
    method CompileRel(op: RelOp, a: Expr, b: Expr, ghost outer: set<nat>) returns (d: Exp)
      requires Good(outer, Heads(VNil, None), None) && Scoped(a, nactvar) && Scoped(b, nactvar)
      modifies this`code, this`err, this`jpc, this`pend, this`lasttarget, this`k, this`h, this`freereg, this`maxstacksize
      ensures Blamed(old(freereg) + RelDepth(ERel(op, a, b)) + 1) && old(k) <= k
      ensures |code| <= |old(code)| + Bulk(ERel(op, a, b)) && |k| <= |old(k)| + Bulk(ERel(op, a, b))
      ensures err.Fine? ==>
                && freereg == old(freereg) && Good(outer, d, None) && Proper(X(), Now(), d.k)
                && Computing(X(), old(Now()), Now(), outer, d.k, None, freereg, ERel(op, a, b))
      decreases ERel(op, a, b), 0
    {
      hide Ok, ListIs, KindOk, Flows, Computing, Fetching, Proper, Scoped, RelDepth, Max, Flow, Clean, Elems;
      RelDepthRel(op, a, b);
      ghost var s, x := Now(), X();
      var e1: Exp, o1: nat, e2: Exp, o2: nat;
      e1, o1 := CompileOperand(a, outer);
      d := e1;
      if !err.Fine? { return; }
      ghost var s2 := Now();
      OperandAside(x, s2, outer, e1);
      e2, o2 := CompileOperand(b, outer);
      if !err.Fine? { return; }
      d := CodeComp(op, e1, e2, a, b, s, s2, outer);
    }

    // ---------------------------------------------------------- statements

    /** Between two statements; outer are the jumps of the enclosing ones. */
    ghost predicate Between(outer: set<nat>)
      reads this
    {
      && err.Fine? && Valid() && ListIs(code, jpc, pend) && (pend != [] ==> lasttarget == |code|)
      && nactvar <= freereg && Apart(outer, Elems(pend)) && (forall j :: j in outer ==> j < |code| && code[j].JMP?)
    }

    method StoreLocal(e: Expr, v: nat, ghost outer: set<nat>)
      requires Good(outer, Heads(VNil, None), None) && Scoped(e, nactvar) && v < nactvar
      modifies this`code, this`err, this`jpc, this`pend, this`lasttarget, this`k, this`h, this`freereg, this`maxstacksize
      ensures Blamed(old(freereg) + RelDepth(e) + 1) && old(k) <= k
      ensures |code| <= |old(code)| + Bulk(e) + 4 && |k| <= |old(k)| + Bulk(e) + 1
      ensures err.Fine? ==>
                && freereg == old(freereg) && Good(outer, Heads(VNonreloc(v), None), None)
                && Storing(X(), old(Now()), Now(), outer, v, old(freereg), e)
    {
      hide Ok, ListIs, KindOk, Flows, Computing, Delivering, Storing, Proper, Scoped;
      ghost var s, x := Now(), X();
      var d: Exp;
      ghost var l: Lists;
      d, l := Compile(e, outer);
      if !err.Fine? { return; }
      ghost var s1, k1 := Now(), d.k;
      OkRegs(x, s1, outer, d, l);
      ProperRegs(x, s1, outer, d, l);
      JumpInside(x, s1, outer, d, l);
      FreeExp(d);
      d := Exp2Reg(d, v, outer, l);
      if err.Fine? { Store(x, s, s1, Now(), outer, k1, l, e, v, s.free); }
    }

    method StoreNext(e: Expr, ghost outer: set<nat>)
      requires Good(outer, Heads(VNil, None), None) && Scoped(e, nactvar)
      modifies this`code, this`err, this`jpc, this`pend, this`lasttarget, this`k, this`h, this`freereg, this`maxstacksize
      ensures Blamed(old(freereg) + RelDepth(e) + 1) && old(k) <= k
      ensures |code| <= |old(code)| + Bulk(e) + 4 && |k| <= |old(k)| + Bulk(e) + 1
      ensures err.Fine? ==>
                && freereg == old(freereg) + 1 && Good(outer, Heads(VNonreloc(old(freereg)), None), None)
                && Storing(X(), old(Now()), Now(), outer, old(freereg), old(freereg), e)
    {
      hide Ok, ListIs, KindOk, Flows, Computing, Delivering, Storing, Proper, Scoped;
      ghost var s, x := Now(), X();
      var d: Exp;
      ghost var l: Lists;
      d, l := Compile(e, outer);
      if !err.Fine? { return; }
      ghost var s1, k1 := Now(), d.k;
      OkRegs(x, s1, outer, d, l);
      ProperRegs(x, s1, outer, d, l);
      JumpInside(x, s1, outer, d, l);
      d := Exp2NextReg(d, outer, l);
      if err.Fine? { Store(x, s, s1, Now(), outer, k1, l, e, s.free, s.free); }
    }

    /** Assignment to a local variable: `v = e`, then whatever comes next. */
    method AssignLocal(e: Expr, v: nat, next: Instr, ghost outer: set<nat>)
      requires Between(outer) && Scoped(e, nactvar) && v < nactvar
      modifies this
      ensures Blamed(old(freereg) + RelDepth(e) + 1)
      ensures |code| <= |old(code)| + Bulk(e) + 5 && |k| <= |old(k)| + Bulk(e) + 1
      ensures old(Roomy(e)) ==> err.Fine?
      ensures err.Fine? ==> Between(outer) && nactvar == old(nactvar) && freereg == old(freereg) && old(k) <= k
      ensures err.Fine? ==> SameJumps(old(code), code, outer) && code != [] && code[|code| - 1] == next
      ensures err.Fine? ==>
                origin == StartOf(old(code), old(lasttarget)) <= |code| - 1 &&
                forall r: Regs :: Clean(X(), r) ==>
                  Assigned(cmp, e, Entered(old(code), origin, r), v, old(freereg),
                           Run(code, outer, Env(cmp, k), origin, r, |code| - 1))
    {
      hide Ok, ListIs, KindOk, Flows, Storing, Scoped, Clean, Emit, SameJumps, Assigned, Entered, StartOf, Run, Elems, Flow;
      origin := StartOf(code, lasttarget);
      ghost var s, x := Now(), X();
      BeginOk(x, s, outer);
      StoreLocal(e, v, outer);
      if !err.Fine? { return; }
      ghost var s2 := Now();
      PendingIs(x, s2, outer, Heads(VNonreloc(v), None));
      NextOk(x, s, s2, outer, e, v, s.free, next);
      Code(next);
    }

    /** `local v = e`: the value goes to the next free register, the new local. */
    method NewLocal(e: Expr, next: Instr, ghost outer: set<nat>)
      requires Between(outer) && Scoped(e, nactvar)
      modifies this
      ensures Blamed(old(freereg) + RelDepth(e) + 1)
      ensures |code| <= |old(code)| + Bulk(e) + 5 && |k| <= |old(k)| + Bulk(e) + 1
      ensures old(Roomy(e)) ==> err.Fine?
      ensures err.Fine? ==> Between(outer) && nactvar == old(nactvar) && freereg == old(freereg) + 1 && old(k) <= k
      ensures err.Fine? ==> SameJumps(old(code), code, outer) && code != [] && code[|code| - 1] == next
      ensures err.Fine? ==>
                origin == StartOf(old(code), old(lasttarget)) <= |code| - 1 &&
                forall r: Regs :: Clean(X(), r) ==>
                  Assigned(cmp, e, Entered(old(code), origin, r), old(freereg), old(freereg),
                           Run(code, outer, Env(cmp, k), origin, r, |code| - 1))
    {
      hide Ok, ListIs, KindOk, Flows, Storing, Scoped, Clean, Emit, SameJumps, Assigned, Entered, StartOf, Run, Elems, Flow;
      origin := StartOf(code, lasttarget);
      ghost var s, x := Now(), X();
      BeginOk(x, s, outer);
      StoreNext(e, outer);
      if !err.Fine? { return; }
      ghost var s2 := Now();
      PendingIs(x, s2, outer, Heads(VNonreloc(s.free), None));
      NextOk(x, s, s2, outer, e, s.free, s.free, next);
      Code(next);
    }
  }

  /** The code of a statement starts behind the last instruction, or with a
      LOADNIL there that may still be stretched. */
  function StartOf(c: seq<Instr>, last: int): nat {
    if c != [] && last < |c| && c[|c| - 1].LOADNIL? then |c| - 1 else |c|
  }

  /** The registers at the start of the statement. */
  function Entered(c: seq<Instr>, origin: nat, r: Regs): Regs {
    if origin == |c| - 1 && c[origin].LOADNIL? then SetNils(r, c[origin].a, c[origin].b) else r
  }

  /** The register has the value of the expression and the registers in use are
      unchanged; or the expression raised an error. */
  ghost predicate Assigned(cmp: Cmp, e: Expr, r: Regs, reg: nat, base: nat, o: Out) {
    match Eval(cmp, e, r)
    case Val(v) => o.Fall? && reg < 256 && o.regs[reg] == v && forall i :: 0 <= i < base && i < 256 && i != reg ==> o.regs[i] == r[i]
    case Fails => o == Raised
  }

  lemma BeginOk(x: Ctx, s: Fs, outer: set<nat>)
    requires ListIs(s.code, s.jpc, s.pend) && (s.pend != [] ==> s.last == |s.code|) && x.nactvar <= s.free < MAXSTACK
    requires Apart(outer, Elems(s.pend)) && (forall j :: j in outer ==> j < |s.code| && s.code[j].JMP?)
    requires x.origin == StartOf(s.code, s.last)
    ensures Ok(x, s, outer, Heads(VNil, None), None)
    ensures forall r: Regs :: Flow(x, s, outer, VNil, None, r) == Fall(Entered(s.code, x.origin, r))
  {
    hide ListIs, Clean, SetNils, Open;
    ListEmpty(s.code);
    assert Elems([]) == {};
    LinkedOpens(s, outer, Heads(VNil, None), None, x);
    var open := Open(s, outer, VNil, None);
    forall r: Regs
      ensures Flow(x, s, outer, VNil, None, r) == Fall(Entered(s.code, x.origin, r))
      ensures x.origin < |s.code| ==> !RunTo(x, s, open, r, |s.code| - 1).Stuck?
    {
      RunDone(s.code, open, EnvOf(x, s), x.origin, r);
      if x.origin == |s.code| - 1 { LastPlain(x, s, open, r); }
    }
  }

  /** A whole statement: a run that reached it has assigned the value. */
  ghost predicate Storing(x: Ctx, s: Fs, s': Fs, outer: set<nat>, reg: nat, base: nat, e: Expr) {
    && SameJumps(s.code, s'.code, outer)
    && forall r: Regs :: Clean(x, r) ==>
         var b := Flow(x, s, outer, VNil, None, r);
         b.Fall? ==> Assigned(x.cmp, e, b.regs, reg, base, Flow(x, s', outer, VNonreloc(reg), None, r))
  }

  lemma AssignedOne(x: Ctx, s1: Fs, k: Kind, l: Lists, e: Expr, reg: nat, base: nat, b: Out, a: Out, o: Out)
    requires b.Fall? && Computed(x, s1, k, l, base, e, b, a) && Delivered(Carried(x, s1, k, l, a), o, reg)
    ensures Assigned(x.cmp, e, b.regs, reg, base, o)
  {
    hide Eval, Carried;
  }

  lemma Store(x: Ctx, s: Fs, s1: Fs, s2: Fs, outer: set<nat>, k: Kind, l: Lists, e: Expr, reg: nat, base: nat)
    requires Computing(x, s, s1, outer, k, l, base, e) && Delivering(x, s1, s2, outer, k, l, reg)
    ensures Storing(x, s, s2, outer, reg, base, e)
  {
    hide Flow, Clean, SameJumps, Computed, Delivered, Carried, Assigned;
    SameJumpsTrans(s.code, s1.code, s2.code, outer);
    forall r: Regs | Clean(x, r)
      ensures var b := Flow(x, s, outer, VNil, None, r);
              b.Fall? ==> Assigned(x.cmp, e, b.regs, reg, base, Flow(x, s2, outer, VNonreloc(reg), None, r))
    {
      var b, a, o := Flow(x, s, outer, VNil, None, r), Flow(x, s1, outer, k, l, r), Flow(x, s2, outer, VNonreloc(reg), None, r);
      if b.Fall? { AssignedOne(x, s1, k, l, e, reg, base, b, a, o); }
    }
  }

  lemma PendingIs(x: Ctx, s: Fs, outer: set<nat>, d: Exp)
    requires Ok(x, s, outer, d, None)
    ensures ListIs(s.code, s.jpc, s.pend) && x.nactvar <= s.free
  {
  }

  /** The instruction that follows closes what is still pending; all runs of the
      statement reach it with the value assigned. */
  lemma NextOk(x: Ctx, s: Fs, s2: Fs, outer: set<nat>, e: Expr, reg: nat, base: nat, next: Instr)
    requires Storing(x, s, s2, outer, reg, base, e) && Ok(x, s2, outer, Heads(VNonreloc(reg), None), None)
    requires forall r: Regs :: Flow(x, s, outer, VNil, None, r) == Fall(Entered(s.code, x.origin, r))
    ensures var s3 := Emit(s2, [next]);
            && SameJumps(s.code, s3.code, outer) && (forall j :: j in outer ==> j < |s3.code| && s3.code[j].JMP?)
            && |s3.code| == |s2.code| + 1 && s3.code[|s2.code|] == next && ListIs(s3.code, s3.jpc, s3.pend)
            && s3.pend == [] && Apart(outer, Elems(s3.pend)) && x.origin <= |s2.code|
            && s3.ks == s2.ks && s3.free == s2.free
            && forall r: Regs :: Clean(x, r) ==>
                 Assigned(x.cmp, e, Entered(s.code, x.origin, r), reg, base, Run(s3.code, outer, EnvOf(x, s3), x.origin, r, |s2.code|))
  {
    hide Flow, Clean, SameJumps, Assigned, Retarget, Nilable, ListIs, Entered;
    var s3, d := Emit(s2, [next]), Heads(VNonreloc(reg), None);
    EmitLinked(x, s2, outer, d, None, [next], VNil);
    SameJumpsSub(s2.code, s3.code, outer + Elems(None.t) + Elems(None.f), outer);
    SameJumpsTrans(s.code, s2.code, s3.code, outer);
    ListEmpty(s3.code);
    forall r: Regs | Clean(x, r)
      ensures Assigned(x.cmp, e, Entered(s.code, x.origin, r), reg, base, Run(s3.code, outer, EnvOf(x, s3), x.origin, r, |s2.code|))
    {
      NextFlow(x, s2, outer, d, next, r);
    }
  }

  lemma NextFlow(x: Ctx, s: Fs, outer: set<nat>, d: Exp, next: Instr, r: Regs)
    requires Ok(x, s, outer, d, None) && Plain(d.k) && Clean(x, r)
    ensures Run(Emit(s, [next]).code, outer, EnvOf(x, s), x.origin, r, |s.code|) == Flow(x, s, outer, d.k, None, r)
  {
    hide Linked, KindOk, Run, Clean, Nilable;
    var open := Open(s, outer, d.k, None);
    LinkedOpens(s, outer, d, None, x);
    NextOpen(s, outer, d);
    FlowNotStuck(x, s, outer, d.k, None, r);
    RunEmitted(x, s, open, [next], outer, r, |s.code|);
    var b := Flow(x, s, outer, d.k, None, r);
    if b.Fall? { RunDone(Emit(s, [next]).code, outer, EnvOf(x, s), |s.code|, b.regs); }
  }

  lemma NextOpen(s: Fs, outer: set<nat>, d: Exp)
    requires Linked(s, outer, d, None) && Plain(d.k)
    ensures var open := Open(s, outer, d.k, None);
            && Elems(s.pend) <= open && (forall j :: j in outer ==> j in open && j !in s.pend)
            && (forall j :: j in open && j !in s.pend ==> j in outer)
  {
    forall j | j in outer ensures j !in s.pend {
      assert j in outer + Own(d.k) && (j in s.pend) == (j in Elems(s.pend));
    }
  }

  lemma FreeProper(x: Ctx, s: Fs, k: Kind, free': nat)
    requires KindOk(x, s, k) && k.VJmp? && Proper(x, s, k)
    ensures KindOk(x, s.(free := free'), k) && Proper(x, s.(free := free'), k)
  {
  }

  lemma JumpInside(x: Ctx, s: Fs, outer: set<nat>, e: Exp, l: Lists)
    requires Ok(x, s, outer, e, l)
    ensures e.k.VJmp? ==> 0 < e.k.info <= |s.code|
  {
  }

  /** How many registers comparisons need for the operands they set aside. */
  function RelDepth(e: Expr): nat {
    match e
    case EParen(a) => RelDepth(a)
    case ENot(a) => RelDepth(a)
    case EAnd(a, b) => Max(RelDepth(a), RelDepth(b))
    case EOr(a, b) => Max(RelDepth(a), RelDepth(b))
    case ERel(_, a, b) => Max(RelDepth(a), 1 + RelDepth(b))
    case _ => 0
  }

  /** How many instructions and constants an expression needs at most. */
  function Bulk(e: Expr): nat {
    match e
    case EParen(a) => Bulk(a)
    case ENot(a) => Bulk(a) + 2
    case EAnd(a, b) => Bulk(a) + Bulk(b) + 3
    case EOr(a, b) => Bulk(a) + Bulk(b) + 3
    case ERel(_, a, b) => Bulk(a) + Bulk(b) + 10
    case _ => 1
  }

  lemma RelDepthLogical(a: Expr, b: Expr)
    ensures RelDepth(a) <= RelDepth(EAnd(a, b)) && RelDepth(b) <= RelDepth(EAnd(a, b))
    ensures RelDepth(EOr(a, b)) == RelDepth(EAnd(a, b))
  {
  }

  lemma RelDepthRel(op: RelOp, a: Expr, b: Expr)
    ensures RelDepth(a) <= RelDepth(ERel(op, a, b)) && 1 + RelDepth(b) <= RelDepth(ERel(op, a, b))
  {
  }

  function Max(a: nat, b: nat): nat {
    if a < b then b else a
  }

  function LeafKind(e: Expr): Kind
    requires e.ENil? || e.ETrue? || e.EFalse? || e.ENum? || e.ELocal?
  {
    match e
    case ENil => VNil
    case ETrue => VTrue
    case EFalse => VFalse
    case ENum(n) => VKNum(n)
    case ELocal(r) => VLocal(r)
  }

  lemma LeafHere(x: Ctx, s: Fs, ks': seq<Value>, e: Expr, k: Kind)
    requires Scoped(e, x.nactvar) && x.nactvar <= MAXSTACK
    requires if e.EStr? then k.VK? && k.info < |ks'| && ks'[k.info] == Str(e.s)
             else (e.ENil? || e.ETrue? || e.EFalse? || e.ENum? || e.ELocal?) && k == LeafKind(e)
    ensures KindOk(x, s.(ks := ks'), k) && Proper(x, s.(ks := ks'), k) && Plain(k)
    ensures forall r: Regs :: Eval(x.cmp, e, r) == HereRes(k, s.code, Env(x.cmp, ks'), r)
  {
  }

  lemma {:induction false} ScopedMore(e: Expr, n: nat, m: nat)
    requires Scoped(e, n) && n <= m
    ensures Scoped(e, m)
  {
    match e
    case EParen(a) => ScopedMore(a, n, m);
    case ENot(a) => ScopedMore(a, n, m);
    case EAnd(a, b) => ScopedMore(a, n, m); ScopedMore(b, n, m);
    case EOr(a, b) => ScopedMore(a, n, m); ScopedMore(b, n, m);
    case ERel(_, a, b) => ScopedMore(a, n, m); ScopedMore(b, n, m);
    case _ =>
  }

  lemma ComputingLocal(x: Ctx, s: Fs, s': Fs, outer: set<nat>, d: Exp, l: Lists, base: nat, e: Expr)
    requires Computing(x, s, s', outer, d.k, l, base, e)
    ensures Computing(x, s, s', outer, DischargeVars(d).k, l, base, e)
  {
    hide Flow, Clean, Eval, Kept;
    var k' := DischargeVars(d).k;
    forall r0: Regs | Clean(x, r0)
      ensures Computed(x, s', k', l, base, e, Flow(x, s, outer, VNil, None, r0), Flow(x, s', outer, k', l, r0))
    {
      if d.k != k' { PlainFlow(x, s', outer, d.k, k', l, r0); }
      assert Computed(x, s', d.k, l, base, e, Flow(x, s, outer, VNil, None, r0), Flow(x, s', outer, d.k, l, r0));
    }
  }

  lemma ComputingParen(x: Ctx, s: Fs, s': Fs, outer: set<nat>, d: Exp, l: Lists, base: nat, e: Expr)
    requires Computing(x, s, s', outer, d.k, l, base, e)
    ensures Computing(x, s, s', outer, DischargeVars(d).k, l, base, EParen(e))
  {
    hide Flow, Clean, Kept, Carried;
    ComputingLocal(x, s, s', outer, d, l, base, e);
    var k' := DischargeVars(d).k;
    forall r0: Regs | Clean(x, r0)
      ensures Computed(x, s', k', l, base, EParen(e), Flow(x, s, outer, VNil, None, r0), Flow(x, s', outer, k', l, r0))
    {
      assert Computed(x, s', k', l, base, e, Flow(x, s, outer, VNil, None, r0), Flow(x, s', outer, k', l, r0));
    }
  }

  lemma FreeComputing(x: Ctx, s: Fs, s1: Fs, s2: Fs, outer: set<nat>, k: Kind, l: Lists, base: nat, e: Expr)
    requires SameCode(s1, s2) && Computing(x, s, s1, outer, k, l, base, e)
    ensures Computing(x, s, s2, outer, k, l, base, e)
  {
    hide Flow, Clean, Eval, Kept;
    forall r0: Regs | Clean(x, r0)
      ensures Computed(x, s2, k, l, base, e, Flow(x, s, outer, VNil, None, r0), Flow(x, s2, outer, k, l, r0))
    {
      FlowCode(x, s1, s2, outer, k, l, r0);
      assert Computed(x, s1, k, l, base, e, Flow(x, s, outer, VNil, None, r0), Flow(x, s1, outer, k, l, r0));
    }
  }

  /** An operand waits in its register or as a constant. */
  lemma OperandAside(x: Ctx, s: Fs, outer: set<nat>, e: Exp)
    requires Ok(x, s, outer, e, None) && Operand(e.k)
    ensures Ok(x, s, outer, Heads(VNil, None), None)
  {
    hide Linked, Flows, Nilable;
    LinkedHeads(s, outer, e, None);
    Bookkeeping(x, s, outer, e, None, s.last, s.free, VNil);
    assert s.(last := s.last, free := s.free) == s;
  }

  lemma OperandsOk(x: Ctx, s2: Fs, s4: Fs, outer: set<nat>, e1: Exp, e2: Exp)
    requires Ok(x, s2, outer, e1, None) && Ok(x, s4, outer, e2, None) && Operand(e1.k) && Operand(e2.k) && s2.ks <= s4.ks
    ensures RkOk(OperandOf(e1.k), s4.ks) && RkOk(OperandOf(e2.k), s4.ks)
    ensures OperandOf(e1.k) < s2.free || OperandOf(e1.k) >= BITRK
    ensures e1.k.VNonreloc? && e1.k.r >= x.nactvar ==> e1.k.r == s2.free - 1
    ensures e2.k.VNonreloc? && e2.k.r >= x.nactvar ==> e2.k.r == s4.free - 1
  {
  }

  lemma ProperRegs(x: Ctx, s: Fs, outer: set<nat>, e: Exp, l: Lists)
    requires Ok(x, s, outer, e, l) && Proper(x, s, e.k)
    ensures e.k.VNonreloc? ==> e.k.r < x.nactvar
    ensures e.k.VJmp? ==> s.code[e.k.info - 1].CMP?
    ensures KindOk(x, s, e.k)
  {
  }

  lemma KnownTrue(x: Ctx, s: Fs, outer: set<nat>, e: Exp, l: Lists)
    requires Ok(x, s, outer, e, l) && Proper(x, s, e.k) && (e.k.VK? || e.k.VKNum? || e.k.VTrue?)
    ensures forall r: Regs :: var h := HereRes(e.k, s.code, EnvOf(x, s), r); h.Val? && Truthy(h.v)
  {
  }

  lemma KnownFalse(x: Ctx, s: Fs, outer: set<nat>, e: Exp, l: Lists)
    requires e.k.VNil? || e.k.VFalse?
    ensures forall r: Regs :: var h := HereRes(e.k, s.code, EnvOf(x, s), r); h.Val? && !Truthy(h.v)
  {
  }

  lemma InvertedIs(c: seq<Instr>, p: nat)
    requires p < |c| && c[p].CMP?
    ensures Inverted(c, p) == c[p := c[p].(cond := !c[p].cond)]
  {
  }

  lemma DroppedIs(c: seq<Instr>, l: Lists)
    ensures Dropped(c, l) == DropValues(DropValues(c, l.t), l.f)
  {
  }

  /** The operands of comparisons. */
  predicate Operand(k: Kind) {
    (k.VNonreloc? && k.r < BITRK) || (k.VK? && k.info <= MAXINDEXRK)
  }

  function OperandOf(k: Kind): nat
    requires Operand(k)
  {
    if k.VK? then BITRK + k.info else k.r
  }

  function ConstantOf(k: Kind): Value
    requires k.VKNum? || k.VTrue? || k.VFalse? || k.VNil?
  {
    match k
    case VKNum(n) => Num(n)
    case VTrue => Bool(true)
    case VFalse => Bool(false)
    case VNil => Nil
  }

  lemma ConstantHere(x: Ctx, s: Fs, ks': seq<Value>, k: Kind, i: nat)
    requires (k.VKNum? || k.VTrue? || k.VFalse? || k.VNil?) && i < |ks'| && ks'[i] == ConstantOf(k)
    ensures forall r: Regs :: HereRes(k, s.code, EnvOf(x, s), r) == Val(ks'[i])
  {
  }

  lemma VkHere(x: Ctx, s: Fs, k: Kind)
    requires k.VK? && KindOk(x, s, k)
    ensures k.info < |s.ks| && forall r: Regs :: HereRes(k, s.code, EnvOf(x, s), r) == Val(s.ks[k.info])
  {
  }

  lemma TrimPending(x: Ctx, s: Fs, outer: set<nat>, e: Exp, l: Lists)
    requires Ok(x, s, outer, e, l) && e.k.VReloc?
    ensures e.k.info == |s.code| - 1 && ListIs(s.code[..e.k.info], s.jpc, s.pend)
  {
    ListTrim(s.code, e.k.info, s.jpc, s.pend);
  }

  lemma JumpTestOk(x: Ctx, s: Fs, outer: set<nat>, l: Lists, j: nat)
    requires Ok(x, s, outer, Heads(VJmp(j), l), l)
    ensures 0 < j < |s.code| && TestOk(s.code[j - 1], s.ks) && ListIs(s.code, Head([j]), [j])
    ensures ListIs(s.code, s.jpc, s.pend)
  {
  }

  lemma EmitFree(s: Fs, new_: seq<Instr>, free': nat)
    ensures Emit(s.(free := free'), new_) == Emit(s, new_).(free := free')
  {
  }

  lemma FreeReg(x: Ctx, s: Fs, outer: set<nat>, e: Exp, l: Lists, free': nat)
    requires Ok(x, s, outer, e, l) && x.nactvar <= free' < MAXSTACK && !Plain(e.k)
    ensures Ok(x, s.(free := free'), outer, e, l)
  {
    hide Linked, Flows, Nilable;
    Bookkeeping(x, s, outer, e, l, s.last, free', e.k);
  }

  lemma TempReg(x: Ctx, s: Fs, outer: set<nat>, e: Exp, l: Lists)
    requires Ok(x, s, outer, e, l)
    ensures e.k.VNonreloc? ==> e.k.r < x.nactvar || e.k.r == s.free - 1
  {
  }

  lemma OkRegs(x: Ctx, s: Fs, outer: set<nat>, e: Exp, l: Lists)
    requires Ok(x, s, outer, e, l)
    ensures x.nactvar <= s.free < MAXSTACK
    ensures e.k.VNonreloc? ==> e.k.r < MAXSTACK
    ensures e.k.VLocal? ==> e.k.r < x.nactvar
  {
  }

  lemma HeadsNone(c: seq<Instr>, e: Exp, l: Lists)
    requires ListIs(c, e.t, l.t) && ListIs(c, e.f, l.f) && e.t != e.f
    ensures l != None
  {
  }

  /** One more register is taken; a temporary register is freed and taken again. */
  lemma TakeReg(x: Ctx, s: Fs, outer: set<nat>, e: Exp, l: Lists, free': nat)
    requires Ok(x, s, outer, e, l) && !e.k.VLocal? && free' < MAXSTACK
    requires free' == if e.k.VNonreloc? && e.k.r >= x.nactvar then s.free else s.free + 1
    ensures Ok(x, s.(free := free'), outer, e, l) && free' > x.nactvar
  {
    hide Linked, Flows, Nilable;
    Bookkeeping(x, s, outer, e, l, s.last, free', e.k);
  }

  lemma LoadedNone(s: Fs, reg: nat)
    ensures Loaded(s, NoLoads, reg) == s.code && LoadedPend(s, NoLoads) == s.pend
  {
  }

  lemma JoinedEmpty(c: seq<Instr>, q: seq<nat>)
    ensures Joined(c, [], q) == c
  {
  }

  lemma LoadedList(s: Fs, how: Loads, reg: nat)
    requires ListIs(s.code, s.jpc, s.pend) && how != NoLoads && (how == FallIn ==> s.pend == [])
    ensures how == JumpOver ==> ListIs(Loaded(s, how, reg), |s.code|, [|s.code|] + s.pend)
    ensures Loaded(s, JumpOver, reg) ==
              Joined(s.code + [JMP(NO_JUMP)], [|s.code|], s.pend) + [LOADBOOL(reg, false, true)] + [LOADBOOL(reg, true, false)]
    ensures Loaded(s, FallIn, reg) == s.code + [LOADBOOL(reg, false, true)] + [LOADBOOL(reg, true, false)]
  {
    if how == JumpOver {
      var c := Loaded(s, how, reg);
      LoadedAt(s, how, reg);
      forall j | j in s.pend && j < |s.code| ensures c[j] == s.code[j] { }
      ListSame(s.code, c, s.jpc, s.pend);
      ListCons(s.code, c, s.pend);
    }
  }

  lemma LoadedLists(s: Fs, how: Loads, reg: nat, t: int, f: int, l: Lists, pf: int, pt: int)
    requires ListIs(s.code, s.jpc, s.pend) && ListIs(s.code, t, l.t) && ListIs(s.code, f, l.f)
    requires how == NoLoads ==> forall j :: j in l.t || j in l.f ==> HasTestset(s.code, j)
    requires pf < 0 || pt < 0 ==> how == NoLoads
    ensures ListIs(Loaded(s, how, reg), t, l.t) && ListIs(Loaded(s, how, reg), f, l.f)
    ensures pf < 0 ==> forall i :: 0 <= i < |l.f| ==> HasTestset(Loaded(s, how, reg), l.f[i])
  {
    hide Loaded, HasTestset;
    LoadedAt(s, how, reg);
    if how == NoLoads { LoadedNone(s, reg); }
    ListSame(s.code, Loaded(s, how, reg), t, l.t);
    ListSame(s.code, Loaded(s, how, reg), f, l.f);
  }

  /** A default target nobody takes does not matter. */
  lemma RetargetDefault(c: seq<Instr>, q: seq<nat>, vt: int, reg: nat, dt: int, dt': int)
    requires forall j :: j in q ==> HasTestset(c, j)
    ensures Retarget(c, q, vt, reg, dt) == Retarget(c, q, vt, reg, dt')
  {
    hide SetReg;
    forall p | 0 <= p < |c| ensures Retarget(c, q, vt, reg, dt)[p] == Retarget(c, q, vt, reg, dt')[p] { }
  }

  lemma ClosedLists(s: Fs, how: Loads, reg: nat, t: int, f: int, l: Lists, pf: int, pt: int)
    requires ListIs(s.code, s.jpc, s.pend) && ListIs(s.code, t, l.t) && ListIs(s.code, f, l.f)
    requires forall j :: j in l.t ==> j !in l.f
    requires how == NoLoads ==> forall j :: j in l.t || j in l.f ==> HasTestset(s.code, j)
    requires var c := Loaded(s, how, reg); how == NoLoads || (pf == |c| - 2 && pt == |c| - 1)
    ensures var c := Loaded(s, how, reg); var c1 := Retarget(c, l.f, |c|, reg, pf);
            && c1 == Retarget(c, l.f, |c|, reg, |c| - 2)
            && ListIs(c1, t, l.t)
            && Retarget(c1, l.t, |c|, reg, pt) == Retarget(c1, l.t, |c|, reg, |c| - 1)
            && (how == NoLoads ==> forall i :: 0 <= i < |l.t| ==> HasTestset(c1, l.t[i]))
  {
    hide Loaded, Retarget, HasTestset, ListIs;
    var c := Loaded(s, how, reg);
    LoadedAt(s, how, reg);
    LoadedLists(s, how, reg, t, f, l, |c|, |c|);
    var c1 := Retarget(c, l.f, |c|, reg, pf);
    ListRetarget(c, l.f, |c|, reg, pf, t, l.t);
    if how == NoLoads {
      LoadedNone(s, reg);
      RetargetDefault(c, l.f, |c|, reg, pf, |c| - 2);
      forall j | j in l.t ensures HasTestset(c1, j) { TestsetStays(c, f, l.f, |c|, reg, pf, j); }
      RetargetDefault(c1, l.t, |c|, reg, pt, |c| - 1);
    }
  }

  lemma TestsetStays(c: seq<Instr>, f: int, q: seq<nat>, vt: int, reg: nat, dt: int, j: nat)
    requires ListIs(c, f, q) && j !in q && HasTestset(c, j)
    ensures HasTestset(Retarget(c, q, vt, reg, dt), j)
  {
    hide ListIs;
    forall i | i in q ensures i < |c| && c[i].JMP? { ListJump(c, f, q, i); }
    assert Retarget(c, q, vt, reg, dt)[j - 1] == c[j - 1];
  }

  lemma NotPending(x: Ctx, s: Fs, outer: set<nat>, e: Exp, l: Lists)
    requires Ok(x, s, outer, e, l)
    ensures forall j :: j in l.t || j in l.f ==> j !in s.pend
  {
    forall j | j in l.t || j in l.f ensures j !in s.pend { ListedNotPending(s, outer, e, l, j); }
  }

  lemma CmpJump(c: seq<Instr>, a: seq<nat>, q: seq<nat>, j: nat)
    requires ListIs(c, Head(a), a) && 0 < j <= |c| && c[j - 1].CMP?
    ensures !HasTestset(Joined(c, a, q), j)
  {
    JoinedTouches(c, a, q, {});
    assert SameTest(c, Joined(c, a, q), j);
  }

  lemma NoLists(c: seq<Instr>, e: Exp, l: Lists)
    requires ListIs(c, e.t, l.t) && ListIs(c, e.f, l.f) && e.t == e.f && forall j :: j in l.t ==> j !in l.f
    ensures l == None && e.t == NO_JUMP
  {
    assert e.t == NO_JUMP <==> l.t == [];
    assert e.f == NO_JUMP <==> l.f == [];
    assert |l.t| > 0 ==> e.t in l.t;
    assert |l.f| > 0 ==> e.f in l.f;
  }

  /** luaK_dischargevars. */
  function DischargeVars(e: Exp): Exp {
    if e.k.VLocal? then Exp(VNonreloc(e.k.r), e.t, e.f) else e
  }

  lemma DischargedOk(x: Ctx, s: Fs, outer: set<nat>, e: Exp, l: Lists)
    requires Ok(x, s, outer, e, l)
    ensures Ok(x, s, outer, DischargeVars(e), l) && SameKind(e.k, DischargeVars(e).k)
    ensures Proper(x, s, e.k) ==> Proper(x, s, DischargeVars(e).k)
  {
    hide Linked, Flows, Nilable;
    Bookkeeping(x, s, outer, e, l, s.last, s.free, DischargeVars(e).k);
    assert s.(last := s.last, free := s.free) == s;
  }

  lemma OkHeads(x: Ctx, s: Fs, outer: set<nat>, e: Exp, l: Lists)
    requires Ok(x, s, outer, e, l)
    ensures e == Heads(e.k, l) && KindOk(x, s, e.k) && Flows(x, s, outer, e.k, l)
    ensures ListIs(s.code, s.jpc, s.pend) && ListIs(s.code, e.t, l.t) && ListIs(s.code, e.f, l.f)
  {
    LinkedHeads(s, outer, e, l);
  }

  lemma OkFacts(x: Ctx, s: Fs, outer: set<nat>, e: Exp, l: Lists)
    requires Ok(x, s, outer, e, l)
    ensures ListIs(s.code, s.jpc, s.pend) && e == Heads(e.k, l) && KindOk(x, s, e.k)
    ensures ListIs(s.code, e.t, l.t) && ListIs(s.code, e.f, l.f) && Flows(x, s, outer, e.k, l)
    ensures e.k.VReloc? ==> e.k.info == |s.code| - 1 && s.code[e.k.info].NOT? && s.code[e.k.info].b < 256
    ensures e.k.VNonreloc? ==> e.k.r < x.nactvar || e.k.r == s.free - 1
    ensures e.k.VJmp? ==> 0 < e.k.info == |s.code| - 1 && IsTest(s.code[e.k.info - 1]) && s.code[e.k.info] == JMP(NO_JUMP)
    ensures Apart(Elems(l.t), Elems(l.f)) && (forall j :: j in l.t ==> j !in l.f)
  {
    ListsApart(s, outer, e, l);
    LinkedHeads(s, outer, e, l);
  }

  lemma CompletedIs(c: seq<Instr>, p: nat, reg: nat)
    requires p < |c| && c[p].NOT?
    ensures Completed(c, p, reg) == c[p := NOT(reg, c[p].b)]
  {
  }

  /** A number becomes a constant first. */
  lemma PlaceNumber(x: Ctx, s: Fs, ks': seq<Value>, outer: set<nat>, e: Exp, l: Lists, n: int, i: nat, reg: nat)
    requires Ok(x, s, outer, e, l) && e.k == VKNum(n) && s.ks <= ks' && i < |ks'| && ks'[i] == Num(n)
    requires reg < 256 && (reg < x.nactvar || reg == s.free - 1) && x.nactvar <= MAXSTACK
    ensures var s' := Emit(s.(ks := ks'), [LOADK(reg, i)]);
            && Ok(x, s', outer, Exp(VNonreloc(reg), e.t, e.f), l)
            && Placing(x, s, s', outer, e.k, VNonreloc(reg), l, reg)
  {
    hide Linked, Flows, Nilable, Flow, Emit, SameJumps, SameTests, Clean;
    var s1 := s.(ks := ks');
    MoreConstants(x, s, outer, e, l, ks');
    PlaceEmit(x, s1, outer, e, l, LOADK(reg, i), reg);
    forall r0: Regs | Clean(x, r0)
      ensures Placed(x, s, e.k, reg, Flow(x, s, outer, e.k, l, r0), Flow(x, Emit(s1, [LOADK(reg, i)]), outer, VNonreloc(reg), l, r0))
    {
      assert Placed(x, s1, e.k, reg, Flow(x, s1, outer, e.k, l, r0), Flow(x, Emit(s1, [LOADK(reg, i)]), outer, VNonreloc(reg), l, r0));
    }
  }

  lemma JumpAlone(c: seq<Instr>, h: int, p: seq<nat>)
    requires ListIs(c, h, p)
    ensures ListIs(c + [JMP(NO_JUMP)], |c|, [|c|]) && ListIs(c + [JMP(NO_JUMP)], h, p)
  {
    ListSame(c, c + [JMP(NO_JUMP)], h, p);
  }

  lemma EmitTwo(s: Fs, i: Instr)
    ensures Emit(s, [i]).code + [JMP(NO_JUMP)] == Emit(s, [i, JMP(NO_JUMP)]).code
    ensures forall j: nat :: Joined(Emit(s, [i]).code + [JMP(NO_JUMP)], [j], []) == Emit(s, [i]).code + [JMP(NO_JUMP)]
  {
  }

  lemma RetargetNone(c: seq<Instr>, vt: int, reg: nat, dt: int)
    ensures Retarget(c, [], vt, reg, dt) == c
  {
  }

  lemma DropNone(c: seq<Instr>)
    ensures DropValues(c, []) == c
  {
  }
}
