/** Jump lists threaded through the jump fields of the code itself. */
module CodeLists {
  import opened CodeVm

  ghost predicate Distinct(s: seq<nat>) {
    forall i, j :: 0 <= i < j < |s| ==> s[i] != s[j]
  }

  /** What the jump of the k-th member holds: the way to the next member, or
      NO_JUMP, a jump to itself, in the last. */
  function LinkOf(s: seq<nat>, k: nat): int
    requires k < |s|
  {
    if k + 1 < |s| then s[k + 1] - (s[k] + 1) else NO_JUMP
  }

  /** The list headed by l visits exactly the jumps of s, in order. */
  ghost predicate ListIs(c: seq<Instr>, l: int, s: seq<nat>) {
    && l == (if s == [] then NO_JUMP else s[0])
    && Distinct(s)
    && forall k :: 0 <= k < |s| ==> s[k] < |c| && c[s[k]] == JMP(LinkOf(s, k))
  }

  /** Two lists with the same head agree as far as both go ... */
  lemma {:induction false} ListAgree(c: seq<Instr>, l: int, s: seq<nat>, s': seq<nat>, k: nat)
    requires ListIs(c, l, s) && ListIs(c, l, s') && k < |s|
    ensures k < |s'| && s[k] == s'[k]
  {
    if k > 0 {
      ListAgree(c, l, s, s', k - 1);
      assert c[s[k - 1]] == JMP(LinkOf(s, k - 1)) && c[s'[k - 1]] == JMP(LinkOf(s', k - 1));
      assert s[k - 1] != s[k];
    }
  }

  /** ... so a list threaded through the code is the only one with its head: it
      ends, and cannot run into a cycle. */
  lemma ListUnique(c: seq<Instr>, l: int, s: seq<nat>, s': seq<nat>)
    requires ListIs(c, l, s) && ListIs(c, l, s')
    ensures s == s'
  {
    forall k | 0 <= k < |s| ensures k < |s'| && s[k] == s'[k] { ListAgree(c, l, s, s', k); }
    forall k | 0 <= k < |s'| ensures k < |s| && s[k] == s'[k] { ListAgree(c, l, s', s, k); }
    if |s| > 0 { ListAgree(c, l, s, s', |s| - 1); }
    if |s'| > 0 { ListAgree(c, l, s', s, |s'| - 1); }
  }

  /** The list depends only on the jumps that are on it. */
  lemma ListSame(c: seq<Instr>, c': seq<Instr>, l: int, s: seq<nat>)
    requires ListIs(c, l, s) && |c| <= |c'| && forall j :: j in s && j < |c| ==> c'[j] == c[j]
    ensures ListIs(c', l, s)
  {
    forall k | 0 <= k < |s| ensures s[k] < |c'| && c'[s[k]] == JMP(LinkOf(s, k)) { assert s[k] in s; }
  }

  lemma JoinDistinct(s1: seq<nat>, s2: seq<nat>)
    requires Distinct(s1) && Distinct(s2) && forall j :: j in s1 ==> j !in s2
    ensures Distinct(s1 + s2)
  {
    var s := s1 + s2;
    forall i, j | 0 <= i < j < |s| ensures s[i] != s[j] {
      assert i < |s1| ==> s[i] in s1;
      assert j >= |s1| ==> s[j] in s2;
    }
  }

  lemma DistinctLast(s: seq<nat>, k: nat)
    requires Distinct(s) && k < |s| - 1
    ensures s[k] != s[|s| - 1]
  {
  }

  lemma ListLink(c: seq<Instr>, l: int, s: seq<nat>, k: nat)
    requires ListIs(c, l, s) && k < |s|
    ensures s[k] < |c| && c[s[k]] == JMP(LinkOf(s, k)) && Distinct(s) && l == s[0]
  {
  }

  /** luaK_concat: one jump changes, and the first list runs into the second. */
  lemma ListConcat(c: seq<Instr>, l1: int, s1: seq<nat>, l2: int, s2: seq<nat>)
    requires ListIs(c, l1, s1) && ListIs(c, l2, s2) && s1 != [] && s2 != []
    requires forall j :: j in s1 ==> j !in s2
    ensures var last := s1[|s1| - 1]; last < |c| && ListIs(c[last := JMP(l2 - (last + 1))], l1, s1 + s2)
  {
    hide ListIs, Distinct;
    ListLink(c, l1, s1, |s1| - 1);
    var last := s1[|s1| - 1];
    var c' := c[last := JMP(l2 - (last + 1))];
    var s := s1 + s2;
    ListLink(c, l2, s2, 0);
    JoinDistinct(s1, s2);
    assert last in s1;
    forall k | 0 <= k < |s| ensures s[k] < |c'| && c'[s[k]] == JMP(LinkOf(s, k)) {
      if k < |s1| - 1 {
        ListLink(c, l1, s1, k);
        DistinctLast(s1, k);
      } else if k >= |s1| {
        LinkBehind(c, s1, l2, s2, k - |s1|);
        assert s2[k - |s1|] in s2;
      }
    }
    ListMade(c', l1, s);
  }

  lemma LinkBehind(c: seq<Instr>, s1: seq<nat>, l2: int, s2: seq<nat>, k: nat)
    requires ListIs(c, l2, s2) && k < |s2|
    ensures s2[k] < |c| && (s1 + s2)[|s1| + k] == s2[k] && c[s2[k]] == JMP(LinkOf(s1 + s2, |s1| + k))
  {
    hide ListIs, Distinct;
    ListLink(c, l2, s2, k);
  }

  lemma ListMade(c: seq<Instr>, l: int, s: seq<nat>)
    requires l == (if s == [] then NO_JUMP else s[0]) && Distinct(s)
    requires forall k :: 0 <= k < |s| ==> s[k] < |c| && c[s[k]] == JMP(LinkOf(s, k))
    ensures ListIs(c, l, s)
  {
  }

  // -------------------------------------------------------------- patching

  /** patchtestreg on the TESTSET i: the register, or a plain TEST when there is
      none or the value is there already. */
  function SetReg(i: Instr, reg: nat): Instr
    requires i.TESTSET?
  {
    if reg != NO_REG && reg != i.b then TESTSET(reg, i.b, i.c) else TEST(i.b, i.c)
  }

  predicate HasTestset(c: seq<Instr>, j: nat) {
    0 < j <= |c| && c[j - 1].TESTSET?
  }

  /** patchlistaux over the jumps in s: those behind a TESTSET go to vtarget with
      the value in reg, the others to dtarget. */
  function Retarget(c: seq<Instr>, s: seq<nat>, vtarget: int, reg: nat, dtarget: int): (c': seq<Instr>)
    ensures |c'| == |c|
  {
    seq(|c|, p requires 0 <= p < |c| =>
      if p in s then JMP((if HasTestset(c, p) then vtarget else dtarget) - (p + 1))
      else if p + 1 in s && c[p].TESTSET? then SetReg(c[p], reg)
      else c[p])
  }

  /** removevalues over the jumps in s. */
  function DropValues(c: seq<Instr>, s: seq<nat>): (c': seq<Instr>)
    ensures |c'| == |c|
  {
    seq(|c|, p requires 0 <= p < |c| =>
      if p + 1 in s && c[p].TESTSET? then TEST(c[p].b, c[p].c) else c[p])
  }

  /** Lists whose jumps are not in s are not disturbed. */
  lemma ListRetarget(c: seq<Instr>, s: seq<nat>, vt: int, reg: nat, dt: int, l: int, q: seq<nat>)
    requires ListIs(c, l, q) && forall j :: j in q ==> j !in s
    ensures ListIs(Retarget(c, s, vt, reg, dt), l, q)
  {
    var c' := Retarget(c, s, vt, reg, dt);
    forall j | j in q && j < |c| ensures c'[j] == c[j] {
      var k :| 0 <= k < |q| && q[k] == j;
      assert c[q[k]] == JMP(LinkOf(q, k));
    }
    ListSame(c, c', l, q);
  }

  lemma ListDropValues(c: seq<Instr>, s: seq<nat>, l: int, q: seq<nat>)
    requires ListIs(c, l, q)
    ensures ListIs(DropValues(c, s), l, q)
  {
    var c' := DropValues(c, s);
    forall j | j in q && j < |c| ensures c'[j] == c[j] {
      var k :| 0 <= k < |q| && q[k] == j;
      assert c[q[k]] == JMP(LinkOf(q, k));
    }
    ListSame(c, c', l, q);
  }
}
