/** Upvalues: closures share the variables they capture, first in the stack and
    after the scope has ended in a cell of their own. */
module Upvalues {

  datatype Value = Value(n: int)

  /** v points into the stack while the variable is in scope, and to the cell's
      own value afterwards. */
  datatype UpVal = InStack(slot: nat) | Own(value: Value)

  type Cells = map<nat, UpVal>

  /** The specification: every local variable is a storage location of its own.
      env: the variable in each stack slot; shared: the variable each upvalue
      stands for. */
  datatype Vars = Vars(env: seq<nat>, store: map<nat, Value>, shared: map<nat, nat>, next: nat)

  /** A new local variable, with a location nobody has. */
  function Declare(a: Vars, v: Value): Vars {
    a.(env := a.env + [a.next], store := a.store[a.next := v], next := a.next + 1)
  }

  /** The variables from the level on are out of scope; closures still see them. */
  function Leave(a: Vars, level: nat): Vars {
    if level <= |a.env| then a.(env := a.env[..level]) else a
  }

  function Assign(a: Vars, x: nat, v: Value): Vars {
    a.(store := a.store[x := v])
  }

  /** One variable has the new value; the others and all sharing are as before. */
  ghost predicate StoreOnly(a: Vars, b: Vars, x: nat, v: Value) {
    && b.env == a.env && b.shared == a.shared && x in b.store && b.store[x] == v
    && forall y :: y in a.store && y != x ==> y in b.store && b.store[y] == a.store[y]
  }

  ghost predicate IsOpen(cells: Cells, u: nat, n: nat) {
    u in cells && cells[u].InStack? && cells[u].slot < n
  }

  function SlotOf(cells: Cells, u: nat): nat {
    if u in cells && cells[u].InStack? then cells[u].slot else 0
  }

  /** The list of open upvalues: strictly ordered by slot, highest first, so at
      most one for each slot. */
  ghost predicate Ordered(open: seq<nat>, cells: Cells, n: nat) {
    && (forall i :: 0 <= i < |open| ==> IsOpen(cells, open[i], n))
    && (forall i, j :: 0 <= i < j < |open| ==> SlotOf(cells, open[i]) > SlotOf(cells, open[j]))
    && (forall u :: u in cells && cells[u].InStack? ==> u in open)
  }

  /** Stack slots hold what their variables hold. */
  ghost predicate StackFaithful(stack: seq<Value>, a: Vars) {
    && |a.env| == |stack|
    && (forall i :: 0 <= i < |stack| ==> a.env[i] in a.store && a.store[a.env[i]] == stack[i])
    && (forall i, j :: 0 <= i < j < |stack| ==> a.env[i] != a.env[j])
    && (forall x :: x in a.store ==> x < a.next)
  }

  /** So do upvalues; and no two stand for the same variable. */
  ghost predicate CellsFaithful(cells: Cells, a: Vars) {
    && a.shared.Keys == cells.Keys
    && (forall u :: u in cells ==> a.shared[u] in a.store)
    && (forall u :: u in cells && cells[u].InStack? ==> cells[u].slot < |a.env| && a.shared[u] == a.env[cells[u].slot])
    && (forall u :: u in cells && cells[u].Own? ==> a.store[a.shared[u]] == cells[u].value && a.shared[u] !in a.env)
    && (forall u, w :: u in cells && w in cells && a.shared[u] == a.shared[w] ==> u == w)
  }

  class Thread {
    var stack: seq<Value>
    var cells: Cells
    /** openupval. */
    var open: seq<nat>
    var fresh_: nat
    ghost var vars: Vars

    ghost predicate Valid()
      reads this
    {
      && Ordered(open, cells, |stack|) && StackFaithful(stack, vars) && CellsFaithful(cells, vars)
      && forall u :: u in cells ==> u < fresh_
    }

    constructor ()
      ensures Valid() && vars == Vars([], map[], map[], 0)
    {
      stack, cells, open, fresh_, vars := [], map[], [], 0, Vars([], map[], map[], 0);
    }

    /** A local variable comes into scope in the next slot. */
    method Push(v: Value)
      requires Valid()
      modifies this
      ensures Valid() && vars == Declare(old(vars), v) && stack == old(stack) + [v] && cells == old(cells)
      ensures vars.env[|old(stack)|] !in old(vars).store && vars.shared == old(vars).shared
    {
      stack := stack + [v];
      vars := Declare(vars, v);
    }

    method GetLocal(i: nat) returns (v: Value)
      requires Valid() && i < |stack|
      ensures v == vars.store[vars.env[i]]
    {
      v := stack[i];
    }

    /** An assignment through the stack is seen through every closure. */
    method SetLocal(i: nat, v: Value)
      requires Valid() && i < |stack|
      modifies this
      ensures Valid() && vars == Assign(old(vars), old(vars).env[i], v) && stack == old(stack)[i := v] && cells == old(cells)
      ensures StoreOnly(old(vars), vars, old(vars).env[i], v)
    {
      stack := stack[i := v];
      vars := Assign(vars, vars.env[i], v);
    }

    /** OP_GETUPVAL. */
    method GetUpval(u: nat) returns (v: Value)
      requires Valid() && u in cells
      ensures v == vars.store[vars.shared[u]]
    {
      match cells[u]
      case InStack(slot) => v := stack[slot];
      case Own(w) => v := w;
    }

    /** OP_SETUPVAL: the same variable, wherever it lives now. */
    method SetUpval(u: nat, v: Value)
      requires Valid() && u in cells
      modifies this
      ensures Valid() && vars == Assign(old(vars), old(vars).shared[u], v) && cells.Keys == old(cells.Keys) && |stack| == |old(stack)|
      ensures StoreOnly(old(vars), vars, old(vars).shared[u], v)
    {
      CellVar(cells, vars, u, stack);
      AssignOnly(vars, vars.shared[u], v);
      hide Ordered, StackFaithful, CellsFaithful, StoreOnly, Assign;
      if cells[u].Own? {
        OwnStays(open, cells, |stack|, u, v);
        WriteOwn(stack, cells, vars, u, v);
      } else {
        WriteStack(stack, cells, vars, u, v);
      }
      StoreValue(u, v);
      vars := Assign(vars, vars.shared[u], v);
    }

    /** setobj to where the upvalue points. */
    method StoreValue(u: nat, v: Value)
      requires u in cells && (cells[u].InStack? ==> cells[u].slot < |stack|)
      modifies this`stack, this`cells
      ensures old(cells[u]).InStack? ==> stack == old(stack)[old(cells[u]).slot := v] && cells == old(cells)
      ensures old(cells[u]).Own? ==> stack == old(stack) && cells == old(cells)[u := Own(v)]
    {
      match cells[u]
      case InStack(slot) => stack := stack[slot := v];
      case Own(_) => cells := cells[u := Own(v)];
    }

    /** luaF_findupval: closures that capture the same variable get the same
        upvalue. */
    method FindUpval(level: nat) returns (u: nat)
      requires Valid() && level < |stack|
      modifies this
      ensures Valid() && stack == old(stack) && u in cells
      ensures vars == old(vars).(shared := old(vars).shared[u := old(vars).env[level]])
      ensures forall w :: w in old(cells) && old(vars).shared[w] == old(vars).env[level] ==> u == w && cells == old(cells)
      ensures forall w :: w in old(cells) ==> w in cells && vars.shared[w] == old(vars).shared[w]
    {
      hide Ordered, CellsFaithful, StackFaithful, SlotOf;
      var pp := 0;
      while pp < |open| && SlotOf(cells, open[pp]) >= level
        invariant 0 <= pp <= |open| && forall i :: 0 <= i < pp ==> SlotOf(cells, open[i]) > level
      {
        if SlotOf(cells, open[pp]) == level {
          Captured(open, cells, vars, |stack|, level, pp);
          return open[pp];
        }
        pp := pp + 1;
      }
      Below(open, cells, |stack|, pp, level);
      EnvLength(stack, vars);
      NotCaptured(open, cells, vars, |stack|, level);
      u := fresh_;
      fresh_ := fresh_ + 1;
      InsertOrdered(open, cells, |stack|, pp, u, level);
      CaptureFaithful(cells, stack, vars, u, level);
      cells := cells[u := InStack(level)];
      open := open[..pp] + [u] + open[pp..];
      vars := vars.(shared := vars.shared[u := vars.env[level]]);
    }

    /** The end of a scope: luaF_close, then the slots are gone.  Exactly the
        upvalues at or above the level are closed, and every upvalue still stands
        for its variable. */
    method LeaveScope(level: nat)
      requires Valid() && level <= |stack|
      modifies this
      ensures Valid() && vars == Leave(old(vars), level) && stack == old(stack)[..level] && cells.Keys == old(cells.Keys)
      ensures vars.store == old(vars).store && vars.shared == old(vars).shared
      ensures forall u :: u in cells ==> (cells[u] == old(cells[u]) <==> !old(cells[u].InStack? && cells[u].slot >= level))
    {
      hide Ordered, CellsFaithful, StackFaithful, SlotOf;
      ghost var c0, o0 := cells, open;
      ghost var k := 0;
      while open != [] && SlotOf(cells, open[0]) >= level
        invariant 0 <= k <= |o0| && open == o0[k..] && cells.Keys == c0.Keys && stack == old(stack) && vars == old(vars) && fresh_ == old(fresh_)
        invariant forall i :: 0 <= i < k ==> SlotOf(c0, o0[i]) >= level && Moved(c0, cells, stack, o0[i])
        invariant forall u :: u in c0 && u !in o0[..k] ==> cells[u] == c0[u]
        decreases |open|
      {
        var u := open[0];
        OnceOpen(o0, c0, |stack|, k);
        SlotIs(cells, u);
        SlotIs(c0, u);
        open := open[1..];
        cells := cells[u := Own(stack[cells[u].slot])];
        assert o0[..k + 1] == o0[..k] + [o0[k]];
        k := k + 1;
      }
      forall i | 0 <= i < k ensures o0[i] in cells && cells[o0[i]].Own? { assert Moved(c0, cells, stack, o0[i]); }
      ClosedRest(o0, c0, |stack|, k, level, cells);
      ClosedFaithful(o0, c0, cells, stack, vars, k, level);
      stack := stack[..level];
      vars := Leave(vars, level);
    }
  }

  /** Two closures over the locals a and b, and one more over a: what one writes to a,
      the other one reads, before and after the scope has ended; b is not touched. */
  method Sharing(a: Value, b: Value, v: Value, w: Value) returns (x: Value, y: Value, z: Value, l: Value)
    ensures x == v && y == w && z == b && l == v
  {
    hide Ordered, CellsFaithful, StackFaithful, Thread.Valid;
    var t := new Thread();
    t.Push(a);
    t.Push(b);
    var first := t.FindUpval(0);
    var other := t.FindUpval(1);
    var second := t.FindUpval(0);
    t.SetUpval(first, v);
    x := t.GetUpval(second);
    l := t.GetLocal(0);
    t.LeaveScope(0);
    t.SetUpval(second, w);
    y := t.GetUpval(first);
    z := t.GetUpval(other);
  }

  /** The upvalue was open and has taken the value of its slot with it. */
  ghost predicate Moved(c: Cells, c': Cells, stack: seq<Value>, u: nat) {
    IsOpen(c, u, |stack|) && u in c' && c'[u] == Own(stack[c[u].slot])
  }

  lemma AssignOnly(a: Vars, x: nat, v: Value)
    ensures StoreOnly(a, Assign(a, x, v), x, v)
  {
  }

  lemma CellVar(cells: Cells, a: Vars, u: nat, stack: seq<Value>)
    requires u in cells && CellsFaithful(cells, a) && StackFaithful(stack, a)
    ensures u in a.shared && a.shared[u] in a.store && (cells[u].InStack? ==> cells[u].slot < |stack|)
  {
  }

  lemma WriteStack(stack: seq<Value>, cells: Cells, a: Vars, u: nat, v: Value)
    requires StackFaithful(stack, a) && CellsFaithful(cells, a) && u in cells && u in a.shared && cells[u].InStack? && cells[u].slot < |stack|
    ensures StackFaithful(stack[cells[u].slot := v], Assign(a, a.shared[u], v)) && CellsFaithful(cells, Assign(a, a.shared[u], v))
  {
  }

  lemma WriteOwn(stack: seq<Value>, cells: Cells, a: Vars, u: nat, v: Value)
    requires StackFaithful(stack, a) && CellsFaithful(cells, a) && u in cells && u in a.shared && cells[u].Own?
    ensures StackFaithful(stack, Assign(a, a.shared[u], v)) && CellsFaithful(cells[u := Own(v)], Assign(a, a.shared[u], v))
  {
  }

  lemma OwnStays(open: seq<nat>, cells: Cells, n: nat, u: nat, v: Value)
    requires Ordered(open, cells, n) && u in cells && cells[u].Own?
    ensures Ordered(open, cells[u := Own(v)], n)
  {
    forall i | 0 <= i < |open| ensures IsOpen(cells[u := Own(v)], open[i], n) { assert IsOpen(cells, open[i], n); }
  }

  lemma SlotIs(cells: Cells, u: nat)
    ensures u in cells && cells[u].InStack? ==> SlotOf(cells, u) == cells[u].slot
  {
  }

  lemma EnvLength(stack: seq<Value>, a: Vars)
    requires StackFaithful(stack, a)
    ensures |a.env| == |stack| && forall i, j :: 0 <= i < j < |stack| ==> a.env[i] != a.env[j]
  {
  }

  lemma Captured(open: seq<nat>, cells: Cells, a: Vars, n: nat, level: nat, pp: nat)
    requires Ordered(open, cells, n) && CellsFaithful(cells, a) && pp < |open| && SlotOf(cells, open[pp]) == level
    ensures open[pp] in cells && level < |a.env| && open[pp] in a.shared && a.shared[open[pp]] == a.env[level]
    ensures a.shared[open[pp] := a.env[level]] == a.shared && a.shared.Keys == cells.Keys
    ensures forall w :: w in cells && w in a.shared && a.shared[w] == a.env[level] ==> w == open[pp]
  {
    assert IsOpen(cells, open[pp], n);
  }

  lemma Below(open: seq<nat>, cells: Cells, n: nat, pp: nat, level: nat)
    requires Ordered(open, cells, n) && pp <= |open| && (pp < |open| ==> SlotOf(cells, open[pp]) < level)
    ensures forall i :: pp <= i < |open| ==> SlotOf(cells, open[i]) < level
  {
  }

  lemma CaptureFaithful(cells: Cells, stack: seq<Value>, a: Vars, u: nat, level: nat)
    requires CellsFaithful(cells, a) && StackFaithful(stack, a) && u !in cells && level < |stack|
    requires forall w :: w in cells ==> w in a.shared && a.shared[w] != a.env[level]
    ensures var b := a.(shared := a.shared[u := a.env[level]]); CellsFaithful(cells[u := InStack(level)], b) && StackFaithful(stack, b)
  {
  }

  lemma NotCaptured(open: seq<nat>, cells: Cells, a: Vars, n: nat, level: nat)
    requires Ordered(open, cells, n) && CellsFaithful(cells, a) && level < n == |a.env|
    requires forall i, j :: 0 <= i < j < n ==> a.env[i] != a.env[j]
    requires forall i :: 0 <= i < |open| ==> SlotOf(cells, open[i]) != level
    ensures forall w :: w in cells ==> w in a.shared && a.shared[w] != a.env[level]
  {
    forall w | w in cells ensures a.shared[w] != a.env[level] {
      assert a.env[level] in a.env;
      if cells[w].InStack? {
        var i :| 0 <= i < |open| && open[i] == w;
        assert SlotOf(cells, open[i]) != level;
      }
    }
  }

  lemma InsertAt(open: seq<nat>, cells: Cells, n: nat, pp: nat, u: nat, level: nat, i: nat)
    requires Ordered(open, cells, n) && pp <= |open| && u !in cells && level < n && i <= |open|
    ensures var o, c := open[..pp] + [u] + open[pp..], cells[u := InStack(level)];
            var k := if i < pp then i else i - 1;
            && IsOpen(c, o[i], n)
            && (i == pp ==> SlotOf(c, o[i]) == level)
            && (i != pp ==> 0 <= k < |open| && o[i] == open[k] && SlotOf(c, o[i]) == SlotOf(cells, open[k]))
  {
    if i != pp { assert IsOpen(cells, open[if i < pp then i else i - 1], n); }
  }

  lemma InsertOrdered(open: seq<nat>, cells: Cells, n: nat, pp: nat, u: nat, level: nat)
    requires Ordered(open, cells, n) && pp <= |open| && u !in cells && level < n
    requires forall i :: 0 <= i < pp ==> SlotOf(cells, open[i]) > level
    requires forall i :: pp <= i < |open| ==> SlotOf(cells, open[i]) < level
    ensures Ordered(open[..pp] + [u] + open[pp..], cells[u := InStack(level)], n)
  {
    hide SlotOf, IsOpen;
    var o, c := open[..pp] + [u] + open[pp..], cells[u := InStack(level)];
    forall i | 0 <= i < |o| ensures IsOpen(c, o[i], n) { InsertAt(open, cells, n, pp, u, level, i); }
    forall i, j | 0 <= i < j < |o| ensures SlotOf(c, o[i]) > SlotOf(c, o[j]) {
      InsertAt(open, cells, n, pp, u, level, i);
      InsertAt(open, cells, n, pp, u, level, j);
    }
    forall w | w in c && c[w].InStack? ensures w in o {
      if w != u {
        assert w in open;
        var i :| 0 <= i < |open| && open[i] == w;
        assert o[if i < pp then i else i + 1] == w;
      }
    }
  }

  lemma OnceOpen(o: seq<nat>, c: Cells, n: nat, k: nat)
    requires Ordered(o, c, n) && k < |o|
    ensures o[k] !in o[..k] && IsOpen(c, o[k], n)
  {
    forall i | 0 <= i < k ensures o[i] != o[k] { assert SlotOf(c, o[i]) > SlotOf(c, o[k]); }
  }

  /** What is left of the list is the list of the remaining slots. */
  lemma ClosedRest(o: seq<nat>, c: Cells, n: nat, k: nat, level: nat, c': Cells)
    requires Ordered(o, c, n) && k <= |o| && c'.Keys == c.Keys && level <= n
    requires forall i :: 0 <= i < k ==> SlotOf(c, o[i]) >= level && o[i] in c' && c'[o[i]].Own?
    requires forall u :: u in c && u !in o[..k] ==> c'[u] == c[u]
    requires k < |o| ==> SlotOf(c', o[k]) < level
    ensures Ordered(o[k..], c', level)
    ensures forall u :: u in c ==> (u in o[..k] <==> c[u].InStack? && c[u].slot >= level)
  {
    forall i | k <= i < |o| ensures o[i] !in o[..k] && IsOpen(c', o[i], level) && SlotOf(c', o[i]) == SlotOf(c, o[i]) {
      forall j | 0 <= j < k ensures o[j] != o[i] { assert SlotOf(c, o[j]) > SlotOf(c, o[i]); }
      assert IsOpen(c, o[i], n);
      if i > k {
        forall j | 0 <= j < k ensures o[j] != o[k] { assert SlotOf(c, o[j]) > SlotOf(c, o[k]); }
        assert SlotOf(c, o[k]) > SlotOf(c, o[i]);
      }
    }
    forall u | u in c ensures u in o[..k] <==> c[u].InStack? && c[u].slot >= level {
      if u in o[..k] {
        var i :| 0 <= i < k && o[i] == u;
        assert IsOpen(c, o[i], n) && SlotOf(c, o[i]) >= level;
      } else if c[u].InStack? {
        var i :| 0 <= i < |o| && o[i] == u;
        assert i >= k && IsOpen(c', o[i], level);
      }
    }
    forall u | u in c' && c'[u].InStack? ensures u in o[k..] {
      assert u !in o[..k] && u in o;
      var i :| 0 <= i < |o| && o[i] == u;
      assert o[k..][i - k] == u;
    }
  }

  lemma ClosedFaithful(o: seq<nat>, c: Cells, c': Cells, stack: seq<Value>, a: Vars, k: nat, level: nat)
    requires CellsFaithful(c, a) && StackFaithful(stack, a) && level <= |stack| && k <= |o| && c'.Keys == c.Keys
    requires forall u :: u in c ==> (u in o[..k] <==> c[u].InStack? && c[u].slot >= level)
    requires forall i :: 0 <= i < k ==> Moved(c, c', stack, o[i])
    requires forall u :: u in c && u !in o[..k] ==> c'[u] == c[u]
    ensures CellsFaithful(c', Leave(a, level)) && StackFaithful(stack[..level], Leave(a, level))
  {
    var b := Leave(a, level);
    forall u | u in c' && c'[u].Own? ensures b.store[b.shared[u]] == c'[u].value && b.shared[u] !in b.env {
      if u in o[..k] {
        var i :| 0 <= i < k && o[i] == u;
        assert Moved(c, c', stack, o[i]);
        assert a.shared[u] == a.env[c[u].slot];
      }
    }
  }
}
