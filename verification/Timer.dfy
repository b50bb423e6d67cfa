/** The hierarchical timing wheel: three wheels of slots, a handle map and a node
    pool. */
module EventTimer {
  import opened TimerSlots
  import opened MemoryPool
  import Spec = TimerSpec

  datatype Entry = Entry(handle: int, tick: nat, data: nat)

  /** wheel[w][s]: the nodes in slot s of wheel w, first one first.  Each wheel
      has one cell more than slots: when wheel 1 turns over, the carry looks at
      its cell 1024 before the next carry resets the hand. */
  type Wheels = seq<seq<seq<nat>>>

  const CELLS: nat := 1025

  ghost predicate Shape(w: Wheels) {
    |w| == 3 && forall i :: 0 <= i < 3 ==> |w[i]| == CELLS
  }

  ghost predicate Distinct(l: seq<nat>) {
    forall i, j :: 0 <= i < j < |l| ==> l[i] != l[j]
  }

  /** A slot holds exactly the timers that belong there, once each. */
  ghost predicate SlotHolds(l: seq<nat>, mem: map<nat, Entry>, now: seq<nat>, i: nat, j: nat)
    requires |now| == 3
  {
    Distinct(l) && forall id :: id in l <==> id in mem && SlotOf(mem[id].tick, now) == (i, j)
  }

  ghost predicate Placed(w: Wheels, mem: map<nat, Entry>, now: seq<nat>)
    requires |now| == 3
  {
    Shape(w) && forall i: nat, j: nat :: i < 3 && j < CELLS ==> SlotHolds(w[i][j], mem, now, i, j)
  }

  function Set(w: Wheels, i: nat, j: nat, l: seq<nat>): Wheels
    requires i < |w| && j < |w[i]|
  {
    w[i := w[i][j := l]]
  }

  lemma PushPlaced(w: Wheels, mem: map<nat, Entry>, now: seq<nat>, id: nat, e: Entry)
    requires |now| == 3 && Placed(w, mem, now) && id !in mem && e.tick < MAX_TICK
    ensures var p := SlotOf(e.tick, now);
            p.0 < 3 && p.1 < CELLS && Placed(Set(w, p.0, p.1, [id] + w[p.0][p.1]), mem[id := e], now)
  {
    SlotBound(e.tick, now);
    var p := SlotOf(e.tick, now);
    var w' := Set(w, p.0, p.1, [id] + w[p.0][p.1]);
    forall i: nat, j: nat | i < 3 && j < CELLS ensures SlotHolds(w'[i][j], mem[id := e], now, i, j) {
      assert SlotHolds(w[i][j], mem, now, i, j);
    }
  }

  lemma RemovePlaced(w: Wheels, mem: map<nat, Entry>, now: seq<nat>, id: nat, k: nat)
    requires |now| == 3 && Placed(w, mem, now) && id in mem && mem[id].tick < MAX_TICK
    requires var p := SlotOf(mem[id].tick, now); p.0 < 3 && p.1 < CELLS && k < |w[p.0][p.1]| && w[p.0][p.1][k] == id
    ensures var p := SlotOf(mem[id].tick, now); var l := w[p.0][p.1];
            Placed(Set(w, p.0, p.1, l[..k] + l[k + 1..]), mem - {id}, now)
  {
    var p := SlotOf(mem[id].tick, now);
    var l := w[p.0][p.1];
    var w' := Set(w, p.0, p.1, l[..k] + l[k + 1..]);
    forall i: nat, j: nat | i < 3 && j < CELLS ensures SlotHolds(w'[i][j], mem - {id}, now, i, j) {
      assert SlotHolds(w[i][j], mem, now, i, j);
      if (i, j) == p { CutOut(l, k, id); }
    }
  }

  lemma CutOut(l: seq<nat>, k: nat, id: nat)
    requires Distinct(l) && k < |l| && l[k] == id
    ensures Distinct(l[..k] + l[k + 1..]) && forall x :: x in l[..k] + l[k + 1..] <==> x in l && x != id
  {
    var m := l[..k] + l[k + 1..];
    assert l == l[..k] + [l[k]] + l[k + 1..];
    forall i, j | 0 <= i < j < |m| ensures m[i] != m[j] {
      assert m[i] == l[if i < k then i else i + 1] && m[j] == l[if j < k then j else j + 1];
    }
    forall x | x in m ensures x != id {
      var i :| 0 <= i < |m| && m[i] == x;
      assert m[i] == l[if i < k then i else i + 1];
    }
  }

  /** The current slot is cleared and its nodes are gone. */
  lemma ClearPlaced(w: Wheels, mem: map<nat, Entry>, now: seq<nat>, s: nat, ids: set<nat>)
    requires |now| == 3 && Placed(w, mem, now) && s < CELLS && ids == set x | x in w[0][s]
    ensures Placed(Set(w, 0, s, []), mem - ids, now)
  {
    var w' := Set(w, 0, s, []);
    assert SlotHolds(w[0][s], mem, now, 0, s);
    forall i: nat, j: nat | i < 3 && j < CELLS ensures SlotHolds(w'[i][j], mem - ids, now, i, j) {
      assert SlotHolds(w[i][j], mem, now, i, j);
    }
  }

  // ------------------------------------------------------------- cascading

  /** The nodes of l from k on are still in slot (i, j); everything else is where
      the new hands put it. */
  ghost predicate Cascading(w: Wheels, mem: map<nat, Entry>, now: seq<nat>, i: nat, j: nat, l: seq<nat>, k: nat)
    requires |now| == 3 && k <= |l|
  {
    && Shape(w) && i < 3 && j < CELLS && w[i][j] == l && Distinct(l)
    && (forall x :: x in l ==> x in mem)
    && (forall x :: x in mem ==> SlotOf(mem[x].tick, now) != (i, j))
    && forall a: nat, b: nat :: a < 3 && b < CELLS && (a, b) != (i, j) ==> CellHolds(w[a][b], mem, now, a, b, l[k..])
  }

  ghost predicate CellHolds(c: seq<nat>, mem: map<nat, Entry>, now: seq<nat>, a: nat, b: nat, left: seq<nat>)
    requires |now| == 3
  {
    Distinct(c) && forall id :: id in c <==> id in mem && id !in left && SlotOf(mem[id].tick, now) == (a, b)
  }

  lemma CascadeStart(w: Wheels, mem: map<nat, Entry>, old_: seq<nat>, now: seq<nat>, i: nat, j: nat)
    requires |old_| == 3 && |now| == 3 && Placed(w, mem, old_) && i < 3 && j < CELLS
    requires forall x :: x in mem ==> SlotOf(mem[x].tick, now) != (i, j)
    requires forall x :: x in mem && SlotOf(mem[x].tick, old_) != (i, j) ==> SlotOf(mem[x].tick, now) == SlotOf(mem[x].tick, old_)
    ensures Cascading(w, mem, now, i, j, w[i][j], 0)
  {
    var l := w[i][j];
    assert l[0..] == l && SlotHolds(l, mem, old_, i, j);
    forall a: nat, b: nat | a < 3 && b < CELLS && (a, b) != (i, j) ensures CellHolds(w[a][b], mem, now, a, b, l[0..]) {
      assert SlotHolds(w[a][b], mem, old_, a, b);
    }
  }

  lemma CascadeStep(w: Wheels, mem: map<nat, Entry>, now: seq<nat>, i: nat, j: nat, l: seq<nat>, k: nat)
    requires |now| == 3 && k < |l| && Cascading(w, mem, now, i, j, l, k) && mem[l[k]].tick < MAX_TICK
    ensures var p := SlotOf(mem[l[k]].tick, now);
            p.0 < 3 && p.1 < CELLS && p != (i, j) && Cascading(Set(w, p.0, p.1, [l[k]] + w[p.0][p.1]), mem, now, i, j, l, k + 1)
  {
    SlotBound(mem[l[k]].tick, now);
    assert l[k] in l;
    var p := SlotOf(mem[l[k]].tick, now);
    var w' := Set(w, p.0, p.1, [l[k]] + w[p.0][p.1]);
    assert l[k..] == [l[k]] + l[k + 1..];
    assert l[k] !in l[k + 1..];
    forall a: nat, b: nat | a < 3 && b < CELLS && (a, b) != (i, j) ensures CellHolds(w'[a][b], mem, now, a, b, l[k + 1..]) {
      assert CellHolds(w[a][b], mem, now, a, b, l[k..]);
    }
  }

  lemma CascadeEnd(w: Wheels, mem: map<nat, Entry>, now: seq<nat>, i: nat, j: nat, l: seq<nat>)
    requires |now| == 3 && Cascading(w, mem, now, i, j, l, |l|)
    ensures Placed(Set(w, i, j, []), mem, now)
  {
    var w' := Set(w, i, j, []);
    assert l[|l|..] == [];
    forall a: nat, b: nat | a < 3 && b < CELLS ensures SlotHolds(w'[a][b], mem, now, a, b) {
      if (a, b) != (i, j) { assert CellHolds(w[a][b], mem, now, a, b, l[|l|..]); }
    }
  }

  function NoCells(): (c: seq<seq<nat>>)
    ensures |c| == CELLS && forall j :: 0 <= j < CELLS ==> c[j] == []
  {
    seq(CELLS, _ => [])
  }

  ghost predicate Tied(mem: map<nat, Entry>, hs: map<int, nat>, sys: Spec.Sys) {
    && (forall h :: h in hs ==> hs[h] in mem && mem[hs[h]].handle == h <= sys.last)
    && (forall id :: id in mem ==> mem[id].handle in hs && hs[mem[id].handle] == id)
    && sys.timers.Keys == hs.Keys
    && (forall h :: h in hs ==> sys.timers[h] == Spec.Timer(mem[hs[h]].tick, mem[hs[h]].data))
  }

  ghost predicate Bounded(mem: map<nat, Entry>, low: nat) {
    forall id :: id in mem ==> low <= mem[id].tick < MAX_TICK
  }

  lemma BoundedAdd(mem: map<nat, Entry>, low: nat, id: nat, e: Entry)
    requires Bounded(mem, low) && low <= e.tick < MAX_TICK
    ensures Bounded(mem[id := e], low)
  {
  }

  lemma NowBound(n: nat)
    ensures |Digits(n)| == 3 && Digits(n)[0] < 1024
  {
  }

  lemma TiedAdd(mem: map<nat, Entry>, hs: map<int, nat>, sys: Spec.Sys, w: Spec.Wish, interval: nat, id: nat)
    requires Tied(mem, hs, sys) && id !in mem && interval > 0
    ensures var due := Spec.DueTick(sys.now, w.timeout, interval);
            Tied(mem[id := Entry(sys.last + 1, due, w.data)], hs[sys.last + 1 := id], Spec.Add(sys, w, interval))
  {
  }

  lemma TiedDelete(mem: map<nat, Entry>, hs: map<int, nat>, sys: Spec.Sys, h: int)
    requires Tied(mem, hs, sys) && h in hs
    ensures Tied(mem - {hs[h]}, hs - {h}, Spec.Delete(sys, h))
  {
  }

  lemma TiedAt(mem: map<nat, Entry>, hs: map<int, nat>, sys: Spec.Sys, h: int)
    requires Tied(mem, hs, sys)
    ensures h in hs <==> h in sys.timers
    ensures h in hs ==> hs[h] in mem && mem[hs[h]].handle == h
    ensures forall id :: id in mem && mem[id].handle == h ==> h in hs && hs[h] == id
  {
  }

  class EvTimer {
    const interval: nat
    const pool: MemPool
    var ticknow: nat
    var handle: nat
    var slotNow: seq<nat>
    var wheel: Wheels
    var mem: map<nat, Entry>
    var entryMap: map<int, nat>
    ghost var sys: Spec.Sys

    /** Handle map, wheels, pool and the specification describe the same timers,
        all of them due from `low` on. */
    ghost predicate Inv(low: nat)
      reads this, pool
    {
      && interval > 0 && ticknow < MAX_TICK && slotNow == Digits(ticknow)
      && pool.Valid() && pool.Allocated() == mem.Keys
      && Tied(mem, entryMap, sys) && sys.now == ticknow && sys.last == handle
      && Bounded(mem, low) && Placed(wheel, mem, slotNow)
    }

    /** Between two calls. */
    ghost predicate Valid()
      reads this, pool
    {
      Inv(ticknow + 1) && Spec.Orderly(sys)
    }

    constructor (t: nat)
      requires t > 0
      ensures Valid() && sys == Spec.Start && interval == t && fresh(pool)
    {
      interval := t;
      pool := new MemPool(10000);
      ticknow, handle, slotNow, mem, entryMap, sys := 0, 0, [0, 0, 0], map[], map[], Spec.Start;
      wheel := [NoCells(), NoCells(), NoCells()];
      Spec.StartOrderly();
    }

    /** which_slot. */
    method WhichSlot(tick: nat) returns (w: nat, s: nat)
      requires tick < MAX_TICK && |slotNow| == 3
      ensures (w, s) == SlotOf(tick, slotNow) && w < 3 && s < 1024
    {
      SlotBound(tick, slotNow);
      var slot: seq<nat> := [];
      var i, t := 0, tick;
      while i < 3
        invariant 0 <= i <= 3 && |slot| == i
        invariant t == (if i == 0 then tick else if i == 1 then tick / 1024 else if i == 2 then tick / 1048576 else 0)
        invariant forall j :: 0 <= j < i ==> slot[j] == Digits(tick)[j]
      {
        Split(tick);
        slot := slot + [t % 1024];
        t := t / 1024;
        i := i + 1;
      }
      var k := 2;
      while k >= 0
        invariant -1 <= k <= 2 && forall j :: k < j < 3 ==> slot[j] <= slotNow[j]
      {
        if slot[k] > slotNow[k] { return k, slot[k]; }
        k := k - 1;
      }
      return 0, slot[0];
    }

    method Insert(data: nat, timeout: nat, ghost low: nat) returns (h: int)
      requires Inv(low) && low <= ticknow + 1 && Spec.DueTick(ticknow, timeout, interval) < MAX_TICK
      modifies this, pool
      ensures Inv(low) && sys == Spec.Add(old(sys), Spec.Wish(data, timeout), interval) && h == handle
      ensures ticknow == old(ticknow) && wheel[0][slotNow[0]] == old(wheel[0][slotNow[0]])
      ensures forall id :: id in old(mem) ==> id in mem && mem[id] == old(mem[id])
    {
      hide Placed, Tied, Bounded, SlotOf, Digits;
      var pe := pool.Alloc();
      handle := handle + 1;
      var tick := ticknow + 1;
      if timeout > interval { tick := ticknow + timeout / interval; }
      BoundedAdd(mem, low, pe, Entry(handle, tick, data));
      NowBound(ticknow);
      PushPlaced(wheel, mem, slotNow, pe, Entry(handle, tick, data));
      ShapeOf(wheel, mem, slotNow);
      CurrentSlot(ticknow, tick);
      TiedAdd(mem, entryMap, sys, Spec.Wish(data, timeout), interval, pe);
      mem := mem[pe := Entry(handle, tick, data)];
      entryMap := entryMap[handle := pe];
      var w, s := WhichSlot(tick);
      wheel := Set(wheel, w, s, [pe] + wheel[w][s]);
      sys := Spec.Add(sys, Spec.Wish(data, timeout), interval);
      h := handle;
    }

    /** add_timer. */
    method AddTimer(data: nat, timeout: nat) returns (h: int)
      requires Valid() && Spec.DueTick(ticknow, timeout, interval) < MAX_TICK
      modifies this, pool
      ensures Valid() && sys == Spec.Add(old(sys), Spec.Wish(data, timeout), interval) && h == sys.last
    {
      hide Placed, Tied, Spec.Orderly;
      Spec.AddOrderly(sys, Spec.Wish(data, timeout), interval);
      h := Insert(data, timeout, ticknow + 1);
    }

    /** del_timer: a timer that is waiting is found and removed, and only it. */
    method DelTimer(h: int) returns (res: int)
      requires Valid()
      modifies this, pool
      ensures Valid() && sys == Spec.Delete(old(sys), h)
      ensures res == if h in old(sys).timers then 0 else -1
    {
      hide Placed, Tied, Bounded, Spec.Orderly;
      Spec.DeleteOrderly(sys, h);
      res := Extract(h, ticknow + 1);
    }

    /** The same, also while the callbacks of a tick run. */
    method Extract(h: int, ghost low: nat) returns (res: int)
      requires Inv(low) && low >= ticknow
      modifies this, pool
      ensures Inv(low) && ticknow == old(ticknow) && sys == Spec.Delete(old(sys), h)
      ensures res == if h in old(sys).timers then 0 else -1
      ensures h !in Spec.DueNow(old(sys)) ==> wheel[0][slotNow[0]] == old(wheel[0][slotNow[0]]) && KeptNow(old(mem), mem, ticknow)
    {
      hide Placed, Tied, Bounded, SlotOf, Digits, Spec.DueNow;
      NowBound(ticknow);
      TiedAt(mem, entryMap, sys, h);
      ShapeOf(wheel, mem, slotNow);
      if h !in entryMap { return -1; }
      var pe := entryMap[h];
      TiedDelete(mem, entryMap, sys, h);
      Elsewhere(mem, entryMap, sys, h, low, ticknow);
      entryMap := entryMap - {h};
      var w, s := WhichSlot(mem[pe].tick);
      InSlot(wheel, mem, slotNow, pe);
      var l := wheel[w][s];
      var k := 0;
      while k < |l| && mem[l[k]].handle != h
        invariant 0 <= k <= |l| && (forall i :: 0 <= i < k ==> l[i] != pe)
        invariant forall i :: 0 <= i < |l| ==> l[i] in mem
      {
        k := k + 1;
      }
      if k == |l| { return -1; }
      RemovePlaced(wheel, mem, slotNow, pe, k);
      wheel := Set(wheel, w, s, l[..k] + l[k + 1..]);
      mem := mem - {pe};
      pool.Release(pe);
      sys := Spec.Delete(sys, h);
      return 0;
    }

    /** The nodes of slot s of wheel w go where the new hands put them. */
    method Cascade(w: nat, s: nat, ghost old_: seq<nat>)
      requires w < 3 && s < CELLS && |slotNow| == 3 && |old_| == 3 && Placed(wheel, mem, old_) && Bounded(mem, 0)
      requires forall x :: x in mem ==> SlotOf(mem[x].tick, slotNow) != (w, s)
      requires forall x :: x in mem && SlotOf(mem[x].tick, old_) != (w, s) ==> SlotOf(mem[x].tick, slotNow) == SlotOf(mem[x].tick, old_)
      modifies this`wheel
      ensures Placed(wheel, mem, slotNow)
    {
      hide Placed;
      CascadeStart(wheel, mem, old_, slotNow, w, s);
      ShapeOf(wheel, mem, old_);
      var l := wheel[w][s];
      var k := 0;
      while k < |l|
        invariant 0 <= k <= |l| && Cascading(wheel, mem, slotNow, w, s, l, k)
      {
        CascadeStep(wheel, mem, slotNow, w, s, l, k);
        assert l[k] in l;
        var tw, ts := WhichSlot(mem[l[k]].tick);
        wheel := Set(wheel, tw, ts, [l[k]] + wheel[tw][ts]);
        k := k + 1;
      }
      CascadeEnd(wheel, mem, slotNow, w, s, l);
      wheel := Set(wheel, w, s, []);
    }

    /** The hands move on by one tick, carrying. */
    method Turn() returns (ghost looked: seq<(nat, nat)>)
      requires ticknow + 1 < MAX_TICK && slotNow == Digits(ticknow) && Placed(wheel, mem, slotNow) && Bounded(mem, ticknow + 1)
      modifies this`ticknow, this`slotNow, this`wheel
      ensures ticknow == old(ticknow) + 1 && slotNow == Digits(ticknow) && Placed(wheel, mem, slotNow)
      ensures looked == Looked(old(ticknow))
    {
      hide Placed, SlotOf;
      looked := [];
      ghost var n, d, e := ticknow, slotNow, Digits(ticknow + 1);
      DigitsNext(n);
      DigitBound(n);
      forall x | x in mem ensures SlotOf(mem[x].tick, d) != TimerSlots.Carried(n) ==> SlotOf(mem[x].tick, e) == SlotOf(mem[x].tick, d)
        ensures TimerSlots.Carried(n).0 > 0 ==> SlotOf(mem[x].tick, e) != TimerSlots.Carried(n)
        ensures TimerSlots.Carried(n).0 == 0 ==> SlotOf(mem[x].tick, d) != TimerSlots.Carried(n)
        ensures NotInExtra(mem[x].tick, d)
      {
        SlotStays(n, mem[x].tick);
        ExtraEmpty(mem[x].tick, d);
      }
      ticknow := ticknow + 1;
      slotNow := slotNow[0 := slotNow[0] + 1];
      var i := 0;
      if d[0] + 1 < 1024 { SamePlaced(wheel, mem, d, e); }
      while i < 2
        invariant 0 <= i <= 2 && |slotNow| == 3 && ticknow == n + 1
        invariant i == 0 ==> slotNow == [d[0] + 1, d[1], d[2]]
        invariant i == 1 ==> slotNow == if d[0] + 1 < 1024 then [d[0] + 1, d[1], d[2]] else [0, d[1] + 1, d[2]]
        invariant i == 2 ==> slotNow == e
        invariant looked == if i == 0 then [] else if i == 1 then Looked(n)[..if d[0] + 1 < 1024 then 0 else 1] else Looked(n)
        invariant (i < 2 && Turning(i, d)) ==> Placed(wheel, mem, d)
        invariant !(i < 2 && Turning(i, d)) ==> Placed(wheel, mem, e)
      {
        if slotNow[i] >= 1024 {
          slotNow := slotNow[i := 0][i + 1 := slotNow[i + 1] + 1];
          var slot := slotNow[i + 1];
          looked := looked + [(i + 1, slot)];
          if i == 0 && slot == 1024 {
            assert slotNow == [0, 1024, d[2]];
            EmptyExtra(slot, d);
          } else {
            assert slotNow == e && (i + 1, slot) == TimerSlots.Carried(n);
            Cascade(i + 1, slot, d);
          }
        }
        i := i + 1;
      }
    }

    /** The carry that reaches past the last slot of wheel 1 finds nothing. */
    method EmptyExtra(slot: nat, ghost d: seq<nat>)
      requires slot == 1024 && |d| == 3 && Placed(wheel, mem, d) && forall x :: x in mem ==> NotInExtra(mem[x].tick, d)
      modifies this`wheel
      ensures Placed(wheel, mem, d)
    {
      hide Placed;
      ShapeOf(wheel, mem, d);
      ExtraCell(wheel, mem, d);
      var p := wheel[1][slot];
      assert wheel[1][slot := []] == wheel[1];
      wheel := Set(wheel, 1, slot, []);
      assert p == [] && wheel == old(wheel);
    }

    /** The callbacks of the current slot run; each may add timers, and delete
        those that are not due now. */
    method RunSlot(react: Spec.React) returns (fired: seq<int>)
      requires Inv(ticknow) && Spec.ReactOk(react, sys, interval)
      modifies this, pool
      ensures Inv(ticknow) && ticknow == old(ticknow) && wheel[0][slotNow[0]] == old(wheel[0][slotNow[0]])
      ensures fired == Handles(old(wheel[0][slotNow[0]]), old(mem))
      ensures sys == Spec.Fire(old(sys), fired, |fired|, react, interval)
      ensures KeptNow(old(mem), mem, ticknow)
    {
      hide Placed, Tied, Bounded, Digits, Spec.Fire, Spec.DoAll, Spec.DueNow, Spec.Enumerates, Spec.ReactOk, Spec.ActOk;
      NowBound(ticknow);
      ShapeOf(wheel, mem, slotNow);
      CurrentLive(wheel, mem, slotNow, slotNow[0]);
      SlotFires(wheel, mem, entryMap, sys, ticknow);
      var head := wheel[0][slotNow[0]];
      ghost var m0, s0 := mem, sys;
      ghost var all := Handles(head, mem);
      FireNone(sys, all, react, interval);
      fired := [];
      var k := 0;
      while k < |head|
        invariant 0 <= k <= |head| && Inv(ticknow) && ticknow == old(ticknow) && Shape(wheel) && wheel[0][slotNow[0]] == head
        invariant fired == all[..k] && sys == Spec.Fire(s0, all, k, react, interval)
        invariant KeptNow(m0, mem, ticknow) && Spec.DueNow(sys) == Spec.DueNow(s0)
      {
        var p := head[k];
        var h := mem[p].handle;
        assert h == all[k];
        fired := fired + [h];
        FireNext(s0, all, k, react, interval);
        EachOk(react, s0, all, k, sys, interval);
        sys := sys.(log := sys.log + [(h, ticknow)]);
        TiedLog(mem, entryMap, sys, [(h, ticknow)]);
        Perform(react(h));
        ShapeOf(wheel, mem, slotNow);
        k := k + 1;
      }
    }

    /** What one callback does. */
    method Perform(acts: seq<Spec.Act>)
      requires Inv(ticknow) && forall a :: a in acts ==> Spec.ActOk(a, sys, interval)
      modifies this, pool
      ensures Inv(ticknow) && ticknow == old(ticknow) && wheel[0][slotNow[0]] == old(wheel[0][slotNow[0]])
      ensures sys == Spec.DoAll(old(sys), acts, interval) && Spec.DueNow(sys) == Spec.DueNow(old(sys))
      ensures KeptNow(old(mem), mem, ticknow)
    {
      hide Placed, Tied, Bounded, Digits, Spec.Do, Spec.DueNow, Spec.ActOk;
      NowBound(ticknow);
      ShapeOf(wheel, mem, slotNow);
      var i := 0;
      ghost var m0, s0 := mem, sys;
      assert acts[..0] == [];
      while i < |acts|
        invariant 0 <= i <= |acts| && Inv(ticknow) && ticknow == old(ticknow)
        invariant Shape(wheel) && wheel[0][slotNow[0]] == old(wheel[0][slotNow[0]])
        invariant sys == Spec.DoAll(s0, acts[..i], interval) && Spec.DueNow(sys) == Spec.DueNow(s0)
        invariant KeptNow(m0, mem, ticknow)
      {
        assert acts[i] in acts;
        assert acts[..i + 1][..i] == acts[..i] && acts[..i + 1][i] == acts[i];
        ActSame(acts[i], s0, sys, interval);
        PerformOne(acts[i]);
        ShapeOf(wheel, mem, slotNow);
        i := i + 1;
      }
      assert acts[..i] == acts;
    }

    method PerformOne(a: Spec.Act)
      requires Inv(ticknow) && Spec.ActOk(a, sys, interval)
      modifies this, pool
      ensures Inv(ticknow) && ticknow == old(ticknow) && wheel[0][slotNow[0]] == old(wheel[0][slotNow[0]])
      ensures sys == Spec.Do(old(sys), a, interval) && Spec.DueNow(sys) == Spec.DueNow(old(sys))
      ensures KeptNow(old(mem), mem, ticknow)
    {
      hide Placed, Tied, Bounded, Digits, Spec.Add, Spec.Delete, Spec.DueNow;
      NowBound(ticknow);
      ShapeOf(wheel, mem, slotNow);
      TiedLast(mem, entryMap, sys);
      Spec.ActDue(sys, a, interval);
      match a {
        case Later(w) =>
          var h := Insert(w.data, w.timeout, ticknow);
        case Cancel(h) =>
          var r := Extract(h, ticknow);
      }
    }

    /** The entries of the current slot are deleted. */
    method DropSlot(ghost fired: seq<int>)
      requires Inv(ticknow) && |slotNow| == 3 && Shape(wheel) && fired == Handles(wheel[0][slotNow[0]], mem)
      modifies this, pool
      ensures Inv(ticknow + 1) && ticknow == old(ticknow)
      ensures sys == old(sys).(timers := old(sys).timers - Spec.SetOf(fired))
    {
      hide Placed, Tied, Spec.SetOf;
      ShapeOf(wheel, mem, slotNow);
      CurrentLive(wheel, mem, slotNow, slotNow[0]);
      var head := wheel[0][slotNow[0]];
      ghost var m0, h0, w0 := mem, entryMap, wheel;
      ghost var s0 := sys;
      DropNone(sys, fired);
      var k := 0;
      while k < |head|
        invariant 0 <= k <= |head| && ticknow == old(ticknow) && slotNow == old(slotNow) && wheel == w0 && handle == old(handle)
        invariant pool.Valid() && pool.Allocated() == mem.Keys && Tied(mem, entryMap, sys)
        invariant mem == m0 - Ids(head[..k])
        invariant sys == s0.(timers := s0.timers - Spec.SetOf(fired[..k]))
      {
        var p := head[k];
        NotYet(head, k, m0);
        var h := mem[p].handle;
        assert h == fired[k];
        TiedAt(mem, entryMap, sys, h);
        TiedDrop(mem, entryMap, sys, h);
        DropNext(s0, fired, k);
        IdsNext(head, k, m0);
        entryMap := entryMap - {h};
        mem := mem - {p};
        pool.Release(p);
        sys := sys.(timers := sys.timers - {h});
        k := k + 1;
      }
      assert head[..k] == head && fired[..k] == fired;
      ClearPlaced(wheel, m0, slotNow, slotNow[0], Ids(head));
      LaterBounded(wheel, m0, ticknow, Ids(head));
      wheel := Set(wheel, 0, slotNow[0], []);
    }

    /** process_tick: exactly the timers due at the new tick fire, each once. */
    method ProcessTick(react: Spec.React) returns (fired: seq<int>)
      requires Valid() && ticknow + 1 < MAX_TICK && Spec.ReactOk(react, Spec.Next(sys), interval)
      modifies this, pool
      ensures Valid() && ticknow == old(ticknow) + 1
      ensures Spec.Enumerates(fired, Spec.DueNow(Spec.Next(old(sys))))
      ensures sys == Spec.Tick(old(sys), fired, react, interval)
    {
      hide Placed, Tied, Spec.Orderly, Spec.Fire, Spec.Enumerates, Spec.DueNow, Spec.SetOf;
      ghost var s0 := sys;
      ghost var _ := Turn();
      sys := sys.(now := ticknow);
      TiedNow(mem, entryMap, s0, ticknow);
      ShapeOf(wheel, mem, slotNow);
      SlotFires(wheel, mem, entryMap, sys, ticknow);
      CurrentLive(wheel, mem, slotNow, slotNow[0]);
      ghost var l, m0 := wheel[0][slotNow[0]], mem;
      fired := RunSlot(react);
      ShapeOf(wheel, mem, slotNow);
      HandlesSame(l, m0, mem);
      DropSlot(fired);
      Spec.TickOrderly(s0, fired, react, interval);
    }

    /** timer_routine: catch up with the clock, except after a long block.  At each
        tick exactly the timers due then fire. */
    method TimerRoutine(tmNow: nat, tmSlap0: nat, react: Spec.React) returns (tmSlap: nat, ticks: nat, ghost orders: seq<seq<int>>)
      requires Valid() && ticknow + Missed(tmNow, tmSlap0, interval) < MAX_TICK
      requires Spec.CallbacksOk(sys, react, interval, Missed(tmNow, tmSlap0, interval))
      modifies this, pool
      ensures Valid() && ticknow == old(ticknow) + ticks && ticks == |orders| == Missed(tmNow, tmSlap0, interval)
      ensures Spec.Follows(old(sys), orders, react, interval) && sys == Spec.Ticks(old(sys), orders, react, interval)
      ensures Spec.Grown(old(sys), sys) && (Spec.AddsOnly(react) ==> sys.dead == old(sys).dead)
      ensures tmNow > tmSlap0 + 60000 ==> ticks == 0 && tmSlap == tmNow
      ensures tmNow <= tmSlap0 + 60000 ==> tmSlap == tmSlap0 + Elapsed(ticks, interval) >= tmNow && (ticks > 0 ==> tmSlap < tmNow + interval)
    {
      hide Placed, Tied, Bounded, Spec.Orderly, Spec.ReactOk, Spec.Tick, Spec.Enumerates, Spec.Grown, Spec.AddsOnly, Elapsed;
      tmSlap, ticks, orders := tmSlap0, 0, [];
      Spec.TicksGrow(sys, orders, react, interval);
      if tmNow > tmSlap + 1000 * 60 {
        tmSlap := tmNow;
        return;
      }
      ElapsedMore(0, interval);
      while tmNow > tmSlap
        invariant Valid() && ticknow == old(ticknow) + ticks && ticks == |orders|
        invariant ticks + TicksTo(tmNow, tmSlap, interval) == TicksTo(tmNow, tmSlap0, interval)
        invariant Spec.CallbacksOk(sys, react, interval, TicksTo(tmNow, tmSlap, interval))
        invariant Spec.Follows(old(sys), orders, react, interval) && sys == Spec.Ticks(old(sys), orders, react, interval)
        invariant tmSlap == tmSlap0 + Elapsed(ticks, interval) >= tmSlap0 + ticks && (ticks > 0 ==> tmSlap < tmNow + interval)
        decreases if tmNow > tmSlap then tmNow - tmSlap else 0
      {
        ElapsedMore(ticks, interval);
        tmSlap := tmSlap + interval;
        var f := ProcessTick(react);
        assert (orders + [f])[..|orders|] == orders;
        orders := orders + [f];
        ticks := ticks + 1;
      }
      Spec.TicksGrow(old(sys), orders, react, interval);
    }
  }

  /** The nodes due at this tick are untouched. */
  ghost predicate KeptNow(mem: map<nat, Entry>, mem': map<nat, Entry>, now: nat) {
    forall id :: id in mem && mem[id].tick == now ==> id in mem' && mem'[id] == mem[id]
  }

  /** Deleting a timer that is not due now does not touch those that are. */
  lemma Elsewhere(mem: map<nat, Entry>, hs: map<int, nat>, sys: Spec.Sys, h: int, low: nat, now: nat)
    requires Tied(mem, hs, sys) && h in hs && Bounded(mem, low) && low >= now == sys.now
    ensures hs[h] in mem && mem[hs[h]].tick < MAX_TICK && Bounded(mem - {hs[h]}, low)
    ensures h !in Spec.DueNow(sys) ==> SlotOf(mem[hs[h]].tick, Digits(now)) != (0, Digits(now)[0]) && KeptNow(mem, mem - {hs[h]}, now)
  {
    CurrentSlot(now, mem[hs[h]].tick);
  }

  lemma TiedLast(mem: map<nat, Entry>, hs: map<int, nat>, sys: Spec.Sys)
    requires Tied(mem, hs, sys)
    ensures forall h :: h in sys.timers ==> h <= sys.last
  {
  }

  lemma ActSame(a: Spec.Act, s: Spec.Sys, t: Spec.Sys, interval: nat)
    requires interval > 0 && Spec.ActOk(a, s, interval) && Spec.DueNow(t) == Spec.DueNow(s) && t.now == s.now
    ensures Spec.ActOk(a, t, interval)
  {
  }

  /** The callback of a timer that fires stays within the rules, whatever those
      before it have done. */
  lemma EachOk(react: Spec.React, s: Spec.Sys, all: seq<int>, k: nat, t: Spec.Sys, interval: nat)
    requires interval > 0 && k < |all| && Spec.ReactOk(react, s, interval) && Spec.Enumerates(all, Spec.DueNow(s))
    requires Spec.DueNow(t) == Spec.DueNow(s) && t.now == s.now
    ensures forall a, l :: a in react(all[k]) ==> Spec.ActOk(a, t.(log := l), interval)
    ensures forall l :: Spec.DueNow(t.(log := l)) == Spec.DueNow(s)
  {
    assert all[k] in Spec.SetOf(all);
    forall a, l | a in react(all[k]) ensures Spec.ActOk(a, t.(log := l), interval) {
      assert Spec.ActOk(a, s, interval);
      assert Spec.DueNow(t.(log := l)) == Spec.DueNow(t);
    }
    forall l ensures Spec.DueNow(t.(log := l)) == Spec.DueNow(s) { assert Spec.DueNow(t.(log := l)) == Spec.DueNow(t); }
  }

  /** The ticks until the clock is no longer ahead. */
  function TicksTo(tmNow: nat, tmSlap: nat, interval: nat): nat
    requires interval > 0
    decreases if tmNow > tmSlap then tmNow - tmSlap else 0
  {
    if tmNow > tmSlap then 1 + TicksTo(tmNow, tmSlap + interval, interval) else 0
  }

  /** The ticks to catch up with: none after a block of more than a minute. */
  function Missed(tmNow: nat, tmSlap: nat, interval: nat): nat
    requires interval > 0
  {
    if tmNow > tmSlap + 60000 then 0 else TicksTo(tmNow, tmSlap, interval)
  }

  /** The time that a number of ticks takes. */
  function Elapsed(ticks: nat, interval: nat): nat {
    ticks * interval
  }

  lemma ElapsedMore(ticks: nat, interval: nat)
    requires interval > 0
    ensures Elapsed(0, interval) == 0 && Elapsed(ticks + 1, interval) == Elapsed(ticks, interval) + interval
  {
  }

  function Handles(l: seq<nat>, mem: map<nat, Entry>): seq<int> {
    seq(|l|, i requires 0 <= i < |l| => if l[i] in mem then mem[l[i]].handle else 0)
  }

  lemma HandlesSame(l: seq<nat>, m: map<nat, Entry>, m': map<nat, Entry>)
    requires forall i :: 0 <= i < |l| ==> l[i] in m && l[i] in m' && m'[l[i]] == m[l[i]]
    ensures Handles(l, m') == Handles(l, m)
  {
  }

  function Ids(l: seq<nat>): set<nat> {
    set x | x in l
  }

  lemma CurrentLive(w: Wheels, mem: map<nat, Entry>, now: seq<nat>, s: nat)
    requires |now| == 3 && Placed(w, mem, now) && s < CELLS
    ensures |w| == 3 && |w[0]| == CELLS && Distinct(w[0][s]) && forall x :: x in w[0][s] ==> x in mem
    ensures forall i :: 0 <= i < |w[0][s]| ==> w[0][s][i] in mem
  {
    assert SlotHolds(w[0][s], mem, now, 0, s);
  }

  lemma FireNone(s: Spec.Sys, all: seq<int>, react: Spec.React, interval: nat)
    requires interval > 0
    ensures Spec.Fire(s, all, 0, react, interval) == s
  {
  }

  lemma FireNext(s: Spec.Sys, all: seq<int>, k: nat, react: Spec.React, interval: nat)
    requires interval > 0 && k < |all|
    ensures var t := Spec.Fire(s, all, k, react, interval);
            Spec.Fire(s, all, k + 1, react, interval) == Spec.DoAll(t.(log := t.log + [(all[k], t.now)]), react(all[k]), interval)
  {
  }

  lemma TiedLog(mem: map<nat, Entry>, hs: map<int, nat>, sys: Spec.Sys, l: seq<(int, nat)>)
    ensures forall t: Spec.Sys :: Tied(mem, hs, t) && sys.timers == t.timers && sys.last == t.last ==> Tied(mem, hs, sys)
  {
  }

  lemma TiedNow(mem: map<nat, Entry>, hs: map<int, nat>, sys: Spec.Sys, now: nat)
    requires Tied(mem, hs, sys)
    ensures Tied(mem, hs, sys.(now := now))
  {
  }

  lemma TiedDrop(mem: map<nat, Entry>, hs: map<int, nat>, sys: Spec.Sys, h: int)
    requires Tied(mem, hs, sys) && h in hs
    ensures Tied(mem - {hs[h]}, hs - {h}, sys.(timers := sys.timers - {h}))
  {
  }

  lemma DropNone(s: Spec.Sys, fired: seq<int>)
    ensures s.(timers := s.timers - Spec.SetOf(fired[..0])) == s
  {
    assert s.timers - Spec.SetOf(fired[..0]) == s.timers;
  }

  lemma DropNext(s: Spec.Sys, fired: seq<int>, k: nat)
    requires k < |fired|
    ensures s.timers - Spec.SetOf(fired[..k]) - {fired[k]} == s.timers - Spec.SetOf(fired[..k + 1])
  {
    assert fired[..k + 1] == fired[..k] + [fired[k]];
  }

  lemma IdsNext(l: seq<nat>, k: nat, mem: map<nat, Entry>)
    requires k < |l|
    ensures mem - Ids(l[..k]) - {l[k]} == mem - Ids(l[..k + 1])
  {
    assert l[..k + 1] == l[..k] + [l[k]];
  }

  lemma NotYet(l: seq<nat>, k: nat, mem: map<nat, Entry>)
    requires k < |l| && Distinct(l) && l[k] in mem
    ensures l[k] in mem - Ids(l[..k])
  {
  }

  lemma LaterBounded(w: Wheels, mem: map<nat, Entry>, now: nat, ids: set<nat>)
    requires Placed(w, mem, Digits(now)) && Bounded(mem, now) && ids == Ids(w[0][Digits(now)[0]])
    ensures Bounded(mem - ids, now + 1)
  {
    var s := Digits(now)[0];
    assert SlotHolds(w[0][s], mem, Digits(now), 0, s);
    forall x | x in mem - ids ensures mem[x].tick >= now + 1 { CurrentSlot(now, mem[x].tick); }
  }

  /** The current slot holds exactly the timers due now. */
  lemma SlotFires(w: Wheels, mem: map<nat, Entry>, hs: map<int, nat>, sys: Spec.Sys, now: nat)
    requires Placed(w, mem, Digits(now)) && Bounded(mem, now) && Tied(mem, hs, sys) && sys.now == now
    ensures Spec.Enumerates(Handles(w[0][Digits(now)[0]], mem), Spec.DueNow(sys))
    ensures var l := w[0][Digits(now)[0]]; forall i :: 0 <= i < |l| ==> l[i] in mem && mem[l[i]].tick == now
  {
    var s := Digits(now)[0];
    var l := w[0][s];
    assert SlotHolds(l, mem, Digits(now), 0, s);
    var f := Handles(l, mem);
    forall i | 0 <= i < |l| ensures l[i] in mem && mem[l[i]].tick == now && f[i] in Spec.DueNow(sys) {
      assert l[i] in l;
      CurrentSlot(now, mem[l[i]].tick);
    }
    forall h | h in Spec.DueNow(sys) ensures h in f {
      CurrentSlot(now, mem[hs[h]].tick);
      assert hs[h] in l;
      var i :| 0 <= i < |l| && l[i] == hs[h];
      assert f[i] == h;
    }
    forall i, j | 0 <= i < j < |f| ensures f[i] != f[j] { assert l[i] != l[j]; }
  }

  /** Is a carry still to come before hand i is looked at? */
  ghost predicate Turning(i: nat, d: seq<nat>)
    requires |d| == 3
  {
    d[0] + 1 >= 1024 && (i == 0 || d[1] + 1 >= 1024)
  }

  ghost predicate NotInExtra(t: nat, d: seq<nat>)
    requires |d| == 3
  {
    SlotOf(t, d) != (1, 1024)
  }

  lemma ExtraEmpty(t: nat, d: seq<nat>)
    requires |d| == 3 && t < MAX_TICK
    ensures NotInExtra(t, d)
  {
    SlotBound(t, d);
  }

  lemma ExtraCell(w: Wheels, mem: map<nat, Entry>, d: seq<nat>)
    requires |d| == 3 && Placed(w, mem, d) && forall x :: x in mem ==> NotInExtra(mem[x].tick, d)
    ensures |w| == 3 && |w[1]| == CELLS && w[1][1024] == []
  {
    assert SlotHolds(w[1][1024], mem, d, 1, 1024);
    HeadIn(w[1][1024]);
  }

  lemma HeadIn(l: seq<nat>)
    ensures l == [] || l[0] in l
  {
  }

  lemma DigitBound(n: nat)
    ensures Digits(n)[0] < 1024 && Digits(n)[1] < 1024 && (n + 1 < MAX_TICK ==> Digits(n + 1)[2] < 1024)
  {
  }

  lemma SamePlaced(w: Wheels, mem: map<nat, Entry>, d: seq<nat>, e: seq<nat>)
    requires |d| == 3 && |e| == 3 && Placed(w, mem, d) && forall x :: x in mem ==> SlotOf(mem[x].tick, e) == SlotOf(mem[x].tick, d)
    ensures Placed(w, mem, e)
  {
    forall i: nat, j: nat | i < 3 && j < CELLS ensures SlotHolds(w[i][j], mem, e, i, j) {
      assert SlotHolds(w[i][j], mem, d, i, j);
    }
  }

  lemma ShapeOf(w: Wheels, mem: map<nat, Entry>, now: seq<nat>)
    requires |now| == 3 && Placed(w, mem, now)
    ensures |w| == 3 && forall i :: 0 <= i < 3 ==> |w[i]| == CELLS
  {
  }

  lemma InSlot(w: Wheels, mem: map<nat, Entry>, now: seq<nat>, id: nat)
    requires |now| == 3 && Placed(w, mem, now) && id in mem && mem[id].tick < MAX_TICK
    ensures var p := SlotOf(mem[id].tick, now); p.0 < 3 && p.1 < CELLS && id in w[p.0][p.1] && forall x :: x in w[p.0][p.1] ==> x in mem
  {
    SlotBound(mem[id].tick, now);
    var p := SlotOf(mem[id].tick, now);
    assert SlotHolds(w[p.0][p.1], mem, now, p.0, p.1);
  }
}
