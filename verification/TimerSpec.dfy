/** Timers as a set of due ticks, with the history of a run. */
module TimerSpec {
  import TimerSlots

  datatype Timer = Timer(due: nat, data: nat)

  /** A new timer that is asked for. */
  datatype Wish = Wish(data: nat, timeout: nat)

  /** What a callback does. */
  datatype Act = Later(wish: Wish) | Cancel(handle: int)

  /** Callbacks are told apart by the handle, which is never used twice, so any
      behaviour is a function of it. */
  type React = int -> seq<Act>

  /** born: the due tick each handle was given.  dead: the deleted ones.  log:
      which handle fired at which tick. */
  datatype Sys = Sys(now: nat, last: nat, timers: map<int, Timer>, born: map<int, nat>, dead: set<int>, log: seq<(int, nat)>)

  const Start := Sys(0, 0, map[], map[], {}, [])

  /** A timeout is rounded down to ticks, but at least one. */
  function DueTick(now: nat, timeout: nat, interval: nat): (d: nat)
    requires interval > 0
    ensures d > now
    ensures d == now + 1 || (timeout > interval && d == now + timeout / interval)
  {
    if timeout > interval then now + timeout / interval else now + 1
  }

  /** The due tick is now plus the timeout in ticks, at least one. */
  lemma DueTickIs(now: nat, timeout: nat, interval: nat)
    requires interval > 0
    ensures DueTick(now, timeout, interval) == now + (if timeout / interval >= 1 then timeout / interval else 1)
  {
    if timeout > interval {
      assert timeout / interval >= 1;
    } else if timeout < interval {
      assert timeout / interval == 0;
    }
  }

  function Add(s: Sys, w: Wish, interval: nat): Sys
    requires interval > 0
  {
    var h := s.last + 1;
    var due := DueTick(s.now, w.timeout, interval);
    s.(last := h, timers := s.timers[h := Timer(due, w.data)], born := s.born[h := due])
  }

  function Delete(s: Sys, h: int): Sys {
    if h in s.timers then s.(timers := s.timers - {h}, dead := s.dead + {h}) else s
  }

  function Do(s: Sys, a: Act, interval: nat): Sys
    requires interval > 0
  {
    match a
    case Later(w) => Add(s, w, interval)
    case Cancel(h) => Delete(s, h)
  }

  function DoAll(s: Sys, acts: seq<Act>, interval: nat): Sys
    requires interval > 0
  {
    if acts == [] then s else Do(DoAll(s, acts[..|acts| - 1], interval), acts[|acts| - 1], interval)
  }

  function DueNow(s: Sys): set<int> {
    set h | h in s.timers && s.timers[h].due == s.now
  }

  /** The callbacks of the first k handles have run. */
  function Fire(s: Sys, fired: seq<int>, k: nat, react: React, interval: nat): Sys
    requires interval > 0 && k <= |fired|
  {
    if k == 0 then s
    else
      var t := Fire(s, fired, k - 1, react, interval);
      DoAll(t.(log := t.log + [(fired[k - 1], t.now)]), react(fired[k - 1]), interval)
  }

  function SetOf(f: seq<int>): set<int> {
    set h | h in f
  }

  function Next(s: Sys): Sys {
    s.(now := s.now + 1)
  }

  /** One tick: all timers due now fire, in some order, and are gone. */
  function Tick(s: Sys, fired: seq<int>, react: React, interval: nat): Sys
    requires interval > 0
  {
    var t := Fire(Next(s), fired, |fired|, react, interval);
    t.(timers := t.timers - SetOf(fired))
  }

  ghost predicate Distinct(f: seq<int>) {
    forall i, j :: 0 <= i < j < |f| ==> f[i] != f[j]
  }

  ghost predicate Enumerates(f: seq<int>, hs: set<int>) {
    Distinct(f) && SetOf(f) == hs
  }

  /** No callback cancels a timer that is due at the same tick, or asks for one
      past the range of the wheels. */
  ghost predicate ActOk(a: Act, s: Sys, interval: nat)
    requires interval > 0
  {
    match a
    case Later(w) => DueTick(s.now, w.timeout, interval) < TimerSlots.MAX_TICK
    case Cancel(h) => h !in DueNow(s)
  }

  ghost predicate ReactOk(react: React, s: Sys, interval: nat)
    requires interval > 0
  {
    forall h, a :: h in DueNow(s) && a in react(h) ==> ActOk(a, s, interval)
  }

  // ----------------------------------------------------------- many ticks

  /** A tick after another, with the order of firing at each. */
  function Ticks(s: Sys, orders: seq<seq<int>>, react: React, interval: nat): Sys
    requires interval > 0
  {
    if orders == [] then s else Tick(Ticks(s, orders[..|orders| - 1], react, interval), orders[|orders| - 1], react, interval)
  }

  /** At each tick, exactly the timers due then fire, once each. */
  ghost predicate Follows(s: Sys, orders: seq<seq<int>>, react: React, interval: nat)
    requires interval > 0
  {
    orders != [] ==>
      var before := orders[..|orders| - 1];
      Follows(s, before, react, interval) && Enumerates(orders[|orders| - 1], DueNow(Next(Ticks(s, before, react, interval))))
  }

  /** For the next k ticks callbacks stay within the rules, in whatever order
      timers due together fire. */
  ghost predicate CallbacksOk(s: Sys, react: React, interval: nat, k: nat)
    requires interval > 0
    decreases k
  {
    k > 0 ==>
      && ReactOk(react, Next(s), interval)
      && forall f :: Enumerates(f, DueNow(Next(s))) ==> CallbacksOk(Tick(s, f, react, interval), react, interval, k - 1)
  }

  ghost predicate Adds(acts: seq<Act>) {
    forall a :: a in acts ==> a.Later?
  }

  ghost predicate AddsAt(react: React, h: int) {
    Adds(react(h))
  }

  ghost predicate AddsOnly(react: React) {
    forall h :: AddsAt(react, h)
  }

  /** Timeouts that are in range at every one of the next k ticks. */
  ghost predicate TimeoutsFit(react: React, now: nat, interval: nat, k: nat)
    requires interval > 0
  {
    forall h, a :: a in react(h) && a.Later? ==> DueTick(now + k, a.wish.timeout, interval) < TimerSlots.MAX_TICK
  }

  /** Callbacks that only add timers stay within the rules. */
  lemma {:induction false} AddsOnlyOk(s: Sys, react: React, interval: nat, k: nat)
    requires interval > 0 && AddsOnly(react) && TimeoutsFit(react, s.now, interval, k)
    ensures CallbacksOk(s, react, interval, k)
    decreases k
  {
    if k > 0 {
      forall h, a | h in DueNow(Next(s)) && a in react(h) ensures ActOk(a, Next(s), interval) {
        assert AddsAt(react, h);
        assert DueTick(s.now + 1, a.wish.timeout, interval) <= DueTick(s.now + k, a.wish.timeout, interval);
      }
      forall f | Enumerates(f, DueNow(Next(s))) ensures CallbacksOk(Tick(s, f, react, interval), react, interval, k - 1) {
        FireGrows(Next(s), f, |f|, react, interval);
        AddsOnlyOk(Tick(s, f, react, interval), react, interval, k - 1);
      }
    }
  }

  /** What a run never takes back: due ticks given, deletions, the log. */
  ghost predicate Grown(s: Sys, t: Sys) {
    && s.last <= t.last && s.log <= t.log && s.dead <= t.dead
    && (forall h :: h in s.born && h <= s.last ==> h in t.born && t.born[h] == s.born[h])
  }

  lemma {:induction false} DoAllGrows(s: Sys, acts: seq<Act>, interval: nat)
    requires interval > 0
    ensures var t := DoAll(s, acts, interval);
            && Grown(s, t) && t.now == s.now && t.log == s.log
            && (Adds(acts) ==> t.dead == s.dead)
  {
    if acts != [] { DoAllGrows(s, acts[..|acts| - 1], interval); }
  }

  lemma {:induction false} FireGrows(s: Sys, fired: seq<int>, k: nat, react: React, interval: nat)
    requires interval > 0 && k <= |fired|
    ensures var t := Fire(s, fired, k, react, interval);
            Grown(s, t) && t.now == s.now && (AddsOnly(react) ==> t.dead == s.dead)
  {
    if k > 0 {
      FireGrows(s, fired, k - 1, react, interval);
      var t, acts := Fire(s, fired, k - 1, react, interval), react(fired[k - 1]);
      DoAllGrows(t.(log := t.log + [(fired[k - 1], t.now)]), acts, interval);
      assert AddsOnly(react) ==> AddsAt(react, fired[k - 1]);
    }
  }

  lemma {:induction false} TicksGrow(s: Sys, orders: seq<seq<int>>, react: React, interval: nat)
    requires interval > 0
    ensures var t := Ticks(s, orders, react, interval);
            Grown(s, t) && t.now == s.now + |orders| && (AddsOnly(react) ==> t.dead == s.dead)
  {
    if orders != [] {
      var before, f := orders[..|orders| - 1], orders[|orders| - 1];
      TicksGrow(s, before, react, interval);
      FireGrows(Next(Ticks(s, before, react, interval)), f, |f|, react, interval);
    }
  }

  // ------------------------------------------------------------ histories

  /** A handle's history is in order: it is waiting with its due tick ahead, or
      was deleted, or fired at exactly its due tick. */
  ghost predicate Pending(s: Sys, low: nat) {
    forall h :: h in s.timers ==> h in s.born && s.timers[h].due == s.born[h] >= low && h !in s.dead
  }

  ghost predicate Logged(s: Sys) {
    forall i :: 0 <= i < |s.log| ==> s.log[i].0 in s.born && s.log[i].1 == s.born[s.log[i].0] <= s.now && s.log[i].0 !in s.dead
  }

  ghost predicate LoggedOnce(s: Sys) {
    forall i, j :: 0 <= i < j < |s.log| ==> s.log[i].0 != s.log[j].0
  }

  ghost predicate Fired(s: Sys, h: int) {
    exists i :: 0 <= i < |s.log| && s.log[i].0 == h
  }

  ghost predicate Accounted(s: Sys) {
    && (forall h :: h in s.born ==> h in s.timers || h in s.dead || Fired(s, h))
    && (forall h :: h in s.dead ==> h in s.born)
    && (forall h :: h in s.born ==> 0 < h <= s.last)
  }

  ghost predicate Exclusive(s: Sys) {
    forall h :: h in s.timers ==> !Fired(s, h)
  }

  /** What holds after every operation of a run. */
  ghost predicate Orderly(s: Sys) {
    Pending(s, s.now + 1) && Logged(s) && LoggedOnce(s) && Accounted(s) && Exclusive(s)
  }

  /** The promise: a timer that was not deleted has fired exactly once, at its
      due tick, if that is not in the future, and not at all otherwise. */
  lemma FiresExactlyOnce(s: Sys, h: int)
    requires Orderly(s) && h in s.born && h !in s.dead
    ensures s.born[h] <= s.now <==> exists i :: 0 <= i < |s.log| && s.log[i] == (h, s.born[h])
    ensures forall i, j :: 0 <= i < |s.log| && 0 <= j < |s.log| && s.log[i].0 == h && s.log[j].0 == h ==> i == j
    ensures forall i :: 0 <= i < |s.log| && s.log[i].0 == h ==> s.log[i].1 == s.born[h]
  {
    if s.born[h] <= s.now {
      assert Fired(s, h);
      var i :| 0 <= i < |s.log| && s.log[i].0 == h;
      assert s.log[i] == (h, s.born[h]);
    }
  }

  /** Over any number of ticks: a timer known at the start and not deleted since
      has fired at its due tick exactly if that has come. */
  lemma FiresOnTime(s: Sys, orders: seq<seq<int>>, react: React, interval: nat, h: int)
    requires interval > 0 && Orderly(s) && h in s.born
    requires Follows(s, orders, react, interval) && CallbacksOk(s, react, interval, |orders|)
    ensures var t := Ticks(s, orders, react, interval);
            h !in t.dead ==> (s.born[h] <= s.now + |orders| <==> exists i :: 0 <= i < |t.log| && t.log[i] == (h, s.born[h]))
  {
    TicksGrow(s, orders, react, interval);
    TicksOrderly(s, orders, react, interval, 0);
    var t := Ticks(s, orders, react, interval);
    if h !in t.dead { FiresExactlyOnce(t, h); }
  }

  /** A new timer has a handle of its own, waits until now plus its timeout, and
      nothing else changes. */
  lemma AddMeans(s: Sys, w: Wish, interval: nat)
    requires interval > 0 && Orderly(s)
    ensures var t := Add(s, w, interval); var ticks := if w.timeout / interval >= 1 then w.timeout / interval else 1;
            && t.last !in s.born && t.last !in s.timers
            && t.timers == s.timers[t.last := Timer(s.now + ticks, w.data)] && t.born == s.born[t.last := s.now + ticks]
            && t.now == s.now && t.dead == s.dead && t.log == s.log
  {
    DueTickIs(s.now, w.timeout, interval);
  }

  /** A deleted timer waits no longer and never fires. */
  lemma DeleteMeans(s: Sys, h: int)
    ensures var t := Delete(s, h);
            && t.timers == s.timers - {h} && t.dead == (if h in s.timers then s.dead + {h} else s.dead)
            && t.now == s.now && t.born == s.born && t.log == s.log && t.last == s.last
  {
  }

  lemma DeletedNeverFires(s: Sys, orders: seq<seq<int>>, react: React, interval: nat, h: int)
    requires interval > 0 && Orderly(s) && h in s.dead
    requires Follows(s, orders, react, interval) && CallbacksOk(s, react, interval, |orders|)
    ensures !Fired(s, h) && !Fired(Ticks(s, orders, react, interval), h)
  {
    TicksGrow(s, orders, react, interval);
    TicksOrderly(s, orders, react, interval, 0);
  }

  lemma StartOrderly()
    ensures Orderly(Start)
  {
  }

  lemma AddOrderly(s: Sys, w: Wish, interval: nat)
    requires interval > 0 && Orderly(s)
    ensures Orderly(Add(s, w, interval))
  {
    AddMid(s, w, interval, s.now + 1);
  }

  lemma DeleteOrderly(s: Sys, h: int)
    requires Orderly(s)
    ensures Orderly(Delete(s, h))
  {
    DeleteMid(s, h, s.now + 1);
  }

  /** While callbacks run, the timers of this tick are still in the set. */
  ghost predicate Midway(s: Sys, gone: set<int>) {
    && Pending(s, s.now) && Logged(s) && LoggedOnce(s) && Accounted(s)
    && (forall h :: h in s.timers && h !in gone ==> !Fired(s, h))
    && (forall h :: h in gone ==> Fired(s, h))
  }

  lemma AddMid(s: Sys, w: Wish, interval: nat, low: nat)
    requires interval > 0 && Pending(s, low) && low <= s.now + 1 && Logged(s) && LoggedOnce(s) && Accounted(s)
    ensures var t := Add(s, w, interval);
            && Pending(t, low) && Logged(t) && LoggedOnce(t) && Accounted(t)
            && (forall h :: Fired(t, h) <==> Fired(s, h)) && !Fired(t, t.last) && t.last !in s.timers
            && t.timers.Keys == s.timers.Keys + {t.last} && t.timers[t.last].due > s.now && t.now == s.now
            && (forall h :: h in s.timers ==> t.timers[h] == s.timers[h])
  {
    var t := Add(s, w, interval);
    forall h ensures Fired(t, h) <==> Fired(s, h) { assert t.log == s.log; }
    forall i | 0 <= i < |t.log| ensures t.log[i].0 != t.last { assert s.log[i].0 in s.born; }
  }

  lemma DeleteMid(s: Sys, h: int, low: nat)
    requires Pending(s, low) && Logged(s) && LoggedOnce(s) && Accounted(s) && (h in s.timers ==> !Fired(s, h))
    ensures var t := Delete(s, h);
            && Pending(t, low) && Logged(t) && LoggedOnce(t) && Accounted(t)
            && (forall g :: Fired(t, g) <==> Fired(s, g))
  {
    var t := Delete(s, h);
    forall g ensures Fired(t, g) <==> Fired(s, g) { assert t.log == s.log; }
    if h in s.timers {
      forall i | 0 <= i < |t.log| ensures t.log[i].0 != h { assert !Fired(s, h); }
    }
  }

  /** What one callback does leaves the timers of this tick alone. */
  lemma DoMid(s: Sys, a: Act, interval: nat, gone: set<int>)
    requires interval > 0 && Midway(s, gone) && gone <= DueNow(s) && ActOk(a, s, interval)
    ensures var t := Do(s, a, interval);
            Midway(t, gone) && t.now == s.now && DueNow(t) == DueNow(s)
  {
    var t := Do(s, a, interval);
    match a {
      case Later(w) =>
        AddMid(s, w, interval, s.now);
        forall h | h in t.timers && h !in gone ensures !Fired(t, h) { assert h in s.timers || h == t.last; }
        assert DueNow(t) == DueNow(s);
      case Cancel(h) =>
        DeleteMid(s, h, s.now);
        assert DueNow(t) == DueNow(s);
    }
  }

  lemma ActDue(s: Sys, a: Act, interval: nat)
    requires interval > 0 && ActOk(a, s, interval) && (forall h :: h in s.timers ==> h <= s.last)
    ensures DueNow(Do(s, a, interval)) == DueNow(s)
  {
  }

  lemma {:induction false} DoAllMid(s: Sys, acts: seq<Act>, interval: nat, gone: set<int>)
    requires interval > 0 && Midway(s, gone) && gone <= DueNow(s) && forall a :: a in acts ==> ActOk(a, s, interval)
    ensures var t := DoAll(s, acts, interval);
            Midway(t, gone) && t.now == s.now && DueNow(t) == DueNow(s)
  {
    if acts != [] {
      DoAllMid(s, acts[..|acts| - 1], interval, gone);
      assert acts[|acts| - 1] in acts;
      DoMid(DoAll(s, acts[..|acts| - 1], interval), acts[|acts| - 1], interval, gone);
    }
  }

  lemma LogOneMid(s: Sys, gone: set<int>, h: int)
    requires Midway(s, gone) && h in DueNow(s) && h !in gone
    ensures Midway(s.(log := s.log + [(h, s.now)]), gone + {h}) && DueNow(s.(log := s.log + [(h, s.now)])) == DueNow(s)
  {
    var t := s.(log := s.log + [(h, s.now)]);
    assert t.log[|s.log|].0 == h;
    forall g ensures Fired(t, g) <==> Fired(s, g) || g == h { FiredMore(s, h, g); }
    forall i, j | 0 <= i < j < |t.log| ensures t.log[i].0 != t.log[j].0 {
      if j == |s.log| { assert !Fired(s, h); }
    }
  }

  lemma FiredMore(s: Sys, h: int, g: int)
    ensures Fired(s.(log := s.log + [(h, s.now)]), g) <==> Fired(s, g) || g == h
  {
    var t := s.(log := s.log + [(h, s.now)]);
    if Fired(s, g) { var i :| 0 <= i < |s.log| && s.log[i].0 == g; assert t.log[i].0 == g; }
    if g == h { assert t.log[|s.log|].0 == g; }
  }

  lemma {:induction false} FireMid(s: Sys, fired: seq<int>, k: nat, react: React, interval: nat)
    requires interval > 0 && k <= |fired| && Midway(s, {}) && Enumerates(fired, DueNow(s)) && ReactOk(react, s, interval)
    ensures var t := Fire(s, fired, k, react, interval);
            Midway(t, SetOf(fired[..k])) && t.now == s.now && DueNow(t) == DueNow(s)
  {
    hide Midway, DoAll;
    if k == 0 {
      assert SetOf(fired[..0]) == {};
    } else {
      var u, h := Fire(s, fired, k - 1, react, interval), fired[k - 1];
      FireMid(s, fired, k - 1, react, interval);
      assert h in SetOf(fired);
      assert h !in SetOf(fired[..k - 1]);
      LogOneMid(u, SetOf(fired[..k - 1]), h);
      assert SetOf(fired[..k]) == SetOf(fired[..k - 1]) + {h} && SetOf(fired[..k]) <= SetOf(fired);
      var v := u.(log := u.log + [(h, u.now)]);
      forall a | a in react(h) ensures ActOk(a, v, interval) { assert ActOk(a, s, interval); }
      DoAllMid(v, react(h), interval, SetOf(fired[..k]));
    }
  }

  /** A tick keeps every history in order. */
  lemma TickOrderly(s: Sys, fired: seq<int>, react: React, interval: nat)
    requires interval > 0 && Orderly(s) && Enumerates(fired, DueNow(Next(s))) && ReactOk(react, Next(s), interval)
    ensures Orderly(Tick(s, fired, react, interval)) && Tick(s, fired, react, interval).now == s.now + 1
  {
    var s1 := Next(s);
    forall h ensures Fired(s1, h) <==> Fired(s, h) { assert s1.log == s.log; }
    assert Midway(s1, {});
    FireMid(s1, fired, |fired|, react, interval);
    assert fired[..|fired|] == fired;
    var t := Fire(s1, fired, |fired|, react, interval);
    var u := Tick(s, fired, react, interval);
    forall h ensures Fired(u, h) <==> Fired(t, h) { assert u.log == t.log; }
    forall h | h in u.timers ensures u.timers[h].due >= u.now + 1 { assert h !in DueNow(t); }
  }

  /** So do many ticks; and callbacks that stay within the rules for longer still do
      so afterwards. */
  lemma {:induction false} TicksOrderly(s: Sys, orders: seq<seq<int>>, react: React, interval: nat, k: nat)
    requires interval > 0 && Orderly(s) && Follows(s, orders, react, interval) && CallbacksOk(s, react, interval, |orders| + k)
    ensures var t := Ticks(s, orders, react, interval); Orderly(t) && CallbacksOk(t, react, interval, k)
  {
    hide Orderly, Tick, ReactOk, Enumerates, DueNow;
    if orders != [] {
      var before, f := orders[..|orders| - 1], orders[|orders| - 1];
      TicksOrderly(s, before, react, interval, k + 1);
      TickOrderly(Ticks(s, before, react, interval), f, react, interval);
    }
  }

  // ------------------------------------------- deleting what is due as well

  /** No callback of this tick cancels a timer of this tick. */
  ghost predicate Spares(react: React, due: set<int>) {
    forall h, g :: h in due && Cancel(g) in react(h) ==> g !in due
  }

  /** An old timer is there after the actions exactly if it was and none cancels it. */
  lemma {:induction false} DoAllLeaves(s: Sys, acts: seq<Act>, interval: nat, h: int)
    requires interval > 0 && h <= s.last
    ensures var t := DoAll(s, acts, interval);
            h <= t.last && (h in t.timers <==> h in s.timers && Cancel(h) !in acts)
  {
    if acts != [] {
      DoAllLeaves(s, acts[..|acts| - 1], interval, h);
      assert Cancel(h) in acts <==> Cancel(h) in acts[..|acts| - 1] || acts[|acts| - 1] == Cancel(h);
    }
  }

  lemma {:induction false} FireLeaves(s: Sys, fired: seq<int>, k: nat, react: React, interval: nat, h: int)
    requires interval > 0 && k <= |fired| && h <= s.last
    ensures var t := Fire(s, fired, k, react, interval);
            h <= t.last && (h in t.timers <==> h in s.timers && forall i :: 0 <= i < k ==> Cancel(h) !in react(fired[i]))
  {
    if k > 0 {
      FireLeaves(s, fired, k - 1, react, interval, h);
      var t := Fire(s, fired, k - 1, react, interval);
      DoAllLeaves(t.(log := t.log + [(fired[k - 1], t.now)]), react(fired[k - 1]), interval, h);
    }
  }

  /** When the callbacks have run, every entry of the slot is still there to be
      freed exactly if none of them deleted one. */
  lemma SparedExactly(s: Sys, fired: seq<int>, react: React, interval: nat)
    requires interval > 0 && Enumerates(fired, DueNow(s)) && forall h :: h in s.timers ==> h <= s.last
    ensures (forall g :: g in DueNow(s) ==> g in Fire(s, fired, |fired|, react, interval).timers) <==> Spares(react, DueNow(s))
  {
    hide Fire;
    var t, due := Fire(s, fired, |fired|, react, interval), DueNow(s);
    forall g | g in due ensures g in t.timers <==> forall h :: h in due ==> Cancel(g) !in react(h) {
      FireLeaves(s, fired, |fired|, react, interval, g);
      forall h | h in due ensures exists i :: 0 <= i < |fired| && fired[i] == h { assert h in SetOf(fired); }
      forall i | 0 <= i < |fired| ensures fired[i] in due { assert fired[i] in SetOf(fired); }
    }
  }

  /** Two timers due together, and the callback of the first deletes the second:
      its entry is gone before the slot is freed. */
  lemma DeletedTooEarly(react: React, interval: nat)
    requires interval > 0 && react(1) == [Cancel(2)] && react(2) == []
    ensures var s := Next(Add(Add(Start, Wish(0, 0), interval), Wish(0, 0), interval));
            Enumerates([1, 2], DueNow(s)) && 2 !in Fire(s, [1, 2], 2, react, interval).timers
  {
    var s := Next(Add(Add(Start, Wish(0, 0), interval), Wish(0, 0), interval));
    assert s.timers == map[1 := Timer(1, 0), 2 := Timer(1, 0)];
    assert DueNow(s) == {1, 2} && SetOf([1, 2]) == {1, 2};
    assert Cancel(2) in react([1, 2][0]);
    FireLeaves(s, [1, 2], 2, react, interval, 2);
  }
}
