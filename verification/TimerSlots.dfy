/** Which wheel and slot a timer belongs to. */
module TimerSlots {

  const MAX_TICK: nat := 1024 * 1024 * 1024

  /** The digits of a tick, lowest first. */
  function Digits(t: nat): (d: seq<nat>)
    ensures |d| == 3
  {
    [t % 1024, (t / 1024) % 1024, t / 1048576]
  }

  /** which_slot: the highest wheel whose digit is still to come, or wheel 0. */
  function SlotOf(t: nat, now: seq<nat>): (nat, nat)
    requires |now| == 3
  {
    var d := Digits(t);
    if d[2] > now[2] then (2, d[2])
    else if d[1] > now[1] then (1, d[1])
    else (0, d[0])
  }

  /** The hands after the last one that turned over was carried: slot_now_ when
      the tick is n. */
  lemma DigitsNext(n: nat)
    ensures var d := Digits(n); var e := Digits(n + 1);
            if d[0] + 1 < 1024 then e == [d[0] + 1, d[1], d[2]]
            else if d[1] + 1 < 1024 then e == [0, d[1] + 1, d[2]]
            else e == [0, 0, d[2] + 1]
  {
    var q := n / 1024;
    assert n == 1024 * q + n % 1024;
    if n % 1024 + 1 < 1024 {
      assert (n + 1) / 1024 == q && (n + 1) % 1024 == n % 1024 + 1;
    } else {
      assert (n + 1) / 1024 == q + 1 && (n + 1) % 1024 == 0;
    }
    Split(n);
    Split(n + 1);
  }

  /** The digits as a number. */
  lemma Split(n: nat)
    ensures n / 1048576 == (n / 1024) / 1024
    ensures n == n % 1024 + 1024 * ((n / 1024) % 1024) + 1048576 * (n / 1048576)
  {
  }

  /** Comparing digits from the highest compares the ticks. */
  lemma DigitsOrder(s: nat, t: nat)
    requires s <= t
    ensures var d, e := Digits(s), Digits(t);
            d[2] <= e[2] && (d[2] == e[2] ==> d[1] <= e[1]) && (d[2] == e[2] && d[1] == e[1] ==> d[0] <= e[0])
    ensures Digits(s) == Digits(t) ==> s == t
  {
    Split(s);
    Split(t);
  }

  /** A tick that is not over lies in the current slot exactly when it is now. */
  lemma CurrentSlot(now: nat, t: nat)
    requires now <= t
    ensures SlotOf(t, Digits(now)) == (0, Digits(now)[0]) <==> t == now
  {
    DigitsOrder(now, t);
  }

  lemma SlotBound(t: nat, now: seq<nat>)
    requires |now| == 3 && t < MAX_TICK
    ensures SlotOf(t, now).0 < 3 && SlotOf(t, now).1 < 1024
  {
  }

  /** The slot that empties into lower wheels when the tick becomes n + 1. */
  function Carried(n: nat): (nat, nat) {
    var d := Digits(n);
    if d[0] + 1 < 1024 then (0, 1024)
    else if d[1] + 1 < 1024 then (1, d[1] + 1)
    else (2, d[2] + 1)
  }

  /** No other timer changes its slot when the tick moves on. */
  lemma SlotStays(n: nat, t: nat)
    requires n < t
    ensures SlotOf(t, Digits(n)) != Carried(n) ==> SlotOf(t, Digits(n + 1)) == SlotOf(t, Digits(n))
    ensures Carried(n).0 > 0 ==> SlotOf(t, Digits(n + 1)) != Carried(n)
    ensures Carried(n).0 == 0 ==> SlotOf(t, Digits(n)) != Carried(n)
  {
    DigitsNext(n);
    DigitsOrder(n, t);
    DigitsOrder(n + 1, t);
  }

  /** The cells that the carries look at when the tick becomes n + 1. */
  function Looked(n: nat): seq<(nat, nat)> {
    var d := Digits(n);
    if d[0] + 1 < 1024 then []
    else [(1, d[1] + 1)] + if d[1] + 1 < 1024 then [] else [(2, d[2] + 1)]
  }

  /** One of them lies past the last slot of its wheel exactly when wheel 1 turns
      over; then it is cell 1024 of wheel 1. */
  lemma PastTheEnd(n: nat)
    requires n + 1 < MAX_TICK
    ensures (1, 1024) in Looked(n) <==> (n + 1) % (1024 * 1024) == 0
    ensures forall c :: c in Looked(n) && c.1 >= 1024 ==> c == (1, 1024)
  {
    Split(n);
    Split(n + 1);
    DigitsNext(n);
  }

  lemma PastTheEndFirst()
    ensures Looked(1048575) == [(1, 1024), (2, 1)]
  {
  }
}
