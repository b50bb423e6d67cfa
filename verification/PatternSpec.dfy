/** What a Lua pattern matches: the backtracking search, all matches in order of
    preference, and the declarative meaning of section 5.4.1 of the Lua 5.1
    Reference Manual. */
module PatternSpec {
  import opened PatternClass

  const MAXCAPTURES: nat := 32
  const UNFINISHED: int := -1
  const POSITION: int := -2

  datatype Cap = Cap(init: nat, len: int)

  /** What the pattern says at one place, and where it goes on. */
  datatype Item =
    | Open(what: int, next: nat)
    | Close(next: nat)
    | Balance(b: nat, e: nat, next: nat)
    | Frontier(from: nat, next: nat)
    | Back(digit: nat, next: nat)
    | End
    | Anchor
    | One(ep: nat)
    | Optional(ep: nat)
    | Star(ep: nat)
    | Plus(ep: nat)
    | Minus(ep: nat)
    | Malformed

  /** A single-character class, with what follows it. */
  function SingleAt(p: Bytes, i: nat): (t: Item)
    requires At(p, i) != 0
    ensures t.One? ==> i < t.ep <= |p|
    ensures t.Optional? || t.Star? || t.Plus? || t.Minus? ==> i < t.ep < |p|
    ensures t.One? || t.Optional? || t.Star? || t.Plus? || t.Minus? || t.Malformed?
  {
    var ep := ClassEnd(p, i);
    if ep < 0 then Malformed
    else if At(p, ep) == '?' as nat then Optional(ep)
    else if At(p, ep) == '*' as nat then Star(ep)
    else if At(p, ep) == '+' as nat then Plus(ep)
    else if At(p, ep) == '-' as nat then Minus(ep)
    else One(ep)
  }

  function EscapeAt(p: Bytes, i: nat): (t: Item)
    requires At(p, i) == ESC
    ensures t.Balance? || t.Frontier? || t.Back? ==> i < t.next <= |p|
    ensures t.One? ==> i < t.ep <= |p|
    ensures t.Optional? || t.Star? || t.Plus? || t.Minus? ==> i < t.ep < |p|
    ensures !t.Open? && !t.Close? && !t.End? && !t.Anchor?
  {
    var k := At(p, i + 1);
    if k == 'b' as nat then
      if At(p, i + 2) == 0 || At(p, i + 3) == 0 then Malformed else Balance(p[i + 2], p[i + 3], i + 4)
    else if k == 'f' as nat then
      if At(p, i + 2) != '[' as nat then Malformed
      else
        var ep := ClassEnd(p, i + 2);
        if ep < 0 then Malformed else Frontier(i + 2, ep)
    else if IsDigit(k) then Back(k, i + 2)
    else SingleAt(p, i)
  }

  function ItemAt(p: Bytes, i: nat): (t: Item)
    ensures t.Open? || t.Close? || t.Balance? || t.Frontier? || t.Back? ==> i < t.next <= |p|
    ensures t.One? ==> i < t.ep <= |p|
    ensures t.Optional? || t.Star? || t.Plus? || t.Minus? ==> i < t.ep < |p|
  {
    var k := At(p, i);
    if k == 0 then End
    else if k == '(' as nat then (if At(p, i + 1) == ')' as nat then Open(POSITION, i + 2) else Open(UNFINISHED, i + 1))
    else if k == ')' as nat then Close(i + 1)
    else if k == ESC then EscapeAt(p, i)
    else if k == '$' as nat && At(p, i + 1) == 0 then Anchor
    else SingleAt(p, i)
  }

  // -------------------------------------------------------------- captures

  /** capture_to_close: the last unfinished capture, or -1. */
  function ToClose(caps: seq<Cap>): (l: int)
    ensures -1 <= l < |caps| && (l >= 0 ==> caps[l].len == UNFINISHED)
    ensures forall k :: l < k < |caps| ==> caps[k].len != UNFINISHED
  {
    if caps == [] then -1
    else if caps[|caps| - 1].len == UNFINISHED then |caps| - 1
    else ToClose(caps[..|caps| - 1])
  }

  function Closed(caps: seq<Cap>, l: nat, s: nat): seq<Cap>
    requires l < |caps|
  {
    caps[l := Cap(caps[l].init, s - caps[l].init)]
  }

  /** check_capture: the index a digit refers to, or -1. */
  function CaptureOf(caps: seq<Cap>, digit: nat): (l: int)
    ensures l < 0 || (l < |caps| && caps[l].len != UNFINISHED)
  {
    var l := digit - '1' as nat;
    if l < 0 || l >= |caps| || caps[l].len == UNFINISHED then -1 else l
  }

  /** match_capture: the subject repeats the captured text at s. */
  predicate Repeats(src: Bytes, c: Cap, s: nat) {
    && c.len >= 0 && s + c.len <= |src| && c.init + c.len <= |src|
    && src[s..s + c.len] == src[c.init..c.init + c.len]
  }

  // ------------------------------------------------------------- %b and %f

  /** The loop of matchbalance, from s on with `cont` brackets open. */
  function BalanceEnd(src: Bytes, s: nat, b: nat, e: nat, cont: nat): (r: int)
    ensures r < 0 || s < r <= |src|
    decreases |src| - s
  {
    if s >= |src| then -1
    else if src[s] == e then (if cont <= 1 then s + 1 else BalanceEnd(src, s + 1, b, e, cont - 1))
    else if src[s] == b then BalanceEnd(src, s + 1, b, e, cont + 1)
    else BalanceEnd(src, s + 1, b, e, cont)
  }

  /** Opening brackets less closing ones in src[s..t]. */
  function Depth(src: Bytes, s: nat, t: nat, b: nat, e: nat): int
    requires s <= t <= |src|
  {
    if s == t then 0
    else Depth(src, s, t - 1, b, e) + (if src[t - 1] == e then -1 else if src[t - 1] == b then 1 else 0)
  }

  /** %b ends at the first place where the brackets balance. */
  lemma {:induction false} BalanceIs(src: Bytes, s0: nat, s: nat, b: nat, e: nat, cont: nat)
    requires s0 <= s <= |src| && cont > 0 && cont == 1 + Depth(src, s0, s, b, e)
    ensures var r := BalanceEnd(src, s, b, e, cont);
            && (r >= 0 ==> 1 + Depth(src, s0, r, b, e) == 0 && forall k :: s <= k < r ==> 1 + Depth(src, s0, k, b, e) > 0)
            && (r < 0 ==> forall k :: s <= k <= |src| ==> 1 + Depth(src, s0, k, b, e) > 0)
    decreases |src| - s
  {
    if s < |src| {
      if src[s] == e {
        if cont > 1 { BalanceIs(src, s0, s + 1, b, e, cont - 1); }
      } else if src[s] == b {
        BalanceIs(src, s0, s + 1, b, e, cont + 1);
      } else {
        BalanceIs(src, s0, s + 1, b, e, cont);
      }
    }
  }

  function BalanceMatch(src: Bytes, s: nat, b: nat, e: nat): (r: int)
    ensures r < 0 || s < r <= |src|
  {
    if At(src, s) != b || s >= |src| then -1 else BalanceEnd(src, s + 1, b, e, 1)
  }

  /** A frontier: the previous byte is outside the set and this one inside. */
  predicate AtFrontier(src: Bytes, s: nat, p: Bytes, from: nat, next: nat) {
    && next > 0
    && !InBracket(if s == 0 then 0 else At(src, s - 1), p, from, next - 1)
    && InBracket(At(src, s), p, from, next - 1)
  }

  /** How many bytes from s on match the class. */
  function RunLength(src: Bytes, s: nat, p: Bytes, i: nat, ep: nat): (n: nat)
    requires s <= |src|
    ensures s + n <= |src|
    ensures forall k :: s <= k < s + n ==> Single(src[k], p, i, ep)
    ensures s + n < |src| ==> !Single(src[s + n], p, i, ep)
    decreases |src| - s
  {
    if s < |src| && Single(src[s], p, i, ep) then 1 + RunLength(src, s + 1, p, i, ep) else 0
  }

  // ------------------------------------------------------ the search itself

  datatype Result = Found(e: nat, caps: seq<Cap>) | NotFound | Error

  /** match: the search with all its choices in order. */
  function Match(src: Bytes, p: Bytes, s: nat, i: nat, caps: seq<Cap>): Result
    requires s <= |src| && i <= |p|
    decreases |p| - i, 2, 0
  {
    match ItemAt(p, i)
    case Open(what, n) => if |caps| >= MAXCAPTURES then Error else Match(src, p, s, n, caps + [Cap(s, what)])
    case Close(n) => if ToClose(caps) < 0 then Error else Match(src, p, s, n, Closed(caps, ToClose(caps), s))
    case Balance(b, e, n) =>
      var r := BalanceMatch(src, s, b, e);
      if r < 0 then NotFound else Match(src, p, r, n, caps)
    case Frontier(from, n) => if AtFrontier(src, s, p, from, n) then Match(src, p, s, n, caps) else NotFound
    case Back(d, n) =>
      var l := CaptureOf(caps, d);
      if l < 0 then Error else if !Repeats(src, caps[l], s) then NotFound else Match(src, p, s + caps[l].len, n, caps)
    case End => Found(s, caps)
    case Anchor => if s == |src| then Found(s, caps) else NotFound
    case One(ep) => if s < |src| && Single(src[s], p, i, ep) then Match(src, p, s + 1, ep, caps) else NotFound
    case Optional(ep) =>
      var r := if s < |src| && Single(src[s], p, i, ep) then Match(src, p, s + 1, ep + 1, caps) else NotFound;
      if r.NotFound? then Match(src, p, s, ep + 1, caps) else r
    case Star(ep) => MaxMatch(src, p, s, i, ep, caps, RunLength(src, s, p, i, ep))
    case Plus(ep) =>
      if s < |src| && Single(src[s], p, i, ep) then MaxMatch(src, p, s + 1, i, ep, caps, RunLength(src, s + 1, p, i, ep)) else NotFound
    case Minus(ep) => MinMatch(src, p, s, i, ep, caps)
    case Malformed => Error
  }

  /** max_expand: n repetitions, then fewer. */
  function MaxMatch(src: Bytes, p: Bytes, s: nat, i: nat, ep: nat, caps: seq<Cap>, n: nat): Result
    requires s + n <= |src| && i < ep < |p|
    decreases |p| - i, 1, n
  {
    var r := Match(src, p, s + n, ep + 1, caps);
    if !r.NotFound? || n == 0 then r else MaxMatch(src, p, s, i, ep, caps, n - 1)
  }

  /** min_expand: no repetition, then more. */
  function MinMatch(src: Bytes, p: Bytes, s: nat, i: nat, ep: nat, caps: seq<Cap>): Result
    requires s <= |src| && i < ep < |p|
    decreases |p| - i, 1, |src| - s
  {
    var r := Match(src, p, s, ep + 1, caps);
    if !r.NotFound? then r
    else if s < |src| && Single(src[s], p, i, ep) then MinMatch(src, p, s + 1, i, ep, caps)
    else NotFound
  }

  // -------------------------------------------- all matches, best one first

  type Ending = (nat, seq<Cap>)

  function Endings(src: Bytes, p: Bytes, s: nat, i: nat, caps: seq<Cap>): seq<Ending>
    requires s <= |src| && i <= |p|
    decreases |p| - i, 2, 0
  {
    match ItemAt(p, i)
    case Open(what, n) => if |caps| >= MAXCAPTURES then [] else Endings(src, p, s, n, caps + [Cap(s, what)])
    case Close(n) => if ToClose(caps) < 0 then [] else Endings(src, p, s, n, Closed(caps, ToClose(caps), s))
    case Balance(b, e, n) =>
      var r := BalanceMatch(src, s, b, e);
      if r < 0 then [] else Endings(src, p, r, n, caps)
    case Frontier(from, n) => if AtFrontier(src, s, p, from, n) then Endings(src, p, s, n, caps) else []
    case Back(d, n) =>
      var l := CaptureOf(caps, d);
      if l < 0 || !Repeats(src, caps[l], s) then [] else Endings(src, p, s + caps[l].len, n, caps)
    case End => [(s, caps)]
    case Anchor => if s == |src| then [(s, caps)] else []
    case One(ep) => if s < |src| && Single(src[s], p, i, ep) then Endings(src, p, s + 1, ep, caps) else []
    case Optional(ep) =>
      (if s < |src| && Single(src[s], p, i, ep) then Endings(src, p, s + 1, ep + 1, caps) else []) + Endings(src, p, s, ep + 1, caps)
    case Star(ep) => LongFirst(src, p, s, i, ep, caps, RunLength(src, s, p, i, ep))
    case Plus(ep) =>
      if s < |src| && Single(src[s], p, i, ep) then LongFirst(src, p, s + 1, i, ep, caps, RunLength(src, s + 1, p, i, ep)) else []
    case Minus(ep) => ShortFirst(src, p, s, i, ep, caps, 0)
    case Malformed => []
  }

  /** The longest repetition first. */
  function LongFirst(src: Bytes, p: Bytes, s: nat, i: nat, ep: nat, caps: seq<Cap>, n: nat): seq<Ending>
    requires s + n <= |src| && i < ep < |p|
    decreases |p| - i, 1, n
  {
    Endings(src, p, s + n, ep + 1, caps) + (if n == 0 then [] else LongFirst(src, p, s, i, ep, caps, n - 1))
  }

  /** The shortest repetition first: n of them so far. */
  function ShortFirst(src: Bytes, p: Bytes, s: nat, i: nat, ep: nat, caps: seq<Cap>, n: nat): seq<Ending>
    requires s + n <= |src| && i < ep < |p|
    decreases |p| - i, 1, |src| - s - n
  {
    Endings(src, p, s + n, ep + 1, caps) +
    (if s + n < |src| && Single(src[s + n], p, i, ep) then ShortFirst(src, p, s, i, ep, caps, n + 1) else [])
  }

  function First(es: seq<Ending>): Result {
    if es == [] then NotFound else Found(es[0].0, es[0].1)
  }

  /** The search finds the best match, if there is any. */
  lemma {:induction false} MatchIsFirst(src: Bytes, p: Bytes, s: nat, i: nat, caps: seq<Cap>)
    requires s <= |src| && i <= |p| && !Match(src, p, s, i, caps).Error?
    ensures Match(src, p, s, i, caps) == First(Endings(src, p, s, i, caps))
    decreases |p| - i, 2, 0
  {
    hide Single, RunLength, AtFrontier, BalanceMatch, Repeats, ItemAt;
    match ItemAt(p, i)
    case Open(what, n) => MatchIsFirst(src, p, s, n, caps + [Cap(s, what)]);
    case Close(n) => MatchIsFirst(src, p, s, n, Closed(caps, ToClose(caps), s));
    case Balance(b, e, n) => if BalanceMatch(src, s, b, e) >= 0 { MatchIsFirst(src, p, BalanceMatch(src, s, b, e), n, caps); }
    case Frontier(from, n) => if AtFrontier(src, s, p, from, n) { MatchIsFirst(src, p, s, n, caps); }
    case Back(d, n) =>
      var l := CaptureOf(caps, d);
      if Repeats(src, caps[l], s) {
        RepeatsFits(src, caps[l], s);
        MatchIsFirst(src, p, s + caps[l].len, n, caps);
      }
    case One(ep) => if s < |src| && Single(src[s], p, i, ep) { MatchIsFirst(src, p, s + 1, ep, caps); }
    case Optional(ep) =>
      if s < |src| && Single(src[s], p, i, ep) {
        MatchIsFirst(src, p, s + 1, ep + 1, caps);
        if Match(src, p, s + 1, ep + 1, caps).NotFound? { MatchIsFirst(src, p, s, ep + 1, caps); }
      } else {
        MatchIsFirst(src, p, s, ep + 1, caps);
      }
    case Star(ep) => MaxIsFirst(src, p, s, i, ep, caps, RunLength(src, s, p, i, ep));
    case Plus(ep) =>
      if s < |src| && Single(src[s], p, i, ep) { MaxIsFirst(src, p, s + 1, i, ep, caps, RunLength(src, s + 1, p, i, ep)); }
    case Minus(ep) => MinIsFirst(src, p, s, i, ep, caps, 0);
    case _ =>
  }

  lemma RepeatsFits(src: Bytes, c: Cap, s: nat)
    requires Repeats(src, c, s)
    ensures c.len >= 0 && s + c.len <= |src|
  {
  }

  lemma {:induction false} MaxIsFirst(src: Bytes, p: Bytes, s: nat, i: nat, ep: nat, caps: seq<Cap>, n: nat)
    requires s + n <= |src| && i < ep < |p| && !MaxMatch(src, p, s, i, ep, caps, n).Error?
    ensures MaxMatch(src, p, s, i, ep, caps, n) == First(LongFirst(src, p, s, i, ep, caps, n))
    decreases |p| - i, 1, n
  {
    MatchIsFirst(src, p, s + n, ep + 1, caps);
    if n > 0 && Match(src, p, s + n, ep + 1, caps).NotFound? { MaxIsFirst(src, p, s, i, ep, caps, n - 1); }
  }

  lemma {:induction false} MinIsFirst(src: Bytes, p: Bytes, s: nat, i: nat, ep: nat, caps: seq<Cap>, n: nat)
    requires s + n <= |src| && i < ep < |p| && !MinMatch(src, p, s + n, i, ep, caps).Error?
    ensures MinMatch(src, p, s + n, i, ep, caps) == First(ShortFirst(src, p, s, i, ep, caps, n))
    decreases |p| - i, 1, |src| - s - n
  {
    hide Single, Match, Endings;
    MatchIsFirst(src, p, s + n, ep + 1, caps);
    if Match(src, p, s + n, ep + 1, caps).NotFound? && s + n < |src| && Single(src[s + n], p, i, ep) {
      MinIsFirst(src, p, s, i, ep, caps, n + 1);
    }
  }

  // ------------------------------------------------- declarative meaning

  /** The bytes from s up to t all match the class. */
  ghost predicate Run(src: Bytes, s: nat, t: nat, p: Bytes, i: nat, ep: nat) {
    s <= t <= |src| && forall k :: s <= k < t ==> Single(src[k], p, i, ep)
  }

  /** The pattern from i on matches the subject from s on, ending as r says: some
      split of the subject gives each item its share. */
  ghost predicate Matches(src: Bytes, p: Bytes, s: nat, i: nat, caps: seq<Cap>, r: Ending)
    requires s <= |src| && i <= |p|
    decreases |p| - i
  {
    match ItemAt(p, i)
    case Open(what, n) => |caps| < MAXCAPTURES && Matches(src, p, s, n, caps + [Cap(s, what)], r)
    case Close(n) => ToClose(caps) >= 0 && Matches(src, p, s, n, Closed(caps, ToClose(caps), s), r)
    case Balance(b, e, n) =>
      var m := BalanceMatch(src, s, b, e);
      m >= 0 && Matches(src, p, m, n, caps, r)
    case Frontier(from, n) => AtFrontier(src, s, p, from, n) && Matches(src, p, s, n, caps, r)
    case Back(d, n) =>
      var l := CaptureOf(caps, d);
      l >= 0 && Repeats(src, caps[l], s) && Matches(src, p, s + caps[l].len, n, caps, r)
    case End => r == (s, caps)
    case Anchor => s == |src| && r == (s, caps)
    case One(ep) => Run(src, s, s + 1, p, i, ep) && Matches(src, p, s + 1, ep, caps, r)
    case Optional(ep) => exists t: nat :: t <= s + 1 && Run(src, s, t, p, i, ep) && Matches(src, p, t, ep + 1, caps, r)
    case Star(ep) => exists t: nat :: Run(src, s, t, p, i, ep) && Matches(src, p, t, ep + 1, caps, r)
    case Plus(ep) => exists t: nat :: t > s && Run(src, s, t, p, i, ep) && Matches(src, p, t, ep + 1, caps, r)
    case Minus(ep) => exists t: nat :: Run(src, s, t, p, i, ep) && Matches(src, p, t, ep + 1, caps, r)
    case Malformed => false
  }

  lemma RunMax(src: Bytes, s: nat, t: nat, p: Bytes, i: nat, ep: nat)
    requires s <= t && s <= |src|
    ensures Run(src, s, t, p, i, ep) <==> t <= s + RunLength(src, s, p, i, ep)
  {
  }

  /** Some end of a run between lo and hi lets the rest of the pattern match. */
  ghost predicate Splits(src: Bytes, p: Bytes, lo: nat, hi: nat, n: nat, caps: seq<Cap>, r: Ending)
    requires hi <= |src| && n <= |p|
  {
    exists t: nat :: lo <= t <= hi && Matches(src, p, t, n, caps, r)
  }

  /** The endings are exactly the declarative matches. */
  lemma {:induction false} EndingsAreMatches(src: Bytes, p: Bytes, s: nat, i: nat, caps: seq<Cap>, r: Ending)
    requires s <= |src| && i <= |p|
    ensures r in Endings(src, p, s, i, caps) <==> Matches(src, p, s, i, caps, r)
    decreases |p| - i, 3, 0
  {
    hide Single, RunLength, AtFrontier, BalanceMatch, Repeats, ItemAt;
    match ItemAt(p, i)
    case Open(what, n) => EndingsAreMatches(src, p, s, n, caps + [Cap(s, what)], r);
    case Close(n) => if ToClose(caps) >= 0 { EndingsAreMatches(src, p, s, n, Closed(caps, ToClose(caps), s), r); }
    case Balance(b, e, n) => if BalanceMatch(src, s, b, e) >= 0 { EndingsAreMatches(src, p, BalanceMatch(src, s, b, e), n, caps, r); }
    case Frontier(from, n) => EndingsAreMatches(src, p, s, n, caps, r);
    case Back(d, n) =>
      var l := CaptureOf(caps, d);
      if l >= 0 && Repeats(src, caps[l], s) {
        RepeatsFits(src, caps[l], s);
        EndingsAreMatches(src, p, s + caps[l].len, n, caps, r);
      }
    case One(ep) =>
      if s < |src| && Single(src[s], p, i, ep) { EndingsAreMatches(src, p, s + 1, ep, caps, r); }
    case Optional(_) => RepeatMatches(src, p, s, i, caps, r);
    case Star(_) => RepeatMatches(src, p, s, i, caps, r);
    case Plus(_) => RepeatMatches(src, p, s, i, caps, r);
    case Minus(_) => RepeatMatches(src, p, s, i, caps, r);
    case _ =>
  }

  /** The items with a choice of how often. */
  lemma {:induction false} RepeatMatches(src: Bytes, p: Bytes, s: nat, i: nat, caps: seq<Cap>, r: Ending)
    requires s <= |src| && i <= |p|
    requires var t := ItemAt(p, i); t.Optional? || t.Star? || t.Plus? || t.Minus?
    ensures r in Endings(src, p, s, i, caps) <==> Matches(src, p, s, i, caps, r)
    decreases |p| - i, 2, 0
  {
    hide Single, RunLength, ItemAt;
    var item := ItemAt(p, i);
    var ep := item.ep;
    RunSplits(src, p, s, s, i, ep, caps, r);
    RunSplits(src, p, s, s + 1, i, ep, caps, r);
    match item
    case Optional(_) =>
      EndingsAreMatches(src, p, s, ep + 1, caps, r);
      assert Run(src, s, s, p, i, ep);
      assert Run(src, s, s + 1, p, i, ep) <==> s < |src| && Single(src[s], p, i, ep);
      if s < |src| && Single(src[s], p, i, ep) {
        EndingsAreMatches(src, p, s + 1, ep + 1, caps, r);
      }
    case Star(_) => LongMatches(src, p, s, i, ep, caps, RunLength(src, s, p, i, ep), r);
    case Plus(_) =>
      if s < |src| && Single(src[s], p, i, ep) {
        RunPlus(src, s, p, i, ep);
        LongMatches(src, p, s + 1, i, ep, caps, RunLength(src, s + 1, p, i, ep), r);
      } else {
        RunNone(src, s, p, i, ep);
      }
    case Minus(_) => ShortMatches(src, p, s, i, ep, caps, 0, r);
  }

  lemma {:induction false} LongMatches(src: Bytes, p: Bytes, s: nat, i: nat, ep: nat, caps: seq<Cap>, m: nat, r: Ending)
    requires s + m <= |src| && i < ep < |p|
    ensures r in LongFirst(src, p, s, i, ep, caps, m) <==> Splits(src, p, s, s + m, ep + 1, caps, r)
    decreases |p| - i, 1, m
  {
    hide Endings, Matches;
    EndingsAreMatches(src, p, s + m, ep + 1, caps, r);
    if m > 0 { LongMatches(src, p, s, i, ep, caps, m - 1, r); }
  }

  lemma {:induction false} ShortMatches(src: Bytes, p: Bytes, s: nat, i: nat, ep: nat, caps: seq<Cap>, m: nat, r: Ending)
    requires s + m <= |src| && i < ep < |p| && m <= RunLength(src, s, p, i, ep)
    ensures r in ShortFirst(src, p, s, i, ep, caps, m) <==>
            Splits(src, p, s + m, s + RunLength(src, s, p, i, ep), ep + 1, caps, r)
    decreases |p| - i, 1, |src| - s - m
  {
    hide Single, Endings, Matches;
    EndingsAreMatches(src, p, s + m, ep + 1, caps, r);
    NextRun(src, s, m, p, i, ep);
    if m < RunLength(src, s, p, i, ep) { ShortMatches(src, p, s, i, ep, caps, m + 1, r); }
  }

  lemma RunSplits(src: Bytes, p: Bytes, s: nat, lo: nat, i: nat, ep: nat, caps: seq<Cap>, r: Ending)
    requires s <= |src| && i < ep < |p| && s <= lo
    ensures Splits(src, p, lo, s + RunLength(src, s, p, i, ep), ep + 1, caps, r) <==>
            exists t: nat :: t >= lo && Run(src, s, t, p, i, ep) && Matches(src, p, t, ep + 1, caps, r)
  {
    hide Matches, RunLength;
    if Splits(src, p, lo, s + RunLength(src, s, p, i, ep), ep + 1, caps, r) {
      var t: nat :| lo <= t <= s + RunLength(src, s, p, i, ep) && Matches(src, p, t, ep + 1, caps, r);
      RunMax(src, s, t, p, i, ep);
    }
    if exists t: nat :: t >= lo && Run(src, s, t, p, i, ep) && Matches(src, p, t, ep + 1, caps, r) {
      var t: nat :| t >= lo && Run(src, s, t, p, i, ep) && Matches(src, p, t, ep + 1, caps, r);
      RunMax(src, s, t, p, i, ep);
    }
  }

  lemma RunPlus(src: Bytes, s: nat, p: Bytes, i: nat, ep: nat)
    requires s < |src| && Single(src[s], p, i, ep)
    ensures RunLength(src, s, p, i, ep) == 1 + RunLength(src, s + 1, p, i, ep)
  {
  }

  lemma RunNone(src: Bytes, s: nat, p: Bytes, i: nat, ep: nat)
    requires s <= |src| && !(s < |src| && Single(src[s], p, i, ep))
    ensures RunLength(src, s, p, i, ep) == 0
  {
  }

  lemma NextRun(src: Bytes, s: nat, m: nat, p: Bytes, i: nat, ep: nat)
    requires s + m <= |src| && m <= RunLength(src, s, p, i, ep)
    ensures m < RunLength(src, s, p, i, ep) <==> s + m < |src| && Single(src[s + m], p, i, ep)
  {
  }

  /** Found exactly when some split of the subject matches. */
  lemma FoundIffMatches(src: Bytes, p: Bytes, s: nat, i: nat, caps: seq<Cap>)
    requires s <= |src| && i <= |p| && !Match(src, p, s, i, caps).Error?
    ensures Match(src, p, s, i, caps).Found? <==> exists r :: Matches(src, p, s, i, caps, r)
    ensures var m := Match(src, p, s, i, caps); m.Found? ==> Matches(src, p, s, i, caps, (m.e, m.caps))
  {
    hide Match, Matches, Endings;
    MatchIsFirst(src, p, s, i, caps);
    var es := Endings(src, p, s, i, caps);
    if es != [] {
      EndingsAreMatches(src, p, s, i, caps, es[0]);
    } else {
      forall r ensures !Matches(src, p, s, i, caps, r) { EndingsAreMatches(src, p, s, i, caps, r); }
    }
  }

  // ----------------------------------------------------- well-formed patterns

  /** The state of the captures: what each is at a place of the pattern does not
      depend on the subject. */
  datatype Form = FOpen | FDone | FPosition

  function FormOf(c: Cap): Form {
    if c.len == UNFINISHED then FOpen else if c.len == POSITION then FPosition else FDone
  }

  function Forms(caps: seq<Cap>): seq<Form> {
    seq(|caps|, k requires 0 <= k < |caps| => FormOf(caps[k]))
  }

  function LastOpen(fs: seq<Form>): (l: int)
    ensures -1 <= l < |fs|
  {
    if fs == [] then -1 else if fs[|fs| - 1].FOpen? then |fs| - 1 else LastOpen(fs[..|fs| - 1])
  }

  /** The pattern from i on, met with captures in these states, has no error, and
      at its end every capture is finished. */
  predicate WellFormed(p: Bytes, i: nat, fs: seq<Form>)
    requires i <= |p|
    decreases |p| - i
  {
    match ItemAt(p, i)
    case Open(what, n) => |fs| < MAXCAPTURES && WellFormed(p, n, fs + [if what == POSITION then FPosition else FOpen])
    case Close(n) => LastOpen(fs) >= 0 && WellFormed(p, n, fs[LastOpen(fs) := FDone])
    case Balance(_, _, n) => WellFormed(p, n, fs)
    case Frontier(_, n) => WellFormed(p, n, fs)
    case Back(d, n) =>
      var l := d - '1' as nat;
      0 <= l < |fs| && !fs[l].FOpen? && WellFormed(p, n, fs)
    case End => LastOpen(fs) < 0
    case Anchor => LastOpen(fs) < 0
    case One(ep) => WellFormed(p, ep, fs)
    case Optional(ep) => WellFormed(p, ep + 1, fs)
    case Star(ep) => WellFormed(p, ep + 1, fs)
    case Plus(ep) => WellFormed(p, ep + 1, fs)
    case Minus(ep) => WellFormed(p, ep + 1, fs)
    case Malformed => false
  }

  lemma {:induction false} LastOpenIs(caps: seq<Cap>)
    ensures LastOpen(Forms(caps)) == ToClose(caps)
  {
    if caps != [] {
      LastOpenIs(caps[..|caps| - 1]);
      assert Forms(caps)[..|caps| - 1] == Forms(caps[..|caps| - 1]);
    }
  }

  /** Captures start in the subject, not after the place reached. */
  ghost predicate Behind(caps: seq<Cap>, s: nat) {
    forall k :: 0 <= k < |caps| ==> caps[k].init <= s
  }

  /** Well-formed patterns raise no error. */
  lemma {:induction false} WellFormedRuns(src: Bytes, p: Bytes, s: nat, i: nat, caps: seq<Cap>)
    requires s <= |src| && i <= |p| && WellFormed(p, i, Forms(caps)) && Behind(caps, s)
    ensures !Match(src, p, s, i, caps).Error?
    decreases |p| - i, 2, 0
  {
    hide Single, RunLength, AtFrontier, BalanceMatch, Repeats, ItemAt;
    LastOpenIs(caps);
    match ItemAt(p, i)
    case Open(what, n) => OpenRuns(src, p, s, i, caps);
    case Close(n) => CloseRuns(src, p, s, i, caps);
    case Balance(b, e, n) => if BalanceMatch(src, s, b, e) >= 0 { WellFormedRuns(src, p, BalanceMatch(src, s, b, e), n, caps); }
    case Frontier(_, n) => WellFormedRuns(src, p, s, n, caps);
    case Back(d, n) =>
      var l := CaptureOf(caps, d);
      assert Forms(caps)[d - '1' as nat] == FormOf(caps[d - '1' as nat]);
      if Repeats(src, caps[l], s) {
        RepeatsFits(src, caps[l], s);
        WellFormedRuns(src, p, s + caps[l].len, n, caps);
      }
    case One(ep) => if s < |src| { WellFormedRuns(src, p, s + 1, ep, caps); }
    case Optional(ep) =>
      if s < |src| { WellFormedRuns(src, p, s + 1, ep + 1, caps); }
      WellFormedRuns(src, p, s, ep + 1, caps);
    case Star(ep) => MaxRuns(src, p, s, i, ep, caps, RunLength(src, s, p, i, ep));
    case Plus(ep) => if s < |src| { MaxRuns(src, p, s + 1, i, ep, caps, RunLength(src, s + 1, p, i, ep)); }
    case Minus(ep) => MinRuns(src, p, s, i, ep, caps);
    case _ =>
  }

  lemma {:induction false} OpenRuns(src: Bytes, p: Bytes, s: nat, i: nat, caps: seq<Cap>)
    requires s <= |src| && i <= |p| && WellFormed(p, i, Forms(caps)) && Behind(caps, s) && ItemAt(p, i).Open?
    ensures !Match(src, p, s, i, caps).Error?
    decreases |p| - i, 1, 0
  {
    hide ItemAt;
    var t := ItemAt(p, i);
    OpenWhat(p, i);
    assert Forms(caps + [Cap(s, t.what)]) == Forms(caps) + [if t.what == POSITION then FPosition else FOpen];
    WellFormedRuns(src, p, s, t.next, caps + [Cap(s, t.what)]);
  }

  lemma OpenWhat(p: Bytes, i: nat)
    ensures ItemAt(p, i).Open? ==> ItemAt(p, i).what in {POSITION, UNFINISHED}
  {
  }

  lemma {:induction false} CloseRuns(src: Bytes, p: Bytes, s: nat, i: nat, caps: seq<Cap>)
    requires s <= |src| && i <= |p| && WellFormed(p, i, Forms(caps)) && Behind(caps, s) && ItemAt(p, i).Close?
    ensures !Match(src, p, s, i, caps).Error?
    decreases |p| - i, 1, 0
  {
    hide ItemAt;
    LastOpenIs(caps);
    var l := ToClose(caps);
    assert Forms(Closed(caps, l, s)) == Forms(caps)[l := FDone];
    WellFormedRuns(src, p, s, ItemAt(p, i).next, Closed(caps, l, s));
  }

  lemma {:induction false} MaxRuns(src: Bytes, p: Bytes, s: nat, i: nat, ep: nat, caps: seq<Cap>, n: nat)
    requires s + n <= |src| && i < ep < |p| && WellFormed(p, ep + 1, Forms(caps)) && Behind(caps, s)
    ensures !MaxMatch(src, p, s, i, ep, caps, n).Error?
    decreases |p| - i, 1, n
  {
    hide WellFormed;
    WellFormedRuns(src, p, s + n, ep + 1, caps);
    if n > 0 { MaxRuns(src, p, s, i, ep, caps, n - 1); }
  }

  lemma {:induction false} MinRuns(src: Bytes, p: Bytes, s: nat, i: nat, ep: nat, caps: seq<Cap>)
    requires s <= |src| && i < ep < |p| && WellFormed(p, ep + 1, Forms(caps)) && Behind(caps, s)
    ensures !MinMatch(src, p, s, i, ep, caps).Error?
    decreases |p| - i, 1, |src| - s
  {
    hide WellFormed, Single;
    WellFormedRuns(src, p, s, ep + 1, caps);
    if s < |src| { MinRuns(src, p, s + 1, i, ep, caps); }
  }
}
