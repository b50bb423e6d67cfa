/** The backtracking matcher, with its captures in one array that is changed on
    the way and restored on failure. */
module PatternMatch {
  import opened PatternClass
  import opened PatternSpec

  datatype Outcome = Ends(e: nat) | Fails | Raises

  /** The jump back to the start of match, or its return. */
  datatype Go = Stop(o: Outcome) | Again(s: nat, i: nat)

  predicate Special(p: Bytes, i: nat) {
    At(p, i) == ESC && (At(p, i + 1) == 'b' as nat || At(p, i + 1) == 'f' as nat || IsDigit(At(p, i + 1)))
  }

  /** The search at one place of the pattern, by its first byte. */
  lemma MatchCases(src: Bytes, p: Bytes, s: nat, i: nat, caps: seq<Cap>)
    requires s <= |src| && i <= |p|
    ensures var k := At(p, i); var r := Match(src, p, s, i, caps);
            && (k == 0 ==> r == Found(s, caps))
            && (k == '$' as nat && At(p, i + 1) == 0 ==> r == if s == |src| then Found(s, caps) else NotFound)
            && (k == '(' as nat && At(p, i + 1) == ')' as nat ==>
                  r == if |caps| >= MAXCAPTURES then Error else Match(src, p, s, i + 2, caps + [Cap(s, POSITION)]))
            && (k == '(' as nat && At(p, i + 1) != ')' as nat ==>
                  r == if |caps| >= MAXCAPTURES then Error else Match(src, p, s, i + 1, caps + [Cap(s, UNFINISHED)]))
            && (k == ')' as nat ==>
                  r == if ToClose(caps) < 0 then Error else Match(src, p, s, i + 1, Closed(caps, ToClose(caps), s)))
            && (Special(p, i) <==> k == ESC && (At(p, i + 1) == 'b' as nat || At(p, i + 1) == 'f' as nat || IsDigit(At(p, i + 1))))
            && (k != 0 && k != '(' as nat && k != ')' as nat && !Special(p, i) && !(k == '$' as nat && At(p, i + 1) == 0) ==>
                  ItemAt(p, i) == SingleAt(p, i))
  {
    hide ToClose, ClassEnd, MaxMatch, MinMatch, Single, RunLength, BalanceMatch, AtFrontier, Repeats;
  }

  class MatchState {
    const src: Bytes
    const pat: Bytes
    const capture: array<Cap>
    var level: nat

    ghost predicate Valid()
      reads this
    {
      capture.Length == MAXCAPTURES && level <= MAXCAPTURES
    }

    function Caps(): seq<Cap>
      requires Valid()
      reads this, capture
    {
      capture[..level]
    }

    constructor (s: Bytes, p: Bytes)
      ensures Valid() && level == 0 && src == s && pat == p && fresh(capture)
    {
      src, pat, level := s, p, 0;
      capture := new Cap[MAXCAPTURES](_ => Cap(0, 0));
    }

    /** The outcome and the captures are those of the search; after a failure the
        captures are as they were. */
    ghost predicate Agrees(r: Result, o: Outcome, caps: seq<Cap>)
      reads this, capture
    {
      && Valid()
      && match r
         case Found(e, cs) => o == Ends(e) && Caps() == cs
         case NotFound => o == Fails && Caps() == caps
         case Error => o == Raises
    }

    method CaptureToClose() returns (l: int)
      requires Valid()
      ensures l == ToClose(Caps())
    {
      l := level - 1;
      while l >= 0
        invariant -1 <= l < level && ToClose(capture[..l + 1]) == ToClose(Caps())
      {
        if capture[l].len == UNFINISHED { return; }
        assert capture[..l + 1][..l] == capture[..l];
        l := l - 1;
      }
    }

    method Balance_(s0: nat, b: nat, e: nat) returns (r: int)
      requires s0 <= |src|
      ensures r == BalanceMatch(src, s0, b, e)
    {
      if s0 >= |src| || src[s0] != b { return -1; }
      var s, cont: nat := s0 + 1, 1;
      while s < |src|
        invariant s0 < s <= |src| && cont > 0 && BalanceEnd(src, s, b, e, cont) == BalanceMatch(src, s0, b, e)
      {
        if src[s] == e {
          cont := cont - 1;
          if cont == 0 { return s + 1; }
        } else if src[s] == b {
          cont := cont + 1;
        }
        s := s + 1;
      }
      return -1;
    }

    method MaxExpand(s: nat, i: nat, ep: nat) returns (o: Outcome)
      requires Valid() && s <= |src| && i < ep < |pat|
      modifies this`level, capture
      ensures Agrees(old(MaxMatch(src, pat, s, i, ep, Caps(), RunLength(src, s, pat, i, ep))), o, old(Caps()))
      decreases |pat| - i, 1
    {
      hide Single, Match, RunLength;
      ghost var caps := Caps();
      var n := CountRun(s, i, ep);
      while true
        invariant s + n <= |src| && Valid() && Caps() == caps
        invariant MaxMatch(src, pat, s, i, ep, caps, n) == MaxMatch(src, pat, s, i, ep, caps, RunLength(src, s, pat, i, ep))
        decreases n
      {
        o := DoMatch(s + n, ep + 1);
        if !o.Fails? || n == 0 { return; }
        n := n - 1;
      }
    }

    method CountRun(s: nat, i: nat, ep: nat) returns (n: nat)
      requires s <= |src| && i < ep
      ensures n == RunLength(src, s, pat, i, ep)
    {
      n := 0;
      var m := s < |src|;
      if m { m := SingleMatch(src[s], pat, i, ep); }
      while m
        invariant s + n <= |src| && m == (s + n < |src| && Single(src[s + n], pat, i, ep))
        invariant RunLength(src, s, pat, i, ep) == n + RunLength(src, s + n, pat, i, ep)
        decreases |src| - s - n
      {
        n := n + 1;
        m := s + n < |src|;
        if m { m := SingleMatch(src[s + n], pat, i, ep); }
      }
    }

    method MinExpand(s0: nat, i: nat, ep: nat) returns (o: Outcome)
      requires Valid() && s0 <= |src| && i < ep < |pat|
      modifies this`level, capture
      ensures Agrees(old(MinMatch(src, pat, s0, i, ep, Caps())), o, old(Caps()))
      decreases |pat| - i, 1
    {
      hide Single, Match;
      ghost var caps := Caps();
      var s := s0;
      while true
        invariant s <= |src| && Valid() && Caps() == caps
        invariant MinMatch(src, pat, s, i, ep, caps) == MinMatch(src, pat, s0, i, ep, caps)
        decreases |src| - s
      {
        o := DoMatch(s, ep + 1);
        if !o.Fails? { return; }
        var m := s < |src|;
        if m { m := SingleMatch(src[s], pat, i, ep); }
        if !m { return; }
        s := s + 1;
      }
    }

    method StartCapture(s: nat, i: nat, what: int) returns (o: Outcome)
      requires Valid() && s <= |src| && i <= |pat|
      modifies this`level, capture
      ensures Agrees(if old(level) >= MAXCAPTURES then Error else Match(src, pat, s, i, old(Caps()) + [Cap(s, what)]), o, old(Caps()))
      decreases |pat| - i, 4
    {
      hide Match;
      ghost var caps := Caps();
      if level >= MAXCAPTURES { return Raises; }
      capture[level] := Cap(s, what);
      level := level + 1;
      assert Caps() == caps + [Cap(s, what)];
      o := DoMatch(s, i);
      if o.Fails? {
        assert (caps + [Cap(s, what)])[..|caps|] == caps;
        level := level - 1;
      }
    }

    method EndCapture(s: nat, i: nat) returns (o: Outcome)
      requires Valid() && s <= |src| && i <= |pat|
      modifies this`level, capture
      ensures Agrees(if ToClose(old(Caps())) < 0 then Error else Match(src, pat, s, i, Closed(old(Caps()), ToClose(old(Caps())), s)), o, old(Caps()))
      decreases |pat| - i, 4
    {
      hide Match, ToClose;
      ghost var caps := Caps();
      var l := CaptureToClose();
      ToCloseIn(caps);
      if l < 0 { return Raises; }
      capture[l] := Cap(capture[l].init, s - capture[l].init);
      assert Caps() == Closed(caps, l, s);
      o := DoMatch(s, i);
      if o.Fails? {
        capture[l] := Cap(capture[l].init, UNFINISHED);
        assert Caps() == caps;
      }
    }

    /** match_capture, the digit already checked. */
    method MatchCapture(s: nat, l: nat) returns (r: int)
      requires Valid() && s <= |src| && l < level
      ensures r == if Repeats(src, capture[l], s) then s + capture[l].len else -1
    {
      var c := capture[l];
      if c.len < 0 || |src| - s < c.len || c.init + c.len > |src| { return -1; }
      var k := 0;
      while k < c.len
        invariant 0 <= k <= c.len && src[s..s + k] == src[c.init..c.init + k]
      {
        if src[s + k] != src[c.init + k] {
          assert src[s..s + c.len][k] != src[c.init..c.init + c.len][k];
          return -1;
        }
        assert src[s..s + k + 1] == src[s..s + k] + [src[s + k]];
        assert src[c.init..c.init + k + 1] == src[c.init..c.init + k] + [src[c.init + k]];
        k := k + 1;
      }
      return s + c.len;
    }

    /** What one item of the pattern leads to. */
    ghost predicate Leads(g: Go, r: Result, caps: seq<Cap>, i: nat)
      reads this, capture
    {
      match g
      case Stop(o) => Agrees(r, o, caps)
      case Again(s', i') => Valid() && Caps() == caps && s' <= |src| && i < i' <= |pat| && Match(src, pat, s', i', caps) == r
    }

    /** The balanced, frontier and capture items. */
    method Escape(s: nat, i: nat) returns (g: Go)
      requires Valid() && s <= |src| && i <= |pat| && Special(pat, i)
      ensures Leads(g, Match(src, pat, s, i, Caps()), Caps(), i)
    {
      hide AtFrontier, BalanceMatch, Repeats, CaptureOf, InBracket, ClassEnd;
      if At(pat, i + 1) == 'b' as nat {
        if At(pat, i + 2) == 0 || At(pat, i + 3) == 0 { return Stop(Raises); }
        var r := Balance_(s, pat[i + 2], pat[i + 3]);
        BalanceFits(src, s, pat[i + 2], pat[i + 3]);
        if r < 0 { return Stop(Fails); }
        return Again(r, i + 4);
      } else if At(pat, i + 1) == 'f' as nat {
        if At(pat, i + 2) != '[' as nat { return Stop(Raises); }
        var ep := FindClassEnd(pat, i + 2);
        EndFits(pat, i + 2);
        if ep < 0 { return Stop(Raises); }
        var here := IsFrontier(s, i + 2, ep);
        if !here { return Stop(Fails); }
        return Again(s, ep);
      }
      var l := CheckCapture(At(pat, i + 1));
      if l < 0 { return Stop(Raises); }
      var r := MatchCapture(s, l);
      if Repeats(src, capture[l], s) { RepeatsFits(src, capture[l], s); }
      if r < 0 { return Stop(Fails); }
      return Again(r, i + 2);
    }

    /** A single-character class and its repetition. */
    method Class(s: nat, i: nat) returns (g: Go)
      requires Valid() && s <= |src| && i <= |pat| && At(pat, i) != 0 && ItemAt(pat, i) == SingleAt(pat, i)
      modifies this`level, capture
      ensures Leads(g, old(Match(src, pat, s, i, Caps())), old(Caps()), i)
      decreases |pat| - i, 2
    {
      hide Single, RunLength, ClassEnd, MaxMatch, MinMatch, ItemAt;
      var ep := FindClassEnd(pat, i);
      EndFits(pat, i);
      if ep < 0 { return Stop(Raises); }
      var m := s < |src|;
      if m { m := SingleMatch(src[s], pat, i, ep); }
      var q := At(pat, ep);
      var o: Outcome;
      if q == '?' as nat {
        if m {
          o := DoMatch(s + 1, ep + 1);
          if !o.Fails? { return Stop(o); }
        }
        return Again(s, ep + 1);
      } else if q == '*' as nat {
        o := MaxExpand(s, i, ep);
        return Stop(o);
      } else if q == '+' as nat {
        if !m { return Stop(Fails); }
        o := MaxExpand(s + 1, i, ep);
        return Stop(o);
      } else if q == '-' as nat {
        o := MinExpand(s, i, ep);
        return Stop(o);
      }
      if !m { return Stop(Fails); }
      return Again(s + 1, ep);
    }

    /** match, from s0 in the subject and i0 in the pattern. */
    method DoMatch(s0: nat, i0: nat) returns (o: Outcome)
      requires Valid() && s0 <= |src| && i0 <= |pat|
      modifies this`level, capture
      ensures Agrees(old(Match(src, pat, s0, i0, Caps())), o, old(Caps()))
      decreases |pat| - i0, 3
    {
      hide Match, ItemAt, Special, SingleAt, ToClose;
      ghost var caps := Caps();
      var s: nat, i: nat := s0, i0;
      while true
        invariant s <= |src| && i0 <= i <= |pat| && Valid() && Caps() == caps
        invariant Match(src, pat, s, i, caps) == Match(src, pat, s0, i0, caps)
        decreases |pat| - i
      {
        var k, g := At(pat, i), Stop(Fails);
        MatchCases(src, pat, s, i, caps);
        if k == '(' as nat {
          if At(pat, i + 1) == ')' as nat {
            o := StartCapture(s, i + 2, POSITION);
          } else {
            o := StartCapture(s, i + 1, UNFINISHED);
          }
          return;
        } else if k == ')' as nat {
          o := EndCapture(s, i + 1);
          return;
        } else if k == ESC && (At(pat, i + 1) == 'b' as nat || At(pat, i + 1) == 'f' as nat || IsDigit(At(pat, i + 1))) {
          g := Escape(s, i);
        } else if k == 0 {
          return Ends(s);
        } else if k == '$' as nat && At(pat, i + 1) == 0 {
          if s == |src| { return Ends(s); }
          return Fails;
        } else {
          g := Class(s, i);
        }
        if g.Stop? { return g.o; }
        s, i := g.s, g.i;
      }
    }

    method IsFrontier(s: nat, from: nat, ep: nat) returns (r: bool)
      requires s <= |src| && ep > 0
      ensures r == AtFrontier(src, s, pat, from, ep)
    {
      var previous := if s == 0 then 0 else At(src, s - 1);
      var a := MatchBracketClass(previous, pat, from, ep - 1);
      if a { return false; }
      r := MatchBracketClass(At(src, s), pat, from, ep - 1);
    }

    method CheckCapture(d: nat) returns (l: int)
      requires Valid()
      ensures l == CaptureOf(Caps(), d) && (l >= 0 ==> l < level)
    {
      l := d - '1' as nat;
      if l < 0 || l >= level || capture[l].len == UNFINISHED { return -1; }
    }
  }

  /** The loop of str_find_aux: the leftmost start with a match, and there the best
      match; only the first start for a pattern anchored with a circumflex. */
  method Find(src: Bytes, p: Bytes, init: nat) returns (start: nat, o: Outcome, caps: seq<Cap>)
    requires init <= |src|
    ensures var a := if At(p, 0) == '^' as nat then 1 else 0;
            && (forall s :: init <= s < start && s <= |src| ==> Match(src, p, s, a, []).NotFound?)
            && (o.Ends? ==> init <= start <= |src| && (a == 1 ==> start == init) && Match(src, p, start, a, []) == Found(o.e, caps))
            && (o.Fails? ==> start == if a == 1 then init + 1 else |src| + 1)
            && (o.Raises? ==> init <= start <= |src| && Match(src, p, start, a, []).Error?)
  {
    hide Match;
    var ms := new MatchState(src, p);
    var anchor := At(p, 0) == '^' as nat;
    var i := if anchor then 1 else 0;
    start, caps := init, [];
    while true
      invariant init <= start <= |src| && (anchor ==> start == init) && ms.Valid() && fresh(ms) && fresh(ms.capture)
      invariant forall s :: init <= s < start ==> Match(src, p, s, i, []).NotFound?
      decreases |src| - start
    {
      ms.level := 0;
      assert ms.Caps() == [];
      o := ms.DoMatch(start, i);
      if o.Ends? { caps := ms.Caps(); }
      if !o.Fails? { return; }
      start := start + 1;
      if start > |src| || anchor { return; }
    }
  }

  lemma ToCloseIn(caps: seq<Cap>)
    ensures -1 <= ToClose(caps) < |caps| && (ToClose(caps) >= 0 ==> caps[ToClose(caps)].len == UNFINISHED)
  {
  }

  lemma BalanceFits(src: Bytes, s: nat, b: nat, e: nat)
    ensures BalanceMatch(src, s, b, e) < 0 || s < BalanceMatch(src, s, b, e) <= |src|
  {
  }

  lemma EndFits(p: Bytes, i: nat)
    requires At(p, i) != 0
    ensures ClassEnd(p, i) < 0 || i < ClassEnd(p, i) <= |p|
  {
  }
}
