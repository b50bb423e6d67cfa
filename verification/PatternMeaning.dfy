/** What the bytes of a pattern mean: each special byte by itself, and sets and
    class letters written out. */
module PatternMeaning {
  import opened PatternClass
  import opened PatternSpec

  // -------------------------------------------------------- class letters

  /** The ASCII codes of each class, and its complement by the capital letter. */
  lemma ClassLetters(c: nat)
    ensures MatchClass(c, 'a' as nat) <==> 65 <= c <= 90 || 97 <= c <= 122
    ensures MatchClass(c, 'c' as nat) <==> c <= 31 || c == 127
    ensures MatchClass(c, 'd' as nat) <==> 48 <= c <= 57
    ensures MatchClass(c, 'l' as nat) <==> 97 <= c <= 122
    ensures MatchClass(c, 'p' as nat) <==> 33 <= c <= 47 || 58 <= c <= 64 || 91 <= c <= 96 || 123 <= c <= 126
    ensures MatchClass(c, 's' as nat) <==> c == 32 || 9 <= c <= 13
    ensures MatchClass(c, 'u' as nat) <==> 65 <= c <= 90
    ensures MatchClass(c, 'w' as nat) <==> 48 <= c <= 57 || 65 <= c <= 90 || 97 <= c <= 122
    ensures MatchClass(c, 'x' as nat) <==> 48 <= c <= 57 || 65 <= c <= 70 || 97 <= c <= 102
    ensures MatchClass(c, 'z' as nat) <==> c == 0
    ensures forall k :: k in {97, 99, 100, 108, 112, 115, 117, 119, 120, 122} ==> (MatchClass(c, k - 32) <==> !MatchClass(c, k))
  {
  }

  /** Any other byte behind the escape stands for itself. */
  lemma OtherLetters(c: nat, k: nat)
    requires k !in {97, 99, 100, 108, 112, 115, 117, 119, 120, 122, 65, 67, 68, 76, 80, 83, 85, 87, 88, 90}
    ensures MatchClass(c, k) <==> c == k
  {
  }

  // ------------------------------------------------------------------ sets

  /** What may be written in a set. */
  datatype Member = Plain(c: nat) | Range(a: nat, b: nat) | Escaped(k: nat)

  /** Bytes that mean themselves wherever they stand in a set. */
  predicate Ordinary(c: nat) {
    c !in {0, 37, 45, 93, 94}
  }

  predicate Writable(m: Member) {
    match m
    case Plain(c) => Ordinary(c)
    case Range(a, b) => Ordinary(a) && Ordinary(b)
    case Escaped(k) => k != 0
  }

  function Written(m: Member): Bytes {
    match m
    case Plain(c) => [c]
    case Range(a, b) => [a, 45, b]
    case Escaped(k) => [37, k]
  }

  function WrittenAll(ms: seq<Member>): Bytes {
    if ms == [] then [] else Written(ms[0]) + WrittenAll(ms[1..])
  }

  predicate Holds(m: Member, c: nat) {
    match m
    case Plain(d) => c == d
    case Range(a, b) => a <= c <= b
    case Escaped(k) => MatchClass(c, k)
  }

  /** The text w stands in p at i. */
  ghost predicate Stands(p: Bytes, i: nat, w: Bytes) {
    i + |w| <= |p| && forall j :: 0 <= j < |w| ==> p[i + j] == w[j]
  }

  lemma StandsTwo(p: Bytes, i: nat, v: Bytes, w: Bytes)
    requires Stands(p, i, v + w)
    ensures Stands(p, i, v) && Stands(p, i + |v|, w)
  {
    forall j | 0 <= j < |v| ensures p[i + j] == v[j] { assert (v + w)[j] == v[j]; }
    forall j | 0 <= j < |w| ensures p[i + |v| + j] == w[j] { assert (v + w)[|v| + j] == w[j] && p[i + (|v| + j)] == (v + w)[|v| + j]; }
  }

  lemma StandsAt(p: Bytes, i: nat, w: Bytes)
    requires Stands(p, i, w)
    ensures |w| > 0 ==> At(p, i) == w[0]
    ensures |w| > 1 ==> At(p, i + 1) == w[1]
    ensures |w| > 2 ==> At(p, i + 2) == w[2]
  {
    assert |w| > 0 ==> p[i + 0] == w[0];
  }

  /** A set in brackets holds exactly what one of its members holds. */
  lemma {:induction false} MembersMean(p: Bytes, i: nat, ms: seq<Member>, c: nat)
    requires (forall m :: m in ms ==> Writable(m)) && Stands(p, i, WrittenAll(ms) + [93])
    ensures InSet(c, p, i, i + |WrittenAll(ms)|) <==> exists m :: m in ms && Holds(m, c)
    decreases |ms|
  {
    hide Stands;
    if ms != [] {
      var v, w := Written(ms[0]), WrittenAll(ms[1..]) + [93];
      assert WrittenAll(ms) + [93] == v + w;
      StandsTwo(p, i, v, w);
      StandsAt(p, i + |v|, w);
      NotHyphen(ms[1..]);
      assert ms[0] in ms;
      MemberSeen(p, i, ms[0], i + |WrittenAll(ms)|, c);
      MembersMean(p, i + |v|, ms[1..], c);
      hide InSet, Holds;
      assert forall m :: m in ms <==> m == ms[0] || m in ms[1..];
    }
  }

  lemma MemberSeen(p: Bytes, i: nat, m: Member, ec: nat, c: nat)
    requires Writable(m) && Stands(p, i, Written(m)) && i + |Written(m)| <= ec && At(p, i + |Written(m)|) != 45
    ensures InSet(c, p, i, ec) <==> Holds(m, c) || InSet(c, p, i + |Written(m)|, ec)
  {
    StandsAt(p, i, Written(m));
    hide Stands, MatchClass;
  }

  /** No member begins with a hyphen. */
  lemma NotHyphen(ms: seq<Member>)
    requires forall m :: m in ms ==> Writable(m)
    ensures (WrittenAll(ms) + [93])[0] != 45
  {
    if ms != [] { assert ms[0] in ms; }
  }

  /** The search for the end of a set passes over a member. */
  lemma MemberPassed(p: Bytes, i: nat, m: Member)
    requires Writable(m) && Stands(p, i, Written(m))
    ensures var j := i + |Written(m)|;
            j <= |p| && BracketEnd(p, i) == if At(p, j) == 93 then j + 1 else BracketEnd(p, j)
  {
    StandsAt(p, i, Written(m));
    hide Stands;
    match m
    case Range(a, b) =>
      assert BracketEnd(p, i) == BracketEnd(p, i + 1);
      assert BracketEnd(p, i + 1) == BracketEnd(p, i + 2);
    case _ =>
  }

  /** The set ends at its bracket. */
  lemma {:induction false} MembersEnd(p: Bytes, i: nat, ms: seq<Member>)
    requires ms != [] && (forall m :: m in ms ==> Writable(m)) && Stands(p, i, WrittenAll(ms) + [93])
    ensures BracketEnd(p, i) == i + |WrittenAll(ms)| + 1
    decreases |ms|
  {
    hide Stands, BracketEnd;
    var v, w := Written(ms[0]), WrittenAll(ms[1..]) + [93];
    assert ms[0] in ms;
    assert WrittenAll(ms) + [93] == v + w;
    StandsTwo(p, i, v, w);
    MemberPassed(p, i, ms[0]);
    StandsAt(p, i + |v|, w);
    if ms[1..] != [] {
      MembersEnd(p, i + |v|, ms[1..]);
      FirstByte(ms[1..]);
    }
  }

  lemma FirstByte(ms: seq<Member>)
    requires ms != [] && forall m :: m in ms ==> Writable(m)
    ensures WrittenAll(ms) != [] && WrittenAll(ms)[0] !in {93, 94, 45, 0}
  {
    assert ms[0] in ms;
  }

  /** A set between brackets, complemented or not: where it ends and what it holds. */
  lemma SetMeans(p: Bytes, i: nat, ms: seq<Member>, neg: bool, c: nat)
    requires ms != [] && (forall m :: m in ms ==> Writable(m))
    requires Stands(p, i, [91] + (if neg then [94] else []) + (WrittenAll(ms) + [93]))
    ensures var ep := i + 1 + (if neg then 1 else 0) + |WrittenAll(ms)| + 1;
            && At(p, i) == 91 && ClassEnd(p, i) == ep <= |p|
            && (Single(c, p, i, ep) <==> ((exists m :: m in ms && Holds(m, c)) != neg))
            && (InBracket(c, p, i, ep - 1) <==> ((exists m :: m in ms && Holds(m, c)) != neg))
  {
    var head, body := [91] + (if neg then [94] else []), WrittenAll(ms) + [93];
    hide Stands, InSet, BracketEnd, WrittenAll, Writable, Holds;
    StandsTwo(p, i, head, body);
    StandsAt(p, i, head);
    BodyMeans(p, i + |head|, ms, c);
  }

  lemma BodyMeans(p: Bytes, i: nat, ms: seq<Member>, c: nat)
    requires ms != [] && (forall m :: m in ms ==> Writable(m)) && Stands(p, i, WrittenAll(ms) + [93])
    ensures var n := |WrittenAll(ms)|;
            && At(p, i) != 94 && BracketEnd(p, i) == i + n + 1 <= |p|
            && (InSet(c, p, i, i + n) <==> exists m :: m in ms && Holds(m, c))
  {
    hide Stands, InSet, BracketEnd, Writable, Holds;
    StandsAt(p, i, WrittenAll(ms) + [93]);
    StandsRoom(p, i, WrittenAll(ms) + [93]);
    FirstByte(ms);
    MembersMean(p, i, ms, c);
    MembersEnd(p, i, ms);
  }

  lemma StandsRoom(p: Bytes, i: nat, w: Bytes)
    requires Stands(p, i, w)
    ensures i + |w| <= |p|
  {
  }

  // ------------------------------------------------- single-character classes

  /** A dot, an escape, or a byte that is none of the magic ones: how long it is
      and what it matches. */
  lemma SingleMeans(p: Bytes, i: nat, c: nat)
    requires At(p, i) != 0
    ensures At(p, i) == 46 ==> ClassEnd(p, i) == i + 1 && Single(c, p, i, i + 1)
    ensures At(p, i) == 37 && At(p, i + 1) != 0 ==> ClassEnd(p, i) == i + 2 && (Single(c, p, i, i + 2) <==> MatchClass(c, At(p, i + 1)))
    ensures At(p, i) == 37 && At(p, i + 1) == 0 ==> ClassEnd(p, i) < 0
    ensures At(p, i) !in {46, 37, 91} ==> ClassEnd(p, i) == i + 1 && (Single(c, p, i, i + 1) <==> c == At(p, i))
  {
  }

  // --------------------------------------------------------- repetitions

  /** A place where a single-character class is read. */
  predicate ClassPlace(p: Bytes, i: nat) {
    && At(p, i) !in {0, 40, 41}
    && (At(p, i) == 37 ==> At(p, i + 1) !in {98, 102} && !(48 <= At(p, i + 1) <= 57))
    && (At(p, i) == 36 ==> At(p, i + 1) != 0)
  }

  /** The result of going on at the last place of lo..hi that the run reaches and
      where the rest does not fail; or all of them fail. */
  ghost predicate LastFits(src: Bytes, p: Bytes, s: nat, lo: nat, hi: nat, i: nat, ep: nat, n: nat, caps: seq<Cap>, r: Result)
    requires n <= |p| && lo <= hi <= |src|
  {
    || (exists t: nat :: && lo <= t <= hi && Run(src, s, t, p, i, ep) && r == Match(src, p, t, n, caps) && !r.NotFound?
                         && forall u: nat :: t < u <= hi && Run(src, s, u, p, i, ep) ==> Match(src, p, u, n, caps).NotFound?)
    || (r.NotFound? && forall u: nat :: lo <= u <= hi && Run(src, s, u, p, i, ep) ==> Match(src, p, u, n, caps).NotFound?)
  }

  /** The same with the first place. */
  ghost predicate FirstFits(src: Bytes, p: Bytes, s: nat, lo: nat, hi: nat, i: nat, ep: nat, n: nat, caps: seq<Cap>, r: Result)
    requires n <= |p| && lo <= hi <= |src|
  {
    || (exists t: nat :: && lo <= t <= hi && Run(src, s, t, p, i, ep) && r == Match(src, p, t, n, caps) && !r.NotFound?
                         && forall u: nat :: lo <= u < t ==> Match(src, p, u, n, caps).NotFound?)
    || (r.NotFound? && forall u: nat :: lo <= u <= hi && Run(src, s, u, p, i, ep) ==> Match(src, p, u, n, caps).NotFound?)
  }

  lemma {:induction false} MaxIsLast(src: Bytes, p: Bytes, s0: nat, s: nat, i: nat, ep: nat, caps: seq<Cap>, n: nat)
    requires s0 <= s && s + n <= |src| && i < ep < |p| && Run(src, s0, s + n, p, i, ep)
    ensures LastFits(src, p, s0, s, s + n, i, ep, ep + 1, caps, MaxMatch(src, p, s, i, ep, caps, n))
    decreases n
  {
    hide Match, Single;
    if Match(src, p, s + n, ep + 1, caps).NotFound? && n > 0 {
      MaxIsLast(src, p, s0, s, i, ep, caps, n - 1);
    }
  }

  /** With the run as far as it goes, no place behind it counts. */
  lemma LastWithin(src: Bytes, p: Bytes, s: nat, lo: nat, hi: nat, i: nat, ep: nat, n: nat, caps: seq<Cap>, r: Result)
    requires n <= |p| && s <= lo <= hi <= |src| && hi == s + RunLength(src, s, p, i, ep) && LastFits(src, p, s, lo, hi, i, ep, n, caps, r)
    ensures LastFits(src, p, s, lo, |src|, i, ep, n, caps, r)
  {
    hide Match, RunLength;
    forall u: nat | hi < u ensures !Run(src, s, u, p, i, ep) { RunMax(src, s, u, p, i, ep); }
  }

  lemma {:induction false} MinIsFirstFit(src: Bytes, p: Bytes, s0: nat, s: nat, i: nat, ep: nat, n: nat, caps: seq<Cap>)
    requires s0 <= s <= |src| && i < ep < |p| && n == ep + 1 && Run(src, s0, s, p, i, ep)
    requires forall u: nat :: s0 <= u < s ==> Match(src, p, u, n, caps).NotFound?
    ensures FirstFits(src, p, s0, s0, |src|, i, ep, n, caps, MinMatch(src, p, s, i, ep, caps))
    decreases |src| - s
  {
    hide Match, Single;
    if Match(src, p, s, n, caps).NotFound? {
      if s < |src| && Single(src[s], p, i, ep) {
        MinIsFirstFit(src, p, s0, s + 1, i, ep, n, caps);
      } else {
        forall u: nat | s < u ensures !Run(src, s0, u, p, i, ep) { if Run(src, s0, u, p, i, ep) { RunHits(src, s0, s, u, p, i, ep); } }
      }
    }
  }

  lemma RunHits(src: Bytes, s0: nat, s: nat, u: nat, p: Bytes, i: nat, ep: nat)
    requires s0 <= s < u && Run(src, s0, u, p, i, ep)
    ensures s < |src| && Single(src[s], p, i, ep)
  {
  }

  function Min(a: nat, b: nat): nat {
    if a < b then a else b
  }

  /** `*`, `+`, `?` and `-` behind a class, and a class alone: how many bytes are
      tried, and in which order. */
  lemma RepeatMeans(src: Bytes, p: Bytes, s: nat, i: nat, caps: seq<Cap>)
    requires s <= |src| && i <= |p| && ClassPlace(p, i)
    ensures var ep, r := ClassEnd(p, i), Match(src, p, s, i, caps);
            && (ep < 0 ==> r.Error?)
            && (ep >= 0 && At(p, ep) == 42 ==> LastFits(src, p, s, s, |src|, i, ep, ep + 1, caps, r))
            && (ep >= 0 && At(p, ep) == 43 ==> if s < |src| then LastFits(src, p, s, s + 1, |src|, i, ep, ep + 1, caps, r) else r.NotFound?)
            && (ep >= 0 && At(p, ep) == 63 ==> LastFits(src, p, s, s, Min(s + 1, |src|), i, ep, ep + 1, caps, r))
            && (ep >= 0 && At(p, ep) == 45 ==> FirstFits(src, p, s, s, |src|, i, ep, ep + 1, caps, r))
            && (ep >= 0 && At(p, ep) !in {42, 43, 63, 45} ==>
                  r == if s < |src| && Single(src[s], p, i, ep) then Match(src, p, s + 1, ep, caps) else NotFound)
  {
    var ep := ClassEnd(p, i);
    SingleItem(p, i);
    hide ClassEnd, Single, RunLength, MaxMatch, MinMatch, LastFits, FirstFits, ItemAt, SingleAt;
    if ep >= 0 {
      if At(p, ep) == 42 {
        RunMax(src, s, s + RunLength(src, s, p, i, ep), p, i, ep);
        MaxIsLast(src, p, s, s, i, ep, caps, RunLength(src, s, p, i, ep));
        LastWithin(src, p, s, s, s + RunLength(src, s, p, i, ep), i, ep, ep + 1, caps, Match(src, p, s, i, caps));
      } else if At(p, ep) == 43 {
        PlusMeans(src, p, s, i, ep, caps);
      } else if At(p, ep) == 63 {
        OptionalMeans(src, p, s, i, ep, caps);
      } else if At(p, ep) == 45 {
        MinIsFirstFit(src, p, s, s, i, ep, ep + 1, caps);
      }
    }
  }

  lemma SingleItem(p: Bytes, i: nat)
    requires ClassPlace(p, i)
    ensures var ep := ClassEnd(p, i);
            ItemAt(p, i) == if ep < 0 then Malformed else if At(p, ep) == 63 then Optional(ep) else if At(p, ep) == 42 then Star(ep)
              else if At(p, ep) == 43 then Plus(ep) else if At(p, ep) == 45 then Minus(ep) else One(ep)
  {
    hide ClassEnd;
  }

  lemma PlusMeans(src: Bytes, p: Bytes, s: nat, i: nat, ep: nat, caps: seq<Cap>)
    requires s <= |src| && i < ep < |p| && ItemAt(p, i) == Plus(ep)
    ensures var r := Match(src, p, s, i, caps);
            if s < |src| then LastFits(src, p, s, s + 1, |src|, i, ep, ep + 1, caps, r) else r.NotFound?
  {
    hide ItemAt, Single, RunLength, MaxMatch;
    if s < |src| {
      if Single(src[s], p, i, ep) {
        var n := RunLength(src, s + 1, p, i, ep);
        RunPlus(src, s, p, i, ep);
        RunMax(src, s, s + 1 + n, p, i, ep);
        MaxIsLast(src, p, s, s + 1, i, ep, caps, n);
        LastWithin(src, p, s, s + 1, s + 1 + n, i, ep, ep + 1, caps, Match(src, p, s, i, caps));
      } else {
        forall u: nat | s < u ensures !Run(src, s, u, p, i, ep) { if Run(src, s, u, p, i, ep) { RunHits(src, s, s, u, p, i, ep); } }
      }
    }
  }

  lemma OptionalMeans(src: Bytes, p: Bytes, s: nat, i: nat, ep: nat, caps: seq<Cap>)
    requires s <= |src| && i < ep < |p| && ItemAt(p, i) == Optional(ep)
    ensures LastFits(src, p, s, s, Min(s + 1, |src|), i, ep, ep + 1, caps, Match(src, p, s, i, caps))
  {
    hide ItemAt, Single;
    assert Run(src, s, s, p, i, ep);
    assert Run(src, s, s + 1, p, i, ep) <==> s < |src| && Single(src[s], p, i, ep);
  }

  // ------------------------------------------------------- the other places

  /** From s on, brackets x and y balance for the first time at t. */
  ghost predicate BalancedTo(src: Bytes, s: nat, t: nat, x: nat, y: nat) {
    && s < t <= |src| && src[s] == x && 1 + Depth(src, s + 1, t, x, y) == 0
    && StillOpen(src, s + 1, t, x, y)
  }

  ghost predicate StillOpen(src: Bytes, s: nat, t: nat, x: nat, y: nat)
    requires t <= |src|
  {
    forall k :: s <= k < t ==> 1 + Depth(src, s, k, x, y) > 0
  }

  /** The end of the pattern, `$`, and the captures. */
  lemma PlaceMeans(src: Bytes, p: Bytes, s: nat, i: nat, caps: seq<Cap>)
    requires s <= |src| && i <= |p|
    ensures var k, k1, r := At(p, i), At(p, i + 1), Match(src, p, s, i, caps);
            && (k == 0 ==> r == Found(s, caps))
            && (k == 36 && k1 == 0 ==> r == if s == |src| then Found(s, caps) else NotFound)
            && (k == 40 ==> |caps| >= 32 ==> r.Error?)
            && (k == 40 && k1 == 41 && |caps| < 32 ==> r == Match(src, p, s, i + 2, caps + [Cap(s, -2)]))
            && (k == 40 && k1 != 41 && |caps| < 32 ==> r == Match(src, p, s, i + 1, caps + [Cap(s, -1)]))
            && (k == 41 && (forall l :: 0 <= l < |caps| ==> caps[l].len != -1) ==> r.Error?)
            && (k == 41 ==> forall l :: 0 <= l < |caps| && caps[l].len == -1 && (forall m :: l < m < |caps| ==> caps[m].len != -1) ==>
                  r == Match(src, p, s, i + 1, caps[l := Cap(caps[l].init, s - caps[l].init)]))
  {
    hide ClassEnd, SingleAt, EscapeAt, MaxMatch, MinMatch, Single, RunLength, BalanceMatch, AtFrontier, Repeats;
  }

  /** `%b`: up to the place where the brackets balance. */
  lemma BalanceMeans(src: Bytes, p: Bytes, s: nat, i: nat, caps: seq<Cap>)
    requires s <= |src| && i <= |p| && At(p, i) == 37 && At(p, i + 1) == 98
    ensures var x, y, r := At(p, i + 2), At(p, i + 3), Match(src, p, s, i, caps);
            && (x == 0 || y == 0 ==> r.Error?)
            && (x != 0 && y != 0 ==> forall t :: BalancedTo(src, s, t, x, y) ==> r == Match(src, p, t, i + 4, caps))
            && (x != 0 && y != 0 && (forall t :: !BalancedTo(src, s, t, x, y)) ==> r.NotFound?)
  {
    hide ClassEnd, SingleAt, MaxMatch, MinMatch, Single, RunLength, AtFrontier, Repeats, BalanceEnd, Depth;
    var x, y := At(p, i + 2), At(p, i + 3);
    if x != 0 && y != 0 {
      DepthNone(src, s + 1, x, y);
      if s < |src| && src[s] == x {
        BalanceIs(src, s + 1, s + 1, x, y, 1);
        var e := BalanceEnd(src, s + 1, x, y, 1);
        forall t | BalancedTo(src, s, t, x, y) ensures t == e { }
        if e >= 0 { assert BalancedTo(src, s, e, x, y); }
      }
    }
  }

  lemma DepthNone(src: Bytes, s: nat, x: nat, y: nat)
    ensures s <= |src| ==> Depth(src, s, s, x, y) == 0
  {
  }

  /** `%f` with a set: the byte before is outside of it and the byte here inside. */
  lemma FrontierMeans(src: Bytes, p: Bytes, s: nat, i: nat, caps: seq<Cap>)
    requires s <= |src| && i <= |p| && At(p, i) == 37 && At(p, i + 1) == 102
    ensures At(p, i + 2) != 91 ==> Match(src, p, s, i, caps).Error?
    ensures At(p, i + 2) == 91 ==>
              var ep, r := ClassEnd(p, i + 2), Match(src, p, s, i, caps);
              var before, here := if s == 0 then 0 else src[s - 1], if s < |src| then src[s] else 0;
              if ep < 0 then r.Error?
              else if !InBracket(before, p, i + 2, ep - 1) && InBracket(here, p, i + 2, ep - 1) then r == Match(src, p, s, ep, caps)
              else r.NotFound?
  {
    hide ClassEnd, SingleAt, MaxMatch, MinMatch, Single, RunLength, BalanceMatch, Repeats, InBracket;
  }

  /** `%1` to `%9`: what the capture holds, once more; `%0` is an error. */
  lemma BackMeans(src: Bytes, p: Bytes, s: nat, i: nat, caps: seq<Cap>)
    requires s <= |src| && i <= |p| && At(p, i) == 37 && 48 <= At(p, i + 1) <= 57
    ensures var l, r := At(p, i + 1) - 49, Match(src, p, s, i, caps);
            && (l < 0 || l >= |caps| || caps[l].len == -1 ==> r.Error?)
            && (0 <= l < |caps| && caps[l].len != -1 ==>
                  var c := caps[l];
                  if c.len >= 0 && s + c.len <= |src| && c.init + c.len <= |src| && src[s..s + c.len] == src[c.init..c.init + c.len]
                  then r == Match(src, p, s + c.len, i + 2, caps) else r.NotFound?)
  {
    hide ClassEnd, SingleAt, MaxMatch, MinMatch, Single, RunLength, BalanceMatch, AtFrontier;
  }
}
