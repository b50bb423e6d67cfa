/** table.sort: quicksort in place, median of three, recursion on the smaller half
    only. */
module TableSort {

  datatype Item = Item(id: int)

  type Less = (Item, Item) -> bool

  /** What an order function has to be. */
  ghost predicate StrictWeak(lt: Less) {
    && (forall x :: !lt(x, x))
    && (forall x, y :: lt(x, y) ==> !lt(y, x))
    && (forall x, y, z :: !lt(y, x) && !lt(z, y) ==> !lt(z, x))
  }

  /** x may come before y. */
  predicate Le(lt: Less, x: Item, y: Item) {
    !lt(y, x)
  }

  lemma LeTrans(lt: Less, x: Item, y: Item, z: Item)
    requires StrictWeak(lt) && Le(lt, x, y) && Le(lt, y, z)
    ensures Le(lt, x, z)
  {
  }

  lemma LtLe(lt: Less, x: Item, y: Item)
    requires StrictWeak(lt)
    ensures lt(x, y) ==> Le(lt, x, y)
    ensures Le(lt, x, x)
  {
  }

  // ------------------------------------------------------ rearranging a range

  /** t is s with the elements in [l, h) rearranged. */
  ghost predicate Same(s: seq<Item>, t: seq<Item>, l: int, h: int) {
    && 0 <= l <= h <= |s| && |t| == |s|
    && multiset(s[l..h]) == multiset(t[l..h])
    && (forall k :: 0 <= k < |s| && !(l <= k < h) ==> t[k] == s[k])
  }

  lemma SameRefl(s: seq<Item>, l: int, h: int)
    requires 0 <= l <= h <= |s|
    ensures Same(s, s, l, h)
  {
  }

  lemma SameLen(s: seq<Item>, t: seq<Item>, l: int, h: int)
    requires Same(s, t, l, h)
    ensures |t| == |s|
  {
  }

  lemma SameTrans(s: seq<Item>, t: seq<Item>, r: seq<Item>, l: int, h: int)
    requires Same(s, t, l, h) && Same(t, r, l, h)
    ensures Same(s, r, l, h)
  {
  }

  lemma SameWider(s: seq<Item>, t: seq<Item>, l: int, h: int, l': int, h': int)
    requires Same(s, t, l, h) && 0 <= l' <= l && h <= h' <= |s|
    ensures Same(s, t, l', h')
  {
    assert s[l'..h'] == s[l'..l] + s[l..h] + s[h..h'];
    assert t[l'..h'] == t[l'..l] + t[l..h] + t[h..h'];
    assert s[l'..l] == t[l'..l] && s[h..h'] == t[h..h'];
  }

  function Swap(s: seq<Item>, i: nat, j: nat): seq<Item>
    requires i < |s| && j < |s|
  {
    s[i := s[j]][j := s[i]]
  }

  lemma SwapIs(s: seq<Item>, i: nat, j: nat)
    requires i < |s| && j < |s|
    ensures |Swap(s, i, j)| == |s|
    ensures forall k :: 0 <= k < |s| ==> Swap(s, i, j)[k] == if k == i then s[j] else if k == j then s[i] else s[k]
  {
  }

  lemma SwapSame(s: seq<Item>, i: nat, j: nat, l: int, h: int)
    requires 0 <= l <= i < h <= |s| && l <= j < h
    ensures Same(s, Swap(s, i, j), l, h)
  {
    var t := Swap(s, i, j);
    var u, v := s[l..h], t[l..h];
    assert v == u[i - l := u[j - l]][j - l := u[i - l]];
  }

  /** Every element of the range was in the range before. */
  lemma Came(s: seq<Item>, t: seq<Item>, l: int, h: int, k: int) returns (j: int)
    requires Same(s, t, l, h) && l <= k < h
    ensures l <= j < h && s[j] == t[k]
  {
    assert t[k] == t[l..h][k - l] && t[k] in multiset(t[l..h]);
    assert t[k] in s[l..h];
    var m :| 0 <= m < h - l && s[l..h][m] == t[k];
    j := l + m;
  }

  // ---------------------------------------------------------------- order

  ghost predicate SortedIn(s: seq<Item>, lt: Less, l: int, h: int)
    requires 0 <= l && h <= |s|
  {
    forall p, q :: l <= p < q < h ==> Le(lt, s[p], s[q])
  }

  /** Any two elements of [l0, h0) not both in [l, h) are in order. */
  ghost predicate Settled(s: seq<Item>, lt: Less, l0: int, l: int, h: int, h0: int)
    requires 0 <= l0 && h0 <= |s|
  {
    forall p, q :: l0 <= p < q < h0 && (p < l || q >= h) ==> Le(lt, s[p], s[q])
  }

  lemma SettledSame(s: seq<Item>, t: seq<Item>, lt: Less, l0: int, l: int, h: int, h0: int)
    requires 0 <= l0 <= l <= h <= h0 <= |s| && Settled(s, lt, l0, l, h, h0) && Same(s, t, l, h)
    ensures Settled(t, lt, l0, l, h, h0)
  {
    forall p, q | l0 <= p < q < h0 && (p < l || q >= h) ensures Le(lt, t[p], t[q]) {
      var p', q' := p, q;
      if l <= p < h { p' := Came(s, t, l, h, p); }
      if l <= q < h { q' := Came(s, t, l, h, q); }
      assert Le(lt, s[p'], s[q']);
    }
  }

  /** a[l..i-1] <= a[i] <= a[i+1..u]. */
  ghost predicate Parted(s: seq<Item>, lt: Less, l: int, i: int, h: int)
    requires 0 <= l <= i < h <= |s|
  {
    (forall p :: l <= p < i ==> Le(lt, s[p], s[i])) && (forall q :: i < q < h ==> Le(lt, s[i], s[q]))
  }

  lemma PartedLeft(s: seq<Item>, t: seq<Item>, lt: Less, l: int, i: int, h: int)
    requires 0 <= l <= i < h <= |s| && Parted(s, lt, l, i, h) && Same(s, t, l, i)
    ensures Parted(t, lt, l, i, h)
  {
    forall p | l <= p < i ensures Le(lt, t[p], t[i]) { var j := Came(s, t, l, i, p); }
  }

  lemma PartedRight(s: seq<Item>, t: seq<Item>, lt: Less, l: int, i: int, h: int)
    requires 0 <= l <= i < h <= |s| && Parted(s, lt, l, i, h) && Same(s, t, i + 1, h)
    ensures Parted(t, lt, l, i, h)
  {
    forall q | i < q < h ensures Le(lt, t[i], t[q]) { var j := Came(s, t, i + 1, h, q); }
  }

  lemma LeftDone(s: seq<Item>, lt: Less, l0: int, l: int, i: int, h: int, h0: int)
    requires StrictWeak(lt) && 0 <= l0 <= l <= i < h <= h0 <= |s|
    requires Settled(s, lt, l0, l, h, h0) && Parted(s, lt, l, i, h) && SortedIn(s, lt, l, i)
    ensures Settled(s, lt, l0, i + 1, h, h0)
  {
    forall p, q | l0 <= p < q < h0 && (p < i + 1 || q >= h) ensures Le(lt, s[p], s[q]) {
      if l <= p < i && i < q < h { LeTrans(lt, s[p], s[i], s[q]); }
    }
  }

  lemma RightDone(s: seq<Item>, lt: Less, l0: int, l: int, i: int, h: int, h0: int)
    requires StrictWeak(lt) && 0 <= l0 <= l <= i < h <= h0 <= |s|
    requires Settled(s, lt, l0, l, h, h0) && Parted(s, lt, l, i, h) && SortedIn(s, lt, i + 1, h)
    ensures Settled(s, lt, l0, l, i, h0)
  {
    forall p, q | l0 <= p < q < h0 && (p < l || q >= i) ensures Le(lt, s[p], s[q]) {
      if l <= p < i && i < q < h { LeTrans(lt, s[p], s[i], s[q]); }
    }
  }

  function Pow2(n: nat): nat {
    if n == 0 then 1 else 2 * Pow2(n - 1)
  }

  // ------------------------------------------------------------ the algorithm

  method SwapAt(a: array<Item>, i: nat, j: nat)
    requires i < a.Length && j < a.Length
    modifies a
    ensures a[..] == Swap(old(a[..]), i, j)
  {
    a[i], a[j] := a[j], a[i];
  }

  /** a[l], a[(l+u)/2] and a[u] put in order. */
  function Sort3(s: seq<Item>, lt: Less, l: nat, u: nat): seq<Item>
    requires l < u < |s|
  {
    var t := if lt(s[u], s[l]) then Swap(s, l, u) else s;
    var m := (l + u) / 2;
    if u - l == 1 then t
    else if lt(t[m], t[l]) then Swap(t, m, l)
    else if lt(t[u], t[m]) then Swap(t, m, u)
    else t
  }

  lemma Sort3First(s: seq<Item>, lt: Less, l: nat, u: nat)
    requires StrictWeak(lt) && l < u < |s|
    ensures var t := if lt(s[u], s[l]) then Swap(s, l, u) else s;
            Same(s, t, l, u + 1) && |t| == |s| && Le(lt, t[l], t[u])
  {
    hide Same, StrictWeak;
    SameRefl(s, l, u + 1);
    SwapSame(s, l, u, l, u + 1);
    LtLe(lt, s[u], s[l]);
  }

  lemma Sort3Second(t: seq<Item>, lt: Less, l: nat, m: nat, u: nat)
    requires StrictWeak(lt) && l < m < u < |t| && Le(lt, t[l], t[u])
    ensures var r := if lt(t[m], t[l]) then Swap(t, m, l) else if lt(t[u], t[m]) then Swap(t, m, u) else t;
            Same(t, r, l, u + 1) && |r| == |t| && Le(lt, r[l], r[m]) && Le(lt, r[m], r[u]) && Le(lt, r[l], r[u])
  {
    hide Same, StrictWeak;
    SameRefl(t, l, u + 1);
    SwapSame(t, m, l, l, u + 1);
    SwapSame(t, m, u, l, u + 1);
    LtLe(lt, t[m], t[l]);
    LtLe(lt, t[u], t[m]);
    if lt(t[m], t[l]) {
      LeTrans(lt, t[m], t[l], t[u]);
    } else if lt(t[u], t[m]) {
      LeTrans(lt, t[l], t[u], t[m]);
    }
  }

  lemma Sort3Ok(s: seq<Item>, lt: Less, l: nat, u: nat)
    requires StrictWeak(lt) && l < u < |s|
    ensures var t := Sort3(s, lt, l, u); var m := (l + u) / 2;
            && Same(s, t, l, u + 1) && |t| == |s| && Le(lt, t[l], t[u])
            && (u - l >= 2 ==> l < m < u && Le(lt, t[l], t[m]) && Le(lt, t[m], t[u]))
  {
    hide Same, StrictWeak, Swap, Le;
    var t := if lt(s[u], s[l]) then Swap(s, l, u) else s;
    Sort3First(s, lt, l, u);
    if u - l >= 2 {
      Sort3Second(t, lt, l, (l + u) / 2, u);
      SameTrans(s, t, Sort3(s, lt, l, u), l, u + 1);
    }
  }

  method Median(a: array<Item>, lt: Less, l: nat, u: nat) returns (m: nat)
    requires l < u < a.Length
    modifies a
    ensures a[..] == Sort3(old(a[..]), lt, l, u) && m == (l + u) / 2
  {
    m := (l + u) / 2;
    if lt(a[u], a[l]) { SwapAt(a, l, u); }
    if u - l == 1 { return; }
    if lt(a[m], a[l]) {
      SwapAt(a, m, l);
    } else if lt(a[u], a[m]) {
      SwapAt(a, m, u);
    }
  }

  /** The next place from the left whose element is not below the pivot.  There is
      one ahead, so the scan stays in the range and raises no error. */
  method ScanUp(a: array<Item>, lt: Less, p: Item, i0: nat, stop: nat) returns (i: nat)
    requires StrictWeak(lt) && i0 < stop < a.Length && Le(lt, p, a[stop])
    ensures i0 < i <= stop && Le(lt, p, a[i]) && forall k :: i0 < k < i ==> Le(lt, a[k], p)
  {
    hide StrictWeak;
    forall x ensures lt(x, p) ==> Le(lt, x, p) { LtLe(lt, x, p); }
    i := i0 + 1;
    while lt(a[i], p)
      invariant i0 < i <= stop && forall k :: i0 < k < i ==> Le(lt, a[k], p)
      decreases stop - i
    {
      i := i + 1;
    }
  }

  /** The next place from the right whose element is not above the pivot. */
  method ScanDown(a: array<Item>, lt: Less, p: Item, j0: nat, stop: nat) returns (j: nat)
    requires StrictWeak(lt) && stop < j0 <= a.Length && Le(lt, a[stop], p)
    ensures stop <= j < j0 && Le(lt, a[j], p) && forall k :: j < k < j0 ==> Le(lt, p, a[k])
  {
    hide StrictWeak;
    forall x ensures lt(p, x) ==> Le(lt, p, x) { LtLe(lt, p, x); }
    j := j0 - 1;
    while lt(p, a[j])
      invariant stop <= j < j0 && forall k :: j < k < j0 ==> Le(lt, p, a[k])
      decreases j
    {
      j := j - 1;
    }
  }

  ghost predicate Between(s: seq<Item>, lt: Less, p: Item, l: int, i: int, j: int, u: int)
    requires 0 <= l && u < |s|
  {
    && (forall k :: l <= k <= i && k <= u ==> Le(lt, s[k], p))
    && (forall k :: l <= k && j <= k <= u ==> Le(lt, p, s[k]))
  }

  lemma BetweenEnds(s: seq<Item>, lt: Less, p: Item, l: int, i: int, j: int, u: int)
    requires 0 <= l <= i <= j <= u - 1 && u < |s| && Between(s, lt, p, l, i, j, u)
    ensures Le(lt, s[l], p) && Le(lt, p, s[u - 1])
  {
  }

  lemma BetweenStart(s: seq<Item>, lt: Less, p: Item, l: int, u: int)
    requires 0 <= l <= u - 1 && u < |s| && Le(lt, s[l], p) && Le(lt, p, s[u - 1]) && Le(lt, p, s[u])
    ensures Between(s, lt, p, l, l, u - 1, u)
  {
  }

  lemma BetweenLess(s: seq<Item>, lt: Less, p: Item, l: int, i: int, j0: int, j: int, u: int)
    requires 0 <= l && u < |s| && j0 <= j && Between(s, lt, p, l, i, j0, u)
    ensures Between(s, lt, p, l, i, j, u)
  {
  }

  /** The two scans widen what is known. */
  lemma BetweenScan(s: seq<Item>, lt: Less, p: Item, l: int, i0: int, j0: int, i: int, j: int, u: int)
    requires 0 <= l && u < |s| && Between(s, lt, p, l, i0, j0, u)
    requires l <= i0 < i <= u && l <= j < j0 <= u
    requires (forall k :: i0 < k < i ==> Le(lt, s[k], p)) && forall k :: j < k < j0 ==> Le(lt, p, s[k])
    ensures Between(s, lt, p, l, i - 1, j + 1, u)
  {
  }

  lemma BetweenSwap(s: seq<Item>, lt: Less, p: Item, l: int, i: int, j: int, u: int)
    requires 0 <= l <= i <= j <= u < |s| && Between(s, lt, p, l, i - 1, j + 1, u) && Le(lt, s[j], p) && Le(lt, p, s[i])
    ensures Between(Swap(s, i, j), lt, p, l, i, j, u)
  {
  }

  /** The middle loop: afterwards a[l..i-1] <= P <= a[i..u]. */
  method Exchange(a: array<Item>, lt: Less, l: nat, u: nat) returns (i: nat)
    requires StrictWeak(lt) && u - l >= 3 && u < a.Length && Le(lt, a[l], a[u - 1]) && Le(lt, a[u - 1], a[u])
    modifies a
    ensures l < i < u && Same(old(a[..]), a[..], l, u + 1) && a[u - 1] == old(a[u - 1])
    ensures Between(a[..], lt, a[u - 1], l, i - 1, i, u)
  {
    hide Same, StrictWeak, Swap, Le, Between;
    ghost var s := a[..];
    SameRefl(s, l, u + 1);
    var p := a[u - 1];
    LtLe(lt, p, p);
    BetweenStart(s, lt, p, l, u);
    i := l;
    var j := u - 1;
    while true
      invariant l <= i <= j <= u - 1 && l < j && (j == u - 1 ==> i == l) && a[u - 1] == p
      invariant Between(a[..], lt, p, l, i, j, u) && Same(s, a[..], l, u + 1)
      decreases u - i
    {
      ghost var t := a[..];
      BetweenEnds(t, lt, p, l, i, j, u);
      var i0, j0 := i, j;
      i := ScanUp(a, lt, p, i0, u - 1);
      j := ScanDown(a, lt, p, j0, l);
      BetweenScan(t, lt, p, l, i0, j0, i, j, u);
      if j < i {
        BetweenLess(t, lt, p, l, i - 1, j + 1, i, u);
        return;
      }
      BetweenSwap(t, lt, p, l, i, j, u);
      SwapSame(t, i, j, l, u + 1);
      SwapIs(t, i, j);
      SameTrans(s, t, Swap(t, i, j), l, u + 1);
      SwapAt(a, i, j);
      assert a[..][u - 1] == p;
    }
  }

  /** The pivot is kept at u - 1. */
  method PivotAside(a: array<Item>, lt: Less, l: nat, u: nat, m: nat)
    requires StrictWeak(lt) && l < m < u < a.Length && u - l >= 3
    requires Le(lt, a[l], a[m]) && Le(lt, a[m], a[u])
    modifies a
    ensures Same(old(a[..]), a[..], l, u + 1) && Le(lt, a[l], a[u - 1]) && Le(lt, a[u - 1], a[u])
  {
    hide Same, StrictWeak, Swap, Le;
    ghost var s := a[..];
    SwapSame(s, m, u - 1, l, u + 1);
    SwapIs(s, m, u - 1);
    SwapAt(a, m, u - 1);
    ghost var t := a[..];
    assert a[l] == t[l] == s[l] && a[u] == t[u] == s[u] && a[u - 1] == t[u - 1] == s[m];
  }

  /** The pivot ends at i, smaller elements before it, larger ones behind it. */
  method Partition(a: array<Item>, lt: Less, l: nat, u: nat, m: nat) returns (i: nat)
    requires StrictWeak(lt) && l < m < u < a.Length && u - l >= 3
    requires Le(lt, a[l], a[m]) && Le(lt, a[m], a[u])
    modifies a
    ensures l < i < u && Same(old(a[..]), a[..], l, u + 1) && Parted(a[..], lt, l, i, u + 1)
  {
    hide Same, StrictWeak, Swap, Between, Parted, Le;
    ghost var s := a[..];
    PivotAside(a, lt, l, u, m);
    ghost var t := a[..];
    i := Exchange(a, lt, l, u);
    SameTrans(s, t, a[..], l, u + 1);
    ghost var r := a[..];
    PlacePivot(a, lt, l, u, i);
    SameTrans(s, r, a[..], l, u + 1);
  }

  /** Swap the pivot, a[u-1], with a[i]. */
  method PlacePivot(a: array<Item>, lt: Less, l: nat, u: nat, i: nat)
    requires l < i < u < a.Length && Between(a[..], lt, a[u - 1], l, i - 1, i, u)
    modifies a
    ensures Same(old(a[..]), a[..], l, u + 1) && Parted(a[..], lt, l, i, u + 1)
  {
    hide Same, Swap, Between, Parted, Le;
    ghost var r := a[..];
    SwapSame(r, u - 1, i, l, u + 1);
    SwapIs(r, u - 1, i);
    SwapAt(a, u - 1, i);
    PivotIn(r, a[..], lt, l, i, u);
  }

  lemma PivotIn(r: seq<Item>, t: seq<Item>, lt: Less, l: int, i: int, u: int)
    requires 0 <= l < i < u < |r| && Between(r, lt, r[u - 1], l, i - 1, i, u)
    requires |t| == |r| && forall k :: 0 <= k < |r| ==> t[k] == if k == u - 1 then r[i] else if k == i then r[u - 1] else r[k]
    ensures Parted(t, lt, l, i, u + 1)
  {
  }

  /** One round: two or three elements are sorted; otherwise the range is parted
      at i. */
  method Round(a: array<Item>, lt: Less, l: nat, u: nat) returns (i: nat)
    requires StrictWeak(lt) && l < u < a.Length
    modifies a
    ensures Same(old(a[..]), a[..], l, u + 1)
    ensures u - l <= 2 ==> SortedIn(a[..], lt, l, u + 1)
    ensures u - l > 2 ==> l < i < u && Parted(a[..], lt, l, i, u + 1)
  {
    hide Same, StrictWeak, Parted, Sort3;
    ghost var s := a[..];
    Sort3Ok(s, lt, l, u);
    var m := Median(a, lt, l, u);
    i := m;
    ghost var t := a[..];
    if u - l <= 2 { return; }
    assert a[l] == t[l] && a[m] == t[m] && a[u] == t[u];
    i := Partition(a, lt, l, u, m);
    SameTrans(s, t, a[..], l, u + 1);
  }

  /** auxsort: sorts a[l..u].  Only the smaller part is left to recursion, so its
      depth is at most the logarithm of the length. */
  method AuxSort(a: array<Item>, lt: Less, l0: nat, u0: int) returns (ghost depth: nat)
    requires StrictWeak(lt) && l0 - 1 <= u0 < a.Length && l0 <= a.Length
    modifies a
    ensures Same(old(a[..]), a[..], l0, u0 + 1) && SortedIn(a[..], lt, l0, u0 + 1)
    ensures u0 >= l0 ==> Pow2(depth) <= u0 - l0 + 1
    ensures u0 < l0 ==> depth == 0
    decreases u0 - l0 + 1
  {
    hide Same, Settled, StrictWeak, Parted, SortedIn, Pow2, Le, Sort3;
    ghost var s := a[..];
    var l, u := l0, u0;
    depth := 0;
    SameRefl(s, l0, u0 + 1);
    SettledStart(s, lt, l0, u0 + 1);
    PowZero();
    while l < u
      invariant l0 <= l && l - 1 <= u <= u0 && Same(s, a[..], l0, u0 + 1) && Settled(a[..], lt, l0, l, u + 1, u0 + 1)
      invariant depth == 0 || (u0 >= l0 && Pow2(depth) <= u0 - l0 + 1)
      decreases u - l
    {
      ghost var s1 := a[..];
      var i := Round(a, lt, l, u);
      if u - l <= 2 {
        Finish(s, s1, a[..], lt, l0, l, u + 1, u0 + 1);
        return;
      }
      ghost var s2 := a[..];
      Rearranged(s, s1, s2, lt, l0, l, u + 1, u0 + 1);
      ghost var d: nat;
      if i - l < u - i {
        d := AuxSort(a, lt, l, i - 1);
        LeftStep(s, s2, a[..], lt, l0, l, i, u + 1, u0 + 1);
        l := i + 1;
      } else {
        d := AuxSort(a, lt, i + 1, u);
        RightStep(s, s2, a[..], lt, l0, l, i, u + 1, u0 + 1);
        u := i - 1;
      }
      PowNext(d);
      if d + 1 > depth { depth := d + 1; }
    }
    SettledSorted(a[..], lt, l0, l, u + 1, u0 + 1);
  }

  /** table.sort: a sorted permutation. */
  method Sort(a: array<Item>, lt: Less)
    requires StrictWeak(lt)
    modifies a
    ensures multiset(a[..]) == multiset(old(a[..]))
    ensures forall p, q :: 0 <= p < q < a.Length ==> !lt(a[q], a[p])
  {
    ghost var s := a[..];
    ghost var d := AuxSort(a, lt, 0, a.Length - 1);
    assert s[0..a.Length] == s && a[..][0..a.Length] == a[..];
    forall p, q | 0 <= p < q < a.Length ensures !lt(a[q], a[p]) { assert Le(lt, a[..][p], a[..][q]); }
  }

  lemma SettledStart(s: seq<Item>, lt: Less, l: int, h: int)
    requires 0 <= l && h <= |s|
    ensures Settled(s, lt, l, l, h, h)
  {
  }

  lemma SettledSorted(s: seq<Item>, lt: Less, l0: int, l: int, h: int, h0: int)
    requires 0 <= l0 && h0 <= |s| && Settled(s, lt, l0, l, h, h0) && h - l <= 1
    ensures SortedIn(s, lt, l0, h0)
  {
  }

  lemma PowZero()
    ensures Pow2(0) == 1
  {
  }

  lemma PowNext(d: nat)
    ensures Pow2(d + 1) == 2 * Pow2(d)
  {
  }

  /** The active range was rearranged: nothing else is disturbed. */
  lemma Rearranged(s: seq<Item>, s1: seq<Item>, s2: seq<Item>, lt: Less, l0: int, l: int, h: int, h0: int)
    requires 0 <= l0 <= l <= h <= h0 <= |s| && Same(s, s1, l0, h0) && Settled(s1, lt, l0, l, h, h0) && Same(s1, s2, l, h)
    ensures Same(s, s2, l0, h0) && Settled(s2, lt, l0, l, h, h0)
  {
    hide Same, Settled;
    SameLen(s, s1, l0, h0);
    SettledSame(s1, s2, lt, l0, l, h, h0);
    SameWider(s1, s2, l, h, l0, h0);
    SameTrans(s, s1, s2, l0, h0);
  }

  /** The active range is sorted: all is. */
  lemma Finish(s: seq<Item>, s1: seq<Item>, s2: seq<Item>, lt: Less, l0: int, l: int, h: int, h0: int)
    requires 0 <= l0 <= l < h <= h0 <= |s| && Same(s, s1, l0, h0) && Settled(s1, lt, l0, l, h, h0) && Same(s1, s2, l, h)
    requires |s2| == |s| && SortedIn(s2, lt, l, h)
    ensures Same(s, s2, l0, h0) && SortedIn(s2, lt, l0, h0)
  {
    hide Same;
    Rearranged(s, s1, s2, lt, l0, l, h, h0);
  }

  lemma LeftStep(s: seq<Item>, s2: seq<Item>, t: seq<Item>, lt: Less, l0: int, l: int, i: int, h: int, h0: int)
    requires StrictWeak(lt) && 0 <= l0 <= l <= i < h <= h0 <= |s| == |s2| && Same(s, s2, l0, h0) && Settled(s2, lt, l0, l, h, h0)
    requires Parted(s2, lt, l, i, h) && Same(s2, t, l, i) && |t| == |s2| && SortedIn(t, lt, l, i)
    ensures Same(s, t, l0, h0) && Settled(t, lt, l0, i + 1, h, h0)
  {
    hide Same, Settled, StrictWeak, Parted, SortedIn;
    PartedLeft(s2, t, lt, l, i, h);
    SameWider(s2, t, l, i, l, h);
    Rearranged(s, s2, t, lt, l0, l, h, h0);
    LeftDone(t, lt, l0, l, i, h, h0);
  }

  lemma RightStep(s: seq<Item>, s2: seq<Item>, t: seq<Item>, lt: Less, l0: int, l: int, i: int, h: int, h0: int)
    requires StrictWeak(lt) && 0 <= l0 <= l <= i < h <= h0 <= |s| == |s2| && Same(s, s2, l0, h0) && Settled(s2, lt, l0, l, h, h0)
    requires Parted(s2, lt, l, i, h) && Same(s2, t, i + 1, h) && |t| == |s2| && SortedIn(t, lt, i + 1, h)
    ensures Same(s, t, l0, h0) && Settled(t, lt, l0, l, i, h0)
  {
    hide Same, Settled, StrictWeak, Parted, SortedIn;
    PartedRight(s2, t, lt, l, i, h);
    SameWider(s2, t, i + 1, h, l, h);
    Rearranged(s, s2, t, lt, l0, l, h, h0);
    RightDone(t, lt, l0, l, i, h, h0);
  }
}
