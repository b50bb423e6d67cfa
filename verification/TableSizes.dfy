/** The best size for the array part of a table. */
module TableSizes {
  import opened TableHash

  const MAXBITS: nat := 26

  function Pow2(n: nat): (p: nat)
    ensures p > 0
  {
    if n == 0 then 1 else 2 * Pow2(n - 1)
  }

  const MAXASIZE: nat := Pow2(MAXBITS)

  lemma {:induction false} Pow2Grows(a: nat, b: nat)
    requires a < b
    ensures Pow2(a) < Pow2(b) && 2 * Pow2(a) <= Pow2(b)
  {
    if a < b - 1 { Pow2Grows(a, b - 1); }
  }

  predicate IntIn(k: Key, n: nat) {
    k.IntKey? && 1 <= k.i <= n
  }

  function InRange(ks: set<Key>, n: nat): set<Key> {
    set k | k in ks && IntIn(k, n)
  }

  /** How many of the integers 1..n are among the keys. */
  function Count(ks: set<Key>, n: nat): nat {
    |InRange(ks, n)|
  }

  /** The keys between 2^(b-1) and 2^b. */
  predicate InSlice(k: Key, b: nat) {
    IntIn(k, Pow2(b)) && (b == 0 || !IntIn(k, Pow2(b - 1)))
  }

  function Slice(ks: set<Key>, b: nat): set<Key> {
    set k | k in ks && InSlice(k, b)
  }

  /** ceillog2: the slice a positive number belongs to. */
  function CeilLog2(n: nat): (b: nat)
    requires n > 0
    ensures n <= Pow2(b) && (b > 0 ==> Pow2(b - 1) < n)
  {
    if n == 1 then 0 else
    var h := CeilLog2((n + 1) / 2);
    h + 1
  }

  lemma SliceOf(k: Key, b: nat, c: nat)
    requires InSlice(k, b)
    ensures InSlice(k, c) ==> b == c
  {
    if b < c {
      if b < c - 1 { Pow2Grows(b, c - 1); }
    } else if c < b {
      if c < b - 1 { Pow2Grows(c, b - 1); }
    }
  }

  // -------------------------------------------------------------- counting

  /** One key more. */
  lemma SliceMore(ks: set<Key>, k: Key, b: nat)
    requires k !in ks
    ensures |Slice(ks + {k}, b)| == |Slice(ks, b)| + (if InSlice(k, b) then 1 else 0)
  {
    if InSlice(k, b) {
      assert Slice(ks + {k}, b) == Slice(ks, b) + {k};
    } else {
      assert Slice(ks + {k}, b) == Slice(ks, b);
    }
  }

  lemma CountMore(ks: set<Key>, k: Key, n: nat)
    requires k !in ks
    ensures Count(ks + {k}, n) == Count(ks, n) + (if IntIn(k, n) then 1 else 0)
  {
    if IntIn(k, n) {
      assert InRange(ks + {k}, n) == InRange(ks, n) + {k};
    } else {
      assert InRange(ks + {k}, n) == InRange(ks, n);
    }
  }

  lemma CountSlice(ks: set<Key>, b: nat)
    ensures Count(ks, Pow2(b)) == |Slice(ks, b)| + (if b == 0 then 0 else Count(ks, Pow2(b - 1)))
  {
    if b == 0 {
      assert InRange(ks, Pow2(0)) == Slice(ks, 0);
    } else {
      Pow2Grows(b - 1, b);
      assert InRange(ks, Pow2(b)) == Slice(ks, b) + InRange(ks, Pow2(b - 1));
    }
  }

  lemma CountMonotone(ks: set<Key>, m: nat, n: nat)
    requires m <= n
    ensures Count(ks, m) <= Count(ks, n)
  {
    Smaller(InRange(ks, m), InRange(ks, n));
  }

  lemma {:induction false} Smaller<T>(a: set<T>, b: set<T>)
    requires a <= b
    ensures |a| <= |b|
  {
    if a != {} {
      var x :| x in a;
      Smaller(a - {x}, b - {x});
    }
  }

  /** There are at most n integers in 1..n. */
  lemma {:induction false} CountBound(ks: set<Key>, n: nat)
    ensures Count(ks, n) <= n
  {
    if n == 0 {
      assert InRange(ks, 0) == {};
    } else {
      CountBound(ks, n - 1);
      assert InRange(ks, n) <= InRange(ks, n - 1) + {IntKey(n)};
      Smaller(InRange(ks, n), InRange(ks, n - 1) + {IntKey(n)});
    }
  }

  // ---------------------------------------------------------- computesizes

  /** n slots are more than half used by the integers among the keys. */
  predicate Worthy(ks: set<Key>, n: nat) {
    Count(ks, n) > n / 2
  }

  /** The largest power of two up to 2^MAXBITS with more than half its slots in
      use, or zero. */
  ghost predicate BestSize(ks: set<Key>, n: nat) {
    && (n == 0 || exists p: nat :: p <= MAXBITS && n == Pow2(p) && Worthy(ks, n))
    && forall q: nat :: q <= MAXBITS && Worthy(ks, Pow2(q)) ==> Pow2(q) <= n
  }

  /** The keys 1 to n fill more than half of a best size, and at most half of every
      larger power of two. */
  lemma BestMeans(ks: set<Key>, n: nat, p: nat)
    requires BestSize(ks, n)
    ensures n > 0 ==> 2 * |set k | k in ks && k.IntKey? && 1 <= k.i <= n| > n
    ensures p <= MAXBITS && Pow2(p) > n ==> 2 * |set k | k in ks && k.IntKey? && 1 <= k.i <= Pow2(p)| <= Pow2(p)
  {
    assert InRange(ks, n) == set k | k in ks && k.IntKey? && 1 <= k.i <= n;
    assert InRange(ks, Pow2(p)) == set k | k in ks && k.IntKey? && 1 <= k.i <= Pow2(p);
    if p <= MAXBITS && Pow2(p) > n { assert !Worthy(ks, Pow2(p)); }
    if p > 0 { assert Pow2(p) == 2 * Pow2(p - 1); }
  }

  lemma LargestSize()
    ensures MAXASIZE == 67108864 && Pow2(0) == 1
  {
    assert Pow2(5) == 32;
    assert Pow2(10) == 1024 && Pow2(15) == 32768 && Pow2(20) == 1048576 && Pow2(25) == 33554432;
  }

  /** There is only one best size. */
  lemma BestUnique(ks: set<Key>, m: nat, n: nat)
    requires BestSize(ks, m) && BestSize(ks, n)
    ensures m == n
  {
  }

  ghost predicate BestUpTo(ks: set<Key>, n: nat, b: nat) {
    && (n == 0 || exists p: nat :: p < b && p <= MAXBITS && n == Pow2(p) && Worthy(ks, n))
    && forall q: nat :: q < b && q <= MAXBITS && Worthy(ks, Pow2(q)) ==> Pow2(q) <= n
  }

  lemma BestNext(ks: set<Key>, n: nat, b: nat)
    requires BestUpTo(ks, n, b) && b <= MAXBITS
    ensures Worthy(ks, Pow2(b)) ==> BestUpTo(ks, Pow2(b), b + 1)
    ensures !Worthy(ks, Pow2(b)) ==> BestUpTo(ks, n, b + 1)
  {
    forall q: nat | q < b ensures Pow2(q) <= Pow2(b) { Pow2Grows(q, b); }
  }

  /** An empty slice makes no larger size worthwhile. */
  lemma EmptySlice(ks: set<Key>, b: nat)
    requires Slice(ks, b) == {}
    ensures !Worthy(ks, Pow2(b))
  {
    CountSlice(ks, b);
    if b > 0 { CountBound(ks, Pow2(b - 1)); }
  }

  /** No further slice can be worthwhile: all keys are counted, or there are too
      few of them. */
  lemma BestDone(ks: set<Key>, n: nat, b: nat)
    requires BestUpTo(ks, n, b)
    requires b > MAXBITS || Count(ks, MAXASIZE) <= Pow2(b) / 2 || (b > 0 && Count(ks, MAXASIZE) == Count(ks, Pow2(b - 1)))
    ensures BestSize(ks, n)
  {
    forall q: nat | b <= q <= MAXBITS ensures !Worthy(ks, Pow2(q)) {
      if q < MAXBITS { Pow2Grows(q, MAXBITS); }
      CountMonotone(ks, Pow2(q), MAXASIZE);
      if b < q { Pow2Grows(b, q); }
      if b > 0 {
        CountBound(ks, Pow2(b - 1));
        Pow2Grows(b - 1, q);
      }
    }
  }

  /** computesizes. */
  method ComputeSizes(nums: seq<nat>, narray: nat, ghost ks: set<Key>) returns (na: nat, n: nat)
    requires |nums| == MAXBITS + 1 && narray == Count(ks, MAXASIZE)
    requires forall b: nat :: b <= MAXBITS ==> nums[b] == |Slice(ks, b)|
    ensures BestSize(ks, n) && na == Count(ks, n) && n / 2 <= na <= n
  {
    hide Pow2, Count, Slice, Worthy, BestSize;
    var a, i, twotoi := 0, 0, 1;
    na, n := 0, 0;
    SizesStart(ks);
    CountBound(ks, MAXASIZE);
    while twotoi / 2 < narray
      invariant i <= MAXBITS + 1 && twotoi == Pow2(i)
      invariant a == (if i == 0 then 0 else Count(ks, Pow2(i - 1)))
      invariant BestUpTo(ks, n, i) && na == Count(ks, n) && n <= 2 * na
      decreases MAXBITS + 1 - i
    {
      Pow2Next(i);
      CountSlice(ks, i);
      BestNext(ks, n, i);
      WorthyIs(ks, twotoi);
      if nums[i] > 0 {
        a := a + nums[i];
        if a > twotoi / 2 {
          n := twotoi;
          na := a;
        }
      } else {
        EmptySlice(ks, i);
      }
      i := i + 1;
      twotoi := twotoi * 2;
      if a == narray { break; }
    }
    BestDone(ks, n, i);
    CountBound(ks, n);
  }

  lemma SizesStart(ks: set<Key>)
    ensures Count(ks, 0) == 0 && Pow2(0) == 1 && BestUpTo(ks, 0, 0)
  {
    assert InRange(ks, 0) == {};
  }

  lemma Pow2Next(i: nat)
    ensures Pow2(i + 1) == 2 * Pow2(i) && (i == MAXBITS + 1 ==> Pow2(i) / 2 == MAXASIZE)
  {
  }

  lemma WorthyIs(ks: set<Key>, n: nat)
    ensures Worthy(ks, n) <==> Count(ks, n) > n / 2
  {
  }
}
