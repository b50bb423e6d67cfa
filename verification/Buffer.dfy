/** The growable byte buffer, and the frames that a pipe reads through it. */
module ByteBuffer {

  type Byte = n: nat | n < 256

  type Bytes = seq<Byte>

  const UINT32: nat := 0x1_0000_0000

  function Max(a: nat, b: nat): nat {
    if a < b then b else a
  }

  // --------------------------------------------------------------- extents

  /** Where the data lies in its block, and how the block may shrink. */
  datatype Extent = Extent(start: nat, len: nat, alloc: nat, limit: nat, init: nat)

  function Shifted(g: Extent): Extent {
    g.(start := 0, alloc := if g.limit > 0 && g.alloc > g.limit && g.len < g.init then g.init else g.alloc)
  }

  function Prepared(g: Extent, size: nat): Extent {
    var h := if g.start + g.len + size > g.alloc then Shifted(g) else g;
    var need := h.start + h.len + size;
    if need <= h.alloc then h else h.(alloc := if need - h.alloc < 128 then h.alloc + 128 else need)
  }

  function Popped(g: Extent, n: nat): Extent {
    if n < g.len then g.(start := g.start + n, len := g.len - n)
    else g.(start := 0, len := 0, alloc := if g.limit > 0 && g.alloc > g.limit then g.init else g.alloc)
  }

  /** The 32-bit sums of prepare do not wrap around. */
  predicate NoWrap(g: Extent, size: nat) {
    g.start + g.len + size < UINT32 && Prepared(g, size).alloc < UINT32
  }

  /** What is prepared is enough, and no more than that and some slack. */
  lemma PreparedBound(g: Extent, size: nat)
    requires g.start + g.len <= g.alloc
    ensures g.alloc + size + 128 < UINT32 && g.init < UINT32 ==> NoWrap(g, size)
    ensures var h := Prepared(g, size);
            && h.len == g.len && h.start <= g.start && h.start + h.len + size <= h.alloc
            && h.alloc <= Max(Max(g.alloc, g.init), g.len + size + 128)
  {
  }

  /** Valid data lies in buf[start..end]; the rest is room to grow. */
  class Buffer {
    var buf: array<Byte>
    var start: nat
    var end: nat
    var len: nat
    var upperLimit: nat
    const initAlloc: nat

    ghost predicate Valid()
      reads this
    {
      start + len == end <= buf.Length < UINT32 && initAlloc < UINT32
    }

    ghost function Ext(): Extent
      reads this
    {
      Extent(start, len, buf.Length, upperLimit, initAlloc)
    }

    /** The bytes in the queue. */
    ghost function Contents(): Bytes
      requires Valid()
      reads this, buf
    {
      buf[start..end]
    }

    constructor (n: nat)
      requires n < UINT32
      ensures Valid() && Contents() == [] && buf.Length == n && upperLimit == 4 * n % UINT32 && initAlloc == n && fresh(buf)
    {
      buf := new Byte[n](_ => 0);
      start, end, len, upperLimit, initAlloc := 0, 0, 0, 4 * n % UINT32, n;
    }

    /** A new block of the given size, with the valid data at its start. */
    method Move(size: nat)
      requires Valid() && len <= size
      modifies this`buf
      ensures fresh(buf) && buf.Length == size && buf[..len] == old(Contents())
    {
      var newp := new Byte[size](_ => 0);
      var i := 0;
      while i < len
        invariant 0 <= i <= len && buf == old(buf) && buf[..] == old(buf[..]) && fresh(newp) && newp[..i] == buf[start..start + i]
      {
        newp[i] := buf[start + i];
        i := i + 1;
      }
      buf := newp;
    }

    /** memmove to the front. */
    method MoveDown()
      requires Valid()
      modifies buf
      ensures buf[..len] == old(Contents())
    {
      var i := 0;
      while i < len
        invariant 0 <= i <= len
        invariant forall k :: 0 <= k < i ==> buf[k] == old(buf[start + k])
        invariant forall k :: start + i <= k < end ==> buf[k] == old(buf[k])
      {
        buf[i] := buf[start + i];
        i := i + 1;
      }
    }

    /** shift: the data moves to the front, into a smaller block after a summit. */
    method Shift()
      requires Valid()
      modifies this, buf
      ensures Valid() && Contents() == old(Contents()) && start == 0
      ensures buf == old(buf) || fresh(buf)
      ensures Ext() == Shifted(old(Ext()))
    {
      if upperLimit > 0 && buf.Length > upperLimit && len < initAlloc {
        Move(initAlloc);
      } else {
        MoveDown();
      }
      start := 0;
      end := len;
    }

    /** prepare: room for `size` bytes behind the data. */
    method Prepare(size: nat) returns (capacity: nat)
      requires Valid() && NoWrap(Ext(), size)
      modifies this, buf
      ensures Valid() && Contents() == old(Contents()) && end + size <= buf.Length == capacity
      ensures buf == old(buf) || fresh(buf)
      ensures Ext() == Prepared(old(Ext()), size)
      ensures buf.Length <= Max(Max(old(buf.Length), initAlloc), len + size + 128)
    {
      PreparedBound(Ext(), size);
      if end + size > buf.Length { Shift(); }
      var need := end + size;
      if need > buf.Length {
        if need - buf.Length < 128 { need := buf.Length + 128; }
        Realloc(need);
      }
      capacity := buf.Length;
    }

    method Realloc(size: nat)
      requires Valid() && buf.Length <= size < UINT32
      modifies this`buf
      ensures Valid() && Contents() == old(Contents()) && fresh(buf) && buf.Length == size
    {
      var newp := new Byte[size](_ => 0);
      var i := 0;
      while i < buf.Length
        invariant 0 <= i <= buf.Length <= size && newp[..i] == buf[..i] && fresh(newp) && buf == old(buf) && buf[..] == old(buf[..])
      {
        newp[i] := buf[i];
        i := i + 1;
      }
      Within(newp[..], buf[..], i, start, end);
      buf := newp;
    }

    /** flush_push: bytes written behind the data become part of it. */
    method FlushPush(size: nat)
      requires Valid() && end + size <= buf.Length
      modifies this`len, this`end
      ensures Valid() && end == old(end) + size && Ext() == old(Ext()).(len := old(len) + size)
      ensures Contents() == old(Contents()) + buf[old(end)..old(end) + size]
    {
      len := len + size;
      end := end + size;
    }

    /** push: the bytes are appended. */
    method Push(src: Bytes) returns (r: nat)
      requires Valid() && NoWrap(Ext(), |src|)
      modifies this, buf
      ensures Valid() && Contents() == old(Contents()) + src && r == |Contents()|
      ensures buf == old(buf) || fresh(buf)
      ensures var g := Prepared(old(Ext()), |src|); Ext() == g.(len := g.len + |src|)
      ensures buf.Length <= Max(Max(old(buf.Length), initAlloc), old(len) + |src| + 128)
    {
      var c := Prepare(|src|);
      Fill(src);
      FlushPush(|src|);
      r := len;
    }

    /** memcpy to the tail. */
    method Fill(src: Bytes)
      requires Valid() && end + |src| <= buf.Length
      modifies buf
      ensures Valid() && Contents() == old(Contents()) && buf[end..end + |src|] == src
    {
      var i := 0;
      ghost var c := Contents();
      while i < |src|
        invariant 0 <= i <= |src| && buf[end..end + i] == src[..i] && Contents() == c
      {
        buf[end + i] := src[i];
        assert buf[end..end + i + 1] == buf[end..end + i] + [src[i]];
        i := i + 1;
      }
    }

    /** pop: bytes leave at the front.  The result is the length afterwards, but
        the length before when everything leaves. */
    method Pop(n: nat) returns (r: nat)
      requires Valid()
      modifies this
      ensures Valid() && Contents() == (if n >= |old(Contents())| then [] else old(Contents())[n..])
      ensures r == if n >= |old(Contents())| then |old(Contents())| else |Contents()|
      ensures buf == old(buf) || fresh(buf)
      ensures Ext() == Popped(old(Ext()), n)
    {
      var old_ := len;
      if n >= old_ {
        start, end, len := 0, 0, 0;
        if upperLimit > 0 && buf.Length > upperLimit { Move(initAlloc); }
        return old_;
      }
      start := start + n;
      len := len - n;
      return len;
    }

    method Clear()
      requires Valid()
      modifies this`start, this`end, this`len
      ensures Valid() && Contents() == [] && Ext() == old(Ext()).(start := 0, len := 0)
    {
      start, end, len := 0, 0, 0;
    }

    /** Any run of operations is the queue that it describes, as long as no position
        in the block wraps around. */
    method Replay(ops: seq<Op>)
      requires Valid() && Fits(Ext(), ops)
      modifies this, buf
      ensures Valid() && Contents() == After(old(Contents()), ops)
      ensures buf == old(buf) || fresh(buf)
    {
      hide After, Fits, Apply, Allowed, Reach;
      ghost var q := Contents();
      var i := 0;
      assert ops[0..] == ops;
      while i < |ops|
        invariant 0 <= i <= |ops| && Valid()
        invariant Fits(Ext(), ops[i..]) && After(Contents(), ops[i..]) == After(q, ops)
        invariant buf == old(buf) || fresh(buf)
      {
        RunStep(Contents(), Ext(), ops[i..]);
        assert ops[i..][1..] == ops[i + 1..] && ops[i..][0] == ops[i];
        Step(ops[i]);
        i := i + 1;
      }
      RunStep(Contents(), Ext(), ops[i..]);
    }

    method Step(op: Op)
      requires Valid() && Allowed(Ext(), op)
      modifies this, buf
      ensures Valid() && Contents() == Apply(old(Contents()), op) && Ext() == Reach(old(Ext()), op)
      ensures buf == old(buf) || fresh(buf)
    {
      hide Prepared, Shifted, Popped, Max;
      match op {
        case Append(src) =>
          var r := Push(src);
        case Write(size, src) =>
          var c := Prepare(size);
          Fill(src);
          FlushPush(|src|);
        case Take(n) =>
          var r := Pop(n);
        case Compact =>
          Shift();
        case Drop =>
          Clear();
        case ShrinkLimit(n) =>
          upperLimit := n;
      }
    }
  }

  lemma Within(a: Bytes, b: Bytes, n: nat, i: nat, j: nat)
    requires i <= j <= n <= |a| && n <= |b| && a[..n] == b[..n]
    ensures a[i..j] == b[i..j]
  {
    assert a[i..j] == a[..n][i..j];
    assert b[i..j] == b[..n][i..j];
  }

  // ------------------------------------------------------------ whole runs

  /** What a client does: push; prepare, fill some of the room and flush_push;
      pop; shift; clear; set_shrink_limit. */
  datatype Op =
    | Append(src: Bytes)
    | Write(size: nat, src: Bytes)
    | Take(n: nat)
    | Compact
    | Drop
    | ShrinkLimit(n: nat)

  /** The queue as a sequence. */
  function Apply(q: Bytes, op: Op): Bytes {
    match op
    case Append(src) => q + src
    case Write(_, src) => q + src
    case Take(n) => if n >= |q| then [] else q[n..]
    case Drop => []
    case _ => q
  }

  function After(q: Bytes, ops: seq<Op>): Bytes
    decreases |ops|
  {
    if ops == [] then q else After(Apply(q, ops[0]), ops[1..])
  }

  /** The extent after an operation. */
  function Reach(g: Extent, op: Op): Extent {
    match op
    case Append(src) => (var h := Prepared(g, |src|); h.(len := h.len + |src|))
    case Write(size, src) => (var h := Prepared(g, size); h.(len := h.len + |src|))
    case Take(n) => Popped(g, n)
    case Compact => Shifted(g)
    case Drop => g.(start := 0, len := 0)
    case ShrinkLimit(n) => g.(limit := n)
  }

  /** No more is written than was prepared, and no position wraps around. */
  predicate Allowed(g: Extent, op: Op) {
    match op
    case Append(src) => NoWrap(g, |src|)
    case Write(size, src) => |src| <= size && NoWrap(g, size)
    case _ => true
  }

  predicate Fits(g: Extent, ops: seq<Op>)
    decreases |ops|
  {
    ops != [] ==> Allowed(g, ops[0]) && Fits(Reach(g, ops[0]), ops[1..])
  }

  lemma RunStep(q: Bytes, g: Extent, ops: seq<Op>)
    ensures ops == [] ==> After(q, ops) == q
    ensures ops != [] ==> After(q, ops) == After(Apply(q, ops[0]), ops[1..])
    ensures ops != [] && Fits(g, ops) ==> Allowed(g, ops[0]) && Fits(Reach(g, ops[0]), ops[1..])
  {
  }

  /** Half of what the counters can hold. */
  const BOUND: nat := 0x7fff_ff00

  /** A queue that stays below the bound, whatever the extent. */
  predicate Short(n: nat, op: Op) {
    match op
    case Append(src) => n + |src| + 128 <= BOUND
    case Write(size, src) => |src| <= size && n + size + 128 <= BOUND
    case _ => true
  }

  predicate Modest(q: Bytes, ops: seq<Op>)
    decreases |ops|
  {
    ops != [] ==> Short(|q|, ops[0]) && Modest(Apply(q, ops[0]), ops[1..])
  }

  /** Nothing wraps around while the queue stays below 2 GB. */
  lemma {:induction false} ModestFits(q: Bytes, g: Extent, ops: seq<Op>)
    requires Modest(q, ops) && g.len == |q| && g.start + g.len <= g.alloc <= BOUND && g.init <= BOUND
    ensures Fits(g, ops)
    decreases |ops|
  {
    if ops != [] {
      ModestStep(q, g, ops[0]);
      ModestFits(Apply(q, ops[0]), Reach(g, ops[0]), ops[1..]);
    }
  }

  lemma ModestStep(q: Bytes, g: Extent, op: Op)
    requires Short(|q|, op) && g.len == |q| && g.start + g.len <= g.alloc <= BOUND && g.init <= BOUND
    ensures Allowed(g, op)
    ensures var h := Reach(g, op); h.len == |Apply(q, op)| && h.start + h.len <= h.alloc <= BOUND && h.init == g.init
  {
    match op
    case Append(src) => PreparedBound(g, |src|);
    case Write(size, src) => PreparedBound(g, size);
    case _ =>
  }

  /** Beyond that it depends on the place: with 3 GB in the queue, one byte more
      wraps around at the end of a block of 4 GB and not at its start. */
  lemma WrapAround()
    ensures var n := 0xC000_0000; var g := Extent(0x3FFF_FFFF, n, 0xFFFF_FFFF, 0, 0);
            !NoWrap(g, 1) && NoWrap(g.(start := 0), 1)
  {
  }

  /** The bytes that an operation puts in, and those that leave at the front. */
  function Put(op: Op): Bytes {
    match op
    case Append(src) => src
    case Write(_, src) => src
    case _ => []
  }

  function Left(q: Bytes, op: Op): Bytes {
    match op
    case Take(n) => if n >= |q| then q else q[..n]
    case Drop => q
    case _ => []
  }

  function Added(ops: seq<Op>): Bytes {
    if ops == [] then [] else Put(ops[0]) + Added(ops[1..])
  }

  function Removed(q: Bytes, ops: seq<Op>): Bytes
    decreases |ops|
  {
    if ops == [] then [] else Left(q, ops[0]) + Removed(Apply(q, ops[0]), ops[1..])
  }

  lemma StepKeeps(q: Bytes, op: Op)
    ensures Left(q, op) + Apply(q, op) == q + Put(op)
  {
  }

  /** First in, first out: what has left, followed by what is there, is what was
      there followed by what was put in. */
  lemma {:induction false} FirstInFirstOut(q: Bytes, ops: seq<Op>)
    ensures Removed(q, ops) + After(q, ops) == q + Added(ops)
    decreases |ops|
  {
    hide Left, Apply, Put;
    if ops != [] {
      var q', rest := Apply(q, ops[0]), ops[1..];
      StepKeeps(q, ops[0]);
      FirstInFirstOut(q', rest);
      Regroup(Left(q, ops[0]), Removed(q', rest), After(q', rest));
      Regroup(Left(q, ops[0]), q', Added(rest));
      Regroup(q, Put(ops[0]), Added(rest));
    }
  }

  lemma Regroup(a: Bytes, b: Bytes, c: Bytes)
    ensures (a + b) + c == a + (b + c)
  {
  }
}
