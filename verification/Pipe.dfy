/** Frames over a pipe: the layout that is written, and the reassembly of what is
    read in pieces of any size. */
module ThreadPipe {
  import opened ByteBuffer

  const HEADER: nat := 4
  const MAX_PROTO_LEN: nat := 32000

  datatype Frame = Frame(proto: nat, payload: Bytes)

  /** PACK_HEADER: two bytes, low one first. */
  function Pack(n: nat): Bytes {
    [n % 256, (n / 256) % 256]
  }

  /** UNPACK_HEADER reads through plain char: a low byte of 128 or more is
      sign-extended and fills the high byte with ones. */
  function Unpack(lo: Byte, hi: Byte): (n: nat)
    ensures n < 0x10000
  {
    if lo >= 128 then 0xFF00 + lo else hi * 256 + lo
  }

  /** A field survives exactly if it has 16 bits and its low byte is below 128, or
      its high byte is all ones anyway. */
  predicate Survives(n: nat) {
    n < 0x10000 && (n % 256 < 128 || n / 256 == 255)
  }

  lemma PackUnpack(n: nat)
    ensures Unpack(Pack(n)[0], Pack(n)[1]) == n <==> Survives(n)
  {
  }

  function Encode(f: Frame): Bytes {
    Pack(f.proto) + Pack(|f.payload|) + f.payload
  }

  function EncodeAll(fs: seq<Frame>): Bytes {
    if fs == [] then [] else Encode(fs[0]) + EncodeAll(fs[1..])
  }

  predicate Legible(f: Frame) {
    Survives(f.proto) && Survives(|f.payload|)
  }

  /** The transmissions that arrive: header fields that survive, and a payload in
      the last frame, because the receiver wants more than a header. */
  predicate Deliverable(fs: seq<Frame>) {
    (forall f :: f in fs ==> Legible(f)) && (fs != [] ==> fs[|fs| - 1].payload != [])
  }

  // ---------------------------------------------------------- reassembly

  datatype Parsed = Parsed(frames: seq<Frame>, rest: Bytes)

  function LengthOf(s: Bytes): nat
    requires |s| > HEADER
  {
    Unpack(s[2], s[3])
  }

  /** A frame is taken off when more than a header is there and the payload is
      complete. */
  predicate Complete(s: Bytes) {
    |s| > HEADER && |s| - HEADER >= LengthOf(s)
  }

  function FirstFrame(s: Bytes): Frame
    requires Complete(s)
  {
    Frame(Unpack(s[0], s[1]), s[HEADER..HEADER + LengthOf(s)])
  }

  function Parse(s: Bytes): Parsed
    decreases |s|
  {
    if !Complete(s) then Parsed([], s)
    else
      var r := Parse(s[HEADER + LengthOf(s)..]);
      Parsed([FirstFrame(s)] + r.frames, r.rest)
  }

  /** The cut does not matter: parsing a, then what is left with b, delivers the
      same frames as parsing all at once. */
  lemma {:induction false} ParseCut(a: Bytes, b: Bytes)
    ensures var x := Parse(a); var y := Parse(x.rest + b); Parse(a + b) == Parsed(x.frames + y.frames, y.rest)
    decreases |a|
  {
    hide Parse, FirstFrame, LengthOf;
    ParseStep(a);
    ParseStep(a + b);
    if Complete(a) {
      var n := HEADER + LengthOf(a);
      CompleteMore(a, b);
      ParseCut(a[n..], b);
      var x := Parse(a[n..]);
      var y := Parse(x.rest + b);
      assert [FirstFrame(a)] + (x.frames + y.frames) == ([FirstFrame(a)] + x.frames) + y.frames;
    } else {
      assert Parse(a).rest + b == a + b;
      assert [] + Parse(a + b).frames == Parse(a + b).frames;
    }
  }

  lemma CompleteMore(a: Bytes, b: Bytes)
    requires Complete(a)
    ensures Complete(a + b) && LengthOf(a + b) == LengthOf(a) && HEADER + LengthOf(a) <= |a|
    ensures FirstFrame(a + b) == FirstFrame(a) && (a + b)[HEADER + LengthOf(a)..] == a[HEADER + LengthOf(a)..] + b
  {
  }

  lemma {:induction false} RestShort(s: Bytes)
    ensures |Parse(s).rest| < HEADER + 0x10000
    decreases |s|
  {
    if Complete(s) { RestShort(s[HEADER + LengthOf(s)..]); }
  }

  /** At the head of a stream stands the frame that was sent, exactly if its
      header is legible and something follows the header. */
  lemma FrameFirst(f: Frame, s: Bytes)
    ensures var t := Encode(f) + s; Complete(t) && FirstFrame(t) == f <==> Legible(f) && f.payload + s != []
    ensures Legible(f) ==> var t := Encode(f) + s; |t| > HEADER ==> HEADER + LengthOf(t) == |Encode(f)| && t[|Encode(f)|..] == s
  {
    PackUnpack(f.proto);
    PackUnpack(|f.payload|);
    var t := Encode(f) + s;
    assert t[0] == Pack(f.proto)[0] && t[1] == Pack(f.proto)[1] && t[2] == Pack(|f.payload|)[0] && t[3] == Pack(|f.payload|)[1];
    assert t[4..4 + |f.payload|] == f.payload;
    assert t[|Encode(f)|..] == s;
    assert Complete(t) ==> |FirstFrame(t).payload| == LengthOf(t);
  }

  lemma EncodeSome(fs: seq<Frame>)
    ensures fs != [] ==> EncodeAll(fs) != []
  {
  }

  /** Frames are delivered in order, once each, and nothing is left over, exactly
      if the transmission is deliverable. */
  lemma {:induction false} ParseExact(fs: seq<Frame>)
    ensures Parse(EncodeAll(fs)) == Parsed(fs, []) <==> Deliverable(fs)
  {
    hide Parse, Encode, Complete, FirstFrame, LengthOf, Legible;
    if fs == [] {
      ParseNone();
    } else {
      var f, gs := fs[0], fs[1..];
      var s := EncodeAll(gs);
      FrameFirst(f, s);
      ParseStep(Encode(f) + s);
      ParseExact(gs);
      EncodeSome(gs);
      DeliverableNext(fs);
      SomeFollows(f, s);
      assert [f] + gs == fs;
    }
  }

  lemma SomeFollows(f: Frame, s: Bytes)
    ensures |Encode(f)| == HEADER + |f.payload|
    ensures Complete(Encode(f) + s) ==> |Encode(f) + s| > HEADER
  {
  }

  lemma DeliverableNext(fs: seq<Frame>)
    requires fs != []
    ensures Deliverable(fs) <==> Legible(fs[0]) && Deliverable(fs[1..]) && (fs[1..] == [] ==> fs[0].payload != [])
  {
    assert forall f :: f in fs <==> f == fs[0] || f in fs[1..];
  }

  /** A frame on the wire: protocol number and length, low bytes first. */
  lemma WireBytes()
    ensures Encode(Frame(0x0201, [7, 8, 9])) == [1, 2, 3, 0, 7, 8, 9]
    ensures |Encode(Frame(0, seq(0x0504, _ => 0)))| == 4 + 0x0504 && Encode(Frame(0, seq(0x0504, _ => 0)))[..4] == [0, 0, 4, 5]
  {
  }

  /** What is lost: an illegible protocol number arrives as another one, and
      behind an illegible length or without a payload the receiver waits. */
  lemma Losses()
    ensures Parse(Encode(Frame(200, [7]))) == Parsed([Frame(0xFFC8, [7])], [])
    ensures var f := Frame(1, seq(128, _ => 7)); Parse(Encode(f)) == Parsed([], Encode(f))
    ensures Parse(Encode(Frame(1, []))) == Parsed([], [1, 0, 0, 0])
  {
    var t := Encode(Frame(200, [7]));
    assert t == [200, 0, 1, 0, 7];
    assert Complete(t) && FirstFrame(t) == Frame(0xFFC8, [7]) && t[5..] == [];
    ParseNone();
    ParseStep(t);
    var f := Frame(1, seq(128, _ => 7));
    assert Encode(f)[2] == 128 && Encode(f)[3] == 0;
    assert Encode(Frame(1, [])) == [1, 0, 0, 0];
  }

  /** The reading side of a pipe. */
  class Pipe {
    const rbuf: Buffer
    /** What the read callback got. */
    var delivered: seq<Frame>

    ghost predicate Valid()
      reads this, rbuf
    {
      rbuf.Valid()
    }

    constructor (b: Buffer)
      requires b.Valid()
      ensures rbuf == b && delivered == []
    {
      rbuf, delivered := b, [];
    }

    /** on_ev_read: what read() returned joins the buffer, and all complete frames
        go to the callback. */
    method OnRead(data: Bytes)
      requires Valid() && |data| <= MAX_PROTO_LEN && NoWrap(rbuf.Ext(), MAX_PROTO_LEN)
      modifies this, rbuf, rbuf.buf
      ensures Valid() && (rbuf.buf == old(rbuf.buf) || fresh(rbuf.buf))
      ensures rbuf.buf.Length <= Max(Max(old(rbuf.buf.Length), rbuf.initAlloc), |old(rbuf.Contents())| + MAX_PROTO_LEN + 128)
      ensures var r := Parse(old(rbuf.Contents()) + data);
              delivered == old(delivered) + r.frames && rbuf.Contents() == r.rest
    {
      hide Parse, Prepared, Shifted, Popped;
      var c := rbuf.Prepare(MAX_PROTO_LEN);
      rbuf.Fill(data);
      rbuf.FlushPush(|data|);
      Drain();
    }

    /** The loop over the complete frames. */
    method Drain()
      requires Valid()
      modifies this, rbuf
      ensures Valid() && (rbuf.buf == old(rbuf.buf) || fresh(rbuf.buf)) && rbuf.buf.Length <= Max(old(rbuf.buf.Length), rbuf.initAlloc)
      ensures var r := Parse(old(rbuf.Contents())); delivered == old(delivered) + r.frames && rbuf.Contents() == r.rest
    {
      hide Parse, Complete, FirstFrame, LengthOf, Popped;
      ghost var s := rbuf.Contents();
      var more := true;
      while more && rbuf.len > HEADER
        invariant Valid() && (rbuf.buf == old(rbuf.buf) || fresh(rbuf.buf)) && rbuf.buf.Length <= Max(old(rbuf.buf.Length), rbuf.initAlloc)
        invariant delivered + Parse(rbuf.Contents()).frames == old(delivered) + Parse(s).frames
        invariant Parse(rbuf.Contents()).rest == Parse(s).rest
        invariant !more ==> !Complete(rbuf.Contents())
        decreases rbuf.len, more
      {
        ParseStep(rbuf.Contents());
        more := TakeFrame();
      }
      ShortIncomplete(rbuf.Contents());
      ParseStep(rbuf.Contents());
    }

    /** One turn of the loop: a complete frame goes to the callback. */
    method TakeFrame() returns (took: bool)
      requires Valid() && rbuf.len > HEADER
      modifies this, rbuf
      ensures Valid() && (rbuf.buf == old(rbuf.buf) || fresh(rbuf.buf)) && rbuf.buf.Length <= Max(old(rbuf.buf.Length), rbuf.initAlloc)
      ensures took == Complete(old(rbuf.Contents()))
      ensures took ==> delivered == old(delivered) + [FirstFrame(old(rbuf.Contents()))]
      ensures took ==> rbuf.Contents() == old(rbuf.Contents())[HEADER + LengthOf(old(rbuf.Contents()))..] && rbuf.len < old(rbuf.len)
      ensures !took ==> delivered == old(delivered) && rbuf.Contents() == old(rbuf.Contents()) && rbuf.len == old(rbuf.len)
    {
      ghost var t := rbuf.Contents();
      var p := rbuf.buf[rbuf.start..rbuf.end];
      var proto, plLen := Unpack(p[0], p[1]), Unpack(p[2], p[3]);
      if rbuf.len - HEADER < plLen { return false; }
      var r := rbuf.Pop(HEADER);
      PopTwice(t, plLen);
      var payload := rbuf.buf[rbuf.start..rbuf.end][..plLen];
      delivered := delivered + [Frame(proto, payload)];
      r := rbuf.Pop(plLen);
      return true;
    }
  }

  lemma ShortIncomplete(s: Bytes)
    ensures |s| <= HEADER ==> !Complete(s)
  {
  }

  lemma ParseNone()
    ensures Parse([]) == Parsed([], [])
  {
  }

  lemma ParseStep(s: Bytes)
    ensures !Complete(s) ==> Parse(s) == Parsed([], s)
    ensures Complete(s) ==> Parse(s) == Parsed([FirstFrame(s)] + Parse(s[HEADER + LengthOf(s)..]).frames, Parse(s[HEADER + LengthOf(s)..]).rest)
  {
  }

  lemma PopTwice(t: Bytes, n: nat)
    requires HEADER + n <= |t|
    ensures t[HEADER..][n..] == t[HEADER + n..] && t[HEADER..][..n] == t[HEADER..HEADER + n]
  {
  }

  function Concat(bs: seq<Bytes>): Bytes {
    if bs == [] then [] else Concat(bs[..|bs| - 1]) + bs[|bs| - 1]
  }

  /** The whole of a transmission, cut into pieces at will: the same frames, in
      order, once each, exactly if it is deliverable. */
  method Receive(fs: seq<Frame>, pieces: seq<Bytes>, p: Pipe)
    requires Concat(pieces) == EncodeAll(fs) && forall i :: 0 <= i < |pieces| ==> |pieces[i]| <= MAX_PROTO_LEN
    requires p.Valid() && p.rbuf.Contents() == [] && p.delivered == []
    requires Max(p.rbuf.buf.Length, p.rbuf.initAlloc) + MAX_PROTO_LEN + 128 < UINT32
    modifies p, p.rbuf, p.rbuf.buf
    ensures p.rbuf.Valid()
    ensures p.delivered == fs && p.rbuf.Contents() == [] <==> Deliverable(fs)
  {
    hide Parse, EncodeAll, Deliverable, Prepared;
    ParseNone();
    var k := 0;
    assert pieces[..0] == [];
    while k < |pieces|
      invariant 0 <= k <= |pieces| && p.Valid() && (p.rbuf.buf == old(p.rbuf.buf) || fresh(p.rbuf.buf))
      invariant Parse(Concat(pieces[..k])) == Parsed(p.delivered, p.rbuf.Contents())
      invariant p.rbuf.buf.Length + MAX_PROTO_LEN + 128 < UINT32
    {
      RestShort(Concat(pieces[..k]));
      PreparedBound(p.rbuf.Ext(), MAX_PROTO_LEN);
      ParseCut(Concat(pieces[..k]), pieces[k]);
      assert pieces[..k + 1][..k] == pieces[..k];
      p.OnRead(pieces[k]);
      k := k + 1;
    }
    assert pieces[..k] == pieces;
    ParseExact(fs);
  }
}
