/** The layout of an instruction word: opcode in 6 bits, A in 8, C and B in 9 each,
    or Bx over both, which as sBx is a signed number in excess notation. */
module CodeWord {

  type Word = bv32

  function GetOp(w: Word): bv32 { w & 0x3F }
  function GetA(w: Word): bv32 { (w >> 6) & 0xFF }
  function GetB(w: Word): bv32 { (w >> 23) & 0x1FF }
  function GetC(w: Word): bv32 { (w >> 14) & 0x1FF }
  function GetBx(w: Word): bv32 { (w >> 14) & 0x3FFFF }

  function SetOp(w: Word, o: bv32): Word { (w & !0x3F) | (o & 0x3F) }
  function SetA(w: Word, a: bv32): Word { (w & !0x3FC0) | ((a << 6) & 0x3FC0) }
  function SetB(w: Word, b: bv32): Word { (w & !0xFF80_0000) | ((b << 23) & 0xFF80_0000) }
  function SetC(w: Word, c: bv32): Word { (w & !0x7F_C000) | ((c << 14) & 0x7F_C000) }
  function SetBx(w: Word, b: bv32): Word { (w & !0xFFFF_C000) | ((b << 14) & 0xFFFF_C000) }

  /** Offsets are C ints, in two's complement. */
  function Above(b: bv32): bv32 { b + 0x1FFFF }
  function Below(x: bv32): bv32 { x - 0x1FFFF }
  function GetSBx(w: Word): bv32 { Below(GetBx(w)) }
  function SetSBx(w: Word, b: bv32): Word { SetBx(w, Above(b)) }

  function CreateABC(o: bv32, a: bv32, b: bv32, c: bv32): Word { o | (a << 6) | (b << 23) | (c << 14) }
  function CreateABx(o: bv32, a: bv32, bx: bv32): Word { o | (a << 6) | (bx << 14) }

  /** An offset from -131071 to 131072. */
  predicate Offset(b: bv32) {
    b <= 0x2_0000 || b >= 0xFFFE_0001
  }

  /** A setter writes its field, cut to its width, and nothing else. */
  lemma SetsOp(w: Word, v: bv32)
    ensures GetOp(SetOp(w, v)) == v & 0x3F
    ensures GetA(SetOp(w, v)) == GetA(w)
    ensures GetBx(SetOp(w, v)) == GetBx(w)
  {
  }

  lemma SetsA(w: Word, v: bv32)
    ensures GetA(SetA(w, v)) == v & 0xFF
    ensures GetOp(SetA(w, v)) == GetOp(w)
    ensures GetBx(SetA(w, v)) == GetBx(w)
  {
  }

  lemma SetsB(w: Word, v: bv32)
    ensures GetB(SetB(w, v)) == v & 0x1FF
    ensures GetOp(SetB(w, v)) == GetOp(w)
    ensures GetA(SetB(w, v)) == GetA(w)
    ensures GetC(SetB(w, v)) == GetC(w)
  {
  }

  lemma SetsC(w: Word, v: bv32)
    ensures GetC(SetC(w, v)) == v & 0x1FF
    ensures GetOp(SetC(w, v)) == GetOp(w)
    ensures GetA(SetC(w, v)) == GetA(w)
    ensures GetB(SetC(w, v)) == GetB(w)
  {
  }

  lemma SetsBx(w: Word, v: bv32)
    ensures GetBx(SetBx(w, v)) == v & 0x3FFFF
    ensures GetOp(SetBx(w, v)) == GetOp(w)
    ensures GetA(SetBx(w, v)) == GetA(w)
  {
  }

  lemma Fits(v: bv32)
    ensures v & 0x3F == v <==> v < 64
    ensures v & 0xFF == v <==> v < 256
    ensures v & 0x1FF == v <==> v < 512
    ensures v & 0x3FFFF == v <==> v <= 0x3FFFF
  {
  }

  lemma Excess(b: bv32)
    ensures Offset(b) <==> Above(b) <= 0x3FFFF
  {
  }

  lemma Inverse(b: bv32)
    ensures Below(Above(b)) == b && Above(Below(b)) == b
  {
  }

  /** Each field comes back exactly if it fits, and the others stay. */
  lemma FieldsBack(w: Word, v: bv32)
    ensures var u := SetOp(w, v); (GetOp(u) == v <==> v < 64) && GetA(u) == GetA(w) && GetBx(u) == GetBx(w)
    ensures var u := SetA(w, v); (GetA(u) == v <==> v < 256) && GetOp(u) == GetOp(w) && GetBx(u) == GetBx(w)
    ensures var u := SetB(w, v); (GetB(u) == v <==> v < 512) && GetOp(u) == GetOp(w) && GetA(u) == GetA(w) && GetC(u) == GetC(w)
    ensures var u := SetC(w, v); (GetC(u) == v <==> v < 512) && GetOp(u) == GetOp(w) && GetA(u) == GetA(w) && GetB(u) == GetB(w)
    ensures var u := SetBx(w, v); (GetBx(u) == v <==> v <= 0x3FFFF) && GetOp(u) == GetOp(w) && GetA(u) == GetA(w)
  {
    hide *;
    Fits(v);
    SetsOp(w, v);
    SetsA(w, v);
    SetsB(w, v);
    SetsC(w, v);
    SetsBx(w, v);
  }

  /** An offset comes back exactly if it is in range; opcode and A stay. */
  lemma OffsetBack(w: Word, b: bv32)
    ensures GetSBx(SetSBx(w, b)) == b <==> Offset(b)
    ensures GetOp(SetSBx(w, b)) == GetOp(w) && GetA(SetSBx(w, b)) == GetA(w)
  {
    hide GetOp, GetA, GetBx, SetBx, Above, Below, Offset;
    var x := Above(b);
    SetsBx(w, x);
    Fits(x);
    Excess(b);
    Inverse(b);
    Inverse(x & 0x3FFFF);
  }

  /** A word is its fields: nothing else is in it. */
  lemma WordIsFields(w: Word)
    ensures CreateABC(GetOp(w), GetA(w), GetB(w), GetC(w)) == w
    ensures CreateABx(GetOp(w), GetA(w), GetBx(w)) == w
    ensures GetBx(w) == (GetB(w) << 9) | GetC(w)
  {
    hide *;
    PartsABC(w);
    PartsABx(w);
    PartsBx(w);
  }

  lemma PartsABC(w: Word)
    ensures CreateABC(GetOp(w), GetA(w), GetB(w), GetC(w)) == w
  {
  }

  lemma PartsABx(w: Word)
    ensures CreateABx(GetOp(w), GetA(w), GetBx(w)) == w
  {
  }

  lemma PartsBx(w: Word)
    ensures GetBx(w) == (GetB(w) << 9) | GetC(w)
  {
  }

  /** A new instruction has the fields it was made from exactly if all fit. */
  lemma Created(o: bv32, a: bv32, b: bv32, c: bv32)
    ensures var w := CreateABC(o, a, b, c);
            GetOp(w) == o && GetA(w) == a && GetB(w) == b && GetC(w) == c <==> o < 64 && a < 256 && b < 512 && c < 512
    ensures var w := CreateABx(o, a, b);
            GetOp(w) == o && GetA(w) == a && GetBx(w) == b <==> o < 64 && a < 256 && b <= 0x3FFFF
  {
    hide *;
    Bounds(CreateABC(o, a, b, c));
    Bounds(CreateABx(o, a, b));
    if o < 64 && a < 256 && b < 512 && c < 512 { MadeABC(o, a, b, c); }
    if o < 64 && a < 256 && b <= 0x3FFFF { MadeABx(o, a, b); }
  }

  lemma Bounds(w: Word)
    ensures GetOp(w) < 64 && GetA(w) < 256 && GetB(w) < 512 && GetC(w) < 512 && GetBx(w) <= 0x3FFFF
  {
  }

  lemma MadeABC(o: bv32, a: bv32, b: bv32, c: bv32)
    requires o < 64 && a < 256 && b < 512 && c < 512
    ensures GetOp(CreateABC(o, a, b, c)) == o
    ensures GetA(CreateABC(o, a, b, c)) == a
    ensures GetB(CreateABC(o, a, b, c)) == b
    ensures GetC(CreateABC(o, a, b, c)) == c
  {
  }

  lemma MadeABx(o: bv32, a: bv32, b: bv32)
    requires o < 64 && a < 256 && b <= 0x3FFFF
    ensures GetOp(CreateABx(o, a, b)) == o
    ensures GetA(CreateABx(o, a, b)) == a
    ensures GetBx(CreateABx(o, a, b)) == b
  {
  }

  const NONE: bv32 := 0xFFFF_FFFF

  /** fixjump and getjump: the offset counts from the next instruction, and a jump
      to itself ends a list. */
  function Distance(pc: bv32, dest: bv32): bv32 { dest - (pc + 1) }

  function Target(pc: bv32, offset: bv32): bv32 { pc + 1 + offset }

  function FixJump(w: Word, pc: bv32, dest: bv32): Word { SetSBx(w, Distance(pc, dest)) }

  function GetJump(w: Word, pc: bv32): bv32 {
    if GetSBx(w) == NONE then NONE else Target(pc, GetSBx(w))
  }

  lemma Apart(pc: bv32, dest: bv32)
    ensures Target(pc, Distance(pc, dest)) == dest
  {
    Cancel(pc, dest);
    calc {
      Target(pc, Distance(pc, dest));
      { hide Target; }
      Target(pc, dest - (pc + 1));
      { hide Distance; }
      pc + 1 + (dest - (pc + 1));
    }
  }

  lemma Cancel(x: bv32, y: bv32)
    ensures x + 1 + (y - (x + 1)) == y
  {
  }

  lemma Itself(pc: bv32)
    ensures Distance(pc, pc) == NONE && Offset(NONE) && Target(pc, NONE) == pc
  {
  }

  /** The target of a jump within range comes back, except for a jump to itself,
      which reads as the end of the list. */
  lemma JumpBack(w: Word, pc: bv32, dest: bv32)
    requires Offset(Distance(pc, dest)) && dest != NONE
    ensures GetJump(FixJump(w, pc, dest), pc) == dest <==> dest != pc
    ensures GetJump(FixJump(w, pc, pc), pc) == NONE
    ensures GetOp(FixJump(w, pc, dest)) == GetOp(w) && GetA(FixJump(w, pc, dest)) == GetA(w)
  {
    hide GetOp, GetA, GetSBx, SetSBx, Offset, Distance, Target;
    Apart(pc, dest);
    Itself(pc);
    OffsetBack(w, Distance(pc, dest));
    OffsetBack(w, NONE);
  }

  /** RK operands: the ninth bit marks a constant.  An index comes back exactly if it
      does not have that bit, and with eight bits it fits the field. */
  lemma ConstantBack(x: bv32)
    ensures (x | 0x100) & 0x100 != 0 && ((x | 0x100) & !0x100 == x <==> x & 0x100 == 0)
    ensures x <= 0xFF ==> (x | 0x100) < 0x200 && (x | 0x100) & !0x100 == x && x & 0x100 == 0
  {
  }

  /** The layout by an example: opcode 1, A 2, B 3, C 4; and the offset 0. */
  lemma WordExample()
    ensures CreateABC(1, 2, 3, 4) == 0x0181_0081 && CreateABx(1, 2, 3) == 0xC081
    ensures SetSBx(0x81, 0) == 0x7FFF_C081 && GetSBx(0x81) == 0xFFFE_0001
  {
  }
}
