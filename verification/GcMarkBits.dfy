/** The bits of an object's mark byte, and that the macros on them are the
    operations on colours. */
module GcMarkBits {
  import opened GcHeap

  const WHITE0: bv8 := 1
  const WHITE1: bv8 := 2
  const BLACK: bv8 := 4
  const FIXED: bv8 := 32
  const WHITEBITS: bv8 := 3

  /** The bits that are neither colour nor the fixed bit. */
  const OTHERS: bv8 := 0xD8

  function Shade(bit: bool): bv8 {
    if bit then WHITE1 else WHITE0
  }

  /** The mark byte of an object: its colour, whether it is fixed, and bits that
      mean something else. */
  function Mark(c: Color, fixed: bool, rest: bv8): bv8 {
    (match c case White(b) => Shade(b) case Gray => 0 case Black => BLACK) | (if fixed then FIXED else 0) | (rest & OTHERS)
  }

  /** g->currentwhite: the current shade, with the fixed bit that protects fixed
      objects from the sweep. */
  function CurrentWhite(white: bool): bv8 {
    Shade(white) | FIXED
  }

  function OtherWhite(cur: bv8): bv8 {
    cur ^ WHITEBITS
  }

  /** iswhite, isblack and isgray tell the colours apart. */
  lemma Tests(c: Color, fixed: bool, rest: bv8)
    ensures var m := Mark(c, fixed, rest);
            && (m & WHITEBITS != 0 <==> c.White?)
            && (m & BLACK != 0 <==> c.Black?)
            && (m & FIXED != 0 <==> fixed)
  {
  }

  /** isdead: the object has the other shade of white. */
  lemma IsDeadBits(c: Color, fixed: bool, rest: bv8, white: bool)
    ensures Mark(c, fixed, rest) & OtherWhite(CurrentWhite(white)) & WHITEBITS != 0 <==> c == White(!white)
  {
  }

  /** The test of sweeplist keeps an object unless it is dead and not fixed. */
  lemma SweepTest(c: Color, fixed: bool, rest: bv8, white: bool)
    ensures (Mark(c, fixed, rest) ^ WHITEBITS) & OtherWhite(CurrentWhite(white)) != 0 <==> !(c == White(!white) && !fixed)
  {
  }

  /** white2gray, black2gray, gray2black, makewhite and changewhite change the
      colour and nothing else. */
  lemma Changes(c: Color, fixed: bool, rest: bv8, white: bool)
    ensures var m := Mark(c, fixed, rest);
            && (c.White? ==> m & !WHITEBITS == Mark(Gray, fixed, rest))
            && (c.Black? ==> m & !BLACK == Mark(Gray, fixed, rest))
            && (c.Gray? ==> m | BLACK == Mark(Black, fixed, rest))
            && (m & !(BLACK | WHITEBITS)) | (CurrentWhite(white) & WHITEBITS) == Mark(White(white), fixed, rest)
            && (c.White? ==> m ^ WHITEBITS == Mark(White(!c.bit), fixed, rest))
  {
  }

  /** The flip at the end of the atomic step: the other shade becomes current. */
  lemma Flip(white: bool)
    ensures OtherWhite(CurrentWhite(white)) == CurrentWhite(!white)
  {
  }
}
