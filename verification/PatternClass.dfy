/** Character classes of Lua patterns.  Bytes are numbers; a pattern ends at its
    first zero byte, and reading past its end gives zero. */
module PatternClass {

  type Bytes = seq<nat>

  function At(p: Bytes, i: nat): nat {
    if i < |p| then p[i] else 0
  }

  const ESC: nat := '%' as nat

  predicate IsLower(c: nat) { 'a' as nat <= c <= 'z' as nat }

  predicate IsUpper(c: nat) { 'A' as nat <= c <= 'Z' as nat }

  predicate IsDigit(c: nat) { '0' as nat <= c <= '9' as nat }

  predicate IsAlpha(c: nat) { IsLower(c) || IsUpper(c) }

  predicate IsHex(c: nat) { IsDigit(c) || 'a' as nat <= c <= 'f' as nat || 'A' as nat <= c <= 'F' as nat }

  predicate IsSpace(c: nat) { c == 32 || 9 <= c <= 13 }

  predicate IsCntrl(c: nat) { c < 32 || c == 127 }

  predicate IsPunct(c: nat) { 32 < c < 127 && !IsAlpha(c) && !IsDigit(c) }

  function ToLower(c: nat): nat {
    if IsUpper(c) then c + 32 else c
  }

  /** match_class in the C locale; an upper-case letter complements. */
  function MatchClass(c: nat, cl: nat): bool {
    var k := ToLower(cl);
    if !IsLower(k) || k !in {97, 99, 100, 108, 112, 115, 117, 119, 120, 122} then cl == c
    else
      var res :=
        if k == 'a' as nat then IsAlpha(c)
        else if k == 'c' as nat then IsCntrl(c)
        else if k == 'd' as nat then IsDigit(c)
        else if k == 'l' as nat then IsLower(c)
        else if k == 'p' as nat then IsPunct(c)
        else if k == 's' as nat then IsSpace(c)
        else if k == 'u' as nat then IsUpper(c)
        else if k == 'w' as nat then IsAlpha(c) || IsDigit(c)
        else if k == 'x' as nat then IsHex(c)
        else c == 0;
      if IsLower(cl) then res else !res
  }

  // ------------------------------------------------------------- class ends

  /** Where the class that starts at i ends, or -1 if it is malformed. */
  function ClassEnd(p: Bytes, i: nat): (e: int)
    requires At(p, i) != 0
    ensures e < 0 || i < e <= |p|
  {
    if p[i] == ESC then (if At(p, i + 1) == 0 then -1 else i + 2)
    else if p[i] == '[' as nat then BracketEnd(p, if At(p, i + 1) == '^' as nat then i + 2 else i + 1)
    else i + 1
  }

  /** The loop of classend: one member, then up to the closing bracket. */
  function BracketEnd(p: Bytes, i: nat): (e: int)
    requires i <= |p|
    ensures e < 0 || i < e <= |p|
    decreases |p| - i
  {
    if At(p, i) == 0 then -1
    else
      var j := if p[i] == ESC && At(p, i + 1) != 0 then i + 2 else i + 1;
      if At(p, j) == ']' as nat then j + 1 else BracketEnd(p, j)
  }

  method FindClassEnd(p: Bytes, i: nat) returns (e: int)
    requires At(p, i) != 0
    ensures e == ClassEnd(p, i)
  {
    var j := i + 1;
    if p[i] == ESC {
      if At(p, j) == 0 { return -1; }
      return j + 1;
    }
    if p[i] == '[' as nat {
      if At(p, j) == '^' as nat { j := j + 1; }
      while true
        invariant j <= |p| && BracketEnd(p, j) == ClassEnd(p, i)
        decreases |p| - j
      {
        if At(p, j) == 0 { return -1; }
        j := j + 1;
        if p[j - 1] == ESC && At(p, j) != 0 { j := j + 1; }
        if At(p, j) == ']' as nat { return j + 1; }
      }
    }
    return j;
  }

  // -------------------------------------------------------------- matching

  /** Is c in the set written from i up to the bracket at ec? */
  function InSet(c: nat, p: Bytes, i: nat, ec: nat): bool
    decreases if i < ec then ec - i else 0
  {
    if i >= ec then false
    else if At(p, i) == ESC then MatchClass(c, At(p, i + 1)) || InSet(c, p, i + 2, ec)
    else if At(p, i + 1) == '-' as nat && i + 2 < ec then At(p, i) <= c <= At(p, i + 2) || InSet(c, p, i + 3, ec)
    else At(p, i) == c || InSet(c, p, i + 1, ec)
  }

  /** The set from the bracket at i to the bracket at ec. */
  function InBracket(c: nat, p: Bytes, i: nat, ec: nat): bool {
    if At(p, i + 1) == '^' as nat then !InSet(c, p, i + 2, ec) else InSet(c, p, i + 1, ec)
  }

  method MatchBracketClass(c: nat, p: Bytes, i: nat, ec: nat) returns (r: bool)
    ensures r == InBracket(c, p, i, ec)
  {
    var sig, j := true, i;
    if At(p, j + 1) == '^' as nat {
      sig := false;
      j := j + 1;
    }
    j := j + 1;
    while j < ec
      invariant InBracket(c, p, i, ec) == if InSet(c, p, j, ec) then sig else !sig
      decreases if j < ec then ec - j else 0
    {
      if At(p, j) == ESC {
        j := j + 1;
        if MatchClass(c, At(p, j)) { return sig; }
      } else if At(p, j + 1) == '-' as nat && j + 2 < ec {
        j := j + 2;
        if At(p, j - 2) <= c && c <= At(p, j) { return sig; }
      } else if At(p, j) == c {
        return sig;
      }
      j := j + 1;
    }
    return !sig;
  }

  /** Does c match the single-character class from i to ep? */
  function Single(c: nat, p: Bytes, i: nat, ep: nat): bool {
    var k := At(p, i);
    if k == '.' as nat then true
    else if k == ESC then MatchClass(c, At(p, i + 1))
    else if k == '[' as nat then ep > 0 && InBracket(c, p, i, ep - 1)
    else k == c
  }

  method SingleMatch(c: nat, p: Bytes, i: nat, ep: nat) returns (r: bool)
    requires ep > 0
    ensures r == Single(c, p, i, ep)
  {
    var k := At(p, i);
    if k == '.' as nat { return true; }
    if k == ESC { return MatchClass(c, At(p, i + 1)); }
    if k == '[' as nat {
      r := MatchBracketClass(c, p, i, ep - 1);
      return;
    }
    return k == c;
  }
}
