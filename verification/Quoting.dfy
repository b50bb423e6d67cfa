/** %q and the lexer: what string.format quotes, the lexer reads back. */
module Quoting {

  type Bytes = seq<nat>

  const QUOTE: nat := '"' as nat
  const BACKSLASH: nat := '\\' as nat
  const NEWLINE: nat := 10
  const RETURN: nat := 13
  const EOZ: int := -1
  const MAX_INT: nat := 0x7fffffff - 2

  // --------------------------------------------------------------- quoting

  function QuoteByte(c: nat): Bytes {
    if c == QUOTE || c == BACKSLASH || c == NEWLINE then [BACKSLASH, c]
    else if c == RETURN then [BACKSLASH, 'r' as nat]
    else if c == 0 then [BACKSLASH, '0' as nat, '0' as nat, '0' as nat]
    else [c]
  }

  function QuoteAll(s: Bytes): Bytes {
    if s == [] then [] else QuoteByte(s[0]) + QuoteAll(s[1..])
  }

  function Quoted(s: Bytes): Bytes {
    [QUOTE] + QuoteAll(s) + [QUOTE]
  }

  /** What %q writes for a quote, a backslash, a newline, a return and a zero byte. */
  lemma QuotedBytes()
    ensures Quoted([34]) == [34, 92, 34, 34] && Quoted([92]) == [34, 92, 92, 34] && Quoted([10]) == [34, 92, 10, 34]
    ensures Quoted([13]) == [34, 92, 114, 34] && Quoted([0]) == [34, 92, 48, 48, 48, 34]
    ensures forall c :: c !in {34, 92, 10, 13, 0} ==> Quoted([c]) == [34, c, 34]
  {
    forall c ensures QuoteAll([c]) == QuoteByte(c) { QuoteAlone(c); }
  }

  lemma QuoteAlone(c: nat)
    ensures QuoteAll([c]) == QuoteByte(c)
  {
    assert [c][1..] == [] && QuoteByte(c) + [] == QuoteByte(c);
  }

  lemma {:induction false} QuoteAppend(s: Bytes, c: nat)
    ensures QuoteAll(s + [c]) == QuoteAll(s) + QuoteByte(c)
  {
    if s == [] {
      assert [c][1..] == [] && s + [c] == [c];
    } else {
      QuoteAppend(s[1..], c);
      assert (s + [c])[1..] == s[1..] + [c];
    }
  }

  /** addquoted. */
  method AddQuoted(b0: Bytes, s: Bytes) returns (b: Bytes)
    ensures b == b0 + Quoted(s)
  {
    b := b0 + [QUOTE];
    var i := 0;
    while i < |s|
      invariant 0 <= i <= |s| && b == b0 + [QUOTE] + QuoteAll(s[..i])
    {
      QuoteAppend(s[..i], s[i]);
      assert s[..i + 1] == s[..i] + [s[i]];
      if s[i] == QUOTE || s[i] == BACKSLASH || s[i] == NEWLINE {
        b := b + [BACKSLASH] + [s[i]];
      } else if s[i] == RETURN {
        b := b + [BACKSLASH, 'r' as nat];
      } else if s[i] == 0 {
        b := b + [BACKSLASH, '0' as nat, '0' as nat, '0' as nat];
      } else {
        b := b + [s[i]];
      }
      i := i + 1;
    }
    assert s[..i] == s;
    b := b + [QUOTE];
  }

  // ----------------------------------------------------------- read_string

  function At(z: Bytes, i: nat): int {
    if i < |z| then z[i] else EOZ
  }

  predicate IsDigit(c: int) { '0' as int <= c <= '9' as int }

  predicate IsNewline(c: int) { c == NEWLINE || c == RETURN }

  /** The letter escapes: what \\a, \\b and so on stand for, or -1. */
  function Letter(c: int): int {
    if c == 'a' as int then 7
    else if c == 'b' as int then 8
    else if c == 'f' as int then 12
    else if c == 'n' as int then 10
    else if c == 'r' as int then 13
    else if c == 't' as int then 9
    else if c == 'v' as int then 11
    else -1
  }

  datatype Lexed = Ok(s: Bytes, next: nat, line: nat) | Unfinished | TooLarge | TooManyLines

  function Cons(c: nat, r: Lexed): Lexed {
    if r.Ok? then Ok([c] + r.s, r.next, r.line) else r
  }

  /** Behind a newline: a pair of different newline bytes counts as one. */
  function SkipNewline(z: Bytes, i: nat): (j: nat)
    ensures i < j
  {
    if IsNewline(At(z, i + 1)) && At(z, i + 1) != At(z, i) then i + 2 else i + 1
  }

  /** Up to three digits from i on: their value and how many. */
  function Digits(z: Bytes, i: nat): (r: (nat, nat))
    requires IsDigit(At(z, i))
    ensures 1 <= r.1 <= 3
  {
    var a := z[i] - '0' as nat;
    if !IsDigit(At(z, i + 1)) then (a, 1)
    else
      var b := 10 * a + (z[i + 1] - '0' as nat);
      if !IsDigit(At(z, i + 2)) then (b, 2) else (10 * b + (z[i + 2] - '0' as nat), 3)
  }

  /** The string from i on up to the delimiter. */
  function Lex(z: Bytes, i: nat, del: nat, line: nat): Lexed
    decreases if i < |z| then |z| - i else 0
  {
    var c := At(z, i);
    if c == del then Ok([], i + 1, line)
    else if c == EOZ || IsNewline(c) then Unfinished
    else if c == BACKSLASH then
      var d := At(z, i + 1);
      if Letter(d) >= 0 then Cons(Letter(d), Lex(z, i + 2, del, line))
      else if IsNewline(d) then
        (if line + 1 >= MAX_INT then TooManyLines else Cons(NEWLINE, Lex(z, SkipNewline(z, i + 1), del, line + 1)))
      else if d == EOZ then Unfinished
      else if !IsDigit(d) then Cons(z[i + 1], Lex(z, i + 2, del, line))
      else
        var v := Digits(z, i + 1);
        if v.0 > 255 then TooLarge else Cons(v.0, Lex(z, i + 1 + v.1, del, line))
    else Cons(z[i], Lex(z, i + 1, del, line))
  }

  /** The lexer: one current character, the input behind it, the token buffer. */
  class LexState {
    const z: Bytes
    var pos: nat
    var current: int
    var linenumber: nat
    var buff: Bytes

    ghost predicate Valid()
      reads this
    {
      current == At(z, pos)
    }

    constructor (input: Bytes, line: nat)
      ensures Valid() && z == input && pos == 0 && linenumber == line && buff == []
    {
      z, pos, linenumber, buff := input, 0, line, [];
      current := At(input, 0);
    }

    method Next()
      requires Valid()
      modifies this`pos, this`current
      ensures Valid() && pos == old(pos) + 1
    {
      pos := pos + 1;
      current := At(z, pos);
    }

    method SaveAndNext()
      requires Valid() && current >= 0
      modifies this`pos, this`current, this`buff
      ensures Valid() && pos == old(pos) + 1 && buff == old(buff) + [old(current)]
    {
      buff := buff + [current];
      Next();
    }

    method IncLineNumber() returns (ok: bool)
      requires Valid() && IsNewline(current)
      modifies this`pos, this`current, this`linenumber
      ensures Valid() && pos == SkipNewline(z, old(pos)) && linenumber == old(linenumber) + 1 && ok == (linenumber < MAX_INT)
    {
      var old_ := current;
      Next();
      if IsNewline(current) && current != old_ { Next(); }
      linenumber := linenumber + 1;
      ok := linenumber < MAX_INT;
    }

    /** The digits of a decimal escape. */
    method ReadDigits() returns (c: nat)
      requires Valid() && IsDigit(current)
      modifies this`pos, this`current
      ensures Valid() && c == Digits(z, old(pos)).0 && pos == old(pos) + Digits(z, old(pos)).1
    {
      var i := 0;
      c := 0;
      ghost var p := pos;
      while true
        invariant 0 <= i < 3 && Valid() && pos == p + i && IsDigit(current)
        invariant (i >= 1 ==> IsDigit(At(z, p))) && (i >= 2 ==> IsDigit(At(z, p + 1)))
        invariant i == 0 ==> c == 0
        invariant i == 1 ==> c == z[p] - '0' as nat
        invariant i == 2 ==> c == 10 * (z[p] - '0' as nat) + (z[p + 1] - '0' as nat)
        decreases 3 - i
      {
        c := 10 * c + (current - '0' as int);
        Next();
        i := i + 1;
        if !(i < 3 && IsDigit(current)) { return; }
      }
    }

    /** The escape behind a backslash. */
    method ReadEscape(del: nat) returns (err: Lexed)
      requires Valid() && current == BACKSLASH && del != BACKSLASH
      modifies this`pos, this`current, this`linenumber, this`buff
      ensures err.Ok? ==> Valid() && old(buff) <= buff && pos > old(pos)
      ensures err.Ok? ==> Lex(z, old(pos), del, old(linenumber)) == Prefixed(buff[|old(buff)|..], Lex(z, pos, del, linenumber))
      ensures !err.Ok? ==> Lex(z, old(pos), del, old(linenumber)) == err
    {
      ghost var b := buff;
      Next();
      if Letter(current) >= 0 {
        buff := buff + [Letter(current)];
        Next();
      } else if IsNewline(current) {
        buff := buff + [NEWLINE];
        var ok := IncLineNumber();
        if !ok { return TooManyLines; }
      } else if current == EOZ {
        assert buff[|b|..] == [];
        return Ok([], 0, 0);
      } else if !IsDigit(current) {
        SaveAndNext();
      } else {
        var c := ReadDigits();
        if c > 255 { return TooLarge; }
        buff := buff + [c];
      }
      assert |buff| == |b| + 1 && buff[|b|..] == [buff[|b|]];
      return Ok([], 0, 0);
    }

    /** read_string, at the opening delimiter. */
    method ReadString(del: nat) returns (r: Lexed)
      requires Valid() && current == del && buff == [] && (del == QUOTE || del == 39)
      modifies this`pos, this`current, this`linenumber, this`buff
      ensures r == Lex(z, old(pos) + 1, del, old(linenumber))
    {
      SaveAndNext();
      ghost var p, line0 := pos, linenumber;
      while current != del
        invariant Valid() && |buff| >= 1 && pos >= p
        invariant Lex(z, p, del, line0) == Prefixed(buff[1..], Lex(z, pos, del, linenumber))
        decreases if pos < |z| then |z| - pos else 0
      {
        ghost var b, q, ln := buff, pos, linenumber;
        if current == EOZ || IsNewline(current) { return Unfinished; }
        if current == BACKSLASH {
          var err := ReadEscape(del);
          if !err.Ok? { return err; }
          PrefixedTwice(b[1..], buff[|b|..], Lex(z, pos, del, linenumber));
          assert buff[1..] == b[1..] + buff[|b|..];
        } else {
          SaveAndNext();
          PrefixedTwice(b[1..], [buff[|b|]], Lex(z, pos, del, linenumber));
          assert buff[1..] == b[1..] + [buff[|b|]];
        }
      }
      r := Ok(buff[1..], pos + 1, linenumber);
      SaveAndNext();
    }
  }

  function Prefixed(b: Bytes, r: Lexed): Lexed {
    if r.Ok? then Ok(b + r.s, r.next, r.line) else r
  }

  lemma PrefixedTwice(a: Bytes, b: Bytes, r: Lexed)
    ensures Prefixed(a, Prefixed(b, r)) == Prefixed(a + b, r)
  {
    if r.Ok? { assert a + (b + r.s) == (a + b) + r.s; }
  }

  // ------------------------------------------------------------ round trip

  function Newlines(s: Bytes): nat {
    if s == [] then 0 else (if s[0] == NEWLINE then 1 else 0) + Newlines(s[1..])
  }

  /** One byte comes back from its quoted form, whatever follows. */
  lemma ByteBack(z: Bytes, i: nat, c: nat, line: nat)
    requires c < 256 && i + |QuoteByte(c)| < |z| && z[i..i + |QuoteByte(c)|] == QuoteByte(c)
    requires z[i + |QuoteByte(c)|] != RETURN
    ensures Lex(z, i, QUOTE, line) ==
              if c == NEWLINE && line + 1 >= MAX_INT then TooManyLines
              else Cons(c, Lex(z, i + |QuoteByte(c)|, QUOTE, if c == NEWLINE then line + 1 else line))
  {
    var q := QuoteByte(c);
    var w := z[i..i + |q|];
    assert z[i] == w[0] && (|q| >= 2 ==> z[i + 1] == w[1]);
    if c == 0 {
      assert z[i + 2] == w[2] && z[i + 3] == w[3];
      assert Digits(z, i + 1) == (0, 3);
    }
  }

  /** Lexing what %q wrote gives back the string, for every byte string whose
      newlines the line counter can count, and fails for the others. */
  lemma {:induction false} QuoteBack(z: Bytes, i: nat, s: Bytes, line: nat)
    requires (forall k :: 0 <= k < |s| ==> s[k] < 256) && i + |QuoteAll(s)| < |z|
    requires z[i..i + |QuoteAll(s)|] == QuoteAll(s) && z[i + |QuoteAll(s)|] == QUOTE && line < MAX_INT
    ensures Lex(z, i, QUOTE, line) ==
              if line + Newlines(s) < MAX_INT then Ok(s, i + |QuoteAll(s)| + 1, line + Newlines(s)) else TooManyLines
    decreases |s|
  {
    hide Lex, QuoteByte;
    if s == [] {
      LexEnd(z, i, line);
    } else {
      var q := QuoteByte(s[0]);
      FirstByte(z, i, s);
      ByteBack(z, i, s[0], line);
      var line' := if s[0] == NEWLINE then line + 1 else line;
      if line' < MAX_INT {
        QuoteBack(z, i + |q|, s[1..], line');
        assert [s[0]] + s[1..] == s;
      }
    }
  }

  /** One newline too many: read on the last line that can be counted. */
  lemma NewlineTooMany()
    ensures Lex(Quoted([NEWLINE]), 1, QUOTE, MAX_INT - 1) == TooManyLines
    ensures Lex(Quoted([NEWLINE]), 1, QUOTE, MAX_INT - 2) == Ok([NEWLINE], 4, MAX_INT - 1)
  {
    hide Lex;
    var s := [NEWLINE];
    QuotedParts(s);
    assert Newlines(s) == 1 && |QuoteAll(s)| == 2;
    QuoteBack(Quoted(s), 1, s, MAX_INT - 1);
    QuoteBack(Quoted(s), 1, s, MAX_INT - 2);
  }

  lemma LexEnd(z: Bytes, i: nat, line: nat)
    requires i < |z| && z[i] == QUOTE
    ensures Lex(z, i, QUOTE, line) == Ok([], i + 1, line)
  {
  }

  /** The quoted form of the first byte, then that of the rest. */
  lemma FirstByte(z: Bytes, i: nat, s: Bytes)
    requires s != [] && i + |QuoteAll(s)| < |z| && z[i..i + |QuoteAll(s)|] == QuoteAll(s) && z[i + |QuoteAll(s)|] == QUOTE
    ensures var q, rest := QuoteByte(s[0]), QuoteAll(s[1..]);
            && |QuoteAll(s)| == |q| + |rest| && z[i..i + |q|] == q && z[i + |q|] != RETURN
            && z[i + |q|..i + |q| + |rest|] == rest
  {
    hide QuoteByte;
    var q, rest := QuoteByte(s[0]), QuoteAll(s[1..]);
    assert QuoteAll(s) == q + rest;
    NoReturn(s[1..]);
    hide QuoteAll;
    Parts(z, i, q, rest);
  }

  lemma Parts(z: Bytes, i: nat, q: Bytes, rest: Bytes)
    requires i + |q + rest| < |z| && z[i..i + |q + rest|] == q + rest && z[i + |q + rest|] == QUOTE && RETURN !in rest
    ensures z[i..i + |q|] == q && z[i + |q|..i + |q| + |rest|] == rest && z[i + |q|] != RETURN
  {
    var all := z[i..i + |q + rest|];
    assert z[i..i + |q|] == all[..|q|];
    assert z[i + |q|..i + |q| + |rest|] == all[|q|..];
    if rest != [] { assert z[i + |q|] == all[|q|] == rest[0]; }
  }

  /** The quoted text holds no carriage return. */
  lemma {:induction false} NoReturn(s: Bytes)
    ensures RETURN !in QuoteAll(s)
  {
    if s != [] { NoReturn(s[1..]); }
  }

  lemma QuotedParts(s: Bytes)
    ensures var z, n := Quoted(s), |QuoteAll(s)|;
            |z| == n + 2 && z[0] == QUOTE && z[1..1 + n] == QuoteAll(s) && z[1 + n] == QUOTE
  {
  }

  /** The round trip: quote, then read with the lexer. */
  method QuoteAndRead(s: Bytes, line: nat) returns (r: Lexed)
    requires (forall k :: 0 <= k < |s| ==> s[k] < 256) && line < MAX_INT
    ensures r.Ok? <==> line + Newlines(s) < MAX_INT
    ensures r.Ok? ==> r.s == s && r.next == |Quoted(s)|
  {
    hide Lex, QuoteAll, Quoted;
    var b := AddQuoted([], s);
    assert b == Quoted(s);
    QuotedParts(s);
    var ls := new LexState(b, line);
    QuoteBack(b, 1, s, line);
    r := ls.ReadString(QUOTE);
  }
}
