/** Every way of writing a string literal, and that the lexer reads the bytes that
    were meant. */
module Spelling {
  import opened Quoting

  /** One byte of a string as it may be written: itself, a letter escape, a decimal
      escape, a backslash in front of any other byte, or a backslash in front of a
      line break of one or two bytes. */
  datatype Way = Raw(c: nat) | Lettered(l: nat, c: nat) | Decimal(ds: Bytes) | Plain(c: nat) | Break(bs: Bytes)

  /** \a, \b, \f, \n, \r, \t and \v. */
  const Letters: set<(nat, nat)> := {(97, 7), (98, 8), (102, 12), (110, 10), (114, 13), (116, 9), (118, 11)}

  predicate Digit(c: nat) { 48 <= c <= 57 }

  function Number(ds: Bytes): nat {
    if ds == [] then 0
    else
      var d := ds[|ds| - 1];
      10 * Number(ds[..|ds| - 1]) + (if Digit(d) then d - 48 else 0)
  }

  /** del is the closing delimiter. */
  predicate Legal(w: Way, del: nat) {
    match w
    case Raw(c) => c !in {del, 92, 10, 13}
    case Lettered(l, c) => (l, c) in Letters
    case Decimal(ds) => 1 <= |ds| <= 3 && (forall d :: d in ds ==> Digit(d)) && Number(ds) <= 255
    case Plain(c) => c !in {97, 98, 102, 110, 114, 116, 118, 10, 13} && !Digit(c)
    case Break(bs) => bs in {[10], [13], [10, 13], [13, 10]}
  }

  function Text(w: Way): Bytes {
    match w
    case Raw(c) => [c]
    case Lettered(l, _) => [92, l]
    case Decimal(ds) => [92] + ds
    case Plain(c) => [92, c]
    case Break(bs) => [92] + bs
  }

  function Meant(w: Way, del: nat): nat
    requires Legal(w, del)
  {
    match w
    case Raw(c) => c
    case Lettered(_, c) => c
    case Decimal(ds) => Number(ds)
    case Plain(c) => c
    case Break(_) => 10
  }

  /** A short decimal escape is not followed by another digit. */
  predicate Apart(w: Way, next: nat) {
    w.Decimal? && |w.ds| < 3 ==> !Digit(next)
  }

  /** The text of a literal behind its opening delimiter. */
  function Spelled(ws: seq<Way>, del: nat): (t: Bytes)
    ensures |t| > 0
  {
    if ws == [] then [del] else Text(ws[0]) + Spelled(ws[1..], del)
  }

  predicate AllLegal(ws: seq<Way>, del: nat) {
    ws != [] ==> Legal(ws[0], del) && Apart(ws[0], Spelled(ws[1..], del)[0]) && AllLegal(ws[1..], del)
  }

  function AllMeant(ws: seq<Way>, del: nat): Bytes
    requires AllLegal(ws, del)
  {
    if ws == [] then [] else [Meant(ws[0], del)] + AllMeant(ws[1..], del)
  }

  function Breaks(ws: seq<Way>): nat {
    if ws == [] then 0 else (if ws[0].Break? then 1 else 0) + Breaks(ws[1..])
  }

  predicate Delimiter(del: nat) { del == 34 || del == 39 }

  // ------------------------------------------------------------- one byte

  /** The text w stands in z at i. */
  ghost predicate Stands(z: Bytes, i: nat, w: Bytes) {
    i + |w| <= |z| && forall j :: 0 <= j < |w| ==> z[i + j] == w[j]
  }

  lemma StandsTwo(z: Bytes, i: nat, v: Bytes, w: Bytes)
    requires Stands(z, i, v + w)
    ensures Stands(z, i, v) && Stands(z, i + |v|, w)
  {
    forall j | 0 <= j < |v| ensures z[i + j] == v[j] { assert (v + w)[j] == v[j]; }
    forall j | 0 <= j < |w| ensures z[i + |v| + j] == w[j] { assert (v + w)[|v| + j] == w[j] && z[i + (|v| + j)] == (v + w)[|v| + j]; }
  }

  lemma StandsAt(z: Bytes, i: nat, w: Bytes)
    requires Stands(z, i, w)
    ensures i + |w| <= |z|
    ensures |w| > 0 ==> At(z, i) == w[0]
    ensures |w| > 1 ==> At(z, i + 1) == w[1]
    ensures |w| > 2 ==> At(z, i + 2) == w[2]
    ensures |w| > 3 ==> At(z, i + 3) == w[3]
  {
    assert |w| > 0 ==> z[i + 0] == w[0];
  }

  lemma NumberIs(ds: Bytes)
    requires 1 <= |ds| <= 3 && forall d :: d in ds ==> Digit(d)
    ensures |ds| == 1 ==> Number(ds) + 48 == ds[0]
    ensures |ds| == 2 ==> Number(ds) + 48 * 11 == 10 * ds[0] + ds[1]
    ensures |ds| == 3 ==> Number(ds) + 48 * 111 == 100 * ds[0] + 10 * ds[1] + ds[2]
  {
    assert ds[0] in ds && (|ds| > 1 ==> ds[1] in ds) && (|ds| > 2 ==> ds[2] in ds);
    if |ds| > 1 { assert ds[..|ds| - 1][..|ds| - 2] == ds[..|ds| - 2]; }
  }

  lemma DigitsRead(z: Bytes, i: nat, ds: Bytes, next: nat)
    requires 1 <= |ds| <= 3 && (forall d :: d in ds ==> Digit(d)) && Stands(z, i, ds + [next]) && (|ds| < 3 ==> !Digit(next))
    ensures IsDigit(At(z, i)) && Digits(z, i) == (Number(ds), |ds|)
  {
    StandsAt(z, i, ds + [next]);
    NumberIs(ds);
    assert ds[0] in ds && (|ds| > 1 ==> ds[1] in ds) && (|ds| > 2 ==> ds[2] in ds);
    hide Stands, Number;
  }

  /** One byte is read as it was meant, and reading goes on behind its text. */
  lemma ReadsOne(z: Bytes, i: nat, w: Way, del: nat, next: nat, line: nat)
    requires Delimiter(del) && Legal(w, del) && Apart(w, next) && next !in {10, 13} && Stands(z, i, Text(w) + [next])
    ensures Lex(z, i, del, line) ==
              if w.Break? && line + 1 >= MAX_INT then TooManyLines
              else Cons(Meant(w, del), Lex(z, i + |Text(w)|, del, if w.Break? then line + 1 else line))
  {
    StandsAt(z, i, Text(w) + [next]);
    if w.Decimal? {
      assert Text(w) + [next] == [92] + (w.ds + [next]);
      StandsTwo(z, i, [92], w.ds + [next]);
      DigitsRead(z, i + 1, w.ds, next);
    }
    hide Stands, Number, Digits;
  }

  // ------------------------------------------------------- whole literals

  /** Whatever way each byte is written in, the lexer reads the bytes meant, if the
      line counter can count the line breaks. */
  lemma {:induction false} ReadsAll(z: Bytes, i: nat, ws: seq<Way>, del: nat, line: nat)
    requires Delimiter(del) && AllLegal(ws, del) && Stands(z, i, Spelled(ws, del)) && line < MAX_INT
    ensures Lex(z, i, del, line) ==
              if line + Breaks(ws) < MAX_INT then Ok(AllMeant(ws, del), i + |Spelled(ws, del)|, line + Breaks(ws)) else TooManyLines
    decreases |ws|
  {
    hide Lex, Stands, Text, Legal, Meant;
    var t := Spelled(ws, del);
    StandsAt(z, i, t);
    if ws == [] {
      EndsAt(z, i, del, line);
    } else {
      var v, rest := Text(ws[0]), Spelled(ws[1..], del);
      assert t == (v + [rest[0]]) + rest[1..] && t == v + rest;
      StandsTwo(z, i, v + [rest[0]], rest[1..]);
      StandsTwo(z, i, v, rest);
      FirstLegal(ws[1..], del);
      ReadsOne(z, i, ws[0], del, rest[0], line);
      var line' := if ws[0].Break? then line + 1 else line;
      if line' < MAX_INT { ReadsAll(z, i + |v|, ws[1..], del, line'); }
    }
  }

  lemma EndsAt(z: Bytes, i: nat, del: nat, line: nat)
    requires At(z, i) == del
    ensures Lex(z, i, del, line) == Ok([], i + 1, line)
  {
  }

  lemma FirstLegal(ws: seq<Way>, del: nat)
    requires AllLegal(ws, del) && Delimiter(del)
    ensures Spelled(ws, del)[0] !in {10, 13}
  {
  }

  /** A decimal escape above 255 is an error. */
  lemma TooLargeRead(z: Bytes, i: nat, ds: Bytes, next: nat, del: nat, line: nat)
    requires Delimiter(del) && |ds| == 3 && (forall d :: d in ds ==> Digit(d)) && Number(ds) > 255
    requires Stands(z, i, [92] + (ds + [next]))
    ensures Lex(z, i, del, line) == TooLarge
  {
    StandsTwo(z, i, [92], ds + [next]);
    StandsAt(z, i, [92]);
    DigitsRead(z, i + 1, ds, next);
    hide Stands, Number, Digits;
  }

  /** A line break that is not behind a backslash, or the end of the input, is an error. */
  lemma UnfinishedRead(z: Bytes, i: nat, del: nat, line: nat)
    requires Delimiter(del) && (i >= |z| || z[i] in {10, 13})
    ensures Lex(z, i, del, line) == Unfinished
  {
  }

  /** Reading a literal, however it is written. */
  method SpellAndRead(ws: seq<Way>, del: nat, line: nat) returns (r: Lexed)
    requires Delimiter(del) && AllLegal(ws, del) && line < MAX_INT
    ensures r.Ok? <==> line + Breaks(ws) < MAX_INT
    ensures r.Ok? ==> r.s == AllMeant(ws, del) && r.next == 1 + |Spelled(ws, del)|
  {
    hide Lex, Legal, AllLegal, Spelled;
    var z := [del] + Spelled(ws, del);
    ReadsAll(z, 1, ws, del, line);
    var ls := new LexState(z, line);
    r := ls.ReadString(del);
  }
}
