/** Precompiled chunks: what the dumper writes and the loader accepts. */
module DumpFormat {

  type Bytes = seq<nat>

  /** A number constant is its eight bytes read as a number. */
  datatype Const = KNil | KBool(b: bool) | KNum(bits: nat) | KStr(s: Text)

  datatype LocVar = LocVar(name: Text, startpc: nat, endpc: nat)

  datatype Header = Header(linedefined: nat, lastlinedefined: nat, nups: nat, numparams: nat, isVararg: nat, maxstack: nat)

  datatype Debug = Debug(lineinfo: seq<nat>, locvars: seq<LocVar>, upvalues: seq<Text>)

  datatype Proto = Proto(source: Bytes, h: Header, code: seq<nat>, k: seq<Const>, p: seq<Proto>, d: Debug)

  /** What a parser of bytes delivers. */
  datatype Got<T> = Got(v: T, rest: Bytes) | Bad

  const MAXCALLS: nat := 200

  // --------------------------------------------------- little-endian numbers

  function Pow256(k: nat): (r: nat)
    ensures r > 0
  {
    if k == 0 then 1 else 256 * Pow256(k - 1)
  }

  function Put(n: nat, k: nat): (s: Bytes)
    ensures |s| == k
  {
    if k == 0 then [] else [n % 256] + Put(n / 256, k - 1)
  }

  function Get(s: Bytes, k: nat): Got<nat> {
    if k == 0 then Got(0, s)
    else if s == [] then Bad
    else
      var r := Get(s[1..], k - 1);
      if r.Bad? then Bad else Got(s[0] + 256 * r.v, r.rest)
  }

  lemma {:induction false} GetPut(n: nat, k: nat, rest: Bytes)
    requires n < Pow256(k)
    ensures Get(Put(n, k) + rest, k) == Got(n, rest)
  {
    if k > 0 {
      assert (Put(n, k) + rest)[1..] == Put(n / 256, k - 1) + rest;
      Quotient(n, Pow256(k - 1));
      GetPut(n / 256, k - 1, rest);
    } else {
      assert Put(n, 0) + rest == rest;
    }
  }

  lemma Quotient(n: nat, p: nat)
    requires n < 256 * p
    ensures n / 256 < p
  {
  }

  /** LoadInt refuses negative numbers. */
  function GetInt(s: Bytes): Got<nat> {
    var r := Get(s, 4);
    if r.Bad? || r.v >= 0x8000_0000 then Bad else r
  }

  predicate Int(n: nat) { n < 0x8000_0000 }

  predicate Byte(n: nat) { n < 256 }

  lemma Powers()
    ensures Pow256(1) == 256 && Pow256(4) == 0x1_0000_0000 && Pow256(8) == 0x1_0000_0000_0000_0000
  {
  }

  lemma GetPutInt(n: nat, rest: Bytes)
    requires Int(n)
    ensures GetInt(Put(n, 4) + rest) == Got(n, rest)
  {
    Powers();
    GetPut(n, 4, rest);
  }

  lemma GetPutByte(n: nat, rest: Bytes)
    requires Byte(n)
    ensures Get(Put(n, 1) + rest, 1) == Got(n, rest)
  {
    Powers();
    GetPut(n, 1, rest);
  }

  // ---------------------------------------------------------------- strings

  datatype Text = Null | Text(s: Bytes)

  /** DumpString: the size with the closing zero byte, then the bytes. */
  function PutText(t: Text): Bytes {
    if t.Null? then Put(0, 8) else Put(|t.s| + 1, 8) + (t.s + [0])
  }

  function GetText(s: Bytes): Got<Text> {
    var r := Get(s, 8);
    if r.Bad? then Bad
    else if r.v == 0 then Got(Null, r.rest)
    else if |r.rest| < r.v then Bad
    else Got(Text(r.rest[..r.v - 1]), r.rest[r.v..])
  }

  predicate TextOk(t: Text) {
    t.Text? ==> |t.s| + 1 < 0x1_0000_0000_0000_0000
  }

  lemma GetPutText(t: Text, rest: Bytes)
    requires TextOk(t)
    ensures GetText(PutText(t) + rest) == Got(t, rest)
  {
    Powers();
    if t.Null? {
      GetPut(0, 8, rest);
    } else {
      var body := t.s + [0];
      assert PutText(t) + rest == Put(|t.s| + 1, 8) + (body + rest);
      GetPut(|t.s| + 1, 8, body + rest);
      assert (body + rest)[..|t.s|] == t.s && (body + rest)[|t.s| + 1..] == rest;
    }
  }

  // ------------------------------------------------------- vectors of words

  function PutWords(ws: seq<nat>): Bytes {
    if ws == [] then [] else Put(ws[0], 4) + PutWords(ws[1..])
  }

  function GetWords(s: Bytes, n: nat): Got<seq<nat>>
    decreases n
  {
    if n == 0 then Got([], s)
    else
      var r := Get(s, 4);
      if r.Bad? then Bad
      else
        var t := GetWords(r.rest, n - 1);
        if t.Bad? then Bad else Got([r.v] + t.v, t.rest)
  }

  predicate WordsOk(ws: seq<nat>) {
    Int(|ws|) && forall i :: 0 <= i < |ws| ==> ws[i] < 0x1_0000_0000
  }

  lemma {:induction false} GetPutWords(ws: seq<nat>, rest: Bytes)
    requires forall i :: 0 <= i < |ws| ==> ws[i] < 0x1_0000_0000
    ensures GetWords(PutWords(ws) + rest, |ws|) == Got(ws, rest)
  {
    hide Put, Get;
    if ws == [] {
      assert PutWords(ws) + rest == rest;
    } else {
      Powers();
      assert PutWords(ws) + rest == Put(ws[0], 4) + (PutWords(ws[1..]) + rest);
      GetPut(ws[0], 4, PutWords(ws[1..]) + rest);
      GetPutWords(ws[1..], rest);
      assert [ws[0]] + ws[1..] == ws;
    }
  }

  /** The count, then the words. */
  function GetVector(s: Bytes): Got<seq<nat>> {
    var n := GetInt(s);
    if n.Bad? then Bad else GetWords(n.rest, n.v)
  }

  function PutVector(ws: seq<nat>): Bytes {
    Put(|ws|, 4) + PutWords(ws)
  }

  lemma GetPutVector(ws: seq<nat>, rest: Bytes)
    requires WordsOk(ws)
    ensures GetVector(PutVector(ws) + rest) == Got(ws, rest)
  {
    assert PutVector(ws) + rest == Put(|ws|, 4) + (PutWords(ws) + rest);
    GetPutInt(|ws|, PutWords(ws) + rest);
    GetPutWords(ws, rest);
  }

  // -------------------------------------------------------------- constants

  function PutConst(c: Const): Bytes {
    match c
    case KNil => Put(0, 1)
    case KBool(b) => Put(1, 1) + Put(if b then 1 else 0, 1)
    case KNum(n) => Put(3, 1) + Put(n, 8)
    case KStr(s) => Put(4, 1) + PutText(s)
  }

  function GetConst(s: Bytes): Got<Const> {
    var t := Get(s, 1);
    if t.Bad? then Bad
    else if t.v == 0 then Got(KNil, t.rest)
    else if t.v == 1 then (var b := Get(t.rest, 1); if b.Bad? then Bad else Got(KBool(b.v != 0), b.rest))
    else if t.v == 3 then (var n := Get(t.rest, 8); if n.Bad? then Bad else Got(KNum(n.v), n.rest))
    else if t.v == 4 then
      var u := GetText(t.rest);
      if u.Bad? then Bad else Got(KStr(u.v), u.rest)
    else Bad
  }

  predicate ConstOk(c: Const) {
    (c.KNum? ==> c.bits < 0x1_0000_0000_0000_0000) && (c.KStr? ==> TextOk(c.s))
  }

  lemma GetPutConst(c: Const, rest: Bytes)
    requires ConstOk(c)
    ensures GetConst(PutConst(c) + rest) == Got(c, rest)
  {
    hide Get, Put;
    Powers();
    match c
    case KNil => GetPutByte(0, rest);
    case KBool(b) =>
      var v := Put(if b then 1 else 0, 1);
      assert PutConst(c) + rest == Put(1, 1) + (v + rest);
      GetPutByte(1, v + rest);
      GetPutByte(if b then 1 else 0, rest);
    case KNum(n) =>
      assert PutConst(c) + rest == Put(3, 1) + (Put(n, 8) + rest);
      GetPutByte(3, Put(n, 8) + rest);
      GetPut(n, 8, rest);
    case KStr(s) =>
      assert PutConst(c) + rest == Put(4, 1) + (PutText(s) + rest);
      GetPutByte(4, PutText(s) + rest);
      GetPutText(s, rest);
  }

  function PutConsts(ks: seq<Const>): Bytes {
    if ks == [] then [] else PutConst(ks[0]) + PutConsts(ks[1..])
  }

  function GetConsts(s: Bytes, n: nat): Got<seq<Const>>
    decreases n
  {
    if n == 0 then Got([], s)
    else
      var r := GetConst(s);
      if r.Bad? then Bad
      else
        var t := GetConsts(r.rest, n - 1);
        if t.Bad? then Bad else Got([r.v] + t.v, t.rest)
  }

  lemma {:induction false} GetPutConsts(ks: seq<Const>, rest: Bytes)
    requires forall i :: 0 <= i < |ks| ==> ConstOk(ks[i])
    ensures GetConsts(PutConsts(ks) + rest, |ks|) == Got(ks, rest)
  {
    hide PutConst, GetConst, ConstOk;
    if ks == [] {
      assert PutConsts(ks) + rest == rest;
    } else {
      assert PutConsts(ks) + rest == PutConst(ks[0]) + (PutConsts(ks[1..]) + rest);
      GetPutConst(ks[0], PutConsts(ks[1..]) + rest);
      GetPutConsts(ks[1..], rest);
      assert [ks[0]] + ks[1..] == ks;
    }
  }

  // ------------------------------------------------------ debug information

  function PutLocVar(v: LocVar): Bytes {
    PutText(v.name) + (Put(v.startpc, 4) + Put(v.endpc, 4))
  }

  function GetLocVar(s: Bytes): Got<LocVar> {
    var t := GetText(s);
    if t.Bad? then Bad
    else
      var a := GetInt(t.rest);
      if a.Bad? then Bad
      else
        var b := GetInt(a.rest);
        if b.Bad? then Bad else Got(LocVar(t.v, a.v, b.v), b.rest)
  }

  predicate LocVarOk(v: LocVar) {
    TextOk(v.name) && Int(v.startpc) && Int(v.endpc)
  }

  lemma GetPutLocVar(v: LocVar, rest: Bytes)
    requires LocVarOk(v)
    ensures GetLocVar(PutLocVar(v) + rest) == Got(v, rest)
  {
    hide Put, PutText, GetText, GetInt;
    var b := Put(v.endpc, 4) + rest;
    var a := Put(v.startpc, 4) + b;
    assert PutLocVar(v) + rest == PutText(v.name) + a;
    GetPutText(v.name, a);
    GetPutInt(v.startpc, b);
    GetPutInt(v.endpc, rest);
  }

  function PutLocVars(vs: seq<LocVar>): Bytes {
    if vs == [] then [] else PutLocVar(vs[0]) + PutLocVars(vs[1..])
  }

  function GetLocVars(s: Bytes, n: nat): Got<seq<LocVar>>
    decreases n
  {
    if n == 0 then Got([], s)
    else
      var r := GetLocVar(s);
      if r.Bad? then Bad
      else
        var t := GetLocVars(r.rest, n - 1);
        if t.Bad? then Bad else Got([r.v] + t.v, t.rest)
  }

  lemma {:induction false} GetPutLocVars(vs: seq<LocVar>, rest: Bytes)
    requires forall i :: 0 <= i < |vs| ==> LocVarOk(vs[i])
    ensures GetLocVars(PutLocVars(vs) + rest, |vs|) == Got(vs, rest)
  {
    hide PutLocVar, GetLocVar, LocVarOk;
    if vs == [] {
      assert PutLocVars(vs) + rest == rest;
    } else {
      assert PutLocVars(vs) + rest == PutLocVar(vs[0]) + (PutLocVars(vs[1..]) + rest);
      GetPutLocVar(vs[0], PutLocVars(vs[1..]) + rest);
      GetPutLocVars(vs[1..], rest);
      assert [vs[0]] + vs[1..] == vs;
    }
  }

  function PutNames(ns: seq<Text>): Bytes {
    if ns == [] then [] else PutText(ns[0]) + PutNames(ns[1..])
  }

  function GetNames(s: Bytes, n: nat): Got<seq<Text>>
    decreases n
  {
    if n == 0 then Got([], s)
    else
      var r := GetText(s);
      if r.Bad? then Bad
      else
        var t := GetNames(r.rest, n - 1);
        if t.Bad? then Bad else Got([r.v] + t.v, t.rest)
  }

  lemma {:induction false} GetPutNames(ns: seq<Text>, rest: Bytes)
    requires forall i :: 0 <= i < |ns| ==> TextOk(ns[i])
    ensures GetNames(PutNames(ns) + rest, |ns|) == Got(ns, rest)
  {
    hide PutText, GetText, TextOk;
    if ns == [] {
      assert PutNames(ns) + rest == rest;
    } else {
      assert PutNames(ns) + rest == PutText(ns[0]) + (PutNames(ns[1..]) + rest);
      GetPutText(ns[0], PutNames(ns[1..]) + rest);
      GetPutNames(ns[1..], rest);
      assert [ns[0]] + ns[1..] == ns;
    }
  }

  function PutDebug(d: Debug): Bytes {
    PutVector(d.lineinfo) + ((Put(|d.locvars|, 4) + PutLocVars(d.locvars)) + (Put(|d.upvalues|, 4) + PutNames(d.upvalues)))
  }

  function GetDebug(s: Bytes): Got<Debug> {
    var a := GetVector(s);
    if a.Bad? then Bad else
    var n := GetInt(a.rest);
    if n.Bad? then Bad else
    var b := GetLocVars(n.rest, n.v);
    if b.Bad? then Bad else
    var m := GetInt(b.rest);
    if m.Bad? then Bad else
    var c := GetNames(m.rest, m.v);
    if c.Bad? then Bad else Got(Debug(a.v, b.v, c.v), c.rest)
  }

  predicate DebugOk(d: Debug) {
    && WordsOk(d.lineinfo) && Int(|d.locvars|) && Int(|d.upvalues|)
    && (forall i :: 0 <= i < |d.locvars| ==> LocVarOk(d.locvars[i]))
    && (forall i :: 0 <= i < |d.upvalues| ==> TextOk(d.upvalues[i]))
  }

  lemma GetPutDebug(d: Debug, rest: Bytes)
    requires DebugOk(d)
    ensures GetDebug(PutDebug(d) + rest) == Got(d, rest)
  {
    hide Put, PutVector, GetVector, PutLocVars, GetLocVars, PutNames, GetNames, GetInt;
    var e := PutNames(d.upvalues) + rest;
    var c := Put(|d.upvalues|, 4) + e;
    var b := PutLocVars(d.locvars) + c;
    var a := Put(|d.locvars|, 4) + b;
    assert PutDebug(d) + rest == PutVector(d.lineinfo) + a;
    GetPutVector(d.lineinfo, a);
    GetPutInt(|d.locvars|, b);
    GetPutLocVars(d.locvars, c);
    GetPutInt(|d.upvalues|, e);
    GetPutNames(d.upvalues, rest);
  }

  // ----------------------------------------------------------------- header

  function PutHeader(h: Header): Bytes {
    Put(h.linedefined, 4) + (Put(h.lastlinedefined, 4) +
    (Put(h.nups, 1) + (Put(h.numparams, 1) + (Put(h.isVararg, 1) + Put(h.maxstack, 1)))))
  }

  function GetHeader(s: Bytes): Got<Header> {
    var a := GetInt(s);
    if a.Bad? then Bad else
    var b := GetInt(a.rest);
    if b.Bad? then Bad else
    var c := Get(b.rest, 1);
    if c.Bad? then Bad else
    var d := Get(c.rest, 1);
    if d.Bad? then Bad else
    var e := Get(d.rest, 1);
    if e.Bad? then Bad else
    var f := Get(e.rest, 1);
    if f.Bad? then Bad else Got(Header(a.v, b.v, c.v, d.v, e.v, f.v), f.rest)
  }

  predicate HeaderOk(h: Header) {
    Int(h.linedefined) && Int(h.lastlinedefined) && Byte(h.nups) && Byte(h.numparams) && Byte(h.isVararg) && Byte(h.maxstack)
  }

  lemma GetPutHeader(h: Header, rest: Bytes)
    requires HeaderOk(h)
    ensures GetHeader(PutHeader(h) + rest) == Got(h, rest)
  {
    hide Put, Get, GetInt;
    var e := Put(h.maxstack, 1) + rest;
    var d := Put(h.isVararg, 1) + e;
    var c := Put(h.numparams, 1) + d;
    var b := Put(h.nups, 1) + c;
    var a := Put(h.lastlinedefined, 4) + b;
    assert PutHeader(h) + rest == Put(h.linedefined, 4) + a;
    GetPutInt(h.linedefined, a);
    GetPutInt(h.lastlinedefined, b);
    GetPutByte(h.nups, c);
    GetPutByte(h.numparams, d);
    GetPutByte(h.isVararg, e);
    GetPutByte(h.maxstack, rest);
  }

  // -------------------------------------------------------------- functions

  const NoDebug := Debug([], [], [])

  /** DumpFunction: the source only if it is not the parent's. */
  function PutFunction(f: Proto, parent: Text, strip: bool): Bytes
    decreases f, 1, 1
  {
    PutText(if Text(f.source) == parent || strip then Null else Text(f.source)) + (PutHeader(f.h) +
    (PutVector(f.code) + PutParts(f, strip)))
  }

  /** Constants, nested functions and debug data. */
  function PutParts(f: Proto, strip: bool): Bytes
    decreases f, 1, 0
  {
    (Put(|f.k|, 4) + PutConsts(f.k)) + ((Put(|f.p|, 4) + PutFunctions(f, 0, strip)) + PutDebug(if strip then NoDebug else f.d))
  }

  /** The nested functions from the i-th on. */
  function PutFunctions(f: Proto, i: nat, strip: bool): Bytes
    requires i <= |f.p|
    decreases f, 0, |f.p| - i
  {
    if i == |f.p| then [] else PutFunction(f.p[i], Text(f.source), strip) + PutFunctions(f, i + 1, strip)
  }

  /** The parts of a function, as loaded. */
  function GetFunction(s: Bytes, parent: Bytes, calls: nat, check: Proto -> bool): Got<Proto>
    decreases if calls <= MAXCALLS then MAXCALLS + 1 - calls else 0, 1, 0
  {
    if calls + 1 > MAXCALLS then Bad else
    var t := GetText(s);
    if t.Bad? then Bad else
    var source := if t.v.Null? then parent else t.v.s;
    var h := GetHeader(t.rest);
    if h.Bad? then Bad else
    var code := GetVector(h.rest);
    if code.Bad? then Bad else
    var nk := GetInt(code.rest);
    if nk.Bad? then Bad else
    var ks := GetConsts(nk.rest, nk.v);
    if ks.Bad? then Bad else
    var np := GetInt(ks.rest);
    if np.Bad? then Bad else
    var ps := GetFunctions(np.rest, source, np.v, calls + 1, check);
    if ps.Bad? then Bad else
    var d := GetDebug(ps.rest);
    if d.Bad? then Bad else
    var f := Proto(source, h.v, code.v, ks.v, ps.v, d.v);
    if check(f) then Got(f, d.rest) else Bad
  }

  function GetFunctions(s: Bytes, parent: Bytes, n: nat, calls: nat, check: Proto -> bool): Got<seq<Proto>>
    requires calls <= MAXCALLS
    decreases MAXCALLS + 1 - calls, 2, n
  {
    if n == 0 then Got([], s)
    else
      var r := GetFunction(s, parent, calls, check);
      if r.Bad? then Bad
      else
        var t := GetFunctions(r.rest, parent, n - 1, calls, check);
        if t.Bad? then Bad else Got([r.v] + t.v, t.rest)
  }

  /** The function as it is after loading: with strip, without debug data. */
  function Loaded(f: Proto, parent: Bytes, strip: bool): Proto
    decreases f, 1
  {
    Proto(if strip then parent else f.source, f.h, f.code, f.k, LoadedAll(f, parent, 0, strip), if strip then NoDebug else f.d)
  }

  function LoadedAll(f: Proto, parent: Bytes, i: nat, strip: bool): (ps: seq<Proto>)
    requires i <= |f.p|
    ensures |ps| == |f.p| - i
    decreases f, 0, |f.p| - i
  {
    if i == |f.p| then [] else [Loaded(f.p[i], parent, strip)] + LoadedAll(f, parent, i + 1, strip)
  }

  /** Without strip nothing changes. */
  lemma {:induction false} LoadedSame(f: Proto, parent: Bytes)
    ensures Loaded(f, parent, false) == f
    decreases f, 1
  {
    LoadedAllSame(f, parent, 0);
    assert f.p[0..] == f.p;
  }

  lemma {:induction false} LoadedAllSame(f: Proto, parent: Bytes, i: nat)
    requires i <= |f.p|
    ensures LoadedAll(f, parent, i, false) == f.p[i..]
    decreases f, 0, |f.p| - i
  {
    if i < |f.p| {
      LoadedSame(f.p[i], parent);
      LoadedAllSame(f, parent, i + 1);
      assert f.p[i..] == [f.p[i]] + f.p[i + 1..];
    }
  }

  /** g is f without debug data, all through the tree: the same headers, code,
      constants and nested functions, and nothing else. */
  predicate StripOf(g: Proto, f: Proto, source: Bytes)
    decreases f
  {
    && g.h == f.h && g.code == f.code && g.k == f.k && g.source == source
    && g.d.lineinfo == [] && g.d.locvars == [] && g.d.upvalues == []
    && |g.p| == |f.p| && forall i :: 0 <= i < |f.p| ==> StripOf(g.p[i], f.p[i], source)
  }

  lemma {:induction false} LoadedStripped(f: Proto, parent: Bytes)
    ensures StripOf(Loaded(f, parent, true), f, parent)
    decreases f
  {
    var g := Loaded(f, parent, true);
    forall i | 0 <= i < |f.p| ensures StripOf(g.p[i], f.p[i], parent) {
      LoadedAt(f, parent, 0, true, i);
      LoadedStripped(f.p[i], parent);
    }
  }

  /** Fits the format, and within the loader's depth. */
  predicate Fits(f: Proto, calls: nat)
    decreases f
  {
    && calls + 1 <= MAXCALLS && TextOk(Text(f.source)) && HeaderOk(f.h) && WordsOk(f.code) && DebugOk(f.d)
    && Int(|f.k|) && (forall i :: 0 <= i < |f.k| ==> ConstOk(f.k[i]))
    && Int(|f.p|) && (forall i :: 0 <= i < |f.p| ==> Fits(f.p[i], calls + 1))
  }

  /** The code check accepts every function of the loaded tree. */
  predicate Checked(f: Proto, check: Proto -> bool)
    decreases f
  {
    check(f) && forall i :: 0 <= i < |f.p| ==> Checked(f.p[i], check)
  }

  /** Loading what was dumped. */
  lemma {:induction false} GetPutFunction(f: Proto, pd: Text, pl: Bytes, strip: bool, calls: nat, check: Proto -> bool, rest: Bytes)
    requires Fits(f, calls) && Checked(Loaded(f, pl, strip), check)
    requires !strip && pd == Text(f.source) ==> pl == f.source
    ensures GetFunction(PutFunction(f, pd, strip) + rest, pl, calls, check) == Got(Loaded(f, pl, strip), rest)
    decreases f, 1
  {
    hide Put, PutText, GetText, PutHeader, GetHeader, PutVector, GetVector, PutConsts, GetConsts, PutDebug, GetDebug, GetInt,
         PutParts, PutFunctions, GetFunctions, LoadedAll, TextOk, HeaderOk, WordsOk, DebugOk, ConstOk;
    var src := if Text(f.source) == pd || strip then Null else Text(f.source);
    var d := if strip then NoDebug else f.d;
    var s6 := PutDebug(d) + rest;
    var s5 := PutFunctions(f, 0, strip) + s6;
    var s4 := Put(|f.p|, 4) + s5;
    var s3 := PutConsts(f.k) + s4;
    var s2 := Put(|f.k|, 4) + s3;
    var s1 := PutVector(f.code) + s2;
    var s0 := PutHeader(f.h) + s1;
    PartsRest(f, strip, rest);
    assert PutFunction(f, pd, strip) + rest == PutText(src) + (PutHeader(f.h) + (PutVector(f.code) + (PutParts(f, strip) + rest)));
    NullOk(src);
    GetPutText(src, s0);
    GetPutHeader(f.h, s1);
    GetPutVector(f.code, s2);
    GetPutInt(|f.k|, s3);
    GetPutConsts(f.k, s4);
    GetPutInt(|f.p|, s5);
    var source := if strip then pl else f.source;
    LoadedParts(f, pl, strip, check);
    GetPutFunctions(f, 0, source, strip, calls + 1, check, s6);
    LoadedSource(f, pl, source, strip);
    NoDebugOk();
    GetPutDebug(d, rest);
  }

  lemma PartsRest(f: Proto, strip: bool, rest: Bytes)
    ensures PutParts(f, strip) + rest == Put(|f.k|, 4) + (PutConsts(f.k) + (Put(|f.p|, 4) + (PutFunctions(f, 0, strip) +
              (PutDebug(if strip then NoDebug else f.d) + rest))))
  {
    hide Put, PutConsts, PutFunctions, PutDebug;
  }

  lemma NullOk(t: Text)
    ensures t.Null? ==> TextOk(t)
  {
  }

  lemma NoDebugOk()
    ensures DebugOk(NoDebug)
  {
  }

  /** The parent's source matters only when debug data is stripped. */
  lemma LoadedSource(f: Proto, pl: Bytes, source: Bytes, strip: bool)
    requires strip ==> source == pl
    ensures LoadedAll(f, source, 0, strip) == LoadedAll(f, pl, 0, strip)
  {
    if !strip {
      LoadedAllSame(f, pl, 0);
      LoadedAllSame(f, source, 0);
    }
  }

  lemma LoadedParts(f: Proto, pl: Bytes, strip: bool, check: Proto -> bool)
    requires Checked(Loaded(f, pl, strip), check)
    ensures forall i :: 0 <= i < |f.p| ==> Checked(Loaded(f.p[i], if strip then pl else f.source, strip), check)
  {
    forall i | 0 <= i < |f.p| ensures Checked(Loaded(f.p[i], if strip then pl else f.source, strip), check) {
      LoadedAt(f, pl, 0, strip, i);
      assert Checked(Loaded(f, pl, strip).p[i], check);
      if !strip {
        LoadedSame(f.p[i], pl);
        LoadedSame(f.p[i], f.source);
      }
    }
  }

  lemma {:induction false} LoadedAt(f: Proto, pl: Bytes, i: nat, strip: bool, j: nat)
    requires i + j < |f.p|
    ensures LoadedAll(f, pl, i, strip)[j] == Loaded(f.p[i + j], pl, strip)
    decreases j
  {
    hide Loaded;
    if j > 0 { LoadedAt(f, pl, i + 1, strip, j - 1); }
  }

  lemma {:induction false} GetPutFunctions(f: Proto, i: nat, source: Bytes, strip: bool, calls: nat, check: Proto -> bool, rest: Bytes)
    requires i <= |f.p| && calls <= MAXCALLS && (forall j :: 0 <= j < |f.p| ==> Fits(f.p[j], calls))
    requires forall j :: 0 <= j < |f.p| ==> Checked(Loaded(f.p[j], source, strip), check)
    requires !strip ==> source == f.source
    ensures GetFunctions(PutFunctions(f, i, strip) + rest, source, |f.p| - i, calls, check) == Got(LoadedAll(f, source, i, strip), rest)
    decreases f, 0, |f.p| - i
  {
    hide PutFunction, GetFunction, Loaded, Fits, Checked;
    if i == |f.p| {
      assert PutFunctions(f, i, strip) + rest == rest;
    } else {
      var s := PutFunctions(f, i + 1, strip) + rest;
      assert PutFunctions(f, i, strip) + rest == PutFunction(f.p[i], Text(f.source), strip) + s;
      GetPutFunction(f.p[i], Text(f.source), source, strip, calls, check, s);
      GetPutFunctions(f, i + 1, source, strip, calls, check, rest);
    }
  }

  // ---------------------------------------------------------------- chunks

  /** luaU_header: signature, version, format, byte order, sizes. */
  const Signature: Bytes := [27, 76, 117, 97, 0x51, 0, 1, 4, 8, 4, 8, 0]

  /** The parent source of a chunk: "=?". */
  const Unknown: Bytes := [61, 63]

  function Dump(f: Proto, strip: bool): Bytes {
    Signature + PutFunction(f, Null, strip)
  }

  function Undump(s: Bytes, check: Proto -> bool): Got<Proto> {
    if |s| < |Signature| || s[..|Signature|] != Signature then Bad
    else GetFunction(s[|Signature|..], Unknown, 0, check)
  }

  /** undump(dump(f)) is f, or f without its debug data. */
  lemma RoundTrip(f: Proto, strip: bool, check: Proto -> bool, rest: Bytes)
    requires Fits(f, 0) && Checked(Loaded(f, Unknown, strip), check)
    ensures Undump(Dump(f, strip) + rest, check) == Got(Loaded(f, Unknown, strip), rest)
    ensures !strip ==> Loaded(f, Unknown, strip) == f
    ensures strip ==> StripOf(Loaded(f, Unknown, strip), f, [61, 63])
  {
    hide PutFunction, GetFunction, Fits, Checked;
    var s := Dump(f, strip) + rest;
    assert s[..|Signature|] == Signature && s[|Signature|..] == PutFunction(f, Null, strip) + rest;
    GetPutFunction(f, Null, Unknown, strip, 0, check, rest);
    LoadedSame(f, Unknown);
    if strip { LoadedStripped(f, Unknown); }
  }

  // ------------------------------------------------------- bytes on the wire

  lemma Little(n: nat)
    requires n < 256
    ensures Put(n, 1) == [n] && Put(n, 4) == [n, 0, 0, 0] && Put(n, 8) == [n, 0, 0, 0, 0, 0, 0, 0]
  {
    LittleZeros();
    assert n / 256 == 0 && n % 256 == n;
    assert Put(n, 4) == [n] + Put(0, 3) && Put(n, 8) == [n] + Put(0, 7) && Put(n, 1) == [n] + Put(0, 0);
  }

  lemma LittleZeros()
    ensures Put(0, 3) == [0, 0, 0] && Put(0, 7) == [0, 0, 0, 0, 0, 0, 0] && Put(0, 0) == []
  {
    assert Put(0, 1) == [0] + Put(0, 0) && Put(0, 2) == [0] + Put(0, 1) && Put(0, 3) == [0] + Put(0, 2);
    assert Put(0, 4) == [0] + Put(0, 3) && Put(0, 5) == [0] + Put(0, 4) && Put(0, 6) == [0] + Put(0, 5);
    assert Put(0, 7) == [0] + Put(0, 6);
  }

  /** The lowest byte comes first. */
  lemma LowByteFirst()
    ensures Put(0x0403_0201, 4) == [1, 2, 3, 4]
  {
    assert Put(4, 1) == [4] + Put(0, 0);
    assert Put(0x0403, 2) == [3] + Put(4, 1) && Put(0x0403_02, 3) == [2] + Put(0x0403, 2);
    assert Put(0x0403_0201, 4) == [1] + Put(0x0403_02, 3);
  }

  /** A function with one of everything: line 1 to 2, no upvalues, 3 parameters, no
      varargs, 5 registers; one instruction; the constants nil, true, a number and
      "s"; a local x for instructions 0 to 1 and an upvalue u. */
  const Sample := Proto([64], Header(1, 2, 0, 3, 4, 5), [0x0403_0201], [KNil, KBool(true), KNum(6), KStr(Text([115]))], [],
                        Debug([7], [LocVar(Text([120]), 0, 1)], [Text([117])]))

  lemma SampleText(c: nat)
    ensures PutText(Text([c])) == [2, 0, 0, 0, 0, 0, 0, 0, c, 0]
  {
    hide Put;
    Little(2);
  }

  lemma SampleHeader()
    ensures PutHeader(Sample.h) == [1, 0, 0, 0, 2, 0, 0, 0, 0, 3, 4, 5]
  {
    hide Put;
    Little(0);
    Little(1);
    Little(2);
    Little(3);
    Little(4);
    Little(5);
  }

  lemma SampleConsts()
    ensures PutConsts(Sample.k) == [0, 1, 1, 3, 6, 0, 0, 0, 0, 0, 0, 0, 4, 2, 0, 0, 0, 0, 0, 0, 0, 115, 0]
  {
    hide Put, PutText;
    Little(0);
    Little(1);
    Little(3);
    Little(4);
    Little(6);
    SampleText(115);
    var k := Sample.k;
    var s3 := [4, 2, 0, 0, 0, 0, 0, 0, 0, 115, 0];
    assert PutConsts(k[3..]) == s3 by { assert k[3..] == [k[3]]; assert PutConsts([k[3]]) == PutConst(k[3]) + PutConsts([]); }
    assert k[2..] == [k[2]] + k[3..] && k[1..] == [k[1]] + k[2..] && k == [k[0]] + k[1..];
    assert PutConsts(k[2..]) == PutConst(k[2]) + s3;
    assert PutConsts(k[1..]) == PutConst(k[1]) + (PutConst(k[2]) + s3);
    assert PutConsts(k) == PutConst(k[0]) + (PutConst(k[1]) + (PutConst(k[2]) + s3));
  }

  lemma SampleDebug()
    ensures PutDebug(Sample.d) == [1, 0, 0, 0, 7, 0, 0, 0] +
              (([1, 0, 0, 0] + [2, 0, 0, 0, 0, 0, 0, 0, 120, 0, 0, 0, 0, 0, 1, 0, 0, 0]) +
               ([1, 0, 0, 0] + [2, 0, 0, 0, 0, 0, 0, 0, 117, 0]))
  {
    hide Put, PutText;
    Little(0);
    Little(1);
    Little(7);
    SampleText(120);
    SampleText(117);
    var d := Sample.d;
    assert PutWords(d.lineinfo) == Put(7, 4) + PutWords([]);
    assert PutVector(d.lineinfo) == [1, 0, 0, 0, 7, 0, 0, 0];
    assert PutLocVars(d.locvars) == PutLocVar(d.locvars[0]) + PutLocVars([]);
    assert PutLocVars(d.locvars) == [2, 0, 0, 0, 0, 0, 0, 0, 120, 0, 0, 0, 0, 0, 1, 0, 0, 0];
    assert PutNames(d.upvalues) == PutText(Text([117])) + PutNames([]);
    assert PutNames(d.upvalues) == [2, 0, 0, 0, 0, 0, 0, 0, 117, 0];
  }

  lemma SampleCode()
    ensures PutVector(Sample.code) == [1, 0, 0, 0, 1, 2, 3, 4]
  {
    hide Put;
    Little(1);
    LowByteFirst();
    assert PutWords(Sample.code) == Put(0x0403_0201, 4) + PutWords([]);
  }

  /** Its precompiled form, byte by byte: signature; source; lines and counts; code;
      constants; nested functions; line information; local variables; upvalues. */
  lemma SampleBytes()
    ensures Dump(Sample, false) ==
              [27, 76, 117, 97, 81, 0, 1, 4, 8, 4, 8, 0] +
              ([2, 0, 0, 0, 0, 0, 0, 0, 64, 0] +
              ([1, 0, 0, 0, 2, 0, 0, 0, 0, 3, 4, 5] +
              ([1, 0, 0, 0, 1, 2, 3, 4] +
              (([4, 0, 0, 0] + [0, 1, 1, 3, 6, 0, 0, 0, 0, 0, 0, 0, 4, 2, 0, 0, 0, 0, 0, 0, 0, 115, 0]) +
              (([0, 0, 0, 0] + []) +
              ([1, 0, 0, 0, 7, 0, 0, 0] +
              (([1, 0, 0, 0] + [2, 0, 0, 0, 0, 0, 0, 0, 120, 0, 0, 0, 0, 0, 1, 0, 0, 0]) +
              ([1, 0, 0, 0] + [2, 0, 0, 0, 0, 0, 0, 0, 117, 0]))))))))
  {
    hide Put, PutText, PutHeader, PutVector, PutConsts, PutDebug;
    Little(0);
    Little(4);
    SampleText(64);
    SampleHeader();
    SampleCode();
    SampleConsts();
    SampleDebug();
    assert PutFunctions(Sample, 0, false) == [];
  }
}
