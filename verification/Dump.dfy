/** The dumper, the buffered input stream and the loader, step by step. */
module DumpLoad {
  import opened DumpFormat

  // ---------------------------------------------------------------- dumping

  /** The writer callback: the status it returns for a block after what it got. */
  type Writer = (Bytes, Bytes) -> int

  /** A writer that accepts every block. */
  ghost predicate Content(w: Writer) {
    forall got, b :: w(got, b) == 0
  }

  /** The last block of what the writer got was refused with this status. */
  ghost predicate Refused(w: Writer, out: Bytes, status: int) {
    status != 0 && exists n :: 0 <= n <= |out| && status == w(out[..n], out[n..])
  }

  class DumpState {
    const writer: Writer
    const strip: bool
    var status: int
    var out: Bytes

    constructor (w: Writer, s: bool)
      ensures status == 0 && out == [] && writer == w && strip == s
    {
      writer, strip, status, out := w, s, 0, [];
    }

    /** The writer got the first of these bytes, and refused a block that ends there. */
    ghost predicate Stopped(goal: Bytes)
      reads this
    {
      out <= goal && Refused(writer, out, status)
    }

    /** Exactly these bytes were written, unless the writer refused one of them. */
    twostate predicate Wrote(b: Bytes)
      reads this
    {
      && (old(status) == 0 && status == 0 ==> out == old(out) + b)
      && (old(status) == 0 && status != 0 ==> Stopped(old(out) + b))
      && (old(status) != 0 ==> status == old(status) && out == old(out))
    }

    method DumpBlock(b: Bytes)
      modifies this`status, this`out
      ensures Wrote(b)
    {
      if status == 0 {
        status := writer(out, b);
        assert (out + b)[..|out|] == out && (out + b)[|out|..] == b;
        out := out + b;
      }
    }

    method DumpInt(n: nat)
      modifies this`status, this`out
      ensures Wrote(Put(n, 4))
    {
      DumpBlock(Put(n, 4));
    }

    method DumpChar(n: nat)
      modifies this`status, this`out
      ensures Wrote(Put(n, 1))
    {
      DumpBlock(Put(n, 1));
    }

    method DumpVector(ws: seq<nat>)
      modifies this`status, this`out
      ensures Wrote(PutVector(ws))
    {
      DumpInt(|ws|);
      DumpBlock(PutWords(ws));
    }

    method DumpString(t: Text)
      modifies this`status, this`out
      ensures Wrote(PutText(t))
    {
      if t.Null? {
        DumpBlock(Put(0, 8));
      } else {
        DumpBlock(Put(|t.s| + 1, 8));
        DumpBlock(t.s + [0]);
      }
    }

    method DumpConst(c: Const)
      modifies this`status, this`out
      ensures Wrote(PutConst(c))
    {
      hide Put, PutText, Refused;
      match c
      case KNil => DumpChar(0);
      case KBool(b) =>
        DumpChar(1);
        DumpChar(if b then 1 else 0);
      case KNum(n) =>
        DumpChar(3);
        DumpBlock(Put(n, 8));
      case KStr(s) =>
        DumpChar(4);
        DumpString(s);
    }

    method DumpConsts(ks: seq<Const>)
      modifies this`status, this`out
      ensures Wrote(Put(|ks|, 4) + PutConsts(ks))
    {
      hide PutConst, Put;
      DumpInt(|ks|);
      var i := 0;
      assert ks[..0] == [] && ks[0..] == ks;
      while i < |ks|
        invariant 0 <= i <= |ks|
        invariant old(status) == 0 && status == 0 ==> old(out) + (Put(|ks|, 4) + PutConsts(ks)) == out + PutConsts(ks[i..])
        invariant old(status) == 0 && status != 0 ==> Stopped(old(out) + (Put(|ks|, 4) + PutConsts(ks)))
        invariant old(status) != 0 ==> status == old(status) && out == old(out)
      {
        assert ks[i..][1..] == ks[i + 1..];
        DumpConst(ks[i]);
        i := i + 1;
      }
    }

    method DumpLocVars(vs: seq<LocVar>)
      modifies this`status, this`out
      ensures Wrote(Put(|vs|, 4) + PutLocVars(vs))
    {
      hide PutText, Put;
      DumpInt(|vs|);
      var i := 0;
      assert vs[0..] == vs;
      while i < |vs|
        invariant 0 <= i <= |vs|
        invariant old(status) == 0 && status == 0 ==> old(out) + (Put(|vs|, 4) + PutLocVars(vs)) == out + PutLocVars(vs[i..])
        invariant old(status) == 0 && status != 0 ==> Stopped(old(out) + (Put(|vs|, 4) + PutLocVars(vs)))
        invariant old(status) != 0 ==> status == old(status) && out == old(out)
      {
        assert vs[i..][1..] == vs[i + 1..];
        DumpLocVar(vs[i]);
        i := i + 1;
      }
    }

    method DumpLocVar(v: LocVar)
      modifies this`status, this`out
      ensures Wrote(PutLocVar(v))
    {
      hide PutText, Put;
      DumpString(v.name);
      DumpInt(v.startpc);
      DumpInt(v.endpc);
    }

    method DumpNames(ns: seq<Text>)
      modifies this`status, this`out
      ensures Wrote(Put(|ns|, 4) + PutNames(ns))
    {
      hide PutText, Put;
      DumpInt(|ns|);
      var i := 0;
      assert ns[0..] == ns;
      while i < |ns|
        invariant 0 <= i <= |ns|
        invariant old(status) == 0 && status == 0 ==> old(out) + (Put(|ns|, 4) + PutNames(ns)) == out + PutNames(ns[i..])
        invariant old(status) == 0 && status != 0 ==> Stopped(old(out) + (Put(|ns|, 4) + PutNames(ns)))
        invariant old(status) != 0 ==> status == old(status) && out == old(out)
      {
        assert ns[i..][1..] == ns[i + 1..];
        DumpString(ns[i]);
        i := i + 1;
      }
    }

    method DumpDebug(d: Debug)
      modifies this`status, this`out
      ensures Wrote(PutDebug(if strip then NoDebug else d))
    {
      hide PutVector, PutLocVars, PutNames, Put;
      var e := if strip then NoDebug else d;
      DumpVector(e.lineinfo);
      DumpLocVars(e.locvars);
      DumpNames(e.upvalues);
    }

    method DumpHeaderFields(h: Header)
      modifies this`status, this`out
      ensures Wrote(PutHeader(h))
    {
      hide Put;
      DumpInt(h.linedefined);
      DumpInt(h.lastlinedefined);
      DumpChar(h.nups);
      DumpChar(h.numparams);
      DumpChar(h.isVararg);
      DumpChar(h.maxstack);
    }

    method DumpFunction(f: Proto, parent: Text)
      modifies this`status, this`out
      ensures Wrote(PutFunction(f, parent, strip))
      decreases f, 1, 1
    {
      hide PutText, PutHeader, PutVector, Put, PutParts, Refused;
      DumpString(if Text(f.source) == parent || strip then Null else Text(f.source));
      DumpHeaderFields(f.h);
      DumpVector(f.code);
      DumpParts(f);
    }

    /** Constants, nested functions and debug data. */
    method DumpParts(f: Proto)
      modifies this`status, this`out
      ensures Wrote(PutParts(f, strip))
      decreases f, 1, 0
    {
      hide PutConsts, PutDebug, Put, PutFunctions, Refused;
      DumpConsts(f.k);
      DumpNested(f);
      DumpDebug(f.d);
    }

    method DumpNested(f: Proto)
      modifies this`status, this`out
      ensures Wrote(Put(|f.p|, 4) + PutFunctions(f, 0, strip))
      decreases f, 0
    {
      hide PutFunction, Put, Refused;
      DumpInt(|f.p|);
      var i := 0;
      while i < |f.p|
        invariant 0 <= i <= |f.p|
        invariant old(status) == 0 && status == 0 ==> old(out) + (Put(|f.p|, 4) + PutFunctions(f, 0, strip)) == out + PutFunctions(f, i, strip)
        invariant old(status) == 0 && status != 0 ==> Stopped(old(out) + (Put(|f.p|, 4) + PutFunctions(f, 0, strip)))
        invariant old(status) != 0 ==> status == old(status) && out == old(out)
      {
        DumpFunction(f.p[i], Text(f.source));
        i := i + 1;
      }
    }
  }

  /** luaU_dump. */
  method DumpChunk(f: Proto, w: Writer, strip: bool) returns (status: int, out: Bytes)
    ensures status == 0 ==> out == Dump(f, strip)
    ensures status != 0 ==> out <= Dump(f, strip) && Refused(w, out, status)
    ensures Content(w) ==> status == 0
  {
    hide PutFunction;
    var d := new DumpState(w, strip);
    d.DumpBlock(Signature);
    d.DumpFunction(f, Null);
    return d.status, d.out;
  }

  // ------------------------------------------------------------ input stream

  /** The bytes of the blocks up to the first empty one, which ends the input. */
  function Flow(blocks: seq<Bytes>): Bytes {
    if blocks == [] || blocks[0] == [] then [] else blocks[0] + Flow(blocks[1..])
  }

  class Zio {
    /** What is left of the block at hand. */
    var p: Bytes
    /** What the reader will still hand out. */
    var blocks: seq<Bytes>

    ghost function Stream(): Bytes
      reads this
    {
      p + Flow(blocks)
    }

    constructor (bs: seq<Bytes>)
      ensures Stream() == Flow(bs)
    {
      p, blocks := [], bs;
    }

    /** luaZ_lookahead: a block with a byte in it, if there is one. */
    method Lookahead() returns (more: bool)
      modifies this
      ensures Stream() == old(Stream()) && more == (Stream() != []) && (more ==> p != [])
    {
      if p == [] {
        if blocks == [] || blocks[0] == [] { return false; }
        p := blocks[0];
        blocks := blocks[1..];
      }
      return true;
    }

    /** luaZ_read: the next n bytes, or how many are missing. */
    method Read(n0: nat) returns (b: Bytes, missing: nat)
      modifies this
      ensures n0 <= |old(Stream())| ==> missing == 0 && b == old(Stream())[..n0] && Stream() == old(Stream())[n0..]
      ensures n0 > |old(Stream())| ==> missing == n0 - |old(Stream())| && b == old(Stream())
    {
      hide Flow;
      var n := n0;
      b := [];
      ghost var s := Stream();
      while n > 0
        invariant 0 <= n && |b| + n == n0 && s == b + Stream()
      {
        var more := Lookahead();
        if !more {
          assert b + [] == b;
          return b, n;
        }
        var m := if n <= |p| then n else |p|;
        assert p == p[..m] + p[m..];
        b := b + p[..m];
        p := p[m..];
        n := n - m;
      }
      missing := 0;
      assert n == 0 && |b| == n0;
      Halves(b, Stream());
    }
  }

  // ---------------------------------------------------------------- loading

  /** A loaded value agrees with what the bytes say, and the rest is unread. */
  ghost predicate Fed<T>(g: Got<T>, ok: bool, v: T, rest: Bytes) {
    ok == g.Got? && (ok ==> v == g.v && rest == g.rest)
  }

  class LoadState {
    const z: Zio
    const check: Proto -> bool

    constructor (s: Zio, c: Proto -> bool)
      ensures z == s && check == c
    {
      z, check := s, c;
    }

    /** LoadBlock of a number of k bytes. */
    method LoadNumber(k: nat) returns (ok: bool, v: nat)
      modifies z
      ensures Fed(Get(old(z.Stream()), k), ok, v, z.Stream())
    {
      ghost var s := z.Stream();
      var b, missing := z.Read(k);
      GetLength(s, k);
      if missing != 0 { return false, 0; }
      v := Value(b);
      GetValue(s, k);
      ok := true;
    }

    method LoadInt() returns (ok: bool, v: nat)
      modifies z
      ensures Fed(GetInt(old(z.Stream())), ok, v, z.Stream())
    {
      hide Get;
      ok, v := LoadNumber(4);
      if ok && v >= 0x8000_0000 { ok := false; }
    }

    method LoadString() returns (ok: bool, t: Text)
      modifies z
      ensures Fed(GetText(old(z.Stream())), ok, t, z.Stream())
    {
      hide Get;
      t := Null;
      var size: nat;
      ok, size := LoadNumber(8);
      if !ok || size == 0 { return; }
      ghost var old_ := z.Stream();
      var b, missing := z.Read(size);
      if missing != 0 { return false, Null; }
      assert b[..size - 1] == old_[..size - 1];
      t := Text(b[..size - 1]);
    }

    method LoadWords(n: nat) returns (ok: bool, ws: seq<nat>)
      modifies z
      ensures Fed(GetWords(old(z.Stream()), n), ok, ws, z.Stream())
    {
      hide Get;
      ws, ok := [], true;
      ghost var g := GetWords(z.Stream(), n);
      OntoNone(g);
      while |ws| < n
        invariant |ws| <= n && ok && g == Onto(ws, GetWords(z.Stream(), n - |ws|))
        decreases n - |ws|
      {
        var v: nat;
        ok, v := LoadNumber(4);
        if !ok { return; }
        OntoMore(ws, v, GetWords(z.Stream(), n - |ws| - 1));
        ws := ws + [v];
      }
      OntoDone(ws, z.Stream());
    }

    method LoadVector() returns (ok: bool, ws: seq<nat>)
      modifies z
      ensures Fed(GetVector(old(z.Stream())), ok, ws, z.Stream())
    {
      hide GetWords;
      ws := [];
      var n: nat;
      ok, n := LoadInt();
      if ok { ok, ws := LoadWords(n); }
    }

    method LoadConst() returns (ok: bool, c: Const)
      modifies z
      ensures Fed(GetConst(old(z.Stream())), ok, c, z.Stream())
    {
      hide Get, GetText;
      c := KNil;
      var t: nat;
      ok, t := LoadNumber(1);
      if !ok || t == 0 { return; }
      if t == 1 {
        var b: nat;
        ok, b := LoadNumber(1);
        c := KBool(b != 0);
      } else if t == 3 {
        var n: nat;
        ok, n := LoadNumber(8);
        c := KNum(n);
      } else if t == 4 {
        var u: Text;
        ok, u := LoadString();
        c := KStr(u);
      } else {
        ok := false;
      }
    }

    method LoadConsts() returns (ok: bool, ks: seq<Const>)
      modifies z
      ensures Fed(GetCounted(old(z.Stream())), ok, ks, z.Stream())
    {
      hide GetConst, GetInt;
      ks := [];
      var n: nat;
      ok, n := LoadInt();
      if !ok { return; }
      ghost var g := GetConsts(z.Stream(), n);
      OntoNone(g);
      while |ks| < n
        invariant |ks| <= n && ok && g == Onto(ks, GetConsts(z.Stream(), n - |ks|))
        decreases n - |ks|
      {
        var c: Const;
        ok, c := LoadConst();
        if !ok { return; }
        OntoMore(ks, c, GetConsts(z.Stream(), n - |ks| - 1));
        ks := ks + [c];
      }
      OntoDone(ks, z.Stream());
    }

    method LoadLocVar() returns (ok: bool, v: LocVar)
      modifies z
      ensures Fed(GetLocVar(old(z.Stream())), ok, v, z.Stream())
    {
      hide GetText, GetInt;
      v := LocVar(Null, 0, 0);
      var t: Text, a: nat, b: nat;
      ok, t := LoadString();
      if !ok { return; }
      ok, a := LoadInt();
      if !ok { return; }
      ok, b := LoadInt();
      v := LocVar(t, a, b);
    }

    method LoadLocVars(n: nat) returns (ok: bool, vs: seq<LocVar>)
      modifies z
      ensures Fed(GetLocVars(old(z.Stream()), n), ok, vs, z.Stream())
    {
      hide GetLocVar;
      vs, ok := [], true;
      ghost var g := GetLocVars(z.Stream(), n);
      OntoNone(g);
      while |vs| < n
        invariant |vs| <= n && ok && g == Onto(vs, GetLocVars(z.Stream(), n - |vs|))
        decreases n - |vs|
      {
        var v: LocVar;
        ok, v := LoadLocVar();
        if !ok { return; }
        OntoMore(vs, v, GetLocVars(z.Stream(), n - |vs| - 1));
        vs := vs + [v];
      }
      OntoDone(vs, z.Stream());
    }

    method LoadNames(n: nat) returns (ok: bool, ns: seq<Text>)
      modifies z
      ensures Fed(GetNames(old(z.Stream()), n), ok, ns, z.Stream())
    {
      hide GetText;
      ns, ok := [], true;
      ghost var g := GetNames(z.Stream(), n);
      OntoNone(g);
      while |ns| < n
        invariant |ns| <= n && ok && g == Onto(ns, GetNames(z.Stream(), n - |ns|))
        decreases n - |ns|
      {
        var t: Text;
        ok, t := LoadString();
        if !ok { return; }
        OntoMore(ns, t, GetNames(z.Stream(), n - |ns| - 1));
        ns := ns + [t];
      }
      OntoDone(ns, z.Stream());
    }

    method LoadDebug() returns (ok: bool, d: Debug)
      modifies z
      ensures Fed(GetDebug(old(z.Stream())), ok, d, z.Stream())
    {
      hide GetVector, GetInt, GetLocVars, GetNames;
      d := NoDebug;
      var a: seq<nat>, n: nat, b: seq<LocVar>, m: nat, c: seq<Text>;
      ok, a := LoadVector();
      if !ok { return; }
      ok, n := LoadInt();
      if !ok { return; }
      ok, b := LoadLocVars(n);
      if !ok { return; }
      ok, m := LoadInt();
      if !ok { return; }
      ok, c := LoadNames(m);
      d := Debug(a, b, c);
    }

    method LoadHeaderFields() returns (ok: bool, h: Header)
      modifies z
      ensures Fed(GetHeader(old(z.Stream())), ok, h, z.Stream())
    {
      hide GetInt, Get;
      h := Header(0, 0, 0, 0, 0, 0);
      var a: nat, b: nat, c: nat, d: nat, e: nat, f: nat;
      ok, a := LoadInt();
      if !ok { return; }
      ok, b := LoadInt();
      if !ok { return; }
      ok, c := LoadNumber(1);
      if !ok { return; }
      ok, d := LoadNumber(1);
      if !ok { return; }
      ok, e := LoadNumber(1);
      if !ok { return; }
      ok, f := LoadNumber(1);
      h := Header(a, b, c, d, e, f);
    }

    /** LoadFunction: within the depth limit, and accepted by the code check. */
    method LoadFunction(parent: Bytes, calls: nat) returns (ok: bool, f: Proto)
      modifies z
      ensures Fed(GetFunction(old(z.Stream()), parent, calls, check), ok, f, z.Stream())
      decreases if calls <= MAXCALLS then MAXCALLS + 1 - calls else 0, 1
    {
      hide GetText, GetHeader, GetVector, GetConsts, GetInt, GetDebug, GetFunctions;
      f := Proto([], Header(0, 0, 0, 0, 0, 0), [], [], [], NoDebug);
      if calls + 1 > MAXCALLS { return false, f; }
      var t: Text, h: Header, code: seq<nat>, ks: seq<Const>, n: nat, ps: seq<Proto>, d: Debug;
      ok, t := LoadString();
      if !ok { return; }
      var source := if t.Null? then parent else t.s;
      ok, h := LoadHeaderFields();
      if !ok { return; }
      ok, code := LoadVector();
      if !ok { return; }
      ok, ks := LoadConsts();
      if !ok { return; }
      ok, n := LoadInt();
      if !ok { return; }
      ok, ps := LoadFunctions(source, n, calls + 1);
      if !ok { return; }
      ok, d := LoadDebug();
      if !ok { return; }
      f := Proto(source, h, code, ks, ps, d);
      ok := check(f);
    }

    method LoadFunctions(parent: Bytes, n: nat, calls: nat) returns (ok: bool, ps: seq<Proto>)
      requires calls <= MAXCALLS
      modifies z
      ensures Fed(GetFunctions(old(z.Stream()), parent, n, calls, check), ok, ps, z.Stream())
      decreases MAXCALLS + 1 - calls, 2
    {
      hide GetFunction;
      ps, ok := [], true;
      ghost var g := GetFunctions(z.Stream(), parent, n, calls, check);
      OntoNone(g);
      while |ps| < n
        invariant |ps| <= n && ok && g == Onto(ps, GetFunctions(z.Stream(), parent, n - |ps|, calls, check))
        decreases n - |ps|
      {
        var f: Proto;
        ok, f := LoadFunction(parent, calls);
        if !ok { return; }
        OntoMore(ps, f, GetFunctions(z.Stream(), parent, n - |ps| - 1, calls, check));
        ps := ps + [f];
      }
      OntoDone(ps, z.Stream());
    }
  }

  /** luaU_undump: what it loads depends only on the bytes, not on how the reader
      cuts them into blocks. */
  method UndumpChunk(blocks: seq<Bytes>, check: Proto -> bool) returns (ok: bool, f: Proto)
    ensures var g := Undump(Flow(blocks), check); ok == g.Got? && (ok ==> f == g.v)
  {
    hide GetFunction;
    var z := new Zio(blocks);
    var s := new LoadState(z, check);
    var h, missing := z.Read(|Signature|);
    f := Proto([], Header(0, 0, 0, 0, 0, 0), [], [], [], NoDebug);
    if missing != 0 || h != Signature { return false, f; }
    ok, f := s.LoadFunction(Unknown, 0);
  }

  /** Dumping and loading, over any cut of the bytes into blocks. */
  method DumpAndLoad(f: Proto, w: Writer, strip: bool, blocks: seq<Bytes>, check: Proto -> bool) returns (status: int, ok: bool, g: Proto)
    requires Fits(f, 0) && Checked(Loaded(f, Unknown, strip), check) && Flow(blocks) == Dump(f, strip)
    ensures ok && g == Loaded(f, Unknown, strip) && (!strip ==> g == f) && (strip ==> StripOf(g, f, [61, 63])) && (Content(w) ==> status == 0)
  {
    hide Fits, Checked, PutFunction, GetFunction, Dump, Undump;
    var out: Bytes;
    status, out := DumpChunk(f, w, strip);
    RoundTrip(f, strip, check, []);
    assert Dump(f, strip) + [] == Dump(f, strip);
    ok, g := UndumpChunk(blocks, check);
  }

  // ---------------------------------------------------------------- helpers

  /** The count, then the constants. */
  function GetCounted(s: Bytes): Got<seq<Const>> {
    var n := GetInt(s);
    if n.Bad? then Bad else GetConsts(n.rest, n.v)
  }

  function Onto<T>(a: seq<T>, g: Got<seq<T>>): Got<seq<T>> {
    if g.Bad? then Bad else Got(a + g.v, g.rest)
  }

  lemma Halves(a: Bytes, b: Bytes)
    ensures (a + b)[..|a|] == a && (a + b)[|a|..] == b
  {
  }

  lemma OntoNone<T>(g: Got<seq<T>>)
    ensures Onto([], g) == g
  {
    if g.Got? { assert [] + g.v == g.v; }
  }

  lemma OntoDone<T>(a: seq<T>, s: Bytes)
    ensures Onto(a, Got([], s)) == Got(a, s)
  {
    assert a + [] == a;
  }

  lemma OntoMore<T>(a: seq<T>, v: T, g: Got<seq<T>>)
    ensures Onto(a, if g.Bad? then Bad else Got([v] + g.v, g.rest)) == Onto(a + [v], g)
  {
    if g.Got? { assert a + ([v] + g.v) == a + [v] + g.v; }
  }

  function Value(b: Bytes): nat {
    if b == [] then 0 else b[0] + 256 * Value(b[1..])
  }

  lemma {:induction false} GetLength(s: Bytes, k: nat)
    ensures Get(s, k).Got? <==> k <= |s|
  {
    if k > 0 && s != [] { GetLength(s[1..], k - 1); }
  }

  lemma {:induction false} GetValue(s: Bytes, k: nat)
    requires k <= |s|
    ensures Get(s, k) == Got(Value(s[..k]), s[k..])
  {
    if k > 0 {
      GetValue(s[1..], k - 1);
      assert s[1..][..k - 1] == s[..k][1..] && s[1..][k - 1..] == s[k..];
    }
  }
}
