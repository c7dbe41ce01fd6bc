/**
  Precompiled chunks: what is written for a function prototype, what is read
  back from bytes, and when the two agree.
 */
module Chunk {
  import opened Common

  type Byte = x: int | 0 <= x < 256

  type Bytes = seq<Byte>

  datatype Const = CNil | CBool(b: bool) | CNum(n: Bytes) | CStr(s: Option<Bytes>)

  datatype LocVar = LocVar(name: Option<Bytes>, startpc: int, endpc: int)

  /** A function prototype (`Proto`); numbers are kept as their eight bytes. */
  datatype Proto = Proto(
    source: Option<Bytes>, linedefined: int, lastline: int,
    nups: Byte, numparams: Byte, vararg: Byte, maxstack: Byte,
    code: seq<int>, k: seq<Const>, p: seq<Proto>,
    lineinfo: seq<int>, locvars: seq<LocVar>, upvalues: seq<Option<Bytes>>)

  datatype Error = UnexpectedEnd | BadInteger | BadConstant | BadCode | BadHeader

  /** The value read and the bytes left, or the error that stops the load. */
  datatype Res<T> = Ok(v: T, rest: Bytes) | Err(error: Error) {
    predicate IsFailure() {
      Err?
    }

    function PropagateFailure<U>(): Res<U>
      requires IsFailure()
    {
      Err(error)
    }

    function Extract(): (T, Bytes)
      requires !IsFailure()
    {
      (v, rest)
    }
  }

  // ---------------------------------------------------------------- integers

  const INT: nat := 4
  const SIZE_T: nat := 8
  const NUMBER: nat := 8

  function Pow256(n: nat): (r: nat)
    ensures r > 0
  {
    if n == 0 then 1 else 256 * Pow256(n - 1)
  }

  /** The `n` low bytes of a number, the lowest first. */
  function LittleEndian(x: nat, n: nat): (r: Bytes)
    ensures |r| == n
  {
    if n == 0 then [] else [x % 256] + LittleEndian(x / 256, n - 1)
  }

  function FromLittle(b: Bytes): nat {
    if b == [] then 0 else b[0] + 256 * FromLittle(b[1..])
  }

  lemma {:induction false} LittleTrip(x: nat, n: nat)
    requires x < Pow256(n)
    ensures FromLittle(LittleEndian(x, n)) == x
    decreases n
  {
    if n > 0 {
      assert x / 256 < Pow256(n - 1);
      LittleTrip(x / 256, n - 1);
      assert LittleEndian(x, n)[1..] == LittleEndian(x / 256, n - 1);
    }
  }

  const TWO31: int := 0x8000_0000
  const TWO32: int := 0x1_0000_0000

  lemma Pow256Values()
    ensures Pow256(INT) == TWO32 && Pow256(SIZE_T) == 0x1_0000_0000_0000_0000
  {
    assert Pow256(2) == 65536;
    assert Pow256(6) == 281474976710656;
  }

  predicate IsInt(x: int) {
    -TWO31 <= x < TWO31
  }

  /** The four bytes of an integer, in two's complement. */
  function IntBytes(x: int): Bytes
    requires IsInt(x)
  {
    LittleEndian(if x < 0 then x + TWO32 else x, INT)
  }

  function IntOf(b: Bytes): int {
    var u := FromLittle(b);
    if u >= TWO31 then u - TWO32 else u
  }

  lemma IntTrip(x: int)
    requires IsInt(x)
    ensures |IntBytes(x)| == INT && IntOf(IntBytes(x)) == x
  {
    Pow256Values();
    LittleTrip(if x < 0 then x + TWO32 else x, INT);
  }

  // ---------------------------------------------------------------- blocks

  function LoadBlock(b: Bytes, n: nat): (r: Res<Bytes>)
    ensures r.Ok? ==> |r.rest| + n == |b|
  {
    if |b| < n then Err(UnexpectedEnd) else Ok(b[..n], b[n..])
  }

  lemma BlockTrip(b: Bytes, rest: Bytes)
    ensures LoadBlock(b + rest, |b|) == Ok(b, rest)
  {
    assert (b + rest)[..|b|] == b && (b + rest)[|b|..] == rest;
  }

  function LoadByte(b: Bytes): (r: Res<Byte>)
    ensures r.Ok? ==> |r.rest| < |b|
  {
    var (x, b1) :- LoadBlock(b, 1);
    Ok(x[0], b1)
  }

  /** Negative integers are refused. */
  function LoadInt(b: Bytes): (r: Res<int>)
    ensures r.Ok? ==> r.v >= 0 && |r.rest| < |b|
  {
    var (x, b1) :- LoadBlock(b, INT);
    if IntOf(x) < 0 then Err(BadInteger) else Ok(IntOf(x), b1)
  }

  lemma IntLoads(x: int, rest: Bytes)
    requires 0 <= x < TWO31
    ensures LoadInt(IntBytes(x) + rest) == Ok(x, rest)
  {
    IntTrip(x);
    BlockTrip(IntBytes(x), rest);
  }

  function DumpString(s: Option<Bytes>): Bytes {
    match s
    case None => LittleEndian(0, SIZE_T)
    case Some(t) => LittleEndian(|t| + 1, SIZE_T) + t + [0]
  }

  /** The last byte is dropped, whatever it is. */
  function LoadString(b: Bytes): (r: Res<Option<Bytes>>)
    ensures r.Ok? ==> |r.rest| < |b|
  {
    var (x, b1) :- LoadBlock(b, SIZE_T);
    var size := FromLittle(x);
    if size == 0 then Ok(None, b1)
    else
      var (t, b2) :- LoadBlock(b1, size);
      Ok(Some(t[..size - 1]), b2)
  }

  predicate StringOk(s: Option<Bytes>) {
    s.Some? ==> |s.value| + 1 < 0x1_0000_0000_0000_0000
  }

  lemma StringLoads(s: Option<Bytes>, rest: Bytes)
    requires StringOk(s)
    ensures LoadString(DumpString(s) + rest) == Ok(s, rest)
  {
    Pow256Values();
    match s {
      case None =>
        LittleTrip(0, SIZE_T);
        BlockTrip(LittleEndian(0, SIZE_T), rest);
      case Some(t) =>
        var n := |t| + 1;
        LittleTrip(n, SIZE_T);
        var tail := t + [0];
        assert DumpString(s) + rest == LittleEndian(n, SIZE_T) + (tail + rest);
        BlockTrip(LittleEndian(n, SIZE_T), tail + rest);
        BlockTrip(tail, rest);
        assert tail[..n - 1] == t;
    }
  }

  // ---------------------------------------------------------------- vectors of integers

  function IntsBytes(v: seq<int>): Bytes
    requires forall i :: 0 <= i < |v| ==> IsInt(v[i])
  {
    if v == [] then [] else IntBytes(v[0]) + IntsBytes(v[1..])
  }

  function IntsOf(b: Bytes, n: nat): seq<int>
    requires |b| == INT * n
  {
    if n == 0 then [] else [IntOf(b[..INT])] + IntsOf(b[INT..], n - 1)
  }

  lemma {:induction false} IntsTrip(v: seq<int>)
    requires forall i :: 0 <= i < |v| ==> IsInt(v[i])
    ensures |IntsBytes(v)| == INT * |v| && IntsOf(IntsBytes(v), |v|) == v
    decreases |v|
  {
    if v != [] {
      IntsTrip(v[1..]);
      IntTrip(v[0]);
      assert IntsBytes(v)[..INT] == IntBytes(v[0]) && IntsBytes(v)[INT..] == IntsBytes(v[1..]);
      assert v == [v[0]] + v[1..];
    }
  }

  predicate Sized(n: nat) {
    n < TWO31
  }

  function DumpInts(v: seq<int>): Bytes
    requires Sized(|v|) && forall i :: 0 <= i < |v| ==> IsInt(v[i])
  {
    IntBytes(|v|) + IntsBytes(v)
  }

  function LoadInts(b: Bytes): (r: Res<seq<int>>)
    ensures r.Ok? ==> |r.rest| < |b|
  {
    var (n, b1) :- LoadInt(b);
    var (x, b2) :- LoadBlock(b1, INT * n);
    Ok(IntsOf(x, n), b2)
  }

  lemma IntsLoad(v: seq<int>, rest: Bytes)
    requires Sized(|v|) && forall i :: 0 <= i < |v| ==> IsInt(v[i])
    ensures LoadInts(DumpInts(v) + rest) == Ok(v, rest)
  {
    IntsTrip(v);
    assert DumpInts(v) + rest == IntBytes(|v|) + (IntsBytes(v) + rest);
    IntLoads(|v|, IntsBytes(v) + rest);
    BlockTrip(IntsBytes(v), rest);
  }

  // ---------------------------------------------------------------- constants

  const TNIL: Byte := 0
  const TBOOLEAN: Byte := 1
  const TNUMBER: Byte := 3
  const TSTRING: Byte := 4

  predicate ConstOk(c: Const) {
    match c
    case CNum(n) => |n| == NUMBER
    case CStr(s) => StringOk(s)
    case _ => true
  }

  function DumpConst(c: Const): Bytes {
    match c
    case CNil => [TNIL]
    case CBool(b) => [TBOOLEAN, if b then 1 else 0]
    case CNum(n) => [TNUMBER] + n
    case CStr(s) => [TSTRING] + DumpString(s)
  }

  function LoadConst(b: Bytes): (r: Res<Const>)
    ensures r.Ok? ==> |r.rest| < |b|
  {
    var (t, b1) :- LoadByte(b);
    if t == TNIL then Ok(CNil, b1)
    else if t == TBOOLEAN then
      var (x, b2) :- LoadByte(b1);
      Ok(CBool(x != 0), b2)
    else if t == TNUMBER then
      var (x, b2) :- LoadBlock(b1, NUMBER);
      Ok(CNum(x), b2)
    else if t == TSTRING then
      var (s, b2) :- LoadString(b1);
      Ok(CStr(s), b2)
    else Err(BadConstant)
  }

  lemma ByteLoads(x: Byte, rest: Bytes)
    ensures LoadByte([x] + rest) == Ok(x, rest)
  {
    BlockTrip([x], rest);
  }

  lemma ConstLoads(c: Const, rest: Bytes)
    requires ConstOk(c)
    ensures LoadConst(DumpConst(c) + rest) == Ok(c, rest)
  {
    var d := DumpConst(c);
    assert d + rest == [d[0]] + (d[1..] + rest);
    ByteLoads(d[0], d[1..] + rest);
    match c {
      case CNil => assert d[1..] + rest == rest;
      case CBool(b) => ByteLoads(if b then 1 else 0, rest);
      case CNum(n) =>
        assert d[1..] == n;
        BlockTrip(n, rest);
      case CStr(t) =>
        assert d[1..] == DumpString(t);
        StringLoads(t, rest);
    }
  }

  function DumpConsts(ks: seq<Const>): Bytes {
    if ks == [] then [] else DumpConst(ks[0]) + DumpConsts(ks[1..])
  }

  function LoadConsts(n: nat, b: Bytes): (r: Res<seq<Const>>)
    ensures r.Ok? ==> |r.rest| <= |b|
  {
    if n == 0 then Ok([], b)
    else
      var (c, b1) :- LoadConst(b);
      var (cs, b2) :- LoadConsts(n - 1, b1);
      Ok([c] + cs, b2)
  }

  lemma ConstsStep(n: nat, b: Bytes, c: Const, cs: seq<Const>, b1: Bytes, rest: Bytes)
    requires n > 0 && LoadConst(b) == Ok(c, b1) && LoadConsts(n - 1, b1) == Ok(cs, rest)
    ensures LoadConsts(n, b) == Ok([c] + cs, rest)
  {
  }

  lemma {:induction false} ConstsLoad(ks: seq<Const>, rest: Bytes)
    requires forall i :: 0 <= i < |ks| ==> ConstOk(ks[i])
    ensures LoadConsts(|ks|, DumpConsts(ks) + rest) == Ok(ks, rest)
    decreases |ks|
  {
    if ks != [] {
      var c, more := ks[0], ks[1..];
      var tail := DumpConsts(more) + rest;
      assert DumpConsts(ks) + rest == DumpConst(c) + tail;
      ConstLoads(c, tail);
      ConstsLoad(more, rest);
      ConstsStep(|ks|, DumpConst(c) + tail, c, more, tail, rest);
      assert ks == [c] + more;
    } else {
      assert DumpConsts(ks) + rest == rest;
    }
  }

  function DumpKs(ks: seq<Const>): Bytes
    requires Sized(|ks|)
  {
    IntBytes(|ks|) + DumpConsts(ks)
  }

  function LoadKs(b: Bytes): (r: Res<seq<Const>>)
    ensures r.Ok? ==> |r.rest| < |b|
  {
    var (n, b1) :- LoadInt(b);
    LoadConsts(n, b1)
  }

  lemma KsLoad(ks: seq<Const>, rest: Bytes)
    requires Sized(|ks|) && forall i :: 0 <= i < |ks| ==> ConstOk(ks[i])
    ensures LoadKs(DumpKs(ks) + rest) == Ok(ks, rest)
  {
    Assoc(IntBytes(|ks|), DumpConsts(ks), rest);
    IntLoads(|ks|, DumpConsts(ks) + rest);
    ConstsLoad(ks, rest);
  }

  // ---------------------------------------------------------------- debug data

  predicate LocVarOk(v: LocVar) {
    StringOk(v.name) && 0 <= v.startpc < TWO31 && 0 <= v.endpc < TWO31
  }

  function DumpLocVar(v: LocVar): Bytes
    requires LocVarOk(v)
  {
    DumpString(v.name) + IntBytes(v.startpc) + IntBytes(v.endpc)
  }

  function LoadLocVar(b: Bytes): (r: Res<LocVar>)
    ensures r.Ok? ==> |r.rest| < |b|
  {
    var (name, b1) :- LoadString(b);
    var (startpc, b2) :- LoadInt(b1);
    var (endpc, b3) :- LoadInt(b2);
    Ok(LocVar(name, startpc, endpc), b3)
  }

  lemma LocVarLoads(v: LocVar, rest: Bytes)
    requires LocVarOk(v)
    ensures LoadLocVar(DumpLocVar(v) + rest) == Ok(v, rest)
  {
    var r3 := IntBytes(v.endpc) + rest;
    var r2 := IntBytes(v.startpc) + r3;
    assert DumpLocVar(v) + rest == DumpString(v.name) + r2;
    StringLoads(v.name, r2);
    IntLoads(v.startpc, r3);
    IntLoads(v.endpc, rest);
  }

  function DumpLocVars(vs: seq<LocVar>): Bytes
    requires forall i :: 0 <= i < |vs| ==> LocVarOk(vs[i])
  {
    if vs == [] then [] else DumpLocVar(vs[0]) + DumpLocVars(vs[1..])
  }

  function LoadLocVars(n: nat, b: Bytes): (r: Res<seq<LocVar>>)
    ensures r.Ok? ==> |r.rest| <= |b|
  {
    if n == 0 then Ok([], b)
    else
      var (v, b1) :- LoadLocVar(b);
      var (vs, b2) :- LoadLocVars(n - 1, b1);
      Ok([v] + vs, b2)
  }

  lemma LocVarsStep(n: nat, b: Bytes, v: LocVar, vs: seq<LocVar>, b1: Bytes, rest: Bytes)
    requires n > 0 && LoadLocVar(b) == Ok(v, b1) && LoadLocVars(n - 1, b1) == Ok(vs, rest)
    ensures LoadLocVars(n, b) == Ok([v] + vs, rest)
  {
  }

  lemma {:induction false} LocVarsLoad(vs: seq<LocVar>, rest: Bytes)
    requires forall i :: 0 <= i < |vs| ==> LocVarOk(vs[i])
    ensures LoadLocVars(|vs|, DumpLocVars(vs) + rest) == Ok(vs, rest)
    decreases |vs|
  {
    if vs != [] {
      var v, more := vs[0], vs[1..];
      var tail := DumpLocVars(more) + rest;
      Assoc(DumpLocVar(v), DumpLocVars(more), rest);
      LocVarLoads(v, tail);
      LocVarsLoad(more, rest);
      LocVarsStep(|vs|, DumpLocVar(v) + tail, v, more, tail, rest);
      assert vs == [v] + more;
    } else {
      assert DumpLocVars(vs) + rest == rest;
    }
  }

  function DumpLocs(vs: seq<LocVar>): Bytes
    requires Sized(|vs|) && forall i :: 0 <= i < |vs| ==> LocVarOk(vs[i])
  {
    IntBytes(|vs|) + DumpLocVars(vs)
  }

  function LoadLocs(b: Bytes): (r: Res<seq<LocVar>>)
    ensures r.Ok? ==> |r.rest| < |b|
  {
    var (n, b1) :- LoadInt(b);
    LoadLocVars(n, b1)
  }

  lemma LocsLoad(vs: seq<LocVar>, rest: Bytes)
    requires Sized(|vs|) && forall i :: 0 <= i < |vs| ==> LocVarOk(vs[i])
    ensures LoadLocs(DumpLocs(vs) + rest) == Ok(vs, rest)
  {
    Assoc(IntBytes(|vs|), DumpLocVars(vs), rest);
    IntLoads(|vs|, DumpLocVars(vs) + rest);
    LocVarsLoad(vs, rest);
  }

  function DumpStrings(ss: seq<Option<Bytes>>): Bytes {
    if ss == [] then [] else DumpString(ss[0]) + DumpStrings(ss[1..])
  }

  function LoadStrings(n: nat, b: Bytes): (r: Res<seq<Option<Bytes>>>)
    ensures r.Ok? ==> |r.rest| <= |b|
  {
    if n == 0 then Ok([], b)
    else
      var (s, b1) :- LoadString(b);
      var (ss, b2) :- LoadStrings(n - 1, b1);
      Ok([s] + ss, b2)
  }

  lemma StringsStep(n: nat, b: Bytes, s: Option<Bytes>, ss: seq<Option<Bytes>>, b1: Bytes, rest: Bytes)
    requires n > 0 && LoadString(b) == Ok(s, b1) && LoadStrings(n - 1, b1) == Ok(ss, rest)
    ensures LoadStrings(n, b) == Ok([s] + ss, rest)
  {
  }

  lemma {:induction false} StringsLoad(ss: seq<Option<Bytes>>, rest: Bytes)
    requires forall i :: 0 <= i < |ss| ==> StringOk(ss[i])
    ensures LoadStrings(|ss|, DumpStrings(ss) + rest) == Ok(ss, rest)
    decreases |ss|
  {
    if ss != [] {
      var s, more := ss[0], ss[1..];
      var tail := DumpStrings(more) + rest;
      assert DumpStrings(ss) + rest == DumpString(s) + tail;
      StringLoads(s, tail);
      StringsLoad(more, rest);
      StringsStep(|ss|, DumpString(s) + tail, s, more, tail, rest);
      assert ss == [s] + more;
    } else {
      assert DumpStrings(ss) + rest == rest;
    }
  }

  function DumpUps(ss: seq<Option<Bytes>>): Bytes
    requires Sized(|ss|)
  {
    IntBytes(|ss|) + DumpStrings(ss)
  }

  function LoadUps(b: Bytes): (r: Res<seq<Option<Bytes>>>)
    ensures r.Ok? ==> |r.rest| < |b|
  {
    var (n, b1) :- LoadInt(b);
    LoadStrings(n, b1)
  }

  lemma UpsLoad(ss: seq<Option<Bytes>>, rest: Bytes)
    requires Sized(|ss|) && forall i :: 0 <= i < |ss| ==> StringOk(ss[i])
    ensures LoadUps(DumpUps(ss) + rest) == Ok(ss, rest)
  {
    Assoc(IntBytes(|ss|), DumpStrings(ss), rest);
    IntLoads(|ss|, DumpStrings(ss) + rest);
    StringsLoad(ss, rest);
  }

  // ---------------------------------------------------------------- functions

  /** Everything but the nested functions is in range. */
  predicate ShellOk(f: Proto) {
    && StringOk(f.source) && 0 <= f.linedefined < TWO31 && 0 <= f.lastline < TWO31
    && Sized(|f.code|) && (forall i :: 0 <= i < |f.code| ==> IsInt(f.code[i]))
    && Sized(|f.k|) && (forall i :: 0 <= i < |f.k| ==> ConstOk(f.k[i])) && Sized(|f.p|)
    && Sized(|f.lineinfo|) && (forall i :: 0 <= i < |f.lineinfo| ==> IsInt(f.lineinfo[i]))
    && Sized(|f.locvars|) && (forall i :: 0 <= i < |f.locvars| ==> LocVarOk(f.locvars[i]))
    && Sized(|f.upvalues|) && (forall i :: 0 <= i < |f.upvalues| ==> StringOk(f.upvalues[i]))
  }

  predicate ProtoOk(f: Proto) {
    ShellOk(f) && forall i :: 0 <= i < |f.p| ==> ProtoOk(f.p[i])
  }

  function DumpLines(f: Proto): Bytes
    requires ShellOk(f)
  {
    IntBytes(f.linedefined) + IntBytes(f.lastline)
  }

  function DumpFlags(f: Proto): Bytes {
    [f.nups] + ([f.numparams] + ([f.vararg] + [f.maxstack]))
  }

  /** The part before the constants. */
  function DumpHead(f: Proto, parent: Option<Bytes>, strip: bool): Bytes
    requires ShellOk(f)
  {
    DumpString(if f.source == parent || strip then None else f.source)
        + (DumpLines(f) + (DumpFlags(f) + DumpInts(f.code)))
  }

  function DumpDebug(f: Proto, strip: bool): Bytes
    requires ShellOk(f)
  {
    if strip then DumpInts([]) + (DumpLocs([]) + DumpUps([]))
    else DumpInts(f.lineinfo) + (DumpLocs(f.locvars) + DumpUps(f.upvalues))
  }

  function DumpFunction(f: Proto, parent: Option<Bytes>, strip: bool): Bytes
    requires ProtoOk(f)
    decreases f, 1
  {
    DumpHead(f, parent, strip)
        + (DumpKs(f.k) + ((IntBytes(|f.p|) + DumpFunctions(f.p, f.source, strip)) + DumpDebug(f, strip)))
  }

  function DumpFunctions(fs: seq<Proto>, parent: Option<Bytes>, strip: bool): Bytes
    requires forall i :: 0 <= i < |fs| ==> ProtoOk(fs[i])
    decreases fs, 0
  {
    if fs == [] then [] else DumpFunction(fs[0], parent, strip) + DumpFunctions(fs[1..], parent, strip)
  }

  function LoadLines(b: Bytes): (r: Res<(int, int)>)
    ensures r.Ok? ==> |r.rest| < |b|
  {
    var (linedefined, b1) :- LoadInt(b);
    var (lastline, b2) :- LoadInt(b1);
    Ok((linedefined, lastline), b2)
  }

  function LoadFlags(b: Bytes): (r: Res<(Byte, Byte, Byte, Byte)>)
    ensures r.Ok? ==> |r.rest| < |b|
  {
    var (nups, b1) :- LoadByte(b);
    var (numparams, b2) :- LoadByte(b1);
    var (vararg, b3) :- LoadByte(b2);
    var (maxstack, b4) :- LoadByte(b3);
    Ok((nups, numparams, vararg, maxstack), b4)
  }

  function Shell(source: Option<Bytes>, lines: (int, int), flags: (Byte, Byte, Byte, Byte), code: seq<int>): Proto {
    Proto(source, lines.0, lines.1, flags.0, flags.1, flags.2, flags.3, code, [], [], [], [], [])
  }

  /** The part before the constants, the source inherited if none is given. */
  function LoadHead(b: Bytes, parent: Option<Bytes>): (r: Res<Proto>)
    ensures r.Ok? ==> |r.rest| < |b|
  {
    var (source, b1) :- LoadString(b);
    var (lines, b2) :- LoadLines(b1);
    var (flags, b3) :- LoadFlags(b2);
    var (code, b4) :- LoadInts(b3);
    Ok(Shell(if source.None? then parent else source, lines, flags, code), b4)
  }

  function WithDebug(f: Proto, lineinfo: seq<int>, locvars: seq<LocVar>, upvalues: seq<Option<Bytes>>): Proto {
    f.(lineinfo := lineinfo, locvars := locvars, upvalues := upvalues)
  }

  function LoadDebug(b: Bytes, f: Proto): (r: Res<Proto>)
    ensures r.Ok? ==> |r.rest| < |b|
  {
    var (lineinfo, b1) :- LoadInts(b);
    var (locvars, b2) :- LoadLocs(b1);
    var (upvalues, b3) :- LoadUps(b2);
    Ok(WithDebug(f, lineinfo, locvars, upvalues), b3)
  }

  /** The bytecode check, which is not part of this model. */
  type Check = Proto -> bool

  function LoadFunction(b: Bytes, parent: Option<Bytes>, check: Check): (r: Res<Proto>)
    ensures r.Ok? ==> |r.rest| < |b|
    decreases |b|, 1, 0
  {
    var (f0, b1) :- LoadHead(b, parent);
    var (k, b2) :- LoadKs(b1);
    var (m, b3) :- LoadInt(b2);
    var (p, b4) :- LoadFunctions(m, b3, f0.source, check);
    var (f, b5) :- LoadDebug(b4, f0.(k := k, p := p));
    if check(f) then Ok(f, b5) else Err(BadCode)
  }

  function LoadFunctions(n: nat, b: Bytes, parent: Option<Bytes>, check: Check): (r: Res<seq<Proto>>)
    ensures r.Ok? ==> |r.rest| <= |b|
    decreases |b|, 2, n
  {
    if n == 0 then Ok([], b)
    else
      var (f, b1) :- LoadFunction(b, parent, check);
      var (fs, b2) :- LoadFunctions(n - 1, b1, parent, check);
      Ok([f] + fs, b2)
  }

  // ---------------------------------------------------------------- what comes back

  /** The source read for a function: its own, or its parent's where none was written. */
  function LoadedSource(f: Proto, parent: Option<Bytes>, strip: bool): Option<Bytes> {
    if strip || f.source.None? then parent else f.source
  }

  /** The prototype that comes back: sources filled in, debug data erased if stripped. */
  function Returned(f: Proto, parent: Option<Bytes>, strip: bool): Proto
    decreases f, 1
  {
    var source := LoadedSource(f, parent, strip);
    f.(source := source, p := ReturnedAll(f.p, source, strip),
       lineinfo := if strip then [] else f.lineinfo,
       locvars := if strip then [] else f.locvars,
       upvalues := if strip then [] else f.upvalues)
  }

  function ReturnedAll(fs: seq<Proto>, parent: Option<Bytes>, strip: bool): (r: seq<Proto>)
    ensures |r| == |fs|
    decreases fs, 0
  {
    if fs == [] then [] else [Returned(fs[0], parent, strip)] + ReturnedAll(fs[1..], parent, strip)
  }

  /** Every function that comes back passes the check. */
  predicate Checked(f: Proto, check: Check) {
    check(f) && forall i :: 0 <= i < |f.p| ==> Checked(f.p[i], check)
  }

  lemma LinesLoad(f: Proto, rest: Bytes)
    requires ShellOk(f)
    ensures LoadLines(DumpLines(f) + rest) == Ok((f.linedefined, f.lastline), rest)
  {
    Assoc(IntBytes(f.linedefined), IntBytes(f.lastline), rest);
    IntLoads(f.linedefined, IntBytes(f.lastline) + rest);
    IntLoads(f.lastline, rest);
  }

  lemma FlagsLoad(f: Proto, rest: Bytes)
    ensures LoadFlags(DumpFlags(f) + rest) == Ok((f.nups, f.numparams, f.vararg, f.maxstack), rest)
  {
    var r3 := [f.maxstack] + rest;
    var r2 := [f.vararg] + r3;
    var r1 := [f.numparams] + r2;
    assert DumpFlags(f) + rest == [f.nups] + r1;
    ByteLoads(f.nups, r1);
    ByteLoads(f.numparams, r2);
    ByteLoads(f.vararg, r3);
    ByteLoads(f.maxstack, rest);
  }

  predicate CheckedAll(fs: seq<Proto>, check: Check) {
    forall i :: 0 <= i < |fs| ==> Checked(fs[i], check)
  }

  lemma CheckedBoth(f: Proto, fs: seq<Proto>, check: Check)
    requires CheckedAll([f] + fs, check)
    ensures Checked(f, check) && CheckedAll(fs, check)
  {
    assert ([f] + fs)[0] == f;
    forall i | 0 <= i < |fs| ensures Checked(fs[i], check) { assert ([f] + fs)[i + 1] == fs[i]; }
  }

  lemma HeadLoads(f: Proto, parent: Option<Bytes>, parent': Option<Bytes>, strip: bool, rest: Bytes)
    requires ShellOk(f) && (!strip && parent.Some? ==> parent' == parent)
    ensures LoadHead(DumpHead(f, parent, strip) + rest, parent')
      == Ok(Shell(LoadedSource(f, parent', strip), (f.linedefined, f.lastline),
          (f.nups, f.numparams, f.vararg, f.maxstack), f.code), rest)
  {
    var source := if f.source == parent || strip then None else f.source;
    var r3 := DumpInts(f.code) + rest;
    var r2 := DumpFlags(f) + r3;
    var r1 := DumpLines(f) + r2;
    Assoc(DumpFlags(f), DumpInts(f.code), rest);
    Assoc(DumpLines(f), DumpFlags(f) + DumpInts(f.code), rest);
    Assoc(DumpString(source), DumpLines(f) + (DumpFlags(f) + DumpInts(f.code)), rest);
    StringLoads(source, r1);
    LinesLoad(f, r2);
    FlagsLoad(f, r3);
    IntsLoad(f.code, rest);
  }

  lemma DebugLoads(lineinfo: seq<int>, locvars: seq<LocVar>, upvalues: seq<Option<Bytes>>, g: Proto, rest: Bytes)
    requires Sized(|lineinfo|) && forall i :: 0 <= i < |lineinfo| ==> IsInt(lineinfo[i])
    requires Sized(|locvars|) && forall i :: 0 <= i < |locvars| ==> LocVarOk(locvars[i])
    requires Sized(|upvalues|) && forall i :: 0 <= i < |upvalues| ==> StringOk(upvalues[i])
    ensures LoadDebug(DumpInts(lineinfo) + (DumpLocs(locvars) + DumpUps(upvalues)) + rest, g)
        == Ok(WithDebug(g, lineinfo, locvars, upvalues), rest)
  {
    var r2 := DumpUps(upvalues) + rest;
    var r1 := DumpLocs(locvars) + r2;
    Assoc(DumpLocs(locvars), DumpUps(upvalues), rest);
    Assoc(DumpInts(lineinfo), DumpLocs(locvars) + DumpUps(upvalues), rest);
    IntsLoad(lineinfo, r1);
    LocsLoad(locvars, r2);
    UpsLoad(upvalues, rest);
  }

  /** The pieces of a dumped function, one behind the other. */
  lemma FunctionParts(a: Bytes, b: Bytes, c: Bytes, d: Bytes, e: Bytes, rest: Bytes)
    ensures (a + (b + ((c + d) + e))) + rest == a + (b + (c + (d + (e + rest))))
  {
    Assoc(c, d, e);
    Assoc(c, d + e, rest);
    Assoc(d, e, rest);
    Assoc(b, c + (d + e), rest);
    Assoc(a, b + (c + (d + e)), rest);
  }

  /** One function, once its parts load. */
  lemma FunctionStep(b: Bytes, parent: Option<Bytes>, check: Check, f0: Proto, b1: Bytes, k: seq<Const>, b2: Bytes,
      m: nat, b3: Bytes,
                     p: seq<Proto>, b4: Bytes, f: Proto, b5: Bytes)
    requires LoadHead(b, parent) == Ok(f0, b1) && LoadKs(b1) == Ok(k, b2) && LoadInt(b2) == Ok(m, b3)
    requires LoadFunctions(m, b3, f0.source, check) == Ok(p, b4) && LoadDebug(b4, f0.(k := k, p := p)) == Ok(f, b5)
        && check(f)
    ensures LoadFunction(b, parent, check) == Ok(f, b5)
  {
  }

  /** Loading what was dumped, under a parent that stands for the one it was dumped under. */
  lemma {:induction false} FunctionLoads(f: Proto, parent: Option<Bytes>, parent': Option<Bytes>, strip: bool,
      check: Check, rest: Bytes)
    requires ProtoOk(f) && (!strip && parent.Some? ==> parent' == parent)
        && Checked(Returned(f, parent', strip), check)
    ensures LoadFunction(DumpFunction(f, parent, strip) + rest, parent', check)
        == Ok(Returned(f, parent', strip), rest)
    decreases f, 1
  {
    var source := LoadedSource(f, parent', strip);
    var ps := DumpFunctions(f.p, f.source, strip);
    var b4 := DumpDebug(f, strip) + rest;
    var b3 := ps + b4;
    var b2 := IntBytes(|f.p|) + b3;
    var b1 := DumpKs(f.k) + b2;
    FunctionParts(DumpHead(f, parent, strip), DumpKs(f.k), IntBytes(|f.p|), ps, DumpDebug(f, strip), rest);
    HeadLoads(f, parent, parent', strip, b1);
    KsLoad(f.k, b2);
    IntLoads(|f.p|, b3);
    FunctionsLoad(f.p, f.source, source, strip, check, b4) by {
      assert Returned(f, parent', strip).p == ReturnedAll(f.p, source, strip);
    }
    var f0 := Shell(source, (f.linedefined, f.lastline), (f.nups, f.numparams, f.vararg, f.maxstack), f.code);
    var f1 := f0.(k := f.k, p := ReturnedAll(f.p, source, strip));
    DebugBack(f, f1, strip, rest);
    FunctionStep(DumpHead(f, parent, strip) + b1, parent', check, f0, b1, f.k, b2, |f.p|, b3,
                 ReturnedAll(f.p, source, strip), b4, Returned(f, parent', strip), rest);
  }

  lemma DebugBack(f: Proto, g: Proto, strip: bool, rest: Bytes)
    requires ShellOk(f)
    ensures LoadDebug(DumpDebug(f, strip) + rest, g)
      == Ok(if strip then WithDebug(g, [], [], []) else WithDebug(g, f.lineinfo, f.locvars, f.upvalues), rest)
  {
    if strip { DebugLoads([], [], [], g, rest); } else { DebugLoads(f.lineinfo, f.locvars, f.upvalues, g, rest); }
  }

  lemma FunctionsStep(n: nat, b: Bytes, parent: Option<Bytes>, check: Check, f: Proto, b1: Bytes, fs: seq<Proto>,
      b2: Bytes)
    requires n > 0 && LoadFunction(b, parent, check) == Ok(f, b1)
        && LoadFunctions(n - 1, b1, parent, check) == Ok(fs, b2)
    ensures LoadFunctions(n, b, parent, check) == Ok([f] + fs, b2)
  {
  }

  lemma {:induction false} FunctionsLoad(fs: seq<Proto>, parent: Option<Bytes>, parent': Option<Bytes>,
      strip: bool, check: Check, rest: Bytes)
    requires (forall i :: 0 <= i < |fs| ==> ProtoOk(fs[i])) && (!strip && parent.Some? ==> parent' == parent)
    requires CheckedAll(ReturnedAll(fs, parent', strip), check)
    ensures LoadFunctions(|fs|, DumpFunctions(fs, parent, strip) + rest, parent', check)
        == Ok(ReturnedAll(fs, parent', strip), rest)
    decreases fs, 0
  {
    if fs == [] {
      assert DumpFunctions(fs, parent, strip) + rest == rest;
    } else {
      var f, more := fs[0], fs[1..];
      var tail := DumpFunctions(more, parent, strip) + rest;
      Assoc(DumpFunction(f, parent, strip), DumpFunctions(more, parent, strip), rest);
      CheckedBoth(Returned(f, parent', strip), ReturnedAll(more, parent', strip), check);
      FunctionLoads(f, parent, parent', strip, check, tail);
      FunctionsLoad(more, parent, parent', strip, check, rest);
      FunctionsStep(|fs|, DumpFunction(f, parent, strip) + tail, parent', check, Returned(f, parent', strip), tail,
                    ReturnedAll(more, parent', strip), rest);
    }
  }

  // ---------------------------------------------------------------- chunks

  const Header: Bytes := [27, 76, 117, 97, 0x51, 0, 1, 4, 8, 4, 8, 0]

  const Unknown: Option<Bytes> := Some([61, 63])

  function DumpChunk(f: Proto, strip: bool): Bytes
    requires ProtoOk(f)
  {
    Header + DumpFunction(f, None, strip)
  }

  function LoadChunk(b: Bytes, check: Check): Res<Proto> {
    var (h, b1) :- LoadBlock(b, |Header|);
    if h != Header then Err(BadHeader) else LoadFunction(b1, Unknown, check)
  }

  /** Dumping and loading: the same prototype with sources filled in, or, when
      stripped, with debug data erased and every source unknown. */
  lemma ChunkTrip(f: Proto, strip: bool, check: Check)
    requires ProtoOk(f) && Checked(Returned(f, Unknown, strip), check)
    ensures LoadChunk(DumpChunk(f, strip), check) == Ok(Returned(f, Unknown, strip), [])
  {
    var d := DumpFunction(f, None, strip);
    BlockTrip(Header, d);
    assert d + [] == d;
    FunctionLoads(f, None, Unknown, strip, check, []);
  }

  /** Every function names its source. */
  predicate SourcesGiven(f: Proto) {
    f.source.Some? && forall i :: 0 <= i < |f.p| ==> SourcesGiven(f.p[i])
  }

  /** The prototype comes back unchanged exactly when every function in it names its source. */
  lemma {:induction false} ReturnedSame(f: Proto, parent: Option<Bytes>)
    requires parent.Some?
    ensures Returned(f, parent, false) == f <==> SourcesGiven(f)
    decreases f, 1
  {
    if f.source.Some? {
      ReturnedAllSame(f.p, f.source);
    }
  }

  lemma {:induction false} ReturnedAllSame(fs: seq<Proto>, parent: Option<Bytes>)
    requires parent.Some?
    ensures ReturnedAll(fs, parent, false) == fs <==> forall i :: 0 <= i < |fs| ==> SourcesGiven(fs[i])
    decreases fs, 0
  {
    if fs != [] {
      ReturnedSame(fs[0], parent);
      ReturnedAllSame(fs[1..], parent);
      var r := ReturnedAll(fs, parent, false);
      assert fs == [fs[0]] + fs[1..] && r[0] == Returned(fs[0], parent, false)
          && r[1..] == ReturnedAll(fs[1..], parent, false);
      if forall i :: 0 <= i < |fs| ==> SourcesGiven(fs[i]) {
        assert SourcesGiven(fs[0]);
        forall i | 0 <= i < |fs| - 1 ensures SourcesGiven(fs[1..][i]) { assert SourcesGiven(fs[i + 1]); }
      }
      if r == fs {
        forall i | 0 <= i < |fs| ensures SourcesGiven(fs[i]) { if i > 0 { assert fs[i] == fs[1..][i - 1]; } }
      }
    }
  }

  /** The round trip is exact exactly when every function names its source. */
  lemma ChunkTripExact(f: Proto, check: Check)
    requires ProtoOk(f) && Checked(Returned(f, Unknown, false), check)
    ensures LoadChunk(DumpChunk(f, false), check) == Ok(f, []) <==> SourcesGiven(f)
  {
    ChunkTrip(f, false, check);
    ReturnedSame(f, Unknown);
  }

  /** No debug data, and the given source, all the way down. */
  predicate Bare(f: Proto, source: Option<Bytes>) {
    f.source == source && f.lineinfo == [] && f.locvars == [] && f.upvalues == []
        && forall i :: 0 <= i < |f.p| ==> Bare(f.p[i], source)
  }

  lemma {:induction false} StrippedBare(f: Proto, parent: Option<Bytes>)
    ensures Bare(Returned(f, parent, true), parent)
    ensures var g := Returned(f, parent, true); g.code == f.code && g.k == f.k && |g.p| == |f.p|
    decreases f, 1
  {
    StrippedAllBare(f.p, parent);
  }

  lemma {:induction false} StrippedAllBare(fs: seq<Proto>, parent: Option<Bytes>)
    ensures forall i :: 0 <= i < |fs| ==> Bare(ReturnedAll(fs, parent, true)[i], parent)
    decreases fs, 0
  {
    if fs != [] {
      StrippedBare(fs[0], parent);
      StrippedAllBare(fs[1..], parent);
    }
  }
}
