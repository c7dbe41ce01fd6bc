/**
  The layout of a precompiled chunk, byte by byte and place by place: what stands
  where, told without the functions that write and read it, and that both agree.
 */
module ChunkLayout {
  import opened Common
  import opened Chunk

  // ---------------------------------------------------------------- what stands where

  /** The weights of the eight digits of a number in base 256. */
  const WEIGHTS: seq<nat> := [1, 0x100, 0x1_0000, 0x100_0000,
    0x1_0000_0000, 0x100_0000_0000, 0x1_0000_0000_0000, 0x100_0000_0000_0000]

  /** `n` bytes at a place are the digits of a number, the lowest first. */
  predicate DigitsLie(b: Bytes, at: nat, n: nat, x: nat)
    requires n <= 8
  {
    at + n <= |b| && forall i :: 0 <= i < n ==> b[at + i] == x / WEIGHTS[i] % 256
  }

  /** Four bytes, a negative integer in two's complement. */
  predicate IntLies(b: Bytes, at: nat, x: int)
    requires IsInt(x)
  {
    DigitsLie(b, at, 4, if x < 0 then 0x1_0000_0000 + x else x)
  }

  predicate ByteLies(b: Bytes, at: nat, x: Byte) {
    at < |b| && b[at] == x
  }

  predicate BytesLie(b: Bytes, at: nat, t: Bytes) {
    at + |t| <= |b| && forall i :: 0 <= i < |t| ==> b[at + i] == t[i]
  }

  /** Eight bytes of size, which counts a closing zero, and the text with the zero; no
      string at all is the size zero. */
  predicate StringLies(b: Bytes, at: nat, s: Option<Bytes>) {
    match s
    case None => DigitsLie(b, at, 8, 0)
    case Some(t) => DigitsLie(b, at, 8, |t| + 1) && BytesLie(b, at + 8, t) && ByteLies(b, at + 8 + |t|, 0)
  }

  function StringSize(s: Option<Bytes>): nat {
    match s
    case None => 8
    case Some(t) => 8 + |t| + 1
  }

  predicate IntsOk(v: seq<int>) {
    Sized(|v|) && forall i :: 0 <= i < |v| ==> IsInt(v[i])
  }

  predicate RowLies(b: Bytes, at: nat, v: seq<int>)
    requires forall i :: 0 <= i < |v| ==> IsInt(v[i])
  {
    at + 4 * |v| <= |b| && forall i :: 0 <= i < |v| ==> IntLies(b, at + 4 * i, v[i])
  }

  /** A count and four bytes for each. */
  predicate IntsLie(b: Bytes, at: nat, v: seq<int>)
    requires IntsOk(v)
  {
    IntLies(b, at, |v|) && RowLies(b, at + 4, v)
  }

  /** A tag, which is 0 for nil, 1 for a boolean, 3 for a number and 4 for a string, and the value. */
  predicate ConstLies(b: Bytes, at: nat, c: Const) {
    match c
    case CNil => ByteLies(b, at, 0)
    case CBool(x) => ByteLies(b, at, 1) && ByteLies(b, at + 1, if x then 1 else 0)
    case CNum(n) => ByteLies(b, at, 3) && BytesLie(b, at + 1, n)
    case CStr(s) => ByteLies(b, at, 4) && StringLies(b, at + 1, s)
  }

  function ConstSize(c: Const): nat {
    match c
    case CNil => 1
    case CBool(_) => 2
    case CNum(n) => 1 + |n|
    case CStr(s) => 1 + StringSize(s)
  }

  /** One behind the other. */
  predicate ConstsLie(b: Bytes, at: nat, ks: seq<Const>)
    decreases |ks|
  {
    if ks == [] then at <= |b| else ConstLies(b, at, ks[0]) && ConstsLie(b, at + ConstSize(ks[0]), ks[1..])
  }

  function ConstsSize(ks: seq<Const>): nat {
    if ks == [] then 0 else ConstSize(ks[0]) + ConstsSize(ks[1..])
  }

  /** The name, and the first and the last instruction. */
  predicate LocVarLies(b: Bytes, at: nat, v: LocVar)
    requires LocVarOk(v)
  {
    var q := at + StringSize(v.name);
    StringLies(b, at, v.name) && IntLies(b, q, v.startpc) && IntLies(b, q + 4, v.endpc)
  }

  function LocVarSize(v: LocVar): nat {
    StringSize(v.name) + 8
  }

  predicate LocVarsLie(b: Bytes, at: nat, vs: seq<LocVar>)
    requires forall i :: 0 <= i < |vs| ==> LocVarOk(vs[i])
    decreases |vs|
  {
    if vs == [] then at <= |b| else LocVarLies(b, at, vs[0]) && LocVarsLie(b, at + LocVarSize(vs[0]), vs[1..])
  }

  function LocVarsSize(vs: seq<LocVar>): nat {
    if vs == [] then 0 else LocVarSize(vs[0]) + LocVarsSize(vs[1..])
  }

  predicate StringsLie(b: Bytes, at: nat, ss: seq<Option<Bytes>>)
    decreases |ss|
  {
    if ss == [] then at <= |b| else StringLies(b, at, ss[0]) && StringsLie(b, at + StringSize(ss[0]), ss[1..])
  }

  function StringsSize(ss: seq<Option<Bytes>>): nat {
    if ss == [] then 0 else StringSize(ss[0]) + StringsSize(ss[1..])
  }

  /** The source is left out when it is the parent's, or when the chunk is stripped. */
  function SourceWritten(f: Proto, parent: Option<Bytes>, strip: bool): Option<Bytes> {
    if strip || f.source == parent then None else f.source
  }

  predicate LinesLie(b: Bytes, at: nat, f: Proto)
    requires ShellOk(f)
  {
    IntLies(b, at, f.linedefined) && IntLies(b, at + 4, f.lastline)
  }

  predicate FlagsLie(b: Bytes, at: nat, f: Proto) {
    && ByteLies(b, at, f.nups) && ByteLies(b, at + 1, f.numparams)
    && ByteLies(b, at + 2, f.vararg) && ByteLies(b, at + 3, f.maxstack)
  }

  /** Source, lines, the four numbers of one byte each, and the code. */
  predicate HeadLies(b: Bytes, at: nat, f: Proto, parent: Option<Bytes>, strip: bool)
    requires ShellOk(f)
  {
    var s := SourceWritten(f, parent, strip);
    var q := at + StringSize(s);
    && StringLies(b, at, s)
    && LinesLie(b, q, f) && FlagsLie(b, q + 8, f) && IntsLie(b, q + 12, f.code)
  }

  function HeadSize(f: Proto, parent: Option<Bytes>, strip: bool): nat {
    StringSize(SourceWritten(f, parent, strip)) + 12 + 4 + 4 * |f.code|
  }

  /** A count and the elements. */
  predicate KsLie(b: Bytes, at: nat, ks: seq<Const>)
    requires Sized(|ks|)
  {
    IntLies(b, at, |ks|) && ConstsLie(b, at + 4, ks)
  }

  predicate LocsLie(b: Bytes, at: nat, vs: seq<LocVar>)
    requires Sized(|vs|) && forall i :: 0 <= i < |vs| ==> LocVarOk(vs[i])
  {
    IntLies(b, at, |vs|) && LocVarsLie(b, at + 4, vs)
  }

  predicate UpsLie(b: Bytes, at: nat, ss: seq<Option<Bytes>>)
    requires Sized(|ss|)
  {
    IntLies(b, at, |ss|) && StringsLie(b, at + 4, ss)
  }

  /** What debug data is written: none of it when stripped. */
  function Written(f: Proto, strip: bool): (r: Proto)
    ensures ShellOk(f) ==> ShellOk(r)
  {
    if strip then f.(lineinfo := [], locvars := [], upvalues := []) else f
  }

  /** Three lists: the lines, the local variables and the names of upvalues. */
  predicate ListsLie(b: Bytes, at: nat, f: Proto)
    requires ShellOk(f)
  {
    var q := at + (4 + 4 * |f.lineinfo|);
    var r := q + (4 + LocVarsSize(f.locvars));
    IntsLie(b, at, f.lineinfo) && LocsLie(b, q, f.locvars) && UpsLie(b, r, f.upvalues)
  }

  function ListsSize(f: Proto): nat {
    (4 + 4 * |f.lineinfo|) + (4 + LocVarsSize(f.locvars)) + (4 + StringsSize(f.upvalues))
  }

  /** Head, constants and the number of nested functions. */
  predicate FrontLies(b: Bytes, at: nat, f: Proto, parent: Option<Bytes>, strip: bool)
    requires ShellOk(f)
  {
    var q := at + HeadSize(f, parent, strip);
    var r := q + (4 + ConstsSize(f.k));
    HeadLies(b, at, f, parent, strip) && KsLie(b, q, f.k) && IntLies(b, r, |f.p|)
  }

  function FrontSize(f: Proto, parent: Option<Bytes>, strip: bool): nat {
    HeadSize(f, parent, strip) + (4 + ConstsSize(f.k)) + 4
  }

  /** Then the nested functions and the debug data. */
  predicate FunctionLies(b: Bytes, at: nat, f: Proto, parent: Option<Bytes>, strip: bool)
    requires ProtoOk(f)
    decreases f, 1
  {
    var q := at + FrontSize(f, parent, strip);
    var r := q + FunctionsSize(f.p, f.source, strip);
    && FrontLies(b, at, f, parent, strip)
    && FunctionsLie(b, q, f.p, f.source, strip)
    && ListsLie(b, r, Written(f, strip))
  }

  predicate FunctionsLie(b: Bytes, at: nat, fs: seq<Proto>, parent: Option<Bytes>, strip: bool)
    requires forall i :: 0 <= i < |fs| ==> ProtoOk(fs[i])
    decreases fs, 0
  {
    if fs == [] then at <= |b|
    else
      && FunctionLies(b, at, fs[0], parent, strip)
      && FunctionsLie(b, at + FunctionSize(fs[0], parent, strip), fs[1..], parent, strip)
  }

  function FunctionSize(f: Proto, parent: Option<Bytes>, strip: bool): nat
    decreases f, 1
  {
    FrontSize(f, parent, strip) + FunctionsSize(f.p, f.source, strip) + ListsSize(Written(f, strip))
  }

  function FunctionsSize(fs: seq<Proto>, parent: Option<Bytes>, strip: bool): nat
    decreases fs, 0
  {
    if fs == [] then 0 else FunctionSize(fs[0], parent, strip) + FunctionsSize(fs[1..], parent, strip)
  }

  /** The signature, version 5.1, format 0, the byte order, four sizes, floating point. */
  predicate HeaderLies(b: Bytes) {
    && |b| >= 12
    && b[0] == 0x1B && b[1] == 0x4C && b[2] == 0x75 && b[3] == 0x61
    && b[4] == 0x51 && b[5] == 0 && b[6] == 1
    && b[7] == 4 && b[8] == 8 && b[9] == 4 && b[10] == 8 && b[11] == 0
  }

  /** A whole chunk. */
  predicate ChunkLies(b: Bytes, f: Proto, strip: bool)
    requires ProtoOk(f)
  {
    HeaderLies(b) && FunctionLies(b, 12, f, None, strip) && |b| == 12 + FunctionSize(f, None, strip)
  }

  // ---------------------------------------------------------------- numbers and strings

  /** The bytes stand at a place. */
  predicate Stand(b: Bytes, at: nat, d: Bytes) {
    at + |d| <= |b| && b[at..at + |d|] == d
  }

  lemma StandParts(b: Bytes, at: nat, x: Bytes, q: nat, y: Bytes)
    requires q == at + |x|
    ensures Stand(b, at, x + y) == (Stand(b, at, x) && Stand(b, q, y))
  {
    var n := |x + y|;
    if at + n <= |b| {
      var l := b[at..at + n];
      assert l[..|x|] == b[at..q] && l[|x|..] == b[q..q + |y|];
      assert (x + y)[..|x|] == x && (x + y)[|x|..] == y;
      assert l == l[..|x|] + l[|x|..];
    }
  }

  lemma BytesStand(b: Bytes, at: nat, t: Bytes)
    ensures Stand(b, at, t) == BytesLie(b, at, t)
  {
    if BytesLie(b, at, t) { assert b[at..at + |t|] == t; }
    if Stand(b, at, t) {
      forall i | 0 <= i < |t| ensures b[at + i] == t[i] { assert b[at..at + |t|][i] == t[i]; }
    }
  }

  lemma ByteStands(b: Bytes, at: nat, x: Byte)
    ensures Stand(b, at, [x]) == ByteLies(b, at, x)
  {
    BytesStand(b, at, [x]);
    assert ByteLies(b, at, x) ==> forall i :: 0 <= i < 1 ==> b[at + i] == [x][i];
  }

  lemma Quotients(x: nat)
    ensures x / 0x100 / 0x100 == x / 0x1_0000
    ensures x / 0x1_0000 / 0x100 == x / 0x100_0000
    ensures x / 0x100_0000 / 0x100 == x / 0x1_0000_0000
  {
  }

  lemma LowDigit(x: nat, n: nat, y: nat, m: nat)
    requires n == m + 1 && y == x / 256
    ensures LittleEndian(x, n) == [x % 256] + LittleEndian(y, m)
  {
  }

  lemma Joined(d0: Byte, d1: Byte, d2: Byte, d3: Byte, more: Bytes)
    ensures [d0] + ([d1] + ([d2] + ([d3] + more))) == [d0, d1, d2, d3] + more
  {
  }

  lemma FourDigits(x: nat, n: nat)
    requires n >= 4
    ensures LittleEndian(x, n)
      == [x % 256, x / 0x100 % 256, x / 0x1_0000 % 256, x / 0x100_0000 % 256] + LittleEndian(x / 0x1_0000_0000, n - 4)
  {
    var x1, x2, x3, x4 := x / 0x100, x / 0x1_0000, x / 0x100_0000, x / 0x1_0000_0000;
    var m1, m2, m3, m4 := n - 1, n - 2, n - 3, n - 4;
    Quotients(x);
    LowDigit(x, n, x1, m1);
    LowDigit(x1, m1, x2, m2);
    LowDigit(x2, m2, x3, m3);
    LowDigit(x3, m3, x4, m4);
    Joined(x % 256, x1 % 256, x2 % 256, x3 % 256, LittleEndian(x4, m4));
  }

  lemma HighQuotients(x: nat)
    ensures x / 0x1_0000_0000 / 0x100 == x / 0x100_0000_0000
    ensures x / 0x1_0000_0000 / 0x1_0000 == x / 0x1_0000_0000_0000
    ensures x / 0x1_0000_0000 / 0x100_0000 == x / 0x100_0000_0000_0000
  {
  }

  /** The bytes written for a number are its digits. */
  lemma Digits(x: nat, n: nat)
    requires n == 4 || n == 8
    ensures forall i :: 0 <= i < n ==> LittleEndian(x, n)[i] == x / WEIGHTS[i] % 256
  {
    FourDigits(x, n);
    if n == 8 {
      FourDigits(x / 0x1_0000_0000, 4);
      HighQuotients(x);
    }
  }

  lemma DigitsStand(b: Bytes, at: nat, n: nat, x: nat)
    requires n == 4 || n == 8
    ensures Stand(b, at, LittleEndian(x, n)) == DigitsLie(b, at, n, x)
  {
    Digits(x, n);
    BytesStand(b, at, LittleEndian(x, n));
    var d := LittleEndian(x, n);
    if DigitsLie(b, at, n, x) {
      forall i | 0 <= i < n ensures b[at + i] == d[i] { }
    }
    if BytesLie(b, at, d) {
      forall i | 0 <= i < n ensures b[at + i] == x / WEIGHTS[i] % 256 { assert b[at + i] == d[i]; }
    }
  }

  lemma IntStands(b: Bytes, at: nat, x: int)
    requires IsInt(x)
    ensures Stand(b, at, IntBytes(x)) == IntLies(b, at, x) && |IntBytes(x)| == 4
  {
    DigitsStand(b, at, 4, if x < 0 then 0x1_0000_0000 + x else x);
  }

  lemma StringStands(b: Bytes, at: nat, s: Option<Bytes>)
    ensures Stand(b, at, DumpString(s)) == StringLies(b, at, s) && |DumpString(s)| == StringSize(s)
  {
    match s
    case None => DigitsStand(b, at, 8, 0);
    case Some(t) =>
      var n := LittleEndian(|t| + 1, 8);
      DigitsStand(b, at, 8, |t| + 1);
      Assoc(n, t, [0]);
      StandParts(b, at, n, at + 8, t + [0]);
      StandParts(b, at + 8, t, at + 8 + |t|, [0]);
      BytesStand(b, at + 8, t);
      ByteStands(b, at + 8 + |t|, 0);
  }

  // ---------------------------------------------------------------- lists

  lemma RowStep(b: Bytes, at: nat, v: seq<int>, q: nat)
    requires v != [] && q == at + 4 && forall i :: 0 <= i < |v| ==> IsInt(v[i])
    ensures RowLies(b, at, v) == (IntLies(b, at, v[0]) && RowLies(b, q, v[1..]))
  {
    var rest := v[1..];
    assert forall i :: 0 <= i < |rest| ==> rest[i] == v[i + 1];
    if RowLies(b, at, v) {
      assert IntLies(b, at + 4 * 0, v[0]);
      forall i | 0 <= i < |rest| ensures IntLies(b, q + 4 * i, rest[i]) {
        var j := i + 1;
        assert IntLies(b, at + 4 * j, v[j]);
      }
    }
    if IntLies(b, at, v[0]) && RowLies(b, q, rest) {
      forall i | 0 <= i < |v| ensures IntLies(b, at + 4 * i, v[i]) {
        if i > 0 {
          var j := i - 1;
          assert IntLies(b, q + 4 * j, rest[j]);
        }
      }
    }
  }

  lemma {:induction false} RowStands(b: Bytes, at: nat, v: seq<int>)
    requires forall i :: 0 <= i < |v| ==> IsInt(v[i])
    ensures |IntsBytes(v)| == 4 * |v| && Stand(b, at, IntsBytes(v)) == RowLies(b, at, v)
    decreases |v|
  {
    if v != [] {
      var q := at + 4;
      RowStands(b, q, v[1..]);
      IntStands(b, at, v[0]);
      StandParts(b, at, IntBytes(v[0]), q, IntsBytes(v[1..]));
      RowStep(b, at, v, q);
    }
  }

  lemma IntsStand(b: Bytes, at: nat, v: seq<int>)
    requires IntsOk(v)
    ensures Stand(b, at, DumpInts(v)) == IntsLie(b, at, v) && |DumpInts(v)| == 4 + 4 * |v|
  {
    IntStands(b, at, |v|);
    RowStands(b, at + 4, v);
    StandParts(b, at, IntBytes(|v|), at + 4, IntsBytes(v));
  }

  lemma ConstStands(b: Bytes, at: nat, c: Const)
    ensures Stand(b, at, DumpConst(c)) == ConstLies(b, at, c) && |DumpConst(c)| == ConstSize(c)
  {
    var d, q := DumpConst(c), at + 1;
    assert d == [d[0]] + d[1..];
    ByteStands(b, at, d[0]);
    StandParts(b, at, [d[0]], q, d[1..]);
    match c
    case CNil => assert d[1..] == [];
    case CBool(x) =>
      assert d[1..] == [if x then 1 else 0];
      ByteStands(b, q, if x then 1 else 0);
    case CNum(n) =>
      assert d[1..] == n;
      BytesStand(b, q, n);
    case CStr(s) =>
      assert d[1..] == DumpString(s);
      StringStands(b, q, s);
  }

  lemma {:induction false} ConstsStand(b: Bytes, at: nat, ks: seq<Const>)
    ensures Stand(b, at, DumpConsts(ks)) == ConstsLie(b, at, ks) && |DumpConsts(ks)| == ConstsSize(ks)
    decreases |ks|
  {
    if ks != [] {
      var q := at + ConstSize(ks[0]);
      ConstStands(b, at, ks[0]);
      ConstsStand(b, q, ks[1..]);
      StandParts(b, at, DumpConst(ks[0]), q, DumpConsts(ks[1..]));
    }
  }

  lemma LocVarStands(b: Bytes, at: nat, v: LocVar)
    requires LocVarOk(v)
    ensures Stand(b, at, DumpLocVar(v)) == LocVarLies(b, at, v) && |DumpLocVar(v)| == LocVarSize(v)
  {
    var q := at + StringSize(v.name);
    StringStands(b, at, v.name);
    IntStands(b, q, v.startpc);
    IntStands(b, q + 4, v.endpc);
    StandParts(b, at, DumpString(v.name), q, IntBytes(v.startpc));
    StandParts(b, at, DumpString(v.name) + IntBytes(v.startpc), q + 4, IntBytes(v.endpc));
  }

  lemma LocVarsStep(b: Bytes, at: nat, vs: seq<LocVar>, q: nat)
    requires vs != [] && q == at + LocVarSize(vs[0]) && forall i :: 0 <= i < |vs| ==> LocVarOk(vs[i])
    ensures LocVarsLie(b, at, vs) == (LocVarLies(b, at, vs[0]) && LocVarsLie(b, q, vs[1..]))
    ensures DumpLocVars(vs) == DumpLocVar(vs[0]) + DumpLocVars(vs[1..])
    ensures LocVarsSize(vs) == LocVarSize(vs[0]) + LocVarsSize(vs[1..])
  {
  }

  lemma {:induction false} LocVarsStand(b: Bytes, at: nat, vs: seq<LocVar>)
    requires forall i :: 0 <= i < |vs| ==> LocVarOk(vs[i])
    ensures Stand(b, at, DumpLocVars(vs)) == LocVarsLie(b, at, vs) && |DumpLocVars(vs)| == LocVarsSize(vs)
    decreases |vs|
  {
    if vs != [] {
      var q := at + LocVarSize(vs[0]);
      LocVarStands(b, at, vs[0]);
      LocVarsStand(b, q, vs[1..]);
      StandParts(b, at, DumpLocVar(vs[0]), q, DumpLocVars(vs[1..]));
      LocVarsStep(b, at, vs, q);
    }
  }

  lemma {:induction false} StringsStand(b: Bytes, at: nat, ss: seq<Option<Bytes>>)
    ensures Stand(b, at, DumpStrings(ss)) == StringsLie(b, at, ss) && |DumpStrings(ss)| == StringsSize(ss)
    decreases |ss|
  {
    if ss != [] {
      var q := at + StringSize(ss[0]);
      StringStands(b, at, ss[0]);
      StringsStand(b, q, ss[1..]);
      StandParts(b, at, DumpString(ss[0]), q, DumpStrings(ss[1..]));
    }
  }

  // ---------------------------------------------------------------- functions

  lemma FourStand(b: Bytes, at: nat, x: Bytes, q: nat, y: Bytes, r: nat, z: Bytes, t: nat, w: Bytes)
    requires q == at + |x| && r == q + |y| && t == r + |z|
    ensures Stand(b, at, x + (y + (z + w))) == (Stand(b, at, x) && Stand(b, q, y) && Stand(b, r, z) && Stand(b, t, w))
  {
    StandParts(b, r, z, t, w);
    StandParts(b, q, y, r, z + w);
    StandParts(b, at, x, q, y + (z + w));
  }

  lemma HeadIs(b: Bytes, at: nat, f: Proto, parent: Option<Bytes>, strip: bool, s: Option<Bytes>, q: nat, r: nat,
      t: nat)
    requires ShellOk(f) && s == SourceWritten(f, parent, strip)
    requires q == at + StringSize(s) && r == q + 8 && t == q + 12
    ensures HeadLies(b, at, f, parent, strip)
      == (StringLies(b, at, s) && LinesLie(b, q, f) && FlagsLie(b, r, f) && IntsLie(b, t, f.code))
    ensures HeadSize(f, parent, strip) == StringSize(s) + (8 + (4 + (4 + 4 * |f.code|)))
    ensures DumpHead(f, parent, strip) == DumpString(s) + (DumpLines(f) + (DumpFlags(f) + DumpInts(f.code)))
  {
  }

  lemma HeadStands(b: Bytes, at: nat, f: Proto, parent: Option<Bytes>, strip: bool)
    requires ShellOk(f)
    ensures Stand(b, at, DumpHead(f, parent, strip)) == HeadLies(b, at, f, parent, strip)
    ensures |DumpHead(f, parent, strip)| == HeadSize(f, parent, strip)
  {
    var s := SourceWritten(f, parent, strip);
    var q := at + StringSize(s);
    var r := q + 8;
    var t := q + 12;
    StringStands(b, at, s);
    LinesStand(b, q, f);
    FlagsStand(b, r, f);
    IntsStand(b, t, f.code);
    FourStand(b, at, DumpString(s), q, DumpLines(f), r, DumpFlags(f), t, DumpInts(f.code));
    HeadIs(b, at, f, parent, strip, s, q, r, t);
  }

  lemma LinesStand(b: Bytes, q: nat, f: Proto)
    requires ShellOk(f)
    ensures Stand(b, q, DumpLines(f)) == LinesLie(b, q, f)
    ensures |DumpLines(f)| == 8
  {
    IntStands(b, q, f.linedefined);
    IntStands(b, q + 4, f.lastline);
    StandParts(b, q, IntBytes(f.linedefined), q + 4, IntBytes(f.lastline));
  }

  lemma FlagsStand(b: Bytes, q: nat, f: Proto)
    ensures |DumpFlags(f)| == 4
    ensures Stand(b, q, DumpFlags(f)) == FlagsLie(b, q, f)
  {
    StandParts(b, q, [f.nups], q + 1, [f.numparams] + ([f.vararg] + [f.maxstack]));
    StandParts(b, q + 1, [f.numparams], q + 2, [f.vararg] + [f.maxstack]);
    StandParts(b, q + 2, [f.vararg], q + 3, [f.maxstack]);
    ByteStands(b, q, f.nups);
    ByteStands(b, q + 1, f.numparams);
    ByteStands(b, q + 2, f.vararg);
    ByteStands(b, q + 3, f.maxstack);
  }

  lemma KsStand(b: Bytes, at: nat, ks: seq<Const>)
    requires Sized(|ks|)
    ensures Stand(b, at, DumpKs(ks)) == KsLie(b, at, ks)
    ensures |DumpKs(ks)| == 4 + ConstsSize(ks)
  {
    IntStands(b, at, |ks|);
    ConstsStand(b, at + 4, ks);
    StandParts(b, at, IntBytes(|ks|), at + 4, DumpConsts(ks));
  }

  lemma LocsStand(b: Bytes, at: nat, vs: seq<LocVar>)
    requires Sized(|vs|) && forall i :: 0 <= i < |vs| ==> LocVarOk(vs[i])
    ensures Stand(b, at, DumpLocs(vs)) == LocsLie(b, at, vs)
    ensures |DumpLocs(vs)| == 4 + LocVarsSize(vs)
  {
    IntStands(b, at, |vs|);
    LocVarsStand(b, at + 4, vs);
    StandParts(b, at, IntBytes(|vs|), at + 4, DumpLocVars(vs));
  }

  lemma UpsStand(b: Bytes, at: nat, ss: seq<Option<Bytes>>)
    requires Sized(|ss|)
    ensures Stand(b, at, DumpUps(ss)) == UpsLie(b, at, ss)
    ensures |DumpUps(ss)| == 4 + StringsSize(ss)
  {
    IntStands(b, at, |ss|);
    StringsStand(b, at + 4, ss);
    StandParts(b, at, IntBytes(|ss|), at + 4, DumpStrings(ss));
  }

  lemma ListsAre(b: Bytes, at: nat, f: Proto, q: nat, r: nat)
    requires ShellOk(f) && q == at + (4 + 4 * |f.lineinfo|) && r == q + (4 + LocVarsSize(f.locvars))
    ensures ListsLie(b, at, f) == (IntsLie(b, at, f.lineinfo) && LocsLie(b, q, f.locvars) && UpsLie(b, r, f.upvalues))
    ensures ListsSize(f) == r - at + (4 + StringsSize(f.upvalues))
  {
  }

  lemma ListsStand(b: Bytes, at: nat, f: Proto)
    requires ShellOk(f)
    ensures Stand(b, at, DumpDebug(f, false)) == ListsLie(b, at, f) && |DumpDebug(f, false)| == ListsSize(f)
  {
    var q := at + (4 + 4 * |f.lineinfo|);
    var r := q + (4 + LocVarsSize(f.locvars));
    IntsStand(b, at, f.lineinfo);
    LocsStand(b, q, f.locvars);
    UpsStand(b, r, f.upvalues);
    StandParts(b, q, DumpLocs(f.locvars), r, DumpUps(f.upvalues));
    StandParts(b, at, DumpInts(f.lineinfo), q, DumpLocs(f.locvars) + DumpUps(f.upvalues));
    ListsAre(b, at, f, q, r);
  }

  lemma DebugStands(b: Bytes, at: nat, f: Proto, strip: bool)
    requires ShellOk(f)
    ensures Stand(b, at, DumpDebug(f, strip)) == ListsLie(b, at, Written(f, strip))
    ensures |DumpDebug(f, strip)| == ListsSize(Written(f, strip))
  {
    ListsStand(b, at, Written(f, strip));
  }

  function DumpFront(f: Proto, parent: Option<Bytes>, strip: bool): Bytes
    requires ShellOk(f)
  {
    DumpHead(f, parent, strip) + (DumpKs(f.k) + IntBytes(|f.p|))
  }

  lemma FrontIs(b: Bytes, at: nat, f: Proto, parent: Option<Bytes>, strip: bool, q: nat, r: nat)
    requires ShellOk(f) && q == at + HeadSize(f, parent, strip) && r == q + (4 + ConstsSize(f.k))
    ensures FrontLies(b, at, f, parent, strip)
      == (HeadLies(b, at, f, parent, strip) && KsLie(b, q, f.k) && IntLies(b, r, |f.p|))
    ensures FrontSize(f, parent, strip) == r - at + 4
  {
  }

  lemma ThreeStand(b: Bytes, at: nat, x: Bytes, q: nat, y: Bytes, r: nat, z: Bytes)
    requires q == at + |x| && r == q + |y|
    ensures Stand(b, at, x + (y + z)) == (Stand(b, at, x) && Stand(b, q, y) && Stand(b, r, z))
  {
    StandParts(b, q, y, r, z);
    StandParts(b, at, x, q, y + z);
  }

  lemma FrontStands(b: Bytes, at: nat, f: Proto, parent: Option<Bytes>, strip: bool)
    requires ShellOk(f)
    ensures Stand(b, at, DumpFront(f, parent, strip)) == FrontLies(b, at, f, parent, strip)
    ensures |DumpFront(f, parent, strip)| == FrontSize(f, parent, strip)
  {
    var q := at + HeadSize(f, parent, strip);
    var r := q + (4 + ConstsSize(f.k));
    HeadStands(b, at, f, parent, strip);
    KsStand(b, q, f.k);
    IntStands(b, r, |f.p|);
    ThreeStand(b, at, DumpHead(f, parent, strip), q, DumpKs(f.k), r, IntBytes(|f.p|));
    FrontIs(b, at, f, parent, strip, q, r);
  }

  /** The places of the parts of a function. */
  lemma PartsLie(b: Bytes, at: nat, f: Proto, parent: Option<Bytes>, strip: bool, q: nat, r: nat)
    requires ProtoOk(f) && q == at + FrontSize(f, parent, strip) && r == q + FunctionsSize(f.p, f.source, strip)
    requires FunctionLies(b, at, f, parent, strip)
    ensures FrontLies(b, at, f, parent, strip) == true && ListsLie(b, r, Written(f, strip)) == true
  {
  }

  lemma NestedLie(b: Bytes, at: nat, f: Proto, parent: Option<Bytes>, strip: bool, q: nat)
    requires ProtoOk(f) && q == at + FrontSize(f, parent, strip) && FunctionLies(b, at, f, parent, strip)
    ensures FunctionsLie(b, q, f.p, f.source, strip) == true
  {
  }

  lemma WholeLies(b: Bytes, at: nat, f: Proto, parent: Option<Bytes>, strip: bool, q: nat, r: nat)
    requires ProtoOk(f) && q == at + FrontSize(f, parent, strip) && r == q + FunctionsSize(f.p, f.source, strip)
    requires FrontLies(b, at, f, parent, strip) == true && FunctionsLie(b, q, f.p, f.source, strip) == true
    requires ListsLie(b, r, Written(f, strip)) == true
    ensures FunctionLies(b, at, f, parent, strip) == true
  {
  }

  lemma SizeIs(at: nat, f: Proto, parent: Option<Bytes>, strip: bool, q: nat, r: nat)
    requires q == at + FrontSize(f, parent, strip) && r == q + FunctionsSize(f.p, f.source, strip)
    ensures FunctionSize(f, parent, strip) == r - at + ListsSize(Written(f, strip))
  {
  }

  lemma Regroup(h: Bytes, k: Bytes, n: Bytes, p: Bytes, d: Bytes)
    ensures h + (k + ((n + p) + d)) == (h + (k + n)) + (p + d)
  {
    Assoc(n, p, d);
    Assoc(k, n, p + d);
    Assoc(h, k + n, p + d);
  }

  lemma DumpedParts(f: Proto, parent: Option<Bytes>, strip: bool)
    requires ProtoOk(f)
    ensures DumpFunction(f, parent, strip)
      == DumpFront(f, parent, strip) + (DumpFunctions(f.p, f.source, strip) + DumpDebug(f, strip))
  {
    Regroup(DumpHead(f, parent, strip), DumpKs(f.k), IntBytes(|f.p|), DumpFunctions(f.p, f.source, strip),
            DumpDebug(f, strip));
  }

  lemma FunctionIs(b: Bytes, at: nat, f: Proto, parent: Option<Bytes>, strip: bool, q: nat, r: nat)
    requires ProtoOk(f) && q == at + FrontSize(f, parent, strip) && r == q + FunctionsSize(f.p, f.source, strip)
    ensures FunctionLies(b, at, f, parent, strip)
      == (FrontLies(b, at, f, parent, strip) && FunctionsLie(b, q, f.p, f.source, strip)
          && ListsLie(b, r, Written(f, strip)))
  {
    if FunctionLies(b, at, f, parent, strip) == true {
      PartsLie(b, at, f, parent, strip, q, r);
      NestedLie(b, at, f, parent, strip, q);
    } else if FrontLies(b, at, f, parent, strip) == true && FunctionsLie(b, q, f.p, f.source, strip) == true {
      if ListsLie(b, r, Written(f, strip)) == true { WholeLies(b, at, f, parent, strip, q, r); }
    }
  }

  /** The bytes written for a function are those of the layout, and no others are. */
  lemma {:induction false} FunctionStands(b: Bytes, at: nat, f: Proto, parent: Option<Bytes>, strip: bool)
    requires ProtoOk(f)
    ensures Stand(b, at, DumpFunction(f, parent, strip)) == FunctionLies(b, at, f, parent, strip)
    ensures |DumpFunction(f, parent, strip)| == FunctionSize(f, parent, strip)
    decreases f, 1
  {
    var q := at + FrontSize(f, parent, strip);
    var r := q + FunctionsSize(f.p, f.source, strip);
    var front, ps, debug := DumpFront(f, parent, strip), DumpFunctions(f.p, f.source, strip), DumpDebug(f, strip);
    FrontStands(b, at, f, parent, strip);
    FunctionsStand(b, q, f.p, f.source, strip);
    DebugStands(b, r, f, strip);
    ThreeStand(b, at, front, q, ps, r, debug);
    FunctionIs(b, at, f, parent, strip, q, r);
    SizeIs(at, f, parent, strip, q, r);
    DumpedParts(f, parent, strip);
  }

  lemma FunctionsStep(b: Bytes, at: nat, fs: seq<Proto>, parent: Option<Bytes>, strip: bool, q: nat)
    requires (forall i :: 0 <= i < |fs| ==> ProtoOk(fs[i])) && fs != []
    requires q == at + FunctionSize(fs[0], parent, strip)
    ensures FunctionsLie(b, at, fs, parent, strip)
      == (FunctionLies(b, at, fs[0], parent, strip) && FunctionsLie(b, q, fs[1..], parent, strip))
  {
  }

  lemma DumpedFirst(fs: seq<Proto>, parent: Option<Bytes>, strip: bool)
    requires (forall i :: 0 <= i < |fs| ==> ProtoOk(fs[i])) && fs != []
    ensures DumpFunctions(fs, parent, strip)
      == DumpFunction(fs[0], parent, strip) + DumpFunctions(fs[1..], parent, strip)
  {
  }

  lemma SizeFirst(fs: seq<Proto>, parent: Option<Bytes>, strip: bool)
    requires fs != []
    ensures FunctionsSize(fs, parent, strip)
      == FunctionSize(fs[0], parent, strip) + FunctionsSize(fs[1..], parent, strip)
  {
  }

  lemma {:induction false} FunctionsStand(b: Bytes, at: nat, fs: seq<Proto>, parent: Option<Bytes>, strip: bool)
    requires forall i :: 0 <= i < |fs| ==> ProtoOk(fs[i])
    ensures Stand(b, at, DumpFunctions(fs, parent, strip)) == FunctionsLie(b, at, fs, parent, strip)
    ensures |DumpFunctions(fs, parent, strip)| == FunctionsSize(fs, parent, strip)
    decreases fs, 0
  {
    if fs != [] {
      var q := at + FunctionSize(fs[0], parent, strip);
      FunctionStands(b, at, fs[0], parent, strip);
      FunctionsStand(b, q, fs[1..], parent, strip);
      StandParts(b, at, DumpFunction(fs[0], parent, strip), q, DumpFunctions(fs[1..], parent, strip));
      FunctionsStep(b, at, fs, parent, strip, q);
      DumpedFirst(fs, parent, strip);
      SizeFirst(fs, parent, strip);
    }
  }

  lemma HeaderStands(b: Bytes)
    ensures Stand(b, 0, Header) == HeaderLies(b)
  {
    BytesStand(b, 0, Header);
    if BytesLie(b, 0, Header) {
      assert b[0 + 0] == Header[0] && b[0 + 1] == Header[1] && b[0 + 2] == Header[2] && b[0 + 3] == Header[3];
      assert b[0 + 4] == Header[4] && b[0 + 5] == Header[5] && b[0 + 6] == Header[6] && b[0 + 7] == Header[7];
      assert b[0 + 8] == Header[8] && b[0 + 9] == Header[9] && b[0 + 10] == Header[10] && b[0 + 11] == Header[11];
    }
  }

  lemma StandsWhole(b: Bytes, d: Bytes)
    ensures b == d <==> Stand(b, 0, d) && |b| == |d|
  {
    assert b[0..|b|] == b;
  }

  /** What is written for a prototype is the one sequence of bytes that lies as the layout says. */
  lemma ChunkStands(b: Bytes, f: Proto, strip: bool)
    requires ProtoOk(f)
    ensures ChunkLies(b, f, strip) <==> b == DumpChunk(f, strip)
  {
    var d := DumpFunction(f, None, strip);
    HeaderStands(b);
    FunctionStands(b, 12, f, None, strip);
    StandParts(b, 0, Header, 12, d);
    StandsWhole(b, Header + d);
  }

  lemma StandApart(b: Bytes, at: nat, d: Bytes, e: nat)
    requires Stand(b, at, d) && e == at + |d|
    ensures e <= |b| && b[at..] == d + b[e..]
  {
  }

  /** Bytes that lie so at a place, in the midst of any others, are read as the function. */
  lemma FunctionReads(b: Bytes, at: nat, f: Proto, parent: Option<Bytes>, parent': Option<Bytes>, strip: bool,
      check: Check, e: nat)
    requires ProtoOk(f) && FunctionLies(b, at, f, parent, strip) == true && e == at + FunctionSize(f, parent, strip)
    requires !strip && parent.Some? ==> parent' == parent
    requires Checked(Returned(f, parent', strip), check) == true
    ensures e <= |b| && LoadFunction(b[at..], parent', check) == Ok(Returned(f, parent', strip), b[e..])
  {
    var d := DumpFunction(f, parent, strip);
    FunctionStands(b, at, f, parent, strip);
    StandApart(b, at, d, e);
    FunctionLoads(f, parent, parent', strip, check, b[e..]);
  }

  /** A chunk that lies so is read as its function. */
  lemma ChunkReads(b: Bytes, f: Proto, strip: bool, check: Check)
    requires ProtoOk(f) && ChunkLies(b, f, strip) && Checked(Returned(f, Unknown, strip), check)
    ensures LoadChunk(b, check) == Ok(Returned(f, Unknown, strip), [])
  {
    ChunkStands(b, f, strip);
    ChunkTrip(f, strip, check);
  }
}
