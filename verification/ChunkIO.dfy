/**
  Dumping and loading as they are done: a writer that may fail, a buffered
  stream over a reader that hands out pieces, and functions that fill
  prototypes as they read.
 */
module ChunkIO {
  import opened Common
  import opened Chunk

  // ---------------------------------------------------------------- the stream

  /** What can be read before the reader gives nothing. */
  function Avail(chunks: seq<Bytes>): Bytes {
    if chunks == [] || chunks[0] == [] then [] else chunks[0] + Avail(chunks[1..])
  }

  function Concat(chunks: seq<Bytes>): Bytes {
    if chunks == [] then [] else chunks[0] + Concat(chunks[1..])
  }

  lemma {:induction false} AvailAll(chunks: seq<Bytes>)
    requires forall i :: 0 <= i < |chunks| ==> chunks[i] != []
    ensures Avail(chunks) == Concat(chunks)
  {
    if chunks != [] { AvailAll(chunks[1..]); }
  }

  const EOZ: int := -1

  /** A buffered stream (`ZIO`): `n` bytes from `p` on are still in the piece. */
  class ZIO {
    var piece: Bytes
    var p: nat
    var n: nat
    var chunks: seq<Bytes>

    constructor (chunks: seq<Bytes>)
      ensures Valid() && Remaining() == Avail(chunks)
    {
      piece, p, n := [], 0, 0;
      this.chunks := chunks;
    }

    predicate Valid()
      reads this
    {
      p + n == |piece|
    }

    function Remaining(): Bytes
      requires Valid()
      reads this
    {
      piece[p..] + Avail(chunks)
    }

    /** `luaZ_fill`: asks the reader, and hands out the first byte. */
    method Fill() returns (c: int)
      requires Valid() && n == 0
      modifies this
      ensures Valid()
      ensures c == EOZ ==> old(Remaining()) == []
      ensures c != EOZ ==> p > 0 && old(Remaining()) == piece[p - 1..] + Avail(chunks) && c == piece[p - 1]
    {
      assert piece[p..] == [];
      if chunks == [] { return EOZ; }
      var b := chunks[0];
      chunks := chunks[1..];
      if b == [] { return EOZ; }
      piece, p, n := b, 1, |b| - 1;
      c := b[0];
      assert piece[0..] == b;
    }

    /** `luaZ_lookahead` */
    method Lookahead() returns (c: int)
      requires Valid()
      modifies this
      ensures Valid()
      ensures c == EOZ <==> old(Remaining()) == []
      ensures c != EOZ ==> Remaining() == old(Remaining()) && n > 0 && c == Remaining()[0]
    {
      if n == 0 {
        c := Fill();
        if c == EOZ { return; }
        n, p := n + 1, p - 1;
      }
      c := piece[p];
    }

    /** Copies from the piece at hand, as many bytes as it has and are wanted. */
    method Take(wanted: nat) returns (b: Bytes)
      requires Valid() && n > 0 && wanted > 0
      modifies this
      ensures Valid() && 0 < |b| <= wanted && old(Remaining()) == b + Remaining()
    {
      var m := if wanted <= n then wanted else n;
      b := piece[p..p + m];
      assert piece[p..] == b + piece[p + m..];
      Assoc(b, piece[p + m..], Avail(chunks));
      n, p := n - m, p + m;
    }

    /** `luaZ_read`: how many bytes are missing, and those there were. */
    method Read(size: nat) returns (missing: nat, b: Bytes)
      requires Valid()
      modifies this
      ensures Valid()
      ensures |old(Remaining())| >= size ==>
          missing == 0 && b == old(Remaining())[..size] && Remaining() == old(Remaining())[size..]
      ensures |old(Remaining())| < size ==> missing == size - |old(Remaining())| && b == old(Remaining())
    {
      ghost var all := Remaining();
      missing, b := size, [];
      while missing > 0
        invariant Valid() && all == b + Remaining() && |b| + missing == size
        decreases missing
      {
        var c := Lookahead();
        if c == EOZ { return; }
        var more := Take(missing);
        Assoc(b, more, Remaining());
        b := b + more;
        missing := missing - |more|;
      }
    }
  }

  // ---------------------------------------------------------------- loading

  /** A value, or the error that stopped the load. */
  datatype Got<T> = Value(v: T) | Failed(error: Error) {
    predicate IsFailure() {
      Failed?
    }

    function PropagateFailure<U>(): Got<U>
      requires IsFailure()
    {
      Failed(error)
    }

    function Extract(): T
      requires !IsFailure()
    {
      v
    }
  }

  predicate Agrees<T(==)>(spec: Res<T>, got: Got<T>, left: Bytes) {
    match spec
    case Ok(v, rest) => got == Value(v) && left == rest
    case Err(e) => got == Failed(e)
  }

  function Onto<T>(front: seq<T>, r: Res<seq<T>>): Res<seq<T>> {
    if r.Ok? then Ok(front + r.v, r.rest) else r
  }

  lemma OntoEnds<T>(front: seq<T>, r: Res<seq<T>>, b: Bytes)
    ensures Onto([], r) == r && Onto(front, Ok([], b)) == Ok(front, b)
  {
    assert front + [] == front;
    if r.Ok? { assert [] + r.v == r.v; }
  }

  lemma OntoOne<T>(front: seq<T>, c: T, r: Res<seq<T>>)
    ensures Onto(front, Onto([c], r)) == Onto(front + [c], r)
  {
    if r.Ok? { assert front + ([c] + r.v) == (front + [c]) + r.v; }
  }

  /** One more from the stream, or the error that stops it. */
  lemma LoadConstsNext(n: nat, b: Bytes, front: seq<Const>)
    requires n > 0
    ensures match Chunk.LoadConst(b) {
      case Ok(x, b1) => Onto(front, LoadConsts(n, b)) == Onto(front + [x], LoadConsts(n - 1, b1))
      case Err(e) => Onto(front, LoadConsts(n, b)) == Err(e) }
  {
    if Chunk.LoadConst(b).Ok? { OntoOne(front, Chunk.LoadConst(b).v, LoadConsts(n - 1, Chunk.LoadConst(b).rest)); }
  }

  /** One more from the stream, or the error that stops it. */
  lemma LoadLocVarsNext(n: nat, b: Bytes, front: seq<LocVar>)
    requires n > 0
    ensures match Chunk.LoadLocVar(b) {
      case Ok(x, b1) => Onto(front, LoadLocVars(n, b)) == Onto(front + [x], LoadLocVars(n - 1, b1))
      case Err(e) => Onto(front, LoadLocVars(n, b)) == Err(e) }
  {
    if Chunk.LoadLocVar(b).Ok? { OntoOne(front, Chunk.LoadLocVar(b).v,
        LoadLocVars(n - 1, Chunk.LoadLocVar(b).rest)); }
  }

  /** One more from the stream, or the error that stops it. */
  lemma LoadStringsNext(n: nat, b: Bytes, front: seq<Option<Bytes>>)
    requires n > 0
    ensures match Chunk.LoadString(b) {
      case Ok(x, b1) => Onto(front, LoadStrings(n, b)) == Onto(front + [x], LoadStrings(n - 1, b1))
      case Err(e) => Onto(front, LoadStrings(n, b)) == Err(e) }
  {
    if Chunk.LoadString(b).Ok? { OntoOne(front, Chunk.LoadString(b).v,
        LoadStrings(n - 1, Chunk.LoadString(b).rest)); }
  }

  lemma LoadFunctionsNext(n: nat, b: Bytes, front: seq<Proto>, parent: Option<Bytes>, check: Check)
    requires n > 0
    ensures match Chunk.LoadFunction(b, parent, check) {
      case Ok(x, b1) => Onto(front, LoadFunctions(n, b, parent, check))
          == Onto(front + [x], LoadFunctions(n - 1, b1, parent, check))
      case Err(e) => Onto(front, LoadFunctions(n, b, parent, check)) == Err(e) }
  {
    var r := Chunk.LoadFunction(b, parent, check);
    if r.Ok? { OntoOne(front, r.v, LoadFunctions(n - 1, r.rest, parent, check)); }
  }

  /** Some functions have been loaded, `m` are left. */
  predicate NestedAt(n: nat, b: Bytes, parent: Option<Bytes>, check: Check, fs: seq<Proto>, m: nat, left: Bytes) {
    LoadFunctions(n, b, parent, check) == Onto(fs, LoadFunctions(m, left, parent, check))
  }

  lemma NestedEnds(n: nat, b: Bytes, parent: Option<Bytes>, check: Check, fs: seq<Proto>, left: Bytes)
    requires NestedAt(n, b, parent, check, fs, 0, left)
    ensures Agrees(LoadFunctions(n, b, parent, check), Value(fs), left) == true
  {
    OntoEnds(fs, LoadFunctions(n, b, parent, check), left);
  }

  lemma NestedStarts(n: nat, b: Bytes, parent: Option<Bytes>, check: Check)
    ensures NestedAt(n, b, parent, check, [], n, b) == true
  {
    OntoEnds([], LoadFunctions(n, b, parent, check), b);
  }

  /** The next function loaded, or the error that stops the load. */
  predicate NestedNext(n: nat, b: Bytes, parent: Option<Bytes>, check: Check, fs: seq<Proto>, m: nat,
      r: Got<Proto>, left: Bytes)
    requires m > 0
  {
    match r
    case Value(f) => NestedAt(n, b, parent, check, fs + [f], m - 1, left)
    case Failed(e) => LoadFunctions(n, b, parent, check) == Err(e)
  }

  lemma NestedFails(n: nat, b: Bytes, parent: Option<Bytes>, check: Check, fs: seq<Proto>, m: nat, r: Got<Proto>,
      left: Bytes)
    requires m > 0 && r.Failed? && NestedNext(n, b, parent, check, fs, m, r, left)
    ensures Agrees(LoadFunctions(n, b, parent, check), Failed(r.error), left) == true
  {
  }

  class LoadState {
    const z: ZIO
    const check: Check

    constructor (z: ZIO, check: Check)
      ensures this.z == z && this.check == check
    {
      this.z, this.check := z, check;
    }

    method LoadBlock(n: nat) returns (r: Got<Bytes>)
      requires z.Valid()
      modifies z
      ensures z.Valid() && Agrees(Chunk.LoadBlock(old(z.Remaining()), n), r, z.Remaining())
    {
      var missing, b := z.Read(n);
      r := if missing != 0 then Failed(UnexpectedEnd) else Value(b);
    }

    method LoadByte() returns (r: Got<Byte>)
      requires z.Valid()
      modifies z
      ensures z.Valid() && Agrees(Chunk.LoadByte(old(z.Remaining())), r, z.Remaining())
    {
      var b :- LoadBlock(1);
      r := Value(b[0]);
    }

    method LoadInt() returns (r: Got<int>)
      requires z.Valid()
      modifies z
      ensures z.Valid() && Agrees(Chunk.LoadInt(old(z.Remaining())), r, z.Remaining())
    {
      var b :- LoadBlock(INT);
      r := if IntOf(b) < 0 then Failed(BadInteger) else Value(IntOf(b));
    }

    method LoadString() returns (r: Got<Option<Bytes>>)
      requires z.Valid()
      modifies z
      ensures z.Valid() && Agrees(Chunk.LoadString(old(z.Remaining())), r, z.Remaining())
    {
      var x :- LoadBlock(SIZE_T);
      var size := FromLittle(x);
      if size == 0 { return Value(None); }
      var t :- LoadBlock(size);
      r := Value(Some(t[..size - 1]));
    }

    /** `LoadCode`, and the line information: a vector read in one block. */
    method LoadInts() returns (r: Got<seq<int>>)
      requires z.Valid()
      modifies z
      ensures z.Valid() && Agrees(Chunk.LoadInts(old(z.Remaining())), r, z.Remaining())
    {
      var n :- LoadInt();
      var b :- LoadBlock(INT * n);
      r := Value(IntsOf(b, n));
    }

    method LoadConst() returns (r: Got<Const>)
      requires z.Valid()
      modifies z
      ensures z.Valid() && Agrees(Chunk.LoadConst(old(z.Remaining())), r, z.Remaining())
    {
      var t :- LoadByte();
      if t == TNIL { return Value(CNil); }
      if t == TBOOLEAN {
        var x :- LoadByte();
        return Value(CBool(x != 0));
      }
      if t == TNUMBER {
        var x :- LoadBlock(NUMBER);
        return Value(CNum(x));
      }
      if t == TSTRING {
        var s :- LoadString();
        return Value(CStr(s));
      }
      r := Failed(BadConstant);
    }

    method LoadKs() returns (r: Got<seq<Const>>)
      requires z.Valid()
      modifies z
      ensures z.Valid() && Agrees(Chunk.LoadKs(old(z.Remaining())), r, z.Remaining())
    {
      var n :- LoadInt();
      r := LoadSomeConsts(n);
    }

    method LoadSomeConsts(n: nat) returns (r: Got<seq<Const>>)
      requires z.Valid()
      modifies z
      ensures z.Valid() && Agrees(LoadConsts(n, old(z.Remaining())), r, z.Remaining())
    {
      ghost var b := z.Remaining();
      var ks: seq<Const> := [];
      var i := 0;
      ghost var m: nat := n;
      OntoEnds(ks, LoadConsts(n, b), b);
      while i < n
        invariant 0 <= i <= n && m == n - i && z.Valid() && LoadConsts(n, b) == Onto(ks, LoadConsts(m, z.Remaining()))
      {
        ghost var b1 := z.Remaining();
        LoadConstsNext(m, b1, ks);
        var c :- LoadConst();
        ks := ks + [c];
        i, m := i + 1, m - 1;
      }
      OntoEnds(ks, LoadConsts(n, b), z.Remaining());
      r := Value(ks);
    }

    method LoadLocVar() returns (r: Got<LocVar>)
      requires z.Valid()
      modifies z
      ensures z.Valid() && Agrees(Chunk.LoadLocVar(old(z.Remaining())), r, z.Remaining())
    {
      var name :- LoadString();
      var startpc :- LoadInt();
      var endpc :- LoadInt();
      r := Value(LocVar(name, startpc, endpc));
    }

    method NextLocVar(ghost n: nat, ghost front: seq<LocVar>) returns (r: Got<LocVar>)
      requires z.Valid() && n > 0
      modifies z
      ensures z.Valid()
      ensures r.Value? ==>
          Onto(front, LoadLocVars(n, old(z.Remaining()))) == Onto(front + [r.v], LoadLocVars(n - 1, z.Remaining()))
      ensures r.Failed? ==> Onto(front, LoadLocVars(n, old(z.Remaining()))) == Err(r.error)
    {
      LoadLocVarsNext(n, z.Remaining(), front);
      r := LoadLocVar();
    }

    method LoadLocs() returns (r: Got<seq<LocVar>>)
      requires z.Valid()
      modifies z
      ensures z.Valid() && Agrees(Chunk.LoadLocs(old(z.Remaining())), r, z.Remaining())
    {
      var n :- LoadInt();
      r := LoadSomeLocVars(n);
    }

    method LoadSomeLocVars(n: nat) returns (r: Got<seq<LocVar>>)
      requires z.Valid()
      modifies z
      ensures z.Valid() && Agrees(LoadLocVars(n, old(z.Remaining())), r, z.Remaining())
    {
      ghost var b := z.Remaining();
      var vs: seq<LocVar> := [];
      var i := 0;
      ghost var m: nat := n;
      OntoEnds(vs, LoadLocVars(n, b), b);
      while i < n
        invariant 0 <= i <= n && m == n - i && z.Valid()
            && LoadLocVars(n, b) == Onto(vs, LoadLocVars(m, z.Remaining()))
      {
        var v :- NextLocVar(m, vs);
        vs := vs + [v];
        i, m := i + 1, m - 1;
      }
      OntoEnds(vs, LoadLocVars(n, b), z.Remaining());
      r := Value(vs);
    }

    method LoadUps() returns (r: Got<seq<Option<Bytes>>>)
      requires z.Valid()
      modifies z
      ensures z.Valid() && Agrees(Chunk.LoadUps(old(z.Remaining())), r, z.Remaining())
    {
      var n :- LoadInt();
      r := LoadSomeStrings(n);
    }

    method LoadSomeStrings(n: nat) returns (r: Got<seq<Option<Bytes>>>)
      requires z.Valid()
      modifies z
      ensures z.Valid() && Agrees(LoadStrings(n, old(z.Remaining())), r, z.Remaining())
    {
      ghost var b := z.Remaining();
      var ss: seq<Option<Bytes>> := [];
      var i := 0;
      ghost var m: nat := n;
      OntoEnds(ss, LoadStrings(n, b), b);
      while i < n
        invariant 0 <= i <= n && m == n - i && z.Valid()
            && LoadStrings(n, b) == Onto(ss, LoadStrings(m, z.Remaining()))
      {
        ghost var b1 := z.Remaining();
        LoadStringsNext(m, b1, ss);
        var s :- LoadString();
        ss := ss + [s];
        i, m := i + 1, m - 1;
      }
      OntoEnds(ss, LoadStrings(n, b), z.Remaining());
      r := Value(ss);
    }

    method LoadHead(parent: Option<Bytes>) returns (r: Got<Proto>)
      requires z.Valid()
      modifies z
      ensures z.Valid() && Agrees(Chunk.LoadHead(old(z.Remaining()), parent), r, z.Remaining())
    {
      var source :- LoadString();
      var linedefined :- LoadInt();
      var lastline :- LoadInt();
      var nups :- LoadByte();
      var numparams :- LoadByte();
      var vararg :- LoadByte();
      var maxstack :- LoadByte();
      var code :- LoadInts();
      r := Value(Shell(if source.None? then parent
          else source, (linedefined, lastline), (nups, numparams, vararg, maxstack), code));
    }

    method LoadDebug(f: Proto) returns (r: Got<Proto>)
      requires z.Valid()
      modifies z
      ensures z.Valid() && Agrees(Chunk.LoadDebug(old(z.Remaining()), f), r, z.Remaining())
    {
      var lineinfo :- LoadInts();
      var locvars :- LoadLocs();
      var upvalues :- LoadUps();
      r := Value(WithDebug(f, lineinfo, locvars, upvalues));
    }

    method LoadFunction(parent: Option<Bytes>) returns (r: Got<Proto>)
      requires z.Valid()
      modifies z
      ensures z.Valid() && Agrees(Chunk.LoadFunction(old(z.Remaining()), parent, check), r, z.Remaining())
      decreases |z.Remaining()|, 0
    {
      var f0 :- LoadHead(parent);
      var k :- LoadKs();
      var n :- LoadInt();
      var p :- LoadNested(n, f0.source);
      var f :- LoadDebug(f0.(k := k, p := p));
      r := if check(f) then Value(f) else Failed(BadCode);
    }

    method NextFunction(parent: Option<Bytes>, ghost n: nat, ghost b: Bytes, ghost fs: seq<Proto>,
        ghost m: nat) returns (r: Got<Proto>)
      requires z.Valid() && m > 0 && NestedAt(n, b, parent, check, fs, m, z.Remaining())
      modifies z
      ensures z.Valid() && (r.Value? ==> |z.Remaining()| <= old(|z.Remaining()|))
      ensures NestedNext(n, b, parent, check, fs, m, r, z.Remaining()) == true
      decreases |z.Remaining()|, 1
    {
      LoadFunctionsNext(m, z.Remaining(), fs, parent, check);
      r := LoadFunction(parent);
    }

    method LoadNested(n: nat, parent: Option<Bytes>) returns (r: Got<seq<Proto>>)
      requires z.Valid()
      modifies z
      ensures z.Valid() && Agrees(LoadFunctions(n, old(z.Remaining()), parent, check), r, z.Remaining()) == true
      decreases |z.Remaining()|, 2
    {
      ghost var b := z.Remaining();
      var fs: seq<Proto> := [];
      var i := 0;
      ghost var m: nat := n;
      NestedStarts(n, b, parent, check);
      while i < n
        invariant 0 <= i <= n && m == n - i && z.Valid() && |z.Remaining()| <= |b|
        invariant NestedAt(n, b, parent, check, fs, m, z.Remaining()) == true
      {
        var g := NextFunction(parent, n, b, fs, m);
        if g.Failed? {
          NestedFails(n, b, parent, check, fs, m, g, z.Remaining());
          return Failed(g.error);
        }
        fs := fs + [g.v];
        i, m := i + 1, m - 1;
      }
      NestedEnds(n, b, parent, check, fs, z.Remaining());
      r := Value(fs);
    }

    /** `luaU_undump` */
    method Undump() returns (r: Got<Proto>)
      requires z.Valid()
      modifies z
      ensures z.Valid() && Agrees(LoadChunk(old(z.Remaining()), check), r, z.Remaining())
    {
      var h :- LoadBlock(|Header|);
      if h != Header { return Failed(BadHeader); }
      r := LoadFunction(Unknown);
    }
  }

  // ---------------------------------------------------------------- dumping

  /** What dumping some bytes does: all of them are written if no write fails;
      once one has failed, its status stays and nothing more is written. */
  predicate Dumped(status0: int, out0: Bytes, bytes: Bytes, status: int, out: Bytes) {
    && (status0 != 0 ==> status == status0 && out == out0)
    && (status0 == 0 && status == 0 ==> out == out0 + bytes)
    && out0 <= out <= out0 + bytes
  }

  lemma DumpedNone(status: int, out: Bytes)
    ensures Dumped(status, out, [], status, out)
  {
    assert out + [] == out;
  }

  lemma DumpedBoth(status0: int, out0: Bytes, a: Bytes, status1: int, out1: Bytes, b: Bytes, status2: int,
      out2: Bytes)
    requires Dumped(status0, out0, a, status1, out1) && Dumped(status1, out1, b, status2, out2)
    ensures Dumped(status0, out0, a + b, status2, out2)
  {
    Assoc(out0, a, b);
    assert out0 + a <= out0 + (a + b);
    if status1 == 0 && status0 == 0 { assert out1 + b == out0 + (a + b); }
  }

  class DumpState {
    /** The status that the writer returns for its `i`-th call. */
    const writer: nat -> int
    const strip: bool
    var calls: nat
    var status: int
    var out: Bytes

    constructor (writer: nat -> int, strip: bool)
      ensures this.writer == writer && this.strip == strip && status == 0 && out == []
    {
      this.writer, this.strip := writer, strip;
      calls, status, out := 0, 0, [];
    }

    method DumpBlock(b: Bytes)
      modifies this
      ensures Dumped(old(status), old(out), b, status, out)
    {
      if status == 0 {
        status := writer(calls);
        calls := calls + 1;
        if status == 0 { out := out + b; }
      }
    }

    method DumpTwo(a: Bytes, b: Bytes)
      modifies this
      ensures Dumped(old(status), old(out), a + b, status, out)
    {
      DumpBlock(a);
      ghost var s1, o1 := status, out;
      DumpBlock(b);
      DumpedBoth(old(status), old(out), a, s1, o1, b, status, out);
    }

    method DumpString(s: Option<Bytes>)
      modifies this
      ensures Dumped(old(status), old(out), Chunk.DumpString(s), status, out)
    {
      match s {
        case None => DumpBlock(LittleEndian(0, SIZE_T));
        case Some(t) =>
          DumpTwo(LittleEndian(|t| + 1, SIZE_T), t + [0]);
          Assoc(LittleEndian(|t| + 1, SIZE_T), t, [0]);
      }
    }

    /** A count, and a vector in one block. */
    method DumpInts(v: seq<int>)
      requires Sized(|v|) && forall i :: 0 <= i < |v| ==> IsInt(v[i])
      modifies this
      ensures Dumped(old(status), old(out), Chunk.DumpInts(v), status, out)
    {
      DumpTwo(IntBytes(|v|), IntsBytes(v));
    }

    method DumpConst(c: Const)
      modifies this
      ensures Dumped(old(status), old(out), Chunk.DumpConst(c), status, out)
    {
      match c {
        case CNil => DumpBlock([TNIL]);
        case CBool(b) =>
          DumpTwo([TBOOLEAN], [if b then 1 else 0]);
          assert [TBOOLEAN] + [if b then 1 else 0] == Chunk.DumpConst(c);
        case CNum(n) => DumpTwo([TNUMBER], n);
        case CStr(s) =>
          DumpBlock([TSTRING]);
          ghost var s1, o1 := status, out;
          DumpString(s);
          DumpedBoth(old(status), old(out), [TSTRING], s1, o1, Chunk.DumpString(s), status, out);
      }
    }

    method DumpKs(ks: seq<Const>)
      requires Sized(|ks|)
      modifies this
      ensures Dumped(old(status), old(out), Chunk.DumpKs(ks), status, out)
    {
      DumpBlock(IntBytes(|ks|));
      ghost var s1, o1 := status, out;
      DumpedNone(s1, o1);
      assert ks[..0] == [];
      for i := 0 to |ks|
        invariant Dumped(s1, o1, DumpConsts(ks[..i]), status, out)
      {
        ghost var s2, o2 := status, out;
        DumpConst(ks[i]);
        ConstsSnoc(ks[..i], ks[i]);
        assert ks[..i + 1] == ks[..i] + [ks[i]];
        DumpedBoth(s1, o1, DumpConsts(ks[..i]), s2, o2, Chunk.DumpConst(ks[i]), status, out);
      }
      assert ks[..|ks|] == ks;
      DumpedBoth(old(status), old(out), IntBytes(|ks|), s1, o1, DumpConsts(ks), status, out);
    }

    method DumpLocVar(v: LocVar)
      requires LocVarOk(v)
      modifies this
      ensures Dumped(old(status), old(out), Chunk.DumpLocVar(v), status, out)
    {
      DumpString(v.name);
      ghost var s1, o1 := status, out;
      DumpTwo(IntBytes(v.startpc), IntBytes(v.endpc));
      DumpedBoth(old(status), old(out), Chunk.DumpString(v.name), s1, o1, IntBytes(v.startpc) + IntBytes(v.endpc),
          status, out);
      Assoc(Chunk.DumpString(v.name), IntBytes(v.startpc), IntBytes(v.endpc));
    }

    method DumpLocs(vs: seq<LocVar>)
      requires Sized(|vs|) && forall i :: 0 <= i < |vs| ==> LocVarOk(vs[i])
      modifies this
      ensures Dumped(old(status), old(out), Chunk.DumpLocs(vs), status, out)
    {
      DumpBlock(IntBytes(|vs|));
      ghost var s1, o1 := status, out;
      DumpedNone(s1, o1);
      assert vs[..0] == [];
      for i := 0 to |vs|
        invariant Dumped(s1, o1, DumpLocVars(vs[..i]), status, out) == true
      {
        ghost var s2, o2 := status, out;
        DumpLocVar(vs[i]);
        LocsDumped(vs, i, s1, o1, s2, o2, status, out);
      }
      assert vs[..|vs|] == vs;
      DumpedBoth(old(status), old(out), IntBytes(|vs|), s1, o1, DumpLocVars(vs), status, out);
    }

    method DumpUps(ss: seq<Option<Bytes>>)
      requires Sized(|ss|)
      modifies this
      ensures Dumped(old(status), old(out), Chunk.DumpUps(ss), status, out)
    {
      DumpBlock(IntBytes(|ss|));
      ghost var s1, o1 := status, out;
      DumpedNone(s1, o1);
      assert ss[..0] == [];
      for i := 0 to |ss|
        invariant Dumped(s1, o1, DumpStrings(ss[..i]), status, out)
      {
        ghost var s2, o2 := status, out;
        DumpString(ss[i]);
        StringsSnoc(ss[..i], ss[i]);
        assert ss[..i + 1] == ss[..i] + [ss[i]];
        DumpedBoth(s1, o1, DumpStrings(ss[..i]), s2, o2, Chunk.DumpString(ss[i]), status, out);
      }
      assert ss[..|ss|] == ss;
      DumpedBoth(old(status), old(out), IntBytes(|ss|), s1, o1, DumpStrings(ss), status, out);
    }

    method DumpHead(f: Proto, parent: Option<Bytes>)
      requires ShellOk(f)
      modifies this
      ensures Dumped(old(status), old(out), Chunk.DumpHead(f, parent, strip), status, out)
    {
      ghost var s0, o0 := status, out;
      var source := if f.source == parent || strip then None else f.source;
      DumpString(source);
      ghost var s1, o1 := status, out;
      DumpTwo(IntBytes(f.linedefined), IntBytes(f.lastline));
      ghost var s2, o2 := status, out;
      DumpBlock([f.nups] + ([f.numparams] + ([f.vararg] + [f.maxstack])));
      ghost var s3, o3 := status, out;
      DumpInts(f.code);
      DumpedBoth(s2, o2, DumpFlags(f), s3, o3, Chunk.DumpInts(f.code), status, out);
      DumpedBoth(s1, o1, DumpLines(f), s2, o2, DumpFlags(f) + Chunk.DumpInts(f.code), status, out);
      DumpedBoth(s0, o0, Chunk.DumpString(source), s1, o1, DumpLines(f) + (DumpFlags(f) + Chunk.DumpInts(f.code)),
          status, out);
    }

    method DumpDebug(f: Proto)
      requires ShellOk(f)
      modifies this
      ensures Dumped(old(status), old(out), Chunk.DumpDebug(f, strip), status, out)
    {
      var lineinfo := if strip then [] else f.lineinfo;
      var locvars := if strip then [] else f.locvars;
      var upvalues := if strip then [] else f.upvalues;
      DumpInts(lineinfo);
      ghost var s1, o1 := status, out;
      DumpLocs(locvars);
      ghost var s2, o2 := status, out;
      DumpUps(upvalues);
      DumpedBoth(s1, o1, Chunk.DumpLocs(locvars), s2, o2, Chunk.DumpUps(upvalues), status, out);
      DumpedBoth(old(status), old(out), Chunk.DumpInts(lineinfo), s1, o1,
          Chunk.DumpLocs(locvars) + Chunk.DumpUps(upvalues), status, out);
    }

    method DumpFunction(f: Proto, parent: Option<Bytes>)
      requires ProtoOk(f)
      modifies this
      ensures Dumped(old(status), old(out), Chunk.DumpFunction(f, parent, strip), status, out)
      decreases f, 1
    {
      ghost var s0, o0 := status, out;
      DumpHead(f, parent);
      ghost var s1, o1 := status, out;
      DumpKs(f.k);
      ghost var s2, o2 := status, out;
      DumpNested(f.p, f.source);
      ghost var s3, o3 := status, out;
      DumpDebug(f);
      ghost var nested := IntBytes(|f.p|) + DumpFunctions(f.p, f.source, strip);
      DumpedBoth(s2, o2, nested, s3, o3, Chunk.DumpDebug(f, strip), status, out);
      DumpedBoth(s1, o1, Chunk.DumpKs(f.k), s2, o2, nested + Chunk.DumpDebug(f, strip), status, out);
      DumpedBoth(s0, o0, Chunk.DumpHead(f, parent, strip), s1, o1,
          Chunk.DumpKs(f.k) + (nested + Chunk.DumpDebug(f, strip)), status, out);
    }

    method DumpNested(fs: seq<Proto>, parent: Option<Bytes>)
      requires Sized(|fs|) && forall i :: 0 <= i < |fs| ==> ProtoOk(fs[i])
      modifies this
      ensures Dumped(old(status), old(out), IntBytes(|fs|) + DumpFunctions(fs, parent, strip), status, out)
      decreases fs, 0
    {
      DumpBlock(IntBytes(|fs|));
      ghost var s1, o1 := status, out;
      DumpedNone(s1, o1);
      assert fs[..0] == [];
      for i := 0 to |fs|
        invariant Dumped(s1, o1, DumpFunctions(fs[..i], parent, strip), status, out) == true
      {
        ghost var s2, o2 := status, out;
        DumpFunction(fs[i], parent);
        NestedDumped(fs, i, parent, strip, s1, o1, s2, o2, status, out);
      }
      assert fs[..|fs|] == fs;
      DumpedBoth(old(status), old(out), IntBytes(|fs|), s1, o1, DumpFunctions(fs, parent, strip), status, out);
    }

    /** `luaU_dump` */
    method Dump(f: Proto)
      requires ProtoOk(f)
      modifies this
      ensures Dumped(old(status), old(out), DumpChunk(f, strip), status, out)
    {
      DumpBlock(Header);
      ghost var s1, o1 := status, out;
      DumpFunction(f, None);
      DumpedBoth(old(status), old(out), Header, s1, o1, Chunk.DumpFunction(f, None, strip), status, out);
    }
  }

  lemma {:induction false} ConstsSnoc(ks: seq<Const>, c: Const)
    ensures DumpConsts(ks + [c]) == DumpConsts(ks) + Chunk.DumpConst(c)
    decreases |ks|
  {
    if ks == [] {
      assert [] + [c] == [c] && [c][1..] == [];
      assert DumpConsts([c]) == Chunk.DumpConst(c) + [];
    } else {
      assert (ks + [c])[0] == ks[0] && (ks + [c])[1..] == ks[1..] + [c];
      ConstsSnoc(ks[1..], c);
      Assoc(Chunk.DumpConst(ks[0]), DumpConsts(ks[1..]), Chunk.DumpConst(c));
    }
  }

  lemma {:induction false} LocVarsSnoc(vs: seq<LocVar>, v: LocVar)
    requires LocVarOk(v) && forall i :: 0 <= i < |vs| ==> LocVarOk(vs[i])
    ensures DumpLocVars(vs + [v]) == DumpLocVars(vs) + Chunk.DumpLocVar(v)
    decreases |vs|
  {
    if vs == [] {
      assert [] + [v] == [v] && [v][1..] == [];
      assert DumpLocVars([v]) == Chunk.DumpLocVar(v) + [];
    } else {
      assert (vs + [v])[0] == vs[0] && (vs + [v])[1..] == vs[1..] + [v];
      LocVarsSnoc(vs[1..], v);
      Assoc(Chunk.DumpLocVar(vs[0]), DumpLocVars(vs[1..]), Chunk.DumpLocVar(v));
    }
  }

  lemma {:induction false} StringsSnoc(ss: seq<Option<Bytes>>, s: Option<Bytes>)
    ensures DumpStrings(ss + [s]) == DumpStrings(ss) + Chunk.DumpString(s)
    decreases |ss|
  {
    if ss == [] {
      assert [] + [s] == [s] && [s][1..] == [];
      assert DumpStrings([s]) == Chunk.DumpString(s) + [];
    } else {
      assert (ss + [s])[0] == ss[0] && (ss + [s])[1..] == ss[1..] + [s];
      StringsSnoc(ss[1..], s);
      Assoc(Chunk.DumpString(ss[0]), DumpStrings(ss[1..]), Chunk.DumpString(s));
    }
  }

  lemma LocsDumped(vs: seq<LocVar>, i: nat, s1: int, o1: Bytes, s2: int, o2: Bytes, s3: int, o3: Bytes)
    requires i < |vs| && forall i :: 0 <= i < |vs| ==> LocVarOk(vs[i])
    requires Dumped(s1, o1, DumpLocVars(vs[..i]), s2, o2) == true
    requires Dumped(s2, o2, Chunk.DumpLocVar(vs[i]), s3, o3) == true
    ensures Dumped(s1, o1, DumpLocVars(vs[..i + 1]), s3, o3) == true
  {
    assert vs[..i + 1] == vs[..i] + [vs[i]];
    LocVarsSnoc(vs[..i], vs[i]);
    DumpedBoth(s1, o1, DumpLocVars(vs[..i]), s2, o2, Chunk.DumpLocVar(vs[i]), s3, o3);
  }

  lemma NestedDumped(fs: seq<Proto>, i: nat, parent: Option<Bytes>, strip: bool, s1: int, o1: Bytes, s2: int,
      o2: Bytes, s3: int, o3: Bytes)
    requires i < |fs| && forall i :: 0 <= i < |fs| ==> ProtoOk(fs[i])
    requires Dumped(s1, o1, DumpFunctions(fs[..i], parent, strip), s2, o2) == true
    requires Dumped(s2, o2, Chunk.DumpFunction(fs[i], parent, strip), s3, o3) == true
    ensures Dumped(s1, o1, DumpFunctions(fs[..i + 1], parent, strip), s3, o3) == true
  {
    NestedIs(fs, i, parent, strip);
    DumpedBoth(s1, o1, DumpFunctions(fs[..i], parent, strip), s2, o2, Chunk.DumpFunction(fs[i], parent, strip), s3,
        o3);
  }

  lemma NestedIs(fs: seq<Proto>, i: nat, parent: Option<Bytes>, strip: bool)
    requires i < |fs| && forall i :: 0 <= i < |fs| ==> ProtoOk(fs[i])
    ensures DumpFunctions(fs[..i + 1], parent, strip)
        == DumpFunctions(fs[..i], parent, strip) + Chunk.DumpFunction(fs[i], parent, strip)
  {
    assert fs[..i + 1] == fs[..i] + [fs[i]];
    FunctionsSnoc(fs[..i], fs[i], parent, strip);
  }

  lemma {:induction false} FunctionsSnoc(fs: seq<Proto>, f: Proto, parent: Option<Bytes>, strip: bool)
    requires ProtoOk(f) && forall i :: 0 <= i < |fs| ==> ProtoOk(fs[i])
    ensures DumpFunctions(fs + [f], parent, strip)
        == DumpFunctions(fs, parent, strip) + Chunk.DumpFunction(f, parent, strip)
    decreases |fs|
  {
    if fs == [] {
      assert [] + [f] == [f] && [f][1..] == [];
      assert DumpFunctions([f], parent, strip) == Chunk.DumpFunction(f, parent, strip) + [];
    } else {
      assert (fs + [f])[0] == fs[0] && (fs + [f])[1..] == fs[1..] + [f];
      FunctionsSnoc(fs[1..], f, parent, strip);
      Assoc(Chunk.DumpFunction(fs[0], parent, strip), DumpFunctions(fs[1..], parent, strip),
          Chunk.DumpFunction(f, parent, strip));
    }
  }

  // ---------------------------------------------------------------- the round trip

  /** What was dumped, handed back in pieces of any size, loads as it was. */
  method Reload(f: Proto, strip: bool, check: Check, chunks: seq<Bytes>) returns (g: Got<Proto>)
    requires ProtoOk(f) && Checked(Returned(f, Unknown, strip), check)
    requires Concat(chunks) == DumpChunk(f, strip) && forall i :: 0 <= i < |chunks| ==> chunks[i] != []
    ensures g == Value(Returned(f, Unknown, strip))
  {
    AvailAll(chunks);
    ChunkTrip(f, strip, check);
    var z := new ZIO(chunks);
    var s := new LoadState(z, check);
    g := s.Undump();
  }
}
