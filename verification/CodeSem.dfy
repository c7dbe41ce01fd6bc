/**
  The meaning of partly generated code, told through the code it will become.

  `C` is complete code that agrees with what has been emitted so far wherever
  that is settled.  A run of `C` from the start of an expression reaches the end
  of the expression's code, waits there on a jump still pending to it, or leaves
  through a jump of one of its lists.
 */
module CodeSem {
  import opened Common
  import opened CodeModel
  import opened CodeLists
  import opened CodeFlow

  /** Takes the jump at `j`, from the test before it if there is one. */
  function Leave(env: Env, C: seq<Instr>, j: nat, R: Regs): Outcome
    requires j < |C|
  {
    Goto(env, C, j, if j >= 1 then AfterTest(C[j - 1], R) else R)
  }

  ghost predicate SettledTo(code: seq<Instr>, C: seq<Instr>, n: nat) {
    n <= |code| && n <= |C| && forall i :: 0 <= i < n ==> Settles(code[i], C[i])
  }

  // ---------------------------------------------------------------- results

  datatype Exit = Fall | At(j: nat)

  predicate Same(R: Regs, R0: Regs, base: nat) {
    forall r: nat :: r < base ==> Get(R, r) == Get(R0, r)
  }

  /** What the instruction still open at the end will produce. */
  predicate KindValue(env: Env, s: St, e: Exp, R: Regs, v: Value) {
    match e.k
    case KNil => v == VNil
    case KTrue => v == VBool(true)
    case KFalse => v == VBool(false)
    case KConst(c) => v == c
    case KLocal(r) => v == Get(R, r)
    case KReg(r) => v == Get(R, r)
    case KGlobal(n) => v == env.glob(n)
    case KReloc(p) =>
      p < |s.code| && (
        match s.code[p]
        case GetGlobal(_, n) => v == env.glob(n)
        case NotOp(_, b) => v == VBool(!Truthy(Get(R, b)))
        case _ => false)
    case KJmp(j) =>
      1 <= j <= |s.code| && s.code[j - 1].Compare? && v == VBool(Takes(env, s.code[j - 1], R))
  }

  /** What the jump at `j` brings along: the value of the register its TestSet
      looks at, and nothing otherwise. */
  predicate Brings(code: seq<Instr>, j: nat, R: Regs, c: Cargo) {
    if ValueJump(code, j) then c == Some(Get(R, code[j - 1].b)) else c == None
  }

  /** Control has come to the end of the code, or waits there on a pending jump. */
  predicate Reaches(env: Env, s: St, C: seq<Instr>, o: Outcome, R: Regs, q: Exit) {
    match q
    case Fall => |s.code| <= |C| && o == Run(env, C, |s.code|, R)
    case At(j) => j in s.jpc && j < |C| && o == Leave(env, C, j, R)
  }

  predicate Waits(code: seq<Instr>, R: Regs, q: Exit, w: Cargo) {
    match q
    case Fall => w == None
    case At(j) => Brings(code, j, R, w)
  }

  /** As `Reaches`, with `w` waiting. */
  predicate Comes(env: Env, s: St, C: seq<Instr>, o: Outcome, R: Regs, w: Cargo, q: Exit) {
    Reaches(env, s, C, o, R, q) && Waits(s.code, R, q, w)
  }

  function Keep(e: Exp, cond: bool): seq<nat> {
    if cond then e.t else e.f
  }

  /** What a run of the code of an expression has come to. */
  predicate Result(env: Env, s: St, e: Exp, C: seq<Instr>, o: Outcome, R: Regs, x: Flow, q: Exit) {
    match x
    case End(v, w) =>
      && KindValue(env, s, e, R, v)
      && (if q.Fall? then EndPc(s, e) <= |C| && o == Run(env, C, EndPc(s, e), R) else Reaches(env, s, C, o, R, q))
      && (if e.k.KGlobal? then w == None else Waits(s.code, R, q, w))
    case Out(b, c) =>
      q.At? && q.j in Keep(e, b) && q.j < |C| && o == Leave(env, C, q.j, R) && Brings(s.code, q.j, R, c)
  }

  // ---------------------------------------------------------------- jumps to here

  lemma SettledBack(s: St, e: Exp, s': St, e': Exp, C: seq<Instr>)
    requires Grows(s, e, s', e') && SettledTo(s'.code, C, EndPc(s', e'))
    ensures SettledTo(s.code, C, EndPc(s, e))
  {
    forall i | 0 <= i < EndPc(s, e) ensures Settles(s.code[i], C[i]) {
      assert Settles(s.code[i], s'.code[i]) && Settles(s'.code[i], C[i]);
    }
  }

  /** A jump that was pending when an instruction was emitted goes there. */
  lemma EmitReaches(env: Env, s: St, C: seq<Instr>, o: Outcome, R: Regs, q: Exit)
    requires StOk(s) && SettledTo(Discharged(s), C, |s.code|) && Reaches(env, s, C, o, R, q)
    ensures o == Run(env, C, |s.code|, R)
  {
    if q.At? {
      var c, i := Discharged(s), q.j;
      assert Pend(s.code, i);
      assert Settles(c[i], C[i]);
      if i >= 1 { assert Settles(c[i - 1], C[i - 1]); }
    }
  }

  /** The same TestSet, if any, controls the jump. */
  predicate SameControl(c: seq<Instr>, c': seq<Instr>, j: nat) {
    (ValueJump(c, j) <==> ValueJump(c', j)) && (ValueJump(c, j) ==> c[j - 1].b == c'[j - 1].b)
  }

  lemma DischargedControl(s: St, e: Exp, j: nat)
    requires ExpOk(s, e) && (j in e.t || j in e.f)
    ensures SameControl(s.code, Discharged(s), j)
  {
    assert Pend(s.code, j);
    if j >= 1 && j - 1 in s.jpc { assert Pend(s.code, j - 1); }
  }

  lemma NothingPending(s: St)
    requires s.jpc == []
    ensures Discharged(s) == s.code
  {
  }

  lemma ControlAppend(c: seq<Instr>, d: seq<Instr>, c': seq<Instr>, j: nat)
    requires SameControl(c, d, j) && j <= |d| && |d| == |c| && |d| <= |c'| && c'[..|d|] == d
    ensures SameControl(c, c', j)
  {
    if j >= 1 { assert c'[j - 1] == c'[..|d|][j - 1]; }
  }

  // ---------------------------------------------------------------- tests

  /** The instructions that bring a value to the register it is tested in. */
  function Loads(s: St, e: Exp): seq<Instr> {
    match e.k
    case KNil => [LoadNil(s.free)]
    case KTrue => [LoadBool(s.free, true, false)]
    case KFalse => [LoadBool(s.free, false, false)]
    case KConst(v) => [LoadK(s.free, v)]
    case KReloc(p) => if p < |s.code| then [SetA(s.code[p], s.free)] else []
    case _ => []
  }

  function TestReg(s: St, e: Exp): nat {
    if e.k.KReg? then e.k.r else s.free
  }

  /** The settled code before those instructions. */
  function Front(s: St, e: Exp): seq<Instr> {
    if e.k.KReloc? && e.k.pc <= |s.code| then s.code[..e.k.pc] else Discharged(s)
  }

  lemma Discharge2AnyRegIs(s: St, e: Exp)
    requires ExpOk(s, e) && !e.k.KJmp? && !e.k.KLocal? && !e.k.KGlobal?
    ensures var (s1, e1) := Discharge2AnyReg(s, e);
      && e1.k == KReg(TestReg(s, e))
      && (e.k.KReg? ==> s1 == s)
      && (!e.k.KReg? ==> s1.code == Front(s, e) + Loads(s, e) && s1.jpc == [])
  {
    if e.k.KReloc? {
      assert s.code == s.code[..e.k.pc] + [s.code[e.k.pc]];
    }
  }

  /** The code of a test, whatever its operand. */
  lemma TestIs(s: St, e: Exp, ins: seq<Instr>)
    requires ExpOk(s, e) && !e.k.KJmp? && !e.k.KLocal? && !e.k.KGlobal?
    ensures var (s1, e1) := Discharge2AnyReg(s, e);
      Emit(FreeExp(s1, e1), ins).code == Front(s, e) + Loads(s, e) + ins
  {
    Discharge2AnyRegIs(s, e);
    var (s1, e1) := Discharge2AnyReg(s, e);
    var s2 := FreeExp(s1, e1);
    assert Discharged(s2) == if e.k.KReg? then Discharged(s) else s1.code by {
      if !e.k.KReg? { NothingPending(s2); }
    }
  }

  /** Running the loads leaves the value in the register tested, and nothing
      else below the first free register is touched. */
  lemma RunLoads(env: Env, s: St, e: Exp, C: seq<Instr>, R: Regs, v: Value) returns (R': Regs)
    requires ExpOk(s, e) && !e.k.KJmp? && !e.k.KLocal? && !e.k.KGlobal? && KindValue(env, s, e, R, v)
    requires EndPc(s, e) + |Loads(s, e)| <= |C|
    requires forall k :: 0 <= k < |Loads(s, e)| ==> C[EndPc(s, e) + k] == Loads(s, e)[k]
    ensures Run(env, C, EndPc(s, e), R) == Run(env, C, EndPc(s, e) + |Loads(s, e)|, R')
    ensures Get(R', TestReg(s, e)) == v && Same(R', R, s.free)
  {
    if e.k.KReg? {
      R' := R;
    } else {
      R' := R[s.free := v];
      assert C[EndPc(s, e) + 0] == Loads(s, e)[0];
    }
  }

  /** The code a conditional jump adds. */
  lemma JumpOnCondIs(s: St, e: Exp, cond: bool)
    requires ExpOk(s, e) && !e.k.KJmp? && !e.k.KLocal? && !e.k.KGlobal?
    ensures var (s', j) := JumpOnCond(s, e, cond);
      if e.k.KReloc? && s.code[e.k.pc].NotOp? then
        s'.code == Front(s, e) + [Test(s.code[e.k.pc].b, !cond), Jmp(None)]
      else
        s'.code == Front(s, e) + Loads(s, e) + [TestSet(None, TestReg(s, e), cond), Jmp(None)]
  {
    if e.k.KReloc? && s.code[e.k.pc].NotOp? {
      NothingPending(s.(code := s.code[..e.k.pc]));
    } else {
      Discharge2AnyRegIs(s, e);
      TestIs(s, e, [TestSet(None, TestReg(s, e), cond), Jmp(None)]);
    }
  }

  lemma FrontLength(s: St, e: Exp)
    requires ExpOk(s, e) && !e.k.KJmp?
    ensures |Front(s, e)| == EndPc(s, e)
  {
  }

  lemma RunTestSet(env: Env, C: seq<Instr>, p: nat, r: nat, cond: bool, R: Regs)
    requires p + 1 < |C| && Settles(TestSet(None, r, cond), C[p])
    ensures Run(env, C, p, R) == if Truthy(Get(R, r)) == cond then Leave(env, C, p + 1, R) else Run(env, C, p + 2, R)
  {
  }

  lemma JumpOnNotSem(env: Env, s: St, e: Exp, cond: bool, C: seq<Instr>, R: Regs, v: Value)
    requires ExpOk(s, e) && e.k.KReloc? && s.code[e.k.pc].NotOp? && KindValue(env, s, e, R, v)
    requires var (s', j) := JumpOnCond(s, e, cond); SettledTo(s'.code, C, |s'.code|)
    ensures var (s', j) := JumpOnCond(s, e, cond);
      && j + 1 == |s'.code| && j < |C|
      && Run(env, C, EndPc(s, e), R) == (if Truthy(v) == cond then Leave(env, C, j, R) else Run(env, C, j + 1, R))
      && Brings(s'.code, j, R, None)
  {
    JumpOnCondIs(s, e, cond);
    var (s', j) := JumpOnCond(s, e, cond);
    var n := e.k.pc;
    assert s'.code[n] == Test(s.code[n].b, !cond);
    assert Settles(s'.code[n], C[n]);
  }

  lemma JumpOnValueSem(env: Env, s: St, e: Exp, cond: bool, C: seq<Instr>, R: Regs, v: Value) returns (R': Regs)
    requires ExpOk(s, e) && !e.k.KJmp? && !e.k.KLocal? && !e.k.KGlobal? && KindValue(env, s, e, R, v)
    requires !(e.k.KReloc? && s.code[e.k.pc].NotOp?)
    requires var (s', j) := JumpOnCond(s, e, cond); SettledTo(s'.code, C, |s'.code|)
    ensures var (s', j) := JumpOnCond(s, e, cond);
      && j + 1 == |s'.code| && j < |C|
      && Run(env, C, EndPc(s, e), R) == (if Truthy(v) == cond then Leave(env, C, j, R') else Run(env, C, j + 1, R'))
      && Brings(s'.code, j, R', Some(v))
    ensures Same(R', R, s.free)
  {
    JumpOnCondIs(s, e, cond);
    FrontLength(s, e);
    var c' := JumpOnCond(s, e, cond).0.code;
    LoadsSettled(s, e, [TestSet(None, TestReg(s, e), cond), Jmp(None)], C);
    R' := RunLoads(env, s, e, C, R, v);
    var p := EndPc(s, e) + |Loads(s, e)|;
    var (s', j) := JumpOnCond(s, e, cond);
    assert c'[p] == TestSet(None, TestReg(s, e), cond);
    LoadThenTest(env, C, EndPc(s, e), R, p, j, TestReg(s, e), cond, R');
  }

  lemma LoadThenTest(env: Env, C: seq<Instr>, n: nat, R: Regs, p: nat, j: nat, r: nat, cond: bool, R': Regs)
    requires j < |C| && p + 1 == j && Settles(TestSet(None, r, cond), C[p]) && Run(env, C, n, R) == Run(env, C, p, R')
    ensures Run(env, C, n, R) == if Truthy(Get(R', r)) == cond then Leave(env, C, j, R') else Run(env, C, j + 1, R')
  {
    RunTestSet(env, C, p, r, cond, R');
  }

  /** A stretch of emitted code, as it is in the final code. */
  lemma SettledSlice(c: seq<Instr>, C: seq<Instr>, a: seq<Instr>, l: seq<Instr>, b: seq<Instr>)
    requires c == a + l + b && SettledTo(c, C, |c|)
    ensures |a| + |l| <= |C| && forall k: nat :: k < |l| ==> Settles(l[k], C[|a| + k])
  {
    forall k: nat | k < |l| ensures Settles(l[k], C[|a| + k]) {
      assert c[|a| + k] == l[k];
      assert Settles(c[|a| + k], C[|a| + k]);
    }
  }

  /** Loads are settled as they are emitted. */
  lemma LoadsFixed(s: St, e: Exp, k: nat, i: Instr)
    requires ExpOk(s, e) && !(e.k.KReloc? && s.code[e.k.pc].Jmp?) && k < |Loads(s, e)| && Settles(Loads(s, e)[k], i)
    ensures i == Loads(s, e)[k]
  {
  }

  /** In the final code, the loads are as emitted and the next instruction is settled. */
  lemma LoadsSettled(s: St, e: Exp, b: seq<Instr>, C: seq<Instr>)
    requires ExpOk(s, e) && !e.k.KJmp? && b != [] && !(e.k.KReloc? && s.code[e.k.pc].Jmp?)
    requires var c := Front(s, e) + Loads(s, e) + b; SettledTo(c, C, |c|)
    ensures var n := EndPc(s, e); var m := |Loads(s, e)|;
      && n + m + |b| <= |C|
      && (forall k: nat :: k < m ==> C[n + k] == Loads(s, e)[k])
      && (forall k: nat :: k < |b| ==> Settles(b[k], C[n + m + k]))
  {
    FrontLength(s, e);
    var n := EndPc(s, e);
    var l := Loads(s, e);
    var c := Front(s, e) + l + b;
    SettledSlice(c, C, Front(s, e), l, b);
    SettledSlice(c, C, Front(s, e) + l, b, []) by { assert c == Front(s, e) + l + b + []; }
    forall k: nat | k < |l| ensures C[n + k] == l[k] { LoadsFixed(s, e, k, C[n + k]); }
  }

  /** Running a conditional jump: it is taken exactly when the value has the
      truth value it looks for, and then it carries the value. */
  lemma JumpOnCondSem(env: Env, s: St, e: Exp, cond: bool, C: seq<Instr>, R: Regs, v: Value) returns (R': Regs)
    requires ExpOk(s, e) && !e.k.KJmp? && !e.k.KLocal? && !e.k.KGlobal? && KindValue(env, s, e, R, v)
    requires var (s', j) := JumpOnCond(s, e, cond); SettledTo(s'.code, C, |s'.code|)
    ensures var (s', j) := JumpOnCond(s, e, cond);
      && j + 1 == |s'.code| && j < |C|
      && Run(env, C, EndPc(s, e), R) == (if Truthy(v) == cond then Leave(env, C, j, R') else Run(env, C, j + 1, R'))
      && Brings(s'.code, j, R', if e.k.KReloc? && s.code[e.k.pc].NotOp? then None else Some(v))
    ensures Same(R', R, s.free)
  {
    if e.k.KReloc? && s.code[e.k.pc].NotOp? {
      R' := R;
      JumpOnNotSem(env, s, e, cond, C, R, v);
    } else {
      R' := JumpOnValueSem(env, s, e, cond, C, R, v);
    }
  }

  /** The settled code before a conditional jump. */
  lemma JumpOnCondFront(s: St, e: Exp, cond: bool, C: seq<Instr>)
    requires ExpOk(s, e) && !e.k.KJmp? && !e.k.KLocal? && !e.k.KGlobal?
    requires var (s', j) := JumpOnCond(s, e, cond); SettledTo(s'.code, C, |s'.code|)
    ensures s.jpc != [] ==> SettledTo(Discharged(s), C, |s.code|)
  {
    JumpOnCondIs(s, e, cond);
    FrontLength(s, e);
    var c' := JumpOnCond(s, e, cond).0.code;
    assert c'[..EndPc(s, e)] == Front(s, e);
    if s.jpc != [] {
      forall i | 0 <= i < |s.code| ensures Settles(Discharged(s)[i], C[i]) {
        assert c'[i] == Discharged(s)[i];
        assert Settles(c'[i], C[i]);
      }
    }
  }
}
