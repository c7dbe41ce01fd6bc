/**
  What the generated code does, for whole expressions and conditions.
 */
module CodeTheorems {
  import opened Common
  import opened CodeModel
  import opened CodeLists
  import opened CodeFlow
  import opened CodeSem
  import opened CodeCond
  import opened CodeReg
  import opened CodeOperand
  import opened CodeCompile
  import opened CodeMeaning
  import opened CodeOpen

  /** The start of a function with `nact` local variables. */
  function Fresh(nact: nat): St {
    St([], [], nact, nact)
  }

  /** An expression compiled into a register. */
  function ToReg(s: St, e: Expr, reg: nat): St {
    var r := Compile(s, e);
    Exp2Reg(r.0, r.1, reg).0
  }

  lemma InPlaceReg(s: St, e: Exp, reg: nat)
    ensures var d := DischargeVars(s, e); Exp2Reg(s, e, reg) == Exp2Reg(d.0, d.1, reg)
  {
    var d := DischargeVars(s, e);
    assert DischargeVars(d.0, d.1) == d;
  }

  /** Code pending to its end is completed by ending there. */
  lemma CloseCompletes(s: St)
    requires StOk(s)
    ensures Completes(s, Discharged(s)) && SettledTo(Discharged(s), Discharged(s), |s.code|)
  {
    forall i: nat | i < |s.code| ensures Settles(s.code[i], Discharged(s)[i]) { DischargedSettles(s, i); }
  }

  /** What reaches the end of such code stops there. */
  lemma CloseStops(env: Env, s: St, o: Outcome, R: Regs, q: Exit)
    requires StOk(s) && Reaches(env, s, Discharged(s), o, R, q)
    ensures o == Stop(R)
  {
    CloseCompletes(s);
    EmitReaches(env, s, Discharged(s), o, R, q);
  }

  // ---------------------------------------------------------------- values

  /** Wherever the code of an expression is put to use, and however control comes
      to it: behind it the value of the flow is in the register, and no other
      register in use has changed. */
  lemma ValueTheorem(env: Env, s: St, e: Expr, reg: nat, C: seq<Instr>, o: Outcome, R0: Regs, w: Cargo, q0: Exit)
    returns (R: Regs, q: Exit)
    requires StOk(s) && Scoped(e, s.nact) && Completes(ToReg(s, e, reg), C) && Comes(env, s, C, o, R0, w, q0)
    ensures Reaches(env, ToReg(s, e, reg), C, o, R, q)
    ensures Get(R, reg) == Left(Flows(env, e, R0, w))
        && forall r: nat :: r < s.free && r != reg ==> Get(R, r) == Get(R0, r)
  {
    BranchIs(s, e, true);
    var r := Compile(s, e);
    var d := InPlaceOf(r);
    var x := Flows(env, e, R0, w);
    InPlaceReg(r.0, r.1, reg);
    ToRegSettled(d.0, d.1, reg, C);
    SettledBack(r.0, r.1, d.0, d.1, C);
    R, q := CompileSem(env, s, e, C, o, R0, w, q0);
    q := DischargeVarsSem(env, r.0, r.1, C, o, R, x, q);
    R, q := Exp2RegSem(env, d.0, d.1, reg, C, o, R, x, q);
  }

  lemma ToRegSettled(s: St, e: Exp, reg: nat, C: seq<Instr>)
    requires ExpOk(s, e) && Completes(Exp2Reg(s, e, reg).0, C)
    ensures SettledTo(s.code, C, EndPc(s, e))
  {
    Exp2RegOk(s, e, reg);
    SettledBack(s, e, Exp2Reg(s, e, reg).0, NoExp, C);
  }

  lemma ToRegOk(s: St, e: Expr, reg: nat)
    requires StOk(s) && Scoped(e, s.nact)
    ensures StOk(ToReg(s, e, reg)) && ToReg(s, e, reg).free == s.free && Keeps(s, NoExp, ToReg(s, e, reg), NoExp)
  {
    BranchIs(s, e, true);
    var r := Compile(s, e);
    var d := InPlaceOf(r);
    InPlaceReg(r.0, r.1, reg);
    Exp2RegOk(r.0, r.1, reg);
    CompileKeeps(s, e);
    DischargeVarsKeeps(r.0, r.1);
    Exp2RegKeeps(d.0, d.1, reg);
    assert Keeps(s, NoExp, d.0, d.1);
  }

  /** Complete code has no jump without target and no TestSet without register. */
  predicate Complete(C: seq<Instr>) {
    forall i :: 0 <= i < |C| ==> !Open(C[i])
  }

  /** Ending the code discharges what is pending to its end, so nothing is open. */
  lemma CloseComplete(s: St)
    requires StOk(s) && forall i: nat :: !Orphan(s, NoExp, i)
    ensures Complete(Discharged(s))
  {
    forall i: nat | i < |s.code| ensures !Open(Discharged(s)[i]) { ClosedAt(s, i); }
  }

  lemma ClosedAt(s: St, i: nat)
    requires StOk(s) && i < |s.code| && !Orphan(s, NoExp, i)
    ensures !Open(Discharged(s)[i])
  {
    if i in s.jpc { assert Pend(s.code, i); }
    if i + 1 in s.jpc { assert Pend(s.code, i + 1); }
  }

  /** The code of an expression on its own. */
  function ClosedCode(e: Expr, nact: nat, reg: nat): seq<Instr> {
    Discharged(ToReg(Fresh(nact), e, reg))
  }

  /** For every expression: its code is complete, and running it stops with the
      value of its flow in the register and every other local variable unchanged.
      So the value is right if and only if the flow leaves the right one. */
  lemma ClosedValue(env: Env, e: Expr, nact: nat, reg: nat, R0: Regs) returns (R: Regs)
    requires Scoped(e, nact)
    ensures Complete(ClosedCode(e, nact, reg)) && Run(env, ClosedCode(e, nact, reg), 0, R0) == Stop(R)
    ensures Get(R, reg) == CodeValue(env, e, R0)
    ensures Get(R, reg) == Eval(env, e, R0) <==> CodeValue(env, e, R0) == Eval(env, e, R0)
    ensures forall r: nat :: r < nact && r != reg ==> Get(R, r) == Get(R0, r)
  {
    var s := Fresh(nact);
    ToRegOk(s, e, reg);
    var s' := ToReg(s, e, reg);
    var C := ClosedCode(e, nact, reg);
    CloseCompletes(s');
    CloseComplete(s') by { forall i: nat ensures !Orphan(s', NoExp, i) { assert !Orphan(s, NoExp, i); } }
    var q;
    R, q := ValueTheorem(env, s, e, reg, C, Run(env, C, 0, R0), R0, None, Fall);
    CloseStops(env, s', Run(env, C, 0, R0), R, q);
  }

  // ---------------------------------------------------------------- conditions

  /** `cond`: the code falls through when the expression is true; the list
      returned holds the jumps that leave when it is false. */
  function Cond(s: St, e: Expr): (St, seq<nat>) {
    var (s1, e1) := Compile(s, e);
    var (s2, e2) := GoIfTrue(s1, if e1.k.KNil? then e1.(k := KFalse) else e1);
    (s2, e2.f)
  }

  function NilFalse(r: (St, Exp)): (St, Exp) {
    if r.1.k.KNil? then (r.0, r.1.(k := KFalse)) else r
  }

  lemma NilFalseSem(env: Env, r: (St, Exp), C: seq<Instr>, o: Outcome, R: Regs, x: Flow, q: Exit) returns (x': Flow)
    requires Result(env, r.0, r.1, C, o, R, x, q)
    ensures Result(env, NilFalse(r).0, NilFalse(r).1, C, o, R, x', q) && FlowTruth(x') == FlowTruth(x)
  {
    x' := if r.1.k.KNil? && x.End? then End(VBool(false), x.waits) else x;
  }

  /** Control goes on exactly when the flow is true. */
  lemma GoesTrue(env: Env, s: St, e: Exp, C: seq<Instr>, o: Outcome, R: Regs, x: Flow, q: Exit)
    requires ExpOk(s, e) && InPlace(e) && Result(env, s, e, C, o, R, x, q)
    ensures Goes(FormOf(s, e), x, false).On? == FlowTruth(x)
  {
  }

  lemma CondOk(s: St, e: Expr)
    requires StOk(s) && Scoped(e, s.nact)
    ensures var r := NilFalse(Compile(s, e)); ExpOk(r.0, r.1) && r.0.free == s.free && r.0.nact == s.nact
    ensures var (s2, f) := Cond(s, e);
      && ExpOk(s2, Exp(KNil, [], f)) && s2.free == s.free && Keeps(s, NoExp, s2, Exp(KNil, [], f))
  {
    CompileOk(s, e);
    CompileKeeps(s, e);
    var r0 := Compile(s, e);
    var r := NilFalse(r0);
    assert Keeps(r0.0, r0.1, r.0, r.1);
    GoIfTrueOk(r.0, r.1);
    DischargeVarsOk(r.0, r.1);
    DischargeVarsKeeps(r.0, r.1);
    var d := InPlaceOf(r);
    GoingKeeps(d.0, d.1, false);
    assert GoIfTrue(r.0, r.1) == Going(d.0, d.1, false);
  }

  /** A condition, literals included: control comes to what follows exactly when
      the flow of the expression is true; otherwise it leaves through a jump of
      the list. */
  lemma CondTheorem(env: Env, s: St, e: Expr, C: seq<Instr>, o: Outcome, R0: Regs, w: Cargo,
      q0: Exit) returns (R: Regs, q: Exit)
    requires StOk(s) && Scoped(e, s.nact) && Completes(Cond(s, e).0, C) && Comes(env, s, C, o, R0, w, q0)
    ensures var (s2, f) := Cond(s, e);
      if FlowTruth(Flows(env, e, R0, w)) then Reaches(env, s2, C, o, R, q)
      else q.At? && q.j in f && q.j < |C| && o == Leave(env, C, q.j, R)
    ensures Same(R, R0, s.free)
  {
    CondOk(s, e);
    CompileOk(s, e);
    var r0 := Compile(s, e);
    var r := NilFalse(r0);
    var d := InPlaceOf(r);
    DischargeVarsOk(r.0, r.1);
    assert GoIfTrue(r.0, r.1) == Going(d.0, d.1, false);
    GoingSettled(d.0, d.1, false, C);
    SettledBack(r.0, r.1, d.0, d.1, C);
    R, q := CompileSem(env, s, e, C, o, R0, w, q0);
    var x := NilFalseSem(env, r0, C, o, R, Flows(env, e, R0, w), q);
    q := DischargeVarsSem(env, r.0, r.1, C, o, R, x, q);
    GoesTrue(env, d.0, d.1, C, o, R, x, q);
    R, q := GoingSem(env, d.0, d.1, false, C, o, R, x, q);
  }

  /** `if e then block end`: the false exits lead behind the block. */
  function IfThen(s: St, e: Expr, block: seq<Instr>): St {
    var (s2, f) := Cond(s, e);
    PatchToHere(Emit(s2, block), f)
  }

  /** The block runs exactly when the flow of the condition is true, literals included. */
  lemma IfThenTheorem(env: Env, e: Expr, nact: nat, block: seq<Instr>, R0: Regs) returns (R: Regs)
    requires Scoped(e, nact)
    requires block != [] && forall i :: 0 <= i < |block| ==> !IsTest(block[i]) && !Open(block[i])
    ensures var C := Discharged(IfThen(Fresh(nact), e, block)); Complete(C)
    ensures var C := Discharged(IfThen(Fresh(nact), e, block)); var n := |Cond(Fresh(nact), e).0.code|;
      && n + |block| == |C| && C[n..] == block
      && Run(env, C, 0, R0) == if FlowTruth(Flows(env, e, R0, None)) then Run(env, C, n, R) else Stop(R)
    ensures Same(R, R0, nact)
  {
    var s := Fresh(nact);
    CondOk(s, e);
    var (s2, f) := Cond(s, e);
    var s4 := IfThen(s, e, block);
    IfThenCloses(s, s2, f, block);
    var C := Discharged(s4);
    var o := Run(env, C, 0, R0);
    var q;
    R, q := CondTheorem(env, s, e, C, o, R0, None, Fall);
    if FlowTruth(Flows(env, e, R0, None)) {
      EmitReaches(env, s2, C, o, R, q);
    } else {
      CloseStops(env, s4, o, R, q);
    }
  }

  lemma IfThenCloses(s: St, s2: St, f: seq<nat>, block: seq<Instr>)
    requires s.code == [] && ExpOk(s2, Exp(KNil, [], f)) && Keeps(s, NoExp, s2, Exp(KNil, [], f))
    requires block != [] && forall i :: 0 <= i < |block| ==> !IsTest(block[i]) && !Open(block[i])
    ensures var s4 := PatchToHere(Emit(s2, block), f); var C := Discharged(s4);
      && StOk(s4) && s4.jpc == f && |s4.code| == |C| && Complete(C) && Completes(s2, C)
          && SettledTo(Discharged(s2), C, |s2.code|)
      && |s2.code| + |block| == |C| && C[|s2.code|..] == block
  {
    var s4 := PatchToHere(Emit(s2, block), f);
    var C := Discharged(s4);
    BlockOk(s, s2, f, block);
    CloseCompletes(s4);
    CloseComplete(s4);
    EmitBack(s2, block, C) by {
      assert SettledTo(s4.code, C, |s4.code|);
    }
    BlockKept(s2, f, block, C) by {
      forall i | i in f ensures i < |s2.code| { assert Pend(s2.code, i); }
    }
  }

  /** Behind the block, with the false exits pending to here. */
  lemma BlockOk(s: St, s2: St, f: seq<nat>, block: seq<Instr>)
    requires s.code == [] && ExpOk(s2, Exp(KNil, [], f)) && Keeps(s, NoExp, s2, Exp(KNil, [], f))
    requires block != [] && forall i :: 0 <= i < |block| ==> !IsTest(block[i]) && !Open(block[i])
    ensures var s4 := PatchToHere(Emit(s2, block), f);
      StOk(s4) && s4.jpc == f && forall i: nat :: !Orphan(s4, NoExp, i)
  {
    var e := Exp(KNil, [], f);
    EmitOk(s2, e, block, e);
    EmitKeeps(s2, e, block, e);
    var s3 := Emit(s2, block);
    var s4 := PatchToHere(s3, f);
    forall i: nat ensures !Orphan(s4, NoExp, i) {
      assert !Orphan(s2, e, i) by { assert !Orphan(s, NoExp, i); }
      assert !Orphan(s3, e, i);
    }
  }

  lemma BlockKept(s2: St, f: seq<nat>, block: seq<Instr>, C: seq<Instr>)
    requires (forall i :: i in f ==> i < |s2.code|) && C == Discharged(PatchToHere(Emit(s2, block), f))
    requires forall i :: 0 <= i < |block| ==> !IsTest(block[i])
    ensures C[|s2.code|..] == block
  {
    assert PatchToHere(Emit(s2, block), f).jpc == f;
  }
}
