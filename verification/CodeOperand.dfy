/**
  Bringing variables into play, and operands into place.
 */
module CodeOperand {
  import opened Common
  import opened CodeModel
  import opened CodeLists
  import opened CodeFlow
  import opened CodeSem
  import opened CodeCond
  import opened CodeReg

  // ---------------------------------------------------------------- emitting

  /** Code that completes what an emission leaves completes what was before. */
  lemma EmitBack(s: St, ins: seq<Instr>, C: seq<Instr>)
    requires StOk(s) && SettledTo(Emit(s, ins).code, C, |s.code|)
    ensures SettledTo(s.code, C, |s.code|) && SettledTo(Discharged(s), C, |s.code|)
  {
    var c := Emit(s, ins).code;
    var d := Discharged(s);
    assert c[..|s.code|] == d;
    forall i | 0 <= i < |s.code| ensures Settles(d[i], C[i]) && Settles(s.code[i], C[i]) {
      assert c[i] == d[i];
      assert Settles(c[i], C[i]);
      DischargedSettles(s, i);
    }
  }

  lemma DischargedSettles(s: St, i: nat)
    requires StOk(s) && i < |s.code|
    ensures Settles(s.code[i], Discharged(s)[i])
  {
    if i in s.jpc { assert Pend(s.code, i); }
    if i + 1 in s.jpc { assert Pend(s.code, i + 1); }
  }

  // ---------------------------------------------------------------- variables

  lemma DischargeVarsControl(s: St, e: Exp, j: nat)
    requires ExpOk(s, e) && (j in e.t || j in e.f)
    ensures SameControl(s.code, DischargeVars(s, e).0.code, j)
  {
    if e.k.KGlobal? {
      var c' := DischargeVars(s, e).0.code;
      DischargedControl(s, e, j);
      assert c'[..|s.code|] == Discharged(s);
      assert Pend(s.code, j);
      ControlAppend(s.code, Discharged(s), c', j);
    }
  }

  /** Bringing a variable into play changes no result, and how the expression
      ends only in name. */
  lemma DischargeVarsSem(env: Env, s: St, e: Exp, C: seq<Instr>, o: Outcome, R: Regs, x: Flow, q: Exit)
    returns (q': Exit)
    requires ExpOk(s, e) && Result(env, s, e, C, o, R, x, q)
    requires var (s', e') := DischargeVars(s, e); SettledTo(s'.code, C, EndPc(s', e'))
    ensures var (s', e') := DischargeVars(s, e); Result(env, s', e', C, o, R, x, q') && FormOf(s', e') == FormOf(s, e)
  {
    q' := q;
    if x.Out? {
      DischargeVarsControl(s, e, q.j);
    } else if e.k.KGlobal? {
      EmitBack(s, [GetGlobal(0, e.k.name)], C);
      EmitReaches(env, s, C, o, R, q);
      q' := Fall;
    }
  }

  // ---------------------------------------------------------------- operands

  lemma FreshIs(s: St, e: Exp)
    requires ExpOk(s, e) && InPlace(e)
    ensures Exp2NextReg(s, e) == Exp2Reg(s.(free := s.free + 1), e, s.free)
  {
    assert DischargeVars(s, e) == (s, e) && FreeExp(s, e) == s;
  }

  lemma FreshSem(env: Env, s: St, e: Exp, C: seq<Instr>, o: Outcome, R: Regs, x: Flow, q: Exit)
    returns (R': Regs, q': Exit)
    requires ExpOk(s, e) && InPlace(e) && Completes(Exp2NextReg(s, e).0, C) && Result(env, s, e, C, o, R, x, q)
    ensures Comes(env, Exp2NextReg(s, e).0, C, o, R', None, q')
    ensures Get(R', s.free) == Left(x) && Same(R', R, s.free)
  {
    FreshIs(s, e);
    var s0 := s.(free := s.free + 1);
    FreeChange(s, e, s.free + 1);
    ResultFree(env, s, e, C, o, R, x, q, s.free + 1);
    R', q' := Exp2RegSem(env, s0, e, s.free, C, o, R, x, q);
    PutFresh(R', R, s.free, Left(x));
  }

  lemma ResultFree(env: Env, s: St, e: Exp, C: seq<Instr>, o: Outcome, R: Regs, x: Flow, q: Exit, n: nat)
    requires Result(env, s, e, C, o, R, x, q)
    ensures Result(env, s.(free := n), e, C, o, R, x, q)
  {
  }

  lemma PutFresh(R': Regs, R: Regs, reg: nat, v: Value)
    requires Put(R', R, reg, v)
    ensures Get(R', reg) == v && Same(R', R, reg)
  {
  }

  /** An operand in place needs a register of its own. */
  predicate Moves(e: Exp) {
    HasJumps(e) || e.k.KReloc? || e.k.KJmp?
  }

  /** The operand that stands for a constant or a local variable. */
  predicate InPlaceAs(k: Kind, x: RK) {
    match k
    case KNil => x == Const(VNil)
    case KTrue => x == Const(VBool(true))
    case KFalse => x == Const(VBool(false))
    case KConst(v) => x == Const(v)
    case KReg(r) => x == Reg(r)
    case _ => true
  }

  lemma OperandIs(s: St, e: Exp)
    requires ExpOk(s, e)
    ensures var (s1, e1) := DischargeVars(s, e); var (s', e', x) := Exp2RK(s, e);
      if Moves(e1) then s' == Exp2NextReg(s1, e1).0 && x == Reg(s.free)
      else s' == s1 && InPlaceAs(e1.k, x)
  {
    DischargeVarsOk(s, e);
    var (s1, e1) := DischargeVars(s, e);
    if HasJumps(e) {
      Exp2AnyRegOk(s, e);
      var (s2, e2) := Exp2AnyReg(s, e);
      assert Exp2AnyReg(s2, e2) == (s2, e2);
      assert (s2, e2) == Exp2NextReg(s1, e1);
    }
  }

  /** A run of the expression continues behind it with the operand in place; what
      waited still waits only if no code was needed. */
  lemma Exp2RKSem(env: Env, s: St, e: Exp, C: seq<Instr>, o: Outcome, R: Regs, x: Flow, q: Exit)
    returns (R': Regs, q': Exit)
    requires ExpOk(s, e) && Completes(Exp2RK(s, e).0, C) && Result(env, s, e, C, o, R, x, q)
    ensures var (s', e', k) := Exp2RK(s, e);
      && RkVal(R', k) == Left(x)
      && Comes(env, s', C, o, R', if Moves(DischargeVars(s, e).1) || x.Out? then None else x.waits, q')
    ensures Same(R', R, s.free)
  {
    OperandIs(s, e);
    DischargeVarsOk(s, e);
    var (s1, e1) := DischargeVars(s, e);
    if Moves(e1) {
      OperandSettled(s1, e1, C);
      var q1 := DischargeVarsSem(env, s, e, C, o, R, x, q);
      R', q' := FreshSem(env, s1, e1, C, o, R, x, q1);
    } else {
      R', q' := R, q;
    }
  }

  lemma OperandSettled(s: St, e: Exp, C: seq<Instr>)
    requires ExpOk(s, e) && InPlace(e) && Completes(Exp2NextReg(s, e).0, C)
    ensures SettledTo(s.code, C, EndPc(s, e))
  {
    Exp2NextRegOk(s, e);
    SettledBack(s, e, Exp2NextReg(s, e).0, NoExp, C);
  }
}
