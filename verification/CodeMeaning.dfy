/**
  The meaning of compiled expressions: a run of the completed code follows the
  flow of the expression.
 */
module CodeMeaning {
  import opened Common
  import opened CodeModel
  import opened CodeLists
  import opened CodeFlow
  import opened CodeSem
  import opened CodeCond
  import opened CodeReg
  import opened CodeOperand
  import opened CodeCompile

  /** A flow depends on the active local variables only. */
  lemma {:induction false} FlowsSame(env: Env, e: Expr, R: Regs, R': Regs, w: Cargo, nact: nat)
    requires Scoped(e, nact) && Same(R, R', nact)
    ensures Flows(env, e, R, w) == Flows(env, e, R', w)
  {
    match e {
      case ENot(a) => FlowsSame(env, a, R, R', w, nact);
      case EAnd(a, b) =>
        FlowsSame(env, a, R, R', w, nact);
        var n := Goes(Ends(a), Flows(env, a, R, w), false);
        if n.On? { FlowsSame(env, b, R, R', n.waits, nact); }
      case EOr(a, b) =>
        FlowsSame(env, a, R, R', w, nact);
        var n := Goes(Ends(a), Flows(env, a, R, w), true);
        if n.On? { FlowsSame(env, b, R, R', n.waits, nact); }
      case ECmp(_, a, b) =>
        FlowsSame(env, a, R, R', w, nact);
        FlowsSame(env, b, R, R', Passes(a, Flows(env, a, R, w)), nact);
      case _ =>
    }
  }

  /** What a run of the code of an expression comes to. */
  predicate Means(env: Env, s: St, e: Expr, C: seq<Instr>, o: Outcome, R: Regs, x: Flow, q: Exit) {
    var (s', e') := Compile(s, e);
    Result(env, s', e', C, o, R, x, q)
  }

  lemma LeafSem(env: Env, s: St, e: Expr, C: seq<Instr>, o: Outcome, R: Regs, w: Cargo, q: Exit)
    requires Leaf(e) && Comes(env, s, C, o, R, w, q)
    ensures Means(env, s, e, C, o, R, Flows(env, e, R, w), q)
  {
  }

  lemma NegateSem(env: Env, s: St, a: Expr, C: seq<Instr>, o: Outcome, R: Regs, x: Flow, q: Exit)
    returns (R': Regs, q': Exit)
    requires StOk(s) && Scoped(a, s.nact) && Means(env, s, a, C, o, R, x, q)
    requires var (s', e') := Compile(s, ENot(a)); SettledTo(s'.code, C, EndPc(s', e'))
    ensures Means(env, s, ENot(a), C, o, R', NotFlow(Ends(a), x), q') && Same(R', R, s.free)
  {
    NegateSettled(s, a, C);
    CompileEnds(s, a);
    BranchIs(s, a, true);
    var r := Compile(s, a);
    InPlaceTwice(r.0, r.1);
    var d := InPlaceOf(r);
    var q1 := DischargeVarsSem(env, r.0, r.1, C, o, R, x, q);
    R', q' := NotSem(env, d.0, d.1, C, o, R, x, q1);
  }

  /** The first operand of a connective: control reaches the second one, or leaves. */
  lemma BranchSem(env: Env, s: St, a: Expr, cond: bool, C: seq<Instr>, o: Outcome, R: Regs, x: Flow, q: Exit)
    returns (R': Regs, q': Exit)
    requires StOk(s) && Scoped(a, s.nact) && Means(env, s, a, C, o, R, x, q)
    requires Completes(Branch(Compile(s, a), cond).0, C)
    ensures Gone(env, Branch(Compile(s, a), cond), cond, C, o, R', Goes(Ends(a), x, cond), q') && Same(R', R, s.free)
  {
    FirstSettled(s, a, cond, C);
    CompileEnds(s, a);
    BranchIs(s, a, cond);
    var r := Compile(s, a);
    var d := InPlaceOf(r);
    var q1 := DischargeVarsSem(env, r.0, r.1, C, o, R, x, q);
    R', q' := GoingSem(env, d.0, d.1, cond, C, o, R, x, q1);
  }

  lemma MergeResult(env: Env, s: St, e: Exp, keep: seq<nat>, cond: bool, C: seq<Instr>, o: Outcome, R: Regs,
      x: Flow, q: Exit)
    requires Result(env, s, e, C, o, R, x, q)
    ensures Result(env, s, Merged(e, keep, cond), C, o, R, x, q)
  {
  }

  /** The second operand of a connective, in place. */
  lemma SecondSem(env: Env, s: St, a: Expr, b: Expr, cond: bool, C: seq<Instr>, o: Outcome, R: Regs, x: Flow, q: Exit)
    returns (q': Exit)
    requires StOk(s) == true && Scoped(a, s.nact) == true && Scoped(b, s.nact) == true
    requires var s2 := Branch(Compile(s, a), cond).0; var d := InPlaceOf(Compile(s2, b));
      Means(env, s2, b, C, o, R, x, q) == true && SettledTo(d.0.code, C, EndPc(d.0, d.1)) == true
    ensures Means(env, s, Connective(cond, a, b), C, o, R, x, q')
  {
    BranchOuter(s, a, cond);
    ConnectIs(s, a, b, cond);
    var (s2, e2) := Branch(Compile(s, a), cond);
    CompileOk(s2, b);
    var r := Compile(s2, b);
    q' := DischargeVarsSem(env, r.0, r.1, C, o, R, x, q);
    var d := InPlaceOf(r);
    MergeResult(env, d.0, d.1, Keep(e2, cond), cond, C, o, R, x, q');
  }

  /** The exits of the first operand keep their control. */
  lemma FirstControl(s: St, a: Expr, b: Expr, cond: bool, j: nat)
    requires StOk(s) && Scoped(a, s.nact) && Scoped(b, s.nact)
    requires j in Keep(Branch(Compile(s, a), cond).1, cond)
    ensures var s2 := Branch(Compile(s, a), cond).0; SameControl(s2.code, InPlaceOf(Compile(s2, b)).0.code, j)
  {
    BranchOuter(s, a, cond);
    var (s2, e2) := Branch(Compile(s, a), cond);
    SecondControl(s2, Keep(e2, cond), cond, b, j);
  }

  lemma SecondControl(s2: St, keep: seq<nat>, cond: bool, b: Expr, j: nat)
    requires ExpOk(s2, Outer(keep, cond)) && Scoped(b, s2.nact) && j in keep
    ensures SameControl(s2.code, InPlaceOf(Compile(s2, b)).0.code, j)
  {
    SecondOk(s2, b);
    var (s4, e4) := InPlaceOf(Compile(s2, b));
    WaitControl(s2, keep, cond, s4, e4, j);
  }

  /** An exit of the first operand is an exit of the whole. */
  lemma MergeExit(env: Env, s: St, e: Exp, s': St, e': Exp, cond: bool, C: seq<Instr>, o: Outcome, R: Regs,
      c: Cargo, q: Exit)
    requires Result(env, s, e, C, o, R, Out(cond, c), q) && SameControl(s.code, s'.code, q.j)
    ensures Result(env, s', Merged(e', Keep(e, cond), cond), C, o, R, Out(cond, c), q)
  {
  }

  /** The first operand decides. */
  lemma DecidedSem(env: Env, s: St, a: Expr, b: Expr, cond: bool, C: seq<Instr>, o: Outcome, R: Regs, c: Cargo,
      q: Exit)
    requires StOk(s) && Scoped(a, s.nact) && Scoped(b, s.nact)
    requires Gone(env, Branch(Compile(s, a), cond), cond, C, o, R, Off(c), q)
    ensures Means(env, s, Connective(cond, a, b), C, o, R, Out(cond, c), q)
  {
    var (s2, e2) := Branch(Compile(s, a), cond);
    FirstControl(s, a, b, cond, q.j);
    ConnectIs(s, a, b, cond);
    var (s4, e4) := InPlaceOf(Compile(s2, b));
    MergeExit(env, s2, e2, s4, e4, cond, C, o, R, c, q);
  }

  /** An operand of a comparison is in place with the value its code leaves. */
  lemma OperandSem(env: Env, s: St, a: Expr, C: seq<Instr>, o: Outcome, R: Regs, x: Flow, q: Exit)
    returns (R': Regs, q': Exit)
    requires StOk(s) && Scoped(a, s.nact) && Completes(AsOperand(Compile(s, a)).0, C)
    requires Means(env, s, a, C, o, R, x, q)
    ensures var (s', e', k) := AsOperand(Compile(s, a));
      Comes(env, s', C, o, R', Passes(a, x), q') && RkVal(R', k) == Left(x)
    ensures Same(R', R, s.free)
  {
    OperandParts(s, a);
    CodelessMoves(s, a);
    var r := Compile(s, a);
    R', q' := Exp2RKSem(env, r.0, r.1, C, o, R, x, q);
  }

  /** Where the comparison is. */
  lemma ComparedAt(s: St, op: CompareOp, a: Expr, b: Expr, C: seq<Instr>)
    requires StOk(s) && Scoped(a, s.nact) && Scoped(b, s.nact)
    requires var (s', e') := Compile(s, ECmp(op, a, b)); SettledTo(s'.code, C, EndPc(s', e'))
    ensures var (s2, e2, x) := AsOperand(Compile(s, a)); var (s4, e4, y) := AsOperand(Compile(s2, b));
      var (s', e') := Compile(s, ECmp(op, a, b));
      && |s4.code| <= |C| && e'.k == KJmp(|s4.code| + 1) && |s'.code| == |s4.code| + 2
      && s'.code[|s4.code|] == CompareInstr(op, x, y)
      && StOk(s4) && SettledTo(Discharged(s4), C, |s4.code|)
  {
    CompareIs(s, op, a, b);
    OperandParts(s, a);
    var (s2, e2, x) := AsOperand(Compile(s, a));
    OperandParts(s2, b);
    var (s4, e4, y) := AsOperand(Compile(s2, b));
    CompareCode(s4, e4, e2, op, x, y, C);
  }

  /** The comparison looks at both operands. */
  lemma ComparedSem(env: Env, s: St, op: CompareOp, a: Expr, b: Expr, C: seq<Instr>, o: Outcome, R: Regs, u: Value,
      v: Value, w: Cargo, q: Exit)
    requires StOk(s) == true && Scoped(a, s.nact) && Scoped(b, s.nact)
    requires var (s', e') := Compile(s, ECmp(op, a, b)); SettledTo(s'.code, C, EndPc(s', e')) == true
    requires var (s2, e2, x) := AsOperand(Compile(s, a)); var (s4, e4, y) := AsOperand(Compile(s2, b));
      Comes(env, s4, C, o, R, w, q) == true && RkVal(R, x) == u && RkVal(R, y) == v
    ensures Means(env, s, ECmp(op, a, b), C, o, R, End(VBool(CompareValue(env, op, u, v)), None), Fall) == true
  {
    ComparedAt(s, op, a, b, C);
    var (s2, e2, x) := AsOperand(Compile(s, a));
    var (s4, e4, y) := AsOperand(Compile(s2, b));
    var (s', e') := Compile(s, ECmp(op, a, b));
    ComparedResult(env, s4, op, x, y, s', e', C, o, R, w, q);
  }

  lemma ComparedResult(env: Env, s4: St, op: CompareOp, x: RK, y: RK, s': St, e': Exp, C: seq<Instr>, o: Outcome,
      R: Regs, w: Cargo, q: Exit)
    requires StOk(s4) && SettledTo(Discharged(s4), C, |s4.code|) && Comes(env, s4, C, o, R, w, q)
    requires |s4.code| <= |C| && e'.k == KJmp(|s4.code| + 1) && |s'.code| == |s4.code| + 2
    requires s'.code[|s4.code|] == CompareInstr(op, x, y)
    ensures Result(env, s', e', C, o, R, End(VBool(CompareValue(env, op, RkVal(R, x), RkVal(R, y))), None), Fall)
  {
    EmitReaches(env, s4, C, o, R, q);
    TakesCompare(env, op, x, y, R);
  }

  lemma TakesCompare(env: Env, op: CompareOp, x: RK, y: RK, R: Regs)
    ensures Takes(env, CompareInstr(op, x, y), R) == CompareValue(env, op, RkVal(R, x), RkVal(R, y))
  {
  }

  /** For every expression, from wherever control comes to its code, on whatever
      waits there: the run follows the flow and keeps the registers in use. */
  lemma {:induction false} CompileSem(env: Env, s: St, e: Expr, C: seq<Instr>, o: Outcome, R0: Regs, w: Cargo,
      q0: Exit)
    returns (R: Regs, q: Exit)
    requires StOk(s) && Scoped(e, s.nact) && Comes(env, s, C, o, R0, w, q0)
    requires var (s', e') := Compile(s, e); SettledTo(s'.code, C, EndPc(s', e'))
    ensures Means(env, s, e, C, o, R, Flows(env, e, R0, w), q) && Same(R, R0, s.free)
    decreases e, 1
  {
    match e {
      case ENot(a) =>
        NegateSettled(s, a, C);
        R, q := CompileSem(env, s, a, C, o, R0, w, q0);
        R, q := NegateSem(env, s, a, C, o, R, Flows(env, a, R0, w), q);
      case EAnd(a, b) => R, q := ConnectSem(env, s, a, b, false, C, o, R0, w, q0);
      case EOr(a, b) => R, q := ConnectSem(env, s, a, b, true, C, o, R0, w, q0);
      case ECmp(op, a, b) => R, q := CompareSem(env, s, op, a, b, C, o, R0, w, q0);
      case _ =>
        R, q := R0, q0;
        LeafSem(env, s, e, C, o, R0, w, q0);
    }
  }

  lemma JoinFlows(env: Env, cond: bool, a: Expr, b: Expr, R: Regs, w: Cargo)
    ensures Flows(env, Connective(cond, a, b), R, w) ==
      var n := Goes(Ends(a), Flows(env, a, R, w), cond);
      if n.Off? then Out(cond, n.cargo) else Flows(env, b, R, n.waits)
  {
  }

  lemma {:induction false} ConnectSem(env: Env, s: St, a: Expr, b: Expr, cond: bool, C: seq<Instr>, o: Outcome,
      R0: Regs, w: Cargo, q0: Exit)
    returns (R: Regs, q: Exit)
    requires StOk(s) == true && Scoped(a, s.nact) == true && Scoped(b, s.nact) == true
        && Comes(env, s, C, o, R0, w, q0) == true
    requires var (s', e') := Compile(s, Connective(cond, a, b)); SettledTo(s'.code, C, EndPc(s', e')) == true
    ensures Means(env, s, Connective(cond, a, b), C, o, R, Flows(env, Connective(cond, a, b), R0, w), q)
        && Same(R, R0, s.free)
    decreases Connective(cond, a, b), 0
  {
    ConnectSettled(s, a, b, cond, C);
    FirstSettled(s, a, cond, C);
    JoinFlows(env, cond, a, b, R0, w);
    var x := Flows(env, a, R0, w);
    R, q := CompileSem(env, s, a, C, o, R0, w, q0);
    R, q := BranchSem(env, s, a, cond, C, o, R, x, q);
    var n := Goes(Ends(a), x, cond);
    if n.Off? {
      DecidedSem(env, s, a, b, cond, C, o, R, n.cargo, q);
    } else {
      BranchOuter(s, a, cond);
      var s2 := Branch(Compile(s, a), cond).0;
      FlowsSame(env, b, R, R0, n.waits, s.nact);
      R, q := CompileSem(env, s2, b, C, o, R, n.waits, q);
      q := SecondSem(env, s, a, b, cond, C, o, R, Flows(env, b, R0, n.waits), q);
    }
  }

  lemma CompareFlows(env: Env, op: CompareOp, a: Expr, b: Expr, R: Regs, w: Cargo)
    ensures var x := Flows(env, a, R, w); var y := Flows(env, b, R, Passes(a, x));
      Flows(env, ECmp(op, a, b), R, w) == End(VBool(CompareValue(env, op, Left(x), Left(y))), None)
  {
  }

  /** An operand, from where control comes to its code to behind it. */
  lemma {:induction false} OperandRun(env: Env, s: St, a: Expr, C: seq<Instr>, o: Outcome, R0: Regs, w: Cargo,
      q0: Exit)
    returns (R: Regs, q: Exit)
    requires StOk(s) && Scoped(a, s.nact) && Comes(env, s, C, o, R0, w, q0) == true
    requires var r := Compile(s, a);
        SettledTo(r.0.code, C, EndPc(r.0, r.1)) == true && Completes(AsOperand(r).0, C) == true
    ensures var (s', e', k) := AsOperand(Compile(s, a)); var x := Flows(env, a, R0, w);
      Comes(env, s', C, o, R, Passes(a, x), q) == true && RkVal(R, k) == Left(x)
    ensures Same(R, R0, s.free)
    decreases a, 2
  {
    R, q := CompileSem(env, s, a, C, o, R0, w, q0);
    R, q := OperandSem(env, s, a, C, o, R, Flows(env, a, R0, w), q);
  }

  lemma {:induction false} CompareSem(env: Env, s: St, op: CompareOp, a: Expr, b: Expr, C: seq<Instr>, o: Outcome,
      R0: Regs, w: Cargo, q0: Exit)
    returns (R: Regs, q: Exit)
    requires StOk(s) && Scoped(a, s.nact) && Scoped(b, s.nact) && Comes(env, s, C, o, R0, w, q0) == true
    requires var (s', e') := Compile(s, ECmp(op, a, b)); SettledTo(s'.code, C, EndPc(s', e')) == true
    ensures Means(env, s, ECmp(op, a, b), C, o, R, Flows(env, ECmp(op, a, b), R0, w), q) == true
        && Same(R, R0, s.free)
    decreases ECmp(op, a, b), 0
  {
    CompareSettled(s, op, a, b, C);
    OperandParts(s, a);
    var (s2, e2, k) := AsOperand(Compile(s, a));
    var x := Flows(env, a, R0, w);
    CompareFlows(env, op, a, b, R0, w);
    var R2, q2 := OperandRun(env, s, a, C, o, R0, w, q0);
    FlowsSame(env, b, R2, R0, Passes(a, x), s.nact);
    R, q := OperandRun(env, s2, b, C, o, R2, Passes(a, x), q2);
    var y := Flows(env, b, R0, Passes(a, x));
    assert RkVal(R, k) == RkVal(R2, k);
    ComparedSem(env, s, op, a, b, C, o, R, Left(x), Left(y), Passes(b, y), q);
    q := Fall;
  }
}
