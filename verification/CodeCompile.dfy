/**
  The parts of a compiled expression: how it ends, and what the code that
  completes it makes of the code of its operands.
 */
module CodeCompile {
  import opened Common
  import opened CodeModel
  import opened CodeLists
  import opened CodeFlow
  import opened CodeSem
  import opened CodeCond
  import opened CodeReg
  import opened CodeOperand

  function Branch(r: (St, Exp), cond: bool): (St, Exp) {
    Going(r.0, r.1, cond)
  }

  function AsOperand(r: (St, Exp)): (St, Exp, RK) {
    Exp2RK(r.0, r.1)
  }

  function InPlaceOf(r: (St, Exp)): (St, Exp) {
    DischargeVars(r.0, r.1)
  }

  // ---------------------------------------------------------------- connectives

  function Outer(keep: seq<nat>, cond: bool): Exp {
    if cond then Exp(KNil, keep, []) else Exp(KNil, [], keep)
  }

  function Merged(e: Exp, keep: seq<nat>, cond: bool): Exp {
    if cond then e.(t := e.t + keep) else e.(f := e.f + keep)
  }

  /** Exits that wait keep their control. */
  lemma WaitControl(s: St, keep: seq<nat>, cond: bool, s': St, e': Exp, j: nat)
    requires ExpOk(s, Outer(keep, cond)) && Grows(s, NoExp, s', e') && j in keep
    ensures SameControl(s.code, s'.code, j)
  {
    assert Pend(s.code, j);
    if j >= 1 {
      if s.code[j - 1].TestSet? { assert Loose(s, NoExp, j - 1); }
      else { assert Settles(s.code[j - 1], s'.code[j - 1]); }
    }
  }

  /** The first operand, in place, before the second is compiled. */
  lemma BranchIs(s: St, a: Expr, cond: bool)
    requires StOk(s) && Scoped(a, s.nact)
    ensures var r := Compile(s, a); var d := InPlaceOf(r); var (s2, e2) := Branch(r, cond);
      && ExpOk(r.0, r.1) && r.0.free == s.free
      && ExpOk(d.0, d.1) && InPlace(d.1) && d.0.free == s.free
      && Branch(r, cond) == Going(d.0, d.1, cond)
      && ExpOk(s2, Outer(Keep(e2, cond), cond)) && s2.free == s.free && s2.nact == s.nact
      && Grows(r.0, r.1, d.0, d.1)
  {
    CompileOk(s, a);
    var r := Compile(s, a);
    DischargeVarsOk(r.0, r.1);
    if cond { GoIfFalseOk(r.0, r.1); } else { GoIfTrueOk(r.0, r.1); }
  }

  /** The state and the exits that wait, before the second operand. */
  lemma BranchOuter(s: St, a: Expr, cond: bool)
    requires StOk(s) == true && Scoped(a, s.nact) == true
    ensures var (s2, e2) := Branch(Compile(s, a), cond);
      ExpOk(s2, Outer(Keep(e2, cond), cond)) == true && s2.nact == s.nact && s2.free == s.free
  {
    BranchIs(s, a, cond);
  }

  lemma OrIs(s: St, a: Expr, b: Expr)
    ensures var (s2, e2) := Branch(Compile(s, a), true); var (s4, e4) := InPlaceOf(Compile(s2, b));
      Compile(s, EOr(a, b)) == (s4, Merged(e4, e2.t, true))
  {
  }

  lemma AndIs(s: St, a: Expr, b: Expr)
    ensures var (s2, e2) := Branch(Compile(s, a), false); var (s4, e4) := InPlaceOf(Compile(s2, b));
      Compile(s, EAnd(a, b)) == (s4, Merged(e4, e2.f, false))
  {
  }

  function Connective(cond: bool, a: Expr, b: Expr): Expr {
    if cond then EOr(a, b) else EAnd(a, b)
  }

  lemma ConnectIs(s: St, a: Expr, b: Expr, cond: bool)
    ensures var (s2, e2) := Branch(Compile(s, a), cond); var (s4, e4) := InPlaceOf(Compile(s2, b));
      Compile(s, Connective(cond, a, b)) == (s4, Merged(e4, Keep(e2, cond), cond))
  {
    if cond { OrIs(s, a, b); } else { AndIs(s, a, b); }
  }

  /** The second operand, in place. */
  lemma SecondOk(s2: St, b: Expr)
    requires StOk(s2) && Scoped(b, s2.nact)
    ensures var r3 := Compile(s2, b); var (s4, e4) := InPlaceOf(r3);
      ExpOk(r3.0, r3.1) && Grows(s2, NoExp, s4, e4)
  {
    CompileOk(s2, b);
    var r3 := Compile(s2, b);
    DischargeVarsOk(r3.0, r3.1);
    GrowsTrans(s2, NoExp, r3.0, r3.1, InPlaceOf(r3).0, InPlaceOf(r3).1);
  }

  // ---------------------------------------------------------------- comparisons

  /** An operand, compiled and in place. */
  lemma OperandParts(s: St, a: Expr)
    requires StOk(s) && Scoped(a, s.nact)
    ensures var r := Compile(s, a); var (s2, e2, x) := AsOperand(r);
      && ExpOk(r.0, r.1) && r.0.free == s.free && StOk(s2) && s2.free >= s.free && s2.nact == s.nact
      && (x.Reg? ==> x.r < s2.free) && Grows(r.0, r.1, s2, NoExp)
  {
    assert ExpOk(s, NoExp);
    CompileOk(s, a);
    OperandOk(s, a);
    Exp2RKOk(Compile(s, a).0, Compile(s, a).1);
  }

  lemma CompareIs(s: St, op: CompareOp, a: Expr, b: Expr)
    ensures var (s2, e2, x) := AsOperand(Compile(s, a)); var r3 := Compile(s2, b); var (s4, e4, y) := AsOperand(r3);
      && Compile(s, ECmp(op, a, b)) == PosfixCompare(r3.0, op, e2, x, r3.1)
      && PosfixCompare(r3.0, op, e2, x, r3.1) == Compared(s4, e4, e2, op, x, y)
  {
  }

  function Compared(s4: St, e4: Exp, e2: Exp, op: CompareOp, x: RK, y: RK): (St, Exp) {
    var (s', j) := CondJump(FreeExp(FreeExp(s4, e4), e2), CompareInstr(op, x, y));
    (s', Exp(KJmp(j), [], []))
  }

  /** The code of the comparison itself. */
  lemma CompareCode(s4: St, e4: Exp, e2: Exp, op: CompareOp, x: RK, y: RK, C: seq<Instr>)
    requires StOk(s4)
    requires var (s', e') := Compared(s4, e4, e2, op, x, y); SettledTo(s'.code, C, EndPc(s', e'))
    ensures Completes(s4, C) && SettledTo(Discharged(s4), C, |s4.code|)
    ensures var (s', e') := Compared(s4, e4, e2, op, x, y);
      e'.k == KJmp(|s4.code| + 1) && |s'.code| == |s4.code| + 2 && s'.code[|s4.code|] == CompareInstr(op, x, y)
  {
    var ins := [CompareInstr(op, x, y), Jmp(None)];
    assert Compared(s4, e4, e2, op, x, y).0.code == Emit(s4, ins).code;
    EmitBack(s4, ins, C);
  }

  // ---------------------------------------------------------------- how a compiled expression ends

  /** The end of the code is what the source says: its kind, and which of its
      lists have jumps. */
  predicate EndsAs(r: (St, Exp), f: Form, t: bool, u: bool) {
    FormOf(r.0, r.1) == f && (r.1.t != []) == t && (r.1.f != []) == u
  }

  lemma InPlaceEnds(s: St, e: Exp, f: Form, t: bool, u: bool)
    requires EndsAs((s, e), f, t, u)
    ensures EndsAs(DischargeVars(s, e), f, t, u)
  {
  }

  lemma NotEnds(s: St, e: Exp, f: Form, t: bool, u: bool)
    requires ExpOk(s, e) && EndsAs((s, e), f, t, u)
    ensures EndsAs(CodeNot(s, e), NotForm(f), u, t)
  {
    DischargeVarsOk(s, e);
    InPlaceTwice(s, e);
    InPlaceEnds(s, e, f, t, u);
    var d := DischargeVars(s, e);
    if d.1.k.KReloc? || d.1.k.KReg? { NotValueEnds(d.0, d.1); } else { NotKindEnds(d.0, d.1); }
  }

  /** A value negated by an instruction. */
  lemma NotValueEnds(s: St, e: Exp)
    requires ExpOk(s, e) && (e.k.KReloc? || e.k.KReg?)
    ensures EndsAs(CodeNot(s, e), Tested, e.f != [], e.t != []) == true
  {
    NegatedIs(s, e);
    var (s1, e1) := Negated(s, e);
    RemovedAt(s1.code, e1.t, e1.f, |s1.code| - 1);
  }

  /** A literal or a comparison, negated without one. */
  lemma NotKindEnds(s: St, e: Exp)
    requires ExpOk(s, e) && InPlace(e) && !e.k.KReloc? && !e.k.KReg?
    ensures EndsAs(CodeNot(s, e), NotForm(FormOf(s, e)), e.f != [], e.t != []) == true
  {
  }

  lemma GoingEnds(s: St, e: Exp, cond: bool, f: Form, t: bool, u: bool)
    requires ExpOk(s, e) && InPlace(e) && EndsAs((s, e), f, t, u)
    ensures (Keep(Going(s, e, cond).1, cond) != []) == ((if cond then t else u) || !NeverForm(f, cond))
  {
    GoingLists(s, e, cond);
  }

  predicate Leaf(e: Expr) {
    !e.ENot? && !e.EAnd? && !e.EOr? && !e.ECmp?
  }

  lemma LeafEnds(s: St, e: Expr)
    requires Leaf(e)
    ensures EndsAs(Compile(s, e), Ends(e), Exits(e, true), Exits(e, false)) == true
  {
  }

  lemma CompareEnds(s: St, op: CompareOp, a: Expr, b: Expr)
    ensures var e := ECmp(op, a, b); EndsAs(Compile(s, e), Ends(e), Exits(e, true), Exits(e, false)) == true
  {
    CompareIs(s, op, a, b);
    var (s2, e2, x) := AsOperand(Compile(s, a));
    var (s4, e4, y) := AsOperand(Compile(s2, b));
    ComparedEnds(s4, e4, e2, op, x, y);
  }

  lemma ComparedEnds(s4: St, e4: Exp, e2: Exp, op: CompareOp, x: RK, y: RK)
    ensures EndsAs(Compared(s4, e4, e2, op, x, y), Tested, false, false) == true
  {
  }

  lemma NegateEnds(s: St, a: Expr)
    requires StOk(s) && Scoped(a, s.nact) && EndsAs(Compile(s, a), Ends(a), Exits(a, true), Exits(a, false)) == true
    ensures var e := ENot(a); EndsAs(Compile(s, e), Ends(e), Exits(e, true), Exits(e, false)) == true
  {
    CompileOk(s, a);
    var r := Compile(s, a);
    NotEnds(r.0, r.1, Ends(a), Exits(a, true), Exits(a, false));
  }

  lemma {:induction false} CompileEnds(s: St, e: Expr)
    requires StOk(s) && Scoped(e, s.nact)
    ensures EndsAs(Compile(s, e), Ends(e), Exits(e, true), Exits(e, false)) == true
    decreases e, 1
  {
    match e {
      case ENot(a) =>
        CompileEnds(s, a);
        NegateEnds(s, a);
      case EAnd(a, b) => ConnectEnds(s, a, b, false);
      case EOr(a, b) => ConnectEnds(s, a, b, true);
      case ECmp(op, a, b) => CompareEnds(s, op, a, b);
      case _ => LeafEnds(s, e);
    }
  }

  lemma FirstEnds(s: St, a: Expr, cond: bool)
    requires StOk(s) && Scoped(a, s.nact) && EndsAs(Compile(s, a), Ends(a), Exits(a, true), Exits(a, false)) == true
    ensures (Keep(Branch(Compile(s, a), cond).1, cond) != []) == (Exits(a, cond) || !NeverForm(Ends(a), cond))
  {
    BranchIs(s, a, cond);
    var r := Compile(s, a);
    var d := InPlaceOf(r);
    InPlaceEnds(r.0, r.1, Ends(a), Exits(a, true), Exits(a, false));
    GoingEnds(d.0, d.1, cond, Ends(a), Exits(a, true), Exits(a, false));
  }

  lemma MergedEnds(s: St, e: Exp, f: Form, t: bool, u: bool, keep: seq<nat>, cond: bool)
    requires EndsAs((s, e), f, t, u)
    ensures EndsAs((s, Merged(e, keep, cond)), f, t || (cond && keep != []), u || (!cond && keep != []))
  {
  }

  lemma {:induction false} ConnectEnds(s: St, a: Expr, b: Expr, cond: bool)
    requires StOk(s) == true && Scoped(a, s.nact) == true && Scoped(b, s.nact) == true
    ensures var e := Connective(cond, a, b); EndsAs(Compile(s, e), Ends(e), Exits(e, true), Exits(e, false)) == true
    decreases Connective(cond, a, b), 0
  {
    CompileEnds(s, a);
    FirstEnds(s, a, cond);
    BranchOuter(s, a, cond);
    var (s2, e2) := Branch(Compile(s, a), cond);
    CompileEnds(s2, b);
    var r3 := Compile(s2, b);
    var d3 := InPlaceOf(r3);
    InPlaceEnds(r3.0, r3.1, Ends(b), Exits(b, true), Exits(b, false));
    MergedEnds(d3.0, d3.1, Ends(b), Exits(b, true), Exits(b, false), Keep(e2, cond), cond);
    ConnectIs(s, a, b, cond);
  }

  /** An operand stays in place exactly when there is no code for it. */
  lemma CodelessMoves(s: St, e: Expr)
    requires StOk(s) && Scoped(e, s.nact)
    ensures Codeless(e) == !Moves(InPlaceOf(Compile(s, e)).1)
  {
    CompileEnds(s, e);
    var r := Compile(s, e);
    EndsMoves(r.0, r.1, Ends(e), Exits(e, true), Exits(e, false));
  }

  lemma EndsMoves(s: St, e: Exp, f: Form, t: bool, u: bool)
    requires EndsAs((s, e), f, t, u) == true
    ensures Moves(DischargeVars(s, e).1) == !(!t && !u && (Literal(f) || f.InSlot?))
  {
  }

  // ---------------------------------------------------------------- what completes the operands

  lemma InPlaceTwice(s: St, e: Exp)
    ensures var d := DischargeVars(s, e); DischargeVars(d.0, d.1) == d && CodeNot(s, e) == CodeNot(d.0, d.1)
  {
    var d := DischargeVars(s, e);
    assert DischargeVars(d.0, d.1) == d;
  }

  /** Code that completes a negation completes the expression negated. */
  lemma NegateSettled(s: St, a: Expr, C: seq<Instr>)
    requires StOk(s) && Scoped(a, s.nact)
    requires var (s', e') := Compile(s, ENot(a)); SettledTo(s'.code, C, EndPc(s', e'))
    ensures var r := Compile(s, a); var d := InPlaceOf(r);
      SettledTo(r.0.code, C, EndPc(r.0, r.1)) && SettledTo(d.0.code, C, EndPc(d.0, d.1))
  {
    NegateGrows(s, a);
    var r := Compile(s, a);
    var d := InPlaceOf(r);
    var (s', e') := Compile(s, ENot(a));
    SettledBack(d.0, d.1, s', e', C);
    SettledBack(r.0, r.1, d.0, d.1, C);
  }

  /** A negation, and before it the operand in place, only add to the code. */
  lemma NegateGrows(s: St, a: Expr)
    requires StOk(s) && Scoped(a, s.nact)
    ensures var r := Compile(s, a); var d := InPlaceOf(r); var (s', e') := Compile(s, ENot(a));
      Grows(r.0, r.1, d.0, d.1) == true && Grows(d.0, d.1, s', e') == true
  {
    BranchIs(s, a, true);
    var r := Compile(s, a);
    InPlaceTwice(r.0, r.1);
    var d := InPlaceOf(r);
    CodeNotOk(d.0, d.1);
  }

  /** Code that completes a connective completes the second operand. */
  lemma SecondSettled(s2: St, b: Expr, C: seq<Instr>)
    requires StOk(s2) == true && Scoped(b, s2.nact)
    requires var d := InPlaceOf(Compile(s2, b)); SettledTo(d.0.code, C, EndPc(d.0, d.1)) == true
    ensures var r := Compile(s2, b); Completes(s2, C) && SettledTo(r.0.code, C, EndPc(r.0, r.1))
  {
    SecondOk(s2, b);
    var r := Compile(s2, b);
    var d := InPlaceOf(r);
    SettledBack(s2, NoExp, d.0, d.1, C);
    DischargeVarsOk(r.0, r.1);
    SettledBack(r.0, r.1, d.0, d.1, C);
  }

  /** What comes after the first operand completes it. */
  lemma FirstSettled(s: St, a: Expr, cond: bool, C: seq<Instr>)
    requires StOk(s) && Scoped(a, s.nact) && Completes(Branch(Compile(s, a), cond).0, C) == true
    ensures var r := Compile(s, a); var d := InPlaceOf(r);
      SettledTo(r.0.code, C, EndPc(r.0, r.1)) && SettledTo(d.0.code, C, EndPc(d.0, d.1))
  {
    BranchIs(s, a, cond);
    var r := Compile(s, a);
    var d := InPlaceOf(r);
    GoingSettled(d.0, d.1, cond, C);
    SettledBack(r.0, r.1, d.0, d.1, C);
  }

  /** The two together. */
  lemma ConnectSettled(s: St, a: Expr, b: Expr, cond: bool, C: seq<Instr>)
    requires StOk(s) == true && Scoped(a, s.nact) == true && Scoped(b, s.nact) == true
    requires var (s', e') := Compile(s, Connective(cond, a, b)); SettledTo(s'.code, C, EndPc(s', e')) == true
    ensures var s2 := Branch(Compile(s, a), cond).0; var r3 := Compile(s2, b); var d3 := InPlaceOf(r3);
      && Completes(s2, C) == true && SettledTo(r3.0.code, C, EndPc(r3.0, r3.1)) == true
      && SettledTo(d3.0.code, C, EndPc(d3.0, d3.1)) == true
  {
    BranchOuter(s, a, cond);
    ConnectIs(s, a, b, cond);
    var (s2, e2) := Branch(Compile(s, a), cond);
    var d3 := InPlaceOf(Compile(s2, b));
    MergedEnd(d3.0, d3.1, Keep(e2, cond), cond);
    SecondSettled(s2, b, C);
  }

  lemma MergedEnd(s: St, e: Exp, keep: seq<nat>, cond: bool)
    ensures EndPc(s, Merged(e, keep, cond)) == EndPc(s, e)
  {
  }

  /** Code that completes a comparison completes both operands. */
  lemma CompareSettled(s: St, op: CompareOp, a: Expr, b: Expr, C: seq<Instr>)
    requires StOk(s) && Scoped(a, s.nact) && Scoped(b, s.nact)
    requires var (s', e') := Compile(s, ECmp(op, a, b)); SettledTo(s'.code, C, EndPc(s', e'))
    ensures var r1 := Compile(s, a); var s2 := AsOperand(r1).0; var r3 := Compile(s2, b); var s4 := AsOperand(r3).0;
      && SettledTo(r1.0.code, C, EndPc(r1.0, r1.1)) && Completes(s2, C)
      && SettledTo(r3.0.code, C, EndPc(r3.0, r3.1)) && Completes(s4, C) && SettledTo(Discharged(s4), C, |s4.code|)
  {
    CompareIs(s, op, a, b);
    OperandParts(s, a);
    var r1 := Compile(s, a);
    var (s2, e2, x) := AsOperand(r1);
    OperandParts(s2, b);
    var r3 := Compile(s2, b);
    var (s4, e4, y) := AsOperand(r3);
    CompareCode(s4, e4, e2, op, x, y, C);
    SettledBack(r3.0, r3.1, s4, NoExp, C);
    CompileOk(s2, b);
    SettledBack(s2, NoExp, r3.0, r3.1, C);
    SettledBack(r1.0, r1.1, s2, NoExp, C);
  }
}
