/**
  Nothing is left open: every jump without target and every TestSet without
  register belongs to a list that is still held.
 */
module CodeOpen {
  import opened Common
  import opened CodeModel
  import opened CodeLists
  import opened CodeSem
  import opened CodeCond
  import opened CodeOperand
  import opened CodeCompile

  /** A jump that waits for its target, or a TestSet that waits for its register. */
  predicate Open(i: Instr) {
    i == Jmp(None) || (i.TestSet? && i.set_a.None?)
  }

  /** An open instruction with a list that will complete it. */
  predicate Owned(s: St, e: Exp, i: nat) {
    i < |s.code| && (Held(s, e, i) || (e.k.KJmp? && e.k.j == i) || (Held(s, e, i + 1) && s.code[i].TestSet?))
  }

  predicate Orphan(s: St, e: Exp, i: nat) {
    i < |s.code| && Open(s.code[i]) && !Owned(s, e, i)
  }

  /** No open instruction loses its list. */
  ghost predicate Keeps(s: St, e: Exp, s': St, e': Exp) {
    forall i: nat :: Orphan(s', e', i) ==> Orphan(s, e, i)
  }

  lemma KeepsTrans(s: St, e: Exp, s1: St, e1: Exp, s2: St, e2: Exp)
    requires Keeps(s, e, s1, e1) && Keeps(s1, e1, s2, e2)
    ensures Keeps(s, e, s2, e2)
  {
  }

  // ---------------------------------------------------------------- one step at a time

  /** Emission completes what was pending to it. */
  lemma EmitKeeps(s: St, e: Exp, ins: seq<Instr>, e': Exp)
    requires ExpOk(s, e) && !e.k.KJmp? && e'.t == e.t && e'.f == e.f
    requires forall k: nat :: k < |ins| ==> !Open(ins[k]) || (e'.k == KJmp(|s.code| + k))
    ensures Keeps(s, e, Emit(s, ins), e')
  {
    var s' := Emit(s, ins);
    assert forall i: nat :: |s.code| <= i < |s'.code| ==> s'.code[i] == ins[i - |s.code|];
    forall i: nat | i < |s.code| && Orphan(s', e', i) ensures Orphan(s, e, i) {
      assert s'.code[i] == Discharged(s)[i];
      if i + 1 in s.jpc { assert Pend(s.code, i + 1); }
    }
  }

  lemma DischargeVarsKeeps(s: St, e: Exp)
    requires ExpOk(s, e)
    ensures var (s', e') := DischargeVars(s, e); Keeps(s, e, s', e')
  {
    if e.k.KGlobal? { EmitKeeps(s, e, [GetGlobal(0, e.k.name)], e.(k := KReloc(|s.code|))); }
  }

  lemma Discharge2RegKeeps(s: St, e: Exp, reg: nat)
    requires ExpOk(s, e) && !e.k.KLocal? && !e.k.KGlobal?
    ensures var (s', e') := Discharge2Reg(s, e, reg); Keeps(s, e, s', e')
  {
    var e' := e.(k := KReg(reg));
    match e.k {
      case KNil => EmitKeeps(s, e, [LoadNil(reg)], e');
      case KTrue => EmitKeeps(s, e, [LoadBool(reg, true, false)], e');
      case KFalse => EmitKeeps(s, e, [LoadBool(reg, false, false)], e');
      case KConst(v) => EmitKeeps(s, e, [LoadK(reg, v)], e');
      case KReg(r) => if r != reg { EmitKeeps(s, e, [Move(reg, r)], e'); }
      case KReloc(pc) => RelocateKeeps(s, e, reg);
      case _ =>
    }
  }

  lemma RelocateKeeps(s: St, e: Exp, reg: nat)
    requires ExpOk(s, e) && e.k.KReloc?
    ensures Keeps(s, e, s.(code := s.code[e.k.pc := SetA(s.code[e.k.pc], reg)]), e.(k := KReg(reg)))
  {
  }

  /** The test and jump at the end of some code, the jump joining a list. */
  lemma CondJumpKeeps(s: St, e: Exp, test: Instr, e': Exp)
    requires ExpOk(s, e) && !e.k.KJmp? && IsTest(test) && !e'.k.KJmp?
    requires forall i: nat :: i in e.t || i in e.f || i == |s.code| + 1 ==> i in e'.t || i in e'.f
    ensures Keeps(s, e, CondJump(s, test).0, e')
  {
    var ins := [test, Jmp(None)];
    var s' := Emit(s, ins);
    forall i: nat | Orphan(s', e', i) ensures Orphan(s, e, i) {
      if i < |s.code| {
        assert s'.code[i] == Discharged(s)[i];
        if i + 1 in s.jpc { assert Pend(s.code, i + 1); }
      }
    }
  }

  lemma PopKeeps(s: St, e: Exp)
    requires ExpOk(s, e) && e.k.KReloc?
    ensures Keeps(s, e, s.(code := s.code[..e.k.pc]), Plain(e))
  {
  }

  lemma JumpOnCondKeeps(s: St, e: Exp, cond: bool, e': Exp)
    requires ExpOk(s, e) && !e.k.KJmp? && !e.k.KLocal? && !e.k.KGlobal? && !e'.k.KJmp?
    requires var (s', j) := JumpOnCond(s, e, cond);
      forall i: nat :: i in e.t || i in e.f || i == j ==> i in e'.t || i in e'.f
    ensures Keeps(s, e, JumpOnCond(s, e, cond).0, e')
  {
    if e.k.KReloc? && s.code[e.k.pc].NotOp? {
      var s0 := s.(code := s.code[..e.k.pc]);
      PopKeeps(s, e);
      PopOk(s, e);
      CondJumpKeeps(s0, Plain(e), Test(s.code[e.k.pc].b, !cond), e');
    } else {
      TestKeeps(s, e);
      Discharge2AnyRegOk(s, e);
      var (s1, e1) := Discharge2AnyReg(s, e);
      CondJumpKeeps(FreeExp(s1, e1), Plain(e1), TestSet(None, e1.k.r, cond), e');
    }
  }

  /** The value tested, its register free again. */
  lemma TestKeeps(s: St, e: Exp)
    requires ExpOk(s, e) && !e.k.KJmp? && !e.k.KLocal? && !e.k.KGlobal?
    ensures var (s1, e1) := Discharge2AnyReg(s, e); Keeps(s, e, FreeExp(s1, e1), Plain(e1))
  {
    if !e.k.KReg? {
      var s0 := s.(free := s.free + 1);
      FreeChange(s, e, s.free + 1);
      Discharge2RegKeeps(s0, e, s.free);
      assert Keeps(s, e, s0, e);
    }
  }

  // ---------------------------------------------------------------- conditions

  lemma GoingKeeps(s: St, e: Exp, cond: bool)
    requires ExpOk(s, e) && InPlace(e)
    ensures var (s', e') := Going(s, e, cond); Keeps(s, e, s', Outer(Keep(e', cond), cond))
  {
    GoingLists(s, e, cond);
    if Never(e, cond) || e.k.KJmp? {
      UnmovedKeeps(s, e, cond);
    } else if Always(e, cond) {
      AlwaysKeeps(s, e, cond);
    } else {
      TestedKeeps(s, e, cond);
    }
  }

  lemma UnmovedKeeps(s: St, e: Exp, cond: bool)
    requires ExpOk(s, e) && InPlace(e) && (Never(e, cond) || e.k.KJmp?)
    ensures var (s', e') := Going(s, e, cond); Keeps(s, e, s', Outer(Keep(e', cond), cond))
  {
    GoingLists(s, e, cond);
    var (s', e') := Going(s, e, cond);
    forall i: nat | Held(s, e, i) || (e.k.KJmp? && e.k.j == i) ensures Held(s', Outer(Keep(e', cond), cond), i) {}
  }

  lemma AlwaysKeeps(s: St, e: Exp, cond: bool)
    requires ExpOk(s, e) && InPlace(e) && Always(e, cond)
    ensures var (s', e') := Going(s, e, cond); Keeps(s, e, s', Outer(Keep(e', cond), cond))
  {
    GoingLists(s, e, cond);
    var (s', e') := Going(s, e, cond);
    forall i: nat | Held(s, e, i) || i == |s.code| ensures Held(s', Outer(Keep(e', cond), cond), i) {}
  }

  lemma TestedKeeps(s: St, e: Exp, cond: bool)
    requires ExpOk(s, e) && InPlace(e) && !e.k.KJmp? && !Always(e, cond) && !Never(e, cond)
    ensures var (s', e') := Going(s, e, cond); Keeps(s, e, s', Outer(Keep(e', cond), cond))
  {
    GoingLists(s, e, cond);
    var (s', e') := Going(s, e, cond);
    var (s2, j) := JumpOnCond(s, e, cond);
    var w := Exp(KNil, Keep(e, cond) + [j], Keep(e, !cond));
    JumpOnCondKeeps(s, e, cond, w);
    forall i: nat | Held(s2, w, i) ensures Held(s', Outer(Keep(e', cond), cond), i) { JumpOnCondOk(s, e, cond); }
    assert s'.code == s2.code;
  }

  // ---------------------------------------------------------------- negation

  lemma NegateKeeps(s: St, e: Exp)
    requires ExpOk(s, e) && InPlace(e)
    ensures Keeps(s, e, Negated(s, e).0, Negated(s, e).1)
  {
    if e.k.KReloc? || e.k.KReg? {
      TestKeeps(s, e);
      Discharge2AnyRegOk(s, e);
      var (s1, e1) := Discharge2AnyReg(s, e);
      EmitKeeps(FreeExp(s1, e1), Plain(e1), [NotOp(0, e1.k.r)], Negated(s, e).1);
    } else {
      var (s', e') := Negated(s, e);
      forall i: nat | Orphan(s', e', i) ensures Orphan(s, e, i) {}
    }
  }

  lemma RemoveKeeps(s: St, e: Exp)
    requires ExpOk(s, e)
    ensures var s' := s.(code := RemoveValues(RemoveValues(s.code, e.t), e.f)); Keeps(s, e, s', Exp(e.k, e.f, e.t))
  {
    var s' := s.(code := RemoveValues(RemoveValues(s.code, e.t), e.f));
    forall i: nat | i < |s.code| && Owned(s, e, i) && Open(s'.code[i]) ensures Owned(s', Exp(e.k, e.f, e.t), i) {}
  }

  lemma CodeNotKeeps(s: St, e: Exp)
    requires ExpOk(s, e) && InPlace(e)
    ensures Keeps(s, e, CodeNot(s, e).0, CodeNot(s, e).1)
  {
    NegatedIs(s, e);
    NegatedOk(s, e);
    NegateKeeps(s, e);
    RemoveKeeps(Negated(s, e).0, Negated(s, e).1);
  }

  // ---------------------------------------------------------------- values in registers

  /** Code added behind, its open instructions in the list of pending jumps. */
  lemma AddedKeeps(s: St, e: Exp, s': St, e': Exp)
    requires |s.code| <= |s'.code| && s'.code[..|s.code|] == s.code
    requires forall i: nat :: |s.code| <= i < |s'.code| ==> !Open(s'.code[i]) || i in s'.jpc
    requires forall i: nat :: Held(s, e, i) || (e.k.KJmp? && e.k.j == i) ==> Held(s', e', i)
    ensures Keeps(s, e, s', e')
  {
    forall i: nat | Orphan(s', e', i) ensures Orphan(s, e, i) {
      assert s.code == s'.code[..|s.code|];
    }
  }

  lemma LoadTruthAdds(s: St, e: Exp, reg: nat, i: nat)
    requires (e.k.KJmp? ==> s.jpc == []) && |s.code| <= i < |LoadTruth(s, e, reg).0.code|
    ensures var s' := LoadTruth(s, e, reg).0; !Open(s'.code[i]) || i in s'.jpc
  {
    LoadTruthIs(s, e, reg);
    if e.k.KJmp? {
      AddedAt(s.code, [LoadBool(reg, false, true), LoadBool(reg, true, false)], i);
    } else {
      AddedAt(s.code, [Jmp(None), LoadBool(reg, false, true), LoadBool(reg, true, false)], i);
    }
  }

  lemma AddedAt(c: seq<Instr>, d: seq<Instr>, i: nat)
    requires |c| <= i < |c| + |d| && |d| <= 3 && forall k: nat :: k < |d| ==> !Open(d[k]) || k == 0
    ensures (c + d)[i] == d[i - |c|] && (i > |c| ==> !Open((c + d)[i]))
  {
  }

  lemma LoadTruthKeeps(s: St, e: Exp, reg: nat)
    requires e.k.KJmp? ==> s.jpc == [] && e.k.j in e.t
    ensures Keeps(s, e, LoadTruth(s, e, reg).0, Exp(KNil, e.t, e.f))
  {
    LoadTruthIs(s, e, reg);
    var s' := LoadTruth(s, e, reg).0;
    var l := Exp(KNil, e.t, e.f);
    forall i: nat | |s.code| <= i < |s'.code|
        ensures !Open(s'.code[i]) || i in s'.jpc { LoadTruthAdds(s, e, reg, i); }
    forall i: nat | Held(s, e, i) || (e.k.KJmp? && e.k.j == i) ensures Held(s', l, i) {}
    assert s'.code[..|s.code|] == s.code;
    AddedKeeps(s, e, s', l);
  }

  lemma JoinKeeps(s: St, e: Exp)
    ensures e.k.KJmp? ==> Keeps(s, e, s, e.(t := e.t + [e.k.j]))
    ensures Keeps(s, e, s, Joined(e))
  {
    forall i: nat | Held(s, e, i) || (e.k.KJmp? && e.k.j == i) ensures Held(s, Joined(e), i) {}
  }

  lemma LoadedKeeps(s: St, e: Exp, reg: nat)
    requires ExpOk(s, e) && (EndPc(s, e) == |s.code| || e.k.KJmp?)
    ensures Keeps(s, e, Loaded(s, e, reg).0, Joined(e))
  {
    var e' := if e.k.KJmp? then e.(t := e.t + [e.k.j]) else e;
    assert Joined(e) == Exp(KNil, e'.t, e'.f);
    JoinKeeps(s, e);
    LoadTruthKeeps(s, e', reg);
  }

  /** What a list decides is not open any more. */
  lemma PatchedOpen(c: seq<Instr>, l: seq<nat>, vtarget: nat, reg: Option<nat>, dtarget: nat, i: nat)
    requires i < |c|
    ensures var c' := PatchList(c, l, vtarget, reg, dtarget);
      Open(c'[i]) ==> c'[i] == c[i] && i !in l && !(i + 1 in l && c[i].TestSet?)
  {
  }

  lemma PatchedHeld(s: St, e: Exp, l: seq<nat>, vtarget: nat, reg: Option<nat>, dtarget: nat, i: nat)
    requires ExpOk(s, e) && e.k.KNil? && (l == e.f || l == e.t)
    requires var s' := s.(code := PatchList(s.code, l, vtarget, reg, dtarget));
      Orphan(s', if l == e.f then e.(f := []) else e.(t := []), i)
    ensures Orphan(s, e, i)
  {
    PatchedOpen(s.code, l, vtarget, reg, dtarget, i);
  }

  lemma PatchKeepsHeld(s: St, e: Exp, l: seq<nat>, vtarget: nat, reg: Option<nat>, dtarget: nat)
    requires ExpOk(s, e) && e.k.KNil? && (l == e.f || l == e.t)
    ensures var s' := s.(code := PatchList(s.code, l, vtarget, reg, dtarget));
      Keeps(s, e, s', if l == e.f then e.(f := []) else e.(t := []))
  {
    var s' := s.(code := PatchList(s.code, l, vtarget, reg, dtarget));
    var e' := if l == e.f then e.(f := []) else e.(t := []);
    forall i: nat | Orphan(s', e', i) ensures Orphan(s, e, i) {
      PatchedHeld(s, e, l, vtarget, reg, dtarget, i);
    }
  }

  lemma FinishedKeeps(s: St, e: Exp, reg: nat)
    requires ExpOk(s, e) && (EndPc(s, e) == |s.code| || e.k.KJmp?)
    ensures Keeps(s, e, Finished(s, e, reg), NoExp)
  {
    if e.k.KJmp? || HasJumps(e) {
      LoadedKeeps(s, e, reg);
      LoadedOk(s, e, reg);
      var (s2, pf, pt) := Loaded(s, e, reg);
      var j := Joined(e);
      var m := |s2.code|;
      PatchKeepsHeld(s2, j, j.f, m, Some(reg), pf);
      PatchOneOk(s2, j, j.f, m, Some(reg), pf);
      var s3 := s2.(code := PatchList(s2.code, j.f, m, Some(reg), pf));
      PatchKeepsHeld(s3, j.(f := []), j.t, m, Some(reg), pt);
      KeepsTrans(s, e, s2, j, s3, j.(f := []));
    }
  }

  lemma Exp2RegKeeps(s: St, e: Exp, reg: nat)
    requires ExpOk(s, e) && InPlace(e)
    ensures Keeps(s, e, Exp2Reg(s, e, reg).0, NoExp)
  {
    Exp2RegIs(s, e, reg);
    Discharge2RegOk(s, e, reg);
    Discharge2RegKeeps(s, e, reg);
    var (s1, e1) := Discharge2Reg(s, e, reg);
    if e1.k.KJmp? {
      FinishedKeeps(s1, e1, reg);
    } else {
      FinishedPlain(s1, e1, reg);
      FinishedKeeps(s1, Plain(e1), reg);
    }
  }

  lemma OperandKeeps(s: St, e: Exp)
    requires ExpOk(s, e)
    ensures Keeps(s, e, Exp2RK(s, e).0, NoExp)
  {
    OperandIs(s, e);
    DischargeVarsOk(s, e);
    DischargeVarsKeeps(s, e);
    var (s1, e1) := DischargeVars(s, e);
    if Moves(e1) { FreshKeeps(s1, e1); }
  }

  lemma FreshKeeps(s: St, e: Exp)
    requires ExpOk(s, e) && InPlace(e)
    ensures Keeps(s, e, Exp2NextReg(s, e).0, NoExp) == true
  {
    FreshIs(s, e);
    FreeChange(s, e, s.free + 1);
    var s0 := s.(free := s.free + 1);
    Exp2RegKeeps(s0, e, s.free);
    assert Keeps(s, e, s0, e);
  }

  // ---------------------------------------------------------------- whole expressions

  lemma OuterKeeps(s: St, keep: seq<nat>, cond: bool, s': St, e': Exp)
    requires Keeps(s, NoExp, s', e') && Grows(s, NoExp, s', e')
    ensures Keeps(s, Outer(keep, cond), s', Merged(e', keep, cond))
  {
    forall i: nat | Orphan(s', Merged(e', keep, cond), i) ensures Orphan(s, Outer(keep, cond), i) {
      assert Orphan(s', e', i);
      assert Orphan(s, NoExp, i);
      assert Settles(s.code[i], s'.code[i]);
      assert Held(s', Merged(e', keep, cond), i) <==> Held(s', e', i) || i in keep;
    }
  }

  lemma ComparedKeeps(s4: St, e4: Exp, e2: Exp, op: CompareOp, x: RK, y: RK)
    requires StOk(s4)
    ensures var (s', e') := Compared(s4, e4, e2, op, x, y); Keeps(s4, NoExp, s', e')
  {
    var ins := [CompareInstr(op, x, y), Jmp(None)];
    var (s', e') := Compared(s4, e4, e2, op, x, y);
    assert s'.code == Emit(s4, ins).code;
    EmitKeeps(s4, NoExp, ins, e');
  }

  /** Compiling an expression leaves open only what its lists hold. */
  lemma {:induction false} CompileKeeps(s: St, e: Expr)
    requires StOk(s) && Scoped(e, s.nact)
    ensures var (s', e') := Compile(s, e); Keeps(s, NoExp, s', e')
    decreases e, 1
  {
    match e {
      case ENot(a) =>
        CompileKeeps(s, a);
        BranchIs(s, a, true);
        var r := Compile(s, a);
        InPlaceTwice(r.0, r.1);
        DischargeVarsKeeps(r.0, r.1);
        CodeNotKeeps(InPlaceOf(r).0, InPlaceOf(r).1);
      case EAnd(a, b) => ConnectKeeps(s, a, b, false);
      case EOr(a, b) => ConnectKeeps(s, a, b, true);
      case ECmp(op, a, b) => CompareKeeps(s, op, a, b);
      case _ =>
    }
  }

  lemma {:induction false} ConnectKeeps(s: St, a: Expr, b: Expr, cond: bool)
    requires StOk(s) && Scoped(a, s.nact) && Scoped(b, s.nact)
    ensures var (s', e') := Compile(s, Connective(cond, a, b)); Keeps(s, NoExp, s', e')
    decreases Connective(cond, a, b), 0
  {
    CompileKeeps(s, a);
    BranchIs(s, a, cond);
    ConnectIs(s, a, b, cond);
    var r := Compile(s, a);
    var d := InPlaceOf(r);
    DischargeVarsKeeps(r.0, r.1);
    GoingKeeps(d.0, d.1, cond);
    var (s2, e2) := Branch(r, cond);
    var keep := Keep(e2, cond);
    SecondKeeps(s2, b);
    SecondOk(s2, b);
    var (s4, e4) := InPlaceOf(Compile(s2, b));
    OuterKeeps(s2, keep, cond, s4, e4);
    KeepsTrans(s, NoExp, d.0, d.1, s2, Outer(keep, cond));
    KeepsTrans(s, NoExp, s2, Outer(keep, cond), s4, Merged(e4, keep, cond));
  }

  lemma {:induction false} SecondKeeps(s2: St, b: Expr)
    requires StOk(s2) && Scoped(b, s2.nact)
    ensures var (s4, e4) := InPlaceOf(Compile(s2, b)); Keeps(s2, NoExp, s4, e4)
    decreases b, 2
  {
    CompileKeeps(s2, b);
    SecondOk(s2, b);
    var r3 := Compile(s2, b);
    DischargeVarsKeeps(r3.0, r3.1);
  }

  lemma {:induction false} OperandPartKeeps(s: St, a: Expr)
    requires StOk(s) && Scoped(a, s.nact)
    ensures Keeps(s, NoExp, AsOperand(Compile(s, a)).0, NoExp)
    decreases a, 2
  {
    CompileKeeps(s, a);
    OperandParts(s, a);
    var r := Compile(s, a);
    OperandKeeps(r.0, r.1);
  }

  lemma {:induction false} CompareKeeps(s: St, op: CompareOp, a: Expr, b: Expr)
    requires StOk(s) && Scoped(a, s.nact) && Scoped(b, s.nact)
    ensures var (s', e') := Compile(s, ECmp(op, a, b)); Keeps(s, NoExp, s', e')
    decreases ECmp(op, a, b), 0
  {
    CompareIs(s, op, a, b);
    OperandPartKeeps(s, a);
    OperandParts(s, a);
    var (s2, e2, x) := AsOperand(Compile(s, a));
    OperandPartKeeps(s2, b);
    OperandParts(s2, b);
    var (s4, e4, y) := AsOperand(Compile(s2, b));
    ComparedKeeps(s4, e4, e2, op, x, y);
    var (s', e') := Compared(s4, e4, e2, op, x, y);
    KeepsTrans(s, NoExp, s2, NoExp, s4, NoExp);
    KeepsTrans(s, NoExp, s4, NoExp, s', e');
  }
}
