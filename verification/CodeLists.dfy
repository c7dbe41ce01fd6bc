/**
  What every step of the generator keeps: pending jumps are distinct jumps
  without target, each in one list, and only the step that discharges a list
  touches them.
 */
module CodeLists {
  import opened Common
  import opened CodeModel

  /** A jump that waits for its target; a TestSet before it waits for its register. */
  predicate Pend(code: seq<Instr>, i: nat) {
    && i < |code| && code[i] == Jmp(None)
    && (i >= 1 && code[i - 1].TestSet? ==> code[i - 1].set_a.None?)
  }

  /** The generator is between instructions. */
  ghost predicate StOk(s: St) {
    && (forall i :: i in s.jpc ==> Pend(s.code, i))
    && Distinct(s.jpc)
    && (|s.code| > 0 ==> !IsTest(s.code[|s.code| - 1]))
    && s.nact <= s.free
  }

  /** Where the code that is settled ends: before an instruction whose register
      or condition is still open. */
  function EndPc(s: St, e: Exp): nat {
    match e.k
    case KReloc(p) => p
    case KJmp(j) => if j > 0 then j - 1 else 0
    case _ => |s.code|
  }

  predicate KindOk(s: St, k: Kind) {
    match k
    case KReloc(p) =>
      && p + 1 == |s.code| && (s.code[p].NotOp? || s.code[p].GetGlobal?) && s.jpc == []
      && (p > 0 ==> !IsTest(s.code[p - 1]))
    case KJmp(j) =>
      && 1 <= j && j + 1 == |s.code| && s.code[j] == Jmp(None) && s.code[j - 1].Compare? && s.jpc == []
      && (j > 1 ==> !IsTest(s.code[j - 2]))
    case KConst(v) => Truthy(v)
    case KLocal(r) => r < s.nact
    case KReg(r) => r < s.nact
    case _ => true
  }

  /** Three lists of distinct jumps with none in common. */
  ghost predicate Apart(a: seq<nat>, b: seq<nat>, c: seq<nat>) {
    && Distinct(a) && Distinct(b) && Distinct(c)
    && (forall i :: i in a ==> i !in b && i !in c)
    && (forall i :: i in b ==> i !in c)
  }

  ghost predicate ExpOk(s: St, e: Exp) {
    && StOk(s)
    && KindOk(s, e.k)
    && (forall i :: i in e.t || i in e.f ==> Pend(s.code, i) && i < EndPc(s, e))
    && Apart(s.jpc, e.t, e.f)
  }

  // ---------------------------------------------------------------- what changes

  /** The lists alive in a state with an expression. */
  predicate Held(s: St, e: Exp, i: nat) {
    i in s.jpc || i in e.t || i in e.f
  }

  /** How an instruction may change once it has been emitted: a waiting jump
      gets a target, a TestSet gets its register or becomes a Test. */
  predicate Settles(i: Instr, c: Instr) {
    match i
    case Jmp(None) => c.Jmp?
    case TestSet(None, b, k) => c == Test(b, k) || (c.TestSet? && c.b == b && c.c == k)
    case _ => c == i
  }

  /** No live list has a say in this instruction. */
  predicate Loose(s: St, e: Exp, i: nat) {
    i < |s.code| && !Held(s, e, i) && !(Held(s, e, i + 1) && s.code[i].TestSet?)
  }

  /** From `(s, e)` to `(s', e')`: code was added, and what was settled changed
      only where a live list allows it; the lists of the result hold new jumps
      and jumps that were alive. */
  ghost predicate Grows(s: St, e: Exp, s': St, e': Exp) {
    && EndPc(s, e) <= EndPc(s', e') && EndPc(s, e) <= |s.code| && EndPc(s', e') <= |s'.code|
    && (forall i: nat :: i < EndPc(s, e) && Loose(s, e, i) ==> s'.code[i] == s.code[i])
    && (forall i: nat :: i < EndPc(s, e) ==> Settles(s.code[i], s'.code[i]))
    && (forall i: nat :: Held(s', e', i) ==> Held(s, e, i) || i >= EndPc(s, e))
    && s'.nact == s.nact
  }

  lemma GrowsTrans(s: St, e: Exp, s1: St, e1: Exp, s2: St, e2: Exp)
    requires ExpOk(s, e) && Grows(s, e, s1, e1) && Grows(s1, e1, s2, e2)
    ensures Grows(s, e, s2, e2)
  {
    forall i: nat | i < EndPc(s, e) && Loose(s, e, i)
      ensures s2.code[i] == s.code[i]
    {
      assert s1.code[i] == s.code[i];
      assert Loose(s1, e1, i);
    }
    forall i: nat | i < EndPc(s, e) ensures Settles(s.code[i], s2.code[i]) {
      assert Settles(s.code[i], s1.code[i]) && Settles(s1.code[i], s2.code[i]);
    }
  }

  /** An expression without lists, whose code ends where the state's does. */
  const NoExp := Exp(KNil, [], [])

  // ---------------------------------------------------------------- emitting

  /** What patching does to one instruction. */
  lemma PatchedInstr(c: seq<Instr>, l: seq<nat>, vtarget: nat, reg: Option<nat>, dtarget: nat, i: nat)
    requires i < |c| && forall j :: j in l ==> Pend(c, j)
    ensures var c' := PatchList(c, l, vtarget, reg, dtarget);
      && Settles(c[i], c'[i])
      && (i !in l && (i + 1 !in l || !c[i].TestSet?) ==> c'[i] == c[i])
  {
    if i in l { assert Pend(c, i); }
    if i + 1 in l { assert Pend(c, i + 1); }
  }

  lemma EmitPend(s: St, e: Exp, ins: seq<Instr>, i: nat)
    requires ExpOk(s, e) && (i in e.t || i in e.f)
    ensures Pend(Emit(s, ins).code, i)
  {
    var c := Emit(s, ins).code;
    assert Pend(s.code, i);
    assert c[i] == Discharged(s)[i];
    if i >= 1 { assert c[i - 1] == Discharged(s)[i - 1]; }
  }

  lemma EmitGrows(s: St, e: Exp, ins: seq<Instr>, e': Exp)
    requires ExpOk(s, e) && EndPc(s, e) == |s.code| && e'.t == e.t && e'.f == e.f
        && |s.code| <= EndPc(Emit(s, ins), e') <= |Emit(s, ins).code|
    ensures Grows(s, e, Emit(s, ins), e')
  {
    var c := Emit(s, ins).code;
    forall i: nat | i < |s.code| ensures Settles(s.code[i], c[i]) && (Loose(s, e, i) ==> c[i] == s.code[i]) {
      assert c[i] == Discharged(s)[i];
      PatchedInstr(s.code, s.jpc, |s.code|, None, |s.code|, i);
    }
  }

  lemma EmitOk(s: St, e: Exp, ins: seq<Instr>, e': Exp)
    requires ExpOk(s, e) && EndPc(s, e) == |s.code| && ins != []
    requires e'.t == e.t && e'.f == e.f
    requires !IsTest(ins[|ins| - 1])
    requires KindOk(Emit(s, ins), e'.k) && EndPc(Emit(s, ins), e') >= |s.code|
    ensures ExpOk(Emit(s, ins), e') && Grows(s, e, Emit(s, ins), e')
    ensures forall k :: 0 <= k < |ins| ==> Emit(s, ins).code[|s.code| + k] == ins[k]
  {
    var s' := Emit(s, ins);
    forall i | i in e.t || i in e.f ensures Pend(s'.code, i) && i < |s.code| {
      EmitPend(s, e, ins, i);
      assert Pend(s.code, i);
    }
    EmitGrows(s, e, ins, e');
  }

  // ---------------------------------------------------------------- one step at a time

  function Plain(e: Exp): Exp {
    e.(k := KNil)
  }

  lemma GlobalOk(s: St, e: Exp, n: int)
    requires ExpOk(s, e) && e.k == KGlobal(n)
    ensures var s' := Emit(s, [GetGlobal(0, n)]); var e' := e.(k := KReloc(|s.code|));
        ExpOk(s', e') && Grows(s, e, s', e')
  {
    var s' := Emit(s, [GetGlobal(0, n)]);
    assert s'.code[|s.code|] == GetGlobal(0, n);
    assert |s.code| > 0 ==> s'.code[|s.code| - 1] == Discharged(s)[|s.code| - 1];
    EmitOk(s, e, [GetGlobal(0, n)], e.(k := KReloc(|s.code|)));
  }

  lemma DischargeVarsOk(s: St, e: Exp)
    requires ExpOk(s, e)
    ensures var (s', e') := DischargeVars(s, e);
      ExpOk(s', e') && Grows(s, e, s', e') && !e'.k.KLocal? && !e'.k.KGlobal? && e'.t == e.t && e'.f == e.f
          && s'.free == s.free
  {
    if e.k.KGlobal? { GlobalOk(s, e, e.k.name); }
  }

  lemma EmitPlainOk(s: St, e: Exp, i: Instr)
    requires ExpOk(s, e) && EndPc(s, e) == |s.code| && !IsTest(i)
    ensures ExpOk(Emit(s, [i]), Plain(e)) && Grows(s, e, Emit(s, [i]), Plain(e))
    ensures Emit(s, [i]).code[|s.code|] == i && |Emit(s, [i]).code| == |s.code| + 1
  {
    EmitOk(s, e, [i], Plain(e));
    assert Emit(s, [i]).code[|s.code| + 0] == i;
  }

  lemma RelocateOk(s: St, e: Exp, reg: nat)
    requires ExpOk(s, e) && e.k.KReloc?
    ensures var s' := s.(code := s.code[e.k.pc := SetA(s.code[e.k.pc], reg)]);
      ExpOk(s', Plain(e)) && Grows(s, e, s', Plain(e))
  {
    var s' := s.(code := s.code[e.k.pc := SetA(s.code[e.k.pc], reg)]);
    forall i | i in e.t || i in e.f ensures Pend(s'.code, i) { assert Pend(s.code, i); }
  }

  /** The load of a constant. */
  function LoadOf(k: Kind, reg: nat): Instr {
    match k
    case KTrue => LoadBool(reg, true, false)
    case KFalse => LoadBool(reg, false, false)
    case KConst(v) => LoadK(reg, v)
    case _ => LoadNil(reg)
  }

  /** A value in play brought to a register. */
  lemma BringOk(s: St, e: Exp, reg: nat)
    requires ExpOk(s, e) && !e.k.KLocal? && !e.k.KGlobal? && !e.k.KJmp?
    ensures var (s', e') := Discharge2Reg(s, e, reg);
      && e' == e.(k := KReg(reg)) && s'.free == s.free
      && ExpOk(s', Plain(e')) && Grows(s, e, s', Plain(e'))
  {
    if e.k.KReloc? {
      RelocateOk(s, e, reg);
    } else if e.k.KReg? {
      if e.k.r != reg { EmitPlainOk(s, e, Move(reg, e.k.r)); } else { PlainSame(s, e); }
    } else {
      EmitPlainOk(s, e, LoadOf(e.k, reg));
    }
  }

  lemma PlainSame(s: St, e: Exp)
    requires ExpOk(s, e) && e.k.KReg?
    ensures ExpOk(s, Plain(e)) && Grows(s, e, s, Plain(e))
  {
  }

  lemma Discharge2RegIn(s: St, e: Exp, reg: nat)
    ensures var d := DischargeVars(s, e);
        DischargeVars(d.0, d.1) == d && Discharge2Reg(s, e, reg) == Discharge2Reg(d.0, d.1, reg)
  {
    var d := DischargeVars(s, e);
    assert DischargeVars(d.0, d.1) == d;
  }

  /** An expression brought to a register is settled, unless it is a comparison. */
  lemma Discharge2RegOk(s: St, e: Exp, reg: nat)
    requires ExpOk(s, e)
    ensures var (s', e') := Discharge2Reg(s, e, reg);
      && e'.t == e.t && e'.f == e.f && s'.free == s.free
      && (if e.k.KJmp? then s' == s && e' == e
          else e'.k == KReg(reg) && ExpOk(s', Plain(e')) && Grows(s, e, s', Plain(e')))
  {
    DischargeVarsOk(s, e);
    var (s1, e1) := DischargeVars(s, e);
    Discharge2RegIn(s, e, reg);
    if !e.k.KJmp? {
      BringOk(s1, e1, reg);
      var (s2, e2) := Discharge2Reg(s1, e1, reg);
      GrowsTrans(s, e, s1, e1, s2, Plain(e2));
    }
  }

  lemma FreeChange(s: St, e: Exp, n: nat)
    requires ExpOk(s, e) && n >= s.nact
    ensures ExpOk(s.(free := n), e) && Grows(s, e, s.(free := n), e)
  {
  }

  /** The register an expression is tested in is temporary, or a local variable. */
  lemma Discharge2AnyRegOk(s: St, e: Exp)
    requires ExpOk(s, e) && !e.k.KJmp? && !e.k.KLocal? && !e.k.KGlobal?
    ensures var (s1, e1) := Discharge2AnyReg(s, e);
      && e1.t == e.t && e1.f == e.f && e1.k.KReg?
      && (e1.k.r == s.free || (e.k.KReg? && e1.k.r == e.k.r))
      && ExpOk(FreeExp(s1, e1), Plain(e1)) && Grows(s, e, FreeExp(s1, e1), Plain(e1))
      && FreeExp(s1, e1).free == s.free && FreeExp(s1, e1).code == s1.code && FreeExp(s1, e1).jpc == s1.jpc
      && FreeExp(s1, e1).nact == s.nact && OnTop(s1, e1)
  {
    if !e.k.KReg? {
      var s0 := s.(free := s.free + 1);
      FreeChange(s, e, s.free + 1);
      Discharge2RegOk(s0, e, s.free);
      var (s1, e1) := Discharge2Reg(s0, e, s.free);
      FreeChange(s1, Plain(e1), s.free);
    }
  }

  /** A test with its jump, the jump joining the lists of the expression. */
  lemma CondJumpOk(s: St, e: Exp, test: Instr)
    requires ExpOk(s, e) && EndPc(s, e) == |s.code| && IsTest(test) && (test.TestSet? ==> test.set_a.None?)
    ensures var (s', j) := CondJump(s, test);
      && j == |s.code| + 1 && |s'.code| == j + 1 && s'.code[j] == Jmp(None) && s'.code[j - 1] == test && s'.jpc == []
      && s'.free == s.free
      && ExpOk(s', Plain(e)) && Grows(s, e, s', Plain(e)) && Pend(s'.code, j) && j !in e.t && j !in e.f
  {
    EmitOk(s, e, [test, Jmp(None)], Plain(e));
    var s' := Emit(s, [test, Jmp(None)]);
    assert s'.code[|s.code| + 0] == test && s'.code[|s.code| + 1] == Jmp(None);
  }

  /** Taking back a negation that nothing can jump past. */
  lemma PopOk(s: St, e: Exp)
    requires ExpOk(s, e) && e.k.KReloc?
    ensures var s' := s.(code := s.code[..e.k.pc]); ExpOk(s', Plain(e)) && Grows(s, e, s', Plain(e))
  {
    var s' := s.(code := s.code[..e.k.pc]);
    forall i | i in e.t || i in e.f ensures Pend(s'.code, i) { assert Pend(s.code, i); }
  }

  lemma InvertOk(s: St, e: Exp)
    requires ExpOk(s, e) && e.k.KJmp?
    ensures ExpOk(InvertJump(s, e.k.j), e) && Grows(s, e, InvertJump(s, e.k.j), e)
    ensures |InvertJump(s, e.k.j).code| == |s.code| && InvertJump(s, e.k.j).jpc == s.jpc
        && InvertJump(s, e.k.j).free == s.free
  {
    var s' := InvertJump(s, e.k.j);
    forall i | i in e.t || i in e.f ensures Pend(s'.code, i) { assert Pend(s.code, i); }
  }

  lemma JumpOnCondOk(s: St, e: Exp, cond: bool)
    requires ExpOk(s, e) && !e.k.KJmp? && !e.k.KLocal? && !e.k.KGlobal?
    ensures var (s', j) := JumpOnCond(s, e, cond);
      && j + 1 == |s'.code| && j >= EndPc(s, e) && s'.jpc == [] && s'.free == s.free
      && ExpOk(s', Plain(e)) && Grows(s, e, s', Plain(e)) && Pend(s'.code, j) && j !in e.t && j !in e.f
  {
    if e.k.KReloc? && s.code[e.k.pc].NotOp? {
      var s0 := s.(code := s.code[..e.k.pc]);
      PopOk(s, e);
      var test := Test(s.code[e.k.pc].b, !cond);
      CondJumpOk(s0, Plain(e), test);
      GrowsTrans(s, e, s0, Plain(e), CondJump(s0, test).0, Plain(e));
    } else {
      Discharge2AnyRegOk(s, e);
      var (s1, e1) := Discharge2AnyReg(s, e);
      var test := TestSet(None, e1.k.r, cond);
      var s2 := FreeExp(s1, e1);
      CondJumpOk(s2, Plain(e1), test);
      GrowsTrans(s, e, s2, Plain(e1), CondJump(s2, test).0, Plain(e1));
    }
  }

  /** The end of `goiftrue`: the exit joins one list, the other list is directed
      to what comes next. */
  lemma GoEndOk(s: St, e: Exp, s2: St, keep: seq<nat>, here: seq<nat>, l: seq<nat>)
    requires ExpOk(s, e)
    requires (keep == e.f && here == e.t) || (keep == e.t && here == e.f)
    requires StOk(s2) && s2.nact == s.nact && |s2.code| >= EndPc(s, e)
    requires forall i :: i in keep || i in here ==> Pend(s2.code, i)
    requires forall i :: i in l ==>
        Pend(s2.code, i) && i !in keep && i !in here && i !in s2.jpc && (i in s.jpc || i >= EndPc(s, e))
    requires Distinct(l)
    requires forall i :: i in s2.jpc ==> i in s.jpc
    requires forall i: nat :: i < EndPc(s, e) && Loose(s, e, i) ==> s2.code[i] == s.code[i]
    requires forall i: nat :: i < EndPc(s, e) ==> Settles(s.code[i], s2.code[i])
    ensures var s3 := PatchToHere(s2, here);
      ExpOk(s3, Exp(KNil, [], keep + l)) && ExpOk(s3, Exp(KNil, keep + l, []))
      && Grows(s, e, s3, Exp(KNil, [], keep + l)) && Grows(s, e, s3, Exp(KNil, keep + l, []))
  {
    DistinctAppend(keep, l);
    DistinctAppend(s2.jpc, here);
  }

  lemma GoIfTrueOpenOk(s: St, e: Exp)
    requires ExpOk(s, e) && (e.k.KJmp? || e.k.KNil? || e.k.KReloc? || e.k.KReg?)
    ensures var (s', e') := GoIfTrue(s, e);
      ExpOk(s', Exp(KNil, [], e'.f)) && Grows(s, e, s', Exp(KNil, [], e'.f)) && s'.free == s.free && e'.t == []
  {
    if e.k.KJmp? {
      InvertOk(s, e);
      assert Pend(InvertJump(s, e.k.j).code, e.k.j);
      GoEndOk(s, e, InvertJump(s, e.k.j), e.f, e.t, [e.k.j]);
    } else {
      JumpOnCondOk(s, e, false);
      var (s2, j) := JumpOnCond(s, e, false);
      GoEndOk(s, e, s2, e.f, e.t, [j]);
    }
  }

  lemma GoIfTrueSettledOk(s: St, e: Exp)
    requires ExpOk(s, e) && !e.k.KLocal? && !e.k.KGlobal?
    ensures var (s', e') := GoIfTrue(s, e);
      ExpOk(s', Exp(KNil, [], e'.f)) && Grows(s, e, s', Exp(KNil, [], e'.f)) && s'.free == s.free && e'.t == []
  {
    match e.k {
      case KConst(_) => GoEndOk(s, e, s, e.f, e.t, []);
      case KTrue => GoEndOk(s, e, s, e.f, e.t, []);
      case KFalse => JumpEndOk(s, e, e.f, e.t);
      case _ => GoIfTrueOpenOk(s, e);
    }
  }

  lemma GoIfTrueOk(s: St, e: Exp)
    requires ExpOk(s, e)
    ensures var (s', e') := GoIfTrue(s, e);
      ExpOk(s', Exp(KNil, [], e'.f)) && Grows(s, e, s', Exp(KNil, [], e'.f)) && s'.free == s.free && e'.t == []
  {
    DischargeVarsOk(s, e);
    var (s1, e1) := DischargeVars(s, e);
    GoIfTrueSettledOk(s1, e1);
    GrowsTrans(s, e, s1, e1, GoIfTrue(s, e).0, Exp(KNil, [], GoIfTrue(s, e).1.f));
  }

  lemma JumpEndOk(s: St, e: Exp, keep: seq<nat>, here: seq<nat>)
    requires ExpOk(s, e) && EndPc(s, e) == |s.code|
    requires (keep == e.f && here == e.t) || (keep == e.t && here == e.f)
    ensures var (s2, l) := Jump(s); var s3 := PatchToHere(s2, here);
      ExpOk(s3, Exp(KNil, [], keep + l)) && ExpOk(s3, Exp(KNil, keep + l, []))
      && Grows(s, e, s3, Exp(KNil, [], keep + l)) && Grows(s, e, s3, Exp(KNil, keep + l, []))
  {
    var (s2, l) := Jump(s);
    DistinctAppend([|s.code|], s.jpc);
    forall i | i in s.jpc || i in e.t || i in e.f ensures Pend(s2.code, i) { assert Pend(s.code, i); }
    GoEndOk(s, e, s2, keep, here, l);
  }

  lemma GoIfFalseOpenOk(s: St, e: Exp)
    requires ExpOk(s, e) && (e.k.KJmp? || e.k.KConst? || e.k.KReloc? || e.k.KReg?)
    ensures var (s', e') := GoIfFalse(s, e);
      ExpOk(s', Exp(KNil, e'.t, [])) && Grows(s, e, s', Exp(KNil, e'.t, [])) && s'.free == s.free && e'.f == []
  {
    if e.k.KJmp? {
      assert Pend(s.code, e.k.j);
      GoEndOk(s, e, s, e.t, e.f, [e.k.j]);
    } else {
      JumpOnCondOk(s, e, true);
      var (s2, j) := JumpOnCond(s, e, true);
      GoEndOk(s, e, s2, e.t, e.f, [j]);
    }
  }

  lemma GoIfFalseSettledOk(s: St, e: Exp)
    requires ExpOk(s, e) && !e.k.KLocal? && !e.k.KGlobal?
    ensures var (s', e') := GoIfFalse(s, e);
      ExpOk(s', Exp(KNil, e'.t, [])) && Grows(s, e, s', Exp(KNil, e'.t, [])) && s'.free == s.free && e'.f == []
  {
    match e.k {
      case KNil => GoEndOk(s, e, s, e.t, e.f, []);
      case KFalse => GoEndOk(s, e, s, e.t, e.f, []);
      case KTrue => JumpEndOk(s, e, e.t, e.f);
      case _ => GoIfFalseOpenOk(s, e);
    }
  }

  lemma GoIfFalseOk(s: St, e: Exp)
    requires ExpOk(s, e)
    ensures var (s', e') := GoIfFalse(s, e);
      ExpOk(s', Exp(KNil, e'.t, [])) && Grows(s, e, s', Exp(KNil, e'.t, [])) && s'.free == s.free && e'.f == []
  {
    DischargeVarsOk(s, e);
    var (s1, e1) := DischargeVars(s, e);
    GoIfFalseSettledOk(s1, e1);
    GrowsTrans(s, e, s1, e1, GoIfFalse(s, e).0, Exp(KNil, GoIfFalse(s, e).1.t, []));
  }

  // ---------------------------------------------------------------- negation

  /** What happens to one instruction when the values of two lists are removed. */
  lemma RemovedAt(c: seq<Instr>, l: seq<nat>, m: seq<nat>, i: nat)
    requires i < |c|
    ensures var c' := RemoveValues(RemoveValues(c, l), m);
      c'[i] == if (i + 1 in l || i + 1 in m) && c[i].TestSet? then Test(c[i].b, c[i].c) else c[i]
  {
  }

  lemma RemovedPend(s: St, e: Exp, i: nat)
    requires ExpOk(s, e) && Held(s, e, i)
    ensures Pend(RemoveValues(RemoveValues(s.code, e.t), e.f), i)
  {
    assert Pend(s.code, i);
    RemovedAt(s.code, e.t, e.f, i);
    if i >= 1 { RemovedAt(s.code, e.t, e.f, i - 1); }
  }

  lemma RemovedGrows(s: St, e: Exp)
    requires ExpOk(s, e)
    ensures Grows(s, e, s.(code := RemoveValues(RemoveValues(s.code, e.t), e.f)), Exp(e.k, e.f, e.t))
  {
    var s' := s.(code := RemoveValues(RemoveValues(s.code, e.t), e.f));
    forall i: nat | i < EndPc(s, e)
        ensures Settles(s.code[i], s'.code[i]) && (Loose(s, e, i) ==> s'.code[i] == s.code[i]) {
      RemovedAt(s.code, e.t, e.f, i);
    }
  }

  lemma RemovedKind(s: St, e: Exp)
    requires ExpOk(s, e)
    ensures var s' := s.(code := RemoveValues(RemoveValues(s.code, e.t), e.f)); KindOk(s', e.k)
    ensures var c' := RemoveValues(RemoveValues(s.code, e.t), e.f); |c'| > 0 ==> !IsTest(c'[|c'| - 1])
  {
  }

  lemma RemoveValuesOk(s: St, e: Exp)
    requires ExpOk(s, e)
    ensures var s' := s.(code := RemoveValues(RemoveValues(s.code, e.t), e.f)); var e' := Exp(e.k, e.f, e.t);
      ExpOk(s', e') && Grows(s, e, s', e')
  {
    RemovedGrows(s, e);
    RemovedKind(s, e);
    forall i: nat | Held(s, e, i)
        ensures Pend(RemoveValues(RemoveValues(s.code, e.t), e.f), i) { RemovedPend(s, e, i); }
  }

  lemma KindOnly(s: St, e: Exp, k: Kind)
    requires ExpOk(s, e) && EndPc(s, e) == |s.code| && EndPc(s, e.(k := k)) == |s.code| && KindOk(s, k)
    ensures ExpOk(s, e.(k := k)) && Grows(s, e, s, e.(k := k))
  {
  }

  /** The part of `codenot` before the lists are exchanged. */
  function Negated(s: St, e: Exp): (St, Exp) {
    match e.k
    case KNil => (s, e.(k := KTrue))
    case KFalse => (s, e.(k := KTrue))
    case KConst(_) => (s, e.(k := KFalse))
    case KTrue => (s, e.(k := KFalse))
    case KJmp(j) => (InvertJump(s, j), e)
    case _ =>
      var (s', e') := Discharge2AnyReg(s, e);
      var s'' := Emit(FreeExp(s', e'), [NotOp(0, if e'.k.KReg? then e'.k.r else 0)]);
      (s'', e.(k := KReloc(|s''.code| - 1)))
  }

  lemma EmitNotOk(s: St, e: Exp, r: nat)
    requires ExpOk(s, e) && e.k.KNil?
    ensures var s' := Emit(s, [NotOp(0, r)]); var e' := e.(k := KReloc(|s.code|));
        ExpOk(s', e') && Grows(s, e, s', e')
    ensures |Emit(s, [NotOp(0, r)]).code| == |s.code| + 1
  {
    EmitPlainOk(s, e, NotOp(0, r));
    EmitOk(s, e, [NotOp(0, r)], e.(k := KReloc(|s.code|)));
  }

  lemma NegateValueOk(s: St, e: Exp)
    requires ExpOk(s, e) && (e.k.KReloc? || e.k.KReg?)
    ensures var (s', e') := Negated(s, e);
      ExpOk(s', e') && Grows(s, e, s', e') && e'.t == e.t && e'.f == e.f && s'.free == s.free
  {
    Discharge2AnyRegOk(s, e);
    var (s1, e1) := Discharge2AnyReg(s, e);
    var s2 := FreeExp(s1, e1);
    EmitNotOk(s2, Plain(e), e1.k.r);
    GrowsTrans(s, e, s2, Plain(e), Emit(s2, [NotOp(0, e1.k.r)]), e.(k := KReloc(|s2.code|)));
  }

  lemma NegatedOk(s: St, e: Exp)
    requires ExpOk(s, e) && !e.k.KLocal? && !e.k.KGlobal?
    ensures var (s', e') := Negated(s, e);
      ExpOk(s', e') && Grows(s, e, s', e') && e'.t == e.t && e'.f == e.f && s'.free == s.free
  {
    match e.k {
      case KNil => KindOnly(s, e, KTrue);
      case KFalse => KindOnly(s, e, KTrue);
      case KConst(_) => KindOnly(s, e, KFalse);
      case KTrue => KindOnly(s, e, KFalse);
      case KJmp(j) => InvertOk(s, e);
      case _ => NegateValueOk(s, e);
    }
  }

  lemma CodeNotOk(s: St, e: Exp)
    requires ExpOk(s, e)
    ensures var (s', e') := CodeNot(s, e); ExpOk(s', e') && Grows(s, e, s', e') && s'.free == s.free
  {
    DischargeVarsOk(s, e);
    var (s1, e1) := DischargeVars(s, e);
    NegatedOk(s1, e1);
    var (s2, e2) := Negated(s1, e1);
    RemoveValuesOk(s2, e2);
    var (s3, e3) := CodeNot(s, e);
    assert s3.code == RemoveValues(RemoveValues(s2.code, e2.t), e2.f);
    GrowsTrans(s, e, s1, e1, s2, e2);
    GrowsTrans(s, e, s2, e2, s3, e3);
  }

  // ---------------------------------------------------------------- values in registers

  /** A comparison's jump joins the list of true exits. */
  function Joined(e: Exp): Exp {
    if e.k.KJmp? then Exp(KNil, e.t + [e.k.j], e.f) else Plain(e)
  }

  lemma JoinedOk(s: St, e: Exp)
    requires ExpOk(s, e) && e.k.KJmp?
    ensures ExpOk(s, Joined(e)) && Grows(s, e, s, Joined(e))
  {
    assert Pend(s.code, e.k.j);
    DistinctAppend(e.t, [e.k.j]);
  }

  /** What `LoadTruth` adds. */
  lemma LoadTruthIs(s: St, e: Exp, reg: nat)
    requires e.k.KJmp? ==> s.jpc == []
    ensures var (s', pf, pt) := LoadTruth(s, e, reg);
      && s'.code == s.code + (if e.k.KJmp? then [] else [Jmp(None)])
          + [LoadBool(reg, false, true), LoadBool(reg, true, false)]
      && s'.jpc == (if e.k.KJmp? then [] else [|s.code|] + s.jpc)
      && pf == |s'.code| - 2 && pt == |s'.code| - 1 && s'.free == s.free && s'.nact == s.nact
  {
    var (s1, fj) := if e.k.KJmp? then (s, []) else Jump(s);
    assert PatchList(s1.code, [], |s1.code|, None, |s1.code|) == s1.code;
    var s2 := Emit(s1, [LoadBool(reg, false, true)]);
    assert PatchList(s2.code, [], |s2.code|, None, |s2.code|) == s2.code;
    var s3 := Emit(s2, [LoadBool(reg, true, false)]);
    assert s3.code == s1.code + [LoadBool(reg, false, true), LoadBool(reg, true, false)];
  }

  /** The state before the lists are patched. */
  function Loaded(s: St, e: Exp, reg: nat): (r: (St, nat, nat)) {
    var e' := if e.k.KJmp? then e.(t := e.t + [e.k.j]) else e;
    if NeedValue(s.code, e'.t) || NeedValue(s.code, e'.f) then LoadTruth(s, e', reg) else (s, 0, 0)
  }

  /** Settled code added behind an expression, the pending jumps kept or held. */
  lemma AddedOk(s: St, e: Exp, s': St)
    requires ExpOk(s, e) && e.k.KNil?
    requires |s'.code| >= |s.code| && s'.code[..|s.code|] == s.code && s'.nact == s.nact && s'.free == s.free
    requires |s'.code| > |s.code| ==> !IsTest(s'.code[|s'.code| - 1])
    requires s'.jpc == s.jpc
        || (s'.jpc == [|s.code|] + s.jpc && |s'.code| > |s.code| && s'.code[|s.code|] == Jmp(None))
    ensures ExpOk(s', e) && Grows(s, e, s', e)
  {
    assert forall i :: 0 <= i < |s.code| ==> s'.code[i] == s'.code[..|s.code|][i];
    forall i | i in s'.jpc || i in e.t || i in e.f ensures Pend(s'.code, i) {
      if i in s.jpc || i in e.t || i in e.f { assert Pend(s.code, i); }
    }
    if s'.jpc != s.jpc {
      forall i | i in s.jpc ensures i != |s.code| { assert Pend(s.code, i); }
      DistinctAppend([|s.code|], s.jpc);
    }
  }

  /** What `Loaded` adds, if anything. */
  lemma LoadedIs(s: St, e: Exp, reg: nat)
    requires e.k.KJmp? ==> s.jpc == []
    ensures var (s', pf, pt) := Loaded(s, e, reg);
      && |s'.code| >= |s.code| && s'.code[..|s.code|] == s.code && s'.nact == s.nact && s'.free == s.free
      && (|s'.code| > |s.code| ==> s'.code[|s'.code| - 1] == LoadBool(reg, true, false))
      && (s'.jpc == s.jpc || (s'.jpc == [|s.code|] + s.jpc && |s'.code| > |s.code| && s'.code[|s.code|] == Jmp(None)))
  {
    LoadTruthIs(s, if e.k.KJmp? then e.(t := e.t + [e.k.j]) else e, reg);
  }

  lemma LoadedOk(s: St, e: Exp, reg: nat)
    requires ExpOk(s, e) && (EndPc(s, e) == |s.code| || e.k.KJmp?)
    ensures var (s', pf, pt) := Loaded(s, e, reg);
      ExpOk(s', Joined(e)) && Grows(s, e, s', Joined(e)) && s'.free == s.free
  {
    LoadedIs(s, e, reg);
    var s' := Loaded(s, e, reg).0;
    if e.k.KJmp? {
      JoinedOk(s, e);
      AddedOk(s, Joined(e), s');
      GrowsTrans(s, e, s, Joined(e), s', Joined(e));
    } else {
      PlainOk(s, e);
      AddedOk(s, Plain(e), s');
      GrowsTrans(s, e, s, Plain(e), s', Plain(e));
    }
  }

  lemma PlainOk(s: St, e: Exp)
    requires ExpOk(s, e) && EndPc(s, e) == |s.code|
    ensures ExpOk(s, Plain(e)) && Grows(s, e, s, Plain(e))
  {
  }

  /** A pending jump of another list is still pending. */
  lemma PatchKeeps(c: seq<Instr>, l: seq<nat>, vtarget: nat, reg: Option<nat>, dtarget: nat, i: nat)
    requires Pend(c, i) && i !in l
    ensures Pend(PatchList(c, l, vtarget, reg, dtarget), i)
  {
  }

  lemma PatchOneGrows(s: St, e: Exp, l: seq<nat>, vtarget: nat, reg: Option<nat>, dtarget: nat)
    requires ExpOk(s, e) && e.k.KNil? && (l == e.f || l == e.t)
    ensures Grows(s, e, s.(code := PatchList(s.code, l, vtarget, reg, dtarget)),
        if l == e.f then e.(f := []) else e.(t := []))
  {
    var s' := s.(code := PatchList(s.code, l, vtarget, reg, dtarget));
    forall i: nat | i < |s.code|
        ensures Settles(s.code[i], s'.code[i]) && (Loose(s, e, i) ==> s'.code[i] == s.code[i]) {
      PatchedInstr(s.code, l, vtarget, reg, dtarget, i);
    }
  }

  /** Patching one list leaves the others as they were. */
  lemma PatchOneOk(s: St, e: Exp, l: seq<nat>, vtarget: nat, reg: Option<nat>, dtarget: nat)
    requires ExpOk(s, e) && e.k.KNil? && (l == e.f || l == e.t)
    ensures var s' := s.(code := PatchList(s.code, l, vtarget, reg, dtarget));
      var e' := if l == e.f then e.(f := []) else e.(t := []);
      ExpOk(s', e') && Grows(s, e, s', e')
  {
    PatchOneGrows(s, e, l, vtarget, reg, dtarget);
    var c' := PatchList(s.code, l, vtarget, reg, dtarget);
    var e' := if l == e.f then e.(f := []) else e.(t := []);
    forall i: nat | i in s.jpc || i in e'.t || i in e'.f ensures Pend(c', i) {
      assert i !in l;
      PatchKeeps(s.code, l, vtarget, reg, dtarget, i);
    }
    PatchEnd(s, l, vtarget, reg, dtarget);
  }

  lemma PatchEnd(s: St, l: seq<nat>, vtarget: nat, reg: Option<nat>, dtarget: nat)
    requires StOk(s)
    ensures var c' := PatchList(s.code, l, vtarget, reg, dtarget); |c'| > 0 ==> !IsTest(c'[|c'| - 1])
  {
  }

  /** Patching both lists leaves only what was pending to here. */
  lemma PatchBothOk(s: St, e: Exp, final: nat, reg: nat, pf: nat, pt: nat)
    requires ExpOk(s, e) && e.k.KNil?
    ensures var c1 := PatchList(s.code, e.f, final, Some(reg), pf);
      var s' := s.(code := PatchList(c1, e.t, final, Some(reg), pt));
      ExpOk(s', NoExp) && Grows(s, e, s', NoExp)
  {
    var s1 := s.(code := PatchList(s.code, e.f, final, Some(reg), pf));
    PatchOneOk(s, e, e.f, final, Some(reg), pf);
    var e1 := e.(f := []);
    PatchOneOk(s1, e1, e1.t, final, Some(reg), pt);
    GrowsTrans(s, e, s1, e1, s1.(code := PatchList(s1.code, e.t, final, Some(reg), pt)), NoExp);
  }

  /** The second half of `exp2reg`: load a truth value if need be, and patch. */
  function Finished(s: St, e: Exp, reg: nat): St {
    var e2 := if e.k.KJmp? then e.(t := e.t + [e.k.j]) else e;
    if !HasJumps(e2) then s
    else
      var (s3, pf, pt) := Loaded(s, e, reg);
      var c1 := PatchList(s3.code, e2.f, |s3.code|, Some(reg), pf);
      s3.(code := PatchList(c1, e2.t, |s3.code|, Some(reg), pt))
  }

  lemma Exp2RegIs(s: St, e: Exp, reg: nat)
    ensures var (s1, e1) := Discharge2Reg(s, e, reg);
      Exp2Reg(s, e, reg) == (Finished(s1, e1, reg), Exp(KReg(reg), [], []))
  {
  }

  lemma FinishedOk(s: St, e: Exp, reg: nat)
    requires ExpOk(s, e) && (EndPc(s, e) == |s.code| || e.k.KJmp?)
    ensures ExpOk(Finished(s, e, reg), NoExp) && Grows(s, e, Finished(s, e, reg), NoExp)
        && Finished(s, e, reg).free == s.free
  {
    if e.k.KJmp? || HasJumps(e) {
      LoadedOk(s, e, reg);
      var (s2, pf, pt) := Loaded(s, e, reg);
      PatchBothOk(s2, Joined(e), |s2.code|, reg, pf, pt);
      GrowsTrans(s, e, s2, Joined(e), Finished(s, e, reg), NoExp);
    } else {
      PlainOk(s, e);
    }
  }

  /** What is finished does not depend on the register kind it is told. */
  lemma FinishedPlain(s: St, e: Exp, reg: nat)
    requires !e.k.KJmp?
    ensures Finished(s, e, reg) == Finished(s, Plain(e), reg)
  {
    if HasJumps(e) && (NeedValue(s.code, e.t) || NeedValue(s.code, e.f)) {
      LoadTruthIs(s, e, reg);
      LoadTruthIs(s, Plain(e), reg);
    }
  }

  lemma Exp2RegOk(s: St, e: Exp, reg: nat)
    requires ExpOk(s, e)
    ensures var (s', e') := Exp2Reg(s, e, reg);
      ExpOk(s', NoExp) && Grows(s, e, s', NoExp) && s'.free == s.free && e' == Exp(KReg(reg), [], [])
  {
    Exp2RegIs(s, e, reg);
    Discharge2RegOk(s, e, reg);
    var (s1, e1) := Discharge2Reg(s, e, reg);
    if e1.k.KJmp? {
      FinishedOk(s1, e1, reg);
    } else {
      FinishedPlain(s1, e1, reg);
      FinishedOk(s1, Plain(e1), reg);
      GrowsTrans(s, e, s1, Plain(e1), Finished(s1, e1, reg), NoExp);
    }
  }

  /** The register of an operand: a local variable, or the first free one. */
  predicate Placed(s: St, s': St, k: Kind, x: RK) {
    match x
    case Const(_) => k.KConst? && s'.free == s.free
    case Reg(r) => k == KReg(r) && ((r < s.nact && s'.free == s.free) || (r == s.free && s'.free == s.free + 1))
  }

  lemma Exp2FreshOk(s: St, e: Exp)
    requires ExpOk(s, e)
    ensures var (s', e') := Exp2Reg(s.(free := s.free + 1), e, s.free);
      ExpOk(s', NoExp) && Grows(s, e, s', NoExp) && s'.free == s.free + 1 && e' == Exp(KReg(s.free), [], [])
  {
    FreeChange(s, e, s.free + 1);
    var s2 := s.(free := s.free + 1);
    Exp2RegOk(s2, e, s.free);
    GrowsTrans(s, e, s2, e, Exp2Reg(s2, e, s.free).0, NoExp);
  }

  lemma Exp2NextRegOk(s: St, e: Exp)
    requires ExpOk(s, e)
    ensures var (s', e') := Exp2NextReg(s, e);
      ExpOk(s', NoExp) && Grows(s, e, s', NoExp) && s'.free == s.free + 1 && e' == Exp(KReg(s.free), [], [])
  {
    DischargeVarsOk(s, e);
    var (s1, e1) := DischargeVars(s, e);
    assert FreeExp(s1, e1) == s1;
    Exp2FreshOk(s1, e1);
    var (s2, e2) := Exp2Reg(s1.(free := s1.free + 1), e1, s1.free);
    assert Exp2NextReg(s, e) == (s2, e2);
    GrowsTrans(s, e, s1, e1, s2, NoExp);
  }

  lemma Exp2AnyRegOk(s: St, e: Exp)
    requires ExpOk(s, e)
    ensures var (s', e') := Exp2AnyReg(s, e);
      && ExpOk(s', NoExp) && Grows(s, e, s', NoExp) && e'.t == [] && e'.f == []
      && e'.k.KReg? && Placed(s, s', e'.k, Reg(e'.k.r))
  {
    DischargeVarsOk(s, e);
    var (s1, e1) := DischargeVars(s, e);
    if e1.k.KReg? && !HasJumps(e1) {
    } else {
      Exp2NextRegOk(s1, e1);
      GrowsTrans(s, e, s1, e1, Exp2AnyReg(s, e).0, NoExp);
    }
  }

  lemma Exp2RKOk(s: St, e: Exp)
    requires ExpOk(s, e)
    ensures var (s', e', x) := Exp2RK(s, e);
      && ExpOk(s', NoExp) && Grows(s, e, s', NoExp) && Placed(s, s', e'.k, x) && e'.t == [] && e'.f == []
  {
    if HasJumps(e) {
      Exp2AnyRegOk(s, e);
      var (s1, e1) := Exp2AnyReg(s, e);
      assert Exp2AnyReg(s1, e1) == (s1, e1);
    } else {
      DischargeVarsOk(s, e);
      var (s1, e1) := DischargeVars(s, e);
      if e1.k.KReg? || e1.k.KReloc? || e1.k.KJmp? {
        Exp2AnyRegOk(s1, e1);
        GrowsTrans(s, e, s1, e1, Exp2AnyReg(s1, e1).0, NoExp);
      }
    }
  }

  /** The end of a comparison. */
  lemma CompareOk(s: St, op: CompareOp, x: RK, y: RK)
    requires ExpOk(s, NoExp)
    ensures var (s', j) := CondJump(s, CompareInstr(op, x, y));
      ExpOk(s', Exp(KJmp(j), [], [])) && Grows(s, NoExp, s', Exp(KJmp(j), [], [])) && s'.free == s.free
  {
    EmitOk(s, NoExp, [CompareInstr(op, x, y), Jmp(None)], NoExp);
    var s' := Emit(s, [CompareInstr(op, x, y), Jmp(None)]);
    assert s'.code[|s.code| + 0] == CompareInstr(op, x, y) && s'.code[|s.code| + 1] == Jmp(None);
    EmitOk(s, NoExp, [CompareInstr(op, x, y), Jmp(None)], Exp(KJmp(|s.code| + 1), [], []));
  }

  /** Lists that wait while the rest of the expression is compiled. */
  lemma OuterOk(s: St, t: seq<nat>, f: seq<nat>, s': St, e': Exp)
    requires ExpOk(s, Exp(KNil, t, f)) && ExpOk(s', e') && Grows(s, NoExp, s', e')
    ensures ExpOk(s', e'.(t := e'.t + t, f := e'.f + f))
    ensures Grows(s, Exp(KNil, t, f), s', e'.(t := e'.t + t, f := e'.f + f))
  {
    var e2 := e'.(t := e'.t + t, f := e'.f + f);
    forall i: nat | i in t || i in f ensures Pend(s'.code, i) && !Held(s', e', i) && i < EndPc(s', e') {
      assert Pend(s.code, i) && Loose(s, NoExp, i);
      if i >= 1 {
        if s.code[i - 1].TestSet? { assert Loose(s, NoExp, i - 1); }
        else { assert Settles(s.code[i - 1], s'.code[i - 1]); }
      }
    }
    DistinctAppend(e'.t, t);
    DistinctAppend(e'.f, f);
    OuterGrows(s, t, f, s', e');
  }

  lemma OuterGrows(s: St, t: seq<nat>, f: seq<nat>, s': St, e': Exp)
    requires ExpOk(s, Exp(KNil, t, f)) && Grows(s, NoExp, s', e')
    ensures Grows(s, Exp(KNil, t, f), s', e'.(t := e'.t + t, f := e'.f + f))
  {
    var o := Exp(KNil, t, f);
    var e2 := e'.(t := e'.t + t, f := e'.f + f);
    forall i: nat | i < |s.code| && Loose(s, o, i) ensures s'.code[i] == s.code[i] { assert Loose(s, NoExp, i); }
    forall i: nat | i < |s.code| ensures Settles(s.code[i], s'.code[i]) { assert i < EndPc(s, NoExp); }
    forall i: nat | Held(s', e2, i)
        ensures Held(s, o, i) || i >= |s.code| { assert Held(s', e', i) || i in t || i in f; }
  }

  /** Compiling any expression keeps the lists in order, touches nothing that
      was settled before but the jumps pending to the starting point, and gives
      back every register it took. */
  lemma {:induction false} CompileOk(s: St, e: Expr)
    requires StOk(s) && Scoped(e, s.nact)
    ensures var (s', e') := Compile(s, e);
      ExpOk(s', e') && Grows(s, NoExp, s', e') && s'.free == s.free
    decreases e, 2
  {
    assert ExpOk(s, NoExp);
    match e {
      case ENot(a) =>
        CompileOk(s, a);
        var (s1, e1) := Compile(s, a);
        CodeNotOk(s1, e1);
        GrowsTrans(s, NoExp, s1, e1, CodeNot(s1, e1).0, CodeNot(s1, e1).1);
      case EAnd(a, b) =>
        CompileOk(s, a);
        var (s1, e1) := Compile(s, a);
        GoIfTrueOk(s1, e1);
        var (s2, e2) := GoIfTrue(s1, e1);
        GrowsTrans(s, NoExp, s1, e1, s2, Exp(KNil, [], e2.f));
        ConnectOk(s, s2, [], e2.f, b);
      case EOr(a, b) =>
        CompileOk(s, a);
        var (s1, e1) := Compile(s, a);
        GoIfFalseOk(s1, e1);
        var (s2, e2) := GoIfFalse(s1, e1);
        GrowsTrans(s, NoExp, s1, e1, s2, Exp(KNil, e2.t, []));
        ConnectOk(s, s2, e2.t, [], b);
      case ECmp(op, a, b) => CompileCompareOk(s, op, a, b);
      case _ =>
    }
  }

  /** The second operand of a connective. */
  lemma ConnectOk(s: St, s2: St, t: seq<nat>, f: seq<nat>, b: Expr)
    requires ExpOk(s, NoExp) && ExpOk(s2, Exp(KNil, t, f)) && Grows(s, NoExp, s2, Exp(KNil, t, f))
        && Scoped(b, s2.nact)
    ensures var (s3, e3) := Compile(s2, b); var (s4, e4) := DischargeVars(s3, e3);
      && ExpOk(s4, e4.(t := e4.t + t, f := e4.f + f))
      && Grows(s, NoExp, s4, e4.(t := e4.t + t, f := e4.f + f)) && s4.free == s2.free
      && (t == [] ==> e4.(t := e4.t + t, f := e4.f + f) == e4.(f := e4.f + f))
      && (f == [] ==> e4.(t := e4.t + t, f := e4.f + f) == e4.(t := e4.t + t))
    decreases b, 3
  {
    CompileOk(s2, b);
    var (s3, e3) := Compile(s2, b);
    DischargeVarsOk(s3, e3);
    var (s4, e4) := DischargeVars(s3, e3);
    GrowsTrans(s2, NoExp, s3, e3, s4, e4);
    OuterOk(s2, t, f, s4, e4);
    GrowsTrans(s, NoExp, s2, Exp(KNil, t, f), s4, e4.(t := e4.t + t, f := e4.f + f));
    assert e4.t + [] == e4.t && e4.f + [] == e4.f;
  }

  /** Both operands freed, the comparison follows. */
  lemma CompareEndOk(s: St, s4: St, e4: Exp, e2: Exp, op: CompareOp, x: RK, y: RK)
    requires ExpOk(s, NoExp) && ExpOk(s4, NoExp) && Grows(s, NoExp, s4, NoExp)
    requires FreeExp(FreeExp(s4, e4), e2) == s4.(free := s.free)
    ensures var (s', j) := CondJump(FreeExp(FreeExp(s4, e4), e2), CompareInstr(op, x, y));
      ExpOk(s', Exp(KJmp(j), [], [])) && Grows(s, NoExp, s', Exp(KJmp(j), [], [])) && s'.free == s.free
  {
    var s5 := s4.(free := s.free);
    FreeChange(s4, NoExp, s.free);
    GrowsTrans(s, NoExp, s4, NoExp, s5, NoExp);
    CompareOk(s5, op, x, y);
    GrowsTrans(s, NoExp, s5, NoExp, CondJump(s5, CompareInstr(op, x, y)).0, Exp(KJmp(|s5.code| + 1), [], []));
  }

  /** Since `s`, an operand was brought to its place. */
  ghost predicate InOperand(s: St, s2: St, e2: Exp, x: RK) {
    ExpOk(s2, NoExp) && Grows(s, NoExp, s2, NoExp) && Placed(s, s2, e2.k, x)
  }

  /** An operand compiled and brought to its place. */
  lemma OperandOk(s: St, a: Expr)
    requires ExpOk(s, NoExp) && Scoped(a, s.nact)
    ensures var (s1, e1) := Compile(s, a); var (s2, e2, x) := Exp2RK(s1, e1); InOperand(s, s2, e2, x)
    decreases a, 3
  {
    CompileOk(s, a);
    var (s1, e1) := Compile(s, a);
    Exp2RKOk(s1, e1);
    GrowsTrans(s, NoExp, s1, e1, Exp2RK(s1, e1).0, NoExp);
  }

  /** Freeing both operands gives back what they took. */
  lemma FreeBoth(s: St, s2: St, s4: St, e2: Exp, x: RK, e4: Exp, y: RK)
    requires Placed(s, s2, e2.k, x) && Placed(s2, s4, e4.k, y)
    requires s.nact <= s.free && s2.nact == s.nact && s4.nact == s.nact
    ensures FreeExp(FreeExp(s4, e4), e2) == s4.(free := s.free)
    ensures OnTop(s4, e4) && OnTop(FreeExp(s4, e4), e2)
  {
  }

  /** A compiled expression as its context needs it. */
  ghost predicate Compiled(s: St, r: (St, Exp)) {
    ExpOk(r.0, r.1) && Grows(s, NoExp, r.0, r.1) && r.0.free == s.free
  }

  /** The comparison, once both operands are in place. */
  lemma PosfixCompareOk(s: St, s2: St, e2: Exp, x: RK, s3: St, e3: Exp, op: CompareOp)
    requires ExpOk(s, NoExp) && InOperand(s, s2, e2, x) == true
    requires var (s4, e4, y) := Exp2RK(s3, e3); InOperand(s2, s4, e4, y) == true
    ensures Compiled(s, PosfixCompare(s3, op, e2, x, e3)) == true
  {
    var (s4, e4, y) := Exp2RK(s3, e3);
    GrowsTrans(s, NoExp, s2, NoExp, s4, NoExp);
    FreeBoth(s, s2, s4, e2, x, e4, y);
    CompareEndOk(s, s4, e4, e2, op, x, y);
  }

  lemma SecondOperandOk(s: St, s2: St, e2: Exp, x: RK, op: CompareOp, b: Expr)
    requires ExpOk(s, NoExp) && InOperand(s, s2, e2, x) == true && Scoped(b, s.nact)
    ensures var (s3, e3) := Compile(s2, b); Compiled(s, PosfixCompare(s3, op, e2, x, e3)) == true
    decreases b, 4
  {
    OperandOk(s2, b);
    var (s3, e3) := Compile(s2, b);
    PosfixCompareOk(s, s2, e2, x, s3, e3, op);
  }

  lemma CompileCompareIs(s: St, op: CompareOp, a: Expr, b: Expr)
    ensures var (s1, e1) := Compile(s, a); var (s2, e2, x) := Exp2RK(s1, e1); var (s3, e3) := Compile(s2, b);
      Compile(s, ECmp(op, a, b)) == PosfixCompare(s3, op, e2, x, e3)
  {
  }

  lemma CompileCompareOk(s: St, op: CompareOp, a: Expr, b: Expr)
    requires ExpOk(s, NoExp) && Scoped(a, s.nact) && Scoped(b, s.nact)
    ensures Compiled(s, Compile(s, ECmp(op, a, b))) == true
    decreases ECmp(op, a, b), 1
  {
    OperandOk(s, a);
    var (s1, e1) := Compile(s, a);
    var (s2, e2, x) := Exp2RK(s1, e1);
    SecondOperandOk(s, s2, e2, x, op, b);
    CompileCompareIs(s, op, a, b);
  }
}
