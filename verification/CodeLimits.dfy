/**
  Which expressions the generated code evaluates right, and which conditions it
  goes by: finitely many samples decide for all of them, and a static walk does
  where each variable occurs once.
 */
module CodeLimits {
  import opened Common
  import opened CodeModel
  import opened CodeLists
  import opened CodeFlow
  import opened CodeRight
  import opened CodeSamples
  import opened CodeSem
  import opened CodeSure
  import opened CodeOpen
  import opened CodeTheorems

  // ---------------------------------------------------------------- values

  /** The code is complete, and running it stops with the value in the register
      and the other local variables unchanged. */
  ghost predicate Delivers(env: Env, C: seq<Instr>, R0: Regs, nact: nat, reg: nat, v: Value) {
    var o := Run(env, C, 0, R0);
    && Complete(C) && o.Stop? && Get(o.R, reg) == v
    && forall r: nat :: r < nact && r != reg ==> Get(o.R, r) == Get(R0, r)
  }

  /** Whatever it is run on, the code of the expression delivers its value. */
  ghost predicate AlwaysRight(e: Expr, nact: nat, reg: nat) {
    forall env: Env, R0: Regs :: Delivers(env, ClosedCode(e, nact, reg), R0, nact, reg, Eval(env, e, R0))
  }

  lemma DeliversIff(env: Env, e: Expr, nact: nat, reg: nat, R0: Regs)
    requires Scoped(e, nact)
    ensures Delivers(env, ClosedCode(e, nact, reg), R0, nact, reg, Eval(env, e, R0)) <==> RightFor(env, e, R0)
  {
    var R := ClosedValue(env, e, nact, reg, R0);
  }

  /** For every expression, the samples decide whether its code is always right. */
  lemma ValueDecided(e: Expr, nact: nat, reg: nat)
    requires Scoped(e, nact)
    ensures AlwaysRight(e, nact, reg) <==> RightOnSamples(e)
  {
    forall env: Env, R0: Regs
      ensures Delivers(env, ClosedCode(e, nact, reg), R0, nact, reg, Eval(env, e, R0)) <==> RightFor(env, e, R0)
    {
      DeliversIff(env, e, nact, reg, R0);
    }
    RightIff(e);
  }

  /** The code of an exact expression is always right, comparisons and literals included. */
  lemma ExactValue(e: Expr, nact: nat, reg: nat)
    requires Scoped(e, nact) && Exact(e)
    ensures AlwaysRight(e, nact, reg)
  {
    forall env: Env, R0: Regs ensures Delivers(env, ClosedCode(e, nact, reg), R0, nact, reg, Eval(env, e, R0)) {
      ExactRight(env, e, R0);
      DeliversIff(env, e, nact, reg, R0);
    }
  }

  /** Where each variable occurs once, and nothing is compared but the whole,
      exact expressions are the only ones. */
  lemma ExactIff(e: Expr, nact: nat, reg: nat)
    requires Scoped(e, nact) && (Linear(e) || (e.ECmp? && Single(e)))
    ensures AlwaysRight(e, nact, reg) <==> Exact(e)
  {
    if Exact(e) {
      ExactValue(e, nact, reg);
    } else {
      var env, R0;
      if Linear(e) {
        env, R0 := OnlyExact(e);
      } else {
        var T, c := SureOnly(e, None);
        env, R0 := EnvOf(T).(cmp := c), RegsOf(T);
      }
      DeliversIff(env, e, nact, reg, R0);
      assert !Delivers(env, ClosedCode(e, nact, reg), R0, nact, reg, Eval(env, e, R0));
    }
  }

  /** All that the expression can come to is a truth value of its own. */
  predicate TruthValued(e: Expr) {
    match e
    case ETrue => true
    case EFalse => true
    case ENot(a) => !Literal(Ends(a))
    case EAnd(a, b) => TruthValued(a) && TruthValued(b)
    case EOr(a, b) => TruthValued(a) && TruthValued(b)
    case ECmp(_, _, _) => true
    case _ => false
  }

  lemma {:induction false} TruthIsValue(env: Env, e: Expr, R: Regs)
    requires TruthValued(e)
    ensures Eval(env, e, R) == VBool(Truthy(Eval(env, e, R)))
    ensures var x := Flows(env, e, R, None); if x.End? then x.v.VBool? && x.waits == None else x.cargo == None
  {
    match e {
      case EAnd(a, b) =>
        TruthIsValue(env, a, R);
        EndValue(env, a, R, None);
        TruthForm(a);
        TruthIsValue(env, b, R);
      case EOr(a, b) =>
        TruthIsValue(env, a, R);
        EndValue(env, a, R, None);
        TruthForm(a);
        TruthIsValue(env, b, R);
      case _ =>
    }
  }

  lemma {:induction false} TruthForm(e: Expr)
    requires TruthValued(e)
    ensures Ends(e) in {IsTrue, IsFalse, Tested}
  {
    match e {
      case EAnd(_, b) => TruthForm(b);
      case EOr(_, b) => TruthForm(b);
      case _ =>
    }
  }

  /** Truth values made of at most one comparison: the walk decides as well. */
  lemma TruthIff(e: Expr, nact: nat, reg: nat)
    requires Scoped(e, nact) && Single(e) && (TruthValued(e) || e.ENot?)
    ensures AlwaysRight(e, nact, reg) <==> Sure(e, false)
  {
    if Sure(e, false) {
      forall env: Env, R0: Regs ensures Delivers(env, ClosedCode(e, nact, reg), R0, nact, reg, Eval(env, e, R0)) {
        SureRight(env, e, R0, None);
        if TruthValued(e) { TruthIsValue(env, e, R0); }
        DeliversIff(env, e, nact, reg, R0);
      }
    } else {
      var T, c := SureOnly(e, None);
      var env, R0 := EnvOf(T).(cmp := c), RegsOf(T);
      if TruthValued(e) { TruthIsValue(env, e, R0); }
      DeliversIff(env, e, nact, reg, R0);
      assert !Delivers(env, ClosedCode(e, nact, reg), R0, nact, reg, Eval(env, e, R0));
    }
  }

  // ---------------------------------------------------------------- without literals

  predicate ConstantFree(e: Expr) {
    match e
    case ENil => false
    case ETrue => false
    case EFalse => false
    case ENum(_) => false
    case ENot(a) => ConstantFree(a)
    case EAnd(a, b) => ConstantFree(a) && ConstantFree(b)
    case EOr(a, b) => ConstantFree(a) && ConstantFree(b)
    case ECmp(_, a, b) => ConstantFree(a) && ConstantFree(b)
    case _ => true
  }

  lemma FreshJoin(f: Form, xs: set<Fate>, cond: bool, idle: set<Fate>, waiting: set<Fate>)
    requires !Literal(f) && NoneStale(xs) && NoneStale(idle) && NoneStale(waiting)
    ensures NoneStale(FatesJoin(f, xs, cond, idle, waiting))
  {
  }

  /** Without literals nothing can be absorbed. */
  lemma {:induction false} ConstantFreeFates(e: Expr, w: bool)
    requires ConstantFree(e)
    ensures !Literal(Ends(e)) && NoneStale(Fates(e, w)) && Clean(e, w)
    decreases e, 1
  {
    match e {
      case ENot(a) => ConstantFreeFates(a, w);
      case EAnd(a, b) => ConstantFreeJoin(a, b, false, w);
      case EOr(a, b) => ConstantFreeJoin(a, b, true, w);
      case ECmp(_, a, b) => ConstantFreeFates(a, w); ConstantFreeFates(b, false); ConstantFreeFates(b, true);
      case _ =>
    }
  }

  lemma {:induction false} ConstantFreeJoin(a: Expr, b: Expr, cond: bool, w: bool)
    requires ConstantFree(a) && ConstantFree(b)
    ensures var e := Join(cond, a, b); !Literal(Ends(e)) && NoneStale(Fates(e, w)) && Clean(e, w)
    decreases Join(cond, a, b), 0
  {
    ConstantFreeFates(a, w);
    ConstantFreeFates(b, false);
    ConstantFreeFates(b, true);
    FreshJoin(Ends(a), Fates(a, w), cond, Fates(b, false), Fates(b, true));
  }

  /** Expressions without literals: always the exact value, in complete code. */
  lemma ConstantFreeValue(e: Expr, nact: nat, reg: nat)
    requires Scoped(e, nact) && ConstantFree(e)
    ensures Exact(e) && AlwaysRight(e, nact, reg)
  {
    ConstantFreeFates(e, false);
    ExactValue(e, nact, reg);
  }

  // ---------------------------------------------------------------- conditions

  /** The block of an `if` runs exactly when its condition is true, for every
      condition that is right on the samples. */
  lemma IfThenRight(env: Env, e: Expr, nact: nat, block: seq<Instr>, R0: Regs) returns (R: Regs)
    requires Scoped(e, nact) && TrueOnSamples(e)
    requires block != [] && forall i :: 0 <= i < |block| ==> !IsTest(block[i]) && !Open(block[i])
    ensures var C := Discharged(IfThen(Fresh(nact), e, block)); var n := |Cond(Fresh(nact), e).0.code|;
      && Complete(C) && n + |block| == |C| && C[n..] == block && Same(R, R0, nact)
      && Run(env, C, 0, R0) == if Truthy(Eval(env, e, R0)) then Run(env, C, n, R) else Stop(R)
  {
    R := IfThenTheorem(env, e, nact, block, R0);
    TrueIff(e);
    assert TrueFor(env, e, R0);
  }

  /** `if e then m = k end` for a local variable `m`. */
  function IfAssign(e: Expr, nact: nat, m: nat, k: int): seq<Instr> {
    Discharged(IfThen(Fresh(nact), e, [LoadK(m, VData(k))]))
  }

  /** What it should come to. */
  function Assigns(env: Env, e: Expr, R0: Regs, m: nat, k: int): Value {
    if Truthy(Eval(env, e, R0)) then VData(k) else Get(R0, m)
  }

  /** Whatever it is run on, the assignment is made exactly when the condition is true. */
  ghost predicate AlwaysTaken(e: Expr, nact: nat, m: nat) {
    forall env: Env, R0: Regs, k: int :: Delivers(env, IfAssign(e, nact, m, k), R0, nact, m, Assigns(env, e, R0, m, k))
  }

  lemma TakenIff(env: Env, e: Expr, nact: nat, R0: Regs, m: nat, k: int)
    requires Scoped(e, nact) && m < nact
    ensures TrueFor(env, e, R0) ==> Delivers(env, IfAssign(e, nact, m, k), R0, nact, m, Assigns(env, e, R0, m, k))
    ensures Delivers(env, IfAssign(e, nact, m, k), R0, nact, m, Assigns(env, e, R0, m, k)) && Get(R0, m) != VData(k)
        ==> TrueFor(env, e, R0)
  {
    var block, C, n := [LoadK(m, VData(k))], IfAssign(e, nact, m, k), |Cond(Fresh(nact), e).0.code|;
    var R := IfThenTheorem(env, e, nact, block, R0);
    assert C[n] == C[n..][0] == LoadK(m, VData(k));
    assert Run(env, C, n, R) == Run(env, C, n + 1, R[m := VData(k)]) == Stop(R[m := VData(k)]);
  }

  /** For every condition, the samples decide whether the code always goes by it. */
  lemma ConditionDecided(e: Expr, nact: nat, m: nat)
    requires Scoped(e, nact) && m < nact
    ensures AlwaysTaken(e, nact, m) <==> TrueOnSamples(e)
  {
    TrueIff(e);
    if TrueOnSamples(e) {
      forall env: Env, R0: Regs, k: int
        ensures Delivers(env, IfAssign(e, nact, m, k), R0, nact, m, Assigns(env, e, R0, m, k))
      {
        assert TrueFor(env, e, R0);
        TakenIff(env, e, nact, R0, m, k);
      }
    } else {
      var env, R0 :| !TrueFor(env, e, R0);
      var k := if Get(R0, m) == VData(0) then 1 else 0;
      TakenIff(env, e, nact, R0, m, k);
      assert !Delivers(env, IfAssign(e, nact, m, k), R0, nact, m, Assigns(env, e, R0, m, k));
    }
  }

  /** Where no comparison in reach sees a stale value, the samples are right. */
  lemma CleanSamples(e: Expr)
    requires Clean(e, false)
    ensures TrueOnSamples(e)
  {
    forall env, R ensures TrueFor(env, e, R) {
      CleanRight(env, e, R, None);
      FlowRight(env, e, R, None);
    }
    TrueIff(e);
  }

  /** Where each variable occurs once and there is at most one comparison, the
      walk alone decides. */
  lemma ConditionIff(e: Expr, nact: nat, m: nat)
    requires Scoped(e, nact) && m < nact && Single(e)
    ensures AlwaysTaken(e, nact, m) <==> Sure(e, false)
  {
    TrueIff(e);
    ConditionDecided(e, nact, m);
    if Sure(e, false) {
      forall env, R ensures TrueFor(env, e, R) { SureRight(env, e, R, None); }
    } else {
      var T, c := SureOnly(e, None);
      assert !TrueFor(EnvOf(T).(cmp := c), e, RegsOf(T));
    }
  }

  // ---------------------------------------------------------------- a lost value

  /** `((x or false) and true) or false` */
  function Absorbing(x: Expr): Expr {
    EOr(EAnd(EOr(x, EFalse), ETrue), EFalse)
  }

  /** The exits of `x` wait at `true`, and are absorbed there. */
  lemma AbsorbingFlow(env: Env, x: Expr, R: Regs)
    requires x == ELocal(0)
    ensures CodeValue(env, Absorbing(x), R) == if Truthy(Get(R, 0)) then Get(R, 0) else VBool(false)
  {
    var v := Get(R, 0);
    assert Flows(env, EOr(x, EFalse), R, None) == if Truthy(v) then Out(true, Some(v)) else End(VBool(false), None);
    assert Flows(env, EAnd(EOr(x, EFalse), ETrue), R, None)
        == if Truthy(v) then End(VBool(true), Some(v)) else Out(false, None);
  }

  lemma AbsorbingEval(env: Env, x: Expr, R: Regs)
    requires x == ELocal(0)
    ensures Eval(env, Absorbing(x), R) == VBool(Truthy(Get(R, 0)))
  {
    assert Eval(env, EOr(x, EFalse), R) == if Truthy(Get(R, 0)) then Get(R, 0) else VBool(false);
    assert Eval(env, EAnd(EOr(x, EFalse), ETrue), R) == VBool(Truthy(Get(R, 0)));
  }

  /** With 1 for `x`, the code leaves 1, where the expression is `true`. */
  lemma LostValue(env: Env) returns (R0: Regs, R: Regs)
    ensures var e := Absorbing(ELocal(0));
      Run(env, ClosedCode(e, 1, 1), 0, R0) == Stop(R) && Get(R, 1) == VData(1) && Eval(env, e, R0) == VBool(true)
  {
    R0 := map[0 := VData(1)];
    AbsorbingFlow(env, ELocal(0), R0);
    AbsorbingEval(env, ELocal(0), R0);
    R := LostRun(env, Absorbing(ELocal(0)), R0);
  }

  lemma LostRun(env: Env, e: Expr, R0: Regs) returns (R: Regs)
    requires Scoped(e, 1)
    ensures Run(env, ClosedCode(e, 1, 1), 0, R0) == Stop(R) && Get(R, 1) == CodeValue(env, e, R0)
  {
    R := ClosedValue(env, e, 1, 1, R0);
  }

  // ---------------------------------------------------------------- a lost condition

  /** `(((x or false) and true) or false) == true` */
  function AbsorbingTest(x: Expr): Expr {
    ECmp(OEq, Absorbing(x), ETrue)
  }

  /** With 1 for `x` the condition is true, and its block is skipped. */
  lemma LostCondition(block: seq<Instr>) returns (env: Env, R0: Regs, R: Regs)
    requires block != [] && forall i :: 0 <= i < |block| ==> !IsTest(block[i]) && !Open(block[i])
    ensures var e := AbsorbingTest(ELocal(0));
      && Eval(env, e, R0) == VBool(true)
      && Run(env, Discharged(IfThen(Fresh(1), e, block)), 0, R0) == Stop(R) && Same(R, R0, 1)
  {
    env := Env(_ => VNil, (rel, u, v) => u == v);
    R0 := map[0 := VData(1)];
    AbsorbingFlow(env, ELocal(0), R0);
    AbsorbingEval(env, ELocal(0), R0);
    AbsorbingPasses(env, ELocal(0), R0);
    R := IfThenTheorem(env, AbsorbingTest(ELocal(0)), 1, block, R0);
  }

  lemma AbsorbingPasses(env: Env, x: Expr, R: Regs)
    requires x == ELocal(0)
    ensures Passes(Absorbing(x), Flows(env, Absorbing(x), R, None)) == None
  {
    assert Exits(EAnd(EOr(x, EFalse), ETrue), true) || !NeverForm(Ends(EAnd(EOr(x, EFalse), ETrue)), true);
  }

  /** A waiting exit of `x` comes to `true`, and a stale one out of `or false`. */
  lemma AbsorbingFates(x: Expr)
    requires x == ELocal(0)
    ensures FOut(true, Stale) in Fates(Absorbing(x), false)
  {
    var a := EOr(x, EFalse);
    assert FOut(true, Own) in Fates(a, false) by { assert FateGoes(InSlot, FEnd(true, false), true) == FOff(Own); }
    assert FEnd(true, true) in Fates(EAnd(a, ETrue), false) by {
      assert FateGoes(IsFalse, FOut(true, Own), false) == FOn(true);
    }
    assert FateGoes(IsTrue, FEnd(true, true), true) == FOff(Stale);
  }

  lemma NotClean(x: Expr)
    requires x == ELocal(0)
    ensures !Clean(AbsorbingTest(x), false)
  {
    AbsorbingFates(x);
  }

  /** Whatever is compared, `false` behind it settles the truth. */
  lemma SettledByFalse(t: Expr)
    ensures Compares(t) ==> Sure(EAnd(t, EFalse), false)
    ensures !Clean(t, false) ==> !Clean(EAnd(t, EFalse), false)
    ensures Single(t) ==> Single(EAnd(t, EFalse))
  {
    assert !MayBe(EFalse, true) by { assert Fates(EFalse, false) == {FEnd(false, false)}; }
  }

  lemma SingleTest(x: Expr)
    requires x == ELocal(0)
    ensures Single(AbsorbingTest(x))
  {
    assert Linear(EOr(x, EFalse)) && Linear(EAnd(EOr(x, EFalse), ETrue));
  }

  /** `(((x or false) and true) or false) == true and false`: the comparison goes
      wrong, but the condition never does. */
  lemma Settled(e: Expr)
    requires e == EAnd(AbsorbingTest(ELocal(0)), EFalse)
    ensures !Clean(e, false) && Single(e) && Sure(e, false)
  {
    var t := AbsorbingTest(ELocal(0));
    NotClean(ELocal(0));
    SingleTest(ELocal(0));
    SettledByFalse(t);
  }
}
