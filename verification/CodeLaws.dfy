/**
  Laws of expressions and of the code generated for them, told without the
  generator: what each operator means, which comparisons are the same, and what
  each instruction does.
 */
module CodeLaws {
  import opened Common
  import opened CodeChains
  import opened CodeModel
  import opened CodeFlow
  import opened CodeRight
  import opened CodeOpen
  import opened CodeTheorems
  import opened CodeLimits

  // ---------------------------------------------------------------- meaning

  /** `and` and `or` give one of their operands, by the truth of the first; only
      nil and false are false. */
  lemma ConnectivesMean(env: Env, a: Expr, b: Expr, R: Regs)
    ensures var v := Eval(env, a, R);
      && (v == VNil || v == VBool(false) ==>
          Eval(env, EAnd(a, b), R) == v && Eval(env, EOr(a, b), R) == Eval(env, b, R)
          && Eval(env, ENot(a), R) == VBool(true))
      && (v != VNil && v != VBool(false) ==>
          Eval(env, EAnd(a, b), R) == Eval(env, b, R) && Eval(env, EOr(a, b), R) == v
          && Eval(env, ENot(a), R) == VBool(false))
  {
  }

  /** Constants are themselves, variables what they hold. */
  lemma AtomsMean(env: Env, n: int, r: nat, R: Regs)
    ensures Eval(env, ENil, R) == VNil && Eval(env, ETrue, R) == VBool(true) && Eval(env, EFalse, R) == VBool(false)
    ensures Eval(env, ENum(n), R) == VData(n) && Eval(env, EGlobal(n), R) == env.glob(n)
    ensures r in R ==> Eval(env, ELocal(r), R) == R[r]
  {
  }

  /** What a comparison comes to. */
  lemma ComparedValue(env: Env, op: CompareOp, a: Expr, b: Expr, R: Regs)
    ensures Eval(env, ECmp(op, a, b), R) == VBool(CompareValue(env, op, Eval(env, a, R), Eval(env, b, R)))
  {
  }

  lemma OrdersAsk(env: Env, x: Value, y: Value)
    ensures CompareValue(env, OEq, x, y) == env.cmp(Eq, x, y)
    ensures CompareValue(env, OLt, x, y) == env.cmp(Lt, x, y)
    ensures CompareValue(env, OLe, x, y) == env.cmp(Le, x, y)
    ensures CompareValue(env, OGt, x, y) == CompareValue(env, OLt, y, x)
    ensures CompareValue(env, OGe, x, y) == CompareValue(env, OLe, y, x)
    ensures CompareValue(env, ONe, x, y) == !CompareValue(env, OEq, x, y)
  {
  }

  /** `a < b`, `a <= b` and `a == b` ask just that of the values. */
  lemma OrdersMean(env: Env, a: Expr, b: Expr, R: Regs)
    ensures Eval(env, ECmp(OEq, a, b), R) == VBool(env.cmp(Eq, Eval(env, a, R), Eval(env, b, R)))
    ensures Eval(env, ECmp(OLt, a, b), R) == VBool(env.cmp(Lt, Eval(env, a, R), Eval(env, b, R)))
    ensures Eval(env, ECmp(OLe, a, b), R) == VBool(env.cmp(Le, Eval(env, a, R), Eval(env, b, R)))
  {
    ComparedValue(env, OEq, a, b, R);
    ComparedValue(env, OLt, a, b, R);
    ComparedValue(env, OLe, a, b, R);
  }

  /** `a > b` is `b < a`, and `a >= b` is `b <= a`. */
  lemma ExchangedMean(env: Env, a: Expr, b: Expr, R: Regs)
    ensures Eval(env, ECmp(OGt, a, b), R) == Eval(env, ECmp(OLt, b, a), R)
    ensures Eval(env, ECmp(OGe, a, b), R) == Eval(env, ECmp(OLe, b, a), R)
  {
    ComparedValue(env, OGt, a, b, R);
    ComparedValue(env, OLt, b, a, R);
    ComparedValue(env, OGe, a, b, R);
    ComparedValue(env, OLe, b, a, R);
    OrdersAsk(env, Eval(env, a, R), Eval(env, b, R));
  }

  /** `a ~= b` is `not (a == b)`. */
  lemma UnequalMean(env: Env, a: Expr, b: Expr, R: Regs)
    ensures Eval(env, ECmp(ONe, a, b), R) == Eval(env, ENot(ECmp(OEq, a, b)), R)
  {
    ComparedValue(env, ONe, a, b, R);
    ComparedValue(env, OEq, a, b, R);
  }

  // ---------------------------------------------------------------- generated code

  /** The operator that stands for another with its operands exchanged. */
  function Exchanged(op: CompareOp): CompareOp {
    match op
    case OEq => OEq
    case ONe => ONe
    case OLt => OGt
    case OGt => OLt
    case OLe => OGe
    case OGe => OLe
  }

  /** The code of `a > b` and of `b < a`, and so on, leaves the same value,
      wherever it is exact. */
  lemma ExchangedCode(env: Env, op: CompareOp, a: Expr, b: Expr, nact: nat, reg: nat, R0: Regs)
    requires Scoped(a, nact) && Scoped(b, nact) && op != OEq && op != ONe
    requires Exact(ECmp(op, a, b)) && Exact(ECmp(Exchanged(op), b, a))
    ensures exists v ::
        && Delivers(env, ClosedCode(ECmp(op, a, b), nact, reg), R0, nact, reg, v)
        && Delivers(env, ClosedCode(ECmp(Exchanged(op), b, a), nact, reg), R0, nact, reg, v)
  {
    var e, e' := ECmp(op, a, b), ECmp(Exchanged(op), b, a);
    ExactValue(e, nact, reg);
    ExactValue(e', nact, reg);
    ExchangedMean(env, a, b, R0);
    ExchangedMean(env, b, a, R0);
    assert Delivers(env, ClosedCode(e, nact, reg), R0, nact, reg, Eval(env, e, R0));
    assert Delivers(env, ClosedCode(e', nact, reg), R0, nact, reg, Eval(env, e', R0));
    assert Eval(env, e, R0) == Eval(env, e', R0);
  }

  /** The code of `a ~= b` leaves the opposite of what that of `a == b` leaves. */
  lemma UnequalCode(env: Env, a: Expr, b: Expr, nact: nat, reg: nat, R0: Regs)
    requires Scoped(a, nact) && Scoped(b, nact) && Exact(ECmp(OEq, a, b)) && Exact(ECmp(ONe, a, b))
    ensures exists v ::
        && Delivers(env, ClosedCode(ECmp(OEq, a, b), nact, reg), R0, nact, reg, VBool(v))
        && Delivers(env, ClosedCode(ECmp(ONe, a, b), nact, reg), R0, nact, reg, VBool(!v))
  {
    var e, e' := ECmp(OEq, a, b), ECmp(ONe, a, b);
    ExactValue(e, nact, reg);
    ExactValue(e', nact, reg);
    UnequalMean(env, a, b, R0);
    ComparedValue(env, OEq, a, b, R0);
    var v := Truthy(Eval(env, e, R0));
    assert Delivers(env, ClosedCode(e, nact, reg), R0, nact, reg, Eval(env, e, R0));
    assert Delivers(env, ClosedCode(e', nact, reg), R0, nact, reg, Eval(env, e', R0));
    assert Eval(env, e, R0) == VBool(v) && Eval(env, e', R0) == VBool(!v);
  }

  /** On local variables: each comparison asks what it should of their contents, in order. */
  lemma LocalsCompared(env: Env, R0: Regs, op: CompareOp)
    ensures var x, y := Get(R0, 0), Get(R0, 1);
      Delivers(env, ClosedCode(ECmp(op, ELocal(0), ELocal(1)), 2, 2), R0, 2, 2, VBool(
          match op
          case OEq => env.cmp(Eq, x, y)
          case ONe => !env.cmp(Eq, x, y)
          case OLt => env.cmp(Lt, x, y)
          case OLe => env.cmp(Le, x, y)
          case OGt => env.cmp(Lt, y, x)
          case OGe => env.cmp(Le, y, x)))
  {
    var e := ECmp(op, ELocal(0), ELocal(1));
    ConstantFreeValue(e, 2, 2);
    assert Delivers(env, ClosedCode(e, 2, 2), R0, 2, 2, Eval(env, e, R0));
    assert Eval(env, ELocal(0), R0) == Get(R0, 0) && Eval(env, ELocal(1), R0) == Get(R0, 1);
  }

  // ---------------------------------------------------------------- instructions

  /** The tests skip the next instruction, which is a jump, unless they come out
      as they ask. */
  lemma TestsSkip(env: Env, C: seq<Instr>, pc: nat, R: Regs)
    requires pc + 1 < |C| && C[pc + 1].Jmp?
    ensures match C[pc]
      case Compare(rel, cond, x, y) =>
        Run(env, C, pc, R) == Run(env, C, if env.cmp(rel, RkVal(R, x), RkVal(R, y)) != cond then pc + 2 else pc + 1, R)
      case Test(b, c) =>
        Run(env, C, pc, R) == Run(env, C, if Truthy(Get(R, b)) != c then pc + 2 else pc + 1, R)
      case TestSet(Some(a), b, c) =>
        Run(env, C, pc, R) == if Truthy(Get(R, b)) != c then Run(env, C, pc + 2, R)
                              else Run(env, C, pc + 1, R[a := Get(R, b)])
      case _ => true
  {
  }

  /** The others put a value in a register; a boolean load may skip one instruction. */
  lemma LoadsPut(env: Env, C: seq<Instr>, pc: nat, R: Regs)
    requires pc < |C|
    ensures match C[pc]
      case Move(a, b) => Run(env, C, pc, R) == Run(env, C, pc + 1, R[a := Get(R, b)])
      case LoadK(a, k) => Run(env, C, pc, R) == Run(env, C, pc + 1, R[a := k])
      case LoadBool(a, v, skip) =>
        Run(env, C, pc, R) == Run(env, C, if skip then pc + 2 else pc + 1, R[a := VBool(v)])
      case LoadNil(a) => Run(env, C, pc, R) == Run(env, C, pc + 1, R[a := VNil])
      case GetGlobal(a, n) => Run(env, C, pc, R) == Run(env, C, pc + 1, R[a := env.glob(n)])
      case NotOp(a, b) => Run(env, C, pc, R) == Run(env, C, pc + 1, R[a := VBool(Get(R, b) in {VNil, VBool(false)})])
      case _ => true
  {
  }

  /** A jump goes to its target, and code stops at its end. */
  lemma JumpsGo(env: Env, C: seq<Instr>, pc: nat, R: Regs, target: nat)
    requires pc < target <= |C| && C[pc] == Jmp(Some(target))
    ensures Run(env, C, pc, R) == Run(env, C, target, R) && Run(env, C, |C|, R) == Stop(R)
  {
  }

  /** The target of a jump is counted from the instruction behind it, when it is
      fixed, when a list of jumps is followed, and when the code is read. */
  lemma OffsetsLead(c: seq<Op>, pc: nat, dest: nat)
    requires pc < |c|
    ensures var c' := FixJump(c, pc, dest);
      && c'[pc] == Op.Jump(dest - pc - 1)
      && (dest != pc ==> GetJump(c', pc) == dest) && Read(c', {})[pc] == Jmp(Some(dest))
    ensures c[pc].Jump? && c[pc].sbx == -1 ==> GetJump(c, pc) == -1
  {
  }
}
