/**
  Generated code at work: the interpreter's loop over instructions with jump
  offsets, and an expression compiled and run.
 */
module CodeRun {
  import opened CodeModel
  import opened CodeLists
  import opened CodeChains
  import opened CodeFlow
  import opened CodeRight
  import opened CodeSamples
  import opened CodeOpen
  import opened CodeTheorems
  import opened CodeGen

  /** Runs code from `start` to its end. */
  method Execute(env: Env, c: seq<Op>, start: nat, R0: Regs) returns (o: Outcome)
    requires Coded(c, {}) && start <= |c|
    ensures o == Run(env, Read(c, {}), start, R0)
  {
    ghost var C := Read(c, {});
    var pc, R := start, R0;
    while pc < |c|
      invariant pc <= |c| && Run(env, C, pc, R) == Run(env, C, start, R0)
      decreases |c| - pc
    {
      assert C[pc] == ReadAt(c[pc], pc, {});
      var next := pc + 1;
      var jumps := c[pc].Jump?;
      if c[pc].Code? {
        var i := c[pc].i;
        if IsTest(i) {
          jumps := Takes(env, i, R);
          if jumps {
            // the jump is the next instruction
            if next >= |c| || c[next].Code? { return Stuck; }
            R := AfterTest(i, R);
            pc := next;
          } else {
            next := pc + 2;
          }
        } else {
          R := Assigned(env, i, R);
          next := if i.LoadBool? && i.skip then pc + 2 else pc + 1;
        }
      }
      if jumps {
        var target := pc + 1 + c[pc].sbx;
        assert C[pc] == ReadAt(c[pc], pc, {});
        if target <= pc || target > |c| { return Stuck; }
        next := target;
      }
      if next > |c| { return Stuck; }
      pc := next;
    }
    o := Stop(R);
  }

  /** The registers after an instruction that only assigns. */
  function Assigned(env: Env, i: Instr, R: Regs): Regs {
    match i
    case Move(a, b) => R[a := Get(R, b)]
    case LoadK(a, k) => R[a := k]
    case LoadBool(a, v, _) => R[a := VBool(v)]
    case LoadNil(a) => R[a := VNil]
    case GetGlobal(a, n) => R[a := env.glob(n)]
    case NotOp(a, b) => R[a := VBool(!Truthy(Get(R, b)))]
    case _ => R
  }

  /** With every list closed, no jump waits. */
  lemma NoneHeld(c: seq<Op>, held: set<nat>)
    requires Coded(c, held) && Complete(Read(c, held))
    ensures held == {}
  {
    assert forall i: nat :: i in held ==> i < |c| && Open(Read(c, held)[i]);
  }

  /** The complete code of an expression, its value in `reg`. */
  method Generate(e: Expr, nact: nat, reg: nat) returns (c: seq<Op>)
    requires Scoped(e, nact)
    ensures Coded(c, {}) && Read(c, {}) == Discharged(ToReg(Fresh(nact), e, reg)) && Complete(Read(c, {}))
  {
    var fs := new FuncState(nact);
    var v := new ExpDesc(KNil);
    CompileOk(fs.S(), e);
    ToRegOk(fs.S(), e, reg);
    fs.Subexpr(e, v);
    fs.Exp2Reg(v, reg);
    ghost var s' := fs.S();
    CloseComplete(s') by { forall i: nat ensures !Orphan(s', NoExp, i) { assert !Orphan(Fresh(nact), NoExp, i); } }
    fs.DischargeJpc();
    NoneHeld(fs.code, fs.held);
    c := fs.code;
  }

  /** Compiling and running any expression gives the value of its flow, which is
      its own value if it is exact, or right on the samples. */
  method Evaluate(env: Env, e: Expr, nact: nat, reg: nat, R0: Regs) returns (v: Value)
    requires Scoped(e, nact)
    ensures v == CodeValue(env, e, R0)
    ensures Exact(e) || RightOnSamples(e) ==> v == Eval(env, e, R0)
  {
    var c := Generate(e, nact, reg);
    var o := Execute(env, c, 0, R0);
    ghost var R := ClosedValue(env, e, nact, reg, R0);
    v := Get(o.R, reg);
    if Exact(e) { ExactRight(env, e, R0); }
    RightIff(e);
    assert RightOnSamples(e) ==> RightFor(env, e, R0);
  }
}
