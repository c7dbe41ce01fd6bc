/**
  The one-pass code generator for logical expressions and comparisons, with
  jump lists as sequences: the instructions it emits, the machine that runs
  them, and every step of the generator as a function.
 */
module CodeModel {
  import opened Common

  datatype Value = VNil | VBool(b: bool) | VData(id: int)

  predicate Truthy(v: Value) {
    v != VNil && v != VBool(false)
  }

  datatype Rel = Eq | Lt | Le

  /** A comparison operand: a register or a constant. */
  datatype RK = Reg(r: nat) | Const(v: Value)

  /** The instructions.  A jump without target waits in a list; a TestSet
      without register has NO_REG. */
  datatype Instr =
    | Move(a: nat, b: nat)
    | LoadK(a: nat, k: Value)
    | LoadBool(a: nat, v: bool, skip: bool)
    | LoadNil(a: nat)
    | GetGlobal(a: nat, name: int)
    | NotOp(a: nat, b: nat)
    | Jmp(target: Option<nat>)
    | Compare(rel: Rel, cond: bool, x: RK, y: RK)
    | Test(b: nat, c: bool)
    | TestSet(set_a: Option<nat>, b: nat, c: bool)

  predicate IsTest(i: Instr) {
    i.Compare? || i.Test? || i.TestSet?
  }

  // ---------------------------------------------------------------- the machine

  type Regs = map<nat, Value>

  /** What the code is run against: the globals and the meaning of comparisons. */
  datatype Env = Env(glob: int -> Value, cmp: (Rel, Value, Value) -> bool)

  function Get(R: Regs, r: nat): Value {
    if r in R then R[r] else VNil
  }

  function RkVal(R: Regs, k: RK): Value {
    match k
    case Reg(r) => Get(R, r)
    case Const(v) => v
  }

  datatype Outcome = Stop(R: Regs) | Stuck

  /** Whether a test instruction performs the jump that follows it. */
  predicate Takes(env: Env, i: Instr, R: Regs)
    requires IsTest(i)
  {
    match i
    case Compare(rel, cond, x, y) => env.cmp(rel, RkVal(R, x), RkVal(R, y)) == cond
    case Test(b, c) => Truthy(Get(R, b)) == c
    case TestSet(_, b, c) => Truthy(Get(R, b)) == c
  }

  /** The registers after a taken test. */
  function AfterTest(i: Instr, R: Regs): Regs {
    if i.TestSet? && i.set_a.Some? then R[i.set_a.value := Get(R, i.b)] else R
  }

  /** Runs complete code from `pc` to its end.  Every jump must go forward. */
  function Run(env: Env, C: seq<Instr>, pc: nat, R: Regs): Outcome
    decreases |C| - pc, 1
  {
    if pc == |C| then Stop(R)
    else if pc > |C| then Stuck
    else
      match C[pc]
      case Move(a, b) => Run(env, C, pc + 1, R[a := Get(R, b)])
      case LoadK(a, k) => Run(env, C, pc + 1, R[a := k])
      case LoadBool(a, v, skip) => Run(env, C, if skip then pc + 2 else pc + 1, R[a := VBool(v)])
      case LoadNil(a) => Run(env, C, pc + 1, R[a := VNil])
      case GetGlobal(a, n) => Run(env, C, pc + 1, R[a := env.glob(n)])
      case NotOp(a, b) => Run(env, C, pc + 1, R[a := VBool(!Truthy(Get(R, b)))])
      case Jmp(_) => Goto(env, C, pc, R)
      case _ =>
        if Takes(env, C[pc], R) then
          if pc + 1 < |C| then Goto(env, C, pc + 1, AfterTest(C[pc], R)) else Stuck
        else Run(env, C, pc + 2, R)
  }

  /** Performs the jump at `j`. */
  function Goto(env: Env, C: seq<Instr>, j: nat, R: Regs): Outcome
    requires j < |C|
    decreases |C| - j, 0
  {
    if C[j].Jmp? && C[j].target.Some?
        && j < C[j].target.value <= |C| then Run(env, C, C[j].target.value, R) else Stuck
  }

  // ---------------------------------------------------------------- the generator's state

  /** Code so far, jumps pending to its end, first free register, and number of
      active local variables. */
  datatype St = St(code: seq<Instr>, jpc: seq<nat>, free: nat, nact: nat)

  datatype Kind =
    | KNil | KTrue | KFalse
    | KConst(v: Value)
    | KLocal(r: nat)
    | KGlobal(name: int)
    | KJmp(j: nat)
    | KReloc(pc: nat)
    | KReg(r: nat)

  /** An expression descriptor: its kind, the jumps that leave it when true, and
      those that leave it when false. */
  datatype Exp = Exp(k: Kind, t: seq<nat>, f: seq<nat>)

  /** The jump at `j` follows a TestSet. */
  predicate ValueJump(code: seq<Instr>, j: nat) {
    1 <= j <= |code| && code[j - 1].TestSet?
  }

  predicate NeedValue(code: seq<Instr>, l: seq<nat>) {
    exists j :: j in l && !ValueJump(code, j)
  }

  function PatchReg(i: Instr, reg: Option<nat>): Instr
    requires i.TestSet?
  {
    if reg.Some? && reg.value != i.b then TestSet(reg, i.b, i.c) else Test(i.b, i.c)
  }

  /** Gives the jumps of a list their target: `vtarget` for those that carry a
      value, which is directed to `reg`, and `dtarget` for the others. */
  function PatchList(code: seq<Instr>, l: seq<nat>, vtarget: nat, reg: Option<nat>, dtarget: nat): (code': seq<Instr>)
    ensures |code'| == |code|
  {
    seq(|code|, i requires 0 <= i < |code| =>
      if i in l then Jmp(Some(if ValueJump(code, i) then vtarget else dtarget))
      else if i + 1 in l && code[i].TestSet? then PatchReg(code[i], reg)
      else code[i])
  }

  /** Turns the TestSets of a list into Tests (`removevalues`). */
  function RemoveValues(code: seq<Instr>, l: seq<nat>): (code': seq<Instr>)
    ensures |code'| == |code|
  {
    seq(|code|, i requires 0 <= i < |code| =>
      if i + 1 in l && code[i].TestSet? then PatchReg(code[i], None) else code[i])
  }

  /** The code with the jumps pending to its end resolved (`dischargejpc`). */
  function Discharged(s: St): (code': seq<Instr>)
    ensures |code'| == |s.code|
  {
    if s.jpc == [] then s.code else PatchList(s.code, s.jpc, |s.code|, None, |s.code|)
  }

  /** Appends instructions (`luaK_code`). */
  function Emit(s: St, ins: seq<Instr>): St {
    s.(code := Discharged(s) + ins, jpc := [])
  }

  /** An unconditional jump; the jumps pending to it join its list (`luaK_jump`). */
  function Jump(s: St): (r: (St, seq<nat>)) {
    (s.(code := s.code + [Jmp(None)], jpc := []), [|s.code|] + s.jpc)
  }

  /** A test and its jump (`condjump`). */
  function CondJump(s: St, test: Instr): (r: (St, nat)) {
    (Emit(s, [test, Jmp(None)]), |s.code| + 1)
  }

  function PatchToHere(s: St, l: seq<nat>): St {
    s.(jpc := s.jpc + l)
  }

  // ---------------------------------------------------------------- expressions to registers

  predicate HasJumps(e: Exp) {
    e.t != [] || e.f != []
  }

  function DischargeVars(s: St, e: Exp): (St, Exp) {
    match e.k
    case KLocal(r) => (s, e.(k := KReg(r)))
    case KGlobal(n) => (Emit(s, [GetGlobal(0, n)]), e.(k := KReloc(|s.code|)))
    case _ => (s, e)
  }

  function SetA(i: Instr, a: nat): Instr {
    match i
    case GetGlobal(_, n) => GetGlobal(a, n)
    case NotOp(_, b) => NotOp(a, b)
    case _ => i
  }

  function Discharge2Reg(s: St, e: Exp, reg: nat): (St, Exp) {
    var (s1, e1) := DischargeVars(s, e);
    match e1.k
    case KNil => (Emit(s1, [LoadNil(reg)]), e1.(k := KReg(reg)))
    case KTrue => (Emit(s1, [LoadBool(reg, true, false)]), e1.(k := KReg(reg)))
    case KFalse => (Emit(s1, [LoadBool(reg, false, false)]), e1.(k := KReg(reg)))
    case KConst(v) => (Emit(s1, [LoadK(reg, v)]), e1.(k := KReg(reg)))
    case KReloc(pc) => (if pc < |s1.code| then s1.(code := s1.code[pc := SetA(s1.code[pc], reg)])
        else s1, e1.(k := KReg(reg)))
    case KReg(r) => (if r != reg then Emit(s1, [Move(reg, r)]) else s1, e1.(k := KReg(reg)))
    case _ => (s1, e1)
  }

  function Discharge2AnyReg(s: St, e: Exp): (St, Exp) {
    if e.k.KReg? then (s, e) else Discharge2Reg(s.(free := s.free + 1), e, s.free)
  }

  function FreeReg(s: St, r: nat): St {
    if r >= s.nact && s.free > 0 then s.(free := s.free - 1) else s
  }

  /** If the expression is in a temporary register, it is the topmost one. */
  predicate OnTop(s: St, e: Exp) {
    e.k.KReg? && e.k.r >= s.nact ==> e.k.r + 1 == s.free
  }

  function FreeExp(s: St, e: Exp): St {
    if e.k.KReg? then FreeReg(s, e.k.r) else s
  }

  /** The two instructions that load a truth value, with a jump around them
      unless the expression ends in a comparison. */
  function LoadTruth(s: St, e: Exp, reg: nat): (r: (St, nat, nat)) {
    var (s1, fj) := if e.k.KJmp? then (s, []) else Jump(s);
    var s2 := Emit(s1, [LoadBool(reg, false, true)]);
    var s3 := Emit(s2, [LoadBool(reg, true, false)]);
    (PatchToHere(s3, fj), |s1.code|, |s2.code|)
  }

  /** Leaves the value of an expression in a register (`exp2reg`). */
  function Exp2Reg(s: St, e: Exp, reg: nat): (St, Exp) {
    var (s1, e1) := Discharge2Reg(s, e, reg);
    var e2 := if e1.k.KJmp? then e1.(t := e1.t + [e1.k.j]) else e1;
    var s2 :=
      if !HasJumps(e2) then s1
      else
        var (s3, pf, pt) :=
          if NeedValue(s1.code, e2.t) || NeedValue(s1.code, e2.f) then LoadTruth(s1, e2, reg) else (s1, 0, 0);
        var final := |s3.code|;
        var c1 := PatchList(s3.code, e2.f, final, Some(reg), pf);
        s3.(code := PatchList(c1, e2.t, final, Some(reg), pt));
    (s2, Exp(KReg(reg), [], []))
  }

  function Exp2NextReg(s: St, e: Exp): (St, Exp) {
    var (s1, e1) := DischargeVars(s, e);
    var s2 := FreeExp(s1, e1);
    Exp2Reg(s2.(free := s2.free + 1), e1, s2.free)
  }

  function Exp2AnyReg(s: St, e: Exp): (St, Exp) {
    var (s1, e1) := DischargeVars(s, e);
    if e1.k.KReg? && !HasJumps(e1) then (s1, e1)
    else if e1.k.KReg? && e1.k.r >= s1.nact then Exp2Reg(s1, e1, e1.k.r)
    else Exp2NextReg(s1, e1)
  }

  /** Leaves the value of an expression where an operand may be (`luaK_exp2RK`). */
  function Exp2RK(s: St, e: Exp): (r: (St, Exp, RK)) {
    var (s1, e1) := if HasJumps(e) then Exp2AnyReg(s, e) else DischargeVars(s, e);
    match e1.k
    case KNil => (s1, e1.(k := KConst(VNil)), Const(VNil))
    case KTrue => (s1, e1.(k := KConst(VBool(true))), Const(VBool(true)))
    case KFalse => (s1, e1.(k := KConst(VBool(false))), Const(VBool(false)))
    case KConst(v) => (s1, e1, Const(v))
    case _ =>
      var (s2, e2) := Exp2AnyReg(s1, e1);
      (s2, e2, if e2.k.KReg? then Reg(e2.k.r) else Const(VNil))
  }

  // ---------------------------------------------------------------- conditions

  function InvertJump(s: St, j: nat): St {
    if 1 <= j <= |s.code| && s.code[j - 1].Compare? then
      s.(code := s.code[j - 1 := s.code[j - 1].(cond := !s.code[j - 1].cond)])
    else s
  }

  function JumpOnCond(s: St, e: Exp, cond: bool): (r: (St, nat)) {
    if e.k.KReloc? && e.k.pc < |s.code| && s.code[e.k.pc].NotOp? then
      CondJump(s.(code := s.code[..e.k.pc]), Test(s.code[e.k.pc].b, !cond))
    else
      var (s1, e1) := Discharge2AnyReg(s, e);
      CondJump(FreeExp(s1, e1), TestSet(None, if e1.k.KReg? then e1.k.r else 0, cond))
  }

  /** Falls through when the expression is true (`luaK_goiftrue`). */
  function GoIfTrue(s: St, e: Exp): (St, Exp) {
    var (s1, e1) := DischargeVars(s, e);
    var (s2, l) :=
      match e1.k
      case KConst(_) => (s1, [])
      case KTrue => (s1, [])
      case KFalse => Jump(s1)
      case KJmp(j) => (InvertJump(s1, j), [j])
      case _ => var (s', j) := JumpOnCond(s1, e1, false); (s', [j]);
    (PatchToHere(s2, e1.t), e1.(t := [], f := e1.f + l))
  }

  /** Falls through when the expression is false (`luaK_goiffalse`). */
  function GoIfFalse(s: St, e: Exp): (St, Exp) {
    var (s1, e1) := DischargeVars(s, e);
    var (s2, l) :=
      match e1.k
      case KNil => (s1, [])
      case KFalse => (s1, [])
      case KTrue => Jump(s1)
      case KJmp(j) => (s1, [j])
      case _ => var (s', j) := JumpOnCond(s1, e1, true); (s', [j]);
    (PatchToHere(s2, e1.f), e1.(f := [], t := e1.t + l))
  }

  /** Negation (`codenot`). */
  function CodeNot(s: St, e: Exp): (St, Exp) {
    var (s1, e1) := DischargeVars(s, e);
    var (s2, k) :=
      match e1.k
      case KNil => (s1, KTrue)
      case KFalse => (s1, KTrue)
      case KConst(_) => (s1, KFalse)
      case KTrue => (s1, KFalse)
      case KJmp(j) => (InvertJump(s1, j), KJmp(j))
      case _ =>
        var (s', e') := Discharge2AnyReg(s1, e1);
        var s'' := Emit(FreeExp(s', e'), [NotOp(0, if e'.k.KReg? then e'.k.r else 0)]);
        (s'', KReloc(|s''.code| - 1));
    (s2.(code := RemoveValues(RemoveValues(s2.code, e1.t), e1.f)), Exp(k, e1.f, e1.t))
  }

  datatype CompareOp = OEq | ONe | OLt | OLe | OGt | OGe

  /** The instruction for a comparison: `>` and `>=` exchange the operands. */
  function CompareInstr(op: CompareOp, x: RK, y: RK): Instr {
    match op
    case OEq => Compare(Eq, true, x, y)
    case ONe => Compare(Eq, false, x, y)
    case OLt => Compare(Lt, true, x, y)
    case OLe => Compare(Le, true, x, y)
    case OGt => Compare(Lt, true, y, x)
    case OGe => Compare(Le, true, y, x)
  }

  // ---------------------------------------------------------------- expressions

  datatype Expr =
    | ENil | ETrue | EFalse
    | ENum(n: int)
    | ELocal(r: nat)
    | EGlobal(name: int)
    | ENot(e: Expr)
    | EAnd(a: Expr, b: Expr)
    | EOr(a: Expr, b: Expr)
    | ECmp(op: CompareOp, a: Expr, b: Expr)

  function CompareValue(env: Env, op: CompareOp, x: Value, y: Value): bool {
    match op
    case OEq => env.cmp(Eq, x, y)
    case ONe => !env.cmp(Eq, x, y)
    case OLt => env.cmp(Lt, x, y)
    case OLe => env.cmp(Le, x, y)
    case OGt => env.cmp(Lt, y, x)
    case OGe => env.cmp(Le, y, x)
  }

  /** The meaning of an expression over the local variables in `R`. */
  function Eval(env: Env, e: Expr, R: Regs): Value {
    match e
    case ENil => VNil
    case ETrue => VBool(true)
    case EFalse => VBool(false)
    case ENum(n) => VData(n)
    case ELocal(r) => Get(R, r)
    case EGlobal(n) => env.glob(n)
    case ENot(a) => VBool(!Truthy(Eval(env, a, R)))
    case EAnd(a, b) => if Truthy(Eval(env, a, R)) then Eval(env, b, R) else Eval(env, a, R)
    case EOr(a, b) => if Truthy(Eval(env, a, R)) then Eval(env, a, R) else Eval(env, b, R)
    case ECmp(op, a, b) => VBool(CompareValue(env, op, Eval(env, a, R), Eval(env, b, R)))
  }

  /** Only active local variables are mentioned. */
  predicate Scoped(e: Expr, nact: nat) {
    match e
    case ELocal(r) => r < nact
    case ENot(a) => Scoped(a, nact)
    case EAnd(a, b) => Scoped(a, nact) && Scoped(b, nact)
    case EOr(a, b) => Scoped(a, nact) && Scoped(b, nact)
    case ECmp(_, a, b) => Scoped(a, nact) && Scoped(b, nact)
    case _ => true
  }

  /** The generator's walk over an expression (`subexpr` with `luaK_prefix`,
      `luaK_infix` and `luaK_posfix`). */
  function Compile(s: St, e: Expr): (St, Exp)
    decreases e
  {
    match e
    case ENil => (s, Exp(KNil, [], []))
    case ETrue => (s, Exp(KTrue, [], []))
    case EFalse => (s, Exp(KFalse, [], []))
    case ENum(n) => (s, Exp(KConst(VData(n)), [], []))
    case ELocal(r) => (s, Exp(KLocal(r), [], []))
    case EGlobal(n) => (s, Exp(KGlobal(n), [], []))
    case ENot(a) =>
      var (s1, e1) := Compile(s, a);
      CodeNot(s1, e1)
    case EAnd(a, b) =>
      var (s1, e1) := Compile(s, a);
      var (s2, e2) := GoIfTrue(s1, e1);
      var (s3, e3) := Compile(s2, b);
      PosfixAnd(s3, e2, e3)
    case EOr(a, b) =>
      var (s1, e1) := Compile(s, a);
      var (s2, e2) := GoIfFalse(s1, e1);
      var (s3, e3) := Compile(s2, b);
      PosfixOr(s3, e2, e3)
    case ECmp(op, a, b) =>
      var (s1, e1) := Compile(s, a);
      var (s2, e2, x) := Exp2RK(s1, e1);
      var (s3, e3) := Compile(s2, b);
      PosfixCompare(s3, op, e2, x, e3)
  }

  function PosfixAnd(s: St, e1: Exp, e2: Exp): (St, Exp) {
    var (s', e) := DischargeVars(s, e2);
    (s', e.(f := e.f + e1.f))
  }

  function PosfixOr(s: St, e1: Exp, e2: Exp): (St, Exp) {
    var (s', e) := DischargeVars(s, e2);
    (s', e.(t := e.t + e1.t))
  }

  /** `codecomp`, the first operand being in place already. */
  function PosfixCompare(s: St, op: CompareOp, e1: Exp, x: RK, e2: Exp): (St, Exp) {
    var (s1, e, y) := Exp2RK(s, e2);
    var (s2, j) := CondJump(FreeExp(FreeExp(s1, e), e1), CompareInstr(op, x, y));
    (s2, Exp(KJmp(j), [], []))
  }
}
