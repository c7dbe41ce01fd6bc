/**
  Whether the generated code of an expression is always right can be found out on
  finitely many inputs: each variable nil, false or a number of its own, and any
  answers to the comparisons that can be asked of such values.
 */
module CodeSamples {
  import opened Common
  import opened CodeModel
  import opened CodeFlow
  import opened CodeRight

  // ---------------------------------------------------------------- runs are carried over

  /** The value of a variable. */
  function VarValue(env: Env, R: Regs, x: Var): Value {
    match x
    case L(r) => Get(R, r)
    case G(n) => env.glob(n)
  }

  function Literals(e: Expr): set<int> {
    match e
    case ENum(n) => {n}
    case ENot(a) => Literals(a)
    case EAnd(a, b) => Literals(a) + Literals(b)
    case EOr(a, b) => Literals(a) + Literals(b)
    case ECmp(_, a, b) => Literals(a) + Literals(b)
    case _ => {}
  }

  /** `h` keeps truth, and everything in `D` but data. */
  ghost predicate Truthful(h: Value -> Value, D: set<Value>) {
    && {VNil, VBool(true), VBool(false)} <= D
    && forall v :: v in D ==> Truthy(h(v)) == Truthy(v) && (!v.VData? ==> h(v) == v)
  }

  ghost predicate LiteralsStand(h: Value -> Value, D: set<Value>, e: Expr) {
    forall n :: n in Literals(e) ==> VData(n) in D && h(VData(n)) == VData(n)
  }

  ghost predicate VarsStand(env: Env, R: Regs, env': Env, R': Regs, h: Value -> Value, D: set<Value>, e: Expr) {
    forall x :: x in Vars(e) ==> VarValue(env', R', x) in D && h(VarValue(env', R', x)) == VarValue(env, R, x)
  }

  ghost predicate AnswersStand(env: Env, env': Env, h: Value -> Value, D: set<Value>) {
    forall rel, u, v :: u in D && v in D ==> env'.cmp(rel, u, v) == env.cmp(rel, h(u), h(v))
  }

  /** The values of one setting stand, by `h`, for those of another: so do its
      literals and variables, and comparisons have the same answers. */
  ghost predicate StandsFor(env: Env, R: Regs, env': Env, R': Regs, h: Value -> Value, D: set<Value>, e: Expr) {
    && Truthful(h, D) && LiteralsStand(h, D, e) && VarsStand(env, R, env', R', h, D, e)
    && AnswersStand(env, env', h, D)
  }

  predicate CargoIn(D: set<Value>, c: Cargo) {
    c.Some? ==> c.value in D
  }

  function CargoOf(h: Value -> Value, c: Cargo): Cargo {
    if c.Some? then Some(h(c.value)) else None
  }

  predicate FlowWithin(D: set<Value>, x: Flow) {
    match x
    case End(v, w) => v in D && CargoIn(D, w)
    case Out(_, c) => CargoIn(D, c)
  }

  function FlowOf(h: Value -> Value, x: Flow): Flow {
    match x
    case End(v, w) => End(h(v), CargoOf(h, w))
    case Out(b, c) => Out(b, CargoOf(h, c))
  }

  /** The meaning is carried over. */
  lemma {:induction false} EvalCarried(env: Env, R: Regs, env': Env, R': Regs, h: Value -> Value, D: set<Value>,
      e: Expr)
    requires StandsFor(env, R, env', R', h, D, e)
    ensures Eval(env', e, R') in D && h(Eval(env', e, R')) == Eval(env, e, R)
  {
    match e {
      case ENot(a) => EvalCarried(env, R, env', R', h, D, a);
      case EAnd(a, b) => EvalCarried(env, R, env', R', h, D, a); EvalCarried(env, R, env', R', h, D, b);
      case EOr(a, b) => EvalCarried(env, R, env', R', h, D, a); EvalCarried(env, R, env', R', h, D, b);
      case ECmp(_, a, b) => EvalCarried(env, R, env', R', h, D, a); EvalCarried(env, R, env', R', h, D, b);
      case ELocal(r) => assert L(r) in Vars(e); assert VarValue(env', R', L(r)) in D;
      case EGlobal(n) => assert G(n) in Vars(e); assert VarValue(env', R', G(n)) in D;
      case ENum(n) => assert n in Literals(e);
      case _ =>
    }
  }

  lemma GoesCarried(h: Value -> Value, D: set<Value>, f: Form, x: Flow, cond: bool)
    requires FlowWithin(D, x) && forall v :: v in D ==> Truthy(h(v)) == Truthy(v)
    ensures var n := Goes(f, x, cond);
      && CargoIn(D, if n.On? then n.waits else n.cargo)
      && Goes(f, FlowOf(h, x), cond) == if n.On? then On(CargoOf(h, n.waits)) else Off(CargoOf(h, n.cargo))
  {
  }

  /** So is the flow. */
  lemma {:induction false} FlowCarried(env: Env, R: Regs, env': Env, R': Regs, h: Value -> Value, D: set<Value>,
      e: Expr, w: Cargo)
    requires StandsFor(env, R, env', R', h, D, e) && CargoIn(D, w)
    ensures var x := Flows(env', e, R', w);
      FlowWithin(D, x) && FlowOf(h, x) == Flows(env, e, R, CargoOf(h, w))
    decreases e, 1
  {
    match e {
      case ENot(a) => FlowCarried(env, R, env', R', h, D, a, w);
      case EAnd(a, b) => JoinCarried(env, R, env', R', h, D, a, b, false, w);
      case EOr(a, b) => JoinCarried(env, R, env', R', h, D, a, b, true, w);
      case ECmp(op, a, b) => CompareCarried(env, R, env', R', h, D, op, a, b, w);
      case ELocal(r) => assert L(r) in Vars(e); assert VarValue(env', R', L(r)) in D;
      case EGlobal(n) => assert G(n) in Vars(e); assert VarValue(env', R', G(n)) in D;
      case ENum(n) => assert n in Literals(e);
      case _ =>
    }
  }

  lemma {:induction false} JoinCarried(env: Env, R: Regs, env': Env, R': Regs, h: Value -> Value, D: set<Value>,
      a: Expr, b: Expr, cond: bool, w: Cargo)
    requires StandsFor(env, R, env', R', h, D, Join(cond, a, b)) && CargoIn(D, w)
    ensures var x := Flows(env', Join(cond, a, b), R', w);
      FlowWithin(D, x) && FlowOf(h, x) == Flows(env, Join(cond, a, b), R, CargoOf(h, w))
    decreases Join(cond, a, b), 0
  {
    assert StandsFor(env, R, env', R', h, D, a) && StandsFor(env, R, env', R', h, D, b);
    FlowCarried(env, R, env', R', h, D, a, w);
    GoesCarried(h, D, Ends(a), Flows(env', a, R', w), cond);
    var n := Goes(Ends(a), Flows(env', a, R', w), cond);
    if n.On? { FlowCarried(env, R, env', R', h, D, b, n.waits); }
  }

  lemma PassesCarried(h: Value -> Value, D: set<Value>, e: Expr, x: Flow)
    requires FlowWithin(D, x)
    ensures CargoIn(D, Passes(e, x)) && Passes(e, FlowOf(h, x)) == CargoOf(h, Passes(e, x))
  {
  }

  lemma LeftCarried(h: Value -> Value, D: set<Value>, x: Flow)
    requires FlowWithin(D, x) && {VBool(true), VBool(false)} <= D && forall v :: v in D && !v.VData? ==> h(v) == v
    ensures Left(x) in D && Left(FlowOf(h, x)) == h(Left(x))
  {
  }

  lemma AnswerCarried(env: Env, env': Env, h: Value -> Value, D: set<Value>, op: CompareOp, u: Value, v: Value)
    requires AnswersStand(env, env', h, D) && u in D && v in D
    ensures CompareValue(env', op, u, v) == CompareValue(env, op, h(u), h(v))
  {
  }

  lemma OperandsStand(env: Env, R: Regs, env': Env, R': Regs, h: Value -> Value, D: set<Value>, op: CompareOp,
      a: Expr, b: Expr)
    requires StandsFor(env, R, env', R', h, D, ECmp(op, a, b))
    ensures StandsFor(env, R, env', R', h, D, a) == true && StandsFor(env, R, env', R', h, D, b) == true
  {
  }

  lemma {:induction false} CompareCarried(env: Env, R: Regs, env': Env, R': Regs, h: Value -> Value, D: set<Value>,
      op: CompareOp, a: Expr, b: Expr, w: Cargo)
    requires StandsFor(env, R, env', R', h, D, ECmp(op, a, b)) && CargoIn(D, w)
    ensures var x := Flows(env', ECmp(op, a, b), R', w);
      FlowWithin(D, x) && FlowOf(h, x) == Flows(env, ECmp(op, a, b), R, CargoOf(h, w))
    decreases ECmp(op, a, b), 0
  {
    OperandsStand(env, R, env', R', h, D, op, a, b);
    var x := Flows(env', a, R', w);
    FlowCarried(env, R, env', R', h, D, a, w);
    PassesCarried(h, D, a, x);
    var y := Flows(env', b, R', Passes(a, x));
    FlowCarried(env, R, env', R', h, D, b, Passes(a, x));
    LeftCarried(h, D, x);
    LeftCarried(h, D, y);
    AnswerCarried(env, env', h, D, op, Left(x), Left(y));
  }

  // ---------------------------------------------------------------- the samples

  /** Above every literal. */
  function Base(e: Expr): (n: nat)
    ensures forall k :: k in Literals(e) ==> k < n
  {
    match e
    case ENum(n) => if n < 0 then 0 else n + 1
    case ENot(a) => Base(a)
    case EAnd(a, b) => Base(a) + Base(b)
    case EOr(a, b) => Base(a) + Base(b)
    case ECmp(_, a, b) => Base(a) + Base(b)
    case _ => 0
  }

  /** Variables are numbered, locals and globals in turn. */
  function Number(x: Var): nat {
    match x
    case L(r) => 3 * r
    case G(n) => if n >= 0 then 3 * n + 1 else 3 * (-n - 1) + 2
  }

  function Numbered(k: nat): Var {
    if k % 3 == 0 then L(k / 3) else if k % 3 == 1 then G(k / 3) else G(-(k / 3) - 1)
  }

  lemma Thirds(q: nat, r: nat)
    requires r < 3
    ensures (3 * q + r) / 3 == q && (3 * q + r) % 3 == r
  {
  }

  lemma NumberedBack(x: Var)
    ensures Numbered(Number(x)) == x
  {
    match x {
      case L(r) => Thirds(r, 0);
      case G(n) => if n >= 0 { Thirds(n, 1); } else { Thirds(-n - 1, 2); }
    }
  }

  function Own(base: nat, x: Var): Value {
    VData(base + Number(x))
  }

  /** What a comparison asks of two values. */
  datatype Question = Question(rel: Rel, u: Value, v: Value)

  /** In a sample, the variables in `T` hold a number of their own, those in `F`
      false, the others nil; a comparison holds of what is in `A`. */

  function SampleValue(base: nat, T: set<Var>, F: set<Var>, x: Var): Value {
    if x in T then Own(base, x) else if x in F then VBool(false) else VNil
  }

  function SampleEnv(base: nat, T: set<Var>, F: set<Var>, A: set<Question>): Env {
    Env(n => SampleValue(base, T, F, G(n)), (rel, u, v) => Question(rel, u, v) in A)
  }

  function SampleRegs(base: nat, T: set<Var>, F: set<Var>): Regs {
    map x | x in T + F && x.L? :: x.r := SampleValue(base, T, F, x)
  }

  /** The values that occur in a sample. */
  function SampleValues(e: Expr): set<Value> {
    {VNil, VBool(true), VBool(false)} + (set n | n in Literals(e) :: VData(n))
      + (set x | x in Vars(e) :: Own(Base(e), x))
  }

  /** What can be asked of them. */
  function Questions(e: Expr): set<Question> {
    set rel, u, v | rel in {Eq, Lt, Le} && u in SampleValues(e) && v in SampleValues(e) :: Question(rel, u, v)
  }

  /** The code leaves the value of the expression. */
  predicate RightFor(env: Env, e: Expr, R: Regs) {
    CodeValue(env, e, R) == Eval(env, e, R)
  }

  /** The code goes by the truth of the expression. */
  predicate TrueFor(env: Env, e: Expr, R: Regs) {
    FlowTruth(Flows(env, e, R, None)) == Truthy(Eval(env, e, R))
  }

  predicate RightOn(e: Expr, T: set<Var>, F: set<Var>, A: set<Question>) {
    RightFor(SampleEnv(Base(e), T, F, A), e, SampleRegs(Base(e), T, F))
  }

  predicate TrueOn(e: Expr, T: set<Var>, F: set<Var>, A: set<Question>) {
    TrueFor(SampleEnv(Base(e), T, F, A), e, SampleRegs(Base(e), T, F))
  }

  /** The code leaves the right value on every sample.  There are finitely many. */
  predicate RightOnSamples(e: Expr) {
    forall T, F, A :: T <= Vars(e) && F <= Vars(e) && A <= Questions(e) ==> RightOn(e, T, F, A)
  }

  predicate TrueOnSamples(e: Expr) {
    forall T, F, A :: T <= Vars(e) && F <= Vars(e) && A <= Questions(e) ==> TrueOn(e, T, F, A)
  }

  // ---------------------------------------------------------------- they are enough

  /** What a value of a sample stands for. */
  function Meant(env: Env, R: Regs, base: nat): Value -> Value {
    (v: Value) => if v.VData? && v.id >= base && Truthy(VarValue(env, R, Numbered(v.id - base)))
        then VarValue(env, R, Numbered(v.id - base)) else v
  }

  lemma SampleRegsGet(base: nat, T: set<Var>, F: set<Var>, r: nat)
    ensures Get(SampleRegs(base, T, F), r) == SampleValue(base, T, F, L(r))
  {
    if L(r) in T + F { assert SampleRegs(base, T, F)[L(r).r] == SampleValue(base, T, F, L(r)); }
  }

  lemma OwnMeant(env: Env, R: Regs, base: nat, x: Var)
    requires Truthy(VarValue(env, R, x))
    ensures Meant(env, R, base)(Own(base, x)) == VarValue(env, R, x)
  {
    NumberedBack(x);
  }

  lemma OwnIn(e: Expr, x: Var)
    requires x in Vars(e)
    ensures Own(Base(e), x) in SampleValues(e)
  {
    assert Own(Base(e), x) in set y | y in Vars(e) :: Own(Base(e), y);
  }

  function TrueVars(env: Env, R: Regs, e: Expr): set<Var> {
    set x | x in Vars(e) && Truthy(VarValue(env, R, x))
  }

  function FalseVars(env: Env, R: Regs, e: Expr): set<Var> {
    set x | x in Vars(e) && VarValue(env, R, x) == VBool(false)
  }

  function Answers(env: Env, h: Value -> Value, e: Expr): set<Question> {
    set q | q in Questions(e) && env.cmp(q.rel, h(q.u), h(q.v))
  }

  /** The sample's value of a variable stands for the variable's. */
  lemma VariableSampled(env: Env, R: Regs, e: Expr, x: Var)
    requires x in Vars(e)
    ensures var v := SampleValue(Base(e), TrueVars(env, R, e), FalseVars(env, R, e), x);
      v in SampleValues(e) && Meant(env, R, Base(e))(v) == VarValue(env, R, x)
  {
    if Truthy(VarValue(env, R, x)) {
      OwnMeant(env, R, Base(e), x);
      OwnIn(e, x);
    }
  }

  lemma VariableRead(base: nat, T: set<Var>, F: set<Var>, A: set<Question>, x: Var)
    ensures VarValue(SampleEnv(base, T, F, A), SampleRegs(base, T, F), x) == SampleValue(base, T, F, x)
  {
    if x.L? { SampleRegsGet(base, T, F, x.r); }
  }

  lemma VarsSampled(env: Env, R: Regs, e: Expr, T: set<Var>, F: set<Var>, A: set<Question>)
    requires T == TrueVars(env, R, e) && F == FalseVars(env, R, e)
    ensures VarsStand(env, R, SampleEnv(Base(e), T, F, A), SampleRegs(Base(e), T, F), Meant(env, R, Base(e)),
        SampleValues(e), e) == true
  {
    var env', R' := SampleEnv(Base(e), T, F, A), SampleRegs(Base(e), T, F);
    forall x | x in Vars(e)
      ensures VarValue(env', R', x) in SampleValues(e)
        && Meant(env, R, Base(e))(VarValue(env', R', x)) == VarValue(env, R, x)
    {
      VariableRead(Base(e), T, F, A, x);
      VariableSampled(env, R, e, x);
    }
  }

  lemma LiteralIn(e: Expr, n: int)
    requires n in Literals(e)
    ensures VData(n) in SampleValues(e)
  {
    assert VData(n) in set k | k in Literals(e) :: VData(k);
  }

  lemma MeantTruthful(env: Env, R: Regs, base: nat, D: set<Value>)
    requires {VNil, VBool(true), VBool(false)} <= D
    ensures Truthful(Meant(env, R, base), D) == true
  {
  }

  lemma ValuesSampled(env: Env, R: Regs, e: Expr)
    ensures Truthful(Meant(env, R, Base(e)), SampleValues(e)) == true
  {
    assert {VNil, VBool(true), VBool(false)} <= SampleValues(e);
    MeantTruthful(env, R, Base(e), SampleValues(e));
  }

  lemma LiteralsSampled(env: Env, R: Regs, e: Expr)
    ensures LiteralsStand(Meant(env, R, Base(e)), SampleValues(e), e) == true
  {
    forall n | n in Literals(e) ensures VData(n) in SampleValues(e) && Meant(env, R, Base(e))(VData(n)) == VData(n) {
      LiteralIn(e, n);
    }
  }

  lemma Asked(e: Expr, rel: Rel, u: Value, v: Value)
    requires u in SampleValues(e) && v in SampleValues(e)
    ensures Question(rel, u, v) in Questions(e)
  {
    assert rel.Eq? || rel.Lt? || rel.Le?;
    assert rel in {Eq, Lt, Le};
  }

  lemma AnswersSampled(env: Env, h: Value -> Value, e: Expr, T: set<Var>, F: set<Var>)
    ensures AnswersStand(env, SampleEnv(Base(e), T, F, Answers(env, h, e)), h, SampleValues(e)) == true
  {
    var env' := SampleEnv(Base(e), T, F, Answers(env, h, e));
    forall rel, u, v | u in SampleValues(e) && v in SampleValues(e)
      ensures env'.cmp(rel, u, v) == env.cmp(rel, h(u), h(v))
    {
      Asked(e, rel, u, v);
    }
  }

  /** Every input has a sample that stands for it. */
  lemma Sampled(env: Env, R: Regs, e: Expr) returns (T: set<Var>, F: set<Var>, A: set<Question>)
    ensures T <= Vars(e) && F <= Vars(e) && A <= Questions(e)
    ensures StandsFor(env, R, SampleEnv(Base(e), T, F, A), SampleRegs(Base(e), T, F), Meant(env, R, Base(e)),
      SampleValues(e), e) == true
  {
    T, F := TrueVars(env, R, e), FalseVars(env, R, e);
    A := Answers(env, Meant(env, R, Base(e)), e);
    VarsSampled(env, R, e, T, F, A);
    ValuesSampled(env, R, e);
    LiteralsSampled(env, R, e);
    AnswersSampled(env, Meant(env, R, Base(e)), e, T, F);
  }

  /** The code leaves the right value on every input exactly when it does on every sample. */
  lemma RightIff(e: Expr)
    ensures (forall env, R :: RightFor(env, e, R)) <==> RightOnSamples(e)
  {
    if RightOnSamples(e) {
      forall env, R ensures RightFor(env, e, R) {
        var T, F, A := Sampled(env, R, e);
        assert RightOn(e, T, F, A);
        Carried(env, R, e, T, F, A);
      }
    } else {
      var T, F, A :| T <= Vars(e) && F <= Vars(e) && A <= Questions(e) && !RightOn(e, T, F, A);
      assert !RightFor(SampleEnv(Base(e), T, F, A), e, SampleRegs(Base(e), T, F));
    }
  }

  /** And it goes by the truth on every input exactly when it does on every sample. */
  lemma TrueIff(e: Expr)
    ensures (forall env, R :: TrueFor(env, e, R)) <==> TrueOnSamples(e)
  {
    if TrueOnSamples(e) {
      forall env, R ensures TrueFor(env, e, R) {
        var T, F, A := Sampled(env, R, e);
        assert TrueOn(e, T, F, A);
        Carried(env, R, e, T, F, A);
      }
    } else {
      var T, F, A :| T <= Vars(e) && F <= Vars(e) && A <= Questions(e) && !TrueOn(e, T, F, A);
      assert !TrueFor(SampleEnv(Base(e), T, F, A), e, SampleRegs(Base(e), T, F));
    }
  }

  lemma Carried(env: Env, R: Regs, e: Expr, T: set<Var>, F: set<Var>, A: set<Question>)
    requires StandsFor(env, R, SampleEnv(Base(e), T, F, A), SampleRegs(Base(e), T, F), Meant(env, R, Base(e)),
      SampleValues(e), e)
    ensures RightOn(e, T, F, A) ==> RightFor(env, e, R)
    ensures TrueOn(e, T, F, A) ==> TrueFor(env, e, R)
  {
    var h, D := Meant(env, R, Base(e)), SampleValues(e);
    var env', R' := SampleEnv(Base(e), T, F, A), SampleRegs(Base(e), T, F);
    EvalCarried(env, R, env', R', h, D, e);
    FlowCarried(env, R, env', R', h, D, e, None);
    LeftCarried(h, D, Flows(env', e, R', None));
  }
}
