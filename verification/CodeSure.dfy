/**
  Conditions with a comparison: when the code goes by their truth.  A comparison
  goes wrong if it can see a value that a literal has absorbed, and the condition
  with it, unless what follows settles its truth anyway.
 */
module CodeSure {
  import opened Common
  import opened CodeModel
  import opened CodeFlow
  import opened CodeRight

  predicate Compares(e: Expr) {
    match e
    case ENot(a) => Compares(a)
    case EAnd(a, b) => Compares(a) || Compares(b)
    case EOr(a, b) => Compares(a) || Compares(b)
    case ECmp(_, _, _) => true
    case _ => false
  }

  /** Every variable occurs once, and there is at most one comparison. */
  predicate Single(e: Expr) {
    match e
    case ENot(a) => Single(a)
    case EAnd(a, b) => Single(a) && Single(b) && Vars(a) !! Vars(b) && !(Compares(a) && Compares(b))
    case EOr(a, b) => Single(a) && Single(b) && Vars(a) !! Vars(b) && !(Compares(a) && Compares(b))
    case ECmp(_, a, b) => Linear(a) && Linear(b) && Vars(a) !! Vars(b)
    case _ => true
  }

  predicate FateTruth(f: Fate) {
    match f
    case FEnd(t, _) => t
    case FOut(b, _) => b
  }

  /** An expression without comparisons can have the truth value. */
  predicate MayBe(e: Expr, t: bool) {
    exists f :: f in Fates(e, false) && FateTruth(f) == t
  }

  /** The code goes by the truth of the expression, whatever it is run on. */
  predicate Sure(e: Expr, w: bool) {
    match e
    case ENot(a) => Sure(a, w)
    case EAnd(a, b) => SureJoined(a, b, false, w, Sure(a, w), Sure(b, false), Sure(b, true))
    case EOr(a, b) => SureJoined(a, b, true, w, Sure(a, w), Sure(b, false), Sure(b, true))
    case ECmp(_, _, _) => Clean(e, w)
    case _ => true
  }

  predicate SureJoined(a: Expr, b: Expr, cond: bool, w: bool, first: bool, idle: bool, waiting: bool) {
    if Compares(a) then first || !MayBe(b, !cond)
    else CleanJoined(Ends(a), Fates(a, w), cond, idle, waiting)
  }

  // ---------------------------------------------------------------- it is enough

  lemma {:induction false} NoneCompared(e: Expr)
    requires Single(e) && !Compares(e)
    ensures Linear(e)
  {
    match e {
      case ENot(a) => NoneCompared(a);
      case EAnd(a, b) => NoneCompared(a); NoneCompared(b);
      case EOr(a, b) => NoneCompared(a); NoneCompared(b);
      case _ =>
    }
  }

  lemma LinearRight(env: Env, e: Expr, R: Regs, w: Cargo)
    requires Linear(e)
    ensures FlowTruth(Flows(env, e, R, w)) == Truthy(Eval(env, e, R))
    ensures MayBe(e, Truthy(Eval(env, e, R)))
  {
    LinearCompares(env, e, R, w);
    FlowRight(env, e, R, w);
    LinearCompares(env, e, R, None);
    FlowRight(env, e, R, None);
    var f := FateOf(env, e, R, None);
    assert f in Fates(e, false) && FateTruth(f) == Truthy(Eval(env, e, R));
  }

  lemma {:induction false} SureRight(env: Env, e: Expr, R: Regs, w: Cargo)
    requires Single(e) && Sure(e, w.Some?)
    ensures FlowTruth(Flows(env, e, R, w)) == Truthy(Eval(env, e, R))
    decreases e, 1
  {
    match e {
      case ENot(a) => SureRight(env, a, R, w);
      case EAnd(a, b) => SureJoin(env, a, b, false, R, w);
      case EOr(a, b) => SureJoin(env, a, b, true, R, w);
      case ECmp(_, _, _) => CleanRight(env, e, R, w); FlowRight(env, e, R, w);
      case _ =>
    }
  }

  lemma {:induction false} SureJoin(env: Env, a: Expr, b: Expr, cond: bool, R: Regs, w: Cargo)
    requires Single(Join(cond, a, b)) && Sure(Join(cond, a, b), w.Some?)
    ensures FlowTruth(Flows(env, Join(cond, a, b), R, w)) == Truthy(Eval(env, Join(cond, a, b), R))
    decreases Join(cond, a, b), 0
  {
    JoinTruth(env, a, b, cond, R, w);
    var n := Goes(Ends(a), Flows(env, a, R, w), cond);
    if Compares(a) {
      NoneCompared(b);
      LinearRight(env, b, R, if n.On? then n.waits else None);
      if Sure(a, w.Some?) { SureRight(env, a, R, w); }
    } else {
      NoneCompared(a);
      LinearRight(env, a, R, w);
      GoesOn(env, a, b, cond, R, w);
      if n.On? { SureRight(env, b, R, n.waits); }
    }
  }

  lemma JoinIs(env: Env, a: Expr, b: Expr, cond: bool, R: Regs, w: Cargo)
    ensures var n := Goes(Ends(a), Flows(env, a, R, w), cond);
      Flows(env, Join(cond, a, b), R, w) == if n.Off? then Out(cond, n.cargo) else Flows(env, b, R, n.waits)
    ensures var v := Eval(env, a, R);
      Eval(env, Join(cond, a, b), R) == if Truthy(v) == cond then v else Eval(env, b, R)
  {
  }

  /** How the truth of a connective comes about, in the code and in the meaning. */
  lemma JoinTruth(env: Env, a: Expr, b: Expr, cond: bool, R: Regs, w: Cargo)
    ensures var x := Flows(env, a, R, w); var n := Goes(Ends(a), x, cond);
      && n.On? == (FlowTruth(x) != cond)
      && FlowTruth(Flows(env, Join(cond, a, b), R, w)) == if n.On? then FlowTruth(Flows(env, b, R, n.waits)) else cond
    ensures Truthy(Eval(env, Join(cond, a, b), R))
      == if Truthy(Eval(env, a, R)) == cond then cond else Truthy(Eval(env, b, R))
  {
    JoinIs(env, a, b, cond, R, w);
    EndValue(env, a, R, w);
    GoesByTruth(Ends(a), Flows(env, a, R, w), cond);
  }

  /** Where the first operand goes on, the walk has foreseen it. */
  lemma GoesOn(env: Env, a: Expr, b: Expr, cond: bool, R: Regs, w: Cargo)
    requires Linear(a) && CleanJoined(Ends(a), Fates(a, w.Some?), cond, Sure(b, false), Sure(b, true))
    ensures var n := Goes(Ends(a), Flows(env, a, R, w), cond); n.On? ==> Sure(b, n.waits.Some?)
  {
    var x := Flows(env, a, R, w);
    EndValue(env, a, R, w);
    LinearCompares(env, a, R, w);
    var f := FateOf(env, a, R, w);
    GoesForeseen(Ends(a), x, f, Eval(env, a, R), cond);
  }

  // ---------------------------------------------------------------- and nothing less is

  type Answer = (Rel, Value, Value) -> bool

  /** The variables in `T` hold a number, the others nil, and `c` answers the comparison. */
  function FlowWith(T: set<Var>, c: Answer, e: Expr, w: Cargo): Flow {
    Flows(EnvOf(T).(cmp := c), e, RegsOf(T), w)
  }

  function ValueWith(T: set<Var>, c: Answer, e: Expr): Value {
    Eval(EnvOf(T).(cmp := c), e, RegsOf(T))
  }

  /** What is not compared does not depend on the answers. */
  lemma {:induction false} Unasked(T: set<Var>, c: Answer, e: Expr, w: Cargo)
    requires Linear(e)
    ensures FlowWith(T, c, e, w) == FlowIn(T, e, w) && ValueWith(T, c, e) == ValueIn(T, e)
  {
    match e {
      case ENot(a) => Unasked(T, c, a, w);
      case EAnd(a, b) =>
        Unasked(T, c, a, w);
        Unasked(T, c, b, Waiting(Goes(Ends(a), FlowIn(T, a, w), false)));
      case EOr(a, b) =>
        Unasked(T, c, a, w);
        Unasked(T, c, b, Waiting(Goes(Ends(a), FlowIn(T, a, w), true)));
      case _ =>
    }
  }

  /** An operand without comparison, whatever the answers and the other variables. */
  lemma Aside(T: set<Var>, T': set<Var>, c: Answer, e: Expr, w: Cargo)
    requires Linear(e) && forall v :: v in Vars(e) ==> (v in T <==> v in T')
    ensures FlowWith(T, c, e, w) == FlowIn(T', e, w) && ValueWith(T, c, e) == ValueIn(T', e)
  {
    Unasked(T, c, e, w);
    FlowOn(T, T', e, w);
  }

  lemma {:induction false} SingleOn(T: set<Var>, T': set<Var>, c: Answer, e: Expr, w: Cargo)
    requires Single(e) && forall v :: v in Vars(e) ==> (v in T <==> v in T')
    ensures FlowWith(T, c, e, w) == FlowWith(T', c, e, w) && ValueWith(T, c, e) == ValueWith(T', c, e)
    decreases e
  {
    match e {
      case ENot(a) => SingleOn(T, T', c, a, w);
      case EAnd(a, b) =>
        SingleOn(T, T', c, a, w);
        SingleOn(T, T', c, b, Waiting(Goes(Ends(a), FlowWith(T, c, a, w), false)));
      case EOr(a, b) =>
        SingleOn(T, T', c, a, w);
        SingleOn(T, T', c, b, Waiting(Goes(Ends(a), FlowWith(T, c, a, w), true)));
      case ECmp(_, a, b) =>
        var p := Passes(a, FlowIn(T, a, w));
        Aside(T, T, c, a, w);
        Aside(T', T, c, a, w);
        Aside(T, T, c, b, p);
        Aside(T', T, c, b, p);
      case _ => Aside(T, T, c, e, w); Aside(T', T, c, e, w);
    }
  }

  /** The answer that tells two pairs of operands apart. */
  function Apart(op: CompareOp, u: Value, v: Value): Answer {
    (rel, p, q) => if op.OGt? || op.OGe? then p == v && q == u else p == u && q == v
  }

  lemma ApartTells(env: Env, op: CompareOp, u: Value, v: Value, u': Value, v': Value)
    requires env.cmp == Apart(op, u, v) && (u, v) != (u', v')
    ensures CompareValue(env, op, u, v) != CompareValue(env, op, u', v')
  {
  }

  /** The operands of a comparison that is not clean, where one of them is wrong. */
  lemma Misled(op: CompareOp, a: Expr, b: Expr, w: Cargo) returns (T: set<Var>)
    requires Single(ECmp(op, a, b)) && !Clean(ECmp(op, a, b), w.Some?) && Mild(w)
    ensures T <= Vars(a) + Vars(b)
    ensures var x := FlowIn(T, a, w);
      Left(x) != ValueIn(T, a) || Left(FlowIn(T, b, Passes(a, x))) != ValueIn(T, b)
  {
    LinearClean(a, w.Some?);
    if f :| f in Fates(a, w.Some?) && f.FOut? && f.c.Stale? {
      T := Happens(a, w, f);
      MildFlow(T, a, w);
      StaleWrong(FlowIn(T, a, w), f, ValueIn(T, a));
    } else {
      LinearClean(b, false);
      LinearClean(b, true);
      var f :| f in Fates(a, w.Some?) && !NoneStale(Fates(b, FatePasses(a, f)));
      var g :| g in Fates(b, FatePasses(a, f)) && g.FOut? && g.c.Stale?;
      var T1 := Happens(a, w, f);
      MildFlow(T1, a, w);
      var p := Passes(a, FlowIn(T1, a, w));
      var T2 := Happens(b, p, g);
      MildFlow(T2, b, p);
      StaleWrong(FlowIn(T2, b, p), g, ValueIn(T2, b));
      T := T1 + T2;
      FlowOn(T, T1, a, w);
      FlowOn(T, T2, b, p);
    }
  }

  /** The code does not go by the truth. */
  predicate Wrong(T: set<Var>, c: Answer, e: Expr, w: Cargo) {
    FlowTruth(FlowWith(T, c, e, w)) != Truthy(ValueWith(T, c, e))
  }

  lemma CompareWrong(op: CompareOp, a: Expr, b: Expr, w: Cargo) returns (T: set<Var>, c: Answer)
    requires Single(ECmp(op, a, b)) && !Clean(ECmp(op, a, b), w.Some?) && Mild(w)
    ensures T <= Vars(a) + Vars(b) && Wrong(T, c, ECmp(op, a, b), w)
  {
    T := Misled(op, a, b, w);
    var x := FlowIn(T, a, w);
    var y := FlowIn(T, b, Passes(a, x));
    c := Apart(op, Left(x), Left(y));
    Unasked(T, c, a, w);
    Unasked(T, c, b, Passes(a, x));
    ApartTells(EnvOf(T).(cmp := c), op, Left(x), Left(y), ValueIn(T, a), ValueIn(T, b));
  }

  /** Where the condition is not sure, the code goes wrong for some values. */
  lemma {:induction false} SureOnly(e: Expr, w: Cargo) returns (T: set<Var>, c: Answer)
    requires Single(e) && !Sure(e, w.Some?) && Mild(w)
    ensures T <= Vars(e) && Wrong(T, c, e, w)
    decreases e, 1
  {
    match e {
      case ENot(a) => T, c := SureOnly(a, w);
      case EAnd(a, b) => T, c := JoinOnly(a, b, false, w);
      case EOr(a, b) => T, c := JoinOnly(a, b, true, w);
      case ECmp(op, a, b) => T, c := CompareWrong(op, a, b, w);
    }
  }

  lemma {:induction false} JoinOnly(a: Expr, b: Expr, cond: bool, w: Cargo) returns (T: set<Var>, c: Answer)
    requires Single(Join(cond, a, b)) && !Sure(Join(cond, a, b), w.Some?) && Mild(w)
    ensures T <= Vars(Join(cond, a, b)) && Wrong(T, c, Join(cond, a, b), w)
    decreases Join(cond, a, b), 0
  {
    if Compares(a) {
      T, c := FirstOnly(a, b, cond, w);
    } else {
      NoneCompared(a);
      var f :| f in Fates(a, w.Some?) && FateGoes(Ends(a), f, cond).FOn? && !Sure(b, FateGoes(Ends(a), f, cond).w);
      var T1 := Happens(a, w, f);
      FirstHappens(a, cond, w, f, T1);
      var n := Goes(Ends(a), FlowIn(T1, a, w), cond);
      var T2;
      T2, c := SureOnly(b, n.waits);
      T := T1 + T2;
      Aside(T, T1, c, a, w);
      SingleOn(T, T2, c, b, n.waits);
    }
  }

  /** The comparison is in the first operand, and the second does not settle the truth. */
  lemma {:induction false} FirstOnly(a: Expr, b: Expr, cond: bool, w: Cargo) returns (T: set<Var>, c: Answer)
    requires Single(Join(cond, a, b)) && !Sure(Join(cond, a, b), w.Some?) && Mild(w) && Compares(a)
    ensures T <= Vars(Join(cond, a, b)) && Wrong(T, c, Join(cond, a, b), w)
    decreases a, 2
  {
    var T1;
    T1, c := SureOnly(a, w);
    NoneCompared(b);
    var f :| f in Fates(b, false) && FateTruth(f) == !cond;
    var T2 := Happens(b, None, f);
    T := T1 + T2;
    SingleOn(T, T1, c, a, w);
    var n := Goes(Ends(a), FlowWith(T, c, a, w), cond);
    var env, R := EnvOf(T).(cmp := c), RegsOf(T);
    JoinTruth(env, a, b, cond, R, w);
    Aside(T, T2, c, b, None);
    LinearRight(env, b, R, None);
    LinearRight(env, b, R, Waiting(n));
  }
}
