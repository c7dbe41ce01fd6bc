/**
  When generated code leaves the right value, told of the source: a static walk
  finds the exits that a literal may have absorbed.
 */
module CodeRight {
  import opened Common
  import opened CodeModel
  import opened CodeFlow

  // ---------------------------------------------------------------- truth is never lost, values may be

  /** Every comparison the run comes to compares the values it should. */
  predicate ComparesRight(env: Env, e: Expr, R: Regs, w: Cargo) {
    match e
    case ENot(a) => ComparesRight(env, a, R, w)
    case EAnd(a, b) =>
      var n := Goes(Ends(a), Flows(env, a, R, w), false);
      ComparesRight(env, a, R, w) && (n.On? ==> ComparesRight(env, b, R, n.waits))
    case EOr(a, b) =>
      var n := Goes(Ends(a), Flows(env, a, R, w), true);
      ComparesRight(env, a, R, w) && (n.On? ==> ComparesRight(env, b, R, n.waits))
    case ECmp(_, a, b) =>
      var x := Flows(env, a, R, w);
      var y := Flows(env, b, R, Passes(a, x));
      && ComparesRight(env, a, R, w) && Left(x) == Eval(env, a, R)
      && ComparesRight(env, b, R, Passes(a, x)) && Left(y) == Eval(env, b, R)
    case _ => true
  }

  /** What a form says of the value at the end. */
  predicate FormValue(f: Form, v: Value) {
    match f
    case IsNil => v == VNil
    case IsTrue => v == VBool(true)
    case IsFalse => v == VBool(false)
    case IsConst => v.VData?
    case Tested => v.VBool?
    case _ => true
  }

  lemma {:induction false} EndValue(env: Env, e: Expr, R: Regs, w: Cargo)
    ensures var x := Flows(env, e, R, w); x.End? ==> FormValue(Ends(e), x.v)
  {
    match e {
      case ENot(a) => EndValue(env, a, R, w);
      case EAnd(a, b) =>
        var n := Goes(Ends(a), Flows(env, a, R, w), false);
        if n.On? { EndValue(env, b, R, n.waits); }
      case EOr(a, b) =>
        var n := Goes(Ends(a), Flows(env, a, R, w), true);
        if n.On? { EndValue(env, b, R, n.waits); }
      case _ =>
    }
  }

  lemma GoesByTruth(f: Form, x: Flow, cond: bool)
    requires x.End? ==> FormValue(f, x.v)
    ensures Goes(f, x, cond).On? == (FlowTruth(x) != cond)
  {
  }

  /** The truth of the flow is that of the expression, and a value at the end of
      the code is its value: only the cargo of an exit may be wrong. */
  lemma {:induction false} FlowRight(env: Env, e: Expr, R: Regs, w: Cargo)
    requires ComparesRight(env, e, R, w)
    ensures var x := Flows(env, e, R, w);
      FlowTruth(x) == Truthy(Eval(env, e, R)) && (x.End? ==> x.v == Eval(env, e, R))
    decreases e, 1
  {
    match e {
      case ENot(a) => FlowRight(env, a, R, w);
      case EAnd(a, b) => JoinRight(env, a, b, false, R, w);
      case EOr(a, b) => JoinRight(env, a, b, true, R, w);
      case _ =>
    }
  }

  function Join(cond: bool, a: Expr, b: Expr): Expr {
    if cond then EOr(a, b) else EAnd(a, b)
  }

  lemma {:induction false} JoinRight(env: Env, a: Expr, b: Expr, cond: bool, R: Regs, w: Cargo)
    requires ComparesRight(env, Join(cond, a, b), R, w)
    ensures var x := Flows(env, Join(cond, a, b), R, w); var v := Eval(env, Join(cond, a, b), R);
      FlowTruth(x) == Truthy(v) && (x.End? ==> x.v == v)
    decreases Join(cond, a, b), 0
  {
    FlowRight(env, a, R, w);
    EndValue(env, a, R, w);
    var x := Flows(env, a, R, w);
    GoesByTruth(Ends(a), x, cond);
    var n := Goes(Ends(a), x, cond);
    if n.On? { FlowRight(env, b, R, n.waits); }
  }

  // ---------------------------------------------------------------- the static walk

  /** What an exit may carry: nothing, its own value, or one that a literal absorbed. */
  datatype Load = Plain | Own | Stale

  /** A way a run may end: with a truth value, something waiting or not, or
      through an exit. */
  datatype Fate = FEnd(t: bool, w: bool) | FOut(b: bool, c: Load)

  datatype FateNext = FOn(w: bool) | FOff(c: Load)

  function FateGoes(f: Form, x: Fate, cond: bool): FateNext {
    match x
    case FOut(b, c) => if b == cond then FOff(c) else FOn(!c.Plain?)
    case FEnd(t, w) =>
      if NeverForm(f, cond) then FOn(w)
      else if AlwaysForm(f, cond) then FOff(if w then Stale else Plain)
      else if t != cond then FOn(false)
      else FOff(if f.Tested? then Plain else Own)
  }

  function FateNot(f: Form, x: Fate): Fate {
    match x
    case FEnd(t, w) => FEnd(!t, Literal(f) && w)
    case FOut(b, _) => FOut(!b, Plain)
  }

  /** Every way a run of the code may end, from where something waits or not. */
  function Fates(e: Expr, w: bool): set<Fate> {
    match e
    case ENil => {FEnd(false, w)}
    case ETrue => {FEnd(true, w)}
    case EFalse => {FEnd(false, w)}
    case ENum(_) => {FEnd(true, w)}
    case ELocal(_) => {FEnd(true, w), FEnd(false, w)}
    case EGlobal(_) => {FEnd(true, false), FEnd(false, false)}
    case ENot(a) => set x | x in Fates(a, w) :: FateNot(Ends(a), x)
    case EAnd(a, b) => FatesJoin(Ends(a), Fates(a, w), false, Fates(b, false), Fates(b, true))
    case EOr(a, b) => FatesJoin(Ends(a), Fates(a, w), true, Fates(b, false), Fates(b, true))
    case ECmp(_, _, _) => {FEnd(true, false), FEnd(false, false)}
  }

  function FatesJoin(f: Form, xs: set<Fate>, cond: bool, idle: set<Fate>, waiting: set<Fate>): set<Fate> {
    (set x | x in xs && FateGoes(f, x, cond).FOff? :: FOut(cond, FateGoes(f, x, cond).c))
    + (if exists x :: x in xs && FateGoes(f, x, cond) == FOn(false) then idle else {})
    + (if exists x :: x in xs && FateGoes(f, x, cond) == FOn(true) then waiting else {})
  }

  predicate NoneStale(xs: set<Fate>) {
    forall x :: x in xs && x.FOut? ==> !x.c.Stale?
  }

  /** No comparison in reach looks at a value that may be stale. */
  predicate Clean(e: Expr, w: bool) {
    match e
    case ENot(a) => Clean(a, w)
    case EAnd(a, b) => Clean(a, w) && CleanJoined(Ends(a), Fates(a, w), false, Clean(b, false), Clean(b, true))
    case EOr(a, b) => Clean(a, w) && CleanJoined(Ends(a), Fates(a, w), true, Clean(b, false), Clean(b, true))
    case ECmp(_, a, b) =>
      && Clean(a, w) && NoneStale(Fates(a, w))
      && forall x :: x in Fates(a, w) ==> Clean(b, FatePasses(a, x)) && NoneStale(Fates(b, FatePasses(a, x)))
    case _ => true
  }

  predicate CleanJoined(f: Form, xs: set<Fate>, cond: bool, idle: bool, waiting: bool) {
    forall x :: x in xs ==> FateGoes(f, x, cond).FOff? || if FateGoes(f, x, cond).w then waiting else idle
  }

  predicate FatePasses(e: Expr, x: Fate) {
    Codeless(e) && x.FEnd? && x.w
  }

  /** The code of the expression leaves the right value, whatever it is run on. */
  predicate Exact(e: Expr) {
    Clean(e, false) && NoneStale(Fates(e, false))
  }

  // ---------------------------------------------------------------- the walk foresees every run

  /** A run ends as foreseen: an exit that is not stale carries the value `v`. */
  predicate Foreseen(x: Flow, f: Fate, v: Value) {
    match x
    case End(u, w) => f == FEnd(Truthy(u), w.Some?) && u == v
    case Out(b, c) =>
      f.FOut? && f.b == b && f.c.Plain? == c.None? && (if f.c.Own? then c == Some(v) else v == VBool(b))
  }

  predicate ForeseenNext(n: Next, f: FateNext, v: Value, cond: bool) {
    match n
    case On(w) => f == FOn(w.Some?)
    case Off(c) => f.FOff? && Foreseen(Out(cond, c), FOut(cond, f.c), v)
  }

  lemma GoesForeseen(form: Form, x: Flow, f: Fate, v: Value, cond: bool)
    requires Foreseen(x, f, v) && (x.End? ==> FormValue(form, x.v))
    ensures ForeseenNext(Goes(form, x, cond), FateGoes(form, f, cond), v, cond)
  {
  }

  lemma JoinFates(form: Form, xs: set<Fate>, cond: bool, idle: set<Fate>, waiting: set<Fate>, x: Fate, f: Fate)
    requires x in xs
    requires match FateGoes(form, x, cond) case FOff(c) => f
        == FOut(cond, c) case FOn(w) => f in if w then waiting else idle
    ensures f in FatesJoin(form, xs, cond, idle, waiting)
  {
  }

  /** Every run ends in one of the ways foreseen. */
  lemma {:induction false} FateOf(env: Env, e: Expr, R: Regs, w: Cargo) returns (f: Fate)
    requires ComparesRight(env, e, R, w)
    ensures f in Fates(e, w.Some?) && Foreseen(Flows(env, e, R, w), f, Eval(env, e, R))
    decreases e, 1
  {
    match e {
      case ENot(a) =>
        var g := FateOf(env, a, R, w);
        FlowRight(env, a, R, w);
        f := FateNot(Ends(a), g);
      case EAnd(a, b) => f := JoinFate(env, a, b, false, R, w);
      case EOr(a, b) => f := JoinFate(env, a, b, true, R, w);
      case ECmp(op, a, b) => f := FEnd(Truthy(Flows(env, e, R, w).v), false);
      case ELocal(r) => f := FEnd(Truthy(Get(R, r)), w.Some?);
      case EGlobal(n) => f := FEnd(Truthy(env.glob(n)), false);
      case _ => f := FEnd(e.ETrue? || e.ENum?, w.Some?);
    }
  }

  lemma {:induction false} JoinFate(env: Env, a: Expr, b: Expr, cond: bool, R: Regs, w: Cargo) returns (f: Fate)
    requires ComparesRight(env, Join(cond, a, b), R, w)
    ensures f in Fates(Join(cond, a, b), w.Some?)
    ensures Foreseen(Flows(env, Join(cond, a, b), R, w), f, Eval(env, Join(cond, a, b), R))
    decreases Join(cond, a, b), 0
  {
    var x := Flows(env, a, R, w);
    var n := Goes(Ends(a), x, cond);
    var g := FateOf(env, a, R, w);
    FlowRight(env, a, R, w);
    EndValue(env, a, R, w);
    GoesByTruth(Ends(a), x, cond);
    GoesForeseen(Ends(a), x, g, Eval(env, a, R), cond);
    if n.On? {
      f := FateOf(env, b, R, n.waits);
    } else {
      f := FOut(cond, FateGoes(Ends(a), g, cond).c);
    }
    JoinFates(Ends(a), Fates(a, w.Some?), cond, Fates(b, false), Fates(b, true), g, f);
  }

  lemma {:induction false} CleanRight(env: Env, e: Expr, R: Regs, w: Cargo)
    requires Clean(e, w.Some?)
    ensures ComparesRight(env, e, R, w)
    decreases e, 1
  {
    match e {
      case ENot(a) => CleanRight(env, a, R, w);
      case EAnd(a, b) => CleanJoin(env, a, b, false, R, w);
      case EOr(a, b) => CleanJoin(env, a, b, true, R, w);
      case ECmp(_, a, b) =>
        CleanRight(env, a, R, w);
        var x := Flows(env, a, R, w);
        var f := FateOf(env, a, R, w);
        CleanRight(env, b, R, Passes(a, x));
        var g := FateOf(env, b, R, Passes(a, x));
      case _ =>
    }
  }

  lemma {:induction false} CleanJoin(env: Env, a: Expr, b: Expr, cond: bool, R: Regs, w: Cargo)
    requires Clean(Join(cond, a, b), w.Some?)
    ensures ComparesRight(env, Join(cond, a, b), R, w)
    decreases Join(cond, a, b), 0
  {
    CleanRight(env, a, R, w);
    var x := Flows(env, a, R, w);
    var f := FateOf(env, a, R, w);
    EndValue(env, a, R, w);
    GoesForeseen(Ends(a), x, f, Eval(env, a, R), cond);
    var n := Goes(Ends(a), x, cond);
    if n.On? {
      CleanRight(env, b, R, n.waits);
    }
  }

  /** An exact expression: the code leaves its value, whatever it is run on. */
  lemma ExactRight(env: Env, e: Expr, R: Regs)
    requires Exact(e)
    ensures CodeValue(env, e, R) == Eval(env, e, R)
  {
    CleanRight(env, e, R, None);
    var f := FateOf(env, e, R, None);
  }

  // ---------------------------------------------------------------- and every way foreseen happens

  datatype Var = L(r: nat) | G(name: int)

  function Vars(e: Expr): set<Var> {
    match e
    case ELocal(r) => {L(r)}
    case EGlobal(n) => {G(n)}
    case ENot(a) => Vars(a)
    case EAnd(a, b) => Vars(a) + Vars(b)
    case EOr(a, b) => Vars(a) + Vars(b)
    case ECmp(_, a, b) => Vars(a) + Vars(b)
    case _ => {}
  }

  /** Every variable occurs once, and nothing is compared. */
  predicate Linear(e: Expr) {
    match e
    case ENot(a) => Linear(a)
    case EAnd(a, b) => Linear(a) && Linear(b) && Vars(a) !! Vars(b)
    case EOr(a, b) => Linear(a) && Linear(b) && Vars(a) !! Vars(b)
    case ECmp(_, _, _) => false
    case _ => true
  }

  /** The variables in `T` hold a number, all others nil. */
  function Held(T: set<Var>, v: Var): Value {
    if v in T then VData(0) else VNil
  }

  function EnvOf(T: set<Var>): Env {
    Env(n => Held(T, G(n)), (rel, x, y) => false)
  }

  function RegsOf(T: set<Var>): Regs {
    map v | v in T && v.L? :: v.r := VData(0)
  }

  lemma RegsOfGet(T: set<Var>, r: nat)
    ensures Get(RegsOf(T), r) == Held(T, L(r))
  {
    if L(r) in T { assert RegsOf(T)[L(r).r] == VData(0); }
  }

  lemma {:induction false} LinearCompares(env: Env, e: Expr, R: Regs, w: Cargo)
    requires Linear(e)
    ensures ComparesRight(env, e, R, w)
  {
    match e {
      case ENot(a) => LinearCompares(env, a, R, w);
      case EAnd(a, b) =>
        LinearCompares(env, a, R, w);
        var n := Goes(Ends(a), Flows(env, a, R, w), false);
        if n.On? { LinearCompares(env, b, R, n.waits); }
      case EOr(a, b) =>
        LinearCompares(env, a, R, w);
        var n := Goes(Ends(a), Flows(env, a, R, w), true);
        if n.On? { LinearCompares(env, b, R, n.waits); }
      case _ =>
    }
  }

  /** The flow and the value where the variables of `T` hold a number. */
  function FlowIn(T: set<Var>, e: Expr, w: Cargo): Flow {
    Flows(EnvOf(T), e, RegsOf(T), w)
  }

  function ValueIn(T: set<Var>, e: Expr): Value {
    Eval(EnvOf(T), e, RegsOf(T))
  }

  /** Only the variables of the expression matter. */
  lemma {:induction false} FlowOn(T: set<Var>, T': set<Var>, e: Expr, w: Cargo)
    requires Linear(e) && forall v :: v in Vars(e) ==> (v in T <==> v in T')
    ensures FlowIn(T, e, w) == FlowIn(T', e, w) && ValueIn(T, e) == ValueIn(T', e)
  {
    match e {
      case ELocal(r) => RegsOfGet(T, r); RegsOfGet(T', r);
      case EGlobal(n) => assert G(n) in Vars(e);
      case ENot(a) => FlowOn(T, T', a, w);
      case EAnd(a, b) =>
        FlowOn(T, T', a, w);
        FlowOn(T, T', b, Waiting(Goes(Ends(a), FlowIn(T, a, w), false)));
      case EOr(a, b) =>
        FlowOn(T, T', a, w);
        FlowOn(T, T', b, Waiting(Goes(Ends(a), FlowIn(T, a, w), true)));
      case _ =>
    }
  }

  function Waiting(n: Next): Cargo {
    if n.On? then n.waits else None
  }

  predicate Mild(c: Cargo) {
    c.Some? ==> !c.value.VBool?
  }

  /** No cargo is a truth value then, so what is absorbed differs from the literal. */
  lemma {:induction false} MildFlow(T: set<Var>, e: Expr, w: Cargo)
    requires Linear(e) && Mild(w)
    ensures match FlowIn(T, e, w)
      case End(v, u) => Mild(u) && (Ends(e).InSlot? || Ends(e).Fetched? ==> !v.VBool?)
      case Out(b, c) => Mild(c)
    decreases e, 1
  {
    match e {
      case ELocal(r) => RegsOfGet(T, r);
      case ENot(a) => MildFlow(T, a, w);
      case EAnd(a, b) => MildJoin(T, a, b, false, w);
      case EOr(a, b) => MildJoin(T, a, b, true, w);
      case _ =>
    }
  }

  lemma {:induction false} MildJoin(T: set<Var>, a: Expr, b: Expr, cond: bool, w: Cargo)
    requires Linear(Join(cond, a, b)) && Mild(w)
    ensures match FlowIn(T, Join(cond, a, b), w)
      case End(v, u) => Mild(u) && (Ends(b).InSlot? || Ends(b).Fetched? ==> !v.VBool?)
      case Out(_, c) => Mild(c)
    decreases Join(cond, a, b), 0
  {
    MildNext(T, a, cond, w);
    var n := Goes(Ends(a), FlowIn(T, a, w), cond);
    if n.On? { MildFlow(T, b, n.waits); }
  }

  lemma {:induction false} MildNext(T: set<Var>, a: Expr, cond: bool, w: Cargo)
    requires Linear(a) && Mild(w)
    ensures match Goes(Ends(a), FlowIn(T, a, w), cond) case On(u) => Mild(u) case Off(c) => Mild(c)
    decreases a, 2
  {
    MildFlow(T, a, w);
    EndValue(EnvOf(T), a, RegsOf(T), w);
  }

  /** Every way foreseen happens for some values of the variables. */
  lemma {:induction false} Happens(e: Expr, w: Cargo, f: Fate) returns (T: set<Var>)
    requires Linear(e) && Mild(w) && f in Fates(e, w.Some?)
    ensures T <= Vars(e) && Foreseen(FlowIn(T, e, w), f, ValueIn(T, e))
    decreases e, 1
  {
    match e {
      case ELocal(r) =>
        T := if f.t then {L(r)} else {};
        RegsOfGet(T, r);
      case EGlobal(n) => T := if f.t then {G(n)} else {};
      case ENot(a) =>
        var x :| x in Fates(a, w.Some?) && f == FateNot(Ends(a), x);
        T := Happens(a, w, x);
        LinearCompares(EnvOf(T), a, RegsOf(T), w);
        FlowRight(EnvOf(T), a, RegsOf(T), w);
      case EAnd(a, b) => T := JoinHappens(a, b, false, w, f);
      case EOr(a, b) => T := JoinHappens(a, b, true, w, f);
      case _ => T := {};
    }
  }

  /** Where a fate of a connective comes from. */
  lemma JoinComes(form: Form, xs: set<Fate>, cond: bool, idle: set<Fate>, waiting: set<Fate>,
      f: Fate) returns (x: Fate)
    requires f in FatesJoin(form, xs, cond, idle, waiting)
    ensures x in xs
    ensures match FateGoes(form, x, cond) case FOff(c) => f
        == FOut(cond, c) case FOn(w) => f in if w then waiting else idle
  {
    if y :| y in xs && FateGoes(form, y, cond).FOff? && f == FOut(cond, FateGoes(form, y, cond).c) {
      x := y;
    } else if f in idle && exists y :: y in xs && FateGoes(form, y, cond) == FOn(false) {
      x :| x in xs && FateGoes(form, x, cond) == FOn(false);
    } else {
      x :| x in xs && FateGoes(form, x, cond) == FOn(true);
    }
  }

  lemma {:induction false} JoinHappens(a: Expr, b: Expr, cond: bool, w: Cargo, f: Fate) returns (T: set<Var>)
    requires Linear(Join(cond, a, b)) == true && Mild(w) && f in Fates(Join(cond, a, b), w.Some?)
    ensures T <= Vars(a) + Vars(b) && Foreseen(FlowIn(T, Join(cond, a, b), w), f, ValueIn(T, Join(cond, a, b)))
    decreases Join(cond, a, b), 0
  {
    JoinFatesIs(a, b, cond, w.Some?);
    var x := JoinComes(Ends(a), Fates(a, w.Some?), cond, Fates(b, false), Fates(b, true), f);
    var T1 := Happens(a, w, x);
    FirstHappens(a, cond, w, x, T1);
    var n := Goes(Ends(a), FlowIn(T1, a, w), cond);
    if n.On? {
      var T2 := Happens(b, n.waits, f);
      T := T1 + T2;
      FlowOn(T, T1, a, w);
      FlowOn(T, T2, b, n.waits);
    } else {
      T := T1;
    }
    JoinIn(T, a, b, cond, w);
  }

  lemma JoinFatesIs(a: Expr, b: Expr, cond: bool, w: bool)
    ensures Fates(Join(cond, a, b), w) == FatesJoin(Ends(a), Fates(a, w), cond, Fates(b, false), Fates(b, true))
  {
  }

  lemma JoinIn(T: set<Var>, a: Expr, b: Expr, cond: bool, w: Cargo)
    ensures var n := Goes(Ends(a), FlowIn(T, a, w), cond);
      FlowIn(T, Join(cond, a, b), w) == if n.Off? then Out(cond, n.cargo) else FlowIn(T, b, n.waits)
    ensures ValueIn(T, Join(cond, a, b)) == if Truthy(ValueIn(T, a)) == cond then ValueIn(T, a) else ValueIn(T, b)
  {
  }

  lemma FirstHappens(a: Expr, cond: bool, w: Cargo, x: Fate, T: set<Var>)
    requires Linear(a) && Mild(w) && Foreseen(FlowIn(T, a, w), x, ValueIn(T, a))
    ensures var n := Goes(Ends(a), FlowIn(T, a, w), cond);
      && ForeseenNext(n, FateGoes(Ends(a), x, cond), ValueIn(T, a), cond)
      && n.On? == (Truthy(ValueIn(T, a)) != cond) && (n.On? ==> Mild(n.waits))
  {
    EndValue(EnvOf(T), a, RegsOf(T), w);
    LinearCompares(EnvOf(T), a, RegsOf(T), w);
    FlowRight(EnvOf(T), a, RegsOf(T), w);
    GoesByTruth(Ends(a), FlowIn(T, a, w), cond);
    GoesForeseen(Ends(a), FlowIn(T, a, w), x, ValueIn(T, a), cond);
    MildNext(T, a, cond, w);
  }

  lemma {:induction false} LinearClean(e: Expr, w: bool)
    requires Linear(e)
    ensures Clean(e, w)
  {
    match e {
      case ENot(a) => LinearClean(a, w);
      case EAnd(a, b) => LinearClean(a, w); LinearClean(b, false); LinearClean(b, true);
      case EOr(a, b) => LinearClean(a, w); LinearClean(b, false); LinearClean(b, true);
      case _ =>
    }
  }

  /** Where every variable occurs once, an expression that is not exact goes wrong
      for some values of its variables. */
  lemma OnlyExact(e: Expr) returns (env: Env, R: Regs)
    requires Linear(e) && !Exact(e)
    ensures CodeValue(env, e, R) != Eval(env, e, R)
  {
    LinearClean(e, false);
    var f :| f in Fates(e, false) && f.FOut? && f.c.Stale?;
    var T := Happens(e, None, f);
    MildFlow(T, e, None);
    env, R := EnvOf(T), RegsOf(T);
    StaleWrong(FlowIn(T, e, None), f, ValueIn(T, e));
  }

  lemma StaleWrong(x: Flow, f: Fate, v: Value)
    requires Foreseen(x, f, v) && f.FOut? && f.c.Stale? && (x.Out? ==> Mild(x.cargo))
    ensures Left(x) != v
  {
  }
}
