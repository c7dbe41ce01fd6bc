/**
  The value that generated code leaves, told of the source: a literal at the end
  of an operand emits no code, so a jump that waits there with the value of an
  earlier operand may be absorbed by the exits of the literal.
 */
module CodeFlow {
  import opened Common
  import opened CodeModel

  // ---------------------------------------------------------------- how an expression ends

  /** What the code of an expression ends in: a literal or a local variable,
      which need none, a test, whose exits carry no value, or a fetched value. */
  datatype Form = IsNil | IsTrue | IsFalse | IsConst | InSlot | Fetched | Tested

  function Ends(e: Expr): Form {
    match e
    case ENil => IsNil
    case ETrue => IsTrue
    case EFalse => IsFalse
    case ENum(_) => IsConst
    case ELocal(_) => InSlot
    case EGlobal(_) => Fetched
    case ENot(a) => NotForm(Ends(a))
    case EAnd(_, b) => Ends(b)
    case EOr(_, b) => Ends(b)
    case ECmp(_, _, _) => Tested
  }

  /** Negation folds literals. */
  function NotForm(f: Form): Form {
    match f
    case IsNil => IsTrue
    case IsFalse => IsTrue
    case IsTrue => IsFalse
    case IsConst => IsFalse
    case _ => Tested
  }

  predicate Literal(f: Form) {
    f.IsNil? || f.IsTrue? || f.IsFalse? || f.IsConst?
  }

  /** A jump is all there is to the operand: it always leaves. */
  predicate AlwaysForm(f: Form, cond: bool) {
    if cond then f.IsTrue? else f.IsFalse?
  }

  /** The operand never leaves, and no code says so. */
  predicate NeverForm(f: Form, cond: bool) {
    if cond then f.IsNil? || f.IsFalse? else f.IsConst? || f.IsTrue?
  }

  /** Some exit of the given truth value is left open at the end. */
  predicate Exits(e: Expr, b: bool) {
    match e
    case ENot(a) => Exits(a, !b)
    case EAnd(x, y) => Exits(y, b) || (!b && (Exits(x, false) || !NeverForm(Ends(x), false)))
    case EOr(x, y) => Exits(y, b) || (b && (Exits(x, true) || !NeverForm(Ends(x), true)))
    case _ => false
  }

  /** An operand that stays where it is: no code at all. */
  predicate Codeless(e: Expr) {
    !Exits(e, true) && !Exits(e, false) && (Literal(Ends(e)) || Ends(e).InSlot?)
  }

  // ---------------------------------------------------------------- what a run comes to

  /** The value a jump brings along, if it carries one. */
  type Cargo = Option<Value>

  /** A run of the code of an expression comes to its end, perhaps on a jump that
      still waits there with its cargo, or leaves through an exit. */
  datatype Flow = End(v: Value, waits: Cargo) | Out(b: bool, cargo: Cargo)

  /** The value such a run leaves in a register. */
  function Left(f: Flow): Value {
    match f
    case End(v, _) => v
    case Out(_, Some(v)) => v
    case Out(b, None) => VBool(b)
  }

  /** The truth value with which such a run ends or leaves. */
  predicate FlowTruth(f: Flow) {
    match f
    case End(v, _) => Truthy(v)
    case Out(b, _) => b
  }

  /** What comes next after the first operand of a connective. */
  datatype Next = On(waits: Cargo) | Off(cargo: Cargo)

  /** The operand leaves when it is `cond`.  Its other exits come to the second
      operand, and wait there with their cargo. */
  function Goes(f: Form, x: Flow, cond: bool): Next {
    match x
    case Out(b, c) => if b == cond then Off(c) else On(c)
    case End(v, w) =>
      if NeverForm(f, cond) then On(w)
      else if AlwaysForm(f, cond) then Off(w)
      else if Truthy(v) != cond then On(None)
      else Off(if f.Tested? then None else Some(v))
  }

  /** A negation exchanges the exits and drops their cargo; a literal is negated
      without code. */
  function NotFlow(f: Form, x: Flow): Flow {
    match x
    case End(v, w) => End(VBool(!Truthy(v)), if Literal(f) then w else None)
    case Out(b, _) => Out(!b, None)
  }

  /** The run of an expression that is reached with `w` waiting. */
  function Flows(env: Env, e: Expr, R: Regs, w: Cargo): Flow
    decreases e
  {
    match e
    case ENil => End(VNil, w)
    case ETrue => End(VBool(true), w)
    case EFalse => End(VBool(false), w)
    case ENum(n) => End(VData(n), w)
    case ELocal(r) => End(Get(R, r), w)
    case EGlobal(n) => End(env.glob(n), None)
    case ENot(a) => NotFlow(Ends(a), Flows(env, a, R, w))
    case EAnd(a, b) =>
      var n := Goes(Ends(a), Flows(env, a, R, w), false);
      if n.Off? then Out(false, n.cargo) else Flows(env, b, R, n.waits)
    case EOr(a, b) =>
      var n := Goes(Ends(a), Flows(env, a, R, w), true);
      if n.Off? then Out(true, n.cargo) else Flows(env, b, R, n.waits)
    case ECmp(op, a, b) =>
      var x := Flows(env, a, R, w);
      var y := Flows(env, b, R, Passes(a, x));
      End(VBool(CompareValue(env, op, Left(x), Left(y))), None)
  }

  /** What still waits behind an operand in place. */
  function Passes(e: Expr, x: Flow): Cargo {
    if Codeless(e) && x.End? then x.waits else None
  }

  /** The value that the code of an expression leaves. */
  function CodeValue(env: Env, e: Expr, R: Regs): Value {
    Left(Flows(env, e, R, None))
  }
}
