/**
  The levels of operators, as section 2.5.6 of the Lua 5.1 Reference Manual lists
  them, and that the parser groups by them.
 */
module PrecedenceLevels {
  import opened Common
  import opened Precedence

  /** From low to high; the unary operators stand between the last two. */
  const LEVELS: seq<set<BinOp>> := [
    {Or},
    {And},
    {Lt, Gt, Le, Ge, Ne, Eq},
    {Concat},
    {Add, Sub},
    {Mul, Div, Mod},
    {Pow}]

  /** The operators that group to the right; all others group to the left. */
  const RIGHTWARD: set<BinOp> := {Concat, Pow}

  /** The operators above the unary ones. */
  const ABOVE_UNARY: set<BinOp> := {Pow}

  ghost predicate OnLevel(op: BinOp, i: nat) {
    i < |LEVELS| && op in LEVELS[i]
  }

  /** Every operator is on exactly one level. */
  lemma OneLevel(op: BinOp) returns (i: nat)
    ensures OnLevel(op, i) && forall j: nat :: OnLevel(op, j) ==> j == i
  {
    i := match op
      case Or => 0
      case And => 1
      case Concat => 3
      case Add => 4
      case Sub => 4
      case Mul => 5
      case Div => 5
      case Mod => 5
      case Pow => 6
      case _ => 2;
  }

  /** `op1` takes the operand between the two. */
  ghost predicate First(op1: BinOp, op2: BinOp) {
    || (exists i: nat, j: nat :: OnLevel(op1, i) && OnLevel(op2, j) && i > j)
    || (exists i: nat :: OnLevel(op1, i) && OnLevel(op2, i) && op2 !in RIGHTWARD)
  }

  /** The priorities of each level, to the left and to the right. */
  lemma PrioritiesOf(op: BinOp, i: nat)
    requires OnLevel(op, i)
    ensures i < 7 && Left(op) == [1, 2, 3, 5, 6, 7, 10][i] && Right(op) == [1, 2, 3, 4, 6, 7, 9][i]
    ensures op in RIGHTWARD <==> i == 3 || i == 6
  {
  }

  lemma FirstAt(op1: BinOp, op2: BinOp, i: nat, j: nat)
    requires OnLevel(op1, i) && OnLevel(op2, j)
    requires (forall k: nat :: OnLevel(op1, k) ==> k == i) && forall k: nat :: OnLevel(op2, k) ==> k == j
    ensures First(op1, op2) <==> i > j || (i == j && op2 !in RIGHTWARD)
  {
  }

  lemma FirstIs(op1: BinOp, op2: BinOp)
    ensures First(op1, op2) <==> Left(op2) <= Right(op1)
  {
    var i := OneLevel(op1);
    var j := OneLevel(op2);
    FirstAt(op1, op2, i, j);
    PrioritiesOf(op1, i);
    PrioritiesOf(op2, j);
  }

  lemma AtomReads(a: int, ts: seq<Token>, limit: nat)
    ensures Subexpr([TAtom(a)] + ts, limit) == Expand(Atom(a), ts, limit)
  {
    assert ([TAtom(a)] + ts)[1..] == ts;
  }

  lemma LastReads(a: int, limit: nat)
    ensures Subexpr([TAtom(a)], limit) == Ok(Atom(a), [])
  {
    AtomReads(a, [], limit);
    assert [TAtom(a)] + [] == [TAtom(a)];
  }

  /** One operator behind what has been read. */
  lemma LastOperator(v: Tree, op: BinOp, c: int, limit: nat)
    ensures Expand(v, [TOp(op), TAtom(c)], limit)
      == if Left(op) > limit then Ok(Bin(op, v, Atom(c)), []) else Ok(v, [TOp(op), TAtom(c)])
  {
    var ts := [TOp(op), TAtom(c)];
    assert ts[1..] == [TAtom(c)];
    LastReads(c, Right(op));
  }

  /** For all operators and atoms: `a op1 b op2 c` groups as the levels say. */
  lemma ByLevels(op1: BinOp, op2: BinOp, a: int, b: int, c: int)
    ensures Subexpr([TAtom(a), TOp(op1), TAtom(b), TOp(op2), TAtom(c)], 0)
      == Ok(if First(op1, op2) then Bin(op2, Bin(op1, Atom(a), Atom(b)), Atom(c))
            else Bin(op1, Atom(a), Bin(op2, Atom(b), Atom(c))), [])
  {
    var ts := [TOp(op1), TAtom(b), TOp(op2), TAtom(c)];
    var us := [TOp(op2), TAtom(c)];
    assert [TAtom(a), TOp(op1), TAtom(b), TOp(op2), TAtom(c)] == [TAtom(a)] + ts;
    AtomReads(a, ts, 0);
    assert ts[1..] == [TAtom(b)] + us;
    AtomReads(b, us, Right(op1));
    LastOperator(Atom(b), op2, c, Right(op1));
    LastOperator(Bin(op1, Atom(a), Atom(b)), op2, c, 0);
    FirstIs(op1, op2);
  }

  function Operand(u: UnOp): Token {
    match u
    case Not => TNot
    case Minus => TOp(Sub)
    case Len => TLen
  }

  /** A unary operator in front: it takes a power and nothing else. */
  lemma UnaryByLevels(u: UnOp, op: BinOp, a: int, b: int)
    ensures Subexpr([Operand(u), TAtom(a), TOp(op), TAtom(b)], 0)
      == Ok(if op in ABOVE_UNARY then Un(u, Bin(op, Atom(a), Atom(b))) else Bin(op, Un(u, Atom(a)), Atom(b)), [])
  {
    var ts := [TOp(op), TAtom(b)];
    assert [Operand(u), TAtom(a), TOp(op), TAtom(b)][1..] == [TAtom(a)] + ts;
    AtomReads(a, ts, UNARY_PRIORITY);
    LastOperator(Atom(a), op, b, UNARY_PRIORITY);
    LastOperator(Un(u, Atom(a)), op, b, 0);
  }

  lemma UnaryLast(u: UnOp, b: int, limit: nat)
    ensures Subexpr([Operand(u), TAtom(b)], limit) == Ok(Un(u, Atom(b)), [])
  {
    assert [Operand(u), TAtom(b)][1..] == [TAtom(b)];
    LastReads(b, UNARY_PRIORITY);
  }

  /** A unary operator behind a binary one, even `^`: it is the operand. */
  lemma UnaryOperand(op: BinOp, u: UnOp, a: int, b: int)
    ensures Subexpr([TAtom(a), TOp(op), Operand(u), TAtom(b)], 0) == Ok(Bin(op, Atom(a), Un(u, Atom(b))), [])
  {
    var ts := [TOp(op), Operand(u), TAtom(b)];
    assert [TAtom(a), TOp(op), Operand(u), TAtom(b)] == [TAtom(a)] + ts;
    AtomReads(a, ts, 0);
    assert ts[1..] == [Operand(u), TAtom(b)];
    UnaryLast(u, b, Right(op));
  }

  /** Parentheses override the levels. */
  lemma InParentheses(op1: BinOp, op2: BinOp, a: int, b: int, c: int)
    ensures Subexpr([TOpen, TAtom(a), TOp(op1), TAtom(b), TClose, TOp(op2), TAtom(c)], 0)
      == Ok(Bin(op2, Bin(op1, Atom(a), Atom(b)), Atom(c)), [])
  {
    var us := [TClose, TOp(op2), TAtom(c)];
    var ts := [TOp(op1), TAtom(b)] + us;
    assert [TOpen, TAtom(a), TOp(op1), TAtom(b), TClose, TOp(op2), TAtom(c)][1..] == [TAtom(a)] + ts;
    AtomReads(a, ts, 0);
    assert ts[1..] == [TAtom(b)] + us;
    AtomReads(b, us, Right(op1));
    assert us[1..] == [TOp(op2), TAtom(c)];
    LastOperator(Bin(op1, Atom(a), Atom(b)), op2, c, 0);
  }
}
