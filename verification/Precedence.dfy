/**
  Operator precedence: the parser that climbs by priorities, and a printer that
  writes only the parentheses the priorities call for.
 */
module Precedence {
  import opened Common

  datatype UnOp = Not | Minus | Len

  datatype BinOp = Add | Sub | Mul | Div | Mod | Pow | Concat | Ne | Eq | Lt | Le | Gt | Ge | And | Or

  datatype Token = TAtom(id: int) | TOp(op: BinOp) | TNot | TLen | TOpen | TClose | TOther(id: int)

  datatype Tree = Atom(id: int) | Un(uop: UnOp, e: Tree) | Bin(op: BinOp, l: Tree, r: Tree)

  const UNARY_PRIORITY: nat := 8

  /** How strongly an operator takes the operand to its left, and the one to its right. */
  function Left(op: BinOp): nat {
    match op
    case Add => 6
    case Sub => 6
    case Mul => 7
    case Div => 7
    case Mod => 7
    case Pow => 10
    case Concat => 5
    case And => 2
    case Or => 1
    case _ => 3
  }

  function Right(op: BinOp): nat {
    match op
    case Pow => 9
    case Concat => 4
    case _ => Left(op)
  }

  function GetUnOp(t: Token): Option<UnOp> {
    match t
    case TNot => Some(Not)
    case TOp(Sub) => Some(Minus)
    case TLen => Some(Len)
    case _ => None
  }

  function GetBinOp(t: Token): Option<BinOp> {
    if t.TOp? then Some(t.op) else None
  }

  // ---------------------------------------------------------------- parsing

  datatype Parsed = Ok(tree: Tree, rest: seq<Token>) | SyntaxError

  /** The priority of the operator that comes next, if one does. */
  function NextLeft(ts: seq<Token>): nat {
    if ts != [] && GetBinOp(ts[0]).Some? then Left(GetBinOp(ts[0]).value) else 0
  }

  /** `subexpr`: an operand, and the operators above the limit with their operands. */
  function Subexpr(ts: seq<Token>, limit: nat): (r: Parsed)
    ensures r.Ok? ==> |r.rest| < |ts|
    decreases |ts|, 1
  {
    if ts == [] then SyntaxError
    else if GetUnOp(ts[0]).Some? then
      var r := Subexpr(ts[1..], UNARY_PRIORITY);
      if r.Ok? then Expand(Un(GetUnOp(ts[0]).value, r.tree), r.rest, limit) else SyntaxError
    else if ts[0].TAtom? then Expand(Atom(ts[0].id), ts[1..], limit)
    else if ts[0] == TOpen then
      var r := Subexpr(ts[1..], 0);
      if r.Ok? && r.rest != [] && r.rest[0] == TClose then Expand(r.tree, r.rest[1..], limit) else SyntaxError
    else SyntaxError
  }

  /** The loop of `subexpr`. */
  function Expand(v: Tree, ts: seq<Token>, limit: nat): (r: Parsed)
    ensures r.Ok? ==> |r.rest| <= |ts|
    decreases |ts|, 0
  {
    if NextLeft(ts) > limit then
      var r := Subexpr(ts[1..], Right(ts[0].op));
      if r.Ok? then Expand(Bin(ts[0].op, v, r.tree), r.rest, limit) else SyntaxError
    else Ok(v, ts)
  }

  class LexState {
    var tokens: seq<Token>

    constructor (ts: seq<Token>)
      ensures tokens == ts
    {
      tokens := ts;
    }

    /** `simpleexp`, and `prefixexp` for an expression in parentheses. */
    method SimpleExp() returns (ok: bool, v: Tree)
      requires tokens != [] && GetUnOp(tokens[0]).None?
      modifies this
      ensures ok ==> |tokens| < |old(tokens)|
      ensures ok ==> forall limit: nat :: Subexpr(old(tokens), limit) == Expand(v, tokens, limit)
      ensures !ok ==> forall limit: nat :: Subexpr(old(tokens), limit) == SyntaxError
      decreases |tokens|, 0
    {
      v := Atom(0);
      if tokens[0].TAtom? {
        v := Atom(tokens[0].id);
        tokens := tokens[1..];
        return true, v;
      } else if tokens[0] == TOpen {
        tokens := tokens[1..];
        ok, v := ParseSubexpr(0);
        if !ok { return; }
        if tokens == [] || tokens[0] != TClose { return false, v; }
        tokens := tokens[1..];
      } else {
        ok := false;
      }
    }

    /** The method itself: it reads tokens as it goes. */
    method ParseSubexpr(limit: nat) returns (ok: bool, v: Tree)
      modifies this
      ensures if ok then Subexpr(old(tokens), limit) == Ok(v, tokens) else Subexpr(old(tokens), limit) == SyntaxError
      ensures ok ==> |tokens| < |old(tokens)|
      decreases |tokens|, 1
    {
      v := Atom(0);
      ghost var start := tokens;
      if tokens == [] { return false, v; }
      var uop := GetUnOp(tokens[0]);
      if uop.Some? {
        tokens := tokens[1..];
        ok, v := ParseSubexpr(UNARY_PRIORITY);
        if !ok { return; }
        v := Un(uop.value, v);
      } else {
        ok, v := SimpleExp();
        if !ok { return; }
      }
      // expand while operators have priorities higher than the limit
      while tokens != [] && GetBinOp(tokens[0]).Some? && Left(GetBinOp(tokens[0]).value) > limit
        invariant |tokens| < |start| && Subexpr(start, limit) == Expand(v, tokens, limit)
        decreases |tokens|
      {
        var op := GetBinOp(tokens[0]).value;
        tokens := tokens[1..];
        var v2;
        ok, v2 := ParseSubexpr(Right(op));
        if !ok { return; }
        v := Bin(op, v, v2);
      }
      ok := true;
    }
  }

  // ---------------------------------------------------------------- printing

  function UnToken(u: UnOp): Token {
    match u
    case Not => TNot
    case Minus => TOp(Sub)
    case Len => TLen
  }

  const NO_LIMIT: nat := 11

  /** The lowest limit in force at the right end of what is printed: an operator
      above it would be taken by something inside. */
  function Edge(e: Tree, limit: nat): nat
    decreases e
  {
    match e
    case Atom(_) => NO_LIMIT
    case Un(_, x) => Min(UNARY_PRIORITY, Edge(x, UNARY_PRIORITY))
    case Bin(op, _, r) => if Left(op) <= limit then NO_LIMIT else Min(Right(op), Edge(r, Right(op)))
  }

  function Parens(ts: seq<Token>): seq<Token> {
    [TOpen] + ts + [TClose]
  }

  /** Prints an expression where the parser reads it with the given limit: in
      parentheses if its operator is not above the limit, or, to the left of an
      operator, if that operator would be taken by something inside. */
  function Print(e: Tree, limit: nat): seq<Token>
    decreases e, limit
  {
    match e
    case Atom(id) => [TAtom(id)]
    case Un(u, x) => [UnToken(u)] + Print(x, UNARY_PRIORITY)
    case Bin(op, l, r) =>
      if Left(op) <= limit then Parens(Print(e, 0))
      else
        (if Left(op) > Edge(l, limit) then Parens(Print(l, 0)) else Print(l, limit))
        + [TOp(op)] + Print(r, Right(op))
  }

  // ---------------------------------------------------------------- round trip

  lemma LeftAboveZero(op: BinOp)
    ensures 0 < Left(op) <= 10 && Right(op) <= Left(op) <= Right(op) + 1
  {
  }

  /** An expression in parentheses is read with no limit from outside. */
  lemma ParenTrip(p: seq<Token>, e: Tree, ts: seq<Token>, limit: nat)
    requires Subexpr(p + ([TClose] + ts), 0) == Expand(e, [TClose] + ts, 0)
    ensures Subexpr(Parens(p) + ts, limit) == Expand(e, ts, limit)
  {
    var all := Parens(p) + ts;
    var close := [TClose] + ts;
    assert all[0] == TOpen && all[1..] == p + close;
    assert close[1..] == ts && NextLeft(close) == 0;
    assert Expand(e, close, 0) == Ok(e, close);
  }

  lemma UnTrip(u: UnOp, p: seq<Token>, x: Tree, ts: seq<Token>, limit: nat)
    requires Subexpr(p + ts, UNARY_PRIORITY) == Expand(x, ts, UNARY_PRIORITY) && NextLeft(ts) <= UNARY_PRIORITY
    ensures Subexpr([UnToken(u)] + p + ts, limit) == Expand(Un(u, x), ts, limit)
  {
    var all := [UnToken(u)] + p + ts;
    assert all[0] == UnToken(u) && all[1..] == p + ts;
    assert Expand(x, ts, UNARY_PRIORITY) == Ok(x, ts);
  }

  lemma BinTrip(pl: seq<Token>, op: BinOp, pr: seq<Token>, l: Tree, r: Tree, ts: seq<Token>, limit: nat)
    requires Left(op) > limit && NextLeft(ts) <= Right(op)
    requires Subexpr(pl + ([TOp(op)] + (pr + ts)), limit) == Expand(l, [TOp(op)] + (pr + ts), limit)
    requires Subexpr(pr + ts, Right(op)) == Expand(r, ts, Right(op))
    ensures Subexpr(pl + [TOp(op)] + pr + ts, limit) == Expand(Bin(op, l, r), ts, limit)
  {
    var tail := [TOp(op)] + (pr + ts);
    assert pl + [TOp(op)] + pr + ts == pl + tail;
    assert tail[0] == TOp(op) && tail[1..] == pr + ts;
    assert Expand(r, ts, Right(op)) == Ok(r, ts);
    assert Expand(l, tail, limit) == Expand(Bin(op, l, r), ts, limit);
  }

  /** The operand to the left, in parentheses if need be. */
  function PrintLeft(l: Tree, op: BinOp, limit: nat): seq<Token> {
    if Left(op) > Edge(l, limit) then Parens(Print(l, 0)) else Print(l, limit)
  }

  /** The parser reads back a printed expression, and goes on behind it. */
  lemma {:induction false} PrintTrip(e: Tree, limit: nat, ts: seq<Token>)
    requires NextLeft(ts) <= Edge(e, limit)
    ensures Subexpr(Print(e, limit) + ts, limit) == Expand(e, ts, limit)
    decreases e, limit, 1
  {
    match e {
      case Atom(id) =>
        var all := Print(e, limit) + ts;
        assert all[0] == TAtom(id) && all[1..] == ts;
      case Un(u, x) =>
        PrintTrip(x, UNARY_PRIORITY, ts);
        UnTrip(u, Print(x, UNARY_PRIORITY), x, ts, limit);
      case Bin(op, l, r) =>
        LeftAboveZero(op);
        if Left(op) <= limit {
          PrintTrip(e, 0, [TClose] + ts);
          ParenTrip(Print(e, 0), e, ts, limit);
        } else {
          var right := Print(r, Right(op));
          LeftTrip(e, limit, [TOp(op)] + (right + ts));
          PrintTrip(r, Right(op), ts);
          BinTrip(PrintLeft(l, op, limit), op, right, l, r, ts, limit);
        }
    }
  }

  lemma {:induction false} LeftTrip(e: Tree, limit: nat, ts: seq<Token>)
    requires e.Bin? && Left(e.op) > limit && NextLeft(ts) == Left(e.op)
    ensures Subexpr(PrintLeft(e.l, e.op, limit) + ts, limit) == Expand(e.l, ts, limit)
    decreases e, limit, 0
  {
    if Left(e.op) > Edge(e.l, limit) {
      PrintTrip(e.l, 0, [TClose] + ts);
      ParenTrip(Print(e.l, 0), e.l, ts, limit);
    } else {
      PrintTrip(e.l, limit, ts);
    }
  }

  /** Parsing what was printed gives back the expression, and nothing is left. */
  lemma ParsePrint(e: Tree)
    ensures Subexpr(Print(e, 0), 0) == Ok(e, [])
  {
    PrintTrip(e, 0, []);
    assert Print(e, 0) + [] == Print(e, 0);
  }

  /** What was printed can be told apart: no two expressions look the same. */
  lemma PrintInjective(e: Tree, e': Tree)
    requires Print(e, 0) == Print(e', 0)
    ensures e == e'
  {
    ParsePrint(e);
    ParsePrint(e');
  }

  // ---------------------------------------------------------------- no parentheses too many

  /** The limit matters only for an operator not above it. */
  lemma {:induction false} PrintAbove(e: Tree, limit: nat)
    requires e.Bin? ==> Left(e.op) > limit
    ensures Print(e, limit) == Print(e, 0) && Edge(e, limit) == Edge(e, 0)
  {
    if e.Bin? {
      LeftAboveZero(e.op);
      if e.l.Bin? && Left(e.l.op) <= limit {
        LeftAboveZero(e.l.op);
        assert Edge(e.l, 0) <= Right(e.l.op) < Left(e.op);
      } else {
        PrintAbove(e.l, limit);
      }
    }
  }

  lemma PrintAtMost(e: Tree, limit: nat)
    ensures |Print(e, limit)| <= |Print(e, 0)| + 2
  {
    if e.Bin? && Left(e.op) <= limit {
      LeftAboveZero(e.op);
    } else {
      PrintAbove(e, limit);
    }
  }

  /** No operator outside that the limit leaves alone is taken by something inside. */
  lemma {:induction false} EdgeAbove(e: Tree, limit: nat)
    ensures Edge(e, limit) >= Min(limit, UNARY_PRIORITY)
  {
    match e {
      case Atom(_) =>
      case Un(_, x) => EdgeAbove(x, UNARY_PRIORITY);
      case Bin(op, _, r) => LeftAboveZero(op); EdgeAbove(r, Right(op));
    }
  }

  /** No operator has priority 8 or 9 to its left. */
  lemma NextEdge(ts: seq<Token>, e: Tree, limit: nat)
    requires NextLeft(ts) <= limit <= 9
    ensures NextLeft(ts) <= Edge(e, limit)
  {
    EdgeAbove(e, limit);
  }

  /** `v` was read from `n` tokens, which the printer would not have needed less
      of before what comes next. */
  predicate Read(v: Tree, n: int, ts: seq<Token>, limit: nat) {
    n >= |Print(v, 0)| + 2 || (n >= |Print(v, limit)| && NextLeft(ts) <= Edge(v, limit))
  }

  lemma ReadEnough(v: Tree, n: int, ts: seq<Token>, limit: nat)
    requires Read(v, n, ts, limit)
    ensures n >= |Print(v, limit)|
  {
    PrintAtMost(v, limit);
  }

  lemma {:induction false} SubexprReads(ts: seq<Token>, limit: nat)
    requires Subexpr(ts, limit).Ok? && limit <= 9
    ensures var r := Subexpr(ts, limit);
      NextLeft(r.rest) <= limit && Read(r.tree, |ts| - |r.rest|, r.rest, limit)
          && |ts| - |r.rest| >= |Print(r.tree, limit)|
    decreases |ts|, 1
  {
    var v, rest;
    if GetUnOp(ts[0]).Some? {
      SubexprReads(ts[1..], UNARY_PRIORITY);
      var x := Subexpr(ts[1..], UNARY_PRIORITY);
      v, rest := Un(GetUnOp(ts[0]).value, x.tree), x.rest;
      NextEdge(rest, x.tree, UNARY_PRIORITY);
    } else if ts[0].TAtom? {
      v, rest := Atom(ts[0].id), ts[1..];
    } else {
      SubexprReads(ts[1..], 0);
      var x := Subexpr(ts[1..], 0);
      v, rest := x.tree, x.rest[1..];
    }
    assert Subexpr(ts, limit) == Expand(v, rest, limit);
    ExpandReads(v, |ts| - |rest|, rest, limit);
    var r := Subexpr(ts, limit);
    ReadEnough(r.tree, |ts| - |r.rest|, r.rest, limit);
  }

  lemma {:induction false} ExpandReads(v: Tree, n: int, ts: seq<Token>, limit: nat)
    requires Expand(v, ts, limit).Ok? && limit <= 9 && Read(v, n, ts, limit)
    ensures var r := Expand(v, ts, limit);
        NextLeft(r.rest) <= limit && Read(r.tree, n + |ts| - |r.rest|, r.rest, limit)
    decreases |ts|, 0
  {
    if NextLeft(ts) > limit {
      var op := ts[0].op;
      SubexprReads(ts[1..], Right(op));
      var r := Subexpr(ts[1..], Right(op));
      BinReads(v, op, r.tree, n, |ts| - 1 - |r.rest|, ts, r.rest, limit);
      ExpandReads(Bin(op, v, r.tree), n + |ts| - |r.rest|, r.rest, limit);
    }
  }

  lemma BinReads(v: Tree, op: BinOp, r: Tree, n: int, m: int, ts: seq<Token>, rest: seq<Token>, limit: nat)
    requires Read(v, n, ts, limit) && NextLeft(ts) == Left(op) > limit
    requires m >= |Print(r, Right(op))| && NextLeft(rest) <= Right(op)
    ensures Read(Bin(op, v, r), n + 1 + m, rest, limit)
  {
    LeftAboveZero(op);
    PrintAtMost(v, limit);
    NextEdge(rest, r, Right(op));
    assert n >= |PrintLeft(v, op, limit)|;
  }

  /** The printed form is the shortest that the parser reads as the expression. */
  lemma Shortest(e: Tree, ts: seq<Token>)
    requires Subexpr(ts, 0) == Ok(e, [])
    ensures |Print(e, 0)| <= |ts|
  {
    SubexprReads(ts, 0);
  }

  /** So no pair of parentheses can be dropped: the rest is not read as the expression. */
  lemma PairNeeded(e: Tree, a: seq<Token>, b: seq<Token>, c: seq<Token>)
    requires Print(e, 0) == a + [TOpen] + b + [TClose] + c
    ensures Subexpr(a + b + c, 0) != Ok(e, [])
  {
    if Subexpr(a + b + c, 0) == Ok(e, []) { Shortest(e, a + b + c); }
  }

  /** Powers and concatenations group to the right without parentheses, the
      others to the left; a unary operator takes a power but no product. */
  lemma Grouping(a: int, b: int, c: int, op: BinOp)
    ensures op in {Pow, Concat} ==>
        Subexpr([TAtom(a), TOp(op), TAtom(b), TOp(op), TAtom(c)], 0)
        == Ok(Bin(op, Atom(a), Bin(op, Atom(b), Atom(c))), [])
    ensures op !in {Pow, Concat} ==>
        Subexpr([TAtom(a), TOp(op), TAtom(b), TOp(op), TAtom(c)], 0)
        == Ok(Bin(op, Bin(op, Atom(a), Atom(b)), Atom(c)), [])
    ensures Subexpr([TOp(Sub), TAtom(a), TOp(Pow), TAtom(b)], 0) == Ok(Un(Minus, Bin(Pow, Atom(a), Atom(b))), [])
    ensures Subexpr([TOp(Sub), TAtom(a), TOp(Mul), TAtom(b)], 0) == Ok(Bin(Mul, Un(Minus, Atom(a)), Atom(b)), [])
  {
    if op in {Pow, Concat} {
      var e := Bin(op, Atom(a), Bin(op, Atom(b), Atom(c)));
      ParsePrint(e);
      assert Print(Bin(op, Atom(b), Atom(c)), Right(op)) == [TAtom(b), TOp(op), TAtom(c)];
      assert Print(e, 0) == [TAtom(a), TOp(op), TAtom(b), TOp(op), TAtom(c)];
    } else {
      var e := Bin(op, Bin(op, Atom(a), Atom(b)), Atom(c));
      ParsePrint(e);
      assert Print(Bin(op, Atom(a), Atom(b)), 0) == [TAtom(a), TOp(op), TAtom(b)];
      assert Edge(Bin(op, Atom(a), Atom(b)), 0) == Right(op);
      assert Print(e, 0) == [TAtom(a), TOp(op), TAtom(b), TOp(op), TAtom(c)];
    }
    var p := Bin(Pow, Atom(a), Atom(b));
    ParsePrint(Un(Minus, p));
    assert Print(p, UNARY_PRIORITY) == [TAtom(a), TOp(Pow), TAtom(b)];
    assert Print(Un(Minus, p), 0) == [TOp(Sub), TAtom(a), TOp(Pow), TAtom(b)];
    var m := Bin(Mul, Un(Minus, Atom(a)), Atom(b));
    ParsePrint(m);
    assert Print(Un(Minus, Atom(a)), 0) == [TOp(Sub), TAtom(a)];
    assert Print(m, 0) == [TOp(Sub), TAtom(a), TOp(Mul), TAtom(b)];
  }
}
