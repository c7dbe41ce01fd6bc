/**
  The meaning of conditions, negations and values in registers.
 */
module CodeCond {
  import opened Common
  import opened CodeModel
  import opened CodeLists
  import opened CodeFlow
  import opened CodeSem

  // ---------------------------------------------------------------- going on when true, or when false

  /** One half of both `goiftrue` and `goiffalse`, on an expression in place:
      the exit wanted joins `keep`, and the exits of `here` come to what follows.
      `cond` is the truth value that leaves. */
  function Going(s: St, e: Exp, cond: bool): (St, Exp) {
    if cond then GoIfFalse(s, e) else GoIfTrue(s, e)
  }

  predicate InPlace(e: Exp) {
    !e.k.KLocal? && !e.k.KGlobal?
  }

  /** How the code of an expression ends. */
  function FormOf(s: St, e: Exp): Form {
    match e.k
    case KNil => IsNil
    case KTrue => IsTrue
    case KFalse => IsFalse
    case KConst(_) => IsConst
    case KLocal(_) => InSlot
    case KReg(_) => InSlot
    case KGlobal(_) => Fetched
    case KReloc(p) => if p < |s.code| && s.code[p].NotOp? then Tested else Fetched
    case KJmp(_) => Tested
  }

  /** The expression always leaves. */
  predicate Always(e: Exp, cond: bool) {
    if cond then e.k.KTrue? else e.k.KFalse?
  }

  /** The expression never leaves, and no code says so. */
  predicate Never(e: Exp, cond: bool) {
    if cond then e.k.KNil? || e.k.KFalse? else e.k.KConst? || e.k.KTrue?
  }

  lemma GoingOk(s: St, e: Exp, cond: bool)
    requires ExpOk(s, e)
    ensures var (s', e') := Going(s, e, cond); var keep := Keep(e', cond);
      && StOk(s') && s'.free == s.free && Keep(e', !cond) == []
      && EndPc(s, e) <= |s'.code|
      && (forall i: nat :: i < EndPc(s, e) ==> Settles(s.code[i], s'.code[i]))
      && (forall j :: j in keep ==> Pend(s'.code, j))
  {
    if cond { GoIfFalseOk(s, e); } else { GoIfTrueOk(s, e); }
  }

  /** The lists after the step. */
  lemma GoingLists(s: St, e: Exp, cond: bool)
    requires ExpOk(s, e) && InPlace(e)
    ensures var (s', e') := Going(s, e, cond);
      && Keep(e', cond) == Keep(e, cond) + (
           if Never(e, cond) then [] else if Always(e, cond) then [|s.code|] + s.jpc
           else if e.k.KJmp? then [e.k.j] else [JumpOnCond(s, e, cond).1])
      && s'.jpc == (if Never(e, cond) then s.jpc else []) + Keep(e, !cond)
      && (Never(e, cond) ==> s'.code == s.code)
      && (Always(e, cond) ==> s'.code == s.code + [Jmp(None)])
      && (e.k.KJmp? ==> s'.code == (if cond then s.code else InvertJump(s, e.k.j).code))
      && (!Never(e, cond) && !Always(e, cond) && !e.k.KJmp? ==> s'.code == JumpOnCond(s, e, cond).0.code)
  {
    if !Never(e, cond) && !Always(e, cond) && !e.k.KJmp? { JumpOnCondOk(s, e, cond); }
  }

  /** The jumps of the lists keep the test that controls them. */
  lemma GoingControl(s: St, e: Exp, cond: bool, j: nat)
    requires ExpOk(s, e) && InPlace(e) && (j in e.t || j in e.f)
    ensures SameControl(s.code, Going(s, e, cond).0.code, j)
  {
    GoingLists(s, e, cond);
    assert Pend(s.code, j);
    var c' := Going(s, e, cond).0.code;
    if Always(e, cond) {
      assert c'[..|s.code|] == s.code;
      ControlAppend(s.code, s.code, c', j);
    } else if !Never(e, cond) && !e.k.KJmp? {
      JumpOnCondControl(s, e, cond, j);
    }
  }

  lemma JumpOnCondControl(s: St, e: Exp, cond: bool, j: nat)
    requires ExpOk(s, e) && InPlace(e) && !e.k.KJmp? && (j in e.t || j in e.f)
    ensures SameControl(s.code, JumpOnCond(s, e, cond).0.code, j)
  {
    JumpOnCondIs(s, e, cond);
    FrontLength(s, e);
    var c' := JumpOnCond(s, e, cond).0.code;
    DischargedControl(s, e, j);
    assert Pend(s.code, j);
    if j >= 1 {
      assert c'[j - 1] == Front(s, e)[j - 1];
      if e.k.KReloc? { NothingPending(s); }
    }
  }

  lemma GoingSettled(s: St, e: Exp, cond: bool, C: seq<Instr>)
    requires ExpOk(s, e) && InPlace(e)
    requires var s' := Going(s, e, cond).0; SettledTo(s'.code, C, |s'.code|)
    ensures SettledTo(s.code, C, EndPc(s, e))
  {
    GoingOk(s, e, cond);
    var s' := Going(s, e, cond).0;
    forall i: nat | i < EndPc(s, e) ensures Settles(s.code[i], C[i]) {
      assert Settles(s.code[i], s'.code[i]) && Settles(s'.code[i], C[i]);
    }
  }

  /** Control has come to what follows, or leaves. */
  predicate Gone(env: Env, r: (St, Exp), cond: bool, C: seq<Instr>, o: Outcome, R: Regs, n: Next, q: Exit) {
    match n
    case On(w) => Comes(env, r.0, C, o, R, w, q)
    case Off(c) => Result(env, r.0, r.1, C, o, R, Out(cond, c), q)
  }

  /** Leaving the expression's own code through one of its lists. */
  lemma GoingExit(env: Env, s: St, e: Exp, cond: bool, C: seq<Instr>, o: Outcome, R: Regs, x: Flow, q: Exit)
    requires ExpOk(s, e) && InPlace(e) && x.Out? && Result(env, s, e, C, o, R, x, q)
    ensures Gone(env, Going(s, e, cond), cond, C, o, R, Goes(FormOf(s, e), x, cond), q)
  {
    GoingLists(s, e, cond);
    GoingControl(s, e, cond, q.j);
  }

  /** Waiting at the end of the expression's own code, on a jump pending to it. */
  lemma GoingWaits(env: Env, s: St, e: Exp, cond: bool, C: seq<Instr>, o: Outcome, R: Regs, w: Cargo, q: Exit)
    requires ExpOk(s, e) && (Never(e, cond) || Always(e, cond)) && q.At?
    requires Comes(env, s, C, o, R, w, q)
    ensures Gone(env, Going(s, e, cond), cond, C, o, R, if Never(e, cond) then On(w) else Off(w), q)
  {
    GoingLists(s, e, cond);
    assert Pend(s.code, q.j);
    if Always(e, cond) {
      var c' := Going(s, e, cond).0.code;
      assert c'[..|s.code|] == s.code;
      ControlAppend(s.code, s.code, c', q.j);
    }
  }

  /** Reaching the end of the expression's own code: no code decides. */
  lemma GoingNever(env: Env, s: St, e: Exp, cond: bool, C: seq<Instr>, R: Regs)
    requires ExpOk(s, e) && Never(e, cond)
    requires var s' := Going(s, e, cond).0; SettledTo(s'.code, C, |s'.code|)
    ensures Gone(env, Going(s, e, cond), cond, C, Run(env, C, EndPc(s, e), R), R, On(None), Fall)
  {
    GoingLists(s, e, cond);
  }

  /** An unconditional jump decides. */
  lemma GoingAlways(env: Env, s: St, e: Exp, cond: bool, C: seq<Instr>, R: Regs)
    requires ExpOk(s, e) && Always(e, cond)
    requires var s' := Going(s, e, cond).0; SettledTo(s'.code, C, |s'.code|)
    ensures Gone(env, Going(s, e, cond), cond, C, Run(env, C, EndPc(s, e), R), R, Off(None), At(|s.code|))
  {
    GoingLists(s, e, cond);
    AlwaysSem(env, s, Going(s, e, cond).0, C, R);
  }

  /** A comparison decides. */
  lemma GoingCompare(env: Env, s: St, e: Exp, cond: bool, C: seq<Instr>, R: Regs, v: Value)
    requires ExpOk(s, e) && e.k.KJmp? && KindValue(env, s, e, R, v)
    requires var s' := Going(s, e, cond).0; SettledTo(s'.code, C, |s'.code|)
    ensures Gone(env, Going(s, e, cond), cond, C, Run(env, C, EndPc(s, e), R), R,
                 Goes(Tested, End(v, None), cond), if Truthy(v) == cond then At(e.k.j) else Fall)
  {
    GoingLists(s, e, cond);
    CompareJumpSem(env, s, e, cond, C, R, v);
  }

  /** A test decides. */
  lemma GoingTest(env: Env, s: St, e: Exp, cond: bool, C: seq<Instr>, R: Regs, v: Value)
    returns (R': Regs, q': Exit)
    requires ExpOk(s, e) && InPlace(e) && !Always(e, cond) && !Never(e, cond) && !e.k.KJmp?
        && KindValue(env, s, e, R, v)
    requires var s' := Going(s, e, cond).0; SettledTo(s'.code, C, |s'.code|) == true
    ensures Same(R', R, s.free)
    ensures Gone(env, Going(s, e, cond), cond, C, Run(env, C, EndPc(s, e), R), R',
        Goes(FormOf(s, e), End(v, None), cond), q')
  {
    GoingLists(s, e, cond);
    var j := JumpOnCond(s, e, cond).1;
    R' := JumpOnCondSem(env, s, e, cond, C, R, v);
    q' := if Truthy(v) == cond then At(j) else Fall;
    TestGone(env, Going(s, e, cond), j, cond, C, Run(env, C, EndPc(s, e), R), R', v, FormOf(s, e));
  }

  lemma TestGone(env: Env, r: (St, Exp), j: nat, cond: bool, C: seq<Instr>, o: Outcome, R: Regs, v: Value, f: Form)
    requires j + 1 == |r.0.code| && j < |C| && j in Keep(r.1, cond)
    requires o == if Truthy(v) == cond then Leave(env, C, j, R) else Run(env, C, j + 1, R)
    requires Brings(r.0.code, j, R, if f.Tested? then None else Some(v))
    requires !NeverForm(f, cond) && !AlwaysForm(f, cond)
    ensures Gone(env, r, cond, C, o, R, Goes(f, End(v, None), cond), if Truthy(v) == cond then At(j) else Fall)
  {
  }

  /** Code was emitted over what waited. */
  lemma GoingEmits(env: Env, s: St, e: Exp, cond: bool, C: seq<Instr>, o: Outcome, R: Regs, q: Exit)
    requires ExpOk(s, e) && InPlace(e) && !Always(e, cond) && !Never(e, cond) && !e.k.KJmp?
    requires var s' := Going(s, e, cond).0; SettledTo(s'.code, C, |s'.code|)
    requires if q.Fall? then EndPc(s, e) <= |C| && o == Run(env, C, EndPc(s, e), R) else Reaches(env, s, C, o, R, q)
    ensures o == Run(env, C, EndPc(s, e), R)
  {
    if q.At? {
      GoingLists(s, e, cond);
      JumpOnCondFront(s, e, cond, C);
      EmitReaches(env, s, C, o, R, q);
    }
  }

  /** No test is emitted. */
  lemma GoingStill(env: Env, s: St, e: Exp, cond: bool, C: seq<Instr>, o: Outcome, R: Regs, v: Value, w: Cargo,
      q: Exit)
    returns (q': Exit)
    requires ExpOk(s, e) && (Always(e, cond) || Never(e, cond)) && Result(env, s, e, C, o, R, End(v, w), q)
    requires var s' := Going(s, e, cond).0; SettledTo(s'.code, C, |s'.code|)
    ensures Gone(env, Going(s, e, cond), cond, C, o, R, if Never(e, cond) then On(w) else Off(w), q')
  {
    q' := if q.Fall? && Always(e, cond) then At(|s.code|) else q;
    if q.At? {
      GoingWaits(env, s, e, cond, C, o, R, w, q);
    } else if Always(e, cond) {
      GoingAlways(env, s, e, cond, C, R);
    } else {
      GoingNever(env, s, e, cond, C, R);
    }
  }

  /** A test is emitted, or a comparison made part of one. */
  lemma GoingTested(env: Env, s: St, e: Exp, cond: bool, C: seq<Instr>, o: Outcome, R: Regs, v: Value, w: Cargo,
      q: Exit)
    returns (R': Regs, q': Exit)
    requires ExpOk(s, e) && InPlace(e) && !Always(e, cond) && !Never(e, cond)
        && Result(env, s, e, C, o, R, End(v, w), q)
    requires var s' := Going(s, e, cond).0; SettledTo(s'.code, C, |s'.code|)
    ensures Same(R', R, s.free)
    ensures Gone(env, Going(s, e, cond), cond, C, o, R', Goes(FormOf(s, e), End(v, None), cond), q')
  {
    if e.k.KJmp? {
      R', q' := R, if Truthy(v) == cond then At(e.k.j) else Fall;
      GoingCompare(env, s, e, cond, C, R, v);
    } else {
      GoingEmits(env, s, e, cond, C, o, R, q);
      R', q' := GoingTest(env, s, e, cond, C, R, v);
    }
  }

  lemma GoesStill(s: St, e: Exp, v: Value, w: Cargo, cond: bool)
    ensures Always(e, cond) ==> Goes(FormOf(s, e), End(v, w), cond) == Off(w)
    ensures Never(e, cond) ==> Goes(FormOf(s, e), End(v, w), cond) == On(w)
    ensures !Always(e, cond) && !Never(e, cond) ==>
      Goes(FormOf(s, e), End(v, w), cond) == Goes(FormOf(s, e), End(v, None), cond)
  {
  }

  lemma GoingEnd(env: Env, s: St, e: Exp, cond: bool, C: seq<Instr>, o: Outcome, R: Regs, v: Value, w: Cargo, q: Exit)
    returns (R': Regs, q': Exit)
    requires ExpOk(s, e) && InPlace(e) && Result(env, s, e, C, o, R, End(v, w), q)
    requires var s' := Going(s, e, cond).0; SettledTo(s'.code, C, |s'.code|)
    ensures Same(R', R, s.free)
    ensures Gone(env, Going(s, e, cond), cond, C, o, R', Goes(FormOf(s, e), End(v, w), cond), q')
  {
    GoesStill(s, e, v, w, cond);
    if Always(e, cond) || Never(e, cond) {
      R' := R;
      q' := GoingStill(env, s, e, cond, C, o, R, v, w, q);
    } else {
      R', q' := GoingTested(env, s, e, cond, C, o, R, v, w, q);
    }
  }

  /** What follows is reached, or the exit taken, as the flow says. */
  lemma GoingSem(env: Env, s: St, e: Exp, cond: bool, C: seq<Instr>, o: Outcome, R: Regs, x: Flow, q: Exit)
    returns (R': Regs, q': Exit)
    requires ExpOk(s, e) && InPlace(e) && Result(env, s, e, C, o, R, x, q)
    requires var s' := Going(s, e, cond).0; SettledTo(s'.code, C, |s'.code|)
    ensures Same(R', R, s.free)
    ensures Gone(env, Going(s, e, cond), cond, C, o, R', Goes(FormOf(s, e), x, cond), q')
  {
    if x.Out? {
      R', q' := R, q;
      GoingExit(env, s, e, cond, C, o, R, x, q);
    } else {
      R', q' := GoingEnd(env, s, e, cond, C, o, R, x.v, x.waits, q);
    }
  }

  /** An unconditional jump right after an instruction that is no test. */
  lemma AlwaysSem(env: Env, s: St, s': St, C: seq<Instr>, R: Regs)
    requires StOk(s) && s'.code == s.code + [Jmp(None)] && SettledTo(s'.code, C, |s'.code|)
    ensures Run(env, C, |s.code|, R) == Leave(env, C, |s.code|, R) && !ValueJump(s'.code, |s.code|)
  {
    var n := |s.code|;
    assert s'.code[n] == Jmp(None);
    assert Settles(s'.code[n], C[n]);
    if n >= 1 {
      assert s'.code[n - 1] == s.code[n - 1];
      assert Settles(s'.code[n - 1], C[n - 1]);
    }
  }

  /** The jump of a comparison, inverted when it must leave on false. */
  lemma CompareJumpSem(env: Env, s: St, e: Exp, cond: bool, C: seq<Instr>, R: Regs, v: Value)
    requires ExpOk(s, e) && e.k.KJmp? && KindValue(env, s, e, R, v)
    requires var c := if cond then s.code else InvertJump(s, e.k.j).code; SettledTo(c, C, |c|)
    ensures e.k.j < |C|
    ensures Run(env, C, EndPc(s, e), R)
        == if Truthy(v) == cond then Leave(env, C, e.k.j, R) else Run(env, C, |s.code|, R)
    ensures !ValueJump(s.code, e.k.j) && !ValueJump(InvertJump(s, e.k.j).code, e.k.j)
  {
    var c := if cond then s.code else InvertJump(s, e.k.j).code;
    var j := e.k.j;
    assert Settles(c[j - 1], C[j - 1]) && Settles(c[j], C[j]);
    assert C[j - 1] == if cond then s.code[j - 1] else s.code[j - 1].(cond := !s.code[j - 1].cond);
    assert Takes(env, C[j - 1], R) <==> Truthy(v) == cond;
  }

  // ---------------------------------------------------------------- negation

  /** Negation of an expression in place, before the exchange of its lists. */
  lemma NegatedIs(s: St, e: Exp)
    requires ExpOk(s, e) && InPlace(e)
    ensures var (s', e') := Negated(s, e);
      && CodeNot(s, e) == (s'.(code := RemoveValues(RemoveValues(s'.code, e'.t), e'.f)), Exp(e'.k, e'.f, e'.t))
      && (e.k.KReloc? || e.k.KReg? ==>
            s'.code == Front(s, e) + Loads(s, e) + [NotOp(0, TestReg(s, e))] && e'.k == KReloc(|s'.code| - 1)
                && s'.jpc == [])
      && (e.k.KJmp? ==> s' == InvertJump(s, e.k.j) && e'.k == e.k)
      && (!e.k.KReloc? && !e.k.KReg? && !e.k.KJmp? ==> s' == s && EndPc(s', e') == |s.code| && !e'.k.KConst?)
      && e'.t == e.t && e'.f == e.f
  {
    if e.k.KReloc? || e.k.KReg? {
      Discharge2AnyRegIs(s, e);
      TestIs(s, e, [NotOp(0, TestReg(s, e))]);
    }
  }

  /** A jump whose value was removed carries none. */
  lemma NoValueLeft(s: St, e: Exp, j: nat)
    requires ExpOk(s, e) && (j in e.t || j in e.f)
    ensures !ValueJump(RemoveValues(RemoveValues(s.code, e.t), e.f), j)
  {
    assert Pend(s.code, j);
  }

  /** Code was emitted over what waited. */
  lemma NotEmits(env: Env, s: St, e: Exp, C: seq<Instr>, o: Outcome, R: Regs, q: Exit)
    requires ExpOk(s, e) && (e.k.KReloc? || e.k.KReg?)
    requires var (s', e') := CodeNot(s, e); SettledTo(s'.code, C, EndPc(s', e'))
    requires if q.Fall? then EndPc(s, e) <= |C| && o == Run(env, C, EndPc(s, e), R) else Reaches(env, s, C, o, R, q)
    ensures o == Run(env, C, EndPc(s, e), R)
  {
    if q.At? {
      NotBefore(s, e, C);
      var s1 := Negated(s, e).0;
      forall i | 0 <= i < |s.code| ensures Settles(Discharged(s)[i], C[i]) {
        assert s1.code[i] == Discharged(s)[i];
        assert Settles(s1.code[i], C[i]);
      }
      EmitReaches(env, s, C, o, R, q);
    }
  }

  /** A negated expression delivers the negation, and exits with the opposite
      truth value and no cargo. */
  lemma NotSem(env: Env, s: St, e: Exp, C: seq<Instr>, o: Outcome, R: Regs, x: Flow, q: Exit)
    returns (R': Regs, q': Exit)
    requires ExpOk(s, e) && InPlace(e) && Result(env, s, e, C, o, R, x, q)
    requires var (s', e') := CodeNot(s, e); SettledTo(s'.code, C, EndPc(s', e'))
    ensures Same(R', R, s.free)
    ensures var (s', e') := CodeNot(s, e); Result(env, s', e', C, o, R', NotFlow(FormOf(s, e), x), q')
  {
    R', q' := R, q;
    if x.Out? {
      NegatedIs(s, e);
      NegatedOk(s, e);
      NoValueLeft(Negated(s, e).0, Negated(s, e).1, q.j);
    } else if e.k.KReloc? || e.k.KReg? {
      NotEmits(env, s, e, C, o, R, q);
      R' := NotValueSem(env, s, e, C, R, x.v);
      q' := Fall;
    } else {
      NotKindSem(env, s, e, R, x.v);
      if q.At? { NotWaits(env, s, e, C, o, R, x.waits, q); }
    }
  }

  /** What waits at a literal waits at its negation. */
  lemma NotWaits(env: Env, s: St, e: Exp, C: seq<Instr>, o: Outcome, R: Regs, w: Cargo, q: Exit)
    requires ExpOk(s, e) && InPlace(e) && !e.k.KReloc? && !e.k.KReg? && q.At? && Comes(env, s, C, o, R, w, q)
    ensures !e.k.KJmp? && Comes(env, CodeNot(s, e).0, C, o, R, w, q)
  {
    NegatedIs(s, e);
    assert Pend(s.code, q.j);
    RemovedControl(s, e, q.j);
  }

  lemma RemovedControl(s: St, e: Exp, j: nat)
    requires ExpOk(s, e) && j in s.jpc
    ensures SameControl(s.code, RemoveValues(RemoveValues(s.code, e.t), e.f), j)
  {
    assert Pend(s.code, j);
    if j >= 1 { RemovedAt(s.code, e.t, e.f, j - 1); }
  }

  /** The code of a negated value, in place and as it will be. */
  lemma NotCode(s: St, e: Exp, C: seq<Instr>)
    requires ExpOk(s, e) && (e.k.KReloc? || e.k.KReg?)
    requires var (s', e') := CodeNot(s, e); SettledTo(s'.code, C, EndPc(s', e'))
    ensures var (s', e') := CodeNot(s, e); var n := EndPc(s, e); var m := |Loads(s, e)|;
      && e'.k == KReloc(n + m) && n + m < |s'.code| && n + m <= |C|
      && s'.code[n + m] == NotOp(0, TestReg(s, e))
      && forall k: nat :: k < m ==> C[n + k] == Loads(s, e)[k]
  {
    NotBefore(s, e, C);
    FrontLength(s, e);
    var (s1, e1) := Negated(s, e);
    var n := EndPc(s, e);
    var m := |Loads(s, e)|;
    assert s1.code[n + m] == NotOp(0, TestReg(s, e));
    RemovedAt(s1.code, e1.t, e1.f, n + m);
    forall k: nat | k < m ensures C[n + k] == Loads(s, e)[k] {
      assert s1.code[n + k] == Loads(s, e)[k];
      assert Settles(s1.code[n + k], C[n + k]);
      LoadsFixed(s, e, k, C[n + k]);
    }
  }

  /** Before the lists are exchanged. */
  lemma NotBefore(s: St, e: Exp, C: seq<Instr>)
    requires ExpOk(s, e) && (e.k.KReloc? || e.k.KReg?)
    requires var (s', e') := CodeNot(s, e); SettledTo(s'.code, C, EndPc(s', e'))
    ensures var (s1, e1) := Negated(s, e); var (s', e') := CodeNot(s, e);
      && s1.code == Front(s, e) + Loads(s, e) + [NotOp(0, TestReg(s, e))] && e1.k == KReloc(|s1.code| - 1)
          && e'.k == e1.k
      && s'.code == RemoveValues(RemoveValues(s1.code, e1.t), e1.f)
      && SettledTo(s1.code, C, |s1.code| - 1)
  {
    NegatedIs(s, e);
    NegatedOk(s, e);
    var (s1, e1) := Negated(s, e);
    RemoveValuesOk(s1, e1);
    var (s', e') := CodeNot(s, e);
    SettledBack(s1, e1, s', e', C);
  }

  lemma NotValueSem(env: Env, s: St, e: Exp, C: seq<Instr>, R: Regs, v: Value) returns (R': Regs)
    requires ExpOk(s, e) && (e.k.KReloc? || e.k.KReg?) && KindValue(env, s, e, R, v)
    requires var (s', e') := CodeNot(s, e); SettledTo(s'.code, C, EndPc(s', e'))
    ensures Same(R', R, s.free)
    ensures var (s', e') := CodeNot(s, e);
      EndPc(s', e') <= |C| && Run(env, C, EndPc(s, e), R) == Run(env, C, EndPc(s', e'), R')
          && KindValue(env, s', e', R', VBool(!Truthy(v)))
  {
    NotCode(s, e, C);
    R' := RunLoads(env, s, e, C, R, v);
  }

  /** Constants and comparisons change kind, or sense, without code. */
  lemma NotKindSem(env: Env, s: St, e: Exp, R: Regs, v: Value)
    requires ExpOk(s, e) && InPlace(e) && !e.k.KReloc? && !e.k.KReg? && KindValue(env, s, e, R, v)
    ensures var (s', e') := CodeNot(s, e);
      EndPc(s', e') == EndPc(s, e) && KindValue(env, s', e', R, VBool(!Truthy(v)))
  {
    NegatedIs(s, e);
  }
}
