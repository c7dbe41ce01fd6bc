/**
  Leaving the value of an expression in a register.
 */
module CodeReg {
  import opened Common
  import opened CodeModel
  import opened CodeLists
  import opened CodeFlow
  import opened CodeSem
  import opened CodeCond

  /** The jump at `i` goes to `final` with its value in `reg`, or to `d`. */
  predicate DirectedAt(code: seq<Instr>, C: seq<Instr>, i: nat, final: nat, reg: nat, d: nat) {
    && i < |C|
    && C[i] == Jmp(Some(if ValueJump(code, i) then final else d))
    && (ValueJump(code, i) ==> C[i - 1] == PatchReg(code[i - 1], Some(reg)))
  }

  ghost predicate Directed(code: seq<Instr>, C: seq<Instr>, l: seq<nat>, final: nat, reg: nat, d: nat) {
    forall i: nat :: i in l ==> DirectedAt(code, C, i, final, reg, d)
  }

  function PatchBoth(code: seq<Instr>, e: Exp, final: nat, reg: nat, pf: nat, pt: nat): seq<Instr> {
    PatchList(PatchList(code, e.f, final, Some(reg), pf), e.t, final, Some(reg), pt)
  }

  /** One list patched: its jumps are directed. */
  lemma PatchOneAt(code: seq<Instr>, l: seq<nat>, final: nat, reg: nat, d: nat, i: nat)
    requires Pend(code, i) && i in l && (i >= 1 ==> i - 1 !in l || !code[i - 1].TestSet?)
    ensures DirectedAt(code, PatchList(code, l, final, Some(reg), d), i, final, reg, d)
  {
  }

  /** The other list patched: what concerns a jump is as it was. */
  lemma PatchOther(code: seq<Instr>, l: seq<nat>, final: nat, reg: nat, d: nat, i: nat)
    requires i < |code| && code[i].Jmp? && i !in l && (i >= 1 && code[i - 1].TestSet? ==> i - 1 !in l)
    ensures var c := PatchList(code, l, final, Some(reg), d);
      c[i] == code[i] && (ValueJump(c, i) <==> ValueJump(code, i))
          && (i >= 1 && IsTest(code[i - 1]) ==> i - 1 in l || c[i - 1] == code[i - 1])
  {
  }

  lemma PatchedAt(s: St, e: Exp, final: nat, reg: nat, pf: nat, pt: nat, i: nat)
    requires ExpOk(s, e) && (i in e.f || i in e.t)
    ensures DirectedAt(s.code, PatchBoth(s.code, e, final, reg, pf, pt), i, final, reg, if i in e.f then pf else pt)
  {
    assert Pend(s.code, i);
    var c1 := PatchList(s.code, e.f, final, Some(reg), pf);
    if i >= 1 && (i - 1 in e.f || i - 1 in e.t) { assert Pend(s.code, i - 1); }
    if i in e.f {
      PatchOneAt(s.code, e.f, final, reg, pf, i);
      PatchOther(c1, e.t, final, reg, pt, i);
    } else {
      PatchOther(s.code, e.f, final, reg, pf, i);
      PatchOneAt(c1, e.t, final, reg, pt, i);
    }
  }

  /** A directed jump is settled. */
  lemma DirectedSettles(code: seq<Instr>, c: seq<Instr>, C: seq<Instr>, i: nat, final: nat, reg: nat, d: nat)
    requires DirectedAt(code, c, i, final, reg, d) && SettledTo(c, C, |c|)
    ensures DirectedAt(code, C, i, final, reg, d)
  {
    assert Settles(c[i], C[i]);
    if ValueJump(code, i) { assert Settles(c[i - 1], C[i - 1]); }
  }

  /** Both lists are directed in any completion of the patched code. */
  lemma PatchBothDirects(s: St, e: Exp, final: nat, reg: nat, pf: nat, pt: nat, C: seq<Instr>)
    requires ExpOk(s, e) && SettledTo(PatchBoth(s.code, e, final, reg, pf, pt), C, |s.code|)
    ensures Directed(s.code, C, e.f, final, reg, pf) && Directed(s.code, C, e.t, final, reg, pt)
  {
    var c := PatchBoth(s.code, e, final, reg, pf, pt);
    forall i: nat | i in e.f || i in e.t ensures DirectedAt(s.code, C, i, final, reg, if i in e.f then pf else pt) {
      PatchedAt(s, e, final, reg, pf, pt, i);
      DirectedSettles(s.code, c, C, i, final, reg, if i in e.f then pf else pt);
    }
  }

  lemma PatchBothSettled(s: St, e: Exp, final: nat, reg: nat, pf: nat, pt: nat, C: seq<Instr>)
    requires ExpOk(s, e) && e.k.KNil? && SettledTo(PatchBoth(s.code, e, final, reg, pf, pt), C, |s.code|)
    ensures SettledTo(s.code, C, |s.code|)
  {
    PatchBothOk(s, e, final, reg, pf, pt);
    SettledBack(s, e, s.(code := PatchBoth(s.code, e, final, reg, pf, pt)), NoExp, C);
  }

  // ---------------------------------------------------------------- the end of exp2reg

  /** Whether truth values are loaded. */
  predicate Loads2(s: St, e: Exp) {
    NeedValue(s.code, Joined(e).t) || NeedValue(s.code, e.f)
  }

  predicate Settled(s: St, e: Exp) {
    EndPc(s, e) == |s.code| || e.k.KJmp?
  }

  /** `C` completes the code of a state. */
  ghost predicate Completes(s: St, C: seq<Instr>) {
    SettledTo(s.code, C, |s.code|)
  }

  /** In `C` the code of the expression is followed by the loads, if they are
      needed, from `pf` on, and every exit is directed to the loads or to `m`. */
  ghost predicate Done(s: St, e: Exp, reg: nat, C: seq<Instr>, m: nat, pf: nat) {
    && |s.code| <= m <= |C|
    && SettledTo(s.code, C, |s.code|)
    && Directed(s.code, C, Joined(e).t, m, reg, pf + 1) && Directed(s.code, C, e.f, m, reg, pf)
    && (if Loads2(s, e) then
          && pf + 2 == m && pf >= |s.code|
          && C[pf] == LoadBool(reg, false, true) && C[pf + 1] == LoadBool(reg, true, false)
          && (if e.k.KJmp? then pf == |s.code| else C[|s.code|].Jmp?)
        else
          m == |s.code|)
  }

  /** A comparison has no value in a register. */
  lemma CompareLoads(s: St, e: Exp)
    requires ExpOk(s, e)
    ensures e.k.KJmp? ==> Loads2(s, e)
  {
    if e.k.KJmp? { assert e.k.j in Joined(e).t && !ValueJump(s.code, e.k.j); }
  }

  lemma NoJumpsDone(s: St, e: Exp, reg: nat, C: seq<Instr>)
    requires ExpOk(s, e) && Settled(s, e) && !HasJumps(Joined(e)) && Completes(s, C)
    ensures Finished(s, e, reg) == s && Done(s, e, reg, C, |s.code|, 0)
  {
  }

  lemma ValuesDone(s: St, e: Exp, reg: nat, C: seq<Instr>)
    requires ExpOk(s, e) && Settled(s, e) && HasJumps(Joined(e)) && !Loads2(s, e) && Completes(Finished(s, e, reg), C)
    ensures |Finished(s, e, reg).code| == |s.code| && Done(s, e, reg, C, |s.code|, 0)
  {
    CompareLoads(s, e);
    PlainOk(s, e);
    var e1 := Plain(e);
    var n := |s.code|;
    assert Finished(s, e, reg) == s.(code := PatchBoth(s.code, e1, n, reg, 0, 0));
    PatchBothSettled(s, e1, n, reg, 0, 0, C);
    PatchBothDirects(s, e1, n, reg, 0, 0, C);
    DirectedValues(s.code, C, e1.t, n, reg, 0, 1);
  }

  /** Where no jump needs a truth value, it does not matter where such jumps would go. */
  lemma DirectedValues(code: seq<Instr>, C: seq<Instr>, l: seq<nat>, final: nat, reg: nat, d: nat, d': nat)
    requires Directed(code, C, l, final, reg, d) && !NeedValue(code, l)
    ensures Directed(code, C, l, final, reg, d')
  {
    forall i: nat | i in l ensures DirectedAt(code, C, i, final, reg, d') {
      assert DirectedAt(code, C, i, final, reg, d) && ValueJump(code, i);
    }
  }

  /** The loads stand at `pf`, behind the settled code and a jump around them. */
  predicate LoadsAt(s: St, e: Exp, reg: nat, c3: seq<Instr>, pf: nat) {
    && |c3| == pf + 2 && pf >= |s.code| && c3[..|s.code|] == s.code
    && c3[pf] == LoadBool(reg, false, true) && c3[pf + 1] == LoadBool(reg, true, false)
    && if e.k.KJmp? then pf == |s.code| else pf > |s.code| && c3[|s.code|] == Jmp(None)
  }

  /** The lists of the loaded code are directed in the code patched. */
  lemma PatchedFacts(s3: St, j: Exp, reg: nat, pf: nat, s': St)
    requires ExpOk(s3, j) && j.k.KNil? && |s3.code| == pf + 2
    requires s' == s3.(code := PatchBoth(s3.code, j, pf + 2, reg, pf, pf + 1))
    ensures PatchedTo(s3, j, reg, pf, s') == true
  {
    PatchBothOk(s3, j, pf + 2, reg, pf, pf + 1);
    forall i: nat | i in j.f || i in j.t
      ensures DirectedAt(s3.code, s'.code, i, pf + 2, reg, if i in j.f then pf else pf + 1)
    {
      PatchedAt(s3, j, pf + 2, reg, pf, pf + 1, i);
    }
  }

  /** The expression with the jump of a comparison among its exits. */
  function Listed(e: Exp): Exp {
    if e.k.KJmp? then e.(t := e.t + [e.k.j]) else e
  }

  lemma LoadedTruth(s: St, e: Exp, reg: nat)
    requires Loads2(s, e)
    ensures Loaded(s, e, reg) == LoadTruth(s, Listed(e), reg)
  {
  }

  lemma FinishedTruth(s: St, e: Exp, reg: nat, s3: St, pf: nat, pt: nat)
    requires Loads2(s, e) && Loaded(s, e, reg) == (s3, pf, pt)
    ensures Finished(s, e, reg) == s3.(code := PatchBoth(s3.code, Joined(e), |s3.code|, reg, pf, pt))
  {
  }

  /** The code with the loads, before the lists are patched. */
  lemma LoadsParts(s: St, e: Exp, reg: nat) returns (s3: St, pf: nat)
    requires (e.k.KJmp? ==> s.jpc == []) && Loads2(s, e) == true
    ensures Loaded(s, e, reg) == (s3, pf, pf + 1) && pf + 2 == |s3.code|
    ensures s3.jpc == if e.k.KJmp? then [] else [|s.code|] + s.jpc
    ensures s3.code == s.code + (if e.k.KJmp? then [] else [Jmp(None)])
        + [LoadBool(reg, false, true), LoadBool(reg, true, false)]
  {
    var e' := Listed(e);
    LoadedTruth(s, e, reg);
    LoadTruthIs(s, e', reg);
    var r := LoadTruth(s, e', reg);
    s3, pf := r.0, r.1;
  }

  /** What `exp2reg` comes to when truth values are loaded. */
  lemma LoadedFacts(s: St, e: Exp, reg: nat) returns (s3: St, pf: nat)
    requires ExpOk(s, e) == true && Settled(s, e) == true && Loads2(s, e) == true
    ensures LoadsAt(s, e, reg, s3.code, pf) == true && ExpOk(s3, Joined(e)) == true
    ensures PatchedTo(s3, Joined(e), reg, pf, Finished(s, e, reg)) == true
  {
    s3, pf := LoadsParts(s, e, reg);
    LoadsShape(s, e, reg, s3.code, pf);
    LoadedJoined(s, e, reg);
    LoadedPatched(s, e, reg, s3, pf);
  }

  lemma LoadsShape(s: St, e: Exp, reg: nat, c: seq<Instr>, pf: nat)
    requires c == s.code + (if e.k.KJmp? then [] else [Jmp(None)])
        + [LoadBool(reg, false, true), LoadBool(reg, true, false)]
    requires pf + 2 == |c|
    ensures LoadsAt(s, e, reg, c, pf) == true
  {
  }

  lemma LoadedPatched(s: St, e: Exp, reg: nat, s3: St, pf: nat)
    requires ExpOk(s3, Joined(e)) == true && Loads2(s, e) == true
    requires Loaded(s, e, reg) == (s3, pf, pf + 1) && |s3.code| == pf + 2
    ensures PatchedTo(s3, Joined(e), reg, pf, Finished(s, e, reg)) == true
  {
    FinishedTruth(s, e, reg, s3, pf, pf + 1);
    PatchedFacts(s3, Joined(e), reg, pf, Finished(s, e, reg));
  }

  lemma LoadedJoined(s: St, e: Exp, reg: nat)
    requires ExpOk(s, e) && Settled(s, e)
    ensures ExpOk(Loaded(s, e, reg).0, Joined(e)) == true
  {
    LoadedOk(s, e, reg);
  }

  ghost predicate PatchedTo(s3: St, j: Exp, reg: nat, pf: nat, s': St) {
    && Directed(s3.code, s'.code, j.f, pf + 2, reg, pf) && Directed(s3.code, s'.code, j.t, pf + 2, reg, pf + 1)
    && Grows(s3, j, s', NoExp) && |s'.code| == pf + 2
  }

  lemma LoadsDone(s: St, e: Exp, reg: nat, C: seq<Instr>, s3: St, pf: nat, s': St)
    requires ExpOk(s, e) == true && Settled(s, e) && Loads2(s, e) && LoadsAt(s, e, reg, s3.code, pf) == true
    requires ExpOk(s3, Joined(e)) == true
    requires Completes(s', C) == true && PatchedTo(s3, Joined(e), reg, pf, s') == true
    ensures |s'.code| == pf + 2 && Done(s, e, reg, C, pf + 2, pf) == true
  {
    LoadsDirected(s3, Joined(e), reg, pf, s', C);
    LoadsDoneAt(s, e, reg, C, s3.code, pf);
  }

  /** Both lists patched, with the loads at the end. */
  lemma LoadsDirected(s3: St, j: Exp, reg: nat, pf: nat, s': St, C: seq<Instr>)
    requires ExpOk(s3, j) == true && j.k.KNil? && |s3.code| == pf + 2 && Completes(s', C)
        && PatchedTo(s3, j, reg, pf, s')
    ensures SettledTo(s3.code, C, pf + 2) == true
    ensures Directed(s3.code, C, j.f, pf + 2, reg, pf) == true
        && Directed(s3.code, C, j.t, pf + 2, reg, pf + 1) == true
  {
    SettledBack(s3, j, s', NoExp, C);
    forall i: nat | i in j.f ensures DirectedAt(s3.code, C, i, pf + 2, reg, pf) {
      DirectedSettles(s3.code, s'.code, C, i, pf + 2, reg, pf);
    }
    forall i: nat | i in j.t ensures DirectedAt(s3.code, C, i, pf + 2, reg, pf + 1) {
      DirectedSettles(s3.code, s'.code, C, i, pf + 2, reg, pf + 1);
    }
  }

  lemma LoadsDoneAt(s: St, e: Exp, reg: nat, C: seq<Instr>, c3: seq<Instr>, pf: nat)
    requires ExpOk(s, e) == true && Settled(s, e) && Loads2(s, e) && LoadsAt(s, e, reg, c3, pf) == true
    requires SettledTo(c3, C, pf + 2) == true
    requires Directed(c3, C, Joined(e).f, pf + 2, reg, pf) == true
        && Directed(c3, C, Joined(e).t, pf + 2, reg, pf + 1) == true
    ensures Done(s, e, reg, C, pf + 2, pf)
  {
    assert Settles(c3[pf], C[pf]) && Settles(c3[pf + 1], C[pf + 1]);
    if !e.k.KJmp? { assert Settles(c3[|s.code|], C[|s.code|]); }
    forall i | 0 <= i < |s.code| ensures Settles(s.code[i], C[i]) {
      assert s.code[i] == c3[i] && Settles(c3[i], C[i]);
    }
    DirectedFront(s, e.f, c3, C, pf + 2, reg, pf) by {
      forall i: nat | i in e.f ensures Pend(s.code, i) {}
    }
    DirectedFront(s, Joined(e).t, c3, C, pf + 2, reg, pf + 1) by {
      if e.k.KJmp? { JoinedOk(s, e); }
      forall i: nat | i in Joined(e).t ensures Pend(s.code, i) {}
    }
  }

  lemma DirectedFront(s: St, l: seq<nat>, c3: seq<Instr>, C: seq<Instr>, final: nat, reg: nat, d: nat)
    requires (forall i: nat :: i in l ==> Pend(s.code, i)) && |s.code| <= |c3| && c3[..|s.code|] == s.code
    requires Directed(c3, C, l, final, reg, d)
    ensures Directed(s.code, C, l, final, reg, d)
  {
    forall i: nat | i in l ensures DirectedAt(s.code, C, i, final, reg, d) {
      assert DirectedAt(c3, C, i, final, reg, d) && Pend(s.code, i);
      if i >= 1 { assert c3[i - 1] == s.code[i - 1]; }
    }
  }

  /** Code that completes the result ends as described. */
  lemma FinishedDone(s: St, e: Exp, reg: nat, C: seq<Instr>) returns (pf: nat)
    requires ExpOk(s, e) == true && Settled(s, e) == true && Completes(Finished(s, e, reg), C) == true
    ensures Done(s, e, reg, C, |Finished(s, e, reg).code|, pf) == true
  {
    if Loads2(s, e) {
      pf := LoadedDone(s, e, reg, C);
    } else {
      pf := 0;
      UnloadedDone(s, e, reg, C);
    }
  }

  lemma LoadedDone(s: St, e: Exp, reg: nat, C: seq<Instr>) returns (pf: nat)
    requires ExpOk(s, e) == true && Settled(s, e) == true && Loads2(s, e) == true
        && Completes(Finished(s, e, reg), C) == true
    ensures Done(s, e, reg, C, |Finished(s, e, reg).code|, pf) == true
  {
    var s3;
    s3, pf := LoadedFacts(s, e, reg);
    LoadsDone(s, e, reg, C, s3, pf, Finished(s, e, reg));
  }

  lemma UnloadedDone(s: St, e: Exp, reg: nat, C: seq<Instr>)
    requires ExpOk(s, e) && Settled(s, e) && !Loads2(s, e) && Completes(Finished(s, e, reg), C)
    ensures Done(s, e, reg, C, |Finished(s, e, reg).code|, 0) == true
  {
    if HasJumps(Joined(e)) {
      ValuesDone(s, e, reg, C);
    } else {
      PlainFinished(s, e, reg);
      NoJumpsDone(s, e, reg, C);
    }
  }

  lemma PlainFinished(s: St, e: Exp, reg: nat)
    requires !HasJumps(Joined(e))
    ensures Finished(s, e, reg) == s
  {
  }

  // ---------------------------------------------------------------- values

  /** Only `reg` differs, and it has the value. */
  ghost predicate Put(R': Regs, R: Regs, reg: nat, v: Value) {
    Get(R', reg) == v && forall r: nat :: r != reg ==> Get(R', r) == Get(R, r)
  }

  /** A value jump stores the value on its way to the end. */
  lemma ValueLeave(env: Env, code: seq<Instr>, C: seq<Instr>, j: nat, m: nat, reg: nat, d: nat, R: Regs, v: Value)
    returns (R': Regs)
    requires DirectedAt(code, C, j, m, reg, d) && ValueJump(code, j) && v == Get(R, code[j - 1].b) && j < m <= |C|
    ensures Leave(env, C, j, R) == Run(env, C, m, R') && Put(R', R, reg, v)
  {
    R' := if code[j - 1].b == reg then R else R[reg := v];
  }

  /** The two loads. */
  lemma LoadSem(env: Env, C: seq<Instr>, pf: nat, reg: nat, R: Regs, b: bool)
    requires pf + 2 <= |C| && C[pf] == LoadBool(reg, false, true) && C[pf + 1] == LoadBool(reg, true, false)
    ensures Run(env, C, if b then pf + 1 else pf, R) == Run(env, C, pf + 2, R[reg := VBool(b)])
  {
  }

  /** Any other jump goes to a load. */
  lemma TruthLeave(env: Env, code: seq<Instr>, C: seq<Instr>, j: nat, m: nat, reg: nat, d: nat, R: Regs)
    requires DirectedAt(code, C, j, m, reg, d) && !ValueJump(code, j) && j < d <= |C| && j < |code|
    requires j >= 1 ==> Settles(code[j - 1], C[j - 1])
    ensures Leave(env, C, j, R) == Run(env, C, d, R)
  {
  }

  /** Leaving through a list of the expression. */
  lemma DoneLeave(env: Env, s: St, e: Exp, reg: nat, C: seq<Instr>, m: nat, pf: nat, R: Regs, b: bool, c: Cargo,
      j: nat)
    returns (R': Regs)
    requires ExpOk(s, e) && Settled(s, e) && Done(s, e, reg, C, m, pf)
    requires j in Keep(Joined(e), b) && Brings(s.code, j, R, c)
    ensures j < |C| && Leave(env, C, j, R) == Run(env, C, m, R') && Put(R', R, reg, Left(Out(b, c)))
  {
    var d := if b then pf + 1 else pf;
    assert DirectedAt(s.code, C, j, m, reg, d);
    JumpBefore(s, e, j);
    if ValueJump(s.code, j) {
      R' := ValueLeave(env, s.code, C, j, m, reg, d, R, c.value);
    } else {
      if j >= 1 { assert Settles(s.code[j - 1], C[j - 1]); }
      TruthLeave(env, s.code, C, j, m, reg, d, R);
      R' := R[reg := VBool(b)];
      LoadSem(env, C, pf, reg, R, b);
    }
  }

  lemma JumpBefore(s: St, e: Exp, j: nat)
    requires ExpOk(s, e) && (j in Joined(e).t || j in e.f)
    ensures j < |s.code|
  {
    if j in e.t || j in e.f { assert Pend(s.code, j); }
  }

  /** Coming to the end of the expression's own code: of a comparison. */
  lemma DoneCompare(env: Env, s: St, e: Exp, reg: nat, C: seq<Instr>, m: nat, pf: nat, R: Regs, v: Value)
    returns (R': Regs)
    requires ExpOk(s, e) && Done(s, e, reg, C, m, pf) && e.k.KJmp? && KindValue(env, s, e, R, v)
    ensures Run(env, C, EndPc(s, e), R) == Run(env, C, m, R') && Put(R', R, reg, v)
  {
    assert e.k.j in Joined(e).t && !ValueJump(s.code, e.k.j);
    CompareJumpSem(env, s, e, true, C, R, v);
    if Truthy(v) {
      R' := DoneLeave(env, s, e, reg, C, m, pf, R, true, None, e.k.j);
    } else {
      R' := R[reg := VBool(false)];
      LoadSem(env, C, pf, reg, R, false);
    }
  }

  /** Of another expression: it is in its register, and control goes around the
      loads. */
  lemma DoneAround(env: Env, s: St, e: Exp, reg: nat, C: seq<Instr>, pf: nat, R: Regs) returns (q: Exit)
    requires ExpOk(s, e) && Settled(s, e) && !e.k.KJmp? && Done(s, e, reg, C, |Finished(s, e, reg).code|, pf)
    requires Loads2(s, e) ==> |Finished(s, e, reg).code| > |s.code|
    ensures Comes(env, Finished(s, e, reg), C, Run(env, C, |s.code|, R), R, None, q)
  {
    if Loads2(s, e) {
      q := At(|s.code|);
      AroundIs(s, e, reg);
      AroundJump(env, s, C, R);
    } else {
      q := Fall;
    }
  }

  /** The jump around the loads is pending, and carries no value. */
  lemma AroundIs(s: St, e: Exp, reg: nat)
    requires ExpOk(s, e) && Settled(s, e) && !e.k.KJmp? && Loads2(s, e)
    ensures var s' := Finished(s, e, reg); |s.code| in s'.jpc && !ValueJump(s'.code, |s.code|)
  {
    var s3, pf := LoadsParts(s, e, reg);
    FinishedTruth(s, e, reg, s3, pf, pf + 1);
    AroundAt(s, s3, Joined(e), pf, reg);
  }

  lemma AroundAt(s: St, s3: St, j: Exp, pf: nat, reg: nat)
    requires StOk(s) && |s.code| <= |s3.code| && s3.code[..|s.code|] == s.code
    ensures !ValueJump(PatchBoth(s3.code, j, pf + 2, reg, pf, pf + 1), |s.code|)
  {
    var n := |s.code|;
    if n >= 1 { assert s3.code[n - 1] == s3.code[..n][n - 1]; }
  }

  /** A jump behind an instruction that is no test is just a jump. */
  lemma AroundJump(env: Env, s: St, C: seq<Instr>, R: Regs)
    requires StOk(s) && SettledTo(s.code, C, |s.code|) && |s.code| < |C| && C[|s.code|].Jmp?
    ensures Run(env, C, |s.code|, R) == Leave(env, C, |s.code|, R)
  {
    var n := |s.code|;
    if n >= 1 { assert Settles(s.code[n - 1], C[n - 1]); }
  }

  // ---------------------------------------------------------------- the whole of exp2reg

  /** The code of bringing an expression in place to a register. */
  lemma Discharge2RegIs(s: St, e: Exp, reg: nat)
    requires ExpOk(s, e) && InPlace(e)
    ensures var (s1, e1) := Discharge2Reg(s, e, reg);
      && (e.k.KJmp? ==> s1 == s && e1 == e)
      && (!e.k.KJmp? ==> e1 == e.(k := KReg(reg)))
      && (e.k.KReg? ==> s1 == if e.k.r == reg then s else Emit(s, [Move(reg, e.k.r)]))
      && (!e.k.KJmp? && !e.k.KReg? ==> s1.code == Front(s, e) + Loads(s.(free := reg), e) && s1.jpc == [])
  {
    if e.k.KReloc? { assert s.code == s.code[..e.k.pc] + [s.code[e.k.pc]]; }
  }

  lemma Discharge2RegControl(s: St, e: Exp, reg: nat, j: nat)
    requires ExpOk(s, e) && InPlace(e) && (j in e.t || j in e.f)
    ensures SameControl(s.code, Discharge2Reg(s, e, reg).0.code, j)
  {
    Discharge2RegIs(s, e, reg);
    assert Pend(s.code, j);
    var c' := Discharge2Reg(s, e, reg).0.code;
    if !e.k.KJmp? && c' != s.code {
      FrontLength(s, e);
      DischargedControl(s, e, j);
      if e.k.KReloc? { NothingPending(s); }
      if j >= 1 { assert c'[j - 1] == (if e.k.KReloc? then s.code else Discharged(s))[j - 1]; }
    }
  }

  /** A value not in a comparison is settled by its load or move. */
  function Put1(s: St, e: Exp, reg: nat): seq<Instr> {
    if e.k.KReg? then (if e.k.r == reg then [] else [Move(reg, e.k.r)]) else Loads(s.(free := reg), e)
  }

  lemma RunPut(env: Env, s: St, e: Exp, reg: nat, C: seq<Instr>, R: Regs, v: Value) returns (R': Regs)
    requires ExpOk(s, e) && InPlace(e) && !e.k.KJmp? && KindValue(env, s, e, R, v)
    requires EndPc(s, e) + |Put1(s, e, reg)| <= |C|
    requires forall k :: 0 <= k < |Put1(s, e, reg)| ==> C[EndPc(s, e) + k] == Put1(s, e, reg)[k]
    ensures Run(env, C, EndPc(s, e), R) == Run(env, C, EndPc(s, e) + |Put1(s, e, reg)|, R') && Put(R', R, reg, v)
  {
    if e.k.KReg? && e.k.r == reg {
      R' := R;
    } else {
      R' := R[reg := v];
      assert C[EndPc(s, e) + 0] == Put1(s, e, reg)[0];
    }
  }

  lemma Discharge2RegShape(s: St, e: Exp, reg: nat)
    requires ExpOk(s, e) && InPlace(e) && !e.k.KJmp?
    ensures Discharge2Reg(s, e, reg).0.code
        == (if e.k.KReg? && e.k.r == reg then s.code else Front(s, e)) + Put1(s, e, reg)
  {
    Discharge2RegIs(s, e, reg);
  }

  lemma PutFixed(s: St, e: Exp, reg: nat, k: nat, i: Instr)
    requires ExpOk(s, e) && InPlace(e) && !e.k.KJmp? && k < |Put1(s, e, reg)| && Settles(Put1(s, e, reg)[k], i)
    ensures i == Put1(s, e, reg)[k]
  {
  }

  lemma SettledTail(c: seq<Instr>, C: seq<Instr>, a: seq<Instr>, l: seq<Instr>, k: nat)
    requires c == a + l && SettledTo(c, C, |c|) && k < |l|
    ensures |a| + k < |C| && Settles(l[k], C[|a| + k])
  {
    assert c[|a| + k] == l[k];
    assert Settles(c[|a| + k], C[|a| + k]);
  }

  lemma Discharge2RegAt(s: St, e: Exp, reg: nat, C: seq<Instr>, k: nat)
    requires ExpOk(s, e) && InPlace(e) && !e.k.KJmp? && k < |Put1(s, e, reg)|
    requires var s1 := Discharge2Reg(s, e, reg).0; SettledTo(s1.code, C, |s1.code|)
    ensures EndPc(s, e) + k < |C| && C[EndPc(s, e) + k] == Put1(s, e, reg)[k]
  {
    Discharge2RegShape(s, e, reg);
    FrontLength(s, e);
    SettledTail(Discharge2Reg(s, e, reg).0.code, C, Front(s, e), Put1(s, e, reg), k);
    PutFixed(s, e, reg, k, C[EndPc(s, e) + k]);
  }

  lemma Discharge2RegCode(s: St, e: Exp, reg: nat, C: seq<Instr>)
    requires ExpOk(s, e) && InPlace(e) && !e.k.KJmp?
    requires var s1 := Discharge2Reg(s, e, reg).0; SettledTo(s1.code, C, |s1.code|)
    ensures var n := EndPc(s, e); var l := Put1(s, e, reg);
      && |Discharge2Reg(s, e, reg).0.code| == n + |l| <= |C| && forall k: nat :: k < |l| ==> C[n + k] == l[k]
  {
    Discharge2RegShape(s, e, reg);
    FrontLength(s, e);
    forall k: nat | k < |Put1(s, e, reg)| ensures C[EndPc(s, e) + k] == Put1(s, e, reg)[k] {
      Discharge2RegAt(s, e, reg, C, k);
    }
  }

  /** Code was emitted over what waited, unless the value is where it should be. */
  lemma Discharge2RegEmits(env: Env, s: St, e: Exp, reg: nat, C: seq<Instr>, o: Outcome, R: Regs, q: Exit)
    requires ExpOk(s, e) && InPlace(e) && !e.k.KJmp? && e.k != KReg(reg)
    requires Completes(Discharge2Reg(s, e, reg).0, C)
    requires if q.Fall? then EndPc(s, e) <= |C| && o == Run(env, C, EndPc(s, e), R) else Reaches(env, s, C, o, R, q)
    ensures o == Run(env, C, EndPc(s, e), R)
  {
    if q.At? {
      Discharge2RegShape(s, e, reg);
      FrontLength(s, e);
      var c' := Discharge2Reg(s, e, reg).0.code;
      assert c'[..|s.code|] == Discharged(s);
      forall i | 0 <= i < |s.code| ensures Settles(Discharged(s)[i], C[i]) {
        assert c'[i] == Discharged(s)[i];
        assert Settles(c'[i], C[i]);
      }
      EmitReaches(env, s, C, o, R, q);
    }
  }

  /** Behind the expression, with the value in the register and nothing else
      changed; what still waits carries no value, unless no code was emitted. */
  ghost predicate InReg(env: Env, s': St, C: seq<Instr>, o: Outcome, R': Regs, R: Regs, reg: nat, v: Value,
      q: Exit, still: bool) {
    && Reaches(env, s', C, o, R', q) && (!still ==> Waits(s'.code, R', q, None))
    && Put(R', R, reg, v)
  }

  lemma Discharge2RegFall(env: Env, s: St, e: Exp, reg: nat, C: seq<Instr>, R: Regs, v: Value) returns (R': Regs)
    requires ExpOk(s, e) && InPlace(e) && !e.k.KJmp? && KindValue(env, s, e, R, v)
    requires var s1 := Discharge2Reg(s, e, reg).0; SettledTo(s1.code, C, |s1.code|)
    ensures var n := |Discharge2Reg(s, e, reg).0.code|; n <= |C| && Run(env, C, EndPc(s, e), R) == Run(env, C, n, R')
    ensures Put(R', R, reg, v)
  {
    Discharge2RegCode(s, e, reg, C);
    R' := RunPut(env, s, e, reg, C, R, v);
  }

  /** What a settled expression that is no comparison finishes as. */
  lemma PlainDone(s: St, e: Exp, reg: nat, C: seq<Instr>) returns (pf: nat)
    requires ExpOk(s, e) && InPlace(e) && !e.k.KJmp? && Completes(Exp2Reg(s, e, reg).0, C)
    ensures var (s1, e1) := Discharge2Reg(s, e, reg); var p := Plain(e1);
      && ExpOk(s1, p) && Settled(s1, p) && p.t == e.t && p.f == e.f && SettledTo(s1.code, C, |s1.code|)
      && Exp2Reg(s, e, reg).0 == Finished(s1, p, reg)
      && Done(s1, p, reg, C, |Finished(s1, p, reg).code|, pf)
  {
    Exp2RegIs(s, e, reg);
    Discharge2RegIs(s, e, reg);
    Discharge2RegOk(s, e, reg);
    var (s1, e1) := Discharge2Reg(s, e, reg);
    FinishedPlain(s1, e1, reg);
    pf := FinishedDone(s1, Plain(e1), reg, C);
  }

  /** A comparison, whether it comes to its end or leaves. */
  lemma CompareToReg(env: Env, s: St, e: Exp, reg: nat, C: seq<Instr>, o: Outcome, R: Regs, x: Flow, q: Exit)
    returns (R': Regs)
    requires ExpOk(s, e) && e.k.KJmp? && Completes(Exp2Reg(s, e, reg).0, C)
    requires Result(env, s, e, C, o, R, x, q)
    ensures InReg(env, Exp2Reg(s, e, reg).0, C, o, R', R, reg, Left(x), Fall, false)
  {
    Exp2RegIs(s, e, reg);
    var m := |Finished(s, e, reg).code|;
    var pf := FinishedDone(s, e, reg, C);
    if x.Out? {
      R' := DoneLeave(env, s, e, reg, C, m, pf, R, x.b, x.cargo, q.j);
    } else {
      R' := DoneCompare(env, s, e, reg, C, m, pf, R, x.v);
    }
  }

  /** Another expression that leaves through a list. */
  lemma ExitToReg(env: Env, s: St, e: Exp, reg: nat, C: seq<Instr>, o: Outcome, R: Regs, x: Flow, q: Exit)
    returns (R': Regs)
    requires ExpOk(s, e) && InPlace(e) && !e.k.KJmp? && x.Out? && Completes(Exp2Reg(s, e, reg).0, C)
    requires Result(env, s, e, C, o, R, x, q)
    ensures InReg(env, Exp2Reg(s, e, reg).0, C, o, R', R, reg, Left(x), Fall, false)
  {
    var pf := PlainDone(s, e, reg, C);
    var (s1, e1) := Discharge2Reg(s, e, reg);
    Discharge2RegControl(s, e, reg, q.j);
    R' := DoneLeave(env, s1, Plain(e1), reg, C, |Finished(s1, Plain(e1), reg).code|, pf, R, x.b, x.cargo, q.j);
  }

  /** Another expression that comes to its end. */
  lemma EndToReg(env: Env, s: St, e: Exp, reg: nat, C: seq<Instr>, o: Outcome, R: Regs, x: Flow, q: Exit)
    returns (R': Regs, q': Exit)
    requires ExpOk(s, e) && InPlace(e) && !e.k.KJmp? && x.End? && Completes(Exp2Reg(s, e, reg).0, C)
    requires Result(env, s, e, C, o, R, x, q)
    ensures InReg(env, Exp2Reg(s, e, reg).0, C, o, R', R, reg, Left(x), q', e.k == KReg(reg))
  {
    var pf := PlainDone(s, e, reg, C);
    var (s1, e1) := Discharge2Reg(s, e, reg);
    if e.k == KReg(reg) && q.At? {
      R', q' := R, q;
      StillThere(s, e, reg, q.j);
    } else {
      if q.At? { Discharge2RegEmits(env, s, e, reg, C, o, R, q); }
      R' := Discharge2RegFall(env, s, e, reg, C, R, x.v);
      DoneLonger(s1, Plain(e1), reg);
      q' := DoneAround(env, s1, Plain(e1), reg, C, pf, R');
    }
  }

  /** No code was needed: what waits is still pending. */
  lemma StillThere(s: St, e: Exp, reg: nat, j: nat)
    requires ExpOk(s, e) && e.k == KReg(reg) && j in s.jpc
    ensures j in Exp2Reg(s, e, reg).0.jpc
  {
    Exp2RegIs(s, e, reg);
    LoadTruthIs(s, e, reg);
  }

  lemma DoneLonger(s: St, e: Exp, reg: nat)
    requires ExpOk(s, e) && Settled(s, e)
    ensures Loads2(s, e) ==> |Finished(s, e, reg).code| > |s.code|
  {
    if Loads2(s, e) {
      var s3, pf := LoadsParts(s, e, reg);
      FinishedTruth(s, e, reg, s3, pf, pf + 1);
    }
  }

  /** Wherever a run of the expression leads, it continues behind the expression
      with the value in the register and nothing else changed. */
  lemma Exp2RegSem(env: Env, s: St, e: Exp, reg: nat, C: seq<Instr>, o: Outcome, R: Regs, x: Flow, q: Exit)
    returns (R': Regs, q': Exit)
    requires ExpOk(s, e) && InPlace(e) && Completes(Exp2Reg(s, e, reg).0, C)
    requires Result(env, s, e, C, o, R, x, q)
    ensures InReg(env, Exp2Reg(s, e, reg).0, C, o, R', R, reg, Left(x), q', e.k == KReg(reg))
  {
    Exp2RegIs(s, e, reg);
    if e.k.KJmp? {
      R' := CompareToReg(env, s, e, reg, C, o, R, x, q);
      q' := Fall;
    } else if x.Out? {
      R' := ExitToReg(env, s, e, reg, C, o, R, x, q);
      q' := Fall;
    } else {
      R', q' := EndToReg(env, s, e, reg, C, o, R, x, q);
    }
  }
}
