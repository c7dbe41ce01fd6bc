/**
  The generator itself: code changed in place, jump lists threaded through the
  waiting jumps, descriptors updated by every step.  Each step is proved to do
  what its function on values does.
 */
module CodeGen {
  import opened Common
  import opened CodeModel
  import opened CodeLists
  import opened CodeChains
  import opened CodeSem
  import opened CodeCond
  import opened CodeCompile

  /** An expression descriptor (`expdesc`); the ghost fields are the lists that
      start at `t` and `f`. */
  class ExpDesc {
    var k: Kind
    var t: int
    var f: int
    ghost var tl: seq<nat>
    ghost var fl: seq<nat>

    constructor (k: Kind)
      ensures E() == Exp(k, [], []) && t == NO_JUMP && f == NO_JUMP
    {
      this.k, t, f := k, NO_JUMP, NO_JUMP;
      tl, fl := [], [];
    }

    ghost function E(): Exp
      reads this
    {
      Exp(k, tl, fl)
    }

    /** Its lists alone. */
    ghost function Lists(): Exp
      reads this
    {
      Exp(KNil, tl, fl)
    }

    predicate HasJumps()
      reads this
    {
      t != f
    }
  }

  class FuncState {
    var code: seq<Op>
    var jpc: int
    var freereg: nat
    var nactvar: nat
    /** The jumps that wait for a target, and those among them pending to here. */
    ghost var held: set<nat>
    ghost var pending: seq<nat>

    constructor (nact: nat)
      ensures Valid() && S() == St([], [], nact, nact) && held == {}
    {
      code, jpc, freereg, nactvar := [], NO_JUMP, nact, nact;
      held, pending := {}, [];
    }

    ghost predicate Valid()
      reads this
    {
      Coded(code, held) && Chain(code, jpc, pending)
    }

    /** The state as the functions see it. */
    ghost function S(): St
      reads this
    {
      St(Read(code, held), pending, freereg, nactvar)
    }

    ghost predicate Threaded(e: ExpDesc)
      reads this, e
    {
      Valid() && Chain(code, e.t, e.tl) && Chain(code, e.f, e.fl)
    }

    ghost predicate Linked(e: ExpDesc)
      reads this, e
    {
      && Threaded(e)
      && (e.k.KJmp? ==> Chain(code, e.k.j, [e.k.j]))
    }

    ghost predicate Good(e: ExpDesc)
      reads this, e
    {
      Linked(e) && ExpOk(S(), e.E())
    }

    // -------------------------------------------------------------- lists

    /** The instruction that decides the jump is a TestSet. */
    method PatchTestReg(node: nat, reg: Option<nat>) returns (r: bool)
      requires Coded(code, held) && node < |code| && code[node].Jump?
      modifies `code
      ensures Coded(code, held) && r == ValueJump(Read(old(code), held), node)
      ensures Read(code, held)
          == if r then Read(old(code), held)[node - 1 := PatchReg(Read(old(code), held)[node - 1], reg)]
        else Read(old(code), held)
      ensures |code| == |old(code)| && forall i :: 0 <= i < |code| && code[i].Jump? ==> code[i] == old(code)[i]
      ensures forall i :: 0 <= i < |code| && old(code)[i].Jump? ==> code[i] == old(code)[i]
    {
      if node < 1 || !code[node - 1].Code? || !code[node - 1].i.TestSet? { return false; }
      var i := code[node - 1].i;
      if reg.Some? && reg.value != i.b {
        code := code[node - 1 := Code(TestSet(reg, i.b, i.c))];
      } else {
        code := code[node - 1 := Code(Test(i.b, i.c))];
      }
      return true;
    }

    /** Some jump of the list has no value. */
    method NeedValue(list: int, ghost l: seq<nat>) returns (r: bool)
      requires Coded(code, held) && Chain(code, list, l)
      ensures r == CodeModel.NeedValue(Read(code, held), l)
    {
      var j := list;
      ghost var k := 0;
      while j != NO_JUMP
        invariant 0 <= k <= |l| && Chain(code, j, l[k..])
        invariant forall i :: 0 <= i < k ==> ValueJump(Read(code, held), l[i])
        decreases |l| - k
      {
        ChainStep(code, j, l, k);
        if !(j >= 1 && code[j - 1].Code? && code[j - 1].i.TestSet?) {
          assert l[k] in l && !ValueJump(Read(code, held), l[k]);
          return true;
        }
        j := GetJump(code, j);
        k := k + 1;
      }
      r := false;
    }

    /** The TestSets of the list become Tests. */
    method RemoveValues(list: int, ghost l: seq<nat>)
      requires Coded(code, held) && Chain(code, list, l) && Distinct(l)
      requires forall i :: i in l ==> Pend(Read(code, held), i)
      modifies `code
      ensures Coded(code, held) && Read(code, held) == CodeModel.RemoveValues(Read(old(code), held), l)
      ensures SameJumps(old(code), code)
    {
      var j := list;
      ghost var k := 0;
      ghost var c0 := Read(code, held);
      RemoveNone(c0);
      while j != NO_JUMP
        invariant 0 <= k <= |l| && Coded(code, held) && Chain(code, j, l[k..])
        invariant Read(code, held) == CodeModel.RemoveValues(c0, l[..k])
        invariant SameJumps(old(code), code)
        decreases |l| - k
      {
        ChainStep(code, j, l, k);
        RemoveStep(c0, l, k);
        ghost var c := code;
        var done := PatchTestReg(j, None);
        ChainFrame(c, code, GetJump(c, j), l[k + 1..]) by { ChainJumps(c, GetJump(c, j), l[k + 1..]); }
        j := GetJump(code, j);
        k := k + 1;
      }
      assert l[..k] == l;
    }

    /** One jump gets its target. */
    method PatchJump(j: nat, vtarget: nat, reg: Option<nat>, dtarget: nat)
      requires Coded(code, held) && j < |code| && code[j].Jump?
      modifies `code, `held
      ensures Coded(code, held) && held == old(held) - {j}
      ensures Read(code, held) == PatchOne(old(Read(code, held)), j, vtarget, reg, dtarget)
      ensures |code| == |old(code)|
      ensures forall i: nat :: i < |code| && old(code)[i].Jump? && i != j ==> code[i] == old(code)[i]
    {
      var v := PatchTestReg(j, reg);
      ReadFix(code, held, j, if v then vtarget else dtarget);
      code := FixJump(code, j, if v then vtarget else dtarget);
      held := held - {j};
    }

    /** Every jump of the list gets its target (`patchlistaux`). */
    method PatchListAux(list: int, vtarget: nat, reg: Option<nat>, dtarget: nat, ghost l: seq<nat>)
      requires Coded(code, held) && Chain(code, list, l) && Distinct(l)
      requires forall i :: i in l ==> Pend(Read(code, held), i)
      modifies `code, `held
      ensures Coded(code, held) && Released(old(held), held, l)
      ensures Read(code, held) == PatchList(old(Read(code, held)), l, vtarget, reg, dtarget)
      ensures OtherJumps(old(code), code, l)
    {
      ghost var c, h := code, held;
      PatchedNone(list, l, vtarget, reg, dtarget);
      PatchAll(list, vtarget, reg, dtarget, c, h, l);
      PatchedAll(c, h, l, vtarget, reg, dtarget);
    }

    /** The loop of `patchlistaux`, along the chain. */
    method PatchAll(list: int, vtarget: nat, reg: Option<nat>, dtarget: nat, ghost c: seq<Op>, ghost h: set<nat>,
        ghost l: seq<nat>)
      requires Patched(c, h, l, 0, list, vtarget, reg, dtarget) == true
      requires Distinct(l) == true && AllPend(Read(c, h), l) == true
      modifies `code, `held
      ensures Patched(c, h, l, |l|, NO_JUMP, vtarget, reg, dtarget) == true
    {
      var j := list;
      ghost var k := 0;
      while j != NO_JUMP
        invariant 0 <= k <= |l| && Patched(c, h, l, k, j, vtarget, reg, dtarget) == true
        decreases |l| - k
      {
        j := PatchNext(j, vtarget, reg, dtarget, c, h, l, k);
        k := k + 1;
      }
      PatchedEnd(c, h, l, k, vtarget, reg, dtarget);
    }

    lemma PatchedNone(list: int, l: seq<nat>, vtarget: nat, reg: Option<nat>, dtarget: nat)
      requires Coded(code, held) && Chain(code, list, l)
      ensures Patched(code, held, l, 0, list, vtarget, reg, dtarget) == true
    {
      PatchNone(Read(code, held), vtarget, reg, dtarget);
      assert l[..0] == [];
    }

    lemma PatchedEnd(c: seq<Op>, h: set<nat>, l: seq<nat>, k: nat, vtarget: nat, reg: Option<nat>, dtarget: nat)
      requires k <= |l| && Patched(c, h, l, k, NO_JUMP, vtarget, reg, dtarget)
      ensures k == |l|
    {
    }

    /** At the end of the chain every jump of the list has been patched. */
    lemma PatchedAll(c: seq<Op>, h: set<nat>, l: seq<nat>, vtarget: nat, reg: Option<nat>, dtarget: nat)
      requires Patched(c, h, l, |l|, NO_JUMP, vtarget, reg, dtarget)
      ensures Coded(code, held) && Released(h, held, l) && OtherJumps(c, code, l)
      ensures Read(code, held) == PatchList(Read(c, h), l, vtarget, reg, dtarget)
    {
      assert l[..|l|] == l;
    }

    /** The jumps patched so far, and the rest of the chain. */
    ghost predicate Patched(c: seq<Op>, h: set<nat>, l: seq<nat>, k: nat, j: int, vtarget: nat, reg: Option<nat>,
        dtarget: nat)
      requires k <= |l|
      reads this
    {
      && Coded(code, held) && Chain(code, j, l[k..])
      && Released(h, held, l[..k]) && OtherJumps(c, code, l)
      && Read(code, held) == PatchList(Read(c, h), l[..k], vtarget, reg, dtarget)
    }

    method PatchNext(j: nat, vtarget: nat, reg: Option<nat>, dtarget: nat, ghost c: seq<Op>, ghost h: set<nat>,
        ghost l: seq<nat>, ghost k: nat)
      returns (next: int)
      requires k <= |l| && Patched(c, h, l, k, j, vtarget, reg, dtarget) == true
      requires Distinct(l) == true && AllPend(Read(c, h), l) == true
      modifies `code, `held
      ensures k < |l| && Patched(c, h, l, k + 1, next, vtarget, reg, dtarget) == true
    {
      ChainStep(code, j, l, k);
      PatchStep(Read(c, h), l, k, vtarget, reg, dtarget);
      ghost var c1 := code;
      next := GetJump(code, j);
      PatchJump(j, vtarget, reg, dtarget);
      NextKept(c1, code, j, next, l[k + 1..]) by { assert j !in l[k + 1..]; }
      assert l[..k + 1] == l[..k] + [l[k]];
      assert j in l;
    }

    /** The jumps pending to here lead here (`dischargejpc`). */
    method DischargeJpc()
      requires Valid() && StOk(S())
      modifies this
      ensures Valid() && S() == old(S()).(code := Discharged(old(S())), jpc := [])
      ensures Untouched(old(code), old(held), old(S()), NoExp, code, held)
      ensures |code| == |old(code)|
    {
      PatchListAux(jpc, |code|, None, |code|, pending);
      jpc, pending := NO_JUMP, [];
    }

    /** `luaK_code` */
    method Emit(i: Instr) returns (pc: nat)
      requires Valid() && StOk(S()) && !i.Jmp?
      modifies this
      ensures Valid() && S() == CodeModel.Emit(old(S()), [i]) && pc == |old(code)|
      ensures Untouched(old(code), old(held), old(S()), NoExp, code, held)
    {
      DischargeJpc();
      pc := |code|;
      ReadAppend(code, held, Code(i));
      code := code + [Code(i)];
    }

    /** Appends one list to another (`luaK_concat`). */
    method Concat(l1: int, l2: int, ghost m1: seq<nat>, ghost m2: seq<nat>) returns (l: int)
      requires Coded(code, held) && Chain(code, l1, m1) && Chain(code, l2, m2)
      requires Distinct(m1) && (forall i :: i in m1 ==> i in held && i !in m2)
      modifies `code
      ensures Coded(code, held) && Chain(code, l, m1 + m2) && Read(code, held) == Read(old(code), held)
      ensures OtherJumps(old(code), code, m1)
    {
      assert m1 + [] == m1 && [] + m2 == m2;
      if l2 == NO_JUMP { return l1; }
      if l1 == NO_JUMP { return l2; }
      var list: nat := l1;
      ghost var k := 0;
      ChainStep(code, l1, m1, 0);
      while GetJump(code, list) != NO_JUMP
        invariant code == old(code)
        invariant 0 <= k < |m1| && list == m1[k] && list < |code| && code[list].Jump?
            && Chain(code, GetJump(code, list), m1[k + 1..])
        decreases |m1| - k
      {
        ChainStep(code, GetJump(code, list), m1, k + 1);
        list := GetJump(code, list);
        k := k + 1;
      }
      ChainAppend(code, l1, m1, l2, m2);
      assert list == m1[|m1| - 1] && list in m1;
      code := FixJump(code, list, l2);
      return l1;
    }

    /** `luaK_patchtohere` */
    method PatchToHere(list: int, ghost l: seq<nat>)
      requires Valid() && Chain(code, list, l) && Distinct(pending)
      requires forall i :: i in pending ==> i in held && i !in l
      modifies this
      ensures Valid() && S() == CodeModel.PatchToHere(old(S()), l)
      ensures held == old(held) && OtherJumps(old(code), code, old(pending))
    {
      jpc := Concat(jpc, list, pending, l);
      pending := pending + l;
    }

    /** An unconditional jump; the jumps pending to it are kept on hold (`luaK_jump`). */
    method Jump() returns (j: nat)
      requires Valid() && forall i :: i in pending ==> i in held
      modifies this
      ensures Valid() && S() == CodeModel.Jump(old(S())).0 && j == |old(code)|
      ensures Chain(code, j, CodeModel.Jump(old(S())).1)
      ensures Untouched(old(code), old(held), old(S()), NoExp, code, held) && |code| == j + 1
          && held == old(held) + {j}
    {
      var hold := jpc;
      ghost var l := pending;
      jpc, pending := NO_JUMP, [];
      j := |code|;
      ReadWait(code, held);
      ghost var c := code;
      code := code + [Op.Jump(NO_JUMP)];
      held := held + {j};
      ChainFrame(c, code, hold, l) by { ChainJumps(c, hold, l); }
      assert Chain(code, j, [j]);
      var h := Concat(j, hold, [j], l);
      assert h == j;
    }

    method CondJump(test: Instr) returns (j: nat)
      requires Valid() && StOk(S()) && IsTest(test)
      modifies this
      ensures Valid() && (S(), j) == CodeModel.CondJump(old(S()), test) && Chain(code, j, [j])
      ensures Untouched(old(code), old(held), old(S()), NoExp, code, held)
    {
      ghost var s := S();
      var pc := Emit(test);
      ghost var s1 := S();
      assert s1.jpc == [];
      j := Jump();
      assert s1.code + [Jmp(None)] == CodeModel.Emit(s, [test, Jmp(None)]).code;
    }

    // -------------------------------------------------------------- expressions to registers

    method DischargeVars(e: ExpDesc)
      requires Good(e)
      modifies this, e
      ensures Good(e) && (S(), e.E()) == CodeModel.DischargeVars(old(S()), old(e.E()))
      ensures Untouched(old(code), old(held), old(S()), old(e.E()), code, held)
    {
      DischargeVarsOk(S(), e.E());
      match e.k {
        case KLocal(r) => e.k := KReg(r);
        case KGlobal(n) =>
          var pc := EmitFor(e, GetGlobal(0, n));
          e.k := KReloc(pc);
        case _ =>
      }
    }

    /** Emission while an expression waits. */
    method EmitFor(e: ExpDesc, i: Instr) returns (pc: nat)
      requires Good(e) && !i.Jmp? && !e.k.KJmp?
      modifies this
      ensures Linked(e) && S() == CodeModel.Emit(old(S()), [i]) && pc == |old(code)|
      ensures Untouched(old(code), old(held), old(S()), NoExp, code, held)
    {
      ListsHeld(e);
      pc := Emit(i);
      LinkKept(old(code), old(held), old(S()), code, held, e.t, e.tl);
      LinkKept(old(code), old(held), old(S()), code, held, e.f, e.fl);
    }

    lemma ListsHeld(e: ExpDesc)
      requires Valid() && ExpOk(S(), e.E())
      ensures forall i :: i in e.tl || i in e.fl ==> i in held && i !in pending
      ensures forall i :: i in pending ==> i in held
    {
      forall i: nat | i in e.tl || i in e.fl || i in pending ensures i in held { PendHeld(code, held, i); }
    }

    method Discharge2Reg(e: ExpDesc, reg: nat)
      requires Good(e)
      modifies this, e
      ensures Linked(e) && (S(), e.E()) == CodeModel.Discharge2Reg(old(S()), old(e.E()), reg)
      ensures Untouched(old(code), old(held), old(S()), old(e.E()), code, held)
    {
      ghost var c0, h0, s0, e0 := code, held, S(), e.E();
      DischargeVars(e);
      ghost var c1, h1, s1, e1 := code, held, S(), e.E();
      Bring(e, reg);
      DischargeFrame(c0, h0, s0, e0, c1, h1, s1, e1, code, held);
    }

    /** A value in play is brought to a register. */
    method Bring(e: ExpDesc, reg: nat)
      requires Good(e) && !e.k.KLocal? && !e.k.KGlobal?
      modifies this, e
      ensures Linked(e) && (S(), e.E()) == CodeModel.Discharge2Reg(old(S()), old(e.E()), reg)
      ensures Untouched(old(code), old(held), old(S()), old(e.E()), code, held)
    {
      match e.k {
        case KNil => var _ := EmitFor(e, LoadNil(reg));
        case KTrue => var _ := EmitFor(e, LoadBool(reg, true, false));
        case KFalse => var _ := EmitFor(e, LoadBool(reg, false, false));
        case KConst(v) => var _ := EmitFor(e, LoadK(reg, v));
        case KReloc(pc) => SetRegister(e, pc, reg);
        case KReg(r) => if r != reg { var _ := EmitFor(e, Move(reg, r)); }
        case _ => return;
      }
      e.k := KReg(reg);
    }

    method SetRegister(e: ExpDesc, pc: nat, reg: nat)
      requires Good(e) && e.k == KReloc(pc)
      modifies `code
      ensures Linked(e) && S() == old(S()).(code := old(S()).code[pc := SetA(old(S()).code[pc], reg)])
      ensures Untouched(old(code), old(held), old(S()), NoExp, code, held)
    {
      assert Read(code, held)[pc] == ReadAt(code[pc], pc, held);
      code := code[pc := Code(SetA(code[pc].i, reg))];
      forall l: seq<nat>, h: int | Chain(old(code), h, l) ensures Chain(code, h, l) {
        ChainJumps(old(code), h, l);
        ChainFrame(old(code), code, h, l);
      }
    }

    method Discharge2AnyReg(e: ExpDesc)
      requires Good(e)
      modifies this, e
      ensures Linked(e) && (S(), e.E()) == CodeModel.Discharge2AnyReg(old(S()), old(e.E()))
      ensures Untouched(old(code), old(held), old(S()), old(e.E()), code, held)
    {
      if !e.k.KReg? {
        DischargeNext(e);
      }
    }

    /** Into the next free register. */
    method DischargeNext(e: ExpDesc)
      requires Good(e)
      modifies this, e
      ensures Linked(e) == true
      ensures (S(), e.E()) == CodeModel.Discharge2Reg(old(S().(free := freereg + 1)), old(e.E()), old(freereg))
      ensures Untouched(old(code), old(held), old(S()), old(e.E()), code, held) == true
    {
      Reserve(e);
      Discharge2Reg(e, freereg - 1);
    }

    /** One register more (`luaK_reserveregs`). */
    method Reserve(e: ExpDesc)
      requires Good(e)
      modifies `freereg
      ensures freereg == old(freereg) + 1 && Good(e)
    {
      FreeChange(S(), e.E(), freereg + 1);
      freereg := freereg + 1;
    }

    /** Registers are a stack: only the topmost temporary one is ever freed (`freereg`). */
    method FreeExp(e: ExpDesc)
      requires OnTop(S(), e.E())
      modifies `freereg
      ensures S() == CodeModel.FreeExp(old(S()), e.E())
      ensures e.k.KReg? && e.k.r >= nactvar ==> e.k.r == freereg
    {
      if e.k.KReg? && e.k.r >= nactvar { freereg := freereg - 1; }
    }

    /** All that an emission keeps when nothing is pending to here. */
    ghost predicate Quiet(e: ExpDesc, fj: int, l: seq<nat>)
      reads this, e
    {
      && Threaded(e) && Chain(code, fj, l) && pending == [] && StOk(S())
      && (forall i :: i in e.tl || i in e.fl || i in l ==> i in held)
    }

    method EmitQuiet(e: ExpDesc, i: Instr, fj: int, ghost l: seq<nat>) returns (pc: nat)
      requires Quiet(e, fj, l) && !IsTest(i) && !i.Jmp?
      modifies this
      ensures Quiet(e, fj, l) && S() == CodeModel.Emit(old(S()), [i]) && pc == |old(code)|
      ensures Untouched(old(code), old(held), old(S()), NoExp, code, held)
    {
      pc := Emit(i);
      LinkKept(old(code), old(held), old(S()), code, held, e.t, e.tl);
      LinkKept(old(code), old(held), old(S()), code, held, e.f, e.fl);
      LinkKept(old(code), old(held), old(S()), code, held, fj, l);
    }

    /** The jump around the loads, which takes over what was pending to here. */
    method JumpQuiet(e: ExpDesc) returns (fj: int)
      requires Threaded(e) && ExpOk(S(), e.Lists())
      modifies this
      ensures Quiet(e, fj, CodeModel.Jump(old(S())).1) && S() == CodeModel.Jump(old(S())).0 && fj == |old(code)|
      ensures Untouched(old(code), old(held), old(S()), NoExp, code, held)
    {
      ghost var h, l := held, CodeModel.Jump(S()).1;
      forall i: nat | i in e.tl || i in e.fl || i in pending ensures i in h { PendHeld(code, held, i); }
      fj := Jump();
      assert held == h + {|old(code)|};
      forall i: nat | i in l ensures i in held { assert i == |old(code)| || i in old(pending); }
      assert S().code[|S().code| - 1] == Jmp(None);
      LinkKept(old(code), old(held), old(S()), code, held, e.t, e.tl);
      LinkKept(old(code), old(held), old(S()), code, held, e.f, e.fl);
    }

    /** A list that waits is pending to here, and nothing else is. */
    method HereQuiet(e: ExpDesc, fj: int, ghost l: seq<nat>)
      requires Quiet(e, fj, l)
      modifies this
      ensures Threaded(e) && S() == CodeModel.PatchToHere(old(S()), l)
      ensures Untouched(old(code), old(held), old(S()), NoExp, code, held)
    {
      ghost var c := code;
      PatchToHere(fj, l);
      ChainJumps(c, e.t, e.tl);
      ChainJumps(c, e.f, e.fl);
      ChainFrame(c, code, e.t, e.tl);
      ChainFrame(c, code, e.f, e.fl);
    }

    /** The loads of the truth values, with a jump around them unless the
        expression ends in a comparison. */
    method LoadTruth(e: ExpDesc, reg: nat) returns (pf: nat, pt: nat)
      requires Threaded(e) && ExpOk(S(), e.Lists()) && (e.k.KJmp? ==> pending == [])
      modifies this
      ensures Threaded(e) && (S(), pf, pt) == CodeModel.LoadTruth(old(S()), e.E(), reg)
      ensures Untouched(old(code), old(held), old(S()), NoExp, code, held)
    {
      var fj: int := NO_JUMP;
      ghost var l: seq<nat> := [];
      if e.k.KJmp? {
        forall i: nat | i in e.tl || i in e.fl ensures i in held { PendHeld(code, held, i); }
      } else {
        l := CodeModel.Jump(S()).1;
        fj := JumpQuiet(e);
      }
      pf, pt := TwoLoads(e, reg, fj, l);
    }

    method TwoLoads(e: ExpDesc, reg: nat, fj: int, ghost l: seq<nat>) returns (pf: nat, pt: nat)
      requires Quiet(e, fj, l)
      modifies this
      ensures Threaded(e) && (S(), pf, pt) == LoadsAfter(old(S()), l, reg)
      ensures Untouched(old(code), old(held), old(S()), NoExp, code, held)
    {
      pf := EmitQuiet(e, LoadBool(reg, false, true), fj, l);
      pt := EmitQuiet(e, LoadBool(reg, true, false), fj, l);
      HereQuiet(e, fj, l);
    }

    /** Lists without a common jump start at different places. */
    lemma HasJumpsIs(e: ExpDesc)
      requires Threaded(e) && ExpOk(S(), e.Lists())
      ensures e.HasJumps() <==> CodeModel.HasJumps(e.E())
    {
      if e.tl != [] && e.fl != [] { assert e.tl[0] in e.tl && e.fl[0] in e.fl; }
    }

    /** Both lists get their targets, and are empty. */
    method PatchBoth(e: ExpDesc, reg: nat, pf: nat, pt: nat)
      requires Threaded(e) && ExpOk(S(), e.Lists())
      modifies `code, `held, e
      ensures Valid() && e.E() == Exp(KReg(reg), [], []) && e.t == NO_JUMP && e.f == NO_JUMP
      ensures var s, l := old(S()), old(e.Lists());
        S() == s.(code := PatchList(PatchList(s.code, l.f, |s.code|, Some(reg), pf), l.t, |s.code|, Some(reg), pt))
      ensures Untouched(old(code), old(held), old(S()), old(e.Lists()), code, held)
    {
      ghost var s, l := S(), e.Lists();
      var final := |code|;
      ghost var c, h := code, held;
      PatchFalse(e, final, reg, pf);
      ghost var c1, h1 := code, held;
      PatchListAux(e.t, final, Some(reg), pt, e.tl);
      ListKept(c1, code, jpc, pending, e.tl);
      BothUntouched(c, h, s, l, c1, h1, code, held);
      e.k, e.t, e.tl := KReg(reg), NO_JUMP, [];
    }

    method PatchFalse(e: ExpDesc, final: nat, reg: nat, pf: nat)
      requires Threaded(e) && ExpOk(S(), e.Lists())
      modifies `code, `held, e
      ensures Threaded(e) && ExpOk(S(), e.Lists()) && e.E() == old(e.E()).(f := []) && e.f == NO_JUMP
      ensures S() == old(S()).(code := PatchList(old(S()).code, old(e.fl), final, Some(reg), pf))
      ensures OtherJumps(old(code), code, old(e.fl)) && Released(old(held), held, old(e.fl))
    {
      ghost var c := code;
      PatchOneOk(S(), e.Lists(), e.fl, final, Some(reg), pf);
      PatchListAux(e.f, final, Some(reg), pf, e.fl);
      ListKept(c, code, e.t, e.tl, e.fl);
      ListKept(c, code, jpc, pending, e.fl);
      e.f, e.fl := NO_JUMP, [];
    }

    /** The jump of a comparison joins the list of true exits. */
    method JoinCompare(e: ExpDesc)
      requires Good(e) && e.k.KJmp?
      modifies `code, e
      ensures Threaded(e) && S() == old(S()) && e.E() == old(e.E()).(t := old(e.E()).t + [old(e.k).j])
      ensures ExpOk(S(), e.Lists())
      ensures Untouched(old(code), old(held), old(S()), old(e.E()), code, held)
    {
      ghost var c := code;
      JoinedOk(S(), e.E());
      ListsHeld(e);
      e.t := Concat(e.t, e.k.j, e.tl, [e.k.j]);
      ListKept(c, code, e.f, e.fl, e.tl);
      ListKept(c, code, jpc, pending, e.tl);
      e.tl := e.tl + [e.k.j];
    }

    /** Loads the truth values if an exit needs one. */
    method LoadIfNeeded(e: ExpDesc, reg: nat) returns (pf: nat, pt: nat)
      requires Threaded(e) && ExpOk(S(), e.Lists()) && (e.k.KJmp? ==> pending == [])
      modifies this
      ensures Threaded(e) && (S(), pf, pt) == LoadedFor(old(S()), e.E(), reg) && ExpOk(S(), e.Lists())
      ensures Untouched(old(code), old(held), old(S()), NoExp, code, held)
    {
      var nt := NeedValue(e.t, e.tl);
      var nf := NeedValue(e.f, e.fl);
      pf, pt := 0, 0;
      LoadedListsOk(S(), e.E(), reg);
      if nt || nf { pf, pt := LoadTruth(e, reg); }
    }

    /** The second half of `exp2reg`. */
    method Finish(e: ExpDesc, reg: nat)
      requires Threaded(e) && ExpOk(S(), e.Lists()) && (e.k.KJmp? ==> pending == [])
      modifies this, e
      ensures Valid() && e.E() == Exp(KReg(reg), [], []) && e.t == NO_JUMP && e.f == NO_JUMP
      ensures S() == FinishedLists(old(S()), old(e.E()), reg)
      ensures Untouched(old(code), old(held), old(S()), old(e.Lists()), code, held)
    {
      HasJumpsIs(e);
      if e.HasJumps() {
        ghost var c0, h0, s0, x := code, held, S(), e.E();
        var pf, pt := LoadIfNeeded(e, reg);
        ghost var c1, h1, s1 := code, held, S();
        PatchBoth(e, reg, pf, pt);
        LoadsFrame(c0, h0, s0, x, reg, c1, h1, s1, code, held);
      } else {
        e.k, e.t, e.f := KReg(reg), NO_JUMP, NO_JUMP;
      }
    }

    method Exp2Reg(e: ExpDesc, reg: nat)
      requires Good(e)
      modifies this, e
      ensures Linked(e) && (S(), e.E()) == CodeModel.Exp2Reg(old(S()), old(e.E()), reg)
      ensures Untouched(old(code), old(held), old(S()), old(e.E()), code, held)
    {
      ghost var c0, h0, s0, e0 := code, held, S(), e.E();
      Discharge2RegOk(s0, e0, reg);
      Discharge2Reg(e, reg);
      ghost var c1, h1, s1, e1 := code, held, S(), e.E();
      if e.k.KJmp? {
        JoinCompare(e);
        ghost var c2, h2, l := code, held, e.Lists();
        JoinedOk(s1, e1);
        Finish(e, reg);
        UntouchedTrans(c1, h1, s1, e1, c2, h2, s1, l, code, held);
      } else {
        Finish(e, reg);
        UntouchedTrans(c0, h0, s0, e0, c1, h1, s1, Plain(e1), code, held);
      }
      Exp2RegParts(s0, e0, reg);
    }

    /** An expression that is in no temporary register goes to a new one. */
    method ToNextReg(e: ExpDesc)
      requires Good(e)
      modifies this, e
      ensures CodeModel.FreeExp(old(S()), old(e.E())) == old(S())
      ensures Linked(e)
          && (S(), e.E()) == CodeModel.Exp2Reg(old(S()).(free := old(freereg) + 1), old(e.E()), old(freereg))
      ensures Untouched(old(code), old(held), old(S()), old(e.E()), code, held)
    {
      FreeExp(e);
      Reserve(e);
      Exp2Reg(e, freereg - 1);
    }

    method Exp2NextReg(e: ExpDesc)
      requires Good(e)
      modifies this, e
      ensures Linked(e) && (S(), e.E()) == CodeModel.Exp2NextReg(old(S()), old(e.E()))
      ensures Untouched(old(code), old(held), old(S()), old(e.E()), code, held)
    {
      ghost var c0, h0, s0, e0 := code, held, S(), e.E();
      DischargeVars(e);
      ghost var c1, h1, s1, e1 := code, held, S(), e.E();
      ToNextReg(e);
      NextRegIs(s0, e0, s1, e1);
      DischargeFrame(c0, h0, s0, e0, c1, h1, s1, e1, code, held);
    }

    method Exp2AnyReg(e: ExpDesc)
      requires Good(e)
      modifies this, e
      ensures Linked(e) && (S(), e.E()) == CodeModel.Exp2AnyReg(old(S()), old(e.E()))
      ensures Untouched(old(code), old(held), old(S()), old(e.E()), code, held)
    {
      ghost var c0, h0, s0, e0 := code, held, S(), e.E();
      DischargeVars(e);
      ghost var c1, h1, s1, e1 := code, held, S(), e.E();
      HasJumpsIs(e);
      // a value with exits is in a local variable's register, never in a temporary one
      if e.k.KReg? && !e.HasJumps() { return; }
      Exp2NextReg(e);
      DischargeFrame(c0, h0, s0, e0, c1, h1, s1, e1, code, held);
    }

    /** `luaK_exp2val` */
    method Exp2Val(e: ExpDesc)
      requires Good(e)
      modifies this, e
      ensures Linked(e)
      ensures (S(), e.E()) == if CodeModel.HasJumps(old(e.E())) then CodeModel.Exp2AnyReg(old(S()), old(e.E()))
        else CodeModel.DischargeVars(old(S()), old(e.E()))
      ensures Untouched(old(code), old(held), old(S()), old(e.E()), code, held)
    {
      HasJumpsIs(e);
      if e.HasJumps() { Exp2AnyReg(e); } else { DischargeVars(e); }
    }

    method Exp2RK(e: ExpDesc) returns (x: RK)
      requires Good(e)
      modifies this, e
      ensures Linked(e) && (S(), e.E(), x) == CodeModel.Exp2RK(old(S()), old(e.E()))
      ensures Untouched(old(code), old(held), old(S()), old(e.E()), code, held)
    {
      ghost var c0, h0, s0, e0 := code, held, S(), e.E();
      DischargeVarsOk(s0, e0);
      Exp2AnyRegOk(s0, e0);
      Exp2Val(e);
      NoJumpsThen(s0, e0);
      match e.k {
        case KNil => e.k := KConst(VNil); return Const(VNil);
        case KTrue => e.k := KConst(VBool(true)); return Const(VBool(true));
        case KFalse => e.k := KConst(VBool(false)); return Const(VBool(false));
        case KConst(v) => return Const(v);
        case _ =>
      }
      if e.k.KReg? && !e.HasJumps() {
        // luaK_exp2anyreg on a value that is in a register already
        x := Reg(e.k.r);
      } else {
        ghost var c1, h1, s1, e1 := code, held, S(), e.E();
        Exp2AnyRegOk(s1, e1);
        Exp2AnyReg(e);
        x := Reg(e.k.r);
        UntouchedTrans(c0, h0, s0, e0, c1, h1, s1, e1, code, held);
      }
    }

    // -------------------------------------------------------------- conditions

    method InvertJump(e: ExpDesc)
      requires Good(e) && e.k.KJmp?
      modifies `code
      ensures Good(e) && S() == CodeModel.InvertJump(old(S()), e.k.j)
      ensures Untouched(old(code), old(held), old(S()), NoExp, code, held)
    {
      var j := e.k.j;
      InvertOk(S(), e.E());
      assert Read(code, held)[j - 1] == ReadAt(code[j - 1], j - 1, held);
      var i := code[j - 1].i;
      code := code[j - 1 := Code(i.(cond := !i.cond))];
      forall l: seq<nat>, h: int | Chain(old(code), h, l) ensures Chain(code, h, l) {
        ChainJumps(old(code), h, l);
        ChainFrame(old(code), code, h, l);
      }
    }

    /** A conditional jump while an expression waits. */
    method CondJumpFor(e: ExpDesc, test: Instr) returns (j: nat)
      requires Threaded(e) && ExpOk(S(), e.Lists()) && IsTest(test)
      modifies this
      ensures Threaded(e) && (S(), j) == CodeModel.CondJump(old(S()), test) && Chain(code, j, [j])
      ensures Untouched(old(code), old(held), old(S()), NoExp, code, held)
    {
      forall i: nat | i in e.tl || i in e.fl ensures i in held { PendHeld(code, held, i); }
      j := CondJump(test);
      LinkKept(old(code), old(held), old(S()), code, held, e.t, e.tl);
      LinkKept(old(code), old(held), old(S()), code, held, e.f, e.fl);
    }

    /** Takes back the negation at the end of the code. */
    method Pop(e: ExpDesc)
      requires Good(e) && e.k.KReloc?
      modifies `code
      ensures Threaded(e) && S() == old(S()).(code := old(S()).code[..e.k.pc])
      ensures Untouched(old(code), old(held), old(S()), NoExp, code, held)
    {
      var pc := e.k.pc;
      assert Read(code, held)[pc] == ReadAt(code[pc], pc, held);
      ListsHeld(e);
      code := code[..pc];
      ChainJumps(old(code), e.t, e.tl);
      ChainJumps(old(code), e.f, e.fl);
      ChainFrame(old(code), code, e.t, e.tl);
      ChainFrame(old(code), code, e.f, e.fl);
    }

    method JumpOnCond(e: ExpDesc, cond: bool) returns (j: nat)
      requires Good(e) && !e.k.KJmp? && !e.k.KLocal? && !e.k.KGlobal?
      modifies this, e
      ensures Threaded(e) && (S(), j) == CodeModel.JumpOnCond(old(S()), old(e.E()), cond) && Chain(code, j, [j])
      ensures e.Lists() == old(e.Lists())
      ensures Untouched(old(code), old(held), old(S()), old(e.E()), code, held)
    {
      if e.k.KReloc? {
        assert S().code[e.k.pc] == ReadAt(code[e.k.pc], e.k.pc, held);
        if code[e.k.pc].i.NotOp? {
          j := JumpOnNot(e, cond);
          return;
        }
      }
      j := JumpOnValue(e, cond);
    }

    method JumpOnNot(e: ExpDesc, cond: bool) returns (j: nat)
      requires Good(e) && e.k.KReloc? && S().code[e.k.pc].NotOp?
      modifies this
      ensures Threaded(e) && Chain(code, j, [j])
      ensures var s, pc := old(S()), old(e.k).pc;
        (S(), j) == CodeModel.CondJump(s.(code := s.code[..pc]), Test(s.code[pc].b, !cond))
      ensures Untouched(old(code), old(held), old(S()), old(e.E()), code, held)
    {
      ghost var c0, h0, s0, e0 := code, held, S(), e.E();
      PopOk(s0, e0);
      assert S().code[e.k.pc] == ReadAt(code[e.k.pc], e.k.pc, held);
      var b := code[e.k.pc].i.b;
      Pop(e);
      ghost var c1, h1, s1 := code, held, S();
      j := CondJumpFor(e, Test(b, !cond));
      UntouchedTrans(c0, h0, s0, e0, c1, h1, s1, Plain(e0), code, held);
    }

    /** A value comes to a register, which is free again at once. */
    method ToAnyReg(e: ExpDesc) returns (r: nat)
      requires Good(e) && !e.k.KJmp? && !e.k.KLocal? && !e.k.KGlobal?
      modifies this, e
      ensures Threaded(e) && ExpOk(S(), e.Lists()) == true && e.Lists() == old(e.Lists())
      ensures var (s1, e1) := CodeModel.Discharge2AnyReg(old(S()), old(e.E()));
          S() == CodeModel.FreeExp(s1, e1) && e1.k == KReg(r)
      ensures Untouched(old(code), old(held), old(S()), old(e.E()), code, held)
    {
      Discharge2AnyRegOk(S(), e.E());
      Discharge2AnyReg(e);
      FreeExp(e);
      r := e.k.r;
    }

    method JumpOnValue(e: ExpDesc, cond: bool) returns (j: nat)
      requires Good(e) && !e.k.KJmp? && !e.k.KLocal? && !e.k.KGlobal?
      modifies this, e
      ensures Threaded(e) && Chain(code, j, [j]) && e.Lists() == old(e.Lists())
      ensures var (s1, e1) := CodeModel.Discharge2AnyReg(old(S()), old(e.E()));
        e1.k.KReg? && (S(), j) == CodeModel.CondJump(CodeModel.FreeExp(s1, e1), TestSet(None, e1.k.r, cond))
      ensures Untouched(old(code), old(held), old(S()), old(e.E()), code, held)
    {
      ghost var c0, h0, s0, e0 := code, held, S(), e.E();
      var r := ToAnyReg(e);
      ghost var c1, h1, s1 := code, held, S();
      j := CondJumpFor(e, TestSet(None, r, cond));
      TestFrame(c0, h0, s0, e0, c1, h1, s1, code, held);
    }

    /** The end of `goiffalse`: the exit joins the true list, and the false one is directed here. */
    method EndTrue(e: ExpDesc, pc: int, ghost l: seq<nat>)
      requires Exit(e, pc, l)
      modifies this, e
      ensures Threaded(e) && held == old(held)
      ensures e.E() == old(e.E()).(f := [], t := old(e.tl) + l) && S() == CodeModel.PatchToHere(old(S()), old(e.fl))
      ensures OtherJumps(old(code), code, old(pending) + old(e.tl) + old(e.fl))
    {
      forall i: nat | i in e.tl || i in e.fl || i in pending ensures i in held { PendHeld(code, held, i); }
      ghost var c := code;
      e.t := Concat(e.t, pc, e.tl, l);
      ListKept(c, code, e.f, e.fl, e.tl);
      ListKept(c, code, jpc, pending, e.tl);
      e.tl := e.tl + l;
      ghost var c1, p := code, pending;
      PatchToHere(e.f, e.fl);
      ListKept(c1, code, e.t, e.tl, p);
      e.f, e.fl := NO_JUMP, [];
    }

    /** The end of `goiftrue`: the other way around. */
    method EndFalse(e: ExpDesc, pc: int, ghost l: seq<nat>)
      requires Exit(e, pc, l)
      modifies this, e
      ensures Threaded(e) && held == old(held)
      ensures e.E() == old(e.E()).(t := [], f := old(e.fl) + l) && S() == CodeModel.PatchToHere(old(S()), old(e.tl))
      ensures OtherJumps(old(code), code, old(pending) + old(e.tl) + old(e.fl))
    {
      forall i: nat | i in e.tl || i in e.fl || i in pending ensures i in held { PendHeld(code, held, i); }
      ghost var c := code;
      e.f := Concat(e.f, pc, e.fl, l);
      ListKept(c, code, e.t, e.tl, e.fl);
      ListKept(c, code, jpc, pending, e.fl);
      e.fl := e.fl + l;
      ghost var c1, p := code, pending;
      PatchToHere(e.t, e.tl);
      ListKept(c1, code, e.f, e.fl, p);
      e.t, e.tl := NO_JUMP, [];
    }

    /** An exit list that is apart from everything that waits. */
    ghost predicate Exit(e: ExpDesc, pc: int, l: seq<nat>)
      reads this, e
    {
      && Threaded(e) && ExpOk(S(), e.Lists()) && Chain(code, pc, l)
      && forall i :: i in l ==> i !in e.tl && i !in e.fl && i !in pending
    }

    /** No exit: the value decides at compile time. */
    lemma NoExit(e: ExpDesc)
      requires Good(e)
      ensures Exit(e, NO_JUMP, [])
    {
    }

    /** The jump of a comparison. */
    lemma CompareExit(e: ExpDesc)
      requires Good(e) && e.k.KJmp?
      ensures Exit(e, e.k.j, [e.k.j])
    {
    }

    method AlwaysExit(e: ExpDesc) returns (pc: int)
      requires Good(e) && EndPc(S(), e.E()) == |S().code|
      modifies this
      ensures Exit(e, pc, CodeModel.Jump(old(S())).1) && S() == CodeModel.Jump(old(S())).0
      ensures Untouched(old(code), old(held), old(S()), NoExp, code, held)
    {
      PlainOk(S(), e.E());
      JumpApart(S(), e.Lists());
      pc := JumpQuiet(e);
    }

    method TestExit(e: ExpDesc, cond: bool) returns (pc: int)
      requires Good(e) && !e.k.KJmp? && !e.k.KLocal? && !e.k.KGlobal?
      modifies this, e
      ensures pc >= 0 && Exit(e, pc, [pc]) && (S(), pc) == CodeModel.JumpOnCond(old(S()), old(e.E()), cond)
      ensures e.Lists() == old(e.Lists())
      ensures Untouched(old(code), old(held), old(S()), old(e.E()), code, held)
    {
      JumpOnCondOk(S(), e.E(), cond);
      pc := JumpOnCond(e, cond);
    }

    /** The exit taken when the value is false. */
    method FalseExit(e: ExpDesc) returns (pc: int, ghost l: seq<nat>)
      requires Good(e) && !e.k.KLocal? && !e.k.KGlobal?
      modifies this, e
      ensures forall i :: i in pending ==> i in old(pending)
      ensures Exit(e, pc, l) && (S(), l) == WhenFalse(old(S()), old(e.E())) && e.Lists() == old(e.Lists())
      ensures Untouched(old(code), old(held), old(S()), old(e.E()), code, held)
    {
      if e.k.KConst? || e.k.KTrue? {
        NoExit(e);
        pc, l := NO_JUMP, [];
      } else if e.k.KFalse? {
        l := CodeModel.Jump(S()).1;
        pc := AlwaysExit(e);
      } else if e.k.KJmp? {
        InvertJump(e);
        CompareExit(e);
        pc, l := e.k.j, [e.k.j];
      } else {
        pc := TestExit(e, false);
        l := [pc];
      }
    }

    /** The exit taken when the value is true. */
    method TrueExit(e: ExpDesc) returns (pc: int, ghost l: seq<nat>)
      requires Good(e) && !e.k.KLocal? && !e.k.KGlobal?
      modifies this, e
      ensures forall i :: i in pending ==> i in old(pending)
      ensures Exit(e, pc, l) && (S(), l) == WhenTrue(old(S()), old(e.E())) && e.Lists() == old(e.Lists())
      ensures Untouched(old(code), old(held), old(S()), old(e.E()), code, held)
    {
      if e.k.KNil? || e.k.KFalse? {
        NoExit(e);
        pc, l := NO_JUMP, [];
      } else if e.k.KTrue? {
        l := CodeModel.Jump(S()).1;
        pc := AlwaysExit(e);
      } else if e.k.KJmp? {
        CompareExit(e);
        pc, l := e.k.j, [e.k.j];
      } else {
        pc := TestExit(e, true);
        l := [pc];
      }
    }

    method GoIfTrue(e: ExpDesc)
      requires Good(e)
      modifies this, e
      ensures Threaded(e) && LeftBy(S(), e.E(), CodeModel.GoIfTrue(old(S()), old(e.E())))
      ensures Untouched(old(code), old(held), old(S()), old(e.E()), code, held)
    {
      ghost var c0, h0, s0, e0 := code, held, S(), e.E();
      DischargeVars(e);
      ghost var c1, h1, s1, e1 := code, held, S(), e.E();
      var pc, l := FalseExit(e);
      ghost var c2, h2, s2 := code, held, S();
      EndFalse(e, pc, l);
      GoIfTrueIs(s0, e0);
      EndUntouched(c1, h1, s1, e1, c2, h2, s2, code);
      DischargeFrame(c0, h0, s0, e0, c1, h1, s1, e1, code, held);
    }

    method GoIfFalse(e: ExpDesc)
      requires Good(e)
      modifies this, e
      ensures Threaded(e) && LeftBy(S(), e.E(), CodeModel.GoIfFalse(old(S()), old(e.E())))
      ensures Untouched(old(code), old(held), old(S()), old(e.E()), code, held)
    {
      ghost var c0, h0, s0, e0 := code, held, S(), e.E();
      DischargeVars(e);
      ghost var c1, h1, s1, e1 := code, held, S(), e.E();
      var pc, l := TrueExit(e);
      ghost var c2, h2, s2 := code, held, S();
      EndTrue(e, pc, l);
      GoIfFalseIs(s0, e0);
      EndUntouched(c1, h1, s1, e1, c2, h2, s2, code);
      DischargeFrame(c0, h0, s0, e0, c1, h1, s1, e1, code, held);
    }

    // -------------------------------------------------------------- negation

    method CodeNot(e: ExpDesc)
      requires Good(e)
      modifies this, e
      ensures Linked(e) && (S(), e.E()) == CodeModel.CodeNot(old(S()), old(e.E()))
      ensures Untouched(old(code), old(held), old(S()), old(e.E()), code, held)
    {
      ghost var c0, h0, s0, e0 := code, held, S(), e.E();
      DischargeVars(e);
      ghost var c1, h1, s1, e1 := code, held, S(), e.E();
      NegatedOk(s1, e1);
      Negate(e);
      SwapLists(e);
      CodeNotParts(s0, e0);
      DischargeFrame(c0, h0, s0, e0, c1, h1, s1, e1, code, held);
    }

    /** The negation itself. */
    method Negate(e: ExpDesc)
      requires Good(e) && !e.k.KLocal? && !e.k.KGlobal?
      modifies this, e
      ensures Linked(e) && (S(), e.E()) == Negated(old(S()), old(e.E()))
      ensures Untouched(old(code), old(held), old(S()), old(e.E()), code, held)
    {
      if e.k.KNil? || e.k.KFalse? {
        e.k := KTrue;
      } else if e.k.KConst? || e.k.KTrue? {
        e.k := KFalse;
      } else if e.k.KJmp? {
        InvertJump(e);
      } else {
        NegateValue(e);
      }
    }

    method NegateValue(e: ExpDesc)
      requires Good(e) && (e.k.KReloc? || e.k.KReg?)
      modifies this, e
      ensures Linked(e) && (S(), e.E()) == Negated(old(S()), old(e.E()))
      ensures Untouched(old(code), old(held), old(S()), old(e.E()), code, held)
    {
      ghost var c0, h0, s0, e0 := code, held, S(), e.E();
      var r := ToAnyReg(e);
      ghost var c1, h1, s1 := code, held, S();
      EmitNot(e, r);
      TestFrame(c0, h0, s0, e0, c1, h1, s1, code, held);
    }

    method EmitNot(e: ExpDesc, r: nat)
      requires Threaded(e) && ExpOk(S(), e.Lists()) == true
      modifies this, e
      ensures Linked(e) && S() == CodeModel.Emit(old(S()), [NotOp(0, r)])
          && e.E() == old(e.E()).(k := KReloc(|old(code)|))
      ensures Untouched(old(code), old(held), old(S()), NoExp, code, held)
    {
      e.k := KNil;
      var pc := EmitFor(e, NotOp(0, r));
      e.k := KReloc(pc);
    }

    /** The lists change places, and their jumps carry no values any more. */
    method SwapLists(e: ExpDesc)
      requires Good(e)
      modifies `code, e
      ensures Linked(e)
      ensures var s, x := old(S()), old(e.E());
        S() == s.(code := CodeModel.RemoveValues(CodeModel.RemoveValues(s.code, x.t), x.f))
            && e.E() == Exp(x.k, x.f, x.t)
      ensures SameJumps(old(code), code)
    {
      ghost var c, s, x := code, S(), e.E();
      e.t, e.f, e.tl, e.fl := e.f, e.t, e.fl, e.tl;
      RemoveValues(e.f, e.fl);
      JumpsKept(c, code, e.t, e.tl);
      forall i: nat | i in e.tl ensures Pend(S().code, i) { assert Pend(s.code, i); }
      ghost var c1 := code;
      RemoveValues(e.t, e.tl);
      assert SameJumps(c, code);
      JumpsKept(c, code, e.t, e.tl);
      JumpsKept(c, code, e.f, e.fl);
      JumpsKept(c, code, jpc, pending);
      if e.k.KJmp? { JumpsKept(c, code, e.k.j, [e.k.j]); }
    }

    // -------------------------------------------------------------- whole expressions

    /** A descriptor for a value without code. */
    method InitExp(v: ExpDesc, k: Kind)
      requires Valid() && !k.KJmp?
      modifies v
      ensures Linked(v) && v.E() == Exp(k, [], [])
    {
      v.k, v.t, v.f, v.tl, v.fl := k, NO_JUMP, NO_JUMP, [], [];
    }

    /** Generates the code of an expression (`subexpr`), operand by operand. */
    method Subexpr(e: Expr, v: ExpDesc)
      requires Valid() && StOk(S()) && Scoped(e, nactvar)
      modifies this, v
      ensures Linked(v) && (S(), v.E()) == Compile(old(S()), e)
      ensures Untouched(old(code), old(held), old(S()), NoExp, code, held)
      decreases e, 1
    {
      CompileOk(S(), e);
      match e {
        case ENil => InitExp(v, KNil);
        case ETrue => InitExp(v, KTrue);
        case EFalse => InitExp(v, KFalse);
        case ENum(n) => InitExp(v, KConst(VData(n)));
        case ELocal(r) => InitExp(v, KLocal(r));
        case EGlobal(n) => InitExp(v, KGlobal(n));
        case ENot(a) => Prefix(a, v);
        case EAnd(a, b) => Connect(false, a, b, v);
        case EOr(a, b) => Connect(true, a, b, v);
        case ECmp(op, a, b) => Comparison(op, a, b, v);
      }
    }

    method Prefix(a: Expr, v: ExpDesc)
      requires Valid() && StOk(S()) && Scoped(a, nactvar)
      modifies this, v
      ensures Linked(v) && (S(), v.E()) == CodeModel.CodeNot(Compile(old(S()), a).0, Compile(old(S()), a).1)
      ensures Untouched(old(code), old(held), old(S()), NoExp, code, held)
      decreases a, 2
    {
      ghost var c0, h0, s0 := code, held, S();
      CompileOk(s0, a);
      Subexpr(a, v);
      ghost var c1, h1, s1, e1 := code, held, S(), v.E();
      CodeNot(v);
      UntouchedTrans(c0, h0, s0, NoExp, c1, h1, s1, e1, code, held);
    }

    /** The first operand and what `luaK_infix` does with it. */
    method Infix(cond: bool, a: Expr, v: ExpDesc)
      requires Valid() == true && StOk(S()) == true && Scoped(a, nactvar) == true
      modifies this, v
      ensures Threaded(v) == true && First(S(), Keep(v.E(), cond), cond, Branch(Compile(old(S()), a), cond)) == true
      ensures ExpOk(S(), Outer(Keep(v.E(), cond), cond)) == true && nactvar == old(nactvar)
      ensures Untouched(old(code), old(held), old(S()), NoExp, code, held) == true
      decreases a, 2
    {
      ghost var c0, h0, s0 := code, held, S();
      CompileOk(s0, a);
      Subexpr(a, v);
      ghost var c1, h1, s1, e1 := code, held, S(), v.E();
      BranchOuter(s0, a, cond);
      if cond { GoIfFalse(v); } else { GoIfTrue(v); }
      UntouchedTrans(c0, h0, s0, NoExp, c1, h1, s1, e1, code, held);
    }

    method Connect(cond: bool, a: Expr, b: Expr, v: ExpDesc)
      requires Valid() && StOk(S()) && Scoped(a, nactvar) && Scoped(b, nactvar)
      modifies this, v
      ensures Linked(v) && (S(), v.E()) == Compile(old(S()), Connective(cond, a, b))
      ensures Untouched(old(code), old(held), old(S()), NoExp, code, held)
      decreases Connective(cond, a, b), 0
    {
      ghost var s0 := S();
      ghost var c2, h2, s2, keep := BothParts(cond, a, b, v);
      ConnectIs(s0, a, b, cond);
      ConnectFrame(s0, a, cond, old(code), old(held), c2, h2, s2, keep, code, held);
    }

    method FirstPart(cond: bool, a: Expr, v: ExpDesc)
      returns (ghost c2: seq<Op>, ghost h2: set<nat>, ghost s2: St, ghost keep: seq<nat>)
      requires Valid() == true && StOk(S()) == true && Scoped(a, nactvar) == true
      modifies this, v
      ensures c2 == code && h2 == held && s2 == S() && keep == Keep(v.E(), cond) && nactvar == old(nactvar)
      ensures Threaded(v) == true && ExpOk(S(), Outer(keep, cond)) == true
      ensures First(s2, keep, cond, Branch(Compile(old(S()), a), cond)) == true
      ensures Untouched(old(code), old(held), old(S()), NoExp, c2, h2) == true
      decreases a, 3
    {
      Infix(cond, a, v);
      c2, h2, s2, keep := code, held, S(), Keep(v.E(), cond);
    }

    method BothParts(cond: bool, a: Expr, b: Expr, v: ExpDesc)
      returns (ghost c2: seq<Op>, ghost h2: set<nat>, ghost s2: St, ghost keep: seq<nat>)
      requires Valid() == true && StOk(S()) == true && Scoped(a, nactvar) == true && Scoped(b, nactvar) == true
      modifies this, v
      ensures Untouched(old(code), old(held), old(S()), NoExp, c2, h2) == true
      ensures Untouched(c2, h2, s2, Outer(keep, cond), code, held) == true
      ensures First(s2, keep, cond, Branch(Compile(old(S()), a), cond)) == true
      ensures Linked(v) == true && Combined(s2, b, keep, cond, S(), v.E()) == true
      decreases Connective(cond, a, b), 0, 0
    {
      c2, h2, s2, keep := FirstPart(cond, a, v);
      Rest(cond, b, v, keep);
    }

    /** The second operand and the end. */
    method Rest(cond: bool, b: Expr, v: ExpDesc, ghost keep: seq<nat>)
      requires Threaded(v) == true && Scoped(b, nactvar) == true
      requires keep == Keep(v.E(), cond) && ExpOk(S(), Outer(keep, cond)) == true
      modifies this, v
      ensures Linked(v) == true
      ensures Combined(old(S()), b, keep, cond, S(), v.E()) == true
      ensures Untouched(old(code), old(held), old(S()), Outer(keep, cond), code, held) == true
      decreases b, 3
    {
      ghost var c2, h2, s2 := code, held, S();
      var v2 := new ExpDesc(KNil);
      Second(cond, b, v, v2, keep);
      ghost var c3, h3, s3, m := code, held, S(), Merged(v2.E(), keep, cond);
      SecondCompiled(s2, b, keep, cond);
      UntouchedOuter(c2, h2, s2, keep, cond, c3, h3);
      Posfix(cond, v, v2, keep);
      UntouchedTrans(c2, h2, s2, Outer(keep, cond), c3, h3, s3, m, code, held);
    }

    /** The second operand, while the exits of the first wait. */
    method Second(cond: bool, b: Expr, v: ExpDesc, v2: ExpDesc, ghost keep: seq<nat>)
      requires Valid() && Scoped(b, nactvar) && v != v2
      requires ExpOk(S(), Outer(keep, cond)) && Chain(code, if cond then v.t else v.f, keep)
      modifies this, v2
      ensures Good(v2) && (S(), v2.E()) == Compile(old(S()), b)
      ensures ExpOk(S(), Merged(v2.E(), keep, cond)) && Chain(code, if cond then v.t else v.f, keep)
      ensures Untouched(old(code), old(held), old(S()), NoExp, code, held)
      decreases b, 2
    {
      forall i: nat | i in keep ensures i in held && i !in pending { PendHeld(code, held, i); }
      ghost var s := S();
      CompileOk(s, b);
      Subexpr(b, v2);
      LinkKept(old(code), old(held), s, code, held, if cond then v.t else v.f, keep);
      OuterOk(s, if cond then keep else [], if cond then [] else keep, S(), v2.E());
      MergedIs(v2.E(), keep, cond);
    }

    /** `luaK_posfix` for a connective: the exits of the first operand join
        those of the second, whose descriptor takes the place of the first. */
    method Posfix(cond: bool, v: ExpDesc, v2: ExpDesc, ghost keep: seq<nat>)
      requires Good(v2) && v != v2
      requires ExpOk(S(), Merged(v2.E(), keep, cond)) && Chain(code, if cond then v.t else v.f, keep)
      modifies this, v, v2
      ensures Linked(v)
      ensures var d := CodeModel.DischargeVars(old(S()), old(v2.E())); (S(), v.E()) == (d.0, Merged(d.1, keep, cond))
      ensures Untouched(old(code), old(held), old(S()), Merged(old(v2.E()), keep, cond), code, held)
    {
      ghost var c3, h3, s3, e3 := code, held, S(), v2.E();
      MergedDischarge(s3, e3, keep, cond);
      KeepApart(code, held, s3, e3, keep, cond);
      DischargeVars(v2);
      KeepChain(c3, h3, s3, e3, code, held, if cond then v.t else v.f, keep);
      ghost var c4, h4, s4, e4 := code, held, S(), v2.E();
      KeepApart(code, held, S(), v2.E(), keep, cond);
      if cond { AppendTrue(v, v2, keep); } else { AppendFalse(v, v2, keep); }
      PosfixUntouched(c3, h3, s3, e3, c4, h4, s4, e4, keep, cond, code);
    }

    method AppendTrue(v: ExpDesc, v2: ExpDesc, ghost keep: seq<nat>)
      requires Linked(v2) && v != v2 && Chain(code, v.t, keep)
      requires Distinct(v2.tl)
          && forall i :: i in v2.tl ==> i in held && i !in keep && i !in v2.fl && i !in pending && v2.k != KJmp(i)
      modifies `code, v, v2
      ensures Linked(v) && S() == old(S()) && v.E() == Merged(old(v2.E()), keep, true)
      ensures OtherJumps(old(code), code, old(v2.tl))
    {
      ghost var c := code;
      v2.t := Concat(v2.t, v.t, v2.tl, keep);
      ListKept(c, code, v2.f, v2.fl, v2.tl);
      ListKept(c, code, jpc, pending, v2.tl);
      if v2.k.KJmp? { ListKept(c, code, v2.k.j, [v2.k.j], v2.tl); }
      v.k, v.t, v.f, v.tl, v.fl := v2.k, v2.t, v2.f, v2.tl + keep, v2.fl;
    }

    method AppendFalse(v: ExpDesc, v2: ExpDesc, ghost keep: seq<nat>)
      requires Linked(v2) && v != v2 && Chain(code, v.f, keep)
      requires Distinct(v2.fl)
          && forall i :: i in v2.fl ==> i in held && i !in keep && i !in v2.tl && i !in pending && v2.k != KJmp(i)
      modifies `code, v, v2
      ensures Linked(v) && S() == old(S()) && v.E() == Merged(old(v2.E()), keep, false)
      ensures OtherJumps(old(code), code, old(v2.fl))
    {
      ghost var c := code;
      v2.f := Concat(v2.f, v.f, v2.fl, keep);
      ListKept(c, code, v2.t, v2.tl, v2.fl);
      ListKept(c, code, jpc, pending, v2.fl);
      if v2.k.KJmp? { ListKept(c, code, v2.k.j, [v2.k.j], v2.fl); }
      v.k, v.t, v.f, v.tl, v.fl := v2.k, v2.t, v2.f, v2.tl, v2.fl + keep;
    }

    method Comparison(op: CompareOp, a: Expr, b: Expr, v: ExpDesc)
      requires Valid() && StOk(S()) && Scoped(a, nactvar) && Scoped(b, nactvar)
      modifies this, v
      ensures Linked(v) && (S(), v.E()) == Compile(old(S()), ECmp(op, a, b))
      ensures Untouched(old(code), old(held), old(S()), NoExp, code, held)
      decreases ECmp(op, a, b), 0
    {
      ghost var c0, h0, s0 := code, held, S();
      CompareIs(s0, op, a, b);
      OperandParts(s0, a);
      var x := Operand(a, v);
      ghost var c2, h2 := code, held;
      BothFreed(s0, a, b);
      SecondOperand(op, x, b, v);
      OperandFrame(s0, a, c0, h0, c2, h2, code, held);
    }

    /** The second operand, and the end of `codecomp`; the first operand is in place. */
    method SecondOperand(op: CompareOp, x: RK, b: Expr, v: ExpDesc)
      requires Valid() && StOk(S()) && Scoped(b, nactvar)
      requires var (s4, e4, y) := AsOperand(Compile(S(), b));
        && StOk(CodeModel.FreeExp(CodeModel.FreeExp(s4, e4), v.E()))
        && OnTop(s4, e4) && OnTop(CodeModel.FreeExp(s4, e4), v.E())
      modifies this, v
      ensures Linked(v)
      ensures var (s4, e4, y) := AsOperand(Compile(old(S()), b));
        (S(), v.E()) == CodeCompile.Compared(s4, e4, old(v.E()), op, x, y)
      ensures Untouched(old(code), old(held), old(S()), NoExp, code, held)
      decreases b, 3
    {
      ghost var c2, h2, s2 := code, held, S();
      var v2 := new ExpDesc(KNil);
      var y := Operand(b, v2);
      ghost var c4, h4 := code, held;
      FreeExp(v2);
      FreeExp(v);
      Compared(v, CompareInstr(op, x, y));
      OperandFrame(s2, b, c2, h2, c4, h4, code, held);
    }

    /** The end of `codecomp`. */
    method Compared(v: ExpDesc, test: Instr)
      requires Valid() && StOk(S()) && test.Compare?
      modifies this, v
      ensures Linked(v) && var (s', j) := CodeModel.CondJump(old(S()), test);
          (S(), v.E()) == (s', Exp(KJmp(j), [], []))
      ensures Untouched(old(code), old(held), old(S()), NoExp, code, held)
    {
      var j := CondJump(test);
      v.k, v.t, v.f, v.tl, v.fl := KJmp(j), NO_JUMP, NO_JUMP, [], [];
    }

    /** An operand of a comparison. */
    method Operand(a: Expr, v: ExpDesc) returns (x: RK)
      requires Valid() && StOk(S()) && Scoped(a, nactvar)
      modifies this, v
      ensures Linked(v) && (S(), v.E(), x) == AsOperand(Compile(old(S()), a))
      ensures Untouched(old(code), old(held), old(S()), NoExp, code, held)
      decreases a, 2
    {
      ghost var c0, h0, s0 := code, held, S();
      CompileOk(s0, a);
      Subexpr(a, v);
      ghost var c1, h1, s1, e1 := code, held, S(), v.E();
      x := Exp2RK(v);
      UntouchedTrans(c0, h0, s0, NoExp, c1, h1, s1, e1, code, held);
    }
  }

  lemma BranchGrows(s: St, a: Expr, cond: bool)
    requires StOk(s) && Scoped(a, s.nact)
    ensures var (s2, e2) := Branch(Compile(s, a), cond); var o := Outer(Keep(e2, cond), cond);
      ExpOk(s2, o) && Grows(s, NoExp, s2, o)
  {
    CompileOk(s, a);
    var r := Compile(s, a);
    if cond { GoIfFalseOk(r.0, r.1); } else { GoIfTrueOk(r.0, r.1); }
    var (s2, e2) := Branch(r, cond);
    GrowsTrans(s, NoExp, r.0, r.1, s2, Outer(Keep(e2, cond), cond));
  }

  lemma SecondCompiled(s2: St, b: Expr, keep: seq<nat>, cond: bool)
    requires ExpOk(s2, Outer(keep, cond)) && Scoped(b, s2.nact)
    ensures var r := Compile(s2, b); var m := Merged(r.1, keep, cond);
      ExpOk(r.0, m) && Grows(s2, Outer(keep, cond), r.0, m)
  {
    CompileOk(s2, b);
    var r := Compile(s2, b);
    OuterOk(s2, if cond then keep else [], if cond then [] else keep, r.0, r.1);
    MergedIs(r.1, keep, cond);
  }

  lemma NextRegIs(s: St, e: Exp, s1: St, e1: Exp)
    requires (s1, e1) == CodeModel.DischargeVars(s, e) && CodeModel.FreeExp(s1, e1) == s1
    ensures CodeModel.Exp2NextReg(s, e) == CodeModel.Exp2Reg(s1.(free := s1.free + 1), e1, s1.free)
  {
  }

  /** Freeing both operands of a comparison. */
  lemma BothFreed(s: St, a: Expr, b: Expr)
    requires StOk(s) && Scoped(a, s.nact) && Scoped(b, s.nact)
    ensures var (s2, e2, x) := AsOperand(Compile(s, a)); var (s4, e4, y) := AsOperand(Compile(s2, b));
      && StOk(CodeModel.FreeExp(CodeModel.FreeExp(s4, e4), e2))
      && OnTop(s4, e4) && OnTop(CodeModel.FreeExp(s4, e4), e2)
  {
    OperandPlaced(s, a);
    var (s2, e2, x) := AsOperand(Compile(s, a));
    OperandPlaced(s2, b);
    var (s4, e4, y) := AsOperand(Compile(s2, b));
    FreeBoth(s, s2, s4, e2, x, e4, y);
  }

  lemma OperandPlaced(s: St, a: Expr)
    requires StOk(s) && Scoped(a, s.nact)
    ensures var (s2, e2, x) := AsOperand(Compile(s, a)); StOk(s2) && s2.nact == s.nact && Placed(s, s2, e2.k, x)
  {
    assert ExpOk(s, NoExp);
    OperandOk(s, a);
  }

  lemma ConnectFrame(s: St, a: Expr, cond: bool, c0: seq<Op>, h0: set<nat>, c2: seq<Op>, h2: set<nat>,
                     s2: St, keep: seq<nat>, c4: seq<Op>, h4: set<nat>)
    requires StOk(s) && Scoped(a, s.nact) && s.code == Read(c0, h0) && Coded(c0, h0)
    requires s2 == Branch(Compile(s, a), cond).0 && keep == Keep(Branch(Compile(s, a), cond).1, cond)
    requires Untouched(c0, h0, s, NoExp, c2, h2) && Untouched(c2, h2, s2, Outer(keep, cond), c4, h4)
    ensures Untouched(c0, h0, s, NoExp, c4, h4)
  {
    BranchGrows(s, a, cond);
    UntouchedTrans(c0, h0, s, NoExp, c2, h2, s2, Outer(keep, cond), c4, h4);
  }

  lemma OperandFrame(s: St, a: Expr, c0: seq<Op>, h0: set<nat>, c2: seq<Op>, h2: set<nat>, c4: seq<Op>, h4: set<nat>)
    requires StOk(s) && Scoped(a, s.nact) && s.code == Read(c0, h0) && Coded(c0, h0)
    requires Untouched(c0, h0, s, NoExp, c2, h2) && Untouched(c2, h2, AsOperand(Compile(s, a)).0, NoExp, c4, h4)
    ensures Untouched(c0, h0, s, NoExp, c4, h4)
  {
    OperandGrows(s, a);
    UntouchedTrans(c0, h0, s, NoExp, c2, h2, AsOperand(Compile(s, a)).0, NoExp, c4, h4);
  }

  lemma PosfixUntouched(c3: seq<Op>, h3: set<nat>, s3: St, e3: Exp, c4: seq<Op>, h4: set<nat>, s4: St, e4: Exp,
                        keep: seq<nat>, cond: bool, c5: seq<Op>)
    requires s3.code == Read(c3, h3) && Coded(c3, h3) && ExpOk(s3, Merged(e3, keep, cond)) && Coded(c4, h4)
    requires (s4, e4) == CodeModel.DischargeVars(s3, e3)
    requires Untouched(c3, h3, s3, e3, c4, h4) && OtherJumps(c4, c5, if cond then e4.t else e4.f)
    ensures Untouched(c3, h3, s3, Merged(e3, keep, cond), c5, h4)
  {
    forall i: nat | i in h3 && !Mine(s3, Merged(e3, keep, cond), i)
      ensures i in h4 && i < |c3| && i < |c5| && c5[i] == c3[i]
    {
      assert !Mine(s3, e3, i);
      assert e4.t == e3.t && e4.f == e3.f;
    }
  }

  lemma OperandGrows(s: St, a: Expr)
    requires StOk(s) && Scoped(a, s.nact)
    ensures var (s2, e2, x) := AsOperand(Compile(s, a)); ExpOk(s2, NoExp) && Grows(s, NoExp, s2, NoExp)
  {
    assert ExpOk(s, NoExp);
    OperandOk(s, a);
  }

  lemma MergedIs(e: Exp, keep: seq<nat>, cond: bool)
    ensures e.(t := e.t + if cond then keep else [], f := e.f + if cond then [] else keep) == Merged(e, keep, cond)
  {
    assert e.t + [] == e.t && e.f + [] == e.f;
  }

  lemma MergedDischarge(s: St, e: Exp, keep: seq<nat>, cond: bool)
    requires ExpOk(s, Merged(e, keep, cond))
    ensures var d := CodeModel.DischargeVars(s, e); ExpOk(d.0, Merged(d.1, keep, cond))
  {
    DischargeVarsOk(s, Merged(e, keep, cond));
  }

  /** The exits that wait are no business of the expression. */
  lemma KeepApart(c: seq<Op>, h: set<nat>, s: St, e: Exp, keep: seq<nat>, cond: bool)
    requires s.code == Read(c, h) && Coded(c, h) && ExpOk(s, Merged(e, keep, cond))
    ensures forall i :: i in keep ==> i in h && !Mine(s, e, i)
    ensures Distinct(e.t) && Distinct(e.f) && Distinct(s.jpc)
    ensures forall i :: i in e.t || i in e.f || i in s.jpc ==> i in h && i !in keep
    ensures forall i :: i in e.t ==> i !in e.f && i !in s.jpc && e.k != KJmp(i)
    ensures forall i :: i in e.f ==> i !in s.jpc && e.k != KJmp(i)
  {
    var m := Merged(e, keep, cond);
    forall i: nat | i in m.t || i in m.f || i in s.jpc
        ensures i in h && (i in m.t || i in m.f ==> i < EndPc(s, e)) { PendHeld(c, h, i); }
    MergedParts(e, keep, cond);
  }

  lemma MergedParts(e: Exp, keep: seq<nat>, cond: bool)
    ensures var m := Merged(e, keep, cond);
      && (forall i :: i in keep || i in (if cond then e.t else e.f) <==> i in (if cond then m.t else m.f))
      && (Distinct(m.t) && Distinct(m.f) ==>
          Distinct(e.t) && Distinct(e.f) && forall i :: i in keep ==> i !in (if cond then e.t else e.f))
  {
    var m := Merged(e, keep, cond);
    var l := if cond then e.t else e.f;
    var ml := if cond then m.t else m.f;
    assert ml == l + keep;
    if Distinct(ml) {
      forall i, j | 0 <= i < j < |l| ensures l[i] != l[j] { assert ml[i] != ml[j]; }
      forall i, k | 0 <= i < |l| && 0 <= k < |keep| ensures l[i] != keep[k] { assert ml[i] != ml[|l| + k]; }
    }
  }

  lemma KeepChain(c: seq<Op>, h: set<nat>, s: St, e: Exp, c': seq<Op>, h': set<nat>, head: int, keep: seq<nat>)
    requires Chain(c, head, keep) && Untouched(c, h, s, e, c', h')
        && forall i :: i in keep ==> i in h && !Mine(s, e, i)
    ensures Chain(c', head, keep)
  {
    ChainFrame(c, c', head, keep);
  }

  /** What leaves alone all but pending jumps leaves alone all but those and a list. */
  lemma UntouchedOuter(c: seq<Op>, h: set<nat>, s: St, keep: seq<nat>, cond: bool, c': seq<Op>, h': set<nat>)
    requires Untouched(c, h, s, NoExp, c', h')
    ensures Untouched(c, h, s, Outer(keep, cond), c', h')
  {
    forall i: nat | !Mine(s, Outer(keep, cond), i) ensures !Mine(s, NoExp, i) {}
  }

  lemma JumpsKept(c: seq<Op>, c': seq<Op>, head: int, l: seq<nat>)
    requires Chain(c, head, l) && SameJumps(c, c')
    ensures Chain(c', head, l)
  {
    ChainJumps(c, head, l);
    ChainFrame(c, c', head, l);
  }

  lemma CodeNotParts(s: St, e: Exp)
    ensures var (s1, e1) := CodeModel.DischargeVars(s, e); var (s2, e2) := Negated(s1, e1);
      (!e1.k.KLocal? && !e1.k.KGlobal?) ==>
      CodeModel.CodeNot(s, e)
          == (s2.(code := CodeModel.RemoveValues(CodeModel.RemoveValues(s2.code, e1.t), e1.f)), Exp(e2.k, e1.f, e1.t))
  {
  }

  /** The exit of `goiftrue` on a value in play. */
  function WhenFalse(s: St, e: Exp): (St, seq<nat>) {
    match e.k
    case KConst(_) => (s, [])
    case KTrue => (s, [])
    case KFalse => CodeModel.Jump(s)
    case KJmp(j) => (CodeModel.InvertJump(s, j), [j])
    case _ => var (s', j) := CodeModel.JumpOnCond(s, e, false); (s', [j])
  }

  /** The exit of `goiffalse` on a value in play. */
  function WhenTrue(s: St, e: Exp): (St, seq<nat>) {
    match e.k
    case KNil => (s, [])
    case KFalse => (s, [])
    case KTrue => CodeModel.Jump(s)
    case KJmp(j) => (s, [j])
    case _ => var (s', j) := CodeModel.JumpOnCond(s, e, true); (s', [j])
  }

  lemma GoIfTrueIs(s: St, e: Exp)
    ensures var (s1, e1) := CodeModel.DischargeVars(s, e); var (s2, l) := WhenFalse(s1, e1);
      CodeModel.GoIfTrue(s, e) == (CodeModel.PatchToHere(s2, e1.t), e1.(t := [], f := e1.f + l))
  {
  }

  lemma GoIfFalseIs(s: St, e: Exp)
    ensures var (s1, e1) := CodeModel.DischargeVars(s, e); var (s2, l) := WhenTrue(s1, e1);
      CodeModel.GoIfFalse(s, e) == (CodeModel.PatchToHere(s2, e1.f), e1.(f := [], t := e1.t + l))
  {
  }

  /** Linking the lists touches nothing else. */
  lemma EndUntouched(c1: seq<Op>, h1: set<nat>, s1: St, e1: Exp, c2: seq<Op>, h2: set<nat>, s2: St, c3: seq<Op>)
    requires Untouched(c1, h1, s1, e1, c2, h2) && Coded(c2, h2) && OtherJumps(c2, c3, s2.jpc + e1.t + e1.f)
    requires forall i :: i in s2.jpc ==> i in s1.jpc
    ensures Untouched(c1, h1, s1, e1, c3, h2)
  {
  }

  /** The state and the exits that wait after the first operand. */
  predicate First(s2: St, keep: seq<nat>, cond: bool, r: (St, Exp)) {
    s2 == r.0 && keep == Keep(r.1, cond)
  }

  /** The state and the lists of a result; its kind is of no use any more. */
  predicate LeftBy(s: St, e: Exp, r: (St, Exp)) {
    s == r.0 && e.t == r.1.t && e.f == r.1.f
  }

  /** The second operand, with the exits of the first added to its own. */
  predicate Combined(s2: St, b: Expr, keep: seq<nat>, cond: bool, s: St, e: Exp) {
    var d := InPlaceOf(Compile(s2, b));
    (s, e) == (d.0, Merged(d.1, keep, cond))
  }

  /** A jump that takes over what is pending to it is apart from the lists. */
  lemma JumpApart(s: St, e: Exp)
    requires ExpOk(s, e) && e.k.KNil?
    ensures var (s', l) := CodeModel.Jump(s);
      ExpOk(s', e) && forall i :: i in l ==> i !in e.t && i !in e.f && i !in s'.jpc
  {
    var (s', l) := CodeModel.Jump(s);
    forall i: nat | i in e.t || i in e.f || i in s.jpc
        ensures Pend(s'.code, i) && i < |s.code| { assert Pend(s.code, i); }
  }

  predicate InRegister(r: (St, Exp)) {
    r.1.k.KReg? && !CodeModel.HasJumps(r.1) && CodeModel.Exp2AnyReg(r.0, r.1) == r
  }

  /** A value with exits comes to a register at once. */
  lemma NoJumpsThen(s: St, e: Exp)
    requires ExpOk(s, e)
    ensures CodeModel.HasJumps(e) ==> InRegister(CodeModel.Exp2AnyReg(s, e))
    ensures var (s', e') := CodeModel.DischargeVars(s, e);
      && ExpOk(s', e') && Grows(s, e, s', e')
      && (!CodeModel.HasJumps(e) && e'.k.KReg? ==> InRegister((s', e')))
  {
    DischargeVarsOk(s, e);
    Exp2AnyRegOk(s, e);
  }

  lemma Exp2RegParts(s: St, e: Exp, reg: nat)
    ensures var (s1, e1) := CodeModel.Discharge2Reg(s, e, reg);
      var e2 := if e1.k.KJmp? then e1.(t := e1.t + [e1.k.j]) else e1;
      CodeModel.Exp2Reg(s, e, reg) == (FinishedLists(s1, e2, reg), Exp(KReg(reg), [], []))
  {
  }

  /** The two loads, and the jump around them pending to here. */
  function LoadsAfter(s: St, fj: seq<nat>, reg: nat): (St, nat, nat) {
    var s2 := CodeModel.Emit(s, [LoadBool(reg, false, true)]);
    var s3 := CodeModel.Emit(s2, [LoadBool(reg, true, false)]);
    (CodeModel.PatchToHere(s3, fj), |s.code|, |s2.code|)
  }

  function LoadedFor(s: St, e: Exp, reg: nat): (St, nat, nat) {
    if CodeModel.NeedValue(s.code, e.t)
        || CodeModel.NeedValue(s.code, e.f) then CodeModel.LoadTruth(s, e, reg) else (s, 0, 0)
  }

  /** The second half of `exp2reg`, on joined lists. */
  function FinishedLists(s: St, e: Exp, reg: nat): St {
    if !CodeModel.HasJumps(e) then s
    else
      var (s3, pf, pt) := LoadedFor(s, e, reg);
      s3.(code := PatchList(PatchList(s3.code, e.f, |s3.code|, Some(reg), pf), e.t, |s3.code|, Some(reg), pt))
  }

  lemma BothUntouched(c: seq<Op>, h: set<nat>, s: St, l: Exp, c1: seq<Op>, h1: set<nat>, c2: seq<Op>, h2: set<nat>)
    requires Coded(c, h) && Coded(c1, h1)
    requires OtherJumps(c, c1, l.f) && Released(h, h1, l.f) && OtherJumps(c1, c2, l.t) && Released(h1, h2, l.t)
    ensures Untouched(c, h, s, l, c2, h2)
  {
  }

  lemma LoadedListsOk(s: St, e: Exp, reg: nat)
    requires ExpOk(s, Exp(KNil, e.t, e.f)) && (e.k.KJmp? ==> s.jpc == [])
    ensures var s' := CodeModel.LoadTruth(s, e, reg).0; var l := Exp(KNil, e.t, e.f);
      ExpOk(s', l) && Grows(s, l, s', l)
    ensures var l := Exp(KNil, e.t, e.f); Grows(s, l, s, l)
  {
    var l := Exp(KNil, e.t, e.f);
    var s' := CodeModel.LoadTruth(s, e, reg).0;
    LoadTruthShape(s, e, reg);
    AddedOk(s, l, s');
    AddedOk(s, l, s);
  }

  lemma LoadTruthShape(s: St, e: Exp, reg: nat)
    requires e.k.KJmp? ==> s.jpc == []
    ensures var s' := CodeModel.LoadTruth(s, e, reg).0;
      && |s'.code| > |s.code| && s'.code[..|s.code|] == s.code && s'.nact == s.nact && s'.free == s.free
      && s'.code[|s'.code| - 1] == LoadBool(reg, true, false)
      && (s'.jpc == s.jpc || (s'.jpc == [|s.code|] + s.jpc && s'.code[|s.code|] == Jmp(None)))
  {
    LoadTruthIs(s, e, reg);
  }

  lemma ListKept(c: seq<Op>, c': seq<Op>, head: int, l: seq<nat>, m: seq<nat>)
    requires Chain(c, head, l) && OtherJumps(c, c', m) && forall i :: i in l ==> i !in m
    ensures Chain(c', head, l)
  {
    ChainJumps(c, head, l);
    ChainFrame(c, c', head, l);
  }

  /** After variables are discharged. */
  lemma DischargeFrame(c0: seq<Op>, h0: set<nat>, s: St, e: Exp, c1: seq<Op>, h1: set<nat>, s1: St, e1: Exp,
      c2: seq<Op>, h2: set<nat>)
    requires ExpOk(s, e) == true && s.code == Read(c0, h0) && Coded(c0, h0) == true
        && (s1, e1) == CodeModel.DischargeVars(s, e)
    requires Untouched(c0, h0, s, e, c1, h1) && Untouched(c1, h1, s1, e1, c2, h2)
    ensures Untouched(c0, h0, s, e, c2, h2)
  {
    DischargeVarsOk(s, e);
    UntouchedTrans(c0, h0, s, e, c1, h1, s1, e1, c2, h2);
  }

  /** After the loads, if any. */
  lemma LoadsFrame(c0: seq<Op>, h0: set<nat>, s: St, e: Exp, reg: nat, c1: seq<Op>, h1: set<nat>, s1: St,
      c2: seq<Op>, h2: set<nat>)
    requires ExpOk(s, Exp(KNil, e.t, e.f)) == true && (e.k.KJmp? ==> s.jpc == []) && s.code == Read(c0, h0)
        && Coded(c0, h0) == true
    requires s1 == LoadedFor(s, e, reg).0
    requires Untouched(c0, h0, s, NoExp, c1, h1) && Untouched(c1, h1, s1, Exp(KNil, e.t, e.f), c2, h2)
    ensures Untouched(c0, h0, s, Exp(KNil, e.t, e.f), c2, h2)
  {
    LoadedListsOk(s, e, reg);
    PlainUntouched(c0, h0, s, Exp(KNil, e.t, e.f), c1, h1);
    UntouchedTrans(c0, h0, s, Exp(KNil, e.t, e.f), c1, h1, s1, Exp(KNil, e.t, e.f), c2, h2);
  }

  /** After a value came to a register to be tested or negated. */
  lemma TestFrame(c0: seq<Op>, h0: set<nat>, s: St, e: Exp, c1: seq<Op>, h1: set<nat>, s1: St, c2: seq<Op>,
      h2: set<nat>)
    requires ExpOk(s, e) == true && !e.k.KJmp? && !e.k.KLocal? && !e.k.KGlobal? && s.code == Read(c0, h0)
        && Coded(c0, h0) == true
    requires var (s', e') := CodeModel.Discharge2AnyReg(s, e); s1 == CodeModel.FreeExp(s', e')
    requires Untouched(c0, h0, s, e, c1, h1) && Untouched(c1, h1, s1, NoExp, c2, h2)
    ensures Untouched(c0, h0, s, e, c2, h2)
  {
    Discharge2AnyRegOk(s, e);
    PlainUntouched(c1, h1, s1, Plain(e), c2, h2);
    UntouchedTrans(c0, h0, s, e, c1, h1, s1, Plain(e), c2, h2);
  }

  lemma PlainUntouched(c: seq<Op>, h: set<nat>, s: St, e: Exp, c': seq<Op>, h': set<nat>)
    requires Untouched(c, h, s, NoExp, c', h')
    ensures Untouched(c, h, s, e, c', h')
  {
    forall i: nat | !Mine(s, e, i) ensures !Mine(s, NoExp, i) {}
  }

  lemma LinkKept(c: seq<Op>, h: set<nat>, s: St, c': seq<Op>, h': set<nat>, head: int, l: seq<nat>)
    requires Chain(c, head, l) && Untouched(c, h, s, NoExp, c', h') && forall i :: i in l ==> i in h && i !in s.jpc
    ensures Chain(c', head, l)
  {
    forall i: nat | i in l ensures !Mine(s, NoExp, i) {}
    ChainFrame(c, c', head, l);
  }

  /** One instruction more. */
  lemma ReadAppend(c: seq<Op>, held: set<nat>, op: Op)
    requires Coded(c, held) && op.Code? && !op.i.Jmp?
    ensures Coded(c + [op], held) && Read(c + [op], held) == Read(c, held) + [op.i]
  {
  }

  lemma ReadWait(c: seq<Op>, held: set<nat>)
    requires Coded(c, held)
    ensures Coded(c + [Jump(NO_JUMP)], held + {|c|})
        && Read(c + [Jump(NO_JUMP)], held + {|c|}) == Read(c, held) + [Jmp(None)]
  {
  }

  /** Jumps, and their offsets, are the same. */
  ghost predicate SameJumps(c: seq<Op>, c': seq<Op>) {
    |c'| == |c| && forall i: nat :: i < |c| && (c[i].Jump? || c'[i].Jump?) ==> c'[i] == c[i]
  }

  /** The jumps of a list wait no more. */
  ghost predicate Released(h: set<nat>, h': set<nat>, l: seq<nat>) {
    forall i: nat :: i in h' <==> i in h && i !in l
  }

  /** Jumps outside a list are the same. */
  /** The jumps of the list wait. */
  ghost predicate AllPend(code: seq<Instr>, l: seq<nat>) {
    forall i :: i in l ==> Pend(code, i)
  }

  ghost predicate OtherJumps(c: seq<Op>, c': seq<Op>, l: seq<nat>) {
    |c'| == |c| && forall i: nat :: i < |c| && c[i].Jump? && i !in l ==> c'[i] == c[i]
  }

  lemma NextKept(c: seq<Op>, c': seq<Op>, j: nat, next: int, l: seq<nat>)
    requires Chain(c, next, l) && j !in l && |c'| == |c|
        && forall i: nat :: i < |c| && c[i].Jump? && i != j ==> c'[i] == c[i]
    ensures Chain(c', next, l)
  {
    ChainJumps(c, next, l);
    ChainFrame(c, c', next, l);
  }

  lemma ChainStep(c: seq<Op>, head: int, l: seq<nat>, k: nat)
    requires k <= |l| && Chain(c, head, l[k..]) && head != NO_JUMP
    ensures k < |l| && head == l[k] && l[k] < |c| && c[l[k]].Jump? && Chain(c, GetJump(c, l[k]), l[k + 1..])
  {
    assert l[k..][1..] == l[k + 1..];
  }

  lemma RemoveNone(c: seq<Instr>)
    ensures CodeModel.RemoveValues(c, []) == c
  {
  }

  lemma RemoveStep(c0: seq<Instr>, l: seq<nat>, k: nat)
    requires k < |l| && Distinct(l)
    requires l[k] <= |c0|
    ensures var c := CodeModel.RemoveValues(c0, l[..k]); var j := l[k];
      && (ValueJump(c, j) <==> ValueJump(c0, j))
      && CodeModel.RemoveValues(c0, l[..k + 1]) == if ValueJump(c, j) then c[j - 1 := PatchReg(c[j - 1], None)] else c
  {
    var j := l[k];
    var c := CodeModel.RemoveValues(c0, l[..k]);
    assert l[..k + 1] == l[..k] + [j];
    assert forall i :: 0 <= i < k ==> l[i] != j;
  }

  /** A waiting jump that gets its target. */
  lemma ReadFix(c: seq<Op>, held: set<nat>, j: nat, target: nat)
    requires Coded(c, held) && j < |c| && c[j].Jump?
    ensures Coded(FixJump(c, j, target), held - {j})
    ensures Read(FixJump(c, j, target), held - {j}) == Read(c, held)[j := Jmp(Some(target))]
  {
  }

  lemma ChainJumps(c: seq<Op>, head: int, l: seq<nat>)
    requires Chain(c, head, l)
    ensures forall i :: i in l ==> i < |c| && c[i].Jump?
  {
    forall i | i in l ensures i < |c| && c[i].Jump? {
      var k :| 0 <= k < |l| && l[k] == i;
      ChainIn(c, head, l, k);
    }
  }
}
