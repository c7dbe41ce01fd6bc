/**
  What the program can reach is never dead, not even a fixed object, which would
  survive the sweep: so the assertions of the barriers hold as they stand.
 */
module GcReach {
  import opened Common
  import opened GcModel
  import opened GcMark
  import opened GcCycle
  import opened GcSweep
  import opened GcStep
  import opened GcPhases
  import opened GcMutator
  import opened GcAlloc
  import opened GcFull
  import opened GcRuns

  ghost predicate NoneDeadInReach(s: State) {
    forall r :: Reachable(s, r) ==> !IsDead(s, r)
  }

  lemma {:induction false} PathWithin(s: State, path: seq<Ref>, r: Ref, P: iset<Ref>)
    requires IsPath(s, path, r) && (forall q :: IsRoot(s, q) ==> q in P) && ClosedIn(s.heap, P)
    ensures r in P
    decreases |path|
  {
    var n := |path|;
    if n > 1 {
      var p := path[..n - 1];
      forall i | 0 <= i < |p| - 1 ensures Edge(s.heap, p[i], p[i + 1]) { assert Edge(s.heap, path[i], path[i + 1]); }
      PathWithin(s, p, p[n - 2], P);
      assert Edge(s.heap, path[n - 2], path[n - 2 + 1]);
    }
  }

  /** What can be reached is in every closed set with the roots. */
  lemma ReachWithin(s: State, r: Ref, P: iset<Ref>)
    requires Reachable(s, r) && (forall q :: IsRoot(s, q) ==> q in P) && ClosedIn(s.heap, P)
    ensures r in P
  {
    var path :| IsPath(s, path, r);
    PathWithin(s, path, r, P);
  }

  // ---------------------------------------------------------------- strings

  lemma {:induction false} StringsNoneDied(s: State, b: nat, l: seq<Ref>)
    requires b < |s.strt| && Distinct(l) && forall r :: r in l ==> r in s.heap
    ensures NoneDied(s, SweepStrings(s, b, l))
    decreases |l|
  {
    if l != [] {
      assert l[0] in l;
      assert forall r :: r in l[1..] ==> r in l && r != l[0];
      var s1 := SweepStringOne(s, b, l[0]);
      StringsNoneDied(s1, b, l[1..]);
      NoneDiedTrans(s, s1, SweepStrings(s1, b, l[1..]));
    }
  }

  // ---------------------------------------------------------------- steps of the collector

  predicate Sweeping(p: Phase) {
    p.SweepString? || p.Sweep?
  }

  /** Outside the sweep nothing is dead at all. */
  lemma NoSweepNoneDead(s: State)
    requires Inv(s) && !Sweeping(s.phase)
    ensures NoneDeadInReach(s) == true
  {
    forall r | Reachable(s, r) ensures !IsDead(s, r) { ReachableLive(s, r); }
  }

  /** With marking complete, what can be reached has been marked. */
  lemma MarkedReach(s: State, r: Ref)
    requires forall a :: a in s.heap && !s.heap[a].color.White? ==> Done(s, a)
    requires forall q :: IsRoot(s, q) ==> !IsWhite(s.heap, q)
    requires Reachable(s, r)
    ensures !IsWhite(s.heap, r)
  {
    var P := iset q | !IsWhite(s.heap, q);
    forall a, b | a in P && Edge(s.heap, a, b) ensures b in P { assert Done(s, a); }
    ReachWithin(s, r, P);
  }

  /** What the atomic step leaves before the white flips. */
  lemma AtomicMarked(s: State)
    requires Inv(s) && s.phase.Propagate? && s.gray == []
    ensures Marking(s) && MarkInv(AtomicMark(s), {}) == true && AtomicMark(s).gray == []
    ensures forall q :: IsRoot(AtomicMark(s), q) ==> !IsWhite(AtomicMark(s).heap, q)
  {
    MarkInvMarking(s, Waiting(s));
    AtomicMarkDone(s);
    RootsStayMarked(s, AtomicMark(s));
  }

  lemma AllDone(s: State, a: Ref)
    requires MarkInv(s, {}) && s.gray == [] && a in s.heap && !s.heap[a].color.White?
    ensures Done(s, a)
  {
  }

  lemma AtomicNoneDead(s: State)
    requires Inv(s) && s.phase.Propagate? && s.gray == []
    ensures Marking(s) && NoneDeadInReach(Atomic(s))
  {
    AtomicMarked(s);
    FlippedNoneDead(AtomicMark(s), Atomic(s));
  }

  lemma FlippedNoneDead(s: State, s': State)
    requires MarkInv(s, {}) == true && s.gray == [] && forall q :: IsRoot(s, q) ==> !IsWhite(s.heap, q)
    requires s'.heap == s.heap && s'.main == s.main && s'.running == s.running && s'.registry == s.registry
        && s'.mt == s.mt
    ensures NoneDeadInReach(s')
  {
    forall a | a in s'.heap && !s'.heap[a].color.White? ensures Done(s', a) { AllDone(s, a); }
    forall q | IsRoot(s', q) ensures !IsWhite(s'.heap, q) { assert IsRoot(s, q); }
    forall r | Reachable(s', r) ensures !IsDead(s', r) { MarkedReach(s', r); }
  }

  lemma DiedReach(s: State, s': State)
    requires NoneDeadInReach(s) && NoneDied(s, s') && forall r :: Reachable(s', r) ==> Reachable(s, r)
    ensures NoneDeadInReach(s') == true
  {
  }

  /** A step in the sweep kills nobody. */
  lemma SweepStepNoneDied(s: State)
    requires Inv(s) && Sweeping(s.phase)
    ensures NoneDied(s, SingleStep(s)) == true
  {
    if s.phase.Sweep? {
      assert NoneDied(s, SweepChunk(s, GCSWEEPMAX)) == true;
    } else {
      assert BucketOk(s, s.sweepstrgc);
      StringsNoneDied(s, s.sweepstrgc, s.strt[s.sweepstrgc]);
    }
  }

  lemma StepNoneDead(s: State)
    requires Inv(s) && NoneDeadInReach(s)
    ensures NoneDeadInReach(SingleStep(s)) == true
  {
    SingleStepOk(s);
    if Sweeping(s.phase) {
      SweepStepNoneDied(s);
      DiedReach(s, SingleStep(s));
    } else if s.phase.Propagate? && s.gray == [] {
      AtomicNoneDead(s);
    } else {
      StepPhase(s);
      NoSweepNoneDead(SingleStep(s));
    }
  }

  lemma StepPhase(s: State)
    requires Inv(s) && !Sweeping(s.phase) && (s.phase.Propagate? ==> s.gray != [])
    ensures !Sweeping(SingleStep(s).phase)
  {
    if s.phase.Propagate? { PropagateOk(s); }
  }

  // ---------------------------------------------------------------- the program's own operations

  /** The references of `s'` are those of `s`, but for some to objects that could
      be reached before, and some to and from the objects in `N`. */
  ghost predicate ReachesOnly(s: State, s': State, N: set<Ref>) {
    && (forall q :: IsRoot(s', q) ==> Reachable(s, q) || q in N)
    && forall a, b :: (Reachable(s, a) || a in N) && Edge(s'.heap, a, b) ==> Reachable(s, b) || b in N
  }

  lemma NewReach(s: State, s': State, N: set<Ref>, r: Ref)
    requires ReachesOnly(s, s', N) && Reachable(s', r)
    ensures Reachable(s, r) || r in N
  {
    ReachWithin(s', r, iset q | Reachable(s, q) || q in N);
  }

  /** Nobody died, and what is new or newly found is not dead. */
  lemma StaysAlive(s: State, s': State, N: set<Ref>)
    requires NoneDeadInReach(s) && ReachesOnly(s, s', N) == true
    requires s'.white == s.white && forall r :: r in s'.heap && r !in N && IsDead(s', r) ==> IsDead(s, r)
    requires forall r :: r in N ==> !IsDead(s', r)
    ensures NoneDeadInReach(s') == true
  {
    forall r | Reachable(s', r) ensures !IsDead(s', r) { NewReach(s, s', N, r); }
  }

  /** The roots are the same, and every old reference or a usable one. */
  lemma SlotReaches(s: State, t: State, o: Ref, i: nat, v: Val, N: set<Ref>)
    requires ReachesOnly(s, t, N) && o in t.heap && i < |t.heap[o].slots|
    requires v.Gc? ==> Reachable(s, v.r) || v.r in N
    ensures ReachesOnly(s, SetSlot(t, o, i, v), N) == true
  {
    var s' := SetSlot(t, o, i, v);
    forall a, b | (Reachable(s, a) || a in N) && Edge(s'.heap, a, b) ensures Reachable(s, b) || b in N {
      SlotEdge(t, o, i, v, a, b);
    }
    forall q | IsRoot(s', q) ensures Reachable(s, q) || q in N { assert IsRoot(t, q); }
  }

  lemma SlotEdge(t: State, o: Ref, i: nat, v: Val, a: Ref, b: Ref)
    requires o in t.heap && i < |t.heap[o].slots| && Edge(SetSlot(t, o, i, v).heap, a, b)
    ensures Edge(t.heap, a, b) || v == Gc(b)
  {
  }

  lemma SameReaches(s: State)
    ensures ReachesOnly(s, s, {}) == true
  {
    forall q | IsRoot(s, q) ensures Reachable(s, q) { RootReachable(s, q); }
    forall a, b | Reachable(s, a) && Edge(s.heap, a, b) ensures Reachable(s, b) { EdgeReachable(s, a, b); }
  }

  /** Only marks and lists differ. */
  ghost predicate SameRefs(s: State, s': State) {
    && s'.main == s.main && s'.running == s.running && s'.registry == s.registry && s'.mt == s.mt
    && forall a, b :: Edge(s'.heap, a, b) ==> Edge(s.heap, a, b)
  }

  lemma RefsReach(s: State, t: State, s': State, N: set<Ref>)
    requires ReachesOnly(s, t, N) && SameRefs(t, s')
    ensures ReachesOnly(s, s', N) == true
  {
    forall q | IsRoot(s', q) ensures Reachable(s, q) || q in N { assert IsRoot(t, q); }
  }

  lemma WhitenRefs(s: State, r: Ref)
    requires r in s.heap
    ensures SameRefs(s, Whiten(s, r)) == true && NoneDied(s, Whiten(s, r)) == true
  {
    var s' := Whiten(s, r);
    forall q | q in s'.heap ensures Vals(s'.heap, s'.heap[q]) == Vals(s.heap, s.heap[q]) {}
  }

  lemma BackRefs(s: State, r: Ref)
    requires r in s.heap
    ensures SameRefs(s, BarrierBack(s, r)) == true && NoneDied(s, BarrierBack(s, r)) == true
  {
    var s' := BarrierBack(s, r);
    forall q | q in s'.heap ensures Vals(s'.heap, s'.heap[q]) == Vals(s.heap, s.heap[q]) {}
  }

  lemma SlotNoneDied(s: State, o: Ref, i: nat, v: Val)
    requires o in s.heap && i < |s.heap[o].slots|
    ensures NoneDied(s, SetSlot(s, o, i, v)) == true && SetSlot(s, o, i, v).heap.Keys == s.heap.Keys
  {
  }

  lemma DiedNone(s: State, s': State)
    requires NoneDeadInReach(s) && ReachesOnly(s, s', {}) == true && NoneDied(s, s') == true
    ensures NoneDeadInReach(s') == true
  {
    StaysAlive(s, s', {});
  }

  /** A store in the sweep, with its barrier. */
  lemma WriteNoneDead(s: State, o: Ref, i: nat, v: Val)
    requires NoneDeadInReach(s) && Sweeping(s.phase) && o in s.heap && i < |s.heap[o].slots| && Usable(s, v)
    ensures NoneDeadInReach(WriteSlot(s, o, i, v)) == true
  {
    var s1, s' := SetSlot(s, o, i, v), WriteSlot(s, o, i, v);
    SameReaches(s);
    SlotReaches(s, s, o, i, v, {});
    SlotNoneDied(s, o, i, v);
    if s' != s1 {
      WhitenRefs(s1, o);
      BackRefs(s1, o);
      assert s' == Whiten(s1, o) || s' == BarrierBack(s1, o);
      RefsReach(s, s1, s', {});
      NoneDiedTrans(s, s1, s');
    }
    DiedNone(s, s');
  }

  lemma StackNoneDead(s: State, t: Ref, i: nat, v: Val)
    requires NoneDeadInReach(s) && t in s.heap && i < |s.heap[t].slots| && Usable(s, v)
    ensures NoneDeadInReach(SetSlot(s, t, i, v)) == true
  {
    SameReaches(s);
    SlotReaches(s, s, t, i, v, {});
    SlotNoneDied(s, t, i, v);
    DiedNone(s, SetSlot(s, t, i, v));
  }

  /** `t` is `s` with a new object, or one found again, which is then stored. */
  lemma FoundNoneDead(s: State, t: State, r: Ref, o: Ref, i: nat)
    requires NoneDeadInReach(s) && ReachesOnly(s, t, {r}) == true && o in t.heap && i < |t.heap[o].slots|
    requires t.white == s.white && forall q :: q in t.heap && q != r && IsDead(t, q) ==> IsDead(s, q)
    requires !IsDead(t, r)
    ensures NoneDeadInReach(SetSlot(t, o, i, Gc(r))) == true
  {
    SlotReaches(s, t, o, i, Gc(r), {r});
    StaysAlive(s, SetSlot(t, o, i, Gc(r)), {r});
  }

  /** A new object that refers to what can be reached. */
  lemma AddedReaches(s: State, t: State, r: Ref, vs: seq<Val>)
    requires Struct(s) && r !in s.heap && t.main == s.main && t.running == s.running && t.registry == s.registry
        && t.mt == s.mt
    requires r in t.heap && t.heap == s.heap[r := t.heap[r]] && Vals(t.heap, t.heap[r]) == vs
    requires forall v :: v in vs ==> Usable(s, v)
    ensures ReachesOnly(s, t, {r}) == true
  {
    SameReaches(s);
    forall a, b | (Reachable(s, a) || a == r) && Edge(t.heap, a, b) ensures Reachable(s, b) || b == r {
      if a == r { assert Gc(b) in vs; } else { assert Listed(s, a) && Edge(s.heap, a, b); }
    }
    forall q | IsRoot(t, q) ensures Reachable(s, q) || q == r { assert IsRoot(s, q); }
  }

  lemma RunningReach(s: State, i: nat)
    requires s.running in s.heap && i < |s.heap[s.running].slots| && s.heap[s.running].home.Nowhere?
    ensures Reachable(s, s.running) && Usable(s, s.heap[s.running].slots[i])
  {
    assert IsRoot(s, s.running);
    RootReachable(s, s.running);
    var v := s.heap[s.running].slots[i];
    if v.Gc? {
      assert v in s.heap[s.running].slots;
      EdgeReachable(s, s.running, v.r);
    }
  }

  /** An object found again refers to what can be reached. */
  lemma FoundReaches(s: State, r: Ref)
    requires r in s.heap && forall v :: v in Vals(s.heap, s.heap[r]) ==> Usable(s, v)
    ensures ReachesOnly(s, Resurrect(s, r), {r}) == true && !IsDead(Resurrect(s, r), r)
  {
    SameReaches(s);
    var t := Resurrect(s, r);
    WhitenRefs(s, r);
    forall a, b | (Reachable(s, a) || a == r) && Edge(t.heap, a, b) ensures Reachable(s, b) || b == r {
      assert Edge(s.heap, a, b);
      if a == r { assert Usable(s, Gc(b)); }
    }
    forall q | IsRoot(t, q) ensures Reachable(s, q) || q == r { assert IsRoot(s, q); }
  }

  lemma FoundObjectNoneDead(s: State, r: Ref, o: Ref, i: nat)
    requires NoneDeadInReach(s) && o in s.heap && i < |s.heap[o].slots|
    requires r in s.heap && forall v :: v in Vals(s.heap, s.heap[r]) ==> Usable(s, v)
    ensures NoneDeadInReach(SetSlot(Resurrect(s, r), o, i, Gc(r))) == true
  {
    FoundReaches(s, r);
    WhitenRefs(s, r);
    FoundNoneDead(s, Resurrect(s, r), r, o, i);
  }

  /** A new object, stored in `o`. */
  lemma NewNoneDead(s: State, t: State, r: Ref, vs: seq<Val>, o: Ref, i: nat)
    requires NoneDeadInReach(s) && Struct(s) && r !in s.heap && t.white == s.white
    requires t.main == s.main && t.running == s.running && t.registry == s.registry && t.mt == s.mt
    requires r in t.heap && t.heap == s.heap[r := t.heap[r]] && Vals(t.heap, t.heap[r]) == vs
        && t.heap[r].color == White(s.white)
    requires (forall v :: v in vs ==> Usable(s, v)) && o in s.heap && i < |s.heap[o].slots|
    ensures NoneDeadInReach(SetSlot(t, o, i, Gc(r))) == true
  {
    AddedReaches(s, t, r, vs);
    FoundNoneDead(s, t, r, o, i);
  }

  lemma CloseRefs(s: State, u: Ref)
    requires Struct(s) && !s.phase.Propagate? && u in s.heap && s.heap[u].home.Stack?
    ensures SameRefs(s, CloseUpval(s, u)) == true && NoneDied(s, CloseUpval(s, u)) == true
  {
    var s' := CloseUpval(s, u);
    forall a, b | Edge(s'.heap, a, b) ensures Edge(s.heap, a, b) {
      assert Listed(s, a);
    }
  }

  lemma RootsNoneDead(s: State, s': State)
    requires NoneDeadInReach(s) && s' == s.(mt := s'.mt, running := s'.running)
    requires Reachable(s, s'.running) && forall v :: v in s'.mt ==> Usable(s, v)
    ensures NoneDeadInReach(s') == true
  {
    SameReaches(s);
    forall q | IsRoot(s', q) ensures Reachable(s, q) {
      if Gc(q) in s'.mt {
        assert Usable(s, Gc(q));
      } else if q != s'.running {
        assert IsRoot(s, q);
        RootReachable(s, q);
      }
    }
    StaysAlive(s, s', {});
  }

  /** In the sweep, no operation of the program makes a dead object reachable. */
  lemma ApplyNoneDead(s: State, op: Op)
    requires Inv(s) && Enabled(s, op) && NoneDeadInReach(s) && Sweeping(s.phase) && !op.Step? && !op.Collect?
    ensures NoneDeadInReach(Apply(s, op))
  {
    assert Listed(s, s.running);
    match op {
      case Write(o, i, v) => WriteNoneDead(s, o, i, v);
      case StackWrite(t, i, v) => StackNoneDead(s, t, i, v);
      case NewObject(r, kind, slots, dest) => NewNoneDead(s, AddObject(s, r, kind, slots), r, slots, s.running, dest);
      case NewString(r, hash, dest) => NewNoneDead(s, AddString(s, r, hash), r, [], s.running, dest);
      case FoundString(r, dest) => FoundObjectNoneDead(s, r, s.running, dest);
      case NewUpval(r, i, f, j) =>
        RunningReach(s, i);
        NewNoneDead(s, AddOpen(s, r, s.running, i), r, [s.heap[s.running].slots[i]], f, j);
      case FoundUpval(u, f, j) =>
        if s.heap[u].home.slot < |s.heap[s.running].slots| { RunningReach(s, s.heap[u].home.slot); }
        FoundObjectNoneDead(s, u, f, j);
      case Close(u) =>
        SameReaches(s);
        CloseRefs(s, u);
        RefsReach(s, s, CloseUpval(s, u), {});
        DiedNone(s, CloseUpval(s, u));
      case SetMetatable(i, v) =>
        forall w | w in s.mt[i := v] ensures Usable(s, w) {
          if w in s.mt && w.Gc? { assert IsRoot(s, w.r); RootReachable(s, w.r); }
        }
        RootReachable(s, s.running);
        RootsNoneDead(s, Apply(s, op));
      case Resume(t) =>
        forall w | w in s.mt ensures Usable(s, w) { if w.Gc? { assert IsRoot(s, w.r); RootReachable(s, w.r); } }
        RootsNoneDead(s, Apply(s, op));
    }
  }

  // ---------------------------------------------------------------- runs

  lemma ApplyPhase(s: State, op: Op)
    requires Inv(s) && Enabled(s, op) && !op.Step? && !op.Collect?
    ensures Apply(s, op).phase == s.phase
  {
    match op {
      case Write(o, i, v) => WritePhase(s, o, i, v);
      case Close(u) => ClosePhase(s, u);
      case _ =>
    }
  }

  lemma WritePhase(s: State, o: Ref, i: nat, v: Val)
    requires o in s.heap && i < |s.heap[o].slots|
    ensures WriteSlot(s, o, i, v).phase == s.phase
  {
  }

  lemma ClosePhase(s: State, u: Ref)
    requires u in s.heap && s.heap[u].home.Stack?
    ensures CloseUpval(s, u).phase == s.phase
  {
  }

  lemma ApplyOutside(s: State, op: Op)
    requires Inv(s) && Enabled(s, op) && !op.Step? && (op.Collect? || !Sweeping(s.phase))
    ensures !Sweeping(Apply(s, op).phase)
  {
    if !op.Collect? { ApplyPhase(s, op); }
  }

  lemma NextNoneDead(s: State, op: Op)
    requires Inv(s) && Enabled(s, op) && NoneDeadInReach(s)
    ensures NoneDeadInReach(Apply(s, op)) == true
  {
    ApplyOk(s, op);
    if op.Step? {
      StepNoneDead(s);
    } else if op.Collect? || !Sweeping(s.phase) {
      ApplyOutside(s, op);
      NoSweepNoneDead(Apply(s, op));
    } else {
      ApplyNoneDead(s, op);
    }
  }

  /** Nothing in reach is ever dead, if it is not so at the start. */
  lemma {:induction false} RunNoneDead(states: seq<State>, ops: seq<Op>, n: nat)
    requires IsRun(states, ops) && n < |states| && NoneDeadInReach(states[0])
    ensures Inv(states[n]) && NoneDeadInReach(states[n])
  {
    RunInv(states, ops, n);
    if n > 0 {
      RunNoneDead(states, ops, n - 1);
      assert states[n - 1 + 1] == Apply(states[n - 1], ops[n - 1]);
      NextNoneDead(states[n - 1], ops[n - 1]);
    }
  }

  lemma InitialNoneDead(stack: nat, buckets: nat, tags: nat)
    ensures Inv(Initial(stack, buckets, tags)) && NoneDeadInReach(Initial(stack, buckets, tags))
  {
    InitialOk(stack, buckets, tags);
    NoSweepNoneDead(Initial(stack, buckets, tags));
  }

  /** The conditions `luaC_barrierf` and `luaC_barrierback` assert hold whenever
      a barrier is reached, in any run: neither object is dead, and a black one is
      met only while a cycle is under way. */
  lemma BarrierAssertions(states: seq<State>, ops: seq<Op>, n: nat, o: Ref, v: Ref)
    requires IsRun(states, ops) && n < |states| && NoneDeadInReach(states[0])
    requires Reachable(states[n], o) && Reachable(states[n], v)
    ensures var s := states[n];
      && o in s.heap && v in s.heap && !IsDead(s, o) && !IsDead(s, v)
      && (IsWhite(s.heap, v) ==> s.heap[v].color == White(s.white))
      && (s.heap[o].color.Black? ==>
          !s.phase.Pause? && !s.phase.Finalize? && !s.heap[o].kind.KThread? && !s.heap[o].kind.KString?)
  {
    RunNoneDead(states, ops, n);
    ReachableLive(states[n], o);
    ReachableLive(states[n], v);
    if states[n].heap[o].color.Black? { BlackPhase(states[n], o); }
  }
}
