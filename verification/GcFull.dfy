/**
  The full collection (`luaC_fullgc`): it terminates, and keeps exactly the
  reachable objects and the fixed ones.
 */
module GcFull {
  import opened GcModel
  import opened GcMark
  import opened GcCycle
  import opened GcSweep
  import opened GcStep
  import opened GcPhases

  function PhaseRank(p: Phase): nat {
    match p
    case Propagate => 4
    case SweepString => 3
    case Sweep => 2
    case Finalize => 1
    case Pause => 0
  }

  /** What is left to do inside the current phase. */
  function Effort(s: State): int {
    match s.phase
    case Propagate => Work(s)
    case SweepString => |s.strt| - s.sweepstrgc
    case Sweep => Left(s) + 1
    case Finalize => 0
    case Pause => 0
  }

  /** Every step of a cycle that is under way brings its end nearer. */
  lemma StepProgress(s: State)
    requires Inv(s) && s.phase != Pause
    ensures var s' := SingleStep(s);
      PhaseRank(s'.phase) == PhaseRank(s.phase) - 1 || (s'.phase == s.phase && 0 <= Effort(s') < Effort(s))
  {
    match s.phase {
      case Propagate => MarkProgress(s);
      case SweepString => SweepBucketOk(s);
      case Sweep => SweepProgress(s);
      case Finalize =>
    }
  }

  lemma MarkProgress(s: State)
    requires Inv(s) && s.phase == Propagate
    ensures var s' := SingleStep(s); s'.phase == SweepString || (s'.phase == Propagate && Work(s') < Work(s))
  {
    if s.gray != [] { PropagateOk(s); } else { MarkInvMarking(s, Waiting(s)); }
  }

  lemma SweepProgress(s: State)
    requires SweepInv(s) && s.phase == Sweep
    ensures var s1 := SweepChunk(s, GCSWEEPMAX); s1.sweepgc >= |s1.rootgc| || (0 <= Left(s1) < Left(s))
  {
    var s1 := SweepChunk(s, GCSWEEPMAX);
    assert s1.sweepgc <= |s1.rootgc|;
  }

  lemma StepInv(s: State)
    requires Inv(s)
    ensures Inv(SingleStep(s))
  {
    SingleStepOk(s);
  }

  /** Steps until the given phase is reached. */
  function RunTo(s: State, p: Phase): (s': State)
    requires Inv(s) && PhaseRank(p) <= PhaseRank(s.phase)
    requires p == Finalize || p == Pause
    ensures Inv(s') && s'.phase == p
    decreases PhaseRank(s.phase), Effort(s) + 1
  {
    if s.phase == p then s else
      StepInv(s);
      StepProgress(s);
      EffortNonNegative(s);
      RunTo(SingleStep(s), p)
  }

  lemma EffortNonNegative(s: State)
    requires Inv(s)
    ensures Effort(s) >= 0
  {
  }

  /** Entry of `luaC_fullgc`: a mark phase is given up, to be swept as it is. */
  function AbortMark(s: State): State {
    if s.phase.Pause? || s.phase.Propagate? then
      s.(sweepstrgc := 0, sweepgc := 0, gray := [], grayagain := [], phase := SweepString)
    else s
  }

  lemma AbortMarkOk(s: State)
    requires Inv(s)
    ensures Inv(AbortMark(s)) && Swept(s, AbortMark(s))
    ensures s.phase.Pause? || s.phase.Propagate? ==> NoOther(AbortMark(s))
    ensures 1 <= PhaseRank(AbortMark(s).phase) <= 3
  {
    BookkeepingOk(s, AbortMark(s));
    if s.phase.Pause? { AllCurrentNoOther(s); }
    if s.phase.Pause? || s.phase.Propagate? {
      forall r | r in s.heap ensures !IsDead(AbortMark(s), r) { assert !IsDead(s, r); }
    }
  }

  function FirstSweep(s: State): State
    requires Inv(s)
  {
    AbortMarkOk(s);
    RunTo(AbortMark(s), Finalize)
  }

  /** `luaC_fullgc`. */
  function FullGc(s: State): (s': State)
    requires Inv(s)
    ensures Inv(s') && s'.phase == Pause
  {
    var s1 := FirstSweep(s);
    MarkRootOk(s1);
    RunTo(MarkRoot(s1), Pause)
  }

  // ---------------------------------------------------------------- sweeping alone

  /** From a sweep phase to its end: live objects stay, and nothing but live
      objects is left. */
  lemma {:induction false} RunSweeps(s: State, p: Phase)
    requires Inv(s) && 1 <= PhaseRank(s.phase) <= 3
    requires (p == Finalize || p == Pause) && PhaseRank(p) <= PhaseRank(s.phase)
    ensures Swept(s, RunTo(s, p)) && AllCurrent(RunTo(s, p))
    decreases PhaseRank(s.phase), Effort(s) + 1
  {
    if s.phase != p {
      StepInv(s);
      StepProgress(s);
      EffortNonNegative(s);
      var s1 := SingleStep(s);
      SweepPhaseStep(s);
      if s1.phase != Pause {
        RunSweeps(s1, p);
        SweptTrans(s, s1, RunTo(s1, p));
      }
    } else {
      SweptRefl(s);
    }
  }

  lemma SweepPhaseStep(s: State)
    requires Inv(s) && 1 <= PhaseRank(s.phase) <= 3
    ensures Swept(s, SingleStep(s))
  {
    match s.phase {
      case SweepString => SweepStringStepOk(s);
      case Sweep => SweepStepOk(s);
      case Finalize => BookkeepingOk(s, SingleStep(s));
    }
  }

  /** Live objects and heap are the same thing once every object is white. */
  lemma AllLive(s: State, r: Ref)
    requires AllCurrent(s) || NoOther(s)
    ensures Live(s, r) <==> r in s.heap
  {
    if r in s.heap { if AllCurrent(s) { assert Current(s, r); } else { assert !IsDead(s, r); } }
  }

  /** When a mark phase is given up, the sweep that follows frees nothing. */
  lemma FirstSweepKeepsAll(s: State)
    requires Inv(s) && (s.phase.Pause? || s.phase.Propagate?)
    ensures FirstSweep(s).heap.Keys == s.heap.Keys
  {
    AbortMarkOk(s);
    var s0 := AbortMark(s);
    RunSweeps(s0, Finalize);
    SweptKeys(s0, FirstSweep(s));
  }

  /** Where nothing can be erased, before and after, the objects are the same. */
  lemma SweptKeys(s: State, s': State)
    requires NoOther(s) && AllCurrent(s') && Swept(s, s')
    ensures s'.heap.Keys == s.heap.Keys
  {
    forall r ensures r in s'.heap <==> r in s.heap {
      AllLive(s, r);
      AllLive(s', r);
    }
  }

  /** Fixed objects are live whatever their colour. */
  lemma FirstSweepReach(s: State)
    requires Inv(s)
    ensures Swept(s, FirstSweep(s)) && AllCurrent(FirstSweep(s)) && Inv(FirstSweep(s))
    ensures forall r :: Reachable(s, r) <==> Reachable(FirstSweep(s), r)
  {
    AbortMarkOk(s);
    RunSweeps(AbortMark(s), Finalize);
    var s1 := FirstSweep(s);
    SweptTrans(s, AbortMark(s), s1);
    forall r ensures Reachable(s, r) <==> Reachable(s1, r) { KeepsReachable(s, s1, r); }
  }

  // ---------------------------------------------------------------- exactness

  /** What a run keeps: reachability, and each reachable object with all it refers to. */
  ghost predicate SameGraph(s: State, s': State) {
    && (forall r :: Reachable(s, r) <==> Reachable(s', r))
    && (forall r :: Reachable(s, r) ==>
          r in s.heap && r in s'.heap && s'.heap[r].kind == s.heap[r].kind
          && Vals(s'.heap, s'.heap[r]) == Vals(s.heap, s.heap[r]))
  }

  lemma KeepsGraph(s: State, s': State)
    requires LiveClosed(s) && KeepsLive(s, s')
    ensures SameGraph(s, s')
  {
    forall r ensures Reachable(s, r) <==> Reachable(s', r) { KeepsReachable(s, s', r); }
    forall r | Reachable(s, r) ensures Live(s, r) { ReachableLive(s, r); }
  }

  ghost predicate KeepsFixed(s: State, s': State) {
    forall r :: r in s.heap && s.heap[r].fixed ==> r in s'.heap && s'.heap[r].fixed
  }

  lemma LiveKeepsFixed(s: State, s': State)
    requires KeepsLive(s, s')
    ensures KeepsFixed(s, s')
  {
    forall r | r in s.heap && s.heap[r].fixed ensures r in s'.heap && s'.heap[r].fixed { assert Live(s, r); }
  }

  lemma {:induction false} RunKeeps(s: State, p: Phase)
    requires Inv(s) && PhaseRank(p) <= PhaseRank(s.phase) && (p == Finalize || p == Pause)
    ensures SameGraph(s, RunTo(s, p)) && KeepsFixed(s, RunTo(s, p))
    decreases PhaseRank(s.phase), Effort(s) + 1
  {
    if s.phase == p {
      forall r | Reachable(s, r) ensures r in s.heap { ReachableLive(s, r); }
    } else {
      SingleStepOk(s);
      StepProgress(s);
      EffortNonNegative(s);
      KeepsGraph(s, SingleStep(s));
      LiveKeepsFixed(s, SingleStep(s));
      RunKeeps(SingleStep(s), p);
    }
  }

  /** A cycle run without interruption marks only what can be reached, so that
      nothing else but fixed objects survives it. */
  lemma {:induction false} CycleOnly(s: State, L: iset<Ref>)
    requires Inv(s) && s.phase.Propagate? && ClosedIn(s.heap, L) && MarkedIn(s.heap, L)
    requires forall r :: IsRoot(s, r) ==> r in L
    ensures forall r :: r in RunTo(s, Pause).heap ==> r in s.heap && (r in L || s.heap[r].fixed)
    decreases Work(s)
  {
    StepInv(s);
    StepProgress(s);
    EffortNonNegative(s);
    if s.gray != [] {
      PropagateOk(s);
      PropagateMarkOnly(s, Waiting(s), L);
      var s1 := PropagateMark(s);
      PropagateMarkRecolors(s);
      forall r | IsRoot(s1, r) ensures r in L { assert IsRoot(s, r); }
      CycleOnly(s1, L);
      forall r | r in s.heap ensures s1.heap[r].fixed
          == s.heap[r].fixed { assert RecoloredObj(s.heap[r], s1.heap[r]); }
    } else {
      CycleEnd(s, L);
    }
  }

  lemma CycleEnd(s: State, L: iset<Ref>)
    requires Inv(s) && s.phase.Propagate? && s.gray == [] && ClosedIn(s.heap, L) && MarkedIn(s.heap, L)
    requires forall r :: IsRoot(s, r) ==> r in L
    ensures Marking(s) && Inv(Atomic(s)) && Atomic(s).phase == SweepString
    ensures forall r :: r in RunTo(Atomic(s), Pause).heap ==> r in s.heap && (r in L || s.heap[r].fixed)
  {
    AtomicOk(s);
    forall v | v in [Gc(s.running)] + s.mt && v.Gc? ensures v.r in L { assert IsRoot(s, v.r); }
    AtomicMarkOnly(s, L);
    RunSweeps(Atomic(s), Pause);
    var s' := RunTo(Atomic(s), Pause);
    forall r | r in s'.heap ensures r in s.heap && (r in L || s.heap[r].fixed) {
      AllLive(s', r);
      assert Live(Atomic(s), r);
      assert AtomicMark(s).heap.Keys == s.heap.Keys;
    }
  }

  lemma RootMarkOnly(s: State, L: iset<Ref>)
    requires Inv(s) && AllCurrent(s) && ClosedIn(s.heap, L) && forall r :: IsRoot(s, r) ==> r in L
    ensures ClosedIn(MarkRoot(s).heap, L) && MarkedIn(MarkRoot(s).heap, L)
    ensures forall r :: r in s.heap ==> MarkRoot(s).heap[r].fixed == s.heap[r].fixed
    ensures MarkRoot(s).heap.Keys == s.heap.Keys
    ensures forall r :: IsRoot(MarkRoot(s), r) ==> IsRoot(s, r)
  {
    var s1 := s.(gray := [], grayagain := []);
    var vs := RootValues(s);
    forall r | r in s.heap ensures s.heap[r].color.White? { assert Current(s, r); }
    forall v | v in vs && v.Gc? ensures v.r in L {
      assert IsRoot(s, s.main);
      if v in s.heap[s.main].slots { assert Edge(s.heap, s.main, v.r); } else { assert IsRoot(s, v.r); }
    }
    MarkValuesOnly(s1, vs, L);
    DarkerClosed(s1, MarkValues(s1, vs), L);
    DarkerRecolored(s1, MarkValues(s1, vs));
    forall r | r in s.heap ensures MarkRoot(s).heap[r].fixed == s.heap[r].fixed {
      assert RecoloredObj(s1.heap[r], MarkValues(s1, vs).heap[r]);
    }
  }

  lemma ExtendPath(s: State, path: seq<Ref>, a: Ref, b: Ref)
    requires IsPath(s, path, a) && Edge(s.heap, a, b)
    ensures IsPath(s, path + [b], b)
  {
    var p := path + [b];
    forall i | 0 <= i < |p| - 1 ensures Edge(s.heap, p[i], p[i + 1]) {
      if i < |path| - 1 {
        assert Edge(s.heap, path[i], path[i + 1]);
      } else {
        assert p[i] == a;
      }
    }
  }

  lemma RootReachable(s: State, r: Ref)
    requires IsRoot(s, r)
    ensures Reachable(s, r)
  {
    assert IsPath(s, [r], r);
  }

  lemma EdgeReachable(s: State, a: Ref, b: Ref)
    requires Reachable(s, a) && Edge(s.heap, a, b)
    ensures Reachable(s, b)
  {
    var path :| IsPath(s, path, a);
    ExtendPath(s, path, a, b);
  }

  /** The reachable objects are closed under references and hold the roots. */
  lemma ReachClosed(s: State, L: iset<Ref>)
    requires L == iset r | Reachable(s, r)
    ensures ClosedIn(s.heap, L) && forall r :: IsRoot(s, r) ==> r in L
  {
    forall r | IsRoot(s, r) ensures r in L { RootReachable(s, r); }
    forall a, b | a in L && Edge(s.heap, a, b) ensures b in L { EdgeReachable(s, a, b); }
  }

  /** From any state of the collector, a full collection leaves exactly the
      objects that were reachable and the fixed ones, changes nobody's
      reachability, and leaves each reachable object as it was. */
  lemma FullGcExact(s: State)
    requires Inv(s)
    ensures forall r :: r in FullGc(s).heap <==> Reachable(s, r) || (r in s.heap && s.heap[r].fixed)
    ensures SameGraph(s, FullGc(s))
    ensures s.phase.Pause? || s.phase.Propagate? ==> FirstSweep(s).heap.Keys == s.heap.Keys
  {
    if s.phase.Pause? || s.phase.Propagate? { FirstSweepKeepsAll(s); }
    FirstSweepReach(s);
    var s1 := FirstSweep(s);
    KeepsGraph(s, s1);
    LiveKeepsFixed(s, s1);
    SecondCycle(s1);
    forall r | r in FullGc(s).heap ensures Reachable(s, r) || (r in s.heap && s.heap[r].fixed) {
      assert r in s1.heap;
      if !Reachable(s, r) {
        assert r in s.heap && Live(s1, r) by { AllLive(s1, r); }
        assert Live(s, r);
      }
    }
  }

  lemma SecondCycle(s: State)
    requires Inv(s) && AllCurrent(s)
    ensures Inv(MarkRoot(s)) && MarkRoot(s).phase == Propagate
    ensures var s' := RunTo(MarkRoot(s), Pause);
      && SameGraph(s, s') && KeepsFixed(s, s')
      && forall r :: r in s'.heap ==> r in s.heap && (Reachable(s, r) || s.heap[r].fixed)
  {
    MarkRootOk(s);
    SecondCycleOnly(s);
    var s2 := MarkRoot(s);
    KeepsGraph(s, s2);
    LiveKeepsFixed(s, s2);
    RunKeeps(s2, Pause);
  }

  lemma SecondCycleOnly(s: State)
    requires Inv(s) && AllCurrent(s) && Inv(MarkRoot(s)) && MarkRoot(s).phase == Propagate
    ensures forall r :: r in RunTo(MarkRoot(s), Pause).heap ==> r in s.heap && (Reachable(s, r) || s.heap[r].fixed)
  {
    var L := iset r | Reachable(s, r);
    ReachClosed(s, L);
    RootMarkOnly(s, L);
    CycleOnly(MarkRoot(s), L);
  }
}
