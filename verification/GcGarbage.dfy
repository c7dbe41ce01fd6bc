/**
  Garbage goes: what the program cannot reach, and does not come upon again, is
  gone when a cycle begun afterwards is over, whatever the program does meanwhile.
 */
module GcGarbage {
  import opened GcModel
  import opened GcMark
  import opened GcCycle
  import opened GcSweep
  import opened GcStep
  import opened GcPhases
  import opened GcMutator
  import opened GcAlloc
  import opened GcFull
  import opened GcRuns
  import opened GcReach
  import opened GcContents

  /** The operation creates the object or comes upon it by other means than a reference. */
  function Named(op: Op): set<Ref> {
    match op
    case NewObject(r, _, _, _) => {r}
    case NewString(r, _, _) => {r}
    case FoundString(r, _) => {r}
    case NewUpval(r, _, _, _) => {r}
    case FoundUpval(u, _, _) => {u}
    case _ => {}
  }

  ghost function With(K: iset<Ref>, N: set<Ref>): iset<Ref> {
    iset r | r in K || r in N
  }

  /** The set holds the roots and whatever its members refer to. */
  ghost predicate Within(s: State, K: iset<Ref>) {
    (forall r :: IsRoot(s, r) ==> r in K) && ClosedIn(s.heap, K)
  }

  lemma UsableWithin(s: State, K: iset<Ref>, v: Val)
    requires Within(s, K) && Usable(s, v)
    ensures v.Gc? ==> v.r in K
  {
    if v.Gc? { ReachWithin(s, v.r, K); }
  }

  // ---------------------------------------------------------------- closed sets stay closed

  lemma SlotWithin(t: State, o: Ref, i: nat, v: Val, K: iset<Ref>)
    requires Within(t, K) && o in t.heap && i < |t.heap[o].slots| && (v.Gc? ==> v.r in K)
    ensures Within(SetSlot(t, o, i, v), K) == true
  {
    var s' := SetSlot(t, o, i, v);
    forall a, b | a in K && Edge(s'.heap, a, b) ensures b in K { SlotEdge(t, o, i, v, a, b); }
    forall r | IsRoot(s', r) ensures r in K { assert IsRoot(t, r); }
  }

  lemma RefsWithin(t: State, s': State, K: iset<Ref>)
    requires Within(t, K) && SameRefs(t, s')
    ensures Within(s', K) == true
  {
    forall r | IsRoot(s', r) ensures r in K { assert IsRoot(t, r); }
  }

  lemma DarkerRefs(s: State, s': State)
    requires Darker(s, s')
    ensures SameRefs(s, s') == true
  {
    forall a, b | Edge(s'.heap, a, b) ensures Edge(s.heap, a, b) { DarkerVals(s, s', a); }
  }

  lemma WriteWithin(s: State, o: Ref, i: nat, v: Val, K: iset<Ref>)
    requires Within(s, K) && o in s.heap && i < |s.heap[o].slots| && (v.Gc? ==> v.r in K)
    ensures Within(WriteSlot(s, o, i, v), K) == true
  {
    var s1, s' := SetSlot(s, o, i, v), WriteSlot(s, o, i, v);
    SlotWithin(s, o, i, v, K);
    if s' != s1 {
      WhitenRefs(s1, o);
      BackRefs(s1, o);
      if s' != Whiten(s1, o) && s' != BarrierBack(s1, o) { DarkerRefs(s1, s'); }
      RefsWithin(s1, s', K);
    }
  }

  /** A new object that refers to members only. */
  lemma AddedWithin(s: State, t: State, r: Ref, vs: seq<Val>, K: iset<Ref>)
    requires Struct(s) == true && Within(s, K) && r !in s.heap
    requires t.main == s.main && t.running == s.running && t.registry == s.registry && t.mt == s.mt
    requires r in t.heap && t.heap == s.heap[r := t.heap[r]] && Vals(t.heap, t.heap[r]) == vs
    requires forall v :: v in vs && v.Gc? ==> v.r in K
    ensures Within(t, With(K, {r})) == true
  {
    forall a, b | a in With(K, {r}) && Edge(t.heap, a, b) ensures b in K {
      if a == r { assert Gc(b) in vs; } else { AddedEdge(s, t, r, a, b); }
    }
    forall q | IsRoot(t, q) ensures q in K { assert IsRoot(s, q); }
  }

  lemma AddedEdge(s: State, t: State, r: Ref, a: Ref, b: Ref)
    requires Struct(s) && r !in s.heap && r in t.heap && t.heap == s.heap[r := t.heap[r]]
    requires a != r && Edge(t.heap, a, b)
    ensures Edge(s.heap, a, b)
  {
    assert Listed(s, a);
  }

  /** An object found again refers to members only. */
  lemma FoundWithin(s: State, r: Ref, K: iset<Ref>)
    requires Within(s, K) && r in s.heap && forall v :: v in Vals(s.heap, s.heap[r]) && v.Gc? ==> v.r in K
    ensures Within(Resurrect(s, r), With(K, {r})) == true
  {
    var t := Resurrect(s, r);
    WhitenRefs(s, r);
    forall a, b | a in With(K, {r}) && Edge(t.heap, a, b) ensures b in K {
      assert Edge(s.heap, a, b);
      if a == r { assert Gc(b) in Vals(s.heap, s.heap[r]); }
    }
    forall q | IsRoot(t, q) ensures q in K { assert IsRoot(s, q); }
  }

  lemma ClosedRefs(s: State, u: Ref)
    requires Struct(s) && u in s.heap && s.heap[u].home.Stack?
    ensures SameRefs(s, CloseUpval(s, u)) == true
  {
    var s' := CloseUpval(s, u);
    ClosedKeeps(s, u);
    forall a, b | Edge(s'.heap, a, b) ensures Edge(s.heap, a, b) { ClosedEdge(s, s', u, a, b); }
  }

  lemma ClosedEdge(s: State, s': State, u: Ref, a: Ref, b: Ref)
    requires Struct(s) && s.heap.Keys >= s'.heap.Keys && Closed(s, s', u) && Edge(s'.heap, a, b)
    requires s.heap[u].home.Stack?
    ensures Edge(s.heap, a, b)
  {
    assert Listed(s, a) && Listed(s, u);
    if a != u { assert SameBody(s.heap[a], s'.heap[a]); }
    if a != u && s.heap[a].home.Stack? {
      var t := s.heap[a].home.thread;
      assert t != u;
      assert SameBody(s.heap[t], s'.heap[t]);
    }
  }

  lemma RunningWithin(s: State, i: nat, K: iset<Ref>)
    requires Within(s, K) && s.running in s.heap && i < |s.heap[s.running].slots| && s.heap[s.running].home.Nowhere?
    ensures var v := s.heap[s.running].slots[i]; v.Gc? ==> v.r in K
  {
    RunningReach(s, i);
    UsableWithin(s, K, s.heap[s.running].slots[i]);
  }

  lemma StringWithin(s: State, r: Ref, dest: nat, K: iset<Ref>)
    requires Inv(s) == true && Within(s, K) && r in s.heap && s.heap[r].kind.KString? && RunningSlot(s, dest)
    ensures Within(SetSlot(Resurrect(s, r), s.running, dest, Gc(r)), With(K, {r})) == true
  {
    assert Inv(s);
    assert s.heap[r].slots == [] && s.heap[r].home.Nowhere?;
    FoundWithin(s, r, K);
    SlotWithin(Resurrect(s, r), s.running, dest, Gc(r), With(K, {r}));
  }

  lemma OpenWithin(s: State, u: Ref, K: iset<Ref>)
    requires Within(s, K) && u in s.heap && OpenOn(s.heap[u], s.running)
    requires s.running in s.heap && s.heap[s.running].home.Nowhere?
    ensures forall v :: v in Vals(s.heap, s.heap[u]) && v.Gc? ==> v.r in K
  {
    if s.heap[u].home.slot < |s.heap[s.running].slots| { RunningWithin(s, s.heap[u].home.slot, K); }
  }

  lemma RootsWithin(s: State, s': State, K: iset<Ref>)
    requires Within(s, K) && s' == s.(mt := s'.mt, running := s'.running) && s'.running in K
    requires forall v :: v in s'.mt && v.Gc? ==> v in s.mt || v.r in K
    ensures Within(s', K) == true
  {
    forall q | IsRoot(s', q) ensures q in K {
      if Gc(q) in s'.mt && Gc(q) in s.mt { assert IsRoot(s, q); }
      if Gc(q) !in s'.mt && q != s'.running { assert IsRoot(s, q); }
    }
  }

  predicate Mutator(op: Op) {
    !op.Step? && !op.Collect?
  }

  /** Whatever the program does, a closed set stays closed, with what is named added to it. */
  lemma ApplyWithin(s: State, op: Op, K: iset<Ref>)
    requires Inv(s) && Enabled(s, op) && Mutator(op) && Within(s, K)
    ensures Within(Apply(s, op), With(K, Named(op))) == true
  {
    assert Listed(s, s.running);
    assert IsRoot(s, s.running);
    assert With(K, {}) == K;
    match op {
      case Write(o, i, v) => UsableWithin(s, K, v); WriteWithin(s, o, i, v, K);
      case StackWrite(t, i, v) => UsableWithin(s, K, v); SlotWithin(s, t, i, v, K);
      case NewObject(r, kind, slots, dest) =>
        forall v | v in slots && v.Gc? ensures v.r in K { UsableWithin(s, K, v); }
        AddedWithin(s, AddObject(s, r, kind, slots), r, slots, K);
        SlotWithin(AddObject(s, r, kind, slots), s.running, dest, Gc(r), With(K, {r}));
      case NewString(r, hash, dest) =>
        AddedWithin(s, AddString(s, r, hash), r, [], K);
        SlotWithin(AddString(s, r, hash), s.running, dest, Gc(r), With(K, {r}));
      case FoundString(r, dest) => StringWithin(s, r, dest, K);
      case NewUpval(r, i, f, j) =>
        RunningWithin(s, i, K);
        AddedWithin(s, AddOpen(s, r, s.running, i), r, [s.heap[s.running].slots[i]], K);
        SlotWithin(AddOpen(s, r, s.running, i), f, j, Gc(r), With(K, {r}));
      case FoundUpval(u, f, j) =>
        OpenWithin(s, u, K);
        FoundWithin(s, u, K);
        SlotWithin(Resurrect(s, u), f, j, Gc(u), With(K, {u}));
      case Close(u) =>
        ClosedRefs(s, u);
        RefsWithin(s, CloseUpval(s, u), K);
      case SetMetatable(i, v) =>
        UsableWithin(s, K, v);
        RootsWithin(s, Apply(s, op), K);
      case Resume(t) =>
        UsableWithin(s, K, Gc(t));
        RootsWithin(s, Apply(s, op), K);
    }
  }

  /** What cannot be reached stays out of reach, unless the operation names it. */
  lemma StaysLost(s: State, op: Op, r: Ref)
    requires Inv(s) && Enabled(s, op) && !Reachable(s, r) && r !in Named(op)
    ensures !Reachable(Apply(s, op), r)
  {
    if op.Step? {
      SingleStepOk(s);
    } else if op.Collect? {
      FullGcExact(s);
    } else {
      var K := iset q | Reachable(s, q);
      ReachClosed(s, K);
      ApplyWithin(s, op, K);
      if Reachable(Apply(s, op), r) { ReachWithin(Apply(s, op), r, With(K, Named(op))); }
    }
  }

  // ---------------------------------------------------------------- marking stays inside

  lemma SlotMarks(s: State, o: Ref, i: nat, v: Val, K: iset<Ref>)
    requires MarkedIn(s.heap, K) && o in s.heap && i < |s.heap[o].slots|
    ensures MarkedIn(SetSlot(s, o, i, v).heap, K) == true
  {
  }

  lemma WriteMarks(s: State, o: Ref, i: nat, v: Val, K: iset<Ref>)
    requires Shape(s) == true && s.phase.Propagate? && MarkedIn(s.heap, K) && Within(s, K)
    requires o in s.heap && i < |s.heap[o].slots| && s.heap[o].home.Nowhere? && !s.heap[o].kind.KString?
    requires v.Gc? ==> v.r in K
    ensures MarkedIn(WriteSlot(s, o, i, v).heap, K) == true
  {
    var s1 := SetSlot(s, o, i, v);
    SlotMarks(s, o, i, v, K);
    if v.Gc? && IsWhite(s.heap, v.r) && s.heap[o].color.Black? {
      if !s.heap[o].kind.KTable? {
        SlotWithin(s, o, i, v, K);
        assert Shape(s) && Shape(s1);
        MarkObjectOnly(s1, v.r, K);
      }
    }
  }

  /** An upvalue that closes while marked refers to a member, which alone is marked. */
  lemma CloseMarks(s: State, u: Ref, K: iset<Ref>)
    requires Struct(s) == true && s.phase.Propagate? && MarkedIn(s.heap, K) && Within(s, K)
    requires u in s.heap && s.heap[u].home.Stack?
    ensures MarkedIn(CloseUpval(s, u).heap, K) == true
  {
    if !IsDead(s, u) && s.heap[u].color.Gray? {
      var s2 := Paint(Detach(s, u), u, Black);
      var vs := Vals(s.heap, s.heap[u]);
      assert u in K;
      if vs != [] && vs[0].Gc? && IsWhite(s2.heap, vs[0].r) {
        assert Edge(s.heap, u, vs[0].r);
        ClosedPlain(s, u);
        ClosedShape(s, s2, u);
        ClosedIns(s, s2, u, K);
        MarkObjectOnly(s2, vs[0].r, K);
      }
    }
  }

  lemma ClosedShape(s: State, s': State, u: Ref)
    requires Struct(s) && Closed(s, s', u) && u in s'.heap && s.heap[u].home.Stack?
    ensures Shape(s')
  {
    assert Listed(s, u);
    forall q | q in s'.heap && q != u ensures SameBody(s.heap[q], s'.heap[q]) {}
  }

  lemma ClosedIns(s: State, s': State, u: Ref, K: iset<Ref>)
    requires Struct(s) && s.heap.Keys >= s'.heap.Keys && Closed(s, s', u) && s.heap[u].home.Stack?
    requires ClosedIn(s.heap, K)
    ensures ClosedIn(s'.heap, K)
  {
    forall a, b | a in K && Edge(s'.heap, a, b) ensures b in K { ClosedEdge(s, s', u, a, b); }
  }

  lemma NewMarks(s: State, t: State, r: Ref, o: Ref, i: nat, K: iset<Ref>)
    requires MarkedIn(s.heap, K) && r in t.heap && t.heap == s.heap[r := t.heap[r]]
    requires o in t.heap && i < |t.heap[o].slots|
    ensures MarkedIn(SetSlot(t, o, i, Gc(r)).heap, With(K, {r})) == true
  {
  }

  /** During the mark phase, whatever the program does, only members and what is named are marked. */
  lemma ApplyMarks(s: State, op: Op, K: iset<Ref>)
    requires Inv(s) && Enabled(s, op) && Mutator(op) && Within(s, K) && s.phase.Propagate? && MarkedIn(s.heap, K)
    ensures MarkedIn(Apply(s, op).heap, With(K, Named(op))) == true
  {
    assert With(K, {}) == K;
    match op {
      case Write(o, i, v) => UsableWithin(s, K, v); WriteMarks(s, o, i, v, K);
      case StackWrite(t, i, v) => SlotMarks(s, t, i, v, K);
      case NewObject(r, kind, slots, dest) => NewMarks(s, AddObject(s, r, kind, slots), r, s.running, dest, K);
      case NewString(r, hash, dest) => NewMarks(s, AddString(s, r, hash), r, s.running, dest, K);
      case FoundString(r, dest) => NewMarks(s, Resurrect(s, r), r, s.running, dest, K);
      case NewUpval(r, i, f, j) => NewMarks(s, AddOpen(s, r, s.running, i), r, f, j, K);
      case FoundUpval(u, f, j) => NewMarks(s, Resurrect(s, u), u, f, j, K);
      case Close(u) => CloseMarks(s, u, K);
      case SetMetatable(i, v) =>
      case Resume(t) =>
    }
  }

  // ---------------------------------------------------------------- the way of a lost object

  /** A closed set without the object holds the roots and all that is marked. */
  ghost predicate Outside(s: State, K: iset<Ref>, r: Ref) {
    Within(s, K) && MarkedIn(s.heap, K) && r !in K
  }

  ghost predicate Unmarkable(s: State, r: Ref) {
    exists K: iset<Ref> :: Outside(s, K, r)
  }

  /** On its way out: not to be marked any more, then about to be erased, then gone. */
  ghost predicate Doomed(s: State, r: Ref) {
    r in s.heap ==>
      && !Reachable(s, r) && !s.heap[r].fixed
      && match s.phase {
           case Pause => false
           case Propagate => Unmarkable(s, r)
           case SweepString => Erasable(s, r)
           case Sweep => Erasable(s, r)
           case Finalize => false
         }
  }

  /** The step that begins a cycle. */
  lemma StartDooms(s: State, r: Ref)
    requires Inv(s) && s.phase.Pause? && !Reachable(s, r) && (r in s.heap ==> !s.heap[r].fixed)
    ensures Doomed(SingleStep(s), r) == true
  {
    var K := iset q | Reachable(s, q);
    var s' := SingleStep(s);
    ReachClosed(s, K);
    MarkRootOk(s);
    RootMarkOnly(s, K);
    StartOutside(s, s', K, r);
    StaysLost(s, Step, r);
  }

  lemma StartOutside(s: State, s': State, K: iset<Ref>, r: Ref)
    requires (forall q :: IsRoot(s, q) ==> q in K) && (forall q :: IsRoot(s', q) ==> IsRoot(s, q))
    requires ClosedIn(s'.heap, K) && MarkedIn(s'.heap, K) && r !in K
    ensures Unmarkable(s', r) == true
  {
    assert Outside(s', K, r);
  }

  lemma PropagateDooms(s: State, r: Ref)
    requires Inv(s) && s.phase.Propagate? && s.gray != [] && Doomed(s, r)
    ensures Doomed(SingleStep(s), r) == true
  {
    var s' := SingleStep(s);
    SingleStepOk(s);
    PropagateOk(s);
    PropagateMarkRecolors(s);
    if r in s'.heap {
      var K :| Outside(s, K, r);
      PropagateMarkOnly(s, Waiting(s), K);
      assert RecoloredObj(s.heap[r], s'.heap[r]);
      assert Outside(s', K, r) by { forall q | IsRoot(s', q) ensures q in K { assert IsRoot(s, q); } }
    }
  }

  lemma AtomicLeavesWhite(s: State, K: iset<Ref>, r: Ref)
    requires Inv(s) && s.phase.Propagate? && s.gray == [] && Outside(s, K, r) && r in s.heap
    ensures Marking(s) && r in AtomicMark(s).heap && AtomicMark(s).heap[r].color.White?
  {
    AtomicOk(s);
    forall v | v in [Gc(s.running)] + s.mt && v.Gc? ensures v.r in K { assert IsRoot(s, v.r); }
    AtomicMarkOnly(s, K);
  }

  lemma AtomicDooms(s: State, r: Ref)
    requires Inv(s) && s.phase.Propagate? && s.gray == [] && Doomed(s, r)
    ensures Doomed(SingleStep(s), r) == true
  {
    SingleStepOk(s);
    AtomicOk(s);
    if r in s.heap {
      var K :| Outside(s, K, r);
      AtomicLeavesWhite(s, K, r);
      assert !Live(SingleStep(s), r);
    }
  }

  lemma SweepDooms(s: State, r: Ref)
    requires Inv(s) && (Sweeping(s.phase) || s.phase.Finalize?) && Doomed(s, r)
    ensures Doomed(SingleStep(s), r) == true
  {
    var s' := SingleStep(s);
    SingleStepOk(s);
    SweepPhaseStep(s);
    StepProgress(s);
    if r in s'.heap {
      assert !Live(s, r) && !Live(s', r);
      if s'.phase.Finalize? || s'.phase.Pause? { AllLive(s', r); }
    }
  }

  lemma StepDooms(s: State, r: Ref)
    requires Inv(s) && Doomed(s, r) && !Reachable(s, r) && (r in s.heap ==> !s.heap[r].fixed)
    ensures Doomed(SingleStep(s), r) == true
  {
    if s.phase.Pause? {
      StartDooms(s, r);
    } else if s.phase.Propagate? {
      if s.gray != [] { PropagateDooms(s, r); } else { AtomicDooms(s, r); }
    } else {
      SweepDooms(s, r);
    }
  }

  // ---------------------------------------------------------------- while the program runs

  /** What the operations do to an object that they do not name and that cannot be reached. */
  ghost predicate LeftAlone(s: State, s': State, r: Ref) {
    && s'.white == s.white && s'.phase == s.phase
    && (r in s'.heap ==> r in s.heap && s'.heap[r].fixed == s.heap[r].fixed)
    && (r in s'.heap && !s.phase.Propagate? && IsDead(s, r) ==> IsDead(s', r))
  }

  lemma WriteAlone(s: State, o: Ref, i: nat, v: Val, r: Ref)
    requires o in s.heap && i < |s.heap[o].slots| && r != o
    ensures LeftAlone(s, WriteSlot(s, o, i, v), r) == true
  {
    WriteHolds(s, o, i, v);
    WritePhase(s, o, i, v);
  }

  lemma SlotAlone(s: State, t: State, o: Ref, i: nat, v: Val, r: Ref)
    requires LeftAlone(s, t, r) && o in t.heap && i < |t.heap[o].slots|
    ensures LeftAlone(s, SetSlot(t, o, i, v), r) == true
  {
  }

  lemma CloseAlone(s: State, u: Ref, r: Ref)
    requires u in s.heap && s.heap[u].home.Stack?
    ensures LeftAlone(s, CloseUpval(s, u), r) == true
  {
    ClosedKeeps(s, u);
    ClosePhase(s, u);
  }

  lemma ApplyAlone(s: State, op: Op, r: Ref)
    requires Inv(s) && Enabled(s, op) && Mutator(op) && !Reachable(s, r) && r !in Named(op)
    ensures LeftAlone(s, Apply(s, op), r) == true
  {
    match op {
      case Write(o, i, v) => WriteAlone(s, o, i, v, r);
      case StackWrite(t, i, v) => SlotAlone(s, s, t, i, v, r);
      case NewObject(q, kind, slots, dest) => SlotAlone(s, AddObject(s, q, kind, slots), s.running, dest, Gc(q), r);
      case NewString(q, hash, dest) => SlotAlone(s, AddString(s, q, hash), s.running, dest, Gc(q), r);
      case FoundString(q, dest) => SlotAlone(s, Resurrect(s, q), s.running, dest, Gc(q), r);
      case NewUpval(q, i, f, j) => SlotAlone(s, AddOpen(s, q, s.running, i), f, j, Gc(q), r);
      case FoundUpval(u, f, j) => SlotAlone(s, Resurrect(s, u), f, j, Gc(u), r);
      case Close(u) => CloseAlone(s, u, r);
      case SetMetatable(i, v) =>
      case Resume(t) =>
    }
  }

  lemma ApplyOutsideKept(s: State, op: Op, r: Ref)
    requires Inv(s) && Enabled(s, op) && Mutator(op) && s.phase.Propagate? && r !in Named(op) && Unmarkable(s, r)
    ensures Unmarkable(Apply(s, op), r)
  {
    var K: iset<Ref> :| Outside(s, K, r);
    ApplyWithin(s, op, K);
    ApplyMarks(s, op, K);
    assert Outside(Apply(s, op), With(K, Named(op)), r);
  }

  lemma ApplyDooms(s: State, op: Op, r: Ref)
    requires Inv(s) && Enabled(s, op) && Mutator(op) && r !in Named(op) && Doomed(s, r) && !Reachable(s, r)
    ensures Doomed(Apply(s, op), r) == true
  {
    ApplyAlone(s, op, r);
    StaysLost(s, op, r);
    if r in s.heap && s.phase.Propagate? { ApplyOutsideKept(s, op, r); }
  }

  lemma CollectDooms(s: State, r: Ref)
    requires Inv(s) && !Reachable(s, r) && (r in s.heap ==> !s.heap[r].fixed)
    ensures r !in FullGc(s).heap
  {
    FullGcExact(s);
  }

  /** Out of reach, and nothing that survives by being fixed. */
  ghost predicate Lost(s: State, r: Ref) {
    !Reachable(s, r) && (r in s.heap ==> !s.heap[r].fixed)
  }

  lemma StepLost(s: State, r: Ref)
    requires Inv(s) && Lost(s, r)
    ensures Lost(SingleStep(s), r)
  {
    SingleStepOk(s);
    if r in SingleStep(s).heap { StepFixed(s, r); }
  }

  /** A step fixes nothing. */
  lemma StepFixed(s: State, r: Ref)
    requires Inv(s) && r in SingleStep(s).heap && r in s.heap && !s.heap[r].fixed
    ensures !SingleStep(s).heap[r].fixed
  {
    match s.phase {
      case Pause => MarkRootOk(s);
      case Propagate => if s.gray != [] { PropagateOk(s); } else { AtomicOk(s); }
      case SweepString => SweepStringStepOk(s);
      case Sweep => SweepStepOk(s);
      case Finalize =>
    }
  }

  /** An operation that does not name a lost object leaves it lost. */
  lemma NextLost(s: State, op: Op, r: Ref)
    requires Inv(s) && Enabled(s, op) && Lost(s, r) && r !in Named(op)
    ensures Lost(Apply(s, op), r) == true
    ensures Doomed(s, r) || (s.phase.Pause? && op.Step?) ==> Doomed(Apply(s, op), r) == true
  {
    StaysLost(s, op, r);
    if op.Collect? {
      CollectDooms(s, r);
    } else if op.Step? {
      StepLost(s, r);
      if s.phase.Pause? { StartDooms(s, r); } else if Doomed(s, r) { StepDooms(s, r); }
    } else {
      ApplyAlone(s, op, r);
      if Doomed(s, r) { ApplyDooms(s, op, r); }
    }
  }

  lemma {:induction false} StillLost(states: seq<State>, ops: seq<Op>, m: nat, n: nat, r: Ref)
    requires IsRun(states, ops) && m <= n < |states| && Inv(states[m]) == true && Lost(states[m], r)
    requires forall i :: m <= i < n ==> r !in Named(ops[i])
    ensures Inv(states[n]) == true && Lost(states[n], r)
    decreases n - m
  {
    if m < n {
      RunInv(states, ops, n);
      var k := n - 1;
      StillLost(states, ops, m, k, r);
      assert Enabled(states[k], ops[k]) && states[k + 1] == Apply(states[k], ops[k]);
      NextLost(states[k], ops[k], r);
    }
  }

  lemma {:induction false} StillDoomed(states: seq<State>, ops: seq<Op>, m: nat, n: nat, r: Ref)
    requires IsRun(states, ops) && m <= n < |states| && Inv(states[m]) == true && Lost(states[m], r)
    requires Doomed(states[m], r) == true && forall i :: m <= i < n ==> r !in Named(ops[i])
    ensures Inv(states[n]) == true && Lost(states[n], r) && Doomed(states[n], r) == true
    decreases n - m
  {
    if m < n {
      var k := n - 1;
      StillDoomed(states, ops, m, k, r);
      StillLost(states, ops, m, n, r);
      assert Enabled(states[k], ops[k]) && states[k + 1] == Apply(states[k], ops[k]);
      NextLost(states[k], ops[k], r);
    }
  }

  /** Completeness over whole runs.  An object that cannot be reached and is not fixed,
      and that no operation names, is out of the heap at every pause that comes after a
      step from a pause, whatever operations and steps lie between. */
  lemma GarbageGone(states: seq<State>, ops: seq<Op>, n: nat, a: nat, c: nat, r: Ref)
    requires IsRun(states, ops) && n <= a < c < |states|
    requires Lost(states[n], r) && forall i :: n <= i < c ==> r !in Named(ops[i])
    requires states[a].phase.Pause? && ops[a].Step? && states[c].phase.Pause?
    ensures r !in states[c].heap && !Reachable(states[c], r)
  {
    RunInv(states, ops, n);
    StillLost(states, ops, n, a, r);
    assert Enabled(states[a], ops[a]) && states[a + 1] == Apply(states[a], ops[a]);
    NextLost(states[a], ops[a], r);
    RunInv(states, ops, a + 1);
    StillDoomed(states, ops, a + 1, c, r);
  }
}
