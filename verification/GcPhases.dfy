/**
  The invariant of each phase, `singlestep`, and what one step does to the
  objects the program can reach.
 */
module GcPhases {
  import opened Common
  import opened GcModel
  import opened GcMark
  import opened GcCycle
  import opened GcSweep
  import opened GcStep

  // ---------------------------------------------------------------- strings

  function SweepStrings(s: State, b: nat, l: seq<Ref>): State
    requires b < |s.strt| && Distinct(l) && forall r :: r in l ==> r in s.heap
    decreases |l|
  {
    if l == [] then s else
      assert l[0] in l;
      assert forall r :: r in l[1..] ==> r in l && r != l[0];
      SweepStrings(SweepStringOne(s, b, l[0]), b, l[1..])
  }

  lemma SweepStringTail(s: State, b: nat, l: seq<Ref>)
    requires b < |s.strt| && l != [] && Distinct(l) && forall r :: r in l ==> r in s.heap && r in s.strt[b]
    ensures var s1 := SweepStringOne(s, b, l[0]);
      |s1.strt| == |s.strt| && Distinct(l[1..]) && forall r :: r in l[1..] ==> r in s1.heap && r in s1.strt[b]
  {
    forall r | r in l[1..] ensures r in l && r != l[0] {}
  }

  lemma {:induction false} SweepStringsOk(s: State, b: nat, l: seq<Ref>)
    requires SweepBase(s) && b < |s.strt| && Distinct(l) && forall r :: r in l ==> r in s.heap && r in s.strt[b]
    ensures SweepBase(SweepStrings(s, b, l)) && Swept(s, SweepStrings(s, b, l))
    decreases |l|
  {
    if l != [] {
      assert l[0] in l;
      SweepStringTail(s, b, l);
      SweepStringOneOk(s, b, l[0]);
      var s1 := SweepStringOne(s, b, l[0]);
      SweepStringsOk(s1, b, l[1..]);
      SweptTrans(s, s1, SweepStrings(s1, b, l[1..]));
    }
  }

  /** Only the listed strings are touched; those that stay are white. */
  ghost predicate StringsSwept(s: State, l: seq<Ref>, s': State) {
    && s' == s.(heap := s'.heap, strt := s'.strt)
    && |s'.strt| == |s.strt|
    && (forall r :: r in s.heap && r !in l ==> r in s'.heap && s'.heap[r] == s.heap[r])
    && (forall r :: r in s'.heap ==> r in s.heap && s'.heap[r] == s.heap[r].(color := s'.heap[r].color))
    && (forall r :: r in l && r in s'.heap ==> Current(s', r))
  }

  lemma SweepStringFrame(s: State, b: nat, r: Ref)
    requires b < |s.strt| && r in s.heap
    ensures StringsSwept(s, [r], SweepStringOne(s, b, r)) == true
  {
  }

  lemma StringsSweptMore(s: State, r: Ref, l: seq<Ref>, s1: State, s2: State)
    requires StringsSwept(s, [r], s1) && StringsSwept(s1, l, s2) && r !in l
    ensures StringsSwept(s, [r] + l, s2) == true
  {
  }

  lemma {:induction false} SweepStringsFrame(s: State, b: nat, l: seq<Ref>)
    requires b < |s.strt| && Distinct(l) && forall r :: r in l ==> r in s.heap
    ensures StringsSwept(s, l, SweepStrings(s, b, l))
    decreases |l|
  {
    if l != [] {
      var s1 := SweepStringOne(s, b, l[0]);
      assert l[0] in l && l == [l[0]] + l[1..];
      SweepStringFrame(s, b, l[0]);
      forall r | r in l[1..] ensures r in s1.heap && r != l[0] { assert r in l; }
      SweepStringsFrame(s1, b, l[1..]);
      StringsSweptMore(s, l[0], l[1..], s1, SweepStrings(s1, b, l[1..]));
    }
  }

  ghost predicate StringInv(s: State) {
    && SweepBase(s)
    && forall r :: r in s.heap && s.heap[r].kind.KString? && s.heap[r].hash % |s.strt| < s.sweepstrgc ==>
        Current(s, r)
  }

  /** Sweeps one bucket of the string table (state GCSsweepstring). */
  function SweepBucket(s: State): State
    requires SweepBase(s) && s.sweepstrgc < |s.strt|
  {
    assert BucketOk(s, s.sweepstrgc);
    var s1 := SweepStrings(s, s.sweepstrgc, s.strt[s.sweepstrgc]);
    s1.(sweepstrgc := s.sweepstrgc + 1)
  }

  lemma SweepBucketOk(s: State)
    requires StringInv(s) && s.sweepstrgc < |s.strt|
    ensures StringInv(SweepBucket(s)) && Swept(s, SweepBucket(s))
    ensures |SweepBucket(s).strt| == |s.strt| && SweepBucket(s).sweepstrgc == s.sweepstrgc + 1
    ensures SweepBucket(s).sweepgc == s.sweepgc && SweepBucket(s).phase == s.phase
  {
    var b := s.sweepstrgc;
    assert BucketOk(s, b);
    SweepStringsOk(s, b, s.strt[b]);
    SweepStringsFrame(s, b, s.strt[b]);
    var s1 := SweepStrings(s, b, s.strt[b]);
    BookkeepingOk(s1, SweepBucket(s));
    SweptTrans(s, s1, SweepBucket(s));
    var s' := SweepBucket(s);
    forall r | r in s'.heap && s'.heap[r].kind.KString? && s'.heap[r].hash % |s'.strt| < b + 1
        ensures Current(s', r) {
      assert Listed(s, r);
      if r !in s.strt[b] { assert s'.heap[r] == s.heap[r]; }
    }
  }

  // ---------------------------------------------------------------- chunks

  /** Sweeps at most `count` objects of `rootgc`. */
  function SweepChunk(s: State, count: nat): (s': State)
    requires SweepInv(s)
    ensures SweepInv(s') && Swept(s, s') && Left(s') <= Left(s) && s'.phase == s.phase
    ensures NoneDied(s, s') == true
    ensures count > 0 && s.sweepgc < |s.rootgc| ==> Left(s') < Left(s)
    decreases count
  {
    if count == 0 || s.sweepgc >= |s.rootgc| then SweptRefl(s); s else
      SweepRootOneOk(s);
      RootNoneDied(s);
      var s' := SweepChunk(SweepRootOne(s), count - 1);
      SweptTrans(s, SweepRootOne(s), s');
      NoneDiedTrans(s, SweepRootOne(s), s');
      s'
  }

  lemma SweptRefl(s: State)
    ensures Swept(s, s) && NoneDied(s, s) == true
  {
  }

  // ---------------------------------------------------------------- the invariant

  ghost predicate AllCurrent(s: State) {
    forall r :: r in s.heap ==> Current(s, r)
  }

  ghost predicate NoOther(s: State) {
    forall r :: r in s.heap ==> !IsDead(s, r)
  }

  function Waiting(s: State): set<Ref> {
    Elems(s.grayagain) + Elems(s.uvhead)
  }

  predicate MarkedVal(h: Heap, v: Val) {
    v.Gc? ==> !IsWhite(h, v.r)
  }

  /** What each phase adds to the common invariant. */
  ghost predicate PhaseInv(s: State) {
    match s.phase
    case Pause => AllCurrent(s)
    case Propagate => NoOther(s) && MarkInv(s, Waiting(s)) && !IsWhite(s.heap, s.main)
        && MarkedVal(s.heap, s.registry)
    case SweepString => StringInv(s) && s.sweepstrgc < |s.strt| && s.sweepgc == 0
    case Sweep => SweepInv(s)
    case Finalize => AllCurrent(s)
  }

  ghost predicate Inv(s: State) {
    SweepBase(s) && PhaseInv(s)
  }

  // ---------------------------------------------------------------- marking steps

  /** Marking, when no object carries the other white, keeps the structure. */
  lemma RecoloredStruct(s: State, s': State)
    requires Struct(s) && Recolored(s, s')
    ensures Struct(s')
  {
    forall r | r in s.heap ensures s'.heap[r] == s.heap[r].(color := s'.heap[r].color) {
      assert RecoloredObj(s.heap[r], s'.heap[r]);
    }
    forall b | 0 <= b < |s.strt| ensures BucketOk(s', b) { assert BucketOk(s, b); }
    forall q | q in s'.heap ensures Listed(s', q) { assert Listed(s, q); }
  }

  lemma RecoloredVals(s: State, s': State, r: Ref)
    requires Recolored(s, s') && r in s.heap
    ensures Vals(s'.heap, s'.heap[r]) == Vals(s.heap, s.heap[r])
  {
    assert RecoloredObj(s.heap[r], s'.heap[r]);
    var o := s.heap[r];
    if o.home.Stack? && o.home.thread in s.heap {
      assert RecoloredObj(s.heap[o.home.thread], s'.heap[o.home.thread]);
    }
  }

  lemma RecoloredLive(s: State, s': State)
    requires LiveClosed(s) && NoOther(s) && Recolored(s, s')
    ensures LiveClosed(s') && NoOther(s') && Swept(s, s')
  {
    forall r | r in s.heap ensures !IsDead(s', r) && Vals(s'.heap, s'.heap[r]) == Vals(s.heap, s.heap[r])
        && s'.heap[r].kind == s.heap[r].kind && s'.heap[r].fixed == s.heap[r].fixed {
      assert RecoloredObj(s.heap[r], s'.heap[r]);
      RecoloredVals(s, s', r);
    }
    forall r ensures Live(s, r) <==> r in s.heap {}
    forall r ensures Live(s', r) <==> r in s.heap {}
    forall a, b | Live(s', a) && Edge(s'.heap, a, b) ensures Live(s', b) { assert Live(s, a) && Edge(s.heap, a, b); }
    forall q | IsRoot(s', q) ensures Live(s', q) { assert IsRoot(s, q); }
  }

  lemma MarkInvNoBadBlack(s: State, X: set<Ref>)
    requires MarkInv(s, X)
    ensures NoBadBlack(s)
  {
    forall r | r in s.heap && s.heap[r].color.Black? ensures !NeverBlack(s.heap[r]) {
      assert ColorOk(s, X, r);
    }
  }

  lemma MarkInvMarking(s: State, X: set<Ref>)
    requires MarkInv(s, X) && Shape(s)
    ensures Marking(s)
  {
    forall r | r in s.heap && !s.heap[r].color.White? ensures ColorOk(s, s.heap.Keys, r) {
      assert ColorOk(s, X, r);
    }
  }

  // ---------------------------------------------------------------- one phase at a time

  lemma AllCurrentNoOther(s: State)
    requires AllCurrent(s)
    ensures NoOther(s)
  {
    forall r | r in s.heap ensures !IsDead(s, r) { assert Current(s, r); }
  }

  /** Starting a cycle marks nothing but the roots (state GCSpause). */
  lemma MarkRootOk(s: State)
    requires SweepBase(s) && AllCurrent(s)
    ensures Inv(MarkRoot(s)) && Swept(s, MarkRoot(s)) && MarkRoot(s).phase == Propagate
  {
    var s1 := s.(gray := [], grayagain := []);
    BookkeepingOk(s, s1);
    AllCurrentNoOther(s);
    assert forall r :: r in s1.heap ==> Current(s, r);
    assert MarkInv(s1, {});
    var vs := RootValues(s);
    MarkValuesInv(s1, {}, vs);
    var s2 := MarkValues(s1, vs);
    DarkerRecolored(s1, s2);
    RecoloredStruct(s1, s2);
    RecoloredLive(s1, s2);
    MarkInvNoBadBlack(s2, {});
    assert Gc(s.main) in vs && s.registry in vs;
    var s3 := s2.(phase := Propagate);
    BookkeepingOk(s2, s3);
    SweptTrans(s, s1, s2);
    SweptTrans(s, s2, s3);
    PhaseMark(s2, s3, {});
  }

  /** Setting the phase does not disturb the marking invariant. */
  lemma PhaseMark(s: State, s': State, X: set<Ref>)
    requires MarkInv(s, X) && NoOther(s) && s' == s.(phase := s'.phase) && X <= Waiting(s)
    ensures MarkInv(s', Waiting(s')) && NoOther(s')
  {
    forall r | r in s'.heap && !s'.heap[r].color.White?
      ensures ColorOk(s', Waiting(s'), r) && (r in s'.gray || r in Waiting(s') || Done(s', r))
    {
      assert ColorOk(s, X, r);
      if r !in s.gray && r !in X { assert Done(s, r); }
    }
  }

  lemma MarkInvWider(s: State, X: set<Ref>, Y: set<Ref>)
    requires MarkInv(s, X) && X <= Y
    ensures MarkInv(s, Y)
  {
    forall r | r in s.heap && !s.heap[r].color.White? ensures ColorOk(s, Y, r) {
      assert ColorOk(s, X, r);
    }
  }

  /** One gray object traversed (state GCSpropagate). */
  lemma PropagateOk(s: State)
    requires Inv(s) && s.phase == Propagate && s.gray != []
    ensures s.gray[0] in s.heap && !s.heap[s.gray[0]].color.White?
    ensures Inv(PropagateMark(s)) && Swept(s, PropagateMark(s)) && PropagateMark(s).phase == Propagate
  {
    assert s.gray[0] in s.gray;
    PropagateMarkInv(s, Waiting(s));
    PropagateMarkRecolors(s);
    var s' := PropagateMark(s);
    RecoloredStruct(s, s');
    RecoloredLive(s, s');
    MarkInvNoBadBlack(s', Waiting(s));
    MarkInvWider(s', Waiting(s), Waiting(s'));
    RecoloredKeepsMark(s, s', s.main);
    if s.registry.Gc? { RecoloredKeepsMark(s, s', s.registry.r); }
  }

  /** When marking is complete and the white flips, what stays live is what was marked. */
  lemma FlipLive(s: State, s': State)
    requires Struct(s) && LiveClosed(s) && NoOther(s) && MarkInv(s, {}) && s.gray == []
    requires forall r :: IsRoot(s, r) ==> !IsWhite(s.heap, r)
    requires s' == s.(white := !s.white, sweepstrgc := 0, sweepgc := 0, phase := SweepString)
    ensures LiveClosed(s') && KeepsLive(s, s')
    ensures forall r :: Live(s', r) <==> r in s.heap && (!s.heap[r].color.White? || s.heap[r].fixed)
  {
    forall r ensures Live(s', r) <==> r in s.heap && (!s.heap[r].color.White? || s.heap[r].fixed) {
      if r in s.heap { assert !IsDead(s, r); }
    }
    forall a, b | Live(s', a) && Edge(s'.heap, a, b) ensures Live(s', b) {
      assert Live(s, a);
      assert Edge(s.heap, a, b);
      assert Live(s, b);
      if !s.heap[a].color.White? {
        assert Done(s, a);
      } else {
        assert s.heap[a].kind.KString? || a == s.main;
        assert IsRoot(s, s.main);
      }
    }
    forall q | IsRoot(s', q) ensures Live(s', q) { assert IsRoot(s, q); assert Live(s, q); }
  }

  lemma FlipStruct(s: State, s': State)
    requires Struct(s) && s' == s.(white := s'.white, sweepstrgc := 0, sweepgc := 0, phase := SweepString)
    ensures Struct(s')
  {
    forall b | 0 <= b < |s.strt| ensures BucketOk(s', b) { assert BucketOk(s, b); }
    forall q | q in s'.heap ensures Listed(s', q) { assert Listed(s, q); }
  }

  /** The atomic step: afterwards the live objects are those marked or fixed. */
  lemma AtomicOk(s: State)
    requires Inv(s) && s.phase == Propagate && s.gray == []
    ensures Marking(s)
    ensures Inv(Atomic(s)) && KeepsLive(s, Atomic(s)) && Atomic(s).phase == SweepString
    ensures Atomic(s).heap.Keys == s.heap.Keys
    ensures forall r :: Live(Atomic(s), r) <==>
      r in s.heap && (!AtomicMark(s).heap[r].color.White? || s.heap[r].fixed)
  {
    MarkInvMarking(s, Waiting(s));
    AtomicMarkDone(s);
    var s1 := AtomicMark(s);
    RecoloredStruct(s, s1);
    RecoloredLive(s, s1);
    MarkInvNoBadBlack(s1, {});
    RootsStayMarked(s, s1);
    FlipLive(s1, Atomic(s));
    FlipStruct(s1, Atomic(s));
    forall r | r in s.heap ensures s1.heap[r].fixed == s.heap[r].fixed { assert RecoloredObj(s.heap[r], s1.heap[r]); }
    forall r | Live(s, r)
      ensures r in Atomic(s).heap && Atomic(s).heap[r].kind == s.heap[r].kind
          && Atomic(s).heap[r].fixed == s.heap[r].fixed
              && Vals(Atomic(s).heap, Atomic(s).heap[r]) == Vals(s.heap, s.heap[r])
    {
      assert Live(s1, r);
    }
  }

  lemma RootsStayMarked(s: State, s1: State)
    requires Recolored(s, s1) && !IsWhite(s.heap, s.main) && MarkedVal(s.heap, s.registry)
    requires forall v :: v in [Gc(s.running)] + s.mt && v.Gc? ==> !IsWhite(s1.heap, v.r)
    ensures forall r :: IsRoot(s1, r) ==> !IsWhite(s1.heap, r)
  {
    RecoloredKeepsMark(s, s1, s.main);
    if s.registry.Gc? { RecoloredKeepsMark(s, s1, s.registry.r); }
    forall r | IsRoot(s1, r) ensures !IsWhite(s1.heap, r) {
      if r == s.running || Gc(r) in s.mt { assert Gc(r) in [Gc(s.running)] + s.mt; }
    }
  }

  /** At the end of the sweep every object carries the current white. */
  lemma SweepDone(s: State)
    requires SweepInv(s) && s.sweepgc >= |s.rootgc|
    ensures AllCurrent(s)
  {
    forall r | r in s.heap ensures Current(s, r) {
      assert Listed(s, r);
      if s.heap[r].kind.KString? {
      } else if s.heap[r].home.Stack? {
        var t := s.heap[r].home.thread;
        assert Listed(s, t);
        var k :| 0 <= k < |s.rootgc| && s.rootgc[k] == t;
        assert SweptAt(s, s.rootgc[k]);
      } else {
        var k :| 0 <= k < |s.rootgc| && s.rootgc[k] == r;
        assert SweptAt(s, s.rootgc[k]);
      }
    }
  }

  /** The unit of incremental work (`singlestep`). */
  function SingleStep(s: State): State
    requires Inv(s)
  {
    match s.phase
    case Pause => MarkRoot(s)
    case Propagate =>
      if s.gray != [] then PropagateOk(s); PropagateMark(s)
      else AtomicOk(s); Atomic(s)
    case SweepString =>
      var s1 := SweepBucket(s);
      if s1.sweepstrgc >= |s1.strt| then s1.(phase := Sweep) else s1
    case Sweep =>
      var s1 := SweepChunk(s, GCSWEEPMAX);
      if s1.sweepgc >= |s1.rootgc| then s1.(phase := Finalize) else s1
    case Finalize => s.(phase := Pause)
  }

  lemma SweepStringStepOk(s: State)
    requires Inv(s) && s.phase == SweepString
    ensures Inv(SingleStep(s)) && Swept(s, SingleStep(s))
  {
    SweepBucketOk(s);
    var s1 := SweepBucket(s);
    if s1.sweepstrgc >= |s1.strt| {
      var s2 := s1.(phase := Sweep);
      BookkeepingOk(s1, s2);
      SweptTrans(s, s1, s2);
      forall r | r in s2.heap && s2.heap[r].kind.KString? ensures Current(s2, r) {
        assert s1.heap[r].hash % |s1.strt| < |s1.strt|;
        assert Current(s1, r);
      }
    }
  }

  lemma FinishSweep(s: State)
    requires SweepBase(s) && AllCurrent(s)
    ensures Inv(s.(phase := Finalize)) && Swept(s, s.(phase := Finalize))
  {
    var s' := s.(phase := Finalize);
    BookkeepingOk(s, s');
    forall r | r in s'.heap ensures Current(s', r) { assert Current(s, r); }
  }

  lemma SweepStepOk(s: State)
    requires Inv(s) && s.phase == Sweep
    ensures Inv(SingleStep(s)) && Swept(s, SingleStep(s))
  {
    var s1 := SweepChunk(s, GCSWEEPMAX);
    if s1.sweepgc >= |s1.rootgc| {
      SweepDone(s1);
      FinishSweep(s1);
      SweptTrans(s, s1, s1.(phase := Finalize));
    }
  }

  /** Every step of the collector keeps the invariant, removes from the heap
      only objects the program cannot reach, and changes nobody's reachability
      and nothing that a live object refers to. */
  lemma SingleStepOk(s: State)
    requires Inv(s)
    ensures Inv(SingleStep(s)) && KeepsLive(s, SingleStep(s))
    ensures forall r :: r in SingleStep(s).heap ==> r in s.heap
    ensures forall r :: Reachable(s, r) <==> Reachable(SingleStep(s), r)
    ensures forall r :: Reachable(s, r) ==> r in SingleStep(s).heap
  {
    var s' := SingleStep(s);
    match s.phase {
      case Pause => MarkRootOk(s);
      case Propagate => if s.gray != [] { PropagateOk(s); } else { AtomicOk(s); }
      case SweepString => SweepStringStepOk(s);
      case Sweep => SweepStepOk(s);
      case Finalize =>
        BookkeepingOk(s, s');
        forall r | r in s'.heap ensures Current(s', r) { assert Current(s, r); }
    }
    forall r ensures Reachable(s, r) <==> Reachable(s', r) { KeepsReachable(s, s', r); }
    forall r | Reachable(s, r) ensures r in s'.heap { ReachableLive(s, r); }
  }
}
