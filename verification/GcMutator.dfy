/**
  What the running program does to the heap between two steps of the collector:
  writes with their barriers, writes to stacks without any, allocation, string
  interning, capture and closing of variables.
 */
module GcMutator {
  import opened GcModel
  import opened GcMark
  import opened GcCycle
  import opened GcSweep
  import opened GcStep
  import opened GcPhases

  // ---------------------------------------------------------------- barriers

  /** `luaC_barrierf`: while marking, mark the white object that a black one now
      refers to; while sweeping, make the black one white. */
  function BarrierForward(s: State, o: Ref, v: Ref): State
    requires o in s.heap && IsWhite(s.heap, v)
  {
    if s.phase.Propagate? then MarkObject(s, v) else Whiten(s, o)
  }

  /** `luaC_barrierback`: a black table turns gray again, to be revisited atomically. */
  function BarrierBack(s: State, t: Ref): State
    requires t in s.heap
  {
    Paint(s, t, Gray).(grayagain := [t] + s.grayagain)
  }

  function SetSlot(s: State, o: Ref, i: nat, v: Val): State
    requires o in s.heap && i < |s.heap[o].slots|
  {
    s.(heap := s.heap[o := s.heap[o].(slots := s.heap[o].slots[i := v])])
  }

  /** A store followed by its barrier (`luaC_barriert` for tables, `luaC_barrier` otherwise). */
  function WriteSlot(s: State, o: Ref, i: nat, v: Val): State
    requires o in s.heap && i < |s.heap[o].slots|
  {
    var s1 := SetSlot(s, o, i, v);
    if v.Gc? && IsWhite(s.heap, v.r) && s.heap[o].color.Black? then
      if s.heap[o].kind.KTable? then BarrierBack(s1, o) else BarrierForward(s1, o, v.r)
    else s1
  }

  predicate LiveVal(s: State, v: Val) {
    v.Gc? ==> Live(s, v.r)
  }

  // ---------------------------------------------------------------- plain stores

  /** `s'` differs from `s` in the slots of objects only. */
  ghost predicate SameButSlots(s: State, s': State) {
    && s' == s.(heap := s'.heap)
    && s'.heap.Keys == s.heap.Keys
    && forall r :: r in s.heap ==>
        s'.heap[r] == s.heap[r].(slots := s'.heap[r].slots) && |s'.heap[r].slots| == |s.heap[r].slots|
  }

  lemma SetSlotStruct(s: State, o: Ref, i: nat, v: Val)
    requires Struct(s) && o in s.heap && i < |s.heap[o].slots|
    ensures Struct(SetSlot(s, o, i, v)) && SameButSlots(s, SetSlot(s, o, i, v))
  {
    var s' := SetSlot(s, o, i, v);
    SlotLists(s, o, i, v);
    assert s'.heap[o] == s.heap[o].(slots := s'.heap[o].slots);
  }

  /** The lists do not mind. */
  lemma SlotLists(s: State, o: Ref, i: nat, v: Val)
    requires Struct(s) && o in s.heap && i < |s.heap[o].slots|
    ensures var s' := SetSlot(s, o, i, v);
      && (forall b :: 0 <= b < |s'.strt| ==> BucketOk(s', b)) && (forall q :: q in s'.heap ==> Listed(s', q))
  {
    var s' := SetSlot(s, o, i, v);
    forall b | 0 <= b < |s.strt| ensures BucketOk(s', b) { assert BucketOk(s, b); }
    forall q | q in s'.heap ensures Listed(s', q) { assert Listed(s, q); }
  }

  /** A store adds at most one reference to what an object refers to. */
  lemma SetSlotVals(s: State, o: Ref, i: nat, v: Val, q: Ref, w: Val)
    requires o in s.heap && i < |s.heap[o].slots| && q in s.heap
    requires w in Vals(SetSlot(s, o, i, v).heap, SetSlot(s, o, i, v).heap[q])
    ensures w == v || w in Vals(s.heap, s.heap[q])
    ensures q != o && !OpenOn(s.heap[q], o) ==> w in Vals(s.heap, s.heap[q])
  {
  }

  lemma SetSlotLive(s: State, o: Ref, i: nat, v: Val)
    requires LiveClosed(s) && o in s.heap && i < |s.heap[o].slots| && LiveVal(s, v)
    ensures LiveClosed(SetSlot(s, o, i, v))
    ensures forall r :: Live(SetSlot(s, o, i, v), r) <==> Live(s, r)
  {
    var s' := SetSlot(s, o, i, v);
    forall r ensures Live(s', r) <==> Live(s, r) {}
    forall a, b | Live(s', a) && Edge(s'.heap, a, b) ensures Live(s', b) {
      SetSlotVals(s, o, i, v, a, Gc(b));
      assert Live(s, a);
      if Gc(b) in Vals(s.heap, s.heap[a]) { assert Edge(s.heap, a, b); }
    }
    forall q | IsRoot(s', q) ensures Live(s', q) { assert IsRoot(s, q); }
  }

  lemma SetSlotBase(s: State, o: Ref, i: nat, v: Val)
    requires SweepBase(s) && o in s.heap && i < |s.heap[o].slots| && LiveVal(s, v)
    ensures SweepBase(SetSlot(s, o, i, v))
  {
    SetSlotStruct(s, o, i, v);
    SetSlotLive(s, o, i, v);
  }

  /** Outside the mark phase a store never endangers the phase invariant. */
  lemma SlotsPhase(s: State, s': State)
    requires PhaseInv(s) && !s.phase.Propagate? && SweepBase(s') && SameButSlots(s, s')
    ensures PhaseInv(s')
  {
    forall r ensures Current(s, r) <==> Current(s', r) {}
    if s.phase.Sweep? {
      forall k | 0 <= k < s'.sweepgc ensures SweptAt(s', s'.rootgc[k]) { assert SweptAt(s, s.rootgc[k]); }
    } else if s.phase.Pause? || s.phase.Finalize? {
      forall r | r in s'.heap ensures Current(s', r) { assert Current(s, r); }
    }
  }

  /** While marking, a store may break the promise of the object stored into and
      of the upvalues open on it. */
  lemma SetSlotMark(s: State, X: set<Ref>, o: Ref, i: nat, v: Val)
    requires MarkInv(s, X) && o in s.heap && i < |s.heap[o].slots|
    requires forall q :: q in s.heap && OpenOn(s.heap[q], o) ==> q in X
    ensures MarkInv(SetSlot(s, o, i, v), X + {o})
  {
    var s' := SetSlot(s, o, i, v);
    forall q | q in s'.heap && !s'.heap[q].color.White?
      ensures ColorOk(s', X + {o}, q) && (q in s'.gray || q in X + {o} || Done(s', q))
    {
      assert ColorOk(s, X, q);
      if q != o && q !in s.gray && q !in X {
        assert Done(s, q);
        forall w | w in Vals(s'.heap, s'.heap[q]) && w.Gc? ensures !IsWhite(s'.heap, w.r) {
          SetSlotVals(s, o, i, v, q, w);
        }
      }
    }
  }

  /** The exception is not needed when the object is white, waits in a gray
      list, or the value stored is not white. */
  lemma SetSlotHarmless(s: State, X: set<Ref>, o: Ref, i: nat, v: Val)
    requires MarkInv(s, X) && o in s.heap && i < |s.heap[o].slots|
    requires forall q :: q in s.heap && OpenOn(s.heap[q], o) ==> q in X
    requires s.heap[o].color.White? || o in s.gray || o in X || (s.heap[o].color.Black? && MarkedVal(s.heap, v))
    ensures MarkInv(SetSlot(s, o, i, v), X)
  {
    SetSlotMark(s, X, o, i, v);
    var s' := SetSlot(s, o, i, v);
    if o in X {
      assert X + {o} == X;
    } else if s.heap[o].color.White? || o in s.gray {
      forall q | q in s'.heap && !s'.heap[q].color.White? ensures ColorOk(s', X, q) {
        assert ColorOk(s, X, q);
      }
    } else {
      assert Done(s, o);
      forall w | w in Vals(s'.heap, s'.heap[o]) && w.Gc? ensures !IsWhite(s'.heap, w.r) {
        SetSlotVals(s, o, i, v, o, w);
      }
      DropException(s', X, o);
    }
  }

  lemma OpensWait(s: State)
    requires Struct(s)
    ensures forall q :: q in s.heap && s.heap[q].home.Stack? ==> q in Waiting(s)
  {
    forall q | q in s.heap && s.heap[q].home.Stack? ensures q in Waiting(s) { assert Listed(s, q); }
  }

  // ---------------------------------------------------------------- stores to stacks

  /** A store to a stack slot needs no barrier: a marked thread always waits. */
  lemma StackWriteOk(s: State, t: Ref, i: nat, v: Val)
    requires Inv(s) && t in s.heap && s.heap[t].kind.KThread? && i < |s.heap[t].slots| && LiveVal(s, v)
    ensures Inv(SetSlot(s, t, i, v))
  {
    SetSlotBase(s, t, i, v);
    SetSlotStruct(s, t, i, v);
    var s' := SetSlot(s, t, i, v);
    if s.phase.Propagate? {
      OpensWait(s);
      if !s.heap[t].color.White? { assert ColorOk(s, Waiting(s), t); }
      SetSlotHarmless(s, Waiting(s), t, i, v);
      forall r | r in s'.heap ensures !IsDead(s', r) { assert !IsDead(s, r); }
    } else {
      SlotsPhase(s, s');
    }
  }

  // ---------------------------------------------------------------- stores to other objects

  /** Repainting a live object without giving it the other white. */
  lemma PaintBase(s: State, r: Ref, c: Color)
    requires SweepBase(s) && Live(s, r) && c != White(!s.white) && (c.Black? ==> !NeverBlack(s.heap[r]))
    ensures SweepBase(Paint(s, r, c))
    ensures forall q :: Live(Paint(s, r, c), q) <==> Live(s, q)
  {
    WhitenStruct(s, r, c);
    var s' := Paint(s, r, c);
    forall q ensures Live(s', q) <==> Live(s, q) {}
    forall q | q in s'.heap ensures Vals(s'.heap, s'.heap[q]) == Vals(s.heap, s.heap[q]) {}
    forall a, b | Live(s', a) && Edge(s'.heap, a, b) ensures Live(s', b) { assert Live(s, a) && Edge(s.heap, a, b); }
    forall q | IsRoot(s', q) ensures Live(s', q) { assert IsRoot(s, q); }
  }

  /** In the sweep phases an object that is not yet white may be repainted. */
  lemma PaintPhase(s: State, r: Ref, c: Color)
    requires PhaseInv(s) && (s.phase.SweepString? || s.phase.Sweep?) && r in s.heap && SweepBase(Paint(s, r, c))
    requires c == White(s.white) || (!s.heap[r].kind.KString? && !Current(s, r))
    ensures PhaseInv(Paint(s, r, c))
  {
    var s' := Paint(s, r, c);
    forall q ensures Current(s, q) ==> Current(s', q) {}
    if s.phase.Sweep? {
      forall k | 0 <= k < s'.sweepgc ensures SweptAt(s', s'.rootgc[k]) { assert SweptAt(s, s.rootgc[k]); }
    }
  }

  lemma BookkeepingPhase(s: State, s': State)
    requires PhaseInv(s) && SweepBase(s') && !s.phase.Propagate?
        && s' == s.(gray := s'.gray, grayagain := s'.grayagain)
    ensures PhaseInv(s')
  {
    forall r ensures Current(s, r) <==> Current(s', r) {}
    if s.phase.Sweep? {
      forall k | 0 <= k < s'.sweepgc ensures SweptAt(s', s'.rootgc[k]) { assert SweptAt(s, s.rootgc[k]); }
    } else if s.phase.Pause? || s.phase.Finalize? {
      forall r | r in s'.heap ensures Current(s', r) { assert Current(s, r); }
    }
  }

  /** A black object exists only while something is to be marked or swept. */
  lemma BlackPhase(s: State, o: Ref)
    requires Inv(s) && o in s.heap && s.heap[o].color.Black?
    ensures !s.phase.Pause? && !s.phase.Finalize? && !Current(s, o)
  {
    assert !Current(s, o);
  }

  /** The barriers outside the mark phase. */
  lemma SweepBarrierOk(s: State, o: Ref, c: Color, again: seq<Ref>)
    requires Inv(s) && !s.phase.Propagate? && Live(s, o) && s.heap[o].color.Black?
    requires c == White(s.white) || c == Gray
    ensures Inv(Paint(s, o, c).(grayagain := again))
  {
    BlackPhase(s, o);
    PaintBase(s, o, c);
    assert !NeverBlack(s.heap[o]);
    PaintPhase(s, o, c);
    var s1 := Paint(s, o, c);
    BookkeepingOk(s1, s1.(grayagain := again));
    BookkeepingPhase(s1, s1.(grayagain := again));
  }

  /** Inv in the mark phase, from its parts. */
  lemma MarkPhaseInv(s: State, s': State, X: set<Ref>)
    requires Inv(s) && s.phase.Propagate? && s'.phase.Propagate?
    requires SweepBase(s') && NoOther(s') && MarkInv(s', X) && X <= Waiting(s')
    requires s'.main == s.main && s'.registry == s.registry
    requires forall r :: r in s'.heap && IsWhite(s'.heap, r) && r in s.heap ==> IsWhite(s.heap, r)
    requires forall r :: r in s.heap ==> r in s'.heap
    ensures Inv(s')
  {
    MarkInvWider(s', X, Waiting(s'));
    assert IsRoot(s, s.main);
    if s.registry.Gc? { assert IsRoot(s, s.registry.r); }
  }

  /** Marking the one white value of a black object restores the invariant. */
  lemma ForwardMark(s: State, X: set<Ref>, o: Ref, v: Ref)
    requires SweepBase(s) && NoOther(s) && MarkInv(s, X + {o}) && o in s.heap && s.heap[o].color.Black?
    requires IsWhite(s.heap, v)
    requires forall w :: w in Vals(s.heap, s.heap[o]) && w.Gc? ==> w.r == v || !IsWhite(s.heap, w.r)
    ensures MarkInv(MarkObject(s, v), X) && SweepBase(MarkObject(s, v)) && NoOther(MarkObject(s, v))
    ensures Recolored(s, MarkObject(s, v)) && MarkObject(s, v).grayagain == s.grayagain
  {
    var s2 := MarkObject(s, v);
    MarkObjectInv(s, X + {o}, v);
    DarkerRecolored(s, s2);
    RecoloredStruct(s, s2);
    RecoloredLive(s, s2);
    DarkerVals(s, s2, o);
    forall w | w in Vals(s2.heap, s2.heap[o]) && w.Gc? ensures !IsWhite(s2.heap, w.r) {
      if w.r != v { RecoloredKeepsMark(s, s2, w.r); }
    }
    assert Darkened(s.heap[o], s2.heap[o]);
    DropException(s2, X, o);
    MarkInvNoBadBlack(s2, X);
  }

  lemma RecoloredWhites(s: State, s': State)
    requires Recolored(s, s')
    ensures forall r :: IsWhite(s'.heap, r) ==> IsWhite(s.heap, r)
  {
    forall r | IsWhite(s'.heap, r) ensures IsWhite(s.heap, r) { assert RecoloredObj(s.heap[r], s'.heap[r]); }
  }

  /** The forward barrier in the mark phase. */
  lemma MarkBarrierForward(s: State, s1: State, o: Ref, v: Val)
    requires Inv(s) && s.phase.Propagate? && o in s.heap && s.heap[o].color.Black?
    requires SweepBase(s1) && SameButSlots(s, s1) && NoOther(s1) && MarkInv(s1, Waiting(s) + {o})
    requires v.Gc? && IsWhite(s1.heap, v.r)
    requires forall w :: w in Vals(s1.heap, s1.heap[o]) && w.Gc? ==> w == v || !IsWhite(s1.heap, w.r)
    ensures Inv(MarkObject(s1, v.r))
  {
    ForwardMark(s1, Waiting(s), o, v.r);
    RecoloredWhites(s1, MarkObject(s1, v.r));
    MarkPhaseInv(s, MarkObject(s1, v.r), Waiting(s));
  }

  lemma BarrierBackMark(s: State, X: set<Ref>, o: Ref)
    requires MarkInv(s, X + {o}) && o in s.heap && s.heap[o].color.Black? && s.heap[o].kind.KTable?
    ensures MarkInv(BarrierBack(s, o), X + {o}) == true
  {
    var s' := BarrierBack(s, o);
    assert o !in s.gray && o !in s.grayagain;
    forall q | q in s.heap ensures Vals(s'.heap, s'.heap[q]) == Vals(s.heap, s.heap[q]) {}
    forall q | q in s'.heap && !s'.heap[q].color.White?
      ensures ColorOk(s', X + {o}, q) && (q in s'.gray || q in X + {o} || Done(s', q))
    {
      assert ColorOk(s, X + {o}, q);
      if q != o && q !in s.gray && q !in X { assert Done(s, q); }
    }
  }

  /** The back barrier in the mark phase. */
  lemma MarkBarrierBack(s: State, s1: State, o: Ref)
    requires Inv(s) && s.phase.Propagate? && o in s.heap && s.heap[o].color.Black? && s.heap[o].kind.KTable?
    requires SweepBase(s1) && SameButSlots(s, s1) && NoOther(s1) && MarkInv(s1, Waiting(s) + {o})
    requires Live(s1, o)
    ensures Inv(BarrierBack(s1, o))
  {
    BarrierBackBase(s1, o);
    BarrierBackMark(s1, Waiting(s), o);
    var s2 := BarrierBack(s1, o);
    BarrierBackWhite(s, s1, o);
    MarkPhaseInv(s, s2, Waiting(s) + {o});
  }

  lemma BarrierBackWhite(s: State, s1: State, o: Ref)
    requires SameButSlots(s, s1) && o in s1.heap
    ensures forall r :: r in BarrierBack(s1, o).heap && IsWhite(BarrierBack(s1, o).heap, r) ==> IsWhite(s.heap, r)
  {
    var s2 := BarrierBack(s1, o);
    forall r | r in s2.heap && IsWhite(s2.heap, r) ensures IsWhite(s.heap, r) { assert IsWhite(s1.heap, r); }
  }

  lemma BarrierBackBase(s: State, o: Ref)
    requires SweepBase(s) && NoOther(s) && Live(s, o)
    ensures SweepBase(BarrierBack(s, o)) == true && NoOther(BarrierBack(s, o)) == true
  {
    var s2 := BarrierBack(s, o);
    PaintBase(s, o, Gray);
    BookkeepingOk(Paint(s, o, Gray), s2);
    forall r | r in s2.heap ensures !IsDead(s2, r) { assert !IsDead(s, r); }
  }

  /** A store with its barrier keeps the invariant in every phase. */
  lemma WriteSlotOk(s: State, o: Ref, i: nat, v: Val)
    requires Inv(s) && Live(s, o) && i < |s.heap[o].slots| && LiveVal(s, v)
    requires s.heap[o].home.Nowhere? && !s.heap[o].kind.KThread? && !s.heap[o].kind.KString?
    ensures Inv(WriteSlot(s, o, i, v))
  {
    var s1 := SetSlot(s, o, i, v);
    SetSlotBase(s, o, i, v);
    SetSlotStruct(s, o, i, v);
    if s.phase.Propagate? {
      WriteMarking(s, o, i, v);
    } else {
      SlotsPhase(s, s1);
      if v.Gc? && IsWhite(s.heap, v.r) && s.heap[o].color.Black? {
        SetSlotLive(s, o, i, v);
        var c := if s.heap[o].kind.KTable? then Gray else White(s.white);
        SweepBarrierOk(s1, o, c, if s.heap[o].kind.KTable? then [o] + s.grayagain else s.grayagain);
      }
    }
  }

  lemma WriteMarking(s: State, o: Ref, i: nat, v: Val)
    requires Inv(s) && s.phase.Propagate? && Live(s, o) && i < |s.heap[o].slots| && LiveVal(s, v)
    requires s.heap[o].home.Nowhere? && !s.heap[o].kind.KThread? && !s.heap[o].kind.KString?
    ensures Inv(WriteSlot(s, o, i, v))
  {
    var s1 := SetSlot(s, o, i, v);
    SetSlotBase(s, o, i, v);
    SetSlotStruct(s, o, i, v);
    NotOpenOn(s, o);
    forall r | r in s1.heap ensures !IsDead(s1, r) { assert !IsDead(s, r); }
    if v.Gc? && IsWhite(s.heap, v.r) && s.heap[o].color.Black? {
      SetSlotMark(s, Waiting(s), o, i, v);
      SetSlotLive(s, o, i, v);
      if s.heap[o].kind.KTable? {
        MarkBarrierBack(s, s1, o);
      } else {
        BlackDone(s, o);
        forall w | w in Vals(s1.heap, s1.heap[o]) && w.Gc? ensures w == v || !IsWhite(s1.heap, w.r) {
          SetSlotVals(s, o, i, v, o, w);
        }
        MarkBarrierForward(s, s1, o, v);
      }
    } else {
      if s.heap[o].color.Gray? { assert ColorOk(s, Waiting(s), o); }
      SetSlotHarmless(s, Waiting(s), o, i, v);
    }
  }

  /** While marking, a black object refers to no white one. */
  lemma BlackDone(s: State, o: Ref)
    requires Inv(s) && s.phase.Propagate? && o in s.heap && s.heap[o].color.Black?
    ensures Done(s, o)
  {
    assert ColorOk(s, Waiting(s), o);
    assert o !in s.uvhead;
  }
}
