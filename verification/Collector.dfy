/**
  The collector as the program keeps it: one global state updated in place.
  Each method is proved to do to the state what the model's function says.
 */
module Collector {
  import opened Common
  import opened GcModel
  import opened GcMark
  import opened GcCycle
  import opened GcSweep
  import opened GcStep
  import opened GcPhases
  import opened GcMutator
  import opened GcAlloc
  import opened GcFull
  import opened GcContents
  import opened GcSteps

  /** One element of the fold at a time. */
  lemma MarkValuesStep(s: State, vs: seq<Val>, i: nat)
    requires i < |vs|
    ensures MarkValues(s, vs[i..]) == MarkValues(MarkValue(s, vs[i]), vs[i + 1..])
    ensures |Whites(MarkValue(s, vs[i]).heap)| <= |Whites(s.heap)|
  {
    assert vs[i..][0] == vs[i] && vs[i..][1..] == vs[i + 1..];
  }

  lemma ChunkStep(s: State, n: nat)
    requires SweepInv(s) && s.sweepgc < |s.rootgc| && n > 0
    ensures SweepBase(s) && SweepInv(SweepRootOne(s)) && Rest(s, n) == Rest(SweepRootOne(s), n - 1)
  {
    SweepRootOneOk(s);
  }

  lemma SameRest(s: State, m: nat, n: nat)
    requires m == n
    ensures Rest(s, m) == Rest(s, n)
  {
  }

  /** Where a chunk of `n` turns will end. */
  ghost function Rest(s: State, n: nat): State {
    if SweepInv(s) then SweepChunk(s, n) else s
  }

  lemma ChunkEnd(s: State, n: nat)
    requires SweepInv(s) && (n == 0 || s.sweepgc >= |s.rootgc|)
    ensures Rest(s, n) == s
  {
  }

  /** The erasure in the order the code performs it: first off the list, then
      freed, its upvalues closing on the way. */
  lemma EraseInOrder(s: State)
    requires Struct(s) == true && s.sweepgc < |s.rootgc|
    ensures var s1 := DetachList(s.(rootgc := s.rootgc[..s.sweepgc] + s.rootgc[s.sweepgc + 1..]), Tenants(s));
      EraseRoot(s) == s1.(heap := s1.heap - {s.rootgc[s.sweepgc]})
  {
    var l := s.rootgc[..s.sweepgc] + s.rootgc[s.sweepgc + 1..];
    var us := Tenants(s);
    DetachElsewhere(s, us, l);
    ErasedList(s, us, l);
    ErasedIs(s, DetachList(s, us), us, l);
  }

  lemma ErasedList(s: State, us: seq<Ref>, l: seq<Ref>)
    requires Struct(s) && s.sweepgc < |s.rootgc| && us == Tenants(s)
    requires l == s.rootgc[..s.sweepgc] + s.rootgc[s.sweepgc + 1..]
    ensures EraseRoot(s).rootgc == Reversed(us) + l
  {
    EraseRootList(s);
    Assoc(Reversed(us), s.rootgc[..s.sweepgc], s.rootgc[s.sweepgc + 1..]);
  }

  /** The object leaves the list and the heap; the cursor is where it was. */
  lemma ErasedIs(s: State, d: State, us: seq<Ref>, l: seq<Ref>)
    requires Struct(s) == true && s.sweepgc < |s.rootgc| && us == Tenants(s) && d == DetachList(s, us)
    requires EraseRoot(s).rootgc == Reversed(us) + l
    ensures EraseRoot(s) == d.(heap := d.heap - {s.rootgc[s.sweepgc]}, rootgc := Reversed(us) + l,
                               sweepgc := if s.sweepgc == 0 then 0 else s.sweepgc + |us|)
  {
  }

  /** Distinct objects, all allocated. */
  ghost predicate Present(h: Heap, l: seq<Ref>) {
    Distinct(l) && forall r :: r in l ==> r in h
  }

  lemma StringListStep(s: State, b: nat, l: seq<Ref>, i: nat)
    requires b < |s.strt| && i < |l| && Present(s.heap, l[i..])
    ensures l[i] in s.heap && Present(SweepStringOne(s, b, l[i]).heap, l[i + 1..])
    ensures SweepStrings(s, b, l[i..]) == SweepStrings(SweepStringOne(s, b, l[i]), b, l[i + 1..])
  {
    var m := l[i..];
    assert m[0] == l[i] && m[1..] == l[i + 1..];
    assert m[0] in m && forall r :: r in m[1..] ==> r in m && r != m[0];
  }

  lemma UpvalListStep(s: State, us: seq<Ref>, i: nat)
    requires i < |us| && Present(s.heap, us[i..])
    ensures us[i] in s.heap && Present(SweepOpenOne(s, us[i]).heap, us[i + 1..])
    ensures SweepOpenList(s, us[i..]) == SweepOpenList(SweepOpenOne(s, us[i]), us[i + 1..])
  {
    var m := us[i..];
    assert m[0] == us[i] && m[1..] == us[i + 1..];
    SweepOpenTail(s, m);
    assert m[0] in m;
  }

  class GlobalState {
    var heap: Heap
    var rootgc: seq<Ref>
    var strt: seq<seq<Ref>>
    var uvhead: seq<Ref>
    var gray: seq<Ref>
    var grayagain: seq<Ref>
    var gcstate: Phase
    var currentwhite: bool
    var sweepstrgc: nat
    var sweepgc: nat
    var mainthread: Ref
    var running: Ref
    var registry: Val
    var mt: seq<Val>

    /** The abstract value of the collector. */
    function S(): State
      reads this
    {
      State(heap, rootgc, strt, uvhead, gray, grayagain, gcstate, currentwhite, sweepstrgc, sweepgc,
            mainthread, running, registry, mt)
    }

    method SetColor(r: Ref, c: Color)
      requires r in heap
      modifies this
      ensures S() == Paint(old(S()), r, c)
    {
      heap := heap[r := heap[r].(color := c)];
    }

    // -------------------------------------------------------------- marking

    method ReallyMarkObject(r: Ref)
      requires IsWhite(heap, r)
      modifies this
      ensures S() == MarkObject(old(S()), r)
      decreases |Whites(heap)|, 0
    {
      ghost var s0 := S();
      PaintDarker(s0, r, Gray);
      PaintDarker(s0, r, Black);
      var o := heap[r];
      match o.kind {
        case KString => SetColor(r, Gray);
        case KUserdata =>
          SetColor(r, Black);
          MarkEach(o.slots);
        case KUpval =>
          var vs := Vals(heap, o);
          SetColor(r, Gray);
          MarkEach(vs);
          if o.home.Nowhere? { SetColor(r, Black); }
        case _ =>
          SetColor(r, Gray);
          gray := [r] + gray;
      }
    }

    method MarkOne(v: Val)
      modifies this
      ensures S() == MarkValue(old(S()), v)
      decreases |Whites(heap)|, 1
    {
      if v.Gc? && IsWhite(heap, v.r) { ReallyMarkObject(v.r); }
    }

    method MarkEach(vs: seq<Val>)
      modifies this
      ensures S() == MarkValues(old(S()), vs)
      decreases |Whites(heap)|, 2
    {
      ghost var s0 := S();
      var i := 0;
      while i < |vs|
        invariant 0 <= i <= |vs|
        invariant MarkValues(S(), vs[i..]) == MarkValues(s0, vs)
        invariant |Whites(heap)| <= |Whites(s0.heap)|
      {
        MarkValuesStep(S(), vs, i);
        MarkOne(vs[i]);
        i := i + 1;
      }
    }

    method PropagateOne()
      requires gray != [] && gray[0] in heap && !heap[gray[0]].color.White?
      modifies this
      ensures S() == PropagateMark(old(S()))
    {
      var r := gray[0];
      var o := heap[r];
      gray := gray[1..];
      if o.kind.KThread? {
        grayagain := [r] + grayagain;
      } else {
        SetColor(r, Black);
      }
      MarkEach(o.slots);
    }

    method PropagateWhole()
      requires Marking(S())
      modifies this
      ensures S() == PropagateAll(old(S()))
    {
      ghost var s0 := S();
      while gray != []
        invariant Marking(S()) && PropagateAll(S()) == PropagateAll(s0)
        decreases Work(S())
      {
        assert gray[0] in gray;
        PropagateMarkStep(S());
        PropagateOne();
      }
    }

    method RemarkOpenUpvals()
      requires Marking(S())
      modifies this
      ensures S() == RemarkUpvals(old(S()), old(S()).uvhead)
    {
      ghost var s0 := S();
      var us := uvhead;
      var i := 0;
      while i < |us|
        invariant 0 <= i <= |us| && Marking(S())
        invariant RemarkUpvals(S(), us[i..]) == RemarkUpvals(s0, us)
      {
        assert us[i..][0] == us[i] && us[i..][1..] == us[i + 1..];
        if us[i] in heap && heap[us[i]].color.Gray? {
          MarkingValues(S(), Vals(heap, heap[us[i]]));
          MarkEach(Vals(heap, heap[us[i]]));
        }
        i := i + 1;
      }
    }

    method MarkRoots()
      requires mainthread in heap
      modifies this
      ensures S() == MarkRoot(old(S()))
    {
      ghost var s0 := S();
      var vs := RootValues(S());
      gray, grayagain := [], [];
      assert S() == s0.(gray := [], grayagain := []);
      MarkEach(vs);
      gcstate := Propagate;
    }

    method MarkAtomicRoots()
      requires Marking(S())
      modifies this
      ensures S() == AtomicRoots(old(S()))
    {
      RemarkOpenUpvals();
      PropagateWhole();
      MarkingValues(S(), [Gc(running)] + mt);
      MarkEach([Gc(running)] + mt);
      PropagateWhole();
    }

    method MarkAtomically()
      requires Marking(S())
      modifies this
      ensures S() == AtomicMark(old(S()))
    {
      MarkAtomicRoots();
      ghost var s4 := S();
      RequeueMarking(s4);
      gray, grayagain := grayagain, [];
      assert S() == Requeue(s4);
      PropagateWhole();
    }

    method AtomicStep()
      requires Marking(S())
      modifies this
      ensures S() == Atomic(old(S()))
    {
      MarkAtomically();
      currentwhite := !currentwhite;
      sweepstrgc, sweepgc := 0, 0;
      gcstate := SweepString;
    }

    // -------------------------------------------------------------- sweeping

    method SweepString1(b: nat, r: Ref)
      requires r in heap && b < |strt|
      modifies this
      ensures S() == SweepStringOne(old(S()), b, r)
    {
      if heap[r].color == White(!currentwhite) && !heap[r].fixed {
        heap := heap - {r};
        strt := strt[b := Without(strt[b], r)];
      } else {
        SetColor(r, White(currentwhite));
      }
    }

    method SweepStringList(b: nat, l: seq<Ref>)
      requires b < |strt| && Present(heap, l)
      modifies this
      ensures S() == SweepStrings(old(S()), b, l)
    {
      ghost var goal := SweepStrings(S(), b, l);
      var i := 0;
      while i < |l|
        invariant 0 <= i <= |l| && b < |strt|
        invariant Present(heap, l[i..])
        invariant SweepStrings(S(), b, l[i..]) == goal
      {
        StringListStep(S(), b, l, i);
        SweepString1(b, l[i]);
        i := i + 1;
      }
    }

    method SweepBucketStrings()
      requires SweepBase(S()) && sweepstrgc < |strt|
      modifies this
      ensures S() == SweepBucket(old(S()))
    {
      assert BucketOk(S(), sweepstrgc);
      SweepStringsFrame(S(), sweepstrgc, strt[sweepstrgc]);
      SweepStringList(sweepstrgc, strt[sweepstrgc]);
      sweepstrgc := sweepstrgc + 1;
    }

    method SweepOpen1(u: Ref)
      requires u in heap
      modifies this
      ensures S() == SweepOpenOne(old(S()), u)
    {
      if heap[u].color == White(!currentwhite) && !heap[u].fixed {
        heap := heap - {u};
        uvhead := Without(uvhead, u);
      } else {
        SetColor(u, White(currentwhite));
      }
    }

    method SweepUpvals(us: seq<Ref>)
      requires Present(heap, us)
      modifies this
      ensures S() == SweepOpenList(old(S()), us)
    {
      ghost var goal := SweepOpenList(S(), us);
      var i := 0;
      while i < |us|
        invariant 0 <= i <= |us|
        invariant Present(heap, us[i..])
        invariant SweepOpenList(S(), us[i..]) == goal
      {
        UpvalListStep(S(), us, i);
        SweepOpen1(us[i]);
        i := i + 1;
      }
    }

    method SweepThreadUpvals(t: Ref)
      requires Struct(S()) && t in heap && heap[t].kind.KThread?
      modifies this
      ensures S() == SweepOpens(old(S()), t)
    {
      SweepUpvals(OpenOf(heap, uvhead, t));
    }

    method DetachUpval(u: Ref)
      requires u in heap
      modifies this
      ensures S() == Detach(old(S()), u)
    {
      heap := heap[u := heap[u].(slots := Vals(heap, heap[u]), home := Nowhere)];
      uvhead := Without(uvhead, u);
      rootgc := [u] + rootgc;
      if sweepgc > 0 { sweepgc := sweepgc + 1; }
    }

    /** Frees an object already taken off its list; the upvalues open on a
        thread are closed on the way. */
    method FreeObject(r: Ref)
      requires r in heap && Distinct(uvhead)
      modifies this
      ensures S() == var us := if old(heap[r]).kind.KThread? then OpenOf(old(heap), old(uvhead), r) else [];
                     var s := DetachList(old(S()), us); s.(heap := s.heap - {r})
    {
      ghost var s0 := S();
      if heap[r].kind.KThread? {
        var us := OpenOf(heap, uvhead, r);
        var i := 0;
        while i < |us|
          invariant 0 <= i <= |us|
          invariant heap.Keys == s0.heap.Keys
          invariant DetachList(S(), us[i..]) == DetachList(s0, us)
        {
          assert us[i..][0] == us[i] && us[i..][1..] == us[i + 1..];
          DetachUpval(us[i]);
          i := i + 1;
        }
      }
      heap := heap - {r};
    }

    method EraseAtCursor()
      requires Struct(S()) && sweepgc < |rootgc|
      modifies this
      ensures S() == EraseRoot(old(S()))
    {
      var r := rootgc[sweepgc];
      assert r in rootgc;
      EraseInOrder(S());
      rootgc := rootgc[..sweepgc] + rootgc[sweepgc + 1..];
      FreeObject(r);
    }

    method SweepOneRoot()
      requires SweepBase(S()) && sweepgc < |rootgc|
      modifies this
      ensures S() == SweepRootOne(old(S()))
    {
      var r := rootgc[sweepgc];
      assert r in rootgc;
      SweepOpensOk(S(), r);
      if heap[r].kind.KThread? { SweepThreadUpvals(r); }
      if heap[r].color == White(!currentwhite) && !heap[r].fixed {
        EraseAtCursor();
      } else {
        SetColor(r, White(currentwhite));
        sweepgc := sweepgc + 1;
      }
    }

    /** One turn of the sweep, with the invariant it keeps. */
    method SweepTurnOf(ghost n: nat, ghost goal: State)
      requires SweepInv(S()) && sweepgc < |rootgc| && n > 0 && Rest(S(), n) == goal
      modifies this
      ensures SweepInv(S()) && Rest(S(), n - 1) == goal
    {
      ChunkStep(S(), n);
      SweepOneRoot();
    }

    method SweepSome(count: nat)
      requires SweepInv(S()) == true
      modifies this
      ensures S() == SweepChunk(old(S()), count)
    {
      var n := count;
      ghost var goal := Rest(S(), count);
      while n > 0 && sweepgc < |rootgc|
        invariant SweepInv(S()) == true && Rest(S(), n) == goal
        decreases n
      {
        SweepTurnOf(n, goal);
        var left := n - 1;
        SameRest(S(), n - 1, left);
        n := left;
      }
      ChunkEnd(S(), n);
    }

    // -------------------------------------------------------------- one step, and a whole collection

    method Step()
      requires Inv(S())
      modifies this
      ensures S() == SingleStep(old(S())) && Inv(S()) && S() != old(S())
      ensures old(gcstate).Pause? ==> gcstate.Propagate? && mainthread in gray
    {
      StepInv(S());
      StepMoves(S());
      match gcstate {
        case Pause =>
          StartStep(S());
          MarkRoots();
        case Propagate =>
          if gray != [] { PropagateOk(S()); PropagateOne(); }
          else { AtomicOk(S()); AtomicStep(); }
        case SweepString =>
          SweepBucketStrings();
          if sweepstrgc >= |strt| { gcstate := Sweep; }
        case Sweep =>
          SweepSome(GCSWEEPMAX);
          if sweepgc >= |rootgc| { gcstate := Finalize; }
        case Finalize => gcstate := Pause;
      }
    }

    method RunUntil(p: Phase)
      requires Inv(S()) && PhaseRank(p) <= PhaseRank(gcstate) && (p == Finalize || p == Pause)
      modifies this
      ensures S() == RunTo(old(S()), p) && Inv(S()) && gcstate == p
    {
      ghost var s0 := S();
      while gcstate != p
        invariant Inv(S()) && PhaseRank(p) <= PhaseRank(gcstate) && RunTo(S(), p) == RunTo(s0, p)
        decreases PhaseRank(gcstate), Effort(S())
      {
        StepInv(S());
        StepProgress(S());
        EffortNonNegative(S());
        Step();
      }
    }

    method GiveUpMark()
      modifies this
      ensures S() == AbortMark(old(S()))
    {
      if gcstate.Pause? || gcstate.Propagate? {
        sweepstrgc, sweepgc := 0, 0;
        gray, grayagain := [], [];
        gcstate := SweepString;
      }
    }

    method SweepOut()
      requires Inv(S())
      modifies this
      ensures S() == FirstSweep(old(S())) && Inv(S()) && gcstate == Finalize
    {
      AbortMarkOk(S());
      GiveUpMark();
      RunUntil(Finalize);
    }

    /** `luaC_fullgc`: what is left is what was reachable, and what is fixed. */
    method CollectAll()
      requires Inv(S())
      modifies this
      ensures S() == FullGc(old(S())) && Inv(S())
      ensures forall r :: r in heap <==> Reachable(old(S()), r) || (r in old(heap) && old(heap)[r].fixed)
    {
      ghost var s0 := S();
      SweepOut();
      MarkRootOk(S());
      MarkRoots();
      RunUntil(Pause);
      FullGcExact(s0);
    }

    // -------------------------------------------------------------- barriers and allocation

    method BarrierF(o: Ref, v: Ref)
      requires o in heap && IsWhite(heap, v)
      modifies this
      ensures S() == BarrierForward(old(S()), o, v)
    {
      if gcstate.Propagate? { ReallyMarkObject(v); } else { SetColor(o, White(currentwhite)); }
    }

    method BarrierB(t: Ref)
      requires t in heap
      modifies this
      ensures S() == BarrierBack(old(S()), t)
    {
      SetColor(t, Gray);
      grayagain := [t] + grayagain;
    }

    /** A store and its barrier, on an object the program can reach: slot `i` of
        `o` holds the value, and all other contents are the same. */
    method Store(o: Ref, i: nat, v: Val)
      requires Inv(S()) && Live(S(), o) && i < |heap[o].slots| && LiveVal(S(), v)
      requires heap[o].home.Nowhere? && !heap[o].kind.KThread? && !heap[o].kind.KString?
      modifies this
      ensures S() == WriteSlot(old(S()), o, i, v) && Inv(S())
      ensures Stored(old(S()), S(), o, i, v)
    {
      WriteSlotOk(S(), o, i, v);
      WriteHolds(S(), o, i, v);
      heap := heap[o := heap[o].(slots := heap[o].slots[i := v])];
      if v.Gc? && IsWhite(heap, v.r) && heap[o].color.Black? {
        if heap[o].kind.KTable? { BarrierB(o); } else { BarrierF(o, v.r); }
      }
    }

    /** Closes one open upvalue, with the colour it deserves in this phase. */
    method CloseOne(u: Ref)
      requires u in heap && heap[u].home.Stack?
      modifies this
      ensures S() == CloseUpval(old(S()), u) && Closed(old(S()), S(), u)
    {
      ClosedKeeps(S(), u);
      var o := heap[u];
      var vs := Vals(heap, o);
      if o.color == White(!currentwhite) {
        heap := heap - {u};
        uvhead := Without(uvhead, u);
      } else {
        DetachUpval(u);
        if o.color.Gray? {
          if gcstate.Propagate? {
            SetColor(u, Black);
            if vs != [] && vs[0].Gc? && IsWhite(heap, vs[0].r) { BarrierF(u, vs[0].r); }
          } else {
            SetColor(u, White(currentwhite));
          }
        }
      }
    }
  }

  /** Detaching does not depend on what else is in the list, nor on where the
      cursor is behind its head. */
  lemma {:induction false} DetachElsewhere(s: State, us: seq<Ref>, l: seq<Ref>)
    requires forall u :: u in us ==> u in s.heap
    ensures DetachList(s.(rootgc := l), us) ==
      DetachList(s, us).(rootgc := Reversed(us) + l, sweepgc := if s.sweepgc == 0 then 0 else s.sweepgc + |us|)
    decreases |us|
  {
    if us != [] {
      var u := us[0];
      assert u in us;
      var s1 := Detach(s, u);
      DetachElsewhere(s1, us[1..], [u] + l);
      assert Detach(s.(rootgc := l), u) == s1.(rootgc := [u] + l);
      assert Reversed(us[1..]) + ([u] + l) == Reversed(us) + l;
    } else {
      assert Reversed(us) + l == l;
    }
  }
}
