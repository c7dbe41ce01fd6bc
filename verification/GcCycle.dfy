/**
  The collection cycle: root marking, propagation, the atomic step, the chunked
  sweep, `luaC_step`'s unit of work `singlestep`, and `luaC_fullgc`.
 */
module GcCycle {
  import opened Common
  import opened GcModel
  import opened GcMark

  // ---------------------------------------------------------------- structure

  ghost predicate StringListed(s: State, r: Ref)
    requires |s.strt| > 0 && r in s.heap
  {
    r in s.strt[s.heap[r].hash % |s.strt|]
  }

  ghost predicate HomeListed(s: State, r: Ref)
    requires r in s.heap && s.heap[r].home.Stack?
  {
    var t := s.heap[r].home.thread;
    && r in s.uvhead
    && t in s.heap
    && s.heap[t].kind.KThread?
    && s.heap[r].home.slot < |s.heap[t].slots|
  }

  /** Every object is in exactly the list that will sweep it. */
  ghost predicate Listed(s: State, r: Ref)
    requires |s.strt| > 0 && r in s.heap
  {
    if s.heap[r].kind.KString? then StringListed(s, r)
    else if s.heap[r].home.Stack? then HomeListed(s, r)
    else r in s.rootgc
  }

  ghost predicate BucketOk(s: State, b: nat)
    requires b < |s.strt|
  {
    && Distinct(s.strt[b])
    && forall r :: r in s.strt[b] ==> r in s.heap && s.heap[r].kind.KString? && s.heap[r].hash % |s.strt| == b
  }

  ghost predicate Struct(s: State) {
    && Shape(s)
    && |s.strt| > 0
    && Distinct(s.rootgc)
    && (forall r :: r in s.rootgc ==> r in s.heap && !s.heap[r].kind.KString? && s.heap[r].home.Nowhere?)
    && Distinct(s.uvhead)
    && (forall r :: r in s.uvhead ==> r in s.heap && s.heap[r].home.Stack?)
    && (forall b :: 0 <= b < |s.strt| ==> BucketOk(s, b))
    && (forall r :: r in s.heap ==> Listed(s, r))
    && (forall r :: r in s.heap && s.heap[r].fixed ==> s.heap[r].kind.KString? || r == s.main)
    && s.main in s.heap && s.heap[s.main].kind.KThread? && s.heap[s.main].fixed
    && s.running in s.heap && s.heap[s.running].kind.KThread?
  }

  // ---------------------------------------------------------------- marking in full

  ghost predicate Marking(s: State) {
    MarkInv(s, s.heap.Keys) && Shape(s)
  }

  ghost predicate RecoloredObj(o: Obj, o': Obj) {
    o' == o.(color := o'.color) && (o'.color.White? ==> o'.color == o.color)
  }

  /** `s'` is `s` after some marking and traversing: the same objects, with
      marked ones still marked. */
  ghost predicate Recolored(s: State, s': State) {
    && s' == s.(heap := s'.heap, gray := s'.gray, grayagain := s'.grayagain)
    && s'.heap.Keys == s.heap.Keys
    && forall r :: r in s.heap ==> RecoloredObj(s.heap[r], s'.heap[r])
  }

  lemma DarkerRecolored(s: State, s': State)
    requires Darker(s, s')
    ensures Recolored(s, s')
  {
    forall r | r in s.heap ensures RecoloredObj(s.heap[r], s'.heap[r]) {
      assert Darkened(s.heap[r], s'.heap[r]);
    }
  }

  lemma RecoloredTrans(s: State, t: State, u: State)
    requires Recolored(s, t) && Recolored(t, u)
    ensures Recolored(s, u)
  {
    forall r | r in s.heap ensures RecoloredObj(s.heap[r], u.heap[r]) {
      assert RecoloredObj(s.heap[r], t.heap[r]);
      assert RecoloredObj(t.heap[r], u.heap[r]);
    }
  }

  lemma PropagateMarkRecolors(s: State)
    requires s.gray != [] && s.gray[0] in s.heap && !s.heap[s.gray[0]].color.White?
    ensures Recolored(s, PropagateMark(s))
    ensures forall r :: r in s.grayagain ==> r in PropagateMark(s).grayagain
  {
    var r := s.gray[0];
    var o := s.heap[r];
    var s1 := if o.kind.KThread? then s.(gray := s.gray[1..], grayagain := [r] + s.grayagain)
              else Paint(s, r, Black).(gray := s.gray[1..]);
    assert Recolored(s, s1);
    DarkerRecolored(s1, MarkValues(s1, o.slots));
    RecoloredTrans(s, s1, MarkValues(s1, o.slots));
  }

  lemma PropagateMarkStep(s: State)
    requires Marking(s) && s.gray != []
    ensures Marking(PropagateMark(s)) && Recolored(s, PropagateMark(s))
    ensures forall r :: r in s.grayagain ==> r in PropagateMark(s).grayagain
  {
    assert s.gray[0] in s.gray;
    PropagateMarkInv(s, s.heap.Keys);
    PropagateMarkRecolors(s);
  }

  /** Traverses until nothing is gray (`propagateall`). */
  function PropagateAll(s: State): (s': State)
    requires Marking(s)
    ensures Marking(s') && Recolored(s, s') && s'.gray == []
    ensures forall r :: r in s.grayagain ==> r in s'.grayagain
    decreases Work(s)
  {
    if s.gray == [] then s else
      assert s.gray[0] in s.gray;
      PropagateMarkStep(s);
      var s' := PropagateAll(PropagateMark(s));
      RecoloredTrans(s, PropagateMark(s), s');
      s'
  }

  lemma {:induction false} PropagateAllInv(s: State, X: set<Ref>)
    requires Marking(s) && MarkInv(s, X)
    ensures MarkInv(PropagateAll(s), X)
    decreases Work(s)
  {
    if s.gray != [] {
      assert s.gray[0] in s.gray;
      PropagateMarkInv(s, X);
      PropagateMarkStep(s);
      PropagateAllInv(PropagateMark(s), X);
    }
  }

  lemma {:induction false} PropagateAllOnly(s: State, L: iset<Ref>)
    requires Marking(s) && ClosedIn(s.heap, L) && MarkedIn(s.heap, L)
    ensures ClosedIn(PropagateAll(s).heap, L) && MarkedIn(PropagateAll(s).heap, L)
    decreases Work(s)
  {
    if s.gray != [] {
      assert s.gray[0] in s.gray;
      PropagateMarkOnly(s, s.heap.Keys, L);
      PropagateMarkStep(s);
      PropagateAllOnly(PropagateMark(s), L);
    }
  }

  lemma MarkingValues(s: State, vs: seq<Val>)
    requires Marking(s)
    ensures Marking(MarkValues(s, vs)) && Recolored(s, MarkValues(s, vs))
  {
    MarkValuesInv(s, s.heap.Keys, vs);
    DarkerShape(s, MarkValues(s, vs));
    DarkerRecolored(s, MarkValues(s, vs));
  }

  /** Marks again the value of every gray open upvalue (`remarkupvals`). */
  function RemarkUpvals(s: State, us: seq<Ref>): (s': State)
    requires Marking(s)
    ensures Marking(s') && Recolored(s, s') && s'.grayagain == s.grayagain
    decreases |us|
  {
    if us == [] then s
    else if us[0] in s.heap && s.heap[us[0]].color.Gray? then
      var vs := Vals(s.heap, s.heap[us[0]]);
      MarkingValues(s, vs);
      var s' := RemarkUpvals(MarkValues(s, vs), us[1..]);
      RecoloredTrans(s, MarkValues(s, vs), s');
      s'
    else RemarkUpvals(s, us[1..])
  }

  function Elems(l: seq<Ref>): set<Ref> {
    set r | r in l
  }

  lemma RemarkOneInv(s: State, u: Ref, B: set<Ref>)
    requires Shape(s) && MarkInv(s, B + {u}) && u in s.heap && s.heap[u].home.Stack?
    ensures s.heap[u].color.Gray? ==> MarkInv(MarkValues(s, Vals(s.heap, s.heap[u])), B)
    ensures !s.heap[u].color.Gray? ==> MarkInv(s, B)
  {
    if s.heap[u].color.Gray? {
      var vs := Vals(s.heap, s.heap[u]);
      var s1 := MarkValues(s, vs);
      MarkValuesInv(s, B + {u}, vs);
      DarkerVals(s, s1, u);
      assert Darkened(s.heap[u], s1.heap[u]);
      DropException(s1, B, u);
    }
  }

  lemma {:induction false} RemarkUpvalsInv(s: State, us: seq<Ref>, A: set<Ref>)
    requires Marking(s) && MarkInv(s, A + Elems(us))
    requires forall u :: u in us ==> u in s.heap && s.heap[u].home.Stack?
    ensures MarkInv(RemarkUpvals(s, us), A)
    decreases |us|
  {
    if us == [] {
      assert A + Elems(us) == A;
    } else {
      var u := us[0];
      var vs := Vals(s.heap, s.heap[u]);
      var B := A + Elems(us[1..]);
      assert A + Elems(us) == B + {u} by { assert us == [u] + us[1..]; }
      RemarkOneInv(s, u, B);
      if s.heap[u].color.Gray? {
        MarkingValues(s, vs);
        var s1 := MarkValues(s, vs);
        forall q | q in us[1..] ensures q in s1.heap && s1.heap[q].home.Stack? {
          assert RecoloredObj(s.heap[q], s1.heap[q]);
        }
        RemarkUpvalsInv(s1, us[1..], A);
      } else {
        RemarkUpvalsInv(s, us[1..], A);
      }
    }
  }

  lemma {:induction false} RemarkUpvalsOnly(s: State, us: seq<Ref>, L: iset<Ref>)
    requires Marking(s) && ClosedIn(s.heap, L) && MarkedIn(s.heap, L)
    ensures ClosedIn(RemarkUpvals(s, us).heap, L) && MarkedIn(RemarkUpvals(s, us).heap, L)
    decreases |us|
  {
    if us != [] {
      var u := us[0];
      if u in s.heap && s.heap[u].color.Gray? {
        var vs := Vals(s.heap, s.heap[u]);
        forall v | v in vs && v.Gc? ensures v.r in L { assert Edge(s.heap, u, v.r); }
        MarkValuesOnly(s, vs, L);
        DarkerClosed(s, MarkValues(s, vs), L);
        MarkingValues(s, vs);
        RemarkUpvalsOnly(MarkValues(s, vs), us[1..], L);
      } else {
        RemarkUpvalsOnly(s, us[1..], L);
      }
    }
  }

  /** The values marked when a cycle starts: the main thread, its globals, the
      registry, the basic metatables (`markroot`). */
  function RootValues(s: State): seq<Val>
    requires s.main in s.heap
  {
    [Gc(s.main)] + s.heap[s.main].slots[..if |s.heap[s.main].slots| > 0 then 1 else 0] + [s.registry] + s.mt
  }

  function MarkRoot(s: State): State
    requires s.main in s.heap
  {
    MarkValues(s.(gray := [], grayagain := []), RootValues(s)).(phase := Propagate)
  }

  /** First half of the atomic marking: open upvalues, then the running thread
      and the basic metatables, each followed by a full propagation. */
  function AtomicRoots(s: State): (s': State)
    requires Marking(s)
    ensures Marking(s') && Recolored(s, s') && s'.gray == []
    ensures forall r :: r in s.grayagain ==> r in s'.grayagain
  {
    var s1 := RemarkUpvals(s, s.uvhead);
    var s2 := PropagateAll(s1);
    RecoloredTrans(s, s1, s2);
    var vs := [Gc(s2.running)] + s2.mt;
    MarkingValues(s2, vs);
    var s3 := MarkValues(s2, vs);
    RecoloredTrans(s, s2, s3);
    var s4 := PropagateAll(s3);
    RecoloredTrans(s, s3, s4);
    s4
  }

  /** Moves `grayagain` to `gray`. */
  function Requeue(s: State): State {
    s.(gray := s.grayagain, grayagain := [])
  }

  /** Moving `grayagain` to `gray` leaves no exception. */
  lemma RequeueInv(s: State, A: set<Ref>)
    requires MarkInv(s, A) && s.gray == []
    requires forall r :: r in A ==> r in s.grayagain
    ensures MarkInv(Requeue(s), {})
  {
    var s' := Requeue(s);
    forall r | r in s'.heap && !s'.heap[r].color.White?
      ensures ColorOk(s', {}, r) && (r in s'.gray || r in {} || Done(s', r))
    {
      assert ColorOk(s, A, r);
      if r !in s.grayagain { assert Done(s, r); }
    }
  }

  lemma RequeueMarking(s: State)
    requires Marking(s) && s.gray == []
    ensures Marking(Requeue(s)) && Recolored(s, Requeue(s))
  {
  }

  /** Marking inside the atomic step, up to the flip of the white. */
  function AtomicMark(s: State): (s': State)
    requires Marking(s)
    ensures Marking(s') && Recolored(s, s') && s'.gray == []
  {
    var s4 := AtomicRoots(s);
    RequeueMarking(s4);
    RecoloredTrans(s, s4, Requeue(s4));
    RecoloredTrans(s, Requeue(s4), PropagateAll(Requeue(s4)));
    PropagateAll(Requeue(s4))
  }

  /** The end of the mark phase (`atomic`). */
  function Atomic(s: State): State
    requires Marking(s)
  {
    AtomicMark(s).(white := !s.white, sweepstrgc := 0, sweepgc := 0, phase := SweepString)
  }

  lemma AtomicRootsInv(s: State)
    requires Marking(s) && MarkInv(s, Elems(s.grayagain) + Elems(s.uvhead))
    requires forall u :: u in s.uvhead ==> u in s.heap && s.heap[u].home.Stack?
    ensures MarkInv(AtomicRoots(s), Elems(s.grayagain))
    ensures forall v :: v in [Gc(s.running)] + s.mt && v.Gc? ==> !IsWhite(AtomicRoots(s).heap, v.r)
  {
    var A := Elems(s.grayagain);
    RemarkUpvalsInv(s, s.uvhead, A);
    var s1 := RemarkUpvals(s, s.uvhead);
    PropagateAllInv(s1, A);
    var s2 := PropagateAll(s1);
    var vs := [Gc(s2.running)] + s2.mt;
    MarkingValues(s2, vs);
    MarkValuesInv(s2, A, vs);
    var s3 := MarkValues(s2, vs);
    PropagateAllInv(s3, A);
    forall v | v in [Gc(s.running)] + s.mt && v.Gc? ensures !IsWhite(AtomicRoots(s).heap, v.r) {
      RecoloredKeepsMark(s3, PropagateAll(s3), v.r);
    }
  }

  lemma RecoloredKeepsMark(s: State, s': State, r: Ref)
    requires Recolored(s, s') && !IsWhite(s.heap, r)
    ensures !IsWhite(s'.heap, r)
  {
    if r in s.heap { assert RecoloredObj(s.heap[r], s'.heap[r]); }
  }

  /** After the atomic marking every marked object refers to marked objects
      only, and the roots that are written without a barrier are marked. */
  lemma AtomicMarkDone(s: State)
    requires Marking(s) && MarkInv(s, Elems(s.grayagain) + Elems(s.uvhead))
    requires forall u :: u in s.uvhead ==> u in s.heap && s.heap[u].home.Stack?
    ensures MarkInv(AtomicMark(s), {})
    ensures forall v :: v in [Gc(s.running)] + s.mt && v.Gc? ==> !IsWhite(AtomicMark(s).heap, v.r)
  {
    AtomicRootsInv(s);
    var s4 := AtomicRoots(s);
    RequeueInv(s4, Elems(s.grayagain));
    RequeueMarking(s4);
    var s5 := Requeue(s4);
    PropagateAllInv(s5, {});
    forall v | v in [Gc(s.running)] + s.mt && v.Gc? ensures !IsWhite(AtomicMark(s).heap, v.r) {
      RecoloredKeepsMark(s4, PropagateAll(s5), v.r);
    }
  }

  /** The atomic step marks only what can be reached. */
  lemma AtomicRootsOnly(s: State, L: iset<Ref>)
    requires Marking(s) && ClosedIn(s.heap, L) && MarkedIn(s.heap, L)
    requires forall v :: v in [Gc(s.running)] + s.mt && v.Gc? ==> v.r in L
    ensures ClosedIn(AtomicRoots(s).heap, L) && MarkedIn(AtomicRoots(s).heap, L)
  {
    RemarkUpvalsOnly(s, s.uvhead, L);
    var s1 := RemarkUpvals(s, s.uvhead);
    PropagateAllOnly(s1, L);
    var s2 := PropagateAll(s1);
    var vs := [Gc(s2.running)] + s2.mt;
    MarkingValues(s2, vs);
    MarkValuesOnly(s2, vs, L);
    var s3 := MarkValues(s2, vs);
    DarkerClosed(s2, s3, L);
    PropagateAllOnly(s3, L);
  }

  lemma AtomicMarkOnly(s: State, L: iset<Ref>)
    requires Marking(s) && ClosedIn(s.heap, L) && MarkedIn(s.heap, L)
    requires forall v :: v in [Gc(s.running)] + s.mt && v.Gc? ==> v.r in L
    ensures MarkedIn(AtomicMark(s).heap, L)
  {
    AtomicRootsOnly(s, L);
    var s4 := AtomicRoots(s);
    RequeueMarking(s4);
    PropagateAllOnly(Requeue(s4), L);
  }
}
