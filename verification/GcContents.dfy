/**
  What the program's operations do to the contents of the heap: each puts its
  value where it says and leaves everything else as it was, but for colours and
  the lists of the collector.
 */
module GcContents {
  import opened GcModel
  import opened GcMark
  import opened GcCycle
  import opened GcSweep
  import opened GcStep
  import opened GcPhases
  import opened GcMutator
  import opened GcAlloc
  import opened GcFull
  import opened GcRuns
  import opened GcReach

  /** All but the colour is the same. */
  predicate SameBody(o: Obj, o': Obj) {
    o'.kind == o.kind && o'.fixed == o.fixed && o'.hash == o.hash && o'.slots == o.slots && o'.home == o.home
  }

  /** Slot `i` holds the value; the other slots, kind, fixedness, hash and home are the same. */
  predicate Holds(o: Obj, o': Obj, i: nat, v: Val) {
    && |o'.slots| == |o.slots| && i < |o'.slots| && o'.slots[i] == v
    && (forall j :: 0 <= j < |o.slots| && j != i ==> o'.slots[j] == o.slots[j])
    && o'.kind == o.kind && o'.fixed == o.fixed && o'.hash == o.hash && o'.home == o.home
  }

  /** One slot of one object holds a new value; only colours and the gray lists may differ otherwise. */
  ghost predicate Stored(s: State, s': State, o: Ref, i: nat, v: Val) {
    && s' == s.(heap := s'.heap, gray := s'.gray, grayagain := s'.grayagain)
    && s'.heap.Keys == s.heap.Keys
    && o in s.heap && Holds(s.heap[o], s'.heap[o], i, v)
    && forall r :: r in s.heap && r != o ==> SameBody(s.heap[r], s'.heap[r])
  }

  /** A store with no barrier: no colour changes. */
  lemma SlotHolds(s: State, o: Ref, i: nat, v: Val)
    requires o in s.heap && i < |s.heap[o].slots|
    ensures var s' := SetSlot(s, o, i, v);
      && Stored(s, s', o, i, v) && s' == s.(heap := s'.heap) && s'.heap[o].color == s.heap[o].color
      && forall r :: r in s.heap && r != o ==> s'.heap[r] == s.heap[r]
  {
  }

  lemma RecoloredStored(s: State, t: State, s': State, o: Ref, i: nat, v: Val)
    requires Stored(s, t, o, i, v) && s' == t.(heap := s'.heap, gray := s'.gray, grayagain := s'.grayagain)
    requires s'.heap.Keys == t.heap.Keys && forall r :: r in t.heap ==> SameBody(t.heap[r], s'.heap[r])
    ensures Stored(s, s', o, i, v)
  {
    assert SameBody(t.heap[o], s'.heap[o]);
    forall r | r in s.heap && r != o ensures SameBody(s.heap[r], s'.heap[r]) {
      assert SameBody(s.heap[r], t.heap[r]) && SameBody(t.heap[r], s'.heap[r]);
    }
  }

  lemma MarkBodies(s: State, r: Ref)
    requires IsWhite(s.heap, r)
    ensures forall q :: q in s.heap ==> q in MarkObject(s, r).heap && SameBody(s.heap[q], MarkObject(s, r).heap[q])
  {
    forall q | q in s.heap ensures SameBody(s.heap[q], MarkObject(s, r).heap[q]) {
      assert Darkened(s.heap[q], MarkObject(s, r).heap[q]);
    }
  }

  /** A store with its barrier. */
  lemma WriteHolds(s: State, o: Ref, i: nat, v: Val)
    requires o in s.heap && i < |s.heap[o].slots|
    ensures Stored(s, WriteSlot(s, o, i, v), o, i, v)
  {
    var t, s' := SetSlot(s, o, i, v), WriteSlot(s, o, i, v);
    SlotHolds(s, o, i, v);
    if v.Gc? && IsWhite(s.heap, v.r) && s.heap[o].color.Black? {
      if !s.heap[o].kind.KTable? && s.phase.Propagate? { MarkBodies(t, v.r); }
      RecoloredStored(s, t, s', o, i, v);
    }
  }

  // ---------------------------------------------------------------- new objects

  /** `r` is in the list at `p`, the others are around it as they were. */
  predicate Linked(l: seq<Ref>, l': seq<Ref>, r: Ref, p: nat) {
    && p <= |l| && |l'| == |l| + 1 && l'[p] == r
    && (forall k :: 0 <= k < p ==> l'[k] == l[k])
    && forall k :: p <= k < |l| ==> l'[k + 1] == l[k]
  }

  /** One object more, in slot `i` of `dest`; all other objects are the same, colours included. */
  ghost predicate Appeared(s: State, s': State, r: Ref, o: Obj, dest: Ref, i: nat) {
    && r !in s.heap && s'.heap.Keys == s.heap.Keys + {r} && s'.heap[r] == o
    && dest in s.heap && Holds(s.heap[dest], s'.heap[dest], i, Gc(r)) && s'.heap[dest].color == s.heap[dest].color
    && (forall q :: q in s.heap && q != dest ==> s'.heap[q] == s.heap[q])
    && s' == s.(heap := s'.heap, rootgc := s'.rootgc, strt := s'.strt, uvhead := s'.uvhead, sweepgc := s'.sweepgc)
  }

  /** A known object in slot `i` of `dest`; it has the current white if it was dead. */
  ghost predicate Found(s: State, s': State, r: Ref, dest: Ref, i: nat) {
    && r in s.heap && dest in s.heap && s'.heap.Keys == s.heap.Keys && s' == s.(heap := s'.heap)
    && Holds(s.heap[dest], s'.heap[dest], i, Gc(r))
    && (forall q :: q in s.heap && q != dest ==> SameBody(s.heap[q], s'.heap[q]))
    && (forall q :: q in s.heap && q != r ==> s'.heap[q].color == s.heap[q].color)
    && s'.heap[r].color == if IsDead(s, r) then White(s.white) else s.heap[r].color
  }

  /** The upvalue is gone if it was dead; otherwise it keeps the value of its slot for itself. */
  ghost predicate Closed(s: State, s': State, u: Ref) {
    && u in s.heap
    && (forall q :: q in s.heap && q != u ==> q in s'.heap && SameBody(s.heap[q], s'.heap[q]))
    && s' == s.(heap := s'.heap, rootgc := s'.rootgc, uvhead := s'.uvhead, sweepgc := s'.sweepgc,
        gray := s'.gray, grayagain := s'.grayagain)
    && (forall q :: q in s'.uvhead <==> q in s.uvhead && q != u)
    && if IsDead(s, u) then s'.heap.Keys == s.heap.Keys - {u} && s'.rootgc == s.rootgc
       else
         && s'.heap.Keys == s.heap.Keys && s'.rootgc == [u] + s.rootgc
         && s'.heap[u].home == Nowhere && s'.heap[u].slots == Vals(s.heap, s.heap[u])
         && s'.heap[u].kind == s.heap[u].kind && s'.heap[u].fixed == s.heap[u].fixed
         && s'.heap[u].hash == s.heap[u].hash
  }

  /** What an object refers to, and what it is, as before. */
  ghost predicate Same(s: State, s': State, r: Ref) {
    && r in s.heap && r in s'.heap && s'.heap[r].kind == s.heap[r].kind
    && Vals(s'.heap, s'.heap[r]) == Vals(s.heap, s.heap[r])
  }

  /** Userdata are linked behind the main thread. */
  ghost predicate BehindMain(s: State, s': State, r: Ref) {
    exists p: nat :: p < |s.rootgc| && s.rootgc[p] == s.main && Linked(s.rootgc, s'.rootgc, r, p + 1)
  }

  /** What each operation does to the contents. */
  ghost predicate Effect(s: State, op: Op, s': State) {
    match op
    case Step => forall r :: Live(s, r) ==> Same(s, s', r) && s'.heap[r].fixed == s.heap[r].fixed
    case Collect => forall r :: Reachable(s, r) ==> Same(s, s', r)
    case Write(o, i, v) => Stored(s, s', o, i, v)
    case StackWrite(t, i, v) =>
      && Stored(s, s', t, i, v) && s' == s.(heap := s'.heap)
      && forall r :: r in s.heap ==> s'.heap[r].color == s.heap[r].color
    case NewObject(r, kind, slots, dest) =>
      && Appeared(s, s', r, Obj(kind, White(s.white), false, 0, slots, Nowhere), s.running, dest)
      && s'.strt == s.strt && s'.uvhead == s.uvhead
      && if kind.KUserdata? then BehindMain(s, s', r) else Linked(s.rootgc, s'.rootgc, r, 0)
    case NewString(r, hash, dest) =>
      && Appeared(s, s', r, Obj(KString, White(s.white), false, hash, [], Nowhere), s.running, dest)
      && s'.rootgc == s.rootgc && s'.uvhead == s.uvhead && |s'.strt| == |s.strt| > 0
      && forall b :: 0 <= b < |s.strt| ==> s'.strt[b] == if b == hash % |s.strt| then [r] + s.strt[b] else s.strt[b]
    case FoundString(r, dest) => Found(s, s', r, s.running, dest)
    case NewUpval(r, i, f, j) =>
      && Appeared(s, s', r, Obj(KUpval, White(s.white), false, 0, [], Stack(s.running, i)), f, j)
      && s.running in s.heap && i < |s.heap[s.running].slots|
      && Vals(s'.heap, s'.heap[r]) == [s.heap[s.running].slots[i]]
      && s'.rootgc == s.rootgc && s'.strt == s.strt && s'.uvhead == [r] + s.uvhead
    case FoundUpval(u, f, j) => Found(s, s', u, f, j)
    case Close(u) => Closed(s, s', u)
    case SetMetatable(i, v) =>
      && s' == s.(mt := s'.mt) && |s'.mt| == |s.mt| && i < |s.mt| && s'.mt[i] == v
      && forall j :: 0 <= j < |s.mt| && j != i ==> s'.mt[j] == s.mt[j]
    case Resume(t) => s' == s.(running := s'.running) && s'.running == t
  }

  lemma ObjectLinked(s: State, r: Ref, kind: Kind, slots: seq<Val>)
    requires s.main in s.rootgc
    ensures var t := AddObject(s, r, kind, slots);
      if kind.KUserdata? then BehindMain(s, t, r) else Linked(s.rootgc, t.rootgc, r, 0)
  {
    if kind.KUserdata? {
      var p := IndexOf(s.rootgc, s.main);
      assert Linked(s.rootgc, AddObject(s, r, kind, slots).rootgc, r, p + 1);
    }
  }

  /** An object added to the heap, and then stored. */
  lemma AddedAppears(s: State, t: State, r: Ref, o: Obj, dest: Ref, i: nat)
    requires r !in s.heap && t.heap == s.heap[r := o] && dest in s.heap && i < |s.heap[dest].slots|
    requires t == s.(heap := t.heap, rootgc := t.rootgc, strt := t.strt, uvhead := t.uvhead, sweepgc := t.sweepgc)
    ensures Appeared(s, SetSlot(t, dest, i, Gc(r)), r, o, dest, i) == true
  {
    SlotHolds(t, dest, i, Gc(r));
  }

  lemma ObjectAppears(s: State, r: Ref, kind: Kind, slots: seq<Val>, dest: nat)
    requires r !in s.heap && RunningSlot(s, dest) && s.main in s.rootgc
    ensures Effect(s, NewObject(r, kind, slots, dest),
        SetSlot(AddObject(s, r, kind, slots), s.running, dest, Gc(r))) == true
  {
    ObjectLinked(s, r, kind, slots);
    AddedAppears(s, AddObject(s, r, kind, slots), r, NewObj(s, kind, 0, slots, Nowhere), s.running, dest);
  }

  lemma StringAppears(s: State, r: Ref, hash: nat, dest: nat)
    requires |s.strt| > 0 && r !in s.heap && RunningSlot(s, dest)
    ensures Effect(s, NewString(r, hash, dest), SetSlot(AddString(s, r, hash), s.running, dest, Gc(r))) == true
  {
    AddedAppears(s, AddString(s, r, hash), r, NewObj(s, KString, hash, [], Nowhere), s.running, dest);
  }

  lemma UpvalAppears(s: State, r: Ref, i: nat, f: Ref, j: nat)
    requires Enabled(s, NewUpval(r, i, f, j)) && s.heap[s.running].kind.KThread?
    ensures Effect(s, NewUpval(r, i, f, j), SetSlot(AddOpen(s, r, s.running, i), f, j, Gc(r))) == true
  {
    AddedAppears(s, AddOpen(s, r, s.running, i), r, NewObj(s, KUpval, 0, [], Stack(s.running, i)), f, j);
  }

  lemma FoundAgain(s: State, r: Ref, dest: Ref, i: nat)
    requires r in s.heap && dest in s.heap && i < |s.heap[dest].slots|
    ensures Found(s, SetSlot(Resurrect(s, r), dest, i, Gc(r)), r, dest, i) == true
  {
    SlotHolds(Resurrect(s, r), dest, i, Gc(r));
  }

  lemma ClosedDead(s: State, u: Ref)
    requires u in s.heap && s.heap[u].home.Stack? && IsDead(s, u)
    ensures Closed(s, CloseUpval(s, u), u) == true
  {
  }

  lemma ClosedPlain(s: State, u: Ref)
    requires u in s.heap && s.heap[u].home.Stack? && !IsDead(s, u)
    ensures Closed(s, Detach(s, u), u) == true
    ensures forall c :: Closed(s, Paint(Detach(s, u), u, c), u) == true
  {
  }

  /** Marking the value of the closed upvalue changes no contents. */
  lemma ClosedMarks(s: State, s1: State, s': State, u: Ref)
    requires Closed(s, s1, u) && s' == s1.(heap := s'.heap, gray := s'.gray)
    requires s'.heap.Keys == s1.heap.Keys && forall q :: q in s1.heap ==> SameBody(s1.heap[q], s'.heap[q])
    ensures Closed(s, s', u) == true
  {
    assert u in s1.heap ==> SameBody(s1.heap[u], s'.heap[u]);
    forall q | q in s.heap && q != u ensures SameBody(s.heap[q], s'.heap[q]) {
      assert SameBody(s.heap[q], s1.heap[q]) && SameBody(s1.heap[q], s'.heap[q]);
    }
  }

  lemma ClosedKeeps(s: State, u: Ref)
    requires u in s.heap && s.heap[u].home.Stack?
    ensures Closed(s, CloseUpval(s, u), u) == true
  {
    if IsDead(s, u) {
      ClosedDead(s, u);
    } else {
      ClosedPlain(s, u);
      if s.heap[u].color.Gray? && s.phase.Propagate? { ClosedGray(s, u); }
    }
  }

  lemma ClosedGray(s: State, u: Ref)
    requires u in s.heap && s.heap[u].home.Stack? && s.heap[u].color.Gray? && s.phase.Propagate?
    ensures Closed(s, CloseUpval(s, u), u) == true
  {
    var s2 := Paint(Detach(s, u), u, Black);
    var vs := Vals(s.heap, s.heap[u]);
    ClosedPlain(s, u);
    if vs != [] && vs[0].Gc? && IsWhite(s2.heap, vs[0].r) {
      MarkBodies(s2, vs[0].r);
      ClosedMarks(s, s2, MarkObject(s2, vs[0].r), u);
    }
  }

  lemma StepEffect(s: State)
    requires Inv(s)
    ensures Effect(s, Step, SingleStep(s)) == true
  {
    SingleStepOk(s);
    KeptSame(s, SingleStep(s));
  }

  lemma KeptSame(s: State, s': State)
    requires KeepsLive(s, s')
    ensures Effect(s, Step, s') == true
  {
  }

  lemma GraphSame(s: State, s': State)
    requires SameGraph(s, s')
    ensures Effect(s, Collect, s') == true
  {
  }

  lemma CollectEffect(s: State)
    requires Inv(s)
    ensures Effect(s, Collect, FullGc(s)) == true
  {
    FullGcExact(s);
    GraphSame(s, FullGc(s));
  }

  /** Every operation puts its value where it says, and changes nothing else. */
  lemma ApplyEffect(s: State, op: Op)
    requires Inv(s) && Enabled(s, op)
    ensures Effect(s, op, Apply(s, op)) == true
  {
    match op {
      case Step => StepEffect(s);
      case Collect => CollectEffect(s);
      case Write(o, i, v) => WriteHolds(s, o, i, v);
      case StackWrite(t, i, v) => SlotHolds(s, t, i, v);
      case NewObject(r, kind, slots, dest) =>
        assert Listed(s, s.main);
        ObjectAppears(s, r, kind, slots, dest);
      case NewString(r, hash, dest) => StringAppears(s, r, hash, dest);
      case FoundString(r, dest) => FoundAgain(s, r, s.running, dest);
      case NewUpval(r, i, f, j) => UpvalAppears(s, r, i, f, j);
      case FoundUpval(u, f, j) => FoundAgain(s, u, f, j);
      case Close(u) => ClosedKeeps(s, u);
      case SetMetatable(i, v) =>
      case Resume(t) =>
    }
  }

  // ---------------------------------------------------------------- what can be reached

  /** A set with the main and the running thread, the registry and the basic
      metatables; with an object it has what the object's slots hold, and with an
      open upvalue what its slot of the stack holds. */
  ghost predicate Holding(s: State, K: iset<Ref>) {
    && s.main in K && s.running in K && (s.registry.Gc? ==> s.registry.r in K)
    && (forall i :: 0 <= i < |s.mt| && s.mt[i].Gc? ==> s.mt[i].r in K)
    && (forall a :: a in K && a in s.heap && s.heap[a].home.Nowhere? ==> SlotsIn(s.heap[a], K))
    && forall a :: a in K && a in s.heap && s.heap[a].home.Stack? ==> TenantIn(s, a, K)
  }

  predicate SlotsIn(o: Obj, K: iset<Ref>) {
    forall j :: 0 <= j < |o.slots| && o.slots[j].Gc? ==> o.slots[j].r in K
  }

  predicate TenantIn(s: State, a: Ref, K: iset<Ref>)
    requires a in s.heap && s.heap[a].home.Stack?
  {
    var t, i := s.heap[a].home.thread, s.heap[a].home.slot;
    t in s.heap && i < |s.heap[t].slots| && s.heap[t].slots[i].Gc? ==> s.heap[t].slots[i].r in K
  }

  lemma HoldingWithin(s: State, K: iset<Ref>)
    ensures Holding(s, K) <==> (forall r :: IsRoot(s, r) ==> r in K) && ClosedIn(s.heap, K)
  {
    if Holding(s, K) {
      forall r | IsRoot(s, r) ensures r in K {
        if Gc(r) in s.mt { var i :| 0 <= i < |s.mt| && s.mt[i] == Gc(r); }
      }
      forall a, b | a in K && Edge(s.heap, a, b) ensures b in K {
        var o := s.heap[a];
        if o.home.Nowhere? {
          assert SlotsIn(o, K);
          var j :| 0 <= j < |o.slots| && o.slots[j] == Gc(b);
          assert o.slots[j].r in K;
        } else {
          assert TenantIn(s, a, K);
        }
      }
    }
    if (forall r :: IsRoot(s, r) ==> r in K) && ClosedIn(s.heap, K) { WithinHolding(s, K); }
  }

  lemma WithinHolding(s: State, K: iset<Ref>)
    requires (forall r :: IsRoot(s, r) ==> r in K) && ClosedIn(s.heap, K)
    ensures Holding(s, K)
  {
    assert IsRoot(s, s.main) && IsRoot(s, s.running) && (s.registry.Gc? ==> IsRoot(s, s.registry.r));
    forall i | 0 <= i < |s.mt| && s.mt[i].Gc? ensures s.mt[i].r in K { assert IsRoot(s, s.mt[i].r); }
    forall a | a in K && a in s.heap && s.heap[a].home.Nowhere? ensures SlotsIn(s.heap[a], K) {
      forall j | 0 <= j < |s.heap[a].slots| && s.heap[a].slots[j].Gc? ensures s.heap[a].slots[j].r in K {
        assert Edge(s.heap, a, s.heap[a].slots[j].r);
      }
    }
    forall a | a in K && a in s.heap && s.heap[a].home.Stack? ensures TenantIn(s, a, K) {
      var t, i := s.heap[a].home.thread, s.heap[a].home.slot;
      if t in s.heap && i < |s.heap[t].slots| && s.heap[t].slots[i].Gc? {
        assert Edge(s.heap, a, s.heap[t].slots[i].r);
      }
    }
  }

  /** What can be reached is the least such set. */
  lemma ReachableIs(s: State, r: Ref)
    ensures Reachable(s, r) <==> forall K: iset<Ref> :: Holding(s, K) ==> r in K
  {
    if Reachable(s, r) {
      forall K: iset<Ref> | Holding(s, K) ensures r in K {
        HoldingWithin(s, K);
        ReachWithin(s, r, K);
      }
    }
    if forall K: iset<Ref> :: Holding(s, K) ==> r in K {
      var K := iset q | Reachable(s, q);
      ReachClosed(s, K);
      HoldingWithin(s, K);
    }
  }
}
