/**
  Whole runs: any interleaving of the program's operations with collector steps.
 */
module GcRuns {
  import opened GcModel
  import opened GcMark
  import opened GcCycle
  import opened GcSweep
  import opened GcStep
  import opened GcPhases
  import opened GcMutator
  import opened GcAlloc
  import opened GcFull

  datatype Op =
    | Step                                                              // one singlestep of the collector
    | Collect                                                           // luaC_fullgc
    | Write(o: Ref, i: nat, v: Val)                                     // store with its barrier
    | StackWrite(t: Ref, i: nat, v: Val)                                // store to a stack slot, no barrier
    | NewObject(r: Ref, kind: Kind, slots: seq<Val>, dest: nat)         // allocation, anchored in the running stack
    | NewString(r: Ref, hash: nat, dest: nat)                           // interning of a new string
    | FoundString(r: Ref, dest: nat)                                    // interning of a known string, perhaps dead
    | NewUpval(r: Ref, i: nat, f: Ref, j: nat)                          // capture of a variable not captured yet
    | FoundUpval(u: Ref, f: Ref, j: nat)                                // capture of a captured variable, perhaps dead
    | Close(u: Ref)                                                     // a captured variable goes out of scope
    | SetMetatable(i: nat, v: Val)                                      // metatable of a basic type, no barrier
    | Resume(t: Ref)                                                    // another thread runs

  predicate RunningSlot(s: State, i: nat) {
    s.running in s.heap && i < |s.heap[s.running].slots|
  }

  /** A closure under construction: reachable and still white. */
  ghost predicate NewClosure(s: State, f: Ref, j: nat) {
    && Reachable(s, f) && f in s.heap
    && s.heap[f].kind.KFunction? && s.heap[f].color == White(s.white)
    && j < |s.heap[f].slots|
  }

  /** What the interpreter guarantees when it performs an operation: it can only
      use what it can reach, and names of new objects are new. */
  ghost predicate Enabled(s: State, op: Op) {
    match op
    case Step => true
    case Collect => true
    case Write(o, i, v) =>
      && Reachable(s, o) && o in s.heap && i < |s.heap[o].slots| && Usable(s, v)
      && s.heap[o].home.Nowhere? && !s.heap[o].kind.KThread? && !s.heap[o].kind.KString?
    case StackWrite(t, i, v) =>
      && t in s.heap && s.heap[t].kind.KThread? && i < |s.heap[t].slots| && Usable(s, v)
      && (Reachable(s, t) || exists u :: u in s.heap && s.heap[u].home == Stack(t, i) && Reachable(s, u))
    case NewObject(r, kind, slots, dest) =>
      && r !in s.heap && RunningSlot(s, dest) && (forall v :: v in slots ==> Usable(s, v))
      && !kind.KString? && !kind.KUpval?
    case NewString(r, hash, dest) => r !in s.heap && RunningSlot(s, dest)
    case FoundString(r, dest) => r in s.heap && s.heap[r].kind.KString? && RunningSlot(s, dest)
    case NewUpval(r, i, f, j) =>
      && r !in s.heap && RunningSlot(s, i) && NewClosure(s, f, j)
      && forall u :: u in s.heap ==> s.heap[u].home != Stack(s.running, i)
    case FoundUpval(u, f, j) =>
      u in s.heap && OpenOn(s.heap[u], s.running) && NewClosure(s, f, j)
    case Close(u) => u in s.heap && OpenOn(s.heap[u], s.running)
    case SetMetatable(i, v) => i < |s.mt| && Usable(s, v)
    case Resume(t) => Reachable(s, t) && t in s.heap && s.heap[t].kind.KThread?
  }

  function Apply(s: State, op: Op): State
    requires Inv(s) && Enabled(s, op)
  {
    match op
    case Step => SingleStep(s)
    case Collect => FullGc(s)
    case Write(o, i, v) => WriteSlot(s, o, i, v)
    case StackWrite(t, i, v) => SetSlot(s, t, i, v)
    case NewObject(r, kind, slots, dest) =>
      assert Listed(s, s.main);
      SetSlot(AddObject(s, r, kind, slots), s.running, dest, Gc(r))
    case NewString(r, hash, dest) => SetSlot(AddString(s, r, hash), s.running, dest, Gc(r))
    case FoundString(r, dest) => SetSlot(Resurrect(s, r), s.running, dest, Gc(r))
    case NewUpval(r, i, f, j) => SetSlot(AddOpen(s, r, s.running, i), f, j, Gc(r))
    case FoundUpval(u, f, j) => SetSlot(Resurrect(s, u), f, j, Gc(u))
    case Close(u) => CloseUpval(s, u)
    case SetMetatable(i, v) => s.(mt := s.mt[i := v])
    case Resume(t) => s.(running := t)
  }

  lemma UsableLive(s: State, v: Val)
    requires LiveClosed(s) && Usable(s, v)
    ensures LiveVal(s, v)
  {
    if v.Gc? { ReachableLive(s, v.r); }
  }

  lemma RunningLive(s: State)
    requires LiveClosed(s)
    ensures Live(s, s.running)
  {
    assert IsRoot(s, s.running);
  }

  /** A store to a closure that is still white needs no barrier. */
  lemma WhiteStoreOk(s: State, f: Ref, j: nat, v: Val)
    requires Inv(s) && Live(s, f) && s.heap[f].color.White? && s.heap[f].kind.KFunction? && j < |s.heap[f].slots|
        && LiveVal(s, v)
    ensures Inv(SetSlot(s, f, j, v))
  {
    WriteSlotOk(s, f, j, v);
  }

  lemma RootsChangeOk(s: State, s': State)
    requires Inv(s) && s' == s.(mt := s'.mt, running := s'.running)
    requires Live(s, s'.running) && s.heap[s'.running].kind.KThread?
    requires forall v :: v in s'.mt ==> LiveVal(s, v)
    ensures Inv(s')
  {
    forall b | 0 <= b < |s.strt| ensures BucketOk(s', b) { assert BucketOk(s, b); }
    forall q | q in s'.heap ensures Listed(s', q) { assert Listed(s, q); }
    forall a, b | Live(s', a) && Edge(s'.heap, a, b) ensures Live(s', b) { assert Live(s, a); }
    forall q | IsRoot(s', q) ensures Live(s', q) {
      if Gc(q) in s'.mt { assert LiveVal(s, Gc(q)); } else if q != s'.running { assert IsRoot(s, q); }
    }
    RootsPhase(s, s');
  }

  lemma RootsPhase(s: State, s': State)
    requires Inv(s) && SweepBase(s') && s' == s.(mt := s'.mt, running := s'.running)
    ensures PhaseInv(s')
  {
    forall r ensures Current(s', r) <==> Current(s, r) {}
    if s.phase.Propagate? {
      forall r | r in s'.heap && !s'.heap[r].color.White?
        ensures ColorOk(s', Waiting(s'), r) && (r in s'.gray || r in Waiting(s') || Done(s', r))
      {
        assert ColorOk(s, Waiting(s), r);
        if r !in s.gray && r !in Waiting(s) { assert Done(s, r); }
      }
      forall r | r in s'.heap ensures !IsDead(s', r) { assert !IsDead(s, r); }
    } else {
      if s.phase.Sweep? {
        forall k | 0 <= k < s'.sweepgc ensures SweptAt(s', s'.rootgc[k]) { assert SweptAt(s, s.rootgc[k]); }
      }
    }
  }

  /** Every operation of every run keeps the collector's invariant. */
  lemma ApplyOk(s: State, op: Op)
    requires Inv(s) && Enabled(s, op)
    ensures Inv(Apply(s, op))
  {
    RunningLive(s);
    match op {
      case Step => StepInv(s);
      case Collect =>
      case Write(o, i, v) => ReachableLive(s, o); UsableLive(s, v); WriteSlotOk(s, o, i, v);
      case StackWrite(t, i, v) => UsableLive(s, v); StackWriteOk(s, t, i, v);
      case NewObject(r, kind, slots, dest) =>
        forall v | v in slots ensures LiveVal(s, v) { UsableLive(s, v); }
        AddObjectOk(s, r, kind, slots);
        AddLive(AddObject(s, r, kind, slots), r);
        StackWriteOk(AddObject(s, r, kind, slots), s.running, dest, Gc(r));
      case NewString(r, hash, dest) =>
        AddStringOk(s, r, hash);
        AddLive(AddString(s, r, hash), r);
        StackWriteOk(AddString(s, r, hash), s.running, dest, Gc(r));
      case FoundString(r, dest) =>
        ResurrectOk(s, r);
        StackWriteOk(Resurrect(s, r), s.running, dest, Gc(r));
      case NewUpval(r, i, f, j) =>
        AddOpenOk(s, r, s.running, i);
        AddLive(AddOpen(s, r, s.running, i), r);
        ReachableLive(s, f);
        WhiteStoreOk(AddOpen(s, r, s.running, i), f, j, Gc(r));
      case FoundUpval(u, f, j) =>
        OpenValue(s, u);
        ResurrectOk(s, u);
        ReachableLive(s, f);
        WhiteStoreOk(Resurrect(s, u), f, j, Gc(u));
      case Close(u) =>
        if IsDead(s, u) { CloseDeadOk(s, u); }
        else if s.phase.Propagate? { CloseMarkOk(s, u); }
        else { CloseSweepOk(s, u); }
      case SetMetatable(i, v) =>
        UsableLive(s, v);
        forall w | w in s.mt[i := v] ensures LiveVal(s, w) { if w in s.mt && w.Gc? { assert IsRoot(s, w.r); } }
        RootsChangeOk(s, Apply(s, op));
      case Resume(t) =>
        ReachableLive(s, t);
        forall w | w in s.mt ensures LiveVal(s, w) { if w.Gc? { assert IsRoot(s, w.r); } }
        RootsChangeOk(s, Apply(s, op));
    }
  }

  /** A new object is live. */
  lemma AddLive(s: State, r: Ref)
    requires r in s.heap && s.heap[r].color == White(s.white)
    ensures Live(s, r)
  {
  }

  /** Writing and closing a live upvalue free nothing. */
  lemma WriteFreesNothing(s: State, o: Ref, i: nat, v: Val)
    requires o in s.heap && i < |s.heap[o].slots|
    ensures WriteSlot(s, o, i, v).heap.Keys == s.heap.Keys
  {
  }

  lemma CloseFrees(s: State, u: Ref)
    requires u in s.heap && s.heap[u].home.Stack?
    ensures CloseUpval(s, u).heap.Keys == if IsDead(s, u) then s.heap.Keys - {u} else s.heap.Keys
  {
  }

  /** An operation takes out of the heap only what the program could not reach. */
  lemma ApplyFrees(s: State, op: Op, r: Ref)
    requires Inv(s) && Enabled(s, op) && r in s.heap && r !in Apply(s, op).heap
    ensures !Reachable(s, r)
  {
    match op {
      case Step => SingleStepOk(s);
      case Collect => FullGcExact(s);
      case Write(o, i, v) => WriteFreesNothing(s, o, i, v);
      case Close(u) =>
        CloseFrees(s, u);
        if Reachable(s, u) {
          ReachableLive(s, u);
          if IsDead(s, u) { CloseDeadOk(s, u); }
        }
      case StackWrite(_, _, _) =>
      case NewObject(_, _, _, _) =>
      case NewString(_, _, _) =>
      case FoundString(_, _) =>
      case NewUpval(_, _, _, _) =>
      case FoundUpval(_, _, _) =>
      case SetMetatable(_, _) =>
      case Resume(_) =>
    }
  }

  // ---------------------------------------------------------------- runs

  /** The state a new Lua state starts in: main thread 0, its table of globals 1,
      the registry 2, an empty string table. */
  function Initial(stack: nat, buckets: nat, tags: nat): State {
    var main := Obj(KThread, White(false), true, 0, [Gc(1)] + seq(stack, i => Plain), Nowhere);
    var table := Obj(KTable, White(false), false, 0, [], Nowhere);
    State(map[0 := main, 1 := table, 2 := table], [2, 1, 0], seq(buckets + 1, i => []), [], [], [],
          Pause, false, 0, 0, 0, 0, Gc(2), seq(tags, i => Plain))
  }

  lemma InitialStruct(stack: nat, buckets: nat, tags: nat)
    ensures Struct(Initial(stack, buckets, tags)) && AllCurrent(Initial(stack, buckets, tags))
  {
    var s := Initial(stack, buckets, tags);
    forall b | 0 <= b < |s.strt| ensures BucketOk(s, b) {}
    assert s.rootgc[0] == 2 && s.rootgc[1] == 1 && s.rootgc[2] == 0;
    forall r | r in s.heap ensures Listed(s, r) && Current(s, r) {}
  }

  lemma InitialOk(stack: nat, buckets: nat, tags: nat)
    ensures Inv(Initial(stack, buckets, tags))
  {
    var s := Initial(stack, buckets, tags);
    InitialStruct(stack, buckets, tags);
    forall a, b | Live(s, a) && Edge(s.heap, a, b) ensures Live(s, b) {
      assert b == 1;
    }
    forall q | IsRoot(s, q) ensures Live(s, q) {}
  }

  /** A run: from a state in order, each next state results from an operation
      the program is entitled to. */
  ghost predicate IsRun(states: seq<State>, ops: seq<Op>) {
    && |states| == |ops| + 1
    && Inv(states[0])
    && forall i :: 0 <= i < |ops| && Inv(states[i]) ==>
        Enabled(states[i], ops[i]) && states[i + 1] == Apply(states[i], ops[i])
  }

  lemma {:induction false} RunInv(states: seq<State>, ops: seq<Op>, n: nat)
    requires IsRun(states, ops) && n < |states|
    ensures Inv(states[n])
  {
    if n > 0 {
      RunInv(states, ops, n - 1);
      ApplyOk(states[n - 1], ops[n - 1]);
      assert states[n - 1 + 1] == Apply(states[n - 1], ops[n - 1]);
    }
  }

  /** Safety over whole runs: at every moment everything the program can reach
      is in the heap, and whatever an operation frees was beyond reach. */
  lemma RunSafe(states: seq<State>, ops: seq<Op>, n: nat, r: Ref)
    requires IsRun(states, ops) && n < |states|
    ensures Reachable(states[n], r) ==> r in states[n].heap
    ensures n < |ops| && r in states[n].heap && r !in states[n + 1].heap ==> !Reachable(states[n], r)
    ensures n < |ops| && Reachable(states[n + 1], r) ==> r in states[n + 1].heap && !Erasable(states[n + 1], r)
  {
    RunInv(states, ops, n);
    if Reachable(states[n], r) { ReachableLive(states[n], r); }
    if n < |ops| {
      RunInv(states, ops, n + 1);
      if r in states[n].heap && r !in states[n + 1].heap { ApplyFrees(states[n], ops[n], r); }
      if Reachable(states[n + 1], r) { ReachableLive(states[n + 1], r); }
    }
  }

  // ---------------------------------------------------------------- the assertions in the code

  /** `propagatemark` only ever takes gray objects from the list, and
      `luaF_close` never meets a black upvalue. */
  lemma ListAssertions(s: State, u: Ref)
    requires Inv(s)
    ensures s.phase.Propagate? && s.gray != [] ==> s.gray[0] in s.heap && s.heap[s.gray[0]].color.Gray?
    ensures u in s.heap && s.heap[u].home.Stack? ==> !s.heap[u].color.Black?
  {
    if s.phase.Propagate? && s.gray != [] { assert s.gray[0] in s.gray; }
  }
}
