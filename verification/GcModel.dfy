/**
  The heap of the Lua collector as a value: objects with their mark bits, the
  object lists, the gray lists, and every step of the incremental collector as
  a function from one state to the next.

  Objects are named by natural numbers.  An open upvalue has no value of its
  own: it designates a slot in the stack of its home thread.
 */
module GcModel {
  import opened Common

  type Ref = nat

  datatype Color = White(w: bool) | Gray | Black

  datatype Kind = KString | KUserdata | KUpval | KFunction | KTable | KThread | KProto

  /** A slot content: something the collector ignores, or a collectable object. */
  datatype Val = Plain | Gc(r: Ref)

  /** Where an object lives when it is an open upvalue. */
  datatype Home = Nowhere | Stack(thread: Ref, slot: nat)

  datatype Obj = Obj(kind: Kind, color: Color, fixed: bool, hash: nat, slots: seq<Val>, home: Home)

  type Heap = map<Ref, Obj>

  datatype Phase = Pause | Propagate | SweepString | Sweep | Finalize

  /** The global state.  `sweepgc` is the position in `rootgc` of the element the
      sweep cursor designates; `uvhead` is the ring of open upvalues. */
  datatype State = State(
    heap: Heap,
    rootgc: seq<Ref>,
    strt: seq<seq<Ref>>,
    uvhead: seq<Ref>,
    gray: seq<Ref>,
    grayagain: seq<Ref>,
    phase: Phase,
    white: bool,
    sweepstrgc: nat,
    sweepgc: nat,
    main: Ref,
    running: Ref,
    registry: Val,
    mt: seq<Val>)

  const GCSWEEPMAX: nat := 40

  // ---------------------------------------------------------------- reading

  predicate IsWhite(h: Heap, r: Ref) {
    r in h && h[r].color.White?
  }

  /** The object carries the white that is not current. */
  predicate IsDead(s: State, r: Ref) {
    r in s.heap && s.heap[r].color == White(!s.white)
  }

  /** The sweep test: an object with the other white is erased unless it is fixed. */
  predicate Erasable(s: State, r: Ref) {
    IsDead(s, r) && !s.heap[r].fixed
  }

  predicate OpenOn(o: Obj, t: Ref) {
    o.home.Stack? && o.home.thread == t
  }

  /** The values an object refers to. */
  function Vals(h: Heap, o: Obj): seq<Val> {
    match o.home
    case Nowhere => o.slots
    case Stack(t, i) => if t in h && i < |h[t].slots| then [h[t].slots[i]] else []
  }

  predicate Edge(h: Heap, a: Ref, b: Ref) {
    a in h && Gc(b) in Vals(h, h[a])
  }

  predicate IsRoot(s: State, r: Ref) {
    r == s.main || r == s.running || s.registry == Gc(r) || Gc(r) in s.mt
  }

  ghost predicate IsPath(s: State, path: seq<Ref>, r: Ref) {
    && |path| > 0
    && IsRoot(s, path[0])
    && path[|path| - 1] == r
    && forall i :: 0 <= i < |path| - 1 ==> Edge(s.heap, path[i], path[i + 1])
  }

  ghost predicate Reachable(s: State, r: Ref) {
    exists path :: IsPath(s, path, r)
  }

  /** A value the program may use: a non-collectable one or a reachable object. */
  ghost predicate Usable(s: State, v: Val) {
    v.Gc? ==> Reachable(s, v.r)
  }

  // ---------------------------------------------------------------- painting

  function Paint(s: State, r: Ref, c: Color): (s': State)
    requires r in s.heap
  {
    s.(heap := s.heap[r := s.heap[r].(color := c)])
  }

  function Whites(h: Heap): set<Ref> {
    set r | r in h && h[r].color.White?
  }

  function Work(s: State): nat {
    |Whites(s.heap)| + |s.gray|
  }

  /** An object that is unchanged, or only went from white to marked. */
  ghost predicate Darkened(o: Obj, o': Obj) {
    o' == o.(color := o'.color) && (o'.color == o.color || (o.color.White? && !o'.color.White?))
  }

  /** `s'` is `s` with some white objects darkened and pushed on the gray list;
      every push is paid for by an object that stopped being white. */
  ghost predicate Darker(s: State, s': State) {
    && s' == s.(heap := s'.heap, gray := s'.gray)
    && s'.heap.Keys == s.heap.Keys
    && (forall r :: r in s.heap ==> Darkened(s.heap[r], s'.heap[r]))
    && |Whites(s'.heap)| <= |Whites(s.heap)|
    && Work(s') <= Work(s)
  }

  lemma DarkerTrans(s: State, t: State, u: State)
    requires Darker(s, t) && Darker(t, u)
    ensures Darker(s, u)
  {
    forall r | r in s.heap ensures Darkened(s.heap[r], u.heap[r]) {
      assert Darkened(s.heap[r], t.heap[r]);
      assert Darkened(t.heap[r], u.heap[r]);
    }
  }

  lemma PaintDarker(s: State, r: Ref, c: Color)
    requires IsWhite(s.heap, r) && !c.White?
    ensures Darker(s, Paint(s, r, c))
    ensures |Whites(Paint(s, r, c).heap)| == |Whites(s.heap)| - 1
    ensures Darker(s, Paint(s, r, c).(gray := [r] + s.gray))
  {
    assert Whites(Paint(s, r, c).heap) == Whites(s.heap) - {r};
  }

  lemma PaintKeepsWhites(s: State, r: Ref, c: Color)
    requires r in s.heap && !s.heap[r].color.White? && !c.White?
    ensures Whites(Paint(s, r, c).heap) == Whites(s.heap)
  {
  }

  /** An object that was white and is repainted once its values are marked. */
  lemma RepaintDarker(s: State, s1: State, r: Ref, c: Color)
    requires IsWhite(s.heap, r) && Darker(s, s1) && !IsWhite(s1.heap, r) && !c.White?
    ensures Darker(s, Paint(s1, r, c))
    ensures Whites(Paint(s1, r, c).heap) == Whites(s1.heap)
  {
    PaintKeepsWhites(s1, r, c);
    var s2 := Paint(s1, r, c);
    forall q | q in s.heap ensures Darkened(s.heap[q], s2.heap[q]) {
      assert Darkened(s.heap[q], s1.heap[q]);
    }
  }

  // ---------------------------------------------------------------- marking

  /** Marks one white object (`reallymarkobject`). */
  function MarkObject(s: State, r: Ref): (s': State)
    requires IsWhite(s.heap, r)
    ensures Darker(s, s') && !IsWhite(s'.heap, r) && |Whites(s'.heap)| < |Whites(s.heap)|
    decreases |Whites(s.heap)|, 0
  {
    PaintDarker(s, r, Gray);
    PaintDarker(s, r, Black);
    var o := s.heap[r];
    match o.kind
    case KString =>
      Paint(s, r, Gray)
    case KUserdata =>
      var s1 := Paint(s, r, Black);
      var s2 := MarkValues(s1, o.slots);
      DarkerTrans(s, s1, s2);
      s2
    case KUpval =>
      var s1 := Paint(s, r, Gray);
      var s2 := MarkValues(s1, Vals(s.heap, o));
      DarkerTrans(s, s1, s2);
      if o.home.Nowhere? then RepaintDarker(s, s2, r, Black); Paint(s2, r, Black) else s2
    case _ =>
      Paint(s, r, Gray).(gray := [r] + s.gray)
  }

  /** Marks a value if it is a white object (`markvalue`). */
  function MarkValue(s: State, v: Val): (s': State)
    ensures Darker(s, s')
    ensures v.Gc? ==> !IsWhite(s'.heap, v.r)
    decreases |Whites(s.heap)|, 1
  {
    if v.Gc? && IsWhite(s.heap, v.r) then MarkObject(s, v.r) else s
  }

  function MarkValues(s: State, vs: seq<Val>): (s': State)
    ensures Darker(s, s')
    ensures forall v :: v in vs && v.Gc? ==> !IsWhite(s'.heap, v.r)
    decreases |Whites(s.heap)|, 2, |vs|
  {
    if vs == [] then s else
      var s1 := MarkValue(s, vs[0]);
      var s2 := MarkValues(s1, vs[1..]);
      DarkerTrans(s, s1, s2);
      s2
  }

  /** Takes one object from the gray list and traverses it (`propagatemark`).
      A thread never becomes black: it waits in `grayagain`. */
  function PropagateMark(s: State): (s': State)
    requires s.gray != [] && s.gray[0] in s.heap && !s.heap[s.gray[0]].color.White?
    ensures Work(s') < Work(s)
  {
    var r := s.gray[0];
    var o := s.heap[r];
    PaintKeepsWhites(s, r, Black);
    if o.kind.KThread? then
      MarkValues(s.(gray := s.gray[1..], grayagain := [r] + s.grayagain), o.slots)
    else
      MarkValues(Paint(s, r, Black).(gray := s.gray[1..]), o.slots)
  }

  // ---------------------------------------------------------------- the marking invariant

  predicate Traversable(k: Kind) {
    k.KFunction? || k.KTable? || k.KThread? || k.KProto?
  }

  /** The two gray lists hold distinct gray objects, each in one place. */
  ghost predicate GrayLists(s: State) {
    && (forall r :: r in s.gray ==> r in s.heap && s.heap[r].color.Gray? && Traversable(s.heap[r].kind))
    && (forall r :: r in s.grayagain ==>
        r in s.heap && s.heap[r].color.Gray? && (s.heap[r].kind.KTable? || s.heap[r].kind.KThread?))
    && Distinct(s.gray)
    && Distinct(s.grayagain)
    && (forall r :: r in s.gray ==> r !in s.grayagain)
  }

  /** Every value of the object is marked. */
  ghost predicate Done(s: State, r: Ref)
    requires r in s.heap
  {
    forall v :: v in Vals(s.heap, s.heap[r]) && v.Gc? ==> !IsWhite(s.heap, v.r)
  }

  predicate NeverBlack(o: Obj) {
    o.kind.KString? || o.kind.KThread? || o.home.Stack?
  }

  ghost predicate ColorOk(s: State, X: set<Ref>, r: Ref)
    requires r in s.heap
  {
    && (s.heap[r].color.Black? ==> !NeverBlack(s.heap[r]))
    && (s.heap[r].color.Gray? ==>
          s.heap[r].kind.KString? || s.heap[r].home.Stack? || r in s.gray || r in s.grayagain || r in X)
  }

  /** The invariant of the mark phase: a marked object that is neither waiting
      in `gray` nor excepted by `X` refers only to marked objects. */
  ghost predicate MarkInv(s: State, X: set<Ref>) {
    && GrayLists(s)
    && forall r :: r in s.heap && !s.heap[r].color.White? ==>
         ColorOk(s, X, r) && (r in s.gray || r in X || Done(s, r))
  }

  ghost predicate StringsPlain(s: State) {
    forall r :: r in s.heap && s.heap[r].kind.KString? ==> s.heap[r].slots == [] && s.heap[r].home.Nowhere?
  }

  ghost predicate HomesOk(s: State) {
    forall r :: r in s.heap && s.heap[r].home.Stack? ==> s.heap[r].kind.KUpval?
  }
}
