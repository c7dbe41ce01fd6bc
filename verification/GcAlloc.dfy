/**
  Allocation of every kind of object, string interning, and the life of an open
  upvalue, with the invariant they keep.
 */
module GcAlloc {
  import opened Common
  import opened GcModel
  import opened GcMark
  import opened GcCycle
  import opened GcSweep
  import opened GcStep
  import opened GcPhases
  import opened GcMutator

  // ---------------------------------------------------------------- operations

  /** Links an object into `rootgc` at position `p`; a cursor past `p` keeps
      designating the same element. */
  function InsertRoot(s: State, p: nat, r: Ref): State
    requires p <= |s.rootgc|
  {
    s.(rootgc := s.rootgc[..p] + [r] + s.rootgc[p..], sweepgc := if s.sweepgc <= p then s.sweepgc else s.sweepgc + 1)
  }

  function IndexOf(l: seq<Ref>, r: Ref): (i: nat)
    requires r in l
    ensures i < |l| && l[i] == r
  {
    if l[0] == r then 0 else 1 + IndexOf(l[1..], r)
  }

  function NewObj(s: State, kind: Kind, hash: nat, slots: seq<Val>, home: Home): Obj {
    Obj(kind, White(s.white), false, hash, slots, home)
  }

  /** A new object takes the current white and joins `rootgc`: at the head
      (`luaC_link`), or behind the main thread for userdata (`luaS_newudata`). */
  function AddObject(s: State, r: Ref, kind: Kind, slots: seq<Val>): State
    requires s.main in s.rootgc
  {
    var p := if kind.KUserdata? then IndexOf(s.rootgc, s.main) + 1 else 0;
    InsertRoot(s.(heap := s.heap[r := NewObj(s, kind, 0, slots, Nowhere)]), p, r)
  }

  /** A new string joins the bucket of its hash (`newlstr`). */
  function AddString(s: State, r: Ref, hash: nat): State
    requires |s.strt| > 0
  {
    var b := hash % |s.strt|;
    s.(heap := s.heap[r := NewObj(s, KString, hash, [], Nowhere)], strt := s.strt[b := [r] + s.strt[b]])
  }

  /** A new upvalue, open on slot `i` of thread `t` (end of `luaF_findupval`). */
  function AddOpen(s: State, r: Ref, t: Ref, i: nat): State {
    s.(heap := s.heap[r := NewObj(s, KUpval, 0, [], Stack(t, i))], uvhead := [r] + s.uvhead)
  }

  /** An object met again while dead gets the current white back. */
  function Resurrect(s: State, r: Ref): State
    requires r in s.heap
  {
    if IsDead(s, r) then Whiten(s, r) else s
  }

  /** Closes one open upvalue (one turn of `luaF_close` with `luaC_linkupval`). */
  function CloseUpval(s: State, u: Ref): State
    requires u in s.heap && s.heap[u].home.Stack?
  {
    var o := s.heap[u];
    if IsDead(s, u) then s.(heap := s.heap - {u}, uvhead := Without(s.uvhead, u))
    else
      var s1 := Detach(s, u);
      if !o.color.Gray? then s1
      else if s.phase.Propagate? then
        var s2 := Paint(s1, u, Black);
        var vs := Vals(s.heap, o);
        if vs != [] && vs[0].Gc? && IsWhite(s2.heap, vs[0].r) then BarrierForward(s2, u, vs[0].r) else s2
      else Whiten(s1, u)
  }

  // ---------------------------------------------------------------- adding an object

  /** `s'` is `s` with one more object, of the current white. */
  ghost predicate Added(s: State, s': State, r: Ref) {
    && r !in s.heap && r in s'.heap
    && s' == s.(heap := s.heap[r := s'.heap[r]], rootgc := s'.rootgc, strt := s'.strt, uvhead := s'.uvhead,
        sweepgc := s'.sweepgc)
    && Current(s', r) && !s'.heap[r].fixed
    && forall v :: v in Vals(s'.heap, s'.heap[r]) ==> LiveVal(s, v)
  }

  lemma AddedVals(s: State, s': State, r: Ref, q: Ref)
    requires Struct(s) && Added(s, s', r) && q in s.heap
    ensures s'.heap[q] == s.heap[q] && Vals(s'.heap, s'.heap[q]) == Vals(s.heap, s.heap[q])
  {
    assert Listed(s, q);
  }

  lemma AddedLive(s: State, s': State, r: Ref)
    requires Struct(s) && LiveClosed(s) && Added(s, s', r)
    ensures LiveClosed(s')
    ensures forall q :: q != r ==> (Live(s', q) <==> Live(s, q))
  {
    forall q | q != r ensures Live(s', q) <==> Live(s, q) {}
    forall a, b | Live(s', a) && Edge(s'.heap, a, b) ensures Live(s', b) {
      if a == r {
        assert LiveVal(s, Gc(b));
      } else {
        AddedVals(s, s', r, a);
        assert Live(s, a) && Edge(s.heap, a, b);
      }
    }
    forall q | IsRoot(s', q) ensures Live(s', q) { assert IsRoot(s, q); }
  }

  lemma AddedMark(s: State, s': State, r: Ref, X: set<Ref>)
    requires SweepBase(s) && NoOther(s) && MarkInv(s, X) && Added(s, s', r)
    ensures MarkInv(s', X) && NoOther(s')
  {
    forall q | q in s'.heap ensures !IsDead(s', q) { if q != r { assert !IsDead(s, q); } }
    forall q | q in s'.heap && !s'.heap[q].color.White?
      ensures ColorOk(s', X, q) && (q in s'.gray || q in X || Done(s', q))
    {
      AddedVals(s, s', r, q);
      assert ColorOk(s, X, q);
      assert !IsDead(s, q);
      if q !in s.gray && q !in X {
        assert Done(s, q);
        forall w | w in Vals(s'.heap, s'.heap[q]) && w.Gc? ensures !IsWhite(s'.heap, w.r) {
          assert Live(s, q) && Edge(s.heap, q, w.r);
          assert Live(s, w.r);
        }
      }
    }
  }

  /** Adding an object keeps the invariant, given the list it joined is in order. */
  lemma AddedOk(s: State, s': State, r: Ref)
    requires Inv(s) && Added(s, s', r) && Struct(s')
    requires s.phase.Sweep? ==>
      s'.sweepgc <= |s'.rootgc|
          && forall k :: 0 <= k < s'.sweepgc ==> s'.rootgc[k] == r || s'.rootgc[k] in s.rootgc[..s.sweepgc]
    requires s.phase.SweepString? ==> s'.sweepgc == 0 && |s'.strt| == |s.strt|
    requires forall q :: q in s.uvhead ==> q in s'.uvhead
    ensures Inv(s')
  {
    AddedLive(s, s', r);
    forall q | q in s'.heap && s'.heap[q].color.Black? ensures !NeverBlack(s'.heap[q]) { assert q in s.heap; }
    forall q | q in s.heap ensures Current(s', q) <==> Current(s, q) {}
    match s.phase {
      case Propagate =>
        AddedMark(s, s', r, Waiting(s));
        assert IsRoot(s, s.main);
        if s.registry.Gc? { assert IsRoot(s, s.registry.r); }
        MarkPhaseInv(s, s', Waiting(s));
      case Sweep =>
        forall k | 0 <= k < s'.sweepgc ensures SweptAt(s', s'.rootgc[k]) { AddedSwept(s, s', r, k); }
      case _ =>
        forall q | q in s'.heap && q != r ensures Current(s, q) ==> Current(s', q) {}
    }
  }

  lemma NobodyOn(s: State, r: Ref)
    requires Struct(s) && r !in s.heap
    ensures forall u :: u in s.heap ==> !OpenOn(s.heap[u], r)
  {
    forall u | u in s.heap ensures !OpenOn(s.heap[u], r) { assert Listed(s, u); }
  }

  lemma AddedSwept(s: State, s': State, r: Ref, k: nat)
    requires SweepInv(s) && Added(s, s', r) && Struct(s') && k < s'.sweepgc <= |s'.rootgc|
    requires s'.rootgc[k] == r || s'.rootgc[k] in s.rootgc[..s.sweepgc]
    ensures SweptAt(s', s'.rootgc[k])
  {
    var t := s'.rootgc[k];
    if t == r {
      NobodyOn(s, r);
    } else {
      var j :| 0 <= j < s.sweepgc && s.rootgc[j] == t;
      assert SweptAt(s, s.rootgc[j]);
    }
  }

  lemma AddObjectStruct(s: State, r: Ref, kind: Kind, slots: seq<Val>)
    requires Struct(s) && r !in s.heap && !kind.KString? && s.main in s.rootgc
    ensures Struct(AddObject(s, r, kind, slots))
    ensures AddObject(s, r, kind, slots).sweepgc <= s.sweepgc + 1
  {
    var s' := AddObject(s, r, kind, slots);
    var p := if kind.KUserdata? then IndexOf(s.rootgc, s.main) + 1 else 0;
    InsertDistinct(s.rootgc, p, r);
    forall b | 0 <= b < |s.strt| ensures BucketOk(s', b) { assert BucketOk(s, b); }
    forall q | q in s'.heap ensures Listed(s', q) { if q != r { assert Listed(s, q); } }
  }

  lemma InsertDistinct(l: seq<Ref>, p: nat, r: Ref)
    requires Distinct(l) && r !in l && p <= |l|
    ensures Distinct(l[..p] + [r] + l[p..])
    ensures forall q :: q in l[..p] + [r] + l[p..] <==> q == r || q in l
  {
    var m := l[..p] + [r] + l[p..];
    assert l == l[..p] + l[p..];
    forall i, j | 0 <= i < j < |m| ensures m[i] != m[j] {
      assert m[i] == if i < p then l[i] else if i == p then r else l[i - 1];
      assert m[j] == if j < p then l[j] else if j == p then r else l[j - 1];
    }
  }

  /** Behind the sweep cursor are the new object and what was there. */
  lemma AddObjectSwept(s: State, r: Ref, kind: Kind, slots: seq<Val>)
    requires Struct(s) && r !in s.heap && s.main in s.rootgc && s.sweepgc <= |s.rootgc|
    ensures var s' := AddObject(s, r, kind, slots);
      forall k :: 0 <= k < s'.sweepgc && k < |s'.rootgc| ==>
        s'.rootgc[k] == r || s'.rootgc[k] in s.rootgc[..s.sweepgc]
  {
    var s' := AddObject(s, r, kind, slots);
    var p := if kind.KUserdata? then IndexOf(s.rootgc, s.main) + 1 else 0;
    forall k | 0 <= k < s'.sweepgc && k < |s'.rootgc|
        ensures s'.rootgc[k] == r || s'.rootgc[k] in s.rootgc[..s.sweepgc] {
      if k < p && k < s.sweepgc { assert s'.rootgc[k] == s.rootgc[..s.sweepgc][k]; }
      if k > p { assert s'.rootgc[k] == s.rootgc[..s.sweepgc][k - 1]; }
    }
  }

  lemma AddObjectOk(s: State, r: Ref, kind: Kind, slots: seq<Val>)
    requires Inv(s) && r !in s.heap && !kind.KString? && forall v :: v in slots ==> LiveVal(s, v)
    ensures s.main in s.rootgc && Inv(AddObject(s, r, kind, slots))
  {
    assert Listed(s, s.main);
    AddObjectStruct(s, r, kind, slots);
    var s' := AddObject(s, r, kind, slots);
    if s.phase.Sweep? { AddObjectSwept(s, r, kind, slots); }
    AddedOk(s, s', r);
  }

  lemma AddStringStruct(s: State, r: Ref, hash: nat)
    requires Struct(s) && r !in s.heap
    ensures Struct(AddString(s, r, hash))
  {
    var s' := AddString(s, r, hash);
    forall b | 0 <= b < |s.strt| ensures BucketOk(s', b) {
      assert BucketOk(s, b);
      if b == hash % |s.strt| { InsertDistinct(s.strt[b], 0, r);
          assert [r] + s.strt[b] == s.strt[b][..0] + [r] + s.strt[b][0..]; }
    }
    forall q | q in s'.heap ensures Listed(s', q) { if q != r { assert Listed(s, q); } }
  }

  lemma AddStringOk(s: State, r: Ref, hash: nat)
    requires Inv(s) && r !in s.heap
    ensures Inv(AddString(s, r, hash))
  {
    AddStringStruct(s, r, hash);
    if s.phase.Sweep? {
      forall k | 0 <= k < s.sweepgc ensures s.rootgc[k] in s.rootgc[..s.sweepgc] {
        assert s.rootgc[k] == s.rootgc[..s.sweepgc][k];
      }
    }
    AddedOk(s, AddString(s, r, hash), r);
  }

  lemma AddOpenStruct(s: State, r: Ref, t: Ref, i: nat)
    requires Struct(s) && r !in s.heap && t in s.heap && s.heap[t].kind.KThread? && i < |s.heap[t].slots|
    ensures Struct(AddOpen(s, r, t, i))
  {
    var s' := AddOpen(s, r, t, i);
    InsertDistinct(s.uvhead, 0, r);
    assert [r] + s.uvhead == s.uvhead[..0] + [r] + s.uvhead[0..];
    forall b | 0 <= b < |s.strt| ensures BucketOk(s', b) { assert BucketOk(s, b); }
    forall q | q in s'.heap ensures Listed(s', q) { if q != r { assert Listed(s, q); } }
  }

  lemma AddOpenOk(s: State, r: Ref, t: Ref, i: nat)
    requires Inv(s) && r !in s.heap && Live(s, t) && s.heap[t].kind.KThread? && i < |s.heap[t].slots|
    ensures Inv(AddOpen(s, r, t, i))
  {
    AddOpenStruct(s, r, t, i);
    var s' := AddOpen(s, r, t, i);
    forall v | v in Vals(s'.heap, s'.heap[r]) ensures LiveVal(s, v) {
      assert s.heap[t].home.Nowhere?;
      assert v == s.heap[t].slots[i];
      if v.Gc? { assert Edge(s.heap, t, v.r); }
    }
    if s.phase.Sweep? {
      forall k | 0 <= k < s.sweepgc ensures s.rootgc[k] in s.rootgc[..s.sweepgc] {
        assert s.rootgc[k] == s.rootgc[..s.sweepgc][k];
      }
    }
    AddedOk(s, s', r);
  }

  // ---------------------------------------------------------------- resurrection

  /** A dead object may be given back the current white if all it refers to is live. */
  lemma ResurrectLive(s: State, r: Ref)
    requires SweepBase(s) && r in s.heap && forall v :: v in Vals(s.heap, s.heap[r]) ==> LiveVal(s, v)
    ensures SweepBase(Whiten(s, r)) && Live(Whiten(s, r), r)
    ensures forall q :: q != r ==> (Live(Whiten(s, r), q) <==> Live(s, q))
  {
    WhitenStruct(s, r, White(s.white));
    var s' := Whiten(s, r);
    forall q | q != r ensures Live(s', q) <==> Live(s, q) {}
    forall q | q in s'.heap ensures Vals(s'.heap, s'.heap[q]) == Vals(s.heap, s.heap[q]) {}
    forall a, b | Live(s', a) && Edge(s'.heap, a, b) ensures Live(s', b) {
      if a == r { assert LiveVal(s, Gc(b)); } else { assert Live(s, a) && Edge(s.heap, a, b); }
    }
    forall q | IsRoot(s', q) ensures Live(s', q) { assert IsRoot(s, q); }
  }

  lemma ResurrectOk(s: State, r: Ref)
    requires Inv(s) && r in s.heap && forall v :: v in Vals(s.heap, s.heap[r]) ==> LiveVal(s, v)
    ensures Inv(Resurrect(s, r)) && Live(Resurrect(s, r), r)
    ensures forall q :: Live(s, q) ==> Live(Resurrect(s, r), q)
  {
    if IsDead(s, r) {
      ResurrectLive(s, r);
      assert !Current(s, r);
      PaintPhase(s, r, White(s.white));
    }
  }

  /** The value of an upvalue open on a live thread is live. */
  lemma OpenValue(s: State, u: Ref)
    requires SweepBase(s) && u in s.heap && s.heap[u].home.Stack? && Live(s, s.heap[u].home.thread)
    ensures forall v :: v in Vals(s.heap, s.heap[u]) ==> LiveVal(s, v)
  {
    var t := s.heap[u].home.thread;
    assert Listed(s, u);
    assert s.heap[t].home.Nowhere?;
    forall v | v in Vals(s.heap, s.heap[u]) && v.Gc? ensures Live(s, v.r) { assert Edge(s.heap, t, v.r); }
  }

  // ---------------------------------------------------------------- closing

  /** Freeing a dead open upvalue. */
  lemma CloseDeadOk(s: State, u: Ref)
    requires Inv(s) && u in s.heap && s.heap[u].home.Stack? && IsDead(s, u)
    ensures Inv(CloseUpval(s, u)) && Erasable(s, u)
  {
    assert Listed(s, u);
    assert s.heap[u].kind.KUpval?;
    assert IsRoot(s, s.main);
    SweepOpenOneOk(s, u);
    var s' := CloseUpval(s, u);
    assert !Current(s, u);
    forall q | q in s'.heap ensures Current(s', q) <==> Current(s, q) {}
    if s.phase.Sweep? {
      forall k | 0 <= k < s'.sweepgc ensures SweptAt(s', s'.rootgc[k]) {
        assert SweptAt(s, s.rootgc[k]);
        assert s.rootgc[k] in s.rootgc && s.rootgc[k] != u;
      }
    }
  }

  lemma CloseColor(s: State, u: Ref)
    requires NoBadBlack(s) && u in s.heap && s.heap[u].home.Stack? && !IsDead(s, u)
    ensures s.heap[u].color.Gray? || Current(s, u)
  {
    assert !s.heap[u].color.Black?;
  }

  lemma CloseSweepBase(s: State, u: Ref)
    requires SweepBase(s) && !s.phase.Propagate? && u in s.heap && s.heap[u].home.Stack? && !IsDead(s, u)
    ensures SweepBase(CloseUpval(s, u))
    ensures Current(CloseUpval(s, u), u)
  {
    assert Listed(s, u);
    DetachOk(s, u);
    CloseColor(s, u);
    WhitenOk(Detach(s, u), u);
  }

  lemma CloseSweepColors(s: State, u: Ref)
    requires !s.phase.Propagate? && u in s.heap && s.heap[u].home.Stack? && !IsDead(s, u)
    ensures forall q :: Current(s, q) ==> Current(CloseUpval(s, u), q)
  {
  }

  /** Outside the mark phase a closed upvalue ends up white. */
  lemma CloseSweepOk(s: State, u: Ref)
    requires Inv(s) && !s.phase.Propagate? && u in s.heap && s.heap[u].home.Stack? && !IsDead(s, u)
    ensures Inv(CloseUpval(s, u))
  {
    CloseSweepBase(s, u);
    CloseSweepColors(s, u);
    var s' := CloseUpval(s, u);
    if s.phase.Sweep? {
      forall k | 0 <= k < s'.sweepgc ensures k <= |s.rootgc| && SweptAt(s', s'.rootgc[k]) { CloseSwept(s, u, k); }
    } else if s.phase.SweepString? {
    } else {
      forall q | q in s'.heap ensures Current(s', q) { assert Current(s, q); }
    }
  }

  /** Outside the mark phase closing touches one object and the head of the list. */
  lemma CloseShape(s: State, u: Ref)
    requires !s.phase.Propagate? && u in s.heap && s.heap[u].home.Stack? && !IsDead(s, u)
    ensures var s' := CloseUpval(s, u);
      && s'.rootgc == [u] + s.rootgc && s'.white == s.white
      && s'.sweepgc == (if s.sweepgc == 0 then 0 else s.sweepgc + 1)
      && s'.heap == s.heap[u := s'.heap[u]] && s'.heap[u].home.Nowhere? && s'.heap[u].kind == s.heap[u].kind
  {
  }

  lemma CloseSwept(s: State, u: Ref, k: nat)
    requires SweepInv(s) && s.phase.Sweep? && u in s.heap && s.heap[u].home.Stack? && !IsDead(s, u)
    requires Struct(CloseUpval(s, u)) && Current(CloseUpval(s, u), u) && k < CloseUpval(s, u).sweepgc
    ensures |CloseUpval(s, u).rootgc| == |s.rootgc| + 1 && SweptAt(CloseUpval(s, u), CloseUpval(s, u).rootgc[k])
  {
    var s' := CloseUpval(s, u);
    CloseShape(s, u);
    if k == 0 {
      NotOpenOn(s', u);
    } else {
      assert SweptAt(s, s.rootgc[k - 1]);
      assert s.rootgc[k - 1] in s.rootgc;
    }
  }

  /** Detaching an upvalue in the mark phase. */
  lemma CloseDetach(s: State, u: Ref)
    requires SweepBase(s) && NoOther(s) && MarkInv(s, Waiting(s)) && u in s.heap && s.heap[u].home.Stack?
    ensures var s1 := Detach(s, u); SweepBase(s1) && NoOther(s1) && MarkInv(s1, Waiting(s1) + {u})
  {
    assert Listed(s, u);
    assert !IsDead(s, u);
    DetachOk(s, u);
    var s1 := Detach(s, u);
    forall r | r in s1.heap ensures !IsDead(s1, r) { assert !IsDead(s, r); }
    DetachMark(s, Waiting(s), u);
    DetachWaiting(s, u);
    MarkInvWider(s1, Waiting(s), Waiting(s1) + {u});
  }

  /** While marking, a marked upvalue turns black when it closes, and its value
      is marked. */
  lemma CloseMarkOk(s: State, u: Ref)
    requires Inv(s) && s.phase.Propagate? && u in s.heap && s.heap[u].home.Stack?
    ensures Inv(CloseUpval(s, u))
  {
    CloseDetach(s, u);
    CloseColor(s, u);
    var s1 := Detach(s, u);
    assert IsRoot(s, s.main);
    if s.registry.Gc? { assert IsRoot(s, s.registry.r); }
    if s.heap[u].color.White? {
      DropWhite(s1, Waiting(s1), u);
    } else {
      CloseGray(s, s1, u);
    }
  }

  lemma DropWhite(s: State, X: set<Ref>, u: Ref)
    requires MarkInv(s, X + {u}) && IsWhite(s.heap, u)
    ensures MarkInv(s, X)
  {
    forall q | q in s.heap && !s.heap[q].color.White? ensures ColorOk(s, X, q) { assert ColorOk(s, X + {u}, q); }
  }

  lemma DetachMark(s: State, X: set<Ref>, u: Ref)
    requires Struct(s) && MarkInv(s, X) && u in s.heap && s.heap[u].home.Stack? && u in X
    ensures MarkInv(Detach(s, u), X)
  {
    var s' := Detach(s, u);
    assert s.heap[u].kind.KUpval?;
    forall q | q in s'.heap ensures Vals(s'.heap, s'.heap[q]) == Vals(s.heap, s.heap[q]) { assert Listed(s, q); }
    forall q | q in s'.heap && !s'.heap[q].color.White?
      ensures ColorOk(s', X, q) && (q in s'.gray || q in X || Done(s', q))
    {
      assert ColorOk(s, X, q);
      if q !in s.gray && q !in X { assert Done(s, q); }
    }
  }

  lemma DetachWaiting(s: State, u: Ref)
    requires u in s.heap
    ensures Waiting(s) <= Waiting(Detach(s, u)) + {u}
  {
  }

  lemma CloseGray(s: State, s1: State, u: Ref)
    requires s.phase.Propagate? && u in s.heap && s.heap[u].home.Stack? && s.heap[u].color.Gray?
        && s.heap[u].kind.KUpval?
    requires !IsWhite(s.heap, s.main) && MarkedVal(s.heap, s.registry) && |Vals(s.heap, s.heap[u])| <= 1
    requires s.main in s.heap && (s.registry.Gc? ==> s.registry.r in s.heap)
    requires s1 == Detach(s, u) && SweepBase(s1) && NoOther(s1) && MarkInv(s1, Waiting(s1) + {u}) == true
    ensures Inv(CloseUpval(s, u)) == true
  {
    var s2 := Paint(s1, u, Black);
    BlackenClosed(s1, u);
    CloseBarrier(s2, u, Vals(s.heap, s.heap[u]));
    var s' := CloseUpval(s, u);
    assert !IsWhite(s2.heap, s.main) && MarkedVal(s2.heap, s.registry);
    MarkInvWider(s', Waiting(s2), Waiting(s'));
  }

  lemma BlackenClosed(s: State, u: Ref)
    requires SweepBase(s) && NoOther(s) && MarkInv(s, Waiting(s) + {u}) && u in s.heap && s.heap[u].color.Gray?
    requires s.heap[u].home.Nowhere? && s.heap[u].kind.KUpval?
    ensures var s' := Paint(s, u, Black); SweepBase(s') && NoOther(s') && MarkInv(s', Waiting(s') + {u})
  {
    assert u !in s.gray && u !in s.grayagain;
    Blacken(s, Waiting(s) + {u}, u);
    assert !IsDead(s, u);
    PaintBase(s, u, Black);
    var s' := Paint(s, u, Black);
    forall r | r in s'.heap ensures !IsDead(s', r) { assert !IsDead(s, r); }
    assert Waiting(s') == Waiting(s);
  }

  lemma CloseBarrier(s: State, u: Ref, vs: seq<Val>)
    requires s.phase.Propagate? && SweepBase(s) && NoOther(s) && MarkInv(s, Waiting(s) + {u}) && u in s.heap
        && s.heap[u].color.Black?
    requires Vals(s.heap, s.heap[u]) == vs && |vs| <= 1
    ensures var s' := if vs != [] && vs[0].Gc? && IsWhite(s.heap, vs[0].r) then BarrierForward(s, u, vs[0].r) else s;
      SweepBase(s') && NoOther(s') && MarkInv(s', Waiting(s)) && Recolored(s, s') && Waiting(s') == Waiting(s)
      && forall r :: IsWhite(s'.heap, r) ==> IsWhite(s.heap, r)
  {
    if vs != [] && vs[0].Gc? && IsWhite(s.heap, vs[0].r) {
      CloseForward(s, u, vs[0].r);
    } else {
      assert Done(s, u);
      DropException(s, Waiting(s), u);
    }
  }

  /** The value of the closed upvalue is marked. */
  lemma CloseForward(s: State, u: Ref, r: Ref)
    requires s.phase.Propagate? && SweepBase(s) && NoOther(s) && MarkInv(s, Waiting(s) + {u}) == true && u in s.heap
        && s.heap[u].color.Black?
    requires Vals(s.heap, s.heap[u]) == [Gc(r)] && IsWhite(s.heap, r)
    ensures var s' := BarrierForward(s, u, r);
      SweepBase(s') && NoOther(s') && MarkInv(s', Waiting(s)) == true && Recolored(s, s') && Waiting(s') == Waiting(s)
      && forall r :: IsWhite(s'.heap, r) ==> IsWhite(s.heap, r)
  {
    ForwardMark(s, Waiting(s), u, r);
    RecoloredWhites(s, MarkObject(s, r));
  }
}
