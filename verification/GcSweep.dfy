/**
  The sweep phases and the mutator's own list surgery: erasing and whitening
  objects, closing open upvalues, and the invariant all of them keep.
 */
module GcSweep {
  import opened Common
  import opened GcModel
  import opened GcMark
  import opened GcCycle

  /** A list without one of its elements. */
  function Without(l: seq<Ref>, r: Ref): (l': seq<Ref>)
    ensures forall q :: q in l' <==> q in l && q != r
    ensures Distinct(l) ==> Distinct(l')
    ensures |l'| <= |l| && (r in l ==> |l'| < |l|)
  {
    if l == [] then []
    else if l[0] == r then Without(l[1..], r)
    else
      assert l == [l[0]] + l[1..];
      assert Distinct(l) ==> Distinct(l[1..]) && l[0] !in l[1..];
      [l[0]] + Without(l[1..], r)
  }

  // ---------------------------------------------------------------- live objects

  predicate Live(s: State, r: Ref) {
    r in s.heap && !Erasable(s, r)
  }

  /** No live object and no root refers to an erasable or missing object. */
  ghost predicate LiveClosed(s: State) {
    && (forall a, b :: Live(s, a) && Edge(s.heap, a, b) ==> Live(s, b))
    && (forall r :: IsRoot(s, r) ==> Live(s, r))
  }

  lemma {:induction false} PathLive(s: State, path: seq<Ref>, r: Ref)
    requires LiveClosed(s) && IsPath(s, path, r)
    ensures Live(s, r)
    decreases |path|
  {
    if |path| > 1 {
      var n := |path|;
      var p := path[..n - 1];
      forall i | 0 <= i < |p| - 1 ensures Edge(s.heap, p[i], p[i + 1]) {
        assert Edge(s.heap, path[i], path[i + 1]);
      }
      PathLive(s, p, p[n - 2]);
      assert Edge(s.heap, path[n - 2], path[n - 2 + 1]);
    }
  }

  /** What the program can reach is live: allocated, and not about to be erased. */
  lemma ReachableLive(s: State, r: Ref)
    requires LiveClosed(s) && Reachable(s, r)
    ensures Live(s, r)
  {
    var path :| IsPath(s, path, r);
    PathLive(s, path, r);
  }

  /** Same roots, and every live object still there with the same references. */
  ghost predicate KeepsLive(s: State, s': State) {
    && s'.main == s.main && s'.running == s.running && s'.registry == s.registry && s'.mt == s.mt
    && forall r :: Live(s, r) ==>
         r in s'.heap && s'.heap[r].kind == s.heap[r].kind && s'.heap[r].fixed == s.heap[r].fixed
         && Vals(s'.heap, s'.heap[r]) == Vals(s.heap, s.heap[r])
  }

  lemma {:induction false} KeepsPath(s: State, s': State, path: seq<Ref>, r: Ref)
    requires LiveClosed(s) && KeepsLive(s, s')
    ensures IsPath(s, path, r) <==> IsPath(s', path, r)
    decreases |path|
  {
    if |path| > 1 {
      var n := |path|;
      var p := path[..n - 1];
      KeepsPath(s, s', p, p[n - 2]);
      if IsPath(s, path, r) || IsPath(s', path, r) {
        forall i | 0 <= i < |p| - 1
          ensures IsPath(s, path, r) ==> Edge(s.heap, p[i], p[i + 1])
          ensures IsPath(s', path, r) ==> Edge(s'.heap, p[i], p[i + 1])
        {
          assert p[i] == path[i] && p[i + 1] == path[i + 1];
        }
        assert IsPath(s, p, p[n - 2]);
        PathLive(s, p, p[n - 2]);
        assert path[n - 2] == p[n - 2];
        assert Edge(s.heap, path[n - 2], path[n - 1]) <==> Edge(s'.heap, path[n - 2], path[n - 1]);
        assert IsPath(s, path, r) ==> Edge(s.heap, path[n - 2], path[n - 2 + 1]);
        assert IsPath(s', path, r) ==> Edge(s'.heap, path[n - 2], path[n - 2 + 1]);
        forall i | 0 <= i < |path| - 1
          ensures Edge(s.heap, path[i], path[i + 1]) && Edge(s'.heap, path[i], path[i + 1])
        {
          if i < n - 2 {
            assert p[i] == path[i] && p[i + 1] == path[i + 1];
            assert Edge(s.heap, p[i], p[i + 1]);
            assert Edge(s'.heap, p[i], p[i + 1]);
          }
        }
      }
    }
  }

  /** Such a change alters nobody's reachability. */
  lemma KeepsReachable(s: State, s': State, r: Ref)
    requires LiveClosed(s) && KeepsLive(s, s')
    ensures Reachable(s, r) <==> Reachable(s', r)
  {
    if Reachable(s, r) {
      var path :| IsPath(s, path, r);
      KeepsPath(s, s', path, r);
    }
    if Reachable(s', r) {
      var path :| IsPath(s', path, r);
      KeepsPath(s, s', path, r);
    }
  }

  // ---------------------------------------------------------------- sweeping steps

  /** Gives a surviving object the current white (`makewhite`). */
  function Whiten(s: State, r: Ref): State
    requires r in s.heap
  {
    Paint(s, r, White(s.white))
  }

  /** Sweeps one string of bucket `b`. */
  function SweepStringOne(s: State, b: nat, r: Ref): State
    requires r in s.heap && b < |s.strt|
  {
    if Erasable(s, r) then s.(heap := s.heap - {r}, strt := s.strt[b := Without(s.strt[b], r)])
    else Whiten(s, r)
  }

  /** Sweeps one open upvalue. */
  function SweepOpenOne(s: State, u: Ref): State
    requires u in s.heap
  {
    if Erasable(s, u) then s.(heap := s.heap - {u}, uvhead := Without(s.uvhead, u))
    else Whiten(s, u)
  }

  /** The open upvalues of one thread. */
  function OpenOf(h: Heap, us: seq<Ref>, t: Ref): (l: seq<Ref>)
    ensures forall u :: u in l <==> u in us && u in h && OpenOn(h[u], t)
    ensures Distinct(us) ==> Distinct(l)
  {
    if us == [] then []
    else
      assert us == [us[0]] + us[1..];
      assert Distinct(us) ==> Distinct(us[1..]) && us[0] !in us[1..];
      (if us[0] in h && OpenOn(h[us[0]], t) then [us[0]] else []) + OpenOf(h, us[1..], t)
  }

  /** Puts an object at the head of `rootgc`.  A cursor past the head keeps
      designating the same element. */
  function LinkRoot(s: State, r: Ref): State {
    s.(rootgc := [r] + s.rootgc, sweepgc := if s.sweepgc == 0 then 0 else s.sweepgc + 1)
  }

  /** An open upvalue takes its own copy of the value and joins `rootgc`. */
  function Detach(s: State, u: Ref): State
    requires u in s.heap
  {
    var o := s.heap[u];
    LinkRoot(s.(heap := s.heap[u := o.(slots := Vals(s.heap, o), home := Nowhere)],
                uvhead := Without(s.uvhead, u)), u)
  }

  lemma EraseLive(s: State, s': State, r: Ref)
    requires LiveClosed(s) && Erasable(s, r)
    requires s' == s.(heap := s.heap - {r}, strt := s'.strt, uvhead := s'.uvhead, rootgc := s'.rootgc)
    requires forall u :: u in s.heap ==> !OpenOn(s.heap[u], r)
    ensures LiveClosed(s') && KeepsLive(s, s')
    ensures forall q :: Live(s, q) <==> Live(s', q)
  {
    forall q | q in s'.heap ensures Vals(s'.heap, s'.heap[q]) == Vals(s.heap, s.heap[q]) {}
    forall a, b | Live(s', a) && Edge(s'.heap, a, b) ensures Live(s', b) {
      assert Live(s, a) && Edge(s.heap, a, b);
    }
    forall q | IsRoot(s', q) ensures Live(s', q) {
      assert IsRoot(s, q);
    }
  }

  lemma WhitenLive(s: State, r: Ref)
    requires LiveClosed(s) && r in s.heap && !Erasable(s, r)
    ensures LiveClosed(Whiten(s, r)) && KeepsLive(s, Whiten(s, r))
    ensures forall q :: Live(s, q) <==> Live(Whiten(s, r), q)
  {
    var s' := Whiten(s, r);
    forall q | q in s'.heap ensures Vals(s'.heap, s'.heap[q]) == Vals(s.heap, s.heap[q]) {}
    forall a, b | Live(s', a) && Edge(s'.heap, a, b) ensures Live(s', b) {
      assert Live(s, a) && Edge(s.heap, a, b);
    }
    forall q | IsRoot(s', q) ensures Live(s', q) {
      assert IsRoot(s, q);
    }
  }

  lemma DetachLive(s: State, u: Ref)
    requires LiveClosed(s) && Struct(s) && u in s.heap && s.heap[u].home.Stack?
    ensures LiveClosed(Detach(s, u)) && KeepsLive(s, Detach(s, u))
    ensures forall q :: Live(s, q) <==> Live(Detach(s, u), q)
  {
    var s' := Detach(s, u);
    assert !s.heap[u].kind.KThread?;
    forall q | q in s'.heap ensures Vals(s'.heap, s'.heap[q]) == Vals(s.heap, s.heap[q]) {
      assert Listed(s, q);
    }
    forall a, b | Live(s', a) && Edge(s'.heap, a, b) ensures Live(s', b) {
      assert Live(s, a) && Edge(s.heap, a, b);
    }
    forall q | IsRoot(s', q) ensures Live(s', q) {
      assert IsRoot(s, q);
    }
  }

  // ---------------------------------------------------------------- structure is kept

  lemma WhitenStruct(s: State, r: Ref, c: Color)
    requires Struct(s) && r in s.heap
    ensures Struct(Paint(s, r, c))
  {
    var s' := Paint(s, r, c);
    forall b | 0 <= b < |s.strt| ensures BucketOk(s', b) { assert BucketOk(s, b); }
    forall q | q in s'.heap ensures Listed(s', q) { assert Listed(s, q); }
  }

  lemma EraseStringStruct(s: State, b: nat, r: Ref)
    requires Struct(s) && b < |s.strt| && r in s.strt[b] && r != s.main && r != s.running
    ensures Struct(s.(heap := s.heap - {r}, strt := s.strt[b := Without(s.strt[b], r)]))
  {
    var s' := s.(heap := s.heap - {r}, strt := s.strt[b := Without(s.strt[b], r)]);
    assert BucketOk(s, b);
    forall c | 0 <= c < |s'.strt| ensures BucketOk(s', c) { assert BucketOk(s, c); }
    forall q | q in s'.heap ensures Listed(s', q) { assert Listed(s, q); }
  }

  lemma EraseOpenStruct(s: State, u: Ref)
    requires Struct(s) && u in s.uvhead
    ensures Struct(s.(heap := s.heap - {u}, uvhead := Without(s.uvhead, u)))
  {
    var s' := s.(heap := s.heap - {u}, uvhead := Without(s.uvhead, u));
    assert s.heap[u].kind.KUpval?;
    forall c | 0 <= c < |s'.strt| ensures BucketOk(s', c) { assert BucketOk(s, c); }
    forall q | q in s'.heap ensures Listed(s', q) { assert Listed(s, q); }
  }

  lemma DetachStruct(s: State, u: Ref)
    requires Struct(s) && u in s.uvhead
    ensures Struct(Detach(s, u))
  {
    var s' := Detach(s, u);
    assert s.heap[u].kind.KUpval?;
    forall c | 0 <= c < |s'.strt| ensures BucketOk(s', c) { assert BucketOk(s, c); }
    forall q | q in s'.heap ensures Listed(s', q) { assert Listed(s, q); }
  }

  /** Unlinks an element of `rootgc` and frees it. */
  function Unlink(s: State, r: Ref): State {
    s.(heap := s.heap - {r}, rootgc := Without(s.rootgc, r))
  }

  lemma UnlinkStruct(s: State, r: Ref)
    requires Struct(s) && r in s.rootgc && r != s.main && r != s.running
    requires forall u :: u in s.heap ==> !OpenOn(s.heap[u], r)
    ensures Struct(Unlink(s, r))
  {
    var s' := Unlink(s, r);
    forall c | 0 <= c < |s'.strt| ensures BucketOk(s', c) { assert BucketOk(s, c); }
    forall q | q in s'.heap ensures Listed(s', q) { assert Listed(s, q); }
  }

  // ---------------------------------------------------------------- sweeping in general

  /** `s'` is `s` after some sweeping: the live objects are the same and keep
      their references, and only erasable objects may be gone. */
  ghost predicate Swept(s: State, s': State) {
    && KeepsLive(s, s')
    && s'.white == s.white
    && s'.heap.Keys <= s.heap.Keys
    && forall r :: Live(s, r) <==> Live(s', r)
  }

  lemma SweptTrans(s: State, t: State, u: State)
    requires Swept(s, t) && Swept(t, u)
    ensures Swept(s, u)
  {
  }

  ghost predicate NoBadBlack(s: State) {
    forall r :: r in s.heap && s.heap[r].color.Black? ==> !NeverBlack(s.heap[r])
  }

  /** What every step of the sweep phases keeps. */
  ghost predicate SweepBase(s: State) {
    Struct(s) && LiveClosed(s) && NoBadBlack(s)
  }

  predicate Current(s: State, r: Ref) {
    r in s.heap && s.heap[r].color == White(s.white)
  }

  lemma NotRoot(s: State, r: Ref)
    requires LiveClosed(s) && Erasable(s, r)
    ensures r != s.main && r != s.running
  {
    assert !Live(s, r);
    assert !IsRoot(s, r);
  }

  lemma SweepStringOneOk(s: State, b: nat, r: Ref)
    requires SweepBase(s) && b < |s.strt| && r in s.strt[b] && r in s.heap
    ensures SweepBase(SweepStringOne(s, b, r)) && Swept(s, SweepStringOne(s, b, r))
  {
    assert BucketOk(s, b);
    if Erasable(s, r) {
      NotRoot(s, r);
      forall u | u in s.heap ensures !OpenOn(s.heap[u], r) { assert Listed(s, u); }
      EraseLive(s, SweepStringOne(s, b, r), r);
      EraseStringStruct(s, b, r);
    } else {
      WhitenLive(s, r);
      WhitenStruct(s, r, White(s.white));
    }
  }

  lemma SweepOpenOneOk(s: State, u: Ref)
    requires SweepBase(s) && u in s.uvhead
    ensures SweepBase(SweepOpenOne(s, u)) && Swept(s, SweepOpenOne(s, u))
  {
    assert u in s.heap && s.heap[u].kind.KUpval?;
    if Erasable(s, u) {
      NotRoot(s, u);
      forall q | q in s.heap ensures !OpenOn(s.heap[q], u) { assert Listed(s, q); }
      EraseLive(s, SweepOpenOne(s, u), u);
      EraseOpenStruct(s, u);
    } else {
      WhitenLive(s, u);
      WhitenStruct(s, u, White(s.white));
    }
  }

  lemma DetachOk(s: State, u: Ref)
    requires SweepBase(s) && u in s.uvhead
    ensures SweepBase(Detach(s, u)) && Swept(s, Detach(s, u))
  {
    DetachLive(s, u);
    DetachStruct(s, u);
  }

  lemma UnlinkOk(s: State, r: Ref)
    requires SweepBase(s) && r in s.rootgc && Erasable(s, r)
    requires forall u :: u in s.heap ==> !OpenOn(s.heap[u], r)
    ensures SweepBase(Unlink(s, r)) && Swept(s, Unlink(s, r))
  {
    NotRoot(s, r);
    EraseLive(s, Unlink(s, r), r);
    UnlinkStruct(s, r);
  }

  lemma WhitenOk(s: State, r: Ref)
    requires SweepBase(s) && r in s.heap && !Erasable(s, r)
    ensures SweepBase(Whiten(s, r)) && Swept(s, Whiten(s, r))
  {
    WhitenLive(s, r);
    WhitenStruct(s, r, White(s.white));
  }
}
