/**
  The sweep phases as a whole and the unit of incremental work.
 */
module GcStep {
  import opened Common
  import opened GcModel
  import opened GcMark
  import opened GcCycle
  import opened GcSweep

  // ---------------------------------------------------------------- open upvalues of a swept thread

  function SweepOpenList(s: State, us: seq<Ref>): State
    requires forall u :: u in us ==> u in s.heap
    requires Distinct(us)
    decreases |us|
  {
    if us == [] then s else
      SweepOpenTail(s, us);
      SweepOpenList(SweepOpenOne(s, us[0]), us[1..])
  }

  lemma SweepOpenTail(s: State, us: seq<Ref>)
    requires us != [] && (forall u :: u in us ==> u in s.heap) && Distinct(us)
    ensures forall u :: u in us[1..] ==> u in SweepOpenOne(s, us[0]).heap
    ensures Distinct(us[1..])
  {
    assert us[0] in us;
    forall u | u in us[1..] ensures u in SweepOpenOne(s, us[0]).heap {
      assert us[0] !in us[1..];
      assert u in us;
    }
  }

  lemma {:induction false} SweepOpenListOk(s: State, us: seq<Ref>)
    requires SweepBase(s) && Distinct(us) && forall u :: u in us ==> u in s.uvhead && u in s.heap
    ensures SweepBase(SweepOpenList(s, us)) && Swept(s, SweepOpenList(s, us))
    decreases |us|
  {
    if us != [] {
      var u := us[0];
      assert u in us;
      SweepOpenTail(s, us);
      SweepOpenOneOk(s, u);
      var s1 := SweepOpenOne(s, u);
      forall q | q in us[1..] ensures q in s1.uvhead {
        assert q in us;
        assert us[0] !in us[1..];
      }
      SweepOpenListOk(s1, us[1..]);
      SweptTrans(s, s1, SweepOpenList(s1, us[1..]));
    }
  }

  /** Only the listed upvalues are touched; those that stay are white. */
  ghost predicate OpensSwept(s: State, us: seq<Ref>, s': State) {
    && s' == s.(heap := s'.heap, uvhead := s'.uvhead)
    && |s'.uvhead| <= |s.uvhead|
    && (forall r :: r in s.heap && r !in us ==> r in s'.heap && s'.heap[r] == s.heap[r])
    && (forall r :: r in s'.heap ==> r in s.heap && s'.heap[r] == s.heap[r].(color := s'.heap[r].color))
    && (forall r :: r in us && r in s'.heap ==> Current(s', r))
  }

  lemma {:induction false} SweepOpenListFrame(s: State, us: seq<Ref>)
    requires Distinct(us) && forall u :: u in us ==> u in s.heap
    ensures OpensSwept(s, us, SweepOpenList(s, us))
    decreases |us|
  {
    if us != [] {
      var u := us[0];
      assert u in us && u !in us[1..] && us == [u] + us[1..];
      SweepOpenTail(s, us);
      SweepOpenListFrame(SweepOpenOne(s, u), us[1..]);
    }
  }

  /** Sweeps the open upvalues of a thread before the thread itself. */
  function SweepOpens(s: State, t: Ref): State
    requires Struct(s) && t in s.heap
  {
    if s.heap[t].kind.KThread? then SweepOpenList(s, OpenOf(s.heap, s.uvhead, t)) else s
  }

  /** Closes the upvalues that a dying thread leaves open (`luaE_freethread`). */
  function DetachList(s: State, us: seq<Ref>): State
    requires forall u :: u in us ==> u in s.heap
    decreases |us|
  {
    if us == [] then s else
      assert us[0] in us;
      DetachList(Detach(s, us[0]), us[1..])
  }

  function Reversed(l: seq<Ref>): seq<Ref> {
    if l == [] then [] else Reversed(l[1..]) + [l[0]]
  }

  lemma {:induction false} DetachListOk(s: State, us: seq<Ref>)
    requires SweepBase(s) && Distinct(us)
    requires forall u :: u in us ==> u in s.uvhead && u in s.heap
    ensures SweepBase(DetachList(s, us)) && Swept(s, DetachList(s, us))
    decreases |us|
  {
    if us != [] {
      var u := us[0];
      assert u in us;
      DetachOk(s, u);
      var s1 := Detach(s, u);
      forall q | q in us[1..] ensures q in s1.uvhead && q in s1.heap {
        assert q in us;
        assert us[0] !in us[1..];
      }
      DetachListOk(s1, us[1..]);
      SweptTrans(s, s1, DetachList(s1, us[1..]));
    }
  }

  /** The listed upvalues leave the ring for the head of `rootgc`. */
  ghost predicate Detached(s: State, us: seq<Ref>, s': State) {
    && s' == s.(heap := s'.heap, uvhead := s'.uvhead, rootgc := Reversed(us) + s.rootgc, sweepgc := s'.sweepgc)
    && (forall u :: u in s'.uvhead <==> u in s.uvhead && u !in us)
    && |s'.uvhead| + |us| <= |s.uvhead|
    && s'.heap.Keys == s.heap.Keys
    && (forall r :: r in s.heap ==> s'.heap[r] == s.heap[r].(slots := s'.heap[r].slots, home := s'.heap[r].home))
    && (forall r :: r in s.heap && r !in us ==> s'.heap[r] == s.heap[r])
  }

  lemma {:induction false} DetachListFrame(s: State, us: seq<Ref>)
    requires Distinct(us) && forall u :: u in us ==> u in s.heap && u in s.uvhead
    ensures Detached(s, us, DetachList(s, us))
    decreases |us|
  {
    if us != [] {
      var u := us[0];
      assert u in us && u !in us[1..] && us == [u] + us[1..];
      DetachListFrame(Detach(s, u), us[1..]);
      assert Reversed(us[1..]) + [u] + s.rootgc == Reversed(us[1..]) + ([u] + s.rootgc);
    }
  }

  lemma {:induction false} ReversedElems(l: seq<Ref>)
    ensures |Reversed(l)| == |l| && forall r :: r in Reversed(l) <==> r in l
  {
    if l != [] {
      ReversedElems(l[1..]);
      assert l == [l[0]] + l[1..];
    }
  }

  lemma SweepOpensOk(s: State, t: Ref)
    requires SweepBase(s) && t in s.rootgc && t in s.heap
    ensures var s' := SweepOpens(s, t);
      && SweepBase(s') && Swept(s, s')
      && s' == s.(heap := s'.heap, uvhead := s'.uvhead)
      && |s'.uvhead| <= |s.uvhead|
      && (forall r :: r in s.heap && !OpenOn(s.heap[r], t) ==> r in s'.heap && s'.heap[r] == s.heap[r])
      && (forall r :: r in s'.heap ==> r in s.heap && s'.heap[r] == s.heap[r].(color := s'.heap[r].color))
      && (forall r :: r in s'.heap && OpenOn(s'.heap[r], t) ==> Current(s', r))
      && t in s'.heap && s'.heap[t] == s.heap[t]
  {
    forall r | r in s.heap && OpenOn(s.heap[r], t) ensures s.heap[t].kind.KThread? && r in s.uvhead {
      assert Listed(s, r);
    }
    if s.heap[t].kind.KThread? {
      SweepOpenListOk(s, OpenOf(s.heap, s.uvhead, t));
      SweepOpenListFrame(s, OpenOf(s.heap, s.uvhead, t));
    }
  }

  // ---------------------------------------------------------------- sweeping rootgc

  /** Swept in this cycle: white again, with all the upvalues open on it. */
  ghost predicate SweptAt(s: State, r: Ref) {
    Current(s, r) && forall u :: u in s.heap && OpenOn(s.heap[u], r) ==> Current(s, u)
  }

  ghost predicate StringsCurrent(s: State) {
    forall r :: r in s.heap && s.heap[r].kind.KString? ==> Current(s, r)
  }

  /** The invariant of the `rootgc` sweep. */
  ghost predicate SweepInv(s: State) {
    && SweepBase(s)
    && s.sweepgc <= |s.rootgc|
    && StringsCurrent(s)
    && forall k :: 0 <= k < s.sweepgc ==> SweptAt(s, s.rootgc[k])
  }

  function Left(s: State): int {
    |s.rootgc| - s.sweepgc + |s.uvhead|
  }

  lemma {:induction false} WithoutAbsent(l: seq<Ref>, r: Ref)
    requires r !in l
    ensures Without(l, r) == l
  {
    if l != [] {
      assert l == [l[0]] + l[1..];
      WithoutAbsent(l[1..], r);
    }
  }

  lemma {:induction false} WithoutAt(l: seq<Ref>, c: nat)
    requires c < |l| && Distinct(l)
    ensures Without(l, l[c]) == l[..c] + l[c + 1..]
  {
    assert l == [l[0]] + l[1..];
    if c == 0 {
      assert l[0] !in l[1..];
      WithoutAbsent(l[1..], l[0]);
    } else {
      WithoutAt(l[1..], c - 1);
      assert l[1..][..c - 1] == l[1..c];
      assert l[1..][c..] == l[c + 1..];
      assert [l[0]] + l[1..c] == l[..c];
    }
  }

  /** `s'` is `s` but for the collector's own bookkeeping. */
  predicate Bookkeeping(s: State, s': State) {
    s' == s.(gray := s'.gray, grayagain := s'.grayagain, phase := s'.phase, sweepstrgc := s'.sweepstrgc,
        sweepgc := s'.sweepgc)
  }

  /** The bookkeeping plays no part in the structure. */
  lemma BookkeepingOk(s: State, s': State)
    requires SweepBase(s) && Bookkeeping(s, s')
    ensures SweepBase(s') && Swept(s, s')
  {
    forall b | 0 <= b < |s.strt| ensures BucketOk(s', b) { assert BucketOk(s, b); }
    forall q | q in s'.heap ensures Listed(s', q) { assert Listed(s, q); }
    forall r ensures Live(s', r) <==> Live(s, r) {}
    forall a, b | Live(s', a) && Edge(s'.heap, a, b) ensures Live(s', b) { assert Live(s, a); }
    forall q | IsRoot(s', q) ensures Live(s', q) { assert IsRoot(s, q); }
  }

  /** The upvalues that hold a stack slot of the object at the cursor. */
  function Tenants(s: State): (us: seq<Ref>)
    requires Struct(s) && s.sweepgc < |s.rootgc|
    ensures Distinct(us) && forall u :: u in us ==> u in s.heap && u in s.uvhead
  {
    var r := s.rootgc[s.sweepgc];
    if s.heap[r].kind.KThread? then OpenOf(s.heap, s.uvhead, r) else []
  }

  /** Erases the object at the cursor.  The upvalues its death closes go to the
      head of the list, so a cursor past the head moves by as many places. */
  function EraseRoot(s: State): State
    requires Struct(s) && s.sweepgc < |s.rootgc|
  {
    Unlink(DetachList(s, Tenants(s)), s.rootgc[s.sweepgc])
      .(sweepgc := if s.sweepgc == 0 then 0 else s.sweepgc + |Tenants(s)|)
  }

  lemma NoTenantsLeft(s: State, u: Ref)
    requires SweepBase(s) && s.sweepgc < |s.rootgc|
    requires SweepBase(DetachList(s, Tenants(s)))
    requires u in DetachList(s, Tenants(s)).heap
    ensures !OpenOn(DetachList(s, Tenants(s)).heap[u], s.rootgc[s.sweepgc])
  {
    var us := Tenants(s);
    DetachListFrame(s, us);
    var s1 := DetachList(s, us);
    assert Listed(s1, u);
    if u !in us { assert Listed(s, u); }
  }

  lemma EraseRootBase(s: State)
    requires SweepBase(s) && s.sweepgc < |s.rootgc| && Erasable(s, s.rootgc[s.sweepgc])
    ensures SweepBase(EraseRoot(s)) && Swept(s, EraseRoot(s))
  {
    var r := s.rootgc[s.sweepgc];
    var us := Tenants(s);
    DetachListOk(s, us);
    DetachListFrame(s, us);
    var s1 := DetachList(s, us);
    forall u | u in s1.heap ensures !OpenOn(s1.heap[u], r) { NoTenantsLeft(s, u); }
    assert s.rootgc[s.sweepgc] in s.rootgc;
    assert Erasable(s1, r) && r in s1.rootgc;
    UnlinkOk(s1, r);
    SweptTrans(s, s1, Unlink(s1, r));
    BookkeepingOk(Unlink(s1, r), EraseRoot(s));
    SweptTrans(s, Unlink(s1, r), EraseRoot(s));
  }

  /** Removing an element of a list that has distinct others put in front. */
  lemma WithoutBehind(a: seq<Ref>, l: seq<Ref>, c: nat)
    requires Distinct(a) && Distinct(l) && (forall r :: r in a ==> r !in l) && c < |l|
    ensures Without(a + l, l[c]) == a + l[..c] + l[c + 1..]
  {
    DistinctAppend(a, l);
    assert (a + l)[|a| + c] == l[c];
    WithoutAt(a + l, |a| + c);
    assert (a + l)[..|a| + c] == a + l[..c];
    assert (a + l)[|a| + c + 1..] == l[c + 1..];
  }

  /** What `EraseRoot` does to the list: the closed upvalues in front, the
      erased element gone, everything else in place. */
  lemma EraseRootList(s: State)
    requires Struct(s) && s.sweepgc < |s.rootgc|
    ensures EraseRoot(s).rootgc == Reversed(Tenants(s)) + s.rootgc[..s.sweepgc] + s.rootgc[s.sweepgc + 1..]
    ensures Left(EraseRoot(s)) < Left(s) && EraseRoot(s).phase == s.phase
  {
    var us := Tenants(s);
    DetachListFrame(s, us);
    ReversedElems(us);
    ReversedDistinct(us);
    forall r | r in Reversed(us) ensures r !in s.rootgc {
      assert r in us;
    }
    WithoutBehind(Reversed(us), s.rootgc, s.sweepgc);
  }

  lemma {:induction false} ReversedDistinct(l: seq<Ref>)
    requires Distinct(l)
    ensures Distinct(Reversed(l))
  {
    if l != [] {
      ReversedDistinct(l[1..]);
      ReversedElems(l[1..]);
      assert l[0] !in l[1..];
    }
  }

  /** Sweeps the object at the cursor (one turn of `sweeplist` over `rootgc`). */
  function SweepRootOne(s: State): State
    requires SweepBase(s) && s.sweepgc < |s.rootgc|
  {
    var r := s.rootgc[s.sweepgc];
    assert r in s.rootgc;
    var s1 := SweepOpens(s, r);
    SweepOpensOk(s, r);
    if Erasable(s1, r) then EraseRoot(s1)
    else Whiten(s1, r).(sweepgc := s.sweepgc + 1)
  }

  /** After the erasure, an object is as it was, but for upvalues just closed. */
  lemma EraseRootFrame(s: State, q: Ref)
    requires SweepBase(s) && s.sweepgc < |s.rootgc| && Erasable(s, s.rootgc[s.sweepgc])
    requires q in EraseRoot(s).heap
    ensures q in s.heap && EraseRoot(s).heap[q].color == s.heap[q].color
        && EraseRoot(s).heap[q].kind == s.heap[q].kind
    ensures EraseRoot(s).heap[q].home.Stack? ==> EraseRoot(s).heap[q] == s.heap[q]
    ensures q in Tenants(s) ==> EraseRoot(s).heap[q].home.Nowhere? && q in EraseRoot(s).rootgc
  {
    var us := Tenants(s);
    DetachListFrame(s, us);
    EraseRootBase(s);
    EraseRootList(s);
    ReversedElems(us);
    assert Listed(EraseRoot(s), q);
    if q in us {
      assert q in Reversed(us);
    }
  }

  lemma NotOpenOn(s: State, u: Ref)
    requires Struct(s) && u in s.heap && !s.heap[u].kind.KThread?
    ensures forall q :: q in s.heap ==> !OpenOn(s.heap[q], u)
  {
    forall q | q in s.heap ensures !OpenOn(s.heap[q], u) { assert Listed(s, q); }
  }

  lemma EraseRootPrefix(s: State)
    requires SweepInv(s) && s.sweepgc < |s.rootgc| && Erasable(s, s.rootgc[s.sweepgc])
    requires forall u :: u in s.heap && OpenOn(s.heap[u], s.rootgc[s.sweepgc]) ==> Current(s, u)
    ensures SweepInv(EraseRoot(s))
  {
    var us := Tenants(s);
    var s' := EraseRoot(s);
    EraseRootBase(s);
    EraseRootList(s);
    ReversedElems(us);
    forall q | q in s'.heap && s'.heap[q].kind.KString? ensures Current(s', q) { EraseRootFrame(s, q); }
    forall k | 0 <= k < s'.sweepgc ensures SweptAt(s', s'.rootgc[k]) {
      var u := s'.rootgc[k];
      assert u in s'.rootgc;
      EraseRootFrame(s, u);
      if k < |us| {
        assert u == Reversed(us)[k];
        assert u in us;
        NotOpenOn(s', u);
      } else {
        assert u == s.rootgc[k - |us|];
        assert SweptAt(s, s.rootgc[k - |us|]);
        forall q | q in s'.heap && OpenOn(s'.heap[q], u) ensures Current(s', q) { EraseRootFrame(s, q); }
      }
    }
  }

  lemma WhitenBase(s: State)
    requires SweepBase(s) && s.sweepgc < |s.rootgc| && s.rootgc[s.sweepgc] in s.heap
        && !Erasable(s, s.rootgc[s.sweepgc])
    ensures var s' := Whiten(s, s.rootgc[s.sweepgc]).(sweepgc := s.sweepgc + 1); SweepBase(s') && Swept(s, s')
  {
    var s2 := Whiten(s, s.rootgc[s.sweepgc]);
    WhitenOk(s, s.rootgc[s.sweepgc]);
    BookkeepingOk(s2, s2.(sweepgc := s.sweepgc + 1));
    SweptTrans(s, s2, s2.(sweepgc := s.sweepgc + 1));
  }

  lemma WhitenPrefix(s: State)
    requires SweepInv(s) && s.sweepgc < |s.rootgc| && s.rootgc[s.sweepgc] in s.heap
        && !Erasable(s, s.rootgc[s.sweepgc])
    requires forall u :: u in s.heap && OpenOn(s.heap[u], s.rootgc[s.sweepgc]) ==> Current(s, u)
    ensures SweepInv(Whiten(s, s.rootgc[s.sweepgc]).(sweepgc := s.sweepgc + 1))
  {
    WhitenBase(s);
    var s' := Whiten(s, s.rootgc[s.sweepgc]).(sweepgc := s.sweepgc + 1);
    forall k | 0 <= k < s'.sweepgc ensures SweptAt(s', s'.rootgc[k]) {
      if k < s.sweepgc { assert SweptAt(s, s.rootgc[k]); }
    }
  }

  lemma OpensPrefix(s: State)
    requires SweepInv(s) && s.sweepgc < |s.rootgc| && s.rootgc[s.sweepgc] in s.heap
    ensures SweepInv(SweepOpens(s, s.rootgc[s.sweepgc]))
  {
    var r := s.rootgc[s.sweepgc];
    SweepOpensOk(s, r);
    var s1 := SweepOpens(s, r);
    forall k | 0 <= k < s1.sweepgc ensures SweptAt(s1, s1.rootgc[k]) {
      assert SweptAt(s, s.rootgc[k]);
      assert s.rootgc[k] in s.rootgc && s.rootgc[k] != r;
    }
  }

  lemma SweepTurn(s: State)
    requires SweepInv(s) && s.sweepgc < |s.rootgc| && s.rootgc[s.sweepgc] in s.heap
    requires forall u :: u in s.heap && OpenOn(s.heap[u], s.rootgc[s.sweepgc]) ==> Current(s, u)
    ensures var r := s.rootgc[s.sweepgc];
      var s' := if Erasable(s, r) then EraseRoot(s) else Whiten(s, r).(sweepgc := s.sweepgc + 1);
      SweepInv(s') && Swept(s, s') && Left(s') < Left(s) && s'.phase == s.phase
  {
    if Erasable(s, s.rootgc[s.sweepgc]) {
      EraseRootBase(s);
      EraseRootList(s);
      EraseRootPrefix(s);
    } else {
      WhitenBase(s);
      WhitenPrefix(s);
    }
  }

  /** One turn of the sweep keeps the invariant, erases no live object, and
      brings the end nearer, even when a dying thread lengthens the list. */
  lemma SweepRootOneOk(s: State)
    requires SweepInv(s) && s.sweepgc < |s.rootgc|
    ensures SweepInv(SweepRootOne(s)) && Swept(s, SweepRootOne(s)) && Left(SweepRootOne(s)) < Left(s)
    ensures SweepRootOne(s).phase == s.phase
  {
    assert s.rootgc[s.sweepgc] in s.rootgc;
    SweepOpensOk(s, s.rootgc[s.sweepgc]);
    OpensPrefix(s);
    var s1 := SweepOpens(s, s.rootgc[s.sweepgc]);
    SweepTurn(s1);
    SweptTrans(s, s1, SweepRootOne(s));
  }

  // ---------------------------------------------------------------- sweeping kills nobody

  /** Nothing has died. */
  ghost predicate NoneDied(s: State, s': State) {
    s'.white == s.white && forall r :: r in s'.heap && IsDead(s', r) ==> IsDead(s, r)
  }

  lemma NoneDiedTrans(s: State, t: State, u: State)
    requires NoneDied(s, t) == true && NoneDied(t, u) == true
    ensures NoneDied(s, u) == true
  {
  }

  lemma {:induction false} OpenListNoneDied(s: State, us: seq<Ref>)
    requires (forall u :: u in us ==> u in s.heap) && Distinct(us)
    ensures NoneDied(s, SweepOpenList(s, us))
    decreases |us|
  {
    if us != [] {
      SweepOpenTail(s, us);
      var s1 := SweepOpenOne(s, us[0]);
      OpenListNoneDied(s1, us[1..]);
      NoneDiedTrans(s, s1, SweepOpenList(s1, us[1..]));
    }
  }

  lemma {:induction false} DetachNoneDied(s: State, us: seq<Ref>)
    requires forall u :: u in us ==> u in s.heap
    ensures NoneDied(s, DetachList(s, us))
    decreases |us|
  {
    if us != [] {
      assert us[0] in us;
      var s1 := Detach(s, us[0]);
      DetachNoneDied(s1, us[1..]);
      NoneDiedTrans(s, s1, DetachList(s1, us[1..]));
    }
  }

  lemma RootNoneDied(s: State)
    requires SweepBase(s) && s.sweepgc < |s.rootgc|
    ensures NoneDied(s, SweepRootOne(s))
  {
    var r := s.rootgc[s.sweepgc];
    assert r in s.rootgc;
    if s.heap[r].kind.KThread? { OpenListNoneDied(s, OpenOf(s.heap, s.uvhead, r)); }
    SweepOpensOk(s, r);
    var s1 := SweepOpens(s, r);
    if Erasable(s1, r) { DetachNoneDied(s1, Tenants(s1)); }
    NoneDiedTrans(s, s1, SweepRootOne(s));
  }
}
