/**
  What marking keeps.
 */
module GcMark {
  import opened GcModel

  /** Painting does not change what an object refers to. */
  lemma DarkerVals(s: State, s': State, r: Ref)
    requires Darker(s, s') && r in s.heap
    ensures Vals(s'.heap, s'.heap[r]) == Vals(s.heap, s.heap[r])
  {
    assert Darkened(s.heap[r], s'.heap[r]);
    var o := s.heap[r];
    if o.home.Stack? && o.home.thread in s.heap {
      assert Darkened(s.heap[o.home.thread], s'.heap[o.home.thread]);
    }
  }

  lemma DarkerDone(s: State, s': State, r: Ref)
    requires Darker(s, s') && r in s.heap && Done(s, r)
    ensures Done(s', r)
  {
    DarkerVals(s, s', r);
    forall v | v in Vals(s'.heap, s'.heap[r]) && v.Gc? ensures !IsWhite(s'.heap, v.r) {
      if v.r in s.heap { assert Darkened(s.heap[v.r], s'.heap[v.r]); }
    }
  }

  ghost predicate Shape(s: State) {
    StringsPlain(s) && HomesOk(s)
  }

  lemma DarkerShape(s: State, s': State)
    requires Darker(s, s') && Shape(s)
    ensures Shape(s')
  {
    forall r | r in s'.heap ensures s'.heap[r] == s.heap[r].(color := s'.heap[r].color) {
      assert Darkened(s.heap[r], s'.heap[r]);
    }
  }

  /** Painting a white object that is then excepted from the invariant. */
  lemma PaintMarkInv(s: State, X: set<Ref>, r: Ref, c: Color)
    requires MarkInv(s, X) && IsWhite(s.heap, r) && !c.White?
    requires c.Black? ==> !NeverBlack(s.heap[r])
    ensures MarkInv(Paint(s, r, c), X + {r})
  {
    var s' := Paint(s, r, c);
    PaintDarker(s, r, c);
    forall q | q in s'.heap && !s'.heap[q].color.White?
      ensures ColorOk(s', X + {r}, q) && (q in s'.gray || q in X + {r} || Done(s', q))
    {
      if q != r && q !in s.gray && q !in X { DarkerDone(s, s', q); }
    }
  }

  /** An excepted object whose values have been marked needs no exception. */
  lemma DropException(s: State, X: set<Ref>, r: Ref)
    requires MarkInv(s, X + {r}) && r in s.heap && Done(s, r)
    requires s.heap[r].color.Gray? ==>
        s.heap[r].kind.KString? || s.heap[r].home.Stack? || r in s.gray || r in s.grayagain || r in X
    ensures MarkInv(s, X)
  {
  }

  lemma PushMarkInv(s: State, X: set<Ref>, r: Ref)
    requires MarkInv(s, X) && IsWhite(s.heap, r) && Traversable(s.heap[r].kind)
    ensures MarkInv(Paint(s, r, Gray).(gray := [r] + s.gray), X)
  {
    var s' := Paint(s, r, Gray).(gray := [r] + s.gray);
    PaintDarker(s, r, Gray);
    forall q | q in s'.heap && !s'.heap[q].color.White?
      ensures ColorOk(s', X, q) && (q in s'.gray || q in X || Done(s', q))
    {
      if q != r && q !in s.gray && q !in X { DarkerDone(s, s', q); }
    }
  }

  /** A closed upvalue turns black when its value is marked. */
  lemma BlackenLast(s: State, X: set<Ref>, r: Ref)
    requires MarkInv(s, X + {r}) && r in s.heap && !s.heap[r].color.White? && !NeverBlack(s.heap[r]) && Done(s, r)
    requires r !in s.gray && r !in s.grayagain
    ensures MarkInv(Paint(s, r, Black), X) == true
  {
    Blacken(s, X + {r}, r);
    DropException(Paint(s, r, Black), X, r);
  }

  lemma {:induction false} MarkUserdataInv(s: State, X: set<Ref>, r: Ref)
    requires MarkInv(s, X) && IsWhite(s.heap, r) && Shape(s) && s.heap[r].kind.KUserdata?
    ensures MarkInv(MarkObject(s, r), X) == true
    decreases |Whites(s.heap)|, 0, 0
  {
    var o := s.heap[r];
    var s1 := Paint(s, r, Black);
    PaintDarker(s, r, Black);
    PaintMarkInv(s, X, r, Black);
    DarkerShape(s, s1);
    MarkValuesInv(s1, X + {r}, o.slots);
    var s2 := MarkValues(s1, o.slots);
    DarkerVals(s1, s2, r);
    DropException(s2, X, r);
  }

  lemma {:induction false} MarkUpvalInv(s: State, X: set<Ref>, r: Ref)
    requires MarkInv(s, X) && IsWhite(s.heap, r) && Shape(s) && s.heap[r].kind.KUpval?
    ensures MarkInv(MarkObject(s, r), X) == true
    decreases |Whites(s.heap)|, 0, 0
  {
    var o := s.heap[r];
    var s1 := Paint(s, r, Gray);
    PaintDarker(s, r, Gray);
    PaintMarkInv(s, X, r, Gray);
    DarkerShape(s, s1);
    DarkerVals(s, s1, r);
    MarkValuesInv(s1, X + {r}, Vals(s.heap, o));
    UpvalLast(s1, X, r);
  }

  /** The value of a gray upvalue is marked; a closed one then turns black. */
  lemma UpvalLast(s: State, X: set<Ref>, r: Ref)
    requires r in s.heap && s.heap[r].color.Gray? && s.heap[r].kind.KUpval? && Shape(s)
    requires MarkInv(MarkValues(s, Vals(s.heap, s.heap[r])), X + {r}) == true
    ensures var s2 := MarkValues(s, Vals(s.heap, s.heap[r]));
      MarkInv(if s.heap[r].home.Nowhere? then Paint(s2, r, Black) else s2, X) == true
  {
    var s2 := MarkValues(s, Vals(s.heap, s.heap[r]));
    DarkerVals(s, s2, r);
    if s.heap[r].home.Nowhere? { BlackenLast(s2, X, r); } else { DropException(s2, X, r); }
  }

  lemma {:induction false} MarkObjectInv(s: State, X: set<Ref>, r: Ref)
    requires MarkInv(s, X) && IsWhite(s.heap, r) && Shape(s)
    ensures MarkInv(MarkObject(s, r), X)
    decreases |Whites(s.heap)|, 0, 1
  {
    var o := s.heap[r];
    PaintDarker(s, r, Gray);
    PaintDarker(s, r, Black);
    match o.kind
    case KString =>
      PaintMarkInv(s, X, r, Gray);
      DropException(Paint(s, r, Gray), X, r);
    case KUserdata => MarkUserdataInv(s, X, r);
    case KUpval => MarkUpvalInv(s, X, r);
    case _ =>
      PushMarkInv(s, X, r);
  }

  /** A marked object outside the gray lists may turn black. */
  lemma Blacken(s: State, X: set<Ref>, r: Ref)
    requires MarkInv(s, X) && r in s.heap && !s.heap[r].color.White? && !NeverBlack(s.heap[r])
    requires r !in s.gray && r !in s.grayagain
    ensures MarkInv(Paint(s, r, Black), X)
    ensures Done(s, r) ==> Done(Paint(s, r, Black), r)
  {
    var s' := Paint(s, r, Black);
    PaintKeepsWhites(s, r, Black);
    forall q | q in s.heap ensures Vals(s'.heap, s'.heap[q]) == Vals(s.heap, s.heap[q]) {}
    forall q | q in s'.heap && !s'.heap[q].color.White?
      ensures ColorOk(s', X, q) && (q in s'.gray || q in X || Done(s', q))
    {
      assert ColorOk(s, X, q);
      if q !in s.gray && q !in X { assert Done(s, q); }
    }
  }

  lemma {:induction false} MarkValuesInv(s: State, X: set<Ref>, vs: seq<Val>)
    requires MarkInv(s, X) && Shape(s)
    ensures MarkInv(MarkValues(s, vs), X)
    decreases |Whites(s.heap)|, 1, |vs|
  {
    if vs != [] {
      var v := vs[0];
      var s1 := MarkValue(s, v);
      if v.Gc? && IsWhite(s.heap, v.r) { MarkObjectInv(s, X, v.r); }
      DarkerShape(s, s1);
      MarkValuesInv(s1, X, vs[1..]);
    }
  }

  /** Traversing one gray object keeps the invariant. */
  lemma PropagateMarkInv(s: State, X: set<Ref>)
    requires MarkInv(s, X) && Shape(s) && s.gray != []
    ensures MarkInv(PropagateMark(s), X)
    ensures Shape(PropagateMark(s))
  {
    var r := s.gray[0];
    var o := s.heap[r];
    assert r in s.gray;
    assert s.gray == [r] + s.gray[1..];
    var s1 := if o.kind.KThread? then s.(gray := s.gray[1..], grayagain := [r] + s.grayagain)
              else Paint(s, r, Black).(gray := s.gray[1..]);
    assert s.heap[r].home.Nowhere?;
    UnlistMarkInv(s, s1, X, r);
    MarkValuesInv(s1, X + {r}, o.slots);
    var s2 := MarkValues(s1, o.slots);
    DarkerVals(s1, s2, r);
    DarkerShape(s1, s2);
    assert Darkened(s1.heap[r], s2.heap[r]);
    if o.kind.KThread? {
      assert r in s2.grayagain;
    } else {
      assert s2.heap[r].color.Black?;
    }
    DropException(s2, X, r);
  }

  lemma UnlistMarkInv(s: State, s1: State, X: set<Ref>, r: Ref)
    requires MarkInv(s, X) && Shape(s) && s.gray != [] && r == s.gray[0]
    requires s1 == if s.heap[r].kind.KThread? then s.(gray := s.gray[1..], grayagain := [r] + s.grayagain)
                   else Paint(s, r, Black).(gray := s.gray[1..])
    ensures MarkInv(s1, X + {r}) && Shape(s1)
  {
    assert r in s.gray;
    forall q ensures q in s.gray <==> q == r || q in s1.gray {
      if q in s.gray {
        var i :| 0 <= i < |s.gray| && s.gray[i] == q;
        if i > 0 { assert s1.gray[i - 1] == q; }
      }
    }
    forall q | q in s.heap ensures Vals(s1.heap, s1.heap[q]) == Vals(s.heap, s.heap[q]) {}
    forall q | q in s1.heap && !s1.heap[q].color.White?
      ensures ColorOk(s1, X + {r}, q) && (q in s1.gray || q in X + {r} || Done(s1, q))
    {
      assert ColorOk(s, X, q);
      if q !in s.gray && q !in X { assert Done(s, q); }
    }
  }

  /** Marking paints only what can be reached: a set closed under references
      that holds every marked object keeps doing so. */
  ghost predicate ClosedIn(h: Heap, L: iset<Ref>) {
    forall a, b :: a in L && Edge(h, a, b) ==> b in L
  }

  ghost predicate MarkedIn(h: Heap, L: iset<Ref>) {
    forall r :: r in h && !h[r].color.White? ==> r in L
  }

  lemma DarkerClosed(s: State, s': State, L: iset<Ref>)
    requires Darker(s, s') && ClosedIn(s.heap, L)
    ensures ClosedIn(s'.heap, L)
  {
    forall a, b | a in L && Edge(s'.heap, a, b) ensures b in L {
      DarkerVals(s, s', a);
      assert Edge(s.heap, a, b);
    }
  }

  lemma {:induction false} MarkObjectOnly(s: State, r: Ref, L: iset<Ref>)
    requires Shape(s) && IsWhite(s.heap, r) && r in L && ClosedIn(s.heap, L) && MarkedIn(s.heap, L)
    ensures MarkedIn(MarkObject(s, r).heap, L)
    decreases |Whites(s.heap)|, 0
  {
    var o := s.heap[r];
    PaintDarker(s, r, Gray);
    PaintDarker(s, r, Black);
    if o.kind.KUserdata? || o.kind.KUpval? {
      var s1 := Paint(s, r, if o.kind.KUserdata? then Black else Gray);
      DarkerClosed(s, s1, L);
      DarkerShape(s, s1);
      forall v | v in Vals(s.heap, o) && v.Gc? ensures v.r in L { assert Edge(s.heap, r, v.r); }
      MarkValuesOnly(s1, Vals(s.heap, o), L);
    }
  }

  lemma {:induction false} MarkValuesOnly(s: State, vs: seq<Val>, L: iset<Ref>)
    requires Shape(s) && ClosedIn(s.heap, L) && MarkedIn(s.heap, L)
    requires forall v :: v in vs && v.Gc? ==> v.r in L
    ensures MarkedIn(MarkValues(s, vs).heap, L)
    decreases |Whites(s.heap)|, 1, |vs|
  {
    if vs != [] {
      var v := vs[0];
      var s1 := MarkValue(s, v);
      assert v in vs;
      if v.Gc? && IsWhite(s.heap, v.r) { MarkObjectOnly(s, v.r, L); }
      DarkerClosed(s, s1, L);
      DarkerShape(s, s1);
      MarkValuesOnly(s1, vs[1..], L);
    }
  }

  lemma PropagateMarkOnly(s: State, X: set<Ref>, L: iset<Ref>)
    requires Shape(s) && MarkInv(s, X) && s.gray != [] && ClosedIn(s.heap, L) && MarkedIn(s.heap, L)
    ensures MarkedIn(PropagateMark(s).heap, L)
    ensures ClosedIn(PropagateMark(s).heap, L)
  {
    var r := s.gray[0];
    var o := s.heap[r];
    assert r in s.gray;
    var s1 := if o.kind.KThread? then s.(gray := s.gray[1..], grayagain := [r] + s.grayagain)
              else Paint(s, r, Black).(gray := s.gray[1..]);
    forall q | q in s.heap ensures Vals(s1.heap, s1.heap[q]) == Vals(s.heap, s.heap[q]) {}
    forall a, b | a in L && Edge(s1.heap, a, b) ensures b in L { assert Edge(s.heap, a, b); }
    forall v | v in o.slots && v.Gc? ensures v.r in L { assert Edge(s.heap, r, v.r); }
    MarkValuesOnly(s1, o.slots, L);
    DarkerClosed(s1, MarkValues(s1, o.slots), L);
  }
}
