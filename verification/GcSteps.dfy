/**
  Steps alone: a step always moves on, steps from anywhere come to the end of the
  cycle, and a whole cycle of them leaves exactly what is reachable or fixed.
 */
module GcSteps {
  import opened GcModel
  import opened GcMark
  import opened GcCycle
  import opened GcSweep
  import opened GcStep
  import opened GcPhases
  import opened GcFull

  /** A step from the pause starts a cycle: nothing is freed or changed but colours,
      and the main thread waits in the gray list. */
  lemma StartStep(s: State)
    requires Inv(s) && s.phase.Pause?
    ensures var s' := SingleStep(s);
      && s'.phase.Propagate? && s'.gray != [] && s.main in s'.gray && s'.grayagain == []
      && s'.heap.Keys == s.heap.Keys && s'.heap[s.main].color.Gray?
  {
    MarkRootOk(s);
    var s' := MarkRoot(s);
    MainGray(s');
  }

  /** The registry, the metatables of the basic types and the first slot of the main
      thread, which holds the globals, are marked at once. */
  lemma StartMarks(s: State, v: Val)
    requires Inv(s) && s.phase.Pause? && v.Gc?
    requires v == s.registry || v in s.mt || (s.heap[s.main].slots != [] && v == s.heap[s.main].slots[0])
    ensures v.r in SingleStep(s).heap && !SingleStep(s).heap[v.r].color.White?
  {
    MarkRootOk(s);
    assert v in RootValues(s);
    var m := s.main;
    assert IsRoot(s, m) && (v == s.registry || v in s.mt ==> IsRoot(s, v.r));
    assert s.heap[m].home.Nowhere?;
    if s.heap[m].slots != [] && v == s.heap[m].slots[0] { assert Edge(s.heap, m, v.r); }
    assert Live(s, v.r);
  }

  lemma MainGray(s: State)
    requires Inv(s) && s.phase.Propagate? && s.grayagain == []
    ensures s.main in s.heap && s.heap[s.main].color.Gray? && s.main in s.gray
  {
    var m := s.main;
    assert s.heap[m].home.Nowhere?;
    assert ColorOk(s, Waiting(s), m);
    assert m !in s.uvhead;
  }

  /** No step leaves the state as it was. */
  lemma StepMoves(s: State)
    requires Inv(s)
    ensures SingleStep(s) != s
  {
    if s.phase.Pause? { StartStep(s); } else { StepProgress(s); }
  }

  ghost predicate Follows(s: State, s': State) {
    Inv(s) && s' == SingleStep(s)
  }

  /** States that result from one another by steps of the collector. */
  ghost predicate StepRun(l: seq<State>) {
    && l != [] && Inv(l[0]) == true
    && forall i :: 0 <= i < |l| - 1 ==> Follows(l[i], l[i + 1])
  }

  /** The last state is paused, and no other from `k` on. */
  predicate Ends(l: seq<State>, k: nat) {
    l != [] && l[|l| - 1].phase.Pause? && forall i :: k <= i < |l| - 1 ==> !l[i].phase.Pause?
  }

  lemma FollowInv(s: State, s': State)
    requires Follows(s, s')
    ensures Inv(s') == true
  {
    StepInv(s);
  }

  lemma RestRun(l: seq<State>)
    requires StepRun(l) && |l| > 1
    ensures StepRun(l[1..]) == true
  {
    assert Follows(l[0], l[0 + 1]);
    FollowInv(l[0], l[1]);
    forall i | 0 <= i < |l[1..]| - 1 ensures Follows(l[1..][i], l[1..][i + 1]) {
      var j := i + 1;
      assert Follows(l[j], l[j + 1]);
    }
  }

  lemma MoreRun(s: State, l: seq<State>)
    requires StepRun(l) && Inv(s) == true && Follows(s, l[0]) == true
    ensures StepRun([s] + l) == true
  {
    var m := [s] + l;
    forall i | 0 <= i < |m| - 1 ensures Follows(m[i], m[i + 1]) {
      if i > 0 {
        var j := i - 1;
        assert Follows(l[j], l[j + 1]);
      }
    }
  }

  /** From any state of the collector, steps alone come to the pause. */
  lemma {:induction false} StepsPause(s: State) returns (l: seq<State>)
    requires Inv(s) == true
    ensures StepRun(l) == true && l[0] == s && Ends(l, 0)
    decreases PhaseRank(s.phase), Effort(s) + 1
  {
    l := [s];
    if !s.phase.Pause? {
      StepInv(s);
      StepProgress(s);
      EffortNonNegative(s);
      var m := StepsPause(SingleStep(s));
      l := [s] + m;
      MoreRun(s, m);
    }
  }

  lemma RunToStep(s: State, s': State)
    requires Follows(s, s') == true && Inv(s) == true && Inv(s') == true && !s.phase.Pause?
    ensures RunTo(s, Pause) == RunTo(s', Pause)
  {
  }

  lemma {:induction false} EndIs(l: seq<State>)
    requires StepRun(l) == true && Ends(l, 0)
    ensures Inv(l[0]) == true && l[|l| - 1] == RunTo(l[0], Pause)
    decreases |l|
  {
    if |l| > 1 {
      RestRun(l);
      EndIs(l[1..]);
      assert Follows(l[0], l[0 + 1]);
      RunToStep(l[0], l[1]);
    }
  }

  /** Steps from one pause to the next. */
  ghost predicate WholeCycle(l: seq<State>) {
    StepRun(l) == true && |l| > 1 && l[0].phase.Pause? && Ends(l, 1)
  }

  /** There is such a cycle from every pause. */
  lemma CycleEnds(s: State) returns (l: seq<State>)
    requires Inv(s) == true && s.phase.Pause?
    ensures WholeCycle(l) && l[0] == s
  {
    StepInv(s);
    var m := StepsPause(SingleStep(s));
    l := [s] + m;
    MoreRun(s, m);
  }

  /** A whole cycle of steps leaves exactly what was reachable and what is fixed,
      and each reachable object as it was. */
  lemma CycleExact(l: seq<State>)
    requires WholeCycle(l)
    ensures var s, s' := l[0], l[|l| - 1];
      && (forall r :: r in s'.heap <==> Reachable(s, r) || (r in s.heap && s.heap[r].fixed))
      && SameGraph(s, s')
  {
    var s := l[0];
    assert Follows(s, l[0 + 1]);
    RestRun(l);
    EndIs(l[1..]);
    CycleKeeps(s);
  }

  lemma CycleKeeps(s: State)
    requires Inv(s) == true && s.phase.Pause?
    ensures Inv(SingleStep(s)) == true
    ensures var s' := RunTo(SingleStep(s), Pause);
      && (forall r :: r in s'.heap <==> Reachable(s, r) || (r in s.heap && s.heap[r].fixed))
      && SameGraph(s, s') == true
  {
    SecondCycle(s);
  }
}
