/**
  What the list of successes says: which texts match, and which match is found.
 */
module PatternTheory {
  import opened Common
  import opened PatternModel

  /** The next `n` characters are all in the class. */
  predicate Run(src: string, s: nat, n: nat, k: Class) {
    s + n <= |src| && forall j :: s <= j < s + n ==> InClass(k, src[j])
  }

  predicate Allowed(rep: Rep, n: nat) {
    match rep
    case Once => n == 1
    case Optional => n <= 1
    case Plus => n >= 1
    case _ => true
  }

  /** Some way for the items to match from `s` on leads to the outcome. */
  ghost predicate Accepts(items: seq<Item>, src: string, s: nat, caps: seq<Cap>, o: Outcome)
    decreases |items|
  {
    if items == [] then o == Done(s, caps)
    else
      var rest := items[1..];
      match items[0]
      case Single(k, rep) => 
        exists n: nat :: Run(src, s, n, k) && Allowed(rep, n) && Accepts(rest, src, s + n, caps, o)
      case Open(position) =>
        if |caps| >= MAXCAPTURES then o == Err(TooManyCaptures)
        else Accepts(rest, src, s, caps + [Cap(s, if position then CAP_POSITION else CAP_UNFINISHED)], o)
      case Close =>
        var l := LastOpen(caps);
        if l < 0 then o == Err(InvalidCapture)
            else Accepts(rest, src, s, caps[l := Cap(caps[l].init, s - caps[l].init)], o)
      case Back(d) =>
        var l := d as int - '1' as int;
        if l < 0 || l >= |caps| || caps[l].len == CAP_UNFINISHED then o == Err(InvalidIndex)
        else Repeats(src, s, caps[l]) && Accepts(rest, src, s + caps[l].len, caps, o)
      case Balance(b, e) =>
        exists t: nat :: At(src, s) == b && Balanced(src, s, t, b, e) && Accepts(rest, src, t, caps, o)
      case Frontier(k) =>
        !InClass(k, if s == 0 then '\0' else At(src, s - 1)) && InClass(k, At(src, s))
            && Accepts(rest, src, s, caps, o)
      case End => s == |src| && Accepts(rest, src, s, caps, o)
      case Bad(e) => o == Err(e)
  }

  /** How many more of `b` than of `e` there are in a stretch; an `e` counts down first. */
  function Depth(src: string, s: nat, t: nat, b: char, e: char): int
    requires t <= |src|
    decreases t
  {
    if t <= s then 0
    else Depth(src, s, t - 1, b, e) + if src[t - 1] == e then -1 else if src[t - 1] == b then 1 else 0
  }

  /** The stretch opened at `s` is closed at `t` and not before. */
  ghost predicate Balanced(src: string, s: nat, t: nat, b: char, e: char) {
    && s < t <= |src|
    && 1 + Depth(src, s + 1, t, b, e) == 0
    && forall u :: s < u < t ==> OpenAt(src, s, u, b, e)
  }

  /** The balance has not come to zero from the opening at `s` up to `u`. */
  predicate OpenAt(src: string, s: nat, u: nat, b: char, e: char) {
    u <= |src| && 1 + Depth(src, s + 1, u, b, e) > 0
  }

  lemma {:induction false} DepthFrom(src: string, s: nat, i: nat, b: char, e: char, cont: nat)
    requires s < i && cont > 0 && (i <= |src| ==> cont == 1 + Depth(src, s + 1, i, b, e))
    requires forall u :: s < u <= i && u <= |src| ==> OpenAt(src, s, u, b, e)
    ensures var r := BalanceEnd(src, i, b, e, cont);
      if r.Some? then Balanced(src, s, r.value, b, e) else forall u :: s < u <= |src| ==> OpenAt(src, s, u, b, e)
    decreases |src| - i
  {
    if i < |src| {
      assert Depth(src, s + 1, i + 1, b, e)
          == Depth(src, s + 1, i, b, e) + if src[i] == e then -1 else if src[i] == b then 1 else 0;
      var c := if src[i] == e then cont - 1 else if src[i] == b then cont + 1 else cont;
      if c > 0 { DepthFrom(src, s, i + 1, b, e, c); }
    }
  }

  /** The search for the balancing character finds the one end there is. */
  lemma BalanceIs(src: string, s: nat, b: char, e: char)
    ensures BalanceEnd(src, s + 1, b, e, 1).Some? ==>
        s < |src| && Balanced(src, s, BalanceEnd(src, s + 1, b, e, 1).value, b, e)
    ensures forall t: nat :: Balanced(src, s, t, b, e) ==> BalanceEnd(src, s + 1, b, e, 1) == Some(t)
  {
    DepthFrom(src, s, s + 1, b, e, 1);
    forall t: nat | Balanced(src, s, t, b, e) ensures BalanceEnd(src, s + 1, b, e, 1) == Some(t) {
      var r := BalanceEnd(src, s + 1, b, e, 1);
      assert !OpenAt(src, s, t, b, e);
      assert r.Some? && t < r.value ==> OpenAt(src, s, t, b, e);
      assert r.Some? && r.value < t ==> OpenAt(src, s, r.value, b, e);
    }
  }

  // ---------------------------------------------------------------- which outcomes there are

  lemma RunStep(src: string, s: nat, n: nat, k: Class)
    requires n > 0
    ensures Run(src, s, n, k) <==> OneMore(src, s, k) && Run(src, s + 1, n - 1, k)
  {
  }

  predicate ByRun(rest: seq<Item>, src: string, s: nat, caps: seq<Cap>, k: Class, n: nat, o: Outcome) {
    Run(src, s, n, k) && o in Sem(rest, src, s + n, caps)
  }

  /** Some number of repetitions leads to the outcome. */
  ghost predicate Reaches(rest: seq<Item>, src: string, s: nat, caps: seq<Cap>, k: Class, o: Outcome) {
    exists n: nat :: ByRun(rest, src, s, caps, k, n, o)
  }

  lemma ReachStep(rest: seq<Item>, src: string, s: nat, caps: seq<Cap>, k: Class, o: Outcome)
    requires s <= |src|
    ensures Reaches(rest, src, s, caps, k, o)
      <==> o in Sem(rest, src, s, caps) || (OneMore(src, s, k) && Reaches(rest, src, s + 1, caps, k, o))
  {
    if Reaches(rest, src, s, caps, k, o) {
      var n: nat :| ByRun(rest, src, s, caps, k, n, o);
      if n > 0 {
        RunStep(src, s, n, k);
        assert ByRun(rest, src, s + 1, caps, k, n - 1, o);
      }
    }
    if o in Sem(rest, src, s, caps) { assert ByRun(rest, src, s, caps, k, 0, o); }
    if OneMore(src, s, k) && Reaches(rest, src, s + 1, caps, k, o) {
      var s1 := s + 1;
      var n: nat :| ByRun(rest, src, s1, caps, k, n, o);
      RunStep(src, s, n + 1, k);
      assert ByRun(rest, src, s, caps, k, n + 1, o);
    }
  }

  lemma {:induction false} GreedyMember(k: Class, rest: seq<Item>, src: string, s: nat, caps: seq<Cap>, o: Outcome)
    requires s <= |src|
    ensures o in Greedy(k, rest, src, s, caps) <==> Reaches(rest, src, s, caps, k, o)
    decreases |src| - s
  {
    ReachStep(rest, src, s, caps, k, o);
    if OneMore(src, s, k) { GreedyMember(k, rest, src, s + 1, caps, o); }
  }

  lemma {:induction false} LazyMember(k: Class, rest: seq<Item>, src: string, s: nat, caps: seq<Cap>, o: Outcome)
    requires s <= |src|
    ensures o in Reluctant(k, rest, src, s, caps) <==> Reaches(rest, src, s, caps, k, o)
    decreases |src| - s
  {
    ReachStep(rest, src, s, caps, k, o);
    if OneMore(src, s, k) { LazyMember(k, rest, src, s + 1, caps, o); }
  }

  /** One single item: the outcomes are those reached with a number of repetitions it allows. */
  lemma SingleMember(k: Class, rep: Rep, rest: seq<Item>, src: string, s: nat, caps: seq<Cap>, o: Outcome)
    requires s <= |src|
    ensures o in Sem([Single(k, rep)] + rest, src, s, caps)
      <==> exists n: nat :: ByRun(rest, src, s, caps, k, n, o) && Allowed(rep, n)
  {
    var items := [Single(k, rep)] + rest;
    assert items[1..] == rest;
    RunUpTo1(src, s, k);
    match rep {
      case Once =>
        if OneMore(src, s, k) && o in Sem(rest, src, s + 1, caps) { assert ByRun(rest, src, s, caps, k, 1, o); }
      case Optional =>
        if OneMore(src, s, k) && o in Sem(rest, src, s + 1, caps) { assert ByRun(rest, src, s, caps, k, 1, o); }
        if o in Sem(rest, src, s, caps) { assert ByRun(rest, src, s, caps, k, 0, o); }
      case Star => GreedyMember(k, rest, src, s, caps, o);
      case Lazy => LazyMember(k, rest, src, s, caps, o);
      case Plus =>
        if OneMore(src, s, k) { GreedyMember(k, rest, src, s + 1, caps, o); }
        PlusRuns(k, rest, src, s, caps, o);
    }
  }

  lemma RunUpTo1(src: string, s: nat, k: Class)
    ensures s <= |src| ==> Run(src, s, 0, k)
    ensures Run(src, s, 1, k) <==> OneMore(src, s, k)
  {
    RunStep(src, s, 1, k);
  }

  lemma PlusRuns(k: Class, rest: seq<Item>, src: string, s: nat, caps: seq<Cap>, o: Outcome)
    ensures (OneMore(src, s, k) && Reaches(rest, src, s + 1, caps, k, o))
      <==> exists n: nat :: ByRun(rest, src, s, caps, k, n, o) && n >= 1
  {
    if OneMore(src, s, k) && Reaches(rest, src, s + 1, caps, k, o) {
      var s1 := s + 1;
      var n: nat :| ByRun(rest, src, s1, caps, k, n, o);
      RunStep(src, s, n + 1, k);
      assert ByRun(rest, src, s, caps, k, n + 1, o);
    }
    if n: nat :| ByRun(rest, src, s, caps, k, n, o) && n >= 1 {
      RunStep(src, s, n, k);
      assert ByRun(rest, src, s + 1, caps, k, n - 1, o);
    }
  }

  /** The list of successes holds exactly the outcomes the items accept. */
  lemma {:induction false} SemIsAccepts(items: seq<Item>, src: string, s: nat, caps: seq<Cap>, o: Outcome)
    requires s <= |src|
    ensures o in Sem(items, src, s, caps) <==> Accepts(items, src, s, caps, o)
    decreases |items|
  {
    if items != [] {
      var rest := items[1..];
      match items[0]
      case Single(k, rep) =>
        assert items == [Single(k, rep)] + rest;
        SingleMember(k, rep, rest, src, s, caps, o);
        forall n: nat | Run(src, s, n, k)
            ensures o in Sem(rest, src, s + n, caps) <==> Accepts(rest, src, s + n, caps, o) {
          SemIsAccepts(rest, src, s + n, caps, o);
        }
        SingleAccepts(k, rep, items, src, s, caps, o);
      case Open(position) =>
        if |caps| < MAXCAPTURES {
          SemIsAccepts(rest, src, s, caps + [Cap(s, if position then CAP_POSITION else CAP_UNFINISHED)], o);
        }
      case Close =>
        var l := LastOpen(caps);
        if l >= 0 { SemIsAccepts(rest, src, s, caps[l := Cap(caps[l].init, s - caps[l].init)], o); }
      case Back(d) =>
        var l := d as int - '1' as int;
        if 0 <= l < |caps| && caps[l].len != CAP_UNFINISHED && Repeats(src, s, caps[l]) {
          SemIsAccepts(rest, src, s + caps[l].len, caps, o);
        }
      case Balance(b, e) =>
        BalanceIs(src, s, b, e);
        var r := BalanceEnd(src, s + 1, b, e, 1);
        if At(src, s) == b && r.Some? { SemIsAccepts(rest, src, r.value, caps, o); }
      case Frontier(k) => SemIsAccepts(rest, src, s, caps, o);
      case End => SemIsAccepts(rest, src, s, caps, o);
      case Bad(e) =>
    }
  }

  lemma SingleAccepts(k: Class, rep: Rep, items: seq<Item>, src: string, s: nat, caps: seq<Cap>, o: Outcome)
    requires items != [] && items[0] == Single(k, rep)
    requires forall n: nat :: Run(src, s, n, k) ==>
        (o in Sem(items[1..], src, s + n, caps) <==> Accepts(items[1..], src, s + n, caps, o))
    ensures (exists n: nat :: ByRun(items[1..], src, s, caps, k, n, o) && Allowed(rep, n))
        <==> Accepts(items, src, s, caps, o)
  {
    var rest := items[1..];
    if n: nat :| ByRun(rest, src, s, caps, k, n, o) && Allowed(rep, n) {
      assert Run(src, s, n, k) && Allowed(rep, n) && Accepts(rest, src, s + n, caps, o);
    }
    if Accepts(items, src, s, caps, o) {
      var n: nat :| Run(src, s, n, k) && Allowed(rep, n) && Accepts(rest, src, s + n, caps, o);
      assert ByRun(rest, src, s, caps, k, n, o);
    }
  }

  // ---------------------------------------------------------------- which one comes first

  /** The characters from `s` up to `t` are all in the class. */
  predicate Stretch(src: string, s: nat, t: nat, k: Class) {
    s <= t && Run(src, s, t - s, k)
  }

  lemma StretchStep(src: string, s: nat, t: nat, k: Class)
    requires s < t
    ensures Stretch(src, s, t, k) <==> OneMore(src, s, k) && Stretch(src, s + 1, t, k)
  {
    RunStep(src, s, t - s, k);
  }

  /** Without success after one repetition more, there is none after several. */
  lemma NoneAfter(k: Class, rest: seq<Item>, src: string, s: nat, caps: seq<Cap>, t: nat)
    requires s < t && Stretch(src, s, t, k) && Greedy(k, rest, src, s + 1, caps) == []
    ensures Sem(rest, src, t, caps) == []
  {
    StretchStep(src, s, t, k);
    if Sem(rest, src, t, caps) != [] {
      var o := Sem(rest, src, t, caps)[0];
      var s1 := s + 1;
      assert ByRun(rest, src, s1, caps, k, t - s1, o);
      GreedyMember(k, rest, src, s1, caps, o);
    }
  }

  /** `*` prefers the most repetitions from which the rest of the pattern succeeds. */
  lemma {:induction false} GreedyFirst(k: Class, rest: seq<Item>, src: string, s: nat,
      caps: seq<Cap>) returns (t: nat)
    requires s <= |src| && Greedy(k, rest, src, s, caps) != []
    ensures Stretch(src, s, t, k) && Sem(rest, src, t, caps) != []
    ensures Greedy(k, rest, src, s, caps)[0] == Sem(rest, src, t, caps)[0]
    ensures forall u: nat :: u > t && Stretch(src, s, u, k) ==> Sem(rest, src, u, caps) == []
    decreases |src| - s
  {
    if OneMore(src, s, k) && Greedy(k, rest, src, s + 1, caps) != [] {
      t := GreedyFirst(k, rest, src, s + 1, caps);
      StretchStep(src, s, t, k);
      forall u: nat | u > t && Stretch(src, s, u, k)
          ensures Sem(rest, src, u, caps) == [] { StretchStep(src, s, u, k); }
    } else {
      t := s;
      forall u: nat | u > t && Stretch(src, s, u, k) ensures Sem(rest, src, u, caps) == [] {
        StretchStep(src, s, u, k);
        NoneAfter(k, rest, src, s, caps, u);
      }
    }
  }

  /** `-` prefers the fewest. */
  lemma {:induction false} LazyFirst(k: Class, rest: seq<Item>, src: string, s: nat, caps: seq<Cap>) returns (t: nat)
    requires s <= |src| && Reluctant(k, rest, src, s, caps) != []
    ensures Stretch(src, s, t, k) && Sem(rest, src, t, caps) != []
    ensures Reluctant(k, rest, src, s, caps)[0] == Sem(rest, src, t, caps)[0]
    ensures forall u: nat :: s <= u < t ==> Sem(rest, src, u, caps) == []
    decreases |src| - s
  {
    if Sem(rest, src, s, caps) != [] {
      t := s;
    } else {
      t := LazyFirst(k, rest, src, s + 1, caps);
      StretchStep(src, s, t, k);
    }
  }
}
