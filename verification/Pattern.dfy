/**
  The matcher: it reads the pattern string as it goes and keeps its captures in
  an array that it changes in place, undoing what a failed attempt did.
 */
module Pattern {
  import opened Common
  import opened PatternModel

  datatype Result = Fail | Ok(e: nat) | Error(error: PatternModel.Error)

  /** The result is the first of the successes; a failure leaves the captures alone. */
  predicate FirstOf(r: Result, outs: seq<Outcome>, before: seq<Cap>, after: seq<Cap>) {
    match r
    case Fail => outs == [] && after == before
    case Ok(e) => outs != [] && outs[0] == Done(e, after)
    case Error(x) => outs != [] && outs[0] == Err(x)
  }

  predicate AnyIn(elems: seq<Elem>, c: char) {
    exists i :: 0 <= i < |elems| && InElem(elems[i], c)
  }

  lemma AnyCons(e: Elem, elems: seq<Elem>, c: char)
    ensures AnyIn([e] + elems, c) <==> InElem(e, c) || AnyIn(elems, c)
  {
    var l := [e] + elems;
    assert l[0] == e;
    if AnyIn(elems, c) {
      var i :| 0 <= i < |elems| && InElem(elems[i], c);
      assert l[i + 1] == elems[i];
    }
  }

  class MatchState {
    const src: string
    const pat: string
    const capture: array<Cap>
    var level: nat

    constructor (src: string, pat: string)
      ensures Valid() && this.src == src && this.pat == pat && level == 0 && fresh(capture)
    {
      this.src, this.pat, level := src, pat, 0;
      capture := new Cap[MAXCAPTURES](_ => Cap(0, 0));
    }

    predicate Valid()
      reads this
    {
      capture.Length == MAXCAPTURES && level <= MAXCAPTURES
    }

    function Caps(): seq<Cap>
      requires Valid()
      reads this, capture
    {
      capture[..level]
    }

    // -------------------------------------------------------------- classes

    /** `matchbracketclass`: the set opens at `p` and closes at `ec`. */
    method MatchBracketClass(c: char, p: nat, ec: nat) returns (r: bool)
      ensures r == InClass(SetAt(pat, p, ec), c)
    {
      var sig, q := true, p + 1;
      if At(pat, p + 1) == '^' { sig, q := false, p + 2; }
      ghost var elems := Elems(pat, q, ec);
      while q < ec
        invariant AnyIn(elems, c) <==> AnyIn(Elems(pat, q, ec), c)
        decreases ec - q
      {
        if At(pat, q) == ESC {
          AnyCons(Letter(At(pat, q + 1)), Elems(pat, q + 2, ec), c);
          if InElem(Letter(At(pat, q + 1)), c) { return sig; }
          q := q + 2;
        } else if At(pat, q + 1) == '-' && q + 2 < ec {
          AnyCons(Range(At(pat, q), At(pat, q + 2)), Elems(pat, q + 3, ec), c);
          if At(pat, q) <= c && c <= At(pat, q + 2) { return sig; }
          q := q + 3;
        } else {
          AnyCons(Char(At(pat, q)), Elems(pat, q + 1, ec), c);
          if At(pat, q) == c { return sig; }
          q := q + 1;
        }
      }
      r := !sig;
    }

    method SingleMatch(c: char, p: nat, ep: nat) returns (r: bool)
      requires ep > 0
      ensures r == InClass(ClassAt(pat, p, ep), c)
    {
      if At(pat, p) == '.' { return true; }
      if At(pat, p) == ESC { return InElem(Letter(At(pat, p + 1)), c); }
      if At(pat, p) == '[' { r := MatchBracketClass(c, p, ep - 1); return; }
      r := At(pat, p) == c;
    }

    method FindClassEnd(p: nat) returns (r: Option<nat>)
      requires At(pat, p) != '\0'
      ensures r == ClassEnd(pat, p)
    {
      if At(pat, p) == ESC {
        return if At(pat, p + 1) == '\0' then None else Some(p + 2);
      }
      if At(pat, p) != '[' { return Some(p + 1); }
      var q := if At(pat, p + 1) == '^' then p + 2 else p + 1;
      while true
        invariant ClassEnd(pat, p) == SetEnd(pat, q)
        decreases |pat| - q
      {
        if At(pat, q) == '\0' { return None; }
        q := if At(pat, q) == ESC && At(pat, q + 1) != '\0' then q + 2 else q + 1;
        if At(pat, q) == ']' { return Some(q + 1); }
      }
    }

    // -------------------------------------------------------------- pieces

    method MatchBalance(s: nat, b: char, e: char) returns (r: Option<nat>)
      requires s <= |src| && b != '\0'
      ensures r == if At(src, s) != b then None else BalanceEnd(src, s + 1, b, e, 1)
      ensures r.Some? ==> r.value <= |src|
    {
      if At(src, s) != b { return None; }
      var cont, i := 1, s + 1;
      while i < |src|
        invariant cont > 0 && BalanceEnd(src, s + 1, b, e, 1) == BalanceEnd(src, i, b, e, cont)
      {
        if src[i] == e {
          cont := cont - 1;
          if cont == 0 { return Some(i + 1); }
        } else if src[i] == b {
          cont := cont + 1;
        }
        i := i + 1;
      }
      r := None;
    }

    method CaptureToClose() returns (l: int)
      requires Valid()
      ensures l == LastOpen(Caps())
    {
      l := level - 1;
      while l >= 0
        invariant -1 <= l < level && LastOpen(Caps()) == LastOpen(Caps()[..l + 1])
      {
        if capture[l].len == CAP_UNFINISHED { return; }
        assert Caps()[..l + 1][..l] == Caps()[..l];
        l := l - 1;
      }
    }

    /** `match_capture`: where the repeated text ends. */
    method MatchCapture(s: nat, d: char) returns (ok: bool, r: Option<nat>)
      requires Valid() && s <= |src|
      ensures var l := d as int - '1' as int;
        if l < 0 || l >= |Caps()| || Caps()[l].len == CAP_UNFINISHED then !ok
        else ok && r == if Repeats(src, s, Caps()[l]) then Some(s + Caps()[l].len) else None
      ensures ok && r.Some? ==> r.value <= |src|
    {
      var l := d as int - '1' as int;
      if l < 0 || l >= level || capture[l].len == CAP_UNFINISHED { return false, None; }
      var c := capture[l];
      assert c == Caps()[l];
      return true, if Repeats(src, s, c) then Some(s + c.len) else None;
    }

    // -------------------------------------------------------------- the search

    method StartCapture(s: nat, p: nat, position: bool) returns (r: Result)
      requires Valid() && s <= |src| && p <= |pat|
      modifies this, capture
      ensures Valid()
      ensures FirstOf(r, Sem([Open(position)] + Parse(pat, p), src, s, old(Caps())), old(Caps()), Caps())
      decreases |pat| - p, 4
    {
      ghost var caps := Caps();
      assert ([Open(position)] + Parse(pat, p))[1..] == Parse(pat, p);
      if level >= MAXCAPTURES { return Error(TooManyCaptures); }
      capture[level] := Cap(s, if position then CAP_POSITION else CAP_UNFINISHED);
      level := level + 1;
      assert Caps() == caps + [Cap(s, if position then CAP_POSITION else CAP_UNFINISHED)];
      r := Match(s, p);
      if r == Fail {
        level := level - 1;
        assert Caps() == caps;
      }
    }

    method EndCapture(s: nat, p: nat) returns (r: Result)
      requires Valid() && s <= |src| && p <= |pat|
      modifies this, capture
      ensures Valid()
      ensures FirstOf(r, Sem([Close] + Parse(pat, p), src, s, old(Caps())), old(Caps()), Caps())
      decreases |pat| - p, 4
    {
      ghost var caps := Caps();
      assert ([Close] + Parse(pat, p))[1..] == Parse(pat, p);
      var l := CaptureToClose();
      if l < 0 { return Error(InvalidCapture); }
      capture[l] := Cap(capture[l].init, s - capture[l].init);
      assert Caps() == caps[l := Cap(caps[l].init, s - caps[l].init)];
      r := Match(s, p);
      if r == Fail {
        assert capture[l] == Caps()[l];
        capture[l] := Cap(capture[l].init, CAP_UNFINISHED);
        assert Caps() == caps;
      }
    }

    /** The most repetitions there can be. */
    method CountMax(s: nat, p: nat, ep: nat) returns (i: nat)
      requires s <= |src| && 0 < ep
      ensures s + i <= |src| && !OneMore(src, s + i, ClassAt(pat, p, ep))
      ensures forall j: nat :: s <= j < s + i ==> OneMore(src, j, ClassAt(pat, p, ep))
    {
      i := 0;
      while s + i < |src|
        invariant s + i <= |src| && forall j: nat :: s <= j < s + i ==> OneMore(src, j, ClassAt(pat, p, ep))
      {
        var m := SingleMatch(src[s + i], p, ep);
        if !m { return; }
        i := i + 1;
      }
    }

    /** `max_expand`: as many repetitions as possible, then fewer. */
    method MaxExpand(s: nat, p: nat, ep: nat) returns (r: Result)
      requires Valid() && s <= |src| && 0 < ep < |pat|
      modifies this, capture
      ensures Valid()
      ensures FirstOf(r, Greedy(ClassAt(pat, p, ep), Parse(pat, ep + 1), src, s, old(Caps())), old(Caps()), Caps())
      decreases |pat| - (ep + 1), 4
    {
      ghost var k, rest, caps := ClassAt(pat, p, ep), Parse(pat, ep + 1), Caps();
      var n := CountMax(s, p, ep);
      GreedyIs(k, rest, src, s, caps, n);
      var i: int := n;
      while i >= 0
        invariant -1 <= i && s + i <= |src| && Valid() && Caps() == caps
        invariant Greedy(k, rest, src, s, caps) == Down(rest, src, s, caps, i)
      {
        r := Match(s + i, ep + 1);
        if r != Fail { return; }
        i := i - 1;
      }
      r := Fail;
    }

    /** `min_expand`: as few repetitions as possible, then more. */
    method MinExpand(s0: nat, p: nat, ep: nat) returns (r: Result)
      requires Valid() && s0 <= |src| && 0 < ep < |pat|
      modifies this, capture
      ensures Valid()
      ensures FirstOf(r, Reluctant(ClassAt(pat, p, ep), Parse(pat, ep + 1), src, s0, old(Caps())), old(Caps()),
          Caps())
      decreases |pat| - (ep + 1), 4
    {
      ghost var k, rest, caps := ClassAt(pat, p, ep), Parse(pat, ep + 1), Caps();
      var s := s0;
      while true
        invariant s <= |src| && Valid() && Caps() == caps
        invariant Reluctant(k, rest, src, s0, caps) == Reluctant(k, rest, src, s, caps)
        decreases |src| - s
      {
        r := Match(s, ep + 1);
        if r != Fail { return; }
        var m := false;
        if s < |src| { m := SingleMatch(src[s], p, ep); }
        if !m { return Fail; }
        s := s + 1;
      }
    }

    /** A single item with its suffix; the loop of `match` goes on when only one
        way is left: the result says where. */
    /** An optional single character: with it first, then without. */
    method OptionalItem(s: nat, p: nat, ep: nat, m: bool) returns (next: Option<(nat, nat)>, r: Result)
      requires Valid() && s <= |src| && p < ep < |pat| && At(pat, p) != '\0' && At(pat, ep) == '?'
      requires ItemAt(pat, p) == (Single(ClassAt(pat, p, ep), Optional), ep + 1)
      requires m == (s < |src| && InClass(ClassAt(pat, p, ep), src[s]))
      modifies this, capture
      ensures Valid() && Stepped(next, r, s, p, old(Caps()), Caps())
      decreases |pat| - (ep + 1), 4
    {
      next, r := None, Fail;
      ItemFirst(pat, p);
      if m {
        r := Match(s + 1, ep + 1);
        if r != Fail { return; }
      }
      next := Some((s, ep + 1));
    }

    method SingleItem(s: nat, p: nat) returns (next: Option<(nat, nat)>, r: Result)
      requires Valid() && s <= |src| && At(pat, p) != '\0' && ItemAt(pat, p) == SingleAt(pat, p)
      modifies this, capture
      ensures Valid() && Stepped(next, r, s, p, old(Caps()), Caps())
      decreases |pat| - p, 0
    {
      ghost var caps := Caps();
      next, r := None, Fail;
      var end := FindClassEnd(p);
      if end.None? { return None, Error(Malformed); }
      var ep := end.value;
      var m := false;
      if s < |src| { m := SingleMatch(src[s], p, ep); }
      ghost var k := ClassAt(pat, p, ep);
      ItemFirst(pat, p);
      if At(pat, ep) == '?' {
        next, r := OptionalItem(s, p, ep, m);
      } else if At(pat, ep) == '*' {
        r := MaxExpand(s, p, ep);
      } else if At(pat, ep) == '+' {
        if m { r := MaxExpand(s + 1, p, ep); }
      } else if At(pat, ep) == '-' {
        r := MinExpand(s, p, ep);
      } else if m {
        next := Some((s + 1, ep));
      }
    }

    /** `%b` */
    method BalanceItem(s: nat, p: nat) returns (next: Option<(nat, nat)>, r: Result)
      requires Valid() && s <= |src| && p <= |pat| && At(pat, p) == ESC && At(pat, p + 1) == 'b'
      ensures Stepped(next, r, s, p, Caps(), Caps())
    {
      ItemFirst(pat, p);
      if At(pat, p + 2) == '\0' || At(pat, p + 3) == '\0' { return None, Error(Unbalanced); }
      var e := MatchBalance(s, At(pat, p + 2), At(pat, p + 3));
      next, r := if e.None? then None else Some((e.value, p + 4)), Fail;
    }

    /** `%f` */
    method FrontierItem(s: nat, p: nat) returns (next: Option<(nat, nat)>, r: Result)
      requires Valid() && s <= |src| && p <= |pat| && At(pat, p) == ESC && At(pat, p + 1) == 'f'
      ensures Stepped(next, r, s, p, Caps(), Caps())
    {
      ItemFirst(pat, p);
      if At(pat, p + 2) != '[' { return None, Error(MissingBracket); }
      var ep := FindClassEnd(p + 2);
      if ep.None? { return None, Error(Malformed); }
      var before := MatchBracketClass(if s == 0 then '\0' else At(src, s - 1), p + 2, ep.value - 1);
      var here := MatchBracketClass(At(src, s), p + 2, ep.value - 1);
      next, r := if before || !here then None else Some((s, ep.value)), Fail;
    }

    /** `%1` to `%9`, and `%0` */
    method BackItem(s: nat, p: nat) returns (next: Option<(nat, nat)>, r: Result)
      requires Valid() && s <= |src| && p <= |pat| && At(pat, p) == ESC && IsDigit(At(pat, p + 1))
      ensures Stepped(next, r, s, p, Caps(), Caps())
    {
      ItemFirst(pat, p);
      var ok, e := MatchCapture(s, At(pat, p + 1));
      if !ok { return None, Error(InvalidIndex); }
      next, r := if e.None? then None else Some((e.value, p + 2)), Fail;
    }

    /** Either the result, or the one way that is left. */
    predicate Stepped(next: Option<(nat, nat)>, r: Result, s: nat, p: nat, before: seq<Cap>, after: seq<Cap>) {
      match next
      case None => FirstOf(r, Sem(Parse(pat, p), src, s, before), before, after)
      case Some((s', p')) =>
        && s' <= |src| && p < p' <= |pat| && after == before
        && Sem(Parse(pat, p), src, s, before) == Sem(Parse(pat, p'), src, s', before)
    }

    /** The items that only look ahead. */
    method LookItem(s: nat, p: nat) returns (next: Option<(nat, nat)>, r: Result)
      requires Valid() && s <= |src| && p <= |pat| && At(pat, p) == ESC
      requires At(pat, p + 1) == 'b' || At(pat, p + 1) == 'f' || IsDigit(At(pat, p + 1))
      ensures Stepped(next, r, s, p, Caps(), Caps())
    {
      if At(pat, p + 1) == 'b' {
        next, r := BalanceItem(s, p);
      } else if At(pat, p + 1) == 'f' {
        next, r := FrontierItem(s, p);
      } else {
        next, r := BackItem(s, p);
      }
    }

    /** One turn of the loop of `match`. */
    method Step(s: nat, p: nat) returns (next: Option<(nat, nat)>, r: Result)
      requires Valid() && s <= |src| && p <= |pat|
      modifies this, capture
      ensures Valid() && Stepped(next, r, s, p, old(Caps()), Caps())
      decreases |pat| - p, 2
    {
      next, r := None, Fail;
      if At(pat, p) == '\0' { return None, Ok(s); }
      ItemFirst(pat, p);
      var c, d := At(pat, p), At(pat, p + 1);
      if c == '(' {
        if d == ')' { r := StartCapture(s, p + 2, true); } else { r := StartCapture(s, p + 1, false); }
      } else if c == ')' {
        r := EndCapture(s, p + 1);
      } else if c == ESC && (d == 'b' || d == 'f' || IsDigit(d)) {
        next, r := LookItem(s, p);
      } else if c == '$' && d == '\0' {
        r := if s == |src| then Ok(s) else Fail;
      } else {
        next, r := SingleItem(s, p);
      }
    }

    /** `match`: the preferred way to match the pattern from `p` on at `s`. */
    method Match(s0: nat, p0: nat) returns (r: Result)
      requires Valid() && s0 <= |src| && p0 <= |pat|
      modifies this, capture
      ensures Valid()
      ensures FirstOf(r, Sem(Parse(pat, p0), src, s0, old(Caps())), old(Caps()), Caps())
      decreases |pat| - p0, 3
    {
      var s: nat, p: nat := s0, p0;
      ghost var caps := Caps();
      while true
        invariant s <= |src| && p0 <= p <= |pat| && Valid() && Caps() == caps
        invariant Sem(Parse(pat, p0), src, s0, caps) == Sem(Parse(pat, p), src, s, caps)
        decreases |pat| - p
      {
        var next;
        next, r := Step(s, p);
        if next.None? { return; }
        s, p := next.value.0, next.value.1;
      }
    }

    /** `string.find` and `string.match`: the leftmost place from `init` on where
        the pattern matches, and the preferred match there. */
    method Find(init: nat) returns (start: nat, r: Result)
      requires Valid() && init <= |src|
      modifies this, capture
      ensures Valid() && init <= start <= |src|
      ensures FirstOf(r, Sem(Parse(pat, PatStart(pat)), src, start, []), [], Caps())
      ensures forall i :: init <= i < start ==> Sem(Parse(pat, PatStart(pat)), src, i, []) == []
      ensures r == Fail ==> start == if Anchored(pat) then init else |src|
      ensures Anchored(pat) ==> start == init
    {
      start := init;
      while true
        invariant Valid() && init <= start <= |src| && (Anchored(pat) ==> start == init)
        invariant forall i :: init <= i < start ==> Sem(Parse(pat, PatStart(pat)), src, i, []) == []
        decreases |src| - start
      {
        level := 0;
        assert Caps() == [];
        r := Match(start, PatStart(pat));
        if r != Fail || Anchored(pat) || start == |src| { return; }
        start := start + 1;
      }
    }
  }

  /** `^` at the start holds the match to one place. */
  predicate Anchored(pat: string) {
    At(pat, 0) == '^'
  }

  function PatStart(pat: string): (p: nat)
    ensures p <= |pat|
  {
    if Anchored(pat) then 1 else 0
  }

  /** The first item of the rest of a pattern. */
  lemma ItemFirst(pat: string, p: nat)
    requires At(pat, p) != '\0'
    ensures var (item, next) := ItemAt(pat, p); var items := Parse(pat, p);
      && items != [] && items[0] == item
      && (!item.Bad? ==> items[1..] == Parse(pat, next) && items == [item] + Parse(pat, next))
  {
  }

  /** Repetitions `i`, `i - 1` and so on down to none. */
  function Down(rest: seq<Item>, src: string, s: nat, caps: seq<Cap>, i: int): seq<Outcome>
    requires i >= -1
    decreases i + 1
  {
    if i < 0 then [] else Sem(rest, src, s + i, caps) + Down(rest, src, s, caps, i - 1)
  }

  lemma {:induction false} DownShift(rest: seq<Item>, src: string, s: nat, caps: seq<Cap>, i: int)
    requires i >= 0
    ensures Down(rest, src, s, caps, i) == Down(rest, src, s + 1, caps, i - 1) + Sem(rest, src, s, caps)
    decreases i
  {
    if i > 0 {
      DownShift(rest, src, s, caps, i - 1);
    } else {
      assert Down(rest, src, s, caps, -1) == [];
    }
  }

  lemma {:induction false} GreedyIs(k: Class, rest: seq<Item>, src: string, s: nat, caps: seq<Cap>, i: int)
    requires i >= 0 && (forall j: nat :: s <= j < s + i ==> OneMore(src, j, k)) && !OneMore(src, s + i, k)
    ensures Greedy(k, rest, src, s, caps) == Down(rest, src, s, caps, i)
    decreases i
  {
    DownShift(rest, src, s, caps, i);
    if i > 0 {
      assert OneMore(src, s, k);
      GreedyIs(k, rest, src, s + 1, caps, i - 1);
    } else {
      assert Down(rest, src, s + 1, caps, -1) == [];
    }
  }
}
