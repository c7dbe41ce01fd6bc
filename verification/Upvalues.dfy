/**
  Upvalues (`lfunc.c`): a captured local variable is reached through the stack
  while its block is active and through the upvalue itself afterwards. Whatever
  the run, that is one shared cell per variable.
 */
module Upvalues {

  type Value = int

  // ---------- Reference machine: every variable is a cell ----------

  /** `env[l]` is the cell of the variable now in slot `l`. */
  datatype Vars = Vars(cells: seq<Value>, env: seq<nat>) {
    predicate Ok() {
      && (forall l :: 0 <= l < |env| ==> env[l] < |cells|)
      && (forall l, m :: 0 <= l < m < |env| ==> env[l] != env[m])
    }

    function Local(level: nat): Value
      requires Ok() && level < |env|
    {
      cells[env[level]]
    }

    function SetCell(c: nat, v: Value): (r: Vars)
      requires Ok() && c < |cells|
      ensures r.Ok()
    {
      this.(cells := cells[c := v])
    }

    /** The block whose variables start at `level` ends: the slots hold new variables. */
    function Leave(level: nat): (r: Vars)
      requires Ok() && level <= |env|
      ensures r.Ok() && |r.env| == |env| && cells <= r.cells
      ensures forall l :: 0 <= l < |env| ==> r.Local(l) == Local(l)
      ensures forall l :: 0 <= l < level ==> r.env[l] == env[l]
      ensures forall l :: level <= l < |env| ==> r.env[l] >= |cells|
    {
      var renewed := seq(|env|, l requires 0 <= l < |env| => if l < level then env[l] else |cells| + l - level);
      var values := seq(|env| - level, i requires 0 <= i < |env| - level => Local(level + i));
      Vars(cells + values, renewed)
    }
  }

  // ---------- The structure ----------

  /** `UpVal`: `v` points to slot `level` while open, and to `value` when closed. */
  class UpVal {
    var open: bool
    var level: nat
    var value: Value
    var next: UpVal?
    var ringPrev: UpVal?
    var ringNext: UpVal?
  }

  ghost function At(s: seq<UpVal>, i: nat): UpVal? {
    if i < |s| then s[i] else null
  }

  ghost function Back(s: seq<UpVal>, i: nat): UpVal? {
    if 0 < i <= |s| then s[i - 1] else null
  }

  ghost function After(r: seq<UpVal>, i: nat): UpVal
    requires i < |r|
  {
    if i + 1 < |r| then r[i + 1] else r[0]
  }

  ghost function Before(r: seq<UpVal>, i: nat): UpVal
    requires i < |r|
  {
    if i > 0 then r[i - 1] else r[|r| - 1]
  }

  ghost predicate Descending(s: seq<nat>) {
    forall i, j :: 0 <= i < j < |s| ==> s[i] > s[j]
  }

  /** Position `k` is the place of `x`. */
  ghost predicate Fits(s: seq<nat>, k: nat, x: nat) {
    (forall i :: 0 <= i < k <= |s| ==> s[i] > x) && (forall i :: k <= i < |s| ==> s[i] < x)
  }

  /** The positions of a list after an insertion at `k`. */
  lemma Inserted<T>(o: seq<T>, r: seq<T>, x: T, k: nat)
    requires k <= |o| && r == o[..k] + [x] + o[k..]
    ensures |r| == |o| + 1 && r[k] == x
    ensures forall i :: 0 <= i < k ==> r[i] == o[i]
    ensures forall i :: k < i < |r| ==> r[i] == o[i - 1]
    ensures forall y :: y in r <==> y == x || y in o
  {
    assert o == o[..k] + o[k..];
  }

  /** The positions of a list without the element at `k`. */
  lemma Removed<T>(o: seq<T>, r: seq<T>, k: nat)
    requires k < |o| && r == o[..k] + o[k + 1..] && forall i, j :: 0 <= i < j < |o| ==> o[i] != o[j]
    ensures |r| == |o| - 1
    ensures forall i :: 0 <= i < |r| ==> r[i] == if i < k then o[i] else o[i + 1]
    ensures forall y :: y in r <==> y != o[k] && y in o
  {
    assert o == o[..k] + [o[k]] + o[k + 1..];
  }

  lemma InsertDescending(o: seq<nat>, r: seq<nat>, x: nat, k: nat)
    requires k <= |o| && r == o[..k] + [x] + o[k..] && Descending(o) && Fits(o, k, x)
    ensures Descending(r) == true
  {
    Inserted(o, r, x, k);
    forall i, j | 0 <= i < j < |r| ensures r[i] > r[j] {
    }
  }

  class LuaState {
    const stack: array<Value>
    /** The anchor of the double linked list of all open upvalues. */
    const uvhead: UpVal
    var openupval: UpVal?

    ghost var openList: seq<UpVal>
    ghost var levels: seq<nat>
    ghost var ring: seq<UpVal>
    ghost var ups: set<UpVal>
    ghost var vars: Vars
    ghost var cellOf: map<UpVal, nat>

    /** The chain of the open list. */
    ghost predicate Chained()
      reads `openupval, `openList, openList`next
    {
      && openupval == At(openList, 0)
      && (forall i {:trigger openList[i].next} :: 0 <= i < |openList| ==> openList[i].next == At(openList, i + 1))
    }

    /** The open list is strictly descending by level: one upvalue for a slot. */
    ghost predicate Levelled()
      reads `openList, `levels, openList`open, openList`level
    {
      && |levels| == |openList| && Descending(levels)
      && (forall i :: 0 <= i < |openList| ==> openList[i].open && openList[i].level == levels[i] < stack.Length)
    }

    /** What is open is in the open list. */
    ghost predicate OpenExact()
      reads `openList, `ups, ups`open
    {
      && (forall i :: 0 <= i < |openList| ==> openList[i] in ups)
      && (forall u :: u in ups ==> (u.open <==> u in openList))
    }

    ghost predicate ListOk()
      reads `openupval, `openList, `levels, `ups, ups`next, ups`open, ups`level, openList`open, openList`level,
          openList`next
    {
      OpenExact() && Chained() && Levelled()
    }

    /** No open upvalue is of the slot `level`. */
    ghost predicate Unshared(level: nat)
      reads `openList, openList`level
    {
      forall u :: u in openList ==> u.level != level
    }

    /** The double linked ring through `uvhead`. */
    ghost predicate RingOk()
      reads `ring, `ups, uvhead`ringNext, uvhead`ringPrev, ups`ringNext, ups`ringPrev
    {
      && uvhead !in ups
      && |ring| > 0 && ring[0] == uvhead
      && (forall i :: 1 <= i < |ring| ==> ring[i] in ups)
      && (forall i, j :: 0 <= i < j < |ring| ==> ring[i] != ring[j])
      && (forall i {:trigger ring[i].ringNext} :: 0 <= i < |ring| ==> ring[i].ringNext == After(ring, i))
      && (forall i {:trigger ring[i].ringPrev} :: 0 <= i < |ring| ==> ring[i].ringPrev == Before(ring, i))
    }

    /** The upvalues in the ring are exactly the open ones. */
    ghost predicate RingExact()
      reads `ring, `ups, `openList
    {
      forall u :: u in ups ==> (u in ring <==> u in openList)
    }

    /** What is behind the pointer `v`. */
    function Get(u: UpVal): Value
      reads this, u, stack
      requires u.open ==> u.level < stack.Length
    {
      if u.open then stack[u.level] else u.value
    }

    /**
      Every captured variable is its own cell, shared by all that refer to it;
      the cell of a closed upvalue is in no slot below `level`.
     */
    ghost predicate CellsBelow(level: nat)
      reads `vars, `cellOf, `ups, ups`open, ups`level, ups`value, stack
    {
      && vars.Ok() && |vars.env| == stack.Length && level <= stack.Length
      && (forall l :: 0 <= l < stack.Length ==> stack[l] == vars.Local(l))
      && cellOf.Keys == ups
      && (forall u :: u in ups ==> cellOf[u] < |vars.cells|)
      && (forall u, w :: u in ups && w in ups && u != w ==> cellOf[u] != cellOf[w])
      && (forall u :: u in ups && u.open ==> u.level < stack.Length && cellOf[u] == vars.env[u.level])
      && (forall u :: u in ups && !u.open ==> vars.cells[cellOf[u]] == u.value)
      && (forall u, l :: u in ups && !u.open && 0 <= l < level ==> vars.env[l] != cellOf[u])
    }

    ghost predicate CellsOk()
      reads `vars, `cellOf, `ups, ups`open, ups`level, ups`value, stack
    {
      CellsBelow(stack.Length)
    }

    ghost predicate Valid()
      reads this, uvhead, ups, openList, stack
    {
      ListOk() && RingOk() && RingExact() && CellsOk()
    }

    /** A state with nothing captured. */
    constructor (stack: array<Value>)
      ensures Valid() && this.stack == stack && fresh(uvhead) && ups == {} && openList == []
      ensures vars.env == seq(stack.Length, l => l) && vars.cells == stack[..]
    {
      var head := new UpVal;
      this.stack := stack;
      uvhead := head;
      openupval := null;
      openList, levels, ring, ups, cellOf := [], [], [head], {}, map[];
      vars := Vars(stack[..], seq(stack.Length, l => l));
      new;
      head.ringNext, head.ringPrev := head, head;
    }

    /** `luaF_findupval`: the upvalue of the variable in slot `level`, made when it has none. */
    method FindUpval(level: nat) returns (uv: UpVal)
      requires Valid() && level < stack.Length
      modifies this, uvhead, ups
      ensures Valid() == true && vars == old(vars)
      ensures uv in ups && uv.open && uv.level == level && cellOf[uv] == vars.env[level]
      ensures ups == old(ups) + {uv} && cellOf == old(cellOf)[uv := vars.env[level]]
      ensures uv in old(ups) ==> openList == old(openList) && ring == old(ring) && cellOf == old(cellOf)
      ensures uv !in old(ups) ==> fresh(uv)
    {
      var p: UpVal? := null;
      var pp := openupval;
      ghost var k := 0;
      while pp != null && pp.level >= level
        invariant k <= |openList|
        invariant pp == At(openList, k)
        invariant p == Back(openList, k)
        invariant forall i :: 0 <= i < k ==> levels[i] > level
        decreases |openList| - k
      {
        if pp.level == level { return pp; }
        p, pp := pp, pp.next;
        k := k + 1;
      }
      assert Fits(levels, k, level);
      uv := NewOpen(level, p, pp, k);
    }

    /** No upvalue found: creates a new one and chains it in the proper position. */
    method NewOpen(level: nat, p: UpVal?, pp: UpVal?, ghost k: nat) returns (uv: UpVal)
      requires Valid() && level < stack.Length
      requires k <= |openList| && pp == At(openList, k)
      requires p == Back(openList, k)
      requires Fits(levels, k, level) == true
      modifies this, uvhead, ups
      ensures Valid() == true && vars == old(vars) && fresh(uv)
      ensures uv.open && uv.level == level && ups == old(ups) + {uv}
      ensures cellOf == old(cellOf)[uv := vars.env[level]]
    {
      uv := Adopt(level, p, pp, k);
      LinkRing(uv);
      assert ListOk() == true;
      assert CellsOk() == true;
    }

    method Adopt(level: nat, p: UpVal?, pp: UpVal?, ghost k: nat) returns (uv: UpVal)
      requires Valid() == true && uvhead !in ups && level < stack.Length && Unshared(level) == true
      requires k <= |openList| && pp == At(openList, k)
      requires p == Back(openList, k)
      requires Fits(levels, k, level) == true
      modifies `openupval, `openList, `levels, `ups, `cellOf, ups`next
      ensures ListOk() == true && RingOk() == true && CellsOk() == true && uv !in ring && fresh(uv)
      ensures forall u :: u in openList <==> u == uv || u in old(openList)
      ensures uv.open && uv.level == level && ups == old(ups) + {uv}
      ensures level < |vars.env| && cellOf == old(cellOf)[uv := vars.env[level]]
    {
      uv := Create(level, p, pp, k);
      cellOf := cellOf[uv := vars.env[level]];
      CellsGrow(uv, level);
    }

    method Create(level: nat, p: UpVal?, pp: UpVal?, ghost k: nat) returns (uv: UpVal)
      requires ListOk() == true && RingOk() == true && RingExact() == true && uvhead !in ups
      requires level < stack.Length
      requires k <= |openList| && pp == At(openList, k)
      requires p == Back(openList, k)
      requires Fits(levels, k, level) == true
      modifies `openupval, `openList, `levels, `ups, ups`next
      ensures ListOk() == true && RingOk() == true && uv !in ring && fresh(uv)
      ensures forall u :: u in openList <==> u == uv || u in old(openList)
      ensures uv.open && uv.level == level && ups == old(ups) + {uv}
    {
      uv := new UpVal;
      uv.open, uv.level := true, level;
      Chain(p, pp, uv, k);
      RingGrows(uv);
    }

    /** One more upvalue leaves the ring as it was. */
    twostate lemma RingGrows(new uv: UpVal)
      requires old(RingOk()) == true && old(RingExact()) == true && uv !in old(ups) && uv != uvhead
      requires ups == old(ups) + {uv} && ring == old(ring)
      requires forall u :: u in old(ups) ==> u.ringNext == old(u.ringNext) && u.ringPrev == old(u.ringPrev)
      requires uvhead.ringNext == old(uvhead.ringNext) && uvhead.ringPrev == old(uvhead.ringPrev)
      ensures RingOk() == true && uv !in ring
    {
    }

    /** The first upvalue of a variable names its cell. */
    twostate lemma CellsGrow(new uv: UpVal, level: nat)
      requires old(OpenExact()) == true && old(CellsOk()) == true && uv !in old(ups)
      requires uv.open && uv.level < stack.Length && ups == old(ups) + {uv}
      requires uv.level == level && old(Unshared(level)) == true
      requires vars == old(vars) && stack[..] == old(stack[..]) && cellOf == old(cellOf)[uv := vars.env[level]]
      requires forall u :: u in old(ups) ==>
          u.open == old(u.open) && u.level == old(u.level) && u.value == old(u.value)
      ensures CellsOk() == true
    {
      forall u | u in old(ups) ensures cellOf[u] != cellOf[uv] {
        if old(u.open) {
          assert u in old(openList);
          assert cellOf[u] == vars.env[u.level];
        }
      }
      forall l | 0 <= l < stack.Length ensures stack[l] == vars.Local(l) {
        assert stack[..][l] == old(stack[..])[l];
      }
    }

    twostate lemma ChainedMore(new p: UpVal?, new uv: UpVal, k: nat)
      requires old(Chained()) && old(Levelled()) && k <= |old(openList)| && uv !in old(openList)
      requires openList == old(openList[..k]) + [uv] + old(openList[k..])
      requires p == Back(old(openList), k)
      requires uv.next == At(old(openList), k)
      requires k > 0 ==> openupval == old(openupval) && p.next == uv
      requires k == 0 ==> openupval == uv
      requires forall u :: u in old(openList) && u != p ==> u.next == old(u.next)
      ensures Chained() == true
    {
      ghost var o := old(openList);
      Inserted(o, openList, uv, k);
      forall i {:trigger openList[i].next} | 0 <= i < |openList| ensures openList[i].next == At(openList, i + 1) {
        if i < k - 1 {
          assert openList[i] == o[i] && old(o[i].level) != old(o[k - 1].level) && old(o[i].next) == At(o, i + 1);
        } else if i > k {
          assert openList[i] == o[i - 1] && old(o[i - 1].next) == At(o, i);
          assert k > 0 ==> old(o[i - 1].level) != old(o[k - 1].level);
        }
      }
    }

    twostate lemma LevelledMore(new uv: UpVal, k: nat)
      requires old(Levelled()) && k <= |old(openList)| && uv.open && uv.level < stack.Length
      requires openList == old(openList[..k]) + [uv] + old(openList[k..])
      requires levels == old(levels[..k]) + [uv.level] + old(levels[k..])
      requires Fits(old(levels), k, uv.level) == true
      requires forall u :: u in old(openList) ==> u.open == old(u.open) && u.level == old(u.level)
      ensures Levelled() == true
    {
      Inserted(old(openList), openList, uv, k);
      Inserted(old(levels), levels, uv.level, k);
      InsertDescending(old(levels), levels, uv.level, k);
    }

    /** One more upvalue in its place keeps the open list in order. */
    twostate lemma ListMore(new p: UpVal?, new uv: UpVal, k: nat)
      requires old(ListOk()) == true && k <= |old(openList)| && uv !in old(ups)
      requires uv.open && uv.level < stack.Length && ups == old(ups) + {uv}
      requires openList == old(openList[..k]) + [uv] + old(openList[k..])
      requires levels == old(levels[..k]) + [uv.level] + old(levels[k..]) && Fits(old(levels), k, uv.level) == true
      requires p == Back(old(openList), k) && uv.next == At(old(openList), k)
      requires k > 0 ==> openupval == old(openupval) && p.next == uv
      requires k == 0 ==> openupval == uv
      requires forall u :: u in old(ups) ==>
          u.open == old(u.open) && u.level == old(u.level) && (u != p ==> u.next == old(u.next))
      ensures ListOk() == true
      ensures forall u :: u in openList <==> u == uv || u in old(openList)
    {
      forall u | u in old(openList) ensures u in old(ups) {}
      ChainedMore(p, uv, k);
      LevelledMore(uv, k);
      Inserted(old(openList), openList, uv, k);
    }

    /** Chains a new upvalue in its place in the open list, after `p`. */
    method Chain(p: UpVal?, pp: UpVal?, uv: UpVal, ghost k: nat)
      requires ListOk() == true && uv !in ups && uv.open && uv.level < stack.Length
      requires k <= |openList| && pp == At(openList, k)
      requires p == Back(openList, k)
      requires Fits(levels, k, uv.level) == true
      modifies `openupval, `openList, `levels, `ups, uv`next, ups`next
      ensures ListOk() == true && ups == old(ups) + {uv}
      ensures forall u :: u in openList <==> u == uv || u in old(openList)
    {
      uv.next := pp;
      if p == null { openupval := uv; } else { p.next := uv; }
      openList := openList[..k] + [uv] + openList[k..];
      levels := levels[..k] + [uv.level] + levels[k..];
      ups := ups + {uv};
      ListMore(p, uv, k);
    }

    /** Links an upvalue in the ring, right after the anchor. */
    method LinkRing(uv: UpVal)
      requires RingOk() && uv in ups && uv !in ring
      modifies `ring, uvhead`ringNext, uvhead`ringPrev, ups`ringNext, ups`ringPrev
      ensures RingOk()
      ensures forall u :: u in ring <==> u == uv || u in old(ring)
    {
      assert ring[0].ringNext == After(ring, 0);
      uv.ringPrev := uvhead;
      uv.ringNext := uvhead.ringNext;
      uv.ringNext.ringPrev := uv;
      uvhead.ringNext := uv;
      ring := [uvhead, uv] + ring[1..];
      assert old(ring) == [uvhead] + old(ring)[1..];
    }

    /** `unlinkupval`: takes an upvalue out of the ring. */
    method Unlink(uv: UpVal)
      requires RingOk() && uv in ups && uv in ring
      modifies `ring, uvhead`ringNext, uvhead`ringPrev, ups`ringNext, ups`ringPrev
      ensures RingOk()
      ensures forall u :: u in ring <==> u != uv && u in old(ring)
    {
      ghost var o := ring;
      ghost var k :| 0 < k < |ring| && ring[k] == uv;
      assert ring[k].ringNext == After(ring, k) && ring[k].ringPrev == Before(ring, k);
      uv.ringNext.ringPrev := uv.ringPrev;
      uv.ringPrev.ringNext := uv.ringNext;
      ring := o[..k] + o[k + 1..];
      Removed(o, ring, k);
      forall i {:trigger ring[i].ringNext} | 0 <= i < |ring| ensures ring[i].ringNext == After(ring, i) {
        assert if i < k then old(o[i].ringNext) == After(o, i) else old(o[i + 1].ringNext) == After(o, i + 1);
      }
      forall i {:trigger ring[i].ringPrev} | 0 <= i < |ring| ensures ring[i].ringPrev == Before(ring, i) {
        assert if i < k then old(o[i].ringPrev) == Before(o, i) else old(o[i + 1].ringPrev) == Before(o, i + 1);
      }
    }

    twostate lemma ListLess()
      requires old(ListOk()) == true && old(openList) != [] && ups == old(ups)
      requires openList == old(openList)[1..] && levels == old(levels)[1..] && openupval == old(openList[0].next)
      requires !old(openList)[0].open
      requires forall u :: u in ups ==> u.next == old(u.next) && u.level == old(u.level)
      requires forall u :: u in ups && u != old(openList)[0] ==> u.open == old(u.open)
      ensures ListOk() == true
      ensures forall u :: u in openList <==> u != old(openList)[0] && u in old(openList)
    {
      ghost var o, uv := old(openList), old(openList)[0];
      assert o == [uv] + o[1..];
      forall i | 0 <= i < |openList| ensures openList[i].open && openList[i].level == levels[i] && openList[i] != uv {
        assert openList[i] == o[i + 1] && levels[i] == old(levels)[i + 1] && old(o[i + 1].level) != old(o[0].level);
      }
      ChainedLess();
    }

    twostate lemma ChainedLess()
      requires old(Chained()) == true && old(openList) != []
      requires openList == old(openList)[1..] && openupval == old(openList[0].next)
      requires forall u :: u in openList ==> u.next == old(u.next)
      ensures Chained() == true
    {
      ghost var o := old(openList);
      assert old(o[0].next) == At(o, 1);
      forall i {:trigger openList[i].next} | 0 <= i < |openList| ensures openList[i].next == At(openList, i + 1) {
        assert openList[i] == o[i + 1] && old(o[i + 1].next) == At(o, i + 2);
      }
    }

    /** The value of the variable goes with the upvalue. */
    twostate lemma CellsLess(level: nat)
      requires old(CellsBelow(level)) == true && ups == old(ups) && old(openList) != [] && old(openList)[0] in ups
          && vars == old(vars) && cellOf == old(cellOf)
      requires old(openList[0].open) && level <= old(openList[0].level) < stack.Length
      requires !old(openList)[0].open && old(openList)[0].value == old(stack[openList[0].level])
          && stack[..] == old(stack[..])
      requires forall u :: u in ups && u != old(openList)[0] ==>
          u.open == old(u.open) && u.level == old(u.level) && u.value == old(u.value)
      ensures CellsBelow(level) == true
    {
      forall l | 0 <= l < stack.Length ensures stack[l] == vars.Local(l) {
        assert stack[..][l] == old(stack[..])[l];
      }
      assert cellOf[old(openList)[0]] == vars.env[old(openList[0].level)];
    }

    twostate lemma CloseLess(level: nat)
      requires old(ListOk()) == true && old(RingExact()) == true && old(CellsBelow(level)) == true
      requires ups == old(ups) && vars == old(vars) && cellOf == old(cellOf) && stack[..] == old(stack[..])
      requires old(openList) != [] && old(openList)[0] in ups
      requires openList == old(openList)[1..] && levels == old(levels)[1..] && openupval == old(openList[0].next)
      requires old(openList[0].open) && level <= old(openList[0].level) < stack.Length
      requires !old(openList)[0].open && old(openList)[0].value == old(stack[openList[0].level])
      requires forall u :: u in ups ==> u.next == old(u.next) && u.level == old(u.level)
      requires forall u :: u in ups && u != old(openList)[0] ==> u.open == old(u.open) && u.value == old(u.value)
      requires forall u :: u in ring <==> u != old(openList)[0] && u in old(ring)
      ensures ListOk() == true && RingExact() == true && CellsBelow(level) == true
    {
      ListLess();
      CellsLess(level);
    }

    ghost predicate Closing(level: nat)
      reads this, uvhead, ups, openList, stack
    {
      ListOk() && RingOk() && RingExact() && CellsBelow(level)
    }

    /** The first open upvalue is closed: it now holds the value itself. */
    method CloseFirst(ghost level: nat)
      requires Closing(level) == true && openupval != null && openupval.level >= level
      modifies `openupval, `openList, `levels, `ring, uvhead, ups
      ensures Closing(level) == true && |openList| < |old(openList)|
      ensures forall u :: u in ups ==> u.level == old(u.level) && (u.open ==> old(u.open))
      ensures forall u :: u in ups && u.level < level ==> u.open == old(u.open)
    {
      assert openupval == openList[0] && openupval in openList;
      Pop();
      CloseLess(level);
    }

    method Pop()
      requires RingOk() == true && uvhead !in ups && openList != [] && |levels| == |openList|
      requires openupval == openList[0] && openupval in ups && openupval in ring && openupval.level < stack.Length
      modifies `openupval, `openList, `levels, `ring, uvhead, ups
      ensures RingOk() == true
      ensures forall u :: u in ring <==> u != old(openList)[0] && u in old(ring)
      ensures openList == old(openList)[1..] && levels == old(levels)[1..] && openupval == old(openList[0].next)
      ensures !old(openList)[0].open && old(openList)[0].value == old(stack[openList[0].level])
      ensures forall u :: u in ups ==> u.next == old(u.next) && u.level == old(u.level)
      ensures forall u :: u in ups && u != old(openList)[0] ==> u.open == old(u.open) && u.value == old(u.value)
    {
      var uv := openupval;
      openupval := uv.next;
      Unlink(uv);
      uv.value := stack[uv.level];
      uv.open := false;
      openList, levels := openList[1..], levels[1..];
    }

    /** The slots from `level` on hold new variables when none of them is captured any more. */
    twostate lemma CellsLeave(level: nat)
      requires old(CellsBelow(level)) == true && vars == old(vars).Leave(level) && stack[..] == old(stack[..])
      requires ups == old(ups) && cellOf == old(cellOf)
      requires forall u :: u in ups ==> u.open == old(u.open) && u.level == old(u.level) && u.value == old(u.value)
      requires forall u :: u in ups && u.open ==> u.level < level
      ensures CellsOk() == true
    {
      forall l | 0 <= l < stack.Length ensures stack[l] == vars.Local(l) {
        assert stack[..][l] == old(stack[..])[l];
        assert vars.Local(l) == old(vars).Local(l);
      }
    }

    /** No open upvalue is left from `level` on: the slots can hold new variables. */
    ghost method LeaveVars(level: nat)
      requires Closing(level) == true && vars.Ok() && level <= |vars.env|
      requires openupval == null || openupval.level < level
      modifies `vars
      ensures Valid() == true && vars == old(vars).Leave(level)
      ensures forall u :: u in ups && u.open ==> u.level < level
    {
      forall u | u in ups && u.open ensures u.level < level {
        assert u in openList && openupval == openList[0] && openList[0].level == levels[0];
      }
      vars := vars.Leave(level);
      CellsLeave(level);
    }

    /**
      `luaF_close`: closes exactly the upvalues of the slots from `level` on.
      Every upvalue keeps its cell, and so its value.
     */
    method Close(level: nat)
      requires Valid() && level <= stack.Length
      modifies this, uvhead, ups
      ensures Valid() == true && vars == old(vars).Leave(level) && ups == old(ups) && cellOf == old(cellOf)
      ensures forall u :: u in ups ==> u.level == old(u.level) && (u.open <==> old(u.open) && u.level < level)
    {
      while openupval != null && openupval.level >= level
        invariant Closing(level) == true && vars == old(vars) && ups == old(ups) && cellOf == old(cellOf)
        invariant forall u :: u in ups ==> u.level == old(u.level) && (u.open ==> old(u.open))
        invariant forall u :: u in ups && u.level < level ==> u.open == old(u.open)
        decreases |openList|
      {
        CloseFirst(level);
      }
      LeaveVars(level);
    }

    /** `OP_GETUPVAL`: reads through the pointer. */
    method GetUpval(u: UpVal) returns (v: Value)
      requires Valid() && u in ups
      ensures v == vars.cells[cellOf[u]]
    {
      v := Get(u);
    }

    /** Writing a slot writes the cell of its variable. */
    method SetSlot(level: nat, v: Value)
      requires CellsOk() && level < stack.Length
      modifies `vars, stack
      ensures CellsOk() && vars == old(vars.SetCell(vars.env[level], v))
    {
      ghost var c := vars.env[level];
      stack[level] := v;
      vars := vars.SetCell(c, v);
    }

    /** Writing a closed upvalue writes its cell. */
    method SetClosed(u: UpVal, v: Value)
      requires CellsOk() && u in ups && !u.open
      modifies `vars, u`value
      ensures CellsOk() && vars == old(vars.SetCell(cellOf[u], v))
    {
      u.value := v;
      vars := vars.SetCell(cellOf[u], v);
    }

    /** Any instruction that writes a local variable. */
    method SetLocal(level: nat, v: Value)
      requires Valid() && level < stack.Length
      modifies `vars, stack
      ensures Valid() == true && vars == old(vars.SetCell(vars.env[level], v))
    {
      SetSlot(level, v);
      assert ListOk() == true && RingOk() == true;
    }

    /** `OP_SETUPVAL`: writes through the pointer. */
    method SetUpval(u: UpVal, v: Value)
      requires Valid() && u in ups
      modifies `vars, stack, u`value
      ensures Valid() == true && vars == old(vars.SetCell(cellOf[u], v))
    {
      if u.open { SetLocal(u.level, v); } else { SetClosed(u, v); }
    }
  }

  // ---------- Runs ----------

  /** What a program does with its variables; a capture is named by its number. */
  datatype Op =
    | Capture(level: nat)
    | ReadUpvalue(h: nat)
    | WriteUpvalue(h: nat, v: Value)
    | ReadLocal(level: nat)
    | WriteLocal(level: nat, v: Value)
    | LeaveBlock(level: nat)

  /** The reference machine, the cells captured so far and the values read so far. */
  datatype World = World(vars: Vars, captures: seq<nat>, out: seq<Value>) {
    predicate Ok() {
      vars.Ok() && forall h :: 0 <= h < |captures| ==> captures[h] < |vars.cells|
    }
  }

  predicate Can(op: Op, size: nat, captures: nat) {
    match op
    case Capture(l) => l < size
    case ReadUpvalue(h) => h < captures
    case WriteUpvalue(h, _) => h < captures
    case ReadLocal(l) => l < size
    case WriteLocal(l, _) => l < size
    case LeaveBlock(l) => l <= size
  }

  function Captures(ops: seq<Op>): nat {
    if ops == [] then 0 else Captures(ops[..|ops| - 1]) + if ops[|ops| - 1].Capture? then 1 else 0
  }

  /** Every operation is about a slot of the stack or a capture made before. */
  predicate Legal(ops: seq<Op>, size: nat) {
    forall i :: 0 <= i < |ops| ==> Can(ops[i], size, Captures(ops[..i]))
  }

  function Step(w: World, op: Op): (r: World)
    requires w.Ok() && Can(op, |w.vars.env|, |w.captures|)
    ensures r.Ok() && |r.vars.env| == |w.vars.env|
    ensures |r.captures| == |w.captures| + if op.Capture? then 1 else 0
  {
    match op
    case Capture(l) => w.(captures := w.captures + [w.vars.env[l]])
    case ReadUpvalue(h) => w.(out := w.out + [w.vars.cells[w.captures[h]]])
    case WriteUpvalue(h, v) => w.(vars := w.vars.SetCell(w.captures[h], v))
    case ReadLocal(l) => w.(out := w.out + [w.vars.Local(l)])
    case WriteLocal(l, v) => w.(vars := w.vars.SetCell(w.vars.env[l], v))
    case LeaveBlock(l) => w.(vars := w.vars.Leave(l))
  }

  function Steps(w: World, ops: seq<Op>): (r: World)
    requires w.Ok() && w.captures == [] && Legal(ops, |w.vars.env|)
    ensures r.Ok() && |r.vars.env| == |w.vars.env| && |r.captures| == Captures(ops)
  {
    if ops == [] then w else
      var n := |ops| - 1;
      LegalPrefix(ops, |w.vars.env|, n);
      Step(Steps(w, ops[..n]), ops[n])
  }

  /** The captures are the cells of the reference machine. */
  ghost predicate Mirrors(s: LuaState, ups: seq<UpVal>, w: World, out: seq<Value>)
    reads s
  {
    && w.vars == s.vars && w.out == out && |ups| == |w.captures|
    && forall h :: 0 <= h < |ups| ==> ups[h] in s.cellOf && s.cellOf[ups[h]] == w.captures[h]
  }

  /** One step on the stack and the upvalues is one step on the cells. */
  method Do(s: LuaState, op: Op, ups0: seq<UpVal>, out0: seq<Value>, ghost w: World)
    returns (ups: seq<UpVal>, out: seq<Value>)
    requires s.Valid() == true && w.Ok() && Mirrors(s, ups0, w, out0) && Can(op, s.stack.Length, |ups0|)
    modifies s, s.uvhead, s.ups, s.stack
    ensures s.Valid() == true && fresh(s.ups - old(s.ups))
    ensures Mirrors(s, ups, Step(w, op), out)
  {
    ups, out := ups0, out0;
    match op
    case Capture(l) => {
      var u := s.FindUpval(l);
      ups := ups + [u];
    }
    case ReadUpvalue(h) => {
      var v := s.GetUpval(ups[h]);
      out := out + [v];
    }
    case WriteUpvalue(h, v) => s.SetUpval(ups[h], v);
    case ReadLocal(l) => out := out + [s.stack[l]];
    case WriteLocal(l, v) => s.SetLocal(l, v);
    case LeaveBlock(l) => s.Close(l);
  }

  /**
    Any run: what is read through the stack and through upvalues, open or
    closed, is what one cell per variable gives; and two captures are the same
    upvalue exactly when they are of the same variable.
   */
  method Run(stack: array<Value>, ops: seq<Op>) returns (ups: seq<UpVal>, out: seq<Value>)
    requires Legal(ops, stack.Length)
    modifies stack
    ensures var w := Steps(World(Vars(old(stack[..]), seq(stack.Length, l => l)), [], []), ops);
      && out == w.out && |ups| == |w.captures|
      && forall h, i :: 0 <= h < |ups| && 0 <= i < |ups| ==> (ups[h] == ups[i] <==> w.captures[h] == w.captures[i])
  {
    var s := new LuaState(stack);
    ghost var w0 := World(Vars(stack[..], seq(stack.Length, l => l)), [], []);
    ups, out := [], [];
    var k := 0;
    while k < |ops|
      invariant k <= |ops| && s.Valid() == true && s.stack == stack && fresh(s) && fresh(s.uvhead) && fresh(s.ups)
      invariant Legal(ops[..k], stack.Length)
      invariant Mirrors(s, ups, Steps(w0, ops[..k]), out)
    {
      StepsNext(w0, ops, k);
      ups, out := Do(s, ops[k], ups, out, Steps(w0, ops[..k]));
      k := k + 1;
    }
    assert ops[..k] == ops;
  }

  lemma LegalPrefix(ops: seq<Op>, size: nat, k: nat)
    requires Legal(ops, size) && k <= |ops|
    ensures Legal(ops[..k], size) == true
  {
    forall i | 0 <= i < k ensures Can(ops[..k][i], size, Captures(ops[..k][..i])) {
      assert ops[..k][..i] == ops[..i] && Can(ops[i], size, Captures(ops[..i]));
    }
  }

  lemma StepsNext(w: World, ops: seq<Op>, k: nat)
    requires w.Ok() && w.captures == [] && Legal(ops, |w.vars.env|) == true && k < |ops|
    ensures Legal(ops[..k], |w.vars.env|) && Legal(ops[..k + 1], |w.vars.env|)
    ensures Can(ops[k], |w.vars.env|, Captures(ops[..k]))
    ensures Steps(w, ops[..k + 1]) == Step(Steps(w, ops[..k]), ops[k])
  {
    LegalPrefix(ops, |w.vars.env|, k);
    LegalPrefix(ops, |w.vars.env|, k + 1);
    assert ops[..k + 1][..k] == ops[..k];
  }
}
