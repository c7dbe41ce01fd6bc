/**
  References into a table (`luaL_ref` and `luaL_unref`): slots of their own,
  given back on a free list that runs through the slots themselves, from slot 0.
 */
module Refs {
  import opened Common
  import opened TableNodes
  import opened TableSizes
  import opened Table

  const FREELIST_REF: nat := 0
  const LUA_REFNIL: int := -1

  /** `lua_tointeger` of what a link holds. */
  function Number(v: Val): int {
    if v.V? then v.id else 0
  }

  /** The link to the `i`-th free slot; none behind the last. */
  function Link(free: seq<nat>, i: nat): Val {
    if i < |free| then V(free[i]) else Nil
  }

  function Held(m: map<Key, Val>, r: int): Val {
    ValueIn(m, IntKey(r))
  }

  /** Slots 1 to `n` are live or free, never both. */
  ghost predicate Parted(stored: map<int, Val>, free: seq<nat>, n: nat) {
    && (forall i :: 0 <= i < |free| ==> 1 <= free[i] <= n && free[i] !in stored)
    && (forall i, j :: 0 <= i < j < |free| ==> free[i] != free[j])
    && (forall r :: r in stored ==> 1 <= r <= n && stored[r] != Nil)
    && (forall r: nat :: 1 <= r <= n && r !in stored ==> r in free)
  }

  /** What the table holds: live values in their slots, links in the free ones. */
  ghost predicate Threaded(m: map<Key, Val>, stored: map<int, Val>, free: seq<nat>, n: nat) {
    && Held(m, FREELIST_REF) == Link(free, 0)
    && (forall i :: 0 <= i < |free| ==> Held(m, free[i]) == Link(free, i + 1))
    && (forall r :: r in stored ==> Held(m, r) == stored[r])
    && (forall r: nat :: r > n ==> Held(m, r) == Nil)
  }

  /** The slots of `m'` are those of `m` but for `k`, which holds `v`. */
  ghost predicate Differs(m: map<Key, Val>, m': map<Key, Val>, k: int, v: Val) {
    Held(m', k) == v && forall r: int :: r != k ==> Held(m', r) == Held(m, r)
  }

  lemma StoredDiffers(m: map<Key, Val>, k: int, v: Val)
    ensures Differs(m, Stored(m, IntKey(k), v), k, v) == true
  {
    var m' := Stored(m, IntKey(k), v);
    forall r: int | r != k ensures Held(m', r) == Held(m, r) { assert IntKey(r) != IntKey(k); }
  }

  /** With no slot free, the only boundary is behind the last live slot. */
  lemma BoundaryIs(m: map<Key, Val>, stored: map<int, Val>, n: nat, j: nat)
    requires Parted(stored, [], n) && Threaded(m, stored, [], n)
    requires (j == 0 || Held(m, j) != Nil) && Held(m, j + 1) == Nil
    ensures j == n
  {
    assert j < n ==> (j + 1) in stored;
  }

  /** A new slot behind the last. */
  lemma NewSlotOk(m: map<Key, Val>, m': map<Key, Val>, stored: map<int, Val>, n: nat, v: Val)
    requires Parted(stored, [], n) && Threaded(m, stored, [], n) && v != Nil && Differs(m, m', n + 1, v)
    ensures n + 1 !in stored && Parted(stored[n + 1 := v], [], n + 1) && Threaded(m', stored[n + 1 := v], [], n + 1)
  {
  }

  /** The first free slot, taken off the list. */
  lemma TakeSlotOk(m: map<Key, Val>, m1: map<Key, Val>, m': map<Key, Val>, stored: map<int, Val>, free: seq<nat>,
      n: nat, v: Val)
    requires Parted(stored, free, n) && Threaded(m, stored, free, n) && free != [] && v != Nil
    requires Differs(m, m1, FREELIST_REF, Held(m, free[0])) && Differs(m1, m', free[0], v)
    ensures Parted(stored[free[0] := v], free[1..], n) && Threaded(m', stored[free[0] := v], free[1..], n)
  {
    var r := free[0];
    TakeParted(stored, free, n, v);
    assert Held(m', FREELIST_REF) == Link(free[1..], 0);
    forall i | 0 <= i < |free[1..]| ensures Held(m', free[1..][i]) == Link(free[1..], i + 1) {
      assert free[1..][i] == free[i + 1] != r && Held(m, free[i + 1]) == Link(free, i + 2);
    }
    forall k: nat | k > n ensures Held(m', k) == Nil { assert Held(m, k) == Nil; }
  }

  lemma TakeParted(stored: map<int, Val>, free: seq<nat>, n: nat, v: Val)
    requires Parted(stored, free, n) && free != [] && v != Nil
    ensures Parted(stored[free[0] := v], free[1..], n)
  {
    assert free == [free[0]] + free[1..];
    forall i | 0 <= i < |free[1..]| ensures 1 <= free[1..][i] <= n && free[1..][i] !in stored[free[0] := v] {
      assert free[1..][i] == free[i + 1];
    }
  }

  /** A live slot, put in front of the list. */
  lemma GiveSlotOk(m: map<Key, Val>, m1: map<Key, Val>, m': map<Key, Val>, stored: map<int, Val>, free: seq<nat>,
      n: nat, r: nat)
    requires Parted(stored, free, n) && Threaded(m, stored, free, n) && r in stored
    requires Differs(m, m1, r, Held(m, FREELIST_REF)) && Differs(m1, m', FREELIST_REF, V(r))
    ensures Parted(stored - {r}, [r] + free, n) && Threaded(m', stored - {r}, [r] + free, n)
  {
    var f := [r] + free;
    GiveParted(stored, free, n, r);
    assert Held(m', FREELIST_REF) == Link(f, 0);
    forall i | 0 <= i < |f| ensures Held(m', f[i]) == Link(f, i + 1) {
      if i > 0 { assert f[i] == free[i - 1] != r && Held(m, free[i - 1]) == Link(free, i); }
    }
    forall k: nat | k > n ensures Held(m', k) == Nil { assert Held(m, k) == Nil; }
  }

  lemma GiveParted(stored: map<int, Val>, free: seq<nat>, n: nat, r: nat)
    requires Parted(stored, free, n) && r in stored
    ensures Parted(stored - {r}, [r] + free, n)
  {
    var f := [r] + free;
    forall i | 0 <= i < |f| ensures 1 <= f[i] <= n && f[i] !in stored - {r} {
      if i > 0 { assert f[i] == free[i - 1]; }
    }
  }

  class RefTable {
    const t: Table
    /** The values behind the live references. */
    ghost var stored: map<int, Val>
    ghost var free: seq<nat>
    ghost var n: nat

    ghost predicate Valid()
      reads this, t
    {
      t.Valid() && Parted(stored, free, n) && Threaded(t.contents, stored, free, n)
    }

    /** On a table without non-negative integer keys. */
    constructor (t: Table)
      requires t.Valid() && forall r: nat :: IntKey(r) !in t.contents
      ensures Valid() && this.t == t && stored == map[]
    {
      this.t := t;
      stored, free, n := map[], [], 0;
    }

    /** A slot from the free list, if there is one. */
    method Take(v: Val, ref: int)
      requires Valid() && v != Nil && free != [] && ref == free[0]
      modifies this, t
      ensures Valid() == true && stored == old(stored)[ref := v] && free == old(free)[1..] && n == old(n)
      ensures t.contents == Stored(Stored(old(t.contents), IntKey(FREELIST_REF), old(Held(t.contents, ref))),
          IntKey(ref), v)
    {
      ghost var m := t.contents;
      var s, next := t.Get(IntKey(ref));
      t.Put(IntKey(FREELIST_REF), next);
      ghost var m1 := t.contents;
      t.Put(IntKey(ref), v);
      StoredDiffers(m, FREELIST_REF, next);
      StoredDiffers(m1, ref, v);
      TakeSlotOk(m, m1, t.contents, stored, free, n, v);
      stored, free := stored[ref := v], free[1..];
    }

    /** A new slot, when none is free. */
    method Append(v: Val) returns (ref: int)
      requires Valid() && v != Nil && free == []
      modifies this, t
      ensures Valid() == true && ref > 0 && ref !in old(stored) && stored == old(stored)[ref := v]
      ensures ref == n == old(n) + 1 && free == []
      ensures t.contents == Stored(old(t.contents), IntKey(ref), v)
    {
      var len := t.GetN();
      BoundaryIs(t.contents, stored, n, len);
      ref := len + 1;
      StoredDiffers(t.contents, ref, v);
      NewSlotOk(t.contents, Stored(t.contents, IntKey(ref), v), stored, n, v);
      t.Put(IntKey(ref), v);
      stored, n := stored[ref := v], n + 1;
    }

    /** `luaL_ref`: the slot given back last, or the one behind all others when
        none is free; nil has a reference of its own. */
    method Ref(v: Val) returns (ref: int)
      requires Valid()
      modifies this, t
      ensures Valid() == true
      ensures v == Nil ==> ref == LUA_REFNIL == -1 && stored == old(stored) && t.contents == old(t.contents)
      ensures v != Nil ==> ref > 0 && ref !in old(stored) && stored == old(stored)[ref := v]
      ensures v != Nil && old(free) != [] ==> ref == old(free)[0] && free == old(free)[1..] && n == old(n)
      ensures v != Nil && old(free) == [] ==> ref == n == old(n) + 1 && free == []
      ensures forall id :: ValueIn(t.contents, OtherKey(id)) == ValueIn(old(t.contents), OtherKey(id))
    {
      if v == Nil { return LUA_REFNIL; }
      var s, first := t.Get(IntKey(FREELIST_REF));
      ref := Number(first);
      if ref != 0 {
        Take(v, ref);
      } else {
        ref := Append(v);
      }
    }

    /** A live slot goes to the front of the free list. */
    method Give(ref: int)
      requires Valid() && ref in stored
      modifies this, t
      ensures Valid() == true && stored == old(stored) - {ref} && free == [ref] + old(free) && n == old(n)
      ensures t.contents == Stored(Stored(old(t.contents), IntKey(ref), old(Held(t.contents, FREELIST_REF))),
          IntKey(FREELIST_REF), V(ref))
    {
      ghost var m := t.contents;
      var s, first := t.Get(IntKey(FREELIST_REF));
      t.Put(IntKey(ref), first);
      ghost var m1 := t.contents;
      t.Put(IntKey(FREELIST_REF), V(ref));
      StoredDiffers(m, ref, first);
      StoredDiffers(m1, FREELIST_REF, V(ref));
      GiveSlotOk(m, m1, t.contents, stored, free, n, ref);
      stored, free := stored - {ref}, [ref] + free;
    }

    /** `luaL_unref`: gives a live reference back; negative ones are no slots. */
    method Unref(ref: int)
      requires Valid() && (ref < 0 || ref in stored)
      modifies this, t
      ensures Valid() == true && stored == old(stored) - {ref} && n == old(n)
      ensures free == if ref in old(stored) then [ref] + old(free) else old(free)
      ensures forall id :: ValueIn(t.contents, OtherKey(id)) == ValueIn(old(t.contents), OtherKey(id))
    {
      if ref >= 0 { Give(ref); }
    }

    /** What is behind a live reference is what was stored there. */
    method Get(ref: int) returns (v: Val)
      requires Valid() && ref in stored
      ensures v == stored[ref]
    {
      var s;
      s, v := t.Get(IntKey(ref));
      assert Held(t.contents, ref) == stored[ref];
    }

    lemma StoredPositive()
      requires Valid()
      ensures LUA_REFNIL !in stored
    {
    }

    /** The table holds the values of the live references. */
    lemma StoredThere()
      requires Valid()
      ensures forall r :: r in stored ==> ValueIn(t.contents, IntKey(r)) == stored[r]
    {
      forall r | r in stored ensures ValueIn(t.contents, IntKey(r)) == stored[r] {
        assert Held(t.contents, r) == stored[r];
      }
    }
  }

  // ---------------------------------------------------------------- whole runs

  /** Take a reference to a value, read through the `k`-th one taken, give it back. */
  datatype Op = Take(v: Val) | Read(k: nat) | Give(k: nat)

  /** What the references taken stand for, none when given back; and what was read. */
  datatype World = World(held: seq<Option<Val>>, out: seq<Val>)

  predicate Live(w: World, k: nat) {
    k < |w.held| && w.held[k].Some?
  }

  /** Only live references are used, and nil has none to read through. */
  predicate Can(w: World, op: Op) {
    match op
    case Take(_) => true
    case Read(k) => Live(w, k) && w.held[k] != Some(Nil)
    case Give(k) => Live(w, k)
  }

  function Step(w: World, op: Op): World
    requires Can(w, op)
  {
    match op
    case Take(v) => w.(held := w.held + [Some(v)])
    case Read(k) => w.(out := w.out + [w.held[k].value])
    case Give(k) => w.(held := w.held[k := None])
  }

  predicate Legal(w: World, ops: seq<Op>)
    decreases |ops|
  {
    ops == [] || (Can(w, ops[0]) && Legal(Step(w, ops[0]), ops[1..]))
  }

  function Steps(w: World, ops: seq<Op>): World
    requires Legal(w, ops)
    decreases |ops|
  {
    if ops == [] then w else Steps(Step(w, ops[0]), ops[1..])
  }

  /** The references stand for what they should, each live one for itself. */
  ghost predicate Mirrors(stored: map<int, Val>, refs: seq<int>, held: seq<Option<Val>>) {
    && |refs| == |held|
    && (forall k :: 0 <= k < |refs| && held[k] == Some(Nil) ==> refs[k] == LUA_REFNIL)
    && (forall k :: 0 <= k < |refs| && held[k].Some? && held[k].value != Nil ==>
        refs[k] in stored && stored[refs[k]] == held[k].value)
    && (forall j, k :: 0 <= j < k < |refs| && Occupied(held, j) && Occupied(held, k) ==> refs[j] != refs[k])
  }

  /** A live reference that has a slot. */
  predicate Occupied(held: seq<Option<Val>>, k: nat) {
    k < |held| && held[k].Some? && held[k].value != Nil
  }

  lemma MirrorsTake(stored: map<int, Val>, refs: seq<int>, held: seq<Option<Val>>, v: Val, ref: int)
    requires Mirrors(stored, refs, held) && (if v == Nil then ref == LUA_REFNIL else ref !in stored)
    ensures Mirrors(if v == Nil then stored else stored[ref := v], refs + [ref], held + [Some(v)]) == true
  {
  }

  lemma MirrorsGive(stored: map<int, Val>, refs: seq<int>, held: seq<Option<Val>>, k: nat)
    requires Mirrors(stored, refs, held) && k < |held| && held[k].Some?
    requires LUA_REFNIL !in stored
    ensures refs[k] < 0 || refs[k] in stored ==> Mirrors(stored - {refs[k]}, refs, held[k := None]) == true
  {
  }

  /** One operation on the table is one on the references as such. */
  method Do(t: RefTable, op: Op, refs0: seq<int>, out0: seq<Val>, ghost w: World)
    returns (refs: seq<int>, out: seq<Val>)
    requires t.Valid() == true && Mirrors(t.stored, refs0, w.held) == true && out0 == w.out && Can(w, op)
    modifies t, t.t
    ensures t.Valid() == true && Mirrors(t.stored, refs, Step(w, op).held) == true && out == Step(w, op).out
  {
    refs, out := refs0, out0;
    t.StoredPositive();
    match op {
      case Take(v) =>
        ghost var stored := t.stored;
        var ref := t.Ref(v);
        MirrorsTake(stored, refs, w.held, v, ref);
        refs := refs + [ref];
      case Read(k) =>
        var v := t.Get(refs[k]);
        out := out + [v];
      case Give(k) =>
        MirrorsGive(t.stored, refs, w.held, k);
        t.Unref(refs[k]);
    }
  }

  /** Any sequence of references taken, read through and given back: each read
      gives the value the reference was taken for, and no two live references
      are the same. */
  method Run(t: Table, ops: seq<Op>) returns (refs: seq<int>, out: seq<Val>)
    requires t.Valid() && (forall r: nat :: IntKey(r) !in t.contents) && Legal(World([], []), ops)
    modifies t
    ensures var w := Steps(World([], []), ops);
      && out == w.out && |refs| == |w.held|
      && (forall j, k :: 0 <= j < k < |refs| && Occupied(w.held, j) && Occupied(w.held, k) ==> refs[j] != refs[k])
      && forall k :: 0 <= k < |refs| && Occupied(w.held, k) ==> ValueIn(t.contents, IntKey(refs[k])) == w.held[k].value
  {
    var rt := new RefTable(t);
    refs, out := [], [];
    ghost var w := World([], []);
    var i := 0;
    while i < |ops|
      invariant i <= |ops| && rt.t == t && fresh(rt) && rt.Valid() == true
      invariant Mirrors(rt.stored, refs, w.held) == true && out == w.out
      invariant Legal(w, ops[i..]) && Steps(w, ops[i..]) == Steps(World([], []), ops)
    {
      refs, out := Do(rt, ops[i], refs, out, w);
      assert ops[i..][1..] == ops[i + 1..];
      w := Step(w, ops[i]);
      i := i + 1;
    }
    rt.StoredThere();
  }
}
