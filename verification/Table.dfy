/**
  Tables: an array part and a hash part changed in place, against a plain map.
 */
module Table {
  import opened Common
  import opened TableNodes
  import opened TableSizes

  /** Where a value is stored: `luaO_nilobject` is NoSlot. */
  datatype Slot = InArray(i: nat) | InHash(i: nat) | NoSlot

  /** Any value used as a key; NaN is a number that equals nothing. */
  datatype AnyKey = NilKey | NaNKey | KeyOf(key: Key)

  datatype Checked = Slotted(s: Slot) | IndexIsNil | IndexIsNaN

  predicate ArrayKey(n: nat, k: Key) {
    k.IntKey? && 1 <= k.i <= n
  }

  /** The value of a key, wherever it is. */
  function Lookup(arr: seq<Val>, nodes: seq<Node>, k: Key): Val {
    if ArrayKey(|arr|, k) then arr[k.i - 1]
    else
      var i := IndexOf(nodes, k);
      if i == NONE then Nil else nodes[i].val
  }

  function ValueIn(m: map<Key, Val>, k: Key): Val {
    if k in m then m[k] else Nil
  }

  ghost predicate Agrees(arr: seq<Val>, nodes: seq<Node>, m: map<Key, Val>) {
    && (forall k :: Lookup(arr, nodes, k) == ValueIn(m, k))
    && (forall k :: k in m ==> m[k] != Nil)
  }

  /** What storing a value does to a plain map. */
  function Stored(m: map<Key, Val>, k: Key, v: Val): map<Key, Val> {
    if v == Nil then m - {k} else m[k := v]
  }

  /** Keys of the array part have no node. */
  ghost predicate Divided(n: nat, nodes: seq<Node>) {
    forall i :: Keyed(nodes, i) ==> !ArrayKey(n, nodes[i].key.value)
  }

  /** No stale keys but `k`. */
  ghost predicate AllLiveBut(nodes: seq<Node>, k: Key) {
    forall i :: Keyed(nodes, i) && nodes[i].val == Nil ==> nodes[i].key == Some(k)
  }

  ghost predicate AllLive(nodes: seq<Node>) {
    forall i :: Keyed(nodes, i) ==> nodes[i].val != Nil
  }

  /** Nothing has changed but the value in a slot. */
  ghost predicate OnlySlot(arr: seq<Val>, nodes: seq<Node>, s: Slot, v: Val, arr': seq<Val>, nodes': seq<Node>) {
    match s
    case InArray(i) => i < |arr| && arr' == arr[i := v] && nodes' == nodes
    case InHash(i) => i < |nodes| && arr' == arr && nodes' == nodes[i := nodes[i].(val := v)]
    case NoSlot => false
  }

  lemma IndexIs(nodes: seq<Node>, k: Key, i: int)
    requires DistinctKeys(nodes) && Has(nodes, i, k)
    ensures IndexOf(nodes, k) == i
  {
    assert Keyed(nodes, i) && Keyed(nodes, IndexOf(nodes, k));
  }

  /** A value is found through any node that has the key. */
  lemma LookupIs(arr: seq<Val>, nodes: seq<Node>, k: Key, i: int)
    requires DistinctKeys(nodes) && Has(nodes, i, k) && !ArrayKey(|arr|, k)
    ensures Lookup(arr, nodes, k) == nodes[i].val
  {
    IndexIs(nodes, k, i);
  }

  /** The value of a key does not depend on where its node is. */
  lemma LookupMoved(arr: seq<Val>, nodes: seq<Node>, nodes': seq<Node>, k: Key)
    requires DistinctKeys(nodes) && DistinctKeys(nodes')
    requires forall i :: Has(nodes, i, k) && nodes[i].val != Nil ==>
        exists j :: Has(nodes', j, k) && nodes'[j].val == nodes[i].val
    requires forall j :: Has(nodes', j, k) && nodes'[j].val != Nil ==>
        exists i :: Has(nodes, i, k) && nodes[i].val == nodes'[j].val
    ensures Lookup(arr, nodes, k) == Lookup(arr, nodes', k)
  {
    if !ArrayKey(|arr|, k) {
      var i, j := IndexOf(nodes, k), IndexOf(nodes', k);
      if i != NONE && nodes[i].val != Nil {
        var j' :| Has(nodes', j', k) && nodes'[j'].val == nodes[i].val;
        LookupIs(arr, nodes', k, j');
      } else if j != NONE && nodes'[j].val != Nil {
        var i' :| Has(nodes, i', k) && nodes[i'].val == nodes'[j].val;
        LookupIs(arr, nodes, k, i');
      }
    }
  }

  /** The binding at an index: of the array part, or behind it of a node. */
  function EntryIn(arr: seq<Val>, nodes: seq<Node>, i: nat): Option<(Key, Val)> {
    if i < |arr| then if arr[i] == Nil then None else Some((IntKey(i + 1), arr[i]))
    else if i - |arr| < |nodes| && nodes[i - |arr|].val != Nil && nodes[i - |arr|].key.Some? then
      Some((nodes[i - |arr|].key.value, nodes[i - |arr|].val))
    else None
  }

  /** Clearing a slot takes away its binding and no other. */
  lemma ClearedEntry(arr: seq<Val>, nodes: seq<Node>, s: Slot, arr': seq<Val>, nodes': seq<Node>, j: nat)
    requires OnlySlot(arr, nodes, s, Nil, arr', nodes')
    ensures EntryIn(arr', nodes', j)
      == if j == (if s.InArray? then s.i else |arr| + s.i) then None else EntryIn(arr, nodes, j)
  {
  }

  class Table {
    const hash: Hash
    var arr: seq<Val>
    var node: seq<Node>
    var lastfree: int
    ghost var chain: seq<seq<int>>
    ghost var contents: map<Key, Val>

    ghost predicate Valid()
      reads this
    {
      && HashOk(hash, node, chain) && FreeOk(node, lastfree) && |arr| <= MAXASIZE
      && Divided(|arr|, node) && Agrees(arr, node, contents)
    }

    /** `luaH_new` */
    constructor (hash: Hash, narray: nat, nhash: nat)
      requires narray <= MAXASIZE
      ensures Valid() && contents == map[] && |arr| == narray && |node| == HashSize(nhash)
    {
      this.hash := hash;
      arr := seq(narray, _ => Nil);
      node, chain, lastfree := [], [], 0;
      contents := map[];
      new;
      SetNodeVector(nhash);
      forall k ensures Lookup(arr, node, k) == Nil { assert !Keyed(node, IndexOf(node, k)); }
    }

    // -------------------------------------------------------------- looking up

    /** The node of a key, by the links from its main position. */
    method FindNode(k: Key) returns (i: int)
      requires HashOk(hash, node, chain)
      ensures i == IndexOf(node, k)
    {
      if |node| == 0 { return NONE; }
      ghost var at := IndexOf(node, k);
      i := MainPos(hash, k, |node|);
      if at != NONE { Found(hash, node, chain, at); }
      while i != NONE
        invariant i == NONE || 0 <= i < |node|
        invariant at != NONE ==> i != NONE && at in chain[i]
        decreases if i == NONE then 0 else |chain[i]|
      {
        assert LinkAt(node, chain, i);
        if node[i].key == Some(k) {
          IndexIs(node, k, i);
          return;
        }
        i := node[i].next;
      }
    }

    /** `luaH_get` */
    method Get(k: Key) returns (s: Slot, v: Val)
      requires Valid()
      ensures v == ValueIn(contents, k)
      ensures s == SlotOf(k)
    {
      if k.IntKey? && 1 <= k.i <= |arr| {
        return InArray(k.i - 1), arr[k.i - 1];
      }
      var i := FindNode(k);
      if i == NONE { return NoSlot, Nil; }
      return InHash(i), node[i].val;
    }

    ghost function SlotOf(k: Key): Slot
      reads this
    {
      if ArrayKey(|arr|, k) then InArray(k.i - 1)
      else
        var i := IndexOf(node, k);
        if i == NONE then NoSlot else InHash(i)
    }

    /** Stores through the pointer that `luaH_set` returned. */
    method Store(k: Key, s: Slot, v: Val)
      requires Valid() && s != NoSlot && s == SlotOf(k)
      modifies this
      ensures Valid() && contents == Stored(old(contents), k, v)
      ensures |arr| == old(|arr|) && |node| == old(|node|) && OnlySlot(old(arr), old(node), s, v, arr, node) == true
      ensures v != Nil && AllLiveBut(old(node), k) ==> AllLive(node)
    {
      if s.InArray? {
        arr := arr[s.i := v];
        StoreArray(old(arr), node, s.i, v, k);
      } else {
        StoreNode(hash, arr, old(node), chain, s.i, v, k);
        node := SetVal(node, s.i, v);
      }
      contents := Stored(contents, k, v);
      AgreesStored(old(arr), old(node), arr, node, old(contents), k, v);
    }

    // -------------------------------------------------------------- new keys

    /** `getfreepos`: the free pointer only moves down. */
    method GetFreePos() returns (n: int)
      requires FreeOk(node, lastfree)
      modifies `lastfree
      ensures lastfree < old(lastfree)
      ensures n == NONE ==> !Room(node) && FreeOk(node, lastfree)
      ensures n != NONE ==> 0 <= n < |node| && !Keyed(node, n) && lastfree == n && FreeOk(node, n + 1)
    {
      while lastfree > 0
        invariant FreeOk(node, lastfree)
        decreases lastfree
      {
        lastfree := lastfree - 1;
        if node[lastfree].key.None? { return lastfree; }
      }
      lastfree := lastfree - 1;
      n := NONE;
    }

    /** The node that links to `mp`, found from the main position of its key. */
    method Previous(mp: int) returns (p: int)
      requires HashOk(hash, node, chain) && Keyed(node, mp) && !Settled(hash, node, mp)
      ensures 0 <= p < |node| && node[p].next == mp
    {
      p := MainPos(hash, node[mp].key.value, |node|);
      Found(hash, node, chain, mp);
      while node[p].next != mp
        invariant 0 <= p < |node| && p != mp && mp in chain[p]
        decreases |chain[p]|
      {
        assert LinkAt(node, chain, p);
        p := node[p].next;
        assert LinkAt(node, chain, p);
      }
    }

    /** The main position is free. */
    method TakeNode(k: Key, mp: nat)
      requires Valid() && !ArrayKey(|arr|, k) && IndexOf(node, k) == NONE
      requires |node| > 0 && mp == MainPos(hash, k, |node|) && node[mp].val == Nil
      modifies `node
      ensures Valid() && SlotOf(k) == InHash(mp) && |node| == old(|node|)
      ensures old(AllLive(node)) ==> AllLiveBut(node, k)
    {
      TakeMainOk(hash, node, chain, k);
      TakeMainLookups(arr, node, mp, k);
      SameLookups(arr, node, TakeMain(node, mp, k), contents);
      TakeRest(|arr|, node, lastfree, mp, k);
      node := TakeMain(node, mp, k);
      Placing(k, mp);
    }

    /** The colliding node is out of its main position, and moves to `n`. */
    method MoveNode(k: Key, mp: nat, n: nat)
      requires Placeable(k, mp, n) && !Settled(hash, node, mp)
      modifies `node, `chain
      ensures Valid() && SlotOf(k) == InHash(mp) && |node| == old(|node|)
      ensures old(AllLive(node)) ==> AllLiveBut(node, k)
    {
      var prev := Previous(mp);
      MoveOk(hash, node, chain, mp, prev, n, k);
      NoLoop(node, chain, prev);
      assert Empty(node, n);
      MoveLookups(arr, node, mp, prev, n, k);
      SameLookups(arr, node, MoveOut(node, mp, prev, n, k), contents);
      MovedRest(|arr|, node, mp, prev, n, k);
      chain := MoveChain(node, chain, mp, n);
      node := MoveOut(node, mp, prev, n, k);
      Placing(k, mp);
    }

    /** The colliding node is in its own main position; the new key goes to `n`. */
    method AppendNode(k: Key, mp: nat, n: nat)
      requires Placeable(k, mp, n) && Settled(hash, node, mp)
      modifies `node, `chain
      ensures Valid() && SlotOf(k) == InHash(n) && |node| == old(|node|)
      ensures old(AllLive(node)) ==> AllLiveBut(node, k)
    {
      AppendOk(hash, node, chain, mp, n, k);
      assert Empty(node, n);
      AppendLookups(arr, node, mp, n, k);
      SameLookups(arr, node, Append(node, mp, n, k), contents);
      AppendedRest(|arr|, node, mp, n, k);
      chain := AppendChain(node, chain, mp, n);
      node := Append(node, mp, n, k);
      Placing(k, n);
    }

    /** All is in order but for the free node `n`, which will be used. */
    ghost predicate Placeable(k: Key, mp: nat, n: nat)
      reads this
    {
      && HashOk(hash, node, chain) && |arr| <= MAXASIZE && Divided(|arr|, node) && Agrees(arr, node, contents)
      && !ArrayKey(|arr|, k) && IndexOf(node, k) == NONE
      && n < |node| && !Keyed(node, n) && lastfree == n && FreeOk(node, n + 1)
      && mp < |node| && mp == MainPos(hash, k, |node|) && Keyed(node, mp)
    }

    /** `newkey`: a node for a key that has none; its value is nil. */
    method NewKey(k: Key) returns (s: Slot)
      requires Valid() && !ArrayKey(|arr|, k) && IndexOf(node, k) == NONE
      modifies this
      ensures Valid() && contents == old(contents) && s == SlotOf(k) && s != NoSlot
      ensures old(Room(node)) ==> |arr| == old(|arr|) && |node| == old(|node|)
      ensures old(AllLive(node)) ==> AllLiveBut(node, k)
      decreases if Room(node) then 0 else 1, 1
    {
      if |node| > 0 && node[MainPos(hash, k, |node|)].val == Nil {
        s := InHash(MainPos(hash, k, |node|));
        TakeNode(k, s.i);
        return;
      }
      var n := GetFreePos();
      if n == NONE {
        Rehash(k);
        s := Set(k);
        return;
      }
      var mp := MainPos(hash, k, |node|);
      assert Empty(node, mp);
      if MainPos(hash, node[mp].key.value, |node|) != mp {
        MoveNode(k, mp, n);
        s := InHash(mp);
      } else {
        AppendNode(k, mp, n);
        s := InHash(n);
      }
    }

    lemma Placing(k: Key, i: nat)
      requires HashOk(hash, node, chain) && Has(node, i, k) && !ArrayKey(|arr|, k)
      ensures SlotOf(k) == InHash(i)
    {
      IndexIs(node, k, i);
    }

    /** A key can be given a slot without growing the table. */
    ghost predicate Ready(k: Key)
      reads this
    {
      ArrayKey(|arr|, k) || Room(node)
    }

    /** `luaH_set`: the slot of a key, made if there is none. */
    method Set(k: Key) returns (s: Slot)
      requires Valid()
      modifies this
      ensures Valid() && contents == old(contents) && s == SlotOf(k) && s != NoSlot
      ensures old(Ready(k)) ==> |arr| == old(|arr|) && |node| == old(|node|)
      ensures old(AllLive(node)) ==> AllLiveBut(node, k)
      ensures old(SlotOf(k)) != NoSlot ==> s == old(SlotOf(k)) && arr == old(arr) && node == old(node)
      decreases if Ready(k) then 0 else 1, 2
    {
      var v;
      s, v := Get(k);
      if s == NoSlot { s := NewKey(k); }
    }

    /** `luaH_set` on any value: nil and NaN are no keys, and change nothing. */
    method SetAny(k: AnyKey) returns (r: Checked)
      requires Valid()
      modifies this
      ensures Valid() && contents == old(contents)
      ensures k.NilKey? ==> r == IndexIsNil && node == old(node) && arr == old(arr)
      ensures k.NaNKey? ==> r == IndexIsNaN && node == old(node) && arr == old(arr)
      ensures k.KeyOf? ==> r == Slotted(SlotOf(k.key)) && r.s != NoSlot
    {
      match k {
        case NilKey => r := IndexIsNil;
        case NaNKey => r := IndexIsNaN;
        case KeyOf(key) =>
          var s := Set(key);
          r := Slotted(s);
      }
    }

    /** Assigns a value to a key. Where the key has a slot, nothing else moves. */
    method Put(k: Key, v: Val)
      requires Valid()
      modifies this
      ensures Valid() && contents == Stored(old(contents), k, v)
      ensures old(Ready(k)) ==> |arr| == old(|arr|) && |node| == old(|node|)
      ensures old(AllLive(node)) && v != Nil ==> AllLive(node)
      ensures old(SlotOf(k)) != NoSlot ==> OnlySlot(old(arr), old(node), old(SlotOf(k)), v, arr, node) == true
      decreases if Ready(k) then 0 else 1, 3
    {
      var s := Set(k);
      Store(k, s, v);
    }

    // -------------------------------------------------------------- rehash

    /** `setnodevector`: a new hash part, all of it free. */
    method SetNodeVector(size: nat)
      modifies this
      ensures arr == old(arr) && contents == old(contents)
      ensures |node| == HashSize(size) && HashOk(hash, node, chain) && FreeOk(node, lastfree)
          && forall i :: !Keyed(node, i)
    {
      var n := if size == 0 then 0 else Pow2(CeilLog2(size));
      node := seq(n, _ => Node(None, Nil, NONE));
      chain := seq(n, i => [i]);
      lastfree := n;
      FreshOk(hash, node, chain);
    }

    /** New parts, with what stays in the array part. */
    method Restart(nasize: nat, nhsize: nat)
      requires Valid() && nasize <= MAXASIZE
      modifies this
      ensures Moving(old(contents), IntsUpTo(old(contents).Keys, Min(nasize, old(|arr|))), nasize, nhsize)
    {
      ghost var m := contents;
      var oldsize, oldarr := |arr|, arr;
      ghost var nold := node;
      if nasize > oldsize { arr := arr + seq(nasize - oldsize, _ => Nil); }
      SetNodeVector(nhsize);
      if nasize < oldsize { arr := arr[..nasize]; }
      contents := Restrict(m, IntsUpTo(m.Keys, Min(nasize, oldsize)));
      ArrayOnly(oldarr, nold, m, arr, node, nasize);
    }

    /** Re-inserts what was in the vanishing slice of the array part. */
    method MoveSlice(oldarr: seq<Val>, ghost nold: seq<Node>, ghost m: map<Key, Val>, nasize: nat, nhsize: nat)
      requires Moving(m, IntsUpTo(m.Keys, Min(nasize, |oldarr|)), nasize, nhsize)
      requires Agrees(oldarr, nold, m) && |Rest(m.Keys, nasize)| <= nhsize
      modifies this
      ensures Moving(m, IntsUpTo(m.Keys, |oldarr|), nasize, nhsize)
      decreases 0, 4, 1
    {
      var i := Min(nasize, |oldarr|);
      while i < |oldarr|
        invariant i <= |oldarr| && Moving(m, IntsUpTo(m.Keys, i), nasize, nhsize)
      {
        SliceStep(oldarr, nold, m, i);
        if oldarr[i] != Nil {
          OneMore(oldarr, nold, m, i);
          MovePut(m, IntsUpTo(m.Keys, i), nasize, nhsize, IntKey(i + 1), oldarr[i]);
        }
        i := i + 1;
      }
    }

    /** Re-inserts what was in the old hash part. */
    method MoveNodes(ghost oldarr: seq<Val>, nold: seq<Node>, ghost m: map<Key, Val>, nasize: nat, nhsize: nat)
      requires Moving(m, IntsUpTo(m.Keys, |oldarr|), nasize, nhsize)
      requires Agrees(oldarr, nold, m) && Divided(|oldarr|, nold) && DistinctKeys(nold) && forall i :: Empty(nold, i)
      requires |Rest(m.Keys, nasize)| <= nhsize
      modifies this
      ensures Moving(m, m.Keys, nasize, nhsize)
      decreases 0, 4, 1
    {
      var j := |nold|;
      ghost var D := IntsUpTo(m.Keys, |oldarr|);
      assert D + LiveFrom(nold, j) == D;
      while j > 0
        invariant 0 <= j <= |nold| && Moving(m, D + LiveFrom(nold, j), nasize, nhsize)
      {
        j := j - 1;
        assert Empty(nold, j);
        NodeStep(oldarr, nold, m, j);
        if nold[j].val != Nil {
          MovePut(m, D + LiveFrom(nold, j + 1), nasize, nhsize, nold[j].key.value, nold[j].val);
        }
      }
      AllMoved(oldarr, nold, m);
    }

    /** `resize`: every binding moves to the new parts, and room is always found. */
    method Resize(nasize: nat, nhsize: nat)
      requires Valid() && nasize <= MAXASIZE && |Rest(contents.Keys, nasize)| <= nhsize
      modifies this
      ensures Valid() && contents == old(contents) && |arr| == nasize && |node| == HashSize(nhsize) && AllLive(node)
      decreases 0, 5
    {
      ghost var m := contents;
      var oldarr, nold := arr, node;
      Restart(nasize, nhsize);
      MoveSlice(oldarr, nold, m, nasize, nhsize);
      MoveNodes(oldarr, nold, m, nasize, nhsize);
      assert Restrict(m, m.Keys) == m;
    }

    /** The bindings of `D` have moved. */
    ghost predicate Moving(m: map<Key, Val>, D: set<Key>, nasize: nat, nhsize: nat)
      reads this
    {
      && Valid() && contents == Restrict(m, D) && D <= m.Keys && AllLive(node)
      && |arr| == nasize && |node| == HashSize(nhsize)
    }

    /** Moves one binding. */
    /** `luaH_resizearray`, which is only called to make the array part larger
        (`OP_SETLIST`): the hash part is big enough as it is. */
    method ResizeArray(nasize: nat)
      requires Valid() && |arr| <= nasize <= MAXASIZE
      modifies this
      ensures Valid() && contents == old(contents) && |arr| == nasize && |node| == HashSize(old(|node|))
    {
      RestFits(arr, node, contents, nasize);
      Resize(nasize, |node|);
    }

    method MovePut(ghost m: map<Key, Val>, ghost D: set<Key>, nasize: nat, nhsize: nat, k: Key, v: Val)
      requires Moving(m, D, nasize, nhsize) && k in m && k !in D && m[k] == v && v != Nil
      requires |Rest(m.Keys, nasize)| <= nhsize
      modifies this
      ensures Moving(m, D + {k}, nasize, nhsize)
      decreases 0, 4, 0
    {
      RoomToMove(m, D, k, arr, node, contents, nhsize);
      Put(k, v);
      assert Stored(Restrict(m, D), k, v) == Restrict(m, D + {k});
    }

    /** Counts all keys in use and the new one, by slices. */
    method CountKeys(k: Key, nums: array<nat>) returns (nasize: nat, totaluse: nat)
      requires Valid() && k !in contents && nums.Length == MAXBITS + 1
          && forall i :: 0 <= i <= MAXBITS ==> nums[i] == 0
      modifies nums
      ensures Counted(nums, contents.Keys + {k}) && nasize == CountInts(contents.Keys + {k}, 0, MAXASIZE)
      ensures totaluse == |contents.Keys + {k}|
    {
      KeysAre(arr, node, contents);
      nasize := NumUseArray(arr, nums);
      totaluse := nasize;
      TotalUse(arr, contents.Keys, LiveFrom(node, 0));
      var hashuse, ause := NumUseHash(node, nums, ArrayKeys(arr));
      var c := CountInt(k, nums, contents.Keys);
      nasize := nasize + ause + c;
      totaluse := totaluse + hashuse + 1;
    }

    /** `rehash`: the array part gets the optimal size for the keys in use and the
        new one, and the new key has room. */
    method Rehash(k: Key)
      requires Valid() && !Room(node) && !ArrayKey(|arr|, k) && IndexOf(node, k) == NONE
      modifies this
      ensures Valid() && contents == old(contents) && AllLive(node) && Ready(k)
      ensures Optimal(old(contents).Keys + {k}, |arr|)
      decreases 1, 0
    {
      var nums := new nat[MAXBITS + 1](_ => 0);
      NewKeyAbsent(arr, node, contents, k);
      ghost var K := contents.Keys + {k};
      var nasize, totaluse := CountKeys(k, nums);
      var n, na := ComputeSizes(nums, nasize, K);
      RestCard(K, n);
      Subset(Rest(contents.Keys, n), Rest(K, n));
      Resize(n, totaluse - na);
      RoomForNew(arr, node, contents, k, totaluse - na);
    }

    // -------------------------------------------------------------- boundaries

    predicate Present(j: nat)
      reads this
    {
      Lookup(arr, node, IntKey(j)) != Nil
    }

    /** `t[j]` is present, or `j` is 0, and `t[j + 1]` is nil. */
    ghost predicate Boundary(j: nat)
      reads this
    {
      (j == 0 || IntKey(j) in contents) && IntKey(j + 1) !in contents
    }

    method GetNum(j: nat) returns (v: Val)
      requires Valid()
      ensures v == ValueIn(contents, IntKey(j)) && (v != Nil <==> IntKey(j) in contents)
    {
      var s;
      s, v := Get(IntKey(j));
    }

    /** The linear search for tables with very large keys. */
    method LinearSearch() returns (i: nat)
      requires Valid()
      ensures Boundary(i)
    {
      i := 1;
      var v := GetNum(i);
      while v != Nil
        invariant i >= 1 && v == ValueIn(contents, IntKey(i)) && (v != Nil <==> IntKey(i) in contents)
        invariant CountInts(contents.Keys, 0, i - 1) == i - 1
        decreases |contents| + 1 - i
      {
        IntsCard(contents.Keys, i);
        Subset(IntsUpTo(contents.Keys, i), contents.Keys);
        i := i + 1;
        v := GetNum(i);
      }
      if i > 1 { assert CountInts(contents.Keys, 0, i - 2) <= i - 2; }
      i := i - 1;
    }

    /** `unbound_search` */
    method UnboundSearch(start: nat) returns (i: nat)
      requires Valid() && (start == 0 || IntKey(start) in contents)
      ensures Boundary(i)
    {
      i := start;
      var j := start + 1;
      var v := GetNum(j);
      while v != Nil
        invariant j >= 1 && (i == 0 || IntKey(i) in contents) && (v != Nil <==> IntKey(j) in contents) && i < j
        decreases if v == Nil then 0 else 2 * MAX_INT + start + 2 - j
      {
        i := j;
        j := j * 2;
        if j > MAX_INT {
          i := LinearSearch();
          return;
        }
        v := GetNum(j);
      }
      i := Bisect(i, j);
    }

    /** Binary search between a present index and an absent one. */
    method Bisect(low: nat, high: nat) returns (i: nat)
      requires Valid() && low < high && (low == 0 || IntKey(low) in contents) && IntKey(high) !in contents
      ensures Boundary(i) && low <= i < high
    {
      i := low;
      var j := high;
      while j - i > 1
        invariant low <= i < j <= high && (i == 0 || IntKey(i) in contents) && IntKey(j) !in contents
      {
        var m := (i + j) / 2;
        var v := GetNum(m);
        if v == Nil { j := m; } else { i := m; }
      }
    }

    /** `luaH_getn` finds a boundary. */
    method GetN() returns (n: nat)
      requires Valid()
      ensures Boundary(n)
    {
      var j := |arr|;
      if j > 0 { assert Lookup(arr, node, IntKey(j)) == ValueIn(contents, IntKey(j)); }
      if j > 0 && arr[j - 1] == Nil {
        n := Bisect(0, j);
      } else if |node| == 0 {
        assert Lookup(arr, node, IntKey(j + 1)) == ValueIn(contents, IntKey(j + 1));
        n := j;
      } else {
        n := UnboundSearch(j);
      }
    }

    // -------------------------------------------------------------- traversal

    /** The binding at an index of the traversal: first the array part, then the nodes. */
    function EntryAt(i: nat): Option<(Key, Val)>
      reads this
    {
      EntryIn(arr, node, i)
    }

    /** Where a key is in the traversal, with a value or without; -1 before the start. */
    ghost function Position(k: Option<Key>): Option<int>
      reads this
    {
      if k.None? then Some(-1) else match SlotOf(k.value)
        case InArray(i) => Some(i)
        case InHash(i) => Some(|arr| + i)
        case NoSlot => None
    }

    /** `findindex`; None for a key that is not in the table. */
    method FindIndex(k: Option<Key>) returns (r: Option<int>)
      requires Valid()
      ensures r == Position(k)
      ensures r.Some? ==> -1 <= r.value < |arr| + |node|
    {
      if k.None? { return Some(-1); }
      if k.value.IntKey? && 1 <= k.value.i <= |arr| { return Some(k.value.i - 1); }
      var i := FindNode(k.value);
      r := if i == NONE then None else Some(|arr| + i);
    }

    /** Every binding is found where it is. */
    lemma EntryIs(i: nat)
      requires Valid() && EntryAt(i).Some?
      ensures var (k, v) := EntryAt(i).value;
        k in contents && contents[k] == v && Position(Some(k)) == Some(i as int)
    {
      var (k, v) := EntryAt(i).value;
      if i < |arr| {
        assert Lookup(arr, node, k) == ValueIn(contents, k);
      } else {
        NodeKeys(arr, node, contents, i - |arr|);
        IndexIs(node, k, i - |arr|);
      }
    }

    /** `luaH_next`: the next binding, None at the end; an unknown key is an error. */
    method Next(k: Option<Key>) returns (known: bool, r: Option<(Key, Val)>)
      requires Valid()
      ensures known <==> Position(k).Some?
      ensures known ==> Position(k).value >= -1 && NextAfter(Position(k).value, r)
    {
      var f := FindIndex(k);
      if f.None? { return false, None; }
      known := true;
      var at, i := f.value, f.value + 1;
      while i < |arr| + |node|
        invariant at < i <= |arr| + |node| && forall j: nat :: at < j < i ==> EntryAt(j).None?
      {
        if i < |arr| {
          if arr[i] != Nil {
            r := Some((IntKey(i + 1), arr[i]));
            assert FirstAfter(at, i, r);
            return;
          }
        } else if node[i - |arr|].val != Nil {
          assert Empty(node, i - |arr|);
          r := Some((node[i - |arr|].key.value, node[i - |arr|].val));
          assert FirstAfter(at, i, r);
          return;
        }
        i := i + 1;
      }
      r := None;
    }

    /** The first binding behind an index. */
    ghost predicate NextAfter(at: int, r: Option<(Key, Val)>)
      reads this
    {
      if r.Some? then exists i: nat :: FirstAfter(at, i, r)
      else forall j: nat :: j > at ==> EntryAt(j).None?
    }

    ghost predicate FirstAfter(at: int, i: nat, r: Option<(Key, Val)>)
      reads this
    {
      i > at && EntryAt(i) == r && forall j: nat :: at < j < i ==> EntryAt(j).None?
    }

    /** The bindings up to an index have been met, and nothing else. */
    ghost predicate Met(met: map<Key, Val>, at: int)
      reads this
    {
      && (forall i: nat :: i <= at && EntryAt(i).Some? ==>
          EntryAt(i).value.0 in met && met[EntryAt(i).value.0] == EntryAt(i).value.1)
      && (forall k :: k in met ==> MetAt(k, met[k], at))
    }

    ghost predicate MetAt(k: Key, v: Val, at: int)
      reads this
    {
      exists i: nat :: i <= at && EntryAt(i) == Some((k, v))
    }

    /** The binding behind one that was met. */
    method NextBinding(k: Key, v: Val, ghost i: nat) returns (r: Option<(Key, Val)>)
      requires Valid() == true && EntryAt(i) == Some((k, v))
      ensures NextAfter(i, r) == true
    {
      EntryIs(i);
      var known;
      known, r := Next(Some(k));
    }

    /** Traversing with `luaH_next` meets every binding exactly once. */
    method Traverse() returns (met: map<Key, Val>, count: nat)
      requires Valid()
      ensures met == contents && count == |contents|
    {
      met, count := map[], 0;
      var known, r := Next(None);
      ghost var at: int := -1;
      while r.Some?
        invariant at >= -1 && NextAfter(at, r) == true && Met(met, at) == true && count == |met|
        decreases |arr| + |node| - at
      {
        var (k, v) := r.value;
        ghost var i: nat := Behind(at, r);
        MetStep(met, at, i, k, v);
        met, count := met[k := v], count + 1;
        r := NextBinding(k, v, i);
        at := i;
      }
      AllMet(met, at);
    }

    ghost function Behind(at: int, r: Option<(Key, Val)>): (i: nat)
      requires r.Some? && NextAfter(at, r)
      reads this
      ensures FirstAfter(at, i, r) == true && EntryAt(i) == r && i > at && i < |arr| + |node|
    {
      var i: nat :| FirstAfter(at, i, r);
      i
    }

    /** Everything up to an index has been cleared. */
    ghost predicate ClearTo(at: int)
      reads this
    {
      forall j: nat :: j <= at ==> EntryAt(j).None?
    }

    /** Clears a binding that a traversal has met, and goes on from its key. */
    method ClearNext(k: Key, v: Val, ghost at: int, ghost i: nat) returns (r: Option<(Key, Val)>)
      requires Valid() == true && FirstAfter(at, i, Some((k, v))) && ClearTo(at)
      modifies this
      ensures Valid() == true && ClearTo(i) == true && NextAfter(i, r) == true
      ensures k in old(contents) && contents == old(contents) - {k}
      ensures |arr| == old(|arr|) && |node| == old(|node|)
    {
      EntryIs(i);
      ghost var arr0, node0, s := arr, node, SlotOf(k);
      forall j: nat | j < i ensures EntryIn(arr0, node0, j).None? {
        assert EntryAt(j) == EntryIn(arr0, node0, j) && (j <= at || j > at);
      }
      Put(k, Nil);
      forall j: nat | j <= i ensures EntryAt(j).None? {
        ClearedEntry(arr0, node0, s, arr, node, j);
      }
      SlotKept(arr0, node0, s, k);
      var known;
      known, r := Next(Some(k));
    }

    /** A traversal may clear what it meets: it still meets every binding once. */
    method ClearAll() returns (count: nat)
      requires Valid()
      modifies this
      ensures Valid() && contents == map[] && count == |old(contents)|
    {
      count := 0;
      var known, r := Next(None);
      ghost var at: int := -1;
      while r.Some?
        invariant Valid() == true && at >= -1 && NextAfter(at, r) == true && ClearTo(at) == true
        invariant count + |contents| == |old(contents)|
        invariant |arr| == old(|arr|) && |node| == old(|node|)
        decreases |arr| + |node| - at
      {
        var (k, v) := r.value;
        ghost var i: nat := Behind(at, r);
        r := ClearNext(k, v, at, i);
        count := count + 1;
        at := i;
      }
      NoneLeft(at);
    }

    /** The key that was cleared keeps its place. */
    lemma SlotKept(arr0: seq<Val>, node0: seq<Node>, s: Slot, k: Key)
      requires Valid() && OnlySlot(arr0, node0, s, Nil, arr, node)
      requires if ArrayKey(|arr0|, k) then s == InArray(k.i - 1) else s.InHash? && s.i == IndexOf(node0, k)
      ensures SlotOf(k) == s
    {
      if s.InHash? { IndexIs(node, k, s.i); }
    }

    lemma NoneLeft(at: int)
      requires Valid() && ClearTo(at) && forall j: nat :: j > at ==> EntryAt(j).None?
      ensures contents == map[]
    {
      forall j: nat ensures EntryAt(j).None? { assert j <= at || j > at; }
      forall k ensures k !in contents {
        if k in contents { HasEntry(k); }
      }
    }

    lemma HasEntry(k: Key)
      requires Valid() && k in contents
      ensures exists i: nat :: EntryAt(i) == Some((k, contents[k]))
    {
      assert Lookup(arr, node, k) == ValueIn(contents, k);
      var i: int := if ArrayKey(|arr|, k) then k.i - 1 else |arr| + IndexOf(node, k);
      assert k.IntKey? ==> k == IntKey(k.i);
      assert EntryAt(i) == Some((k, contents[k]));
    }

    lemma MetStep(met: map<Key, Val>, at: int, i: nat, k: Key, v: Val)
      requires Valid() && at >= -1 && Met(met, at) && FirstAfter(at, i, Some((k, v)))
      ensures k !in met && Met(met[k := v], i)
    {
      FreshKey(met, at, i, k);
      var met' := met[k := v];
      forall x | x in met' ensures MetAt(x, met'[x], i) {
        if x == k { assert EntryAt(i) == Some((x, met'[x])); } else { assert MetAt(x, met[x], at); }
      }
      forall j: nat | j <= i && EntryAt(j).Some?
          ensures EntryAt(j).value.0 in met' && met'[EntryAt(j).value.0] == EntryAt(j).value.1 {
        assert j <= at || j == i;
      }
    }

    lemma FreshKey(met: map<Key, Val>, at: int, i: nat, k: Key)
      requires Valid() && i > at && EntryAt(i).Some? && EntryAt(i).value.0 == k && Met(met, at)
      ensures k !in met
    {
      EntryIs(i);
      if k in met {
        assert MetAt(k, met[k], at);
        var j: nat :| j <= at && EntryAt(j) == Some((k, met[k]));
        EntryIs(j);
      }
    }

    lemma AllMet(met: map<Key, Val>, at: int)
      requires Valid() && (forall j: nat :: j > at ==> EntryAt(j).None?) && Met(met, at)
      ensures met == contents
    {
      forall k | k in met ensures k in contents && contents[k] == met[k] {
        assert MetAt(k, met[k], at);
        var i: nat :| i <= at && EntryAt(i) == Some((k, met[k]));
        EntryIs(i);
      }
      forall k | k in contents ensures k in met {
        HasEntry(k);
        var i: nat :| EntryAt(i) == Some((k, contents[k]));
      }
    }
  }

  // ---------------------------------------------------------------- lookups across insertions

  lemma TakeMainLookups(arr: seq<Val>, nodes: seq<Node>, mp: int, k: Key)
    requires 0 <= mp < |nodes| && nodes[mp].val == Nil && DistinctKeys(nodes) && DistinctKeys(TakeMain(nodes, mp, k))
    ensures forall x :: Lookup(arr, TakeMain(nodes, mp, k), x) == Lookup(arr, nodes, x)
  {
    var nodes' := TakeMain(nodes, mp, k);
    forall x ensures Lookup(arr, nodes', x) == Lookup(arr, nodes, x) {
      forall i | Has(nodes, i, x) && nodes[i].val != Nil ensures Has(nodes', i, x) && nodes'[i].val == nodes[i].val {}
      forall i | Has(nodes', i, x) && nodes'[i].val != Nil
          ensures Has(nodes, i, x) && nodes[i].val == nodes'[i].val {}
      LookupMoved(arr, nodes, nodes', x);
    }
  }

  lemma AppendLookups(arr: seq<Val>, nodes: seq<Node>, mp: int, n: int, k: Key)
    requires 0 <= mp < |nodes| && 0 <= n < |nodes| && n != mp && Empty(nodes, n) && !Keyed(nodes, n)
    requires DistinctKeys(nodes) && DistinctKeys(Append(nodes, mp, n, k))
    ensures forall x :: Lookup(arr, Append(nodes, mp, n, k), x) == Lookup(arr, nodes, x)
  {
    var nodes' := Append(nodes, mp, n, k);
    forall x ensures Lookup(arr, nodes', x) == Lookup(arr, nodes, x) {
      forall i | Has(nodes, i, x) && nodes[i].val != Nil ensures Has(nodes', i, x) && nodes'[i].val == nodes[i].val {}
      forall i | Has(nodes', i, x) && nodes'[i].val != Nil
          ensures Has(nodes, i, x) && nodes[i].val == nodes'[i].val {}
      LookupMoved(arr, nodes, nodes', x);
    }
  }

  lemma MoveLookups(arr: seq<Val>, nodes: seq<Node>, mp: int, prev: int, n: int, k: Key)
    requires 0 <= mp < |nodes| && 0 <= n < |nodes| && 0 <= prev < |nodes| && n != mp && prev != mp && prev != n
    requires Empty(nodes, n) && !Keyed(nodes, n)
    requires DistinctKeys(nodes) && DistinctKeys(MoveOut(nodes, mp, prev, n, k))
    ensures forall x :: Lookup(arr, MoveOut(nodes, mp, prev, n, k), x) == Lookup(arr, nodes, x)
  {
    var nodes' := MoveOut(nodes, mp, prev, n, k);
    forall x ensures Lookup(arr, nodes', x) == Lookup(arr, nodes, x) {
      forall i | Has(nodes, i, x) && nodes[i].val != Nil
        ensures var j := if i == mp then n else i; Has(nodes', j, x) && nodes'[j].val == nodes[i].val {}
      forall i | Has(nodes', i, x) && nodes'[i].val != Nil
        ensures var j := if i == n then mp else i; Has(nodes, j, x) && nodes[j].val == nodes'[i].val {}
      LookupMoved(arr, nodes, nodes', x);
    }
  }

  /** What else an insertion keeps. */
  ghost predicate Kept(size: nat, nodes: seq<Node>, nodes': seq<Node>, lastfree: int, k: Key) {
    && |nodes'| == |nodes| && Divided(size, nodes') && FreeOk(nodes', lastfree)
    && (AllLive(nodes) ==> AllLiveBut(nodes', k))
  }

  lemma TakeRest(size: nat, nodes: seq<Node>, lastfree: int, mp: int, k: Key)
    requires 0 <= mp < |nodes| && Divided(size, nodes) && FreeOk(nodes, lastfree) && !ArrayKey(size, k)
    ensures Kept(size, nodes, TakeMain(nodes, mp, k), lastfree, k)
  {
    var nodes' := TakeMain(nodes, mp, k);
    forall i | Keyed(nodes', i) ensures nodes'[i].key == Some(k) || Keyed(nodes, i) {}
    forall i | Keyed(nodes, i) ensures Keyed(nodes', i) {}
  }

  lemma AppendedRest(size: nat, nodes: seq<Node>, mp: int, n: int, k: Key)
    requires 0 <= mp < |nodes| && 0 <= n < |nodes| && n != mp && Divided(size, nodes) && FreeOk(nodes, n + 1)
        && !ArrayKey(size, k)
    ensures Kept(size, nodes, Append(nodes, mp, n, k), n, k)
  {
    var nodes' := Append(nodes, mp, n, k);
    forall i | Keyed(nodes', i) ensures nodes'[i].key == Some(k) || Keyed(nodes, i) {}
    forall i | Keyed(nodes, i) ensures Keyed(nodes', i) {}
  }

  lemma MovedRest(size: nat, nodes: seq<Node>, mp: int, prev: int, n: int, k: Key)
    requires 0 <= mp < |nodes| && 0 <= n < |nodes| && 0 <= prev < |nodes| && Keyed(nodes, mp)
    requires Divided(size, nodes) && FreeOk(nodes, n + 1) && !ArrayKey(size, k)
    ensures Kept(size, nodes, MoveOut(nodes, mp, prev, n, k), n, k)
  {
    var nodes' := MoveOut(nodes, mp, prev, n, k);
    forall i | Keyed(nodes', i) ensures nodes'[i].key == Some(k) || i == n || Keyed(nodes, i) {}
    forall i | Keyed(nodes, i) ensures Keyed(nodes', i) {}
  }

  lemma SameLookups(arr: seq<Val>, nodes: seq<Node>, nodes': seq<Node>, m: map<Key, Val>)
    requires Agrees(arr, nodes, m) && forall x :: Lookup(arr, nodes', x) == Lookup(arr, nodes, x)
    ensures Agrees(arr, nodes', m)
  {
    forall x ensures Lookup(arr, nodes', x) == ValueIn(m, x) { assert Lookup(arr, nodes, x) == ValueIn(m, x); }
  }

  // ---------------------------------------------------------------- room

  function HashSize(n: nat): (r: nat)
    ensures r >= n
  {
    if n == 0 then 0 else Pow2(CeilLog2(n))
  }

  lemma FreshOk(hash: Hash, nodes: seq<Node>, chain: seq<seq<int>>)
    requires |chain| == |nodes|
        && forall i :: 0 <= i < |nodes| ==> nodes[i] == Node(None, Nil, NONE) && chain[i] == [i]
    ensures HashOk(hash, nodes, chain)
  {
    forall i | 0 <= i < |nodes| ensures LinkAt(nodes, chain, i) { assert [i] + [] == [i]; }
  }

  function KeysOf(nodes: seq<Node>, n: nat): set<Key>
    requires n <= |nodes|
  {
    set i | 0 <= i < n && Keyed(nodes, i) :: nodes[i].key.value
  }

  lemma {:induction false} FullCard(nodes: seq<Node>, n: nat)
    requires n <= |nodes| && DistinctKeys(nodes) && forall i :: 0 <= i < n ==> Keyed(nodes, i)
    ensures |KeysOf(nodes, n)| == n
  {
    if n == 0 {
      assert KeysOf(nodes, 0) == {};
    } else {
      FullCard(nodes, n - 1);
      assert Keyed(nodes, n - 1);
      var k := nodes[n - 1].key.value;
      assert forall i :: 0 <= i < n - 1 && Keyed(nodes, i) ==> nodes[i].key.value != k;
      assert KeysOf(nodes, n) == KeysOf(nodes, n - 1) + {k};
    }
  }

  /** Fewer keys than nodes leave a node free. */
  lemma RoomIf(nodes: seq<Node>, D: set<Key>)
    requires DistinctKeys(nodes) && |D| < |nodes| && forall i :: Keyed(nodes, i) ==> nodes[i].key.value in D
    ensures Room(nodes)
  {
    if !Room(nodes) {
      assert forall i :: 0 <= i < |nodes| ==> Keyed(nodes, i);
      FullCard(nodes, |nodes|);
      assert KeysOf(nodes, |nodes|) <= D;
      Subset(KeysOf(nodes, |nodes|), D);
    }
  }

  lemma {:induction false} Subset(A: set<Key>, B: set<Key>)
    requires A <= B
    ensures |A| <= |B|
  {
    assert B == A + (B - A);
  }

  /** A live node's key is in the map, outside the array part. */
  lemma NodeKeys(arr: seq<Val>, nodes: seq<Node>, m: map<Key, Val>, i: int)
    requires Agrees(arr, nodes, m) && Divided(|arr|, nodes) && DistinctKeys(nodes) && Live(nodes, i)
    ensures nodes[i].key.value in m && m[nodes[i].key.value] == nodes[i].val && !ArrayKey(|arr|, nodes[i].key.value)
  {
    IndexIs(nodes, nodes[i].key.value, i);
    assert Lookup(arr, nodes, nodes[i].key.value) == ValueIn(m, nodes[i].key.value);
  }

  /** Room for one more of the keys that go to the hash part. */
  lemma RoomToMove(m: map<Key, Val>, D: set<Key>, k: Key, arr: seq<Val>, nodes: seq<Node>, now: map<Key, Val>,
      nhsize: nat)
    requires now.Keys <= m.Keys && k in m && k !in now && |Rest(m.Keys, |arr|)| <= nhsize
        && |nodes| == HashSize(nhsize)
    requires Agrees(arr, nodes, now) && Divided(|arr|, nodes) && DistinctKeys(nodes) && AllLive(nodes)
    ensures ArrayKey(|arr|, k) || Room(nodes)
  {
    if !ArrayKey(|arr|, k) {
      var D := Rest(m.Keys, |arr|) - {k};
      assert k in Rest(m.Keys, |arr|);
      forall i | Keyed(nodes, i) ensures nodes[i].key.value in D { NodeKeys(arr, nodes, now, i); }
      RoomIf(nodes, D);
    }
  }

  // ---------------------------------------------------------------- moving bindings

  function Restrict(m: map<Key, Val>, S: set<Key>): map<Key, Val> {
    map k | k in m && k in S :: m[k]
  }

  /** An empty hash part and an array part with the first values agree with the
      bindings of those. */
  lemma ArrayOnly(arr: seq<Val>, nodes: seq<Node>, m: map<Key, Val>, arr': seq<Val>, nodes': seq<Node>, n: nat)
    requires Agrees(arr, nodes, m) && |arr'| == n && forall i :: !Keyed(nodes', i)
    requires forall i :: 0 <= i < n ==> arr'[i] == if i < |arr| then arr[i] else Nil
    ensures Agrees(arr', nodes', Restrict(m, IntsUpTo(m.Keys, Min(n, |arr|))))
  {
    var m' := Restrict(m, IntsUpTo(m.Keys, Min(n, |arr|)));
    forall x ensures Lookup(arr', nodes', x) == ValueIn(m', x) {
      assert Lookup(arr, nodes, x) == ValueIn(m, x);
      assert !Keyed(nodes', IndexOf(nodes', x));
    }
  }

  /** The next slot of the old array part. */
  lemma OneMore(arr: seq<Val>, nodes: seq<Node>, m: map<Key, Val>, i: nat)
    requires Agrees(arr, nodes, m) && i < |arr| && arr[i] != Nil
    ensures IntKey(i + 1) in m && m[IntKey(i + 1)] == arr[i] && IntKey(i + 1) !in IntsUpTo(m.Keys, i)
  {
    assert Lookup(arr, nodes, IntKey(i + 1)) == ValueIn(m, IntKey(i + 1));
  }

  lemma SliceStep(arr: seq<Val>, nodes: seq<Node>, m: map<Key, Val>, i: nat)
    requires Agrees(arr, nodes, m) && i < |arr|
    ensures IntsUpTo(m.Keys, i + 1) == IntsUpTo(m.Keys, i) + if arr[i] != Nil then {IntKey(i + 1)} else {}
  {
    assert Lookup(arr, nodes, IntKey(i + 1)) == ValueIn(m, IntKey(i + 1));
  }

  /** The next node of the old hash part. */
  lemma NodeStep(arr: seq<Val>, nodes: seq<Node>, m: map<Key, Val>, j: nat)
    requires Agrees(arr, nodes, m) && Divided(|arr|, nodes) && DistinctKeys(nodes) && j < |nodes| && Empty(nodes, j)
    ensures nodes[j].val == Nil ==> LiveFrom(nodes, j) == LiveFrom(nodes, j + 1)
    ensures nodes[j].val != Nil ==> Keyed(nodes, j) && var k := nodes[j].key.value; var D := IntsUpTo(m.Keys, |arr|);
      && k in m && m[k] == nodes[j].val && k !in D + LiveFrom(nodes, j + 1)
      && D + LiveFrom(nodes, j) == D + LiveFrom(nodes, j + 1) + {k}
  {
    LiveStep(nodes, j);
    if nodes[j].val != Nil { NodeKeys(arr, nodes, m, j); }
  }

  /** All bindings are in one of the two parts. */
  lemma KeysAre(arr: seq<Val>, nodes: seq<Node>, m: map<Key, Val>)
    requires Agrees(arr, nodes, m) && Divided(|arr|, nodes) && DistinctKeys(nodes)
    ensures ArrayKeys(arr) + LiveFrom(nodes, 0) == m.Keys && ArrayKeys(arr) !! LiveFrom(nodes, 0)
  {
    forall k | k in LiveFrom(nodes, 0) ensures k in m && !ArrayKey(|arr|, k) {
      var j :| 0 <= j && Live(nodes, j) && nodes[j].key == Some(k);
      NodeKeys(arr, nodes, m, j);
    }
    forall k | k in ArrayKeys(arr) ensures k in m && ArrayKey(|arr|, k) {
      assert Lookup(arr, nodes, k) == ValueIn(m, k);
    }
    forall k | k in m ensures k in ArrayKeys(arr) || k in LiveFrom(nodes, 0) {
      assert Lookup(arr, nodes, k) == ValueIn(m, k);
      if ArrayKey(|arr|, k) { assert k == IntKey(k.i); } else { assert Live(nodes, IndexOf(nodes, k)); }
    }
  }

  lemma AllMoved(arr: seq<Val>, nodes: seq<Node>, m: map<Key, Val>)
    requires Agrees(arr, nodes, m) && Divided(|arr|, nodes) && DistinctKeys(nodes)
    ensures IntsUpTo(m.Keys, |arr|) + LiveFrom(nodes, 0) == m.Keys
  {
    KeysAre(arr, nodes, m);
    forall k | k in ArrayKeys(arr) ensures k in IntsUpTo(m.Keys, |arr|) {}
  }

  lemma {:induction false} LiveCard(nodes: seq<Node>, i: nat)
    requires i <= |nodes|
    ensures |LiveFrom(nodes, i)| <= |nodes| - i
    decreases |nodes| - i
  {
    if i < |nodes| {
      LiveCard(nodes, i + 1);
      if Live(nodes, i) {
        var k := nodes[i].key.value;
        assert LiveFrom(nodes, i) == LiveFrom(nodes, i + 1) + {k};
      } else {
        assert LiveFrom(nodes, i) == LiveFrom(nodes, i + 1);
      }
    } else {
      assert LiveFrom(nodes, i) == {};
    }
  }

  /** Every key beyond a larger array part has its node already. */
  lemma RestFits(arr: seq<Val>, nodes: seq<Node>, m: map<Key, Val>, n: nat)
    requires Agrees(arr, nodes, m) && Divided(|arr|, nodes) && DistinctKeys(nodes) && |arr| <= n
    ensures |Rest(m.Keys, n)| <= |nodes|
  {
    KeysAre(arr, nodes, m);
    assert forall k :: k in ArrayKeys(arr) ==> ArrayKey(|arr|, k);
    Subset(Rest(m.Keys, n), LiveFrom(nodes, 0));
    LiveCard(nodes, 0);
  }

  lemma NewKeyAbsent(arr: seq<Val>, nodes: seq<Node>, m: map<Key, Val>, k: Key)
    requires Agrees(arr, nodes, m) && !ArrayKey(|arr|, k) && IndexOf(nodes, k) == NONE
    ensures k !in m
  {
    assert Lookup(arr, nodes, k) == ValueIn(m, k);
  }

  /** Every key in use is counted once. */
  lemma TotalUse(arr: seq<Val>, K: set<Key>, L: set<Key>)
    requires |arr| <= MAXASIZE && ArrayKeys(arr) + L == K && ArrayKeys(arr) !! L
    ensures |K| == CountInts(ArrayKeys(arr), 0, MAXASIZE) + |L|
  {
    IntsCard(ArrayKeys(arr), MAXASIZE);
    assert IntsUpTo(ArrayKeys(arr), MAXASIZE) == ArrayKeys(arr);
  }

  lemma RoomForNew(arr: seq<Val>, nodes: seq<Node>, m: map<Key, Val>, k: Key, nhsize: nat)
    requires Agrees(arr, nodes, m) && Divided(|arr|, nodes) && DistinctKeys(nodes) && AllLive(nodes) && k !in m
    requires |Rest(m.Keys + {k}, |arr|)| <= nhsize && |nodes| == HashSize(nhsize)
    ensures ArrayKey(|arr|, k) || Room(nodes)
  {
    if !ArrayKey(|arr|, k) {
      var D := Rest(m.Keys + {k}, |arr|) - {k};
      assert k in Rest(m.Keys + {k}, |arr|);
      forall i | Keyed(nodes, i) ensures nodes[i].key.value in D { NodeKeys(arr, nodes, m, i); }
      RoomIf(nodes, D);
    }
  }

  lemma Found(hash: Hash, nodes: seq<Node>, chain: seq<seq<int>>, i: int)
    requires HashOk(hash, nodes, chain) && Keyed(nodes, i)
    ensures i in chain[MainPos(hash, nodes[i].key.value, |nodes|)]
  {
    assert Placed(hash, nodes, chain, i);
  }

  lemma StoreArray(arr: seq<Val>, nodes: seq<Node>, i: nat, v: Val, k: Key)
    requires i < |arr| && k == IntKey(i + 1)
    ensures forall x :: Lookup(arr[i := v], nodes, x) == if x == k then v else Lookup(arr, nodes, x)
  {
    forall x ensures Lookup(arr[i := v], nodes, x) == if x == k then v else Lookup(arr, nodes, x) {
      assert x.IntKey? ==> x == IntKey(x.i);
    }
  }

  function SetVal(nodes: seq<Node>, i: nat, v: Val): seq<Node>
    requires i < |nodes|
  {
    nodes[i := nodes[i].(val := v)]
  }

  /** Changing the value of a node. */
  lemma StoreNode(hash: Hash, arr: seq<Val>, nodes: seq<Node>, chain: seq<seq<int>>, i: nat, v: Val, k: Key)
    requires HashOk(hash, nodes, chain) && Has(nodes, i, k) && !ArrayKey(|arr|, k)
    ensures HashOk(hash, SetVal(nodes, i, v), chain)
    ensures forall j :: Keyed(SetVal(nodes, i, v), j) ==>
        Keyed(nodes, j) && SetVal(nodes, i, v)[j].key == nodes[j].key
    ensures forall j :: Keyed(nodes, j) ==> Keyed(SetVal(nodes, i, v), j)
    ensures forall x :: Lookup(arr, SetVal(nodes, i, v), x) == if x == k then v else Lookup(arr, nodes, x)
  {
    var nodes' := SetVal(nodes, i, v);
    forall j | 0 <= j < |nodes'| ensures LinkAt(nodes', chain, j) { assert LinkAt(nodes, chain, j); }
    forall j ensures Empty(nodes', j) { assert Empty(nodes, j); }
    forall j | Keyed(nodes', j)
        ensures Placed(hash, nodes', chain, j) { assert Keyed(nodes, j) && Placed(hash, nodes, chain, j); }
    forall a, b | Keyed(nodes', a) && Keyed(nodes', b) && nodes'[a].key == nodes'[b].key ensures a == b {
      assert Keyed(nodes, a) && Keyed(nodes, b);
    }
    forall x ensures Lookup(arr, nodes', x) == if x == k then v else Lookup(arr, nodes, x) {
      StoredAt(arr, nodes, nodes', i, v, k, x);
    }
  }

  lemma StoredAt(arr: seq<Val>, nodes: seq<Node>, nodes': seq<Node>, i: nat, v: Val, k: Key, x: Key)
    requires DistinctKeys(nodes) && Has(nodes, i, k) && !ArrayKey(|arr|, k) && nodes' == SetVal(nodes, i, v)
    ensures Lookup(arr, nodes', x) == if x == k then v else Lookup(arr, nodes, x)
  {
    StoreLookup(nodes, nodes', x);
    if x == k { IndexIs(nodes, k, i); }
    assert IndexOf(nodes, x) == NONE || Has(nodes, IndexOf(nodes, x), x);
  }

  lemma {:induction false} StoreLookup(nodes: seq<Node>, nodes': seq<Node>, x: Key)
    requires |nodes'| == |nodes| && forall j :: 0 <= j < |nodes| ==> nodes'[j].key == nodes[j].key
    ensures IndexOf(nodes', x) == IndexOf(nodes, x)
  {
    if nodes != [] { StoreLookup(nodes[..|nodes| - 1], nodes'[..|nodes| - 1], x); }
  }

  lemma AgreesStored(arr: seq<Val>, nodes: seq<Node>, arr': seq<Val>, nodes': seq<Node>, m: map<Key, Val>, k: Key,
      v: Val)
    requires Agrees(arr, nodes, m)
    requires forall x :: Lookup(arr', nodes', x) == if x == k then v else Lookup(arr, nodes, x)
    ensures Agrees(arr', nodes', Stored(m, k, v))
  {
    forall x ensures Lookup(arr', nodes', x) == ValueIn(Stored(m, k, v), x) {
      assert Lookup(arr, nodes, x) == ValueIn(m, x);
    }
  }
}
