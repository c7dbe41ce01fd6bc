/**
  The hash part of a table: a chained scatter table in one array of nodes, with
  Brent's variation.  A node keeps its key when its value becomes nil.
 */
module TableNodes {
  import opened Common

  /** A table key: an integer, or anything else that can be compared. */
  datatype Key = IntKey(i: int) | OtherKey(id: int)

  datatype Val = Nil | V(id: int)

  datatype Node = Node(key: Option<Key>, val: Val, next: int)

  const NONE: int := -1

  /** A hash may be any function; the main position is it reduced to the size. */
  type Hash = (Key, nat) -> nat

  function MainPos(hash: Hash, k: Key, n: nat): (p: nat)
    requires n > 0
    ensures p < n
  {
    hash(k, n) % n
  }

  predicate Keyed(nodes: seq<Node>, i: int) {
    0 <= i < |nodes| && nodes[i].key.Some?
  }

  predicate Has(nodes: seq<Node>, i: int, k: Key) {
    0 <= i < |nodes| && nodes[i].key == Some(k)
  }

  /** The index of the node with key `k`, or NONE. */
  function IndexOf(nodes: seq<Node>, k: Key): (r: int)
    ensures r == NONE || Has(nodes, r, k)
    ensures r == NONE ==> forall i :: !Has(nodes, i, k)
  {
    if nodes == [] then NONE
    else if nodes[|nodes| - 1].key == Some(k) then |nodes| - 1
    else
      var r := IndexOf(nodes[..|nodes| - 1], k);
      assert forall i :: 0 <= i < |nodes| - 1 ==> nodes[..|nodes| - 1][i] == nodes[i];
      assert forall i :: Has(nodes, i, k) ==> Has(nodes[..|nodes| - 1], i, k);
      r
  }

  // ---------------------------------------------------------------- chains

  /** `chain[i]` lists the nodes met from `i` on. */
  predicate LinkAt(nodes: seq<Node>, chain: seq<seq<int>>, i: int) {
    |chain| == |nodes| && 0 <= i < |nodes| && NONE <= nodes[i].next < |nodes|
    && chain[i] == [i] + if nodes[i].next == NONE then [] else chain[nodes[i].next]
  }

  ghost predicate Linked(nodes: seq<Node>, chain: seq<seq<int>>) {
    |chain| == |nodes| && forall i :: 0 <= i < |nodes| ==> LinkAt(nodes, chain, i)
  }

  /** A keyed node is met from the main position of its key, which holds a key
      that belongs there. */
  predicate Placed(hash: Hash, nodes: seq<Node>, chain: seq<seq<int>>, i: int) {
    |chain| == |nodes| && Keyed(nodes, i) &&
    var p := MainPos(hash, nodes[i].key.value, |nodes|);
    i in chain[p] && Keyed(nodes, p) && MainPos(hash, nodes[p].key.value, |nodes|) == p
  }

  /** No two nodes continue at the same one. */
  ghost predicate Apart(nodes: seq<Node>) {
    forall i, j :: 0 <= i < |nodes| && 0 <= j < |nodes| && nodes[i].next == nodes[j].next != NONE ==> i == j
  }

  ghost predicate DistinctKeys(nodes: seq<Node>) {
    forall i, j :: Keyed(nodes, i) && Keyed(nodes, j) && nodes[i].key == nodes[j].key ==> i == j
  }

  /** A node without key is empty and in no chain. */
  predicate Empty(nodes: seq<Node>, i: int) {
    0 <= i < |nodes| ==>
      (nodes[i].key.None? ==> nodes[i].next == NONE && nodes[i].val == Nil)
      && (nodes[i].next != NONE ==> Keyed(nodes, nodes[i].next))
  }

  ghost predicate HashOk(hash: Hash, nodes: seq<Node>, chain: seq<seq<int>>) {
    && Linked(nodes, chain) && Apart(nodes) && DistinctKeys(nodes)
    && (forall i :: Empty(nodes, i))
    && (forall i :: Keyed(nodes, i) ==> Placed(hash, nodes, chain, i))
  }

  /** All positions from `lastfree` on are in use. */
  ghost predicate FreeOk(nodes: seq<Node>, lastfree: int) {
    lastfree <= |nodes| && forall i :: lastfree <= i < |nodes| && 0 <= i ==> Keyed(nodes, i)
  }

  ghost predicate Room(nodes: seq<Node>) {
    exists i :: 0 <= i < |nodes| && !Keyed(nodes, i)
  }

  /** Following a link leaves a proper suffix. */
  lemma {:induction false} InRange(nodes: seq<Node>, chain: seq<seq<int>>, i: int)
    requires Linked(nodes, chain) && 0 <= i < |nodes|
    ensures forall j :: j in chain[i] ==> 0 <= j < |nodes|
    ensures forall j :: j in chain[i] && j != i ==>
        exists q :: 0 <= q < |nodes| && q in chain[i] && nodes[q].next == j
    decreases |chain[i]|
  {
    assert LinkAt(nodes, chain, i);
    var n := nodes[i].next;
    if n != NONE {
      InRange(nodes, chain, n);
      assert i in chain[i] && chain[i][1..] == chain[n];
      forall j | j in chain[i] && j != i ensures exists q :: 0 <= q < |nodes| && q in chain[i] && nodes[q].next == j {
        assert j in chain[n];
        if j != n {
          var q :| 0 <= q < |nodes| && q in chain[n] && nodes[q].next == j;
          assert q in chain[i];
        }
      }
    }
  }

  // ---------------------------------------------------------------- a key in a free main position

  function TakeMain(nodes: seq<Node>, mp: int, k: Key): seq<Node>
    requires 0 <= mp < |nodes|
  {
    nodes[mp := nodes[mp].(key := Some(k))]
  }

  /** A key without value gives way to a new one, the links stay. */
  lemma TakeMainOk(hash: Hash, nodes: seq<Node>, chain: seq<seq<int>>, k: Key)
    requires HashOk(hash, nodes, chain) && |nodes| > 0 && IndexOf(nodes, k) == NONE
    requires nodes[MainPos(hash, k, |nodes|)].val == Nil
    ensures HashOk(hash, TakeMain(nodes, MainPos(hash, k, |nodes|), k), chain)
  {
    var mp := MainPos(hash, k, |nodes|);
    var nodes' := TakeMain(nodes, mp, k);
    assert LinkAt(nodes, chain, mp);
    forall i | 0 <= i < |nodes'| ensures LinkAt(nodes', chain, i) { assert LinkAt(nodes, chain, i); }
    forall i ensures Empty(nodes', i) { assert Empty(nodes, i); }
    forall i | Keyed(nodes', i) ensures Placed(hash, nodes', chain, i) {
      if i == mp {
        assert mp in chain[mp];
      } else {
        assert Keyed(nodes, i) && Placed(hash, nodes, chain, i);
      }
    }
    forall i, j | Keyed(nodes', i) && Keyed(nodes', j) && nodes'[i].key == nodes'[j].key ensures i == j {
      assert !Has(nodes, i, k) && !Has(nodes, j, k);
    }
  }

  // ---------------------------------------------------------------- chains change

  function InsertAfter(l: seq<int>, a: int, b: int): seq<int> {
    if l == [] then []
    else if l[0] == a then [a, b] + l[1..]
    else [l[0]] + InsertAfter(l[1..], a, b)
  }

  lemma {:induction false} InsertKeeps(l: seq<int>, a: int, b: int)
    ensures forall x :: x in l ==> x in InsertAfter(l, a, b)
    ensures a in l ==> b in InsertAfter(l, a, b)
    ensures a !in l ==> InsertAfter(l, a, b) == l
  {
    if l != [] {
      InsertKeeps(l[1..], a, b);
      assert l == [l[0]] + l[1..];
    }
  }

  function Subst(l: seq<int>, a: int, b: int): (r: seq<int>)
    ensures |r| == |l|
  {
    seq(|l|, i requires 0 <= i < |l| => if l[i] == a then b else l[i])
  }

  lemma SubstKeeps(l: seq<int>, a: int, b: int)
    ensures forall x :: x in l && x != a ==> x in Subst(l, a, b)
    ensures a in l ==> b in Subst(l, a, b)
    ensures a !in l ==> Subst(l, a, b) == l
  {
    var r := Subst(l, a, b);
    forall x | x in l ensures (if x == a then b else x) in r {
      var i :| 0 <= i < |l| && l[i] == x;
      assert r[i] == if x == a then b else x;
    }
  }

  lemma SubstCons(x: int, l: seq<int>, a: int, b: int)
    ensures Subst([x] + l, a, b) == [if x == a then b else x] + Subst(l, a, b)
  {
  }

  lemma {:induction false} Shorter(nodes: seq<Node>, chain: seq<seq<int>>, i: int, j: int)
    requires Linked(nodes, chain) && 0 <= i < |nodes| && 0 <= j < |nodes| && j in chain[i]
    ensures |chain[j]| <= |chain[i]|
    decreases |chain[i]|
  {
    assert LinkAt(nodes, chain, i);
    if j != i { Shorter(nodes, chain, nodes[i].next, j); }
  }

  /** Chains do not come back. */
  lemma NoLoop(nodes: seq<Node>, chain: seq<seq<int>>, i: int)
    requires Linked(nodes, chain) && 0 <= i < |nodes| && nodes[i].next != NONE
    ensures 0 <= nodes[i].next < |nodes| && i !in chain[nodes[i].next] && nodes[i].next != i
  {
    assert LinkAt(nodes, chain, i);
    var n := nodes[i].next;
    assert LinkAt(nodes, chain, n) && n in chain[n];
    if i in chain[n] { Shorter(nodes, chain, n, i); }
  }

  // ---------------------------------------------------------------- a colliding node in its own main position

  /** The new key goes to the free node `n`, which is linked behind `mp`. */
  function Append(nodes: seq<Node>, mp: int, n: int, k: Key): seq<Node>
    requires 0 <= mp < |nodes| && 0 <= n < |nodes|
  {
    nodes[n := Node(Some(k), Nil, nodes[mp].next)][mp := nodes[mp].(next := n)]
  }

  function AppendChain(nodes: seq<Node>, chain: seq<seq<int>>, mp: int, n: int): seq<seq<int>>
    requires |chain| == |nodes| && 0 <= mp < |nodes| && chain[mp] != []
  {
    seq(|nodes|, i requires 0 <= i < |nodes| => if i == n then [n] + chain[mp][1..] else InsertAfter(chain[i], mp, n))
  }

  lemma InsertCons(x: int, l: seq<int>, a: int, b: int)
    ensures InsertAfter([x] + l, a, b) == if x == a then [a, b] + l else [x] + InsertAfter(l, a, b)
  {
    assert ([x] + l)[1..] == l;
  }

  /** The links of the two nodes that change. */
  lemma AppendHere(nodes: seq<Node>, chain: seq<seq<int>>, mp: int, n: int, k: Key)
    requires Linked(nodes, chain) && (forall j :: Empty(nodes, j)) && 0 <= mp < |nodes| && 0 <= n < |nodes|
        && !Keyed(nodes, n) && n != mp
    requires LinkAt(nodes, chain, mp)
    ensures LinkAt(Append(nodes, mp, n, k), AppendChain(nodes, chain, mp, n), n)
    ensures LinkAt(Append(nodes, mp, n, k), AppendChain(nodes, chain, mp, n), mp)
  {
    var chain' := AppendChain(nodes, chain, mp, n);
    assert Empty(nodes, mp);
    var m := nodes[mp].next;
    var tail := if m == NONE then [] else chain[m];
    assert chain[mp] == [mp] + tail && chain[mp][1..] == tail;
    if m != NONE {
      NoLoop(nodes, chain, mp);
      InsertKeeps(chain[m], mp, n);
    }
    InsertCons(mp, tail, mp, n);
    assert chain'[mp] == [mp] + chain'[n];
  }

  /** The links of the others. */
  lemma AppendElsewhere(nodes: seq<Node>, chain: seq<seq<int>>, mp: int, n: int, k: Key, i: int)
    requires (forall j :: Empty(nodes, j)) && 0 <= mp < |nodes| && 0 <= n < |nodes| && !Keyed(nodes, n) && n != mp
    requires LinkAt(nodes, chain, mp) && LinkAt(nodes, chain, i) && i != mp && i != n
    ensures LinkAt(Append(nodes, mp, n, k), AppendChain(nodes, chain, mp, n), i)
  {
    assert Empty(nodes, i);
    InsertCons(i, if nodes[i].next == NONE then [] else chain[nodes[i].next], mp, n);
  }

  lemma AppendLinked(nodes: seq<Node>, chain: seq<seq<int>>, mp: int, n: int, k: Key, i: int)
    requires Linked(nodes, chain) && (forall j :: Empty(nodes, j)) && 0 <= mp < |nodes| && 0 <= n < |nodes|
        && !Keyed(nodes, n) && n != mp
    requires LinkAt(nodes, chain, mp) && 0 <= i < |nodes|
    ensures LinkAt(Append(nodes, mp, n, k), AppendChain(nodes, chain, mp, n), i)
  {
    if i == n || i == mp {
      AppendHere(nodes, chain, mp, n, k);
    } else {
      assert LinkAt(nodes, chain, i);
      AppendElsewhere(nodes, chain, mp, n, k, i);
    }
  }

  lemma AppendPlaced(hash: Hash, nodes: seq<Node>, chain: seq<seq<int>>, mp: int, n: int, k: Key, i: int)
    requires HashOk(hash, nodes, chain) && 0 <= mp < |nodes| && 0 <= n < |nodes| && !Keyed(nodes, n) && n != mp
        && chain[mp] != []
    requires mp == MainPos(hash, k, |nodes|) && Keyed(nodes, mp) && MainPos(hash, nodes[mp].key.value, |nodes|) == mp
    requires Keyed(Append(nodes, mp, n, k), i)
    ensures Placed(hash, Append(nodes, mp, n, k), AppendChain(nodes, chain, mp, n), i)
  {
    if i == n {
      assert LinkAt(nodes, chain, mp);
      InsertKeeps(chain[mp], mp, n);
    } else {
      assert Keyed(nodes, i) && Placed(hash, nodes, chain, i);
      InsertKeeps(chain[MainPos(hash, nodes[i].key.value, |nodes|)], mp, n);
    }
  }

  lemma AppendRest(nodes: seq<Node>, mp: int, n: int, k: Key)
    requires Apart(nodes) && DistinctKeys(nodes) && (forall i :: Empty(nodes, i)) && IndexOf(nodes, k) == NONE
    requires 0 <= mp < |nodes| && 0 <= n < |nodes| && !Keyed(nodes, n) && Keyed(nodes, mp)
    ensures var nodes' := Append(nodes, mp, n, k);
        Apart(nodes') && DistinctKeys(nodes') && forall i :: Empty(nodes', i)
  {
    var nodes' := Append(nodes, mp, n, k);
    forall i ensures Empty(nodes', i) { assert Empty(nodes, i) && Empty(nodes, mp); }
    forall i, j | Keyed(nodes', i) && Keyed(nodes', j) && nodes'[i].key == nodes'[j].key ensures i == j {
      assert !Has(nodes, i, k) && !Has(nodes, j, k);
    }
    forall i, j | 0 <= i < |nodes'| && 0 <= j < |nodes'| && nodes'[i].next == nodes'[j].next
        && nodes'[i].next != NONE ensures i == j {
      assert Empty(nodes, i) && Empty(nodes, j) && Empty(nodes, mp);
    }
  }

  /** The colliding node belongs to `mp`. */
  predicate Settled(hash: Hash, nodes: seq<Node>, mp: int) {
    Keyed(nodes, mp) && MainPos(hash, nodes[mp].key.value, |nodes|) == mp
  }

  lemma AppendOk(hash: Hash, nodes: seq<Node>, chain: seq<seq<int>>, mp: int, n: int, k: Key)
    requires HashOk(hash, nodes, chain) && 0 <= mp < |nodes| && mp == MainPos(hash, k, |nodes|)
        && IndexOf(nodes, k) == NONE
    requires 0 <= n < |nodes| && !Keyed(nodes, n) && Settled(hash, nodes, mp)
    ensures chain[mp] != [] && HashOk(hash, Append(nodes, mp, n, k), AppendChain(nodes, chain, mp, n))
  {
    var nodes' := Append(nodes, mp, n, k);
    assert LinkAt(nodes, chain, mp);
    var chain' := AppendChain(nodes, chain, mp, n);
    AppendRest(nodes, mp, n, k);
    forall i | 0 <= i < |nodes'| ensures LinkAt(nodes', chain', i) { AppendLinked(nodes, chain, mp, n, k, i); }
    forall i | Keyed(nodes', i)
        ensures Placed(hash, nodes', chain', i) { AppendPlaced(hash, nodes, chain, mp, n, k, i); }
  }

  // ---------------------------------------------------------------- a colliding node out of its main position

  /** The colliding node moves to the free node `n`, in place of `mp` behind
      `prev`; the new key takes its main position. */
  function MoveOut(nodes: seq<Node>, mp: int, prev: int, n: int, k: Key): seq<Node>
    requires 0 <= mp < |nodes| && 0 <= n < |nodes| && 0 <= prev < |nodes|
  {
    nodes[prev := nodes[prev].(next := n)][n := nodes[mp]][mp := Node(Some(k), Nil, NONE)]
  }

  function MoveChain(nodes: seq<Node>, chain: seq<seq<int>>, mp: int, n: int): seq<seq<int>>
    requires |chain| == |nodes| && 0 <= mp < |nodes| && chain[mp] != []
  {
    seq(|nodes|, i requires 0 <= i < |nodes| =>
      if i == mp then [mp] else if i == n then [n] + chain[mp][1..] else Subst(chain[i], mp, n))
  }

  lemma MoveLinked(nodes: seq<Node>, chain: seq<seq<int>>, mp: int, prev: int, n: int, k: Key, i: int)
    requires Linked(nodes, chain) && Apart(nodes) && forall j :: Empty(nodes, j)
    requires 0 <= mp < |nodes| && 0 <= n < |nodes| && !Keyed(nodes, n) && Keyed(nodes, mp) && chain[mp] != []
    requires 0 <= prev < |nodes| && nodes[prev].next == mp && 0 <= i < |nodes|
    ensures LinkAt(MoveOut(nodes, mp, prev, n, k), MoveChain(nodes, chain, mp, n), i)
  {
    var nodes' := MoveOut(nodes, mp, prev, n, k);
    var chain' := MoveChain(nodes, chain, mp, n);
    assert LinkAt(nodes, chain, i) && Empty(nodes, i) && Empty(nodes, n) && Empty(nodes, mp)
        && LinkAt(nodes, chain, mp);
    var m := nodes[mp].next;
    assert chain[mp] == [mp] + chain[mp][1..];
    assert chain[mp][1..] == if m == NONE then [] else chain[m];
    NoLoop(nodes, chain, prev);
    if m != NONE {
      NoLoop(nodes, chain, mp);
      SubstKeeps(chain[m], mp, n);
    }
    if i == prev {
      SubstCons(prev, chain[mp], mp, n);
      SubstCons(mp, chain[mp][1..], mp, n);
    } else if i != n && i != mp {
      SubstCons(i, if nodes[i].next == NONE then [] else chain[nodes[i].next], mp, n);
    }
  }

  lemma MovePlaced(hash: Hash, nodes: seq<Node>, chain: seq<seq<int>>, mp: int, prev: int, n: int, k: Key, i: int)
    requires HashOk(hash, nodes, chain) && 0 <= mp < |nodes| && 0 <= n < |nodes| && !Keyed(nodes, n)
        && chain[mp] != []
    requires 0 <= prev < |nodes| && nodes[prev].next == mp && prev != mp && prev != n
    requires mp == MainPos(hash, k, |nodes|) && Keyed(nodes, mp) && MainPos(hash, nodes[mp].key.value, |nodes|) != mp
    requires Keyed(MoveOut(nodes, mp, prev, n, k), i)
    ensures Placed(hash, MoveOut(nodes, mp, prev, n, k), MoveChain(nodes, chain, mp, n), i)
  {
    if i != mp {
      var j := if i == n then mp else i;
      assert Keyed(nodes, j) && Placed(hash, nodes, chain, j);
      SubstKeeps(chain[MainPos(hash, nodes[j].key.value, |nodes|)], mp, n);
    }
  }

  lemma MoveRest(nodes: seq<Node>, mp: int, prev: int, n: int, k: Key)
    requires Apart(nodes) && DistinctKeys(nodes) && (forall i :: Empty(nodes, i)) && IndexOf(nodes, k) == NONE
    requires 0 <= mp < |nodes| && 0 <= n < |nodes| && 0 <= prev < |nodes| && !Keyed(nodes, n) && Keyed(nodes, mp)
    requires nodes[prev].next == mp && prev != mp && prev != n
    ensures var nodes' := MoveOut(nodes, mp, prev, n, k); DistinctKeys(nodes') && forall i :: Empty(nodes', i)
  {
    var nodes' := MoveOut(nodes, mp, prev, n, k);
    forall i ensures Empty(nodes', i) { assert Empty(nodes, i) && Empty(nodes, mp); }
    forall i, j | Keyed(nodes', i) && Keyed(nodes', j) && nodes'[i].key == nodes'[j].key ensures i == j {
      var i0 := if i == n then mp else i;
      var j0 := if j == n then mp else j;
      assert !Has(nodes, i0, k) && !Has(nodes, j0, k);
    }
  }

  lemma MoveOk(hash: Hash, nodes: seq<Node>, chain: seq<seq<int>>, mp: int, prev: int, n: int, k: Key)
    requires HashOk(hash, nodes, chain) && 0 <= mp < |nodes| && mp == MainPos(hash, k, |nodes|)
        && IndexOf(nodes, k) == NONE
    requires 0 <= n < |nodes| && !Keyed(nodes, n) && Keyed(nodes, mp) && !Settled(hash, nodes, mp)
    requires 0 <= prev < |nodes| && nodes[prev].next == mp
    ensures chain[mp] != [] && HashOk(hash, MoveOut(nodes, mp, prev, n, k), MoveChain(nodes, chain, mp, n))
  {
    var nodes' := MoveOut(nodes, mp, prev, n, k);
    assert LinkAt(nodes, chain, mp);
    NoLoop(nodes, chain, prev);
    assert Empty(nodes, n);
    var chain' := MoveChain(nodes, chain, mp, n);
    MoveApart(nodes, mp, prev, n, k);
    MoveRest(nodes, mp, prev, n, k);
    forall i | 0 <= i < |nodes'| ensures LinkAt(nodes', chain', i) { MoveLinked(nodes, chain, mp, prev, n, k, i); }
    forall i | Keyed(nodes', i)
        ensures Placed(hash, nodes', chain', i) { MovePlaced(hash, nodes, chain, mp, prev, n, k, i); }
  }

  lemma MoveApart(nodes: seq<Node>, mp: int, prev: int, n: int, k: Key)
    requires Apart(nodes) && (forall i :: Empty(nodes, i)) && 0 <= mp < |nodes| && 0 <= n < |nodes|
        && 0 <= prev < |nodes|
    requires !Keyed(nodes, n) && nodes[prev].next == mp && prev != mp && prev != n && Keyed(nodes, mp)
    ensures Apart(MoveOut(nodes, mp, prev, n, k))
  {
    var nodes' := MoveOut(nodes, mp, prev, n, k);
    forall i, j | 0 <= i < |nodes'| && 0 <= j < |nodes'| && nodes'[i].next == nodes'[j].next
        && nodes'[i].next != NONE ensures i == j {
      assert Empty(nodes, i) && Empty(nodes, j) && Empty(nodes, mp);
    }
  }
}
