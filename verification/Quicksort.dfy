/**
  `table.sort`: quicksort in place, with the median of three as pivot, recursing
  on the smaller part only.
 */
module Quicksort {
  import opened Common

  /** What is sorted; the order is a parameter. */
  type Value = int

  type Less = (Value, Value) -> bool

  predicate Le(lt: Less, x: Value, y: Value) {
    !lt(y, x)
  }

  /** The order function makes sense: values that are not less either way count as equal. */
  ghost predicate StrictWeak(lt: Less) {
    && (forall x :: !lt(x, x))
    && (forall x, y :: lt(x, y) ==> !lt(y, x))
    && (forall x, y, z :: Le(lt, x, y) && Le(lt, y, z) ==> Le(lt, x, z))
  }

  ghost predicate SortedIn(lt: Less, s: seq<Value>, l: int, u: int)
    requires 0 <= l && u < |s|
  {
    forall i, j :: l <= i <= j <= u ==> Le(lt, s[i], s[j])
  }

  /** The slots from `l` to `u` are permuted, and no others change. */
  ghost predicate PermutedIn(s: seq<Value>, t: seq<Value>, l: int, u: int)
    requires 0 <= l
  {
    && |t| == |s| && multiset(t) == multiset(s)
    && forall k :: 0 <= k < |s| && !(l <= k <= u) ==> t[k] == s[k]
  }

  lemma PermutedTrans(s: seq<Value>, t: seq<Value>, w: seq<Value>, l: int, u: int)
    requires 0 <= l && PermutedIn(s, t, l, u) == true && PermutedIn(t, w, l, u) == true
    ensures PermutedIn(s, w, l, u) == true
  {
  }

  lemma PermutedWider(s: seq<Value>, t: seq<Value>, l: int, u: int, l': int, u': int)
    requires 0 <= l' <= l && u <= u' && PermutedIn(s, t, l, u)
    ensures PermutedIn(s, t, l', u') == true
  {
  }

  lemma SameRest(a: multiset<Value>, b: multiset<Value>, c: multiset<Value>, d: multiset<Value>)
    requires a + b + d == a + c + d
    ensures b == c
  {
    assert b == a + b + d - a - d && c == a + c + d - a - d;
  }

  /** What is in the slots stays there. */
  lemma PermutedHas(s: seq<Value>, t: seq<Value>, l: int, u: int, k: int)
    requires 0 <= l <= k <= u < |s| && PermutedIn(s, t, l, u)
    ensures exists j :: l <= j <= u && t[k] == s[j]
  {
    assert s == s[..l] + s[l..u + 1] + s[u + 1..];
    assert t == t[..l] + t[l..u + 1] + t[u + 1..];
    assert s[..l] == t[..l] && s[u + 1..] == t[u + 1..];
    assert multiset(s) == multiset(s[..l]) + multiset(s[l..u + 1]) + multiset(s[u + 1..]);
    assert multiset(t) == multiset(s[..l]) + multiset(t[l..u + 1]) + multiset(s[u + 1..]);
    SameRest(multiset(s[..l]), multiset(s[l..u + 1]), multiset(t[l..u + 1]), multiset(s[u + 1..]));
    assert t[k] in multiset(t[l..u + 1]) by { assert t[l..u + 1][k - l] == t[k]; }
    assert t[k] in s[l..u + 1];
    var j :| 0 <= j < |s[l..u + 1]| && s[l..u + 1][j] == t[k];
    assert s[l + j] == t[k];
  }

  /** Bounds on what is in the slots stay bounds. */
  lemma BoundsKept(lt: Less, s: seq<Value>, t: seq<Value>, l: int, u: int, p: Value)
    requires 0 <= l && u < |s| && PermutedIn(s, t, l, u)
    ensures (forall k :: l <= k <= u ==> Le(lt, s[k], p)) ==> forall k :: l <= k <= u ==> Le(lt, t[k], p)
    ensures (forall k :: l <= k <= u ==> Le(lt, p, s[k])) ==> forall k :: l <= k <= u ==> Le(lt, p, t[k])
  {
    forall k | l <= k <= u ensures exists j :: l <= j <= u && t[k] == s[j] { PermutedHas(s, t, l, u, k); }
  }

  /** The slot `p` splits the rest in what comes before and what comes after. */
  ghost predicate Parted(lt: Less, s: seq<Value>, l: int, u: int, p: int)
    requires 0 <= l <= p <= u < |s|
  {
    && (forall k :: l <= k <= p ==> Le(lt, s[k], s[p]))
    && (forall k :: p <= k <= u ==> Le(lt, s[p], s[k]))
  }

  /** Between `l0` and `u0`, all but the slots from `l` to `u` are where they belong. */
  ghost predicate Settled(lt: Less, s: seq<Value>, l0: int, u0: int, l: int, u: int)
    requires 0 <= l0 && u0 < |s|
  {
    forall i, j :: l0 <= i <= j <= u0 && (i < l || u < j) ==> Le(lt, s[i], s[j])
  }

  /** Rearranging the slots from `l` to `u` disturbs no other. */
  lemma SettledKept(lt: Less, s: seq<Value>, t: seq<Value>, l0: int, u0: int, l: int, u: int)
    requires 0 <= l0 <= l && u <= u0 < |s| && Settled(lt, s, l0, u0, l, u) && PermutedIn(s, t, l, u)
    ensures Settled(lt, t, l0, u0, l, u)
  {
    forall i, j | l0 <= i <= j <= u0 && (i < l || u < j) ensures Le(lt, t[i], t[j]) {
      if i < l && l <= j <= u {
        PermutedHas(s, t, l, u, j);
        var j' :| l <= j' <= u && t[j] == s[j'];
        assert Le(lt, s[i], s[j']);
      } else if u < j && l <= i <= u {
        PermutedHas(s, t, l, u, i);
        var i' :| l <= i' <= u && t[i] == s[i'];
        assert Le(lt, s[i'], s[j]);
      }
    }
  }

  /** A sorted part beside the pivot is settled, whichever side it is on. */
  lemma SettledMore(lt: Less, s: seq<Value>, l0: int, u0: int, l: int, u: int, p: int)
    requires 0 <= l0 <= l <= p <= u <= u0 < |s| && StrictWeak(lt)
    requires Settled(lt, s, l0, u0, l, u) && Parted(lt, s, l, u, p)
    ensures SortedIn(lt, s, l, p - 1) ==> Settled(lt, s, l0, u0, p + 1, u)
    ensures SortedIn(lt, s, p + 1, u) ==> Settled(lt, s, l0, u0, l, p - 1)
  {
    if SortedIn(lt, s, l, p - 1) {
      forall i, j | l0 <= i <= j <= u0 && (i < p + 1 || u < j) ensures Le(lt, s[i], s[j]) {
        if l <= i && j <= u && p <= j {
          assert Le(lt, s[i], s[p]) && Le(lt, s[p], s[j]);
        }
      }
    }
    if SortedIn(lt, s, p + 1, u) {
      forall i, j | l0 <= i <= j <= u0 && (i < l || p - 1 < j) ensures Le(lt, s[i], s[j]) {
        if l <= i <= p && j <= u {
          assert Le(lt, s[i], s[p]) && Le(lt, s[p], s[j]);
        }
      }
    }
  }

  /** Rearranging one side keeps the pivot between the sides. */
  lemma PartedKept(lt: Less, s: seq<Value>, t: seq<Value>, l: int, u: int, p: int, j: int, i: int)
    requires 0 <= l <= p <= u < |s| && Parted(lt, s, l, u, p)
    requires (j == l && i == p - 1) || (j == p + 1 && i == u)
    requires PermutedIn(s, t, j, i)
    ensures Parted(lt, t, l, u, p)
  {
    BoundsKept(lt, s, t, j, i, s[p]);
  }

  /** One side rearranged so that it is sorted leaves only the other to do. */
  lemma SideSorted(lt: Less, s: seq<Value>, t: seq<Value>, l0: int, u0: int, l: int, u: int, p: int, j: int, i: int)
    requires 0 <= l0 <= l <= p <= u <= u0 < |s| && StrictWeak(lt)
    requires Parted(lt, s, l, u, p) == true && Settled(lt, s, l0, u0, l, u) == true
    requires (j == l && i == p - 1) || (j == p + 1 && i == u)
    requires PermutedIn(s, t, j, i) == true && SortedIn(lt, t, j, i) == true
    ensures Settled(lt, t, l0, u0, if j == l then p + 1 else l, if j == l then u else p - 1) == true
  {
    PartedKept(lt, s, t, l, u, p, j, i);
    PermutedWider(s, t, j, i, l, u);
    SettledKept(lt, s, t, l0, u0, l, u);
    SettledMore(lt, t, l0, u0, l, u, p);
  }

  /** The median of three sorts segments of two or three slots. */
  lemma SmallSorted(lt: Less, s: seq<Value>, l: int, u: int)
    requires 0 <= l < u <= l + 2 && u < |s| && StrictWeak(lt) && Le(lt, s[l], s[u])
    requires u - l > 1 ==> Le(lt, s[l], s[(l + u) / 2]) && Le(lt, s[(l + u) / 2], s[u])
    ensures SortedIn(lt, s, l, u)
  {
    if u - l == 2 {
      assert (l + u) / 2 == l + 1;
      forall i, j | l <= i <= j <= u ensures Le(lt, s[i], s[j]) {}
    }
  }

  /** Nothing left to sort. */
  lemma AllSorted(lt: Less, s: seq<Value>, l0: int, u0: int, l: int, u: int)
    requires 0 <= l0 <= l && u <= u0 < |s| && StrictWeak(lt)
    requires Settled(lt, s, l0, u0, l, u) == true
    requires (l < u ==> SortedIn(lt, s, l, u)) == true
    ensures SortedIn(lt, s, l0, u0) == true
  {
  }

  /** A step inside a segment is a step inside the whole. */
  lemma Reordered(lt: Less, s0: seq<Value>, s: seq<Value>, t: seq<Value>, l0: int, u0: int, l: int, u: int)
    requires 0 <= l0 <= l && u <= u0 < |s| && PermutedIn(s0, s, l0, u0) == true && PermutedIn(s, t, l, u) == true
    ensures PermutedIn(s0, t, l0, u0) == true
    ensures Settled(lt, s, l0, u0, l, u) == true ==> Settled(lt, t, l0, u0, l, u) == true
  {
    PermutedWider(s, t, l, u, l0, u0);
    PermutedTrans(s0, s, t, l0, u0);
    if Settled(lt, s, l0, u0, l, u) { SettledKept(lt, s, t, l0, u0, l, u); }
  }

  /** `set2` on two slots just read. */
  method Swap(a: array<Value>, i: int, j: int, ghost l: int, ghost u: int)
    requires 0 <= l <= i <= u < a.Length && l <= j <= u
    modifies a
    ensures a[i] == old(a[j]) && a[j] == old(a[i])
    ensures forall k :: 0 <= k < a.Length && k != i && k != j ==> a[k] == old(a[k])
    ensures PermutedIn(old(a[..]), a[..], l, u) == true
  {
    a[i], a[j] := a[j], a[i];
    assert a[..] == old(a[..])[i := old(a[..])[j]][j := old(a[..])[i]];
  }

  /** The first, the middle and the last slot in order. */
  method MedianOfThree(a: array<Value>, lt: Less, l: nat, u: nat)
    requires l < u < a.Length && StrictWeak(lt)
    modifies a
    ensures PermutedIn(old(a[..]), a[..], l, u) == true
    ensures Le(lt, a[l], a[u])
    ensures u - l > 1 ==> Le(lt, a[l], a[(l + u) / 2]) && Le(lt, a[(l + u) / 2], a[u])
  {
    if lt(a[u], a[l]) { Swap(a, l, u, l, u); }
    ghost var s := a[..];
    if u - l == 1 { return; }
    var i := (l + u) / 2;
    if lt(a[i], a[l]) {
      Swap(a, i, l, l, u);
      assert Le(lt, a[l], a[i]) && Le(lt, a[i], a[u]);
      PermutedTrans(old(a[..]), s, a[..], l, u);
    } else if lt(a[u], a[i]) {
      Swap(a, i, u, l, u);
      PermutedTrans(old(a[..]), s, a[..], l, u);
    }
  }

  /**
    `repeat ++i until a[i] >= P`, then `repeat --j until a[j] <= P`. The scans
    stop on a slot between `l` and `u`, so `ok` is never false: "invalid order
    function" is not raised.
   */
  method Scan(a: array<Value>, lt: Less, l: int, u: int, i0: int, j0: int, p: Value)
    returns (ok: bool, i: int, j: int)
    requires 0 <= l <= i0 <= j0 <= u - 1 && l < j0 && i0 < u - 1 && u < a.Length && StrictWeak(lt)
    requires forall k :: l <= k <= i0 ==> Le(lt, a[k], p)
    requires forall k :: j0 <= k <= u ==> Le(lt, p, a[k])
    ensures ok && i0 < i < u && l <= j < j0
    ensures forall k :: l <= k < i ==> Le(lt, a[k], p)
    ensures forall k :: j < k <= u ==> Le(lt, p, a[k])
    ensures Le(lt, p, a[i]) && Le(lt, a[j], p)
  {
    i, j, ok := i0 + 1, j0, true;
    while lt(a[i], p)
      invariant i0 < i <= j0 || i == i0 + 1
      invariant forall k :: l <= k < i ==> Le(lt, a[k], p)
      decreases u - i
    {
      if i > u { return false, i, j; }
      i := i + 1;
    }
    j := j - 1;
    while lt(p, a[j])
      invariant i0 <= j < j0 || j == j0 - 1
      invariant forall k :: j < k <= u ==> Le(lt, p, a[k])
      decreases j
    {
      if j < l { return false, i, j; }
      j := j - 1;
    }
  }

  /** Scans from both ends towards the pivot, which waits in `u - 1`, and puts it between. */
  method Partition(a: array<Value>, lt: Less, l: int, u: int) returns (ok: bool, i: int)
    requires 0 <= l && l + 2 < u < a.Length && StrictWeak(lt)
    requires Le(lt, a[l], a[u - 1]) && Le(lt, a[u - 1], a[u])
    modifies a
    ensures ok && l < i < u && PermutedIn(old(a[..]), a[..], l, u) == true
    ensures Parted(lt, a[..], l, u, i) == true
  {
    var p := a[u - 1];
    i := l;
    var j := u - 1;
    while true
      invariant (l == i && j == u - 1) || l < i <= j < u - 1
      invariant a[u - 1] == p
      invariant PermutedIn(old(a[..]), a[..], l, u) == true
      invariant forall k :: l <= k <= i ==> Le(lt, a[k], p)
      invariant forall k :: j <= k <= u ==> Le(lt, p, a[k])
      decreases j - i
    {
      ok, i, j := Scan(a, lt, l, u, i, j, p);
      if !ok || j < i { break; }
      ghost var s := a[..];
      Swap(a, i, j, l, u);
      PermutedTrans(old(a[..]), s, a[..], l, u);
    }
    ghost var s := a[..];
    Swap(a, u - 1, i, l, u);
    PermutedTrans(old(a[..]), s, a[..], l, u);
  }

  /** Two or three slots are sorted at once; more are split around a pivot. */
  method Split(a: array<Value>, lt: Less, l: int, u: int) returns (ok: bool, i: int)
    requires 0 <= l < u < a.Length && StrictWeak(lt)
    modifies a
    ensures ok && PermutedIn(old(a[..]), a[..], l, u) == true
    ensures u - l <= 2 ==> SortedIn(lt, a[..], l, u) == true
    ensures u - l > 2 ==> l < i < u && Parted(lt, a[..], l, u, i) == true
  {
    MedianOfThree(a, lt, l, u);
    ghost var t := a[..];
    ok, i := true, (l + u) / 2;
    if u - l <= 2 {
      SmallSorted(lt, t, l, u);
      return;
    }
    Swap(a, i, u - 1, l, u);
    PermutedTrans(old(a[..]), t, a[..], l, u);
    t := a[..];
    ok, i := Partition(a, lt, l, u);
    PermutedTrans(old(a[..]), t, a[..], l, u);
  }

  /**
    `auxsort`: sorts the slots from `l` to `u`, leaves the others alone, and
    nests at most log2 of the length of the segment deep.
   */
  method AuxSort(a: array<Value>, lt: Less, l0: int, u0: int) returns (ok: bool, ghost depth: nat)
    requires 0 <= l0 <= u0 + 1 && u0 < a.Length && StrictWeak(lt)
    modifies a
    ensures ok && SortedIn(lt, a[..], l0, u0) == true && PermutedIn(old(a[..]), a[..], l0, u0) == true
    ensures depth == 0 || Pow2(depth) <= u0 - l0 + 1
    decreases u0 - l0 + 1
  {
    var l, u := l0, u0;
    ok, depth := true, 0;
    while l < u
      invariant ok && l0 <= l <= u + 1 && u <= u0
      invariant depth == 0 || Pow2(depth) <= u0 - l0 + 1
      invariant PermutedIn(old(a[..]), a[..], l0, u0) == true
      invariant Settled(lt, a[..], l0, u0, l, u) == true
      decreases u - l + 1
    {
      ghost var s := a[..];
      var i;
      ok, i := Split(a, lt, l, u);
      ghost var t := a[..];
      Reordered(lt, old(a[..]), s, t, l0, u0, l, u);
      if u - l <= 2 { break; }
      ghost var p, l1, u1 := i, l, u;
      var j;
      if i - l < u - i {
        j := l; i := i - 1; l := i + 2;
      } else {
        j := i + 1; i := u; u := j - 2;
      }
      ghost var d;
      ok, d := AuxSort(a, lt, j, i);
      assert d == 0 || 2 * Pow2(d) <= u0 - l0 + 1;
      Reordered(lt, old(a[..]), t, a[..], l0, u0, j, i);
      SideSorted(lt, t, a[..], l0, u0, l1, u1, p, j, i);
      depth := if depth < d + 1 then d + 1 else depth;
    }
    AllSorted(lt, a[..], l0, u0, l, u);
  }

  /** `sort` on the list of the first `n` slots. */
  method Sort(a: array<Value>, lt: Less, n: nat) returns (ok: bool)
    requires n < a.Length && StrictWeak(lt)
    modifies a
    ensures ok && SortedIn(lt, a[..], 1, n) == true && PermutedIn(old(a[..]), a[..], 1, n) == true
  {
    ghost var depth;
    ok, depth := AuxSort(a, lt, 1, n);
  }
}
