/**
  Choosing the size of the array part: counting integer keys by slices between
  powers of two, and the largest size more than half of which is in use.
 */
module TableSizes {
  import opened Common
  import opened TableNodes

  const MAXBITS: nat := 26
  const MAXASIZE: nat := 0x400_0000

  lemma {:induction false} Pow2Grows(i: nat, j: nat)
    requires i <= j
    ensures Pow2(i) <= Pow2(j)
    ensures i < j ==> 2 * Pow2(i) <= Pow2(j)
    decreases j
  {
    if i < j { Pow2Grows(i, j - 1); }
  }

  lemma Pow2Max()
    ensures Pow2(MAXBITS) == MAXASIZE
  {
    assert Pow2(4) == 16;
    assert Pow2(8) == 256;
    assert Pow2(12) == 4096;
    assert Pow2(16) == 65536;
    assert Pow2(20) == 1048576;
    assert Pow2(24) == 16777216;
  }

  // ---------------------------------------------------------------- counting integer keys

  /** How many integers in (lo, hi] are keys. */
  function CountInts(K: set<Key>, lo: nat, hi: nat): (r: nat)
    ensures hi <= lo ==> r == 0
    ensures lo <= hi ==> r <= hi - lo
  {
    if hi <= lo then 0 else CountInts(K, lo, hi - 1) + if IntKey(hi) in K then 1 else 0
  }

  lemma {:induction false} CountSplit(K: set<Key>, lo: nat, mid: nat, hi: nat)
    requires lo <= mid <= hi
    ensures CountInts(K, lo, hi) == CountInts(K, lo, mid) + CountInts(K, mid, hi)
    decreases hi
  {
    if mid < hi { CountSplit(K, lo, mid, hi - 1); }
  }

  /** The keys of slice `i`: those in (2^(i-1), 2^i]. */
  function Slice(K: set<Key>, i: nat): nat {
    CountInts(K, if i == 0 then 0 else Pow2(i - 1), Pow2(i))
  }

  lemma SliceSum(K: set<Key>, i: nat)
    ensures CountInts(K, 0, Pow2(i)) == (if i == 0 then 0 else CountInts(K, 0, Pow2(i - 1))) + Slice(K, i)
  {
    if i > 0 { CountSplit(K, 0, Pow2(i - 1), Pow2(i)); }
  }

  /** More than half of the slots 1 to `n` would be in use. */
  predicate WellUsed(K: set<Key>, n: nat) {
    CountInts(K, 0, n) > n / 2
  }

  /** `n` is the largest power of two that would be well used, or 0 if none would. */
  ghost predicate Optimal(K: set<Key>, n: nat) {
    && (n == 0 || exists i: nat :: i <= MAXBITS && n == Pow2(i) && WellUsed(K, Pow2(i)))
    && forall i: nat :: i <= MAXBITS && WellUsed(K, Pow2(i)) ==> Pow2(i) <= n
  }

  /** The best size among the first `i` powers. */
  ghost predicate Best(K: set<Key>, n: nat, i: nat) {
    && (n == 0 || exists j: nat :: j < i && n == Pow2(j) && WellUsed(K, Pow2(j)))
    && forall j: nat :: j < i && WellUsed(K, Pow2(j)) ==> Pow2(j) <= n
  }

  /** No power from the `i`-th on would be well used. */
  ghost predicate NoneBeyond(K: set<Key>, i: nat) {
    forall j: nat :: i <= j <= MAXBITS ==> !WellUsed(K, Pow2(j))
  }

  lemma InSlices(i: nat, total: nat)
    requires Pow2(i) / 2 < total <= MAXASIZE
    ensures i <= MAXBITS
  {
    Pow2Max();
    if i > MAXBITS { Pow2Grows(MAXBITS, i); }
  }

  /** The size chosen after slice `i` is the best so far. */
  lemma NextBest(K: set<Key>, n: nat, i: nat, n': nat)
    requires Best(K, n, i)
    requires if Slice(K, i) > 0 && WellUsed(K, Pow2(i)) then n' == Pow2(i) else n' == n
    ensures Best(K, n', i + 1)
  {
    SliceSum(K, i);
    forall j: nat | j < i ensures Pow2(j) <= Pow2(i) { Pow2Grows(j, i); }
    if WellUsed(K, Pow2(i)) && i > 0 { Pow2Grows(i - 1, i); }
  }

  lemma CountMore(K: set<Key>, i: nat, j: nat)
    requires i <= j <= MAXBITS
    ensures CountInts(K, 0, Pow2(i)) <= CountInts(K, 0, Pow2(j)) <= CountInts(K, 0, MAXASIZE)
  {
    Pow2Max();
    Pow2Grows(i, j);
    Pow2Grows(j, MAXBITS);
    CountSplit(K, 0, Pow2(i), Pow2(j));
    CountSplit(K, 0, Pow2(j), MAXASIZE);
  }

  /** Once no more keys are left than half of the next power, nothing larger is well used. */
  lemma EnoughSeen(K: set<Key>, i: nat)
    requires Pow2(i) / 2 >= CountInts(K, 0, MAXASIZE)
    ensures NoneBeyond(K, i)
  {
    forall j: nat | i <= j <= MAXBITS ensures !WellUsed(K, Pow2(j)) {
      CountMore(K, i, j);
      Pow2Grows(i, j);
    }
  }

  lemma AllCounted(K: set<Key>, i: nat)
    requires CountInts(K, 0, Pow2(i)) == CountInts(K, 0, MAXASIZE)
    ensures NoneBeyond(K, i + 1)
  {
    assert Pow2(i + 1) / 2 == Pow2(i);
    EnoughSeen(K, i + 1);
  }

  lemma BestIsOptimal(K: set<Key>, n: nat, i: nat)
    requires Best(K, n, i) && NoneBeyond(K, i) && i <= MAXBITS + 1
    ensures Optimal(K, n) && n <= MAXASIZE
  {
    Pow2Max();
    if n != 0 {
      var j: nat :| j < i && n == Pow2(j) && WellUsed(K, Pow2(j));
      Pow2Grows(j, MAXBITS);
    }
  }

  /** `computesizes`: despite the early exits the size is optimal, and no slice
      beyond the last one is looked at. */
  method ComputeSizes(nums: array<nat>, total: nat, ghost K: set<Key>) returns (n: nat, na: nat)
    requires nums.Length == MAXBITS + 1 && forall i :: 0 <= i <= MAXBITS ==> nums[i] == Slice(K, i)
    requires total == CountInts(K, 0, MAXASIZE)
    ensures Optimal(K, n) && na == CountInts(K, 0, n) && n <= MAXASIZE
  {
    var i, twotoi, a := 0, 1, 0;
    n, na := 0, 0;
    ghost var top := 0;
    while twotoi / 2 < total
      invariant twotoi == Pow2(i) && i == top <= MAXBITS + 1
      invariant a == if i == 0 then 0 else CountInts(K, 0, Pow2(i - 1))
      invariant Best(K, n, i) && na == CountInts(K, 0, n)
      decreases MAXBITS + 1 - i
    {
      InSlices(i, total);
      SliceSum(K, i);
      ghost var n0 := n;
      if nums[i] > 0 {
        a := a + nums[i];
        if a > twotoi / 2 {
          n := twotoi;
          na := a;
        }
      }
      NextBest(K, n0, i, n);
      top := i + 1;
      if a == total {
        AllCounted(K, i);
        break;
      }
      i := i + 1;
      twotoi := twotoi * 2;
    }
    if top == i { EnoughSeen(K, i); }
    BestIsOptimal(K, n, top);
  }

  // ---------------------------------------------------------------- counting the keys in use

  /** The slice an integer belongs to (`ceillog2`). */
  function CeilLog2(k: nat): (r: nat)
    requires k >= 1
    ensures k <= Pow2(r) && (r == 0 || Pow2(r - 1) < k)
    decreases k
  {
    if k == 1 then 0 else 1 + CeilLog2((k + 1) / 2)
  }

  predicate InSlice(x: int, i: nat) {
    (if i == 0 then 0 else Pow2(i - 1)) < x <= Pow2(i)
  }

  lemma SliceOf(x: nat, i: nat)
    requires x >= 1
    ensures InSlice(x, i) <==> i == CeilLog2(x)
  {
    var c := CeilLog2(x);
    if i < c { Pow2Grows(i, c - 1); }
    if c < i { Pow2Grows(c, i - 1); }
  }

  lemma SliceInRange(x: nat)
    requires 1 <= x <= MAXASIZE
    ensures CeilLog2(x) <= MAXBITS
  {
    var c := CeilLog2(x);
    Pow2Max();
    if c > MAXBITS { Pow2Grows(MAXBITS, c - 1); }
  }

  /** One key more. */
  lemma {:induction false} CountAdd(K: set<Key>, k: Key, lo: nat, hi: nat)
    requires k !in K
    ensures CountInts(K + {k}, lo, hi) == CountInts(K, lo, hi) + if k.IntKey? && lo < k.i <= hi then 1 else 0
    decreases hi
  {
    if lo < hi { CountAdd(K, k, lo, hi - 1); }
  }

  ghost predicate Counted(nums: array<nat>, K: set<Key>)
    reads nums
  {
    nums.Length == MAXBITS + 1 && forall i :: 0 <= i <= MAXBITS ==> nums[i] == Slice(K, i)
  }

  /** `countint` */
  method CountInt(key: Key, nums: array<nat>, ghost K: set<Key>) returns (r: nat)
    requires Counted(nums, K) && key !in K
    modifies nums
    ensures Counted(nums, K + {key})
    ensures CountInts(K + {key}, 0, MAXASIZE) == CountInts(K, 0, MAXASIZE) + r
  {
    CountAdd(K, key, 0, MAXASIZE);
    forall i | 0 <= i <= MAXBITS
        ensures Slice(K + {key}, i) == Slice(K, i) + if key.IntKey? && InSlice(key.i, i) then 1 else 0 {
      CountAdd(K, key, if i == 0 then 0 else Pow2(i - 1), Pow2(i));
    }
    if key.IntKey? && 0 < key.i <= MAXASIZE {
      forall i: nat ensures InSlice(key.i, i) <==> i == CeilLog2(key.i) { SliceOf(key.i, i); }
      SliceInRange(key.i);
      nums[CeilLog2(key.i)] := nums[CeilLog2(key.i)] + 1;
      r := 1;
    } else {
      r := 0;
      forall i: nat | i <= MAXBITS ensures !(key.IntKey? && InSlice(key.i, i)) { Pow2Max(); Pow2Grows(i, MAXBITS); }
    }
  }

  /** The keys in use in the array part. */
  function ArrayKeys(arr: seq<Val>): (K: set<Key>)
    ensures forall i :: IntKey(i) in K <==> 1 <= i <= |arr| && arr[i - 1] != Nil
    ensures forall k :: k in K ==> k.IntKey?
  {
    set i | 1 <= i <= |arr| && arr[i - 1] != Nil :: IntKey(i)
  }

  /** Beyond the last slot there is nothing to count. */
  lemma {:induction false} NothingBeyond(arr: seq<Val>, lo: nat, hi: nat)
    requires |arr| <= lo
    ensures CountInts(ArrayKeys(arr), lo, hi) == 0
    decreases hi
  {
    if lo < hi { NothingBeyond(arr, lo, hi - 1); }
  }

  function SliceStart(lg: nat): nat {
    if lg == 0 then 0 else Pow2(lg - 1)
  }

  /** `numusearray` */
  method NumUseArray(arr: seq<Val>, nums: array<nat>) returns (ause: nat)
    requires nums.Length == MAXBITS + 1 && |arr| <= MAXASIZE && forall i :: 0 <= i <= MAXBITS ==> nums[i] == 0
    modifies nums
    ensures Counted(nums, ArrayKeys(arr)) && ause == CountInts(ArrayKeys(arr), 0, MAXASIZE)
  {
    ghost var K := ArrayKeys(arr);
    var i := 1;
    var lg, ttlg := 0, 1;
    ause := 0;
    while lg <= MAXBITS
      invariant lg <= MAXBITS + 1 && ttlg == Pow2(lg)
      invariant i == Min(SliceStart(lg), |arr|) + 1
      invariant ause == CountInts(K, 0, SliceStart(lg))
      invariant forall j :: 0 <= j < lg ==> nums[j] == Slice(K, j)
      invariant forall j :: lg <= j <= MAXBITS ==> nums[j] == 0
    {
      var lc := 0;
      var lim := ttlg;
      if lim > |arr| {
        lim := |arr|;
        if i > lim { break; }
      }
      Pow2Grows(if lg == 0 then 0 else lg - 1, lg);
      while i <= lim
        invariant SliceStart(lg) + 1 <= i <= lim + 1
        invariant lc == CountInts(K, SliceStart(lg), i - 1)
      {
        if arr[i - 1] != Nil { lc := lc + 1; }
        i := i + 1;
      }
      CountSplit(K, SliceStart(lg), lim, ttlg);
      NothingBeyond(arr, |arr|, ttlg);
      nums[lg] := nums[lg] + lc;
      ause := ause + lc;
      CountSplit(K, 0, SliceStart(lg), ttlg);
      lg, ttlg := lg + 1, ttlg * 2;
    }
    AllSeen(arr, lg);
  }

  lemma AllSeen(arr: seq<Val>, lg: nat)
    requires |arr| <= MAXASIZE && lg <= MAXBITS + 1 && (lg == MAXBITS + 1 || |arr| <= SliceStart(lg))
    ensures CountInts(ArrayKeys(arr), 0, SliceStart(lg)) == CountInts(ArrayKeys(arr), 0, MAXASIZE)
    ensures forall j: nat :: lg <= j ==> Slice(ArrayKeys(arr), j) == 0
  {
    Pow2Max();
    if lg >= 1 { Pow2Grows(lg - 1, MAXBITS); }
    CountSplit(ArrayKeys(arr), 0, SliceStart(lg), MAXASIZE);
    NothingBeyond(arr, SliceStart(lg), MAXASIZE);
    forall j: nat | lg <= j ensures Slice(ArrayKeys(arr), j) == 0 {
      if lg >= 1 { Pow2Grows(lg - 1, j - 1); }
      NothingBeyond(arr, SliceStart(j), Pow2(j));
    }
  }

  // ---------------------------------------------------------------- the hash part

  predicate Live(nodes: seq<Node>, i: int) {
    Keyed(nodes, i) && nodes[i].val != Nil
  }

  /** The keys in use from node `i` on. */
  function LiveFrom(nodes: seq<Node>, i: nat): (K: set<Key>)
    ensures forall k :: k in K <==> exists j :: i <= j && Live(nodes, j) && nodes[j].key == Some(k)
  {
    set j | i <= j < |nodes| && Live(nodes, j) :: nodes[j].key.value
  }

  lemma LiveMore(nodes: seq<Node>, i: nat, K: set<Key>)
    requires i < |nodes| && DistinctKeys(nodes) && K !! LiveFrom(nodes, 0)
    ensures !Live(nodes, i) ==> LiveFrom(nodes, i) == LiveFrom(nodes, i + 1)
    ensures Live(nodes, i) ==> var k := nodes[i].key.value;
      && k !in K + LiveFrom(nodes, i + 1) && K + LiveFrom(nodes, i) == K + LiveFrom(nodes, i + 1) + {k}
      && |LiveFrom(nodes, i)| == |LiveFrom(nodes, i + 1)| + 1
  {
    LiveStep(nodes, i);
    if Live(nodes, i) { assert nodes[i].key.value in LiveFrom(nodes, 0); }
  }

  /** One node of the hash part. */
  method CountNode(nodes: seq<Node>, i: nat, nums: array<nat>, ghost K: set<Key>) returns (used: nat, c: nat)
    requires i < |nodes| && DistinctKeys(nodes) && Empty(nodes, i)
    requires Counted(nums, K + LiveFrom(nodes, i + 1)) && K !! LiveFrom(nodes, 0)
    modifies nums
    ensures Counted(nums, K + LiveFrom(nodes, i)) && |LiveFrom(nodes, i)| == |LiveFrom(nodes, i + 1)| + used
    ensures CountInts(K + LiveFrom(nodes, i), 0, MAXASIZE) == CountInts(K + LiveFrom(nodes, i + 1), 0, MAXASIZE) + c
  {
    LiveMore(nodes, i, K);
    used, c := 0, 0;
    if nodes[i].val != Nil {
      c := CountInt(nodes[i].key.value, nums, K + LiveFrom(nodes, i + 1));
      used := 1;
    }
  }

  /** `numusehash` */
  method NumUseHash(nodes: seq<Node>, nums: array<nat>, ghost K: set<Key>) returns (totaluse: nat, ause: nat)
    requires DistinctKeys(nodes) && Counted(nums, K) && K !! LiveFrom(nodes, 0)
    requires forall i :: Empty(nodes, i)
    modifies nums
    ensures Counted(nums, K + LiveFrom(nodes, 0)) && totaluse == |LiveFrom(nodes, 0)|
    ensures CountInts(K + LiveFrom(nodes, 0), 0, MAXASIZE) == CountInts(K, 0, MAXASIZE) + ause
  {
    totaluse, ause := 0, 0;
    var i := |nodes|;
    assert LiveFrom(nodes, i) == {} && K + {} == K;
    while i > 0
      invariant 0 <= i <= |nodes|
      invariant Counted(nums, K + LiveFrom(nodes, i)) && totaluse == |LiveFrom(nodes, i)|
      invariant CountInts(K + LiveFrom(nodes, i), 0, MAXASIZE) == CountInts(K, 0, MAXASIZE) + ause
    {
      i := i - 1;
      assert Empty(nodes, i);
      var used, c := CountNode(nodes, i, nums, K);
      ause := ause + c;
      totaluse := totaluse + used;
    }
  }

  lemma LiveStep(nodes: seq<Node>, i: nat)
    requires i < |nodes| && DistinctKeys(nodes)
    ensures LiveFrom(nodes, i) == LiveFrom(nodes, i + 1) + if Live(nodes, i) then {nodes[i].key.value} else {}
    ensures Live(nodes, i) ==> nodes[i].key.value !in LiveFrom(nodes, i + 1)
  {
    forall k | k in LiveFrom(nodes, i + 1)
        ensures k in LiveFrom(nodes, i) && (Live(nodes, i) ==> k != nodes[i].key.value) {
      var j :| i + 1 <= j && Live(nodes, j) && nodes[j].key == Some(k);
      assert Keyed(nodes, j) && (Live(nodes, i) ==> Keyed(nodes, i));
    }
  }

  // ---------------------------------------------------------------- how many go where

  function IntsUpTo(K: set<Key>, n: nat): set<Key> {
    set k | k in K && k.IntKey? && 1 <= k.i <= n
  }

  lemma {:induction false} IntsCard(K: set<Key>, n: nat)
    ensures |IntsUpTo(K, n)| == CountInts(K, 0, n)
  {
    if n == 0 {
      assert IntsUpTo(K, 0) == {};
    } else {
      IntsCard(K, n - 1);
      assert IntsUpTo(K, n) == IntsUpTo(K, n - 1) + if IntKey(n) in K then {IntKey(n)} else {};
    }
  }

  /** The keys that do not fit the array part. */
  function Rest(K: set<Key>, n: nat): set<Key> {
    set k | k in K && !(k.IntKey? && 1 <= k.i <= n)
  }

  lemma RestCard(K: set<Key>, n: nat)
    ensures |Rest(K, n)| == |K| - CountInts(K, 0, n)
  {
    IntsCard(K, n);
    assert K == Rest(K, n) + IntsUpTo(K, n);
  }
}
