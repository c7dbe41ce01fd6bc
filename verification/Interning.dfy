/**
  The string table (`lstring.c`): every string value is one object, found again
  through a table of buckets that is relinked in place when it grows.
 */
module Interning {
  import opened Common

  // ---------- The hash ----------

  function Mix(h: bv32, c: char): bv32 {
    h ^ ((h << 5) + (h >> 2) + (c as int % 256) as bv32)
  }

  /** What `h` becomes when every `step`-th byte down from `l1` is mixed in. */
  function HashFrom(s: string, l1: nat, step: nat, h: bv32): bv32
    requires l1 <= |s| && step > 0
    decreases l1
  {
    if l1 < step then h else HashFrom(s, l1 - step, step, Mix(h, s[l1 - 1]))
  }

  function Seed(l: nat): bv32 {
    (l % 0x1_0000_0000) as bv32
  }

  /** The unsigned value of the hash. */
  function HashOf(s: string): nat {
    HashFrom(s, |s|, |s| / 32 + 1, Seed(|s|)) as nat
  }

  /** `lmod`: the bucket of a hash; the size is a power of two. */
  function Lmod(h: nat, size: nat): (i: nat)
    requires size > 0
    ensures i < size
  {
    h % size
  }

  // ---------- The table ----------

  class TString {
    const bytes: string
    const hash: nat
    var next: TString?
    /** The collector has found it unreachable, and not swept it yet. */
    var dead: bool

    constructor (bytes: string, hash: nat)
      ensures this.bytes == bytes && this.hash == hash && !dead
    {
      this.bytes, this.hash, this.next, this.dead := bytes, hash, null, false;
    }
  }

  ghost function At(l: seq<TString>, i: nat): TString? {
    if i < |l| then l[i] else null
  }

  /** The strings of a bucket, linked in this order. */
  ghost predicate Chained(p: TString?, l: seq<TString>)
    reads l`next
  {
    && p == At(l, 0)
    && (forall i, j :: 0 <= i < j < |l| ==> l[i] != l[j])
    && (forall i {:trigger l[i].next} :: 0 <= i < |l| ==> l[i].next == At(l, i + 1))
  }

  /** The strings are where their hash says. */
  ghost predicate Placed(l: seq<TString>, i: nat, size: nat)
    requires size > 0
  {
    forall s :: s in l ==> Lmod(s.hash, size) == i
  }

  lemma ChainedTail(p: TString?, l: seq<TString>)
    requires Chained(p, l) && p != null
    ensures l != [] && l[0] == p && Chained(p.next, l[1..]) && p !in l[1..]
    ensures l == [p] + l[1..]
  {
    assert l[0].next == At(l, 1);
    forall i {:trigger l[1..][i].next} | 0 <= i < |l[1..]| ensures l[1..][i].next == At(l[1..], i + 1) {
      assert l[i + 1].next == At(l, i + 2);
    }
  }

  lemma ChainedPush(p: TString, q: TString?, l: seq<TString>)
    requires Chained(q, l) && p !in l && p.next == q
    ensures Chained(p, [p] + l)
  {
    var m := [p] + l;
    forall i {:trigger m[i].next} | 0 <= i < |m| ensures m[i].next == At(m, i + 1) {
      if i > 0 { assert m[i] == l[i - 1] && l[i - 1].next == At(l, i); }
    }
  }

  /** The buckets from `from` on, and nothing else, hold the strings of `all`. */
  ghost predicate Table(hash: seq<TString?>, buckets: seq<seq<TString>>, all: set<TString>)
    reads all`next
  {
    && |hash| == |buckets| > 0
    && (forall i, s :: 0 <= i < |buckets| && s in buckets[i] ==> s in all)
    && (forall i :: 0 <= i < |buckets| ==> Chained(hash[i], buckets[i]) && Placed(buckets[i], i, |buckets|))
    && (forall s :: s in all ==> s in buckets[Lmod(s.hash, |buckets|)])
  }

  /** One string more at the front of its bucket. */
  lemma TableMore(hash: seq<TString?>, hash': seq<TString?>, buckets: seq<seq<TString>>, all: set<TString>,
      p: TString)
    requires Table(hash, buckets, all) && p !in all
    requires var h := Lmod(p.hash, |hash|); hash' == hash[h := p] && p.next == hash[h]
    ensures var h := Lmod(p.hash, |buckets|); Table(hash', buckets[h := [p] + buckets[h]], all + {p})
  {
    var h := Lmod(p.hash, |buckets|);
    ChainedPush(p, hash[h], buckets[h]);
  }

  /** The bucket of a string is the one its hash names. */
  ghost predicate Members(b: seq<seq<TString>>, all: set<TString>) {
    && (forall i, s :: 0 <= i < |b| && s in b[i] ==> s in all && Lmod(s.hash, |b|) == i)
    && (|b| > 0 ==> forall s :: s in all ==> s in b[Lmod(s.hash, |b|)])
  }

  /** `done` are the strings of the buckets before `i`. */
  ghost predicate DoneTo(b: seq<seq<TString>>, all: set<TString>, done: set<TString>, i: nat) {
    |b| > 0 && (forall s :: s in done ==> s in all && Lmod(s.hash, |b|) < i)
        && forall s :: s in all && Lmod(s.hash, |b|) < i ==> s in done
  }

  lemma DoneMore(b: seq<seq<TString>>, all: set<TString>, done: set<TString>, done': set<TString>, i: nat)
    requires Members(b, all) && DoneTo(b, all, done, i) && i < |b| && done' == done + set s | s in b[i]
    ensures DoneTo(b, all, done', i + 1) == true
  {
  }

  /** The bucket at `i` is still to come. */
  lemma NotDone(b: seq<seq<TString>>, all: set<TString>, done: set<TString>, i: nat)
    requires Members(b, all) && DoneTo(b, all, done, i) && i < |b|
    ensures forall s :: s in b[i] ==> s !in done
  {
  }

  lemma AllMoved(b: seq<seq<TString>>, all: set<TString>, done: set<TString>)
    requires DoneTo(b, all, done, |b|)
    ensures done == all
  {
  }

  /** No string is in two buckets. */
  lemma Apart(b: seq<seq<TString>>, all: set<TString>, i: nat)
    requires Members(b, all) && i < |b|
    ensures forall j, s :: 0 <= j < |b| && j != i && s in b[j] ==> s !in b[i]
  {
    forall j, s | 0 <= j < |b| && j != i && s in b[j] ensures s !in b[i] {
      assert Lmod(s.hash, |b|) == j;
    }
  }

  lemma TableMembers(hash: seq<TString?>, b: seq<seq<TString>>, all: set<TString>)
    requires Table(hash, b, all)
    ensures Members(b, all)
  {
  }

  /** Each string knows its hash, and no two have the same bytes. */
  ghost predicate Unique(all: set<TString>) {
    && (forall s :: s in all ==> s.hash == HashOf(s.bytes))
    && (forall s, t :: s in all && t in all && s.bytes == t.bytes ==> s == t)
  }

  lemma UniqueMore(all: set<TString>, p: TString)
    requires Unique(all) && p.hash == HashOf(p.bytes) && forall s :: s in all ==> s.bytes != p.bytes
    ensures Unique(all + {p}) == true
  {
  }

  /** A string with these bytes can only be in the bucket of their hash. */
  lemma FoundHere(hash: seq<TString?>, b: seq<seq<TString>>, all: set<TString>, str: string)
    requires Table(hash, b, all) && Unique(all)
    requires forall s :: s in b[Lmod(HashOf(str), |b|)] ==> s.bytes != str
    ensures forall s :: s in all ==> s.bytes != str
  {
  }

  /** The results so far are strings of the table with the bytes asked for. */
  ghost predicate Results(r: seq<TString>, strs: seq<string>, all: set<TString>) {
    |r| == |strs| && forall k :: 0 <= k < |r| ==> r[k] in all && r[k].bytes == strs[k]
  }

  lemma ResultsSame(r: seq<TString>, strs: seq<string>, all: set<TString>)
    requires Results(r, strs, all) && Unique(all)
    ensures |r| == |strs| && forall k :: 0 <= k < |r| ==> r[k].bytes == strs[k]
    ensures forall k, m :: 0 <= k < |r| && 0 <= m < |r| ==> (r[k] == r[m] <==> strs[k] == strs[m])
  {
  }

  class StringTable {
    var hash: array<TString?>
    var nuse: nat
    /** The collector is sweeping strings: buckets must not move. */
    var sweeping: bool

    ghost var buckets: seq<seq<TString>>
    ghost var strings: set<TString>

    ghost predicate Valid()
      reads this, hash, strings`next
    {
      && Table(hash[..], buckets, strings)
      && nuse == |strings|
      && Unique(strings)
    }

    constructor (size: nat)
      requires size > 0
      ensures Valid() && strings == {} && fresh(hash) && !sweeping && hash.Length == size
    {
      hash := new TString?[size](i => null);
      nuse, sweeping := 0, false;
      buckets, strings := seq(size, i => []), {};
    }

    /** A string goes to the front of its bucket. */
    method Push(p: TString, newhash: array<TString?>, ghost nb: seq<seq<TString>>, ghost done: set<TString>)
      requires Table(newhash[..], nb, done) && p !in done
      modifies newhash, p`next
      ensures var h1 := Lmod(p.hash, |nb|); Table(newhash[..], nb[h1 := [p] + nb[h1]], done + {p}) == true
    {
      var h1 := Lmod(p.hash, newhash.Length);
      ghost var h0 := newhash[..];
      p.next := newhash[h1];
      newhash[h1] := p;
      TableMore(h0, newhash[..], nb, done, p);
    }

    /** Every string of a bucket goes to its new bucket. */
    method MoveBucket(p0: TString?, ghost bucket: seq<TString>, newhash: array<TString?>,
        ghost nb0: seq<seq<TString>>, ghost done0: set<TString>)
      returns (ghost nb: seq<seq<TString>>, ghost done: set<TString>)
      requires Table(newhash[..], nb0, done0) == true && Chained(p0, bucket)
          && forall s :: s in bucket ==> s !in done0
      modifies newhash, bucket`next
      ensures Table(newhash[..], nb, done) == true && |nb| == |nb0| && done == done0 + set s | s in bucket
    {
      var p := p0;
      nb, done := nb0, done0;
      ghost var k := 0;
      while p != null
        invariant k <= |bucket| && Chained(p, bucket[k..]) && (forall s :: s in bucket[k..] ==> s !in done)
        invariant Table(newhash[..], nb, done) && |nb| == |nb0|
        invariant done == done0 + set s | s in bucket[..k]
        decreases |bucket| - k
      {
        ChainedTail(p, bucket[k..]);
        assert bucket[k..][1..] == bucket[k + 1..] && bucket[..k + 1] == bucket[..k] + [p];
        var next := p.next;
        Push(p, newhash, nb, done);
        ghost var h1 := Lmod(p.hash, |nb|);
        nb, done := nb[h1 := [p] + nb[h1]], done + {p};
        p := next;
        k := k + 1;
      }
      assert bucket[..k] == bucket;
    }

    lemma ResultsApart(r: seq<TString>, strs: seq<string>)
      requires Valid() && Results(r, strs, strings) == true
      ensures |r| == |strs| && forall k :: 0 <= k < |r| ==> r[k].bytes == strs[k]
      ensures forall k, m :: 0 <= k < |r| && 0 <= m < |r| ==> (r[k] == r[m] <==> strs[k] == strs[m])
    {
      ResultsSame(r, strs, strings);
    }

    method SetSweeping(on: bool)
      requires Valid()
      modifies `sweeping
      ensures Valid() && sweeping == on
    {
      sweeping := on;
    }

    /** A new array without strings. */
    method EmptyBuckets(size: nat) returns (newhash: array<TString?>, ghost nb: seq<seq<TString>>)
      requires size > 0
      ensures fresh(newhash) && newhash.Length == size && |nb| == size && Table(newhash[..], nb, {}) == true
    {
      nb := seq(size, i => []);
      newhash := new TString?[size](i => null);
    }

    /** The buckets from `i` on are still chained as they were. */
    ghost predicate ToMove(b: seq<seq<TString>>, all: set<TString>, i: nat)
      requires hash.Length == |b| && Members(b, all)
      reads this, hash, all`next
    {
      forall j :: i <= j < |b| ==> Chained(hash[j], b[j])
    }

    /** The strings of one bucket go to their buckets in the new array. */
    method RelinkBucket(i: nat, newhash: array<TString?>, ghost b: seq<seq<TString>>, ghost nb0: seq<seq<TString>>,
        ghost done0: set<TString>)
      returns (ghost nb: seq<seq<TString>>, ghost done: set<TString>)
      requires i < hash.Length == |b| && newhash != hash && Members(b, strings) && ToMove(b, strings, i) == true
      requires Table(newhash[..], nb0, done0) == true && DoneTo(b, strings, done0, i) == true
      modifies newhash, strings`next
      ensures Table(newhash[..], nb, done) == true && |nb| == |nb0|
      ensures DoneTo(b, strings, done, i + 1) == true && ToMove(b, strings, i + 1) == true
    {
      NotDone(b, strings, done0, i);
      Apart(b, strings, i);
      nb, done := MoveBucket(hash[i], b[i], newhash, nb0, done0);
      DoneMore(b, strings, done0, done, i);
      forall j | i + 1 <= j < |b| ensures Chained(hash[j], b[j]) {
        assert old(Chained(hash[j], b[j]));
        forall k {:trigger b[j][k].next} | 0 <= k < |b[j]| ensures b[j][k].next == old(b[j][k].next) {
          var s: TString := b[j][k];
          assert s in b[j] && s !in b[i];
        }
      }
    }

    /** All buckets in turn. */
    method RelinkAll(newhash: array<TString?>, ghost b: seq<seq<TString>>, ghost nb0: seq<seq<TString>>)
      returns (ghost nb: seq<seq<TString>>, ghost done: set<TString>)
      requires 0 < hash.Length == |b| && newhash != hash && Members(b, strings) && ToMove(b, strings, 0) == true
      requires Table(newhash[..], nb0, {}) == true
      modifies newhash, strings`next
      ensures Table(newhash[..], nb, done) == true && |nb| == |nb0| && DoneTo(b, strings, done, |b|) == true
    {
      nb, done := nb0, {};
      var i := 0;
      while i < hash.Length
        invariant i <= hash.Length && |nb| == |nb0| && Table(newhash[..], nb, done) == true
        invariant ToMove(b, strings, i) == true && DoneTo(b, strings, done, i) == true
      {
        nb, done := RelinkBucket(i, newhash, b, nb, done);
        i := i + 1;
      }
    }

    /** Every string goes to its bucket in a new array. */
    method Relink(newsize: nat) returns (newhash: array<TString?>, ghost nb: seq<seq<TString>>)
      requires Table(hash[..], buckets, strings) == true && newsize > 0
      modifies strings`next
      ensures fresh(newhash) && newhash.Length == newsize && Table(newhash[..], nb, strings) == true
    {
      newhash, nb := EmptyBuckets(newsize);
      TableMembers(hash[..], buckets, strings);
      ghost var done;
      nb, done := RelinkAll(newhash, buckets, nb);
      AllMoved(buckets, strings, done);
    }

    /** `luaS_resize`: every string is relinked into its new bucket; none is lost
        or copied. */
    method Resize(newsize: nat)
      requires Valid() && newsize > 0
      modifies `hash, `buckets, strings`next
      ensures Valid() == true && (hash == old(hash) || fresh(hash))
      ensures hash.Length == if sweeping then old(hash.Length) else newsize
    {
      if sweeping { return; }
      var newhash;
      newhash, buckets := Relink(newsize);
      hash := newhash;
    }

    /** The loop of `luaS_newlstr` that computes the hash. */
    method Hash(str: string) returns (r: nat)
      ensures r == HashOf(str)
    {
      var l := |str|;
      var h := Seed(l);
      var step := l / 32 + 1;
      var l1 := l;
      while l1 >= step
        invariant 0 <= l1 <= l && HashFrom(str, l1, step, h) == HashFrom(str, l, step, Seed(l))
      {
        h := Mix(h, str[l1 - 1]);
        l1 := l1 - step;
      }
      r := h as nat;
    }

    /** A new string at the front of its bucket. */
    method Chain(ts: TString)
      requires Valid() && ts.hash == HashOf(ts.bytes) && ts !in strings
      requires forall s :: s in strings ==> s.bytes != ts.bytes
      modifies `nuse, `buckets, `strings, hash, ts`next
      ensures Valid() == true && strings == old(strings) + {ts}
    {
      UniqueMore(strings, ts);
      assert |strings + {ts}| == nuse + 1;
      Push(ts, hash, buckets, strings);
      nuse := nuse + 1;
      ghost var h1 := Lmod(ts.hash, |buckets|);
      Record(buckets[h1 := [ts] + buckets[h1]], strings + {ts});
    }

    ghost method Record(b: seq<seq<TString>>, all: set<TString>)
      requires Table(hash[..], b, all) == true && Unique(all) == true && nuse == |all|
      modifies `buckets, `strings
      ensures Valid() == true && buckets == b && strings == all
    {
      buckets, strings := b, all;
    }

    /** A new string in front of its bucket. */
    method Add(str: string, h: nat) returns (ts: TString)
      requires Valid() == true && h == HashOf(str) && forall s :: s in strings ==> s.bytes != str
      modifies `nuse, `buckets, `strings, hash
      ensures Valid() == true && fresh(ts) && ts.bytes == str && !ts.dead && strings == old(strings) + {ts}
    {
      ts := new TString(str, h);
      Chain(ts);
    }

    /** More strings than buckets: twice the buckets. */
    method GrowIfCrowded()
      requires Valid() == true
      modifies `hash, `buckets, strings`next
      ensures Valid() == true && (hash == old(hash) || fresh(hash))
    {
      if nuse > hash.Length && hash.Length <= MAX_INT / 2 {
        Resize(hash.Length * 2);
      }
    }

    /** `newlstr`: a string not in the table yet. */
    method Newlstr(str: string, h: nat) returns (ts: TString)
      requires Valid() == true && h == HashOf(str) && forall s :: s in strings ==> s.bytes != str
      modifies `hash, `nuse, `buckets, `strings, hash, strings`next
      ensures Valid() == true && (hash == old(hash) || fresh(hash))
      ensures fresh(ts) && ts.bytes == str && !ts.dead && strings == old(strings) + {ts}
    {
      ts := Add(str, h);
      GrowIfCrowded();
    }

    /** The search along a bucket: there is a string with these bytes exactly when
        it is found here. */
    method Find(str: string, h: nat) returns (o: TString?)
      requires Valid() && h == HashOf(str)
      ensures o != null ==> o in strings && o.bytes == str
      ensures o == null ==> forall s :: s in strings ==> s.bytes != str
    {
      var h1 := Lmod(h, hash.Length);
      ghost var l := buckets[h1];
      ghost var k := 0;
      o := hash[h1];
      while o != null
        invariant k <= |l| && o == At(l, k)
        invariant forall i :: 0 <= i < k ==> l[i].bytes != str
        decreases |l| - k
      {
        assert l[k].next == At(l, k + 1);
        if |o.bytes| == |str| && o.bytes == str { return; }
        o := o.next;
        k := k + 1;
      }
      FoundHere(hash[..], buckets, strings, str);
    }

    /** A string that is found is not dead any more (`changewhite`). */
    method FindLive(str: string, h: nat) returns (o: TString?)
      requires Valid() == true && h == HashOf(str)
      modifies strings`dead
      ensures Valid() == true
      ensures o != null ==> o in strings && o.bytes == str && !o.dead
      ensures o == null ==> forall s :: s in strings ==> s.bytes != str
      ensures forall s :: s in strings && s != o ==> s.dead == old(s.dead)
    {
      o := Find(str, h);
      if o != null && o.dead { o.dead := false; }
    }

    /** `luaS_newlstr`: the one string object with these bytes, alive again if it
        was dead. */
    method NewLstr(str: string) returns (ts: TString)
      requires Valid() == true
      modifies `hash, `nuse, `buckets, `strings, hash, strings`next, strings`dead
      ensures Valid() == true && (hash == old(hash) || fresh(hash))
      ensures ts.bytes == str && strings == old(strings) + {ts} && (ts in old(strings) || fresh(ts))
      ensures !ts.dead && forall s :: s in old(strings) && s != ts ==> s.dead == old(s.dead)
      ensures ts in old(strings) <==> exists s :: s in old(strings) && s.bytes == str
    {
      var h := Hash(str);
      var o := FindLive(str, h);
      if o != null {
        ts := o;
      } else {
        ts := Newlstr(str, h);
      }
    }
  }

  // ---------- Runs ----------

  /** `Die(k)`: the collector finds the `k`-th result unreachable. */
  datatype Op = Intern(str: string) | Grow(newsize: nat) | Sweep(on: bool) | Die(k: nat)

  /** The strings interned, in order. */
  function Interned(ops: seq<Op>): seq<string> {
    if ops == [] then [] else
      var o := ops[|ops| - 1];
      Interned(ops[..|ops| - 1]) + if o.Intern? then [o.str] else []
  }

  lemma ResultsMore(r: seq<TString>, strs: seq<string>, all: set<TString>, s: TString, str: string)
    requires Results(r, strs, all) && s.bytes == str
    ensures Results(r + [s], strs + [str], all + {s}) == true
  {
  }

  method Do(t: StringTable, op: Op, r0: seq<TString>, ghost strs: seq<string>) returns (r: seq<TString>)
    requires t.Valid() == true && Results(r0, strs, t.strings) == true && (op.Grow? ==> op.newsize > 0)
    modifies t, t.hash, t.strings`next, t.strings`dead
    ensures t.Valid() == true && fresh(t.strings - old(t.strings)) && (t.hash == old(t.hash) || fresh(t.hash))
    ensures Results(r, if op.Intern? then strs + [op.str] else strs, t.strings) == true
  {
    r := r0;
    match op {
      case Intern(str) =>
        ghost var all := t.strings;
        var s := t.NewLstr(str);
        ResultsMore(r, strs, all, s, str);
        r := r + [s];
      case Grow(n) => t.Resize(n);
      case Sweep(on) => t.SetSweeping(on);
      case Die(k) =>
        if k < |r| {
          assert r[k] in t.strings;
          r[k].dead := true;
        }
    }
  }

  method RunOn(t: StringTable, ops: seq<Op>) returns (r: seq<TString>)
    requires t.Valid() == true && forall i :: 0 <= i < |ops| && ops[i].Grow? ==> ops[i].newsize > 0
    modifies t, t.hash, t.strings`next, t.strings`dead
    ensures t.Valid() == true && fresh(t.strings - old(t.strings)) && (t.hash == old(t.hash) || fresh(t.hash))
    ensures Results(r, Interned(ops), t.strings) == true
    decreases |ops|
  {
    if ops == [] { return []; }
    var n := |ops| - 1;
    r := RunOn(t, ops[..n]);
    ghost var strs := Interned(ops[..n]);
    r := Do(t, ops[n], r, strs);
    assert strs + [] == strs;
  }

  /** Any sequence of interns, resizes, deaths and sweeps going on or not: each intern
      gives a string with its bytes, and two results are the same object exactly
      when their bytes are equal. */
  method Run(size: nat, ops: seq<Op>) returns (r: seq<TString>)
    requires size > 0 && forall i :: 0 <= i < |ops| && ops[i].Grow? ==> ops[i].newsize > 0
    ensures |r| == |Interned(ops)| && forall k :: 0 <= k < |r| ==> r[k].bytes == Interned(ops)[k]
    ensures forall k, m :: 0 <= k < |r| && 0 <= m < |r| ==> (r[k] == r[m] <==> Interned(ops)[k] == Interned(ops)[m])
  {
    var t := new StringTable(size);
    r := RunOn(t, ops);
    t.ResultsApart(r, Interned(ops));
  }
}
