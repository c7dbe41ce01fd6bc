/**
  The hash of strings: which bytes it depends on, and its value on some strings.
 */
module HashLaws {
  import opened Common
  import opened Interning

  /** Both strings have the same byte at the place. */
  predicate Agree(s: string, t: string, i: int) {
    0 <= i < |s| == |t| && s[i] == t[i]
  }

  /** The place of the `k`-th byte that is mixed in, from the last one down; the rest
      that is shorter than a step is left out. */
  function Place(n: nat, step: nat, k: nat): int {
    n - 1 - k * step
  }

  lemma NextPlace(n: nat, step: nat, k: nat, k1: nat)
    requires k1 == k + 1
    ensures Place(n, step, k1) == Place(n, step, k) - step && Place(n, step, 0) == n - 1
  {
    assert k1 * step == k * step + step;
  }

  /** All bytes that are mixed in are the same in both strings. */
  ghost predicate Alike(s: string, t: string, step: nat) {
    |s| == |t| && forall j: nat :: Place(|s|, step, j) + 1 >= step ==> Agree(s, t, Place(|s|, step, j))
  }

  lemma HashNext(s: string, l1: nat, l2: nat, step: nat, h: bv32, h1: bv32)
    requires l2 + step == l1 <= |s| && step > 0 && h1 == Mix(h, s[l1 - 1])
    ensures HashFrom(s, l1, step, h) == HashFrom(s, l2, step, h1)
  {
  }

  lemma {:induction false} SameFrom(s: string, t: string, l1: nat, step: nat, k: nat, h: bv32)
    requires step > 0 && Alike(s, t, step) && l1 - 1 == Place(|s|, step, k) && l1 <= |s|
    ensures HashFrom(s, l1, step, h) == HashFrom(t, l1, step, h)
    decreases l1
  {
    if l1 >= step {
      var k1, l2 := k + 1, l1 - step;
      NextPlace(|s|, step, k, k1);
      assert Agree(s, t, Place(|s|, step, k));
      var h1 := Mix(h, s[l1 - 1]);
      HashNext(s, l1, l2, step, h, h1);
      HashNext(t, l1, l2, step, h, h1);
      SameFrom(s, t, l2, step, k1, h1);
    }
  }

  /** Strings of one length have the same hash if they agree in every byte from the
      last one down, by steps of 1 up to length 31, of 2 up to 63, and so on. */
  lemma HashSkips(s: string, t: string)
    requires Alike(s, t, |s| / 32 + 1)
    ensures HashOf(s) == HashOf(t)
  {
    NextPlace(|s|, |s| / 32 + 1, 0, 1);
    SameFrom(s, t, |s|, |s| / 32 + 1, 0, Seed(|s|));
  }

  lemma CodeOf()
    ensures ('a' as int % 256) as bv32 == 97 && ('b' as int % 256) as bv32 == 98
  {
  }

  lemma Mixes()
    ensures Mix(1, 'a') == 128 && Mix(2, 'b') == 160 && Mix(160, 'a') == 5161
  {
    CodeOf();
  }

  lemma Seeds()
    ensures Seed(0) == 0 && Seed(1) == 1 && Seed(2) == 2
  {
  }

  /** Seed, shifts and order of the bytes, on strings of one and two characters. */
  lemma HashSamples()
    ensures HashOf("") == 0 && HashOf("a") == 128 && HashOf("ab") == 5161
  {
    Mixes();
    Seeds();
    assert HashFrom("a", 0, 1, 128) == 128;
    assert HashFrom("a", 1, 1, 1) == 128;
    assert HashFrom("ab", 0, 1, 5161) == 5161;
    assert HashFrom("ab", 1, 1, 160) == 5161;
    assert HashFrom("ab", 2, 1, 2) == 5161;
  }
}
