/** Random draws, taken as oracle inputs.
    A raw draw is any natural number; each wrapper maps it into the range the
    library documents, so every property proved holds for every random stream. */
module Rng {
  import opened Common

  /** Python `random.randint(lo, hi)`: a value in the closed range [lo, hi].
      The caller must rule out the empty range, for which Python raises. */
  function RandInt(lo: int, hi: int, raw: nat): (r: int)
    requires lo <= hi
    ensures lo <= r <= hi
  {
    lo + raw % (hi - lo + 1)
  }

  /** Unity `Random.Range(int min, int max)`: a value in [min, max), and `min`
      itself when the range is empty. */
  function UnityRange(lo: int, hi: int, raw: nat): (r: int)
    ensures lo < hi ==> lo <= r < hi
    ensures hi <= lo ==> r == lo
  {
    if hi <= lo then lo else lo + raw % (hi - lo)
  }

  /** r is x truncated toward zero: the integer between 0 and x that is less
      than one away from x. */
  predicate TruncOf(r: int, x: real) {
    (0.0 <= x ==> 0 <= r && r as real <= x < r as real + 1.0) &&
    (x < 0.0 ==> r <= 0 && r as real - 1.0 < x <= r as real)
  }

  /** Python `int(x)` for a float: truncation toward zero. */
  function Trunc(x: real): (r: int)
    ensures TruncOf(r, x)
  {
    if x >= 0.0 then x.Floor else -((-x).Floor)
  }

  /** Truncation toward zero has one result, so TruncOf determines it. */
  lemma TruncUnique(r1: int, r2: int, x: real)
    requires TruncOf(r1, x) && TruncOf(r2, x)
    ensures r1 == r2
  {
  }

  /** Scaling by a factor in [0, 1] does not grow a non-negative value. */
  lemma ScaleDown(m: real, d: real)
    requires 0.0 <= m && 0.0 <= d <= 1.0
    ensures 0.0 <= m * d <= m
  {
    assert m * d + m * (1.0 - d) == m;
    assert 0.0 <= m * (1.0 - d);
  }

  /** Truncating a non-negative value at most n gives a count in [0, n]. */
  lemma TruncAtMost(x: real, n: int)
    requires 0.0 <= x <= n as real
    ensures 0 <= Trunc(x) <= n
  {
  }

  /** Truncating a non-negative count scaled by a factor in [0, 1] stays
      between 0 and the count. */
  lemma TruncScaled(m: int, d: real)
    requires 0 <= m && 0.0 <= d <= 1.0
    ensures 0 <= Trunc(m as real * d) <= m
  {
    ScaleDown(m as real, d);
    TruncAtMost(m as real * d, m);
  }

  /** `random.sample(pool, k)` seen as a partial Fisher-Yates draw: returns the
      k picked elements, in pick order, and what is left of the pool. With
      k == |pool| it is `random.shuffle`. */
  function Sample<T>(pool: seq<T>, k: nat, raws: nat -> nat, from: nat := 0): (r: (seq<T>, seq<T>))
    requires k <= |pool|
    ensures |r.0| == k && |r.1| == |pool| - k
    ensures multiset(r.0) + multiset(r.1) == multiset(pool)
    decreases k
  {
    if k == 0 then ([], pool)
    else
      var j := raws(from) % |pool|;
      var rest := pool[..j] + pool[j + 1..];
      assert pool == pool[..j] + [pool[j]] + pool[j + 1..];
      assert multiset(pool) == multiset([pool[j]]) + multiset(rest);
      var sub := Sample(rest, k - 1, raws, from + 1);
      ([pool[j]] + sub.0, sub.1)
  }

  lemma SampleFromPool<T>(pool: seq<T>, k: nat, raws: nat -> nat, from: nat, x: T)
    requires k <= |pool| && x in Sample(pool, k, raws, from).0
    ensures x in pool
  {
    var r := Sample(pool, k, raws, from);
    assert x in multiset(r.0);
    assert x in multiset(pool);
  }

  /** Removing one entry of a list without repeats leaves a list without
      repeats that no longer holds that entry. */
  lemma RemoveAtDistinct<T>(pool: seq<T>, j: nat)
    requires j < |pool| && Distinct(pool)
    ensures Distinct(pool[..j] + pool[j + 1..])
    ensures pool[j] !in pool[..j] + pool[j + 1..]
  {
    var rest := pool[..j] + pool[j + 1..];
    forall a, b | 0 <= a < b < |rest| ensures rest[a] != rest[b] {
      var ia := if a < j then a else a + 1;
      var ib := if b < j then b else b + 1;
      assert rest[a] == pool[ia] && rest[b] == pool[ib];
    }
    forall a | 0 <= a < |rest| ensures rest[a] != pool[j] {
      var ia := if a < j then a else a + 1;
      assert rest[a] == pool[ia];
    }
  }

  /** One draw of `Sample`: the picked entry, then a sample of the rest. */
  lemma SampleStep<T>(pool: seq<T>, k: nat, raws: nat -> nat, from: nat)
    requires 0 < k <= |pool|
    ensures var j := raws(from) % |pool|;
      Sample(pool, k, raws, from).0 == [pool[j]] + Sample(pool[..j] + pool[j + 1..], k - 1, raws, from + 1).0
  {
  }

  lemma {:induction false} SampleDistinct<T>(pool: seq<T>, k: nat, raws: nat -> nat, from: nat)
    requires k <= |pool| && Distinct(pool)
    ensures Distinct(Sample(pool, k, raws, from).0)
    decreases k
  {
    if k > 0 {
      var j := raws(from) % |pool|;
      var rest := pool[..j] + pool[j + 1..];
      RemoveAtDistinct(pool, j);
      SampleDistinct(rest, k - 1, raws, from + 1);
      var sub := Sample(rest, k - 1, raws, from + 1).0;
      if pool[j] in sub {
        SampleFromPool(rest, k - 1, raws, from + 1, pool[j]);
      }
      ConsDistinct(pool[j], sub);
      SampleStep(pool, k, raws, from);
    }
  }
}
