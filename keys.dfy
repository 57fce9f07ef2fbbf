/**
 * Upstream key selection over the credential pool: the round-robin selector
 * with its process-wide cursor (`getNextApiKey`, `apiKeyIndex`) and the
 * uniform random selector (`getRandomApiKey`). Both refuse an empty pool.
 */
module KeySelector {

  /** The outcome of one selection; `EmptyPool` is the thrown "API Key list is empty". */
  datatype Pick = Picked(key: string) | EmptyPool

  /** One round-robin selection from cursor `c`: the key picked and the cursor after it. */
  function RoundRobinStep(pool: seq<string>, c: nat): (r: (Pick, nat))
    ensures pool == [] ==> r == (EmptyPool, c)
    ensures pool != [] ==> r.0 == Picked(Rotation(pool, c, 1)[0]) && r.1 < |pool|
  {
    if pool == [] then (EmptyPool, c) else (Picked(pool[c % |pool|]), (c + 1) % |pool|)
  }

  /** The round-robin cursor, an explicitly owned component instead of a global. */
  class Rotator {
    /** `apiKeyIndex`: starts at 0 and only ever holds non-negative values. */
    var cursor: nat

    constructor ()
      ensures cursor == 0
    {
      cursor := 0;
    }

    /**
     * `getNextApiKey(pool)`: the key under the cursor (taken modulo the pool
     * size, since the pool may differ from the one the cursor last advanced
     * over), then the cursor moves one step, wrapping at the pool size.
     */
    method Next(pool: seq<string>) returns (p: Pick)
      modifies this
      ensures pool == [] ==> p == EmptyPool && cursor == old(cursor)
      ensures pool != [] ==> p == Picked(pool[old(cursor) % |pool|])
      ensures pool != [] ==> cursor == (old(cursor) + 1) % |pool| && cursor < |pool|
      ensures (p, cursor) == RoundRobinStep(pool, old(cursor))
    {
      if |pool| == 0 {
        return EmptyPool;
      }
      p := Picked(pool[cursor % |pool|]);
      cursor := (cursor + 1) % |pool|;
    }
  }

  /** The keys handed out by `k` successive round-robin selections from cursor `c`. */
  function Rotation(pool: seq<string>, c: nat, k: nat): (keys: seq<string>)
    requires pool != []
    ensures |keys| == k
    decreases k
  {
    if k == 0 then [] else [pool[c % |pool|]] + Rotation(pool, (c + 1) % |pool|, k - 1)
  }

  /** `k + 1` selections are one round-robin step followed by `k` selections from the cursor it leaves. */
  lemma RotationStep(pool: seq<string>, c: nat, k: nat)
    requires pool != []
    ensures var (p, next) := RoundRobinStep(pool, c);
      Rotation(pool, c, k + 1) == [p.key] + Rotation(pool, next, k)
  {
  }

  /** Selection number `i` (from 0) after cursor `c` is the key `i` places further on. */
  lemma {:induction false} RotationAt(pool: seq<string>, c: nat, k: nat, i: nat)
    requires pool != [] && i < k
    ensures Rotation(pool, c, k)[i] == pool[(c + i) % |pool|]
    decreases i
  {
    var n := |pool|;
    if i > 0 {
      RotationAt(pool, (c + 1) % n, k - 1, i - 1);
      ModShift(c, i, n);
    }
  }

  /** `((c + 1) % n + (i - 1)) % n == (c + i) % n`. */
  lemma ModShift(c: nat, i: nat, n: nat)
    requires n > 0 && i > 0
    ensures ((c + 1) % n + (i - 1)) % n == (c + i) % n
  {
    var qa, ra := (c + 1) / n, (c + 1) % n;
    var x := ra + (i - 1);
    var qx, rx := x / n, x % n;
    assert c + i == qa * n + x;
    assert c + i == (qa + qx) * n + rx;
    ModUnique(c + i, n, qa + qx, rx);
  }

  /** The remainder is the unique `r` in [0, n) with `x == q * n + r`. */
  lemma ModUnique(x: int, n: int, q: int, r: int)
    requires n > 0 && 0 <= r < n && x == q * n + r
    ensures x % n == r
  {
    var q', r' := x / n, x % n;
    assert x == q' * n + r';
    if q > q' {
      assert (q - q') * n == r' - r;
      MulAtLeast(q - q', n);
    } else if q < q' {
      assert (q' - q) * n == r - r';
      MulAtLeast(q' - q, n);
    }
  }

  /** A positive multiple of `n` is at least `n`. */
  lemma MulAtLeast(k: int, n: int)
    requires k >= 1 && n > 0
    ensures k * n >= n
  {
    assert k * n == (k - 1) * n + n;
    assert (k - 1) * n >= 0;
  }

  /**
   * Any `n` successive selections (n the pool size) hand out the pool rotated
   * to the cursor: every key exactly once, in pool order from the cursor on.
   */
  lemma FullTurnIsRotation(pool: seq<string>, c: nat)
    requires pool != []
    ensures Rotation(pool, c, |pool|) == pool[c % |pool|..] + pool[..c % |pool|]
    ensures multiset(Rotation(pool, c, |pool|)) == multiset(pool)
  {
    var n := |pool|;
    var s := c % n;
    var r := Rotation(pool, c, n);
    var t := pool[s..] + pool[..s];
    forall i | 0 <= i < n ensures r[i] == t[i] {
      RotationAt(pool, c, n, i);
      RotatedAt(pool, c, i);
    }
    assert r == t;
    assert pool == pool[..s] + pool[s..];
  }

  /** Index `i` of the pool rotated to cursor `c` is the key `i` places after the cursor. */
  lemma RotatedAt(pool: seq<string>, c: nat, i: nat)
    requires i < |pool|
    ensures pool[(c + i) % |pool|] == (pool[c % |pool|..] + pool[..c % |pool|])[i]
  {
    var n := |pool|;
    var s, q := c % n, c / n;
    assert c == q * n + s;
    if s + i < n {
      ModUnique(c + i, n, q, s + i);
    } else {
      assert (q + 1) * n == q * n + n;
      ModUnique(c + i, n, q + 1, s + i - n);
    }
  }

  /** From a fresh cursor the first `n` selections return the pool in order. */
  lemma FreshRotation(pool: seq<string>)
    requires pool != []
    ensures Rotation(pool, 0, |pool|) == pool
  {
    assert 0 % |pool| == 0;
    FullTurnIsRotation(pool, 0);
    assert pool[0..] + pool[..0] == pool;
  }

  /** After a full turn the selector is back where it started: selection `n + 1` repeats selection 1. */
  lemma RotationWraps(pool: seq<string>, c: nat)
    requires pool != []
    ensures Rotation(pool, c, |pool| + 1)[|pool|] == Rotation(pool, c, |pool| + 1)[0]
  {
    var n := |pool|;
    RotationAt(pool, c, n + 1, n);
    RotationAt(pool, c, n + 1, 0);
    assert c + n == (c / n + 1) * n + c % n;
    ModUnique(c + n, n, c / n + 1, c % n);
  }

  /** `Math.floor(roll * n)` for `roll = Math.random()` in [0, 1). */
  function RandomIndex(n: nat, roll: real): (i: nat)
    requires n > 0 && 0.0 <= roll < 1.0
    ensures i < n
  {
    var x := roll * n as real;
    ScaleBelow(roll, n as real);
    assert x.Floor as real <= x < n as real;
    x.Floor
  }

  /** Scaling by a factor in [0, 1) keeps a positive bound's multiple below the bound. */
  lemma ScaleBelow(roll: real, n: real)
    requires 0.0 <= roll < 1.0 && n > 0.0
    ensures 0.0 <= roll * n < n
  {
    assert n - roll * n == (1.0 - roll) * n;
    assert (1.0 - roll) * n > 0.0;
  }

  /** `getRandomApiKey(pool)` with the random draw passed in as `roll`. */
  function RandomKey(pool: seq<string>, roll: real): (p: Pick)
    requires 0.0 <= roll < 1.0
    ensures p == EmptyPool <==> pool == []
    ensures p.Picked? ==> p.key in pool
  {
    if pool == [] then EmptyPool else Picked(pool[RandomIndex(|pool|, roll)])
  }

  /** Every key of the pool can be drawn: the draw `i / n` selects key `i`. */
  lemma RandomKeyReachesEvery(pool: seq<string>, i: nat)
    requires i < |pool|
    ensures 0.0 <= i as real / |pool| as real < 1.0
    ensures RandomKey(pool, i as real / |pool| as real) == Picked(pool[i])
  {
    var n := |pool| as real;
    var roll := i as real / n;
    UnitFraction(i as real, n);
    assert roll * n == i as real;
    assert (i as real).Floor == i;
    assert RandomIndex(|pool|, roll) == i;
  }

  /** A quotient `a / b` with `0 <= a < b` lies in [0, 1). */
  lemma UnitFraction(a: real, b: real)
    requires 0.0 <= a < b
    ensures 0.0 <= a / b < 1.0
  {
    var q := a / b;
    assert q * b == a;
    assert (1.0 - q) * b == b - a;
  }
}
