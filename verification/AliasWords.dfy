/** One 64-bit word gives both the bucket and the coin of a sample. How far the count of words
    that pick a backend is from its share of the (bucket, coin) pairs. */
module AliasWords {
  import opened Basics
  import opened AliasTable

  const COINS_REPEAT := 256

  /** Words in [from, from + len) that pick `b`. */
  function WordsFor(table: seq<Slot>, b: BackendId, from: nat, len: nat): nat
    requires table != []
  {
    if len == 0 then 0
    else WordsFor(table, b, from, len - 1) + (if PickWord(table, from + len - 1) == b then 1 else 0)
  }

  /** Buckets below `k` that yield `b` on this coin. */
  function BucketsFor(table: seq<Slot>, b: BackendId, coin: nat, k: nat): nat
    requires k <= |table|
  {
    if k == 0 then 0
    else BucketsFor(table, b, coin, k - 1) + (if Pick(table, k - 1, coin) == b then 1 else 0)
  }

  /** Whether number `x`, taken as a bucket, yields `b` on this coin. */
  function Hit(table: seq<Slot>, b: BackendId, coin: nat, x: nat): nat
    requires table != []
  {
    if Pick(table, x % |table|, coin) == b then 1 else 0
  }

  /** Numbers in [from, from + len) that do. */
  function Hits(table: seq<Slot>, b: BackendId, coin: nat, from: nat, len: nat): nat
    requires table != []
  {
    if len == 0 then 0 else Hits(table, b, coin, from, len - 1) + Hit(table, b, coin, from + len - 1)
  }

  // ----- consecutive numbers go round the buckets

  lemma {:induction false} ModUnique(x: nat, n: nat, q: nat, t: nat)
    requires n > 0 && x == n * q + t && t < n
    ensures x % n == t
  {
    var d, m := x / n, x % n;
    assert x == n * d + m;
    if q > d {
      TimesMore(n, d, q);
    } else if d > q {
      TimesMore(n, q, d);
    }
  }

  lemma {:induction false} TimesMore(n: nat, a: nat, b: nat)
    requires a < b
    ensures n * b >= n * a + n
  {
    if b > a + 1 {
      TimesMore(n, a, b - 1);
    }
    assert n * b == n * (b - 1) + n;
  }

  lemma {:induction false} RoundAgain(x: nat, n: nat)
    requires n > 0
    ensures (x + n) % n == x % n
  {
    assert x == n * (x / n) + x % n;
    assert n * (x / n + 1) == n * (x / n) + n;
    ModUnique(x + n, n, x / n + 1, x % n);
  }

  lemma {:induction false} HitsSplit(table: seq<Slot>, b: BackendId, coin: nat, from: nat, k: nat, len: nat)
    requires table != []
    ensures Hits(table, b, coin, from, k + len) == Hits(table, b, coin, from, k) + Hits(table, b, coin, from + k, len)
  {
    hide Hit;
    if len > 0 {
      HitsSplit(table, b, coin, from, k, len - 1);
    }
  }

  lemma {:induction false} HitsStart(table: seq<Slot>, b: BackendId, coin: nat, k: nat)
    requires k <= |table| && table != []
    ensures Hits(table, b, coin, 0, k) == BucketsFor(table, b, coin, k)
  {
    if k > 0 {
      HitsStart(table, b, coin, k - 1);
      ModUnique(k - 1, |table|, 0, k - 1);
    }
  }

  /** Any n consecutive numbers meet each bucket once. */
  lemma {:induction false} FullCircle(table: seq<Slot>, b: BackendId, coin: nat, from: nat)
    requires table != []
    ensures Hits(table, b, coin, from, |table|) == BucketsFor(table, b, coin, |table|)
  {
    var n := |table|;
    if from == 0 {
      HitsStart(table, b, coin, n);
    } else {
      FullCircle(table, b, coin, from - 1);
      HitsSplit(table, b, coin, from - 1, 1, n);
      HitsSplit(table, b, coin, from - 1, n, 1);
      SameHit(table, b, coin, from - 1);
      OneHit(table, b, coin, from - 1);
      OneHit(table, b, coin, from - 1 + n);
    }
  }

  lemma {:induction false} SameHit(table: seq<Slot>, b: BackendId, coin: nat, x: nat)
    requires table != []
    ensures Hit(table, b, coin, x + |table|) == Hit(table, b, coin, x)
  {
    RoundAgain(x, |table|);
  }

  lemma {:induction false} OneHit(table: seq<Slot>, b: BackendId, coin: nat, x: nat)
    requires table != []
    ensures Hits(table, b, coin, x, 1) == Hit(table, b, coin, x)
  {
    hide Hit;
    assert Hits(table, b, coin, x, 0) == 0;
  }

  lemma {:induction false} Circles(table: seq<Slot>, b: BackendId, coin: nat, from: nat, q: nat)
    requires table != []
    ensures Hits(table, b, coin, from, q * |table|) == q * BucketsFor(table, b, coin, |table|)
  {
    hide Hit, BucketsFor, Hits;
    var n, each := |table|, BucketsFor(table, b, coin, |table|);
    if q == 0 {
      NoHits(table, b, coin, from);
    } else {
      Circles(table, b, coin, from, q - 1);
      assert q * n == (q - 1) * n + n && q * each == (q - 1) * each + each;
      HitsSplit(table, b, coin, from, (q - 1) * n, n);
      FullCircle(table, b, coin, from + (q - 1) * n);
    }
  }

  lemma {:induction false} NoHits(table: seq<Slot>, b: BackendId, coin: nat, from: nat)
    requires table != []
    ensures Hits(table, b, coin, from, 0) == 0
  {
  }

  /** In any stretch the hits are those of its whole circles and at most one circle more. */
  lemma {:induction false} HitsBounded(table: seq<Slot>, b: BackendId, coin: nat, from: nat, len: nat)
    requires table != []
    ensures var q, each := len / |table|, BucketsFor(table, b, coin, |table|);
            q * each <= Hits(table, b, coin, from, len) <= q * each + each
  {
    hide Hit, BucketsFor, Hits;
    var n, q, rest := |table|, len / |table|, len % |table|;
    assert len == q * n + rest;
    Circles(table, b, coin, from, q);
    HitsSplit(table, b, coin, from, q * n, rest);
    HitsSplit(table, b, coin, from + q * n, rest, n - rest);
    FullCircle(table, b, coin, from + q * n);
  }

  // ----- words by their high half

  lemma {:induction false} BlockHits(table: seq<Slot>, b: BackendId, h: nat, len: nat)
    requires table != [] && len <= U32_LIMIT
    ensures WordsFor(table, b, h * U32_LIMIT, len) == Hits(table, b, h % SCALE, h * U32_LIMIT, len)
  {
    if len > 0 {
      BlockHits(table, b, h, len - 1);
      assert (h * U32_LIMIT + len - 1) / U32_LIMIT == h;
    }
  }

  lemma {:induction false} WordsSplit(table: seq<Slot>, b: BackendId, k: nat, len: nat)
    requires table != []
    ensures WordsFor(table, b, 0, k + len) == WordsFor(table, b, 0, k) + WordsFor(table, b, k, len)
  {
    hide PickWord;
    if len > 0 {
      WordsSplit(table, b, k, len - 1);
    }
  }

  /** The (bucket, coin) pairs that yield `b` over the coins of the high halves below `m`. */
  function PairsFor(table: seq<Slot>, b: BackendId, m: nat): nat {
    if m == 0 then 0 else PairsFor(table, b, m - 1) + BucketsFor(table, b, (m - 1) % SCALE, |table|)
  }

  lemma {:induction false} BlocksBounded(table: seq<Slot>, b: BackendId, m: nat)
    requires table != []
    ensures var q := U32_LIMIT / |table|;
            q * PairsFor(table, b, m) <= WordsFor(table, b, 0, m * U32_LIMIT) <= (q + 1) * PairsFor(table, b, m)
  {
    hide WordsFor, BucketsFor, Hits;
    var q := U32_LIMIT / |table|;
    if m == 0 {
      NoWords(table, b);
    } else {
      var h := m - 1;
      var before, each := PairsFor(table, b, h), BucketsFor(table, b, h % SCALE, |table|);
      BlocksBounded(table, b, h);
      WordsSplit(table, b, h * U32_LIMIT, U32_LIMIT);
      BlockHits(table, b, h, U32_LIMIT);
      HitsBounded(table, b, h % SCALE, h * U32_LIMIT, U32_LIMIT);
      Spread(q, before, each);
      Spread(q + 1, before, each);
    }
  }

  lemma {:induction false} Spread(q: nat, a: nat, b: nat)
    ensures q * (a + b) == q * a + q * b
  {
  }

  lemma {:induction false} NoWords(table: seq<Slot>, b: BackendId)
    requires table != []
    ensures WordsFor(table, b, 0, 0) == 0
  {
  }

  // ----- coins come round 256 times

  lemma {:induction false} CoinsRoundAgain(table: seq<Slot>, b: BackendId, j: nat, c: nat)
    requires c <= SCALE
    ensures PairsFor(table, b, j * SCALE + c) == PairsFor(table, b, j * SCALE) + PairsFor(table, b, c)
  {
    hide BucketsFor;
    if c > 0 {
      CoinsRoundAgain(table, b, j, c - 1);
      SameCoin(j, c - 1);
    }
  }

  lemma {:induction false} SameCoin(j: nat, c: nat)
    requires c < SCALE
    ensures (j * SCALE + c) % SCALE == c && c % SCALE == c
  {
  }

  lemma {:induction false} AllCoins(table: seq<Slot>, b: BackendId, j: nat)
    ensures PairsFor(table, b, j * SCALE) == j * PairsFor(table, b, SCALE)
  {
    hide PairsFor;
    if j == 0 {
      NoPairs(table, b);
    } else {
      AllCoins(table, b, j - 1);
      CoinsRoundAgain(table, b, j - 1, SCALE);
      assert (j - 1) * SCALE + SCALE == j * SCALE;
    }
  }

  lemma {:induction false} NoPairs(table: seq<Slot>, b: BackendId)
    ensures PairsFor(table, b, 0) == 0
  {
  }

  // ----- pairs by coin are pairs by bucket

  /** Pairs of a bucket below `k` and a coin below `n`, counted bucket by bucket. */
  function ByBucket(table: seq<Slot>, b: BackendId, k: nat, n: nat): nat
    requires k <= |table|
  {
    if k == 0 then 0 else ByBucket(table, b, k - 1, n) + CoinsFor(table, k - 1, b, n)
  }

  lemma {:induction false} OneMoreCoin(table: seq<Slot>, b: BackendId, k: nat, n: nat)
    requires k <= |table| && n > 0
    ensures ByBucket(table, b, k, n) == ByBucket(table, b, k, n - 1) + BucketsFor(table, b, n - 1, k)
  {
    if k > 0 {
      OneMoreCoin(table, b, k - 1, n);
    }
  }

  lemma {:induction false} CountTwice(table: seq<Slot>, b: BackendId, n: nat)
    requires n <= SCALE
    ensures PairsFor(table, b, n) == ByBucket(table, b, |table|, n)
  {
    hide BucketsFor;
    if n == 0 {
      NoCoins(table, b, |table|);
    } else {
      CountTwice(table, b, n - 1);
      OneMoreCoin(table, b, |table|, n);
      assert (n - 1) % SCALE == n - 1;
    }
  }

  lemma {:induction false} NoCoins(table: seq<Slot>, b: BackendId, k: nat)
    requires k <= |table|
    ensures ByBucket(table, b, k, 0) == 0
  {
    if k > 0 {
      NoCoins(table, b, k - 1);
    }
  }

  lemma {:induction false} AllDraws(table: seq<Slot>, b: BackendId, k: nat)
    requires k <= |table|
    ensures ByBucket(table, b, k, SCALE) == DrawsFor(table, b, k)
  {
    hide CoinsFor;
    if k > 0 {
      AllDraws(table, b, k - 1);
    }
  }

  lemma {:induction false} PairsAreMass(table: seq<Slot>, b: BackendId)
    requires forall i :: 0 <= i < |table| ==> table[i].prob <= SCALE
    ensures PairsFor(table, b, U32_LIMIT) == COINS_REPEAT * Mass(table, b)
  {
    hide PairsFor, ByBucket, DrawsFor, Mass;
    AllCoins(table, b, COINS_REPEAT);
    CountTwice(table, b, SCALE);
    AllDraws(table, b, |table|);
    MassCountsDraws(table, b);
  }

  /** Of all 2^64 words, those that pick `b` are its mass times 2^40 / n, give or take 256 for
      each pair: a relative deviation below n / 2^32. Stated without division. */
  lemma {:induction false} WordsFollowMass(table: seq<Slot>, b: BackendId)
    requires table != [] && forall i :: 0 <= i < |table| ==> table[i].prob <= SCALE
    ensures var n, m, words := |table|, Mass(table, b), WordsFor(table, b, 0, U64_LIMIT);
            && (U32_LIMIT - n) * (COINS_REPEAT * m) <= n * words
            && n * words <= (U32_LIMIT + n) * (COINS_REPEAT * m)
  {
    hide WordsFor, PairsFor, Mass;
    BlocksBounded(table, b, U32_LIMIT);
    PairsAreMass(table, b);
    MassNatural(table, b);
    WordArithmetic(|table|, COINS_REPEAT * Mass(table, b), WordsFor(table, b, 0, U64_LIMIT));
  }

  lemma {:induction false} MassNatural(table: seq<Slot>, b: BackendId)
    requires forall i :: 0 <= i < |table| ==> table[i].prob <= SCALE
    ensures Mass(table, b) >= 0
  {
    MassCountsDraws(table, b);
  }

  lemma {:induction false} WordArithmetic(n: nat, p: nat, words: nat)
    requires n > 0 && U32_LIMIT / n * p <= words <= (U32_LIMIT / n + 1) * p
    ensures (U32_LIMIT - n) * p <= n * words <= (U32_LIMIT + n) * p
  {
    var q, r := U32_LIMIT / n, U32_LIMIT % n;
    assert U32_LIMIT == n * q + r;
    TimesMonotone(n, q * p, words);
    TimesMonotone(n, words, (q + 1) * p);
    assert n * (q * p) == (n * q) * p;
    assert n * ((q + 1) * p) == (n * q + n) * p;
    TimesMonotone(p, U32_LIMIT - n, n * q);
    TimesMonotone(p, n * q + n, U32_LIMIT + n);
  }

  lemma {:induction false} TimesMonotone(k: nat, a: int, b: int)
    requires a <= b
    ensures k * a <= k * b
  {
  }
}
