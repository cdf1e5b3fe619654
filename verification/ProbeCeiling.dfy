/** Calls of the whole stack that take a half-open backend past its probe ceiling, for every
    configuration in which hedges can occur. */
module ProbeCeiling {
  import opened Basics
  import opened Breaker
  import opened Routing
  import opened StackRuns
  import opened HedgeBudget
  import opened Probes
  import opened RouterStack
  import AliasTable
  import P2
  import Trie

  /** A request with an empty body: no chunk is hashed. */
  const EMPTY_REQUEST := Request(0, [])

  // ----- what the layers answer

  /** Without hashes the KV layer always asks the weighted router. */
  lemma {:induction false} EmptyBodyIsDeferred(
    kv: KvAwareRouter, before: map<seq<nat>, BackendId>, after: map<seq<nat>, BackendId>, pool: seq<BackendId>,
    s: Signals, rng: nat -> nat, d: Decision, hit: int, miss: int, rejected: int)
    requires kv.inner.Valid()
    requires kv.RoutedAs(before, after, EMPTY_REQUEST, pool, s, rng, d, hit, miss, rejected)
    ensures kv.InnerChoice(pool, s, rng, d)
  {
    hide Chosen;
  }

  /** The weighted router sends to the first sample if that is cool. */
  lemma {:induction false} FirstSampleIsChosen(
    kv: KvAwareRouter, pool: seq<BackendId>, s: Signals, rng: nat -> nat, d: Decision, b: BackendId)
    requires kv.inner.Valid() && pool != [] && kv.InnerChoice(pool, s, rng, d)
    requires kv.inner.Sample(rng(0)) == b && Cool(s, b)
    ensures d == Send(b)
  {
    hide Hot;
    var cands := kv.inner.Drawn(rng) + pool;
    assert cands[0] == b && b in cands;
  }

  lemma {:induction false} DefaultIsCool(s: Signals, b: BackendId, state: CircuitState)
    requires Get(s, b) == DEFAULT_SIGNAL.(circuit := state) && state != Open
    ensures Cool(s, b)
  {
  }

  // ----- a constant stream of durations

  function Steady(ms: real, m: nat): (h: seq<real>)
    ensures |h| == m && forall x <- h :: x == ms
  {
    seq(m, _ => ms)
  }

  lemma {:induction false} SteadySnoc(ms: real, m: nat)
    ensures Steady(ms, m + 1) == Steady(ms, m) + [ms]
  {
  }

  /** A backend that was always slow, often enough, has a slow estimate. */
  lemma {:induction false} SteadyIsSlow(
    cfg: HedgedConfig, estimators: map<BackendId, P2.Estimator>, durations: map<BackendId, seq<real>>,
    b: BackendId, ms: real, m: nat)
    requires Tracked(cfg, estimators, durations) && b in durations && durations[b] == Steady(ms, m)
    requires m >= 5 && m >= cfg.warmup && cfg.warmup < U32_LIMIT && ms >= cfg.minThresholdMs
    ensures Slow(estimators, cfg, b)
  {
    hide P2.ObserveAll;
    var h := durations[b];
    P2.QuantileInRange(cfg.quantile, h);
    P2.ExactCount(cfg.quantile, h);
  }

  // ----- room in the budget

  /** `k` decisions nobody wants hedged, then `i` that are. */
  function Demand(k: nat, i: nat): (wants: seq<bool>)
    ensures |wants| == k + i
  {
    if i == 0 then seq(k, _ => false) else Demand(k, i - 1) + [true]
  }

  lemma {:induction false} RoomLeft(f: real, k: nat, n: nat, i: nat)
    requires f > 0.0 && i < n && n as real <= Share(f, k)
    ensures Room(f, i, k + i + 1)
  {
    hide Share;
    ShareGrows(f, k, k + i + 1);
  }

  /** With enough quiet decisions first, the budget lets `n` hedges in a row through. */
  lemma {:induction false} DemandIsMet(f: real, k: nat, n: nat, i: nat)
    requires f > 0.0 && i <= n && n as real <= Share(f, k)
    ensures Fired(f, Demand(k, i)) == i
  {
    hide Share, Room, Fired;
    if i == 0 {
      NoDemand(f, Demand(k, 0));
    } else {
      DemandIsMet(f, k, n, i - 1);
      RoomLeft(f, k, n, i - 1);
      FiredSnoc(f, Demand(k, i - 1), true);
    }
  }

  lemma {:induction false} ShareGrows(f: real, a: nat, b: nat)
    requires f > 0.0 && a <= b
    ensures Share(f, a) <= Share(f, b)
  {
  }

  /** How many quiet decisions that takes. */
  lemma {:induction false} EnoughQuiet(f: real, n: nat, k: nat)
    requires f > 0.0 && k as real >= n as real / f
    ensures n as real <= Share(f, k)
  {
    assert n as real / f * f == n as real;
    assert k as real * f >= n as real / f * f;
  }

  // ----- the second choice

  /** The first pool member other than `b`. */
  function FirstOther(pool: seq<BackendId>, b: BackendId): (a: BackendId)
    requires exists x <- pool :: x != b
    ensures a in pool && a != b
  {
    if pool[0] != b then pool[0]
    else
      assert pool == [pool[0]] + pool[1..];
      FirstOther(pool[1..], b)
  }

  lemma {:induction false} FirstOtherIsFirst(pool: seq<BackendId>, b: BackendId, i: nat)
    requires i < |pool| && pool[i] != b && forall k :: 0 <= k < i ==> pool[k] == b
    ensures (exists x <- pool :: x != b) && FirstOther(pool, b) == pool[i]
  {
    assert pool[i] in pool;
    if i > 0 {
      FirstOtherIsFirst(pool[1..], b, i - 1);
    }
  }

  /** With every other backend closed a hedge goes to the first of them. */
  lemma {:induction false} HedgeGoesToFirstOther(pool: seq<BackendId>, s: Signals, b: BackendId, d: Decision)
    requires Promoted(b, pool, s, d) && forall x <- pool :: x != b ==> Get(s, x).circuit == Closed
    ensures (exists x <- pool :: x != b) && d == Hedge([b, FirstOther(pool, b)])
  {
    hide FirstOther;
    var i :| 0 <= i < |pool| && pool[i] == d.backends[1] && Backs(s, b, pool[i])
             && forall k :: 0 <= k < i ==> !Backs(s, b, pool[k]);
    FirstOtherIsFirst(pool, b, i);
    assert d.backends == [b, FirstOther(pool, b)];
  }

  // ----- the three phases

  /** What the stack answers to an empty request when its first sample `b` is admitted. */
  lemma {:induction false} FirstSampleAnswers(
    kv: KvAwareRouter, before: map<seq<nat>, BackendId>, after: map<seq<nat>, BackendId>, pool: seq<BackendId>,
    s: Signals, rng: nat -> nat, d: Decision, hit: int, miss: int, rejected: int, b: BackendId)
    requires kv.inner.Valid() && pool != [] && kv.inner.Sample(rng(0)) == b
    requires kv.RoutedAs(before, after, EMPTY_REQUEST, pool, s, rng, d, hit, miss, rejected)
    requires Get(s, b) == DEFAULT_SIGNAL.(circuit := Get(s, b).circuit) && Get(s, b).circuit != Open
    ensures d == Send(b)
  {
    hide Chosen;
    EmptyBodyIsDeferred(kv, before, after, pool, s, rng, d, hit, miss, rejected);
    DefaultIsCool(s, b, Get(s, b).circuit);
    FirstSampleIsChosen(kv, pool, s, rng, d, b);
  }

  lemma {:induction false} NewIsClosed(c: Config, calls: seq<Call>, x: BackendId, now: nat)
    requires BreakerOf(c, calls, x) == NEW_ENTRY
    ensures Presented(c, Shown(c, calls, x, now)) == Closed
  {
    hide BreakerOf;
  }

  lemma {:induction false} NothingHeard(
    cfg: HedgedConfig, estimators: map<BackendId, P2.Estimator>, durations: map<BackendId, seq<real>>,
    b: BackendId, pool: seq<BackendId>, s: Signals)
    requires Tracked(cfg, estimators, durations) && durations == map[]
    ensures !Wanted(estimators, cfg, b, pool, s)
  {
  }

  /** The stack stands: its weighted router's first sample is `b`. */
  ghost predicate Ready(arbiter: CircuitBreakerArbiter, b: BackendId)
    reads arbiter, arbiter.inner, arbiter.inner.inner, arbiter.inner.inner.trie
  {
    arbiter.Valid() && Legal(arbiter.cfg) && b in arbiter.pool && arbiter.inner.inner.inner.Sample(0) == b
  }

  /** A request that finds `b` closed and nothing known of its speed is sent to it. */
  method SendOne(arbiter: CircuitBreakerArbiter, pool: seq<BackendId>, ghost b: BackendId, ghost i: nat)
    requires Ready(arbiter, b) && arbiter.pool == pool
    requires arbiter.calls == Repeat(Routed(0, Send(b)), i)
    requires arbiter.inner.wants == Demand(i, 0) && arbiter.inner.durations == map[]
    modifies arbiter, arbiter.inner, arbiter.inner.inner, arbiter.inner.inner.trie
    ensures Ready(arbiter, b)
    ensures arbiter.calls == Repeat(Routed(0, Send(b)), i + 1)
    ensures arbiter.inner.wants == Demand(i + 1, 0) && arbiter.inner.durations == map[]
  {
    hide SoundRun, BreakerOf, Shown, Chosen, Tracked, Fired, Wanted, Promoted, Presented, Safe, HedgeCount, Repeat;
    hide Trie.Holds, Trie.LongestMatch, Trie.Recorded;
    Sending(arbiter.cfg, b, i, b);
    NewIsClosed(arbiter.cfg, arbiter.calls, b, 0);
    NothingHeard(arbiter.inner.cfg, arbiter.inner.estimators, arbiter.inner.durations, b, pool, []);
    RepeatSnoc(Routed(0, Send(b)), i);
    FiredSnoc(arbiter.inner.cfg.maxFraction, Demand(i, 0), false);
    var rng := (_: nat) => 0;
    ghost var kv := arbiter.inner.inner;
    var d, merged, chosen := arbiter.Route(EMPTY_REQUEST, pool, [], rng, 0);
    FirstSampleAnswers(kv, old(kv.trie.recorded), kv.trie.recorded, pool, merged, rng, chosen,
                       kv.hits - old(kv.hits), kv.misses - old(kv.misses),
                       kv.breakerRejections - old(kv.breakerRejections), b);
    NothingHeard(arbiter.inner.cfg, arbiter.inner.estimators, arbiter.inner.durations, b, pool, merged);
    assert Demand(i + 1, 0) == Demand(i, 0) + [false];
  }

  /** A slow failure of `b`. */
  method FailOne(arbiter: CircuitBreakerArbiter, b: BackendId, ms: real, ghost k: nat, ghost j: nat)
    requires Ready(arbiter, b)
    requires arbiter.calls == Opening(b, k, j) && arbiter.inner.wants == Demand(k, 0)
    requires arbiter.inner.durations == if j == 0 then map[] else map[b := Steady(ms, j)]
    modifies arbiter, arbiter.inner
    ensures Ready(arbiter, b)
    ensures arbiter.calls == Opening(b, k, j + 1) && arbiter.inner.wants == Demand(k, 0)
    ensures arbiter.inner.durations == map[b := Steady(ms, j + 1)]
  {
    hide SoundRun, BreakerOf, Tracked, Fired, HedgeCount, Repeat, Demand, Trie.Holds;
    RepeatAfter(Repeat(Routed(0, Send(b)), k), Answered(0, b, true), j);
    SteadySnoc(ms, j);
    arbiter.OnResponse(b, None, false, ms, 0);
  }

  /** What the stack is shown after the failures and `i` hedges. */
  lemma {:induction false} HedgeStage(c: Config, pool: seq<BackendId>, b: BackendId, k: nat, m: nat, i: nat,
                                      calls: seq<Call>, merged: Signals)
    requires Legal(c) && m >= Threshold(c) && c.halfOpenMax > 0
    requires b in pool && exists x <- pool :: x != b
    requires calls == HedgeRun(c, FirstOther(pool, b), b, k, m, i)
    requires forall x <- pool ::
               Get(merged, x) == Get([], x).(circuit := Presented(c, Shown(c, calls, x, c.resetTimeout)))
    ensures Get(merged, b) == DEFAULT_SIGNAL.(circuit := HalfOpen)
    ensures forall x <- pool :: x != b ==> Get(merged, x).circuit == Closed
  {
    hide HedgeRun, FirstOther, Shown, Presented;
    forall x | x in pool
      ensures Get(merged, x).circuit == if x == b then HalfOpen else Closed
    {
      HedgeRunShown(c, FirstOther(pool, b), b, k, m, i, x);
    }
  }

  lemma {:induction false} HedgeIsWanted(
    c: Config, cfg: HedgedConfig, pool: seq<BackendId>, merged: Signals, b: BackendId,
    estimators: map<BackendId, P2.Estimator>, durations: map<BackendId, seq<real>>,
    ms: real, k: nat, m: nat, n: nat)
    requires Tracked(cfg, estimators, durations) && durations == map[b := Steady(ms, m)]
    requires Enough(c, cfg, ms, k, m, n) && exists x <- pool :: x != b
    requires forall x <- pool :: x != b ==> Get(merged, x).circuit == Closed
    ensures Wanted(estimators, cfg, b, pool, merged)
  {
    hide Tracked, Slow, Steady;
    SteadyIsSlow(cfg, estimators, durations, b, ms, m);
    var x :| x in pool && x != b;
    assert Backs(merged, b, x);
  }

  lemma {:induction false} OneMoreHedge(c: Config, cfg: HedgedConfig, ms: real, k: nat, m: nat, n: nat, i: nat)
    requires Enough(c, cfg, ms, k, m, n) && i < n
    ensures m >= Threshold(c) && c.halfOpenMax > 0
    ensures Fired(cfg.maxFraction, Demand(k, i)) == i && Fired(cfg.maxFraction, Demand(k, i + 1)) == i + 1
    ensures Demand(k, i + 1) == Demand(k, i) + [true]
  {
    hide Fired, Share;
    DemandIsMet(cfg.maxFraction, k, n, i);
    DemandIsMet(cfg.maxFraction, k, n, i + 1);
  }

  lemma {:induction false} HedgeRunSnoc(c: Config, a: BackendId, b: BackendId, k: nat, m: nat, i: nat)
    ensures HedgeRun(c, a, b, k, m, i + 1) == HedgeRun(c, a, b, k, m, i) + [Routed(c.resetTimeout, Hedge([b, a]))]
  {
    RepeatAfter(Opening(b, k, m), Routed(c.resetTimeout, Hedge([b, a])), i);
  }

  /** A request that finds `b` half-open and slow is hedged through it. */
  method HedgeOne(arbiter: CircuitBreakerArbiter, pool: seq<BackendId>, ghost b: BackendId, ghost ms: real,
                  ghost k: nat, ghost m: nat, ghost n: nat, ghost i: nat)
    requires Ready(arbiter, b) && arbiter.pool == pool && (exists x <- pool :: x != b)
    requires Enough(arbiter.cfg, arbiter.inner.cfg, ms, k, m, n) && i < n
    requires arbiter.calls == HedgeRun(arbiter.cfg, FirstOther(pool, b), b, k, m, i)
    requires arbiter.inner.wants == Demand(k, i) && arbiter.inner.durations == map[b := Steady(ms, m)]
    modifies arbiter, arbiter.inner, arbiter.inner.inner, arbiter.inner.inner.trie
    ensures Ready(arbiter, b)
    ensures arbiter.calls == HedgeRun(arbiter.cfg, FirstOther(pool, b), b, k, m, i + 1)
    ensures arbiter.inner.wants == Demand(k, i + 1) && arbiter.inner.durations == map[b := Steady(ms, m)]
  {
    hide SoundRun, BreakerOf, Shown, Chosen, Tracked, Fired, Wanted, Promoted, Presented, Safe, HedgeCount, Demand;
    hide Trie.Holds, Trie.LongestMatch, Trie.Recorded, FirstOther, HedgeRun, Room, Share, Threshold, Steady, Enough;
    ghost var c, cfg, kv := arbiter.cfg, arbiter.inner.cfg, arbiter.inner.inner;
    ghost var past := arbiter.calls;
    OneMoreHedge(c, cfg, ms, k, m, n, i);
    HedgeRunSnoc(c, FirstOther(pool, b), b, k, m, i);
    var rng := (_: nat) => 0;
    var d, merged, chosen := arbiter.Route(EMPTY_REQUEST, pool, [], rng, arbiter.cfg.resetTimeout);
    HedgeStage(c, pool, b, k, m, i, past, merged);
    FirstSampleAnswers(kv, old(kv.trie.recorded), kv.trie.recorded, pool, merged, rng, chosen,
                       kv.hits - old(kv.hits), kv.misses - old(kv.misses),
                       kv.breakerRejections - old(kv.breakerRejections), b);
    HedgeIsWanted(c, cfg, pool, merged, b, arbiter.inner.estimators, arbiter.inner.durations, ms, k, m, n);
    HedgeGoesToFirstOther(pool, merged, b, d);
  }

  /** Enough quiet decisions for `n` hedges, and enough slow failures to open the breaker and
      warm up the estimate. */
  predicate Enough(c: Config, cfg: HedgedConfig, ms: real, k: nat, m: nat, n: nat) {
    && c.halfOpenMax > 0 && cfg.maxFraction > 0.0 && cfg.warmup < U32_LIMIT
    && n as real <= Share(cfg.maxFraction, k)
    && m >= Threshold(c) && m >= 5 && m >= cfg.warmup && ms >= cfg.minThresholdMs
  }

  /** Builds the four routers as the gateway does. */
  method BuildStack(ws: seq<AliasTable.Weight>, maxTrieEntries: nat, minPrefixBytes: nat, hedging: HedgedConfig,
                    c: Config, pool: seq<BackendId>)
    returns (arbiter: CircuitBreakerArbiter, b: BackendId)
    requires AliasTable.Legal(ws) && Legal(c) && forall i :: 0 <= i < |ws| ==> ws[i].id in pool
    ensures fresh(arbiter) && fresh(arbiter.inner) && fresh(arbiter.inner.inner)
    ensures fresh(arbiter.inner.inner.trie) && Ready(arbiter, b)
    ensures arbiter.pool == pool && arbiter.cfg == c && arbiter.inner.cfg == hedging
    ensures arbiter.calls == [] && arbiter.inner.wants == [] && arbiter.inner.durations == map[]
  {
    hide AliasTable.Faithful, SoundRun;
    var weighted := new WeightedRouter(ws);
    var kv := new KvAwareRouter(weighted, maxTrieEntries, minPrefixBytes);
    var hedged := new HedgedRouter(kv, hedging);
    assert pool != [] by { assert ws[0].id in pool; }
    arbiter := new CircuitBreakerArbiter(hedged, c, pool);
    b := weighted.Sample(0);
  }

  /** The first two phases: `k` requests sent to `b`, then `m` slow failures of `b`. */
  method TripBreaker(arbiter: CircuitBreakerArbiter, pool: seq<BackendId>, b: BackendId, ms: real, k: nat, m: nat)
    requires Ready(arbiter, b) && arbiter.pool == pool && m > 0
    requires arbiter.calls == [] && arbiter.inner.wants == [] && arbiter.inner.durations == map[]
    modifies arbiter, arbiter.inner, arbiter.inner.inner, arbiter.inner.inner.trie
    ensures Ready(arbiter, b)
    ensures arbiter.calls == Opening(b, k, m) && arbiter.inner.wants == Demand(k, 0)
    ensures arbiter.inner.durations == map[b := Steady(ms, m)]
  {
    hide Ready, Steady;
    for i := 0 to k
      invariant Ready(arbiter, b) && arbiter.calls == Repeat(Routed(0, Send(b)), i)
      invariant arbiter.inner.wants == Demand(i, 0) && arbiter.inner.durations == map[]
    {
      SendOne(arbiter, pool, b, i);
    }
    RepeatAfter(Repeat(Routed(0, Send(b)), k), Answered(0, b, true), 0);
    for j := 0 to m
      invariant Ready(arbiter, b) && arbiter.calls == Opening(b, k, j) && arbiter.inner.wants == Demand(k, 0)
      invariant arbiter.inner.durations == if j == 0 then map[] else map[b := Steady(ms, j)]
    {
      FailOne(arbiter, b, ms, k, j);
    }
  }

  /** The third phase: `n` requests hedged through `b`. */
  method HedgeMany(arbiter: CircuitBreakerArbiter, pool: seq<BackendId>, ghost b: BackendId, ghost ms: real,
                   ghost k: nat, ghost m: nat, n: nat)
    requires Ready(arbiter, b) && arbiter.pool == pool && (exists x <- pool :: x != b)
    requires Enough(arbiter.cfg, arbiter.inner.cfg, ms, k, m, n)
    requires arbiter.calls == Opening(b, k, m) && arbiter.inner.wants == Demand(k, 0)
    requires arbiter.inner.durations == map[b := Steady(ms, m)]
    modifies arbiter, arbiter.inner, arbiter.inner.inner, arbiter.inner.inner.trie
    ensures Ready(arbiter, b)
    ensures arbiter.calls == HedgeRun(arbiter.cfg, FirstOther(pool, b), b, k, m, n)
  {
    hide Ready, Steady, Enough, Opening, Demand, FirstOther;
    ghost var c, a := arbiter.cfg, FirstOther(pool, b);
    RepeatAfter(Opening(b, k, m), Routed(c.resetTimeout, Hedge([b, a])), 0);
    for i := 0 to n
      invariant Ready(arbiter, b) && arbiter.calls == HedgeRun(c, a, b, k, m, i)
      invariant arbiter.inner.wants == Demand(k, i) && arbiter.inner.durations == map[b := Steady(ms, m)]
    {
      HedgeOne(arbiter, pool, b, ms, k, m, n, i);
    }
  }

  /** Numbers of quiet decisions and slow failures, and a slow duration, that are enough. */
  method HowMany(hedging: HedgedConfig, c: Config, n: nat) returns (k: nat, m: nat, ms: real)
    requires hedging.maxFraction > 0.0 && hedging.warmup < U32_LIMIT && c.halfOpenMax > 0
    ensures Enough(c, hedging, ms, k, m, n) && m > 0 && m >= Threshold(c) && ms >= 0.0
  {
    hide Share;
    QuietIsNat(n, hedging.maxFraction);
    k := (n as real / hedging.maxFraction).Floor + 1;
    EnoughQuiet(hedging.maxFraction, n, k);
    m := if Threshold(c) > 5 then Threshold(c) else 5;
    m := if hedging.warmup > m then hedging.warmup else m;
    ms := if hedging.minThresholdMs > 0.0 then hedging.minThresholdMs else 0.0;
  }

  /** For every other configuration of the stack and every n there are calls after which n
      decisions have named a half-open backend of which none was counted: the condition of
      `CeilingIsKept` is exact. */
  method HedgePastCeiling(ws: seq<AliasTable.Weight>, maxTrieEntries: nat, minPrefixBytes: nat,
                          hedging: HedgedConfig, c: Config, pool: seq<BackendId>, n: nat)
    returns (arbiter: CircuitBreakerArbiter, b: BackendId)
    requires AliasTable.Legal(ws) && (forall i :: 0 <= i < |ws| ==> ws[i].id in pool)
    requires Legal(c) && hedging.warmup < U32_LIMIT && pool != [] && !CannotHedgeProbes(c, hedging, pool)
    ensures arbiter.Valid() && arbiter.cfg == c && arbiter.inner.cfg == hedging && arbiter.pool == pool
    ensures ProbesOf(c, arbiter.calls, b) == HedgedProbesOf(c, arbiter.calls, b) == n
    ensures BreakerOf(c, arbiter.calls, b).inflight == 0
    ensures n > 0 ==> HalfOpenAfter(c, arbiter.calls, b)
  {
    hide SoundRun, BreakerOf, HedgeRun, Opening, Demand, Steady, HalfOpenAfter, ProbesOf, HedgedProbesOf, Tracked;
    hide FirstOther, Fired, HedgeCount, Trie.Holds, Threshold;
    arbiter, b := BuildStack(ws, maxTrieEntries, minPrefixBytes, hedging, c, pool);
    var k, m, ms := HowMany(hedging, c, n);
    TripBreaker(arbiter, pool, b, ms, k, m);
    SomeOther(pool, b);
    HedgeMany(arbiter, pool, b, ms, k, m, n);
    HedgeRunHalfOpen(c, FirstOther(pool, b), b, k, m, n);
    HedgesAreUncounted(c, FirstOther(pool, b), b, k, m, n);
  }

  lemma {:induction false} SomeOther(pool: seq<BackendId>, b: BackendId)
    requires exists x <- pool :: x != pool[0]
    ensures exists x <- pool :: x != b
  {
    if pool[0] != b {
      assert pool[0] in pool;
    }
  }

  lemma {:induction false} QuietIsNat(n: nat, f: real)
    requires f > 0.0
    ensures var k := (n as real / f).Floor + 1; k >= 0 && k as real >= n as real / f
  {
    var q := n as real / f;
    assert q * f == n as real;
    assert q >= 0.0;
  }
}
