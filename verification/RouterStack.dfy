/** The four routers as they are composed: circuit breaker over hedging over KV affinity over
    weighted choice. */
module RouterStack {
  import opened Basics
  import opened Breaker
  import opened Routing
  import opened StackRuns
  import opened Probes
  import opened HedgeBudget
  import AliasTable
  import P2
  import Trie

  // ----- weighted choice

  const HOT := 0.9

  function Clamp(x: real): real {
    if x < 0.0 then 0.0 else if x > 1.0 then 1.0 else x
  }

  predicate Hot(s: Signal) {
    s.gpu.Some? && Clamp(s.gpu.value) >= HOT
  }

  /** Admitted and not under GPU pressure. */
  predicate Cool(s: Signals, b: BackendId) {
    Admits(s, b) && !Hot(Get(s, b))
  }

  /** `b` is the first of `cands` that passes. */
  predicate IsFirst(cands: seq<BackendId>, pass: BackendId -> bool, b: BackendId) {
    exists i :: 0 <= i < |cands| && cands[i] == b && pass(b) && forall k :: 0 <= k < i ==> !pass(cands[k])
  }

  /** The first cool candidate, else the first admitted one, else 503. */
  predicate Chosen(cands: seq<BackendId>, s: Signals, d: Decision) {
    match d
    case Send(b) =>
      if exists c <- cands :: Cool(s, c) then IsFirst(cands, (c: BackendId) => Cool(s, c), b)
      else IsFirst(cands, (c: BackendId) => Admits(s, c), b)
    case Hedge(_) => false
    case Reject(status) => status == SERVICE_UNAVAILABLE && forall c <- cands :: !Admits(s, c)
  }

  /** What the scan knows after `n` candidates, none of them cool. */
  predicate Scanned(cands: seq<BackendId>, s: Signals, n: nat, fallback: Option<BackendId>)
    requires n <= |cands|
  {
    && (forall k :: 0 <= k < n ==> !Cool(s, cands[k]))
    && match fallback
       case None => forall k :: 0 <= k < n ==> !Admits(s, cands[k])
       case Some(b) => exists i :: 0 <= i < n && cands[i] == b && Admits(s, b)
                                   && forall k :: 0 <= k < i ==> !Admits(s, cands[k])
  }

  /** The loop body, on the next candidate. */
  lemma {:induction false} ScanOne(cands: seq<BackendId>, s: Signals, n: nat, fallback: Option<BackendId>, b: BackendId)
    requires n < |cands| && cands[n] == b && Scanned(cands, s, n, fallback)
    ensures var up, hot := Get(s, b).circuit != Open, Hot(Get(s, b));
            if up && !hot then Chosen(cands, s, Send(b))
            else Scanned(cands, s, n + 1, if fallback.None? && up then Some(b) else fallback)
  {
    hide Hot;
    if Cool(s, b) {
      assert IsFirst(cands, (c: BackendId) => Cool(s, c), b);
    }
  }

  lemma {:induction false} ScanEnds(cands: seq<BackendId>, s: Signals, fallback: Option<BackendId>)
    requires Scanned(cands, s, |cands|, fallback)
    ensures Chosen(cands, s, if fallback.Some? then Send(fallback.value) else Reject(SERVICE_UNAVAILABLE))
  {
    hide Hot;
  }

  /** A choice among the pool and candidates inside it is sound, and cool if it can be. */
  lemma {:induction false} ChosenIsSound(drawn: seq<BackendId>, pool: seq<BackendId>, s: Signals, d: Decision)
    requires Chosen(drawn + pool, s, d)
    ensures (forall b <- drawn :: b in pool) ==> Sound(pool, s, d)
    ensures (exists b <- pool :: Cool(s, b)) ==> d.Send? && Cool(s, d.backend)
    ensures d.Send? && Get(s, d.backend).gpu.Some? && Get(s, d.backend).gpu.value >= 0.9 ==>
              forall b <- drawn + pool :: Get(s, b).circuit != Open ==>
                Get(s, b).gpu.Some? && Get(s, b).gpu.value >= 0.9
  {
    if d.Send? && Get(s, d.backend).gpu.Some? && Get(s, d.backend).gpu.value >= 0.9 {
      HotOnlyIfAllHot(drawn + pool, s, d);
    }
    hide Hot;
    if b :| b in pool && Cool(s, b) {
      assert b in drawn + pool;
    }
  }

  /** Pressure is clamped to [0, 1] and hot from 0.9 on. */
  lemma {:induction false} HotIs(s: Signal)
    ensures Hot(s) <==> s.gpu.Some? && s.gpu.value >= 0.9
  {
  }

  /** A backend under pressure is chosen only if every admitted candidate is. */
  lemma {:induction false} HotOnlyIfAllHot(cands: seq<BackendId>, s: Signals, d: Decision)
    requires Chosen(cands, s, d) && d.Send? && Get(s, d.backend).gpu.Some? && Get(s, d.backend).gpu.value >= 0.9
    ensures forall b <- cands :: Get(s, b).circuit != Open ==> Get(s, b).gpu.Some? && Get(s, b).gpu.value >= 0.9
  {
    hide Hot;
    HotIs(Get(s, d.backend));
    forall b | b in cands && Get(s, b).circuit != Open
      ensures Get(s, b).gpu.Some? && Get(s, b).gpu.value >= 0.9
    {
      HotIs(Get(s, b));
    }
  }

  class WeightedRouter {
    const table: seq<AliasTable.Slot>
    const backends: seq<BackendId>

    ghost predicate Valid() {
      && 0 < |table| == |backends|
      && forall i :: 0 <= i < |table| ==>
           table[i].primary in backends && table[i].alias in backends && table[i].prob <= AliasTable.SCALE
    }

    constructor (ws: seq<AliasTable.Weight>)
      requires AliasTable.Legal(ws)
      ensures Valid() && |backends| == |ws|
      ensures forall i :: 0 <= i < |ws| ==> backends[i] == ws[i].id
      ensures forall b :: AliasTable.Faithful(ws, table, b)
    {
      var t := AliasTable.Build(ws);
      table := t;
      backends := seq(|ws|, i requires 0 <= i < |ws| => ws[i].id);
      new;
      forall i | 0 <= i < |table|
        ensures table[i].primary in backends && table[i].alias in backends && table[i].prob <= AliasTable.SCALE
      {
        assert AliasTable.GoodSlot(ws, i, table[i]);
        var j :| 0 <= j < |ws| && table[i].alias == ws[j].id;
        assert backends[i] == ws[i].id && backends[j] == ws[j].id;
      }
    }

    /** One random word picks a bucket and a coin. */
    function Sample(r: nat): (b: BackendId)
      requires Valid()
      ensures b in backends
    {
      AliasTable.PickWord(table, r)
    }

    /** The samples a call draws; `rng(i)` is its i-th random word. */
    function Drawn(rng: nat -> nat): (bs: seq<BackendId>)
      requires Valid()
      ensures |bs| == |backends|
    {
      seq<BackendId>(|backends|, i requires 0 <= i < |backends| => Sample(rng(i)))
    }

    /** Samples are tried first, then the pool in order; a hot backend is used only if no cool
        one turns up. */
    method Route(pool: seq<BackendId>, s: Signals, rng: nat -> nat) returns (d: Decision)
      requires Valid()
      ensures if pool == [] then d == Reject(502) else Chosen(Drawn(rng) + pool, s, d)
      ensures !d.Hedge?
    {
      hide Hot, Scanned, Chosen, Cool, Admits, Get;
      if pool == [] {
        return Reject(BAD_GATEWAY);
      }
      var fallback: Option<BackendId> := None;
      ghost var cands := Drawn(rng) + pool;
      NothingScanned(cands, s);
      for i := 0 to |backends|
        invariant Scanned(cands, s, i, fallback)
      {
        var b := Sample(rng(i));
        assert cands[i] == b;
        ScanOne(cands, s, i, fallback, b);
        if Get(s, b).circuit != Open {
          if fallback.None? {
            fallback := Some(b);
          }
          if !Hot(Get(s, b)) {
            return Send(b);
          }
        }
      }
      for i := 0 to |pool|
        invariant Scanned(cands, s, |backends| + i, fallback)
      {
        var b := pool[i];
        assert cands[|backends| + i] == b;
        ScanOne(cands, s, |backends| + i, fallback, b);
        if Get(s, b).circuit != Open {
          if fallback.None? {
            fallback := Some(b);
          }
          if !Hot(Get(s, b)) {
            return Send(b);
          }
        }
      }
      ScanEnds(cands, s, fallback);
      if fallback.Some? {
        return Send(fallback.value);
      }
      d := Reject(SERVICE_UNAVAILABLE);
    }
  }

  lemma {:induction false} NothingScanned(cands: seq<BackendId>, s: Signals)
    ensures Scanned(cands, s, 0, None)
  {
  }

  // ----- KV affinity

  class KvAwareRouter {
    const inner: WeightedRouter
    const trie: Trie.PrefixTrie
    const minPrefixBytes: nat
    var hits: nat
    var misses: nat
    var breakerRejections: nat

    ghost predicate Valid()
      reads this, trie
    {
      inner.Valid() && trie.Valid()
    }

    /** Everything the router can name is in the pool. */
    ghost predicate Within(pool: seq<BackendId>)
      reads this, trie
    {
      && (forall b <- inner.backends :: b in pool)
      && (forall p <- trie.recorded :: trie.recorded[p] in pool)
    }

    constructor (inner: WeightedRouter, maxTrieEntries: nat, minPrefixBytes: nat)
      requires inner.Valid()
      ensures Valid() && fresh(trie) && this.inner == inner && this.minPrefixBytes == minPrefixBytes
      ensures trie.recorded == map[] && trie.cap == maxTrieEntries
      ensures hits == 0 && misses == 0 && breakerRejections == 0
    {
      this.inner := inner;
      this.minPrefixBytes := minPrefixBytes;
      hits, misses, breakerRejections := 0, 0, 0;
      trie := new Trie.PrefixTrie(maxTrieEntries);
    }

    /** What the inner router answers. */
    ghost predicate InnerChoice(pool: seq<BackendId>, s: Signals, rng: nat -> nat, d: Decision)
      requires inner.Valid()
    {
      if pool == [] then d == Reject(BAD_GATEWAY) else Chosen(inner.Drawn(rng) + pool, s, d)
    }

    /** What a call does: a short body goes to the inner router; a closed backend at the longest
        recorded prefix is a hit; otherwise the inner router chooses and its choice is
        recorded. Each call counts once, as a hit, a miss or a rejection by the breaker. */
    ghost predicate RoutedAs(before: map<seq<nat>, BackendId>, after: map<seq<nat>, BackendId>, req: Request,
                             pool: seq<BackendId>, s: Signals, rng: nat -> nat, d: Decision,
                             hit: int, miss: int, rejected: int)
      requires inner.Valid()
    {
      if req.bodyLength < minPrefixBytes
      then after == before && InnerChoice(pool, s, rng, d) && hit == 0 && miss == 1 && rejected == 0
      else exists r :: (
        && Trie.LongestMatch(before, req.hashes, r)
        && if r.Some? && Get(s, r.value).circuit == Closed
           then d == Send(r.value) && after == before && hit == 1 && miss == 0 && rejected == 0
           else && InnerChoice(pool, s, rng, d)
                && after == (if d.Send? then Trie.Recorded(before, trie.cap, req.hashes, d.backend) else before)
                && hit == 0 && miss == (if r.Some? then 0 else 1) && rejected == (if r.Some? then 1 else 0))
    }

    /** Sends to the backend at the longest recorded prefix while it is closed; otherwise
        defers to the inner router and records its choice. Either way the backend sent to is
        then the longest match. */
    method Route(req: Request, pool: seq<BackendId>, s: Signals, rng: nat -> nat) returns (d: Decision)
      requires Valid()
      modifies this, trie
      ensures Valid()
      ensures pool != [] && old(Within(pool)) ==> Within(pool) && Sound(pool, s, d)
      ensures !d.Hedge?
      ensures RoutedAs(old(trie.recorded), trie.recorded, req, pool, s, rng, d,
                       hits - old(hits), misses - old(misses), breakerRejections - old(breakerRejections))
      ensures req.bodyLength < minPrefixBytes ==> trie.recorded == old(trie.recorded)
      ensures req.bodyLength >= minPrefixBytes && req.hashes != [] && d.Send? ==>
                Trie.LongestMatch(trie.recorded, req.hashes, Some(d.backend))
    {
      hide Trie.LongestMatch, Trie.Holds, Chosen, Sound;
      if req.bodyLength < minPrefixBytes {
        misses := misses + 1;
        d := inner.Route(pool, s, rng);
        if pool != [] && Within(pool) {
          InnerIsSound(inner, pool, s, rng, d);
        }
        return;
      }
      var hit := trie.FindLongest(req.hashes);
      if hit.Some? {
        MatchIsRecorded(trie.recorded, req.hashes, hit.value);
        if Get(s, hit.value).circuit == Closed {
          hits := hits + 1;
          ClosedIsSound(pool, s, hit.value);
          return Send(hit.value);
        }
        breakerRejections := breakerRejections + 1;
      } else {
        misses := misses + 1;
      }
      d := inner.Route(pool, s, rng);
      if pool != [] && Within(pool) {
        InnerIsSound(inner, pool, s, rng, d);
        SoundNames(pool, s, d);
      }
      if d.Send? {
        trie.Insert(req.hashes, d.backend);
        if req.hashes != [] {
          RecordedIsLongest(trie.recorded, req.hashes, d.backend);
        }
      }
    }
  }

  lemma {:induction false} ClosedIsSound(pool: seq<BackendId>, s: Signals, b: BackendId)
    requires Get(s, b).circuit == Closed
    ensures b in pool ==> Sound(pool, s, Send(b))
  {
  }

  lemma {:induction false} SoundNames(pool: seq<BackendId>, s: Signals, d: Decision)
    requires Sound(pool, s, d)
    ensures d.Send? ==> d.backend in pool
  {
  }

  lemma {:induction false} DrawnWithin(inner: WeightedRouter, rng: nat -> nat, i: nat)
    requires inner.Valid() && i < |inner.backends|
    ensures inner.Drawn(rng)[i] == inner.Sample(rng(i)) && inner.Sample(rng(i)) in inner.backends
  {
    assert inner.Drawn(rng)[i] == inner.Sample(rng(i));
  }

  lemma {:induction false} InnerIsSound(inner: WeightedRouter, pool: seq<BackendId>, s: Signals,
      rng: nat -> nat, d: Decision)
    requires inner.Valid() && pool != [] && Chosen(inner.Drawn(rng) + pool, s, d)
    requires forall b <- inner.backends :: b in pool
    ensures Sound(pool, s, d)
  {
    hide Chosen, Sound;
    var drawn := inner.Drawn(rng);
    forall b | b in drawn
      ensures b in pool
    {
      var i :| 0 <= i < |drawn| && drawn[i] == b;
      DrawnWithin(inner, rng, i);
    }
    ChosenIsSound(drawn, pool, s, d);
  }

  lemma {:induction false} MatchIsRecorded(recorded: map<seq<nat>, BackendId>, hashes: seq<nat>, b: BackendId)
    requires Trie.LongestMatch(recorded, hashes, Some(b))
    ensures exists p :: p in recorded && recorded[p] == b
  {
    var k :| 0 < k <= |hashes| && hashes[..k] in recorded && recorded[hashes[..k]] == b
             && forall j :: k < j <= |hashes| ==> hashes[..j] !in recorded;
  }

  lemma {:induction false} RecordedIsLongest(recorded: map<seq<nat>, BackendId>, hashes: seq<nat>, b: BackendId)
    requires hashes != [] && hashes in recorded && recorded[hashes] == b
    ensures Trie.LongestMatch(recorded, hashes, Some(b))
  {
    assert hashes[..|hashes|] == hashes;
  }

  // ----- hedging

  datatype HedgedConfig = HedgedConfig(quantile: real, maxFraction: real, minThresholdMs: real, warmup: nat)

  class HedgedRouter {
    const inner: KvAwareRouter
    const cfg: HedgedConfig
    var estimators: map<BackendId, P2.Estimator>
    var decisions: nat
    var hedges: nat
    var budgetBlocked: nat
    ghost var wants: seq<bool>
    ghost var durations: map<BackendId, seq<real>>

    /** The counters are those of a run of the budget, and each estimator has digested exactly the
        durations observed for its backend. */
    ghost predicate Valid()
      reads this, inner, inner.trie
    {
      && inner.Valid()
      && Tracked(cfg, estimators, durations)
      && decisions == |wants| && hedges == Fired(cfg.maxFraction, wants)
    }

    constructor (inner: KvAwareRouter, cfg: HedgedConfig)
      requires inner.Valid()
      ensures Valid() && this.inner == inner && this.cfg == cfg && wants == [] && durations == map[]
    {
      this.inner := inner;
      this.cfg := cfg;
      estimators, durations, wants := map[], map[], [];
      decisions, hedges, budgetBlocked := 0, 0, 0;
    }

    /** Compares the fraction fired so far with the configured one; by cross-multiplication this
        is room in the budget. */
    method BudgetAllows() returns (ok: bool)
      ensures ok <==> decisions == 0 || Room(cfg.maxFraction, hedges, decisions)
    {
      if decisions == 0 {
        return true;
      }
      RoomByDivision(cfg.maxFraction, hedges, decisions);
      ok := hedges as real / decisions as real < cfg.maxFraction;
    }

    /** The first closed pool member other than the primary. */
    method PickSecondary(primary: BackendId, pool: seq<BackendId>, s: Signals) returns (b: Option<BackendId>)
      ensures b.Some? ==> IsFirst(pool, (x: BackendId) => Backs(s, primary, x), b.value)
      ensures b.None? ==> forall x <- pool :: !Backs(s, primary, x)
    {
      for i := 0 to |pool|
        invariant forall k :: 0 <= k < i ==> pool[k] == primary || Get(s, pool[k]).circuit != Closed
      {
        if pool[i] != primary && Get(s, pool[i]).circuit == Closed {
          return Some(pool[i]);
        }
      }
      b := None;
    }

    /** Promotes to a hedge exactly when the primary's estimate is slow, a closed second choice
        exists and the budget has room; otherwise sends to the primary. */
    method MaybeHedge(primary: BackendId, pool: seq<BackendId>, s: Signals) returns (d: Decision)
      requires Tracked(cfg, estimators, durations) && decisions > 0
      modifies this`hedges, this`budgetBlocked
      ensures if d.Hedge? then Promoted(primary, pool, s, d) else d == Send(primary)
      ensures d.Hedge? <==>
                Wanted(estimators, cfg, primary, pool, s) && Room(cfg.maxFraction, old(hedges), decisions)
      ensures hedges == old(hedges) + (if d.Hedge? then 1 else 0)
      ensures budgetBlocked == old(budgetBlocked) +
                (if Slow(estimators, cfg, primary) && !Room(cfg.maxFraction, old(hedges), decisions) then 1 else 0)
    {
      hide Room, P2.ObserveAll;
      d := Send(primary);
      if primary !in estimators || estimators[primary].count < cfg.warmup {
        return;
      }
      TrackedIsShaped(cfg, estimators, durations, primary);
      var q := P2.Quantile(estimators[primary]);
      if q.None? || q.value < cfg.minThresholdMs {
        return;
      }
      assert Slow(estimators, cfg, primary);
      var ok := BudgetAllows();
      if !ok {
        budgetBlocked := budgetBlocked + 1;
        return;
      }
      var secondary := PickSecondary(primary, pool, s);
      if secondary.Some? {
        hedges := hedges + 1;
        d := Hedge([primary, secondary.value]);
      }
    }

    /** Counts the inner router's decision and promotes it if it should be. */
    method Hedged(chosen: Decision, pool: seq<BackendId>, s: Signals) returns (d: Decision)
      requires Tracked(cfg, estimators, durations) && !chosen.Hedge?
      requires decisions == |wants| && hedges == Fired(cfg.maxFraction, wants)
      modifies this`decisions, this`hedges, this`budgetBlocked, this`wants
      ensures decisions == |wants| && hedges == Fired(cfg.maxFraction, wants)
      ensures wants == old(wants) + [chosen.Send? && Wanted(estimators, cfg, chosen.backend, pool, s)]
      ensures hedges == old(hedges) + (if d.Hedge? then 1 else 0)
      ensures if d.Hedge? then chosen.Send? && Promoted(chosen.backend, pool, s, d) else d == chosen
      ensures d.Hedge? ==> Deserved(cfg, durations, chosen.backend)
      ensures Sound(pool, s, chosen) ==> Sound(pool, s, d)
    {
      hide Wanted, Promoted, Tracked, Deserved, Sound, Slow, Room, Fired;
      d := chosen;
      decisions := decisions + 1;
      ghost var want := chosen.Send? && Wanted(estimators, cfg, chosen.backend, pool, s);
      FiredSnoc(cfg.maxFraction, wants, want);
      wants := wants + [want];
      if d.Send? {
        d := MaybeHedge(chosen.backend, pool, s);
        assert chosen == Send(chosen.backend);
        if d.Hedge? {
          PromotedIsSound(chosen.backend, pool, s, d);
          WantedIsDeserved(cfg, estimators, durations, chosen.backend, pool, s);
        }
      }
    }

    /** The inner router's decision, `chosen`, counted and promoted if it should be. */
    method Route(req: Request, pool: seq<BackendId>, s: Signals, rng: nat -> nat)
      returns (d: Decision, ghost chosen: Decision)
      requires Valid()
      modifies this, inner, inner.trie
      ensures Valid() && estimators == old(estimators) && durations == old(durations)
      ensures pool != [] && old(inner.Within(pool)) ==> inner.Within(pool) && Sound(pool, s, d)
      ensures inner.RoutedAs(old(inner.trie.recorded), inner.trie.recorded, req, pool, s, rng, chosen,
                             inner.hits - old(inner.hits), inner.misses - old(inner.misses),
                             inner.breakerRejections - old(inner.breakerRejections))
      ensures !chosen.Hedge?
      ensures wants == old(wants) + [chosen.Send? && Wanted(estimators, cfg, chosen.backend, pool, s)]
      ensures hedges == old(hedges) + (if d.Hedge? then 1 else 0)
      ensures if d.Hedge? then chosen.Send? && Promoted(chosen.backend, pool, s, d) else d == chosen
      ensures d.Hedge? ==> Deserved(cfg, durations, chosen.backend)
      ensures cfg.maxFraction >= 0.0 ==> hedges as real < Share(cfg.maxFraction, decisions) + 1.0
    {
      hide Wanted, Promoted, Tracked, Deserved, Sound, Chosen, Fired, Share;
      hide Trie.LongestMatch, Trie.Holds, Trie.Recorded;
      d := inner.Route(req, pool, s, rng);
      chosen := d;
      d := Hedged(d, pool, s);
      if cfg.maxFraction >= 0.0 {
        OvershootBelowOne(cfg.maxFraction, wants);
      }
    }

    /** `ms` is the upstream call's duration. */
    method OnResponse(backend: BackendId, ms: real)
      requires Valid()
      modifies this`estimators, this`durations
      ensures Valid()
      ensures durations == old(durations)[backend := Heard(old(durations), backend) + [ms]]
    {
      hide P2.Observe, Fired;
      ghost var heard := Heard(durations, backend);
      var before := if backend in estimators then estimators[backend] else P2.New(cfg.quantile);
      NextEstimate(cfg, heard, ms);
      estimators := estimators[backend := P2.Observe(before, ms)];
      durations := durations[backend := heard + [ms]];
    }
  }

  /** The durations observed for a backend so far. */
  function Heard(durations: map<BackendId, seq<real>>, b: BackendId): seq<real> {
    if b in durations then durations[b] else []
  }

  /** Each estimator is the one that digests its backend's durations in order. */
  ghost predicate Tracked(cfg: HedgedConfig, estimators: map<BackendId, P2.Estimator>,
                          durations: map<BackendId, seq<real>>)
  {
    && estimators.Keys == durations.Keys
    && forall b <- estimators :: estimators[b] == P2.ObserveAll(cfg.quantile, durations[b])
  }

  lemma {:induction false} TrackedIsShaped(cfg: HedgedConfig, estimators: map<BackendId, P2.Estimator>,
                                           durations: map<BackendId, seq<real>>, b: BackendId)
    requires Tracked(cfg, estimators, durations) && b in estimators
    ensures P2.Shaped(estimators[b])
  {
    hide P2.ObserveAll;
  }

  lemma {:induction false} NextEstimate(cfg: HedgedConfig, heard: seq<real>, ms: real)
    ensures P2.ObserveAll(cfg.quantile, []) == P2.New(cfg.quantile)
    ensures var e := P2.ObserveAll(cfg.quantile, heard);
            && P2.Shaped(e) && (e.count >= 5 ==> P2.Rising(e.n))
            && P2.ObserveAll(cfg.quantile, heard + [ms]) == P2.Observe(e, ms)
  {
    hide P2.Observe;
    assert (heard + [ms])[..|heard|] == heard;
  }

  /** The warmed-up estimate is at or over the floor. */
  predicate Slow(estimators: map<BackendId, P2.Estimator>, cfg: HedgedConfig, b: BackendId) {
    && b in estimators
    && P2.Shaped(estimators[b]) && estimators[b].count >= cfg.warmup
    && P2.Quantile(estimators[b]).Some?
    && P2.Quantile(estimators[b]).value >= cfg.minThresholdMs
  }

  /** `b` can back up the primary. */
  predicate Backs(s: Signals, primary: BackendId, b: BackendId) {
    b != primary && Get(s, b).circuit == Closed
  }

  /** A request for `primary` would be hedged if the budget had room. */
  predicate Wanted(estimators: map<BackendId, P2.Estimator>, cfg: HedgedConfig,
                   primary: BackendId, pool: seq<BackendId>, s: Signals)
  {
    Slow(estimators, cfg, primary) && exists b <- pool :: Backs(s, primary, b)
  }

  /** How it is hedged. */
  predicate Promoted(primary: BackendId, pool: seq<BackendId>, s: Signals, d: Decision) {
    && d.Hedge? && |d.backends| == 2 && d.backends[0] == primary
    && IsFirst(pool, (x: BackendId) => Backs(s, primary, x), d.backends[1])
  }

  /** The backend was observed often enough, and at least once at or over the floor. */
  predicate Deserved(cfg: HedgedConfig, durations: map<BackendId, seq<real>>, b: BackendId) {
    && b in durations && |durations[b]| >= 5 && |durations[b]| >= cfg.warmup
    && exists ms <- durations[b] :: ms >= cfg.minThresholdMs
  }

  /** A hedge is only wanted for a backend that was really slow at least once. */
  lemma {:induction false} WantedIsDeserved(cfg: HedgedConfig, estimators: map<BackendId, P2.Estimator>,
                                            durations: map<BackendId, seq<real>>,
                                            primary: BackendId, pool: seq<BackendId>, s: Signals)
    requires Tracked(cfg, estimators, durations) && Wanted(estimators, cfg, primary, pool, s)
    ensures Deserved(cfg, durations, primary)
  {
    hide P2.ObserveAll;
    P2.QuantileInRange(cfg.quantile, durations[primary]);
    P2.ExactCount(cfg.quantile, durations[primary]);
  }

  lemma {:induction false} PromotedIsSound(primary: BackendId, pool: seq<BackendId>, s: Signals, d: Decision)
    requires Promoted(primary, pool, s, d)
    ensures Sound(pool, s, Send(primary)) ==> Sound(pool, s, d)
  {
  }

  lemma {:induction false} RoomByDivision(f: real, hedges: nat, decisions: nat)
    requires decisions > 0
    ensures hedges as real / decisions as real < f <==> Room(f, hedges, decisions)
  {
    var n, q := decisions as real, hedges as real / decisions as real;
    assert q * n == hedges as real;
    if q < f {
      assert q * n < f * n;
    } else {
      assert f * n <= q * n;
    }
  }

  // ----- the breaker around them

  datatype BackendBreaker = BackendBreaker(word: nat, inflight: nat)

  class CircuitBreakerArbiter {
    const inner: HedgedRouter
    const cfg: Config
    var breakers: map<BackendId, BackendBreaker>
    var transitionedAt: map<BackendId, nat>
    ghost const pool: seq<BackendId>
    ghost var calls: seq<Call>

    /** A backend's entry, as the two maps hold it. */
    function EntryOf(b: BackendId): Entry
      reads this
    {
      var br := if b in breakers then breakers[b] else BackendBreaker(Pack(CLOSED, 0), 0);
      Entry(br.word, br.inflight, if b in transitionedAt then Some(transitionedAt[b]) else None)
    }

    /** The maps hold what the calls so far make of them, every decision so far was sound for the
        states it was shown, and the hedging layer has counted each hedge. */
    ghost predicate Valid()
      reads this, inner, inner.inner, inner.inner.trie
    {
      && pool != []
      && inner.Valid() && inner.inner.Within(pool)
      && (forall b <- pool :: EntryOf(b) == BreakerOf(cfg, calls, b))
      && SoundRun(cfg, pool, calls)
      && inner.hedges == HedgeCount(calls)
    }

    constructor (inner: HedgedRouter, cfg: Config, ghost pool: seq<BackendId>)
      requires pool != [] && inner.Valid() && inner.inner.Within(pool) && inner.hedges == 0
      ensures Valid() && this.inner == inner && this.pool == pool && this.cfg == cfg && calls == []
    {
      this.inner := inner;
      this.cfg := cfg;
      this.pool := pool;
      breakers, transitionedAt := map[], map[];
      calls := [];
    }

    method EnsureBackend(b: BackendId)
      modifies this`breakers
      ensures b in breakers && forall x :: EntryOf(x) == old(EntryOf(x))
      ensures forall x <- old(breakers) :: x in breakers
    {
      if b !in breakers {
        breakers := breakers[b := BackendBreaker(Pack(CLOSED, 0), 0)];
      }
    }

    method MaybeHalfOpen(b: BackendId, now: nat)
      requires b in breakers
      modifies this`breakers, this`transitionedAt
      ensures forall x :: EntryOf(x) == if x == b then OnRoute(cfg, old(EntryOf(x)), now) else old(EntryOf(x))
      ensures breakers.Keys == old(breakers).Keys
    {
      if Tag(breakers[b].word) == OPEN && b in transitionedAt && now - transitionedAt[b] >= cfg.resetTimeout {
        breakers := breakers[b := BackendBreaker(Pack(HALF_OPEN, 0), 0)];
        transitionedAt := transitionedAt[b := now];
      }
    }

    /** A copy of the caller's signals for the pool, with the breakers' states written in. */
    method BuildSignals(ids: seq<BackendId>, s: Signals) returns (out: Signals)
      requires forall b <- ids :: b in breakers
      ensures forall b <- ids :: Get(out, b) == Get(s, b).(circuit := Presented(cfg, EntryOf(b)))
    {
      var maxId := 0;
      for i := 0 to |ids|
        invariant forall k :: 0 <= k < i ==> ids[k] <= maxId
      {
        if ids[i] > maxId {
          maxId := ids[i];
        }
      }
      out := seq(maxId + 1, i => DEFAULT_SIGNAL);
      for i := 0 to |ids|
        invariant |out| == maxId + 1
        invariant forall k :: 0 <= k < i ==> out[ids[k]] == Get(s, ids[k])
      {
        out := out[ids[i] := Get(s, ids[i])];
      }
      for i := 0 to |ids|
        invariant |out| == maxId + 1
        invariant forall k :: 0 <= k < |ids| ==>
                    out[ids[k]] == Get(s, ids[k]).(circuit := out[ids[k]].circuit)
        invariant forall k :: 0 <= k < i ==> out[ids[k]].circuit == Presented(cfg, EntryOf(ids[k]))
      {
        var br := breakers[ids[i]];
        var tag := Tag(br.word);
        var shown := StateOf(tag);
        if tag == HALF_OPEN && br.inflight >= cfg.halfOpenMax {
          shown := Open;
        }
        out := out[ids[i] := out[ids[i]].(circuit := shown)];
      }
    }

    /** The transitions at the head of `route`, for each pool member. */
    method PrepareBreakers(ids: seq<BackendId>, now: nat)
      modifies this`breakers, this`transitionedAt
      ensures forall b <- ids :: b in breakers
      ensures forall b :: EntryOf(b) == if b in ids then OnRoute(cfg, old(EntryOf(b)), now) else old(EntryOf(b))
    {
      hide OnRoute;
      for i := 0 to |ids|
        invariant forall k :: 0 <= k < i ==> ids[k] in breakers
        invariant forall b :: EntryOf(b) ==
                    if b in ids[..i] then OnRoute(cfg, old(EntryOf(b)), now) else old(EntryOf(b))
      {
        EnsureBackend(ids[i]);
        MaybeHalfOpen(ids[i], now);
        RouteTwice(cfg, old(EntryOf(ids[i])), now);
        assert ids[..i + 1] == ids[..i] + [ids[i]];
      }
      assert ids[..|ids|] == ids;
    }

    /** What `route` does before it asks the inner router. */
    method PresentStates(ids: seq<BackendId>, s: Signals, now: nat) returns (merged: Signals)
      requires forall b <- ids :: EntryOf(b) == BreakerOf(cfg, calls, b)
      modifies this`breakers, this`transitionedAt
      ensures forall b <- ids :: EntryOf(b) == Shown(cfg, calls, b, now)
      ensures forall b <- ids ::
                Get(merged, b) == Get(s, b).(circuit := Presented(cfg, Shown(cfg, calls, b, now)))
    {
      hide OnRoute, BreakerOf, Presented;
      PrepareBreakers(ids, now);
      merged := BuildSignals(ids, s);
    }

    /** One routing call on the fixed pool. The layers below are shown `merged`, of which the KV
        layer makes `chosen` and the hedging layer the decision. */
    method Route(req: Request, ids: seq<BackendId>, s: Signals, rng: nat -> nat, now: nat)
      returns (d: Decision, ghost merged: Signals, ghost chosen: Decision)
      requires Valid() && ids == pool
      modifies this, inner, inner.inner, inner.inner.trie
      ensures Valid() && calls == old(calls) + [Routed(now, d)]
      ensures Safe(cfg, pool, old(calls), now, d)
      ensures forall b <- pool ::
                Get(merged, b) == Get(s, b).(circuit := Presented(cfg, Shown(cfg, old(calls), b, now)))
      ensures inner.inner.RoutedAs(old(inner.inner.trie.recorded), inner.inner.trie.recorded, req, ids, merged,
                                   rng, chosen, inner.inner.hits - old(inner.inner.hits),
                                   inner.inner.misses - old(inner.inner.misses),
                                   inner.inner.breakerRejections - old(inner.inner.breakerRejections))
      ensures inner.estimators == old(inner.estimators) && inner.durations == old(inner.durations)
      ensures inner.wants == old(inner.wants) +
                [chosen.Send? && Wanted(inner.estimators, inner.cfg, chosen.backend, ids, merged)]
      ensures inner.hedges == old(inner.hedges) + (if d.Hedge? then 1 else 0)
      ensures if d.Hedge? then chosen.Send? && Promoted(chosen.backend, ids, merged, d) else d == chosen
    {
      hide BreakerOf, Shown, SoundRun, Sound, Presented, Pack, Safe, HedgeCount, KvAwareRouter.RoutedAs;
      hide Tracked, Fired, Wanted, Promoted, Deserved, Share, Trie.Holds, Trie.LongestMatch, Trie.Recorded, Chosen;
      var built := PresentStates(ids, s, now);
      merged := built;
      d, chosen := inner.Route(req, ids, built, rng);
      Conclude(d, now, merged);
    }

    /** What `route` does with the inner router's decision. */
    method Conclude(d: Decision, now: nat, ghost merged: Signals)
      requires pool != [] && SoundRun(cfg, pool, calls)
      requires Presents(cfg, pool, calls, now, merged) && Sound(pool, merged, d)
      requires forall b <- pool :: EntryOf(b) == Shown(cfg, calls, b, now)
      modifies this`breakers, this`calls
      ensures calls == old(calls) + [Routed(now, d)] && SoundRun(cfg, pool, calls)
      ensures forall b <- pool :: EntryOf(b) == BreakerOf(cfg, calls, b)
      ensures HedgeCount(calls) == HedgeCount(old(calls)) + (if d.Hedge? then 1 else 0)
      ensures Safe(cfg, pool, old(calls), now, d)
    {
      hide OnSend, BreakerOf, Shown, SoundRun, Presents, Sound, Pack, Safe, HedgeCount;
      ghost var past := calls;
      RunSnoc(cfg, pool, past, Routed(now, d), merged);
      HedgeCountSnoc(past, Routed(now, d));
      LastIsSafe(cfg, pool, past, now, d);
      CountProbe(d);
      calls := calls + [Routed(now, d)];
      forall b | b in pool
        ensures EntryOf(b) == BreakerOf(cfg, calls, b)
      {
        BreakerStep(cfg, past, Routed(now, d), b);
      }
    }

    method CountProbe(d: Decision)
      modifies this`breakers
      ensures forall b :: EntryOf(b) == if d == Send(b) then OnSend(old(EntryOf(b))) else old(EntryOf(b))
    {
      if d.Send? && d.backend in breakers && Tag(breakers[d.backend].word) == HALF_OPEN {
        var br := breakers[d.backend];
        breakers := breakers[d.backend := br.(inflight := br.inflight + 1)];
      }
    }

    /** `on_response`: the breaker records the outcome, then the hedging layer its duration. */
    method OnResponse(backend: BackendId, status: Option<nat>, ok: bool, ms: real, now: nat)
      requires Valid()
      modifies this, inner
      ensures Valid()
      ensures var failed := !ok || (status.Some? &&
                (status.value >= 500 || status.value == 408 || status.value == 429));
              calls == old(calls) + [Answered(now, backend, failed)]
      ensures inner.durations == old(inner.durations)[backend := Heard(old(inner.durations), backend) + [ms]]
      ensures inner.wants == old(inner.wants)
    {
      hide OnOutcome, BreakerOf, SoundRun, Presented, Tracked, Fired, Heard, Trie.Holds, Pack;
      hide HedgeCount;
      ghost var past := calls;
      var failed := !ok || (status.Some? && CountsAsFailure(status.value));
      RecordOutcome(backend, failed, now);
      inner.OnResponse(backend, ms);
      calls := calls + [Answered(now, backend, failed)];
      RunSnoc(cfg, pool, past, Answered(now, backend, failed), []);
      HedgeCountSnoc(past, Answered(now, backend, failed));
      forall b | b in pool
        ensures EntryOf(b) == BreakerOf(cfg, calls, b)
      {
        BreakerStep(cfg, past, Answered(now, backend, failed), b);
      }
    }

    method RecordOutcome(backend: BackendId, failed: bool, now: nat)
      modifies this`breakers, this`transitionedAt
      ensures forall b :: EntryOf(b) ==
                if b == backend then OnOutcome(cfg, old(EntryOf(b)), failed, now) else old(EntryOf(b))
    {
      hide Pack, Tag, Failures;
      EnsureBackend(backend);
      var br := breakers[backend];
      var tag, failures := Tag(br.word), Failures(br.word);
      if tag == CLOSED && failed {
        var next := failures + 1;
        if next >= cfg.failureThreshold {
          breakers := breakers[backend := br.(word := Pack(OPEN, 0))];
          transitionedAt := transitionedAt[backend := now];
        } else {
          breakers := breakers[backend := br.(word := Pack(CLOSED, next))];
        }
      } else if tag == CLOSED && failures > 0 {
        breakers := breakers[backend := br.(word := Pack(CLOSED, 0))];
      } else if tag == HALF_OPEN && failed {
        breakers := breakers[backend := BackendBreaker(Pack(OPEN, 0), 0)];
        transitionedAt := transitionedAt[backend := now];
      } else if tag == HALF_OPEN {
        breakers := breakers[backend := BackendBreaker(Pack(CLOSED, 0), 0)];
      }
    }
  }

  lemma {:induction false} LastIsSafe(c: Config, pool: seq<BackendId>, past: seq<Call>, now: nat, d: Decision)
    requires pool != [] && SoundRun(c, pool, past + [Routed(now, d)])
    ensures Safe(c, pool, past, now, d)
  {
    hide SoundRun, Safe;
    var calls := past + [Routed(now, d)];
    StackSafety(c, pool, calls, |past|);
    assert calls[..|past|] == past;
  }

  /** What can be checked before any call: there is no hedge budget, the pool has one backend, or
      there is no probe budget. */
  predicate CannotHedgeProbes(c: Config, cfg: HedgedConfig, pool: seq<BackendId>)
    requires pool != []
  {
    cfg.maxFraction <= 0.0 || (forall x <- pool :: x == pool[0]) || c.halfOpenMax == 0
  }

  /** Then the probe ceiling is kept in every run of the stack. */
  lemma {:induction false} CeilingIsKept(arbiter: CircuitBreakerArbiter, b: BackendId)
    requires arbiter.Valid() && CannotHedgeProbes(arbiter.cfg, arbiter.inner.cfg, arbiter.pool)
    ensures ProbesOf(arbiter.cfg, arbiter.calls, b) <= arbiter.cfg.halfOpenMax
  {
    hide SoundRun, BreakerOf, HalfOpenAfter, HedgeCount, Tracked, ProbesOf;
    var c, f := arbiter.cfg, arbiter.inner.cfg.maxFraction;
    if c.halfOpenMax == 0 {
      NoBudgetNoProbes(c, arbiter.pool, arbiter.calls, b);
    } else {
      if f <= 0.0 {
        NoFraction(f, arbiter.inner.wants);
        NoneCounted(arbiter.calls);
      } else {
        LonePoolNeverHedges(c, arbiter.pool, arbiter.calls);
      }
      CeilingWithoutHedges(c, arbiter.pool, arbiter.calls, b);
    }
  }

  lemma {:induction false} RouteTwice(c: Config, e: Entry, now: nat)
    ensures OnRoute(c, OnRoute(c, e, now), now) == OnRoute(c, e, now)
  {
  }
}
