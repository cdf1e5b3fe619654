/** What the routers of the stack exchange, and what a sound decision is. */
module Routing {
  import opened Basics
  import opened Breaker

  const BAD_GATEWAY := 502
  const SERVICE_UNAVAILABLE := 503

  datatype Signal = Signal(circuit: CircuitState, gpu: Option<real>, p99: real)

  const DEFAULT_SIGNAL := Signal(Closed, None, 0.0)

  type Signals = seq<Signal>

  /** Out of range reads as healthy. */
  function Get(s: Signals, b: BackendId): (r: Signal)
    ensures b >= |s| ==> r.circuit == Closed && r.gpu.None?
  {
    if b < |s| then s[b] else DEFAULT_SIGNAL
  }

  datatype Decision = Send(backend: BackendId) | Hedge(backends: seq<BackendId>) | Reject(status: nat)

  /** A request, as far as routing reads it: the body's length and its chunk hashes. */
  datatype Request = Request(bodyLength: nat, hashes: seq<nat>)

  predicate Admits(s: Signals, b: BackendId) {
    Get(s, b).circuit != Open
  }

  /** A decision that respects the circuit states it was shown: it names only admitted pool
      members, hedges to a closed second choice, and refuses exactly when nothing is admitted. */
  predicate Sound(pool: seq<BackendId>, s: Signals, d: Decision) {
    match d
    case Send(b) => b in pool && Admits(s, b)
    case Hedge(bs) => |bs| == 2 && bs[0] != bs[1] && bs[0] in pool && bs[1] in pool
                      && Admits(s, bs[0]) && Get(s, bs[1]).circuit == Closed
    case Reject(status) => status == SERVICE_UNAVAILABLE && forall b <- pool :: !Admits(s, b)
  }
}

/** The whole stack over runs of non-overlapping calls on a fixed pool. */
module StackRuns {
  import opened Basics
  import opened Breaker
  import opened Routing

  /** One call of the outermost router: a routing decision, or an upstream outcome. */
  datatype Call = Routed(now: nat, decision: Decision) | Answered(now: nat, backend: BackendId, failed: bool)

  /** The calls seen by backend `b`'s breaker. */
  function EventsOf(calls: seq<Call>, b: BackendId): seq<Event> {
    if calls == [] then []
    else
      var before, last := EventsOf(calls[..|calls| - 1], b), calls[|calls| - 1];
      match last
      case Routed(now, d) => before + [Route(now, d == Send(b))]
      case Answered(now, a, failed) => if a == b then before + [Outcome(now, failed)] else before
  }

  /** Backend `b`'s breaker after the calls. */
  function BreakerOf(c: Config, calls: seq<Call>, b: BackendId): Entry {
    After(c, EventsOf(calls, b))
  }

  /** Backend `b`'s breaker as the next call, a route at `now`, presents it. */
  function Shown(c: Config, calls: seq<Call>, b: BackendId, now: nat): Entry {
    OnRoute(c, BreakerOf(c, calls, b), now)
  }

  /** Signals that carry the presented states of the pool. */
  ghost predicate Presents(c: Config, pool: seq<BackendId>, calls: seq<Call>, now: nat, s: Signals) {
    forall b <- pool :: Get(s, b).circuit == Presented(c, Shown(c, calls, b, now))
  }

  /** A run in which every routing decision is sound for the states presented to it. */
  ghost predicate SoundRun(c: Config, pool: seq<BackendId>, calls: seq<Call>) {
    forall i :: 0 <= i < |calls| && calls[i].Routed? ==>
      exists s :: Presents(c, pool, calls[..i], calls[i].now, s) && Sound(pool, s, calls[i].decision)
  }

  predicate Names(d: Decision, b: BackendId) {
    d == Send(b) || (d.Hedge? && b in d.backends)
  }

  /** Closed, or half-open with probe budget to spare. */
  predicate Eligible(c: Config, e: Entry) {
    Tag(e.word) == CLOSED || (Tag(e.word) == HALF_OPEN && e.inflight < c.halfOpenMax)
  }

  lemma {:induction false} TagsOfRuns(c: Config, evs: seq<Event>)
    ensures Tag(After(c, evs).word) <= HALF_OPEN
  {
    if evs != [] {
      TagsOfRuns(c, evs[..|evs| - 1]);
    }
  }

  lemma {:induction false} PresentedIffEligible(c: Config, calls: seq<Call>, b: BackendId, now: nat)
    ensures Presented(c, Shown(c, calls, b, now)) != Open <==> Eligible(c, Shown(c, calls, b, now))
    ensures Presented(c, Shown(c, calls, b, now)) == Closed <==> Tag(Shown(c, calls, b, now).word) == CLOSED
  {
    TagsOfRuns(c, EventsOf(calls, b));
  }

  /** A named backend is closed or half-open with spare budget, a hedge names two different
      backends the second of which is closed, and the call is refused with 503 exactly when no
      pool member is eligible. */
  ghost predicate Safe(c: Config, pool: seq<BackendId>, past: seq<Call>, now: nat, d: Decision) {
    && (forall b :: Names(d, b) ==> b in pool && Eligible(c, Shown(c, past, b, now)))
    && (d.Hedge? ==> |d.backends| == 2 && d.backends[0] != d.backends[1]
                     && Tag(Shown(c, past, d.backends[1], now).word) == CLOSED)
    && (d == Reject(503) <==> forall b <- pool :: !Eligible(c, Shown(c, past, b, now)))
  }

  /** Safety of the whole stack, at every routing call of every run. */
  lemma {:induction false} StackSafety(c: Config, pool: seq<BackendId>, calls: seq<Call>, i: nat)
    requires pool != [] && SoundRun(c, pool, calls) && i < |calls| && calls[i].Routed?
    ensures Safe(c, pool, calls[..i], calls[i].now, calls[i].decision)
  {
    hide Shown, Eligible, Presented;
    var d, now, past := calls[i].decision, calls[i].now, calls[..i];
    var s :| Presents(c, pool, past, now, s) && Sound(pool, s, d);
    forall b | b in pool
      ensures Admits(s, b) <==> Eligible(c, Shown(c, past, b, now))
      ensures Get(s, b).circuit == Closed <==> Tag(Shown(c, past, b, now).word) == CLOSED
    {
      PresentedIffEligible(c, past, b, now);
    }
    if d.Send? {
      assert Eligible(c, Shown(c, past, d.backend, now));
    }
  }

  /** The probe counter never exceeds its ceiling, in any sound run. */
  lemma {:induction false} InflightBounded(c: Config, pool: seq<BackendId>, calls: seq<Call>, b: BackendId)
    requires pool != [] && SoundRun(c, pool, calls)
    ensures After(c, EventsOf(calls, b)).inflight <= c.halfOpenMax
  {
    if calls != [] {
      var last := |calls| - 1;
      var before := calls[..last];
      SoundPrefix(c, pool, calls, last);
      InflightBounded(c, pool, before, b);
      var evs := EventsOf(calls, b);
      if calls[last].Routed? {
        StackSafety(c, pool, calls, last);
        assert evs[..|evs| - 1] == EventsOf(before, b);
        assert Names(calls[last].decision, b) ==> Eligible(c, Shown(c, before, b, calls[last].now));
      } else if calls[last].backend == b {
        assert evs[..|evs| - 1] == EventsOf(before, b);
      }
    }
  }

  lemma {:induction false} SoundPrefix(c: Config, pool: seq<BackendId>, calls: seq<Call>, n: nat)
    requires SoundRun(c, pool, calls) && n <= |calls|
    ensures SoundRun(c, pool, calls[..n])
  {
    forall i | 0 <= i < n && calls[..n][i].Routed?
      ensures exists s :: Presents(c, pool, calls[..n][..i], calls[..n][i].now, s)
                          && Sound(pool, s, calls[..n][i].decision)
    {
      assert calls[..n][..i] == calls[..i] && calls[..n][i] == calls[i];
    }
  }

  /** One more call: what it does to the breaker. */
  lemma {:induction false} BreakerStep(c: Config, past: seq<Call>, call: Call, b: BackendId)
    ensures BreakerOf(c, past + [call], b) ==
            match call
            case Routed(now, d) => var e := Shown(c, past, b, now); if d == Send(b) then OnSend(e) else e
            case Answered(now, a, failed) =>
              if a == b then OnOutcome(c, BreakerOf(c, past, b), failed, now) else BreakerOf(c, past, b)
  {
    hide OnSend, OnOutcome, OnRoute;
    var calls := past + [call];
    assert calls[..|calls| - 1] == past;
    var evs := EventsOf(calls, b);
    if call.Routed? || call.backend == b {
      assert evs[..|evs| - 1] == EventsOf(past, b);
    }
  }

  lemma {:induction false} TagOfBreaker(c: Config, calls: seq<Call>, b: BackendId)
    ensures Tag(BreakerOf(c, calls, b).word) <= HALF_OPEN
  {
    TagsOfRuns(c, EventsOf(calls, b));
  }

  lemma {:induction false} RunSnoc(c: Config, pool: seq<BackendId>, past: seq<Call>, call: Call, s: Signals)
    requires SoundRun(c, pool, past)
    requires call.Routed? ==> Presents(c, pool, past, call.now, s) && Sound(pool, s, call.decision)
    ensures SoundRun(c, pool, past + [call])
  {
    hide Presents, Sound;
    var calls := past + [call];
    forall i | 0 <= i < |calls| && calls[i].Routed?
      ensures exists s :: Presents(c, pool, calls[..i], calls[i].now, s) && Sound(pool, s, calls[i].decision)
    {
      if i < |past| {
        assert calls[..i] == past[..i] && calls[i] == past[i];
      } else {
        assert calls[..i] == past;
      }
    }
  }
}
