/** Probes of a half-open backend: how many decisions name it, how many of these its budget
    counts, and when the two differ. */
module Probes {
  import opened Basics
  import opened Breaker
  import opened Routing
  import opened StackRuns

  predicate HalfOpenAfter(c: Config, calls: seq<Call>, b: BackendId) {
    Tag(BreakerOf(c, calls, b).word) == HALF_OPEN
  }

  /** Hedged with `b` as primary. */
  predicate HedgedVia(d: Decision, b: BackendId) {
    d.Hedge? && d.backends != [] && d.backends[0] == b
  }

  /** Decisions that name `b`, by `Send` or by `Hedge`, since it last became half-open. */
  function ProbesOf(c: Config, calls: seq<Call>, b: BackendId): nat {
    if calls == [] || !HalfOpenAfter(c, calls, b) then 0
    else
      var past, last := calls[..|calls| - 1], calls[|calls| - 1];
      ProbesOf(c, past, b) + (if last.Routed? && Names(last.decision, b) then 1 else 0)
  }

  /** Those among them that hedge with `b` as primary. */
  function HedgedProbesOf(c: Config, calls: seq<Call>, b: BackendId): nat {
    if calls == [] || !HalfOpenAfter(c, calls, b) then 0
    else
      var past, last := calls[..|calls| - 1], calls[|calls| - 1];
      HedgedProbesOf(c, past, b) + (if last.Routed? && HedgedVia(last.decision, b) then 1 else 0)
  }

  lemma {:induction false} TagsAfter(c: Config)
    ensures Tag(Pack(OPEN, 0)) == OPEN && Tag(Pack(CLOSED, 0)) == CLOSED && Tag(Pack(HALF_OPEN, 0)) == HALF_OPEN
  {
  }

  /** The counter of a half-open backend: zero if it just became so, one more for a `Send`. */
  lemma {:induction false} InflightStep(c: Config, past: seq<Call>, call: Call, b: BackendId)
    requires HalfOpenAfter(c, past + [call], b)
    ensures BreakerOf(c, past + [call], b).inflight ==
            (if HalfOpenAfter(c, past, b) then BreakerOf(c, past, b).inflight else 0)
            + (if call.Routed? && call.decision == Send(b) then 1 else 0)
  {
    hide BreakerOf;
    BreakerStep(c, past, call, b);
    TagOfBreaker(c, past, b);
  }

  /** In every sound run, every decision that names a half-open backend is counted against its
      probe budget but for those that hedge through it: the two numbers add up to all of them. */
  lemma {:induction false} ProbesAddUp(c: Config, pool: seq<BackendId>, calls: seq<Call>, b: BackendId)
    requires pool != [] && SoundRun(c, pool, calls)
    ensures HalfOpenAfter(c, calls, b) ==>
              ProbesOf(c, calls, b) == BreakerOf(c, calls, b).inflight + HedgedProbesOf(c, calls, b)
  {
    if calls == [] {
      TagsAfter(c);
    } else if HalfOpenAfter(c, calls, b) {
      var past, last := calls[..|calls| - 1], calls[|calls| - 1];
      assert calls == past + [last];
      SoundPrefix(c, pool, calls, |past|);
      ProbesAddUp(c, pool, past, b);
      InflightStep(c, past, last, b);
      if last.Routed? {
        NamedHalfOpen(c, pool, calls, b);
      }
    }
  }

  /** A half-open backend is named by `Send` or as the primary of a hedge, never as its second. */
  lemma {:induction false} NamedHalfOpen(c: Config, pool: seq<BackendId>, calls: seq<Call>, b: BackendId)
    requires pool != [] && SoundRun(c, pool, calls) && calls != [] && calls[|calls| - 1].Routed?
    requires HalfOpenAfter(c, calls, b)
    ensures var d := calls[|calls| - 1].decision; Names(d, b) <==> d == Send(b) || HedgedVia(d, b)
  {
    hide BreakerOf, Shown, Eligible, SoundRun, OnSend, Tag;
    var past, last := calls[..|calls| - 1], calls[|calls| - 1];
    assert calls == past + [last];
    StackSafety(c, pool, calls, |past|);
    BreakerStep(c, past, last, b);
    TagKept(Shown(c, past, b, last.now));
  }

  lemma {:induction false} TagKept(e: Entry)
    ensures Tag(OnSend(e).word) == Tag(e.word)
  {
  }

  /** The ceiling on concurrent probes, `half_open_max`, is kept exactly while the hedges through
      the backend fit in what its counted probes leave. */
  lemma {:induction false} ProbeCeilingIff(c: Config, pool: seq<BackendId>, calls: seq<Call>, b: BackendId)
    requires pool != [] && SoundRun(c, pool, calls) && HalfOpenAfter(c, calls, b)
    ensures var counted := BreakerOf(c, calls, b).inflight;
            && counted <= c.halfOpenMax
            && (ProbesOf(c, calls, b) == counted <==> HedgedProbesOf(c, calls, b) == 0)
            && (ProbesOf(c, calls, b) <= c.halfOpenMax <==>
                  HedgedProbesOf(c, calls, b) <= c.halfOpenMax - counted)
  {
    hide After, EventsOf, SoundRun;
    ProbesAddUp(c, pool, calls, b);
    InflightBounded(c, pool, calls, b);
  }

  // ----- runs without hedges

  predicate NoHedge(calls: seq<Call>) {
    forall call <- calls :: call.Routed? ==> !call.decision.Hedge?
  }

  function HedgeCount(calls: seq<Call>): nat {
    if calls == [] then 0
    else
      var last := calls[|calls| - 1];
      HedgeCount(calls[..|calls| - 1]) + (if last.Routed? && last.decision.Hedge? then 1 else 0)
  }

  lemma {:induction false} HedgeCountSnoc(calls: seq<Call>, call: Call)
    ensures HedgeCount(calls + [call]) ==
            HedgeCount(calls) + (if call.Routed? && call.decision.Hedge? then 1 else 0)
  {
    assert (calls + [call])[..|calls|] == calls;
  }

  lemma {:induction false} NoneCounted(calls: seq<Call>)
    ensures HedgeCount(calls) == 0 <==> NoHedge(calls)
  {
    if calls != [] {
      NoneCounted(calls[..|calls| - 1]);
      assert calls == calls[..|calls| - 1] + [calls[|calls| - 1]];
    }
  }

  lemma {:induction false} NoHedgedProbes(c: Config, calls: seq<Call>, b: BackendId)
    requires NoHedge(calls)
    ensures HedgedProbesOf(c, calls, b) == 0
  {
    hide HalfOpenAfter;
    if calls != [] {
      NoHedgedProbes(c, calls[..|calls| - 1], b);
      assert calls[|calls| - 1] in calls;
    }
  }

  /** Without hedges the counter is exact, so the ceiling is kept. */
  lemma {:induction false} CeilingWithoutHedges(c: Config, pool: seq<BackendId>, calls: seq<Call>, b: BackendId)
    requires pool != [] && SoundRun(c, pool, calls) && NoHedge(calls)
    ensures ProbesOf(c, calls, b) <= c.halfOpenMax
    ensures HalfOpenAfter(c, calls, b) ==> ProbesOf(c, calls, b) == BreakerOf(c, calls, b).inflight
  {
    hide SoundRun, BreakerOf;
    if HalfOpenAfter(c, calls, b) {
      NoHedgedProbes(c, calls, b);
      ProbeCeilingIff(c, pool, calls, b);
    }
  }

  /** Without a probe budget no decision names a half-open backend. */
  lemma {:induction false} NoBudgetNoProbes(c: Config, pool: seq<BackendId>, calls: seq<Call>, b: BackendId)
    requires pool != [] && SoundRun(c, pool, calls) && c.halfOpenMax == 0
    ensures ProbesOf(c, calls, b) == 0
  {
    hide BreakerOf, SoundRun;
    if calls != [] && HalfOpenAfter(c, calls, b) {
      var past, last := calls[..|calls| - 1], calls[|calls| - 1];
      assert calls == past + [last];
      SoundPrefix(c, pool, calls, |past|);
      NoBudgetNoProbes(c, pool, past, b);
      if last.Routed? {
        StackSafety(c, pool, calls, |past|);
        BreakerStep(c, past, last, b);
        HalfOpenNotNamed(c, pool, past, last.now, last.decision, b);
      }
    }
  }

  lemma {:induction false} HalfOpenNotNamed(
    c: Config, pool: seq<BackendId>, past: seq<Call>, now: nat, d: Decision, b: BackendId)
    requires Safe(c, pool, past, now, d) && c.halfOpenMax == 0
    requires var e := Shown(c, past, b, now); Tag((if d == Send(b) then OnSend(e) else e).word) == HALF_OPEN
    ensures !Names(d, b)
  {
    hide Shown, Names;
    TagKept(Shown(c, past, b, now));
  }

  /** A pool of one backend is never hedged. */
  lemma {:induction false} LonePoolNeverHedges(c: Config, pool: seq<BackendId>, calls: seq<Call>)
    requires pool != [] && SoundRun(c, pool, calls) && forall b <- pool :: b == pool[0]
    ensures NoHedge(calls)
  {
    forall call | call in calls && call.Routed?
      ensures !call.decision.Hedge?
    {
      var i :| 0 <= i < |calls| && calls[i] == call;
      StackSafety(c, pool, calls, i);
      LoneNames(c, pool, calls[..i], call.now, call.decision);
    }
  }

  lemma {:induction false} LoneNames(c: Config, pool: seq<BackendId>, past: seq<Call>, now: nat, d: Decision)
    requires pool != [] && Safe(c, pool, past, now, d) && forall b <- pool :: b == pool[0]
    ensures !d.Hedge?
  {
    hide Safe;
    if d.Hedge? {
      HedgeNamesTwo(c, pool, past, now, d);
    }
  }

  lemma {:induction false} HedgeNamesTwo(c: Config, pool: seq<BackendId>, past: seq<Call>, now: nat, d: Decision)
    requires Safe(c, pool, past, now, d) && d.Hedge?
    ensures exists x, y :: x in pool && y in pool && x != y
  {
    hide Shown, Eligible;
    assert Names(d, d.backends[0]) && Names(d, d.backends[1]);
  }

  // ----- a spent budget

  predicate NoAnswer(calls: seq<Call>, b: BackendId) {
    forall call <- calls :: call.Answered? ==> call.backend != b
  }

  /** A half-open backend whose budget is spent stays as it is, and no decision names it, until
      one of its own answers arrives. */
  lemma {:induction false} SpentUntilAnswered(
    c: Config, pool: seq<BackendId>, calls: seq<Call>, more: seq<Call>, b: BackendId)
    requires pool != [] && SoundRun(c, pool, calls + more) && NoAnswer(more, b)
    requires HalfOpenAfter(c, calls, b) && BreakerOf(c, calls, b).inflight >= c.halfOpenMax
    ensures BreakerOf(c, calls + more, b) == BreakerOf(c, calls, b)
    ensures forall call <- more :: call.Routed? ==> !Names(call.decision, b)
    decreases |more|
  {
    hide BreakerOf, SoundRun;
    if more == [] {
      assert calls + more == calls;
    } else {
      var before, last := more[..|more| - 1], more[|more| - 1];
      var past := calls + before;
      assert more == before + [last] && calls + more == past + [last];
      assert last in more && NoAnswer(before, b);
      assert (calls + more)[..|past|] == past;
      SoundPrefix(c, pool, calls + more, |past|);
      SpentUntilAnswered(c, pool, calls, before, b);
      BreakerStep(c, past, last, b);
      if last.Routed? {
        StackSafety(c, pool, calls + more, |past|);
        SpentNotNamed(c, pool, past, last.now, last.decision, b);
      }
    }
  }

  lemma {:induction false} SpentNotNamed(
    c: Config, pool: seq<BackendId>, past: seq<Call>, now: nat, d: Decision, b: BackendId)
    requires Safe(c, pool, past, now, d)
    requires HalfOpenAfter(c, past, b) && BreakerOf(c, past, b).inflight >= c.halfOpenMax
    ensures Shown(c, past, b, now) == BreakerOf(c, past, b) && !Names(d, b)
  {
    hide BreakerOf, Names;
  }

  // ----- runs that exceed the ceiling

  function Repeat(call: Call, k: nat): (calls: seq<Call>)
    ensures |calls| == k
  {
    seq(k, _ => call)
  }

  lemma {:induction false} RepeatSnoc(call: Call, k: nat)
    ensures Repeat(call, k + 1) == Repeat(call, k) + [call]
  {
  }

  lemma {:induction false} RepeatAfter(past: seq<Call>, call: Call, k: nat)
    ensures past + Repeat(call, k + 1) == (past + Repeat(call, k)) + [call]
    ensures past + Repeat(call, 0) == past
  {
    RepeatSnoc(call, k);
  }

  /** While every breaker is closed, `b` is sent to: nothing changes. */
  lemma {:induction false} Sending(c: Config, b: BackendId, k: nat, x: BackendId)
    ensures BreakerOf(c, Repeat(Routed(0, Send(b)), k), x) == NEW_ENTRY
  {
    if k > 0 {
      hide BreakerOf;
      var call := Routed(0, Send(b));
      Sending(c, b, k - 1, x);
      RepeatSnoc(call, k - 1);
      BreakerStep(c, Repeat(call, k - 1), call, x);
    }
  }

  /** `b` fails again and again: its breaker opens at the threshold and stays open. */
  lemma {:induction false} Failing(c: Config, past: seq<Call>, b: BackendId, j: nat, x: BackendId)
    requires Legal(c) && BreakerOf(c, past, x) == NEW_ENTRY
    ensures BreakerOf(c, past + Repeat(Answered(0, b, true), j), x) ==
            if x != b then NEW_ENTRY
            else if j < Threshold(c) then Entry(Pack(CLOSED, j), 0, None)
            else Entry(Pack(OPEN, 0), 0, Some(0))
  {
    hide BreakerOf;
    var call := Answered(0, b, true);
    if j == 0 {
      RepeatAfter(past, call, 0);
    } else {
      Failing(c, past, b, j - 1, x);
      RepeatAfter(past, call, j - 1);
      BreakerStep(c, past + Repeat(call, j - 1), call, x);
      if j - 1 < Threshold(c) {
        Unpacked(CLOSED, j - 1);
      }
    }
  }

  /** Requests are hedged through `b` at the reset timeout: it becomes half-open and stays so,
      with nothing counted. */
  lemma {:induction false} Hedging(c: Config, past: seq<Call>, a: BackendId, b: BackendId, n: nat, x: BackendId)
    requires BreakerOf(c, past, x) == if x == b then Entry(Pack(OPEN, 0), 0, Some(0)) else NEW_ENTRY
    ensures BreakerOf(c, past + Repeat(Routed(c.resetTimeout, Hedge([b, a])), n), x) ==
            if x == b && n > 0 then Entry(Pack(HALF_OPEN, 0), 0, Some(c.resetTimeout)) else BreakerOf(c, past, x)
  {
    hide BreakerOf;
    var call := Routed(c.resetTimeout, Hedge([b, a]));
    if n == 0 {
      RepeatAfter(past, call, 0);
    } else {
      Hedging(c, past, a, b, n - 1, x);
      RepeatAfter(past, call, n - 1);
      BreakerStep(c, past + Repeat(call, n - 1), call, x);
    }
  }

  /** `k` requests are sent to `b`, which then fails `m` times, and `n` requests are hedged
      through it with `a` as second choice. */
  function Opening(b: BackendId, k: nat, m: nat): seq<Call> {
    Repeat(Routed(0, Send(b)), k) + Repeat(Answered(0, b, true), m)
  }

  function HedgeRun(c: Config, a: BackendId, b: BackendId, k: nat, m: nat, n: nat): seq<Call> {
    Opening(b, k, m) + Repeat(Routed(c.resetTimeout, Hedge([b, a])), n)
  }

  lemma {:induction false} HedgeRunStates(
    c: Config, a: BackendId, b: BackendId, k: nat, m: nat, n: nat, x: BackendId)
    requires Legal(c) && m >= Threshold(c)
    ensures BreakerOf(c, HedgeRun(c, a, b, k, m, n), x) ==
            if x != b then NEW_ENTRY
            else if n == 0 then Entry(Pack(OPEN, 0), 0, Some(0))
            else Entry(Pack(HALF_OPEN, 0), 0, Some(c.resetTimeout))
  {
    hide BreakerOf;
    Sending(c, b, k, x);
    Failing(c, Repeat(Routed(0, Send(b)), k), b, m, x);
    Hedging(c, Opening(b, k, m), a, b, n, x);
  }

  /** What the next route presents: `b` half-open with its whole budget, the others closed. */
  lemma {:induction false} HedgeRunShown(
    c: Config, a: BackendId, b: BackendId, k: nat, m: nat, n: nat, x: BackendId)
    requires Legal(c) && m >= Threshold(c) && c.halfOpenMax > 0
    ensures Presented(c, Shown(c, HedgeRun(c, a, b, k, m, n), x, c.resetTimeout)) ==
            if x == b then HalfOpen else Closed
  {
    hide HedgeRun, BreakerOf;
    HedgeRunStates(c, a, b, k, m, n, x);
  }

  lemma {:induction false} HedgeRunHalfOpen(c: Config, a: BackendId, b: BackendId, k: nat, m: nat, n: nat)
    requires Legal(c) && m >= Threshold(c)
    ensures HalfOpenAfter(c, HedgeRun(c, a, b, k, m, n), b) <==> n > 0
    ensures BreakerOf(c, HedgeRun(c, a, b, k, m, n), b).inflight == 0
  {
    hide BreakerOf, HedgeRun;
    HedgeRunStates(c, a, b, k, m, n, b);
  }

  /** Every hedge of the run names the half-open backend and none is counted. */
  lemma {:induction false} HedgesAreUncounted(c: Config, a: BackendId, b: BackendId, k: nat, m: nat, n: nat)
    requires Legal(c) && m >= Threshold(c)
    ensures var calls := HedgeRun(c, a, b, k, m, n);
            && ProbesOf(c, calls, b) == HedgedProbesOf(c, calls, b) == n
            && BreakerOf(c, calls, b).inflight == 0
  {
    hide HalfOpenAfter, BreakerOf, HedgeRun, Threshold;
    HedgeRunHalfOpen(c, a, b, k, m, n);
    if n > 0 {
      HedgesAreUncounted(c, a, b, k, m, n - 1);
      LastHedge(c, a, b, k, m, n);
    }
  }

  lemma {:induction false} LastHedge(c: Config, a: BackendId, b: BackendId, k: nat, m: nat, n: nat)
    requires n > 0
    ensures var calls := HedgeRun(c, a, b, k, m, n);
            && calls != [] && calls[..|calls| - 1] == HedgeRun(c, a, b, k, m, n - 1)
            && calls[|calls| - 1] == Routed(c.resetTimeout, Hedge([b, a]))
  {
    hide Opening;
    RepeatAfter(Opening(b, k, m), Routed(c.resetTimeout, Hedge([b, a])), n - 1);
  }
}
