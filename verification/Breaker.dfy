/** One backend's circuit breaker: the packed word, and what a history of calls makes of it. */
module Breaker {
  import opened Basics

  const CLOSED := 0
  const OPEN := 1
  const HALF_OPEN := 2

  /** `failureThreshold` and `halfOpenMax` are u32; times are in nanoseconds. */
  datatype Config = Config(failureThreshold: nat, resetTimeout: nat, halfOpenMax: nat)

  datatype CircuitState = Closed | Open | HalfOpen

  function Pack(tag: nat, failures: nat): nat {
    tag * U32_LIMIT + failures % U32_LIMIT
  }

  function Tag(word: nat): nat {
    word / U32_LIMIT
  }

  function Failures(word: nat): nat {
    word % U32_LIMIT
  }

  function StateOf(tag: nat): CircuitState {
    if tag == OPEN then Open else if tag == HALF_OPEN then HalfOpen else Closed
  }

  /** 5xx, 408 and 429 count against a backend; other 4xx do not. */
  predicate CountsAsFailure(status: nat) {
    status >= 500 || status == 408 || status == 429
  }

  /** One backend's entry: the state word, probes admitted and not yet answered, and when it
      last changed to open or half-open. */
  datatype Entry = Entry(word: nat, inflight: nat, stamp: Option<nat>)

  const NEW_ENTRY := Entry(Pack(CLOSED, 0), 0, None)

  /** `maybe_transition_open_to_halfopen`, at the head of every route. */
  function OnRoute(c: Config, e: Entry, now: nat): Entry {
    if Tag(e.word) == OPEN && e.stamp.Some? && now - e.stamp.value >= c.resetTimeout
    then Entry(Pack(HALF_OPEN, 0), 0, Some(now))
    else e
  }

  /** What the inner routers are shown. */
  function Presented(c: Config, e: Entry): CircuitState {
    if Tag(e.word) == HALF_OPEN && e.inflight >= c.halfOpenMax then Open else StateOf(Tag(e.word))
  }

  /** A `Send` to this backend counts a probe; a `Hedge` does not. */
  function OnSend(e: Entry): Entry {
    if Tag(e.word) == HALF_OPEN then e.(inflight := e.inflight + 1) else e
  }

  function OnOutcome(c: Config, e: Entry, failed: bool, now: nat): Entry {
    var tag, failures := Tag(e.word), Failures(e.word);
    if tag == CLOSED && failed then
      if failures + 1 >= c.failureThreshold then e.(word := Pack(OPEN, 0), stamp := Some(now))
      else e.(word := Pack(CLOSED, failures + 1))
    else if tag == CLOSED && failures > 0 then e.(word := Pack(CLOSED, 0))
    else if tag == HALF_OPEN && failed then Entry(Pack(OPEN, 0), 0, Some(now))
    else if tag == HALF_OPEN then e.(word := Pack(CLOSED, 0), inflight := 0)
    else e
  }

  // ----- histories

  datatype Event = Route(now: nat, sent: bool) | Outcome(now: nat, failed: bool)

  function Apply(c: Config, e: Entry, ev: Event): Entry {
    match ev
    case Route(now, sent) => if sent then OnSend(OnRoute(c, e, now)) else OnRoute(c, e, now)
    case Outcome(now, failed) => OnOutcome(c, e, failed, now)
  }

  function After(c: Config, evs: seq<Event>): Entry {
    if evs == [] then NEW_ENTRY else Apply(c, After(c, evs[..|evs| - 1]), evs[|evs| - 1])
  }

  /** Failures in a row at the end of the backend's outcomes, whatever routes lie between. */
  function FailureRun(evs: seq<Event>): nat {
    if evs == [] then 0
    else
      var before, last := FailureRun(evs[..|evs| - 1]), evs[|evs| - 1];
      match last
      case Route(_, _) => before
      case Outcome(_, failed) => if failed then before + 1 else 0
  }

  predicate Monotone(evs: seq<Event>) {
    forall i, j :: 0 <= i < j < |evs| ==> evs[i].now <= evs[j].now
  }

  function Threshold(c: Config): nat {
    if c.failureThreshold < 1 then 1 else c.failureThreshold
  }

  predicate Legal(c: Config) {
    c.failureThreshold < U32_LIMIT && c.halfOpenMax < U32_LIMIT
  }

  lemma {:induction false} Unpacked(tag: nat, failures: nat)
    requires failures < U32_LIMIT
    ensures Tag(Pack(tag, failures)) == tag && Failures(Pack(tag, failures)) == failures
    ensures Pack(tag, failures) == tag * 0x1_0000_0000 + failures
  {
  }

  /** The packed word decodes to the three-state machine: closed with the length of the current
      failure run, always below the threshold; open or half-open with a clear counter and a
      stamp from the past. */
  lemma {:induction false} WordDecodes(c: Config, evs: seq<Event>)
    requires Legal(c) && Monotone(evs)
    ensures var e := After(c, evs);
            && Tag(e.word) <= HALF_OPEN
            && (Tag(e.word) == CLOSED ==> Failures(e.word) == FailureRun(evs) < Threshold(c))
            && (Tag(e.word) != CLOSED ==>
                  Failures(e.word) == 0 && e.stamp.Some? && evs != [] && e.stamp.value <= evs[|evs| - 1].now)
  {
    hide Pack, Tag, Failures;
    Unpacked(CLOSED, 0);
    Unpacked(OPEN, 0);
    Unpacked(HALF_OPEN, 0);
    if evs != [] {
      var before := evs[..|evs| - 1];
      WordDecodes(c, before);
      var f := Failures(After(c, before).word);
      if f + 1 < Threshold(c) {
        Unpacked(CLOSED, f + 1);
      }
      if before != [] {
        assert before[|before| - 1] == evs[|before| - 1];
      }
    }
  }

  /** A closed breaker trips on exactly the failure that completes a run of the threshold. */
  lemma {:induction false} TripsAtThreshold(c: Config, evs: seq<Event>, ev: Event)
    requires Legal(c) && Monotone(evs + [ev]) && Tag(After(c, evs).word) == CLOSED
    ensures Tag(After(c, evs + [ev]).word) == OPEN <==> ev.Outcome? && FailureRun(evs + [ev]) == Threshold(c)
    ensures Tag(After(c, evs + [ev]).word) == OPEN ==> After(c, evs + [ev]).stamp == Some(ev.now)
  {
    hide Pack, Tag, Failures;
    assert (evs + [ev])[..|evs|] == evs;
    assert Monotone(evs) by { assert forall i :: 0 <= i < |evs| ==> (evs + [ev])[i] == evs[i]; }
    WordDecodes(c, evs);
    var f := Failures(After(c, evs).word);
    Unpacked(CLOSED, 0);
    Unpacked(OPEN, 0);
    if f + 1 < Threshold(c) {
      Unpacked(CLOSED, f + 1);
    }
  }

  /** While less than the reset timeout has passed since it opened, nothing closes it. */
  lemma {:induction false} OpenLasts(c: Config, evs: seq<Event>, more: seq<Event>)
    requires Tag(After(c, evs).word) == OPEN && After(c, evs).stamp.Some?
    requires forall i :: 0 <= i < |more| ==> more[i].now - After(c, evs).stamp.value < c.resetTimeout
    ensures After(c, evs + more) == After(c, evs)
    decreases |more|
  {
    if more == [] {
      assert evs + more == evs;
    } else {
      var init, last := more[..|more| - 1], more[|more| - 1];
      OpenLasts(c, evs, init);
      assert (evs + more)[..|evs + more| - 1] == evs + init;
    }
  }

  /** The first route at or after the reset timeout half-opens it, with a clear probe count. */
  lemma {:induction false} HalfOpensAfterTimeout(c: Config, evs: seq<Event>, now: nat)
    requires Legal(c) && Monotone(evs + [Route(now, false)]) && Tag(After(c, evs).word) == OPEN
    ensures var e := After(c, evs);
            var r := After(c, evs + [Route(now, false)]);
            e.stamp.Some? && if now - e.stamp.value >= c.resetTimeout
                             then Tag(r.word) == HALF_OPEN && r.inflight == 0 else r == e
  {
    var all := evs + [Route(now, false)];
    assert all[..|evs|] == evs;
    assert Monotone(evs) by { assert forall i :: 0 <= i < |evs| ==> all[i] == evs[i]; }
    WordDecodes(c, evs);
    Unpacked(HALF_OPEN, 0);
  }

  /** The first answered probe settles a half-open breaker: failure opens it again from now,
      success closes it with a clear counter; either way no probe stays counted. */
  lemma {:induction false} ProbeSettles(c: Config, evs: seq<Event>, now: nat, failed: bool)
    requires Legal(c) && Tag(After(c, evs).word) == HALF_OPEN
    ensures var r := After(c, evs + [Outcome(now, failed)]);
            && r.inflight == 0 && Failures(r.word) == 0
            && Tag(r.word) == (if failed then OPEN else CLOSED)
            && (failed ==> r.stamp == Some(now))
  {
    assert (evs + [Outcome(now, failed)])[..|evs|] == evs;
    Unpacked(OPEN, 0);
    Unpacked(CLOSED, 0);
  }

  /** Outcomes that arrive while the breaker is open are ignored, whenever they arrive. */
  lemma {:induction false} OpenIgnoresOutcomes(c: Config, evs: seq<Event>, now: nat, failed: bool)
    requires Tag(After(c, evs).word) == OPEN
    ensures After(c, evs + [Outcome(now, failed)]) == After(c, evs)
  {
    assert (evs + [Outcome(now, failed)])[..|evs|] == evs;
  }
}
