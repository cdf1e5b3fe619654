/** The token bucket: one packed word per subject, lazily refilled and updated by a
    compare-and-swap loop. */
module TokenBucket {
  import opened Basics

  const SCALE := 0x1_0000
  const NANOS_PER_MS := 1_000_000

  datatype CostDimension = PerRequest | PromptTokens

  /** `retryFloor` is in nanoseconds. */
  datatype Config = Config(rate: nat, burst: nat, cost: CostDimension, retryFloor: nat)

  /** `new` panics on a zero rate or burst; both are u32. */
  predicate Legal(c: Config) {
    0 < c.rate < U32_LIMIT && 0 < c.burst < U32_LIMIT
  }

  // ----- the packed word

  function Pack(tokens: nat, ms: nat): (word: nat) {
    Min(tokens, U32_LIMIT - 1) * U32_LIMIT + ms % U32_LIMIT
  }

  function Tokens(word: nat): nat {
    word / U32_LIMIT % U32_LIMIT
  }

  function StampMs(word: nat): nat {
    word % U32_LIMIT
  }

  lemma {:induction false} UnpackPack(tokens: nat, ms: nat)
    ensures Pack(tokens, ms) < U64_LIMIT
    ensures Tokens(Pack(tokens, ms)) == Min(tokens, U32_LIMIT - 1)
    ensures StampMs(Pack(tokens, ms)) == ms % U32_LIMIT
  {
  }

  // ----- the arithmetic of one attempt

  function BurstScaled(c: Config): (b: nat)
    ensures b < U32_LIMIT
  {
    Min(c.burst * SCALE, U32_LIMIT - 1)
  }

  function CostScaled(c: Config, requested: nat): nat {
    (match c.cost
     case PerRequest => 1
     case PromptTokens => if requested < 1 then 1 else requested) * SCALE
  }

  /** u32 wrapping subtraction. */
  function Elapsed(now: nat, last: nat): (e: nat)
    ensures e < U32_LIMIT
  {
    (now - last) % U32_LIMIT
  }

  /** The u64 product wraps in a release build. */
  function Refill(c: Config, elapsed: nat): nat {
    elapsed * c.rate * SCALE % U64_LIMIT / 1000
  }

  function AfterRefill(c: Config, word: nat, now: nat): (t: nat)
    ensures t <= BurstScaled(c)
  {
    Min(Tokens(word) + Refill(c, Elapsed(now, StampMs(word))), BurstScaled(c))
  }

  function CeilDiv(a: nat, b: nat): nat
    requires b > 0
  {
    (a + b - 1) / b
  }

  function RetryAfter(c: Config, deficit: nat): (nanos: nat) {
    var perMs := c.rate * SCALE / 1000;
    var ms := CeilDiv(deficit, if perMs < 1 then 1 else perMs);
    if ms * NANOS_PER_MS < c.retryFloor then c.retryFloor else ms * NANOS_PER_MS
  }

  /** What one pass of the loop wants to do, having loaded `word`. */
  datatype Attempt = Allow(next: nat) | Deny(next: nat, retryAfter: nat)

  function Try(c: Config, word: nat, now: nat, requested: nat): Attempt {
    var have, cost := AfterRefill(c, word, now), CostScaled(c, requested);
    if have < cost then Deny(Pack(have, now), RetryAfter(c, cost - have))
    else Allow(Pack(have - cost, now))
  }

  /** The product fits u64 for every elapsed time exactly up to 65536 tokens a second. */
  lemma {:induction false} ProductFitsIff(c: Config)
    ensures (forall e: nat :: e < U32_LIMIT ==> e * c.rate * SCALE < U64_LIMIT) <==> c.rate <= 65536
  {
    if c.rate <= 65536 {
      forall e: nat | e < U32_LIMIT
        ensures e * c.rate * SCALE < U64_LIMIT
      {
        assert e * c.rate <= (U32_LIMIT - 1) * 65536 by { MulBoth(e, U32_LIMIT - 1, c.rate, 65536); }
      }
    } else {
      var e := U32_LIMIT - 1;
      MulBoth(e, e, 65537, c.rate);
      assert e * c.rate * SCALE >= U64_LIMIT;
    }
  }

  lemma {:induction false} MulBoth(a: nat, b: nat, x: nat, y: nat)
    requires a <= b && x <= y
    ensures a * x <= b * y
  {
    assert a * x <= b * x;
    assert b * x <= b * y;
  }

  // ----- in raw tokens

  /** The tokens one check costs. */
  function Asked(c: Config, requested: nat): nat {
    match c.cost
    case PerRequest => 1
    case PromptTokens => if requested == 0 then 1 else requested
  }

  /** The packed word of a bucket that holds `tokens` whole tokens. */
  function Holding(tokens: nat, ms: nat): nat {
    tokens * 65536 * 0x1_0000_0000 + ms
  }

  /** A bucket of whole tokens, asked again at the same instant: it pays if and only if it has the
      tokens, and then holds exactly so many fewer. */
  lemma {:induction false} PaysInWholeTokens(c: Config, tokens: nat, ms: nat, requested: nat)
    requires Legal(c) && tokens <= c.burst && tokens <= 65535 && ms < 0x1_0000_0000
    ensures var u, attempt := Asked(c, requested), Try(c, Holding(tokens, ms), ms, requested);
            && (attempt.Allow? <==> u <= tokens)
            && attempt.next == if u <= tokens then Holding(tokens - u, ms) else Holding(tokens, ms)
  {
    var word := Holding(tokens, ms);
    WholeWord(tokens, ms);
    SameInstant(c, ms);
    hide Refill, Elapsed;
    assert AfterRefill(c, word, ms) == tokens * 65536;
    assert CostScaled(c, requested) == Asked(c, requested) * 65536;
    if Asked(c, requested) <= tokens {
      WholeWord(tokens - Asked(c, requested), ms);
    }
  }

  lemma {:induction false} WholeWord(tokens: nat, ms: nat)
    requires tokens <= 65535 && ms < 0x1_0000_0000
    ensures Tokens(Holding(tokens, ms)) == tokens * 65536 && StampMs(Holding(tokens, ms)) == ms
    ensures Pack(tokens * 65536, ms) == Holding(tokens, ms)
  {
  }

  lemma {:induction false} SameInstant(c: Config, ms: nat)
    ensures Elapsed(ms, ms) == 0 && Refill(c, 0) == 0
  {
  }

  /** The word after `i` checks of the same cost at one instant. */
  function AfterChecks(c: Config, word: nat, ms: nat, requested: nat, i: nat): nat {
    if i == 0 then word else Try(c, AfterChecks(c, word, ms, requested, i - 1), ms, requested).next
  }

  /** A full bucket of `burst` tokens pays for check after check at one instant as long as the
      tokens last, and not once more: `burst` single requests, or burst / u prompts of u tokens. */
  lemma {:induction false} BurstIsSpentExactly(c: Config, ms: nat, requested: nat, i: nat)
    requires Legal(c) && c.burst <= 65535 && ms < 0x1_0000_0000 && i * Asked(c, requested) <= c.burst
    ensures var u, word := Asked(c, requested), AfterChecks(c, Holding(c.burst, ms), ms, requested, i);
            && word == Holding(c.burst - i * u, ms)
            && (Try(c, word, ms, requested).Allow? <==> (i + 1) * u <= c.burst)
  {
    hide Try, Holding;
    var u := Asked(c, requested);
    assert (i + 1) * u == i * u + u;
    if i > 0 {
      assert i * u == (i - 1) * u + u;
      BurstIsSpentExactly(c, ms, requested, i - 1);
      PaysInWholeTokens(c, c.burst - (i - 1) * u, ms, requested);
    }
    PaysInWholeTokens(c, c.burst - i * u, ms, requested);
  }

  /** A subject seen for the first time starts with `burst` tokens, or with the most the packed
      word can hold; its first check is allowed if and only if it asks no more than that. */
  lemma {:induction false} NewSubjectStartsFull(c: Config, w: World, id: nat)
    requires Legal(c) && id in w.calls && w.word.None?
    ensures var call, word := w.calls[id], Apply(c, w, Enter(id)).word;
            && word == Some(if c.burst <= 65535 then Holding(c.burst, call.at % 0x1_0000_0000)
                            else 0xFFFF_FFFF * 0x1_0000_0000 + call.at % 0x1_0000_0000)
            && (Try(c, word.value, call.at % 0x1_0000_0000, call.requested).Allow? <==>
                  Asked(c, call.requested) <= c.burst && Asked(c, call.requested) <= 65535)
  {
    var ms := w.calls[id].at % 0x1_0000_0000;
    SameInstant(c, ms);
    hide Refill, Elapsed;
    UnpackPack(BurstScaled(c), ms);
    assert CostScaled(c, w.calls[id].requested) == Asked(c, w.calls[id].requested) * 65536;
  }

  /** Retry-After is the configured floor or the least whole number of milliseconds that covers the
      deficit at the per-millisecond rate, at least one unit. */
  lemma {:induction false} RetryAfterIsLeast(c: Config, deficit: nat)
    requires deficit > 0
    ensures var r, perMs := RetryAfter(c, deficit), if c.rate * 65536 / 1000 < 1 then 1 else c.rate * 65536 / 1000;
            && r >= c.retryFloor
            && (r > c.retryFloor ==> r % 1_000_000 == 0 && (r / 1_000_000 - 1) * perMs < deficit)
            && (r == c.retryFloor || deficit <= r / 1_000_000 * perMs)
  {
    hide RetryAfter;
    var perMs := if c.rate * 65536 / 1000 < 1 then 1 else c.rate * 65536 / 1000;
    RetryAfterOf(c, deficit, perMs);
    LeastCover(deficit, perMs);
  }

  lemma {:induction false} RetryAfterOf(c: Config, deficit: nat, perMs: nat)
    requires perMs == if c.rate * 65536 / 1000 < 1 then 1 else c.rate * 65536 / 1000
    ensures var ms := CeilDiv(deficit, perMs);
            RetryAfter(c, deficit) == if ms * 1_000_000 < c.retryFloor then c.retryFloor else ms * 1_000_000
  {
  }

  lemma {:induction false} LeastCover(deficit: nat, perMs: nat)
    requires deficit > 0 && perMs > 0
    ensures var ms := CeilDiv(deficit, perMs); (ms - 1) * perMs < deficit <= ms * perMs
  {
    CeilDivCovers(deficit, perMs);
  }

  // ----- true time

  /** Scaled tokens that `ms` milliseconds earn, rounded down. */
  function Earned(c: Config, ms: nat): nat {
    c.rate * SCALE * ms / 1000
  }

  lemma {:induction false} ElapsedOfTimes(now: nat, stamp: nat)
    ensures Elapsed(now % U32_LIMIT, stamp % U32_LIMIT) == (now - stamp) % U32_LIMIT
  {
  }

  /** Exactly when an attempt credits no more time than has passed since the stored stamp:
      its clock reading is not older than the stamp, or older by whole wraps. */
  lemma {:induction false} CreditHonestIff(now: nat, stamp: nat)
    ensures var passed := if now >= stamp then now - stamp else 0;
            Elapsed(now % U32_LIMIT, stamp % U32_LIMIT) <= passed <==> now >= stamp || (stamp - now) % U32_LIMIT == 0
  {
    ElapsedOfTimes(now, stamp);
    if now < stamp {
      assert (now - stamp) % U32_LIMIT == 0 <==> (stamp - now) % U32_LIMIT == 0;
    }
  }

  /** Refills never exceed what true time earns, across clock wraps, idle gaps of any length
      and even a wrapped product. */
  lemma {:induction false} RefillAtMostEarned(c: Config, now: nat, stamp: nat)
    requires now >= stamp
    ensures Refill(c, Elapsed(now % U32_LIMIT, stamp % U32_LIMIT)) <= Earned(c, now - stamp)
  {
    ElapsedOfTimes(now, stamp);
    var e := Elapsed(now % U32_LIMIT, stamp % U32_LIMIT);
    assert e <= now - stamp;
    var p := e * c.rate * SCALE;
    assert p % U64_LIMIT <= p;
    assert p == (c.rate * SCALE) * e;
    MulBoth(c.rate * SCALE, c.rate * SCALE, e, now - stamp);
    ThousandthsMonotone(p % U64_LIMIT, c.rate * SCALE * (now - stamp));
  }

  lemma {:induction false} ThousandthsMonotone(a: nat, b: nat)
    requires a <= b
    ensures a / 1000 <= b / 1000
  {
  }

  /** Two waits together earn at least what they earn apart. */
  lemma {:induction false} EarnedAdds(c: Config, a: nat, b: nat)
    ensures Earned(c, a) + Earned(c, b) <= Earned(c, a + b)
  {
    var k := c.rate * SCALE;
    assert k * (a + b) == k * a + k * b;
    FloorsAdd(k * a, k * b);
  }

  lemma {:induction false} FloorsAdd(x: nat, y: nat)
    ensures x / 1000 + y / 1000 <= (x + y) / 1000
  {
  }

  // ----- threads racing on one subject's word

  /** A call of `check`: the clock it read, its cost, and the word it last loaded. */
  datatype Call = Call(at: nat, requested: nat, seen: Option<nat>)

  /** A successful compare-and-swap: the clock reading it stored, the scaled cost it admitted
      (zero for a deny), and the tokens it left. */
  datatype Event = Event(at: nat, spent: nat, left: nat)

  datatype World = World(clock: nat, word: Option<nat>, calls: map<nat, Call>, events: seq<Event>)

  const START := World(0, None, map[], [])

  datatype Step =
    | Pass(ms: nat)
    | Begin(call: nat, requested: nat)
    | Enter(call: nat)
    | Load(call: nat)
    | Swap(call: nat)

  predicate Enabled(w: World, st: Step) {
    match st
    case Pass(_) => true
    case Begin(id, _) => id !in w.calls
    case Enter(id) => id in w.calls
    case Load(id) => id in w.calls && w.word.Some?
    case Swap(id) => id in w.calls && w.word.Some? && w.calls[id].seen.Some?
  }

  /** The compare-and-swap finds the word it loaded. */
  predicate Wins(w: World, st: Step) {
    st.Swap? && Enabled(w, st) && w.calls[st.call].seen == w.word
  }

  function Apply(c: Config, w: World, st: Step): World
    requires Enabled(w, st)
  {
    match st
    case Pass(ms) => w.(clock := w.clock + ms)
    case Begin(id, requested) => w.(calls := w.calls[id := Call(w.clock, requested, None)])
    case Enter(id) =>
      if w.word.Some? then w
      else
        var t := w.calls[id].at;
        w.(word := Some(Pack(BurstScaled(c), t % U32_LIMIT)), events := w.events + [Event(t, 0, BurstScaled(c))])
    case Load(id) => w.(calls := w.calls[id := w.calls[id].(seen := w.word)])
    case Swap(id) =>
      var call := w.calls[id];
      var attempt := Try(c, call.seen.value, call.at % U32_LIMIT, call.requested);
      if call.seen == w.word then
        var spent := if attempt.Allow? then CostScaled(c, call.requested) else 0;
        World(w.clock, Some(attempt.next), w.calls - {id},
              w.events + [Event(call.at, spent, Tokens(attempt.next))])
      else if attempt.Allow? then w.(calls := w.calls[id := call.(seen := None)])
      else w.(calls := w.calls - {id})
  }

  predicate CanRun(c: Config, w: World, steps: seq<Step>)
    decreases steps
  {
    steps == [] || (Enabled(w, steps[0]) && CanRun(c, Apply(c, w, steps[0]), steps[1..]))
  }

  function Run(c: Config, w: World, steps: seq<Step>): World
    requires CanRun(c, w, steps)
    decreases steps
  {
    if steps == [] then w else Run(c, Apply(c, w, steps[0]), steps[1..])
  }

  /** Every winning swap carries a clock reading no older than the stamp it replaces. */
  predicate FreshClocks(c: Config, w: World, steps: seq<Step>)
    requires CanRun(c, w, steps)
    decreases steps
  {
    steps == [] ||
    (&& (Wins(w, steps[0]) && w.events != [] ==>
           w.events[|w.events| - 1].at <= w.calls[steps[0].call].at)
     && FreshClocks(c, Apply(c, w, steps[0]), steps[1..]))
  }

  // ----- the rate bound

  /** Each stored state is paid for by the one before it. */
  predicate Paid(c: Config, a: Event, b: Event) {
    a.at <= b.at && b.left + b.spent <= a.left + Earned(c, b.at - a.at)
  }

  predicate Ledger(c: Config, es: seq<Event>) {
    && (forall i :: 0 <= i < |es| ==> es[i].left + es[i].spent <= BurstScaled(c))
    && (forall i :: 0 < i < |es| ==> Paid(c, es[i - 1], es[i]))
  }

  predicate Inv(c: Config, w: World) {
    && Ledger(c, w.events)
    && (w.word.Some? <==> w.events != [])
    && (w.events != [] ==>
          var e := w.events[|w.events| - 1];
          w.word.value == Pack(e.left, e.at % U32_LIMIT))
  }

  lemma {:induction false} SwapIsPaid(c: Config, e: Event, call: Call)
    requires e.left <= BurstScaled(c) && e.at <= call.at
    ensures var word := Pack(e.left, e.at % U32_LIMIT);
            var attempt := Try(c, word, call.at % U32_LIMIT, call.requested);
            var spent := if attempt.Allow? then CostScaled(c, call.requested) else 0;
            var b := Event(call.at, spent, Tokens(attempt.next));
            && Paid(c, e, b) && b.left + b.spent <= BurstScaled(c)
            && attempt.next == Pack(b.left, call.at % U32_LIMIT)
  {
    hide Try, Pack, Tokens, Refill, Elapsed, Earned, CostScaled, BurstScaled;
    SwapFollows(c, e, call);
    RefillAtMostEarned(c, call.at, e.at);
  }

  lemma {:induction false} StepInv(c: Config, w: World, st: Step)
    requires Inv(c, w) && Enabled(w, st)
    requires Wins(w, st) ==> w.events[|w.events| - 1].at <= w.calls[st.call].at
    ensures Inv(c, Apply(c, w, st))
  {
    hide Try, Paid, Pack, Tokens, CostScaled, BurstScaled;
    if Wins(w, st) {
      SwapIsPaid(c, w.events[|w.events| - 1], w.calls[st.call]);
    }
  }

  lemma {:induction false} RunInv(c: Config, w: World, steps: seq<Step>)
    requires Inv(c, w) && CanRun(c, w, steps) && FreshClocks(c, w, steps)
    ensures Inv(c, Run(c, w, steps))
    decreases steps
  {
    hide Apply, Ledger;
    if steps != [] {
      StepInv(c, w, steps[0]);
      RunInv(c, Apply(c, w, steps[0]), steps[1..]);
    }
  }

  /** A swap that finds another word changes nothing; the call goes on if it would have been
      allowed and is over if it was denied. */
  lemma {:induction false} LostSwap(c: Config, w: World, id: nat)
    requires Enabled(w, Swap(id)) && !Wins(w, Swap(id))
    ensures var t, call := Apply(c, w, Swap(id)), w.calls[id];
            && t.word == w.word && t.events == w.events && t.clock == w.clock
            && (id in t.calls <==> Try(c, call.seen.value, call.at % U32_LIMIT, call.requested).Allow?)
            && (id in t.calls ==> t.calls[id] == call.(seen := None))
            && forall x <- w.calls :: x != id ==> x in t.calls && t.calls[x] == w.calls[x]
  {
    hide Try;
  }

  /** Scaled cost admitted by events i to j, both included. */
  function Spent(es: seq<Event>, i: nat, j: nat): (t: nat)
    requires i <= j < |es|
    decreases j - i
  {
    if i == j then es[j].spent else Spent(es, i, j - 1) + es[j].spent
  }

  lemma {:induction false} LedgerBound(c: Config, es: seq<Event>, i: nat, j: nat)
    requires Ledger(c, es) && i <= j < |es|
    ensures es[i].at <= es[j].at
    ensures Spent(es, i, j) + es[j].left <= BurstScaled(c) + Earned(c, es[j].at - es[i].at)
    decreases j - i
  {
    hide Earned, BurstScaled;
    if i < j {
      LedgerBound(c, es, i, j - 1);
      assert Paid(c, es[j - 1], es[j]);
      EarnedAdds(c, es[j - 1].at - es[i].at, es[j].at - es[j - 1].at);
    } else {
      assert es[i].left + es[i].spent <= BurstScaled(c);
    }
  }

  /** The rate bound: in every interleaving of loads and swaps whose winning swaps carry fresh
      clock readings, the cost admitted between any two stored stamps is at most a full burst
      plus what the time between them earns. */
  lemma {:induction false} RateBound(c: Config, steps: seq<Step>, i: nat, j: nat)
    requires CanRun(c, START, steps) && FreshClocks(c, START, steps)
    requires i <= j < |Run(c, START, steps).events|
    ensures var es := Run(c, START, steps).events;
            && es[i].at <= es[j].at
            && Spent(es, i, j) <= BurstScaled(c) + Earned(c, es[j].at - es[i].at)
  {
    hide Run, CanRun, FreshClocks, Earned, BurstScaled, Spent;
    RunInv(c, START, steps);
    LedgerBound(c, Run(c, START, steps).events, i, j);
  }

  // ----- the rational bucket behind the fixed-point one

  /** The tokens found at event `b`, left by event `a`. */
  predicate Follows(c: Config, a: Event, b: Event) {
    b.left + b.spent == Min(a.left + Refill(c, Elapsed(b.at % U32_LIMIT, a.at % U32_LIMIT)), BurstScaled(c))
  }

  predicate ExactLedger(c: Config, es: seq<Event>) {
    && (es != [] ==> es[0].left == BurstScaled(c))
    && (forall i :: 0 < i < |es| ==> Follows(c, es[i - 1], es[i]))
  }

  predicate ExactInv(c: Config, w: World) {
    && ExactLedger(c, w.events)
    && (w.word.Some? <==> w.events != [])
    && (w.events != [] ==>
          var e := w.events[|w.events| - 1];
          e.left <= BurstScaled(c) && w.word.value == Pack(e.left, e.at % U32_LIMIT))
  }

  lemma {:induction false} SwapFollows(c: Config, e: Event, call: Call)
    requires e.left <= BurstScaled(c)
    ensures var word := Pack(e.left, e.at % U32_LIMIT);
            var attempt := Try(c, word, call.at % U32_LIMIT, call.requested);
            var spent := if attempt.Allow? then CostScaled(c, call.requested) else 0;
            var b := Event(call.at, spent, Tokens(attempt.next));
            && Follows(c, e, b) && b.left <= BurstScaled(c)
            && attempt.next == Pack(b.left, call.at % U32_LIMIT)
  {
    hide Refill, Elapsed;
    var word := Pack(e.left, e.at % U32_LIMIT);
    UnpackPack(e.left, e.at % U32_LIMIT);
    var have, cost := AfterRefill(c, word, call.at % U32_LIMIT), CostScaled(c, call.requested);
    UnpackPack(have, call.at % U32_LIMIT);
    if have >= cost {
      UnpackPack(have - cost, call.at % U32_LIMIT);
    }
  }

  lemma {:induction false} ExactRun(c: Config, w: World, steps: seq<Step>)
    requires ExactInv(c, w) && CanRun(c, w, steps)
    ensures ExactInv(c, Run(c, w, steps))
    decreases steps
  {
    if steps != [] {
      ExactStep(c, w, steps[0]);
      hide Apply, ExactLedger;
      ExactRun(c, Apply(c, w, steps[0]), steps[1..]);
    }
  }

  lemma {:induction false} ExactStep(c: Config, w: World, st: Step)
    requires ExactInv(c, w) && Enabled(w, st)
    ensures ExactInv(c, Apply(c, w, st))
  {
    hide Try, Follows, Pack, Tokens, CostScaled, BurstScaled;
    if Wins(w, st) {
      SwapFollows(c, w.events[|w.events| - 1], w.calls[st.call]);
    }
  }

  /** Scaled tokens that `ms` milliseconds earn, exactly. */
  function Accrued(c: Config, ms: int): real {
    (c.rate * SCALE * ms) as real / 1000.0
  }

  function RealMin(a: real, b: real): real {
    if a < b then a else b
  }

  /** The bucket a textbook would keep: rational, never rounded. */
  function Ideal(c: Config, es: seq<Event>, j: nat): real
    requires j < |es|
  {
    if j == 0 then BurstScaled(c) as real
    else RealMin(Ideal(c, es, j - 1) + Accrued(c, es[j].at - es[j - 1].at), BurstScaled(c) as real)
         - es[j].spent as real
  }

  /** Below one clock wrap and without product overflow a refill is the accrual rounded down. */
  lemma {:induction false} RefillIsFloor(c: Config, now: nat, stamp: nat)
    requires c.rate <= 65536 && stamp <= now < stamp + U32_LIMIT
    ensures var r := Refill(c, Elapsed(now % U32_LIMIT, stamp % U32_LIMIT)) as real;
            r <= Accrued(c, now - stamp) <= r + 1.0
  {
    hide Refill, Elapsed;
    var e := now - stamp;
    ElapsedOfTimes(now, stamp);
    SmallModulus(e);
    RefillExact(c, e);
    ThousandthsFloor(c.rate * SCALE * e);
  }

  lemma {:induction false} RefillExact(c: Config, e: nat)
    requires c.rate <= 65536 && e < U32_LIMIT
    ensures Refill(c, e) == c.rate * SCALE * e / 1000
  {
    ProductFitsIff(c);
    assert e * c.rate * SCALE < U64_LIMIT;
    assert e * c.rate * SCALE == c.rate * SCALE * e;
  }

  lemma {:induction false} SmallModulus(e: nat)
    requires e < U32_LIMIT
    ensures e % U32_LIMIT == e
  {
  }

  lemma {:induction false} ThousandthsFloor(p: nat)
    ensures (p / 1000) as real <= p as real / 1000.0 <= (p / 1000) as real + 1.0
  {
    assert p == 1000 * (p / 1000) + p % 1000;
  }

  /** Readings never go back and no idle gap is as long as a clock wrap. */
  predicate ShortGaps(es: seq<Event>) {
    forall i :: 0 < i < |es| ==> es[i - 1].at <= es[i].at < es[i - 1].at + U32_LIMIT
  }

  lemma {:induction false} LedgerTracksIdeal(c: Config, es: seq<Event>, j: nat)
    requires c.rate <= 65536 && ExactLedger(c, es) && ShortGaps(es) && j < |es|
    ensures es[j].left as real <= Ideal(c, es, j) <= (es[j].left + j) as real
  {
    hide Refill, Accrued, Elapsed, BurstScaled;
    if j > 0 {
      LedgerTracksIdeal(c, es, j - 1);
      assert Follows(c, es[j - 1], es[j]);
      RefillIsFloor(c, es[j].at, es[j - 1].at);
    }
  }

  /** The fixed-point bucket refines the rational one: in every run whose stored readings do not
      go back, with no idle gap of a full clock wrap, it never holds more than the rational
      bucket and falls behind by at most one unit (1/65536 of a token) for each stored update. */
  lemma {:induction false} BucketTracksIdeal(c: Config, steps: seq<Step>, j: nat)
    requires c.rate <= 65536 && CanRun(c, START, steps)
    requires ShortGaps(Run(c, START, steps).events) && j < |Run(c, START, steps).events|
    ensures var es := Run(c, START, steps).events;
            es[j].left as real <= Ideal(c, es, j) <= (es[j].left + j) as real
  {
    hide Run, CanRun, BurstScaled;
    ExactRun(c, START, steps);
    LedgerTracksIdeal(c, Run(c, START, steps).events, j);
  }

  // ----- a stale clock reading breaks the bound

  /** Any swap whose clock reading is older than the stored stamp, by up to half a wrap, finds
      a full bucket however few tokens the word holds. */
  lemma {:induction false} StaleSwapFindsFullBucket(c: Config, tokens: nat, stamp: nat, now: nat)
    requires Legal(c) && c.rate <= 65536
    requires now < stamp <= now + U32_LIMIT / 2
    ensures AfterRefill(c, Pack(tokens, stamp % U32_LIMIT), now % U32_LIMIT) == BurstScaled(c)
  {
    hide Refill, Pack, BurstScaled;
    ElapsedOfTimes(now, stamp);
    var e := Elapsed(now % U32_LIMIT, stamp % U32_LIMIT);
    assert e == U32_LIMIT - (stamp - now);
    UnpackPack(tokens, stamp % U32_LIMIT);
    LongRefill(c, e);
  }

  lemma {:induction false} LongRefill(c: Config, e: nat)
    requires Legal(c) && c.rate <= 65536 && U32_LIMIT / 2 <= e < U32_LIMIT
    ensures Refill(c, e) >= U32_LIMIT
  {
    assert e * c.rate * SCALE < U64_LIMIT by { ProductFitsIff(c); }
    MulBoth(U32_LIMIT / 2, e, 1, c.rate);
    MulBoth(U32_LIMIT / 2, e * c.rate, SCALE, SCALE);
    ThousandthsMonotone(U32_LIMIT / 2 * SCALE, e * c.rate * SCALE);
  }

  const ONE_PER_SECOND := Config(1, 1, PerRequest, 0)

  /** Two calls; the one that read the clock first swaps last. */
  function StaleTrace(): seq<Step> {
    [Begin(0, 1), Pass(1), Begin(1, 1), Enter(1), Load(1), Swap(1), Load(0), Swap(0)]
  }

  function StaleWorld(last: nat): World
    requires last < 3
  {
    var events := [Event(1, 0, 65536), Event(1, 65536, 0), Event(0, 65536, 0)];
    match last
    case 0 => World(1, Some(Pack(65536, 1)), map[0 := Call(0, 1, None), 1 := Call(1, 1, None)], events[..1])
    case 1 => World(1, Some(Pack(0, 1)), map[0 := Call(0, 1, None)], events[..2])
    case 2 => World(1, Some(Pack(0, 0)), map[], events)
  }

  lemma {:induction false} StaleOpening()
    ensures var c := ONE_PER_SECOND;
            Apply(c, Apply(c, Apply(c, Apply(c, START, Begin(0, 1)), Pass(1)), Begin(1, 1)), Enter(1))
            == StaleWorld(0)
  {
  }

  lemma {:induction false} StaleAttempts()
    ensures Try(ONE_PER_SECOND, Pack(65536, 1), 1, 1) == Allow(Pack(0, 1))
    ensures Try(ONE_PER_SECOND, Pack(0, 1), 0, 1) == Allow(Pack(0, 0))
    ensures Tokens(Pack(0, 1)) == 0 && Tokens(Pack(0, 0)) == 0 && CostScaled(ONE_PER_SECOND, 1) == 65536
  {
    StaleSwapFindsFullBucket(ONE_PER_SECOND, 0, 1, 0);
  }

  lemma {:induction false} StaleSwaps(i: nat)
    requires i < 2
    ensures var c, w, id := ONE_PER_SECOND, StaleWorld(i), 1 - i;
            Enabled(w, Load(id)) && Enabled(Apply(c, w, Load(id)), Swap(id))
            && Apply(c, Apply(c, w, Load(id)), Swap(id)) == StaleWorld(i + 1)
  {
    hide Try, Pack, Tokens, CostScaled;
    StaleAttempts();
    var c, w, id := ONE_PER_SECOND, StaleWorld(i), 1 - i;
    var loaded := Apply(c, w, Load(id));
    var next := Apply(c, loaded, Swap(id));
    assert next.calls == StaleWorld(i + 1).calls;
    assert next.events == StaleWorld(i + 1).events;
  }

  /** One token a second, burst one: both calls are admitted within a millisecond, because the
      older reading wraps to an elapsed time of 2^32 - 1 ms. */
  lemma {:induction false} StaleClockOverspends()
    ensures CanRun(ONE_PER_SECOND, START, StaleTrace())
    ensures var w := Run(ONE_PER_SECOND, START, StaleTrace());
            && |w.events| == 3 && w.clock == 1
            && Spent(w.events, 0, 2) > BurstScaled(ONE_PER_SECOND) + Earned(ONE_PER_SECOND, w.clock)
  {
    var c, steps := ONE_PER_SECOND, StaleTrace();
    var w1 := Apply(c, START, Begin(0, 1));
    var w2 := Apply(c, w1, Pass(1));
    var w3 := Apply(c, w2, Begin(1, 1));
    StaleOpening();
    StaleSwaps(0);
    StaleSwaps(1);
    var last := StaleWorld(2);
    hide Apply, Enabled, Try, StaleWorld;
    Chain(c, Apply(c, StaleWorld(1), Load(0)), steps, 7, last, last);
    Chain(c, StaleWorld(1), steps, 6, Apply(c, StaleWorld(1), Load(0)), last);
    Chain(c, Apply(c, StaleWorld(0), Load(1)), steps, 5, StaleWorld(1), last);
    Chain(c, StaleWorld(0), steps, 4, Apply(c, StaleWorld(0), Load(1)), last);
    StaleFirstFour(steps, last);
    assert steps[0..] == steps;
    StaleSpending();
  }

  lemma {:induction false} StaleFirstFour(steps: seq<Step>, last: World)
    requires steps == StaleTrace()
    requires CanRun(ONE_PER_SECOND, StaleWorld(0), steps[4..]) && Run(ONE_PER_SECOND, StaleWorld(0), steps[4..]) == last
    ensures CanRun(ONE_PER_SECOND, START, steps[0..]) && Run(ONE_PER_SECOND, START, steps[0..]) == last
  {
    var c := ONE_PER_SECOND;
    var w1 := Apply(c, START, Begin(0, 1));
    var w2 := Apply(c, w1, Pass(1));
    var w3 := Apply(c, w2, Begin(1, 1));
    StaleOpening();
    hide CanRun, Run, StaleWorld;
    Chain(c, w3, steps, 3, StaleWorld(0), last);
    Chain(c, w2, steps, 2, w3, last);
    Chain(c, w1, steps, 1, w2, last);
    Chain(c, START, steps, 0, w1, last);
  }

  lemma {:induction false} StaleSpending()
    ensures var w := StaleWorld(2);
            && |w.events| == 3 && w.clock == 1
            && Spent(w.events, 0, 2) == 131072
            && BurstScaled(ONE_PER_SECOND) == 65536 && Earned(ONE_PER_SECOND, 1) == 65
  {
    var es := StaleWorld(2).events;
    assert Spent(es, 0, 1) == Spent(es, 0, 0) + es[1].spent;
  }

  lemma {:induction false} Chain(c: Config, w: World, steps: seq<Step>, i: nat, next: World, last: World)
    requires i < |steps| && Enabled(w, steps[i]) && Apply(c, w, steps[i]) == next
    requires if i + 1 == |steps| then next == last
             else CanRun(c, next, steps[i + 1..]) && Run(c, next, steps[i + 1..]) == last
    ensures CanRun(c, w, steps[i..]) && Run(c, w, steps[i..]) == last
  {
    hide Apply, Enabled;
    assert steps[i..][1..] == steps[i + 1..];
  }

  // ----- Retry-After

  function NowMs(nanos: nat): nat {
    nanos / NANOS_PER_MS % U32_LIMIT
  }

  lemma {:induction false} CeilDivCovers(a: nat, b: nat)
    requires b > 0
    ensures CeilDiv(a, b) * b >= a
  {
    var q := (a + b - 1) / b;
    assert q * b + (a + b - 1) % b == a + b - 1;
  }

  lemma {:induction false} PerMsTimesWait(k: nat, ms: nat)
    ensures (k / 1000) * ms <= k * ms / 1000
  {
    var q := k / 1000;
    assert k == q * 1000 + k % 1000;
    assert k * ms == (q * ms) * 1000 + (k % 1000) * ms;
    assert (k % 1000) * ms >= 0;
  }

  /** The advice is at least the deficit divided by the per-millisecond rate. */
  lemma {:induction false} AdviceCoversDeficit(c: Config, deficit: nat, ms: nat)
    requires Legal(c)
    requires ms * NANOS_PER_MS + (NANOS_PER_MS - 1) >= RetryAfter(c, deficit)
    ensures deficit <= (c.rate * SCALE / 1000) * ms
  {
    var perMs := c.rate * SCALE / 1000;
    assert perMs >= 1;
    assert ms >= CeilDiv(deficit, perMs) by { hide CeilDiv; }
    CeilDivCovers(deficit, perMs);
    MulBoth(CeilDiv(deficit, perMs), ms, perMs, perMs);
  }

  /** Waiting out Retry-After refills the deficit, despite the rounding in the per-millisecond
      rate and in the refill. */
  lemma {:induction false} WaitCoversDeficit(c: Config, deficit: nat, ms: nat)
    requires Legal(c) && ms * c.rate * SCALE < U64_LIMIT
    requires ms * NANOS_PER_MS + (NANOS_PER_MS - 1) >= RetryAfter(c, deficit)
    ensures Refill(c, ms) >= deficit
  {
    hide RetryAfter;
    AdviceCoversDeficit(c, deficit, ms);
    PerMsTimesWait(c.rate * SCALE, ms);
    assert ms * c.rate * SCALE == c.rate * SCALE * ms;
  }

  /** Retry-After is honest exactly for costs that fit the burst: if a check was denied and its
      write-through stored, the same cost checked alone at any time at least `retryAfter`
      later (under one clock wrap and without product overflow) is allowed if and only if it
      fits; a cost above the burst is denied whenever it is asked. */
  lemma {:induction false} RetryAfterHonestIff(c: Config, word: nat, first: nat, later: nat, requested: nat)
    requires Legal(c)
    requires Try(c, word, NowMs(first), requested).Deny?
    requires later >= first + Try(c, word, NowMs(first), requested).retryAfter
    requires var ms := later / NANOS_PER_MS - first / NANOS_PER_MS;
             ms < U32_LIMIT && ms * c.rate * SCALE < U64_LIMIT
    ensures var stored := Try(c, word, NowMs(first), requested).next;
            Try(c, stored, NowMs(later), requested).Allow? <==> CostScaled(c, requested) <= BurstScaled(c)
  {
    hide Refill, RetryAfter, CostScaled, BurstScaled, Pack, Tokens, StampMs, Elapsed, NowMs;
    var have, cost := AfterRefill(c, word, NowMs(first)), CostScaled(c, requested);
    UnpackPack(have, NowMs(first));
    BurstFits(c);
    var ms := later / NANOS_PER_MS - first / NANOS_PER_MS;
    ElapsedBetween(first, later);
    WaitCoversDeficit(c, cost - have, ms);
  }

  lemma {:induction false} BurstFits(c: Config)
    ensures BurstScaled(c) <= U32_LIMIT - 1
  {
  }

  lemma {:induction false} ElapsedBetween(first: nat, later: nat)
    requires first <= later && later / NANOS_PER_MS - first / NANOS_PER_MS < U32_LIMIT
    ensures Elapsed(NowMs(later), NowMs(first)) == later / NANOS_PER_MS - first / NANOS_PER_MS
    ensures NowMs(first) % U32_LIMIT == NowMs(first)
  {
    var t1, t2 := first / NANOS_PER_MS, later / NANOS_PER_MS;
    ElapsedOfTimes(t2, t1);
    assert (t2 - t1) % U32_LIMIT == t2 - t1;
  }
}
