/** N bounded queues behind one producer cursor. */
module ShardQueues {
  import opened Basics

  /** The shard probed after `offset` failures. */
  function Probe(start: nat, offset: nat, n: nat): (t: nat)
    requires n > 0
    ensures t < n
  {
    (start + offset) % n
  }

  /** A walk of `n` probes visits every shard. */
  lemma {:induction false} ProbesCover(start: nat, n: nat, target: nat) returns (offset: nat)
    requires start < n && target < n
    ensures offset < n && Probe(start, offset, n) == target
  {
    offset := if start <= target then target - start else target + n - start;
    if target < start { Wraps(target, n); }
  }

  lemma {:induction false} Wraps(k: nat, n: nat)
    requires k < n
    ensures (k + n) % n == k
  {
  }

  /** The walk starts at its start and goes up by one, from the last shard to the
      first. */
  lemma {:induction false} ProbesGoRound(start: nat, offset: nat, n: nat)
    requires start < n
    ensures Probe(start, 0, n) == start
    ensures offset + 1 < n ==>
              Probe(start, offset + 1, n) ==
              if Probe(start, offset, n) + 1 == n then 0 else Probe(start, offset, n) + 1
  {
    if offset + 1 < n {
      ProbeIs(start, offset, n);
      ProbeIs(start, offset + 1, n);
    }
  }

  lemma {:induction false} ProbeIs(start: nat, offset: nat, n: nat)
    requires start < n && offset < n
    ensures Probe(start, offset, n) == if start + offset < n then start + offset else start + offset - n
  {
    if start + offset >= n {
      Wraps(start + offset - n, n);
    }
  }

  class ShardedMpmcQueue<T> {
    const capacity: nat
    var shards: seq<seq<T>>
    var cursor: nat

    ghost predicate Valid()
      reads this
    {
      capacity > 0 && shards != [] && cursor < U64_LIMIT && forall q <- shards :: |q| <= capacity
    }

    constructor (n: nat, perShardCapacity: nat)
      requires n > 0 && perShardCapacity > 0
      ensures Valid() && |shards| == n && cursor == 0 && capacity == perShardCapacity
      ensures forall q <- shards :: q == []
    {
      capacity := perShardCapacity;
      shards := seq(n, _ => []);
      cursor := 0;
    }

    /** The item goes to the first shard with room, in cyclic order from the
        cursor; it comes back exactly when every shard is full. */
    method Push(item: T) returns (returned: Option<T>)
      requires Valid()
      modifies this
      ensures Valid() && cursor == (old(cursor) + 1) % U64_LIMIT
      ensures returned.None? || returned == Some(item)
      ensures returned.Some? <==> forall q <- old(shards) :: |q| == capacity
      ensures returned.Some? ==> shards == old(shards)
      ensures returned.None? ==>
                exists offset :: 0 <= offset < |old(shards)| &&
                  var t := Probe(old(cursor) % |old(shards)|, offset, |old(shards)|);
                  && (forall o :: 0 <= o < offset ==>
                        |old(shards)[Probe(old(cursor) % |old(shards)|, o, |old(shards)|)]| == capacity)
                  && |old(shards)[t]| < capacity
                  && shards == old(shards)[t := old(shards)[t] + [item]]
    {
      var n := |shards|;
      var start := cursor % n;
      cursor := (cursor + 1) % U64_LIMIT;
      for offset := 0 to n
        invariant shards == old(shards) && cursor == (old(cursor) + 1) % U64_LIMIT
        invariant forall o :: 0 <= o < offset ==> |shards[Probe(start, o, n)]| == capacity
      {
        var target := Probe(start, offset, n);
        if |shards[target]| < capacity {
          assert old(shards)[target] in old(shards);
          shards := shards[target := shards[target] + [item]];
          return None;
        }
      }
      AllProbedFull(shards, start, capacity);
      return Some(item);
    }

    /** The front of shard `idx` if it has one, else the front of the first
        non-empty shard after it; nothing exactly when every shard is empty. */
    method PopOrSteal(idx: nat) returns (item: Option<T>)
      requires Valid() && idx < |shards|
      modifies this`shards
      ensures Valid()
      ensures item.None? <==> forall q <- old(shards) :: q == []
      ensures item.None? ==> shards == old(shards)
      ensures item.Some? ==>
                exists offset :: 0 <= offset < |old(shards)| &&
                  var v := Probe(idx, offset, |old(shards)|);
                  && (forall o :: 0 <= o < offset ==> old(shards)[Probe(idx, o, |old(shards)|)] == [])
                  && old(shards)[v] != [] && item.value == old(shards)[v][0]
                  && shards == old(shards)[v := old(shards)[v][1..]]
    {
      var n := |shards|;
      for offset := 0 to n
        invariant shards == old(shards)
        invariant forall o :: 0 <= o < offset ==> shards[Probe(idx, o, n)] == []
      {
        var victim := Probe(idx, offset, n);
        if shards[victim] != [] {
          assert old(shards)[victim] in old(shards);
          item := Some(shards[victim][0]);
          shards := shards[victim := shards[victim][1..]];
          return;
        }
      }
      AllProbedEmpty(shards, idx);
      return None;
    }
  }

  lemma {:induction false} ProbesCoverAll<T>(shards: seq<seq<T>>, start: nat, q: seq<T>) returns (o: nat)
    requires start < |shards| && q in shards
    ensures o < |shards| && shards[Probe(start, o, |shards|)] == q
  {
    var t :| 0 <= t < |shards| && shards[t] == q;
    o := ProbesCover(start, |shards|, t);
  }

  lemma {:induction false} AllProbedFull<T>(shards: seq<seq<T>>, start: nat, capacity: nat)
    requires start < |shards|
    requires forall q <- shards :: |q| <= capacity
    requires forall o :: 0 <= o < |shards| ==> |shards[Probe(start, o, |shards|)]| >= capacity
    ensures forall q <- shards :: |q| == capacity
  {
    forall q | q in shards ensures |q| == capacity { var o := ProbesCoverAll(shards, start, q); }
  }

  lemma {:induction false} AllProbedEmpty<T>(shards: seq<seq<T>>, start: nat)
    requires start < |shards|
    requires forall o :: 0 <= o < |shards| ==> shards[Probe(start, o, |shards|)] == []
    ensures forall q <- shards :: q == []
  {
    forall q | q in shards ensures q == [] { var o := ProbesCoverAll(shards, start, q); }
  }
}

/** Submitters, one worker per shard, and the shutdown flag, interleaved one
    atomic queue or flag operation at a time. */
module Scheduler {
  import opened Basics
  import opened ShardQueues

  type Task = nat

  /** Where a worker is in its loop. */
  datatype Worker =
    | Polling
    | Running(task: Task)
    | SawEmpty
    | Draining
    | DrainRunning(task: Task)
    | Exited

  /** Where a submitting thread is in `push`. `full` is history: the shards this
      push found at capacity. */
  datatype Submitter = Idle | Trying(task: Task, start: nat, offset: nat, full: set<nat>)

  /** `pushed`, `started` and `stranded` are history: every task put on the
      shard, every task its worker took, and what lies on it once the worker is
      gone. */
  datatype Shard = Shard(
    queue: seq<Task>,
    worker: Worker,
    pushed: seq<Task>,
    started: seq<Task>,
    stranded: seq<Task>)

  datatype State = State(
    shards: seq<Shard>,
    submitters: seq<Submitter>,
    cursor: nat,
    shutdown: bool,
    submitted: multiset<Task>,
    accepted: multiset<Task>,
    dropped: multiset<Task>,
    executed: multiset<Task>)

  datatype Step =
    | Submit(who: nat, task: Task)
    | TryPush(who: nat)
    | Pop(w: nat)
    | Finish(w: nat)
    | Panic(w: nat)
    | LoadFlag(w: nat)
    | Shutdown

  predicate InTask(w: Worker) { w.Running? || w.DrainRunning? }

  predicate Enabled(s: State, st: Step)
  {
    match st
    case Submit(who, _) => who < |s.submitters| && s.submitters[who].Idle? && s.shards != []
    case TryPush(who) => who < |s.submitters| && s.submitters[who].Trying? && s.shards != []
    case Pop(w) => w < |s.shards| && (s.shards[w].worker.Polling? || s.shards[w].worker.Draining?)
    case Finish(w) => w < |s.shards| && InTask(s.shards[w].worker)
    case Panic(w) => w < |s.shards| && InTask(s.shards[w].worker)
    case LoadFlag(w) => w < |s.shards| && s.shards[w].worker.SawEmpty?
    case Shutdown => true
  }

  function Pushed(sh: Shard, t: Task): Shard
  {
    sh.(queue := sh.queue + [t], pushed := sh.pushed + [t],
        stranded := if sh.worker.Exited? then sh.stranded + [t] else sh.stranded)
  }

  function Popped(sh: Shard): Shard
  {
    if sh.queue == [] then
      sh.(worker := if sh.worker.Draining? then Exited else SawEmpty)
    else
      var t := sh.queue[0];
      sh.(queue := sh.queue[1..], started := sh.started + [t],
          worker := if sh.worker.Draining? then DrainRunning(t) else Running(t))
  }

  function Finished(sh: Shard): Shard
  {
    sh.(worker := if sh.worker.DrainRunning? then Draining else Polling)
  }

  /** A panicking task takes its worker thread with it. */
  function Panicked(sh: Shard): Shard
  {
    sh.(worker := Exited, stranded := sh.queue)
  }

  function Apply(capacity: nat, s: State, st: Step): State
    requires Enabled(s, st)
  {
    match st
    case Submit(who, t) =>
      s.(submitters := s.submitters[who := Trying(t, s.cursor % |s.shards|, 0, {})],
         cursor := (s.cursor + 1) % U64_LIMIT,
         submitted := s.submitted + multiset{t})
    case TryPush(who) =>
      var sub := s.submitters[who];
      var target := Probe(sub.start, sub.offset, |s.shards|);
      if |s.shards[target].queue| < capacity then
        s.(shards := s.shards[target := Pushed(s.shards[target], sub.task)],
           submitters := s.submitters[who := Idle],
           accepted := s.accepted + multiset{sub.task})
      else if sub.offset + 1 < |s.shards| then
        s.(submitters := s.submitters[who := sub.(offset := sub.offset + 1, full := sub.full + {target})])
      else
        s.(submitters := s.submitters[who := Idle],
           dropped := s.dropped + multiset{sub.task})
    case Pop(w) => s.(shards := s.shards[w := Popped(s.shards[w])])
    case Finish(w) =>
      s.(shards := s.shards[w := Finished(s.shards[w])],
         executed := s.executed + multiset{s.shards[w].worker.task})
    case Panic(w) =>
      s.(shards := s.shards[w := Panicked(s.shards[w])],
         executed := s.executed + multiset{s.shards[w].worker.task})
    case LoadFlag(w) =>
      s.(shards := s.shards[w := s.shards[w].(worker := if s.shutdown then Draining else Polling)])
    case Shutdown => s.(shutdown := true)
  }

  const FRESH := Shard([], Polling, [], [], [])

  function Init(n: nat, submitters: nat): State
  {
    State(seq(n, _ => FRESH), seq(submitters, _ => Idle), 0, false,
          multiset{}, multiset{}, multiset{}, multiset{})
  }

  predicate CanRun(capacity: nat, s: State, steps: seq<Step>)
    decreases steps
  {
    steps == [] || (Enabled(s, steps[0]) && CanRun(capacity, Apply(capacity, s, steps[0]), steps[1..]))
  }

  function Run(capacity: nat, s: State, steps: seq<Step>): State
    requires CanRun(capacity, s, steps)
    decreases steps
  {
    if steps == [] then s else Run(capacity, Apply(capacity, s, steps[0]), steps[1..])
  }

  // ---- Totals over the shards ----

  function Total(shards: seq<Shard>, part: Shard -> seq<Task>): multiset<Task>
  {
    if shards == [] then multiset{} else multiset(part(shards[0])) + Total(shards[1..], part)
  }

  function PushedOf(sh: Shard): seq<Task> { sh.pushed }
  function QueueOf(sh: Shard): seq<Task> { sh.queue }
  function StrandedOf(sh: Shard): seq<Task> { sh.stranded }
  function RunningOf(sh: Shard): seq<Task> { if InTask(sh.worker) then [sh.worker.task] else [] }

  /** The tasks a worker is through with. */
  function DoneOf(sh: Shard): seq<Task>
  {
    if InTask(sh.worker) && sh.started != [] then sh.started[..|sh.started| - 1] else sh.started
  }

  function HeldBy(sub: Submitter): seq<Task> { if sub.Trying? then [sub.task] else [] }

  function InHand(subs: seq<Submitter>): multiset<Task>
  {
    if subs == [] then multiset{} else multiset(HeldBy(subs[0])) + InHand(subs[1..])
  }

  lemma {:induction false} AddLeft(h: multiset<Task>, a: multiset<Task>, p: multiset<Task>,
      b: multiset<Task>, q: multiset<Task>)
    requires a + p == b + q
    ensures (h + a) + p == (h + b) + q
  {
    assert (h + a) + p == h + (a + p);
    assert (h + b) + q == h + (b + q);
  }

  lemma {:induction false} Cancel(a: multiset<Task>, b: multiset<Task>, c: multiset<Task>)
    requires a + c == b + c
    ensures a == b
  {
    forall t ensures a[t] == b[t] {
      assert (a + c)[t] == a[t] + c[t];
      assert (b + c)[t] == b[t] + c[t];
    }
  }

  lemma {:induction false} TotalUpdate(shards: seq<Shard>, i: nat, sh: Shard, part: Shard -> seq<Task>)
    requires i < |shards|
    ensures Total(shards[i := sh], part) + multiset(part(shards[i])) == Total(shards, part) + multiset(part(sh))
  {
    if i == 0 {
      assert shards[i := sh][1..] == shards[1..];
    } else {
      assert shards[i := sh][1..] == shards[1..][i - 1 := sh];
      TotalUpdate(shards[1..], i - 1, sh, part);
      AddLeft(multiset(part(shards[0])), Total(shards[1..][i - 1 := sh], part), multiset(part(shards[i])),
              Total(shards[1..], part), multiset(part(sh)));
    }
  }

  lemma {:induction false} InHandUpdate(subs: seq<Submitter>, i: nat, sub: Submitter)
    requires i < |subs|
    ensures InHand(subs[i := sub]) + multiset(HeldBy(subs[i])) == InHand(subs) + multiset(HeldBy(sub))
  {
    hide HeldBy;
    if i == 0 {
      assert subs[i := sub][1..] == subs[1..];
    } else {
      assert subs[i := sub][1..] == subs[1..][i - 1 := sub];
      InHandUpdate(subs[1..], i - 1, sub);
      AddLeft(multiset(HeldBy(subs[0])), InHand(subs[1..][i - 1 := sub]), multiset(HeldBy(subs[i])),
              InHand(subs[1..]), multiset(HeldBy(sub)));
    }
  }

  lemma {:induction false} TotalEmpty(shards: seq<Shard>, part: Shard -> seq<Task>)
    ensures Total(shards, part) == multiset{} <==> forall sh <- shards :: part(sh) == []
  {
    if shards != [] {
      TotalEmpty(shards[1..], part);
      assert shards == [shards[0]] + shards[1..];
      assert multiset(part(shards[0])) == multiset{} <==> part(shards[0]) == [] by {
        if part(shards[0]) != [] { assert part(shards[0])[0] in multiset(part(shards[0])); }
      }
    }
  }

  lemma {:induction false} TotalAgrees(shards: seq<Shard>, p: Shard -> seq<Task>, q: Shard -> seq<Task>)
    requires forall sh <- shards :: p(sh) == q(sh)
    ensures Total(shards, p) == Total(shards, q)
  {
    if shards != [] { TotalAgrees(shards[1..], p, q); }
  }

  lemma {:induction false} TotalSplits(shards: seq<Shard>)
    requires forall sh <- shards :: PushedOf(sh) == DoneOf(sh) + RunningOf(sh) + QueueOf(sh)
    ensures Total(shards, PushedOf) ==
            Total(shards, DoneOf) + Total(shards, RunningOf) + Total(shards, QueueOf)
  {
    if shards != [] {
      TotalSplits(shards[1..]);
      var sh := shards[0];
      assert multiset(PushedOf(sh)) == multiset(DoneOf(sh)) + multiset(RunningOf(sh)) + multiset(QueueOf(sh));
    }
  }

  // ---- The invariant ----

  /** A shard is worked off in the order it was filled; only an exited worker
      leaves tasks behind. */
  predicate ShardInv(capacity: nat, sh: Shard)
  {
    && |sh.queue| <= capacity
    && sh.pushed == sh.started + sh.queue
    && (InTask(sh.worker) ==> sh.started != [] && sh.started[|sh.started| - 1] == sh.worker.task)
    && sh.stranded == (if sh.worker.Exited? then sh.queue else [])
  }

  predicate ShardsInv(capacity: nat, shards: seq<Shard>, accepted: multiset<Task>, executed: multiset<Task>)
  {
    && (forall sh <- shards :: ShardInv(capacity, sh))
    && accepted == Total(shards, PushedOf)
    && executed == Total(shards, DoneOf)
  }

  predicate Inv(capacity: nat, s: State)
  {
    && ShardsInv(capacity, s.shards, s.accepted, s.executed)
    && s.submitted == s.accepted + s.dropped + InHand(s.submitters)
  }

  lemma {:induction false} ShardSplits(capacity: nat, sh: Shard)
    requires ShardInv(capacity, sh)
    ensures PushedOf(sh) == DoneOf(sh) + RunningOf(sh) + QueueOf(sh)
  {
    if InTask(sh.worker) {
      assert sh.started == sh.started[..|sh.started| - 1] + [sh.worker.task];
    }
  }

  lemma {:induction false} InitInv(capacity: nat, n: nat, submitters: nat)
    ensures Inv(capacity, Init(n, submitters))
  {
    var s := Init(n, submitters);
    TotalEmpty(s.shards, PushedOf);
    TotalEmpty(s.shards, DoneOf);
    NobodyHolds(s.submitters);
  }

  lemma {:induction false} NobodyHolds(subs: seq<Submitter>)
    requires forall sub <- subs :: sub.Idle?
    ensures InHand(subs) == multiset{}
  {
    if subs != [] {
      NobodyHolds(subs[1..]);
      assert subs[0] in subs;
    }
  }

  lemma {:induction false} PoppedInv(capacity: nat, sh: Shard)
    requires ShardInv(capacity, sh) && (sh.worker.Polling? || sh.worker.Draining?)
    ensures ShardInv(capacity, Popped(sh)) && DoneOf(Popped(sh)) == DoneOf(sh) + []
    ensures Popped(sh).pushed == sh.pushed + []
  {
    if sh.queue != [] {
      assert sh.queue == [sh.queue[0]] + sh.queue[1..];
    }
  }

  lemma {:induction false} PushedInv(capacity: nat, sh: Shard, t: Task)
    requires ShardInv(capacity, sh) && |sh.queue| < capacity
    ensures ShardInv(capacity, Pushed(sh, t)) && DoneOf(Pushed(sh, t)) == DoneOf(sh) + []
    ensures Pushed(sh, t).pushed == sh.pushed + [t]
  {
  }

  lemma {:induction false} DoneGrows(capacity: nat, sh: Shard)
    requires ShardInv(capacity, sh) && InTask(sh.worker)
    ensures ShardInv(capacity, Finished(sh)) && ShardInv(capacity, Panicked(sh))
    ensures DoneOf(Finished(sh)) == DoneOf(sh) + [sh.worker.task]
    ensures DoneOf(Panicked(sh)) == DoneOf(sh) + [sh.worker.task]
    ensures Finished(sh).pushed == sh.pushed + [] && Panicked(sh).pushed == sh.pushed + []
  {
    assert sh.started == sh.started[..|sh.started| - 1] + [sh.worker.task];
  }

  /** What one shard gains, the total gains. */
  lemma {:induction false} TotalGains(shards: seq<Shard>, w: nat, sh: Shard, part: Shard -> seq<Task>, more: seq<Task>)
    requires w < |shards| && part(sh) == part(shards[w]) + more
    ensures Total(shards[w := sh], part) == Total(shards, part) + multiset(more)
  {
    TotalUpdate(shards, w, sh, part);
    var was := multiset(part(shards[w]));
    assert multiset(part(sh)) == was + multiset(more);
    assert Total(shards, part) + (was + multiset(more)) == (Total(shards, part) + multiset(more)) + was;
    Cancel(Total(shards[w := sh], part), Total(shards, part) + multiset(more), was);
  }

  /** A step on one shard keeps the invariant if it keeps that shard's part. */
  lemma {:induction false} ShardStep(capacity: nat, s: State, w: nat, sh: Shard, more: seq<Task>, done: seq<Task>)
    requires Inv(capacity, s) && w < |s.shards| && ShardInv(capacity, sh)
    requires sh.pushed == s.shards[w].pushed + more && DoneOf(sh) == DoneOf(s.shards[w]) + done
    ensures ShardsInv(capacity, s.shards[w := sh], s.accepted + multiset(more), s.executed + multiset(done))
  {
    hide ShardInv, DoneOf;
    TotalGains(s.shards, w, sh, PushedOf, more);
    TotalGains(s.shards, w, sh, DoneOf, done);
  }

  /** Inv without its parts, for one shard. */
  lemma {:induction false} InvAt(capacity: nat, s: State, w: nat)
    requires Inv(capacity, s) && w < |s.shards|
    ensures ShardInv(capacity, s.shards[w])
  {
    assert s.shards[w] in s.shards;
  }

  lemma {:induction false} NoMore(a: multiset<Task>, t: Task)
    ensures a + multiset([]) == a
    ensures multiset([t]) == multiset{t}
  {
  }

  lemma {:induction false} PopInv(capacity: nat, s: State, w: nat)
    requires Inv(capacity, s) && Enabled(s, Pop(w))
    ensures Inv(capacity, Apply(capacity, s, Pop(w)))
  {
    hide DoneOf, Popped, ShardsInv, ShardInv;
    InvAt(capacity, s, w);
    PoppedInv(capacity, s.shards[w]);
    ShardStep(capacity, s, w, Popped(s.shards[w]), [], []);
    NoMore(s.accepted, 0);
    NoMore(s.executed, 0);
  }

  lemma {:induction false} EndInv(capacity: nat, s: State, w: nat)
    requires Inv(capacity, s) && Enabled(s, Finish(w))
    ensures Inv(capacity, Apply(capacity, s, Finish(w)))
    ensures Inv(capacity, Apply(capacity, s, Panic(w)))
  {
    hide DoneOf, Finished, Panicked, ShardsInv, ShardInv;
    var sh := s.shards[w];
    InvAt(capacity, s, w);
    DoneGrows(capacity, sh);
    ShardStep(capacity, s, w, Finished(sh), [], [sh.worker.task]);
    ShardStep(capacity, s, w, Panicked(sh), [], [sh.worker.task]);
    NoMore(s.accepted, sh.worker.task);
  }

  lemma {:induction false} FlagInv(capacity: nat, s: State, w: nat)
    requires Inv(capacity, s) && Enabled(s, LoadFlag(w))
    ensures Inv(capacity, Apply(capacity, s, LoadFlag(w)))
  {
    hide DoneOf, ShardsInv, ShardInv;
    var sh := s.shards[w].(worker := if s.shutdown then Draining else Polling);
    InvAt(capacity, s, w);
    FlagShard(capacity, s.shards[w], sh);
    ShardStep(capacity, s, w, sh, [], []);
    NoMore(s.accepted, 0);
    NoMore(s.executed, 0);
  }

  lemma {:induction false} FlagShard(capacity: nat, was: Shard, sh: Shard)
    requires ShardInv(capacity, was) && was.worker.SawEmpty?
    requires sh == was.(worker := Draining) || sh == was.(worker := Polling)
    ensures ShardInv(capacity, sh) && sh.pushed == was.pushed + [] && DoneOf(sh) == DoneOf(was) + []
  {
  }

  /** A submitter takes a task in hand, or lets go of the one it holds. */
  lemma {:induction false} TakesInHand(subs: seq<Submitter>, who: nat, sub: Submitter)
    requires who < |subs| && subs[who].Idle? && sub.Trying?
    ensures InHand(subs[who := sub]) == InHand(subs) + multiset{sub.task}
  {
    InHandUpdate(subs, who, sub);
  }

  lemma {:induction false} LetsGo(subs: seq<Submitter>, who: nat)
    requires who < |subs| && subs[who].Trying?
    ensures InHand(subs) == InHand(subs[who := Idle]) + multiset{subs[who].task}
  {
    InHandUpdate(subs, who, Idle);
  }

  lemma {:induction false} HoldsOn(subs: seq<Submitter>, who: nat, sub: Submitter)
    requires who < |subs| && HeldBy(subs[who]) == HeldBy(sub)
    ensures InHand(subs[who := sub]) == InHand(subs)
  {
    InHandUpdate(subs, who, sub);
    Cancel(InHand(subs[who := sub]), InHand(subs), multiset(HeldBy(sub)));
  }

  lemma {:induction false} Regroup(a: multiset<Task>, d: multiset<Task>, h: multiset<Task>, t: multiset<Task>)
    ensures (a + d + h) + t == a + d + (h + t)
    ensures a + d + (h + t) == (a + t) + d + h
    ensures a + d + (h + t) == a + (d + t) + h
  {
  }

  lemma {:induction false} SubmitInv(capacity: nat, s: State, who: nat, t: Task)
    requires Inv(capacity, s) && Enabled(s, Submit(who, t))
    ensures Inv(capacity, Apply(capacity, s, Submit(who, t)))
  {
    hide ShardsInv, InHand;
    TakesInHand(s.submitters, who, Trying(t, s.cursor % |s.shards|, 0, {}));
    Regroup(s.accepted, s.dropped, InHand(s.submitters), multiset{t});
  }

  lemma {:induction false} AcceptInv(capacity: nat, s: State, who: nat)
    requires Inv(capacity, s) && Enabled(s, TryPush(who))
    requires var sub := s.submitters[who];
             |s.shards[Probe(sub.start, sub.offset, |s.shards|)].queue| < capacity
    ensures Inv(capacity, Apply(capacity, s, TryPush(who)))
  {
    hide ShardsInv, ShardInv, DoneOf, Probe, InHand, Pushed;
    var sub := s.submitters[who];
    var target := Probe(sub.start, sub.offset, |s.shards|);
    InvAt(capacity, s, target);
    PushedInv(capacity, s.shards[target], sub.task);
    ShardStep(capacity, s, target, Pushed(s.shards[target], sub.task), [sub.task], []);
    NoMore(s.executed, sub.task);
    LetsGo(s.submitters, who);
    Regroup(s.accepted, s.dropped, InHand(s.submitters[who := Idle]), multiset{sub.task});
  }

  lemma {:induction false} RefuseInv(capacity: nat, s: State, who: nat)
    requires Inv(capacity, s) && Enabled(s, TryPush(who))
    requires var sub := s.submitters[who];
             |s.shards[Probe(sub.start, sub.offset, |s.shards|)].queue| >= capacity
    ensures Inv(capacity, Apply(capacity, s, TryPush(who)))
  {
    hide ShardsInv, Probe, InHand;
    var sub := s.submitters[who];
    LetsGo(s.submitters, who);
    var target := Probe(sub.start, sub.offset, |s.shards|);
    HoldsOn(s.submitters, who, sub.(offset := sub.offset + 1, full := sub.full + {target}));
    Regroup(s.accepted, s.dropped, InHand(s.submitters[who := Idle]), multiset{sub.task});
  }

  lemma {:induction false} StepInv(capacity: nat, s: State, st: Step)
    requires Inv(capacity, s) && Enabled(s, st)
    ensures Inv(capacity, Apply(capacity, s, st))
  {
    hide ShardsInv, InHand;
    match st {
      case Submit(who, t) => SubmitInv(capacity, s, who, t);
      case TryPush(who) =>
        var sub := s.submitters[who];
        if |s.shards[Probe(sub.start, sub.offset, |s.shards|)].queue| < capacity {
          AcceptInv(capacity, s, who);
        } else {
          RefuseInv(capacity, s, who);
        }
      case Pop(w) => PopInv(capacity, s, w);
      case Finish(w) => EndInv(capacity, s, w);
      case Panic(w) => EndInv(capacity, s, w);
      case LoadFlag(w) => FlagInv(capacity, s, w);
      case Shutdown =>
    }
  }

  lemma {:induction false} RunInv(capacity: nat, s: State, steps: seq<Step>)
    requires Inv(capacity, s) && CanRun(capacity, s, steps)
    ensures Inv(capacity, Run(capacity, s, steps))
    decreases steps
  {
    if steps != [] {
      StepInv(capacity, s, steps[0]);
      RunInv(capacity, Apply(capacity, s, steps[0]), steps[1..]);
    }
  }

  // ---- Conservation ----

  /** In every interleaving each accepted task is queued, running or executed,
      exactly as often as it was accepted; each submitted one is accepted,
      dropped or still in hand. */
  lemma {:induction false} Conservation(capacity: nat, n: nat, submitters: nat, steps: seq<Step>)
    requires CanRun(capacity, Init(n, submitters), steps)
    ensures var s := Run(capacity, Init(n, submitters), steps);
            && s.accepted == s.executed + Total(s.shards, RunningOf) + Total(s.shards, QueueOf)
            && s.submitted == s.accepted + s.dropped + InHand(s.submitters)
  {
    InitInv(capacity, n, submitters);
    RunInv(capacity, Init(n, submitters), steps);
    var s := Run(capacity, Init(n, submitters), steps);
    forall sh | sh in s.shards ensures PushedOf(sh) == DoneOf(sh) + RunningOf(sh) + QueueOf(sh) {
      ShardSplits(capacity, sh);
    }
    TotalSplits(s.shards);
  }

  /** All workers joined. */
  predicate AllExited(s: State) { forall sh <- s.shards :: sh.worker.Exited? }

  /** Once every worker is gone, what was accepted and did not run is exactly
      what was stranded; so every accepted task has run exactly once if and only
      if nothing was stranded. */
  lemma {:induction false} DrainIff(capacity: nat, n: nat, submitters: nat, steps: seq<Step>)
    requires CanRun(capacity, Init(n, submitters), steps)
    requires AllExited(Run(capacity, Init(n, submitters), steps))
    ensures var s := Run(capacity, Init(n, submitters), steps);
            && s.accepted == s.executed + Total(s.shards, StrandedOf)
            && (s.executed == s.accepted <==> forall sh <- s.shards :: sh.stranded == [])
  {
    hide ShardsInv, InHand, Run, Init;
    var s := Run(capacity, Init(n, submitters), steps);
    Conservation(capacity, n, submitters, steps);
    InitInv(capacity, n, submitters);
    RunInv(capacity, Init(n, submitters), steps);
    ExitedTotals(capacity, s);
    AddsNothing(s.executed, Total(s.shards, StrandedOf));
  }

  lemma {:induction false} ExitedTotals(capacity: nat, s: State)
    requires Inv(capacity, s) && AllExited(s)
    ensures Total(s.shards, RunningOf) == multiset{}
    ensures Total(s.shards, QueueOf) == Total(s.shards, StrandedOf)
    ensures Total(s.shards, StrandedOf) == multiset{} <==> forall sh <- s.shards :: sh.stranded == []
  {
    TotalEmpty(s.shards, RunningOf);
    TotalAgrees(s.shards, QueueOf, StrandedOf);
    TotalEmpty(s.shards, StrandedOf);
  }

  lemma {:induction false} AddsNothing(a: multiset<Task>, b: multiset<Task>)
    ensures a == a + b <==> b == multiset{}
  {
    if a == a + b {
      forall t ensures b[t] == 0 { assert (a + b)[t] == a[t] + b[t]; }
    }
  }

  // ---- Submits take the shards in turn ----

  lemma {:induction false} CursorCounts(capacity: nat, s: State, steps: seq<Step>)
    requires CanRun(capacity, s, steps) && s.cursor == |s.submitted| % U64_LIMIT
    ensures var t := Run(capacity, s, steps);
            t.cursor == |t.submitted| % U64_LIMIT && |t.shards| == |s.shards|
    decreases steps
  {
    if steps != [] {
      CursorStep(capacity, s, steps[0]);
      hide Apply, Enabled;
      CursorCounts(capacity, Apply(capacity, s, steps[0]), steps[1..]);
    }
  }

  lemma {:induction false} CursorStep(capacity: nat, s: State, st: Step)
    requires Enabled(s, st) && s.cursor == |s.submitted| % U64_LIMIT
    ensures var t := Apply(capacity, s, st);
            t.cursor == |t.submitted| % U64_LIMIT && |t.shards| == |s.shards|
  {
    hide Probe, Popped, Pushed, Finished, Panicked;
    if st.Submit? {
      assert |s.submitted + multiset{st.task}| == |s.submitted| + 1;
      NextCursor(|s.submitted|);
    }
  }

  lemma {:induction false} NextCursor(k: nat)
    ensures (k % U64_LIMIT + 1) % U64_LIMIT == (k + 1) % U64_LIMIT
  {
  }

  /** In every run the submit after k others starts its walk at shard k mod n, with
      the cursor wrapping at 2^64. */
  lemma {:induction false} SubmitsTakeTurns(
    capacity: nat, n: nat, submitters: nat, steps: seq<Step>, who: nat, t: Task)
    requires CanRun(capacity, Init(n, submitters), steps) && n > 0
    requires Enabled(Run(capacity, Init(n, submitters), steps), Submit(who, t))
    ensures var s := Run(capacity, Init(n, submitters), steps);
            Apply(capacity, s, Submit(who, t)).submitters[who] ==
            Trying(t, |s.submitted| % 0x1_0000_0000_0000_0000 % n, 0, {})
  {
    hide Run, CanRun;
    CursorCounts(capacity, Init(n, submitters), steps);
  }

  // ---- A task is dropped only when every shard was full ----

  /** A push has found full the shards it probed so far, in cyclic order. */
  predicate Probing(sub: Submitter, n: nat) {
    sub.Trying? ==>
      && sub.start < n && sub.offset < n
      && sub.full == set k | 0 <= k < sub.offset :: Probe(sub.start, k, n)
  }

  predicate AllProbing(s: State) {
    s.shards != [] ==> forall sub <- s.submitters :: Probing(sub, |s.shards|)
  }

  lemma {:induction false} ProbingStep(capacity: nat, s: State, st: Step)
    requires AllProbing(s) && Enabled(s, st)
    ensures AllProbing(Apply(capacity, s, st)) && |Apply(capacity, s, st).shards| == |s.shards|
  {
    hide Probe;
    if st.TryPush? {
      var sub := s.submitters[st.who];
      assert sub in s.submitters;
      OneMoreProbe(sub, |s.shards|);
    }
  }

  lemma {:induction false} OneMoreProbe(sub: Submitter, n: nat)
    requires n > 0 && Probing(sub, n) && sub.Trying?
    ensures var target := Probe(sub.start, sub.offset, n);
            && (sub.offset + 1 < n ==> Probing(sub.(offset := sub.offset + 1, full := sub.full + {target}), n))
            && sub.full + {target} == set k | 0 <= k < sub.offset + 1 :: Probe(sub.start, k, n)
  {
    hide Probe;
  }

  lemma {:induction false} ProbingRun(capacity: nat, s: State, steps: seq<Step>)
    requires AllProbing(s) && CanRun(capacity, s, steps)
    ensures AllProbing(Run(capacity, s, steps)) && |Run(capacity, s, steps).shards| == |s.shards|
    decreases steps
  {
    hide AllProbing, Apply, Enabled;
    if steps != [] {
      ProbingStep(capacity, s, steps[0]);
      ProbingRun(capacity, Apply(capacity, s, steps[0]), steps[1..]);
    }
  }

  /** In every run, the step that drops a task finds the last shard at capacity and
      all the others were found so by the same push. */
  lemma {:induction false} DroppedOnlyIfAllFull(
    capacity: nat, n: nat, submitters: nat, steps: seq<Step>, st: Step, w: nat)
    requires CanRun(capacity, Init(n, submitters), steps) && w < n
    requires var s := Run(capacity, Init(n, submitters), steps);
             Enabled(s, st) && Apply(capacity, s, st).dropped != s.dropped
    ensures var s := Run(capacity, Init(n, submitters), steps);
            && st.TryPush? && s.submitters[st.who].Trying? && |s.shards| == n
            && var sub := s.submitters[st.who];
               var target := Probe(sub.start, sub.offset, n);
               |s.shards[target].queue| >= capacity && (w == target || w in sub.full)
  {
    hide Run, CanRun, Probe;
    var s := Run(capacity, Init(n, submitters), steps);
    ProbingRun(capacity, Init(n, submitters), steps);
    var sub := s.submitters[st.who];
    assert sub in s.submitters;
    OneMoreProbe(sub, n);
    var k := ProbesCover(sub.start, n, w);
  }

  // ---- An orderly shutdown ----

  predicate AllIdle(s: State) { forall sub <- s.submitters :: sub.Idle? }

  /** Every submit finishes before the flag is set, and no task panics. */
  predicate Orderly(capacity: nat, s: State, steps: seq<Step>)
    requires CanRun(capacity, s, steps)
    decreases steps
  {
    steps == [] ||
    (&& (steps[0].Shutdown? ==> AllIdle(s))
     && (steps[0].Submit? ==> !s.shutdown)
     && !steps[0].Panic?
     && Orderly(capacity, Apply(capacity, s, steps[0]), steps[1..]))
  }

  predicate OrderlyInv(s: State)
  {
    && (s.shutdown ==> AllIdle(s))
    && (forall sh <- s.shards ::
          && (sh.worker.Draining? || sh.worker.DrainRunning? || sh.worker.Exited? ==> s.shutdown)
          && sh.stranded == [])
  }

  lemma {:induction false} OrderlyStep(capacity: nat, s: State, st: Step)
    requires OrderlyInv(s) && Enabled(s, st)
    requires st.Shutdown? ==> AllIdle(s)
    requires st.Submit? ==> !s.shutdown
    requires !st.Panic?
    ensures OrderlyInv(Apply(capacity, s, st))
  {
    if st.TryPush? {
      assert s.submitters[st.who] in s.submitters;
    }
  }

  lemma {:induction false} OrderlyRun(capacity: nat, s: State, steps: seq<Step>)
    requires CanRun(capacity, s, steps) && OrderlyInv(s) && Orderly(capacity, s, steps)
    ensures OrderlyInv(Run(capacity, s, steps))
    decreases steps
  {
    if steps != [] {
      OrderlyStep(capacity, s, steps[0]);
      OrderlyRun(capacity, Apply(capacity, s, steps[0]), steps[1..]);
    }
  }

  /** After an orderly shutdown whose workers have all exited, every accepted
      task has run exactly once, on its own shard in the order it came, and
      every shard is empty. */
  lemma {:induction false} DrainRunsEverything(capacity: nat, n: nat, submitters: nat, steps: seq<Step>)
    requires CanRun(capacity, Init(n, submitters), steps)
    requires Orderly(capacity, Init(n, submitters), steps)
    requires AllExited(Run(capacity, Init(n, submitters), steps))
    ensures var s := Run(capacity, Init(n, submitters), steps);
            && s.executed == s.accepted
            && s.submitted == s.executed + s.dropped + InHand(s.submitters)
            && forall sh <- s.shards :: sh.queue == [] && sh.started == sh.pushed
  {
    DrainIff(capacity, n, submitters, steps);
    InitInv(capacity, n, submitters);
    RunInv(capacity, Init(n, submitters), steps);
    OrderlyRun(capacity, Init(n, submitters), steps);
  }

  // ---- The drain ends ----

  predicate OfWorkers(st: Step) { st.Pop? || st.Finish? || st.Panic? || st.LoadFlag? }

  /** Worker steps left once the flag is set. */
  function Left(sh: Shard): (k: nat)
  {
    match sh.worker
    case Exited => 0
    case Draining => 2 * |sh.queue| + 1
    case DrainRunning(_) => 2 * |sh.queue| + 2
    case SawEmpty => 2 * |sh.queue| + 2
    case Polling => 2 * |sh.queue| + 3
    case Running(_) => 2 * |sh.queue| + 4
  }

  function AllLeft(shards: seq<Shard>): (k: nat)
  {
    if shards == [] then 0 else Left(shards[0]) + AllLeft(shards[1..])
  }

  lemma {:induction false} AllLeftUpdate(shards: seq<Shard>, i: nat, sh: Shard)
    requires i < |shards|
    ensures AllLeft(shards[i := sh]) + Left(shards[i]) == AllLeft(shards) + Left(sh)
  {
    if i == 0 {
      assert shards[i := sh][1..] == shards[1..];
    } else {
      assert shards[i := sh][1..] == shards[1..][i - 1 := sh];
      AllLeftUpdate(shards[1..], i - 1, sh);
    }
  }

  lemma {:induction false} WorkerStepDescends(capacity: nat, s: State, st: Step)
    requires s.shutdown && Enabled(s, st) && OfWorkers(st)
    ensures Apply(capacity, s, st).shutdown && Apply(capacity, s, st).accepted == s.accepted
    ensures AllLeft(Apply(capacity, s, st).shards) < AllLeft(s.shards)
  {
    var after := Apply(capacity, s, st);
    AllLeftUpdate(s.shards, st.w, after.shards[st.w]);
  }

  /** A step of anyone else leaves the workers at most two more steps, and only if
      it puts a task on a queue. */
  lemma {:induction false} OtherStepAdds(capacity: nat, s: State, st: Step)
    requires s.shutdown && Enabled(s, st) && !OfWorkers(st)
    ensures var t := Apply(capacity, s, st);
            && t.shutdown && |t.accepted| >= |s.accepted|
            && AllLeft(t.shards) <= AllLeft(s.shards) + 2 * (|t.accepted| - |s.accepted|)
  {
    if st.TryPush? {
      var sub := s.submitters[st.who];
      var target := Probe(sub.start, sub.offset, |s.shards|);
      AllLeftUpdate(s.shards, target, Pushed(s.shards[target], sub.task));
    }
  }

  function WorkerSteps(steps: seq<Step>): nat {
    if steps == [] then 0 else WorkerSteps(steps[1..]) + (if OfWorkers(steps[0]) then 1 else 0)
  }

  /** With the flag set, in any interleaving with late submitters, the workers take
      at most `AllLeft` steps among them and two more for each task accepted late,
      and they are stuck exactly when all have exited: the joins in `shutdown` end
      if every task does and submitting stops. */
  lemma {:induction false} DrainEnds(capacity: nat, s: State, steps: seq<Step>)
    requires s.shutdown && CanRun(capacity, s, steps)
    ensures var t := Run(capacity, s, steps);
            && |t.accepted| >= |s.accepted|
            && WorkerSteps(steps) + AllLeft(t.shards) <= AllLeft(s.shards) + 2 * (|t.accepted| - |s.accepted|)
            && ((forall st :: OfWorkers(st) ==> !Enabled(t, st)) <==> AllExited(t))
    decreases steps
  {
    hide Apply, Enabled;
    if steps == [] {
      StuckIffExited(s);
    } else {
      if OfWorkers(steps[0]) {
        WorkerStepDescends(capacity, s, steps[0]);
      } else {
        OtherStepAdds(capacity, s, steps[0]);
      }
      DrainEnds(capacity, Apply(capacity, s, steps[0]), steps[1..]);
    }
  }

  lemma {:induction false} StuckIffExited(s: State)
    ensures (forall st :: OfWorkers(st) ==> !Enabled(s, st)) <==> AllExited(s)
  {
    if !AllExited(s) {
      var w :| 0 <= w < |s.shards| && !s.shards[w].worker.Exited?;
      assert Enabled(s, Pop(w)) || Enabled(s, Finish(w)) || Enabled(s, LoadFlag(w));
    }
  }

  // ---- What goes wrong otherwise ----

  lemma {:induction false} StaysStranded(capacity: nat, s: State, st: Step, w: nat)
    requires Enabled(s, st) && w < |s.shards| && s.shards[w].worker.Exited?
    ensures var after := Apply(capacity, s, st);
            && w < |after.shards| && after.shards[w].worker.Exited?
            && s.shards[w].queue <= after.shards[w].queue
            && after.shards[w].started == s.shards[w].started
  {
  }

  /** A task on the queue of an exited worker stays there in every run. */
  lemma {:induction false} StrandedForever(capacity: nat, s: State, steps: seq<Step>, w: nat)
    requires CanRun(capacity, s, steps) && w < |s.shards| && s.shards[w].worker.Exited?
    ensures var after := Run(capacity, s, steps);
            && w < |after.shards| && after.shards[w].worker.Exited?
            && s.shards[w].queue <= after.shards[w].queue
            && after.shards[w].started == s.shards[w].started
    decreases steps
  {
    if steps != [] {
      StaysStranded(capacity, s, steps[0], w);
      hide Apply;
      StrandedForever(capacity, Apply(capacity, s, steps[0]), steps[1..], w);
    }
  }

  lemma {:induction false} RunOne(capacity: nat, s: State, a: Step)
    requires Enabled(s, a)
    ensures CanRun(capacity, s, [a]) && Run(capacity, s, [a]) == Apply(capacity, s, a)
  {
    hide Enabled, Apply;
    assert [a][1..] == [];
  }

  lemma {:induction false} RunTwo(capacity: nat, s: State, a: Step, b: Step)
    requires Enabled(s, a) && Enabled(Apply(capacity, s, a), b)
    ensures CanRun(capacity, s, [a, b])
    ensures Run(capacity, s, [a, b]) == Apply(capacity, Apply(capacity, s, a), b)
  {
    hide Enabled, Apply;
    assert [a, b][1..] == [b] && [b][1..] == [];
    var mid := Apply(capacity, s, a);
    assert CanRun(capacity, mid, [b]);
    assert Run(capacity, mid, [b]) == Run(capacity, Apply(capacity, mid, b), []);
  }

  lemma {:induction false} RunAppend(capacity: nat, s: State, a: seq<Step>, b: seq<Step>)
    requires CanRun(capacity, s, a) && CanRun(capacity, Run(capacity, s, a), b)
    ensures CanRun(capacity, s, a + b)
    ensures Run(capacity, s, a + b) == Run(capacity, Run(capacity, s, a), b)
    decreases a
  {
    hide Enabled, Apply;
    if a == [] {
      assert a + b == b;
    } else {
      assert (a + b)[1..] == a[1..] + b;
      RunAppend(capacity, Apply(capacity, s, a[0]), a[1..], b);
    }
  }

  /** The idle worker of the only shard is told to stop while a submitter holds
      a task: it finds its shard empty twice and leaves. */
  lemma {:induction false} LeavesEmpty(capacity: nat, s: State)
    requires s.shards == [FRESH]
    ensures CanRun(capacity, s, [Shutdown, Pop(0)])
    ensures var mid := Run(capacity, s, [Shutdown, Pop(0)]);
            && CanRun(capacity, mid, [LoadFlag(0), Pop(0)])
            && Run(capacity, mid, [LoadFlag(0), Pop(0)]) ==
               s.(shutdown := true, shards := [FRESH.(worker := Exited)])
  {
    RunTwo(capacity, s, Shutdown, Pop(0));
    var mid := Run(capacity, s, [Shutdown, Pop(0)]);
    assert mid == s.(shutdown := true, shards := [FRESH.(worker := SawEmpty)]);
    RunTwo(capacity, mid, LoadFlag(0), Pop(0));
    hide Run, CanRun;
    var next := Apply(capacity, mid, LoadFlag(0));
    assert next == s.(shutdown := true, shards := [FRESH.(worker := Draining)]);
  }

  lemma {:induction false} Puts(capacity: nat, s: State, t: Task)
    requires |s.shards| == 1 && s.submitters == [Trying(t, 0, 0, {})] && |s.shards[0].queue| < capacity
    ensures Enabled(s, TryPush(0))
    ensures Apply(capacity, s, TryPush(0)) ==
            s.(shards := [Pushed(s.shards[0], t)], submitters := [Idle], accepted := s.accepted + multiset{t})
  {
    hide Pushed;
    assert Probe(0, 0, 1) == 0;
  }

  /** A submit that overlaps the shutdown is accepted and lost. */
  lemma {:induction false} LateSubmitIsLost(capacity: nat, t: Task) returns (steps: seq<Step>)
    requires capacity > 0
    ensures CanRun(capacity, Init(1, 1), steps)
    ensures forall st <- steps :: !st.Panic?
    ensures var s := Run(capacity, Init(1, 1), steps);
            AllExited(s) && s.accepted == multiset{t} && s.executed == multiset{}
  {
    hide CanRun, Run;
    var s0 := Init(1, 1);
    assert s0.shards == [FRESH] && s0.submitters == [Idle];
    var begin := Submit(0, t);
    var s1 := Apply(capacity, s0, begin);
    assert s1 == s0.(submitters := [Trying(t, 0, 0, {})], cursor := 1, submitted := multiset{t});
    RunOne(capacity, s0, begin);
    hide Apply, Enabled;
    LeavesEmpty(capacity, s1);
    var s2 := s1.(shutdown := true, shards := [FRESH.(worker := Exited)]);
    Puts(capacity, s2, t);
    RunOne(capacity, s2, TryPush(0));
    RunAppend(capacity, s0, [begin], [Shutdown, Pop(0)]);
    RunAppend(capacity, s0, [begin] + [Shutdown, Pop(0)], [LoadFlag(0), Pop(0)]);
    RunAppend(capacity, s0, [begin] + [Shutdown, Pop(0)] + [LoadFlag(0), Pop(0)], [TryPush(0)]);
    steps := [begin] + [Shutdown, Pop(0)] + [LoadFlag(0), Pop(0)] + [TryPush(0)];
  }

  /** One idle submitter puts a task on the only shard. */
  lemma {:induction false} SubmitsOne(capacity: nat, s: State, t: Task)
    requires |s.shards| == 1 && s.submitters == [Idle] && |s.shards[0].queue| < capacity
    ensures CanRun(capacity, s, [Submit(0, t), TryPush(0)])
    ensures var after := Run(capacity, s, [Submit(0, t), TryPush(0)]);
            && after.shards == [Pushed(s.shards[0], t)] && after.submitters == [Idle]
            && after.accepted == s.accepted + multiset{t} && after.executed == s.executed
            && after.shutdown == s.shutdown
  {
    hide Pushed, Run, CanRun;
    var mid := Apply(capacity, s, Submit(0, t));
    assert mid.submitters == [Trying(t, 0, 0, {})] && mid.shards == s.shards;
    Puts(capacity, mid, t);
    RunTwo(capacity, s, Submit(0, t), TryPush(0));
  }

  lemma {:induction false} PopsThenPanics(capacity: nat, s: State)
    requires |s.shards| == 1 && s.shards[0].worker == Polling && s.shards[0].queue != []
    ensures CanRun(capacity, s, [Pop(0), Panic(0)])
    ensures var after := Run(capacity, s, [Pop(0), Panic(0)]);
            && AllExited(after) && after.accepted == s.accepted && after.shutdown == s.shutdown
            && after.executed == s.executed + multiset{s.shards[0].queue[0]}
  {
    hide Run, CanRun;
    RunTwo(capacity, s, Pop(0), Panic(0));
  }

  /** A task that panics strands whatever is queued behind it. */
  lemma {:induction false} PanicStrands(capacity: nat, a: Task, b: Task) returns (steps: seq<Step>)
    requires capacity > 1
    ensures CanRun(capacity, Init(1, 1), steps)
    ensures var s := Run(capacity, Init(1, 1), steps);
            !s.shutdown && AllExited(s) && s.accepted == multiset{a, b} && s.executed == multiset{a}
  {
    hide Apply, Enabled, CanRun, Run;
    var first, second, end := [Submit(0, a), TryPush(0)], [Submit(0, b), TryPush(0)], [Pop(0), Panic(0)];
    var s0 := Init(1, 1);
    assert s0.shards == [FRESH] && s0.submitters == [Idle];
    SubmitsOne(capacity, s0, a);
    var s1 := Run(capacity, s0, first);
    assert s1.shards[0].queue == [a] && s1.shards[0].worker == Polling;
    SubmitsOne(capacity, s1, b);
    var s2 := Run(capacity, s1, second);
    assert s2.shards[0].queue == [a, b] && s2.shards[0].worker == Polling;
    PopsThenPanics(capacity, s2);
    RunAppend(capacity, s0, first, second);
    RunAppend(capacity, s0, first + second, end);
    steps := first + second + end;
  }
}
