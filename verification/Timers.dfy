/** Timers: a plain map from ids to deadlines, and the heap with lazy cancellation that
    refines it. */
module Timers {
  import opened Basics

  datatype Entry = Entry(deadline: int, id: nat)

  /** The order in which the heap yields entries. */
  predicate Less(a: Entry, b: Entry) {
    a.deadline < b.deadline || (a.deadline == b.deadline && a.id < b.id)
  }

  // ----- the specification

  predicate IsDue(live: map<nat, int>, now: int, id: nat) {
    id in live && live[id] <= now
  }

  predicate Earliest(live: map<nat, int>, now: int, id: nat) {
    IsDue(live, now, id)
    && forall x <- live :: x != id && live[x] <= now ==> Less(Entry(live[id], id), Entry(live[x], x))
  }

  lemma {:induction false} EarliestExists(live: map<nat, int>, now: int, some: nat) returns (id: nat)
    requires IsDue(live, now, some)
    ensures Earliest(live, now, id)
    decreases |live|
  {
    if Earliest(live, now, some) {
      id := some;
    } else {
      var x :| x in live && x != some && live[x] <= now && !Less(Entry(live[some], some), Entry(live[x], x));
      assert Less(Entry(live[x], x), Entry(live[some], some));
      var rest := live - {some};
      assert |rest| < |live| by { assert rest.Keys == live.Keys - {some}; }
      id := EarliestExists(rest, now, x);
      assert x == id || Less(Entry(live[id], id), Entry(live[x], x));
      forall y | y in live && y != id && live[y] <= now
        ensures Less(Entry(live[id], id), Entry(live[y], y))
      {
        assert y == some || (y in rest && rest[y] == live[y]);
      }
    }
  }

  /** The due timers in (deadline, id) order. */
  ghost function Due(live: map<nat, int>, now: int): (s: seq<Entry>)
    decreases |live|
  {
    if id :| Earliest(live, now, id) then
      assert (live - {id}).Keys == live.Keys - {id};
      [Entry(live[id], id)] + Due(live - {id}, now)
    else []
  }

  ghost function NotDue(live: map<nat, int>, now: int): map<nat, int> {
    map id | id in live && live[id] > now :: live[id]
  }

  lemma {:induction false} EarliestIsUnique(live: map<nat, int>, now: int, a: nat, b: nat)
    requires Earliest(live, now, a) && Earliest(live, now, b)
    ensures a == b
  {
  }

  lemma {:induction false} DueStep(live: map<nat, int>, now: int, id: nat)
    requires Earliest(live, now, id)
    ensures Due(live, now) == [Entry(live[id], id)] + Due(live - {id}, now)
  {
    var x :| Earliest(live, now, x) && Due(live, now) == [Entry(live[x], x)] + Due(live - {x}, now);
    EarliestIsUnique(live, now, id, x);
  }

  lemma {:induction false} NothingDue(live: map<nat, int>, now: int)
    requires forall id <- live :: live[id] > now
    ensures Due(live, now) == [] && NotDue(live, now) == live
  {
  }

  predicate InOrder(s: seq<Entry>) {
    forall i, j :: 0 <= i < j < |s| ==> Less(s[i], s[j])
  }

  /** A tick owes exactly the live timers whose deadline has passed, each once, by deadline and
      among equal deadlines by id. */
  lemma {:induction false} DueIsExact(live: map<nat, int>, now: int)
    ensures forall e :: e in Due(live, now) <==> e.id in live && live[e.id] == e.deadline && e.deadline <= now
    ensures var es := Due(live, now);
            forall i, j :: 0 <= i < j < |es| ==>
              es[i].deadline < es[j].deadline || (es[i].deadline == es[j].deadline && es[i].id < es[j].id)
  {
    DueInOrder(live, now);
  }

  lemma {:induction false} DueInOrder(live: map<nat, int>, now: int)
    ensures InOrder(Due(live, now))
    ensures forall e :: e in Due(live, now) <==> IsDue(live, now, e.id) && live[e.id] == e.deadline
    decreases |live|
  {
    if some :| IsDue(live, now, some) {
      hide Due, Less, Earliest, InOrder;
      var id := EarliestExists(live, now, some);
      var rest := live - {id};
      EarliestLives(live, now, id);
      DueStep(live, now, id);
      DueInOrder(rest, now);
      forall e | e in Due(rest, now)
        ensures Less(Entry(live[id], id), e)
      {
        EarliestLess(live, now, id, e);
      }
      InOrderCons(Entry(live[id], id), Due(rest, now));
      DueWithFirst(live, now, id);
    } else {
      assert forall id <- live :: !IsDue(live, now, id);
      NothingDue(live, now);
    }
  }

  lemma {:induction false} DueWithFirst(live: map<nat, int>, now: int, id: nat)
    requires IsDue(live, now, id) && Due(live, now) == [Entry(live[id], id)] + Due(live - {id}, now)
    requires forall e :: e in Due(live - {id}, now) <==>
                         IsDue(live - {id}, now, e.id) && (live - {id})[e.id] == e.deadline
    ensures forall e :: e in Due(live, now) <==> IsDue(live, now, e.id) && live[e.id] == e.deadline
  {
    hide Due;
  }

  lemma {:induction false} EarliestLives(live: map<nat, int>, now: int, id: nat)
    requires Earliest(live, now, id)
    ensures IsDue(live, now, id) && |live - {id}| < |live|
  {
    assert (live - {id}).Keys == live.Keys - {id};
  }

  lemma {:induction false} EarliestLess(live: map<nat, int>, now: int, id: nat, e: Entry)
    requires Earliest(live, now, id) && e.id in live && e.id != id && live[e.id] == e.deadline <= now
    ensures Less(Entry(live[id], id), e)
  {
  }

  lemma {:induction false} InOrderCons(e: Entry, es: seq<Entry>)
    requires InOrder(es) && forall x <- es :: Less(e, x)
    ensures InOrder([e] + es)
  {
    hide Less;
    var r := [e] + es;
    assert forall i :: 0 < i < |r| ==> r[i] == es[i - 1] && es[i - 1] in es;
  }

  datatype Op = Schedule(deadline: int) | Cancel(id: nat) | Tick(now: int)

  /** `fired` and `cancelled` record the past. */
  datatype Spec = Spec(nextId: nat, live: map<nat, int>, fired: seq<Entry>, cancelled: set<nat>)

  const INIT := Spec(1, map[], [], {})

  ghost function SpecApply(s: Spec, op: Op): Spec {
    match op
    case Schedule(d) => s.(nextId := s.nextId + 1, live := s.live[s.nextId := d])
    case Cancel(id) => if id in s.live then s.(live := s.live - {id}, cancelled := s.cancelled + {id}) else s
    case Tick(now) => s.(live := NotDue(s.live, now), fired := s.fired + Due(s.live, now))
  }

  ghost function SpecRun(s: Spec, ops: seq<Op>): Spec
    decreases ops
  {
    if ops == [] then s else SpecRun(SpecApply(s, ops[0]), ops[1..])
  }

  /** Every id is in at most one of: live, fired (once), cancelled. */
  ghost predicate Exclusive(s: Spec) {
    && (forall id <- s.live :: id < s.nextId && id !in s.cancelled)
    && (forall id <- s.cancelled :: id < s.nextId)
    && (forall i :: 0 <= i < |s.fired| ==>
          s.fired[i].id < s.nextId && s.fired[i].id !in s.live && s.fired[i].id !in s.cancelled)
    && (forall i, j :: 0 <= i < j < |s.fired| ==> s.fired[i].id != s.fired[j].id)
  }

  lemma {:induction false} ApplyExclusive(s: Spec, op: Op)
    requires Exclusive(s)
    ensures Exclusive(SpecApply(s, op))
  {
    hide Due;
    if op.Tick? {
      var due := Due(s.live, op.now);
      DueInOrder(s.live, op.now);
      forall i | 0 <= i < |due|
        ensures due[i].id in s.live && s.live[due[i].id] <= op.now
      {
        assert due[i] in due;
      }
      forall i, j | 0 <= i < j < |due|
        ensures due[i].id != due[j].id
      {
        assert due[i] in due && due[j] in due && Less(due[i], due[j]);
      }
    }
  }

  /** Over every run: each timer fires at most once, never after a cancel that returned true,
      and no fired or cancelled timer is live again. */
  lemma {:induction false} FiresAtMostOnce(s: Spec, ops: seq<Op>)
    requires Exclusive(s)
    ensures Exclusive(SpecRun(s, ops))
    decreases ops
  {
    hide Exclusive, SpecApply;
    if ops != [] {
      ApplyExclusive(s, ops[0]);
      FiresAtMostOnce(SpecApply(s, ops[0]), ops[1..]);
    }
  }

  // ----- the heap

  /** Heap ids are the disjoint union of callback keys and cancelled ids; the live timers are
      the callbacks, each with its one heap entry. */
  ghost predicate Represents(heap: set<Entry>, callbacks: set<nat>, cancelled: set<nat>, live: map<nat, int>) {
    && callbacks == live.Keys
    && callbacks !! cancelled
    && (forall e <- heap :: e.id in cancelled || (e.id in live && live[e.id] == e.deadline))
    && (forall id <- live :: Entry(live[id], id) in heap)
    && (forall id <- cancelled :: exists e :: e in heap && e.id == id)
    && (forall e, f :: e in heap && f in heap && e.id == f.id ==> e == f)
  }

  predicate IsTop(heap: set<Entry>, top: Entry) {
    top in heap && forall e <- heap :: e == top || Less(top, e)
  }

  lemma {:induction false} PopCancelled(heap: set<Entry>, callbacks: set<nat>, cancelled: set<nat>,
      live: map<nat, int>, top: Entry)
    requires Represents(heap, callbacks, cancelled, live) && top in heap && top.id in cancelled
    ensures Represents(heap - {top}, callbacks, cancelled - {top.id}, live)
  {
    forall id | id in cancelled - {top.id}
      ensures exists e :: e in heap - {top} && e.id == id
    {
      var e :| e in heap && e.id == id;
      assert e in heap - {top};
    }
  }

  lemma {:induction false} PopLive(heap: set<Entry>, callbacks: set<nat>, cancelled: set<nat>, live: map<nat,
      int>, top: Entry)
    requires Represents(heap, callbacks, cancelled, live) && top in heap && top.id !in cancelled
    ensures Represents(heap - {top}, callbacks - {top.id}, cancelled, live - {top.id})
    ensures top.id in live && live[top.id] == top.deadline
  {
    forall id | id in cancelled
      ensures exists e :: e in heap - {top} && e.id == id
    {
      var e :| e in heap && e.id == id;
      assert e in heap - {top};
    }
  }

  /** A live heap top that is due is the earliest due timer. */
  lemma {:induction false} TopIsEarliest(heap: set<Entry>, callbacks: set<nat>, cancelled: set<nat>,
      live: map<nat, int>, top: Entry, now: int)
    requires Represents(heap, callbacks, cancelled, live) && IsTop(heap, top)
    requires top.id !in cancelled && top.deadline <= now
    ensures Earliest(live, now, top.id)
  {
    forall x | x in live && x != top.id && live[x] <= now
      ensures Less(Entry(live[top.id], top.id), Entry(live[x], x))
    {
      assert Entry(live[x], x) in heap;
    }
  }

  lemma {:induction false} TopBoundsLive(heap: set<Entry>, callbacks: set<nat>, cancelled: set<nat>,
      live: map<nat, int>, top: Entry, now: int)
    requires Represents(heap, callbacks, cancelled, live) && IsTop(heap, top) && top.deadline > now
    ensures forall id <- live :: live[id] > now
  {
    forall id | id in live
      ensures live[id] > now
    {
      assert Entry(live[id], id) in heap;
    }
  }

  lemma {:induction false} KeepLive(heap: set<Entry>, callbacks: set<nat>, cancelled: set<nat>,
      live: map<nat, int>, kept: set<Entry>)
    requires Represents(heap, callbacks, cancelled, live)
    requires forall e :: e in kept <==> e in heap && e.id !in cancelled
    ensures Represents(kept, callbacks, {}, live)
  {
  }

  /** How many cancelled entries a heap of this size may hold. */
  function Allowance(size: nat, ratio: real): int {
    (size as real * ratio).Floor
  }

  /** A heap within its allowance has at most the ratio of its entries cancelled, and could not
      have one more. */
  lemma {:induction false} AllowanceIs(size: nat, ratio: real)
    ensures Allowance(size, ratio) as real <= size as real * ratio < Allowance(size, ratio) as real + 1.0
  {
  }

  lemma {:induction false} NotDueIs(live: map<nat, int>, now: int)
    ensures NotDue(live, now) == map id | id in live && live[id] > now :: live[id]
  {
  }

  class BinaryHeapTimers {
    var heap: set<Entry>
    var callbacks: set<nat>
    var cancelled: set<nat>
    var nextId: nat
    const compactionRatio: real
    ghost var spec: Spec

    ghost predicate Valid()
      reads this
    {
      && nextId == spec.nextId
      && Represents(heap, callbacks, cancelled, spec.live)
      && (forall e <- heap :: e.id < nextId)
      && compactionRatio > 0.0
    }

    /** Cancelled entries still in the heap are within the configured share of it. */
    ghost predicate Lean()
      reads this
    {
      |cancelled| <= Allowance(|heap|, compactionRatio)
    }

    constructor (ratio: real)
      ensures Valid() && spec == INIT == Spec(1, map[], [], {}) && heap == {} && cancelled == {}
      ensures compactionRatio == if ratio < 0.001 then 0.001 else if ratio > 1.0 then 1.0 else ratio
    {
      heap, callbacks, cancelled, nextId := {}, {}, {}, 1;
      compactionRatio := if ratio < 0.001 then 0.001 else if ratio > 1.0 then 1.0 else ratio;
      spec := INIT;
    }

    /** `BinaryHeap::peek` of a min-heap. */
    method PeekMin() returns (least: Entry)
      requires heap != {}
      ensures IsTop(heap, least)
    {
      least :| least in heap;
      var rest := heap - {least};
      while rest != {}
        invariant least in heap && rest <= heap
        invariant forall e <- heap :: e in rest || e == least || Less(least, e)
        decreases rest
      {
        var e :| e in rest;
        rest := rest - {e};
        if Less(e, least) {
          least := e;
        }
      }
    }

    method ScheduleTimer(deadline: int) returns (id: nat)
      requires Valid() && nextId + 1 < U64_LIMIT
      modifies this
      ensures Valid()
      ensures spec == SpecApply(old(spec), Schedule(deadline)) && id == old(spec).nextId
      ensures heap == old(heap) + {Entry(deadline, id)} && cancelled == old(cancelled)
    {
      id := nextId;
      nextId := (nextId + 1) % U64_LIMIT;
      heap := heap + {Entry(deadline, id)};
      callbacks := callbacks + {id};
      spec := SpecApply(spec, Schedule(deadline));
    }

    method CancelTimer(id: nat) returns (removed: bool)
      requires Valid()
      modifies this
      ensures Valid()
      ensures removed <==> id in old(spec).live
      ensures spec == SpecApply(old(spec), Cancel(id))
      ensures spec.live == (if removed then old(spec).live - {id} else old(spec).live)
      ensures removed ==> Lean()
      ensures removed && |old(cancelled) + {id}| <= Allowance(|old(heap)|, compactionRatio) ==>
                heap == old(heap) && cancelled == old(cancelled) + {id}
    {
      hide Represents, Allowance;
      CallbacksLive(heap, callbacks, cancelled, spec.live);
      removed := id in callbacks;
      if removed {
        CancelOne(heap, callbacks, cancelled, spec.live, id);
        callbacks := callbacks - {id};
        cancelled := cancelled + {id};
        spec := SpecApply(spec, Cancel(id));
        MaybeCompact();
      }
    }

    /** Leaves little garbage behind, and the live timers as they were. */
    method MaybeCompact()
      requires Valid()
      modifies this`heap, this`cancelled
      ensures Valid() && Lean()
      ensures old(Lean()) ==> heap == old(heap) && cancelled == old(cancelled)
    {
      if heap != {} {
        var threshold := Allowance(|heap|, compactionRatio);
        if |cancelled| > threshold {
          Compact();
        }
      }
    }

    /** Rebuild the heap without its cancelled entries. */
    method Compact()
      requires Valid()
      modifies this`heap, this`cancelled
      ensures Valid() && cancelled == {} && heap <= old(heap)
    {
      hide Represents;
      var kept: set<Entry> := {};
      while heap != {}
        invariant cancelled == old(cancelled)
        invariant forall e :: e in kept <==> e in old(heap) && e !in heap && e.id !in cancelled
        invariant heap <= old(heap)
        decreases heap
      {
        var item := PeekMin();
        heap := heap - {item};
        if item.id !in cancelled {
          kept := kept + {item};
        }
      }
      KeepLive(old(heap), callbacks, cancelled, spec.live, kept);
      heap := kept;
      cancelled := {};
    }

    /** Fires the due timers; `firings` lists the callbacks run, in order. */
    method TickTo(now: int) returns (firings: seq<Entry>)
      requires Valid()
      modifies this
      ensures Valid()
      ensures firings == Due(old(spec).live, now)
      ensures spec == SpecApply(old(spec), Tick(now))
      ensures spec.live == map id | id in old(spec).live && old(spec).live[id] > now :: old(spec).live[id]
      ensures spec.fired == old(spec).fired + firings
    {
      hide Due, NotDue, Represents, Earliest, IsTop;
      firings := [];
      ghost var live := spec.live;
      while heap != {}
        invariant heap <= old(heap) && nextId == old(nextId)
        invariant Represents(heap, callbacks, cancelled, live)
        invariant firings + Due(live, now) == Due(old(spec).live, now)
        invariant NotDue(live, now) == NotDue(old(spec).live, now)
        decreases heap
      {
        var top := PeekMin();
        TopInHeap(heap, top);
        if top.deadline > now {
          TopBoundsLive(heap, callbacks, cancelled, live, top, now);
          break;
        }
        if top.id in cancelled {
          PopCancelled(heap, callbacks, cancelled, live, top);
          cancelled := cancelled - {top.id};
        } else {
          PopLive(heap, callbacks, cancelled, live, top);
          TopIsEarliest(heap, callbacks, cancelled, live, top, now);
          DueStep(live, now, top.id);
          SkipDue(live, now, top.id);
          callbacks := callbacks - {top.id};
          firings := firings + [top];
          live := live - {top.id};
        }
        heap := heap - {top};
      }
      EmptyHeap(heap, callbacks, cancelled, live);
      NothingDue(live, now);
      assert firings + [] == firings;
      NotDueIs(old(spec).live, now);
      spec := SpecApply(old(spec), Tick(now));
    }

    method Len() returns (n: nat)
      requires Valid()
      ensures n == |spec.live|
    {
      n := |callbacks|;
    }

    /** Scans the heap in the order of its storage, which starts with the least entry and is
        otherwise open: some live deadline, the earliest if the least entry is not cancelled. */
    method NextDeadline() returns (d: Option<int>)
      requires Valid()
      ensures d.None? <==> spec.live == map[]
      ensures d.Some? ==> exists id :: id in spec.live && spec.live[id] == d.value
      ensures d.Some? && (forall top <- heap :: IsTop(heap, top) ==> top.id !in cancelled) ==>
                forall id <- spec.live :: d.value <= spec.live[id]
    {
      var rest := heap;
      if heap == {} {
        NoneLive(heap, callbacks, cancelled, spec.live);
        return None;
      }
      var top := PeekMin();
      TopBoundsAll(heap, callbacks, cancelled, spec.live, top);
      if top.id !in cancelled {
        assert top.id in spec.live && spec.live[top.id] == top.deadline;
        return Some(top.deadline);
      }
      while rest != {}
        invariant rest <= heap
        invariant forall e <- heap :: e in rest || e.id in cancelled
        decreases rest
      {
        var e :| e in rest;
        rest := rest - {e};
        if e.id !in cancelled {
          assert e.id in spec.live && spec.live[e.id] == e.deadline;
          return Some(e.deadline);
        }
      }
      NoneLive(heap, callbacks, cancelled, spec.live);
      d := None;
    }
  }

  lemma {:induction false} TopBoundsAll(heap: set<Entry>, callbacks: set<nat>, cancelled: set<nat>,
                                        live: map<nat, int>, top: Entry)
    requires Represents(heap, callbacks, cancelled, live) && IsTop(heap, top)
    ensures forall id <- live :: top.deadline <= live[id]
  {
    assert forall id <- live :: Entry(live[id], id) in heap;
  }

  // ----- the answer depends on the layout

  /** The array a binary heap keeps: no entry comes before its parent. */
  predicate HeapOrdered(storage: seq<Entry>) {
    forall i, j :: 0 <= i < j < |storage| && i == (j - 1) / 2 ==> Less(storage[i], storage[j])
  }

  /** What the scan of the array answers. */
  function FirstLive(storage: seq<Entry>, cancelled: set<nat>): Option<int> {
    if storage == [] then None
    else if storage[0].id !in cancelled then Some(storage[0].deadline)
    else FirstLive(storage[1..], cancelled)
  }

  /** `BinaryHeap::push`: append, then move up past greater parents. */
  function Push(storage: seq<Entry>, e: Entry): seq<Entry> {
    SiftUp(storage + [e], |storage|)
  }

  function SiftUp(storage: seq<Entry>, i: nat): seq<Entry>
    requires i < |storage|
    decreases i
  {
    var p := (i - 1) / 2;
    if i == 0 || !Less(storage[i], storage[p]) then storage
    else SiftUp(storage[i := storage[p]][p := storage[i]], p)
  }

  /** Entries pushed no earlier than their parents stay where they are put. */
  lemma {:induction false} PushInPlace(storage: seq<Entry>, e: Entry)
    requires storage == [] || !Less(e, storage[(|storage| - 1) / 2])
    ensures Push(storage, e) == storage + [e]
  {
  }

  /** Four timers and a cancellation, at the default compaction ratio: the array that the pushes
      leave answers 3 while a timer with deadline 2 is live. */
  method LateDeadline() returns (timers: BinaryHeapTimers, storage: seq<Entry>)
    ensures timers.Valid() && timers.Lean() && timers.compactionRatio == 0.25
    ensures storage == Push(Push(Push(Push([], Entry(1, 1)), Entry(3, 2)), Entry(2, 3)), Entry(4, 4))
    ensures HeapOrdered(storage) && timers.heap == (set e <- storage)
    ensures FirstLive(storage, timers.cancelled) == Some(3)
    ensures 3 in timers.spec.live && timers.spec.live[3] == 2
  {
    hide Represents, HeapOrdered, FirstLive, Push, Allowance;
    timers := FourTimers();
    storage := [Entry(1, 1), Entry(3, 2), Entry(2, 3), Entry(4, 4)];
    FourEntries(timers.heap);
    assert |timers.cancelled + {1}| == 1;
    var removed := timers.CancelTimer(1);
    Pushed(storage);
    LateLayout(storage);
  }

  method FourTimers() returns (timers: BinaryHeapTimers)
    ensures fresh(timers) && timers.Valid() && timers.compactionRatio == 0.25 && timers.cancelled == {}
    ensures timers.heap == {} + {Entry(1, 1)} + {Entry(3, 2)} + {Entry(2, 3)} + {Entry(4, 4)}
    ensures timers.spec.live == map[1 := 1, 2 := 3, 3 := 2, 4 := 4]
  {
    hide Represents;
    timers := new BinaryHeapTimers(0.25);
    var a := timers.ScheduleTimer(1);
    var b := timers.ScheduleTimer(3);
    assert timers.spec.live == map[1 := 1, 2 := 3];
    var c := timers.ScheduleTimer(2);
    var d := timers.ScheduleTimer(4);
  }

  lemma {:induction false} FourEntries(heap: set<Entry>)
    requires heap == {} + {Entry(1, 1)} + {Entry(3, 2)} + {Entry(2, 3)} + {Entry(4, 4)}
    ensures |heap| == 4 && Allowance(4, 0.25) == 1
  {
    assert heap == {Entry(1, 1), Entry(3, 2), Entry(2, 3), Entry(4, 4)};
  }

  lemma {:induction false} Pushed(storage: seq<Entry>)
    requires storage == [Entry(1, 1), Entry(3, 2), Entry(2, 3), Entry(4, 4)]
    ensures storage == Push(Push(Push(Push([], Entry(1, 1)), Entry(3, 2)), Entry(2, 3)), Entry(4, 4))
  {
    hide Push;
    PushInPlace([], Entry(1, 1));
    assert [] + [Entry(1, 1)] == [Entry(1, 1)];
    PushInPlace([Entry(1, 1)], Entry(3, 2));
    assert [Entry(1, 1)] + [Entry(3, 2)] == [Entry(1, 1), Entry(3, 2)];
    PushInPlace([Entry(1, 1), Entry(3, 2)], Entry(2, 3));
    assert [Entry(1, 1), Entry(3, 2)] + [Entry(2, 3)] == [Entry(1, 1), Entry(3, 2), Entry(2, 3)];
    PushInPlace([Entry(1, 1), Entry(3, 2), Entry(2, 3)], Entry(4, 4));
    assert [Entry(1, 1), Entry(3, 2), Entry(2, 3)] + [Entry(4, 4)] == storage;
  }

  lemma {:induction false} LateLayout(storage: seq<Entry>)
    requires storage == [Entry(1, 1), Entry(3, 2), Entry(2, 3), Entry(4, 4)]
    ensures HeapOrdered(storage) && FirstLive(storage, {1}) == Some(3)
    ensures (set e <- storage) == {} + {Entry(1, 1)} + {Entry(3, 2)} + {Entry(2, 3)} + {Entry(4, 4)}
  {
    assert storage[1..][0] == Entry(3, 2);
    assert FirstLive(storage, {1}) == FirstLive(storage[1..], {1});
    forall i, j | 0 <= i < j < |storage| && i == (j - 1) / 2
      ensures Less(storage[i], storage[j])
    {
      assert (j == 1 && i == 0) || (j == 2 && i == 0) || (j == 3 && i == 1);
    }
    forall e
      ensures e in storage <==> e in {} + {Entry(1, 1)} + {Entry(3, 2)} + {Entry(2, 3)} + {Entry(4, 4)}
    {
      if e in storage {
        var i :| 0 <= i < 4 && storage[i] == e;
      }
      assert storage[0] in storage && storage[1] in storage && storage[2] in storage && storage[3] in storage;
    }
  }

  lemma {:induction false} LiveEntry(heap: set<Entry>, callbacks: set<nat>, cancelled: set<nat>,
      live: map<nat, int>, id: nat)
    requires Represents(heap, callbacks, cancelled, live) && id in live
    ensures id !in cancelled && exists e <- heap :: e.id == id
  {
    assert Entry(live[id], id) in heap;
  }

  lemma {:induction false} NoneLive(heap: set<Entry>, callbacks: set<nat>, cancelled: set<nat>, live: map<nat, int>)
    requires Represents(heap, callbacks, cancelled, live) && forall e <- heap :: e.id in cancelled
    ensures live == map[]
  {
    hide Represents;
    if id :| id in live {
      LiveEntry(heap, callbacks, cancelled, live, id);
    }
  }

  lemma {:induction false} CallbacksLive(
    heap: set<Entry>, callbacks: set<nat>, cancelled: set<nat>, live: map<nat, int>)
    requires Represents(heap, callbacks, cancelled, live)
    ensures callbacks == live.Keys
  {
  }

  lemma {:induction false} CancelOne(
    heap: set<Entry>, callbacks: set<nat>, cancelled: set<nat>, live: map<nat, int>, id: nat)
    requires Represents(heap, callbacks, cancelled, live) && id in callbacks
    ensures Represents(heap, callbacks - {id}, cancelled + {id}, live - {id}) && id !in cancelled
  {
    assert Entry(live[id], id) in heap;
  }

  lemma {:induction false} TopInHeap(heap: set<Entry>, top: Entry)
    requires IsTop(heap, top)
    ensures top in heap
  {
  }

  lemma {:induction false} SkipDue(live: map<nat, int>, now: int, id: nat)
    requires Earliest(live, now, id)
    ensures NotDue(live - {id}, now) == NotDue(live, now)
  {
  }

  lemma {:induction false} EmptyHeap(heap: set<Entry>, callbacks: set<nat>, cancelled: set<nat>, live: map<nat, int>)
    requires Represents(heap, callbacks, cancelled, live)
    ensures heap == {} ==> live == map[]
  {
    assert forall id <- live :: Entry(live[id], id) in heap;
  }
}
