/** Algorithm R: what the reservoir holds, and with which odds. */
module Reservoir {
  import opened Basics

  /** Stream positions held after `n` additions with capacity `k`, given the slot drawn at
      each addition beyond the first `k`. `draws[m]` belongs to addition number k + m + 1. */
  function Held(k: nat, n: nat, draws: seq<nat>): (r: seq<nat>)
    requires n <= k || |draws| == n - k
    decreases n
  {
    if n == 0 then []
    else if n <= k then Held(k, n - 1, []) + [n - 1]
    else
      var before := Held(k, n - 1, draws[..n - 1 - k]);
      var j := draws[n - 1 - k];
      if j < |before| then before[j := n - 1] else before
  }

  /** The reservoir always holds min(n, k) distinct positions of the stream so far. */
  lemma {:induction false} HeldIsSample(k: nat, n: nat, draws: seq<nat>)
    requires n <= k || |draws| == n - k
    ensures |Held(k, n, draws)| == if n <= k then n else k
    ensures forall p <- Held(k, n, draws) :: p < n
    ensures Distinct(Held(k, n, draws))
    decreases n
  {
    if n > 0 {
      if n <= k {
        HeldIsSample(k, n - 1, []);
        var before := Held(k, n - 1, []);
        forall i | 0 <= i < |before|
          ensures before[i] != n - 1
        {
          assert before[i] in before;
        }
      } else {
        HeldIsSample(k, n - 1, draws[..n - 1 - k]);
        var before := Held(k, n - 1, draws[..n - 1 - k]);
        var r := Held(k, n, draws);
        forall i | 0 <= i < |r|
          ensures r[i] < n
        {
          assert r[i] == n - 1 || before[i] in before;
        }
        forall i, j | 0 <= i < j < |r|
          ensures r[i] != r[j]
        {
          assert before[i] in before && before[j] in before;
        }
      }
    }
  }

  // ----- the space of draws

  /** Every sequence of draws for `n` additions: the draw at addition t is below t. */
  ghost function Draws(k: nat, n: nat): (s: set<seq<nat>>)
    decreases n
  {
    if n <= k then {[]}
    else set d, j: nat | d in Draws(k, n - 1) && j < n :: d + [j]
  }

  predicate InRange(k: nat, n: nat, d: seq<nat>) {
    |d| == (if n <= k then 0 else n - k) && forall m :: 0 <= m < |d| ==> d[m] < k + m + 1
  }

  /** The draw space holds exactly the sequences in range. */
  lemma {:induction false} DrawsAreInRange(k: nat, n: nat, d: seq<nat>)
    ensures d in Draws(k, n) <==> InRange(k, n, d)
    decreases n
  {
    if n > k {
      if InRange(k, n, d) {
        var e := d[..|d| - 1];
        DrawsAreInRange(k, n - 1, e);
        assert d == e + [d[|d| - 1]];
      }
      if d in Draws(k, n) {
        var e, j :| e in Draws(k, n - 1) && 0 <= j < n && d == e + [j];
        DrawsAreInRange(k, n - 1, e);
      }
    }
  }

  /** Draw sequences that leave stream position `i` in the reservoir. */
  ghost function Keeping(k: nat, n: nat, i: nat): (s: set<seq<nat>>) {
    set d | d in Draws(k, n) && Keeps(k, n, i, d)
  }

  predicate Keeps(k: nat, n: nat, i: nat, d: seq<nat>) {
    (n <= k || |d| == n - k) && i in Held(k, n, d)
  }

  // ----- counting extensions

  function Below(n: nat): (s: set<nat>)
    ensures forall j: nat :: j in s <==> j < n
  {
    if n == 0 then {} else Below(n - 1) + {n - 1}
  }

  lemma {:induction false} BelowSize(n: nat)
    ensures |Below(n)| == n
  {
    if n > 0 {
      BelowSize(n - 1);
    }
  }

  /** All one-draw extensions of the sequences in `s` by the draws `next` allows. */
  ghost function Extend(s: set<seq<nat>>, next: seq<nat> -> set<nat>): (t: set<seq<nat>>) {
    set d, j | d in s && j in next(d) :: d + [j]
  }

  lemma {:induction false} SnocInjective(d: seq<nat>, i: nat, e: seq<nat>, j: nat)
    requires d != e || i != j
    ensures d + [i] != e + [j]
  {
    assert (d + [i])[..|d|] == d && (e + [j])[..|e|] == e;
    assert (d + [i])[|d|] == i && (e + [j])[|e|] == j;
  }

  ghost function ExtendedBy(d: seq<nat>, js: set<nat>): (t: set<seq<nat>>) {
    set j | j in js :: d + [j]
  }

  lemma {:induction false} ExtendOne(d: seq<nat>, js: set<nat>)
    ensures |ExtendedBy(d, js)| == |js|
  {
    if js == {} {
      assert ExtendedBy(d, js) == {};
    } else {
      var j :| j in js;
      ExtendOne(d, js - {j});
      assert ExtendedBy(d, js) == ExtendedBy(d, js - {j}) + {d + [j]};
      forall x | x in js - {j}
        ensures d + [x] != d + [j]
      {
        SnocInjective(d, x, d, j);
      }
    }
  }

  lemma {:induction false} ExtendSplit(s: set<seq<nat>>, next: seq<nat> -> set<nat>, d: seq<nat>)
    requires d in s
    ensures Extend(s, next) == Extend(s - {d}, next) + ExtendedBy(d, next(d))
    ensures Extend(s - {d}, next) !! ExtendedBy(d, next(d))
  {
    forall e, i, j | e in s - {d} && i in next(e) && j in next(d)
      ensures e + [i] != d + [j]
    {
      SnocInjective(e, i, d, j);
    }
  }

  /** If every sequence has `c` extensions there are c times as many. */
  lemma {:induction false} ExtendSize(s: set<seq<nat>>, next: seq<nat> -> set<nat>, c: nat)
    requires forall d <- s :: |next(d)| == c
    ensures |Extend(s, next)| == c * |s|
  {
    hide Extend, ExtendedBy;
    if s == {} {
      ExtendNothing(next);
    } else {
      var d :| d in s;
      var rest := s - {d};
      ExtendSize(rest, next, c);
      ExtendOne(d, next(d));
      ExtendSplit(s, next, d);
      assert |Extend(s, next)| == |Extend(rest, next)| + |ExtendedBy(d, next(d))|;
      assert |s| == |rest| + 1;
      OneMoreTimes(c, |rest|);
    }
  }

  lemma {:induction false} ExtendNothing(next: seq<nat> -> set<nat>)
    ensures Extend({}, next) == {}
  {
  }

  lemma {:induction false} OneMoreTimes(c: nat, n: nat)
    ensures c * (n + 1) == c * n + c
  {
  }

  // ----- uniformity

  lemma {:induction false} DrawsSize(k: nat, n: nat)
    requires n >= k
    ensures |Draws(k, n + 1)| == (n + 1) * |Draws(k, n)|
  {
    hide Below;
    var next := (d: seq<nat>) => Below(n + 1);
    BelowSize(n + 1);
    ExtendSize(Draws(k, n), next, n + 1);
    assert Draws(k, n + 1) == Extend(Draws(k, n), next);
  }

  /** The slot of position `i` in a reservoir that holds it. */
  ghost function SlotOf(r: seq<nat>, i: nat): (j: nat)
    requires i in r
    ensures j < |r| && r[j] == i
  {
    var j :| 0 <= j < |r| && r[j] == i;
    j
  }

  /** One more addition, from a full reservoir: the newcomer enters on the first k draws; an
      older position stays on every draw but its own slot's. */
  lemma {:induction false} OneMore(k: nat, n: nat, i: nat, d: seq<nat>, j: nat)
    requires n >= k && d in Draws(k, n) && j <= n
    ensures i == n ==> (Keeps(k, n + 1, i, d + [j]) <==> j < k)
    ensures i < n ==> (Keeps(k, n + 1, i, d + [j]) <==>
              Keeps(k, n, i, d) && j != SlotOf(Held(k, n, d), i))
  {
    DrawsAreInRange(k, n, d);
    HeldIsSample(k, n, d);
    var r, e := Held(k, n, d), d + [j];
    assert e[..n - k] == d && e[n - k] == j;
    assert Held(k, n + 1, e) == if j < |r| then r[j := n] else r;
    if i == n {
      assert i !in r;
      if j < k { assert Held(k, n + 1, e)[j] == n; }
    } else if i in r {
      var s := SlotOf(r, i);
      if j != s { assert Held(k, n + 1, e)[s] == i; }
    }
  }

  ghost function StayDraws(k: nat, n: nat, i: nat, d: seq<nat>): (s: set<nat>) {
    if Keeps(k, n, i, d) then Below(n + 1) - {SlotOf(Held(k, n, d), i)} else {}
  }

  /** An older position is kept by n extensions of each sequence that kept it. */
  lemma {:induction false} OlderCount(k: nat, n: nat, i: nat)
    requires n >= k && i < n
    ensures |Keeping(k, n + 1, i)| == n * |Keeping(k, n, i)|
  {
    hide Held, Keeps;
    var next := (d: seq<nat>) => StayDraws(k, n, i, d);
    forall d | d in Keeping(k, n, i)
      ensures |next(d)| == n
    {
      StayCount(k, n, i, d);
    }
    ExtendSize(Keeping(k, n, i), next, n);
    forall e
      ensures e in Keeping(k, n + 1, i) <==> e in Extend(Keeping(k, n, i), next)
    {
      OlderExtension(k, n, i, e);
    }
    assert Keeping(k, n + 1, i) == Extend(Keeping(k, n, i), next);
  }

  lemma {:induction false} StayCount(k: nat, n: nat, i: nat, d: seq<nat>)
    requires n >= k && d in Keeping(k, n, i)
    ensures |StayDraws(k, n, i, d)| == n
  {
    hide Held, Below;
    DrawsAreInRange(k, n, d);
    HeldIsSample(k, n, d);
    BelowBut(n + 1, SlotOf(Held(k, n, d), i));
  }

  lemma {:induction false} BelowBut(n: nat, x: nat)
    requires x < n
    ensures |Below(n) - {x}| == n - 1
  {
    hide Below;
    BelowSize(n);
  }

  lemma {:induction false} OlderExtension(k: nat, n: nat, i: nat, e: seq<nat>)
    requires n >= k && i < n
    ensures e in Keeping(k, n + 1, i) <==>
            exists d, j :: d in Keeping(k, n, i) && j in StayDraws(k, n, i, d) && e == d + [j]
  {
    hide Held, Keeps;
    if e in Draws(k, n + 1) {
      var d, j :| d in Draws(k, n) && 0 <= j < n + 1 && e == d + [j];
      OneMore(k, n, i, d, j);
      if e in Keeping(k, n + 1, i) {
        assert d in Keeping(k, n, i) && j in StayDraws(k, n, i, d);
      }
    }
    if d, j :| d in Keeping(k, n, i) && j in StayDraws(k, n, i, d) && e == d + [j] {
      OneMore(k, n, i, d, j);
      assert e in Draws(k, n + 1);
    }
  }

  /** The newcomer is kept by k extensions of every sequence. */
  lemma {:induction false} NewcomerCount(k: nat, n: nat)
    requires n >= k
    ensures |Keeping(k, n + 1, n)| == k * |Draws(k, n)|
  {
    hide Held, Keeps, Below;
    var next := (d: seq<nat>) => Below(k);
    BelowSize(k);
    ExtendSize(Draws(k, n), next, k);
    forall e
      ensures e in Keeping(k, n + 1, n) <==> e in Extend(Draws(k, n), next)
    {
      if e in Draws(k, n + 1) {
        var d, j :| d in Draws(k, n) && 0 <= j < n + 1 && e == d + [j];
        OneMore(k, n, n, d, j);
      }
      if e in Extend(Draws(k, n), next) {
        var d, j :| d in Draws(k, n) && j in next(d) && e == d + [j];
        OneMore(k, n, n, d, j);
        assert e in Draws(k, n + 1);
      }
    }
    assert Keeping(k, n + 1, n) == Extend(Draws(k, n), next);
  }

  /** Uniformity: of all equally likely draw sequences for a stream of n >= k items, exactly
      k out of every n keep any given item. */
  lemma {:induction false} Uniform(k: nat, n: nat, i: nat)
    requires n >= k && i < n
    ensures |Keeping(k, n, i)| * n == |Draws(k, n)| * k
    decreases n
  {
    hide Held, Keeping, Draws;
    if n == k {
      FillingKeepsAll(k, i);
    } else {
      DrawsSize(k, n - 1);
      if i == n - 1 {
        NewcomerCount(k, n - 1);
        CountArithmetic(|Keeping(k, n, i)|, |Draws(k, n - 1)|, k, n);
      } else {
        OlderCount(k, n - 1, i);
        Uniform(k, n - 1, i);
        OlderArithmetic(|Keeping(k, n - 1, i)|, |Draws(k, n - 1)|, k, n);
      }
    }
  }

  lemma {:induction false} FillingKeepsAll(k: nat, i: nat)
    requires i < k
    ensures Keeping(k, k, i) == {[]} == Draws(k, k)
  {
    FillingHolds(k, k);
    assert Held(k, k, [])[i] == i;
  }

  lemma {:induction false} FillingHolds(k: nat, n: nat)
    requires n <= k
    ensures |Held(k, n, [])| == n && forall p :: 0 <= p < n ==> Held(k, n, [])[p] == p
  {
    if n > 0 {
      FillingHolds(k, n - 1);
    }
  }

  lemma {:induction false} CountArithmetic(keep: nat, all: nat, k: nat, n: nat)
    requires keep == k * all
    ensures keep * n == (n * all) * k
  {
    assert (k * all) * n == (n * all) * k;
  }

  lemma {:induction false} OlderArithmetic(keep: nat, all: nat, k: nat, n: nat)
    requires n > 0 && keep * (n - 1) == all * k
    ensures ((n - 1) * keep) * n == (n * all) * k
  {
    assert ((n - 1) * keep) * n == (keep * (n - 1)) * n;
    assert (all * k) * n == (n * all) * k;
  }

  // ----- the reservoir as it runs

  /** The items are the stream's items at the held positions. */
  predicate Mirrors<T(==)>(items: seq<T>, stream: seq<T>, held: seq<nat>) {
    |items| == |held| && forall s :: 0 <= s < |items| ==> held[s] < |stream| && items[s] == stream[held[s]]
  }

  lemma {:induction false} SameCount<T>(items: seq<T>, stream: seq<T>, held: seq<nat>)
    requires Mirrors(items, stream, held)
    ensures |items| == |held|
  {
  }

  lemma {:induction false} MirrorsMore<T>(items: seq<T>, stream: seq<T>, held: seq<nat>, item: T, j: nat)
    requires Mirrors(items, stream, held)
    ensures Mirrors(items, stream + [item], held)
    ensures Mirrors(items + [item], stream + [item], held + [|stream|])
    ensures j < |items| ==> Mirrors(items[j := item], stream + [item], held[j := |stream|])
  {
  }

  /** What one more addition does to the held positions. */
  lemma {:induction false} HeldNext(k: nat, n: nat, draws: seq<nat>, j: nat)
    requires InRange(k, n, draws)
    ensures n + 1 <= k ==> InRange(k, n + 1, draws) && Held(k, n + 1, draws) == Held(k, n, draws) + [n]
    ensures n + 1 > k && j <= n ==>
              && InRange(k, n + 1, draws + [j])
              && Held(k, n + 1, draws + [j]) ==
                 if j < |Held(k, n, draws)| then Held(k, n, draws)[j := n] else Held(k, n, draws)
  {
    if n + 1 <= k {
      assert draws == [];
    } else {
      assert (draws + [j])[..n - k] == draws;
    }
  }

  class VitterReservoir<T(==)> {
    const capacity: nat
    var items: seq<T>
    var count: nat
    ghost var stream: seq<T>
    ghost var draws: seq<nat>

    ghost predicate Valid()
      reads this
    {
      && count == |stream|
      && InRange(capacity, count, draws)
      && Mirrors(items, stream, Held(capacity, count, draws))
    }

    constructor (capacity: nat)
      ensures Valid() && this.capacity == capacity && stream == [] && draws == []
    {
      this.capacity := capacity;
      items, count, stream, draws := [], 0, [], [];
    }

    /** One addition; `j` is the draw, uniform below the new count, that the code takes once
        the reservoir is full. */
    method Add(item: T, j: nat)
      requires Valid() && j <= count
      modifies this
      ensures Valid() && stream == old(stream) + [item]
      ensures draws == if count <= capacity then old(draws) else old(draws) + [j]
    {
      hide Held, Mirrors;
      HeldIsSample(capacity, count, draws);
      HeldNext(capacity, count, draws, j);
      MirrorsMore(items, stream, Held(capacity, count, draws), item, j);
      SameCount(items, stream, Held(capacity, count, draws));
      count := count + 1;
      stream := stream + [item];
      if count <= capacity {
        items := items + [item];
      } else {
        draws := draws + [j];
        if j < capacity {
          items := items[j := item];
        }
      }
    }

    /** The stream's items at the min(count, capacity) held positions. */
    method Samples() returns (s: seq<T>)
      requires Valid()
      ensures |s| == |Held(capacity, count, draws)| == (if count <= capacity then count else capacity)
      ensures forall m :: 0 <= m < |s| ==>
                Held(capacity, count, draws)[m] < count && s[m] == stream[Held(capacity, count, draws)[m]]
    {
      HeldIsSample(capacity, count, draws);
      s := items;
    }
  }
}
