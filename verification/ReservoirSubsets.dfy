/** Algorithm R draws every set of k positions equally often, not just every position. */
module ReservoirSubsets {
  import opened Basics
  import opened Reservoir

  function Positions(r: seq<nat>): set<nat> {
    set p | p in r
  }

  /** The reservoir ends up holding exactly the positions in `s`. */
  ghost predicate HoldsExactly(k: nat, n: nat, s: set<nat>, d: seq<nat>) {
    (n <= k || |d| == n - k) && Positions(Held(k, n, d)) == s
  }

  /** Draw sequences that leave exactly `s`. */
  ghost function Holding(k: nat, n: nat, s: set<nat>): set<seq<nat>> {
    set d | d in Draws(k, n) && HoldsExactly(k, n, s, d)
  }

  function Factorial(n: nat): nat {
    if n == 0 then 1 else n * Factorial(n - 1)
  }

  lemma {:induction false} FactorialStep(m: nat)
    ensures Factorial(0) == 1 && Factorial(m + 1) == (m + 1) * Factorial(m)
  {
  }

  lemma {:induction false} DistinctSize(r: seq<nat>)
    requires Distinct(r)
    ensures |Positions(r)| == |r|
  {
    if r != [] {
      var before, last := r[..|r| - 1], r[|r| - 1];
      DistinctSize(before);
      assert Positions(r) == Positions(before) + {last};
    }
  }

  lemma {:induction false} Replaced(r: seq<nat>, j: nat, p: nat)
    requires Distinct(r) && j < |r| && p !in r
    ensures Positions(r[j := p]) == Positions(r) - {r[j]} + {p}
  {
    var t := r[j := p];
    forall x | x in Positions(r) - {r[j]} + {p}
      ensures x in t
    {
      if x != p {
        var i :| 0 <= i < |r| && r[i] == x;
        assert t[i] == x;
      } else {
        assert t[j] == p;
      }
    }
  }

  /** One more addition to a full reservoir. */
  lemma {:induction false} NextPositions(k: nat, n: nat, d: seq<nat>, j: nat)
    requires n >= k && d in Draws(k, n) && j <= n
    ensures |d| == n - k && d + [j] in Draws(k, n + 1)
    ensures var r := Held(k, n, d);
            && |r| == k && Distinct(r) && (forall p <- r :: p < n)
            && Positions(Held(k, n + 1, d + [j])) ==
               if j < k then Positions(r) - {r[j]} + {n} else Positions(r)
  {
    hide Held;
    DrawsAreInRange(k, n, d);
    HeldIsSample(k, n, d);
    HeldNext(k, n, d, j);
    DrawsAreInRange(k, n + 1, d + [j]);
    if j < k {
      Replaced(Held(k, n, d), j, n);
    }
  }

  lemma {:induction false} SplitDraw(k: nat, n: nat, e: seq<nat>) returns (d: seq<nat>, j: nat)
    requires n >= k && e in Draws(k, n + 1)
    ensures d in Draws(k, n) && j <= n && e == d + [j]
  {
    d, j :| d in Draws(k, n) && 0 <= j < n + 1 && e == d + [j];
  }

  // ----- the newcomer stays out

  lemma {:induction false} OlderStep(k: nat, n: nat, s: set<nat>, d: seq<nat>, j: nat)
    requires n >= k && d in Draws(k, n) && j <= n && n !in s
    ensures d + [j] in Holding(k, n + 1, s) <==> d in Holding(k, n, s) && j >= k
  {
    hide Held, Draws, Positions;
    NextPositions(k, n, d, j);
  }

  lemma {:induction false} OlderSubset(k: nat, n: nat, s: set<nat>)
    requires n >= k && n !in s
    ensures |Holding(k, n + 1, s)| == (n + 1 - k) * |Holding(k, n, s)|
  {
    hide Held, Below, HoldsExactly;
    var next := (d: seq<nat>) => Below(n + 1) - Below(k);
    BelowSize(n + 1);
    BelowSize(k);
    assert Below(k) <= Below(n + 1);
    assert |Below(n + 1) - Below(k)| == n + 1 - k;
    ExtendSize(Holding(k, n, s), next, n + 1 - k);
    forall e
      ensures e in Holding(k, n + 1, s) <==> e in Extend(Holding(k, n, s), next)
    {
      OlderExtended(k, n, s, e, next);
    }
    assert Holding(k, n + 1, s) == Extend(Holding(k, n, s), next);
  }

  lemma {:induction false} OlderExtended(k: nat, n: nat, s: set<nat>, e: seq<nat>, next: seq<nat> -> set<nat>)
    requires n >= k && n !in s && forall d :: next(d) == Below(n + 1) - Below(k)
    ensures e in Holding(k, n + 1, s) <==> e in Extend(Holding(k, n, s), next)
  {
    hide HoldsExactly, Below;
    if e in Holding(k, n + 1, s) {
      var d, j := SplitDraw(k, n, e);
      OlderStep(k, n, s, d, j);
      assert j in next(d);
    }
    if e in Extend(Holding(k, n, s), next) {
      var d, j :| d in Holding(k, n, s) && j in next(d) && e == d + [j];
      OlderStep(k, n, s, d, j);
    }
  }

  // ----- the newcomer is in

  /** Draw sequences that hold all of `rest`. */
  ghost function Covering(k: nat, n: nat, rest: set<nat>): set<seq<nat>> {
    set d | d in Draws(k, n) && (n <= k || |d| == n - k) && rest <= Positions(Held(k, n, d))
  }

  /** The draws that put the newcomer in the one slot `rest` does not use. */
  ghost function SpareSlots(k: nat, n: nat, rest: set<nat>, d: seq<nat>): set<nat> {
    if n <= k || |d| == n - k
    then set j | 0 <= j < |Held(k, n, d)| && Held(k, n, d)[j] !in rest
    else {}
  }

  lemma {:induction false} OneSpare(r: seq<nat>, rest: set<nat>)
    requires Distinct(r) && rest <= Positions(r) && |rest| + 1 == |r|
    ensures |set j | 0 <= j < |r| && r[j] !in rest| == 1
  {
    DistinctSize(r);
    assert |Positions(r) - rest| == 1;
    var x :| x in Positions(r) - rest;
    assert Positions(r) - rest == {x} by { OnlyOne(Positions(r) - rest, x); }
    var j :| 0 <= j < |r| && r[j] == x;
    forall i | 0 <= i < |r| && r[i] !in rest
      ensures i == j
    {
      assert r[i] in Positions(r) - rest;
    }
    assert (set j | 0 <= j < |r| && r[j] !in rest) == {j};
  }

  lemma {:induction false} OnlyOne(s: set<nat>, x: nat)
    requires x in s && |s| == 1
    ensures s == {x}
  {
    assert |s - {x}| == 0;
  }

  lemma {:induction false} NewcomerStep(k: nat, n: nat, rest: set<nat>, d: seq<nat>, j: nat)
    requires n >= k && d in Draws(k, n) && j <= n && forall p <- rest :: p < n
    requires |rest| + 1 == k
    ensures d + [j] in Holding(k, n + 1, rest + {n}) <==>
            d in Covering(k, n, rest) && j in SpareSlots(k, n, rest, d)
  {
    hide Held, Draws;
    NextPositions(k, n, d, j);
    var r := Held(k, n, d);
    DistinctSize(r);
    if j < k {
      SameBut(Positions(r), r[j], rest, n);
    }
  }

  /** Trading `x` for the newcomer `n` leaves `rest` and the newcomer. */
  lemma {:induction false} SameBut(all: set<nat>, x: nat, rest: set<nat>, n: nat)
    requires x in all && n !in all && n !in rest && |rest| + 1 == |all|
    ensures all - {x} + {n} == rest + {n} <==> rest <= all && x !in rest
  {
    if all - {x} + {n} == rest + {n} {
      assert rest == rest + {n} - {n};
      assert all - {x} == all - {x} + {n} - {n};
    }
    if rest <= all && x !in rest {
      assert rest <= all - {x};
      SameSize(rest, all - {x});
    }
  }

  lemma {:induction false} SameSize(a: set<nat>, b: set<nat>)
    requires a <= b && |a| == |b|
    ensures a == b
  {
    assert |b - a| == 0;
  }

  lemma {:induction false} NewcomerSubset(k: nat, n: nat, rest: set<nat>)
    requires n >= k && |rest| + 1 == k && forall p <- rest :: p < n
    ensures |Holding(k, n + 1, rest + {n})| == |Covering(k, n, rest)|
  {
    hide Held, HoldsExactly;
    var next := (d: seq<nat>) => SpareSlots(k, n, rest, d);
    forall d | d in Covering(k, n, rest)
      ensures |next(d)| == 1
    {
      NextPositions(k, n, d, 0);
      OneSpare(Held(k, n, d), rest);
    }
    ExtendSize(Covering(k, n, rest), next, 1);
    forall e
      ensures e in Holding(k, n + 1, rest + {n}) <==> e in Extend(Covering(k, n, rest), next)
    {
      NewcomerExtended(k, n, rest, e, next);
    }
    assert Holding(k, n + 1, rest + {n}) == Extend(Covering(k, n, rest), next);
  }

  lemma {:induction false} NewcomerExtended(
    k: nat, n: nat, rest: set<nat>, e: seq<nat>, next: seq<nat> -> set<nat>)
    requires n >= k && |rest| + 1 == k && forall p <- rest :: p < n
    requires forall d :: next(d) == SpareSlots(k, n, rest, d)
    ensures e in Holding(k, n + 1, rest + {n}) <==> e in Extend(Covering(k, n, rest), next)
  {
    hide Held, HoldsExactly;
    if e in Holding(k, n + 1, rest + {n}) {
      var d, j := SplitDraw(k, n, e);
      NewcomerStep(k, n, rest, d, j);
    }
    if e in Extend(Covering(k, n, rest), next) {
      var d, j :| d in Covering(k, n, rest) && j in next(d) && e == d + [j];
      NextPositions(k, n, d, 0);
      NewcomerStep(k, n, rest, d, j);
    }
  }

  // ----- those that hold `rest`, by the one position more

  /** Draw sequences that leave `rest` and one of `others`. */
  ghost function WithOneOf(k: nat, n: nat, rest: set<nat>, others: set<nat>): set<seq<nat>> {
    set d | d in Draws(k, n) && exists x :: x in others && HoldsExactly(k, n, rest + {x}, d)
  }

  lemma {:induction false} CountByOther(k: nat, n: nat, rest: set<nat>, others: set<nat>, each: nat)
    requires rest !! others && forall x <- others :: |Holding(k, n, rest + {x})| == each
    ensures |WithOneOf(k, n, rest, others)| == |others| * each
  {
    hide WithOneOf, Holding;
    if others == {} {
      NoOther(k, n, rest);
    } else {
      var x :| x in others;
      var fewer := others - {x};
      CountByOther(k, n, rest, fewer, each);
      SplitByOther(k, n, rest, others, x);
      assert |others| == |fewer| + 1;
      SumOf(WithOneOf(k, n, rest, fewer), Holding(k, n, rest + {x}), |fewer|, each);
    }
  }

  lemma {:induction false} SumOf(a: set<seq<nat>>, b: set<seq<nat>>, c: nat, each: nat)
    requires a !! b && |a| == c * each && |b| == each
    ensures |a + b| == (c + 1) * each
  {
  }

  lemma {:induction false} NoOther(k: nat, n: nat, rest: set<nat>)
    ensures WithOneOf(k, n, rest, {}) == {}
  {
  }

  lemma {:induction false} SplitByOther(k: nat, n: nat, rest: set<nat>, others: set<nat>, x: nat)
    requires rest !! others && x in others
    ensures WithOneOf(k, n, rest, others) == WithOneOf(k, n, rest, others - {x}) + Holding(k, n, rest + {x})
    ensures WithOneOf(k, n, rest, others - {x}) !! Holding(k, n, rest + {x})
  {
    hide Held, Draws;
    forall d | d in WithOneOf(k, n, rest, others - {x})
      ensures d !in Holding(k, n, rest + {x})
    {
      var y :| y in others - {x} && HoldsExactly(k, n, rest + {y}, d);
      assert y !in rest + {x} && y in rest + {y};
    }
  }

  lemma {:induction false} CoveringByOther(k: nat, n: nat, rest: set<nat>)
    requires n >= k && |rest| + 1 == k && forall p <- rest :: p < n
    ensures Covering(k, n, rest) == WithOneOf(k, n, rest, Below(n) - rest)
  {
    hide Held;
    forall d | d in Draws(k, n)
      ensures d in Covering(k, n, rest) <==> d in WithOneOf(k, n, rest, Below(n) - rest)
    {
      NextPositions(k, n, d, 0);
      OneMorePosition(k, n, rest, d);
    }
  }

  lemma {:induction false} OneMorePosition(k: nat, n: nat, rest: set<nat>, d: seq<nat>)
    requires n >= k && |rest| + 1 == k && |d| == n - k
    requires var r := Held(k, n, d); |r| == k && Distinct(r) && forall p <- r :: p < n
    ensures rest <= Positions(Held(k, n, d)) <==>
            exists x :: x in Below(n) - rest && HoldsExactly(k, n, rest + {x}, d)
  {
    hide Held;
    var r := Held(k, n, d);
    DistinctSize(r);
    if rest <= Positions(r) {
      assert |Positions(r) - rest| == 1;
      var x :| x in Positions(r) - rest;
      OnlyOne(Positions(r) - rest, x);
      assert Positions(r) == rest + (Positions(r) - rest);
      assert x in Below(n) - rest && HoldsExactly(k, n, rest + {x}, d);
    }
  }

  // ----- every subset equally often

  lemma {:induction false} FirstSubset(k: nat, s: set<nat>)
    requires |s| == k && forall p <- s :: p < k
    ensures |Holding(k, k, s)| == 1
  {
    BelowSize(k);
    assert s <= Below(k);
    SameSize(s, Below(k));
    FillingHolds(k, k);
    var r := Held(k, k, []);
    forall p | p in Below(k)
      ensures p in r
    {
      assert r[p] == p;
    }
    assert Positions(r) == Below(k);
    assert Holding(k, k, s) == {[]};
  }

  /** Of all draw sequences for a stream of n items, exactly (n - k)! leave any given set of k
      positions, whichever set it is. */
  lemma {:induction false} SubsetUniform(k: nat, n: nat, s: set<nat>)
    requires n >= k && |s| == k && forall p <- s :: p < n
    ensures |Holding(k, n, s)| == Factorial(n - k)
    decreases n, 0
  {
    hide Held, Holding, Covering, Factorial;
    if n == k {
      FirstSubset(k, s);
      FactorialStep(0);
    } else if n - 1 !in s {
      SubsetUniform(k, n - 1, s);
      OlderSubset(k, n - 1, s);
      FactorialStep(n - 1 - k);
    } else {
      var rest := s - {n - 1};
      assert s == rest + {n - 1} && |rest| + 1 == k;
      NewcomerSubset(k, n - 1, rest);
      CoveringCount(k, n - 1, rest);
    }
  }

  lemma {:induction false} CoveringCount(k: nat, n: nat, rest: set<nat>)
    requires n >= k && |rest| + 1 == k && forall p <- rest :: p < n
    ensures |Covering(k, n, rest)| == Factorial(n + 1 - k)
    decreases n, 1
  {
    hide Held, Holding, Covering, WithOneOf, Below, Factorial;
    FactorialStep(n - k);
    var others := Below(n) - rest;
    BelowSize(n);
    assert rest <= Below(n);
    assert |others| == n + 1 - k;
    CoveringByOther(k, n, rest);
    forall x | x in others
      ensures |Holding(k, n, rest + {x})| == Factorial(n - k)
    {
      SubsetUniform(k, n, rest + {x});
    }
    CountByOther(k, n, rest, others, Factorial(n - k));
  }

  /** The draw sequences number n! / k!, so with C(n, k) sets of (n - k)! each, all are used. */
  lemma {:induction false} DrawCount(k: nat, n: nat)
    requires n >= k
    ensures |Draws(k, n)| * Factorial(k) == Factorial(n)
    decreases n
  {
    hide Draws;
    if n == k {
      NoDraw(k);
    } else {
      DrawCount(k, n - 1);
      DrawsSize(k, n - 1);
      TimesBoth(n, |Draws(k, n - 1)|, Factorial(k));
    }
  }

  lemma {:induction false} NoDraw(k: nat)
    ensures |Draws(k, k)| == 1
  {
  }

  lemma {:induction false} TimesBoth(n: nat, a: nat, f: nat)
    ensures (n * a) * f == n * (a * f)
  {
  }
}
