/** Walker/Vose alias table: how the weighted router turns integer weights into slots. */
module AliasTable {
  import opened Basics

  const SCALE := 0x100_0000
  const MAX_BACKENDS := 32

  datatype Slot = Slot(primary: BackendId, alias: BackendId, prob: nat)

  datatype Weight = Weight(id: BackendId, weight: nat)

  /** What the constructor insists on: 1 to 32 backends, positive u32 weights. */
  predicate Legal(ws: seq<Weight>) {
    && 0 < |ws| <= MAX_BACKENDS
    && forall i :: 0 <= i < |ws| ==> 0 < ws[i].weight < U32_LIMIT
  }

  function Total(ws: seq<Weight>): (t: nat) {
    if ws == [] then 0 else Total(ws[..|ws| - 1]) + ws[|ws| - 1].weight
  }

  /** Combined weight of all entries that name backend `b`. */
  function WeightOf(ws: seq<Weight>, b: BackendId): (t: nat) {
    if ws == [] then 0
    else WeightOf(ws[..|ws| - 1], b) + (if ws[|ws| - 1].id == b then ws[|ws| - 1].weight else 0)
  }

  /** How many entries name backend `b`. */
  function Entries(ws: seq<Weight>, b: BackendId): (t: nat) {
    if ws == [] then 0
    else Entries(ws[..|ws| - 1], b) + (if ws[|ws| - 1].id == b then 1 else 0)
  }

  /** Draws out of SCALE on which this slot yields backend `b`. */
  function SlotMass(s: Slot, b: BackendId): (m: int) {
    (if s.primary == b then s.prob else 0) + (if s.alias == b then SCALE - s.prob else 0)
  }

  /** Draws out of n * SCALE on which the table yields backend `b`. */
  function Mass(table: seq<Slot>, b: BackendId): (m: int) {
    if table == [] then 0 else Mass(table[..|table| - 1], b) + SlotMass(table[|table| - 1], b)
  }

  /** The pick of `sample`, given the two parts of one random word. */
  function Pick(table: seq<Slot>, bucket: nat, coin: nat): (b: BackendId)
    requires bucket < |table|
  {
    if coin < table[bucket].prob then table[bucket].primary else table[bucket].alias
  }

  /** The pick for a whole random word: its low end chooses the bucket, its high half the coin. */
  function PickWord(table: seq<Slot>, r: nat): (b: BackendId)
    requires table != []
  {
    Pick(table, r % |table|, r / U32_LIMIT % SCALE)
  }

  // ----- mass counts draws

  /** Coins below `n` on which `Pick` yields `b` from this bucket. */
  function CoinsFor(table: seq<Slot>, bucket: nat, b: BackendId, n: nat): (c: nat)
    requires bucket < |table|
  {
    if n == 0 then 0
    else CoinsFor(table, bucket, b, n - 1) + (if Pick(table, bucket, n - 1) == b then 1 else 0)
  }

  lemma {:induction false} CoinsCounted(table: seq<Slot>, bucket: nat, b: BackendId, n: nat)
    requires bucket < |table|
    ensures var s := table[bucket];
            CoinsFor(table, bucket, b, n) ==
            (if s.primary == b then Min(n, s.prob) else 0)
            + (if s.alias == b then n - Min(n, s.prob) else 0)
  {
    if n > 0 {
      CoinsCounted(table, bucket, b, n - 1);
    }
  }

  /** Of the draws with a bucket below `k`, those on which `Pick` yields `b`. */
  function DrawsFor(table: seq<Slot>, b: BackendId, k: nat): (c: nat)
    requires k <= |table|
  {
    if k == 0 then 0 else DrawsFor(table, b, k - 1) + CoinsFor(table, k - 1, b, SCALE)
  }

  lemma {:induction false} MassCountsDrawsBelow(table: seq<Slot>, b: BackendId, k: nat)
    requires k <= |table| && forall i :: 0 <= i < |table| ==> table[i].prob <= SCALE
    ensures Mass(table[..k], b) == DrawsFor(table, b, k)
  {
    hide CoinsFor;
    if k > 0 {
      MassCountsDrawsBelow(table, b, k - 1);
      CoinsCounted(table, k - 1, b, SCALE);
      assert table[..k][..k - 1] == table[..k - 1];
    }
  }

  /** The mass of a backend is exactly the number of (bucket, coin) draws that pick it. */
  lemma {:induction false} MassCountsDraws(table: seq<Slot>, b: BackendId)
    requires forall i :: 0 <= i < |table| ==> table[i].prob <= SCALE
    ensures Mass(table, b) == DrawsFor(table, b, |table|)
  {
    MassCountsDrawsBelow(table, b, |table|);
    assert table[..|table|] == table;
  }

  // ----- sums over indices

  /** Sum of an int-valued sequence. */
  function Sum(xs: seq<int>): (t: int) {
    if xs == [] then 0 else Sum(xs[..|xs| - 1]) + xs[|xs| - 1]
  }

  lemma {:induction false} SumUpdate(xs: seq<int>, i: nat, v: int)
    requires i < |xs|
    ensures Sum(xs[i := v]) == Sum(xs) - xs[i] + v
  {
    var last := |xs| - 1;
    if i == last {
      assert xs[i := v][..last] == xs[..last];
    } else {
      SumUpdate(xs[..last], i, v);
      assert xs[i := v][..last] == xs[..last][i := v];
    }
  }

  lemma {:induction false} SumBounds(xs: seq<int>, i: nat)
    requires i < |xs| && forall k :: 0 <= k < |xs| ==> xs[k] >= 0
    ensures 0 <= xs[i] <= Sum(xs)
  {
    var last := |xs| - 1;
    SumNonNegative(xs[..last]);
    if i < last {
      SumBounds(xs[..last], i);
    }
  }

  lemma {:induction false} SumNonNegative(xs: seq<int>)
    requires forall k :: 0 <= k < |xs| ==> xs[k] >= 0
    ensures Sum(xs) >= 0
  {
    if xs != [] {
      SumNonNegative(xs[..|xs| - 1]);
    }
  }

  // ----- rounding of the scaled weights

  /** The fixed-point share of one weight before any pairing. */
  function Scaled(weight: nat, n: nat, total: nat): (v: nat)
    requires total > 0
  {
    weight * n * SCALE / total
  }

  /** Initial shares of the entries that `keep` selects, zero elsewhere. */
  function Initial(ws: seq<Weight>, c: nat, total: nat, keep: seq<bool>): (xs: seq<int>)
    requires |keep| == |ws| && total > 0
    ensures |xs| == |ws|
  {
    seq(|ws|, i requires 0 <= i < |ws| => if keep[i] then ws[i].weight * c / total else 0)
  }

  function KeptWeight(ws: seq<Weight>, keep: seq<bool>): (t: nat)
    requires |keep| == |ws|
  {
    if ws == [] then 0
    else KeptWeight(ws[..|ws| - 1], keep[..|ws| - 1]) + (if keep[|ws| - 1] then ws[|ws| - 1].weight else 0)
  }

  function Kept(keep: seq<bool>): (t: nat) {
    if keep == [] then 0 else Kept(keep[..|keep| - 1]) + (if keep[|keep| - 1] then 1 else 0)
  }

  /** Rounding down loses less than one unit per selected entry. */
  lemma {:induction false} FloorSum(ws: seq<Weight>, c: nat, total: nat, keep: seq<bool>)
    requires |keep| == |ws| && total > 0
    ensures Sum(Initial(ws, c, total, keep)) * total <= KeptWeight(ws, keep) * c
    ensures KeptWeight(ws, keep) * c <= Sum(Initial(ws, c, total, keep)) * total + Kept(keep) * (total - 1)
  {
    if ws != [] {
      var last := |ws| - 1;
      var w, k := ws[..last], keep[..last];
      FloorSum(w, c, total, k);
      var xs := Initial(ws, c, total, keep);
      assert xs[..last] == Initial(w, c, total, k);
      if keep[last] {
        FloorStep(Sum(xs[..last]), KeptWeight(w, k), Kept(k), ws[last].weight, c, total);
      }
    }
  }

  lemma {:induction false} FloorStep(sum: int, weight: int, kept: int, more: nat, c: nat, total: nat)
    requires total > 0
    requires sum * total <= weight * c <= sum * total + kept * (total - 1)
    ensures (sum + more * c / total) * total <= (weight + more) * c
    ensures (weight + more) * c <= (sum + more * c / total) * total + (kept + 1) * (total - 1)
  {
    var x := more * c;
    assert (x / total) * total <= x <= (x / total) * total + (total - 1);
    assert (sum + x / total) * total == sum * total + (x / total) * total;
    assert (weight + more) * c == weight * c + x;
    assert (kept + 1) * (total - 1) == kept * (total - 1) + (total - 1);
  }

  function Everyone(n: nat): (keep: seq<bool>)
    ensures |keep| == n
  {
    seq(n, i => true)
  }

  function Naming(ws: seq<Weight>, b: BackendId): (keep: seq<bool>)
    ensures |keep| == |ws|
  {
    seq(|ws|, i requires 0 <= i < |ws| => ws[i].id == b)
  }

  lemma {:induction false} KeepEveryone(ws: seq<Weight>)
    ensures KeptWeight(ws, Everyone(|ws|)) == Total(ws)
    ensures Kept(Everyone(|ws|)) == |ws|
  {
    if ws != [] {
      var last := |ws| - 1;
      KeepEveryone(ws[..last]);
      assert Everyone(|ws|)[..last] == Everyone(last);
    }
  }

  lemma {:induction false} KeepNaming(ws: seq<Weight>, b: BackendId)
    ensures KeptWeight(ws, Naming(ws, b)) == WeightOf(ws, b)
    ensures Kept(Naming(ws, b)) == Entries(ws, b)
  {
    if ws != [] {
      var last := |ws| - 1;
      KeepNaming(ws[..last], b);
      assert Naming(ws, b)[..last] == Naming(ws[..last], b);
    }
  }

  /** What rounding took away in all: at least nothing, at most n - 1 units. */
  lemma {:induction false} LostUnits(ws: seq<Weight>)
    requires Legal(ws) && Total(ws) > 0
    ensures var lost := |ws| * SCALE - Sum(Initial(ws, |ws| * SCALE, Total(ws), Everyone(|ws|)));
            0 <= lost <= |ws| - 1
  {
    var n, w := |ws|, Total(ws);
    FloorSum(ws, n * SCALE, w, Everyone(n));
    KeepEveryone(ws);
    LossArithmetic(Sum(Initial(ws, n * SCALE, w, Everyone(n))), n * SCALE, n, w);
  }

  lemma {:induction false} LossArithmetic(s: int, m: int, n: int, w: int)
    requires w > 0 && n > 0 && s * w <= w * m <= s * w + n * (w - 1)
    ensures 0 <= m - s <= n - 1
  {
    assert w * m == m * w && (m - s) * w == m * w - s * w && n * (w - 1) == n * w - n;
    CancelLess(m - s, n, w);
    assert (m + 1) * w == m * w + w;
    CancelLess(s, m + 1, w);
  }

  lemma {:induction false} CancelLess(a: int, b: int, w: int)
    requires w > 0 && a * w < b * w
    ensures a < b
  {
    if a >= b {
      MulLeft(b, a, w);
    }
  }

  lemma {:induction false} MulLeft(a: int, b: int, w: int)
    requires a <= b && w >= 0
    ensures a * w <= b * w
  {
  }

  lemma {:induction false} TotalPositive(ws: seq<Weight>)
    requires ws != [] && forall i :: 0 <= i < |ws| ==> 0 < ws[i].weight < U32_LIMIT
    ensures 0 < Total(ws) <= |ws| * (U32_LIMIT - 1)
  {
    if |ws| > 1 {
      TotalPositive(ws[..|ws| - 1]);
    } else {
      assert ws[..0] == [];
    }
  }

  // ----- the pairing loop on values

  /** A moment of the construction: which slots are still open, what share each open slot
      still has to place, and the table so far. */
  datatype Work = Work(open: seq<bool>, scaled: seq<nat>, table: seq<Slot>)

  predicate Shaped(ws: seq<Weight>, w: Work) {
    |w.open| == |w.scaled| == |w.table| == |ws|
  }

  /** What backend `b` has been given so far plus what its open slots still hold. */
  function Shares(ws: seq<Weight>, w: Work, b: BackendId): (xs: seq<int>)
    requires Shaped(ws, w)
    ensures |xs| == |ws|
  {
    seq(|ws|, i requires 0 <= i < |ws| =>
      if w.open[i] then (if ws[i].id == b then w.scaled[i] else 0) else SlotMass(w.table[i], b))
  }

  /** How far each open slot is from a full one. */
  function Deficits(w: Work): (xs: seq<int>)
    requires |w.open| == |w.scaled|
    ensures |xs| == |w.open|
  {
    seq(|w.open|, i requires 0 <= i < |w.open| => if w.open[i] then SCALE - w.scaled[i] else 0)
  }

  /** Fill slot `s` up from `l`. */
  function Paired(ws: seq<Weight>, w: Work, s: nat, l: nat): Work
    requires Shaped(ws, w) && s < |ws| && l < |ws| && w.scaled[l] >= SCALE
  {
    Work(w.open[s := false], w.scaled[l := w.scaled[l] + w.scaled[s] - SCALE],
         w.table[s := Slot(ws[s].id, ws[l].id, w.scaled[s])])
  }

  /** Pairing moves mass between slots and creates or destroys none. */
  lemma {:induction false} PairingConserves(ws: seq<Weight>, w: Work, s: nat, l: nat, b: BackendId)
    requires Shaped(ws, w) && s < |ws| && l < |ws| && s != l
    requires w.open[s] && w.open[l] && w.scaled[s] < SCALE <= w.scaled[l]
    ensures Sum(Shares(ws, Paired(ws, w, s, l), b)) == Sum(Shares(ws, w, b))
  {
    hide Sum;
    var xs, ys := Shares(ws, w, b), Shares(ws, Paired(ws, w, s, l), b);
    SumUpdate(xs, s, ys[s]);
    SumUpdate(xs[s := ys[s]], l, ys[l]);
    assert ys == xs[s := ys[s]][l := ys[l]];
  }

  /** Pairing keeps the total distance from full slots. */
  lemma {:induction false} PairingKeepsDeficit(ws: seq<Weight>, w: Work, s: nat, l: nat)
    requires Shaped(ws, w) && s < |ws| && l < |ws| && s != l
    requires w.open[s] && w.open[l] && w.scaled[s] < SCALE <= w.scaled[l]
    ensures Sum(Deficits(Paired(ws, w, s, l))) == Sum(Deficits(w))
  {
    hide Sum;
    var ds, es := Deficits(w), Deficits(Paired(ws, w, s, l));
    SumUpdate(ds, s, es[s]);
    SumUpdate(ds[s := es[s]], l, es[l]);
    assert es == ds[s := es[s]][l := es[l]];
  }

  /** A slot that stays with its own backend. */
  function Own(ws: seq<Weight>, i: nat): Slot
    requires i < |ws|
  {
    Slot(ws[i].id, ws[i].id, SCALE)
  }

  function SlotMasses(table: seq<Slot>, b: BackendId): (xs: seq<int>)
    ensures |xs| == |table|
  {
    seq(|table|, i requires 0 <= i < |table| => SlotMass(table[i], b))
  }

  lemma {:induction false} MassIsSum(table: seq<Slot>, b: BackendId)
    ensures Mass(table, b) == Sum(SlotMasses(table, b))
  {
    if table != [] {
      var last := |table| - 1;
      MassIsSum(table[..last], b);
      assert SlotMasses(table, b)[..last] == SlotMasses(table[..last], b);
    }
  }

  lemma {:induction false} SumBetween(xs: seq<int>, ys: seq<int>, ds: seq<int>)
    requires |xs| == |ys| == |ds|
    requires forall i :: 0 <= i < |xs| ==> xs[i] <= ys[i] <= xs[i] + ds[i]
    ensures Sum(xs) <= Sum(ys) <= Sum(xs) + Sum(ds)
  {
    if xs != [] {
      var last := |xs| - 1;
      SumBetween(xs[..last], ys[..last], ds[..last]);
    }
  }

  /** Whatever stays open at the end was either all full or all short, so the deficits are
      all non-negative. */
  lemma {:induction false} LeftoversAreShort(w: Work)
    requires |w.open| == |w.scaled| && Sum(Deficits(w)) >= 0
    requires || (forall i :: 0 <= i < |w.open| ==> w.open[i] ==> w.scaled[i] >= SCALE)
             || (forall i :: 0 <= i < |w.open| ==> w.open[i] ==> w.scaled[i] < SCALE)
    ensures forall i :: 0 <= i < |w.open| ==> Deficits(w)[i] >= 0
  {
    var ds := Deficits(w);
    if exists i :: 0 <= i < |ds| && ds[i] < 0 {
      var i :| 0 <= i < |ds| && ds[i] < 0;
      var neg := seq(|ds|, k requires 0 <= k < |ds| => -ds[k]);
      SumBounds(neg, i);
      SumNegated(ds);
      assert false;
    }
  }

  lemma {:induction false} SumNegated(xs: seq<int>)
    ensures Sum(seq(|xs|, k requires 0 <= k < |xs| => -xs[k])) == -Sum(xs)
  {
    if xs != [] {
      var last := |xs| - 1;
      SumNegated(xs[..last]);
      var ys := seq(|xs|, k requires 0 <= k < |xs| => -xs[k]);
      assert ys[..last] == seq(last, k requires 0 <= k < last => -xs[..last][k]);
    }
  }

  /** Settling the leftovers at probability one gives each backend at least what it was due
      and at most the rounding loss more. */
  lemma {:induction false} SettlingAddsLoss(ws: seq<Weight>, w: Work, b: BackendId)
    requires Shaped(ws, w)
    requires forall i :: 0 <= i < |ws| ==> Deficits(w)[i] >= 0
    requires forall i :: 0 <= i < |ws| ==> w.open[i] ==> w.table[i] == Own(ws, i)
    ensures Sum(Shares(ws, w, b)) <= Mass(w.table, b) <= Sum(Shares(ws, w, b)) + Sum(Deficits(w))
  {
    MassIsSum(w.table, b);
    forall i | 0 <= i < |ws|
      ensures Shares(ws, w, b)[i] <= SlotMasses(w.table, b)[i] <= Shares(ws, w, b)[i] + Deficits(w)[i]
    {
      assert Deficits(w)[i] >= 0;
    }
    SumBetween(Shares(ws, w, b), SlotMasses(w.table, b), Deficits(w));
  }

  // ----- the construction

  /** Backend `b` gets its exact share of the n * SCALE draws up to rounding: it loses less
      than one draw for each entry naming it and gains at most n - 1. Stated without
      division: the exact share is WeightOf * n * SCALE / Total. */
  predicate Faithful(ws: seq<Weight>, table: seq<Slot>, b: BackendId) {
    var exact := WeightOf(ws, b) * (|ws| * SCALE);
    && exact - Entries(ws, b) * (Total(ws) - 1) <= Mass(table, b) * Total(ws)
    && (Mass(table, b) - (|ws| - 1)) * Total(ws) <= exact
  }

  function Due(ws: seq<Weight>, b: BackendId): (t: int)
    requires Total(ws) > 0
  {
    Sum(Initial(ws, |ws| * SCALE, Total(ws), Naming(ws, b)))
  }

  function Lost(ws: seq<Weight>): (t: int)
    requires Total(ws) > 0
  {
    |ws| * SCALE - Sum(Initial(ws, |ws| * SCALE, Total(ws), Everyone(|ws|)))
  }

  predicate GoodSlot(ws: seq<Weight>, i: nat, slot: Slot)
    requires i < |ws|
  {
    slot.primary == ws[i].id && slot.prob <= SCALE && exists j :: 0 <= j < |ws| && slot.alias == ws[j].id
  }

  /** What every moment of the pairing loop keeps. */
  ghost predicate Balanced(ws: seq<Weight>, w: Work) {
    && Total(ws) > 0 && Shaped(ws, w)
    && (forall b :: Sum(Shares(ws, w, b)) == Due(ws, b))
    && Sum(Deficits(w)) == Lost(ws)
    && (forall i :: 0 <= i < |ws| ==> w.open[i] ==> w.table[i] == Own(ws, i))
    && (forall i :: 0 <= i < |ws| ==> GoodSlot(ws, i, w.table[i]))
  }

  /** The two worklists hold the open slots, short ones and full ones. */
  predicate Sorted(w: Work, small: seq<nat>, large: seq<nat>) {
    && |w.open| == |w.scaled|
    && Distinct(small) && Distinct(large)
    && (forall i <- small :: i < |w.open| && w.open[i] && w.scaled[i] < SCALE)
    && (forall i <- large :: i < |w.open| && w.open[i] && w.scaled[i] >= SCALE)
    && (forall i :: 0 <= i < |w.open| ==> w.open[i] ==> i in small || i in large)
  }

  lemma {:induction false} PairingKeepsBalance(ws: seq<Weight>, w: Work, s: nat, l: nat)
    requires Balanced(ws, w) && s < |ws| && l < |ws| && s != l
    requires w.open[s] && w.open[l] && w.scaled[s] < SCALE <= w.scaled[l]
    ensures Balanced(ws, Paired(ws, w, s, l))
  {
    hide Sum, Shares, Deficits, Due, Lost;
    forall b
      ensures Sum(Shares(ws, Paired(ws, w, s, l), b)) == Due(ws, b)
    {
      PairingConserves(ws, w, s, l, b);
    }
    PairingKeepsDeficit(ws, w, s, l);
  }

  lemma {:induction false} PairingKeepsSorted(ws: seq<Weight>, w: Work, small: seq<nat>, large: seq<nat>)
    requires Shaped(ws, w) && Sorted(w, small, large) && small != [] && large != []
    ensures var s, l := small[|small| - 1], large[|large| - 1];
            var small', large' := small[..|small| - 1], large[..|large| - 1];
            assert s in small && l in large;
            var p := Paired(ws, w, s, l);
            && s != l
            && Sorted(p, if p.scaled[l] < SCALE then small' + [l] else small',
                      if p.scaled[l] < SCALE then large' else large' + [l])
  {
    var s, l := small[|small| - 1], large[|large| - 1];
    var small', large' := small[..|small| - 1], large[..|large| - 1];
    assert small == small' + [s] && large == large' + [l];
    assert s in small && l in large;
    assert forall i <- small' :: i in small && i != s && i != l;
    assert forall i <- large' :: i in large && i != s && i != l;
  }

  lemma {:induction false} AllOpenBalance(ws: seq<Weight>, w: Work)
    requires Legal(ws) && Total(ws) > 0 && Shaped(ws, w)
    requires w.open == Everyone(|ws|)
    requires forall i :: 0 <= i < |ws| ==> w.scaled[i] == Scaled(ws[i].weight, |ws|, Total(ws))
    requires forall i :: 0 <= i < |ws| ==> w.table[i] == Own(ws, i)
    ensures Balanced(ws, w)
  {
    hide Sum, Total, Scaled, Deficits, Own;
    forall i | 0 <= i < |ws|
      ensures w.scaled[i] == ws[i].weight * (|ws| * SCALE) / Total(ws)
    {
      ScaledIsShare(ws[i].weight, |ws|, Total(ws));
    }
    forall b
      ensures Sum(Shares(ws, w, b)) == Due(ws, b)
    {
      assert Shares(ws, w, b) == Initial(ws, |ws| * SCALE, Total(ws), Naming(ws, b));
    }
    assert w.scaled == Initial(ws, |ws| * SCALE, Total(ws), Everyone(|ws|));
    DeficitsSum(w.scaled);
    SameDeficits(w, Work(Everyone(|w.scaled|), w.scaled, []));
    forall i | 0 <= i < |ws|
      ensures GoodSlot(ws, i, w.table[i])
    {
      OwnIsGood(ws, i);
    }
  }

  lemma {:induction false} ScaledIsShare(weight: nat, n: nat, total: nat)
    requires total > 0
    ensures Scaled(weight, n, total) == weight * (n * SCALE) / total
  {
    assert weight * n * SCALE == weight * (n * SCALE);
  }

  lemma {:induction false} OwnIsGood(ws: seq<Weight>, i: nat)
    requires i < |ws|
    ensures GoodSlot(ws, i, Own(ws, i))
  {
    assert Own(ws, i).alias == ws[i].id;
  }

  lemma {:induction false} SameDeficits(a: Work, b: Work)
    requires a.open == b.open && a.scaled == b.scaled && |a.open| == |a.scaled|
    ensures Deficits(a) == Deficits(b)
  {
  }

  lemma {:induction false} DeficitsSum(scaled: seq<nat>)
    ensures Sum(Deficits(Work(Everyone(|scaled|), scaled, []))) == |scaled| * SCALE - Sum(scaled)
  {
    if scaled != [] {
      var last := |scaled| - 1;
      DeficitsSum(scaled[..last]);
      var ds := Deficits(Work(Everyone(|scaled|), scaled, []));
      assert ds[..last] == Deficits(Work(Everyone(last), scaled[..last], []));
    }
  }

  /** When one worklist has run out the table is faithful to every backend, whichever index
      the last pair of pops took off the other one. */
  lemma {:induction false} BalancedIsFaithful(ws: seq<Weight>, w: Work, small: seq<nat>, large: seq<nat>, b: BackendId)
    requires Legal(ws) && Balanced(ws, w) && Sorted(w, small, large) && (small == [] || large == [])
    ensures Faithful(ws, w.table, b)
  {
    hide Sum, Shares, Mass, Deficits, Initial;
    LostUnits(ws);
    LeftoversAreShort(w);
    SettlingAddsLoss(ws, w, b);
    FloorSum(ws, |ws| * SCALE, Total(ws), Naming(ws, b));
    KeepNaming(ws, b);
    FaithfulArithmetic(Due(ws, b), Mass(w.table, b), Total(ws), |ws| - 1);
  }

  lemma {:induction false} FaithfulArithmetic(due: int, mass: int, total: int, slack: int)
    requires total > 0 && due <= mass <= due + slack
    ensures due * total <= mass * total
    ensures (mass - slack) * total <= due * total
  {
    MulLeft(due, mass, total);
    MulLeft(mass - slack, due, total);
  }

  method SumWeights(ws: seq<Weight>) returns (total: nat)
    requires Legal(ws)
    ensures total == Total(ws) && 0 < total < U64_LIMIT
  {
    TotalPositive(ws);
    total := 0;
    for i := 0 to |ws|
      invariant total == Total(ws[..i])
    {
      TotalSnoc(ws, i);
      total := total + ws[i].weight;
    }
    assert ws[..|ws|] == ws;
  }

  /** The fixed-point shares; the u64 product does not wrap. */
  method ScaleWeights(ws: seq<Weight>, total: nat) returns (scaled: array<nat>)
    requires Legal(ws) && total > 0
    ensures fresh(scaled) && scaled.Length == |ws|
    ensures forall i :: 0 <= i < |ws| ==> scaled[i] == Scaled(ws[i].weight, |ws|, total)
  {
    hide Scaled;
    var n := |ws|;
    scaled := new nat[n];
    for i := 0 to n
      invariant forall k :: 0 <= k < i ==> scaled[k] == Scaled(ws[k].weight, n, total)
    {
      NoOverflow(ws[i].weight, n);
      assert ws[i].weight * n * SCALE < U64_LIMIT;
      scaled[i] := Scaled(ws[i].weight, n, total);
    }
  }

  method Classify(scaled: array<nat>) returns (small: seq<nat>, large: seq<nat>)
    ensures Distinct(small) && Distinct(large)
    ensures forall k <- small :: k < scaled.Length && scaled[k] < SCALE
    ensures forall k <- large :: k < scaled.Length && scaled[k] >= SCALE
    ensures forall k :: 0 <= k < scaled.Length ==> k in small || k in large
  {
    small, large := [], [];
    for i := 0 to scaled.Length
      invariant Distinct(small) && Distinct(large)
      invariant forall k <- small :: k < i && scaled[k] < SCALE
      invariant forall k <- large :: k < i && scaled[k] >= SCALE
      invariant forall k :: 0 <= k < i ==> k in small || k in large
    {
      if scaled[i] < SCALE {
        small := small + [i];
      } else {
        large := large + [i];
      }
    }
  }

  /** The pairing loop: fill one short slot from one full one until either kind runs out. */
  method PairAll(ws: seq<Weight>, scaled: array<nat>, slots: array<Slot>, small0: seq<nat>, large0: seq<nat>)
    returns (small: seq<nat>, large: seq<nat>, ghost open: seq<bool>)
    requires scaled.Length == slots.Length == |ws|
    requires Balanced(ws, Work(Everyone(|ws|), scaled[..], slots[..]))
    requires Sorted(Work(Everyone(|ws|), scaled[..], slots[..]), small0, large0)
    modifies scaled, slots
    ensures |open| == |ws| && (small == [] || large == [])
    ensures Balanced(ws, Work(open, scaled[..], slots[..]))
    ensures Sorted(Work(open, scaled[..], slots[..]), small, large)
  {
    hide Balanced, GoodSlot, Sorted;
    small, large, open := small0, large0, Everyone(|ws|);
    while small != [] && large != []
      invariant |open| == |ws|
      invariant Balanced(ws, Work(open, scaled[..], slots[..]))
      invariant Sorted(Work(open, scaled[..], slots[..]), small, large)
      decreases |small| + |large|
    {
      ghost var w := Work(open, scaled[..], slots[..]);
      PairingKeepsSorted(ws, w, small, large);
      var s, l := small[|small| - 1], large[|large| - 1];
      LastOfEach(w, small, large);
      small, large := small[..|small| - 1], large[..|large| - 1];
      slots[s] := Slot(ws[s].id, ws[l].id, scaled[s]);
      var newLarge := scaled[l] + scaled[s] - SCALE;
      scaled[l] := newLarge;
      PairingKeepsBalance(ws, w, s, l);
      open := open[s := false];
      assert Work(open, scaled[..], slots[..]) == Paired(ws, w, s, l);
      if newLarge < SCALE {
        small := small + [l];
      } else {
        large := large + [l];
      }
    }
  }

  lemma {:induction false} LastOfEach(w: Work, small: seq<nat>, large: seq<nat>)
    requires Sorted(w, small, large) && small != [] && large != []
    ensures var s, l := small[|small| - 1], large[|large| - 1];
            && s < |w.open| && l < |w.open| && w.open[s] && w.open[l]
            && w.scaled[s] < SCALE <= w.scaled[l]
  {
    assert small[|small| - 1] in small && large[|large| - 1] in large;
  }

  /** `with_seed`, up to the table: Vose's construction with its two worklists. */
  method Build(ws: seq<Weight>) returns (table: seq<Slot>)
    requires Legal(ws)
    ensures |table| == |ws|
    ensures forall i :: 0 <= i < |ws| ==> GoodSlot(ws, i, table[i])
    ensures forall b :: Faithful(ws, table, b)
    ensures forall ids: seq<BackendId> :: Distinct(ids) && (forall i :: 0 <= i < |ws| ==> ws[i].id in ids) ==>
              MassOfAll(table, ids) == |ws| * SCALE
  {
    hide Scaled, Total, Balanced, GoodSlot, Faithful;
    var n := |ws|;
    var total := SumWeights(ws);
    var scaled := ScaleWeights(ws, total);
    var slots := new Slot[n](i requires 0 <= i < n => Own(ws, i));
    AllOpenBalance(ws, Work(Everyone(n), scaled[..], slots[..]));
    var small: seq<nat>, large: seq<nat> := Classify(scaled);
    ghost var open;
    small, large, open := PairAll(ws, scaled, slots, small, large);

    ghost var w := Work(open, scaled[..], slots[..]);
    BalancedSlots(ws, w);
    forall b
      ensures Faithful(ws, w.table, b)
    {
      BalancedIsFaithful(ws, w, small, large, b);
    }
    // The pair of pops that ends the loop also drops one index of the other worklist.
    var left := large + small;
    assert forall k :: 0 <= k < |left| ==> left[k] in large || left[k] in small;
    if left != [] {
      left := left[..|left| - 1];
    }
    for k := 0 to |left|
      invariant slots[..] == w.table
    {
      slots[left[k]] := Own(ws, left[k]);
    }
    table := slots[..];
    forall ids: seq<BackendId> | Distinct(ids) && (forall i :: 0 <= i < |ws| ==> ws[i].id in ids)
      ensures MassOfAll(table, ids) == |ws| * SCALE
    {
      MassesAddUp(ws, table, ids);
    }
  }

  lemma {:induction false} BalancedSlots(ws: seq<Weight>, w: Work)
    requires Balanced(ws, w)
    ensures Shaped(ws, w)
    ensures forall i :: 0 <= i < |ws| ==> GoodSlot(ws, i, w.table[i])
    ensures forall i :: 0 <= i < |ws| ==> w.open[i] ==> w.table[i] == Own(ws, i)
  {
  }

  lemma {:induction false} TotalSnoc(ws: seq<Weight>, i: nat)
    requires i < |ws|
    ensures Total(ws[..i + 1]) == Total(ws[..i]) + ws[i].weight
  {
    assert ws[..i + 1][..i] == ws[..i];
  }

  lemma {:induction false} NoOverflow(w: nat, n: nat)
    requires w < U32_LIMIT && n <= MAX_BACKENDS
    ensures w * n * SCALE < U64_LIMIT
  {
    assert w * n <= w * MAX_BACKENDS;
  }

  // ----- nothing is lost between backends

  function MassOfAll(table: seq<Slot>, ids: seq<BackendId>): (t: int) {
    if ids == [] then 0 else MassOfAll(table, ids[..|ids| - 1]) + Mass(table, ids[|ids| - 1])
  }

  function Across(slot: Slot, ids: seq<BackendId>): (t: int) {
    if ids == [] then 0 else Across(slot, ids[..|ids| - 1]) + SlotMass(slot, ids[|ids| - 1])
  }

  /** Over distinct backends a slot gives its whole scale to those it names. */
  lemma {:induction false} AcrossCounts(slot: Slot, ids: seq<BackendId>)
    requires Distinct(ids)
    ensures Across(slot, ids) ==
            (if slot.primary in ids then slot.prob else 0) + (if slot.alias in ids then SCALE - slot.prob else 0)
  {
    if ids != [] {
      var before, id := ids[..|ids| - 1], ids[|ids| - 1];
      AcrossCounts(slot, before);
      assert ids == before + [id];
      assert id !in before;
    }
  }

  lemma {:induction false} MassOfAllSnoc(table: seq<Slot>, slot: Slot, ids: seq<BackendId>)
    ensures MassOfAll(table + [slot], ids) == MassOfAll(table, ids) + Across(slot, ids)
  {
    if ids != [] {
      MassOfAllSnoc(table, slot, ids[..|ids| - 1]);
      assert (table + [slot])[..|table|] == table;
    }
  }

  lemma {:induction false} NoMass(ids: seq<BackendId>)
    ensures MassOfAll([], ids) == 0
  {
    if ids != [] {
      NoMass(ids[..|ids| - 1]);
    }
  }

  /** The masses of distinct backends that include all those named add up to every draw. */
  lemma {:induction false} NamedMassesAddUp(table: seq<Slot>, ids: seq<BackendId>)
    requires Distinct(ids)
    requires forall i :: 0 <= i < |table| ==> table[i].primary in ids && table[i].alias in ids
    ensures MassOfAll(table, ids) == |table| * SCALE
  {
    if table == [] {
      NoMass(ids);
    } else {
      var init, slot := table[..|table| - 1], table[|table| - 1];
      assert table == init + [slot];
      NamedMassesAddUp(init, ids);
      MassOfAllSnoc(init, slot, ids);
      AcrossCounts(slot, ids);
    }
  }

  /** In a table built from `ws` the masses of the configured backends, each taken once, add up
      to every one of the n * SCALE draws. */
  lemma {:induction false} MassesAddUp(ws: seq<Weight>, table: seq<Slot>, ids: seq<BackendId>)
    requires |table| == |ws| && forall i :: 0 <= i < |ws| ==> GoodSlot(ws, i, table[i])
    requires Distinct(ids) && forall i :: 0 <= i < |ws| ==> ws[i].id in ids
    ensures MassOfAll(table, ids) == |ws| * SCALE
  {
    NamedMassesAddUp(table, ids);
  }
}
