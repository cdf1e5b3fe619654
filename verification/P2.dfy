/** The five-marker P-square quantile estimator. */
module P2 {
  import opened Basics

  const U32_MAX := 0xFFFF_FFFF

  /** Marker heights, actual and desired positions, increments. Actual positions only ever move
      by one, so they are whole numbers here. */
  datatype Estimator = Estimator(q: seq<real>, n: seq<int>, want: seq<real>, dn: seq<real>, count: nat, p: real)

  predicate Shaped(e: Estimator) {
    |e.q| == |e.n| == |e.want| == |e.dn| == 5
  }

  function New(p: real): Estimator {
    var zero := [0.0, 0.0, 0.0, 0.0, 0.0];
    Estimator(zero, [0, 0, 0, 0, 0], zero, [0.0, p / 2.0, p, (1.0 + p) / 2.0, 1.0], 0, p)
  }

  predicate Ordered(q: seq<real>) {
    forall i, j :: 0 <= i < j < |q| ==> q[i] <= q[j]
  }

  predicate Rising(n: seq<int>) {
    forall i, j :: 0 <= i < j < |n| ==> n[i] < n[j]
  }

  // ----- sorting the first five

  function Insert(x: real, s: seq<real>): seq<real> {
    if s == [] || x < s[0] then [x] + s else [s[0]] + Insert(x, s[1..])
  }

  function SortReals(s: seq<real>): (r: seq<real>) {
    if s == [] then [] else Insert(s[|s| - 1], SortReals(s[..|s| - 1]))
  }

  lemma {:induction false} OrderedCons(x: real, s: seq<real>)
    requires Ordered(s) && forall y <- s :: x <= y
    ensures Ordered([x] + s)
  {
    var r := [x] + s;
    forall i, j | 0 <= i < j < |r|
      ensures r[i] <= r[j]
    {
      assert r[j] == s[j - 1] && r[j] in s;
      assert i > 0 ==> r[i] == s[i - 1];
    }
  }

  lemma {:induction false} InsertSorts(x: real, s: seq<real>)
    requires Ordered(s)
    ensures Ordered(Insert(x, s)) && multiset(Insert(x, s)) == multiset(s) + multiset{x}
    ensures forall y :: y in Insert(x, s) <==> y == x || y in s
  {
    if s == [] {
      assert Insert(x, s) == [x];
    } else {
      assert s == [s[0]] + s[1..];
      assert forall y <- s :: s[0] <= y;
      if x < s[0] {
        hide Ordered;
        OrderedCons(x, s);
      } else {
        InsertSorts(x, s[1..]);
        OrderedCons(s[0], Insert(x, s[1..]));
      }
    }
  }

  lemma {:induction false} SortSorts(s: seq<real>)
    ensures Ordered(SortReals(s)) && multiset(SortReals(s)) == multiset(s) && |SortReals(s)| == |s|
  {
    if s != [] {
      SortSorts(s[..|s| - 1]);
      InsertSorts(s[|s| - 1], SortReals(s[..|s| - 1]));
      assert s == s[..|s| - 1] + [s[|s| - 1]];
      assert |multiset(SortReals(s))| == |s|;
    }
  }

  // ----- one observation

  /** The cell of `x` among sorted heights that it lies between. */
  function Cell(q: seq<real>, x: real): (k: nat)
    requires |q| == 5
    ensures k <= 3
  {
    if q[0] <= x < q[1] then 0
    else if q[1] <= x < q[2] then 1
    else if q[2] <= x < q[3] then 2
    else 3
  }

  /** Heights with the extremes widened, and the cell whose upper markers move. */
  function Locate(q: seq<real>, x: real): (r: (seq<real>, nat))
    requires |q| == 5
    ensures |r.0| == 5 && r.1 <= 3
  {
    if x < q[0] then (q[0 := x], 0)
    else if x >= q[4] then (q[4 := x], 3)
    else (q, Cell(q, x))
  }

  function Shift(n: seq<int>, k: nat): (r: seq<int>)
    ensures |r| == |n|
  {
    seq(|n|, i requires 0 <= i < |n| => if i > k then n[i] + 1 else n[i])
  }

  function Advance(want: seq<real>, dn: seq<real>): (r: seq<real>)
    requires |want| == |dn|
    ensures |r| == |want|
  {
    seq(|want|, i requires 0 <= i < |want| => want[i] + dn[i])
  }

  function Sign(d: real): int {
    if d > 0.0 then 1 else -1
  }

  /** A marker moves when it is a whole position off and its neighbour leaves room. */
  predicate Moves(e: Estimator, i: nat)
    requires Shaped(e) && 1 <= i <= 3
  {
    var d := e.want[i] - e.n[i] as real;
    || (d >= 1.0 && e.n[i + 1] - e.n[i] > 1)
    || (d <= -1.0 && e.n[i - 1] - e.n[i] < -1)
  }

  function Bend(s: real, span: real, sum: real): real
    requires span != 0.0
  {
    s / span * sum
  }

  function Weighted(a: real, up: real, np: real, b: real, down: real, nm: real): real
    requires np != 0.0 && nm != 0.0
  {
    a * up / np + b * down / nm
  }

  function Parabolic(e: Estimator, i: nat, s: int): real
    requires Shaped(e) && Rising(e.n) && 1 <= i <= 3
  {
    var np, nm := (e.n[i + 1] - e.n[i]) as real, (e.n[i - 1] - e.n[i]) as real;
    e.q[i] + Bend(s as real, (e.n[i + 1] - e.n[i - 1]) as real,
                  Weighted((e.n[i] - e.n[i - 1] + s) as real, e.q[i + 1] - e.q[i], np,
                           (e.n[i + 1] - e.n[i] - s) as real, e.q[i] - e.q[i - 1], nm))
  }

  function Linear(e: Estimator, i: nat, s: int): real
    requires Shaped(e) && Rising(e.n) && 1 <= i <= 3
  {
    var j := if s > 0 then i + 1 else i - 1;
    e.q[i] + s as real * (e.q[j] - e.q[i]) / (e.n[j] - e.n[i]) as real
  }

  function NewHeight(e: Estimator, i: nat, s: int): real
    requires Shaped(e) && Rising(e.n) && 1 <= i <= 3
  {
    var qp := Parabolic(e, i, s);
    if e.q[i - 1] < qp < e.q[i + 1] then qp else Linear(e, i, s)
  }

  function Adjust(e: Estimator, i: nat): (r: Estimator)
    requires Shaped(e) && Rising(e.n) && 1 <= i <= 3
    ensures Shaped(r) && Rising(r.n)
    ensures r.n[0] == e.n[0] && r.n[4] == e.n[4] && r.want == e.want
    ensures r.dn == e.dn && r.count == e.count && r.p == e.p
    ensures r.q[0] == e.q[0] && r.q[4] == e.q[4]
  {
    if Moves(e, i) then
      var s := Sign(e.want[i] - e.n[i] as real);
      MovedStillRising(e, i, s);
      e.(q := e.q[i := NewHeight(e, i, s)], n := e.n[i := e.n[i] + s])
    else e
  }

  lemma {:induction false} MovedStillRising(e: Estimator, i: nat, s: int)
    requires Shaped(e) && Rising(e.n) && 1 <= i <= 3 && Moves(e, i) && s == Sign(e.want[i] - e.n[i] as real)
    ensures Rising(e.n[i := e.n[i] + s])
  {
  }

  /** Locate the cell, shift the markers above it and advance the desired positions. */
  function Prepared(e: Estimator, x: real): (r: Estimator)
    requires Shaped(e) && Rising(e.n)
    ensures Shaped(r) && Rising(r.n) && r.dn == e.dn && r.p == e.p
  {
    var (q, k) := Locate(e.q, x);
    ShiftRising(e.n, k);
    e.(q := q, n := Shift(e.n, k), want := Advance(e.want, e.dn))
  }

  function Adjusted(e: Estimator): (r: Estimator)
    requires Shaped(e) && Rising(e.n)
    ensures Shaped(r) && Rising(r.n) && r.dn == e.dn && r.p == e.p
  {
    Adjust(Adjust(Adjust(e, 1), 2), 3)
  }

  /** Digest one observation. */
  function Observe(e: Estimator, x: real): (r: Estimator)
    requires Shaped(e) && (e.count >= 5 ==> Rising(e.n))
    ensures Shaped(r) && (r.count >= 5 ==> Rising(r.n))
  {
    if e.count < 5 then
      var q := e.q[e.count := x];
      if e.count + 1 == 5 then
        SortSorts(q);
        e.(q := SortReals(q), n := [0, 1, 2, 3, 4], count := 5,
           want := [0.0, 2.0 * e.p, 4.0 * e.p, 2.0 + 2.0 * e.p, 4.0])
      else e.(q := q, count := e.count + 1)
    else
      Adjusted(Prepared(e, x)).(count := if e.count < U32_MAX then e.count + 1 else U32_MAX)
  }

  lemma {:induction false} ShiftRising(n: seq<int>, k: nat)
    requires Rising(n)
    ensures Rising(Shift(n, k))
  {
  }

  function Quantile(e: Estimator): Option<real>
    requires Shaped(e)
  {
    if e.count < 5 then None else Some(e.q[2])
  }

  // ----- what positions and heights mean

  /** A marker's position counts the observations below it: an observation moves exactly the
      inner markers that are above it, and always the last one but never the first. */
  lemma {:induction false} PositionsCount(e: Estimator, x: real, i: nat)
    requires Shaped(e) && Rising(e.n) && Ordered(e.q) && i < 5
    ensures Prepared(e, x).n[i] ==
            if i == 0 then e.n[0]
            else if i == 4 || x < e.q[i] then e.n[i] + 1
            else e.n[i]
  {
    assert e.q[0] <= e.q[1] <= e.q[2] <= e.q[3] <= e.q[4];
  }

  /** A marker moves by one towards its desired position exactly when it is at least one off and
      the neighbour on that side is more than one away. */
  lemma {:induction false} MovesTowardsWant(e: Estimator, i: nat)
    requires Shaped(e) && Rising(e.n) && 1 <= i <= 3
    ensures var d := e.want[i] - e.n[i] as real;
            Adjust(e, i).n == e.n[i := e.n[i] +
              (if d >= 1.0 && e.n[i + 1] - e.n[i] >= 2 then 1
               else if d <= -1.0 && e.n[i] - e.n[i - 1] >= 2 then -1
               else 0)]
    ensures Adjust(e, i).n[i] == e.n[i] ==> Adjust(e, i).q == e.q
  {
    hide NewHeight;
  }

  /** The slope between neighbouring markers `i` and `i + 1`. */
  function Slope(e: Estimator, i: nat): real
    requires Shaped(e) && Rising(e.n) && i < 4
  {
    (e.q[i + 1] - e.q[i]) / (e.n[i + 1] - e.n[i]) as real
  }

  /** What the prediction adds to a marker's height for a move by `s`, times the distance of its
      neighbours: weighted slopes on both sides. The published formula adds the second term; the
      code, whose left distance is negative, subtracts it. */
  lemma {:induction false} PredictionBySlopes(e: Estimator, i: nat, s: int)
    requires Shaped(e) && Rising(e.n) && 1 <= i <= 3 && (s == 1 || s == -1)
    ensures (Parabolic(e, i, s) - e.q[i]) * (e.n[i + 1] - e.n[i - 1]) as real ==
            s as real * ((e.n[i] - e.n[i - 1] + s) as real * Slope(e, i)
                         - (e.n[i + 1] - e.n[i] - s) as real * Slope(e, i - 1))
  {
    hide Bend, Weighted;
    var np, nm, span := (e.n[i + 1] - e.n[i]) as real, (e.n[i - 1] - e.n[i]) as real, (e.n[i + 1] - e.n[i - 1]) as real;
    var a, b := (e.n[i] - e.n[i - 1] + s) as real, (e.n[i + 1] - e.n[i] - s) as real;
    var up, down := e.q[i + 1] - e.q[i], e.q[i] - e.q[i - 1];
    var sum := Weighted(a, up, np, b, down, nm);
    BySlopes(a, up, np, b, down, nm);
    assert -nm == (e.n[i] - e.n[i - 1]) as real;
    assert Parabolic(e, i, s) - e.q[i] == Bend(s as real, span, sum);
    Cleared(s as real, span, sum);
  }

  lemma {:induction false} BySlopes(a: real, up: real, np: real, b: real, down: real, nm: real)
    requires np != 0.0 && nm != 0.0
    ensures Weighted(a, up, np, b, down, nm) == a * (up / np) - b * (down / -nm)
  {
    TimesQuotient(a, up, np);
    TimesQuotient(b, down, nm);
    NegatedDivisor(down, nm);
    TimesNegated(b, down / nm);
  }

  lemma {:induction false} TimesQuotient(a: real, b: real, d: real)
    requires d != 0.0
    ensures a * b / d == a * (b / d)
  {
    assert (b / d) * d == b;
    assert (a * (b / d)) * d == a * ((b / d) * d);
  }

  lemma {:induction false} NegatedDivisor(a: real, d: real)
    requires d != 0.0
    ensures a / -d == -(a / d)
  {
    assert (a / d) * d == a;
    assert (-(a / d)) * -d == a;
  }

  lemma {:induction false} TimesNegated(a: real, b: real)
    ensures a * -b == -(a * b)
  {
  }

  lemma {:induction false} Cleared(s: real, span: real, t: real)
    requires span != 0.0
    ensures Bend(s, span, t) * span == s * t
  {
    assert (s / span) * span == s;
    assert (s / span * t) * span == ((s / span) * span) * t;
  }

  /** A moved marker takes the prediction if that is strictly between its neighbours, and otherwise
      goes along the straight line to the neighbour it moves towards. */
  lemma {:induction false} MovedHeight(e: Estimator, i: nat, s: int)
    requires Shaped(e) && Rising(e.n) && 1 <= i <= 3 && (s == 1 || s == -1)
    ensures var guess, j := Parabolic(e, i, s), i + s;
            if e.q[i - 1] < guess && guess < e.q[i + 1] then NewHeight(e, i, s) == guess
            else (NewHeight(e, i, s) - e.q[i]) * (e.n[j] - e.n[i]) as real == s as real * (e.q[j] - e.q[i])
  {
    hide Parabolic;
    var j := i + s;
    var d := (e.n[j] - e.n[i]) as real;
    assert (s as real * (e.q[j] - e.q[i]) / d) * d == s as real * (e.q[j] - e.q[i]);
  }

  /** The first quantile reported is the median of the first five observations. */
  lemma {:induction false} FirstQuantileIsMedian(p: real, h: seq<real>)
    requires |h| == 5
    ensures exists r: seq<real> :: |r| == 5 && multiset(r) == multiset(h)
              && r[0] <= r[1] <= r[2] <= r[3] <= r[4] && Quantile(ObserveAll(p, h)) == Some(r[2])
  {
    hide Observe, SortReals, Marks;
    StreamTracks(p, h[..4]);
    var e := ObserveAll(p, h[..4]);
    FifthSorts(e, h);
    SortSorts(h);
    var r := SortReals(h);
    assert r[0] <= r[1] <= r[2] <= r[3] <= r[4];
    assert ObserveAll(p, h) == Observe(e, h[4]);
  }

  lemma {:induction false} FifthSorts(e: Estimator, h: seq<real>)
    requires |h| == 5 && Tracks(e, h[..4])
    ensures Quantile(Observe(e, h[4])) == Some(SortReals(h)[2])
  {
    hide SortReals, Marks;
    assert e.q[4 := h[4]] == h;
    SortSorts(h);
  }

  // ----- the invariant over a stream

  predicate Least(m: real, h: seq<real>) {
    m in h && forall x <- h :: m <= x
  }

  predicate Greatest(m: real, h: seq<real>) {
    m in h && forall x <- h :: x <= m
  }

  /** What the estimator knows after the observations `h`. */
  predicate Tracks(e: Estimator, h: seq<real>) {
    && Shaped(e)
    && e.count == (if |h| < U32_MAX then |h| else U32_MAX)
    && e.dn == [0.0, e.p / 2.0, e.p, (1.0 + e.p) / 2.0, 1.0]
    && if |h| < 5 then e.q[..|h|] == h else Marks(e, h)
  }

  predicate Marks(e: Estimator, h: seq<real>)
    requires Shaped(e)
  {
    && Ordered(e.q) && Least(e.q[0], h) && Greatest(e.q[4], h)
    && Rising(e.n) && e.n[0] == 0 && e.n[4] == |h| - 1
    && forall i :: 0 <= i < 5 ==> e.want[i] == e.dn[i] * (|h| - 1) as real
  }

  lemma {:induction false} FractionBetween(x: real, d: real)
    requires d >= 1.0 && x >= 0.0
    ensures 0.0 <= x / d <= x
  {
    var y := x / d;
    assert y * d == x;
    assert y >= 0.0;
    assert y * 1.0 <= y * d;
  }

  /** Both formulas put the marker between its neighbours. */
  lemma {:induction false} HeightBetween(e: Estimator, i: nat, s: int)
    requires Shaped(e) && Rising(e.n) && 1 <= i <= 3 && (s == 1 || s == -1)
    requires e.q[i - 1] <= e.q[i] <= e.q[i + 1]
    ensures e.q[i - 1] <= NewHeight(e, i, s) <= e.q[i + 1]
  {
    hide Parabolic;
    if s == 1 {
      FractionBetween(e.q[i + 1] - e.q[i], (e.n[i + 1] - e.n[i]) as real);
    } else {
      var x, d := e.q[i] - e.q[i - 1], (e.n[i] - e.n[i - 1]) as real;
      FractionBetween(x, d);
      NegatedQuotient(x, d);
      assert s as real * (e.q[i - 1] - e.q[i]) == x;
      assert (e.n[i - 1] - e.n[i]) as real == -d;
    }
  }

  lemma {:induction false} NegatedQuotient(x: real, d: real)
    requires d > 0.0
    ensures x / (-d) == -(x / d)
  {
  }

  lemma {:induction false} AdjustOrdered(e: Estimator, i: nat)
    requires Shaped(e) && Rising(e.n) && 1 <= i <= 3 && Ordered(e.q)
    ensures Ordered(Adjust(e, i).q)
  {
    hide NewHeight;
    if Moves(e, i) {
      var s := Sign(e.want[i] - e.n[i] as real);
      HeightBetween(e, i, s);
      var q := Adjust(e, i).q;
      forall a, b | 0 <= a < b < 5
        ensures q[a] <= q[b]
      {
        if b == i && a < i - 1 { assert e.q[a] <= e.q[i - 1]; }
        if a == i && b > i + 1 { assert e.q[i + 1] <= e.q[b]; }
      }
    }
  }

  lemma {:induction false} LocateWidens(q: seq<real>, x: real, h: seq<real>)
    requires |q| == 5 && Ordered(q) && Least(q[0], h) && Greatest(q[4], h)
    ensures var r := Locate(q, x).0;
            Ordered(r) && Least(r[0], h + [x]) && Greatest(r[4], h + [x])
  {
    var r := Locate(q, x).0;
    assert q[0] <= q[4];
    assert forall y <- h + [x] :: y in h || y == x;
    assert x in h + [x];
  }

  lemma {:induction false} SortedExtremes(all: seq<real>)
    requires |all| == 5
    ensures var r := SortReals(all); |r| == 5 && Ordered(r) && Least(r[0], all) && Greatest(r[4], all)
  {
    SortSorts(all);
    var r := SortReals(all);
    hide SortReals;
    assert r[0] in multiset(r) && r[4] in multiset(r);
    forall y | y in all
      ensures r[0] <= y <= r[4]
    {
      assert y in multiset(r);
      var k :| 0 <= k < 5 && r[k] == y;
    }
  }

  /** The first five observations, sorted, start the markers right. */
  lemma {:induction false} FifthTracks(e: Estimator, h: seq<real>, x: real)
    requires Tracks(e, h) && |h| == 4
    ensures Tracks(Observe(e, x), h + [x])
  {
    hide Ordered, Least, Greatest, SortReals;
    var all := h + [x];
    assert e.q[4 := x] == all;
    SortedExtremes(all);
    var r := Observe(e, x);
    assert r.n == [0, 1, 2, 3, 4];
    assert r.want == [0.0, 2.0 * e.p, 4.0 * e.p, 2.0 + 2.0 * e.p, 4.0];
  }

  lemma {:induction false} WantAdvances(want: real, dn: real, k: int)
    requires want == dn * k as real
    ensures want + dn == dn * (k + 1) as real
  {
  }

  lemma {:induction false} PreparedMarks(e: Estimator, h: seq<real>, x: real)
    requires Shaped(e) && Marks(e, h) && |h| >= 5
    ensures Marks(Prepared(e, x), h + [x])
  {
    hide Locate;
    LocateWidens(e.q, x, h);
    ShiftRising(e.n, Locate(e.q, x).1);
    var f := Prepared(e, x);
    forall i | 0 <= i < 5
      ensures f.want[i] == f.dn[i] * |h| as real
    {
      WantAdvances(e.want[i], e.dn[i], |h| - 1);
    }
  }

  lemma {:induction false} AdjustMarks(e: Estimator, h: seq<real>, i: nat)
    requires Shaped(e) && Marks(e, h) && 1 <= i <= 3
    ensures Marks(Adjust(e, i), h)
  {
    hide Adjust, Ordered;
    AdjustOrdered(e, i);
  }

  lemma {:induction false} AdjustedMarks(e: Estimator, h: seq<real>)
    requires Shaped(e) && Marks(e, h)
    ensures Marks(Adjusted(e), h)
  {
    hide Adjust, Ordered, Least, Greatest;
    AdjustMarks(e, h, 1);
    AdjustMarks(Adjust(e, 1), h, 2);
    AdjustMarks(Adjust(Adjust(e, 1), 2), h, 3);
  }

  lemma {:induction false} CountedMarks(e: Estimator, h: seq<real>, count: nat)
    requires Shaped(e) && Marks(e, h)
    ensures Marks(e.(count := count), h)
  {
  }

  lemma {:induction false} LaterTracks(e: Estimator, h: seq<real>, x: real)
    requires Tracks(e, h) && |h| >= 5
    ensures Tracks(Observe(e, x), h + [x])
  {
    hide Adjusted, Prepared, Ordered, Least, Greatest;
    PreparedMarks(e, h, x);
    AdjustedMarks(Prepared(e, x), h + [x]);
    CountedMarks(Adjusted(Prepared(e, x)), h + [x], Observe(e, x).count);
  }

  /** Over every stream: heights stay sorted, positions stay whole and strictly increasing from
      0 to count - 1, desired positions are exact, and the outer markers are the exact minimum
      and maximum. */
  lemma {:induction false} ObserveTracks(e: Estimator, h: seq<real>, x: real)
    requires Tracks(e, h)
    ensures Tracks(Observe(e, x), h + [x])
  {
    if |h| < 4 {
      assert Observe(e, x).q[..|h| + 1] == h + [x];
    } else if |h| == 4 {
      FifthTracks(e, h, x);
    } else {
      LaterTracks(e, h, x);
    }
  }

  function ObserveAll(p: real, h: seq<real>): (e: Estimator)
    ensures Shaped(e) && (e.count >= 5 ==> Rising(e.n))
  {
    if h == [] then New(p) else Observe(ObserveAll(p, h[..|h| - 1]), h[|h| - 1])
  }

  lemma {:induction false} StreamTracks(p: real, h: seq<real>)
    ensures Tracks(ObserveAll(p, h), h)
  {
    if h != [] {
      StreamTracks(p, h[..|h| - 1]);
      ObserveTracks(ObserveAll(p, h[..|h| - 1]), h[..|h| - 1], h[|h| - 1]);
      assert h == h[..|h| - 1] + [h[|h| - 1]];
    }
  }

  lemma {:induction false} ExactCount(p: real, h: seq<real>)
    ensures ObserveAll(p, h).count == if |h| < U32_MAX then |h| else U32_MAX
  {
    StreamTracks(p, h);
  }

  /** The reported quantile exists from the fifth observation on and lies within the range of
      what was observed. */
  lemma {:induction false} QuantileInRange(p: real, h: seq<real>)
    ensures Quantile(ObserveAll(p, h)).Some? <==> |h| >= 5
    ensures |h| >= 5 ==> exists lo, hi :: lo in h && hi in h && lo <= Quantile(ObserveAll(p, h)).value <= hi
  {
    StreamTracks(p, h);
    var e := ObserveAll(p, h);
    if |h| >= 5 {
      assert e.q[0] in h && e.q[4] in h && e.q[0] <= e.q[2] <= e.q[4];
    }
  }

  // ----- markers stay near their desired positions

  /** How far marker `i` is behind its desired position. */
  function Lag(e: Estimator, i: nat): real
    requires Shaped(e) && i < 5
  {
    e.want[i] - e.n[i] as real
  }

  predicate Between(lo: real, x: real, hi: real) {
    lo <= x <= hi
  }

  /** Marker i runs at most i positions ahead and 7 - 2i behind. */
  predicate Near(e: Estimator)
    requires Shaped(e)
  {
    Between(-1.0, Lag(e, 1), 5.0) && Between(-2.0, Lag(e, 2), 3.0) && Between(-3.0, Lag(e, 3), 1.0)
  }

  /** Desired positions rise, and the outer markers are where they should be. */
  predicate Aligned(e: Estimator)
    requires Shaped(e)
  {
    && Rising(e.n) && Lag(e, 0) == 0.0 && Lag(e, 4) == 0.0
    && e.want[0] <= e.want[1] <= e.want[2] <= e.want[3] <= e.want[4]
  }

  lemma {:induction false} MarksAligned(e: Estimator, h: seq<real>)
    requires Shaped(e) && Marks(e, h) && |h| >= 5 && 0.0 <= e.p <= 1.0
    requires e.dn == [0.0, e.p / 2.0, e.p, (1.0 + e.p) / 2.0, 1.0]
    ensures Aligned(e)
  {
    hide Ordered, Least, Greatest;
    var m := (|h| - 1) as real;
    assert e.dn[0] <= e.dn[1] <= e.dn[2] <= e.dn[3] <= e.dn[4];
    WantRises(e.want[0], e.dn[0], e.want[1], e.dn[1], m);
    WantRises(e.want[1], e.dn[1], e.want[2], e.dn[2], m);
    WantRises(e.want[2], e.dn[2], e.want[3], e.dn[3], m);
    WantRises(e.want[3], e.dn[3], e.want[4], e.dn[4], m);
    assert e.dn[4] * m == m && e.dn[0] * m == 0.0;
  }

  lemma {:induction false} WantRises(v: real, a: real, w: real, b: real, m: real)
    requires v == a * m && w == b * m && a <= b && m >= 0.0
    ensures v <= w
  {
    assert (b - a) * m >= 0.0;
  }

  /** An adjusted marker is within one position of what its neighbours allow: either it could
      move, or a neighbour stands next to it. */
  lemma {:induction false} AdjustNear(e: Estimator, i: nat, lo: real, hi: real)
    requires Shaped(e) && Aligned(e) && 1 <= i <= 3 && lo <= 0.0 <= hi
    requires lo <= Lag(e, i - 1) && Lag(e, i + 1) <= hi
    requires Between(lo - 2.0, Lag(e, i), hi + 2.0)
    ensures Aligned(Adjust(e, i)) && Between(lo - 1.0, Lag(Adjust(e, i), i), hi + 1.0)
    ensures forall j: nat :: j < 5 && j != i ==> Lag(Adjust(e, i), j) == Lag(e, j)
  {
    hide NewHeight;
    assert e.want[i - 1] <= e.want[i] <= e.want[i + 1];
    if !Moves(e, i) && Lag(e, i) >= 1.0 {
      assert e.n[i + 1] == e.n[i] + 1;
    }
    if !Moves(e, i) && Lag(e, i) <= -1.0 {
      assert e.n[i - 1] == e.n[i] - 1;
    }
  }

  /** One observation moves each desired and actual position by at most one. */
  lemma {:induction false} PreparedLag(e: Estimator, x: real, i: nat)
    requires Shaped(e) && Rising(e.n) && i < 5 && 0.0 <= e.dn[i] <= 1.0
    ensures Between(Lag(e, i) - 1.0, Lag(Prepared(e, x), i), Lag(e, i) + 1.0)
  {
    hide Locate;
  }

  lemma {:induction false} AdjustedNear(f: Estimator)
    requires Shaped(f) && Aligned(f)
    requires Between(-2.0, Lag(f, 1), 6.0) && Between(-3.0, Lag(f, 2), 4.0) && Between(-4.0, Lag(f, 3), 2.0)
    ensures Near(Adjusted(f))
  {
    hide Adjust, Aligned, Lag, Rising;
    AlignedParts(f);
    AdjustNear(f, 1, 0.0, 4.0);
    var g := Adjust(f, 1);
    AdjustNear(g, 2, -1.0, 2.0);
    var h := Adjust(g, 2);
    AdjustNear(h, 3, -2.0, 0.0);
  }

  lemma {:induction false} AlignedParts(e: Estimator)
    requires Shaped(e) && Aligned(e)
    ensures Rising(e.n) && Lag(e, 0) == 0.0 && Lag(e, 4) == 0.0
  {
  }

  lemma {:induction false} ObserveNear(e: Estimator, h: seq<real>, x: real)
    requires Shaped(e) && Tracks(e, h) && |h| >= 5 && 0.0 <= e.p <= 1.0 && Near(e)
    ensures Near(Observe(e, x))
  {
    hide Adjusted, Prepared, Lag, Marks;
    RisingMarks(e, h);
    var f := Prepared(e, x);
    PreparedMarks(e, h, x);
    MarksAligned(f, h + [x]);
    PreparedLag(e, x, 1);
    PreparedLag(e, x, 2);
    PreparedLag(e, x, 3);
    AdjustedNear(f);
    SameLags(Adjusted(f), Observe(e, x).count);
  }

  lemma {:induction false} RisingMarks(e: Estimator, h: seq<real>)
    requires Shaped(e) && Marks(e, h)
    ensures Rising(e.n)
  {
  }

  lemma {:induction false} SameLags(e: Estimator, count: nat)
    requires Shaped(e) && Near(e)
    ensures Near(e.(count := count))
  {
  }

  /** Over every stream, for a quantile p in [0, 1], the markers stay within a constant of their
      desired positions; the reported one is at most two ahead of p * (count - 1) and three
      behind. */
  lemma {:induction false} MarkersStayNear(p: real, h: seq<real>)
    requires 0.0 <= p <= 1.0 && |h| >= 5
    ensures Near(ObserveAll(p, h))
    ensures Between(-2.0, p * (|h| - 1) as real - ObserveAll(p, h).n[2] as real, 3.0)
  {
    hide Observe, Tracks, Near, Lag, Between;
    var before, x := h[..|h| - 1], h[|h| - 1];
    StreamTracks(p, before);
    StreamTracks(p, h);
    KeepsQuantile(p, before);
    KeepsQuantile(p, h);
    if |h| == 5 {
      FifthNear(ObserveAll(p, before), before, x);
    } else {
      MarkersStayNear(p, before);
      ObserveNear(ObserveAll(p, before), before, x);
    }
    LagOfTwo(ObserveAll(p, h), h);
  }

  lemma {:induction false} LagOfTwo(e: Estimator, h: seq<real>)
    requires Tracks(e, h) && |h| >= 5 && Near(e)
    ensures Between(-2.0, e.p * (|h| - 1) as real - e.n[2] as real, 3.0)
  {
  }

  lemma {:induction false} FifthNear(e: Estimator, h: seq<real>, x: real)
    requires Tracks(e, h) && |h| == 4 && 0.0 <= e.p <= 1.0
    ensures Near(Observe(e, x))
  {
    hide SortReals;
  }

  lemma {:induction false} KeepsQuantile(p: real, h: seq<real>)
    ensures ObserveAll(p, h).p == p
  {
    hide Adjusted, Prepared, SortReals;
    if h != [] { KeepsQuantile(p, h[..|h| - 1]); }
  }

  lemma {:induction false} PreparedParts(e: Estimator, x: real)
    requires Shaped(e) && Rising(e.n)
    ensures var (q, k) := Locate(e.q, x);
            Prepared(e, x) == e.(q := q, n := Shift(e.n, k), want := Advance(e.want, e.dn))
  {
  }

  // ----- the estimator as it runs

  class P2Estimator {
    const q: array<real>
    const n: array<int>
    const want: array<real>
    const dn: array<real>
    var count: nat
    const p: real

    ghost function View(): Estimator
      reads this, q, n, want, dn
    {
      Estimator(q[..], n[..], want[..], dn[..], count, p)
    }

    ghost predicate Valid()
      reads this, q, n, want, dn
    {
      && q.Length == n.Length == want.Length == dn.Length == 5
      && q != want && q != dn && want != dn
      && count <= U32_MAX
      && (count >= 5 ==> Rising(n[..]))
    }

    constructor (p: real)
      ensures Valid() && View() == New(p)
      ensures fresh(q) && fresh(n) && fresh(want) && fresh(dn)
    {
      this.p := p;
      count := 0;
      q := new real[5](i => 0.0);
      n := new int[5](i => 0);
      want := new real[5](i => 0.0);
      dn := new real[5] [0.0, p / 2.0, p, (1.0 + p) / 2.0, 1.0];
      new;
      assert q[..] == [0.0, 0.0, 0.0, 0.0, 0.0] == want[..];
      assert n[..] == [0, 0, 0, 0, 0];
    }

    method ObserveOne(x: real)
      requires Valid()
      modifies this, q, n, want
      ensures Valid() && View() == Observe(old(View()), x)
    {
      hide Adjusted, Prepared, SortReals;
      if count < 5 {
        Collect(x);
      } else {
        var k := LocateCell(x);
        ShiftAbove(k);
        AdvanceWanted();
        PreparedParts(old(View()), x);
        AdjustAll();
        count := if count < U32_MAX then count + 1 else U32_MAX;
      }
    }

    /** Holds the first observations and sorts them once there are five. */
    method Collect(x: real)
      requires Valid() && count < 5
      modifies this`count, q, n, want
      ensures Valid() && View() == Observe(old(View()), x)
    {
      hide SortReals;
      q[count] := x;
      assert q[..] == old(q[..])[count := x];
      count := count + 1;
      if count == 5 {
        SortHeights();
        PlaceMarkers();
      }
    }

    method PlaceMarkers()
      requires n.Length == 5 && want.Length == 5
      modifies n, want
      ensures n[..] == [0, 1, 2, 3, 4]
      ensures want[..] == [0.0, 2.0 * p, 4.0 * p, 2.0 + 2.0 * p, 4.0]
    {
      for i := 0 to 5
        modifies n
        invariant forall c :: 0 <= c < i ==> n[c] == c
      {
        n[i] := i;
      }
      want[0], want[1], want[2], want[3], want[4] := 0.0, 2.0 * p, 4.0 * p, 2.0 + 2.0 * p, 4.0;
    }

    method SortHeights()
      requires q.Length == 5
      modifies q
      ensures q[..] == SortReals(old(q[..]))
    {
      var sorted := SortReals(q[..]);
      SortSorts(q[..]);
      for i := 0 to 5
        invariant forall k :: 0 <= k < i ==> q[k] == sorted[k]
      {
        q[i] := sorted[i];
      }
      assert q[..] == sorted;
    }

    /** Widens the extremes if `x` lies outside and finds its cell. */
    method LocateCell(x: real) returns (k: nat)
      requires q.Length == 5
      modifies q
      ensures (q[..], k) == Locate(old(q[..]), x)
    {
      if x < q[0] {
        q[0] := x;
        k := 0;
      } else if x >= q[4] {
        q[4] := x;
        k := 3;
      } else {
        k := 0;
        while k < 3 && !(q[k] <= x < q[k + 1])
          modifies {}
          invariant k <= 3
          invariant forall c :: 0 <= c < k ==> !(q[c] <= x < q[c + 1])
        {
          k := k + 1;
        }
        assert q[..] == old(q[..]);
      }
    }

    method ShiftAbove(k: nat)
      requires n.Length == 5 && k <= 3
      modifies n
      ensures n[..] == Shift(old(n[..]), k)
    {
      for i := k + 1 to 5
        invariant forall c :: 0 <= c < 5 ==> n[c] == if k < c < i then old(n[c]) + 1 else old(n[c])
      {
        n[i] := n[i] + 1;
      }
    }

    method AdvanceWanted()
      requires want.Length == dn.Length == 5 && want != dn
      modifies want
      ensures want[..] == Advance(old(want[..]), dn[..])
    {
      for i := 0 to 5
        invariant forall c :: 0 <= c < 5 ==> want[c] == if c < i then old(want[c]) + dn[c] else old(want[c])
      {
        want[i] := want[i] + dn[i];
      }
    }

    method AdjustAll()
      requires Valid() && count >= 5
      modifies q, n
      ensures Valid() && View() == Adjusted(old(View()))
    {
      hide Adjust;
      AdjustOne(1);
      AdjustOne(2);
      AdjustOne(3);
    }

    /** The body of the marker loop. */
    method AdjustOne(i: nat)
      requires Valid() && count >= 5 && 1 <= i <= 3
      modifies q, n
      ensures Valid() && View() == Adjust(old(View()), i)
    {
      hide Parabolic, Linear, Rising;
      ghost var e := View();
      var d := want[i] - n[i] as real;
      var np, nm := n[i + 1] - n[i], n[i - 1] - n[i];
      if (d >= 1.0 && np > 1) || (d <= -1.0 && nm < -1) {
        var s := if d > 0.0 then 1 else -1;
        MovedStillRising(e, i, s);
        var qp := Parabolic(Estimator(q[..], n[..], want[..], dn[..], count, p), i, s);
        var height := if q[i - 1] < qp < q[i + 1] then qp
                      else Linear(Estimator(q[..], n[..], want[..], dn[..], count, p), i, s);
        q[i] := height;
        n[i] := n[i] + s;
        assert q[..] == e.q[i := height] && n[..] == e.n[i := e.n[i] + s];
      }
    }
  }
}
