/** The global hedge budget over whole runs: a decision may be promoted to a hedge only while the
    hedges fired are below the configured fraction of the decisions made. */
module HedgeBudget {

  /** The configured fraction of `n` decisions. */
  function Share(f: real, n: nat): real {
    f * n as real
  }

  lemma {:induction false} ShareStep(f: real, n: nat)
    ensures Share(f, 0) == 0.0 && Share(f, n + 1) == Share(f, n) + f
  {
  }

  /** There is room for a hedge while fewer than the fraction of decisions were hedged. */
  predicate Room(f: real, hedges: nat, decisions: nat) {
    hedges as real < Share(f, decisions)
  }

  /** What the configuration calls the maximum: at most the fraction of decisions. */
  predicate Capped(f: real, hedges: nat, decisions: nat) {
    hedges as real <= Share(f, decisions)
  }

  /** Hedges fired over a run; `wants[i]` says whether decision i would be hedged with room. */
  function Fired(f: real, wants: seq<bool>): (h: nat) {
    if wants == [] then 0
    else
      var h := Fired(f, wants[..|wants| - 1]);
      if wants[|wants| - 1] && Room(f, h, |wants|) then h + 1 else h
  }

  lemma {:induction false} FiredSnoc(f: real, wants: seq<bool>, want: bool)
    ensures var h := Fired(f, wants);
            Fired(f, wants + [want]) == if want && Room(f, h, |wants| + 1) then h + 1 else h
  {
    hide Room;
    assert (wants + [want])[..|wants|] == wants;
  }

  /** In every run the hedges stay below the fraction of decisions plus one. */
  lemma {:induction false} OvershootBelowOne(f: real, wants: seq<bool>)
    requires f >= 0.0
    ensures Fired(f, wants) as real < Share(f, |wants|) + 1.0
  {
    hide Share;
    if wants == [] {
      ShareStep(f, 0);
    } else {
      var past := wants[..|wants| - 1];
      OvershootBelowOne(f, past);
      ShareStep(f, |past|);
    }
  }

  // ----- when the maximum holds

  /** Decision `n` of the run is promoted. */
  predicate PromotedAt(f: real, wants: seq<bool>, n: nat)
    requires n < |wants|
  {
    wants[n] && Room(f, Fired(f, wants[..n]), n + 1)
  }

  /** The maximum holds after the first `n` decisions. */
  predicate CappedAt(f: real, wants: seq<bool>, n: nat)
    requires n <= |wants|
  {
    Capped(f, Fired(f, wants[..n]), n)
  }

  /** The hedges before decision `n`, and one more, are within the fraction of n + 1 decisions. */
  predicate FitsWhole(f: real, wants: seq<bool>, n: nat)
    requires n < |wants|
  {
    Capped(f, Fired(f, wants[..n]) + 1, n + 1)
  }

  lemma {:induction false} OneDecision(f: real, wants: seq<bool>, n: nat)
    requires n < |wants| && f >= 0.0
    ensures PromotedAt(f, wants, n) ==> (CappedAt(f, wants, n + 1) <==> FitsWhole(f, wants, n))
    ensures !PromotedAt(f, wants, n) && CappedAt(f, wants, n) ==> CappedAt(f, wants, n + 1)
  {
    hide Share;
    assert wants[..n + 1] == wants[..n] + [wants[n]];
    FiredSnoc(f, wants[..n], wants[n]);
    ShareStep(f, n);
  }

  lemma {:induction false} CappedUpTo(f: real, wants: seq<bool>, n: nat)
    requires f >= 0.0 && n <= |wants|
    requires forall k :: 0 <= k < |wants| && PromotedAt(f, wants, k) ==> FitsWhole(f, wants, k)
    ensures CappedAt(f, wants, n)
  {
    if n == 0 {
      ShareStep(f, 0);
    } else {
      hide CappedAt, PromotedAt, FitsWhole;
      CappedUpTo(f, wants, n - 1);
      OneDecision(f, wants, n - 1);
    }
  }

  /** The maximum holds all through a run if and only if each promotion left the hedges, itself
      included, within the fraction: room for part of a hedge lets a whole one through. */
  lemma {:induction false} CappedThroughoutIff(f: real, wants: seq<bool>)
    requires f >= 0.0
    ensures (forall n :: 0 <= n <= |wants| ==> CappedAt(f, wants, n)) <==>
            (forall n :: 0 <= n < |wants| && PromotedAt(f, wants, n) ==> FitsWhole(f, wants, n))
  {
    hide CappedAt, PromotedAt, FitsWhole;
    if forall n :: 0 <= n < |wants| && PromotedAt(f, wants, n) ==> FitsWhole(f, wants, n) {
      forall n | 0 <= n <= |wants|
        ensures CappedAt(f, wants, n)
      {
        CappedUpTo(f, wants, n);
      }
    }
    if forall n :: 0 <= n <= |wants| ==> CappedAt(f, wants, n) {
      forall n | 0 <= n < |wants| && PromotedAt(f, wants, n)
        ensures FitsWhole(f, wants, n)
      {
        OneDecision(f, wants, n);
        assert CappedAt(f, wants, n + 1);
      }
    }
  }

  // ----- under full demand

  function AlwaysWanted(n: nat): (wants: seq<bool>)
    ensures |wants| == n
  {
    if n == 0 then [] else AlwaysWanted(n - 1) + [true]
  }

  /** When every decision would be hedged, the hedges are the fraction of decisions rounded up. */
  lemma {:induction false} FullDemand(f: real, n: nat)
    requires 0.0 <= f <= 1.0
    ensures Share(f, n) <= Fired(f, AlwaysWanted(n)) as real < Share(f, n) + 1.0
  {
    if n == 0 {
      ShareStep(f, 0);
    } else {
      hide Share;
      FullDemand(f, n - 1);
      ShareStep(f, n - 1);
      FiredSnoc(f, AlwaysWanted(n - 1), true);
    }
  }

  /** So the maximum is then met if and only if the fraction of decisions is a whole number. */
  lemma {:induction false} FullDemandCappedIff(f: real, n: nat)
    requires 0.0 <= f <= 1.0
    ensures Capped(f, Fired(f, AlwaysWanted(n)), n) <==> Share(f, n) == Share(f, n).Floor as real
  {
    hide Share, Fired;
    FullDemand(f, n);
    RoundedUp(Share(f, n), Fired(f, AlwaysWanted(n)));
  }

  lemma {:induction false} RoundedUp(x: real, h: int)
    requires x <= h as real < x + 1.0
    ensures h as real <= x <==> x == x.Floor as real
  {
    if x == x.Floor as real {
      assert x.Floor <= h < x.Floor + 1;
    }
  }

  /** A fraction of zero or less never leaves room. */
  lemma {:induction false} NoFraction(f: real, wants: seq<bool>)
    requires f <= 0.0
    ensures Fired(f, wants) == 0
  {
    if wants != [] {
      NoFraction(f, wants[..|wants| - 1]);
      NoShare(f, |wants|);
    }
  }

  lemma {:induction false} NoShare(f: real, n: nat)
    requires f <= 0.0
    ensures Share(f, n) <= 0.0
  {
  }

  lemma {:induction false} NoDemand(f: real, wants: seq<bool>)
    requires forall i :: 0 <= i < |wants| ==> !wants[i]
    ensures Fired(f, wants) == 0
  {
    if wants != [] {
      NoDemand(f, wants[..|wants| - 1]);
    }
  }

  /** With the default fraction of 1/20: after 25 decisions of warm-up two slow requests in a row
      are both hedged, and 2 of 27 is more than 1/20. */
  lemma {:induction false} MaximumCanBeExceeded()
    ensures var wants := seq(25, _ => false) + [true] + [true];
            Fired(0.05, wants) == 2 && !Capped(0.05, 2, |wants|)
  {
    var quiet := seq(25, _ => false);
    NoDemand(0.05, quiet);
    FiredSnoc(0.05, quiet, true);
    FiredSnoc(0.05, quiet + [true], true);
  }
}
