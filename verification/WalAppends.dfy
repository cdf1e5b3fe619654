/** What becomes of each append, over every run of a shard: whether it waits, how it returns, and
    which segment takes its frame. */
module WalAppends {
  import opened Basics
  import opened Bytes
  import opened Frames
  import opened WalShard

  // ----- who waits, and how each append returns

  /** A frame's tag is 0 for `Async`, 1 for `FdataSync` and 2 for `Fsync`. The appends of the last
      two are parked, have returned Ok or were told of the shutdown, and only one of these; an
      asynchronous one is never parked. */
  predicate Accounted(s: State, f: Frame) {
    var parked, ok, told := f.entryId in s.waiting, f.entryId in s.acked, f.entryId in s.history.abandoned;
    && (f.durability == 1 || f.durability == 2 ==>
          (parked && !ok && !told) || (!parked && ok && !told) || (!parked && !ok && told))
    && (f.durability == 0 ==> !parked && !ok && !told)
  }

  predicate AllAccounted(s: State) {
    && (forall f <- AllFrames(Segments(s)) :: Accounted(s, f))
    && s.waiting <= s.written && s.acked <= s.written && s.history.abandoned <= s.written
    && (s.history.abandoned != {} ==> s.shutdown)
  }

  lemma {:induction false} InitAccounted()
    ensures AllAccounted(INIT)
  {
    AllFramesSnoc([], EMPTY);
  }

  lemma {:induction false} WrittenIds(s: State, f: Frame)
    requires Recorded(s) && f in AllFrames(Segments(s))
    ensures f.entryId in s.written
  {
    var fs := AllFrames(Segments(s));
    var k :| 0 <= k < |fs| && fs[k] == f;
  }

  lemma {:induction false} WriteAccounted(max: nat, s: State, g: Frame)
    requires Inv(max, s) && AllAccounted(s) && Enabled(s, Write(g))
    ensures AllAccounted(Apply(max, s, Write(g)))
  {
    hide Inv, Encode, AllFrames, Segments, Unsynced;
    WriteInv(max, s, g);
    RecordedOf(max, s);
    var t := Apply(max, s, Write(g));
    var fs := AllFrames(Segments(s));
    forall f | f in fs + [g]
      ensures Accounted(t, f)
    {
      if f in fs {
        WrittenIds(s, f);
      }
    }
  }

  lemma {:induction false} RecordedOf(max: nat, s: State)
    requires Inv(max, s)
    ensures Recorded(s)
  {
  }

  lemma {:induction false} StepAccounted(max: nat, s: State, st: Step)
    requires Inv(max, s) && AllAccounted(s) && Enabled(s, st)
    ensures AllAccounted(Apply(max, s, st))
  {
    hide Inv, AllFrames, Segments;
    if st.Write? {
      WriteAccounted(max, s, st.frame);
    } else {
      InsideFrames(max, s, st);
    }
  }

  lemma {:induction false} RunAccounted(max: nat, s: State, steps: seq<Step>)
    requires Inv(max, s) && AllAccounted(s) && CanRun(max, s, steps)
    ensures AllAccounted(Run(max, s, steps))
    decreases steps
  {
    hide Inv, AllAccounted, Apply, Enabled;
    if steps != [] {
      StepInv(max, s, steps[0]);
      StepAccounted(max, s, steps[0]);
      RunAccounted(max, Apply(max, s, steps[0]), steps[1..]);
    }
  }

  /** In every run from the start every append is accounted for, and none is told of a shutdown
      that has not begun. */
  lemma {:induction false} EveryAppendAccounted(max: nat, steps: seq<Step>, f: Frame)
    requires CanRun(max, INIT, steps) && f in AllFrames(Segments(Run(max, INIT, steps)))
    ensures Accounted(Run(max, INIT, steps), f)
    ensures f.entryId in Run(max, INIT, steps).history.abandoned ==> Run(max, INIT, steps).shutdown
  {
    hide Inv, Run, CanRun, AllFrames, Accounted;
    InitInv(max);
    InitAccounted();
    RunAccounted(max, INIT, steps);
  }

  // ----- a segment is left only for a frame that does not fit

  /** The frame that opened segment `i + 1` would have taken segment `i` over the ceiling. */
  predicate RolledForRoom(max: nat, segs: seq<Segment>, i: nat)
    requires i + 1 < |segs|
  {
    segs[i + 1].frames != [] && |EncodeAll(segs[i].frames)| + |Encode(segs[i + 1].frames[0])| > max
  }

  predicate Tight(max: nat, segs: seq<Segment>) {
    forall i :: 0 <= i && i + 1 < |segs| ==> RolledForRoom(max, segs, i)
  }

  lemma {:induction false} StepTight(max: nat, s: State, st: Step)
    requires Tight(max, Segments(s)) && Enabled(s, st)
    ensures Tight(max, Segments(Apply(max, s, st)))
  {
    hide Encode, EncodeAll, Unsynced;
    var t := Apply(max, s, st);
    forall i | 0 <= i && i + 1 < |Segments(t)|
      ensures RolledForRoom(max, Segments(t), i)
    {
      if i + 1 < |Segments(s)| {
        assert RolledForRoom(max, Segments(s), i);
      }
    }
  }

  /** In every run a rollover happens only for a frame that would cross the ceiling. */
  lemma {:induction false} RollsOnlyForRoom(max: nat, s: State, steps: seq<Step>)
    requires Tight(max, Segments(s)) && CanRun(max, s, steps)
    ensures Tight(max, Segments(Run(max, s, steps)))
    decreases steps
  {
    hide Tight, Apply, Enabled;
    if steps != [] {
      StepTight(max, s, steps[0]);
      RollsOnlyForRoom(max, Apply(max, s, steps[0]), steps[1..]);
    }
  }
}
