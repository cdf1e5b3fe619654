/** What a shard's runs guarantee: the watermark, crash recovery, and exactly which
    acknowledged entries a crash can still lose. */
module WalDurability {
  import opened Bytes
  import opened Frames
  import opened Basics
  import opened WalShard
  import opened WalAppends

  /** After a crash a segment file is any prefix of what the kernel had, at least as long as
      what was synced. */
  ghost predicate CrashImage(seg: Segment, image: seq<byte>) {
    image <= seg.file && seg.synced <= |image|
  }

  /** The recovery parser returns frame `k` of the segment after every crash. */
  ghost predicate Survives(seg: Segment, k: nat)
    requires k < |seg.frames|
  {
    forall image :: CrashImage(seg, image) ==>
      k < |Parse(image)| && Parse(image)[k] == Parsed(seg.frames[k])
  }

  /** No frame up to and including `k` is too large for the parser. */
  predicate ParseableUpTo(fs: seq<Frame>, k: nat)
    requires k < |fs|
  {
    forall j :: 0 <= j <= k ==> Parseable(fs[j])
  }

  /** Where the frame with this id was written. */
  predicate At(s: State, id: nat, i: nat, k: nat) {
    && i < |Segments(s)| && k < |Segments(s)[i].frames|
    && Segments(s)[i].frames[k].entryId == id
  }

  // ----- recovery of one segment

  lemma {:induction false} ParseWritten(fs: seq<Frame>, k: nat, rest: seq<byte>)
    requires k < |fs| && ParseableUpTo(fs, k)
    ensures var items := Parse(EncodeAll(fs[..k + 1]) + rest);
            k < |items| && items[k] == Parsed(fs[k]) && items[..k + 1] == Items(fs[..k + 1])
  {
    hide Parse, EncodeAll;
    ParseEncodedThen(fs[..k + 1], rest);
  }

  /** Before the first oversized frame everything parses; at it the parser stops. */
  lemma {:induction false} ParseStopsAtOversized(fs: seq<Frame>, k: nat)
    requires AllEncodable(fs) && k < |fs| && !ParseableUpTo(fs, k)
    ensures var items := Parse(EncodeAll(fs)); |items| <= k || items[k] != Parsed(fs[k])
  {
    hide Parse, Encode;
    ParseHead(fs[0], EncodeAll(fs[1..]));
    if Parseable(fs[0]) {
      assert !ParseableUpTo(fs[1..], k - 1) by {
        var j :| 0 <= j <= k && !Parseable(fs[j]);
        assert fs[1..][j - 1] == fs[j];
      }
      ParseStopsAtOversized(fs[1..], k - 1);
    }
  }

  lemma {:induction false} FramesOfItems(fs: seq<Frame>, more: seq<Item>)
    ensures fs <= FramesIn(Items(fs) + more)
  {
    if fs != [] {
      FramesOfItems(fs[1..], more);
      assert (Items(fs) + more)[1..] == Items(fs[1..]) + more;
      assert fs == [fs[0]] + fs[1..];
    }
  }

  /** The items returned from a prefix of the written bytes are the written frames. */
  lemma {:induction false} ReturnedAreWritten(fs: seq<Frame>, k: nat, image: seq<byte>)
    requires k < |fs| && ParseableUpTo(fs, k) && image <= EncodeAll(fs)
    requires k < |Parse(image)|
    ensures Parse(image)[..k + 1] == Items(fs[..k + 1])
  {
    hide Parse, EncodeAll;
    TruncationIsPrefix(EncodeAll(fs), |image|);
    assert image == EncodeAll(fs)[..|image|];
    EncodeAllAppend(fs[..k + 1], fs[k + 1..]);
    assert fs == fs[..k + 1] + fs[k + 1..];
    ParseWritten(fs, k, EncodeAll(fs[k + 1..]));
  }

  /** A frame the parser returned lies wholly inside the bytes it was given. */
  lemma {:induction false} ReturnedIsInside(fs: seq<Frame>, k: nat, image: seq<byte>)
    requires k < |fs| && ParseableUpTo(fs, k) && image <= EncodeAll(fs)
    requires k < |Parse(image)|
    ensures End(fs, k) <= |image|
  {
    hide Parse, EncodeAll, FramesIn, ParseableUpTo, Items;
    ReturnedAreWritten(fs, k, image);
    var items, head := Parse(image), fs[..k + 1];
    assert items == items[..k + 1] + items[k + 1..];
    FramesOfItems(head, items[k + 1..]);
    ReencodeIsPrefix(image);
    var got := FramesIn(items);
    assert got == head + got[|head|..];
    EncodeAllAppend(head, got[|head|..]);
  }

  /** Exactly when a written frame survives every crash: it is wholly synced and no frame up
      to it exceeds the parser's ceiling. */
  lemma {:induction false} SurvivesIff(seg: Segment, buffer: seq<byte>, k: nat)
    requires WellFormed(seg, buffer) && k < |seg.frames|
    ensures Survives(seg, k) <==> End(seg.frames, k) <= seg.synced && ParseableUpTo(seg.frames, k)
  {
    hide Parse, EncodeAll;
    var fs := seg.frames;
    if End(fs, k) <= seg.synced && ParseableUpTo(fs, k) {
      forall image | CrashImage(seg, image)
        ensures k < |Parse(image)| && Parse(image)[k] == Parsed(fs[k])
      {
        EndInside(fs, k);
        var e := End(fs, k);
        assert image[..e] == EncodeAll(fs[..k + 1]);
        assert image == EncodeAll(fs[..k + 1]) + image[e..];
        ParseWritten(fs, k, image[e..]);
      }
    } else {
      var image := seg.file[..seg.synced];
      assert CrashImage(seg, image);
      TruncationIsPrefix(EncodeAll(fs), seg.synced);
      assert image == EncodeAll(fs)[..seg.synced];
      if !ParseableUpTo(fs, k) {
        ParseStopsAtOversized(fs, k);
      } else if k < |Parse(image)| {
        ReturnedIsInside(fs, k, image);
      }
    }
  }

  lemma {:induction false} ParsedAreWritten(fs: seq<Frame>)
    requires AllEncodable(fs)
    ensures FramesIn(Parse(EncodeAll(fs))) <= fs
  {
    hide Parse, Encode;
    if fs == [] {
      ParseTorn([]);
    } else {
      var rest := EncodeAll(fs[1..]);
      ParseHead(fs[0], rest);
      ParsedAreWritten(fs[1..]);
      if Parseable(fs[0]) {
        assert ([Parsed(fs[0])] + Parse(rest))[1..] == Parse(rest);
        assert fs == [fs[0]] + fs[1..];
      } else {
        assert FramesIn([Overflow(|fs[0].payload|)]) == [];
      }
    }
  }

  lemma {:induction false} FramesInPrefix(a: seq<Item>, b: seq<Item>)
    requires a <= b
    ensures FramesIn(a) <= FramesIn(b)
  {
    if a != [] {
      FramesInPrefix(a[1..], b[1..]);
    }
  }

  /** Whatever a crash leaves, the frames the parser returns are a prefix of those written, of
      any size; it returns nothing else if all are within its ceiling. */
  lemma {:induction false} RecoveredIsPrefix(seg: Segment, buffer: seq<byte>, image: seq<byte>)
    requires WellFormed(seg, buffer) && CrashImage(seg, image)
    ensures FramesIn(Parse(image)) <= seg.frames
    ensures (forall j :: 0 <= j < |seg.frames| ==> Parseable(seg.frames[j])) ==> Parse(image) <= Items(seg.frames)
  {
    hide Parse, EncodeAll, FramesIn;
    RoundTripIff(seg.frames);
    TruncationIsPrefix(EncodeAll(seg.frames), |image|);
    assert image == EncodeAll(seg.frames)[..|image|];
    ParsedAreWritten(seg.frames);
    FramesInPrefix(Parse(image), Parse(EncodeAll(seg.frames)));
  }

  // ----- the two hypotheses, over whole runs

  /** When lock order is id order no entry is ever written at or below the mark. */
  lemma {:induction false} InOrderNeverLate(max: nat, s: State, steps: seq<Step>)
    requires Inv(max, s) && CanRun(max, s, steps) && InIdOrder(max, s, steps)
    requires s.history.late == {}
    ensures Run(max, s, steps).history.late == {}
    decreases steps
  {
    hide Apply;
    if steps != [] {
      StepInv(max, s, steps[0]);
      InOrderStep(max, s, steps[0]);
      InOrderNeverLate(max, Apply(max, s, steps[0]), steps[1..]);
    }
  }

  lemma {:induction false} InOrderStep(max: nat, s: State, st: Step)
    requires Targets(s) && Enabled(s, st)
    requires st.Write? ==> forall id <- s.written :: id < st.frame.entryId
    ensures Apply(max, s, st).history.late <= s.history.late
  {
    hide EncodeAll, Encode, Unsynced;
  }

  lemma {:induction false} DurableStep(max: nat, s: State, st: Step)
    requires Targets(s) && Enabled(s, st)
    ensures Mark(s.lastDurable) <= Mark(Apply(max, s, st).lastDurable)
  {
    hide EncodeAll, Encode, Unsynced;
  }

  /** When every rollover finds its segment synced no entry is ever torn. */
  lemma {:induction false} CleanRollsNeverTear(max: nat, s: State, steps: seq<Step>)
    requires Inv(max, s) && CanRun(max, s, steps) && RollsClean(max, s, steps)
    requires s.history.torn == {}
    ensures Run(max, s, steps).history.torn == {}
    decreases steps
  {
    hide Apply, Enabled, Inv, Rolls;
    if steps != [] {
      StepInv(max, s, steps[0]);
      CleanStep(max, s, steps[0]);
      CleanRollsNeverTear(max, Apply(max, s, steps[0]), steps[1..]);
    }
  }

  lemma {:induction false} CleanStep(max: nat, s: State, st: Step)
    requires Inv(max, s) && Enabled(s, st)
    requires st.Write? && Rolls(max, s, st.frame) ==> s.buffer == [] && s.cur.synced == |s.cur.file|
    ensures Apply(max, s, st).history.torn == s.history.torn
  {
    hide Encode, EncodeAll, Unsynced, Recorded, Targets, Fits, ClosedCovered, CurrentCovered;
    if st.Write? && Rolls(max, s, st.frame) {
      SyncedHasNoTail(s);
    }
  }

  lemma {:induction false} SyncedHasNoTail(s: State)
    requires WellFormed(s.cur, s.buffer) && s.buffer == [] && s.cur.synced == |s.cur.file|
    ensures Unsynced(s.cur) == {}
  {
    forall k | 0 <= k < |s.cur.frames|
      ensures End(s.cur.frames, k) <= s.cur.synced
    {
      EndInside(s.cur.frames, k);
    }
  }

  // ----- the guarantees

  lemma {:induction false} FindFrame(segs: seq<Segment>, id: nat) returns (i: nat, k: nat)
    requires id in Ids(AllFrames(segs))
    ensures i < |segs| && k < |segs[i].frames| && segs[i].frames[k].entryId == id
  {
    SplitIds(segs[0].frames, AllFrames(segs[1..]));
    if id in Ids(segs[0].frames) {
      k :| 0 <= k < |segs[0].frames| && segs[0].frames[k].entryId == id;
      i := 0;
    } else {
      i, k := FindFrame(segs[1..], id);
      i := i + 1;
    }
  }

  /** When an acknowledged entry survives every crash: if and only if rollover did not tear it,
      it was not written late into the current segment with no sync since, and the parser can
      read up to it. */
  lemma {:induction false} AckedSurvivesIff(max: nat, s: State, id: nat, i: nat, k: nat)
    requires Inv(max, s) && id in s.acked && At(s, id, i, k)
    ensures var seg := Segments(s)[i];
            Survives(seg, k) <==>
              && id !in s.history.torn
              && !(i == |s.closed| && id in s.history.late)
              && ParseableUpTo(seg.frames, k)
  {
    hide EncodeAll, End, Survives, ParseableUpTo, Recorded, Fits;
    assert !Behind(s, id);
    if i < |s.closed| {
      assert ClosedCovered(s, s.closed[i]);
      SurvivesIff(s.closed[i], [], k);
    } else {
      SurvivesIff(s.cur, s.buffer, k);
    }
  }

  /** In every run each id written stands in some segment. */
  lemma {:induction false} WrittenIsSomewhere(max: nat, steps: seq<Step>, id: nat) returns (i: nat, k: nat)
    requires CanRun(max, INIT, steps) && id in Run(max, INIT, steps).written
    ensures At(Run(max, INIT, steps), id, i, k)
  {
    hide Run, CanRun;
    InitInv(max);
    RunInv(max, INIT, steps);
    i, k := FindFrame(Segments(Run(max, INIT, steps)), id);
  }

  lemma {:induction false} FrameInAll(segs: seq<Segment>, i: nat, k: nat)
    requires i < |segs| && k < |segs[i].frames|
    ensures segs[i].frames[k] in AllFrames(segs)
  {
    if i > 0 {
      FrameInAll(segs[1..], i - 1, k);
    }
  }

  /** Crash recovery. In every interleaving of appenders and flusher in which lock order is
      id order and no rollover falls between a frame's write and its sync, stopping at any
      point, every `FdataSync` (tag 1) or `Fsync` (tag 2) append that has returned Ok, that is,
      neither waits nor was told of the shutdown, is parsed back after every crash, provided
      payloads are within the parser's ceiling. */
  lemma {:induction false} CrashRecovery(max: nat, steps: seq<Step>, i: nat, k: nat)
    requires CanRun(max, INIT, steps)
    requires InIdOrder(max, INIT, steps) && RollsClean(max, INIT, steps)
    requires var s := Run(max, INIT, steps);
             && i < |Segments(s)| && k < |Segments(s)[i].frames|
             && var f := Segments(s)[i].frames[k];
                && (f.durability == 1 || f.durability == 2)
                && f.entryId !in s.waiting && f.entryId !in s.history.abandoned
    ensures var seg := Segments(Run(max, INIT, steps))[i];
            ParseableUpTo(seg.frames, k) ==> Survives(seg, k)
  {
    hide Run, CanRun, InIdOrder, RollsClean, Survives, ParseableUpTo;
    InitInv(max);
    RunInv(max, INIT, steps);
    InOrderNeverLate(max, INIT, steps);
    CleanRollsNeverTear(max, INIT, steps);
    var s := Run(max, INIT, steps);
    var f := Segments(s)[i].frames[k];
    FrameInAll(Segments(s), i, k);
    EveryAppendAccounted(max, steps, f);
    AckedSurvivesIff(max, s, f.entryId, i, k);
  }

  // ----- what shutdown leaves

  /** The last buffered id is the greatest one written. */
  predicate Newest(s: State) {
    forall id <- s.written :: s.lastBuffered.Some? && id <= s.lastBuffered.value
  }

  lemma {:induction false} NewestRun(max: nat, s: State, steps: seq<Step>)
    requires Newest(s) && CanRun(max, s, steps) && InIdOrder(max, s, steps)
    ensures Newest(Run(max, s, steps))
    decreases steps
  {
    if steps != [] {
      NewestStep(max, s, steps[0]);
      hide Apply, Enabled, Newest;
      NewestRun(max, Apply(max, s, steps[0]), steps[1..]);
    }
  }

  lemma {:induction false} NewestStep(max: nat, s: State, st: Step)
    requires Newest(s) && Enabled(s, st)
    requires st.Write? ==> forall id <- s.written :: id < st.frame.entryId
    ensures Newest(Apply(max, s, st))
  {
    hide Encode, EncodeAll, Unsynced;
  }

  /** With lock order equal to id order, when the flusher exits on shutdown the writer is empty
      and the whole current segment is on disk. */
  lemma {:induction false} ExitLeavesNothing(max: nat, steps: seq<Step>)
    requires CanRun(max, INIT, steps) && InIdOrder(max, INIT, steps)
    requires Enabled(Run(max, INIT, steps), Exit)
    ensures var s := Run(max, INIT, steps); s.buffer == [] && s.cur.synced == |s.cur.file|
  {
    hide Run, CanRun, InIdOrder;
    InitInv(max);
    RunInv(max, INIT, steps);
    InOrderNeverLate(max, INIT, steps);
    NewestRun(max, INIT, steps);
    AllSynced(max, Run(max, INIT, steps));
  }

  lemma {:induction false} AllSynced(max: nat, s: State)
    requires Inv(max, s) && Newest(s) && s.history.late == {} && Enabled(s, Exit)
    ensures s.buffer == [] && s.cur.synced == |s.cur.file|
  {
    hide Encode, EncodeAll, ClosedCovered, Fits, DistinctIds;
    AllFramesSnoc(s.closed, s.cur);
    SplitIds(AllFrames(s.closed), s.cur.frames);
    if s.cur.frames == [] {
      EmptyFits(max);
    } else {
      var k := |s.cur.frames| - 1;
      assert s.cur.frames[k].entryId in Ids(s.cur.frames);
      assert End(s.cur.frames, k) <= s.cur.synced;
      LastEnd(s.cur.frames);
    }
  }

  /** The watermark, across any number of rollovers: with lock order equal to id order every
      written entry at or below `last_durable` is wholly out of the writer and in its own
      segment file. */
  lemma {:induction false} Watermark(max: nat, steps: seq<Step>, i: nat, k: nat)
    requires CanRun(max, INIT, steps) && InIdOrder(max, INIT, steps)
    requires var s := Run(max, INIT, steps);
             && i < |Segments(s)| && k < |Segments(s)[i].frames|
             && !Behind(s, Segments(s)[i].frames[k].entryId)
    ensures var seg := Segments(Run(max, INIT, steps))[i];
            EncodeAll(seg.frames[..k + 1]) <= seg.file
  {
    hide Run, CanRun, InIdOrder, EncodeAll;
    InitInv(max);
    RunInv(max, INIT, steps);
    InOrderNeverLate(max, INIT, steps);
    var s := Run(max, INIT, steps);
    var seg := Segments(s)[i];
    EndInside(seg.frames, k);
    if i < |s.closed| {
      assert WellFormed(s.closed[i], []);
    } else {
      assert WellFormed(s.cur, s.buffer);
    }
  }

  /** `last_durable` never decreases, in any run from any reachable state. */
  lemma {:induction false} DurableNeverDecreases(max: nat, s: State, steps: seq<Step>)
    requires Inv(max, s) && CanRun(max, s, steps)
    ensures Mark(s.lastDurable) <= Mark(Run(max, s, steps).lastDurable)
    decreases steps
  {
    hide Apply;
    if steps != [] {
      StepInv(max, s, steps[0]);
      DurableStep(max, s, steps[0]);
      DurableNeverDecreases(max, Apply(max, s, steps[0]), steps[1..]);
    }
  }

  // ----- neither hypothesis can be dropped

  /** The rest of the run that acknowledges a late write: publish a finished sync if one is
      pending, then let the waiter return. */
  function Finish(s: State, id: nat): seq<Step> {
    if s.flusher.Synced? then [Publish, Wake(id)] else [Wake(id)]
  }

  lemma {:induction false} FinishAcknowledges(max: nat, s: State, id: nat)
    requires Targets(s) && id in s.waiting && 0 < id <= s.history.mark
    ensures CanRun(max, s, Finish(s, id))
    ensures var t := Run(max, s, Finish(s, id));
            id in t.acked && t.closed == s.closed && t.cur == s.cur && t.buffer == s.buffer
  {
    var b := if s.flusher.Synced? then Apply(max, s, Publish) else s;
    var d := Apply(max, b, Wake(id));
    hide Apply;
    assert CanRun(max, d, []) && Run(max, d, []) == d;
    assert [Wake(id)][1..] == [];
    assert CanRun(max, b, [Wake(id)]) && Run(max, b, [Wake(id)]) == d;
    assert [Publish, Wake(id)][1..] == [Wake(id)];
  }

  /** Any durable write at or below the mark can be acknowledged at once, by steps that are
      enabled, while a crash would still lose it. */
  lemma {:induction false} LateWriteCanBeLost(max: nat, s: State, f: Frame)
    requires Inv(max, s) && Enabled(s, Write(f)) && Durable(f) && f.entryId <= s.history.mark
    ensures var steps := [Write(f)] + Finish(Apply(max, s, Write(f)), f.entryId);
            && CanRun(max, s, steps)
            && var t := Run(max, s, steps);
               && f.entryId in t.acked
               && t.cur.frames != [] && t.cur.frames[|t.cur.frames| - 1] == f
               && !Survives(t.cur, |t.cur.frames| - 1)
  {
    hide Encode, EncodeAll, Unsynced, Survives, Recorded, Fits, Finish;
    WriteInv(max, s, f);
    var a := Apply(max, s, Write(f));
    FinishAcknowledges(max, a, f.entryId);
    var more := Finish(a, f.entryId);
    assert ([Write(f)] + more)[1..] == more;
    var k := |a.cur.frames| - 1;
    assert a.cur.frames[..k + 1] == a.cur.frames;
    SurvivesIff(a.cur, a.buffer, k);
    WriteFillsBuffer(max, s, f);
  }

  lemma {:induction false} WriteFillsBuffer(max: nat, s: State, f: Frame)
    requires Enabled(s, Write(f))
    ensures Apply(max, s, Write(f)).buffer != []
  {
    assert |Encode(f)| >= HEADER_BYTES;
  }

  /** The flusher's cycle from idle, then one waiter's return. */
  function Cycle(id: nat): seq<Step> {
    [Pick, FlushAndSync, Publish, Wake(id)]
  }

  /** One uninterrupted flusher cycle acknowledges any waiter at or below `last_buffered`
      and leaves closed segments as they are. */
  lemma {:induction false} CycleAcknowledges(max: nat, s: State, id: nat)
    requires s.flusher.Idle? && s.lastBuffered.Some? && Behind(s, s.lastBuffered.value)
    requires id in s.waiting && id <= s.lastBuffered.value
    ensures CanRun(max, s, Cycle(id))
    ensures var t := Run(max, s, Cycle(id));
            && id in t.acked && t.closed == s.closed && t.history.torn == s.history.torn
            && t.written == s.written && t.history.mark >= s.lastBuffered.value
  {
    var a := Apply(max, s, Pick);
    var b := Apply(max, a, FlushAndSync);
    var c := Apply(max, b, Publish);
    var d := Apply(max, c, Wake(id));
    hide Apply, Enabled;
    var steps := Cycle(id);
    assert steps[1..][1..][1..][1..] == [];
    assert CanRun(max, d, []) && Run(max, d, []) == d;
    assert CanRun(max, c, steps[1..][1..][1..]) && Run(max, c, steps[1..][1..][1..]) == d;
    assert CanRun(max, b, steps[1..][1..]) && Run(max, b, steps[1..][1..]) == d;
    assert CanRun(max, a, steps[1..]) && Run(max, a, steps[1..]) == d;
  }

  /** What the flusher does to get back to idle. */
  function Settle(s: State): seq<Step> {
    match s.flusher
    case Picked(_) => [FlushAndSync, Publish]
    case Synced(_) => [Publish]
    case _ => []
  }

  lemma {:induction false} SettleIdles(max: nat, s: State)
    requires !s.flusher.Exited?
    ensures CanRun(max, s, Settle(s))
    ensures var t := Run(max, s, Settle(s));
            && t.flusher.Idle? && t.closed == s.closed && t.waiting == s.waiting && t.lastBuffered == s.lastBuffered
            && (t.lastDurable == s.lastDurable
                || (!s.flusher.Idle? && t.lastDurable == Some(s.flusher.target)))
  {
    if s.flusher.Picked? {
      var a := Apply(max, s, FlushAndSync);
      var b := Apply(max, a, Publish);
      RunOne(max, a, Publish);
      hide Apply;
      assert [FlushAndSync, Publish][1..] == [Publish];
    } else if s.flusher.Synced? {
      RunOne(max, s, Publish);
    }
  }

  lemma {:induction false} RunOne(max: nat, s: State, st: Step)
    requires Enabled(s, st)
    ensures CanRun(max, s, [st]) && Run(max, s, [st]) == Apply(max, s, st)
  {
    hide Apply, Enabled;
    assert [st][1..] == [];
  }

  lemma {:induction false} RunAppend(max: nat, s: State, a: seq<Step>, b: seq<Step>)
    requires CanRun(max, s, a) && CanRun(max, Run(max, s, a), b)
    ensures CanRun(max, s, a + b) && Run(max, s, a + b) == Run(max, Run(max, s, a), b)
    decreases a
  {
    hide Apply, Enabled;
    if a == [] {
      assert a + b == b;
    } else {
      RunAppend(max, Apply(max, s, a[0]), a[1..], b);
      assert (a + b)[1..] == a[1..] + b;
    }
  }

  /** A write above every id seen is above whatever the flusher has published or will. */
  lemma {:induction false} FreshIsBehind(s: State, id: nat)
    requires Targets(s) && forall x <- s.written :: x < id
    ensures Behind(s, id) && (s.flusher.Picked? || s.flusher.Synced? ==> s.flusher.target < id)
  {
  }

  /** Any rollover that closes a segment over a waiting append's unsynced frame, in id order and
      wherever the running flusher is, can be followed by that append returning Ok while a crash
      would still lose it. */
  lemma {:induction false} DirtyRolloverCanBeLost(max: nat, s: State, g: Frame, k: nat)
    requires Inv(max, s) && !s.flusher.Exited? && Enabled(s, Write(g)) && Rolls(max, s, g)
    requires forall id <- s.written :: id < g.entryId
    requires k < |s.cur.frames| && End(s.cur.frames, k) > s.cur.synced
    requires s.cur.frames[k].entryId in s.waiting
    ensures var id := s.cur.frames[k].entryId;
            var steps := [Write(g)] + Settle(s) + Cycle(id);
            && CanRun(max, s, steps)
            && var t := Run(max, s, steps);
               && id in t.acked
               && At(t, id, |s.closed|, k)
               && !Survives(Segments(t)[|s.closed|], k)
  {
    hide Encode, EncodeAll, Survives, Unsynced, Cycle, Recorded, Fits, Run, CanRun;
    var id := s.cur.frames[k].entryId;
    var a := Apply(max, s, Write(g));
    WriteInv(max, s, g);
    FreshIsBehind(s, g.entryId);
    assert a.flusher == s.flusher && a.lastDurable == s.lastDurable && a.lastBuffered == Some(g.entryId);
    RunOne(max, s, Write(g));
    SettleIdles(max, a);
    assert Settle(a) == Settle(s);
    RunAppend(max, s, [Write(g)], Settle(s));
    var b := Run(max, a, Settle(s));
    CycleAcknowledges(max, b, id);
    RunAppend(max, s, [Write(g)] + Settle(s), Cycle(id));
    assert a.closed[|s.closed|].frames == s.cur.frames && a.closed[|s.closed|].synced == s.cur.synced;
    SurvivesIff(a.closed[|s.closed|], [], k);
  }

  // ----- both happen from the start

  /** A durable entry. */
  function Plain(id: u64, payload: seq<byte>): Frame {
    Frame(id, 0, 1, 0, payload)
  }

  lemma {:induction false} FirstWrite(max: nat, f: Frame)
    requires Encodable(f) && f.entryId > 0 && Durable(f)
    ensures Enabled(INIT, Write(f)) && CanRun(max, INIT, [Write(f)])
    ensures var s := Run(max, INIT, [Write(f)]);
            && Inv(max, s) && s.written == {f.entryId} && s.waiting == {f.entryId} && s.flusher.Idle?
            && s.cur.frames == [f] && s.cur.synced == 0 && s.closed == []
            && s.lastBuffered == Some(f.entryId) && s.lastDurable == None
  {
    hide Encode, Inv;
    InitInv(max);
    EmptyFits(max);
    WriteInv(max, INIT, f);
    RunOne(max, INIT, Write(f));
  }

  /** Entry 2 is written and acknowledged before entry 1 reaches the lock; entry 1 is then
      acknowledged with nothing of it on disk. */
  lemma {:induction false} LateWriteLostFromStart(max: nat) returns (steps: seq<Step>)
    ensures CanRun(max, INIT, steps)
    ensures var s := Run(max, INIT, steps);
            && 1 in s.acked && s.cur.frames != [] && s.cur.frames[|s.cur.frames| - 1] == Plain(1, [])
            && !Survives(s.cur, |s.cur.frames| - 1)
  {
    hide Run, CanRun, Inv, Survives, Cycle, Finish;
    var late := Plain(1, []);
    FirstWrite(max, Plain(2, []));
    var s1 := Run(max, INIT, [Write(Plain(2, []))]);
    CycleAcknowledges(max, s1, 2);
    RunAppend(max, INIT, [Write(Plain(2, []))], Cycle(2));
    steps := [Write(Plain(2, []))] + Cycle(2);
    InitInv(max);
    RunInv(max, INIT, steps);
    var s2 := Run(max, INIT, steps);
    LateWriteCanBeLost(max, s2, late);
    var more := [Write(late)] + Finish(Apply(max, s2, Write(late)), 1);
    RunAppend(max, INIT, steps, more);
    steps := steps + more;
  }

  /** Entry 1 waits for its sync; entry 2 does not fit beside it, so its segment is closed
      unsynced; the next sync, of the new segment, acknowledges entry 1. */
  lemma {:induction false} DirtyRolloverLostFromStart(max: nat) returns (steps: seq<Step>)
    requires max < U32_LIMIT
    ensures CanRun(max, INIT, steps)
    ensures var s := Run(max, INIT, steps);
            1 in s.acked && At(s, 1, 0, 0) && !Survives(Segments(s)[0], 0)
  {
    hide Run, CanRun, Inv, Survives, Cycle, Settle, Encode, EncodeAll;
    var f, g := Plain(1, []), Plain(2, seq(max, _ => 0));
    FirstWrite(max, f);
    var s := Run(max, INIT, [Write(f)]);
    OneFrame(f);
    assert Rolls(max, s, g);
    DirtyRolloverCanBeLost(max, s, g, 0);
    var more := [Write(g)] + Settle(s) + Cycle(1);
    RunAppend(max, INIT, [Write(f)], more);
    steps := [Write(f)] + more;
  }

  lemma {:induction false} OneFrame(f: Frame)
    ensures |EncodeAll([f])| == |Encode(f)| == HEADER_BYTES + |f.payload| && End([f], 0) == |Encode(f)|
  {
    hide Encode;
    assert [f][1..] == [] && [f][..1] == [f];
    assert EncodeAll([f]) == Encode(f) + EncodeAll([]);
  }

  // ----- shutdown

  /** Told of the shutdown while its entry is not yet durable, an append gives up. */
  lemma {:induction false} ShutdownAbandons(max: nat)
    ensures var steps := [Write(Plain(1, []))] + [Shutdown] + [Abandon(1)];
            && CanRun(max, INIT, steps)
            && var s := Run(max, INIT, steps); s.shutdown && s.history.abandoned == {1} && s.waiting == {}
  {
    hide Run, CanRun, Inv;
    FirstWrite(max, Plain(1, []));
    NothingAbandoned(max, Plain(1, []));
    var s1 := Run(max, INIT, [Write(Plain(1, []))]);
    RunOne(max, s1, Shutdown);
    RunAppend(max, INIT, [Write(Plain(1, []))], [Shutdown]);
    var s2 := Apply(max, s1, Shutdown);
    RunOne(max, s2, Abandon(1));
    RunAppend(max, INIT, [Write(Plain(1, []))] + [Shutdown], [Abandon(1)]);
  }

  lemma {:induction false} NothingAbandoned(max: nat, f: Frame)
    requires Encodable(f) && f.entryId > 0
    ensures CanRun(max, INIT, [Write(f)])
    ensures var s := Run(max, INIT, [Write(f)]); s.history.abandoned == {} && s.acked == {} && s.buffer == Encode(f)
  {
    hide Encode;
    EmptyFits(max);
    RunOne(max, INIT, Write(f));
    assert [] + Encode(f) == Encode(f);
  }

  /** A drain on shutdown: the writer has handed all its bytes to the file, a first sync fails, the
      next one succeeds, the append returns Ok and the flusher exits. */
  lemma {:induction false} ShutdownDrains(max: nat)
    ensures var steps := [Write(Plain(1, []))] + [Spill(22), Shutdown] + [Pick, SyncFails(0)] + Cycle(1) + [Exit];
            && CanRun(max, INIT, steps)
            && var s := Run(max, INIT, steps); s.flusher.Exited? && s.acked == {1} && s.waiting == {}
  {
    hide Run, CanRun, Inv, Encode, Cycle;
    var f := Plain(1, []);
    FirstWrite(max, f);
    NothingAbandoned(max, f);
    var s1 := Run(max, INIT, [Write(f)]);
    RunPair(max, s1, Spill(22), Shutdown);
    var s2 := Run(max, s1, [Spill(22), Shutdown]);
    RunPair(max, s2, Pick, SyncFails(0));
    var s3 := Run(max, s2, [Pick, SyncFails(0)]);
    CycleAcknowledges(max, s3, 1);
    CycleIdles(max, s3, 1);
    var s4 := Run(max, s3, Cycle(1));
    RunOne(max, s4, Exit);
    RunAppend(max, INIT, [Write(f)], [Spill(22), Shutdown]);
    RunAppend(max, INIT, [Write(f)] + [Spill(22), Shutdown], [Pick, SyncFails(0)]);
    RunAppend(max, INIT, [Write(f)] + [Spill(22), Shutdown] + [Pick, SyncFails(0)], Cycle(1));
    RunAppend(max, INIT, [Write(f)] + [Spill(22), Shutdown] + [Pick, SyncFails(0)] + Cycle(1), [Exit]);
  }

  lemma {:induction false} RunPair(max: nat, s: State, a: Step, b: Step)
    requires Enabled(s, a) && Enabled(Apply(max, s, a), b)
    ensures CanRun(max, s, [a, b]) && Run(max, s, [a, b]) == Apply(max, Apply(max, s, a), b)
  {
    hide Enabled, Apply, CanRun, Run;
    RunOne(max, s, a);
    RunOne(max, Apply(max, s, a), b);
    RunAppend(max, s, [a], [b]);
    assert [a] + [b] == [a, b];
  }

  lemma {:induction false} CycleIdles(max: nat, s: State, id: nat)
    requires s.flusher.Idle? && s.lastBuffered.Some? && Behind(s, s.lastBuffered.value)
    requires id in s.waiting && id <= s.lastBuffered.value
    ensures CanRun(max, s, Cycle(id))
    ensures var t := Run(max, s, Cycle(id));
            && t.flusher.Idle? && t.shutdown == s.shutdown && t.lastBuffered == s.lastBuffered
            && t.lastDurable == s.lastBuffered && t.acked == s.acked + {id} && t.waiting == s.waiting - {id}
  {
    CycleAcknowledges(max, s, id);
    var a := Apply(max, s, Pick);
    var b := Apply(max, a, FlushAndSync);
    var c := Apply(max, b, Publish);
    var d := Apply(max, c, Wake(id));
    RunPair(max, s, Pick, FlushAndSync);
    RunPair(max, b, Publish, Wake(id));
    hide Enabled, Apply, CanRun, Run;
    RunAppend(max, s, [Pick, FlushAndSync], [Publish, Wake(id)]);
    assert [Pick, FlushAndSync] + [Publish, Wake(id)] == Cycle(id);
  }
}
