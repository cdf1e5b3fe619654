/** One shard of the group-commit WAL as a protocol over the critical sections of its lock.

    A step is what one thread does while it holds the shard lock, plus two things the
    environment does: the buffered writer may hand bytes to the file on its own, and a
    crash (see `Survives`) may keep any part of a file that was not yet synced. */
module WalShard {
  import opened Bytes
  import opened Frames
  import opened Basics

  /** A segment file. `frames` records what was appended to it; `file` is what the kernel
      has been given; the first `synced` bytes are known to be on disk. */
  datatype Segment = Segment(frames: seq<Frame>, file: seq<byte>, synced: nat)

  /** Where the flusher thread is between its critical sections. */
  datatype Flusher = Idle | Picked(target: nat) | Synced(target: nat) | Exited

  datatype State = State(
    closed: seq<Segment>,
    cur: Segment,
    buffer: seq<byte>,
    lastBuffered: Option<nat>,
    lastDurable: Option<nat>,
    shutdown: bool,
    flusher: Flusher,
    waiting: set<nat>,
    acked: set<nat>,
    written: set<nat>,
    history: History)

  /** Bookkeeping of the proof, not of the program: the highest target whose flush and sync
      finished; ids written at or below that mark and not covered by a sync since; ids whose
      frame was not wholly synced when rollover closed its segment; ids whose append was told
      that the log shut down first. */
  datatype History = History(mark: nat, late: set<nat>, torn: set<nat>, abandoned: set<nat>)

  datatype Step =
    | Write(frame: Frame)
    | Spill(n: nat)
    | Pick
    | FlushAndSync
    | SyncFails(n: nat)
    | Publish
    | Wake(id: nat)
    | Abandon(id: nat)
    | Shutdown
    | Exit

  const DURABILITY_ASYNC: byte := 0
  const EMPTY := Segment([], [], 0)
  const INIT := State([], EMPTY, [], None, None, false, Idle, {}, {}, {}, History(0, {}, {}, {}))

  function Mark(o: Option<nat>): nat {
    if o.None? then 0 else o.value
  }

  predicate Behind(s: State, id: nat) {
    s.lastDurable.None? || s.lastDurable.value < id
  }

  /** `FdataSync` and `Fsync` appends wait; `Async` ones return at once. */
  predicate Durable(f: Frame) {
    f.durability != DURABILITY_ASYNC
  }

  predicate Rolls(max: nat, s: State, f: Frame) {
    && |EncodeAll(s.cur.frames)| + |Encode(f)| > max
    && |EncodeAll(s.cur.frames)| > 0
  }

  /** Ids of the current segment's frames that are not wholly on disk. */
  function Unsynced(seg: Segment): (ids: set<nat>) {
    set k | 0 <= k < |seg.frames| && End(seg.frames, k) > seg.synced :: seg.frames[k].entryId
  }

  /** Offset just past frame `k`. */
  function End(fs: seq<Frame>, k: nat): (e: nat)
    requires k < |fs|
  {
    |EncodeAll(fs[..k + 1])|
  }

  predicate Enabled(s: State, st: Step) {
    match st
    case Write(f) => Encodable(f) && f.entryId > 0 && f.entryId !in s.written
    case Spill(n) => n <= |s.buffer|
    case Pick => s.flusher.Idle? && s.lastBuffered.Some? && Behind(s, s.lastBuffered.value)
    case FlushAndSync => s.flusher.Picked?
    case SyncFails(n) => s.flusher.Picked? && n <= |s.buffer|
    case Publish => s.flusher.Synced?
    case Wake(id) => id in s.waiting && !Behind(s, id)
    case Abandon(id) => id in s.waiting && s.shutdown && Behind(s, id)
    case Shutdown => true
    case Exit => s.flusher.Idle? && s.shutdown
                 && (s.lastBuffered.None? || !Behind(s, s.lastBuffered.value))
  }

  function Spilled(s: State, n: nat): State
    requires n <= |s.buffer|
  {
    s.(cur := s.cur.(file := s.cur.file + s.buffer[..n]), buffer := s.buffer[n..])
  }

  /** The segment change at the head of `append`: flush the writer, but do not sync. */
  function Rolled(s: State): State {
    var full := s.cur.(file := s.cur.file + s.buffer);
    s.(closed := s.closed + [full], cur := EMPTY, buffer := [],
       history := s.history.(torn := s.history.torn + Unsynced(s.cur)))
  }

  /** The write itself, after any rollover, into a segment with room for it. */
  function Written(r: State, f: Frame): State {
    r.(cur := r.cur.(frames := r.cur.frames + [f]),
       buffer := r.buffer + Encode(f),
       lastBuffered := Some(f.entryId),
       waiting := if Durable(f) then r.waiting + {f.entryId} else r.waiting,
       written := r.written + {f.entryId},
       history := if f.entryId <= r.history.mark
                  then r.history.(late := r.history.late + {f.entryId}) else r.history)
  }

  function Apply(max: nat, s: State, st: Step): State
    requires Enabled(s, st)
  {
    match st
    case Write(f) =>
      Written(if Rolls(max, s, f) then Rolled(s) else s, f)
    case Spill(n) => Spilled(s, n)
    case Pick => s.(flusher := Picked(s.lastBuffered.value))
    case FlushAndSync =>
      var t := s.flusher.target;
      var file := s.cur.file + s.buffer;
      s.(cur := s.cur.(file := file, synced := |file|), buffer := [], flusher := Synced(t),
         history := s.history.(mark := if t > s.history.mark then t else s.history.mark,
                               late := s.history.late - Ids(s.cur.frames)))
    case SyncFails(n) => Spilled(s, n).(flusher := Idle)
    case Publish => s.(lastDurable := Some(s.flusher.target), flusher := Idle)
    case Wake(id) => s.(waiting := s.waiting - {id}, acked := s.acked + {id})
    case Abandon(id) =>
      s.(waiting := s.waiting - {id}, history := s.history.(abandoned := s.history.abandoned + {id}))
    case Shutdown => s.(shutdown := true)
    case Exit => s.(flusher := Exited)
  }

  // ----- runs

  /** `steps` can be taken one after the other from `s`. */
  predicate CanRun(max: nat, s: State, steps: seq<Step>)
    decreases steps
  {
    steps == [] || (Enabled(s, steps[0]) && CanRun(max, Apply(max, s, steps[0]), steps[1..]))
  }

  function Run(max: nat, s: State, steps: seq<Step>): State
    requires CanRun(max, s, steps)
    decreases steps
  {
    if steps == [] then s else Run(max, Apply(max, s, steps[0]), steps[1..])
  }

  /** Lock order equals id order: each write's id is above all ids written before it. */
  predicate InIdOrder(max: nat, s: State, steps: seq<Step>)
    requires CanRun(max, s, steps)
    decreases steps
  {
    steps == [] ||
    (&& (steps[0].Write? ==> forall id <- s.written :: id < steps[0].frame.entryId)
     && InIdOrder(max, Apply(max, s, steps[0]), steps[1..]))
  }

  /** No rollover falls between a frame's write and its sync. */
  predicate RollsClean(max: nat, s: State, steps: seq<Step>)
    requires CanRun(max, s, steps)
    decreases steps
  {
    steps == [] ||
    (&& (steps[0].Write? && Rolls(max, s, steps[0].frame) ==>
           s.buffer == [] && s.cur.synced == |s.cur.file|)
     && RollsClean(max, Apply(max, s, steps[0]), steps[1..]))
  }

  // ----- the invariant

  predicate WellFormed(seg: Segment, buffer: seq<byte>) {
    && AllEncodable(seg.frames)
    && seg.file + buffer == EncodeAll(seg.frames)
    && seg.synced <= |seg.file|
  }

  /** Segments hold whole frames, and exceed the ceiling only with a single frame. */
  predicate Fits(max: nat, seg: Segment) {
    |seg.frames| <= 1 || |EncodeAll(seg.frames)| <= max
  }

  function Ids(fs: seq<Frame>): (ids: set<nat>) {
    set k | 0 <= k < |fs| :: fs[k].entryId
  }

  function AllFrames(segs: seq<Segment>): (fs: seq<Frame>) {
    if segs == [] then [] else segs[0].frames + AllFrames(segs[1..])
  }

  function Segments(s: State): (segs: seq<Segment>)
    ensures |segs| == |s.closed| + 1
  {
    s.closed + [s.cur]
  }

  predicate DistinctIds(fs: seq<Frame>) {
    forall i, j :: 0 <= i < j < |fs| ==> fs[i].entryId != fs[j].entryId
  }

  /** Every frame written is in exactly one segment, once. */
  predicate Recorded(s: State) {
    && DistinctIds(AllFrames(Segments(s)))
    && Ids(AllFrames(Segments(s))) == s.written
  }

  predicate Targets(s: State) {
    && (s.lastBuffered.Some? ==> s.lastBuffered.value in s.written)
    && (s.flusher.Picked? ==> s.flusher.target in s.written && Behind(s, s.flusher.target))
    && s.history.mark == (if s.flusher.Synced? then s.flusher.target else Mark(s.lastDurable))
    && (s.history.mark > 0 ==> s.history.mark in s.written)
    && (s.flusher.Synced? ==> s.flusher.target in s.written && Behind(s, s.flusher.target))
    && (s.lastDurable.Some? ==> s.lastDurable.value > 0)
    && 0 !in s.written
  }

  /** In a closed segment exactly the torn frames reach past the synced part. */
  predicate ClosedCovered(s: State, seg: Segment) {
    forall k :: 0 <= k < |seg.frames| ==>
      (End(seg.frames, k) <= seg.synced <==> seg.frames[k].entryId !in s.history.torn)
  }

  /** In the current segment exactly the late frames at or below the mark are not synced. */
  predicate CurrentCovered(s: State) {
    forall k :: 0 <= k < |s.cur.frames| ==>
      && s.cur.frames[k].entryId !in s.history.torn
      && (s.cur.frames[k].entryId <= s.history.mark ==>
            (s.cur.frames[k].entryId in s.history.late <==> End(s.cur.frames, k) > s.cur.synced))
  }

  predicate Inv(max: nat, s: State) {
    && (forall i :: 0 <= i < |s.closed| ==>
          WellFormed(s.closed[i], []) && Fits(max, s.closed[i]) && ClosedCovered(s, s.closed[i]))
    && WellFormed(s.cur, s.buffer) && Fits(max, s.cur) && CurrentCovered(s)
    && Targets(s)
    && s.history.torn <= s.written && s.history.late <= s.written
    && s.waiting <= s.written && s.acked <= s.written
    && (forall id <- s.acked :: !Behind(s, id))
    && Recorded(s)
  }

  // ----- sequence facts

  lemma {:induction false} EncodeAllSnoc(fs: seq<Frame>, f: Frame)
    ensures EncodeAll(fs + [f]) == EncodeAll(fs) + Encode(f)
  {
    hide Encode;
    EncodeAllAppend(fs, [f]);
    assert [f][1..] == [];
    assert EncodeAll([f]) == Encode(f) + EncodeAll([]);
  }

  lemma {:induction false} AllFramesAppend(a: seq<Segment>, b: seq<Segment>)
    ensures AllFrames(a + b) == AllFrames(a) + AllFrames(b)
  {
    if a == [] {
      assert a + b == b;
    } else {
      AllFramesAppend(a[1..], b);
      assert (a + b)[1..] == a[1..] + b;
      Associative(a[0].frames, AllFrames(a[1..]), AllFrames(b));
    }
  }

  lemma {:induction false} AllFramesSnoc(segs: seq<Segment>, seg: Segment)
    ensures AllFrames(segs + [seg]) == AllFrames(segs) + seg.frames
  {
    AllFramesAppend(segs, [seg]);
    assert [seg][1..] == [];
    assert AllFrames([seg]) == seg.frames + AllFrames([]);
  }

  /** Splitting a list of frames with distinct ids. */
  lemma {:induction false} SplitIds(a: seq<Frame>, b: seq<Frame>)
    ensures Ids(a + b) == Ids(a) + Ids(b)
    ensures DistinctIds(a + b) <==> DistinctIds(a) && DistinctIds(b) && Ids(a) !! Ids(b)
  {
    var c := a + b;
    assert forall k :: 0 <= k < |b| ==> c[|a| + k] == b[k];
    assert forall k :: 0 <= k < |a| ==> c[k] == a[k];
    assert forall id <- Ids(a) :: id in Ids(c);
    assert forall id <- Ids(b) :: id in Ids(c);
    if DistinctIds(c) {
      forall i, j | 0 <= i < |a| && 0 <= j < |b|
        ensures a[i].entryId != b[j].entryId
      {
        assert c[i].entryId != c[|a| + j].entryId;
      }
      forall i, j | 0 <= i < j < |b|
        ensures b[i].entryId != b[j].entryId
      {
        assert c[|a| + i].entryId != c[|a| + j].entryId;
      }
    } else if DistinctIds(a) && DistinctIds(b) {
      var i, j :| 0 <= i < j < |c| && c[i].entryId == c[j].entryId;
      assert i < |a| <= j;
      assert a[i].entryId in Ids(a) && b[j - |a|].entryId in Ids(b);
    }
  }

  lemma {:induction false} SegmentIds(segs: seq<Segment>, i: nat)
    requires i < |segs|
    ensures Ids(segs[i].frames) <= Ids(AllFrames(segs))
    ensures DistinctIds(AllFrames(segs)) ==> DistinctIds(segs[i].frames)
  {
    SplitIds(segs[0].frames, AllFrames(segs[1..]));
    if i > 0 {
      SegmentIds(segs[1..], i - 1);
    }
  }

  lemma {:induction false} EndStable(fs: seq<Frame>, more: seq<Frame>, k: nat)
    requires k < |fs|
    ensures End(fs + more, k) == End(fs, k)
  {
    assert (fs + more)[..k + 1] == fs[..k + 1];
  }

  /** Whole frames lie inside the encoding of all of them. */
  lemma {:induction false} EndInside(fs: seq<Frame>, k: nat)
    requires k < |fs|
    ensures EncodeAll(fs[..k + 1]) <= EncodeAll(fs)
    ensures End(fs, k) <= |EncodeAll(fs)|
  {
    hide Encode, EncodeAll;
    EncodeAllAppend(fs[..k + 1], fs[k + 1..]);
    assert fs == fs[..k + 1] + fs[k + 1..];
  }

  lemma {:induction false} EmptyEncoding(fs: seq<Frame>)
    ensures |EncodeAll(fs)| == 0 ==> fs == []
  {
    if fs != [] {
      assert |Encode(fs[0])| >= HEADER_BYTES;
    }
  }

  // ----- every step keeps the invariant

  lemma {:induction false} InitInv(max: nat)
    ensures Inv(max, INIT)
  {
    assert EncodeAll([]) == [];
    assert AllFrames(Segments(INIT)) == [] by { AllFramesSnoc([], EMPTY); }
  }

  lemma {:induction false} RolledFrames(s: State)
    ensures AllFrames(Segments(Rolled(s))) == AllFrames(Segments(s))
  {
    var r := Rolled(s);
    AllFramesSnoc(s.closed, s.cur);
    AllFramesSnoc(s.closed, r.closed[|s.closed|]);
    AllFramesSnoc(r.closed, EMPTY);
  }

  lemma {:induction false} UnsyncedIds(seg: Segment, k: nat)
    requires DistinctIds(seg.frames) && k < |seg.frames|
    ensures Unsynced(seg) <= Ids(seg.frames)
    ensures seg.frames[k].entryId in Unsynced(seg) <==> End(seg.frames, k) > seg.synced
  {
    hide End;
    if seg.frames[k].entryId in Unsynced(seg) {
      var j :| 0 <= j < |seg.frames| && End(seg.frames, j) > seg.synced
               && seg.frames[j].entryId == seg.frames[k].entryId;
      assert j == k;
    }
  }

  /** Rollover marks as torn exactly the frames it leaves unsynced. */
  lemma {:induction false} RolledCovered(max: nat, s: State, i: nat)
    requires Inv(max, s) && i <= |s.closed|
    ensures ClosedCovered(Rolled(s), Rolled(s).closed[i])
  {
    hide Encode, EncodeAll, End, Fits, WellFormed, Unsynced;
    AllFramesSnoc(s.closed, s.cur);
    SplitIds(AllFrames(s.closed), s.cur.frames);
    var seg := Rolled(s).closed[i];
    forall k | 0 <= k < |seg.frames|
      ensures End(seg.frames, k) <= seg.synced <==> seg.frames[k].entryId !in Rolled(s).history.torn
    {
      if i == |s.closed| {
        UnsyncedIds(s.cur, k);
        UnsyncedIds(seg, k);
      } else {
        assert ClosedCovered(s, s.closed[i]);
        SegmentIds(s.closed, i);
        assert seg.frames[k].entryId in Ids(seg.frames);
        if s.cur.frames != [] {
          UnsyncedIds(s.cur, 0);
        } else {
          NothingUnsynced(s.cur);
        }
      }
    }
  }

  lemma {:induction false} NothingUnsynced(seg: Segment)
    requires seg.frames == []
    ensures Unsynced(seg) == {}
  {
  }

  lemma {:induction false} RolledInv(max: nat, s: State)
    requires Inv(max, s)
    ensures Inv(max, Rolled(s))
  {
    hide Encode, EncodeAll, End, Fits, ClosedCovered, Unsynced, DistinctIds;
    var r := Rolled(s);
    RolledFrames(s);
    forall i | 0 <= i < |r.closed|
      ensures WellFormed(r.closed[i], []) && Fits(max, r.closed[i]) && ClosedCovered(r, r.closed[i])
    {
      RolledCovered(max, s, i);
      if i == |s.closed| {
        assert r.closed[i].file + [] == r.closed[i].file;
        FitsSameFrames(max, s.cur, r.closed[i]);
      }
    }
    EmptyFits(max);
    assert Unsynced(s.cur) <= s.written by {
      AllFramesSnoc(s.closed, s.cur);
      SplitIds(AllFrames(s.closed), s.cur.frames);
      if s.cur.frames != [] { UnsyncedIds(s.cur, 0); } else { NothingUnsynced(s.cur); }
    }
  }

  lemma {:induction false} FitsSameFrames(max: nat, a: Segment, b: Segment)
    requires a.frames == b.frames
    ensures Fits(max, a) == Fits(max, b)
  {
  }

  lemma {:induction false} EmptyFits(max: nat)
    ensures Fits(max, EMPTY) && EncodeAll([]) == []
  {
  }

  lemma {:induction false} WrittenRecord(r: State, f: Frame)
    requires Recorded(r) && f.entryId !in r.written
    ensures Recorded(Written(r, f))
    ensures AllFrames(Segments(Written(r, f))) == AllFrames(Segments(r)) + [f]
    ensures forall k :: 0 <= k < |r.cur.frames| ==> r.cur.frames[k].entryId != f.entryId
  {
    hide Encode;
    var t := Written(r, f);
    AllFramesSnoc(r.closed, r.cur);
    AllFramesSnoc(t.closed, t.cur);
    Associative(AllFrames(r.closed), r.cur.frames, [f]);
    SplitIds(AllFrames(Segments(r)), [f]);
    assert Ids([f]) == {f.entryId} by { assert [f][0] == f; }
    SplitIds(AllFrames(r.closed), r.cur.frames);
    forall k | 0 <= k < |r.cur.frames|
      ensures r.cur.frames[k].entryId != f.entryId
    {
      assert r.cur.frames[k].entryId in Ids(r.cur.frames);
    }
  }

  lemma {:induction false} WrittenCurrent(max: nat, r: State, f: Frame)
    requires Inv(max, r) && Enabled(r, Write(f)) && !Rolls(max, r, f)
    ensures var t := Written(r, f); WellFormed(t.cur, t.buffer) && Fits(max, t.cur) && CurrentCovered(t)
  {
    hide Encode, EncodeAll, End, Recorded;
    var t := Written(r, f);
    EncodeAllSnoc(r.cur.frames, f);
    Associative(r.cur.file, r.buffer, Encode(f));
    EmptyEncoding(r.cur.frames);
    WrittenRecord(r, f);
    forall k | 0 <= k < |r.cur.frames|
      ensures End(t.cur.frames, k) == End(r.cur.frames, k)
    {
      EndStable(r.cur.frames, [f], k);
    }
    LastEnd(t.cur.frames);
    assert |Encode(f)| > 0;
  }

  lemma {:induction false} LastEnd(fs: seq<Frame>)
    requires fs != []
    ensures End(fs, |fs| - 1) == |EncodeAll(fs)|
  {
    assert fs[..|fs|] == fs;
  }

  lemma {:induction false} WriteInv(max: nat, s: State, f: Frame)
    requires Inv(max, s) && Enabled(s, Write(f))
    ensures Inv(max, Apply(max, s, Write(f)))
    ensures AllFrames(Segments(Apply(max, s, Write(f)))) == AllFrames(Segments(s)) + [f]
  {
    hide Encode, EncodeAll, End, Fits, WellFormed, Recorded, CurrentCovered, AllFrames;
    var r := if Rolls(max, s, f) then Rolled(s) else s;
    if Rolls(max, s, f) {
      RolledInv(max, s);
      RolledFrames(s);
      EmptyFits(max);
    }
    WrittenRecord(r, f);
    WrittenCurrent(max, r, f);
    var t := Apply(max, s, Write(f));
    assert t == Written(r, f);
    forall i | 0 <= i < |t.closed|
      ensures ClosedCovered(t, t.closed[i])
    {
      assert ClosedCovered(r, r.closed[i]);
    }
  }

  lemma {:induction false} FlushInv(max: nat, s: State)
    requires Inv(max, s) && s.flusher.Picked?
    ensures Inv(max, Apply(max, s, FlushAndSync))
  {
    hide Encode, EncodeAll, End, AllFrames, Fits, DistinctIds;
    var t := Apply(max, s, FlushAndSync);
    AllFramesSnoc(s.closed, s.cur);
    AllFramesSnoc(t.closed, t.cur);
    FitsSameFrames(max, s.cur, t.cur);
    forall k | 0 <= k < |t.cur.frames|
      ensures End(t.cur.frames, k) <= t.cur.synced && t.cur.frames[k].entryId !in t.history.late
    {
      EndInside(t.cur.frames, k);
      assert t.cur.frames[k].entryId in Ids(s.cur.frames);
    }
    assert t.cur.file + [] == t.cur.file;
    forall i | 0 <= i < |t.closed|
      ensures ClosedCovered(t, t.closed[i])
    {
      assert ClosedCovered(s, s.closed[i]);
    }
  }

  lemma {:induction false} SpillInv(max: nat, s: State, n: nat)
    requires Inv(max, s) && n <= |s.buffer|
    ensures Inv(max, Spilled(s, n))
  {
    hide Encode, EncodeAll, End;
    var t := Spilled(s, n);
    AllFramesSnoc(s.closed, s.cur);
    AllFramesSnoc(t.closed, t.cur);
    Associative(s.cur.file, s.buffer[..n], s.buffer[n..]);
    assert s.buffer[..n] + s.buffer[n..] == s.buffer;
    forall i | 0 <= i < |t.closed|
      ensures ClosedCovered(t, t.closed[i])
    {
      assert ClosedCovered(s, s.closed[i]);
    }
  }

  lemma {:induction false} StepInv(max: nat, s: State, st: Step)
    requires Inv(max, s) && Enabled(s, st)
    ensures Inv(max, Apply(max, s, st))
  {
    hide Encode, EncodeAll, End, Fits;
    match st
    case Write(f) => WriteInv(max, s, f);
    case Spill(n) => SpillInv(max, s, n);
    case FlushAndSync => FlushInv(max, s);
    case SyncFails(n) => SpillInv(max, s, n); OutsideFiles(max, Spilled(s, n), Apply(max, s, st));
    case _ => OutsideFiles(max, s, Apply(max, s, st));
  }

  /** Steps that leave the segments, the mark and the record of writes alone. */
  lemma {:induction false} OutsideFiles(max: nat, s: State, t: State)
    requires Inv(max, s)
    requires t.closed == s.closed && t.cur == s.cur && t.buffer == s.buffer
    requires t.written == s.written && t.history.(abandoned := {}) == s.history.(abandoned := {}) && Targets(t)
    requires t.waiting <= t.written && t.acked <= t.written
    requires forall id <- t.acked :: !Behind(t, id)
    ensures Inv(max, t)
  {
    hide Encode, EncodeAll, End, Fits;
    assert Segments(t) == Segments(s);
    forall i | 0 <= i < |t.closed|
      ensures ClosedCovered(t, t.closed[i])
    {
      assert ClosedCovered(s, s.closed[i]);
    }
  }

  lemma {:induction false} InsideFrames(max: nat, s: State, st: Step)
    requires Enabled(s, st) && !st.Write?
    ensures AllFrames(Segments(Apply(max, s, st))) == AllFrames(Segments(s))
    ensures Apply(max, s, st).written == s.written
  {
    var t := Apply(max, s, st);
    AllFramesSnoc(s.closed, s.cur);
    AllFramesSnoc(t.closed, t.cur);
  }

  lemma {:induction false} RunInv(max: nat, s: State, steps: seq<Step>)
    requires Inv(max, s) && CanRun(max, s, steps)
    ensures Inv(max, Run(max, s, steps))
    decreases steps
  {
    hide Inv, Enabled, Apply;
    if steps != [] {
      StepInv(max, s, steps[0]);
      RunInv(max, Apply(max, s, steps[0]), steps[1..]);
    }
  }
}
