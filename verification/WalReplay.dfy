/** The shard's critical sections as the code runs them, over the files they write. */
module WalFile {
  import opened Bytes
  import opened Frames
  import opened Basics
  import opened WalShard

  class Shard {
    const segmentSizeMax: nat
    var seqno: nat
    var segmentBytes: nat
    /** `files[i]` is what the kernel holds of segment `i`; the last one is being written. */
    var files: seq<seq<byte>>
    /** What the current segment's buffered writer still holds. */
    var buffer: seq<byte>
    var lastBuffered: Option<nat>
    var lastDurable: Option<nat>
    var shutdown: bool
    ghost var model: State

    ghost predicate Valid()
      reads this
    {
      && Inv(segmentSizeMax, model)
      && |files| == seqno + 1 == |model.closed| + 1
      && (forall i :: 0 <= i < seqno ==> files[i] == model.closed[i].file)
      && files[seqno] == model.cur.file
      && buffer == model.buffer
      && segmentBytes == |EncodeAll(model.cur.frames)|
      && lastBuffered == model.lastBuffered && lastDurable == model.lastDurable
      && shutdown == model.shutdown
    }

    /** Opens a shard in an empty directory. */
    constructor (segmentSizeMax: nat)
      ensures Valid() && this.segmentSizeMax == segmentSizeMax && model == INIT
    {
      hide Inv, EncodeAll;
      this.segmentSizeMax := segmentSizeMax;
      seqno, segmentBytes, files, buffer := 0, 0, [[]], [];
      lastBuffered, lastDurable, shutdown := None, None, false;
      model := INIT;
      new;
      InitInv(segmentSizeMax);
      EmptyFits(segmentSizeMax);
    }

    /** `append` up to the wait: roll over if the frame would cross the ceiling, write header and
        payload into the buffered writer, and return at once only if the tag is 0, `Async`;
        otherwise the caller is parked. */
    method Append(id: u64, tag: byte, nanos: u64, bytes: seq<byte>) returns (atOnce: bool)
      requires Valid()
      requires |bytes| < U32_LIMIT && id > 0 && id !in model.written
      modifies this
      ensures Valid()
      ensures model == Apply(segmentSizeMax, old(model), Write(Frame(id, nanos, tag, 0, bytes)))
      ensures atOnce <==> tag == 0
      ensures atOnce ==> model.waiting == old(model).waiting
      ensures !atOnce ==> model.waiting == old(model).waiting + {id}
    {
      hide Encode, EncodeAll, Inv, Apply;
      ghost var f := Frame(id, nanos, tag, 0, bytes);
      EncodedLength(f);
      var frameLen := HEADER_BYTES + |bytes|;
      if segmentBytes + frameLen > segmentSizeMax && segmentBytes > 0 {
        files := files[seqno := files[seqno] + buffer];
        buffer := [];
        files := files + [[]];
        seqno := seqno + 1;
        segmentBytes := 0;
      }
      var header := LeBytes(|bytes|, 4) + [tag, 0] + LeBytes(nanos, 8) + LeBytes(id, 8);
      EncodedParts(f);
      Associative(buffer, header, bytes);
      buffer := buffer + header;
      buffer := buffer + bytes;
      segmentBytes := segmentBytes + frameLen;
      lastBuffered := Some(id);
      StepInv(segmentSizeMax, model, Write(f));
      WriteFields(segmentSizeMax, model, f);
      model := Apply(segmentSizeMax, model, Write(f));
      atOnce := tag == DURABILITY_ASYNC;
    }

    /** The flusher's choice under the lock: the highest buffered id not yet durable. */
    method PickTarget() returns (target: Option<nat>)
      requires Valid() && model.flusher.Idle?
      modifies this
      ensures Valid()
      ensures target.Some? <==> Enabled(old(model), Pick)
      ensures target.Some? ==> model == Apply(segmentSizeMax, old(model), Pick)
                               && model.flusher == Picked(target.value)
      ensures target.None? ==> model == old(model)
    {
      target := None;
      if lastBuffered.Some? && (lastDurable.None? || lastDurable.value < lastBuffered.value) {
        target := lastBuffered;
        StepInv(segmentSizeMax, model, Pick);
        model := Apply(segmentSizeMax, model, Pick);
      }
    }

    /** `do_flush`: empty the writer into the file and sync the current segment. */
    method DoFlush()
      requires Valid() && model.flusher.Picked?
      modifies this
      ensures Valid()
      ensures model == Apply(segmentSizeMax, old(model), FlushAndSync)
    {
      hide EncodeAll, Inv;
      files := files[seqno := files[seqno] + buffer];
      buffer := [];
      StepInv(segmentSizeMax, model, FlushAndSync);
      model := Apply(segmentSizeMax, model, FlushAndSync);
    }

    method Publish(target: nat)
      requires Valid() && model.flusher == Synced(target)
      modifies this
      ensures Valid()
      ensures model == Apply(segmentSizeMax, old(model), WalShard.Publish)
    {
      lastDurable := Some(target);
      StepInv(segmentSizeMax, model, WalShard.Publish);
      model := Apply(segmentSizeMax, model, WalShard.Publish);
    }

    /** The guard of the wait loop in `append`: whether a parked append may return Ok. */
    method MayReturn(id: nat) returns (ok: bool)
      requires Valid()
      ensures ok <==> !Behind(model, id)
    {
      ok := !(lastDurable.None? || lastDurable.value < id);
    }
  }

  /** The parts of a write's effect that the program's own fields mirror. */
  lemma {:induction false} WriteFields(max: nat, s: State, f: Frame)
    requires Enabled(s, Write(f))
    ensures var t := Apply(max, s, Write(f));
            && t.lastBuffered == Some(f.entryId) && t.lastDurable == s.lastDurable && t.shutdown == s.shutdown
            && t.waiting == (if f.durability == 0 then s.waiting else s.waiting + {f.entryId})
            && if Rolls(max, s, f)
               then |t.closed| == |s.closed| + 1 && t.closed[..|s.closed|] == s.closed
                    && t.closed[|s.closed|].file == s.cur.file + s.buffer
                    && t.cur.file == [] && t.buffer == [] + Encode(f)
                    && |EncodeAll(t.cur.frames)| == |Encode(f)|
               else t.closed == s.closed && t.cur.file == s.cur.file && t.buffer == s.buffer + Encode(f)
                    && |EncodeAll(t.cur.frames)| == |EncodeAll(s.cur.frames)| + |Encode(f)|
  {
    hide Encode, EncodeAll, Unsynced;
    EncodeAllSnoc(s.cur.frames, f);
    EncodeAllSnoc([], f);
    EmptyFits(max);
  }

  lemma {:induction false} EncodedLength(f: Frame)
    ensures |Encode(f)| == HEADER_BYTES + |f.payload|
  {
  }

  lemma {:induction false} EncodedParts(f: Frame)
    ensures Encode(f) ==
            LeBytes(|f.payload|, 4) + [f.durability, f.kind] + LeBytes(f.timestamp, 8) + LeBytes(f.entryId, 8)
            + f.payload
  {
  }
}

/** The whole WAL: one id counter striped over shards, and the replay tool reading it back. */
module WalReplay {
  import opened Basics
  import opened Bytes
  import opened Frames
  import opened FrameReader
  import opened WalShard

  /** An append that has its id and is on its way to the shard lock. */
  datatype Request = Request(payload: seq<byte>, durability: byte)

  /** `asked` records what every id was taken for, `log` every completed write, `rejected` every id
      whose payload was too large. */
  datatype Wal = Wal(
    nextId: nat,
    pending: map<nat, Request>,
    shards: seq<State>,
    log: map<nat, Frame>,
    rejected: set<nat>,
    asked: map<nat, Request>)

  datatype WalStep =
    | Take(request: Request)
    | Reject(id: nat)
    | Commit(id: nat, nanos: u64)
    | Inside(shard: nat, step: Step)

  function Open(n: nat): Wal {
    Wal(1, map[], seq(n, i => INIT), map[], {}, map[])
  }

  function ShardOf(w: Wal, id: nat): (i: nat)
    requires |w.shards| > 0
    ensures i < |w.shards|
  {
    id % |w.shards|
  }

  predicate WalEnabled(w: Wal, st: WalStep)
    requires |w.shards| > 0
  {
    match st
    case Take(_) => w.nextId < U64_LIMIT
    case Reject(id) => id in w.pending && |w.pending[id].payload| >= U32_LIMIT
    case Commit(id, nanos) => id in w.pending && |w.pending[id].payload| < U32_LIMIT
                              && id < U64_LIMIT
                              && Enabled(w.shards[ShardOf(w, id)], Write(FrameFor(w, id, nanos)))
    case Inside(i, step) => i < |w.shards| && !step.Write? && Enabled(w.shards[i], step)
  }

  function FrameFor(w: Wal, id: u64, nanos: u64): Frame
    requires id in w.pending
  {
    Frame(id, nanos, w.pending[id].durability, 0, w.pending[id].payload)
  }

  function WalApply(max: nat, w: Wal, st: WalStep): Wal
    requires |w.shards| > 0 && WalEnabled(w, st)
  {
    match st
    case Take(r) =>
      w.(nextId := w.nextId + 1, pending := w.pending[w.nextId := r], asked := w.asked[w.nextId := r])
    case Reject(id) => w.(pending := w.pending - {id}, rejected := w.rejected + {id})
    case Commit(id, nanos) =>
      var f, i := FrameFor(w, id, nanos), ShardOf(w, id);
      w.(pending := w.pending - {id}, shards := w.shards[i := Apply(max, w.shards[i], Write(f))],
         log := w.log[id := f])
    case Inside(i, step) => w.(shards := w.shards[i := Apply(max, w.shards[i], step)])
  }

  predicate WalCanRun(max: nat, w: Wal, steps: seq<WalStep>)
    requires |w.shards| > 0
    decreases steps
  {
    steps == [] || (WalEnabled(w, steps[0]) && WalCanRun(max, WalApply(max, w, steps[0]), steps[1..]))
  }

  function WalRun(max: nat, w: Wal, steps: seq<WalStep>): Wal
    requires |w.shards| > 0 && WalCanRun(max, w, steps)
    decreases steps
  {
    if steps == [] then w else WalRun(max, WalApply(max, w, steps[0]), steps[1..])
  }

  // ----- invariant

  /** A shard holds exactly the logged frames of its residue class. */
  ghost predicate Striped(w: Wal, i: nat)
    requires i < |w.shards|
  {
    && (forall id :: id in w.shards[i].written <==> id in w.log && id % |w.shards| == i)
    && Logged(w.log, AllFrames(Segments(w.shards[i])))
  }

  predicate Logged(log: map<nat, Frame>, fs: seq<Frame>) {
    forall k :: 0 <= k < |fs| ==> fs[k].entryId in log && log[fs[k].entryId] == fs[k]
  }

  ghost predicate WalInv(max: nat, w: Wal) {
    && |w.shards| > 0
    && (forall i :: 0 <= i < |w.shards| ==> Inv(max, w.shards[i]) && Striped(w, i))
    && 0 < w.nextId <= U64_LIMIT
    && Partitioned(w)
    && AsAsked(w)
  }

  /** A logged frame carries its own id and the payload and tag its append was called with. */
  ghost predicate AsAsked(w: Wal) {
    && (forall id <- w.pending :: id in w.asked && w.asked[id] == w.pending[id])
    && (forall id <- w.log ::
          && id in w.asked && w.log[id].entryId == id && w.log[id].kind == 0
          && w.log[id].payload == w.asked[id].payload && w.log[id].durability == w.asked[id].durability)
  }

  /** Every id taken is logged, pending or rejected, and only one of these. */
  ghost predicate Partitioned(w: Wal) {
    && (forall id: nat :: 0 < id < w.nextId <==> id in w.log || id in w.pending || id in w.rejected)
    && w.log.Keys !! w.pending.Keys && w.log.Keys !! w.rejected && w.pending.Keys !! w.rejected
  }

  /** An append that has its id and a payload of legal size can always be written when it gets
      the lock: that the id is new to its shard is no condition on the program. One with a payload
      of 4 GiB or more is refused. */
  lemma {:induction false} CommitNeverBlocked(max: nat, w: Wal, id: nat, nanos: u64)
    requires WalInv(max, w) && id in w.pending
    ensures if |w.pending[id].payload| < 0x1_0000_0000 then WalEnabled(w, Commit(id, nanos))
            else WalEnabled(w, Reject(id))
  {
    hide Inv, Logged;
    assert 0 < id < w.nextId;
    assert Striped(w, ShardOf(w, id));
  }

  lemma {:induction false} CommitInv(max: nat, w: Wal, id: nat, nanos: u64)
    requires WalInv(max, w) && WalEnabled(w, Commit(id, nanos))
    ensures WalInv(max, WalApply(max, w, Commit(id, nanos)))
  {
    hide Inv, Apply, Enabled, AllFrames, Segments;
    var f, i := FrameFor(w, id, nanos), ShardOf(w, id);
    var t := WalApply(max, w, Commit(id, nanos));
    StepInv(max, w.shards[i], Write(f));
    WriteInv(max, w.shards[i], f);
    WriteRecords(max, w.shards[i], f);
    forall j | 0 <= j < |t.shards|
      ensures Striped(t, j)
    {
      assert Striped(w, j);
      var fs := AllFrames(Segments(t.shards[j]));
      forall k | 0 <= k < |fs|
        ensures fs[k].entryId in t.log && t.log[fs[k].entryId] == fs[k]
      {
      }
    }
  }

  lemma {:induction false} WriteRecords(max: nat, s: State, f: Frame)
    requires Enabled(s, Write(f))
    ensures Apply(max, s, Write(f)).written == s.written + {f.entryId}
  {
  }

  lemma {:induction false} InsideInv(max: nat, w: Wal, i: nat, step: Step)
    requires WalInv(max, w) && WalEnabled(w, Inside(i, step))
    ensures WalInv(max, WalApply(max, w, Inside(i, step)))
  {
    hide Inv, Apply, Enabled, AllFrames, Segments, Partitioned, AsAsked;
    StepInv(max, w.shards[i], step);
    InsideFrames(max, w.shards[i], step);
    var t := WalApply(max, w, Inside(i, step));
    SameBooks(w, t);
    forall j | 0 <= j < |t.shards|
      ensures Striped(t, j)
    {
      assert Striped(w, j);
    }
  }

  lemma {:induction false} SameBooks(w: Wal, t: Wal)
    requires t == w.(shards := t.shards)
    ensures Partitioned(t) == Partitioned(w) && AsAsked(t) == AsAsked(w)
  {
  }

  lemma {:induction false} IdInv(max: nat, w: Wal, st: WalStep)
    requires WalInv(max, w) && WalEnabled(w, st) && (st.Take? || st.Reject?)
    ensures WalInv(max, WalApply(max, w, st))
  {
    hide Inv, AllFrames, Segments;
    var t := WalApply(max, w, st);
    forall j | 0 <= j < |t.shards|
      ensures Striped(t, j)
    {
      assert Striped(w, j);
    }
  }

  lemma {:induction false} WalStepInv(max: nat, w: Wal, st: WalStep)
    requires WalInv(max, w) && WalEnabled(w, st)
    ensures WalInv(max, WalApply(max, w, st))
  {
    hide WalInv, WalApply;
    match st
    case Commit(id, nanos) => CommitInv(max, w, id, nanos);
    case Inside(i, step) => InsideInv(max, w, i, step);
    case _ => IdInv(max, w, st);
  }

  lemma {:induction false} OpenInv(max: nat, n: nat)
    requires n > 0
    ensures WalInv(max, Open(n))
  {
    InitInv(max);
    AllFramesSnoc([], EMPTY);
  }

  lemma {:induction false} WalRunInv(max: nat, w: Wal, steps: seq<WalStep>)
    requires WalInv(max, w) && WalCanRun(max, w, steps)
    ensures WalInv(max, WalRun(max, w, steps))
    decreases steps
  {
    hide Inv, Striped, WalApply, WalEnabled;
    if steps != [] {
      WalStepInv(max, w, steps[0]);
      WalRunInv(max, WalApply(max, w, steps[0]), steps[1..]);
    }
  }

  // ----- the replay tool

  function DecodeAll(files: seq<seq<byte>>): (r: Decoded) {
    if files == [] then Entries([])
    else match Decode(files[0], 0)
      case Entries(es) => Prepend(es, DecodeAll(files[1..]))
      case bad => bad
  }

  /** Where an entry goes in a list sorted by id: after every entry with a smaller or equal
      id, which is what makes the sort stable. */
  function Insert(e: Entry, es: seq<Entry>): (r: seq<Entry>) {
    if es == [] || e.frame.entryId < es[0].frame.entryId then [e] + es
    else [es[0]] + Insert(e, es[1..])
  }

  function SortById(es: seq<Entry>): (r: seq<Entry>) {
    if es == [] then [] else Insert(es[|es| - 1], SortById(es[..|es| - 1]))
  }

  /** The loop of `decode_segments`. */
  method DecodeSegments(files: seq<seq<byte>>) returns (r: Decoded)
    ensures r == match DecodeAll(files)
                 case Entries(es) => Entries(SortById(es))
                 case bad => bad
  {
    hide Decode;
    var out: seq<Entry> := [];
    assert files[0..] == files;
    for i := 0 to |files|
      invariant DecodeAll(files) == Prepend(out, DecodeAll(files[i..]))
    {
      var one := DecodeOneSegment(files[i], out);
      assert files[i..][1..] == files[i + 1..];
      if !one.Entries? {
        return one;
      }
      PrependTwice(out, Decode(files[i], 0).entries, DecodeAll(files[i + 1..]));
      out := one.entries;
    }
    assert files[|files|..] == [] && out + [] == out;
    var sorted := SortedInPlace(out);
    r := Entries(sorted);
  }

  /** `sort_by_key`, as insertion into a growing sorted prefix. */
  method SortedInPlace(es: seq<Entry>) returns (r: seq<Entry>)
    ensures r == SortById(es)
  {
    r := [];
    for i := 0 to |es|
      invariant r == SortById(es[..i])
    {
      assert es[..i + 1][..i] == es[..i];
      r := Insert(es[i], r);
    }
    assert es[..|es|] == es;
  }

  predicate Increasing(es: seq<Entry>) {
    forall i, j :: 0 <= i < j < |es| ==> es[i].frame.entryId <= es[j].frame.entryId
  }

  lemma {:induction false} InsertSorts(e: Entry, es: seq<Entry>)
    requires Increasing(es)
    ensures Increasing(Insert(e, es))
    ensures multiset(Insert(e, es)) == multiset(es) + multiset{e}
  {
    InsertKeeps(e, es);
    if es != [] && e.frame.entryId >= es[0].frame.entryId {
      InsertSorts(e, es[1..]);
      InsertAbove(e, es[1..], es[0].frame.entryId);
      IncreasingCons(es[0], Insert(e, es[1..]));
    }
  }

  lemma {:induction false} InsertKeeps(e: Entry, es: seq<Entry>)
    ensures multiset(Insert(e, es)) == multiset(es) + multiset{e}
  {
    if es != [] && e.frame.entryId >= es[0].frame.entryId {
      InsertKeeps(e, es[1..]);
      assert es == [es[0]] + es[1..];
    }
  }

  lemma {:induction false} InsertAbove(e: Entry, es: seq<Entry>, floor: nat)
    requires e.frame.entryId >= floor && forall x <- es :: x.frame.entryId >= floor
    ensures forall x <- Insert(e, es) :: x.frame.entryId >= floor
  {
    if es != [] && e.frame.entryId >= es[0].frame.entryId {
      InsertAbove(e, es[1..], floor);
    }
  }

  lemma {:induction false} IncreasingCons(e: Entry, es: seq<Entry>)
    requires Increasing(es) && forall x <- es :: e.frame.entryId <= x.frame.entryId
    ensures Increasing([e] + es)
  {
    var r := [e] + es;
    assert forall i :: 0 < i < |r| ==> r[i] == es[i - 1] && es[i - 1] in es;
  }

  lemma {:induction false} SortSorts(es: seq<Entry>)
    ensures Increasing(SortById(es))
    ensures multiset(SortById(es)) == multiset(es)
  {
    if es != [] {
      var init := es[..|es| - 1];
      hide Insert, Increasing;
      SortSorts(init);
      InsertSorts(es[|es| - 1], SortById(init));
      assert es == init + [es[|es| - 1]];
    }
  }

  /** The entries with this id, in order. */
  function WithId(es: seq<Entry>, id: nat): seq<Entry> {
    if es == [] then []
    else WithId(es[..|es| - 1], id) + (if es[|es| - 1].frame.entryId == id then [es[|es| - 1]] else [])
  }

  lemma {:induction false} WithIdCons(e: Entry, es: seq<Entry>, id: nat)
    ensures WithId([e] + es, id) == (if e.frame.entryId == id then [e] else []) + WithId(es, id)
  {
    if es == [] {
      assert [e] + es == [e] && [e][..0] == [];
    } else {
      var before := es[..|es| - 1];
      WithIdCons(e, before, id);
      assert ([e] + es)[..|es|] == [e] + before;
    }
  }

  lemma {:induction false} InsertStable(e: Entry, es: seq<Entry>, id: nat)
    requires Increasing(es)
    ensures WithId(Insert(e, es), id) == WithId(es, id) + (if e.frame.entryId == id then [e] else [])
  {
    hide WithId;
    if es == [] || e.frame.entryId < es[0].frame.entryId {
      WithIdCons(e, es, id);
      if e.frame.entryId == id {
        NoneWithId(es, id);
      }
    } else {
      InsertStable(e, es[1..], id);
      WithIdCons(es[0], Insert(e, es[1..]), id);
      WithIdCons(es[0], es[1..], id);
      assert es == [es[0]] + es[1..];
    }
  }

  lemma {:induction false} NoneWithId(es: seq<Entry>, id: nat)
    requires forall x <- es :: x.frame.entryId != id
    ensures WithId(es, id) == []
  {
    if es != [] {
      NoneWithId(es[..|es| - 1], id);
    }
  }

  /** The sort is stable: entries with the same id keep their order. */
  lemma {:induction false} SortStable(es: seq<Entry>, id: nat)
    ensures WithId(SortById(es), id) == WithId(es, id)
  {
    if es != [] {
      hide Insert, Increasing;
      var before, last := es[..|es| - 1], es[|es| - 1];
      SortStable(before, id);
      SortSorts(before);
      InsertStable(last, SortById(before), id);
    }
  }

  /** The logged frames with ids below `n`, in id order. */
  function LogFrames(log: map<nat, Frame>, n: nat): (fs: seq<Frame>) {
    if n == 0 then []
    else LogFrames(log, n - 1) + (if n - 1 in log then [log[n - 1]] else [])
  }

  predicate StrictlyIncreasing(fs: seq<Frame>) {
    forall i, j :: 0 <= i < j < |fs| ==> fs[i].entryId < fs[j].entryId
  }

  predicate Below(fs: seq<Frame>, n: nat) {
    forall k :: 0 <= k < |fs| ==> fs[k].entryId < n
  }

  predicate Covers(log: map<nat, Frame>, fs: seq<Frame>, n: nat) {
    forall id <- log :: id < n ==> id in Ids(fs)
  }

  /** A list of logged frames with strictly increasing ids that misses none below `n` is the
      log in id order. */
  lemma {:induction false} SortedLogIsUnique(log: map<nat, Frame>, fs: seq<Frame>, n: nat)
    requires Logged(log, fs) && StrictlyIncreasing(fs) && Below(fs, n) && Covers(log, fs, n)
    ensures fs == LogFrames(log, n)
    decreases n
  {
    hide Covers, Ids;
    var last := |fs| - 1;
    if n > 0 && fs != [] && fs[last].entryId == n - 1 {
      DropLast(log, fs, n);
      SortedLogIsUnique(log, fs[..last], n - 1);
      assert fs == fs[..last] + [fs[last]];
    } else if n > 0 {
      SkipId(log, fs, n);
      SortedLogIsUnique(log, fs, n - 1);
    }
  }

  lemma {:induction false} DropLast(log: map<nat, Frame>, fs: seq<Frame>, n: nat)
    requires fs != [] && StrictlyIncreasing(fs) && fs[|fs| - 1].entryId == n - 1 && Covers(log, fs, n)
    ensures Below(fs[..|fs| - 1], n - 1) && Covers(log, fs[..|fs| - 1], n - 1)
  {
    var last := |fs| - 1;
    forall id | id in log && id < n - 1
      ensures id in Ids(fs[..last])
    {
      var k :| 0 <= k < |fs| && fs[k].entryId == id;
      assert fs[..last][k] == fs[k];
    }
  }

  lemma {:induction false} SkipId(log: map<nat, Frame>, fs: seq<Frame>, n: nat)
    requires n > 0 && StrictlyIncreasing(fs) && Below(fs, n) && Covers(log, fs, n)
    requires fs != [] ==> fs[|fs| - 1].entryId != n - 1
    ensures Below(fs, n - 1) && Covers(log, fs, n - 1) && n - 1 !in log
  {
    forall k | 0 <= k < |fs|
      ensures fs[k].entryId < n - 1
    {
      assert k < |fs| - 1 ==> fs[k].entryId < fs[|fs| - 1].entryId;
    }
  }

  // ----- sharding is invisible

  function AllSegments(shards: seq<State>): (segs: seq<Segment>) {
    if shards == [] then [] else Segments(shards[0]) + AllSegments(shards[1..])
  }

  function Files(segs: seq<Segment>): (fs: seq<seq<byte>>)
    ensures |fs| == |segs|
  {
    seq(|segs|, i requires 0 <= i < |segs| => segs[i].file)
  }

  predicate Flushed(w: Wal) {
    forall i :: 0 <= i < |w.shards| ==> w.shards[i].buffer == []
  }

  predicate Whole(seg: Segment) {
    AllEncodable(seg.frames) && seg.file == EncodeAll(seg.frames)
  }

  lemma {:induction false} WholeSegments(max: nat, shards: seq<State>)
    requires forall i :: 0 <= i < |shards| ==> Inv(max, shards[i]) && shards[i].buffer == []
    ensures forall k :: 0 <= k < |AllSegments(shards)| ==>
              Whole(AllSegments(shards)[k]) && Fits(max, AllSegments(shards)[k])
  {
    hide EncodeAll, AllEncodable, Fits, Recorded, Targets, CurrentCovered, ClosedCovered;
    if shards != [] {
      WholeSegments(max, shards[1..]);
      var s := shards[0];
      assert s.cur.file + [] == s.cur.file;
      forall k | 0 <= k < |s.closed|
        ensures Whole(s.closed[k]) && Fits(max, s.closed[k])
      {
        assert WellFormed(s.closed[k], []);
        assert s.closed[k].file + [] == s.closed[k].file;
      }
    }
  }

  lemma {:induction false} DecodeWhole(segs: seq<Segment>)
    requires forall k :: 0 <= k < |segs| ==> Whole(segs[k])
    ensures DecodeAll(Files(segs)).Entries?
    ensures EntryFrames(DecodeAll(Files(segs)).entries) == AllFrames(segs)
  {
    hide Decode, EncodeAll, AllEncodable;
    if segs != [] {
      DecodeEncoded(segs[0].frames, 0);
      assert Files(segs)[0] == segs[0].file;
      assert Files(segs)[1..] == Files(segs[1..]);
      DecodeWhole(segs[1..]);
      var es := Decode(segs[0].file, 0).entries;
      var tl := DecodeAll(Files(segs[1..])).entries;
      assert EntryFrames(es + tl) == EntryFrames(es) + EntryFrames(tl);
    }
  }

  /** Frames of the shards from `lo` on: distinct ids, all logged, and none missing. */
  lemma {:induction false} ShardFrames(max: nat, w: Wal, lo: nat)
    requires WalInv(max, w) && lo <= |w.shards|
    ensures var fs := AllFrames(AllSegments(w.shards[lo..]));
            && DistinctIds(fs) && Logged(w.log, fs)
            && forall id :: id in Ids(fs) <==> id in w.log && id % |w.shards| >= lo
    decreases |w.shards| - lo
  {
    hide Inv;
    if lo < |w.shards| {
      ShardFrames(max, w, lo + 1);
      var s := w.shards[lo];
      assert w.shards[lo..][1..] == w.shards[lo + 1..];
      AllFramesAppend(Segments(s), AllSegments(w.shards[lo + 1..]));
      var a, b := AllFrames(Segments(s)), AllFrames(AllSegments(w.shards[lo + 1..]));
      assert Striped(w, lo);
      assert Recorded(s) by { ShardRecorded(max, s); }
      SplitIds(a, b);
    } else {
      assert w.shards[lo..] == [];
      assert forall id :: id % |w.shards| < |w.shards|;
    }
  }

  lemma {:induction false} ShardRecorded(max: nat, s: State)
    requires Inv(max, s)
    ensures Recorded(s)
  {
  }

  predicate Strict(es: seq<Entry>) {
    forall i, j :: 0 <= i < j < |es| ==> es[i].frame.entryId < es[j].frame.entryId
  }

  predicate NewId(e: Entry, es: seq<Entry>) {
    forall x <- es :: x.frame.entryId != e.frame.entryId
  }

  lemma {:induction false} StrictCons(e: Entry, es: seq<Entry>)
    requires Strict(es) && forall x <- es :: e.frame.entryId < x.frame.entryId
    ensures Strict([e] + es)
  {
    var r := [e] + es;
    forall i, j | 0 <= i < j < |r|
      ensures r[i].frame.entryId < r[j].frame.entryId
    {
      assert r[j] == es[j - 1] && r[j] in es;
      assert i > 0 ==> r[i] == es[i - 1];
    }
  }

  lemma {:induction false} StrictTail(es: seq<Entry>)
    requires Strict(es) && es != []
    ensures Strict(es[1..]) && forall x <- es[1..] :: es[0].frame.entryId < x.frame.entryId
  {
  }

  lemma {:induction false} InsertStrict(e: Entry, es: seq<Entry>)
    requires Strict(es) && NewId(e, es)
    ensures Strict(Insert(e, es))
    ensures forall x :: x in Insert(e, es) <==> x == e || x in es
  {
    hide Strict;
    if es == [] {
      StrictCons(e, es);
    } else {
      StrictTail(es);
      assert es == [es[0]] + es[1..];
      if e.frame.entryId < es[0].frame.entryId {
        StrictCons(e, es);
      } else {
        InsertStrict(e, es[1..]);
        StrictCons(es[0], Insert(e, es[1..]));
      }
    }
  }

  /** Sorting entries with distinct ids: strictly increasing, and the same entries. */
  lemma {:induction false} SortStrict(es: seq<Entry>)
    requires DistinctIds(EntryFrames(es))
    ensures Strict(SortById(es))
    ensures forall x :: x in SortById(es) <==> x in es
  {
    hide Insert;
    if es != [] {
      var last := |es| - 1;
      var init := es[..last];
      assert es == init + [es[last]];
      assert EntryFrames(init) == EntryFrames(es)[..last];
      SortStrict(init);
      forall x | x in init
        ensures x.frame.entryId != es[last].frame.entryId
      {
        var k :| 0 <= k < |init| && init[k] == x;
        assert EntryFrames(es)[k].entryId != EntryFrames(es)[last].entryId;
      }
      InsertStrict(es[last], SortById(init));
    }
  }

  lemma {:induction false} SortedHasLogged(log: map<nat, Frame>, es: seq<Entry>, r: seq<Entry>)
    requires Logged(log, EntryFrames(es))
    requires forall x :: x in r <==> x in es
    ensures Logged(log, EntryFrames(r)) && Ids(EntryFrames(r)) == Ids(EntryFrames(es))
  {
    forall i | 0 <= i < |r|
      ensures r[i].frame.entryId in log && log[r[i].frame.entryId] == r[i].frame
      ensures r[i].frame.entryId in Ids(EntryFrames(es))
    {
      assert r[i] in es;
      var k :| 0 <= k < |es| && es[k] == r[i];
      assert EntryFrames(es)[k] == r[i].frame;
    }
    forall i | 0 <= i < |es|
      ensures es[i].frame.entryId in Ids(EntryFrames(r))
    {
      assert es[i] in r;
      var k :| 0 <= k < |r| && r[k] == es[i];
      assert EntryFrames(r)[k] == es[i].frame;
    }
  }

  lemma {:induction false} SortedEntriesAreTheLog(log: map<nat, Frame>, es: seq<Entry>, n: nat)
    requires DistinctIds(EntryFrames(es)) && Logged(log, EntryFrames(es))
    requires forall id <- log :: id in Ids(EntryFrames(es)) && id < n
    ensures EntryFrames(SortById(es)) == LogFrames(log, n)
  {
    hide SortById, LogFrames;
    SortStrict(es);
    SortedHasLogged(log, es, SortById(es));
    var fs := EntryFrames(SortById(es));
    assert Below(fs, n) by {
      forall k | 0 <= k < |fs| ensures fs[k].entryId < n { assert fs[k].entryId in log; }
    }
    SortedLogIsUnique(log, fs, n);
  }

  /** Sharding is invisible to replay: after any run from an empty directory, for any shard
      count, any rollover points and any order in which the shard locks were won, once the
      writers are flushed the tool decodes exactly the appended frames, each once, in id
      order. */
  lemma {:induction false} ReplayIsTheLog(max: nat, n: nat, steps: seq<WalStep>)
    requires n > 0 && WalCanRun(max, Open(n), steps)
    requires Flushed(WalRun(max, Open(n), steps))
    ensures var w := WalRun(max, Open(n), steps);
            var r := DecodeAll(Files(AllSegments(w.shards)));
            && r.Entries?
            && EntryFrames(SortById(r.entries)) == LogFrames(w.log, w.nextId)
  {
    hide WalCanRun, WalRun, DecodeAll, SortById, EncodeAll, Inv, Striped;
    OpenInv(max, n);
    WalRunInv(max, Open(n), steps);
    var w := WalRun(max, Open(n), steps);
    WholeSegments(max, w.shards);
    DecodeWhole(AllSegments(w.shards));
    ShardFrames(max, w, 0);
    assert w.shards[0..] == w.shards;
    SortedEntriesAreTheLog(w.log, DecodeAll(Files(AllSegments(w.shards))).entries, w.nextId);
  }

  /** Each entry replayed carries what its append was called with. */
  lemma {:induction false} ReplayIsAsAsked(max: nat, n: nat, steps: seq<WalStep>, k: nat)
    requires n > 0 && WalCanRun(max, Open(n), steps)
    requires Flushed(WalRun(max, Open(n), steps))
    requires k < |LogFrames(WalRun(max, Open(n), steps).log, WalRun(max, Open(n), steps).nextId)|
    ensures var w := WalRun(max, Open(n), steps);
            var r := DecodeAll(Files(AllSegments(w.shards)));
            && r.Entries? && k < |SortById(r.entries)|
            && var f := SortById(r.entries)[k].frame;
               && f.entryId in w.asked && f.kind == 0
               && f.payload == w.asked[f.entryId].payload && f.durability == w.asked[f.entryId].durability
  {
    hide WalCanRun, WalRun, DecodeAll, SortById, Inv, Striped, LogFrames;
    ReplayIsTheLog(max, n, steps);
    OpenInv(max, n);
    WalRunInv(max, Open(n), steps);
    var w := WalRun(max, Open(n), steps);
    LoggedFrame(w.log, w.nextId, k);
  }

  lemma {:induction false} LoggedFrame(log: map<nat, Frame>, n: nat, k: nat)
    requires k < |LogFrames(log, n)|
    ensures exists id :: id in log && log[id] == LogFrames(log, n)[k]
  {
    if k < |LogFrames(log, n - 1)| {
      LoggedFrame(log, n - 1, k);
    }
  }

  /** If every id taken was committed and the writers are flushed, replay yields entries with
      ids 1, 2, 3, ... up to the last one taken. */
  lemma {:induction false} ReplayIsDense(max: nat, n: nat, steps: seq<WalStep>, k: nat)
    requires n > 0 && WalCanRun(max, Open(n), steps)
    requires var w := WalRun(max, Open(n), steps);
             Flushed(w) && w.pending == map[] && w.rejected == {} && k + 1 < w.nextId
    ensures var w := WalRun(max, Open(n), steps);
            var r := DecodeAll(Files(AllSegments(w.shards)));
            && r.Entries? && |SortById(r.entries)| == w.nextId - 1
            && SortById(r.entries)[k].frame.entryId == k + 1
  {
    hide WalCanRun, WalRun, DecodeAll, SortById, Inv, Striped, LogFrames;
    ReplayIsTheLog(max, n, steps);
    OpenInv(max, n);
    WalRunInv(max, Open(n), steps);
    var w := WalRun(max, Open(n), steps);
    DenseLog(w.log, w.nextId, k);
  }

  lemma {:induction false} DenseLog(log: map<nat, Frame>, n: nat, k: nat)
    requires 0 !in log && (forall id :: 0 < id < n ==> id in log && log[id].entryId == id)
    requires 0 < n && k < n - 1
    ensures |LogFrames(log, n)| == n - 1 && LogFrames(log, n)[k] == log[k + 1]
  {
    if k < n - 2 {
      DenseLog(log, n - 1, k);
    } else if n > 2 {
      DenseLog(log, n - 1, 0);
    } else {
      assert LogFrames(log, 1) == LogFrames(log, 0) + [];
    }
  }
}
