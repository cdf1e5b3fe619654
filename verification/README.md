# Riftgate: verified models of its stateful cores

Riftgate is a gateway in front of LLM backends. This project models the parts of it whose
correctness is about whole runs and proves what they promise. `dafny verify dfyconfig.toml`
checks everything.

| files | part of the gateway |
|---|---|
| `Frames.dfy`, `WalShard.dfy`, `WalAppends.dfy`, `WalDurability.dfy`, `WalReplay.dfy` | the group-commit write-ahead log: frame codec, the protocol between appenders and flusher, crashes, and the replay tool |
| `AliasTable.dfy`, `AliasWords.dfy`, `P2.dfy`, `PrefixTrie.dfy`, `Breaker.dfy`, `HedgeBudget.dfy`, `Routing.dfy`, `Probes.dfy`, `RouterStack.dfy`, `ProbeCeiling.dfy`, `WeightedShares.dfy` | the routing stack: weighted choice, hedging, KV affinity and circuit breaking, composed as `crates/riftgate/src/main.rs:125-128` composes them |
| `TokenBucket.dfy` | the per-subject rate limiter, a compare-and-swap loop on one packed word |
| `SseFramer.dfy` | the streaming parser of server-sent events |
| `Timers.dfy` | timers with lazy cancellation |
| `Reservoir.dfy`, `ReservoirSubsets.dfy` | Algorithm R sampling |
| `Allowlist.dfy` | per-tenant tool and resource capabilities |
| `Scheduler.dfy` | the sharded task scheduler and its drain on shutdown |
| `Basics.dfy` | what the others share |

## How the parts are modelled

Objects that the gateway updates in place are classes whose methods are proved against a
function or relation of the old state; the theorems are then about that function. Protocols
with several threads (one WAL shard, the token bucket, the scheduler) are state machines: an
`Enabled` predicate and an `Apply` function for each atomic step, `Run` for a sequence of
steps, an invariant kept by every step, and theorems over every run. Some states carry
history that the program does not have (what was written, synced, accepted, stranded). Steps
read it in one place only, the guard that a written id is new, and `CommitNeverBlocked` shows
that this guard never stops an append. Clock readings, random words, the chopping of reads and the outcome of I/O
are parameters or steps, so every theorem holds for all of them. `f64` is `real`. Integer
widths are written out where the code depends on them: the u32 millisecond clock and the u64
product of the token bucket, the packed words, u32 payload lengths, the u64 sums of the alias
table, the wrapping cursor of the scheduler.

## Where the code and its description differ

- `Durability::FdataSync` promises an entry is on disk when `append` returns. The id is taken
  before the shard lock and rollover flushes without syncing, so this holds under two
  conditions, each shown to be needed (`LateWriteCanBeLost`, `DirtyRolloverCanBeLost`);
  `AckedSurvivesIff` gives the exact condition.
- `append` accepts payloads up to 4 GiB while the recovery parser stops at the first one over
  16 MiB (`RoundTripIff`). The replay tool has no ceiling.
- The token bucket reads its clock before the loop, so a late swap can credit almost a full
  clock wrap (`StaleSwapFindsFullBucket`, `StaleClockOverspends`). The rate bound itself holds
  for every rate, since a wrapped product only refills less.
- Retry-After is given for costs above the burst too, which are never admitted
  (`RetryAfterHonestIff`).
- The SSE framer departs from section 9.2.6 of the WHATWG HTML standard on empty leading data
  lines, on data lines without a colon, on events with empty data and on bare CR
  (`DispatchesAsStandardIff`, `LinesAsStandardIff`). Its module comment promises an error on bare
  CR (`crates/riftgate-parser/src/sse.rs:29`), which the code does not raise.
- The prefix index of the allowlist is described as a prefix match over the list; it misses
  URIs as soon as one configured prefix extends another (`ExactIff`, `StarIsShadowed`). All
  trailing stars of a pattern are stripped, not one.
- The P² prediction subtracts the left slope's term where the published formula adds it
  (`PredictionBySlopes`).
- `next_deadline` is described as the earliest deadline; it returns that of some live timer,
  and the earliest as long as the least heap entry is not cancelled (`LateDeadline`).
- The hedge budget is described as a cap on the fraction of decisions; it can be exceeded by
  less than one hedge (`MaximumCanBeExceeded`, `CappedThroughoutIff`).
- `half_open_max` is described as the maximum number of concurrent probes; decisions that hedge
  through a half-open backend are not counted (`HedgePastCeiling`, and `CeilingIsKept` for when
  this cannot happen). Today the proxy answers a hedge with 500 and sends nothing
  (`crates/riftgate/src/proxy.rs:224-229`).
- A probe whose upstream call fails or times out is never reported back
  (`crates/riftgate/src/proxy.rs:316-335`), so a spent probe budget can stay spent for good
  (`SpentUntilAnswered`).
- A submit that overlaps shutdown can be accepted and lost, and a panicking task takes its
  worker and its queue with it (`LateSubmitIsLost`, `PanicStrands`).

## Model

| member | source | states |
|---|---|---|
| `WalDurability.CrashRecovery` | crates/riftgate-replay/src/file_wal.rs:233-301 | In every interleaving of appenders and flusher with lock order = id order and no rollover between a write and its sync, stopped anywhere, each FdataSync (tag 1) or Fsync (tag 2) append that neither waits nor was told of the shutdown, so has returned Ok, is parsed back from every byte image a crash can leave, if no frame up to it is over the parser ceiling |
| `WalDurability.WrittenIsSomewhere` | crates/riftgate-replay/src/file_wal.rs:265-275 | In every run each id written stands in some segment |
| `WalAppends.EveryAppendAccounted` | crates/riftgate-replay/src/file_wal.rs:283-299 | In every run an append with tag 1 or 2 waits, has returned Ok or was told of the shutdown, and only one of these; one with tag 0 never waits; none is told of a shutdown that has not begun |
| `WalAppends.RunAccounted` | crates/riftgate-replay/src/file_wal.rs:283-299 | The same as an invariant of every run |
| `WalAppends.RollsOnlyForRoom` | crates/riftgate-replay/src/file_wal.rs:250-263 | In every run a segment is left only for a frame that would have taken it over segment_size_max |
| `WalDurability.ExitLeavesNothing` | crates/riftgate-replay/src/file_wal.rs:345-353 | With lock order = id order, when the flusher exits on shutdown the writer is empty and the whole current segment is on disk |
| `WalDurability.ShutdownDrains` | crates/riftgate-replay/src/file_wal.rs:345-381 | A run in which, after the shutdown and a failed sync, the flusher syncs what is buffered, the append returns Ok and the flusher exits |
| `WalDurability.ShutdownAbandons` | crates/riftgate-replay/src/file_wal.rs:287-297 | A run in which an append is told of the shutdown before its entry is durable |
| `WalDurability.AckedSurvivesIff` | crates/riftgate-replay/src/file_wal.rs:250-301 | Every acknowledged entry survives every crash if and only if rollover did not close its segment over unsynced bytes of it, it was not written late into the current segment with no sync since, and every frame up to it is within the ceiling |
| `WalDurability.SurvivesIff` | crates/riftgate-replay/src/frame.rs:68-110 | A written frame is returned after every crash if and only if it is wholly synced and no frame up to it is oversized |
| `WalDurability.RecoveredIsPrefix` | crates/riftgate-replay/src/frame.rs:68-133 | Whatever prefix of the file a crash leaves, the frames returned are a prefix of those written, whatever their sizes; and nothing but frames is returned if all are within the ceiling |
| `WalDurability.Watermark` | crates/riftgate-replay/src/file_wal.rs:342-394 | With lock order = id order, across any number of rollovers, every entry at or below last_durable is wholly out of the writer and in its own segment file |
| `WalDurability.DurableNeverDecreases` | crates/riftgate-replay/src/file_wal.rs:367-376 | last_durable never goes down in any run, with no hypothesis on id order |
| `WalDurability.InOrderNeverLate` | crates/riftgate-replay/src/file_wal.rs:234-248 | When ids reach the shard lock in order no entry is ever at or below a finished sync target without being covered by it |
| `WalDurability.CleanRollsNeverTear` | crates/riftgate-replay/src/file_wal.rs:253-263 | When each rollover finds its segment synced no entry is ever closed over unsynced |
| `WalDurability.LateWriteCanBeLost` | crates/riftgate-replay/src/file_wal.rs:283-299 | From any reachable state a durable write at or below the finished target can be acknowledged at once while a crash still loses it: the id-order hypothesis is needed |
| `WalDurability.DirtyRolloverCanBeLost` | crates/riftgate-replay/src/file_wal.rs:253-263 | From any reachable state with a running flusher, wherever it is in its cycle, a rollover over a waiting append's unsynced frame can be followed by that append returning Ok while a crash still loses it: the clean-rollover hypothesis is needed |
| `WalDurability.LateWriteLostFromStart` | crates/riftgate-replay/src/file_wal.rs:234-248 | A run from an empty shard, for every segment size, in which entry 2 overtakes entry 1 and entry 1 is then acknowledged with nothing of it on disk |
| `WalDurability.DirtyRolloverLostFromStart` | crates/riftgate-replay/src/file_wal.rs:253-263 | A run from an empty shard, in id order and for every segment size below 4 GiB, in which an entry is acknowledged after rollover closed its segment unsynced |
| `WalDurability.CycleAcknowledges` | crates/riftgate-replay/src/file_wal.rs:342-376 | One flusher cycle acknowledges every waiter at or below last_buffered and leaves closed segments untouched |
| `WalDurability.FinishAcknowledges` | crates/riftgate-replay/src/file_wal.rs:287-298 | A waiter at or below a finished target can return Ok with no further write or sync |
| `WalShard.StepInv` | crates/riftgate-replay/src/file_wal.rs:233-301 | Every critical section keeps the shard invariant: files plus buffer are exactly the frames written, each frame in one segment once, segments over the size ceiling hold a single frame, exactly the torn frames of closed segments reach past the synced part |
| `WalShard.RunInv` | crates/riftgate-replay/src/file_wal.rs:339-394 | The same for every run of appenders, flusher, failing syncs, spills, abandoned waits and shutdown |
| `WalShard.WriteInv` | crates/riftgate-replay/src/file_wal.rs:248-275 | A locked append keeps the invariant, with or without rollover |
| `WalShard.RolledInv` | crates/riftgate-replay/src/file_wal.rs:253-263 | Rollover keeps the invariant and leaves an empty current segment |
| `WalShard.FlushInv` | crates/riftgate-replay/src/file_wal.rs:385-394 | Flush and sync keep the invariant |
| `WalFile.Shard.constructor` | crates/riftgate-replay/src/file_wal.rs:148-191 | A shard opened on an empty directory stands for the initial state of the protocol |
| `WalFile.Shard.Append` | crates/riftgate-replay/src/file_wal.rs:248-299 | The fields after append, up to its wait, stand for the protocol state after a write of that very frame; it returns at once exactly for tag 0 and parks the caller otherwise |
| `WalFile.Shard.PickTarget` | crates/riftgate-replay/src/file_wal.rs:342-365 | The flusher picks a target exactly when the protocol lets it, and that target is last_buffered |
| `WalFile.Shard.DoFlush` | crates/riftgate-replay/src/file_wal.rs:385-394 | Flushing and syncing the writer is the protocol's flush step |
| `WalFile.Shard.Publish` | crates/riftgate-replay/src/file_wal.rs:372-376 | Publishing the target is the protocol's publish step |
| `WalFile.Shard.MayReturn` | crates/riftgate-replay/src/file_wal.rs:287-298 | A parked append may return Ok exactly when last_durable has reached its id |
| `WalFile.WriteFields` | crates/riftgate-replay/src/file_wal.rs:250-275 | What a write does to files, buffer and segment length, with and without rollover |
| `WalReplay.ReplayIsTheLog` | crates/riftgate-replay/src/bin/riftgate-replay.rs:206-214 | After any run from an empty directory, for any shard count, rollover points and lock order, once the writers are flushed decoding all segments and sorting by id gives exactly the committed frames, each once, in id order |
| `WalReplay.ReplayIsAsAsked` | crates/riftgate-replay/src/bin/riftgate-replay.rs:206-214 | Each entry replayed carries the payload and durability tag its append was called with, and kind 0 |
| `WalReplay.ReplayIsDense` | crates/riftgate-replay/src/file_wal.rs:234 | In every flushed run in which each id taken was committed, replay yields ids 1, 2, 3, ... up to the last one taken, none missing |
| `WalReplay.CommitNeverBlocked` | crates/riftgate-replay/src/file_wal.rs:245-248 | An append that has its id can be written whenever it gets the lock if its payload is below 4 GiB, and is refused otherwise |
| `WalReplay.WholeSegments` | crates/riftgate-replay/src/file_wal.rs:250-275 | Every segment file of a flushed WAL is a concatenation of whole frames and exceeds the ceiling only with a single frame |
| `WalReplay.WalStepInv` | crates/riftgate-replay/src/file_wal.rs:193-301 | Taking an id, committing or rejecting it, and any step inside a shard keep the multi-shard invariant: every id taken is logged, pending or rejected and only one of these, and each logged one is on the shard it maps to and nowhere else |
| `WalReplay.WalRunInv` | crates/riftgate-replay/src/file_wal.rs:193-301 | The same over every run |
| `WalReplay.DecodeSegments` | crates/riftgate-replay/src/bin/riftgate-replay.rs:206-214 | The decode loop over files returns all their entries sorted by id, or the first failure |
| `WalReplay.SortedInPlace` | crates/riftgate-replay/src/bin/riftgate-replay.rs:212 | The sort as it runs computes the specified sort |
| `WalReplay.SortSorts` | crates/riftgate-replay/src/bin/riftgate-replay.rs:212 | The sort gives non-decreasing ids and a permutation of the entries |
| `WalReplay.SortStable` | crates/riftgate-replay/src/bin/riftgate-replay.rs:212 | Entries with the same id keep their order |
| `WalReplay.SortStrict` | crates/riftgate-replay/src/bin/riftgate-replay.rs:212 | With distinct ids the sort is strictly increasing and keeps exactly the same entries |
| `Frames.RoundTripIff` | crates/riftgate-replay/src/frame.rs:68-110 | Parsing the encoding of any frames gives them back if and only if none has a payload over 16777216 bytes |
| `Frames.FrameLayout` | crates/riftgate-replay/src/file_wal.rs:265-273 | The frame byte by byte: little-endian length in bytes 0 to 3, tag in 4, kind in 5, timestamp in 6 to 13, entry id in 14 to 21, then the payload |
| `Frames.ParseEncodedThen` | crates/riftgate-replay/src/frame.rs:68-110 | Parsing frames followed by any tail gives those frames and then what the tail parses to |
| `Frames.ParseHead` | crates/riftgate-replay/src/frame.rs:80-106 | A whole leading frame is returned, or reported as oversized when its payload exceeds the ceiling |
| `Frames.ReencodeIsPrefix` | crates/riftgate-replay/src/frame.rs:68-110 | On arbitrary bytes, re-encoding the parsed frames gives a prefix of the input |
| `Frames.TruncationIsPrefix` | crates/riftgate-replay/src/frame.rs:68-133 | Parsing a truncation gives a prefix of parsing the whole |
| `Frames.ErrorOnlyLast` | crates/riftgate-replay/src/frame.rs:82-97 | An error can only be the last item reported |
| `Frames.DecodeEncoded` | crates/riftgate-replay/src/bin/riftgate-replay.rs:249-299 | The strict decoder returns every frame of a whole segment, of any payload size |
| `Frames.DecodeIsExact` | crates/riftgate-replay/src/bin/riftgate-replay.rs:249-299 | It succeeds only on bytes that are exactly a concatenation of frames |
| `Frames.DecodeTorn` | crates/riftgate-replay/src/bin/riftgate-replay.rs:256-282 | A torn last frame is a truncated header below 22 bytes, and otherwise a truncated payload reported at the offset of its frame |
| `Frames.DecodeOffsets` | crates/riftgate-replay/src/bin/riftgate-replay.rs:284-295 | Each reported offset is where that entry's bytes begin |
| `Bytes.LeRoundTrip` | crates/riftgate-replay/src/file_wal.rs:267-271 | Little-endian fields decode to the value encoded |
| `Bytes.LeDigit` | crates/riftgate-replay/src/file_wal.rs:267-271 | Byte i is the i-th base-256 digit of the value, lowest first |
| `Bytes.LeBytesOfValue` | crates/riftgate-replay/src/frame.rs:80-104 | Little-endian decoding loses nothing: re-encoding gives the same bytes |
| `FrameReader.Reader.ReadExactOrEof` | crates/riftgate-replay/src/frame.rs:114-133 | However reads are chopped, the buffer is filled exactly when enough bytes are left, and end of file is reported exactly when none is |
| `FrameReader.TryParseFrames` | crates/riftgate-replay/src/frame.rs:68-110 | The parsing loop, for every chopping of reads, computes the recursive parse |
| `FrameReader.DecodeOneSegment` | crates/riftgate-replay/src/bin/riftgate-replay.rs:249-299 | The strict loop appends exactly the decoded entries to its output, or fails as specified |
| `AliasTable.Build` | crates/riftgate-router/src/weighted.rs:127-191 | For all positive u32 weights of up to 32 entries, repeats included, every backend's mass is its exact share of the n * 2^24 draws less under one draw per entry naming it and plus at most n - 1, the masses of the configured backends add up to n * 2^24, and each slot names its own entry first |
| `AliasTable.PairAll` | crates/riftgate-router/src/weighted.rs:163-176 | The worklist loop keeps every backend's due share and the total deficit, subtraction never underflows, and one worklist ends empty |
| `AliasTable.BalancedIsFaithful` | crates/riftgate-router/src/weighted.rs:163-184 | When a worklist runs out the table is faithful whichever index the last pair of pops dropped |
| `AliasTable.PairingConserves` | crates/riftgate-router/src/weighted.rs:163-176 | Filling a short slot from a full one moves mass between slots and creates or destroys none, for each backend |
| `AliasTable.PairingKeepsDeficit` | crates/riftgate-router/src/weighted.rs:169-175 | Pairing keeps the summed distance of open slots from full |
| `AliasTable.SettlingAddsLoss` | crates/riftgate-router/src/weighted.rs:177-184 | Settling leftovers at probability one gives each backend at least its due and at most the rounding loss more |
| `AliasTable.LostUnits` | crates/riftgate-router/src/weighted.rs:139-142 | Rounding the shares down loses between 0 and n - 1 units in all |
| `AliasTable.MassCountsDraws` | crates/riftgate-router/src/weighted.rs:211-222 | A backend's mass is exactly the number of (bucket, coin) pairs on which the sampling function yields it |
| `AliasTable.MassesAddUp` | crates/riftgate-router/src/weighted.rs:155-184 | In any table whose slots name configured backends, the masses of those backends, each taken once, add up to every one of the n * 2^24 draws |
| `AliasWords.WordsFollowMass` | crates/riftgate-router/src/weighted.rs:211-222 | Of all 2^64 random words, from each of which the code takes both bucket and coin, those that pick a backend number its mass times 2^40 / n with a relative deviation below n / 2^32 |
| `WeightedShares.SamplesFollowWeights` | crates/riftgate-router/src/weighted.rs:118-222 | For the router built from the weights, the words on which it samples a backend number its mass times 2^40 / n with a relative deviation below n / 2^32, and the mass is the weight's share up to the rounding of the construction |
| `AliasWords.HitsBounded` | crates/riftgate-router/src/weighted.rs:214 | In any stretch of consecutive words with one coin a backend is picked once per yielding bucket and circle, give or take one circle |
| `AliasWords.PairsAreMass` | crates/riftgate-router/src/weighted.rs:214-216 | Each (bucket, coin) pair occurs for 256 high halves, so the pairs over all high halves are 256 times the mass |
| `AliasTable.NoOverflow` | crates/riftgate-router/src/weighted.rs:141 | The scaled product fits u64 |
| `AliasTable.SumWeights` | crates/riftgate-router/src/weighted.rs:128-135 | The total is the sum of the weights, positive and within u64 |
| `AliasTable.ScaleWeights` | crates/riftgate-router/src/weighted.rs:139-142 | Each scaled entry is the floor of its share |
| `AliasTable.Classify` | crates/riftgate-router/src/weighted.rs:144-153 | Each index lands in exactly the list its scaled share belongs to |
| `Reservoir.Uniform` | crates/riftgate-obs/src/token_level/reservoir.rs:36-54 | For every capacity k, stream length n >= k and position i, exactly k out of every n of all draw sequences keep item i |
| `ReservoirSubsets.SubsetUniform` | crates/riftgate-obs/src/token_level/reservoir.rs:36-54 | Of all draw sequences for a stream of n items exactly (n - k)! leave any given set of k positions, whichever set it is |
| `ReservoirSubsets.DrawCount` | crates/riftgate-obs/src/token_level/reservoir.rs:49 | There are n! / k! draw sequences |
| `Reservoir.HeldIsSample` | crates/riftgate-obs/src/token_level/reservoir.rs:36-54 | For every stream and every draws the reservoir holds min(n, k) distinct positions of the stream so far |
| `Reservoir.OneMore` | crates/riftgate-obs/src/token_level/reservoir.rs:43-53 | A newcomer enters on exactly the first k draws; an older item leaves on exactly its own slot's draw |
| `Reservoir.OlderCount` | crates/riftgate-obs/src/token_level/reservoir.rs:43-53 | Of the extensions of the sequences that kept an item, n each keep it |
| `Reservoir.NewcomerCount` | crates/riftgate-obs/src/token_level/reservoir.rs:43-53 | Of the extensions of every sequence, k keep the newcomer |
| `Reservoir.DrawsAreInRange` | crates/riftgate-obs/src/token_level/reservoir.rs:49 | The draw space holds exactly the sequences whose t-th draw is below t |
| `Reservoir.VitterReservoir.Add` | crates/riftgate-obs/src/token_level/reservoir.rs:36-54 | After an addition the items are those of the stream at the positions the specification holds |
| `Reservoir.VitterReservoir.Samples` | crates/riftgate-obs/src/token_level/reservoir.rs:57-59 | A snapshot is the stream's items at exactly the held positions |
| `TokenBucket.RateBound` | crates/riftgate-core/src/rate_limit.rs:309-355 | In every interleaving of loads and compare-and-swaps whose winners carry a clock reading no older than the stamp they replace, the cost admitted between two stored stamps is at most burst plus rate times the time between them, across clock wraps, idle gaps of any length and for every rate |
| `TokenBucket.PaysInWholeTokens` | crates/riftgate-core/src/rate_limit.rs:265-270 | In raw tokens: a bucket of whole tokens pays for a prompt of u tokens, or for one request, if and only if it has them, and then holds exactly so many fewer |
| `TokenBucket.BurstIsSpentExactly` | crates/riftgate-core/src/rate_limit.rs:299-354 | At one instant a full bucket allows exactly burst requests, or burst / u prompts of u tokens, and denies the next |
| `TokenBucket.NewSubjectStartsFull` | crates/riftgate-core/src/rate_limit.rs:299-320 | A new subject starts with burst tokens, or with the most the word can hold; its first check is allowed if and only if it asks no more than the burst and than 65535 tokens |
| `TokenBucket.LostSwap` | crates/riftgate-core/src/rate_limit.rs:337-353 | A swap that finds another word changes nothing; the call retries if it would have been allowed and is over if it was denied |
| `TokenBucket.RetryAfterIsLeast` | crates/riftgate-core/src/rate_limit.rs:272-285 | Retry-After is the floor or the least whole number of milliseconds that covers the deficit at the per-millisecond rate |
| `TokenBucket.BucketTracksIdeal` | crates/riftgate-core/src/rate_limit.rs:322-354 | For rates up to 65536 per second, in every run whose stored readings do not go back and leave no gap of a full clock wrap, the fixed-point bucket never holds more than a rational bucket charged the same admitted costs at the same times and falls behind it by at most 1/65536 token for each stored update |
| `TokenBucket.LedgerTracksIdeal` | crates/riftgate-core/src/rate_limit.rs:322-354 | The same for every ledger of exact updates |
| `TokenBucket.ExactRun` | crates/riftgate-core/src/rate_limit.rs:309-355 | In every interleaving, stale clocks included, each stored update leaves exactly the clamped refill of the one before it less what it spent, and a new subject starts full |
| `TokenBucket.RefillIsFloor` | crates/riftgate-core/src/rate_limit.rs:326-330 | Below one wrap and without overflow the refill is the exact accrual rounded down |
| `TokenBucket.LedgerBound` | crates/riftgate-core/src/rate_limit.rs:309-355 | The same with the tokens left included, for every ledger of paid swaps |
| `TokenBucket.RunInv` | crates/riftgate-core/src/rate_limit.rs:309-355 | Every such run keeps the packed word equal to the last stored event and every event paid for |
| `TokenBucket.StepInv` | crates/riftgate-core/src/rate_limit.rs:322-354 | One step of one caller keeps it |
| `TokenBucket.SwapIsPaid` | crates/riftgate-core/src/rate_limit.rs:322-354 | A winning swap spends no more than what was left plus what the elapsed time earned |
| `TokenBucket.RefillAtMostEarned` | crates/riftgate-core/src/rate_limit.rs:326-330 | The refill never exceeds what true time earns, across clock wraps and a wrapped u64 product |
| `TokenBucket.EarnedAdds` | crates/riftgate-core/src/rate_limit.rs:327-329 | Floors add up: two waits earn together at least what they earn apart |
| `TokenBucket.CreditHonestIff` | crates/riftgate-core/src/rate_limit.rs:311-326 | An attempt credits no more time than has passed if and only if its reading is not older than the stamp, or older by whole wraps |
| `TokenBucket.ProductFitsIff` | crates/riftgate-core/src/rate_limit.rs:327-329 | The u64 product fits for every elapsed time if and only if the rate is at most 65536 per second |
| `TokenBucket.StaleSwapFindsFullBucket` | crates/riftgate-core/src/rate_limit.rs:311-330 | A swap with a reading older than the stamp by up to half a wrap finds a full bucket, whatever was left |
| `TokenBucket.StaleClockOverspends` | crates/riftgate-core/src/rate_limit.rs:311-354 | A run of two calls with a stale reading admits more than the bound: the clock hypothesis is needed |
| `TokenBucket.RetryAfterHonestIff` | crates/riftgate-core/src/rate_limit.rs:332-346 | After a stored denial the same cost asked alone at any time at least Retry-After later is allowed if and only if it fits the burst |
| `TokenBucket.WaitCoversDeficit` | crates/riftgate-core/src/rate_limit.rs:272-285 | Waiting out Retry-After refills the deficit despite both roundings |
| `TokenBucket.UnpackPack` | crates/riftgate-core/src/rate_limit.rs:288-297 | Unpacking a packed word gives back the clamped tokens and the stamp |
| `Sse.StreamingRefinement` | crates/riftgate-parser/src/sse.rs:114-188 | For every byte string and every chopping into feeds the events are those of the declarative parse: split on LF, strip one CR, group by blank lines, join data payloads, stop at the sentinel or the first line over 1 MiB |
| `Sse.DataLines` | crates/riftgate-parser/src/sse.rs:237-254 | The line data: with or without one space contributes exactly the payload after it; comments, other fields and lines without a colon contribute nothing |
| `Sse.JoinedByLineFeed` | crates/riftgate-parser/src/sse.rs:250-253 | Data lines are joined by one line feed |
| `Sse.SentinelEndsStream` | crates/riftgate-parser/src/sse.rs:146-150 | The bytes of data: [DONE] and a blank line, in any chopping, give exactly the end event |
| `Sse.LongLineFails` | crates/riftgate-parser/src/sse.rs:164-171 | Text without a line feed gives an error exactly when it exceeds 1048576 bytes |
| `Sse.ChoppingIsInvisible` | crates/riftgate-parser/src/sse.rs:114-188 | Feeding pieces is feeding their concatenation, in any state |
| `Sse.FeedTwice` | crates/riftgate-parser/src/sse.rs:114-188 | Two feeds are one feed of both |
| `Sse.FeedIsLineEvents` | crates/riftgate-parser/src/sse.rs:138-173 | The byte machine emits what a line-by-line reading emits |
| `Sse.LinesAreGroups` | crates/riftgate-parser/src/sse.rs:138-173 | Line-by-line reading emits what the grouped parse emits |
| `Sse.GroupSnoc` | crates/riftgate-parser/src/sse.rs:225-255 | Processing one more line changes the payload as adding the line to its group does |
| `Sse.BytesSeenCounts` | crates/riftgate-parser/src/sse.rs:152-157 | bytes_seen grows by exactly the length of the tokens emitted |
| `Sse.DispatchesAsStandardIff` | crates/riftgate-parser/src/sse.rs:225-255 | A group of raw lines is dispatched as section 9.2.6 of the WHATWG HTML standard dispatches it if and only if it has no data field, or none of its data lines lacks the colon and the first has a value |
| `Sse.DataAsStandardIff` | crates/riftgate-parser/src/sse.rs:225-255 | A line is read as section 9.2.6 reads it, name before the first colon and value after it less one space, if and only if it is not the bare field name |
| `Sse.EmptyEventIsDropped` | crates/riftgate-parser/src/sse.rs:146 | A lone empty data line is an event for the standard and none for the framer |
| `Sse.LinesAsStandardIff` | crates/riftgate-parser/src/sse.rs:138-144 | Splitting on LF and stripping one CR gives the lines of the standard if and only if every CR is followed by an LF |
| `Sse.StreamAsStandard` | crates/riftgate-parser/src/sse.rs:114-188 | For a whole stream in any chopping, with no bare CR, no line over the ceiling and every group dispatched as the standard does, the payloads emitted are those of the standard up to the sentinel |
| `Sse.SseFramer.Feed` | crates/riftgate-parser/src/sse.rs:114-188 | A feed changes the fields and returns events as the byte machine does; a tripped cancellation yields one final event; after an end nothing is emitted |
| `Sse.SseFramer.TakeByte` | crates/riftgate-parser/src/sse.rs:138-173 | One byte, with output ranges resolved in the output buffer, is one step of the machine |
| `Sse.SseFramer.Reset` | crates/riftgate-parser/src/sse.rs:190-196 | Reset gives a fresh framer |
| `Timers.DueIsExact` | crates/riftgate-core/src/timers.rs:198-211 | A tick owes exactly the live timers at or past their deadline, each once, in (deadline, id) order |
| `Timers.FiresAtMostOnce` | crates/riftgate-core/src/timers.rs:181-211 | Over every run each timer fires at most once, never after a true cancel, and is never live again |
| `Timers.ApplyExclusive` | crates/riftgate-core/src/timers.rs:181-211 | One operation keeps live, fired and cancelled timers apart |
| `Timers.BinaryHeapTimers.ScheduleTimer` | crates/riftgate-core/src/timers.rs:181-187 | Scheduling adds a fresh id to the live map; heap ids stay the disjoint union of callbacks and cancelled ids |
| `Timers.BinaryHeapTimers.CancelTimer` | crates/riftgate-core/src/timers.rs:189-196 | Cancel is true exactly for a live timer, removes it and nothing else, and leaves at most the configured fraction of the heap cancelled |
| `Timers.BinaryHeapTimers.TickTo` | crates/riftgate-core/src/timers.rs:198-211 | A tick runs exactly the callbacks owed, in order, and keeps exactly the timers with later deadlines |
| `Timers.BinaryHeapTimers.MaybeCompact` | crates/riftgate-core/src/timers.rs:148-157 | Compaction leaves the live timers alone and cancelled entries within the ratio |
| `Timers.AllowanceIs` | crates/riftgate-core/src/timers.rs:153 | The number of cancelled entries allowed is the ratio times the heap size, rounded down |
| `Timers.BinaryHeapTimers.Compact` | crates/riftgate-core/src/timers.rs:159-171 | The rebuilt heap holds the live entries and nothing cancelled |
| `Timers.BinaryHeapTimers.Len` | crates/riftgate-core/src/timers.rs:213-217 | The length is the number of live timers |
| `Timers.BinaryHeapTimers.NextDeadline` | crates/riftgate-core/src/timers.rs:219-229 | None exactly when nothing is live; otherwise the deadline of some live timer, the earliest if the least entry of the heap is not cancelled |
| `Timers.LateDeadline` | crates/riftgate-core/src/timers.rs:219-229 | Four timers scheduled and the first cancelled, at the default ratio: within the ratio, and the array that the pushes leave answers deadline 3 while one with 2 is live |
| `P2.StreamTracks` | crates/riftgate-router/src/hedged.rs:105-180 | Over every stream heights stay sorted, positions strictly increase from 0 to count - 1, desired positions are exact, and the outer markers are the exact minimum and maximum |
| `P2.ObserveTracks` | crates/riftgate-router/src/hedged.rs:117-180 | One observation keeps all of that, so no division is by zero |
| `P2.PositionsCount` | crates/riftgate-router/src/hedged.rs:132-148 | An observation moves exactly the inner markers whose height is above it by one, the last marker always and the first never |
| `P2.MovesTowardsWant` | crates/riftgate-router/src/hedged.rs:154-176 | A marker moves by one towards its desired position exactly when it is at least one off and the neighbour on that side is at least two away; otherwise its height stays |
| `P2.MovedHeight` | crates/riftgate-router/src/hedged.rs:166-174 | A moved marker takes the prediction if that is strictly between its neighbours, and otherwise goes along the straight line to the neighbour it moves towards |
| `P2.PredictionBySlopes` | crates/riftgate-router/src/hedged.rs:160-165 | The prediction in terms of the slopes on both sides: the left term is subtracted, where the published formula adds it |
| `P2.FirstQuantileIsMedian` | crates/riftgate-router/src/hedged.rs:118-130 | The first quantile reported is the median of the first five observations |
| `P2.QuantileInRange` | crates/riftgate-router/src/hedged.rs:182-188 | A quantile is reported exactly from the fifth observation and lies between two observed values |
| `P2.MarkersStayNear` | crates/riftgate-router/src/hedged.rs:145-177 | Over every stream, for p in [0, 1], each marker stays within a constant of its desired position; the reported one is at most two ahead of p * (count - 1) and at most three behind |
| `P2.ObserveNear` | crates/riftgate-router/src/hedged.rs:145-177 | One observation keeps those bounds |
| `P2.AdjustNear` | crates/riftgate-router/src/hedged.rs:154-177 | After its adjustment a marker is within one position of what its neighbours allow: it could move, or a neighbour stands next to it |
| `P2.HeightBetween` | crates/riftgate-router/src/hedged.rs:161-173 | Guarded parabola or linear fallback, the new height lies between its neighbours |
| `P2.AdjustOrdered` | crates/riftgate-router/src/hedged.rs:154-177 | Adjusting one marker keeps the heights sorted |
| `P2.SortSorts` | crates/riftgate-router/src/hedged.rs:124-125 | The sort of the first five gives a sorted permutation |
| `P2.P2Estimator.constructor` | crates/riftgate-router/src/hedged.rs:106-115 | A new estimator has observed nothing |
| `P2.P2Estimator.ObserveOne` | crates/riftgate-router/src/hedged.rs:117-180 | The array updates compute the specified observation |
| `P2.P2Estimator.Collect` | crates/riftgate-router/src/hedged.rs:118-130 | So do the first five |
| `P2.P2Estimator.SortHeights` | crates/riftgate-router/src/hedged.rs:124-125 | The heights are sorted in place |
| `P2.P2Estimator.PlaceMarkers` | crates/riftgate-router/src/hedged.rs:126-127 | Positions and desired positions start as specified |
| `P2.P2Estimator.LocateCell` | crates/riftgate-router/src/hedged.rs:132-143 | The extremes are widened and the cell found as specified, of which PositionsCount says what it means |
| `P2.P2Estimator.ShiftAbove` | crates/riftgate-router/src/hedged.rs:146-148 | Positions above the cell move by one |
| `P2.P2Estimator.AdvanceWanted` | crates/riftgate-router/src/hedged.rs:149-151 | Each desired position advances by its increment |
| `P2.P2Estimator.AdjustAll` | crates/riftgate-router/src/hedged.rs:154-177 | The marker loop is three single adjustments in order |
| `P2.P2Estimator.AdjustOne` | crates/riftgate-router/src/hedged.rs:154-176 | The loop body is one adjustment |
| `Trie.LookupInsert` | crates/riftgate-router/src/kv_aware.rs:115-123 | Insertion changes the value at its own path and nowhere else |
| `Trie.InsertHolds` | crates/riftgate-router/src/kv_aware.rs:115-123 | Insertion is map update, and the key is new exactly when no value was there |
| `Trie.LongestSnoc` | crates/riftgate-router/src/kv_aware.rs:125-140 | The running best is the longest match of the hashes walked |
| `Trie.PrefixTrie.constructor` | crates/riftgate-router/src/kv_aware.rs:97-103 | A new trie records nothing |
| `Trie.PrefixTrie.Insert` | crates/riftgate-router/src/kv_aware.rs:105-123 | The path gets the backend; below the capacity every other path keeps its value or absence, at the capacity every other path is forgotten; the count is the number of keys and at most max(cap, 1) |
| `Trie.LastInsertIsHeld` | crates/riftgate-router/src/kv_aware.rs:105-123 | Over every run of insertions in which the trie was never full, each nonempty path holds exactly the value last inserted there |
| `Trie.RecordedMeans` | crates/riftgate-router/src/kv_aware.rs:106-122 | The same as Insert, for the map that the routers speak of |
| `Trie.PrefixTrie.FindLongest` | crates/riftgate-router/src/kv_aware.rs:125-140 | The value at the longest recorded nonempty prefix, or none if none is recorded |
| `Breaker.WordDecodes` | crates/riftgate-router/src/circuit.rs:118-124 | For every monotone history the packed word is Closed with the length of the current failure run, below the threshold, or Open or HalfOpen with a clear counter and a stamp |
| `Breaker.TripsAtThreshold` | crates/riftgate-router/src/circuit.rs:250-259 | A closed breaker opens on exactly the failure that makes the run as long as the threshold, stamped with that time |
| `Breaker.OpenLasts` | crates/riftgate-router/src/circuit.rs:194-211 | While less than the reset timeout has passed nothing changes an open breaker |
| `Breaker.OpenIgnoresOutcomes` | crates/riftgate-router/src/circuit.rs:272-275 | An outcome never changes an open breaker, whenever it arrives |
| `Breaker.HalfOpensAfterTimeout` | crates/riftgate-router/src/circuit.rs:194-211 | An open breaker has a stamp, and the first route at or after the timeout half-opens it with no probe counted |
| `Breaker.ProbeSettles` | crates/riftgate-router/src/circuit.rs:263-271 | The first answered probe reopens the breaker from now or closes it with a clear counter |
| `Probes.ProbesAddUp` | crates/riftgate-router/src/circuit.rs:311-320 | In every sound run the decisions that name a backend since it became half-open are those counted against its budget plus those that hedge with it as primary |
| `Probes.ProbeCeilingIff` | crates/riftgate-router/src/circuit.rs:225-232 | half_open_max bounds those decisions if and only if the hedges fit in what the counted ones leave; the counter is exact if and only if there is none |
| `RouterStack.CeilingIsKept` | crates/riftgate-router/src/circuit.rs:225-232 | In every run of the stack half_open_max bounds the decisions that name a half-open backend if there is no hedge budget, the pool has one backend or there is no probe budget |
| `ProbeCeiling.HedgePastCeiling` | crates/riftgate-router/src/circuit.rs:311-320 | For every other configuration of the four routers and every n, calls on the stack so built make n decisions that name a half-open backend with none counted: the condition before is exact |
| `ProbeCeiling.HedgeOne` | crates/riftgate-router/src/hedged.rs:287-330 | A request that finds its first sample half-open and slow, and room in the budget, is hedged through it to the first other pool member |
| `ProbeCeiling.SendOne` | crates/riftgate-router/src/weighted.rs:232-260 | A request that finds its first sample closed and unknown is sent to it |
| `Probes.HedgesAreUncounted` | crates/riftgate-router/src/circuit.rs:311-320 | After k sends, enough failures to open the breaker and n hedges at the reset timeout, n decisions name the half-open backend and none is counted |
| `Probes.CeilingWithoutHedges` | crates/riftgate-router/src/circuit.rs:311-320 | In every sound run without hedges the counter is exact, so the ceiling is kept |
| `Probes.LonePoolNeverHedges` | crates/riftgate-router/src/hedged.rs:268-284 | A pool of one backend is never hedged, in any sound run |
| `Probes.NoBudgetNoProbes` | crates/riftgate-router/src/circuit.rs:225-232 | With half_open_max zero no decision ever names a half-open backend |
| `Probes.SpentUntilAnswered` | crates/riftgate-router/src/circuit.rs:213-236 | A half-open backend whose budget is spent stays as it is and is named by no decision until one of its own answers arrives, however many other calls come between |
| `HedgeBudget.NoFraction` | crates/riftgate-router/src/hedged.rs:259-266 | A fraction of zero or less never fires a hedge |
| `StackRuns.StackSafety` | crates/riftgate-router/src/circuit.rs:299-322 | At every routing call of every run a named backend is Closed or HalfOpen with spare budget, a Hedge names two distinct backends the second Closed, and 503 is returned exactly when no pool member is eligible |
| `StackRuns.InflightBounded` | crates/riftgate-router/src/circuit.rs:225-232 | In every run half_open_inflight never exceeds half_open_max |
| `StackRuns.PresentedIffEligible` | crates/riftgate-router/src/circuit.rs:213-236 | A backend is shown as not Open exactly when it is Closed or HalfOpen with spare budget |
| `RouterStack.WeightedRouter.constructor` | crates/riftgate-router/src/weighted.rs:118-191 | The table is faithful to the weights and names configured backends only |
| `RouterStack.WeightedRouter.Sample` | crates/riftgate-router/src/weighted.rs:211-222 | A sample is a configured backend |
| `RouterStack.WeightedRouter.Route` | crates/riftgate-router/src/weighted.rs:232-274 | The first cool backend among the samples then the pool, else the first admitted one, else 503; 502 on an empty pool |
| `RouterStack.ChosenIsSound` | crates/riftgate-router/src/weighted.rs:224-274 | Such a choice names only admitted pool members, refuses exactly when there is none, is cool if the pool has a cool member, and is a backend with a GPU pressure of at least 0.9 only if every admitted candidate reports one |
| `RouterStack.KvAwareRouter.constructor` | crates/riftgate-router/src/kv_aware.rs:184-193 | A new router has recorded nothing |
| `RouterStack.KvAwareRouter.Route` | crates/riftgate-router/src/kv_aware.rs:215-255 | A closed longest match is sent to and nothing is recorded; otherwise the inner choice is taken and recorded; afterwards the backend sent to is the longest match; each call counts once; decisions stay sound and inside the pool |
| `RouterStack.HedgedRouter.constructor` | crates/riftgate-router/src/hedged.rs:228-238 | A new router has made no decision and heard no duration |
| `HedgeBudget.CappedThroughoutIff` | crates/riftgate-router/src/hedged.rs:259-266 | hedge_max_fraction bounds the hedges all through a run if and only if each promotion left the hedges, itself included, within the fraction of decisions |
| `HedgeBudget.MaximumCanBeExceeded` | crates/riftgate-router/src/hedged.rs:259-266 | With the default fraction and warm-up two slow requests in a row make 2 hedges of 27 decisions, more than 1/20 |
| `HedgeBudget.OvershootBelowOne` | crates/riftgate-router/src/hedged.rs:259-266 | In every run the hedges stay below the fraction of decisions plus one |
| `HedgeBudget.FullDemand` | crates/riftgate-router/src/hedged.rs:259-266 | When every decision would be hedged the hedges are the fraction of decisions rounded up |
| `HedgeBudget.FullDemandCappedIff` | crates/riftgate-router/src/hedged.rs:259-266 | The bound then holds if and only if the fraction of decisions is a whole number |
| `RouterStack.HedgedRouter.PickSecondary` | crates/riftgate-router/src/hedged.rs:268-284 | The first closed pool member other than the primary, or none exactly if there is none |
| `RouterStack.HedgedRouter.MaybeHedge` | crates/riftgate-router/src/hedged.rs:302-329 | Promotes exactly when the warmed-up estimate reaches the floor, a closed second choice exists and the budget has room; a slow request outside the budget is counted as blocked |
| `RouterStack.HedgedRouter.Hedged` | crates/riftgate-router/src/hedged.rs:293-329 | Counts the decision, promotes it as above and keeps it sound; the counters are those of a run of the budget, and a hedge is only taken for a backend with an observed duration at or over the floor |
| `RouterStack.HedgedRouter.Route` | crates/riftgate-router/src/hedged.rs:287-330 | The inner decision, promoted exactly when it should be; over every run of calls hedges stay below fraction * decisions + 1 |
| `RouterStack.HedgedRouter.OnResponse` | crates/riftgate-router/src/hedged.rs:332-344 | Each backend's estimator is the one that has digested exactly the durations observed for it, in order |
| `RouterStack.WantedIsDeserved` | crates/riftgate-router/src/hedged.rs:302-317 | A hedge is wanted only for a backend observed at least five times and through the warm-up, at least once at or over the floor |
| `RouterStack.CircuitBreakerArbiter.constructor` | crates/riftgate-router/src/circuit.rs:170-177 | A new arbiter has an empty history |
| `RouterStack.CircuitBreakerArbiter.EnsureBackend` | crates/riftgate-router/src/circuit.rs:189-192 | Adding a closed entry changes no backend's meaning |
| `RouterStack.CircuitBreakerArbiter.MaybeHalfOpen` | crates/riftgate-router/src/circuit.rs:194-211 | Exactly the timed-out open backend asked about is half-opened |
| `RouterStack.CircuitBreakerArbiter.PrepareBreakers` | crates/riftgate-router/src/circuit.rs:305-308 | The same for each pool member and no other |
| `RouterStack.CircuitBreakerArbiter.BuildSignals` | crates/riftgate-router/src/circuit.rs:213-236 | Each pool member's signal is the caller's with the presented circuit state written in |
| `RouterStack.CircuitBreakerArbiter.PresentStates` | crates/riftgate-router/src/circuit.rs:305-309 | Timed-out breakers are half-opened and each pool member's presented state is written into the caller's signals |
| `RouterStack.CircuitBreakerArbiter.Route` | crates/riftgate-router/src/circuit.rs:299-322 | The decision is safe in the sense of StackSafety and is made by the KV and hedging layers from the presented states; one call is appended to the history, of which the two maps and the hedge counter stay exact images |
| `RouterStack.CircuitBreakerArbiter.Conclude` | crates/riftgate-router/src/circuit.rs:310-321 | A sound decision is safe; recording it keeps the maps, the history and the hedge count in step |
| `RouterStack.CircuitBreakerArbiter.CountProbe` | crates/riftgate-router/src/circuit.rs:311-320 | A Send to a half-open backend counts one probe, nothing else does |
| `RouterStack.CircuitBreakerArbiter.RecordOutcome` | crates/riftgate-router/src/circuit.rs:238-277 | The responding backend alone makes the three-state transition |
| `RouterStack.CircuitBreakerArbiter.OnResponse` | crates/riftgate-router/src/circuit.rs:238-288 | Appends one outcome, a failure if it was not ok or has status 408, 429 or 500 and above, and keeps all of the above |
| `Allowlist.MatchIffUnshadowed` | crates/riftgate-mcp/src/allowlist.rs:134-143 | The sorted index lets a URI through if and only if a listed prefix covers it and no listed string at or below it extends every such prefix without being one |
| `Allowlist.ExactIff` | crates/riftgate-mcp/src/allowlist.rs:134-143 | The index agrees with a linear scan on every URI if and only if no listed prefix properly extends another (no listed prefix ending in U+10FFFF) |
| `Allowlist.IndependentIsExact` | crates/riftgate-mcp/src/allowlist.rs:134-143 | The sufficient half, with no condition on characters |
| `Allowlist.MatchIff` | crates/riftgate-mcp/src/allowlist.rs:134-143 | A URI is let through if and only if no listed extension of its longest listed prefix sorts at or below it |
| `Allowlist.MatchIsGreatestBelow` | crates/riftgate-mcp/src/allowlist.rs:138-142 | The index consults one string alone, the greatest listed one not above the URI; the second test never matters |
| `Allowlist.MatchImpliesPrefix` | crates/riftgate-mcp/src/allowlist.rs:134-143 | A match always comes with a listed prefix |
| `Allowlist.NestedIsMissed` | crates/riftgate-mcp/src/allowlist.rs:134-143 | Any nested pair of prefixes has a covered URI that the index refuses: the last extension of the shorter one with its last character raised by one |
| `Allowlist.StarIsShadowed` | crates/riftgate-mcp/src/allowlist.rs:85-90 | A pattern for everything stops covering "b" once "a*" stands beside it |
| `Allowlist.GrantIff` | crates/riftgate-mcp/src/allowlist.rs:146-153 | The grant lookup is true if and only if the configuration has an unexpired grant for the tool, for every grant list |
| `Allowlist.PolicyHolds` | crates/riftgate-mcp/src/allowlist.rs:225-240 | On every request the compiled form gives the verdict the configuration calls for, with its reason |
| `Allowlist.IndependentPermits` | crates/riftgate-mcp/src/allowlist.rs:134-143 | With independent patterns a resource is permitted exactly when a pattern covers it |
| `Allowlist.PartitionPoint` | crates/riftgate-mcp/src/allowlist.rs:138-149 | Everything before the index passes and nothing from it on does |
| `Allowlist.TrimStars` | crates/riftgate-mcp/src/allowlist.rs:88 | A prefix of the pattern, the rest all stars, itself not ending in one |
| `Allowlist.SortPrefixes` | crates/riftgate-mcp/src/allowlist.rs:90 | A sorted permutation of the prefixes |
| `Allowlist.SortGrants` | crates/riftgate-mcp/src/allowlist.rs:100 | A permutation of the grants sorted by expiry |
| `Allowlist.FromConfig` | crates/riftgate-mcp/src/allowlist.rs:84-108 | The compiled sets, sorted prefixes and sorted grants hold exactly what the configuration lists |
| `Allowlist.AllowlistBroker.constructor` | crates/riftgate-mcp/src/allowlist.rs:175-189 | Every tenant is compiled from its own configuration |
| `Allowlist.AllowlistBroker.Authorize` | crates/riftgate-mcp/src/allowlist.rs:193-218 | The decision is the one the tenant's configuration calls for, or unknown tenant, and one audit record with that decision is appended unless the log write fails |
| `Strings.Interval` | crates/riftgate-mcp/src/allowlist.rs:134-143 | Every string between a prefix of a URI and the URI extends that prefix |
| `Scheduler.DrainRunsEverything` | crates/riftgate/src/scheduler.rs:363-383 | If every submit finishes before the flag is set and no task panics, then once all workers have exited every accepted task has run exactly once, each shard in the order it was filled, and every shard is empty |
| `Scheduler.DrainIff` | crates/riftgate/src/scheduler.rs:317-326 | In every interleaving, once all workers are gone, accepted = executed + stranded, so everything accepted has run if and only if nothing was pushed behind an exited worker or left behind by a panic |
| `Scheduler.Conservation` | crates/riftgate/src/scheduler.rs:225-240 | In every interleaving accepted tasks are queued, running or executed as often as accepted, and submitted ones accepted, dropped or in hand |
| `Scheduler.DroppedOnlyIfAllFull` | crates/riftgate/src/scheduler.rs:229-239 | In every interleaving the step that drops a task finds the last shard at capacity, and the same push found all the others so |
| `Scheduler.SubmitsTakeTurns` | crates/riftgate/src/scheduler.rs:229-230 | In every run the submit after k others starts its walk at shard k mod n, with the cursor wrapping at 2^64 |
| `Scheduler.DrainEnds` | crates/riftgate/src/scheduler.rs:363-383 | With the flag set, interleaved with any submitters, the workers take at most a computed number of steps and two more for each task accepted late, and are stuck exactly when all have exited |
| `Scheduler.OtherStepAdds` | crates/riftgate/src/scheduler.rs:225-240 | A submitter step after the flag leaves the workers at most two more steps, and only if it puts a task on a queue |
| `Scheduler.WorkerStepDescends` | crates/riftgate/src/scheduler.rs:363-383 | Each worker step after the flag uses up that number |
| `Scheduler.StepInv` | crates/riftgate/src/scheduler.rs:225-383 | Every step keeps each shard first-in first-out, within capacity, and the totals equal to the histories |
| `Scheduler.RunInv` | crates/riftgate/src/scheduler.rs:225-383 | The same over every run |
| `Scheduler.OrderlyRun` | crates/riftgate/src/scheduler.rs:317-326 | In an orderly run nothing is ever stranded |
| `Scheduler.StrandedForever` | crates/riftgate/src/scheduler.rs:363-383 | A task on the queue of an exited worker stays there in every run |
| `Scheduler.LateSubmitIsLost` | crates/riftgate/src/scheduler.rs:336-343 | A submit that overlaps the shutdown can be accepted and never run |
| `Scheduler.PanicStrands` | crates/riftgate/src/scheduler.rs:369-373 | A panicking task strands what is queued behind it |
| `ShardQueues.ShardedMpmcQueue.constructor` | crates/riftgate/src/scheduler.rs:174-182 | All shards start empty |
| `ShardQueues.ShardedMpmcQueue.Push` | crates/riftgate/src/scheduler.rs:225-240 | The item goes to the first shard with room in cyclic order from the cursor, and comes back exactly when every shard is full |
| `ShardQueues.ShardedMpmcQueue.PopOrSteal` | crates/riftgate/src/scheduler.rs:209-221 | The front of the first non-empty shard from the given one on, and none exactly when all are empty |
| `ShardQueues.ProbesCover` | crates/riftgate/src/scheduler.rs:229-233 | A walk of n probes from any start visits every shard |
| `ShardQueues.ProbesGoRound` | crates/riftgate/src/scheduler.rs:232-233 | The walk starts at its start and goes up by one, from the last shard to the first |

## Left out

- HTTP serving, the upstream client, TLS, signals, observability sinks, BPF, GPU scraping, the Kubernetes operator and the WASM host: I/O or foreign code.
- `Http1Parser`: its header parsing is a library that is not part of this model.
- Failing writes inside `append`: the model has failing syncs, but a write error or a failed rollover in `append` is not a step.
- Finding segment files on disk, and the replay tool's error when there are none.
- Reopening a WAL directory: ids restart at 1 and old segments stay; the model starts from an empty directory.
- `FileWal::flush` and `FileWal::last_durable` across shards, timeouts of the condition variable and fairness of the flusher: no liveness is claimed for the WAL.
- WalFile.Shard.Append: ids up to 2^64 - 1 and fresh in the shard are required, as the shared counter provides; the wait after the write is `MayReturn` and the protocol's wake step.
- AliasTable.Build: the constructor's panics on empty, oversized or zero weights are its `Legal` precondition.
- RouterStack.WeightedRouter.Sample: the random word is a parameter; that the xorshift generator yields all words equally often is not claimed, so shares are counts over all (bucket, coin) pairs and over all 64-bit words.
- Reservoir.VitterReservoir.Add: the draw is a parameter; uniformity is counted over all draw sequences.
- Timers.BinaryHeapTimers.ScheduleTimer: the wrap of the u64 id counter is excluded, because an id reused while live would overwrite a callback. Callbacks are the entries fired; what they do is not modelled.
- Timers.BinaryHeapTimers.NextDeadline: not always the minimum, because the code scans the heap in storage order. The heap is a set with a least entry; when that entry is cancelled the answer depends on the array layout, which only `LateDeadline` models.
- P2.P2Estimator.ObserveOne: positions are `int` and heights `real`; rounding and NaN are not modelled, and nothing is claimed about how close a marker's height is to the true quantile.
- Trie.PrefixTrie.Insert: nodes are values, so the walk that mutates nodes in place is one function on the tree; aliasing of nodes is not captured.
- RouterStack.CircuitBreakerArbiter.Route: calls do not overlap and the pool is fixed and equal to the configured backends; races between the breaker's separate lock sections and the u64 width of the probe counter are not modelled.
- RouterStack.KvAwareRouter.Route: the body's chunk hashes are part of the request; hash collisions are collisions of keys here too. Lock poisoning is not modelled.
- TokenBucket.StaleSwapFindsFullBucket: rates above 65536 per second are excluded, because a wrapped product can refill any amount.
- TokenBucket.BucketTracksIdeal: the rational bucket is charged what the code admitted; it does not decide calls itself, since the two may decide a borderline call differently.
- TokenBucket.RetryAfterHonestIff: waits of 2^32 ms or more and a wrapped product are excluded, because the refill is then short. One subject's word is modelled; eviction does not exist in the code.
- WalDurability.DirtyRolloverLostFromStart: a segment size of 4 GiB or more is excluded, because one frame could then not overflow it.
- Sse.StreamAsStandard: only the sufficient half; the condition on each group is exact by itself.
- Sse.DispatchesAsStandardIff: the sentinel `[DONE]` is compared as its text; the byte order mark, the event, id and retry fields and the 1 MiB ceiling are outside the comparison.
- Sse.SseFramer.Feed: the cancellation driver is what it reports when a feed begins.
- Allowlist.ExactIff: the necessary half needs that no configured prefix ends in U+10FFFF, because no character sorts above it; `MatchIffUnshadowed` has no such condition.
- Allowlist.FromConfig: expiry instants are unbounded; the panic on an expiry beyond the platform's clock range is not modelled.
- Allowlist.AllowlistBroker.Authorize: the signed attestation and the bytes of the audit record are not modelled.
- Scheduler.Conservation: queue operations and the flag are atomic steps in one order; weaker memory orderings are not modelled.
- Rate-limit high-water policy, filter chain, tenants, secrets, round robin, configuration loading and `ShardedMpmcQueue::pop`: no state or arithmetic that a run-level property would need.
