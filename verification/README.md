# A verified model of the record agent and the record/replay SDK

The repository records what an application does and plays it back.  The Python SDK (`sim_sdk`) traces
functions, captures labelled blocks and database queries, and ships the events to a local agent.  The
Go agent validates them, folds them into one bundle per session, keeps the bundles in a bounded
directory and uploads them to an object store.  This project models that path and proves what holds
of it over every input, run or interleaving.

`dafny verify dfyconfig.toml` checks everything.

| file | what it models |
|---|---|
| `Wire.dfy`, `Common.dfy` | envelopes; options, sequences, sums |
| `Ingest.dfy` | validation, the bounded queue and its gauge, batch accounting |
| `Session.dfy` | the session manager: state per session, sweeps, flush, the select loop |
| `FileSystem.dfy`, `Spool.dfy` | the spool directory and its system calls; the writer with quota, eviction, commit and start-up scan |
| `Pipeline.dfy`, `PipelineSafety.dfy`, `PipelineEvictions.dfy`, `PipelineObjects.dfy`, `PipelineLosses.dfy` | start-up, writer, scanner and workers interleaved step by step, with crashes; accounting, quota, exclusivity and recovery over all runs; why fixtures are evicted; the object store and the no-loss theorem; runs that lose data or the quota when a hypothesis is dropped |
| `Retry.dfy` | upload retries and the 64-bit backoff shift |
| `Canonical.dfy`, `Serializable.dfy` | canonical JSON with a reader that inverts it; the conversion to JSON-ready values |
| `SqlNormalize.dfy`, `SqlText.dfy` | the multi-pass SQL rewrite and a one-pass reference; its laws over literal characters |
| `FixturePaths.dfy` | relative paths of recorded fixtures and their decoding |
| `Replay.dfy`, `ReplayCorrect.dfy`, `ReplayKeys.dfy` | recording and replay over call trees; the replay theorem; what keys depend on, and which operations miss |
| `Sender.dfy`, `SenderRuns.dfy` | buffer, chunking and retries of the SDK's sender; its threads step by step |

How the models are built:

* **Objects that the source updates in place are classes** (`Manager`, `Queue`, `Writer`,
  `SimContext`, `InMemoryBuffer`, `SenderWorker`).  Their methods are proved against functions of
  values, and the laws are lemmas about those functions.  `Manager.Valid` says that the active map and
  the offered bundles are what the history of accepted, refused and cut events demands; the history
  functions never mention the map.
* **Concurrency is a state machine.**  `Pipeline` and `SenderRuns` give every system call, channel
  operation and lock-protected section its own step; a run is any sequence of steps.  Theorems are
  proved of every state of every run.
* **Failures are choices.**  Unless the disk is declared reliable, any system call may fail and a
  counter tells how many did; a failed `RemoveAll` may already have unlinked the file, a failed write may leave a part, a failed request may have been served.  `PutObject` and
  `post_batch` are such choices; SHA-256 is an unknown function, and what holds of keys is stated over
  all such functions; Python's `str` of a foreign object and
  "the list is over its memory limit" are parameters.
* **A recorded run is a tree of calls.**  Recording keeps one shared stub list and one counter per key;
  the reference functions read stubs, events and ordinals off the tree.  `Application` is a
  deterministic program that reacts to the values it is given.

Where the code does less than its comments say, the model follows the code, and a lemma says exactly
when the promise is kept:

* the backoff comment promises `500ms * 2^attempt` capped at 30s; the 64-bit shift keeps that for
  attempts 0 to 34 and eight later ones (`Retry.BackoffKeepsPromise`);
* `flush_sync` promises that the buffer is drained; a waiter that registers between a drain and the
  signal of that round is released too early unless its events were evicted
  (`SenderRuns.FlushKeptIffNotLate`);
* "whitespace around operators does not matter" stops at `!=`, because `=` is isolated first
  (`SqlNormalize.InsertedSpaceIrrelevantIff`, `SqlNormalize.NotEqualIsNotNormalised`);
* replay gives back every recorded value exactly if all replayed calls returned and none was a write
  (`ReplayCorrect.ReplayFaithfulIff`), and asks for the recorded ordinals exactly if no operation uses
  a key that an earlier skipped body used (`ReplayCorrect.RunAligned`);
* the spool counter is called the total on disk; a worker's deletions never lower it
  (`PipelineSafety.GapIsWhatWorkersFreed`), and a start-up scan that cannot examine a fixture leaves it
  out (`PipelineSafety.ScanIsExact`);
* a session that is cut and goes on is sent under the same key again: an acknowledged bundle stays in
  the object store exactly as long as no later one with other bytes has taken its place
  (`PipelineObjects.ObjectsAreExact`, `PipelineLosses.LossByOverwrite`).

## Model

| member | source | states |
|---|---|---|
| Session.Manager.HandleEvent | agent/internal/session/session.go:127-183 | the event is refused exactly if its session is new while the manager is full, otherwise accepted; the new map and offers are those of the longer history |
| Session.Manager.Absorb | agent/internal/session/session.go:142-182 | the session takes the event and stays, or is offered and removed when an Output arrives or the bytes first exceed the limit; the counter stays the size of the map |
| Session.Manager.TakePayload | agent/internal/session/session.go:154-172 | each event type sets or extends its own field, and every type adds its bytes |
| Session.Manager.SweepExpired | agent/internal/session/session.go:187-202 | exactly the sessions of at least the maximal age are cut, each once, whatever the map order |
| Session.Manager.FlushAll | agent/internal/session/session.go:206-213 | every active session is cut exactly once and none is left |
| Session.Manager.CommitAndDelete | agent/internal/session/session.go:217-246 | one offer, one deletion, counter down by one, whatever `Commit` answers |
| Session.Manager.Select | agent/internal/session/session.go:95-111 | one branch of the loop, exactly: an arrival is accepted or refused by the capacity rule, a tick cuts the expired sessions and no others; arrivals are kept in order, and a timely tick renews the age bound of all open sessions |
| Session.Manager.Run | agent/internal/session/session.go:90-112 | the history goes branch by branch through what each must do, and then every active session is flushed; so each segment ends for its reason: with its last event, at a tick at the full age, or at the shutdown; arrivals in order, no session left, every accepted event in exactly one offered segment, count and cap, and with undelayed ticks no session older than A + A/2 |
| Session.RunExplains | agent/internal/session/session.go:90-112 | every segment of a run is explained by a branch taken: an Output or overflow at its last event's arrival, expiry at a tick at the full age; only the shutdown flushes, and it flushes the open events |
| Session.TakesAges | agent/internal/session/session.go:95-111 | one branch keeps the arrivals in order and, if timely, the age bounds |
| Session.BuildBundle | agent/internal/session/session.go:250-282 | the bundle of any folded events is identifiers of the first, last Input, stubs and metadata in order, last Output |
| Session.SegmentsPartitionAccepted | agent/internal/session/session.go:127-246 | per session, the segments in order followed by the open events are the accepted events in arrival order |
| Session.SegmentsWellCut | agent/internal/session/session.go:157-182 | every segment is of one session, ends at its first Output or first overflow, or was forced, and carries the matching reason |
| Session.OffersAreSegments | agent/internal/session/session.go:217-220 | the offered bundles are, one for one and in order, the folds of the ended segments |
| Session.FoldsAreOpen | agent/internal/session/session.go:131-172 | a session is active exactly while it has open events, and its state is their fold |
| Session.AllAcceptedOffered | agent/internal/session/session.go:206-213 | with no active session every accepted event is in a segment |
| Session.RetainedBytes | agent/internal/session/session.go:172-182 | a retained session holds at most the byte limit |
| Session.SegmentBytes | agent/internal/session/session.go:172-182 | a committed session holds at most the limit plus its last event |
| Session.AgeCuts | agent/internal/session/session.go:187-202 | cuts made within half the maximal age of the last tick keep the age bounds |
| Session.SweptAreYoung | agent/internal/session/session.go:192-200 | what a sweep leaves is younger than the maximal age |
| Ingest.Validate | agent/internal/ingest/validator.go:77-133 | accepts exactly the events with a supported schema, a known type, safe identifiers, a positive timestamp within the allowed drift and a non-empty payload within the limit; otherwise the first rule broken, never `queue_full` |
| Ingest.FirstBrokenRule | agent/internal/ingest/validator.go:77-133 | the reason returned is that of the first of the eight rules the event breaks, all earlier ones hold, and it tells the version, spelling, identifier fault, drift or size |
| Ingest.Queue.TryEnqueue | agent/internal/ingest/queue.go:26-34 | appends exactly if there is room; gauge and channel move together |
| Ingest.Queue.Dequeue | agent/internal/ingest/queue.go:39-47 | takes the oldest event unless cancelled; gauge and channel move together |
| Ingest.Queue.Receive | agent/internal/ingest/queue.go:51-53 | a receive from the bare channel leaves the gauge alone |
| Ingest.IngestOne | agent/internal/ingest/ingest.go:71-85 | the verdict is invalid, full or accepted, and the tallies move accordingly |
| Ingest.IngestBatch | agent/internal/ingest/ingest.go:60-89 | accepted + dropped is the batch length, each reason is counted as often as it occurs, `queue_full` is dropped − invalid, and the channel grows by exactly the accepted events in order |
| Ingest.ResponseReports | agent/internal/ingest/ingest.go:60-89 | tallies built verdict by verdict count every verdict once and sum to the length |
| Ingest.AdmitsConcat | agent/internal/ingest/ingest.go:60-89 | two batches ingested one after the other leave in the channel what one batch of both would |
| Ingest.GaugeExact | agent/internal/ingest/queue.go:26-64 | in every interleaving the gauge plus pending increments minus pending decrements minus unpaired receives is the channel length |
| Ingest.GaugeOfManagerRun | agent/internal/session/session.go:101-106 | over every run without `MarkDequeued` the gauge, with its pending increments, is the number of events ever accepted |
| FileSystem.NamesDisjoint | agent/internal/spool/layout.go:28-44 | a name without a dot is no staging name and differs from every staging name |
| FileSystem.RenameCommits | agent/internal/spool/writer.go:106-110 | renaming a staging directory adds exactly its bytes to the committed total and touches no other fixture |
| FileSystem.UnlinkFrees | agent/internal/spool/cleanup.go:137-139 | unlinking a fixture's file lowers the committed total by its size and touches no other fixture |
| Spool.Writer.InitScan | agent/internal/spool/cleanup.go:17-40 | committed fixtures untouched, no staging directory left, counter exact unless fixtures could not be examined |
| Spool.Writer.RecoverTempDirs | agent/internal/spool/writer.go:120-139 | removes staging directories only, and all of them if it succeeds |
| Spool.Writer.List | agent/internal/spool/cleanup.go:88-127 | lists committed fixtures with their true size and time, each once, all unless some could not be examined |
| Spool.Writer.Evict | agent/internal/spool/cleanup.go:131-142 | success removes the fixture and deducts its size; failure deducts nothing and leaves the fixture whole or without its file |
| Spool.Writer.EvictOldest | agent/internal/spool/cleanup.go:67-80 | evicts a prefix of the list, deducts exactly its bytes, and never evicts once the new bytes fit |
| Spool.Writer.EnsureCapacity | agent/internal/spool/cleanup.go:51-83 | evicts the shortest sufficient prefix of the oldest-first order or everything; `freed` is that prefix's size; `ok` iff the bytes now fit |
| Spool.Writer.CleanupIfNeeded | agent/internal/spool/spool.go:102-108 | the same with nothing to write; a failed removal leaves the fixture whole or without its file; nothing happens within the quota |
| Spool.Writer.Fill | agent/internal/spool/writer.go:94-104 | the staging file is complete or the stage failed; no committed entry changes; after a failed write, without a further fault, no staging directory is left |
| Spool.Writer.Stage | agent/internal/spool/writer.go:91-115 | either the fixture appears complete under its name with its bytes counted, or no committed entry and no count changes; a failed write or rename leaves no staging directory unless its removal fails too; on a reliable disk it fails only if a name is taken |
| Spool.Writer.WriteFixture | agent/internal/spool/writer.go:63-116 | whole outcome per result: rejected bundles change nothing, evictions are the shortest prefix, a commit adds exactly the new fixture; within the quota it stays within; with an exact counter it drops iff the bundle alone exceeds the quota; on a reliable disk it fails only for a bad bundle or a taken name, and a rename refused for that leaves no staging directory |
| Spool.SortByAge | agent/internal/spool/cleanup.go:62-65 | an oldest-first permutation |
| Spool.WithoutTotal | agent/internal/spool/cleanup.go:72-79 | evicting a prefix of a listing lowers the total by exactly its bytes |
| Spool.RefusedIffTooLarge | agent/internal/spool/cleanup.go:67-82 | with an exact counter and complete listing, refusal iff the bundle alone exceeds the quota, and then everything was evicted |
| PipelineSafety.ScansExclusive | agent/internal/uploader/uploader.go:132-165 | every scanner step keeps each in-flight identifier in exactly one place |
| PipelineSafety.WorksExclusive | agent/internal/uploader/worker.go:15-26 | every worker step keeps each in-flight identifier in exactly one place |
| PipelineSafety.DrainedAtExit | agent/internal/uploader/uploader.go:112-121 | after closing the channel and waiting for the workers nothing is in flight |
| PipelineSafety.ExclusivityHolds | agent/internal/uploader/uploader.go:86-187 | in every reachable state the queued, marked and processed identifiers are the in-flight set without duplicates, and the channel holds at most 2·Workers |
| PipelineSafety.AttemptsBounded | agent/internal/uploader/worker.go:86-124 | in every reachable state no worker is at an attempt beyond MaxRetries |
| PipelineSafety.EvictsBalanced | agent/internal/spool/cleanup.go:51-83 | every eviction step keeps the byte equation, also when a worker deletes the same fixture |
| PipelineSafety.StagesBalanced | agent/internal/spool/writer.go:91-115 | every write step keeps the byte equation, and only a complete staging file is renamed |
| PipelineSafety.WorksBalanced | agent/internal/uploader/worker.go:62-71 | a worker's deletion adds exactly its bytes to the gap |
| PipelineSafety.CounterCoversDisk | agent/internal/spool/writer.go:112 | under the byte equation the counter covers the committed bytes but for the bundle just renamed and what the start-up scan overlooked |
| PipelineSafety.AccountingHolds | agent/internal/spool/cleanup.go:51-83 | in every reachable state committed bytes ≤ counter + bytes of the fixtures the start-up scan could not examine + a commit not yet counted; between operations the gap is freed − deducted twice + leaked; after a complete scan nothing is overlooked |
| PipelineSafety.GapIsWhatWorkersFreed | agent/internal/uploader/worker.go:62-71 | with atomic evictions the gap is exactly what workers removed, for every scan the process started with |
| PipelineSafety.NoUploaderNoGap | agent/internal/spool/cleanup.go:67-80 | before the uploader starts and with all-or-nothing removal, the counter is the committed total but for overlooked fixtures, and exact after a complete scan |
| PipelineSafety.StaysWithinQuota | agent/internal/spool/writer.go:82-112 | every step but a crash keeps counter plus promised bytes within the quota, whatever the start-up scan overlooked |
| PipelineSafety.CrashWithinQuotaIff | agent/internal/spool/cleanup.go:26-38 | a crash leaves the directory within the quota iff the counter with what it did not know of is; it does if the scan overlooked nothing |
| PipelineSafety.QuotaHolds | agent/internal/spool/writer.go:82-112 | once within the quota, within it for the rest of the run, provided that each process that crashes had overlooked nothing at its start |
| PipelineSafety.CommitSafe | agent/internal/spool/writer.go:106-112 | a commit loses no earlier commit and its own bytes are on disk in full |
| PipelineSafety.EvictsSafe | agent/internal/spool/cleanup.go:72-79 | what an eviction takes away is recorded as evicted; that each was needed is `PipelineEvictions.EvictionsAreNeeded` |
| PipelineSafety.WorksSafe | agent/internal/uploader/worker.go:25-81 | a worker only deletes the fixture whose upload was acknowledged |
| PipelineSafety.RecoveryIsExact | agent/internal/spool/cleanup.go:17-40 | after a crash at any step, failed starts and the next finished start-up: the fixtures of the moment of the crash, each complete, no staging directory, and a counter that misses exactly the fixtures that could not be examined: none after a complete listing |
| PipelineSafety.BootsRecovers | agent/internal/spool/writer.go:120-139 | going through the directory entries one by one removes every staging directory before the fixtures are counted |
| PipelineSafety.ScanIsExact | agent/internal/spool/cleanup.go:26-38 | the counter after the scan is the committed total but for the fixtures left out, and the exact total after a complete listing |
| PipelineSafety.StartOf | agent/internal/spool/cleanup.go:17-40 | every process that is up was started by one scan |
| PipelineSafety.RunInv | agent/internal/uploader/uploader.go:86-187 | the joint invariant holds in every state of every run |
| PipelineEvictions.EvictionsAreNeeded | agent/internal/spool/cleanup.go:62-80 | whenever something is evicted, in any run, counter plus new bytes exceed the quota, and it is one fixture: the oldest that the eviction's listing has left, and the oldest of all after a complete listing |
| PipelineEvictions.EvictionOf | agent/internal/spool/cleanup.go:56-80 | every eviction under way began with one listing, oldest first, and nothing is left of the entries it has dealt with |
| PipelineEvictions.EvictedForRoom | agent/internal/spool/cleanup.go:67-79 | every commit booked as evicted was evicted in one step of the run, while there was too little room |
| PipelineEvictions.RefusedWhenNothingIsLeft | agent/internal/spool/cleanup.go:67-82 | an eviction that ends without room has nothing left of its listing, and no fixture at all after a complete one |
| PipelineObjects.StoreHoldsNewest | agent/internal/uploader/worker.go:49-51 | the object of an identifier has the exact bytes of the newest commit ever stored under it, in every reachable state |
| PipelineObjects.ObjectsAreExact | agent/internal/uploader/worker.go:49-51 | the bytes of an acknowledged commit are stored iff every later commit stored over it with other bytes was followed by one with its bytes |
| PipelineObjects.NewestStays | agent/internal/uploader/worker.go:49-51 | an acknowledged commit that is the newest of its identifier is stored with its exact bytes |
| PipelineObjects.NothingIsLost | agent/internal/uploader/worker.go:25-124 | in every reachable state the exact bytes of each commit are on disk or in the object store, unless a step of the run evicted it for want of room or a later commit of its identifier with other bytes was stored over it; given MaxRetries ≥ 1 and no commit of an identifier in flight |
| PipelineObjects.WorksOrdered | agent/internal/uploader/worker.go:86-124 | uploads of one identifier never overlap, so what is stored only gets newer |
| PipelineLosses.LossWithoutAttempts | agent/internal/uploader/worker.go:86-124 | a run with MaxRetries = 0 in which a fixture is deleted without having been sent |
| PipelineLosses.LossByRecommit | agent/internal/uploader/worker.go:62-71 | a run in which an identifier evicted and committed again between upload and deletion loses the second bundle |
| PipelineLosses.LossByOverwrite | agent/internal/uploader/worker.go:49-51 | a run without eviction or commit in flight in which a session's second bundle replaces the object of its acknowledged first one |
| PipelineLosses.QuotaLostByOverlooking | agent/internal/spool/cleanup.go:104-116 | a run in which a scan that cannot examine a fixture, and a crash, take the spool out of its quota |
| Retry.BackoffKeepsPromise | agent/internal/uploader/worker.go:126-136 | the int64 shift equals min(500ms·2^attempt, 30s) exactly for attempts ≤ 34 and eight later ones |
| Retry.BackoffMonotone | agent/internal/uploader/worker.go:128-136 | delays never shrink for attempts up to 34 |
| Retry.WaitingClosedForm | agent/internal/uploader/worker.go:113-120 | n ≤ 35 waits take 500ms·(2^n − 1), from the seventh on 31.5s + 30s·(n − 6) |
| Retry.UploadWithRetry | agent/internal/uploader/worker.go:86-124 | at most MaxRetries calls, all but the last failed, nil iff the last succeeded, cancelled iff the context is found done before an attempt or in a wait, with nothing after that or after a success; total wait in closed form; with MaxRetries ≤ 0 nil without a call |
| FixturePaths.CapturePathDecodes | sim_sdk/sim_sdk/capture.py:36-43 | the capture path determines exactly the sanitised label and the ordinal |
| FixturePaths.DbPathDecodes | sim_sdk/sim_sdk/db.py:80-86 | the query path determines exactly the sanitised name, both fingerprint prefixes and the ordinal |
| FixturePaths.TracePathDecodes | sim_sdk/sim_sdk/trace.py:76-82 | the trace path determines exactly the sanitised name, the fingerprint prefix and the ordinal |
| FixturePaths.TraceMeetsCapture | sim_sdk/sim_sdk/trace.py:76-82 | a trace path equals a capture path iff the function is called `__capture__`, the label spells the fingerprint prefix and the ordinals agree |
| FixturePaths.TraceIsNotDb | sim_sdk/sim_sdk/db.py:80-86 | no trace path is a query path |
| FixturePaths.CaptureIsNotDb | sim_sdk/sim_sdk/capture.py:36-43 | no capture path is a query path |
| FixturePaths.DecimalInjective | sim_sdk/sim_sdk/db.py:86 | different ordinals have different numerals |
| Canonical.RoundTrip | sim_sdk/sim_sdk/canonical.py:55-61 | the compact texts printed for trees with string keys and integers are inverted by a reader of that part of the grammar of section 2 and of the strings of section 7 of RFC 8259 |
| Canonical.SortedIffEquiv | sim_sdk/sim_sdk/canonical.py:57 | sorting keys at every depth identifies exactly the trees that differ in key order only |
| Canonical.CanonicalIffEquiv | sim_sdk/sim_sdk/canonical.py:40-61 | equal canonical text iff equal up to key order |
| Canonical.PrintedKeysInOrder | sim_sdk/sim_sdk/canonical.py:57 | the keys of an object are printed in the order of their code points, each pair decided at its first difference |
| Canonical.PrintedAsIsIff | sim_sdk/sim_sdk/canonical.py:58 | a text is printed unchanged between quotes iff it holds no double quote, no backslash and no control character |
| Serializable.ResultReady | sim_sdk/sim_sdk/trace.py:98-114 | the result holds only JSON types, with distinct string keys |
| Serializable.ReadyFixed | sim_sdk/sim_sdk/trace.py:98-114 | JSON-ready values are left alone |
| Serializable.SerializableIdempotent | sim_sdk/sim_sdk/trace.py:98-114 | converting twice is converting once |
| Serializable.JsonTreesFixed | sim_sdk/sim_sdk/trace.py:98-114 | every tree with a canonical text is a fixed point |
| Serializable.BytesReadBack | sim_sdk/sim_sdk/trace.py:104-105 | bytes become a text of twice their length from which they can be read back |
| Serializable.SequencesBecomeLists | sim_sdk/sim_sdk/trace.py:108-109 | lists and tuples become lists of the same length, element by element |
| Serializable.DictsByWrittenKey | sim_sdk/sim_sdk/trace.py:106-107 | a dict keeps one entry for each written key, at the place of its first occurrence and with the value of its last |
| SqlNormalize.NormalizeSqlBasic | sim_sdk/sim_sdk/canonical.py:190-223 | the whitespace, operator and keyword passes compute the one-pass reference |
| SqlNormalize.TokensAreCollapsed | sim_sdk/sim_sdk/canonical.py:190-203 | the tokens of one scan joined by spaces are the collapsed text with the operators set apart |
| SqlNormalize.SubKeywordIsUpWords | sim_sdk/sim_sdk/canonical.py:218-221 | one keyword substitution upper-cases exactly the whole words that spell it |
| SqlNormalize.NormalizedIdempotent | sim_sdk/sim_sdk/canonical.py:190-223 | normalising twice is normalising once |
| SqlNormalize.KeywordCaseIrrelevant | sim_sdk/sim_sdk/canonical.py:205-221 | the case of a whole keyword does not matter |
| SqlNormalize.WhitespaceRunIrrelevant | sim_sdk/sim_sdk/canonical.py:190-203 | any run of whitespace is as good as any other |
| SqlNormalize.InsertedSpaceIrrelevantIff | sim_sdk/sim_sdk/canonical.py:190-203 | an inserted space is ignored iff it stands next to whitespace or one of `=`, `<`, `>` |
| SqlNormalize.NotEqualIsNotNormalised | sim_sdk/sim_sdk/canonical.py:195-200 | a space in front of `!=` changes the result unless whitespace or an operator precedes it, so `a!=b` and `a !=b` normalise differently |
| SqlText.SpaceIff | sim_sdk/sim_sdk/canonical.py:190-193 | an ASCII character between two words separates them exactly if its code is 9 to 13 or 28 to 32 |
| SqlText.SpacesIrrelevant | sim_sdk/sim_sdk/canonical.py:190-193 | any two runs of characters with those codes are interchangeable |
| SqlText.KeywordInAnyCase | sim_sdk/sim_sdk/canonical.py:205-221 | a keyword between other characters than letters, digits and `_` may be written with each letter in either case |
| SqlText.OneWord | sim_sdk/sim_sdk/canonical.py:205-221 | one word is upper-cased if it spells a keyword and left alone otherwise |
| Replay.SimContext.NextOrdinal | sim_sdk/sim_sdk/context.py:56-60 | hands out the key's counter and raises only that one |
| Replay.SimContext.EmitRecord | sim_sdk/sim_sdk/trace.py:175-217 | one event with the given stubs, and a stub of its own only when nested |
| Replay.SimContext.RecordTrace | sim_sdk/sim_sdk/trace.py:290-317 | for every body, also a raising one: depth restored, stub list as found plus the own stub when nested, events in post-order, the event's stubs exactly the direct children in completion order |
| Replay.SimContext.RecordCapture | sim_sdk/sim_sdk/capture.py:177-214 | stubs of the block, then its own; the event after those of the block; the ordinal taken before |
| Replay.SimContext.RecordQuery | sim_sdk/sim_sdk/db.py:263-293 | a query that raises leaves nothing but its used ordinal |
| Replay.SimContext.RecordBody | sim_sdk/sim_sdk/trace.py:305-317 | a list of calls leaves the concatenation of what its calls leave |
| Replay.SimContext.ReplayCall | sim_sdk/sim_sdk/db.py:231-261 | a traced call or query is answered by the store at the next ordinal, or is a miss or a blocked write; exactly answered calls leave a replayed stub; which calls are answered is `ReplayKeys.AnsweredIff` |
| Replay.SimContext.EnterCapture | sim_sdk/sim_sdk/capture.py:177-189 | takes the next ordinal and loads the recorded result or misses, and leaves no stub yet |
| Replay.SimContext.ExitCapture | sim_sdk/sim_sdk/capture.py:216-224 | the replayed stub is appended after whatever the block left |
| ReplayCorrect.SlotsNumbered | sim_sdk/sim_sdk/context.py:56-60 | no two calls of a run, at any depth, share key and ordinal |
| ReplayCorrect.PathsMeet | sim_sdk/sim_sdk/db.py:80-86 | two operations share a path iff their ordinals agree and their sanitised names and prefixes do |
| ReplayCorrect.NoOverwrite | sim_sdk/sim_sdk/capture.py:36-75 | no fixture of a run overwrites another |
| ReplayCorrect.StoreAnswers | sim_sdk/sim_sdk/trace.py:133-160 | at its recorded ordinal every call of a run, at any depth, is answered by its own fixture |
| ReplayCorrect.RunAligned | sim_sdk/sim_sdk/context.py:56-60 | replay asks for the recorded ordinals iff no operation uses a key an earlier skipped body used |
| ReplayCorrect.ReplayTheorem | sim_sdk/sim_sdk/trace.py:117-170 | replaying the operations of a recorded run from a fresh context answers each with what its own call recorded |
| ReplayCorrect.ReplayFaithfulIff | sim_sdk/sim_sdk/trace.py:145-170 | every operation gets back what it returned iff all returned normally and none was a write |
| ReplayCorrect.ApplicationReplays | sim_sdk/sim_sdk/trace.py:290-298 | a deterministic application makes the same operations again and sees the recorded values, and nothing else is possible |
| ReplayCorrect.RaisedTraceIsAnsweredNull | sim_sdk/sim_sdk/trace.py:160 | a traced call that raised is answered with None |
| ReplayCorrect.ShiftedKey | sim_sdk/sim_sdk/db.py:211-217 | a query repeated after a traced body that made it is answered with the inner result |
| ReplayKeys.TraceFpIff | sim_sdk/sim_sdk/trace.py:85-87 | two traced calls have the same fingerprint, and the same prefix, under every digest function iff they have the same name and equal arguments up to key order |
| ReplayKeys.SqlFpIff | sim_sdk/sim_sdk/canonical.py:226-250 | two query texts have the same fingerprint under every digest function iff they normalise alike |
| ReplayKeys.ParamsFpIff | sim_sdk/sim_sdk/db.py:95-98 | two parameter values have the same fingerprint under every digest function iff they are equal up to key order, no parameters counting as the empty string |
| ReplayKeys.QueryKeyDecodes | sim_sdk/sim_sdk/db.py:211-214 | a query's key determines exactly its name and both fingerprint prefixes |
| ReplayKeys.KeysIff | sim_sdk/sim_sdk/db.py:211-214 | ordinals are counted together under every digest function iff the operations have the same kind, name and arguments |
| ReplayKeys.AnsweredIff | sim_sdk/sim_sdk/trace.py:133-158 | an operation is answered iff a call of the recorded run with its path and ordinal left a fixture; otherwise it misses, and a write is blocked |
| ReplayKeys.AnsweredForSameArguments | sim_sdk/sim_sdk/trace.py:153-158 | the fixture of f(x) answers f(y) under every digest function iff x and y are equal up to key order; otherwise some digest function makes f(y) a miss |
| ReplayKeys.SafeQualnameIs | sim_sdk/sim_sdk/trace.py:81 | the sanitised qualified name is what its chain of three replacements makes of it |
| ReplayKeys.WriteStatementIff | sim_sdk/sim_sdk/db.py:61-73 | after leading whitespace, in any case: a statement is a write iff it begins with one of six words, or begins with WITH and holds one of them anywhere |
| Sender.InMemoryBuffer.Append | sim_sdk/sim_sdk/sink/in_memory_buffer.py:48-52 | the event is appended, after exactly what the policy drops if the buffer is over its limit |
| Sender.InMemoryBuffer.Drop | sim_sdk/sim_sdk/sink/in_memory_buffer.py:64-70 | oldest, newest, any one, or none |
| Sender.InMemoryBuffer.Drain | sim_sdk/sim_sdk/sink/in_memory_buffer.py:54-59 | returns the whole buffer in order and empties it |
| Sender.SenderWorker.Emit | sim_sdk/sim_sdk/sink/agent_sink.py:75-83 | appends, counts, and notifies iff the threshold is reached |
| Sender.SenderWorker.PostBatch | sim_sdk/sim_sdk/sink/agent_client.py:41-77 | the agent's queue grows by exactly what ingesting the chunk admits, or the request never arrived; an answer means that it arrived and splits the chunk into accepted and dropped; a reachable agent answers |
| Sender.SenderWorker.SendChunk | sim_sdk/sim_sdk/sink/sender_worker.py:144-178 | the requests made are all for this chunk, go on exactly until an answer and at most 1 + max_retries times, one if the agent is reachable; the agent's queue is what they leave; every event counted once as sent or dropped; failure counters exact |
| Sender.SenderWorker.DrainAndSend | sim_sdk/sim_sdk/sink/sender_worker.py:135-142 | what is posted is the drained batch in chunks, in order, all but the last full, each with its attempts; the agent's queue is what these requests leave, and for an agent that answers what one request with the whole batch would; every event is counted once |
| Sender.ChunksAsOne | sim_sdk/sim_sdk/sink/sender_worker.py:135-142 | chunks ingested once each, one after the other, leave in the agent's queue what one request with the whole batch would |
| SenderRuns.EmittedIsAccountedFor | sim_sdk/sim_sdk/sink/sender_worker.py:135-178 | in every reachable state emitted = sent + dropped + in flight + buffered + evicted, and events never overtake each other |
| SenderRuns.FlushBarrier | sim_sdk/sim_sdk/sink/sender_worker.py:84-133 | a waiter that was not late is released only after every event it found buffered was resolved or evicted |
| SenderRuns.FlushKeptIffNotLate | sim_sdk/sim_sdk/sink/sender_worker.py:116-133 | at the signal a waiter's events are settled iff it was not late or all of them were evicted |
| SenderRuns.ReleasedOnce | sim_sdk/sim_sdk/sink/sender_worker.py:128-133 | waiters are released in order and once; after the final round exactly those registered before it |
| SenderRuns.NoLostWakeUp | sim_sdk/sim_sdk/sink/sender_worker.py:115-118 | while an event buffered at some wake-up is still buffered, the flag is set or the worker is between its wait and its drain |
| SenderRuns.WakerIsServed | sim_sdk/sim_sdk/sink/sender_worker.py:89-93 | a flusher that has woken the worker and still waits finds the flag set or a round that signals it under way |
| SenderRuns.ChunksAreBounded | sim_sdk/sim_sdk/sink/sender_worker.py:140-149 | in every reachable state the chunk being posted has at most the configured size and is at most at its attempt number max_retries, counted from 0 |
| SenderRuns.LateWaiterReleasedEarly | sim_sdk/sim_sdk/sink/sender_worker.py:116-124 | a run in which a waiter is released while its event is still buffered |

## Left out

- HTTP server, routing, `urllib` client, AWS adapter, Flask, demos, configuration, logging and health probes: single-branch I/O plumbing; they become parameters or nondeterministic outcomes.
- `redaction.py`, Avro and Protobuf serialisers, `sqlparse`: foreign code or easy structural maps.
- The comment-stripping step of the SQL fallback (sim_sdk/sim_sdk/canonical.py:184-188): removing one comment can create another, so idempotence fails there; `NormalizeSqlBasic` starts after it. SQL text is ASCII.
- Canonical.RoundTrip: numbers are integers and the reader takes compact texts only, because the printer emits no fraction for an integer and no whitespace; floats and surrogate pairs are left out.
- Python's async wrappers and tasks sharing one `SimContext`: the stack discipline is that of one thread.
- How a sink lays out its files: the store is keyed by the relative path of each fixture. Calls made without sink and stub directory are not recorded by the source and not modelled.
- ReplayCorrect.ApplicationReplays: captures are guarded by `cap.replaying`, because an unguarded block reads its result before the recording had it; the other replay theorems cover unguarded captures.
- Session.Manager.Absorb: session state is a value in the map rather than a shared object, and an event is stamped with one time instead of two successive `time.Now` calls.
- Session.Manager.CommitAndDelete: the answer of `Commit` only reaches the log, so offers are recorded and their result is not.
- Session.BuildBundle: JSON encoding of service, stubs and metadata is left out; an empty list stands for an omitted field.
- Session.Manager.Run: events still in the channel when the context is cancelled stay unread, as in the source; MaxSessionAge is at least 2, since the source's ticker panics below.
- Ingest.IngestBatch: one time for the whole batch; reasons are constructors instead of the formatted texts.
- Spool.Writer.WriteFixture: the encoded bundle is a parameter; a fixture directory holds at most `fixture.json`.
- Spool.SortByAge: `sort.Slice` is represented by some sorting loop, since only an ordered permutation is promised.
- Pipeline: listings are taken at once under the writer's mutex, reads of `fixture.json` are atomic, a `PutObject` request has no effect after its call has returned or its process has died, and the machine itself does not crash (the writer never syncs).
- `s3Key` beyond one object per fixture identifier; upload counters and `LastError` strings.
- `SenderWorker.start` after a stop; exceptions thrown by `fixture_to_envelope`; timeouts of `flush_sync` callers.
