# Verified model of the firecube control plane

A Dafny model of the state kept under `.firecube/`, and proofs of what the code promises about it.
`dafny verify dfyconfig.toml` checks the whole project.

**Write-domain claims.** Many processes share one record per write domain and change it only by
compare-and-swap. A record's history is the list of its generations, and a validator is a position
in that list. `ClaimProtocol` is a step system in which acquisitions, heartbeats, confirmations,
releases and operator clears interleave in any way. A write that was issued commits at most once,
now or at any later step; its answer may arrive, be lost, or say "refused" although the write
committed, which `ConditionalWrite` allows. `ClaimInvariant` links each handle's validator, confirmed
revision and unconfirmed revisions to the history, and `ClaimTheorems` draws the promises from it;
`ClaimUnconfirmed` says why unconfirmed revisions may be forgotten, and `ClaimAnswers` what truthful
answers are enough for. `ClaimReads` says what every read of the record tells a handle, also one whose
record others changed, and `ClaimTimes` what a record says about the steps that wrote it, and so which
records an operator may retire. `ClaimWitness` holds runs in which a promise fails.
`Claims` holds the handles, the loss latch and the service as objects, each method tied to the state
change the step system uses; `LatchAttach` interleaves attaching a latch with a loss.

**Log, projection and compact cache.** `SegmentNames`, `WalReader`, `RunLog` and `RunEventWriter`
model segment files as texts, with an abstract JSON codec: an event is written as a JSON object in
printable ASCII that parses back and none of whose strict prefixes is JSON (section 4 of RFC 8259).
`CodecWitness` gives such a codec. `EventProcessor` folds events into records, `Ranges` and `Coverage`
are the range arithmetic and the coverage pass, and `CompactCache` reads through the cache.
`Projection` says what a key of the projection holds in terms of the events that named it last.

**Smaller cores.** `Templates` and `Messages` are the trimming of structured messages, `JsonText` and
`SlotPlan` the streaming plan printer, `InventoryKeys` and `Inventory` the digest inventory of a product.
`JsonReader` reads JSON text (RFC 8259) and is written without the printer, so that what is printed is
compared with what it means.

Findings the proofs turned up, all stated as lemmas below:

- Mutual exclusion has an exact exception. An acquisition whose create committed but was answered as
  refused, and whose record was then retired, can take the record over as well; its held interval then
  may enclose another one's. Nothing else breaks an interval (`GapNeedsWrongRefusal`,
  `AnsweredRefusedThenCleared`), so truthful answers to creates are enough.
- A handle whose record nobody else changed can report a loss in two ways, and in no other as long as
  every re-read after a refused heartbeat succeeds: its own retire committed and was answered as
  refused; or its retire committed, the answer was lost, and `confirm`, which does not ask whether a
  retire is uncertain, reads what that retire left (`NoFalseLoss`, `RetireAnsweredRefused`,
  `ConfirmAfterLostRetire`, `TruthfulReleaseIsNotLost`).
- The cache stores records after the coverage pass. Reading through it shows less coverage than a full
  replay exactly when an overwriting span is replaced or rewritten later and nothing else overwrites
  the same indices (`BakedCoverage`, `ReplacedOverwriterLosesCoverage`).
- A run that crashed inside an event and then resumed with more than a terminal event cannot be read
  any more (`CrashVerdict`).
- The text order of a run's segment names is the order of writing exactly up to 100000 segments
  (`NameOrderExact`).
- Trimming does not always take the same characters from both renderings of a message: it drops a
  nested message whose trimmed library text is empty, even when the command line shows something for
  it. That is the only way (`InStep`, `InStepForAll`, `SilentPartIsLost`).
- The streaming plan printer is the pretty printer's text only for a header in which no member comes
  after one named `ranges` (`StreamedIsPlan`); the headers the code builds have none.

Where the code and its own text disagree, the model follows the code: segments are named
`events-<part>.jsonl`, not by a timestamp as the reader's header says; a last line without a line feed
that is a complete event is kept, not discarded; a compact-cache meta file of another schema version
raises an error that `load_current_state` itself catches as a `ManifestError`, so it falls back to a
full replay.

## Model

| member | source | states |
|---|---|---|
| ClaimInvariant.StepPreserves | src/firecube/core/controlplane/claims.py:388-641 | every step of every process keeps the link between a handle's validator, its confirmed and unconfirmed revisions, its writes in flight and the record's history |
| ClaimTheorems.RunInv | src/firecube/core/controlplane/claims.py:388-641 | that link holds in every state of every run |
| ClaimTheorems.MutualExclusion | src/firecube/core/controlplane/claims.py:664-726 | in every run the held generations of an incarnation are contiguous if and only if its acquisition did not commit twice |
| ClaimTheorems.HeldIntervalsDisjoint | src/firecube/core/controlplane/claims.py:664-726 | no other incarnation holds the record between two held generations of an incarnation that did not commit twice |
| ClaimTheorems.AcquiresOverFreeRecord | src/firecube/core/controlplane/claims.py:698-726 | an acquisition commits only over an absent or released record |
| ClaimTheorems.HandleCommitsOnOwnRecord | src/firecube/core/controlplane/claims.py:487-567 | a heartbeat or retire that commits replaces or deletes a generation held by its own incarnation, so it resurrects nothing and overwrites no later acquisition |
| ClaimTheorems.OperatorRetiresWhatItJudged | src/firecube/core/controlplane/claims.py:772-845 | a clear or conditional release that commits retired exactly the generation it read and judged; what a judgement lets through is said by the `ClaimTimes` rows |
| ClaimTheorems.OutdatedWriteNeverCommits | src/firecube/core/controlplane/claims.py:208-218 | once anyone commits after the read, a write that expects the older generation never commits |
| ClaimTheorems.ReleaseEndsIncarnation | src/firecube/core/controlplane/claims.py:438-532 | after a release of a handle that is not lost, the record is not held by its incarnation, then and in every later state |
| ClaimTheorems.TimedOutReleaseRetiresNothing | src/firecube/core/controlplane/claims.py:446-485 | from the state in which a release has set the stop flag, no heartbeat or retire of the handle is issued in any later state unless a release gets to its retire |
| ClaimTheorems.LossIsFinal | src/firecube/core/controlplane/claims.py:548-641 | once a handle is lost, no heartbeat or retire of it commits any more, whenever it was issued |
| ClaimTheorems.NoFalseLoss | src/firecube/core/controlplane/claims.py:569-624 | while nobody else changed the record and no re-read after a refused heartbeat failed, a handle is lost if and only if it denied its own committed retire, and never before a retire committed |
| ClaimTheorems.LossStep | src/firecube/core/controlplane/claims.py:408-624 | such a handle is marked lost by a step if and only if an own retire has committed and the step is a readable confirmation, or a readable re-read after a refused retire while none is uncertain |
| ClaimReads.ConfirmFindsOut | src/firecube/core/controlplane/claims.py:388-436 | a confirmation that reads the record loses the handle if and only if the record is not held by its incarnation, whoever changed it; otherwise the handle takes the current generation; one that cannot read changes nothing |
| ClaimReads.RereadFindsOut | src/firecube/core/controlplane/claims.py:569-604 | the same for the re-read after a refused or failed heartbeat; where the re-read fails, the handle is lost if and only if the heartbeat was refused |
| ClaimReads.RetireRereadFindsOut | src/firecube/core/controlplane/claims.py:508-532 | after a refused retire, a record of the own incarnation is retired once more at its current generation, what an own retire leaves ends the release, as lost unless an earlier retire got no answer, and any other record ends it as lost |
| ClaimReads.LossExactly | src/firecube/core/controlplane/claims.py:388-641 | whoever else changes the record, a handle becomes lost by exactly those reads |
| ClaimTimes.RecordNamesItsAcquisition | src/firecube/core/controlplane/claims.py:664-695 | every generation of an incarnation, held or released, names the domain, owner, time and stale threshold its acquisition began with |
| ClaimTimes.BeatSaysWhen | src/firecube/core/controlplane/claims.py:548-567 | a generation that a heartbeat made is held by its incarnation and says when the heartbeat began |
| ClaimTimes.HandleShowsItsRecord | src/firecube/core/controlplane/claims.py:620-624 | in every state a handle shows exactly the record of the generation it confirmed last |
| ClaimTimes.ClearWaitsForSilence | src/firecube/core/controlplane/claims.py:816-837 | a clear that is not forced was issued only when more than the stale threshold of the acquisition had passed since the heartbeat it retires began |
| ClaimTimes.ClearWaitsAfterAcquisition | src/firecube/core/controlplane/claims.py:816-837 | the same for a record that was not renewed since its acquisition |
| ClaimTimes.ClearAllowedExactly | src/firecube/core/controlplane/claims.py:816-837 | over a record that a heartbeat made, a clear may be issued if and only if it is forced or that time has passed |
| ClaimTimes.ReleaseRetiresWhatWasListed | src/firecube/core/controlplane/claims.py:772-805 | a conditional release that commits retired a held record with the listed owner, acquisition time and incarnation; a stale-only one also with the listed heartbeat and revision, and stale |
| ClaimTimes.ReleaseAllowedExactly | src/firecube/core/controlplane/claims.py:772-805 | and it may be issued exactly while the current record is such a one |
| ClaimTimes.RetireLeavesExactly | src/firecube/core/controlplane/claims.py:221-237 | a committed retire leaves nothing where the driver can delete, else a released record of the same acquisition that says when it was retired |
| ClaimAnswers.GapNeedsWrongRefusal | src/firecube/core/controlplane/claims.py:684-726 | the held generations of an incarnation fall apart if and only if its committed create was answered as refused and a later write of the same acquisition committed |
| ClaimAnswers.TruthfulAcquisitionsExclude | src/firecube/core/filesystem/protocol.py:158-165 | where no committed create is answered as refused, every incarnation holds the record without a gap and no other one holds it in between |
| ClaimAnswers.TruthfulReleaseIsNotLost | src/firecube/core/controlplane/claims.py:487-532 | a handle whose retires are answered truthfully or not at all, and that is not confirmed after a lost answer, is never lost while nobody else changes the record |
| ClaimUnconfirmed.OneOpenBeatCommits | src/firecube/core/controlplane/claims.py:569-604 | of the heartbeats whose revisions are unconfirmed in a state, at most one is committed in any later state |
| ClaimUnconfirmed.ForgottenBeatsAreSettled | src/firecube/core/controlplane/claims.py:620-624 | a revision leaves the unconfirmed ones only when the handle moves to the next generation; then its heartbeat made that generation, or it never commits |
| ClaimUnconfirmed.RunExpects | src/firecube/core/controlplane/claims.py:548-604 | in every state, each heartbeat whose revision is unconfirmed or just attempted expects the validator of the handle |
| ClaimWitness.AnsweredRefusedThenCleared | src/firecube/core/filesystem/protocol.py:158-165 | a run in which a refusal that followed the call's own commit breaks the contiguity of a held interval |
| ClaimWitness.RetireAnsweredRefused | src/firecube/core/controlplane/claims.py:508-532 | a run in which a handle nobody disturbed reports itself lost because its own committed retire was answered as refused |
| ClaimWitness.ConfirmAfterLostRetire | src/firecube/core/controlplane/claims.py:408-428 | a run without any refusal in which a handle nobody disturbed is lost because it was confirmed after its retire committed unanswered |
| Claims.ClaimLossLatch.Set | src/firecube/core/controlplane/claims.py:123-127 | the first recorded domain never changes |
| Claims.ClaimLossLatch.Track | src/firecube/core/controlplane/claims.py:106-111 | released handles are dropped, the new one is watched once, the order is kept |
| Claims.ClaimHandle.constructor | src/firecube/core/controlplane/claims.py:330-362 | a new handle is neither lost nor released, has nothing unconfirmed, and is watched by its latch |
| Claims.ClaimHandle.AttachLatch | src/firecube/core/controlplane/claims.py:371-376 | the latch watches the handle and has a domain if the handle was lost already |
| Claims.ClaimHandle.Adopt | src/firecube/core/controlplane/claims.py:620-624 | the state change of adoption in the step system |
| Claims.ClaimHandle.Lose | src/firecube/core/controlplane/claims.py:626-640 | the handle is lost and the loss is on its latch, an earlier one kept |
| Claims.ClaimHandle.Confirm | src/firecube/core/controlplane/claims.py:388-436 | the state change of a confirmation, for every answer of the read: lost exactly when the record is gone or no held record of the incarnation with a known revision; a new loss is reported, anything else leaves the latch |
| Claims.ClaimHandle.Reconcile | src/firecube/core/controlplane/claims.py:569-604 | the state change of a reconciliation, for a refused or failed write and every answer of the re-read |
| Claims.ClaimHandle.Beat | src/firecube/core/controlplane/claims.py:548-567 | the request sent expects the handle's validator; the new state is that of the step system |
| Claims.ClaimHandle.OwnValidatorAfterRefusal | src/firecube/core/controlplane/claims.py:508-532 | the verdict of the step system on a refused retire, and a loss exactly where it gives up |
| Claims.ClaimHandle.RetireOwnRecord | src/firecube/core/controlplane/claims.py:487-506 | at most two retires are sent, the second only after a refusal and a re-read that found an own revision, each expecting the generation last known as own |
| Claims.ClaimHandle.Release | src/firecube/core/controlplane/claims.py:438-485 | a timed-out, lost or already released handle sends nothing; a timed-out release reports to the latch and changes nothing but the stop flag; any other sends a retire of the generation confirmed last, and a second one exactly when the re-read after its refusal found an own generation, which that one expects |
| Claims.BeatIsItsSteps | src/firecube/core/controlplane/claims.py:548-604 | the heartbeat steps of the interleaved system, taken together, are one heartbeat of the handle object |
| Claims.RetireIsItsSteps | src/firecube/core/controlplane/claims.py:487-532 | the retire steps of the interleaved system, taken together, are one release of the handle object: each answer or re-read ends it as the object ends, or leads to its second try |
| Claims.FilesystemClaimService.Acquire | src/firecube/core/controlplane/claims.py:664-726 | creates over an absent record, takes over a released one nobody changes meanwhile, and otherwise commits nothing and names the holder |
| Claims.FilesystemClaimService.RetireJudged | src/firecube/core/controlplane/claims.py:772-854 | retires the generation read when it is held, judged and unchanged; a clear that is not forced refuses a record whose heartbeat is not older than its threshold, a conditional release one that is not as listed; whatever commits in between makes it retire nothing |
| LatchAttach.AttachedLatchIsSet | src/firecube/core/controlplane/claims.py:371-376 | however attaching a latch and losing the handle interleave, the latch is set once both have finished |
| Ordering.SortIgnoresListing | src/firecube/core/controlplane/_event_processor.py:122-136 | the sorted runs do not depend on the order they are listed in |
| Ordering.SortSorts | src/firecube/core/controlplane/_event_processor.py:130-136 | the sort is a sorted permutation |
| Ordering.StringLeMeaning | src/firecube/core/controlplane/_event_processor.py:130-136 | text order is that of the first differing character, a text before those it begins |
| Ranges.MergeIndexRanges | src/firecube/core/controlplane/ranges.py:43-52 | the loop computes the merge |
| Ranges.MergeMeaning | src/firecube/core/controlplane/ranges.py:43-52 | merging gives ascending, separated ranges that cover the same indices |
| Ranges.NormalizeIndexRanges | src/firecube/core/controlplane/ranges.py:29-40 | the loop computes the normal form |
| Ranges.NormalizeMeaning | src/firecube/core/controlplane/ranges.py:29-40 | the normal form covers the indices between the bounds of each pair, in either order |
| Ranges.CutRanges | src/firecube/core/controlplane/ranges.py:61-70 | the inner loop computes one cut through every remaining range |
| Ranges.SubtractIndexRanges | src/firecube/core/controlplane/ranges.py:55-71 | the nested loops compute the difference |
| Ranges.SubtractMeaning | src/firecube/core/controlplane/ranges.py:55-71 | the difference covers exactly the indices of the first list that are not in the second |
| Ranges.CanonicalUnique | src/firecube/core/controlplane/ranges.py:43-52 | a set of indices has one such list, so comparing lists compares coverage |
| Ranges.SizeCounts | src/firecube/core/controlplane/_projection.py:92-93 | the sum of the range lengths is the number of covered indices |
| EventProcessor.ApplyEvents | src/firecube/core/controlplane/_event_processor.py:88-119 | the loop folds the events into the map, and stops exactly at an unsupported schema |
| EventProcessor.ApplyAllAt | src/firecube/core/controlplane/_event_processor.py:102-119 | what events do to one key depends on nothing else in the map |
| EventProcessor.RedundantReplay | src/firecube/core/controlplane/_event_processor.py:88-119 | events that are applied again later change nothing when applied before, for any mix of upserts, marks and skipped events |
| Coverage.ApplyOverwriteRangesToActiveCoverage | src/firecube/core/controlplane/_projection.py:46-79 | the sort, the group lists and the in-place subtractions together carve each active span by the later overwrites of its group, and change nothing else; which index stays where is said with the fields of the records alone |
| Coverage.SortActive | src/firecube/core/controlplane/_projection.py:50-61 | the active spans, each once, in strict order of timestamp, 0 without one, and then key |
| Coverage.SubtractFromPriors | src/firecube/core/controlplane/_projection.py:70-78 | the prior spans of another run lose the overwritten ranges, everything else stays |
| Coverage.ApplySpan | src/firecube/core/controlplane/_projection.py:64-79 | one turn of the pass takes the ranges of one span out of every earlier span it counts for |
| Coverage.SubtractFromSpanPayload | src/firecube/core/controlplane/_projection.py:82-93 | the subtraction from one span payload |
| Coverage.SubtractFromCarves | src/firecube/core/controlplane/_projection.py:82-93 | it takes exactly the overwritten indices out, with a count that matches, and leaves a span that loses nothing as it is |
| Coverage.ExactCoverage | src/firecube/core/controlplane/_projection.py:46-93 | an index stays in an active span if and only if it was there and no later active span of the group and another run overwrites it (`PassByTime` says it with the fields) |
| Coverage.PassByTime | src/firecube/core/controlplane/_projection.py:46-93 | an active span loses an index if and only if an active span of its group and another run, with a larger timestamp or an equal one and a larger key, declares it overwritten; no other span loses any |
| Coverage.PassIsUnique | src/firecube/core/controlplane/_projection.py:46-93 | what the pass makes of the records is determined, whatever order they are listed in |
| Coverage.PassIsIdempotent | src/firecube/core/controlplane/_projection.py:46-93 | a second pass changes nothing |
| Coverage.PassKeepsCounts | src/firecube/core/controlplane/_projection.py:92-93 | the count of a span stays the number of its indices where it was so before |
| CompactCache.LoadCurrentState | src/firecube/core/controlplane/_compact.py:119-223 | every outcome of the two files, the filter on the cutoff, and the sequential and parallel replays give the cached read |
| CompactCache.CurrentState | src/firecube/core/controlplane/_projection.py:282-294 | readers see the coverage pass over the cached read, or an empty state without a control plane |
| CompactCache.ReplaySequentially | src/firecube/core/controlplane/_compact.py:193-196 | reading and applying the runs one by one is the replay, and one unreadable run fails it |
| CompactCache.ReadInParallel | src/firecube/core/controlplane/_compact.py:203-211 | whatever order the reads finish in, each run's events are found under its index |
| CompactCache.ReplayInParallel | src/firecube/core/controlplane/_compact.py:197-214 | reading the runs in any order and applying them in theirs is the sequential replay |
| CompactCache.CachedReadRefinesFullReplay | src/firecube/core/controlplane/_compact.py:165-214 | a cache of the raw projection of the runs before the cutoff and some at it reads as a full replay of any listing |
| CompactCache.FullReplayIgnoresListing | src/firecube/core/controlplane/_event_processor.py:122-136 | the full replay does not depend on the order runs are listed in |
| CompactCache.IncompleteRunIsIgnored | src/firecube/core/controlplane/_compact.py:140 | a run that is not complete is in no projection, through the cache or not |
| CompactCache.UnusableCacheIsHarmless | src/firecube/core/controlplane/_compact.py:119-223 | a missing or unusable cache gives the full replay, or an error in exactly two cases |
| Projection.LastStoreWins | src/firecube/core/controlplane/_event_processor.py:88-119 | the record under a key is the one written last with its defaults filled in; the last replacement committed after it marks it as replaced by that run at that time |
| Projection.NothingStored | src/firecube/core/controlplane/_event_processor.py:88-119 | events that write no record under a key bring none there and change none unless they replace it |
| Projection.ReplaySucceeds | src/firecube/core/controlplane/_event_processor.py:122-136 | the full replay fails exactly on a complete run that cannot be read or holds a record of another schema version |
| Projection.LastRunWins | src/firecube/core/controlplane/_event_processor.py:22-32 | whatever the listing, the last run by completion and then id that wrote a key wins, with its last event for the key |
| Projection.UnwrittenIsAbsent | src/firecube/core/controlplane/_event_processor.py:122-136 | a key that no complete run wrote is not in the full replay |
| CompactCache.SavedLoads | src/firecube/core/controlplane/repo.py:620-628 | saving the records and loading them gives the map back |
| CompactCache.SavedRecords | src/firecube/core/controlplane/repo.py:621-624 | every record is saved, in key order |
| CompactCache.LastCompletion | src/firecube/core/controlplane/repo.py:611-614 | the cutoff is the latest completion, or 0 without a complete run |
| CompactCache.RebuildCompact | src/firecube/core/controlplane/repo.py:605-658 | the new cache holds the projection after the coverage pass, and its cutoff is the last completion |
| CompactCache.BakedCoverage | src/firecube/core/controlplane/_projection.py:282-294 | replay on records after the pass shows the coverage of a full replay if and only if no index the pass took out stays lost |
| CompactCache.BakedCoverageAt | src/firecube/core/controlplane/_projection.py:282-346 | the same for one key and index: what is missing is exactly what is lost |
| CompactCache.KeptOverwritersLoseNothing | src/firecube/core/controlplane/_projection.py:329-346 | if no overwriting span active at the cutoff is changed later, nothing is lost |
| CompactCache.RebuiltReadCoverage | src/firecube/core/controlplane/repo.py:567-658 | the same from a rebuild to a later read, with the runs that completed since |
| CompactCache.ReplacedOverwriterLosesCoverage | src/firecube/core/controlplane/_projection.py:329-346 | a replaced overwriter loses coverage, so the hypothesis is needed |
| SegmentNames.PartOfName | src/firecube/core/controlplane/events.py:39 | the pattern finds the part number in a segment's name |
| SegmentNames.PartOfMeaning | src/firecube/core/controlplane/events.py:39 | a part number is found exactly in a name that ends as a segment's does, and it is the number its digits stand for |
| SegmentNames.NameOrder | src/firecube/core/controlplane/events.py:198 | below part 100000 the text order of names is the order of parts |
| SegmentNames.NameOrderExact | src/firecube/core/controlplane/events.py:198 | the names of a run's segments sort in the order of writing if and only if there are at most 100000 |
| SegmentNames.EventIdsDiffer | src/firecube/core/controlplane/events.py:162-164 | ids at different parts or positions differ |
| SegmentNames.EventIdMeaning | src/firecube/core/controlplane/events.py:162-164 | an id spells the run, the part in at least five digits and the position in at least six |
| WalReader.ReadRunSegment | src/firecube/core/controlplane/_wal_reader.py:356-415 | the loop over lines computes the reading of a segment |
| WalReader.LinesMeaning | src/firecube/core/controlplane/_wal_reader.py:379-385 | the lines of a text make up the text and break exactly where it does |
| WalReader.JudgeMeaning | src/firecube/core/controlplane/_wal_reader.py:386-415 | a line is blank exactly when it is all white space, and an event exactly when what is between white space is one of schema version v2 |
| WalReader.SegmentVerdict | src/firecube/core/controlplane/_wal_reader.py:379-415 | a segment reads if and only if every line is blank or an event, except a last one that is not JSON where a torn tail may be; then every event is returned in order |
| WalReader.EventFilesMeaning | src/firecube/core/controlplane/_wal_reader.py:436-440 | the reader takes exactly the listed files whose names end in `.jsonl`, in text order |
| WalReader.ReadSegments | src/firecube/core/controlplane/_wal_reader.py:447-466 | the loop over segments finds the one torn tail and the events after it, and stops only where the run cannot be read |
| WalReader.ReadRunEvents | src/firecube/core/controlplane/_wal_reader.py:417-488 | a run reads if and only if every segment does, at most one tail is torn, and it is last in a run that is not terminal or followed only by events that end the run; then it is all parsed lines |
| RunLog.ReadCut | src/firecube/core/controlplane/_wal_reader.py:379-415 | a segment cut at any character reads as its whole events, with a torn tail exactly when the cut is inside an event |
| RunLog.CutMeaning | src/firecube/core/controlplane/_wal_reader.py:386-398 | an event is read exactly when all its text is there, its line feed or not |
| RunLog.ReadsAsWritten | src/firecube/core/controlplane/_wal_reader.py:436-440 | after any number of crashes and resumes, each segment reads as the whole events before its cut, in the order of writing |
| RunLog.CrashVerdict | src/firecube/core/controlplane/_wal_reader.py:462-488 | the exact condition under which a run with one cut segment reads, and what it reads as |
| RunLog.CrashPrefix | src/firecube/core/controlplane/_wal_reader.py:422-428 | a crash in the last segment leaves a prefix of what was appended, with every earlier segment whole |
| RunLog.ClosedCrashedRun | src/firecube/core/controlplane/_wal_reader.py:475-483 | one more segment with the event that ends the run makes a crashed run readable for good |
| RunLog.PersistedIdsDiffer | src/firecube/core/controlplane/events.py:162-164 | all event ids of a run are distinct, whichever writers wrote them |
| CodecWitness.LawfulCodec | src/firecube/core/controlplane/events.py:199-200 | events can be written as the model asks |
| RunEventWriter.RunDirectory.Create | src/firecube/core/controlplane/events.py:198-202 | a new segment never replaces one that is there |
| RunEventWriter.DiscoverNextPartIndex | src/firecube/core/controlplane/events.py:225-237 | one more than the highest part listed, and 0 without a listing |
| RunEventWriter.Writer.constructor | src/firecube/core/controlplane/events.py:93-155 | a writer continues after the last segment, whoever wrote it and however it was cut; without a listing it starts at part 0 |
| RunEventWriter.Writer.Append | src/firecube/core/controlplane/events.py:166-192 | the event's id names its part and position; it is buffered, or the buffer and it make one new segment |
| RunEventWriter.Writer.Flush | src/firecube/core/controlplane/events.py:194-206 | the buffer becomes one new segment and nothing else changes; the metadata follows |
| RunEventWriter.Writer.CrashInFlush | src/firecube/core/controlplane/events.py:198-202 | a crash leaves any beginning of the segment and every earlier one whole |
| RunEventWriter.Writer.Finalize | src/firecube/core/controlplane/events.py:208-223 | the rest is flushed and the metadata is terminal |
| RunEventWriter.JoinedIsText | src/firecube/core/controlplane/events.py:199-200 | the joined payload is one line for each event |
| RunEventWriter.Recorder.OpenWriter | src/firecube/core/controlplane/_wal_writer.py:492-531 | the open writer, or a new one that resumes the run without touching its metadata |
| RunEventWriter.Recorder.RecordRunTerminal | src/firecube/core/controlplane/_wal_writer.py:77-122 | for one of the three statuses that end a run, one more segment: what was pending and exactly one event, of the type that goes with the status; the metadata is terminal and the writer is gone |
| RunEventWriter.Recorder.AbandonRun | src/firecube/core/controlplane/_wal_writer.py:387-423 | a terminal run is left as it is, any other ends with one abandon event |
| RunEventWriter.AbandonAfterCrash | src/firecube/core/controlplane/_wal_writer.py:387-423 | a run torn anywhere, abandoned twice by another process, reads as every whole event and one abandon event, and no read of the control plane, full or cached, sees a record of it |
| RunEventWriter.OnlyCompleteRunsProject | src/firecube/core/controlplane/_event_processor.py:122-136 | a run whose metadata says anything but complete, as an abandoned one's does, changes no projection, whatever its segments read as and whatever other runs there are |
| Templates.PrintedParses | src/firecube/core/errors.py:294-297 | a printed template parses back to the same text and fields |
| Templates.ParseIsPieces | src/firecube/core/errors.py:239-243 | how the parser splits literal text does not matter |
| Templates.ParsedTokensAreClean | src/firecube/core/errors.py:239-243 | every parsed field prints as text that ends where it ended |
| Messages.WithoutTrailingStop | src/firecube/core/errors.py:223-284 | the loop over the token stack, through nested messages, computes the trimmed message |
| Messages.TrimToken | src/firecube/core/errors.py:250-274 | one turn of the loop: the token is trimmed, kept, or dropped with the trim reaching the token before it |
| Messages.FreeName | src/firecube/core/errors.py:245-247 | the name of the new part is the name of no part |
| Messages.AsItselfMeaning | src/firecube/core/errors.py:256-259 | a field shows its part as itself exactly without access, spec, or a conversion other than `s` |
| Messages.InStep | src/firecube/core/errors.py:223-284 | the library text loses an end of dots and spaces, and another rendering loses that same end if and only if no message is dropped that shows something there |
| Messages.InStepForAll | src/firecube/core/errors.py:223-284 | every rendering loses the same end if no message is dropped of which tokens are left; where typed parts and messages are shown as themselves, only if |
| Messages.TrimEnds | src/firecube/core/errors.py:223-284 | in any rendering the trimmed text ends with the text of a kept field, found through messages shown as themselves, or in a character that is neither dot nor space, or no token is left |
| Messages.TrimReparses | src/firecube/core/errors.py:280-284 | the trimmed template parses back to the trimmed tokens |
| Messages.TrimTwice | src/firecube/core/errors.py:223-284 | trimming again changes no rendering |
| Messages.TrimKeepsOperations | src/firecube/core/errors.py:274-279 | the recovery operations reachable from the message stay the same |
| Messages.TrimKeepsEveryPart | src/firecube/core/errors.py:244-279 | every part stays under its name, or trimmed under the new one where it was the message at the end and is shown nowhere else; no other part is added |
| Messages.SilentPartIsLost | src/firecube/core/errors.py:260-274 | a typed part that shows nothing in the library text, alone in a nested message, is lost to every rendering |
| JsonText.PlainQuote | src/firecube/cli/zarr/_slots.py:451 | plain text is quoted as it is |
| JsonReader.IntTextMeaning | src/firecube/cli/zarr/_slots.py:452-472 | a printed number is the digits that stand for it, after a minus sign if it is negative |
| JsonReader.QuoteReadsBack | src/firecube/cli/zarr/_slots.py:451 | a quoted string, every escape in it undone, reads as the string |
| JsonReader.QuotedIsAscii | src/firecube/cli/zarr/_slots.py:451 | quoted text is printable ASCII, and text without quotes, backslashes or other characters stays as it is |
| JsonReader.DumpsReadsBack | src/firecube/cli/zarr/_slots.py:447 | the pretty printer's text of any value reads as that value |
| SlotPlan.RangeLines | src/firecube/cli/zarr/_slots.py:453-472 | the text spelled for one range is the pretty printer's, line for line |
| SlotPlan.HeadOfEmptyPlan | src/firecube/cli/zarr/_slots.py:447 | cutting at the last empty list gives the text before the list of ranges |
| SlotPlan.PlanText | src/firecube/cli/zarr/_slots.py:440-475 | the pretty printer's text of a plan is its head, its ranges each after their opener, and the closing brackets |
| SlotPlan.JsonPieces | src/firecube/cli/zarr/_slots.py:440-475 | for any header and any number of groups and ranges the pieces concatenate to what `StreamedIsPlan` compares with the pretty printer's text; a reader gets the header and exactly the ranges from it |
| SlotPlan.StreamedIsPlan | src/firecube/cli/zarr/_slots.py:440-475 | what is written is the pretty printer's text of the whole plan and a line feed when no member of the header comes after one named `ranges`, and for a plan that has a range only then |
| SlotPlan.PlanSays | src/firecube/cli/zarr/_slots.py:440-475 | a reader of the plan's text gets the header and, in order, exactly the ranges: group, start and end, in the fields, the environment and the arguments |
| SlotPlan.EchoBatched | src/firecube/cli/zarr/_slots.py:428-437 | the writes concatenate to the pieces, one write for every 1024 of them or part of it |
| SlotPlan.EmitJson | src/firecube/cli/zarr/_slots.py:478-488 | what is written is the whole plan and a line feed, for a plan that has a range if and only if no member of the header comes after one named `ranges`; a reader gets the header and exactly the ranges from it |
| Inventory.ScanDirectory | src/firecube/core/controlplane/inventories.py:192-202 | the directories to go into and the files among the entries of one directory that are neither listed nor left over from a write |
| Inventory.UnlistedLocalFiles | src/firecube/core/controlplane/inventories.py:176-202 | the worklist ends, and finds exactly the regular files of the tree that are not listed, outside the claims and leftovers, in text order |
| Inventory.BuildDigestInventory | src/firecube/core/controlplane/inventories.py:226-264 | when an inventory of a local or remote product succeeds, and that it then records the key, size and digest of each included object, once each, in text order; for a local one, of every regular file on disk but claims and leftovers |
| InventoryKeys.ExcludedMeaning | src/firecube/core/controlplane/inventories.py:87-150 | which keys are refused and which are recorded, in terms of how the key is spelled |
| Inventory.OrdinaryFilesAreRecorded | src/firecube/core/controlplane/inventories.py:87-150 | a file on disk that is no claim is recorded when its name begins with neither prefix of a temporary |
| Inventory.TemporariesAreLeftOut | src/firecube/core/controlplane/inventories.py:87-102 | a publication temporary is never recorded, an atomic writer's one is left out exactly below `.firecube/` |
| Inventory.LogSegmentsAreRecorded | src/firecube/core/controlplane/inventories.py:226-264 | every log segment on disk is recorded |

## Left out

- Claims.FilesystemClaimService.Acquire: each request is answered at once and truly; lost, late and wrong answers of the same calls are in the step system, with the same decisions.
- Claims.FilesystemClaimService.RetireJudged: covers `clear_claim` and `release_claim_if_unchanged`, which differ in what they judge and what they call the outcome.
- CompactCache.CachedReadRefinesFullReplay: takes run ids with completion times as distinct, and the files of a complete run as unchanged since the cache was written.
- RunEventWriter.Recorder.RecordRunTerminal: one run with one directory; the dictionary of writers by product and run is not part of this model, and the slot range and skipped counts are part of the event's opaque body.
- RunEventWriter.Recorder.OpenWriter: takes a listing that works; the constructor of the writer also covers one that fails.
- RunLog.CrashPrefix: up to 100000 segments; beyond that the text order of the names is not the order of writing (`NameOrderExact`).
- JsonReader.DumpsReadsBack: for integers; the plan's header holds no other numbers.
- Messages.InStep: for templates whose format specs hold no nested field.
- Messages.InStepForAll: the second half leaves out typed parts and messages under a spec, a conversion or an access, which may show nothing in every rendering; `InStep` is exact for them too.
- SlotPlan.StreamedIsPlan: for a plan without ranges under a header with members after `ranges`, says what is written but not when that is the whole plan.
- Inventory.BuildDigestInventory: a tree that does not change during the walk; the SHA-256 function is a parameter, and a listing with an object outside the product is not part of this model.
- Storage drivers and conditional writes below their contract, the file system, URI parsing and listing caches.
- Clocks and lock waits: times are parameters, and a wait that runs out is one. Missing or zero timestamps of events, for which the code takes the current time, do not occur.
- Claim records as bytes: a record is parsed or unreadable. Two domains with the same record name do not occur.
- Heartbeat thread, log messages, metrics, age warning of the cache, and the loop of `confirm_held_claims` over its handles.
- Values of other types in an event or record where the code converts with `str` or `float`.
- Order of `recovery` and the facts of `RefusalContext`: only the set of operations is kept track of.
- Generation of ranges from aligned intervals (`slot_plan.py`), and the table and CSV outputs.
- History listing, chunk filters, run entry repair, slot index and maintenance events: single-branch facts over the functions modelled here.
