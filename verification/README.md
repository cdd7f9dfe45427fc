# SignalScope: verified model

SignalScope is a gateway between two CAN buses. It forwards every frame, lets a transactional rule
engine rewrite payloads on the way, answers diagnostic jobs over the same bus, and records traffic to
flash. This project models its deterministic core in Dafny and proves what the core is for: no frame is
lost or mutated twice, a rule set changes as a whole or not at all, a diagnostic job ends exactly once
and in bounded time, and a recording survives power loss.

The model takes the form of the code. What the source updates in place is a class with the same fields
(`MutationEngine`, `ActiveRuleTable`, `GatewayCore` with its `LaneRings`, `FrameCache`,
`CanTraceQueue`, `DiagnosticTransport` with its `TxSlot` and `ResponseBuffer`, `SessionLogRecorder`),
its loops are loops over arrays, and every method is proved against a function on values. The theorems are about those functions, over every input and every run.
Lock-free protocols (reader gate, statistics buffers, trace ring) are state machines over sequentially
consistent atomic steps in any interleaving.

| files | subject |
|---|---|
| `Types`, `Modulo` | frames, directions, results; two facts about `%` |
| `BitLayout`, `SignalCodec` | Intel and Motorola fields; reading, writing, masks, positions, sign extension |
| `Rules`, `CompileSpec`, `ListingOrder`, `RuleTable`, `Compiler`, `PreviewUi` | rules, their order, the hash-indexed table and its compile, the listing of the preview tool |
| `FrameEffect`, `Crc`, `Checksums`, `Counters`, `Emissions`, `FrameRules` | what the rules do to one frame and to a run of frames |
| `EngineState`, `EngineInvariant`, `LiveValues`, `AuthoringOrder`, `RevertCommit`, `MutationEngine` | staging, commit, revert and live control |
| `ReaderGate` | the gate between frame processing and commit |
| `RulePackage`, `PackageBindings`, `PackageLoader` | package loading |
| `GatewaySpec`, `GatewayProofs`, `GatewayHistory`, `GatewayPolicy`, `GatewayWire`, `Ring`, `Gateway` | queues, fair loops, reception, direction policy, transmission |
| `StatsSnapshot`, `TraceRing`, `TraceQueue`, `TraceWrap` | triple-buffered statistics, SPSC trace ring, its calls and its index wrap |
| `FrameCacheSpec`, `FrameCache` | the open-addressing frame cache |
| `DiagnosticSpec`, `DiagnosticInvariant`, `DiagnosticProofs`, `DiagnosticEnding`, `DiagnosticLate`, `DiagnosticClock`, `DiagnosticCalls`, `DiagnosticAnswers`, `DiagnosticOffers`, `IsoTpRoundTrip`, `KwpRoundTrip` | diagnostic jobs over ISO-TP and TP2.0 |
| `DiagnosticBuffers`, `DiagnosticCases`, `DiagnosticSteps`, `DiagnosticTransport` | the transport's calls on its buffers and counters |
| `SessionDisk`, `SessionRecovery`, `CheckpointRecovery`, `CheckpointTicks`, `SessionLog` | recording, checkpoints, promotion and boot recovery |

Conventions. A payload is eight `bv8` bytes. A 64-bit raw value is a natural number with the predicate
`RawBit`; 32-bit counters wrap explicitly. The transmit driver, the application values that a source-fed
rule reads, and the power supply are arbitrary functions or budgets chosen by the environment. On disk a
file is a sequence of octets with their values, in which the first octet of a record also carries what
the record's header says; every file operation either succeeds or the power is gone, and an interrupted
write leaves any beginning of what was written. A checksum that matches means that the content matches.

## Model

| member | source | states |
|---|---|---|
| BitLayout.MotorolaStep | core/mutation_engine.cpp:790-795 | the next Motorola bit is the next place in most-significant-first order, for every bit of the frame |
| BitLayout.WriteBack | core/signal_codec.cpp:67-143 | writing back what was read changes no bit of the frame |
| SignalCodec.WriteFrameBit | core/signal_codec.cpp:24-38 | exactly one of the 64 frame bits is set to the value; an index of 64 or more changes nothing |
| SignalCodec.SignalFitsPayload | core/signal_codec.cpp:47-65 | accepts a signal if and only if every bit of it lies inside the advertised payload |
| SignalCodec.ExtractRaw | core/signal_codec.cpp:67-107 | succeeds exactly for fields inside the frame, and then each raw bit is the frame bit that the layout gives it |
| SignalCodec.InsertRaw | core/signal_codec.cpp:109-145 | succeeds exactly for fields inside the frame; the field then holds the value and no other bit changed |
| SignalCodec.BuildBitMaskAndValue | core/mutation_engine.cpp:853-905 | accepts exactly the fields that fit; mask and value have exactly the bits of the field, and of the value placed in it |
| SignalCodec.BuildDynamicBitPositions | core/mutation_engine.cpp:907-939 | accepts exactly the fields of at most 32 bits that fit, and lists the frame bit of each raw bit, least significant first |
| SignalCodec.WriteDynamicValue | core/mutation_engine.cpp:1270-1288 | the loop over stored positions writes the saturated value into the field and leaves every other bit |
| SignalCodec.LayoutsAgree | core/mutation_engine.cpp:853-939 | static masks, dynamic positions and `insertRaw` produce the same frame for every value that fits, and reading that frame returns exactly that value |
| SignalCodec.SignRoundTrip | core/signal_codec.cpp:147-221 | decoding an encoded integer returns the clamped integer, for both signs and every width up to the word |
| SignalCodec.ClampIsNearest | core/signal_codec.cpp:176-221 | the clamped integer is the nearest one that the field can show, and the integer itself whenever the field can show it |
| SignalCodec.DecodedIsTwosComplement | core/signal_codec.cpp:147-174 | raw values are two's complement of the field for signed signals, of the word for unsigned ones of full width |
| SignalCodec.CodecRoundTrip | core/signal_codec.cpp:147-221 | writing an encoded integer into a field, reading the field back and decoding gives the clamped integer and no other, for both layouts, both signs and every length from 1 to 64 |
| SignalCodec.EncodeSignal | core/signal_codec.cpp:176-221 | succeeds exactly for fields inside the frame; the field then shows the clamped integer and only that one, and no other bit changed |
| SignalCodec.DecodeSignal | core/signal_codec.cpp:147-174 | succeeds exactly for fields inside the frame, with the one integer the field shows |
| Rules.NormalizeRule | core/mutation_engine.cpp:797-845 | accepts exactly the requests that satisfy the per-kind limits |
| Rules.CompileRule | core/mutation_engine.cpp:1039-1124 | fails exactly when a runtime name does not resolve; otherwise masks, positions and indices are those of the rule |
| Rules.ResolvesMeans | core/mutation_engine.cpp:1039-1124 | a rule resolves exactly when each value and table it reads at run time is published under an index of at most 0x7FFF and an override has both its names |
| Rules.IndicesArePublished | core/mutation_engine.cpp:1039-1124 | a compiled rule refers to whatever it names by the published index |
| CompileSpec.OrderUnique | core/mutation_engine.cpp:292-307 | there is only one order of the staged slots by (sequence, slot) |
| CompileSpec.RulesForKey | core/mutation_engine.cpp:282-373 | for every (identifier, direction) the compiled order holds exactly the staged rules of that key: bit ranges, then masks, counters, sequences, exclusive-or checksums and CRCs, and rules of one kind by sequence and slot |
| Compiler.OrderSlots | core/mutation_engine.cpp:292-307 | the insertion sort over the slots yields that order |
| ListingOrder.ListingIsOrdered | tools/preview_ui.py:615-648 | the listing holds the authored rules, none left out and none invented: keys in the order of their first rule, kinds in order within a key, rules of one kind by sequence and slot |
| RuleTable.ActiveRuleTable.FindGroup | core/mutation_engine.cpp:995-1011 | following the chain terminates and finds the group of the key, or reports that there is none |
| RuleTable.ActiveRuleTable.EnsureGroup | core/mutation_engine.cpp:1013-1037 | keeps every chain ordered, adds a group for a new key only, and fails only when the table is full |
| Compiler.Compile | core/mutation_engine.cpp:290-373 | counting pass, prefix sums and placement fill the table with exactly the candidate, keys in the order of their first staged rule and, within a key, kind by kind up to the checksums; it fails if and only if some runtime name does not resolve |
| Compiler.LookUp | core/mutation_engine.cpp:459-480 | the slice a frame reads through the hash chain is exactly the compiled rules of its key, in order |
| Compiler.TableIsListing | tools/preview_ui.py:615-648 | the stored table, read from the start, is the listing of `compile_active_rules`, entry by entry |
| PreviewUi.CompileActiveRules | tools/preview_ui.py:615-648 | the grouping loops of the preview tool produce that same listing: every authored rule, keys in the order of their first one, and within a key the order of the kinds and of authoring |
| FrameEffect.UnownedBitsKept | core/mutation_engine.cpp:459-510 | a frame bit that no running rule owns keeps its received value, whatever rules run |
| FrameEffect.GateDecides | core/mutation_engine.cpp:1200-1211 | a rule runs if and only if it is switched on and its selector, if it has one, can be read and is in one of its states; otherwise frame and slot stay as they are |
| FrameEffect.BitRangeShows | core/mutation_engine.cpp:1213-1288 | a bit range shows its replacement value, its live value, or what its source yields, at most the largest value of the field; a source without a value leaves the frame alone |
| FrameEffect.MaskRuleShows | core/mutation_engine.cpp:1290-1294 | a mask rule puts its value where its mask is set and keeps every other bit |
| Checksums.XorIsParity | core/mutation_engine.cpp:1166-1172 | each bit of an exclusive-or checksum is the parity of that bit in the seed and the protected bytes |
| Checksums.CheckValue | core/mutation_engine.cpp:1174-1194 | the octets of "123456789", the last one as the identifier that the counter selects, give the check value 0xDF of CRC-8/AUTOSAR |
| Checksums.OneOctetChanged | core/mutation_engine.cpp:1174-1194 | a change of one protected octet always changes the checksum, by an amount that depends on the change and its place alone |
| Checksums.ChecksumCoversFrame | core/mutation_engine.cpp:325-332 | when exactly one checksum rule of a key runs in a frame, the frame leaves with the checksum of the payload it leaves with, provided that the rule does not read the byte it writes |
| Counters.CounterGoesRound | core/mutation_engine.cpp:1126-1144 | in closed form, the value of the k-th frame of a counter that cannot leave 32 bits: up to the first value not below the limit, then round and round from the restart value |
| Counters.CounterClimbs | core/mutation_engine.cpp:1126-1144 | with any parameters, a counter climbs by its step modulo 2^32 as long as it stays below its limit |
| Counters.CounterRestarts | core/mutation_engine.cpp:1126-1144 | with any parameters, a value not below the limit is followed by the restart value and what follows that |
| Counters.SequenceGoesRound | core/mutation_engine.cpp:1146-1164 | the k-th frame of a sequence carries the k-th listed value from the stored index on, round and round |
| Emissions.SlotCountsFrames | core/mutation_engine.cpp:459-510 | after any frames of any keys the live slot of a rule has advanced once for each frame in which the rule ran, and for no other |
| Emissions.ValuesInTurn | core/mutation_engine.cpp:1126-1164 | in every run of frames, the frame in which a counter or sequence rule runs for the k-th time carries the k-th value in its field, unless a later rule overwrites it |
| FrameRules.ApplyXorChecksum | core/mutation_engine.cpp:1166-1172 | each bit of the target byte becomes the parity of that bit in the seed and the protected bytes; no other byte changes |
| FrameRules.ApplyAutosarChecksum | core/mutation_engine.cpp:1174-1194 | the target byte becomes the CRC-8/AUTOSAR of the protected bytes and the counter-selected identifier; `CheckValue` and `OneOctetChanged` say what that is |
| FrameRules.ApplyGroup | core/mutation_engine.cpp:459-510 | the frame and the live slots become those of applying the rules one after another; the result counts the rules that ran |
| EngineInvariant.StepPreserves | core/mutation_engine.cpp:184-691 | every API call and every frame keeps the invariant that ties candidate, committed rules, live slots and active table together |
| EngineInvariant.CandidateInvariant | core/mutation_engine.cpp:184-413 | after any calls: a clean candidate equals the committed rules with nothing pending, a rule without a pending publish mirrors its committed rule, identities are distinct, the count is the number of used slots, uncommitted slots have zero runtime state |
| EngineInvariant.RejectedCommit | core/mutation_engine.cpp:282-373 | a commit is refused if and only if a staged name does not resolve, and then nothing at all changes |
| EngineInvariant.StageKeepsPosition | core/mutation_engine.cpp:184-221 | staging touches one slot; a repeated identity keeps its slot and its place in the order |
| LiveValues.StagedGoesLive | core/mutation_engine.cpp:282-413 | a rule that is staged and committed is live with its own switch and its initial counter, index or value, whatever its slot held before |
| LiveValues.CommitPublishes | core/mutation_engine.cpp:375-413 | a commit makes live what is pending, keeps the live value and switch of a rule with nothing pending, and blanks the slots of dropped rules |
| LiveValues.ControlGoesLive | core/mutation_engine.cpp:542-610 | an accepted control with no publish pending sets the live slot and the candidate shows it; all other slots stay |
| LiveValues.ControlWaits | core/mutation_engine.cpp:542-610 | with a publish pending it reaches the candidate alone |
| LiveValues.ControlActiveGoesLive | core/mutation_engine.cpp:612-656 | a live control sets the live slot; a candidate with other content stays |
| LiveValues.StaleHandlesRefused | core/mutation_engine.cpp:1314-1318 | after a staging, clearing, revert or commit every control under an earlier epoch is refused and changes nothing |
| AuthoringOrder.NewRuleGoesLast | core/mutation_engine.cpp:1305-1312 | in every run, however many frames and controls it has: until 65535 new identities have been staged, a new one sorts behind every rule already staged |
| AuthoringOrder.NewRuleOrder | core/mutation_engine.cpp:1305-1312 | in every run a new identity sorts behind a staged rule exactly when the numbers of the two identities in the count of new identities say so |
| AuthoringOrder.GoesLastIff | core/mutation_engine.cpp:1305-1312 | in every run a new identity goes behind every staged rule if and only if the count of new identities (plus one) has passed no multiple of 65536 since any of them was first staged |
| AuthoringOrder.WrapReorders | core/mutation_engine.cpp:1305-1312 | the bound is exact: a run from the start with 65535 new identities (a committed rule, and another one staged and reverted again and again), after which a new identity sorts before the committed rule |
| RevertCommit.RevertThenCommit | core/mutation_engine.cpp:268-413 | from any reachable state, with a registry that has only grown, revert and commit succeeds, keeps committed rules, live slots and sequence counter, and no sequence of later frames can tell the difference |
| MutationCore.MutationEngine.StageRule | core/mutation_engine.cpp:184-221 | takes the staging step in place: slot of the identity or first free slot, error paths change nothing |
| MutationCore.MutationEngine.ClearStaging | core/mutation_engine.cpp:250-266 | empties the candidate and marks it dirty exactly when rules are active |
| MutationCore.MutationEngine.RevertStagingToActive | core/mutation_engine.cpp:268-280 | rebuilds the candidate from the committed rules, clean and complete |
| MutationCore.MutationEngine.ApplyCommit | core/mutation_engine.cpp:282-413 | compiles into the inactive table, publishes, swaps; the active table then serves exactly the new rules, or nothing changed |
| MutationCore.MutationEngine.ControlSlot | core/mutation_engine.cpp:542-610 | a legacy control reaches candidate, committed rule and live slot together, or the candidate alone when a publish is pending in the slot |
| MutationCore.MutationEngine.ControlActiveSlot | core/mutation_engine.cpp:612-656 | a live control reaches the committed rule and the live slot, and the candidate only where it mirrors them |
| MutationCore.MutationEngine.ControlStagedSlot | core/mutation_engine.cpp:658-686 | a staged control reaches the candidate only and leaves a publish pending |
| MutationCore.MutationEngine.ApplyFrameMutations | core/mutation_engine.cpp:459-510 | payload and live slots become those of the committed rules of the frame's key, through the active table; `ChecksumCoversFrame` and `ValuesInTurn` say what such a frame carries |
| MutationCore.MutationEngine.HasRulesForFrame | core/mutation_engine.cpp:431-457 | true if and only if some committed rule of the key is switched on |
| MutationCore.MutationEngine.RegisterDynamicSignalRule | core/mutation_engine.cpp:512-540 | stages and commits, and reports an identifier exactly when both succeeded |
| ReaderGate.MutualExclusion | core/mutation_engine.cpp:1330-1351 | with any number of readers, none is in its read section between the return of pause and resume |
| ReaderGate.HeldTableIsStable | core/mutation_engine.cpp:282-413 | no committer step writes an entry of a table a reader holds, or a live slot while a reader is inside |
| ReaderGate.OneCommitPerSection | core/mutation_engine.cpp:380-472 | everything a reader meets in one section belongs to the commit that was current when it entered |
| ReaderGate.DrainProgress | core/mutation_engine.cpp:1342-1347 | while the committer drains, no reader step adds work and each step on the way out removes some; at zero the count is zero |
| RulePackage.MeaningDescribed | core/rule_package.cpp:248-449 | the meaning of a package: each identity once, at the place of its first row, with the content of its last row under the bindings in force there |
| PackageBindings.IdentitiesAgree | tools/preview_ui.py:216-225 | two rows are the same rule for the engine exactly when `rule_identity` gives them the same tuple |
| PackageBindings.BindingsReach | core/rule_package.cpp:289-330 | a rule row gets the table and override of the last such binding in front of it that names its source, and the last gate when it has no selector of its own; nothing else of it changes |
| RulePackage.PackageMeaning | core/rule_package.cpp:248-449 | a package loads if and only if its rows are well formed and acceptable, it has a rule and every name resolves; then exactly its meaning is committed and live, in package order if and only if its identities do not take the sequence counter past a multiple of 65536 |
| RulePackage.RejectionIsHarmless | core/rule_package.cpp:222-244 | a rejected package leaves table and live slots untouched and the candidate equal to the committed rules |
| PackageLoader.LoadCsv | core/rule_package.cpp:248-449 | the row loop with its mutable bindings and guard takes exactly that step on the engine, and reports the number of rules |
| GatewayProofs.Lossless | core/gateway.cpp:162-261 | in every run and direction, accepted frames since the last purge are sent ++ egress ++ raw in order; each was processed once, under a number no other frame has, and is the received frame, stamped, with exactly the engine's outcome of that number where policy permits and as received where not; no transmit failure is ever counted |
| GatewayHistory.AcceptedIsReceived | core/gateway.cpp:162-220 | in every run the accepted frames of a direction are those received since its last purge while fewer than 127 were waiting, exactly as they came and in that order; the others are what is counted as dropped |
| GatewayHistory.ReceivedIsForwarded | core/gateway.cpp:162-445 | sent, then egress, then raw are those frames in order; each left with its identifier, length and direction, and with its own payload or that of an outcome |
| GatewayHistory.PollStamps | core/gateway.cpp:222-261 | a poll processes frames in the order received, stamps each with its own time, and neither adds nor loses a received frame |
| GatewayWire.SentIsOnTheWire | core/gateway.cpp:382-445 | what a direction counts as sent is exactly what its transmitter took last, whatever replays and refusals lie between |
| GatewayProofs.ReplayYields | core/gateway.cpp:181-201 | a replayed frame is offered to the transmitter of its own direction, as given or with the payload of its outcome where policy permits, only when all four queues are empty, and never disturbs them |
| GatewayPolicy.ExcludedDirectionUnmodified | core/gateway.cpp:158-160 | in every run: while the policy keeps a direction out, every frame of it that is processed comes out exactly as it went in, whatever rules are loaded and whatever the other direction does |
| GatewayPolicy.IncludedDirectionMutated | core/gateway.cpp:158-160 | in every run: while writes are allowed and the direction is in the mask, every processed frame carries exactly the payload of the engine's outcome of its own number, if that has rules for it, and is otherwise as it was |
| GatewayProofs.BoundedPoll | core/gateway.cpp:222-261 | one poll makes at most 32 driver calls |
| GatewayProofs.FlushRoundsAlternate | core/gateway.cpp:424-445 | the direction whose turn it is makes the first driver call of a flush round if it can, and the other one starts the next round |
| GatewayProofs.RawRoundsAlternate | core/gateway.cpp:222-261 | the direction whose turn it is forwards the first frame of a raw round if it can, and the other one starts the next round |
| GatewayProofs.DirectionIsolation | core/gateway.cpp:222-445 | if one direction's transmitter takes everything, a poll moves at least min(raw depth, 8) of its frames, whatever the other one refuses |
| GatewayModule.GatewayCore.OnFrameReceived | core/gateway.cpp:162-179 | the ring push behind the interrupt takes the reception step (`AcceptedIsReceived` says what that keeps); a full ring drops and counts |
| GatewayModule.GatewayCore.PollRx | core/gateway.cpp:222-261 | both fair loops over the rings take exactly the poll step |
| GatewayModule.GatewayCore.FlushOneEgress | core/gateway.cpp:413-422 | the front frame is offered once and leaves the ring only when taken |
| GatewayModule.GatewayCore.InjectReplayFrame | core/gateway.cpp:181-201 | takes the replay step and reports whether the frame was sent or rehearsed |
| GatewayModule.GatewayCore.PurgeDirection | core/gateway.cpp:203-220 | empties both queues of one direction and nothing else |
| StatsSnapshot.SnapshotIsWhole | core/gateway.cpp:267-293 | every finished snapshot is one whole published value |
| StatsSnapshot.SnapshotIsLatestAtRecheck | core/gateway.cpp:281-293 | that value is the latest at the reader's re-check, and no later step of anyone changes it under the reader |
| StatsSnapshot.PublisherNeverWaits | core/gateway.cpp:267-279 | every publisher step brings its call closer to the end and no reader step sets it back |
| TraceRing.PopsAreAccepted | core/can_trace.cpp:132-163 | in every interleaving the pops are the accepted events, in order and unmodified, as long as the capacity divides 2^32 or the index has not wrapped |
| TraceRing.NoOverwriteWhileReading | core/can_trace.cpp:132-163 | the producer never writes the slot being read |
| TraceRing.DropsAreGaps | core/can_trace.cpp:132-153 | at quiescence allocated numbers are accepted plus dropped, and every missing number is a counted drop |
| TraceWrap.PopsAreAcceptedIff | core/can_trace.cpp:132-163 | the pops of every run are its accepted events, in order, if and only if the capacity divides 2^32 |
| TraceWrap.WrapOverwrites | core/can_trace.cpp:132-163 | for any other capacity a run from the start (push and pop in turn up to the last multiple of the capacity, pushes up to 2^32, one more push, one pop) ends with a pop that returns the newest event in place of the oldest unread one |
| TraceQueue.PushIsSteps | core/can_trace.cpp:132-153 | the atomic steps of one uninterrupted push add one number and either the event to the ring or one drop; nothing while inactive |
| TraceQueue.StartIsSteps | core/can_trace.cpp:59-71 | with the producer idle, the steps of `start` discard what is unread and begin a session with zero counters |
| TraceQueue.CanTraceQueue.PushEvent | core/can_trace.cpp:132-153 | the call on the fields is exactly those steps, so everything proved of every run holds of the queue |
| TraceQueue.CanTraceQueue.Pop | core/can_trace.cpp:155-163 | returns the event at the read index and advances it, or nothing when the indices meet; exactly the steps of one pop |
| FrameCacheSpec.StoredIsFound | core/frame_cache.cpp:326-393 | probing for a stored key ends at its slot, even after evictions |
| FrameCacheSpec.StoreKeeps | core/frame_cache.cpp:326-393 | storing a key, with or without eviction, keeps keys distinct and every probe path used |
| FrameCacheSpec.RoundRobin | core/frame_cache.cpp:326-393 | over any sequence of stores the k-th eviction takes slot (cursor + k) mod 512, and the cursor ends behind the last one |
| FrameCacheSpec.KeySurvives | core/frame_cache.cpp:326-393 | a stored key stays where it is until the cursor has come round to its slot and one more eviction happens |
| FrameCacheSpec.EverySlotOnce | core/frame_cache.cpp:326-393 | any 512 consecutive evictions take every slot exactly once |
| FrameCacheSpec.ReadIsLastUpdate | core/frame_cache.cpp:196-264 | a read shows the last update since the key was created |
| FrameCacheSpec.ReadPhysicalIsLastBusFrame | core/frame_cache.cpp:196-264 | a physical read shows the last frame from the bus as it was before any mutation, whatever synthetic updates interleave, and nothing when there was none |
| FrameCacheModule.FrameCache.FindOrCreate | core/frame_cache.cpp:326-393 | the probe loop finds the slot of the key or a free one; otherwise it takes the slot under the eviction cursor, which moves on by one, and only then |
| FrameCacheModule.FrameCache.Update | core/frame_cache.cpp:51-127 | the table keeps representing the bounded map: the key's history grows, or starts in place of the evicted key, keys and cursor are exactly those of the round-robin store; a contended lock changes nothing |
| FrameCacheModule.FrameCache.ReadPhysical | core/frame_cache.cpp:232-264 | returns the physical view of the key's history, nothing for an absent key or a contended lock |
| DiagnosticInvariant.StepGood | core/diagnostic_transport.cpp:1073-1320 | every submission, cancellation, abort, tick and frame keeps the phase, numbering and bookkeeping invariant |
| DiagnosticProofs.JobsEndOnce | core/diagnostic_transport.cpp:291-369 | in every run submitted = completed + failed + cancelled + busy, a frame is pending exactly in the sending phases, and a complete TP2.0 job has all its responses, each reaching its advertised length exactly at opcode 1 or 3 |
| DiagnosticProofs.TelegramNumbers | core/diagnostic_transport.cpp:437-461 | the k-th KWP telegram carries k mod 16 and expects k + 1 mod 16 |
| DiagnosticProofs.FragmentNumbers | core/diagnostic_transport.cpp:864-962 | the k-th accepted fragment carries k mod 16; any other number ends the job |
| DiagnosticClock.FreshFrameGoesOutIff | core/diagnostic_transport.cpp:204-206 | a newly staged frame is offered to the transmitter if and only if the clock is below 2^31 |
| DiagnosticEnding.EndingIsBounded | core/diagnostic_transport.cpp:565-642 | from its deadline tick on a job makes at most eight driver calls and never leaves its ending, whatever the clock shows at the ticks and whatever frames, cancellations, aborts and refused submissions arrive |
| DiagnosticEnding.JobEndsInTime | core/diagnostic_transport.cpp:565-642 | and it ends: without an open TP2.0 channel at once, at any clock; with one, on a clock below 2^31, once the ticks, however many others lie between, include seven at a retry delay and then one at a disconnect wait from each other, whatever the transmitter answers |
| DiagnosticEnding.JobEndsByTime | core/diagnostic_transport.cpp:565-642 | with ticks at most g milliseconds apart on a clock below 2^31 the job is over 64 + 8 g milliseconds after its deadline tick; without an open TP2.0 channel at once, at any clock |
| DiagnosticEnding.DeadlineTickEndsIff | core/diagnostic_transport.cpp:1245-1289 | at any clock the deadline tick itself ends the job, without a driver call, if and only if no TP2.0 channel is open |
| DiagnosticLate.LateJobEndsIff | core/diagnostic_transport.cpp:608-642 | while the clock shows 2^31 or more and no other tester appears, a job whose deadline passes ends if and only if it has no open TP2.0 channel; the release of an open one is never offered to the driver, however often the transport ticks |
| DiagnosticLate.LateJobStays | core/diagnostic_transport.cpp:608-642 | a run from the start that gets there: submission, a tick one millisecond before 2^31, a positive setup reply, and from the deadline tick at 2^31 on the transport stays busy |
| DiagnosticClock.EveryJobEndsInTime | core/diagnostic_transport.cpp:1245-1306 | in every run the open job makes at most eight driver calls from its deadline tick on; it is over at once when it has no open TP2.0 channel, and otherwise 64 + 8 g milliseconds later if the clock of the run stays below 2^31, does not run backwards and ticks at most g milliseconds apart |
| IsoTpRoundTrip.IsoTpResponseRoundTrip | core/diagnostic_transport.cpp:763-862 | any positive response of 8 to 512 octets (first octet as asked for, or that of the request plus 0x40), segmented as in section 9.6 of ISO 15765-2:2016 with block size 0 and any padding, is reassembled exactly and completes the job on its last consecutive frame, with any ticks, refused flow control attempts, foreign frames, pending replies, submissions and cancellations of other jobs in between |
| IsoTpRoundTrip.PlainDelivery | core/diagnostic_transport.cpp:763-862 | first frame, one accepted tick and the consecutive frames are such a delivery, for every response |
| IsoTpRoundTrip.SingleFrameRoundTrip | core/diagnostic_transport.cpp:780-801 | a positive response of up to 7 octets (first octet as asked for, or that of the request plus 0x40) in a single frame, with any padding, completes the job with exactly those octets |
| IsoTpRoundTrip.OtherSingleFrames | core/diagnostic_transport.cpp:381-424 | any other single frame: a pending reply to this request leaves the job waiting, another negative reply to it fails the job, and everything else changes nothing and is passed on |
| DiagnosticAnswers.OnlyAnswersComplete | core/diagnostic_transport.cpp:208-213 | in every run a job completes only with responses whose first octet is the one asked for or that of the request plus 0x40; its deadline is the clock at which it was picked up plus its timeout; the frame waiting in each phase is given octet by octet, with its address |
| DiagnosticAnswers.SetupNegotiates | core/diagnostic_transport.cpp:964-1013 | a positive setup reply opens the channel, ECU on the first identifier and tester on the second, exactly when both are valid and the application type matches; otherwise the job ends as rejected or not negotiated |
| DiagnosticOffers.OfferedIsProper | core/diagnostic_transport.cpp:565-606 | in every run a tick offers the driver nothing but the frame of the phase in which the job then is |
| DiagnosticOffers.RequestIsOffered | core/diagnostic_transport.cpp:644-700 | the tick that picks up a job offers its request at once on a clock below 2^31: length octet, payload and padding for ISO-TP, the channel setup for TP2.0 |
| DiagnosticOffers.PauseBegins | core/diagnostic_transport.cpp:463-477 | a request that is not the last one of its job is followed by a pause of the interval asked for, with a channel test 350 milliseconds on |
| DiagnosticOffers.PauseTick | core/diagnostic_transport.cpp:1290-1306 | in the pause a tick repeats the request exactly when the interval is over, else sends a channel test exactly when one is due |
| IsoTpRoundTrip.AssemblyIsPrefix | core/diagnostic_transport.cpp:780-862 | assembled octets stay within the advertised length and only grow; a wrong sequence number ends the job |
| KwpRoundTrip.KwpResponseRoundTrip | core/diagnostic_transport.cpp:864-962 | any positive KWP response of 1 to 512 octets (first octet as asked for, or that of the request plus 0x40), cut into fragments of any length under opcodes 0 to 3 with any padding of the last one, goes on record exactly as it was sent, with ticks, acknowledgements, refusals, pending replies, foreign frames, submissions and cancellations of other jobs in between; the last one wanted completes the job but for its release |
| KwpRoundTrip.EveryCutIsBrought | core/diagnostic_transport.cpp:864-962 | for every response and every cut of it there is such an exchange, on a clock below 2^31 and before the deadline |
| DiagnosticCalls.JobNumbers | core/diagnostic_transport.cpp:1073-1100 | in every run the n-th accepted submission (from 0) gets identifier n mod (2^32 - 1) + 1: never 0, and repeated only after 2^32 - 1 submissions |
| DiagnosticCalls.EndsAreCounted | core/diagnostic_transport.cpp:291-321 | a tick, frame, cancellation or abort raises one of the three end counters exactly when it ends the open job, and opens none |
| DiagnosticCalls.CancelTakesEffect | core/diagnostic_transport.cpp:1245-1277 | after a cancellation the next tick ends the job as cancelled or leaves it with nothing but its disconnect and that outcome; a queued job ends without a driver call |
| DiagnosticCalls.AbortTakesEffect | core/diagnostic_transport.cpp:1308-1319 | after an abort the next tick ends the job as failed with that error or leaves it with nothing but its disconnect and that outcome; without an open job an abort changes nothing |
| DiagnosticCalls.ConsumedIsOurs | core/diagnostic_transport.cpp:1151-1188 | only frames of the ECU's side on an identifier of the running job are withheld from the gateway |
| DiagnosticCalls.CollisionEnds | core/diagnostic_transport.cpp:755-762 | a request of another tester (the request identifier, a channel setup to the same address, or a telegram on the channel) ends the running or queued job as failed, with no driver call, and is passed on |
| DiagnosticCalls.AssemblyGrows | core/diagnostic_transport.cpp:780-962 | in both protocols a frame only extends the octets assembled so far, to at most 512, or clears them when the response starts over or the job ends |
| DiagnosticBuffers.ResponseBuffer.Append | core/diagnostic_transport.cpp:910-923 | the copy loop into the 512-octet buffer keeps what was assembled, adds the frame's octets up to the advertised length and never writes behind the buffer |
| DiagnosticModule.DiagnosticTransport.TickAt | core/diagnostic_transport.cpp:1245-1306 | on buffers and counters: exactly the frame of `Offered` goes to the driver, at most one and of at most eight octets, only for an open job; an end is counted once; the invariant of all runs is kept |
| DiagnosticModule.DiagnosticTransport.ObserveIsoResponse | core/diagnostic_transport.cpp:780-862 | reassembles in place: exactly the ISO-TP step, and whether the frame was taken; `SingleFrameRoundTrip`, `IsoTpResponseRoundTrip` and `OtherSingleFrames` say which frames those are |
| DiagnosticModule.DiagnosticTransport.ObservePhysicalFrame | core/diagnostic_transport.cpp:1151-1188 | nothing is sent; another tester's request ends the job and is passed on; only frames of the job's ECU are withheld; the response buffer is extended or cleared; the invariant of all runs is kept |
| DiagnosticModule.DiagnosticTransport.SubmitRequest | core/diagnostic_transport.cpp:1073-1100 | accepted if and only if the request is valid and no job is open, under the number of the submission, with that job queued and shown; a refusal changes nothing |
| DiagnosticModule.DiagnosticTransport.CancelJob | core/diagnostic_transport.cpp:1102-1111 | accepted if and only if the identifier is that of the open job as it is shown |
| SessionRecovery.BeginKeepsNewest | fs/session_log.cpp:475-594 | a boot interrupted anywhere keeps the newest complete session, octet for octet; one that finishes leaves no temporary file |
| SessionRecovery.SavedSessionSurvives | fs/session_log.cpp:1068-1100 | power may fail anywhere in the promotion and in any number of boots after it: these very octets stay in log, temporary or backup, and after a finished boot in log or backup |
| CheckpointRecovery.BeginProgress | fs/session_log.cpp:475-594 | a boot interrupted anywhere keeps the committed prefix recoverable; one that finishes has it in the log |
| CheckpointRecovery.RebootsRecover | fs/session_log.cpp:306-470 | the same over any number of boots, torn manifest writes included: what is recovered is a record-aligned prefix of the octets captured, of at least the committed length |
| SessionRecovery.ResetNotedOnce | fs/session_log.cpp:539-549 | the first boot that recovers a recording notes its reset reason in the other manifest, which is the newest from then on; a noted reason is never written over |
| SessionLog.SessionLogRecorder.CommittedSurvives | fs/session_log.cpp:943-1020 | it holds from every moment of every recording |
| SessionLog.SessionLogRecorder.StartRecording | fs/session_log.cpp:653-751 | starts exactly when idle, with no earlier recording waiting for recovery and at least the minimum capture; the capture is then the file header and the start annotation |
| SessionLog.SessionLogRecorder.AppendRecord | fs/session_log.cpp:858-882 | a record is appended if and only if it fits in front of the 512-octet footer reserve and, for an annotation, within the quarter of the capacity that annotations may use; otherwise nothing changes |
| SessionLog.SessionLogRecorder.CommitCheckpoint | fs/session_log.cpp:943-955 | writes the older manifest slot; the previous commit stays good until the new one is |
| SessionLog.SessionLogRecorder.ProcessCheckpoint | fs/session_log.cpp:966-1020 | one checkpoint tick keeps everything committed; a due one aims at the whole capture, every tick with a target writes 4096 octets of what is missing or the rest, and the last one commits exactly the target |
| CheckpointTicks.DueIsCommitted | fs/session_log.cpp:966-1020 | with the power on, what was captured at a due tick is committed after ceil((captured - written) / 4096) ticks, that one included, not before and for good, however the capture grows meanwhile |
| SessionLog.SessionLogRecorder.FinalizeMemory | fs/session_log.cpp:895-935 | the capture becomes a complete session if and only if there is an End text and it fits, and for texts up to 500 octets it always fits: that is what the reserve is for; otherwise the save is abandoned |
| SessionLog.SessionLogRecorder.FinishSave | fs/session_log.cpp:1068-1100 | promotion puts the capture into the log; interrupted anywhere, it is still the newest complete session |
| SessionLog.SessionLogRecorder.ProcessSaveChunk | fs/session_log.cpp:1022-1109 | a save tick writes 4096 octets of what is missing or the rest, a durable recording from where its checkpoints stopped; when nothing is missing the capture becomes the log |
| CheckpointTicks.SaveReaches | fs/session_log.cpp:1022-1064 | after k such ticks min(start + 4096 k, size) octets are saved |
| SessionLog.SessionLogRecorder.Begin | fs/session_log.cpp:475-594 | the file-by-file boot takes exactly the recovery step |

## Left out

- Floating point: the affine, lookup, override and threshold arithmetic of `applyDynamicRule` and `encodeRuntimeOutput` is one arbitrary function from inputs and stored value to an optional 32-bit output; DBC factor and offset and `stageMutation`'s physical conversion are not modelled.
- LayoutsAgree: claims agreement for values that fit the field; a larger dynamic value saturates, a larger static value is refused by the row parser.
- ChecksumCoversFrame: nothing is claimed of a frame in which several checksum rules of one key run, or of a checksum that reads the byte it writes; the rules are accepted and run in order.
- CounterGoesRound, ValuesInTurn: the closed form is claimed for a step above 0 and a limit with `limit + step <= 2^32`; `CounterClimbs` and `CounterRestarts` determine every other counter step by step.
- PopsAreAccepted: needs the capacity to divide 2^32 or the index not to have wrapped; `PopsAreAcceptedIff` proves that the first is necessary as well.
- NewRuleGoesLast, GoesLastIff: authoring order fails once the 16-bit number wraps (`WrapReorders`); the exact condition is claimed for rules staged less than 65536 new identities ago and before the 32-bit counter itself wraps, the order of any two numbers without that (`NewRuleOrder`).
- JobEndsInTime, JobEndsByTime: the time bounds survive a clock of 2^31 or more exactly for jobs without an open TP2.0 channel (`LateJobEndsIff`), because the retry time of a fresh frame is 0 and the comparison is signed (`FreshFrameGoesOutIff`); how a release fares that was first offered below 2^31 and then carried past it is not stated.
- IsoTpResponseRoundTrip: one flow control frame is sent, so only block size 0 is claimed; lost frames, a passed deadline, an eighth refusal, another tester and an abort end the job and are covered by the invariant, not by the round trip.
- FragmentNumbers: a response-pending reply in the session phase does not reset the assembly when it is acknowledged, as in the source; nothing is claimed about its content.
- KwpResponseRoundTrip: one response of a request; wrong numbers, a NACK, an early or late end, a passed deadline, another tester and an abort end the job and are covered by the invariant.
- TickAt: `job` holds the scalars of the active job as one record; request, frame and trace counters, elapsed times and the copy of the result under the sequence lock are not modelled, and the driver's reply is a parameter.
- StartRecording: after a failed save the source refuses `start` until `retrySave` or `clear`; failed saves with the power on are not modelled.
- CommittedSurvives: holds while every file operation succeeds or the power is gone; a rename that fails with the power on is not modelled, and `begin` (fs/session_log.cpp:579-584) would then remove the log.
- ProcessCheckpoint: whether a checkpoint is due is a parameter; the 500 ms clock behind it is not modelled. A chunk counts as written as soon as the write returns; the source flushes the checkpoint file only when it closes it, before the manifest is written, so a chunk of a target that is not yet committed may be lost in ways that the model does not have.
- FinalizeMemory, CommitCheckpoint: checksums stand for the content they cover, so detection strength and collisions of CRC-32 are not modelled; the JSON text of End is a given sequence of octets beside a record of its fields, that of the manifest a record of its fields.
- OnFrameReceived: statistics other than drops, refusals and failures (depths, peaks, latency averages, stalls) are not modelled; neither are observation, replay and trace callbacks beyond the one outcome per processed frame.
- HasRulesForFrame, ApplyFrameMutations: the reader gate around them is the separate protocol model `ReaderGate`; live controls that run concurrently with a frame are not interleaved with it.
- AppendRecord: the length limits of annotation fields are not modelled; the octets of a record are given.
- FindOrCreate: the recent ring, rates and change masks of the frame cache are not modelled.
- CanTraceQueue: `init` refuses fewer than two slots, and `start` refuses while a push is in flight; the class starts from an accepted capacity and between calls nothing is in flight.
- DropsAreGaps: trace scopes only filter what is pushed and are not modelled; a restarted session starts a new record.
- Weak memory ordering: all protocols are sequentially consistent interleavings.
- Row tokenising, number parsing, line length limits and name syntax of rule packages; a row that any of them refuses is one malformed row.
- `listRules`, `listStagedRules`, status JSON, `inspectExisting`, `retrySave`, `clear`, result copying under the sequence lock, trace export and name tables: views without decisions.
- Allocation failure, a missing transmit driver, 32-bit wrap of counters that are only reported, and the commit generation's wrap at 2^32.
- HTTP, WiFi, FreeRTOS tasks, CAN drivers, power management, DBC parsing, replay files and the browser UI.
