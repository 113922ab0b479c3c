# Peraviz verification model

Peraviz is a live lighting visualizer. This project models the self-contained state machines and compile steps of its
native core in Dafny and proves what they promise, for every input, every run and every interleaving of their steps.
`dafny verify dfyconfig.toml` checks everything.

| topic | files | main results |
|---|---|---|
| Realtime universe mailbox | `RealtimeSubscription`, `MailboxModel`, `MailboxRuns`, `UniverseMailbox` | every packet counted, conservation of updates, the queue is the dirty set, the held frame is the last packet, exact drains, an array class that refines the model |
| Asynchronous presentation hand-off | `AsyncProtocol`, `AsyncInput`, `AsyncDelivery`, `AsyncFlush`, `AsyncProgress`, `AsyncStop`, `AsyncOutput` | no torn reads, three banks suffice, the youngest flush stays on offer, quiet means delivered, stop loses nothing, results are first-in first-out |
| Shutter evaluator and ranges | `ShutterContract`, `ShutterRanges` | what every wave shows, two candidates equal the peak over all events, phase is the integral of frequency, ranges and sets partition the raw domain |
| ModeMaster | `DmxValue`, `ModeMasterResolution`, `ModeMasterGraph`, `RuntimeActivations` | laws of DMX value conversion, sound and complete cycle rejection, activation over whole chains of any graph, runtime links simulate parser links |
| Fixture geometry templates | `GeometryTemplates`, `GeometryWalks`, `WalkOrder`, `GeometryIdentity` | one node per walk through the tree with all its attributes, a cached expansion renamed equals a fresh one |
| Dense presentation state | `DenseModel`, `DensePresentation` | exact marks and filtering, dirty bookkeeping, every effective bit is sent once |
| Renderer rows | `RenderProjection`, `RenderRuns`, `RenderComposite`, `RenderGroupProjection` | incremental sums are exact, every row shows the sums and means of its outputs after every run, a row is sent exactly when needed |
| Addressing | `GeometryRoutes`, `RouteWalks`, `InstanceRouting`, `InstanceTables`, `InstanceLinks`, `InstanceExpansion`, `ResolvedAddresses` | cycle-safe expansion, one route per walk, exact acceptance, exact shifts, stable identities, byte sources at their patched address |
| Small cores | `SequenceTracker`, `LatencyHistogram`, `AsciiText`, `Prelude` | refinement of an unbounded counter, percentile bounds |

## How the model is built

- Objects whose methods update fields are classes with loops and contracts (the mailbox, the dense state, the
  row projection, the geometry walk, the router, the histogram, the tracker, the held shutter). Each method is proved
  against a function or relation on values, and the promises are lemmas about those.
- The two concurrent parts are transition systems. The mailbox takes one step per critical section. In the hand-off
  every atomic access and every copied element is a step. Runs are sequences of enabled steps; a statement about
  `Reachable` states holds for every run.
- Ring indices, byte widths, 32-bit shifts, the 255-cycle of sequence numbers and the wrap of the frame counter are
  written out. Times, frequencies and render values are `real`; jitter is any function into [0, 1).
- Matrices stand for the products they are built from, asset lookup and the lexical parser of DMX values are
  arbitrary functions, and fixture references carry a rank, because the scene builder has no cycle check of its own.

## Findings

- Renderer rows reach Godot through `RenderGroupProjection::prepare`
  (`native/src/presentation/presentation_state_godot.cpp:155-161`); the rows and groups of
  `DensePresentationState::prepare_snapshot` are read by native tests only. `DensePresentation` models the latter as
  written; what a renderer shows is stated for the former, in `RenderComposite`. A consumer takes the whole value array of
  each row, but new beam angles only under the zoom or topology bit; `RenderRuns.FrameMarks` is why that loses nothing.
- A rejected ModeMaster graph is reported and still evaluated (`native/src/gdtf_runtime/compiled_gdtf_fixture.cpp:719`).
  The depth guard then decides: `ModeMasterGraph.ActiveMeansWholeChain` says what, for every graph with unique ids.
- A channel without compiled functions can be named as a ModeMaster; no program carries it, and the reference is marked
  invalid. `RuntimeActivations.RuntimeFollowsParser` covers such fixtures: an invalid link is not followed on either side.
- A histogram percentile is a lower bound for the true observation exactly up to 2^31 microseconds, the last bucket
  bound: `LatencyHistogram.PercentileBrackets`; one microsecond more falls short: `LatencyHistogram.PercentileCanFallShort`.
- The acceptance window of the sequence tracker is exactly 127 on both sides: `SequenceTracker.WindowIsExact`.

## Model

| member | source | states |
|---|---|---|
| `RealtimeSubscription.Build` | native/src/dmx/realtime_subscription.cpp:8-28 | The compiled table contains exactly the in-range universes and offsets that some patch entry asks for; repeated entries accumulate; the universe list is strictly increasing and lists each used universe once |
| `UniverseMailbox.RealtimeUniverseMailbox.SetSubscription` | native/src/dmx/realtime_universe_mailbox.cpp:12-38 | The array and ring implementation refines the mailbox value: all queued tokens are retired, every slot moves to the new generation, and only universes with new offsets forget their frame |
| `UniverseMailbox.RealtimeUniverseMailbox.ResetSession` | native/src/dmx/realtime_universe_mailbox.cpp:41-53 | Refines the value step: pending and held input is retired, the compiled interests stay |
| `UniverseMailbox.RealtimeUniverseMailbox.EnqueueDirty` | native/src/dmx/realtime_universe_mailbox.cpp:56-64 | The circular write at (head + count) mod size is an append to the abstract queue, at most one token per slot, never past the ring |
| `UniverseMailbox.RealtimeUniverseMailbox.Publish` | native/src/dmx/realtime_universe_mailbox.cpp:67-112 | Refines the value step for null data, foreign universes, unchanged, coalesced and newly dirty packets, counters included |
| `UniverseMailbox.RealtimeUniverseMailbox.Differs` | native/src/dmx/realtime_universe_mailbox.cpp:82-91 | True exactly when some masked offset differs, both sides zero-padded |
| `UniverseMailbox.RealtimeUniverseMailbox.PopToken` | native/src/dmx/realtime_universe_mailbox.cpp:115-123 | One critical section of a drain: the oldest token leaves the ring and, if live, yields the held frame and cleans its slot |
| `UniverseMailbox.RealtimeUniverseMailbox.ConsumeDirtyFrames` | native/src/dmx/realtime_universe_mailbox.cpp:126-144 | An undisturbed drain returns the queued universes in order, each with the frame held when it is taken; the queue is empty afterwards, and slots change in their dirty flags only |
| `UniverseMailbox.RealtimeUniverseMailbox.HeldFrame` | native/src/dmx/realtime_universe_mailbox.cpp:148-156 | Reads the held frame of an initialized, subscribed slot of the current generation, without consuming |
| `UniverseMailbox.RealtimeUniverseMailbox.HeldStates` | native/src/dmx/realtime_universe_mailbox.cpp:159-170 | The universes of the result ascend strictly; one occurs if and only if it is subscribed and its frame readable, with that frame |
| `UniverseMailbox.RingAppend` | native/src/dmx/realtime_universe_mailbox.cpp:57-61 | Writing at the wrapped tail appends to the queue the ring stands for |
| `UniverseMailbox.RingTail` | native/src/dmx/realtime_universe_mailbox.cpp:137-139 | Advancing the wrapped head removes the oldest token and nothing else |
| `MailboxRuns.RunsKeepInv` | native/src/dmx/realtime_universe_mailbox.cpp:12-143 | Every run, with drains interleaved token by token with publishes, re-subscriptions and resets, keeps ring, slot, accounting, history and drain invariants |
| `MailboxRuns.QueueIsTheDirtySet` | native/src/dmx/realtime_universe_mailbox.cpp:56-64 | In every reachable state the queue lists each dirty universe exactly once and nothing else, so the ring cannot overflow |
| `MailboxRuns.UpdatesAreConserved` | native/src/dmx/realtime_universe_mailbox.cpp:78-121 | state_updates = coalesced + consumed + pending + retired, and relevant = unchanged + state_updates, in every reachable state |
| `MailboxRuns.EveryTokenDelivers` | native/src/dmx/realtime_universe_mailbox.cpp:115-141 | No token is ever stale: each pop yields a frame of its universe that agrees, on the mask, with the last packet |
| `MailboxRuns.ChangeIsQueued` | native/src/dmx/realtime_universe_mailbox.cpp:98-111 | After a changing publish the universe is in the queue; no change is dropped for want of room or a missing slot |
| `MailboxRuns.PacketIsStamped` | native/src/dmx/realtime_universe_mailbox.cpp:92-111 | Every relevant packet stamps its time and sequence on the held frame; counter, length and payload move only with a change, and no other universe is touched |
| `MailboxRuns.EveryPacketIsCounted` | native/src/dmx/realtime_universe_mailbox.cpp:67-112 | A packet is an update exactly if it is the first for its universe or differs from the last one at some masked offset; each packet counts once as relevant or irrelevant, a relevant one once as update or unaltered, an update of a waiting universe as coalesced; a null or foreign packet does nothing else |
| `MailboxRuns.HeldIsTheLastPacket` | native/src/dmx/realtime_universe_mailbox.cpp:148-156 | A universe is readable exactly when a last packet is known for it, and then they agree on every masked offset with zero padding |
| `MailboxRuns.ResubscriptionKeepsExactlyTheProven` | native/src/dmx/realtime_universe_mailbox.cpp:30-35 | A re-subscription keeps a held universe if and only if it stays subscribed and its mask does not grow |
| `MailboxRuns.CalmDrainIsExact` | native/src/dmx/realtime_universe_mailbox.cpp:126-144 | A drain without reset or re-subscription returns each universe dirty at its start exactly once, in order, whatever is published meanwhile |
| `MailboxRuns.DrainedConsumerIsUpToDate` | native/src/runtime/realtime_dmx_coordinator.cpp:11-17 | A consumer that read the held states after subscribing and drained until the queue was empty agrees with the last packet of every known universe |
| `MailboxRuns.PopIsLive` | native/src/dmx/realtime_universe_mailbox.cpp:115-123 | In every state of a mailbox a taken token is live: its universe is held, dirty and of the current generation |
| `MailboxRuns.CallKeepsBoxInv` | native/src/dmx/realtime_universe_mailbox.cpp:12-143 | Each call by itself keeps the ring and slot invariant that the class relies on |
| `AsyncDelivery.RunsKeepInputInv` | native/src/presentation/async_presentation_pipeline.cpp:117-228 | Every interleaving of atomic steps keeps bank ownership, generation order, sealed bank contents and delivery bookkeeping on the input side |
| `AsyncDelivery.FlushFindsABank` | native/src/presentation/async_presentation_pipeline.cpp:184-197 | Three input banks always suffice: a flush that started never scans past the last bank |
| `AsyncDelivery.InputBanksAreNotShared` | native/src/presentation/async_presentation_pipeline.cpp:128-142 | Contents of an input bank change only under the producer's own Writing bank, which neither the coordinator nor the exchange slot holds |
| `AsyncDelivery.ReadsAreNotTorn` | native/src/presentation/async_presentation_pipeline.cpp:128-142 | What the coordinator reads element by element is one whole flushed generation, and after the last element the core has received every value of it |
| `AsyncDelivery.DeliveriesRise` | native/src/presentation/async_presentation_pipeline.cpp:133-139 | Generations are taken in strictly increasing order; each universe's values reach the core with strictly increasing producer sequence, unaltered |
| `AsyncFlush.RunsKeepFlushInv` | native/src/presentation/async_presentation_pipeline.cpp:117-228 | Every interleaving keeps: what waits on offer is the youngest flushed generation, unflushed values are exactly those newer than it, and what the coordinator consumed it delivered in full |
| `AsyncFlush.OfferIsTheYoungest` | native/src/presentation/async_presentation_pipeline.cpp:184-197 | Outside the announcing and swapping steps of a flush a waiting bank is the youngest flushed generation, whole, so an exchange never puts an older one back |
| `AsyncFlush.QuietMeansDelivered` | native/src/presentation/async_presentation_pipeline.cpp:128-197 | When the main thread is idle with nothing to flush, the slot is empty and the coordinator neither holds a bank nor failed, the core's last value of every universe is the last accepted submit |
| `AsyncFlush.StopStaysDecided` | native/src/presentation/async_presentation_pipeline.cpp:216-228 | Once stop has joined, the schema it saw alone settles whether values are restored |
| `AsyncFlush.StopLosesNothing` | native/src/presentation/async_presentation_pipeline.cpp:216-228 | In every run that joins the coordinator with an unchanged schema, the core's last value of every universe is from then on the last accepted submit, even if the coordinator failed in the middle of a bank |
| `AsyncFlush.ForeignSchemaGetsNothing` | native/src/presentation/async_presentation_pipeline.cpp:216-228 | Joining under another schema delivers nothing |
| `AsyncFlush.SubmitIsRecorded` | native/src/presentation/async_presentation_pipeline.cpp:177-182 | An accepted submit records the first 512 bytes of its data for its universe, newer than everything before it |
| `AsyncStop.StopCompletes` | native/src/presentation/async_presentation_pipeline.cpp:117-162 | From every idle state, whatever the coordinator is doing, there is a way for stop to come to its end in which the coordinator only takes its own steps to its exit and the main thread then joins, restores and retires; the core then has the last accepted submit of every universe if the schema is unchanged, and no result is on offer |
| `AsyncProgress.FlushCompletes` | native/src/presentation/async_presentation_pipeline.cpp:184-197 | A flush that begins ends by the main thread's steps alone: the producer is clean again and its values are the youngest generation, on offer |
| `AsyncProgress.RoundDelivers` | native/src/presentation/async_presentation_pipeline.cpp:128-142 | A coordinator at the top of its round with a bank on offer, left alone, takes it and delivers it whole; with a clean idle producer the core then has the last accepted value of every universe |
| `AsyncProgress.ResultsNeedInput` | native/src/presentation/async_presentation_pipeline.cpp:121-147 | In every run there is at most one result per input generation taken, and the one of the first round |
| `AsyncProgress.ClaimSucceeds` | native/src/presentation/async_presentation_pipeline.cpp:144-152 | A coordinator that looks for a free result bank finds one if there is one, wherever in its scan it is |
| `AsyncProgress.FinishedIsOffered` | native/src/presentation/async_presentation_pipeline.cpp:153-161 | A finished result is offered as soon as the slot is empty, and the next round starts |
| `AsyncProgress.OfferedIsAcquired` | native/src/presentation/async_presentation_pipeline.cpp:199-204 | Acquiring takes the offered result and leases its bank |
| `AsyncInput.ThreeBanksSuffice` | native/src/presentation/async_presentation_pipeline.cpp:184-197 | With at most two other holders one of three banks is free |
| `AsyncInput.StepKeepsOwnership` | native/src/presentation/async_presentation_pipeline.cpp:128-197 | Each atomic step keeps the statuses equal to who holds what, with no bank held twice |
| `AsyncInput.StepKeepsOrder` | native/src/presentation/async_presentation_pipeline.cpp:128-197 | Each atomic step keeps waiting and consumed banks equal to whole flushed generations, youngest last |
| `AsyncOutput.RunsKeepOutputInv` | native/src/presentation/async_presentation_pipeline.cpp:144-208 | Every interleaving keeps result bank ownership and first-in first-out order on the output side |
| `AsyncOutput.ResultsAreFifo` | native/src/presentation/async_presentation_pipeline.cpp:144-204 | Acquired results are a prefix of the produced ones: none skipped, repeated or reordered; at most two are left behind by stop |
| `AsyncOutput.LeasesAreStable` | native/src/presentation/async_presentation_pipeline.cpp:199-208 | A leased result keeps its content until its release |
| `AsyncOutput.WaitingResultsAreStable` | native/src/presentation/async_presentation_pipeline.cpp:153-161 | Only the unfinished bank being filled ever changes; a finished unread result is never overwritten |
| `ShutterContract.ShutterEnvelope` | native/src/gdtf_runtime/shutter_contract.h:97-121 | For every wave, parameter set and time: closed shows 0; other waves that are no flash trains, and all without frequency, show 1; no window shows 0; a flash train shows its profile over the elapsed cycles - square 1 inside and 0 outside, pulses rising to the middle and falling, opening and closing ramps - random ones by the larger of the two latest events |
| `ShutterContract.EnvelopeShows` | native/src/gdtf_runtime/shutter_contract.h:90-121 | The envelope function, with its early exits, is that description |
| `ShutterContract.RandomPeak` | native/src/gdtf_runtime/shutter_contract.h:112-117 | The two-step loop computes the larger of the two candidate contributions, ignoring negative events |
| `ShutterContract.RandomEnvelopeIsThePeak` | native/src/gdtf_runtime/shutter_contract.h:105-118 | For random waves the value is the maximum over all events from 0 on, including the shortcut for widths of at least 1.75, for any jitter in [0,1) |
| `ShutterContract.TwoCandidatesSuffice` | native/src/gdtf_runtime/shutter_contract.h:112-118 | No event other than the two latest can show more than they do, for pulses up to one cycle wide and square flashes of any width |
| `ShutterContract.LongFlashesOverlap` | native/src/gdtf_runtime/shutter_contract.h:106-107 | Windows of at least 1.75 cycles always contain a flash once the first is due |
| `ShutterContract.PeriodicEnvelopeIsThePeak` | native/src/gdtf_runtime/shutter_contract.h:119-120 | For periodic waves the value is the maximum over one flash per cycle, ending offset into it, over all cycles |
| `ShutterContract.EnvelopeWithin` | native/src/gdtf_runtime/shutter_contract.h:97-121 | Every envelope lies in [0, 1] |
| `ShutterContract.RandomIntervalsAreBounded` | native/src/gdtf_runtime/shutter_contract.h:82-88 | Consecutive random events are between half and one and a half cycles apart |
| `ShutterContract.HeldShutter.Update` | native/src/gdtf_runtime/shutter_contract.h:123-132 | Changes the held state exactly on an effective edit: then to the new parameters with the phase integrated up to now, reduced to a fraction unless random, the activation kept while the function and wave stay the same and the next revision |
| `ShutterContract.EditKeepsCycles` | native/src/gdtf_runtime/shutter_contract.h:126-131 | An edit of a running wave keeps its elapsed cycles: exactly for random waves, up to whole cycles otherwise |
| `ShutterContract.PhaseIsTheIntegral` | native/src/gdtf_runtime/shutter_contract.h:123-132 | Over any run of edits of one function and wave the elapsed cycles are the initial ones plus the integral of the frequency, modulo 1 unless random, and the activation identity never changes |
| `ShutterContract.PhaseStaysNonNegative` | native/src/gdtf_runtime/shutter_contract.h:127-128 | With non-negative frequency the phase never becomes negative |
| `ShutterContract.FrequencyEditIsSeamless` | native/src/gdtf_runtime/shutter_contract.h:123-132 | An edit that keeps width, offset and seed leaves the envelope unchanged at the instant of the edit |
| `ShutterContract.PulseFrequencyEditIsSeamless` | native/src/gdtf_runtime/shutter_contract.h:123-132 | In particular a frequency-only edit of a pulse or ramp is invisible when it happens |
| `ShutterRanges.ShutterFunctionRange` | native/src/gdtf_runtime/shutter_compilation.h:27-47 | The loop yields the range from the start to one below the next greater start, honours a bounded explicit end, and rejects malformed or clashing starts |
| `ShutterRanges.AcceptedExactly` | native/src/gdtf_runtime/shutter_compilation.h:27-47 | Accepted exactly if every start parses, no other unconditional function starts where an unconditional one does, and an explicit end is well-formed, not before the start, inside the domain and before the next start |
| `ShutterRanges.UnconditionalRangesAreDisjoint` | native/src/gdtf_runtime/shutter_compilation.h:27-47 | Ranges of distinct unconditional functions share no raw value |
| `ShutterRanges.RangeRunsToTheNextStart` | native/src/gdtf_runtime/shutter_compilation.h:27-47 | In every list of parsable starts, conditional functions included, an accepted function holds exactly the values from its start on up to the next start of any function and its own explicit end |
| `ShutterRanges.RangesPartition` | native/src/gdtf_runtime/shutter_compilation.h:27-47 | A raw value not below the lowest start belongs exactly to the accepted functions with the latest start at or below it whose explicit end is not passed, and to at most one unconditional one |
| `ShutterRanges.ParseShutterSets` | native/src/gdtf_runtime/shutter_compilation.h:49-80 | The result is valid exactly when all nodes are usable and start apart; then the sets tile the parent range, each carrying the attributes of its declared owner, with an interpolated unnamed prefix |
| `ShutterRanges.CollectSets` | native/src/gdtf_runtime/shutter_compilation.h:51-60 | Every usable node is listed with its declared start and attributes, and validity says whether all were |
| `ShutterRanges.CarveSets` | native/src/gdtf_runtime/shutter_compilation.h:62-71 | Sorted declared sets become consecutive clipped intervals; equal starts are detected |
| `ShutterRanges.AddPrefix` | native/src/gdtf_runtime/shutter_compilation.h:73-78 | Prepends the parent's prefix when the first set starts later, so that the parent range is covered from its start |
| `ShutterRanges.EachValueHasOneSet` | native/src/gdtf_runtime/shutter_compilation.h:49-80 | In such a tiling each raw value lies in exactly one set |
| `DmxValue.ConvertDmxValue` | native/src/gdtf_runtime/mode_master.cpp:45-65 | Rejects widths outside one to four bytes, otherwise converts by narrowing, shifting or repeated mirroring without carry between rounds |
| `DmxValue.TileOnce` | native/src/gdtf_runtime/mode_master.cpp:59-63 | One round of the widening loop fills disjoint bit ranges, so the bitwise or is a sum |
| `DmxValue.MirrorIsTheRepeatingFraction` | native/src/gdtf_runtime/mode_master.cpp:58-63 | Mirroring to t bytes is floor(v * 256^t / (256^s - 1)) below the maximum, and maximum to maximum |
| `DmxValue.MirrorRepeatsBytes` | native/src/gdtf_runtime/mode_master.cpp:58-63 | Byte k of a mirrored value is byte k mod s of the value |
| `DmxValue.ShiftAppendsZeros` | native/src/gdtf_runtime/mode_master.cpp:48-57 | Shift widening from s to t bytes is v * 256^(t-s), narrowing is floor(v / 256^(s-t)) |
| `DmxValue.MirrorIsNotShift` | native/src/gdtf_runtime/mode_master.cpp:54-63 | Mirroring exceeds shifting by exactly the repeated leading bytes of the value |
| `DmxValue.WideningIsStrictlyMonotone` | native/src/gdtf_runtime/mode_master.cpp:54-63 | Mirror and shift widening are strictly monotone and stay within the wider domain |
| `DmxValue.NarrowingUndoesWidening` | native/src/gdtf_runtime/mode_master.cpp:48-63 | Narrowing a widened value back returns it, for both conversions |
| `DmxValue.NarrowingAMirrorIsMirroring` | native/src/gdtf_runtime/mode_master.cpp:48-63 | Narrowing a mirrored value to any width in between equals mirroring to that width |
| `ModeMasterResolution.Resolve` | native/src/gdtf_runtime/mode_master.cpp:74-123 | Tells malformed, missing and ambiguous links apart exactly, a blank link being malformed; the only node with that path is linked, with its kind, ids, channel and width and both bounds converted to that width, exactly if the bounds parse and are in order |
| `ModeMasterResolution.LinkLeads` | native/src/gdtf_runtime/mode_master.cpp:106-121 | The condition of an accepted link carries the node's kind, id, source program and channel, and each bound as written, blank ones as zero |
| `ModeMasterResolution.BlankBoundIsZero` | native/src/gdtf_runtime/mode_master.cpp:106-107 | A bound is replaced by zero exactly when it is blank, whatever whitespace surrounds it |
| `AsciiText.PaddingIsIgnored` | native/src/gdtf_runtime/string_utils.h:10-14 | Whitespace around a token never changes what it is trimmed to |
| `ModeMasterResolution.FindNode` | native/src/gdtf_runtime/mode_master.cpp:91-105 | Finds the one node with exactly this path, or says that there is none or more than one |
| `ModeMasterResolution.LinkedRangeFits` | native/src/gdtf_runtime/mode_master.cpp:106-121 | An accepted activation range is ordered and inside the master's domain, whatever width its bounds were written in |
| `ModeMasterResolution.OrderedBoundsAreAccepted` | native/src/gdtf_runtime/mode_master.cpp:106-115 | Bounds written in order and in one form are accepted for every master width |
| `ModeMasterGraph.ValidateModeMasterGraph` | native/src/gdtf_runtime/mode_master.cpp:126-147 | Accepts if and only if every condition is valid, every ChannelFunction target resolves and there is no cycle |
| `ModeMasterGraph.Visit` | native/src/gdtf_runtime/mode_master.cpp:130-143 | The three-colour search: blackened functions end their chains, a failure exhibits an unresolved function or a cycle |
| `ModeMasterGraph.WalksAreShort` | native/src/gdtf_runtime/mode_master.cpp:155-156 | In an accepted graph no chain is as long as the number of functions |
| `ModeMasterGraph.EndingChainsAreShort` | native/src/gdtf_runtime/mode_master.cpp:155-156 | A chain that ends is shorter than the number of functions, in any graph, cyclic ones included |
| `ModeMasterGraph.GuardIsInert` | native/src/gdtf_runtime/mode_master.cpp:155-171 | On every chain that ends the depth guard never decides the evaluation |
| `ModeMasterGraph.ActiveChainsEnd` | native/src/gdtf_runtime/mode_master.cpp:155-171 | The guard refuses every chain that runs into a cycle: what evaluates to true ends |
| `ModeMasterGraph.AcyclicChainsEnd` | native/src/gdtf_runtime/mode_master.cpp:126-156 | In an accepted graph every chain ends |
| `ModeMasterGraph.ActiveMeansWholeChain` | native/src/gdtf_runtime/mode_master.cpp:150-174 | On every graph with unique ids, rejected ones included, a function is active if and only if its chain ends and every function along it passes its own and its master's range test |
| `RuntimeActivations.RuntimeScene.AppendActivationMasterSources` | native/src/gdtf_runtime/runtime_scene_compiler.cpp:767-805 | The fixpoint loop terminates; the result is closed under masters, adds only needed programs, each once, and keeps the earlier ones |
| `RuntimeActivations.RuntimeScene.AppendMaster` | native/src/gdtf_runtime/runtime_scene_compiler.cpp:782-802 | One master is added at most once and only when it can be compiled |
| `RuntimeActivations.RuntimeScene.IndexFixture` | native/src/gdtf_runtime/runtime_scene_compiler.cpp:812-816 | The table maps exactly the carried parser ids, the first carrier winning |
| `RuntimeActivations.RuntimeScene.FinalizeFixtureActivations` | native/src/gdtf_runtime/runtime_scene_compiler.cpp:808-828 | Rewrites every master reference of the fixture by the table, marks unmapped ones invalid, and touches nothing outside the fixture |
| `RuntimeActivations.FinalizedReference` | native/src/gdtf_runtime/runtime_scene_compiler.cpp:817-828 | A finalized reference names the runtime program of the same fixture compiled from the original master, or is invalid exactly when there is none |
| `RuntimeActivations.LiveIsGood` | native/src/gdtf_runtime/runtime_scene_compiler.cpp:783-828 | A finalized reference is valid and followed exactly when the parsed link is valid and its master is carried or can be compiled, and then it leads to the program of that master |
| `RuntimeActivations.RuntimeFollowsParser` | native/src/gdtf_runtime/runtime_scene_compiler.cpp:767-828 | For every fixture, program and depth: following valid runtime references and following valid parser links to masters that are carried or can be compiled exist together and reach the same parsed function |
| `RuntimeActivations.AddedAreParsed` | native/src/gdtf_runtime/runtime_scene_compiler.cpp:786-800 | Closing over masters adds parsed functions only |
| `GeometryTemplates.GeometryBuilder.AppendGeometry` | native/src/gdtf_scene_builder.cpp:347-491 | The recursion that pushes nodes and counts local ids appends exactly the functional expansion of the element |
| `GeometryTemplates.GeometryBuilder.AppendChildren` | native/src/gdtf_scene_builder.cpp:483-491 | The loop over the children appends their expansions in document order, unsupported tags skipped |
| `GeometryTemplates.BuildFixtureGeometryNodes` | native/src/gdtf_scene_builder.cpp:343-496 | The node list of a fresh build is the expansion of the selected root, which `GeometryWalks.BuildDepicts` describes |
| `GeometryWalks.BuildDepicts` | native/src/gdtf_scene_builder.cpp:343-496 | There is exactly one node for each walk through supported children and resolvable references that ends in a geometry, in document order; it carries what its walk says - name, number, path, product of the transforms of the references directly above and its own, lens inheritance, nearest overriding model, asset - and hangs under the node of the last geometry above it |
| `GeometryWalks.WalksFromExact` | native/src/gdtf_scene_builder.cpp:347-491 | The enumeration holds exactly the walks that go on from a given one and end in a geometry |
| `GeometryWalks.WalksFromInOrder` | native/src/gdtf_scene_builder.cpp:483-491 | The enumeration is in document order |
| `GeometryWalks.ExpansionFits` | native/src/gdtf_scene_builder.cpp:347-482 | Node by node, an expansion carries what its walks say |
| `GeometryWalks.ExpansionIsParented` | native/src/gdtf_scene_builder.cpp:347-491 | Each node hangs under the node of the last geometry above it; references are no parents |
| `GeometryWalks.InstantiateDepicted` | native/src/gdtf_scene_builder.cpp:499-519 | Cached or not, what a fixture is given depicts its geometry tree |
| `GeometryTemplates.FixtureGeometryTemplates.Instantiate` | native/src/gdtf_scene_builder.cpp:499-519 | Cached or not, the result equals a fresh build for this fixture; the cache only grows and hits are counted |
| `GeometryTemplates.TemplateEqualsDirectBuild` | native/src/gdtf_scene_builder.cpp:343-519 | Building once without identity and renaming gives the same nodes as building for the fixture: ids, parents, keys, paths, transforms, lens inheritance, assets |
| `GeometryTemplates.NodeIdsAreDistinct` | native/src/gdtf_scene_builder.cpp:346-493 | Node ids of one build are pairwise distinct even when a geometry is referenced many times |
| `GeometryTemplates.ExpansionIsOrdered` | native/src/gdtf_scene_builder.cpp:347-493 | Every node hangs under the given parent or under an earlier node |
| `DensePresentation.DensePresentationState.Install` | native/src/presentation/dense_presentation_state.cpp:27-47 | Accepts exactly well-formed, distinct outputs and well-formed targets; a rejected installation changes nothing; routes bind exactly the requested outputs |
| `DensePresentation.DensePresentationState.BuildRoutes` | native/src/presentation/dense_presentation_state.cpp:33-39 | Routes list each bound output once per section and target, in order, and fail exactly on a malformed target |
| `DensePresentation.DensePresentationState.InstallGroups` | native/src/presentation/dense_presentation_state.cpp:49-61 | Accepts exactly groups led by their own representatives with equal scale; a rejected installation changes nothing; every output is replayed |
| `DensePresentation.DensePresentationState.Clear` | native/src/presentation/dense_presentation_state.cpp:63-75 | Retires every index under the given generation |
| `DensePresentation.DensePresentationState.InvalidateRenderer` | native/src/presentation/dense_presentation_state.cpp:77-86 | Every output becomes pending and uncommitted, and stays listed exactly once |
| `DensePresentation.DensePresentationState.Update` | native/src/presentation/dense_presentation_state.cpp:88-107 | Rejects stale generations, unknown outputs, sections and non-finite values without change; otherwise latest state wins for one section |
| `DensePresentation.DensePresentationState.UpdateTarget` | native/src/presentation/dense_presentation_state.cpp:109-116 | Any section, target and values: true exactly when the target is bound under this generation and its outputs accept the row; then every routed output is updated, otherwise nothing changes |
| `DensePresentation.DensePresentationState.ComposeSections` | native/src/presentation/dense_presentation_state.cpp:118-142 | Validates the whole frame first: a rejected frame changes nothing, an accepted one applies all rows in order and counts the unresolved ones |
| `DensePresentation.DensePresentationState.CheckFrame` | native/src/presentation/dense_presentation_state.cpp:121-130 | True exactly when every supported block stays inside its columns and is finite |
| `DensePresentation.DensePresentationState.EffectiveMask` | native/src/presentation/dense_presentation_state.cpp:155-171 | The step-by-step mask equals the filter relation, and exactly what is sent becomes the new signature |
| `DensePresentation.DensePresentationState.ComposeOne` | native/src/presentation/dense_presentation_state.cpp:180-181 | Composes one dirty output and commits what it sends |
| `DensePresentation.DensePresentationState.CollectOne` | native/src/presentation/dense_presentation_state.cpp:179-191 | Splits the bits of one output between its own row and its group's mask |
| `DensePresentation.DensePresentationState.EmitOne` | native/src/presentation/dense_presentation_state.cpp:193-201 | Emits the group row once, with the representative's own values, and clears the mask |
| `DensePresentation.DensePresentationState.PrepareSnapshot` | native/src/presentation/dense_presentation_state.cpp:173-202 | The rows are exactly those of the dirty outputs and of the groups they touched, and all group masks are empty again |
| `DensePresentation.DensePresentationState.FinishSnapshot` | native/src/presentation/dense_presentation_state.cpp:204-211 | Clears exactly the pending masks; a stale generation changes nothing |
| `DenseModel.EveryBitIsSentOnce` | native/src/presentation/dense_presentation_state.cpp:173-202 | A dynamic bit of a grouped output is sent in the single row of its representative, every other bit in the output's own single row, and nothing else is sent |
| `DenseModel.LatestRowWins` | native/src/presentation/dense_presentation_state.cpp:131-140 | After a frame each section of each output shows the last row that reached it, or what it held before |
| `DenseModel.RenderWithin` | native/src/presentation/dense_presentation_state.cpp:144-153 | Composed intensity stays in [0, 50]; without projected scale or color gain an output emits no beam and is invisible |
| `DenseModel.FilterExactly` | native/src/presentation/dense_presentation_state.cpp:155-171 | Everything is sent to a renderer that has nothing yet or was replaced; otherwise a pending bit is held back exactly if nothing visible changed under it: dimmer, intensity and gain nearly, energies, color and angles exactly the same |
| `DenseModel.ComposingAgainIsQuiet` | native/src/presentation/dense_presentation_state.cpp:155-181 | What was sent becomes the signature, so composing again has nothing to send but a pending material bit; an output that sends nothing is left as it was |
| `DenseModel.InvalidatedIsResent` | native/src/presentation/dense_presentation_state.cpp:77-86 | After a replacement of the renderer the next composition of an output sends all its pending, dynamic and topology bits |
| `DenseModel.WriteThenRead` | native/src/presentation/dense_presentation_state.cpp:94-100 | A row is read back as written, a negative color gain as zero, and no other section of the output changes |
| `DenseModel.RowsKeepBooks` | native/src/presentation/dense_presentation_state.cpp:103-104 | Any sequence of rows keeps each output listed exactly once when its mask is nonzero and not at all otherwise |
| `DenseModel.GroupRowsExact` | native/src/presentation/dense_presentation_state.cpp:193-201 | Group rows are one per touched group with bits, with the group's collected mask |
| `RenderGroupProjection.RenderGroupProjection.Install` | native/src/presentation/render_group_projection.cpp:24-35 | Accepts exactly memberships in which every row has a supported class and members, one if individual; a rejected one changes nothing; each row is led by its lowest output and starts empty and uncommitted |
| `RenderGroupProjection.RenderGroupProjection.Clear` | native/src/presentation/render_group_projection.cpp:37-40 | Forgets members, rows and prepared rows |
| `RenderGroupProjection.RenderGroupProjection.Invalidate` | native/src/presentation/render_group_projection.cpp:42 | Every row waits for a full resend; membership and sums stay |
| `RenderGroupProjection.RenderGroupProjection.AbsorbOne` | native/src/presentation/render_group_projection.cpp:47-61 | One dirty output: skipped, or its old contribution is exchanged for the new one and its row marked and listed |
| `RenderGroupProjection.RenderGroupProjection.SettleOne` | native/src/presentation/render_group_projection.cpp:64-79 | One touched row: sent with its recomputed values if these are new, uncommitted or replayed, and its bits cleared |
| `RenderGroupProjection.RenderGroupProjection.Prepare` | native/src/presentation/render_group_projection.cpp:44-81 | Both passes together compute the value step that the run theorems are about, and no row keeps a bit |
| `RenderGroupProjection.Consume` | native/src/presentation/direct_presentation_pipeline.h:12-29 | One transaction: the generation and member tests, a frame composed into the physical state and its rows prepared, or nothing at all |
| `RenderGroupProjection.InstallationIsInitial` | native/src/presentation/render_group_projection.cpp:24-35 | A fresh installation with every output pending is a state in which runs begin |
| `RenderProjection.AbsorbAllKeepsSums` | native/src/presentation/render_group_projection.cpp:46-62 | After any list of dirty outputs each aggregated row's sum is the fold of its members' contributions: the incremental bookkeeping never drifts |
| `RenderProjection.AbsorbedMask` | native/src/presentation/render_group_projection.cpp:46-62 | A bit reaches a row exactly from a listed, not skipped member of that row, or was there before |
| `RenderProjection.AbsorbAllKeepsList` | native/src/presentation/render_group_projection.cpp:46-62 | The work list names each row with bits once, and no other |
| `RenderProjection.Untouched` | native/src/presentation/render_group_projection.cpp:46-62 | A row that received no bit is as it was, and so are its members |
| `RenderRuns.RunsKeepInv` | native/src/presentation/render_group_projection.cpp:24-81 | Every run of frames, preparations, clearings and replays keeps sums, member values and shown rows in step with the physical state |
| `RenderRuns.RowsShowThePhysicalState` | native/src/presentation/render_group_projection.cpp:44-81 | After every preparation of every run each row shows exactly the composite recomputed afresh from the physical outputs of the row, and the angles last taken from a turning row are the current ones |
| `RenderComposite.RowsShowTheirOutputs` | native/src/presentation/render_group_projection.cpp:44-81 | After every preparation of every run: an individual row shows its output; an aggregated row shows as beam and spot energy the sum of the outputs' non-negative beam energies, as intensity the clamped sum of their intensities, in each channel the encoded energy-weighted mean of the linear colors (the color last shown when dark), with dimmer and visibility following the intensity, no material energy, gain 1 and the representative's angles |
| `RenderComposite.RenderShowsTheOutput` | native/src/presentation/dense_presentation_state.cpp:144-153 | What one output shows: intensity, energies, gain and color from its physical sections, each field by its own formula |
| `RenderComposite.TotalsAreSums` | native/src/presentation/render_group_projection.cpp:46-62 | The fold over the outputs of a row is, field by field, a sum over its outputs |
| `RenderRuns.RowsAreSentWhenNeeded` | native/src/presentation/render_group_projection.cpp:44-81 | In every state of every run a preparation sends a row at most once, and sends it if and only if it does not show its composite or an output of it awaits a replay |
| `RenderRuns.FrameMarks` | native/src/presentation/dense_presentation_state.cpp:131-140 | Whatever a frame changes of an output it marks: dimmer and energies with the dimmer bit, color and gain with the color bit, angles with the zoom bit |
| `DenseModel.FrameMarksExactly` | native/src/presentation/dense_presentation_state.cpp:94-116 | A frame marks an output with exactly the bits of the rows that reach it and of the sections these change, beside those it had; it commits nothing |
| `SequenceTracker.ArtNetSequenceTracker.Accept` | native/src/dmx/artnet_sequence_tracker.cpp:6-31 | Only the packet's own universe may change, and a rejected packet changes nothing |
| `SequenceTracker.ArtNetSequenceTracker.Reset` | native/src/dmx/artnet_sequence_tracker.cpp:34-36 | Forgets every stream |
| `SequenceTracker.AcceptsExactlyTheNewer` | native/src/dmx/artnet_sequence_tracker.cpp:6-31 | In every run of one source that stays within 127 of the newest number a packet is accepted if and only if it is strictly newer, through any number of wraps and whatever other universes carry |
| `SequenceTracker.StateIsTheNewest` | native/src/dmx/artnet_sequence_tracker.cpp:23-30 | The tracker's state stands for the newest number modulo the cycle of 255 |
| `SequenceTracker.WindowIsExact` | native/src/dmx/artnet_sequence_tracker.cpp:23-28 | The window of 127 is right on both sides: 128 ahead is rejected, 128 behind is accepted |
| `SequenceTracker.NewSourceIsHeard` | native/src/dmx/artnet_sequence_tracker.cpp:7-12 | The first packet of a new or changed source is always accepted |
| `LatencyHistogram.LatencyHistogram.Observe` | native/src/dmx/latency_histogram.h:16-22 | Each sample is counted once in the first bucket that bounds it, and the maximum is kept |
| `LatencyHistogram.LatencyHistogram.ReadPercentile` | native/src/dmx/latency_histogram.h:25-34 | The loop stops at the first bucket whose running count reaches the target rank |
| `LatencyHistogram.BucketsSumToSamples` | native/src/dmx/latency_histogram.h:10-22 | Bucket counts sum to the number of samples |
| `LatencyHistogram.PercentileBrackets` | native/src/dmx/latency_histogram.h:25-34 | Against the true observation t of the rank: the result is at most twice t (or one), at most the maximum, and at least t if and only if t fits the last bound 2^31 |
| `LatencyHistogram.PercentileCanFallShort` | native/src/dmx/latency_histogram.h:10-34 | A single observation of 2^31 + 1 is reported as 2^31 by every percentile |
| `LatencyHistogram.TrueObservation` | native/src/dmx/latency_histogram.h:27 | For percent 1 to 100 exactly one observation value has the requested rank |
| `LatencyHistogram.TargetIsCeiling` | native/src/dmx/latency_histogram.h:27 | The split computation of the rank is ceil(n * p / 100) |
| `LatencyHistogram.PercentileGrows` | native/src/dmx/latency_histogram.h:25-34 | A higher percent never reports less |
| `GeometryRoutes.GeometryWalk.Visit` | native/src/gdtf_runtime/instance_dmx_routing.h:67-87 | The walk terminates on every arena, cyclic ones included, and fails exactly when the expansion re-enters an element, misses a target, or repeats a path or the meaning of a name |
| `GeometryRoutes.GeometryWalk.Record` | native/src/gdtf_runtime/instance_dmx_routing.h:80-83 | Records a geometry exactly when its path is new and its name does not already mean another element |
| `GeometryRoutes.ExpandsExactlyTheTidy` | native/src/gdtf_runtime/instance_dmx_routing.h:67-87 | An expansion exists if and only if no path of children and references from the origin repeats an element or ends in a dangling reference |
| `GeometryRoutes.ExpansionIsOk` | native/src/gdtf_runtime/instance_dmx_routing.h:73-84 | Contexts and depths are consistent: outside references the context is empty and the depth zero, inside neither is |
| `RouteWalks.RoutesAreWalks` | native/src/gdtf_runtime/instance_dmx_routing.h:67-87 | There is exactly one route for each walk from the selected geometry through named children and reference targets that ends in a geometry, in document order; its path joins the names of the walk, its reference is the innermost on the walk, its context that reference's own path, its depth their number |
| `RouteWalks.ExpansionStandsFor` | native/src/gdtf_runtime/instance_dmx_routing.h:67-87 | The same for the part of an expansion below any element, whatever was handed down to it |
| `InstanceExpansion.BuildRoots` | native/src/gdtf_runtime/instance_dmx_routing.h:47-52 | Succeeds exactly when no two named top-level geometries share a name, and then tabulates them |
| `InstanceExpansion.RootsExact` | native/src/gdtf_runtime/instance_dmx_routing.h:47-52 | The table holds exactly the declared names and finds each geometry by its own name |
| `InstanceExpansion.ExpandGeometries` | native/src/gdtf_runtime/instance_dmx_routing.h:53-88 | Tells exactly: no geometry tree, an error, or the unambiguous routes of the selected geometry |
| `InstanceExpansion.NoGeometriesExactly` | native/src/gdtf_runtime/instance_dmx_routing.h:53-60 | There is no geometry tree exactly if no top-level geometry is named |
| `InstanceExpansion.RoutedExactly` | native/src/gdtf_runtime/instance_dmx_routing.h:47-88 | With the selected geometry among the top-level ones there are routes exactly if names are unique, no walk from it comes back to an element or ends in a dangling reference, and the routes are unambiguous |
| `InstanceExpansion.RoutedByWalks` | native/src/gdtf_runtime/instance_dmx_routing.h:47-88 | The routes of an accepted tree are those of the walks from its selected geometry, references resolved by the names of all top-level geometries |
| `InstanceRouting.CollectBreaks` | native/src/gdtf_runtime/instance_dmx_routing.h:91-97 | Collects per reference the numbered breaks in use and whether Overwrite is used |
| `InstanceRouting.Adjust` | native/src/gdtf_runtime/instance_dmx_routing.h:117-134 | Chooses the Break child by the rank of the program's break, checks it, and shifts every byte, or rejects |
| `InstanceRouting.RankIsMonotone` | native/src/gdtf_runtime/instance_dmx_routing.h:121-123 | Break children serve the numbered breaks in ascending order, one child each |
| `InstanceRouting.CollectedExactly` | native/src/gdtf_runtime/instance_dmx_routing.h:91-97 | A break is collected for a reference exactly if some program with it is on a geometry that a route reaches through that reference |
| `InstanceRouting.CopyExactly` | native/src/gdtf_runtime/instance_dmx_routing.h:114-135 | Outside references a copy is its program, unless that needs Overwrite. Through one it exists exactly if the depth is one, there is one Break child per break in use and the child at the rank of the program's break can serve it; then its bytes move by that child's DMXOffset less one and it carries that child's break |
| `InstanceRouting.CopyMoves` | native/src/gdtf_runtime/instance_dmx_routing.h:114-135 | A copy keeps the byte order and distinctness of the declared offsets and carries a real break: its own, or the reference's for Overwrite |
| `InstanceRouting.PlacementsExact` | native/src/gdtf_runtime/instance_dmx_routing.h:110-113 | The copies are exactly the pairs of a program and a route of its geometry |
| `InstanceRouting.PlacementsOnce` | native/src/gdtf_runtime/instance_dmx_routing.h:110-113 | Each pair of a program and a route is copied once |
| `InstanceExpansion.InstanceRouter.AssignIds` | native/src/gdtf_runtime/instance_dmx_routing.h:136-162 | Rows for path, component and channel are shared if they exist and opened with the next id otherwise |
| `InstanceExpansion.InstanceRouter.Place` | native/src/gdtf_runtime/instance_dmx_routing.h:136-169 | One copy is added under the ids of its path, component and channel, and claims its channel if it is the first |
| `InstanceExpansion.InstanceRouter.Rebuild` | native/src/gdtf_runtime/instance_dmx_routing.h:110-172 | Succeeds exactly when every program lies on a route and every copy exists; then the tables are those of all placements, in order |
| `InstanceTables.TablesAlwaysHold` | native/src/gdtf_runtime/instance_dmx_routing.h:136-169 | Whatever copies are made: each sits under the ids of its path, component and channel, ids are positions in tables with one row per key at first use, and each channel has the bytes and the id of its first copy |
| `InstanceTables.KeysExact` | native/src/gdtf_runtime/instance_dmx_routing.h:136-162 | The tables have one row for exactly the paths, components on a path and channels in a context that some copy uses |
| `InstanceExpansion.EachIsServed` | native/src/gdtf_runtime/instance_dmx_routing.h:110-171 | In an expanded fixture every program has a route and none of its copies was rejected |
| `InstanceLinks.IdsIdentify` | native/src/gdtf_runtime/instance_dmx_routing.h:136-165 | Two copies share a geometry id exactly when they share the path, a component id exactly when also the component, a channel id exactly when context and channel agree |
| `InstanceExpansion.InstanceRouter.Relink` | native/src/gdtf_runtime/instance_dmx_routing.h:173-183 | Succeeds exactly when every conditional copy has a master in its own context or outside references, and rewrites only conditions |
| `InstanceExpansion.MasterIsFound` | native/src/gdtf_runtime/instance_dmx_routing.h:173-179 | The search over instances finds a master exactly when a copy of the named program is placed under the same reference or outside references |
| `InstanceLinks.LinksStayInContext` | native/src/gdtf_runtime/instance_dmx_routing.h:173-183 | A relinked condition names a copy of the very master it named before, and that copy's channel: under the same reference, or outside references when there is none there, and the last of several; its target is the channel or the copy as its kind demands, and nothing else changes |
| `InstanceExpansion.ExpansionHolds` | native/src/gdtf_runtime/instance_dmx_routing.h:110-185 | An expanded fixture holds the copies of all placements, each once and in order, with their tables, and its programs differ from the copies in relinked conditions only |
| `InstanceExpansion.RebuildAlong` | native/src/gdtf_runtime/instance_dmx_routing.h:91-185 | Accepts exactly when every program has its copies and every conditional copy a master; the result is the expansion along the routes |
| `InstanceExpansion.ExpandInstanceRoutes` | native/src/gdtf_runtime/instance_dmx_routing.h:45-185 | The whole step accepts exactly the acceptable modes: unique names, a selected geometry that expands unambiguously, breaks and offsets that fit, masters that are placed; the result is the expansion along the routes, or the parsed fixture when there is no geometry |
| `ResolvedAddresses.ValidateChannelAddresses` | native/src/gdtf_runtime/instance_dmx_routing.h:20-42 | Accepts exactly channels with at most four distinct byte numbers in 1 to 512 and a positive or Overwrite break |
| `ResolvedAddresses.ValidateResolvedAddresses` | native/src/gdtf_runtime/resolved_dmx_addresses.h:15-30 | Accepts exactly patches whose universes are Port-Addresses and whose bytes stay inside their break |
| `ResolvedAddresses.ResolvesByItsEntry` | native/src/gdtf_runtime/resolved_dmx_addresses.h:10-30 | A program on break n resolves exactly if MVR break n - 1 is patched, or n is one and the patch has no entries, and its bytes fit behind that address and its universe is a Port-Address |
| `ResolvedAddresses.MakeSources` | native/src/gdtf_runtime/runtime_scene_compiler.cpp:108-119 | One byte source per declared offset, in order: the slot plus two is the address of the entry of MVR break n - 1 plus the offset, in that entry's universe at its distance from the fixture's base universe; a plain patch serves break one |
| `ResolvedAddresses.CompiledSourcesAreWellAddressed` | native/src/gdtf_runtime/resolved_dmx_addresses.h:10-30 | Whatever passes channel validation, expansion and patch resolution compiles to at most four byte sources with universe in 0 to 32767 and address in 0 to 511, pairwise distinct, in order, spaced as declared |

## Left out

- Wrap-around of 64-bit counters (generations, token ids, producer sequences, statistics): they are unbounded here.
- Allocation and capacity statistics (`allocated_slots`, `approximate_bytes`, `buffer_bytes`, `high_water`, candidate counts) and all trace timings.
- Weak memory: atomics are sequentially consistent; condition variables are nondeterministic scheduling.
- The asynchronous pipeline is a transition system on values, not a class with threads: Dafny methods cannot interleave. Snapshot contents are one opaque value per result.
- A throw inside the core's own submit call: a value counts as received when the call returns.
- Releasing a snapshot that is not leased: the transition system only releases leased banks.
- Floating-point rounding and overflow in shutter and render arithmetic; the counter limit is a precondition.
- The hash that produces shutter jitter, the attribute and label tables, and the targets compiled from shutter ranges.
- The text of DMX values (`parse_gdtf_dmx_value`): any parser with well-formed results is allowed.
- XML traversal: elements, attributes and number fields arrive parsed; only the checks on them are modelled.
- Asset extraction, media, matrices as numbers, and the classifiers of tags and names: uninterpreted fields of elements.
- The part of activation finalization that copies conditions to gobo motion bindings.
- Rounding of the row sums: they are exact over `real`. The sRGB curves are arbitrary functions, and how lights, beams and materials use a row's values is not modelled.
- RenderGroupProjection.Consume: the frame comes as a parameter; evaluating it and the schema generation test belong to the visual core.
- Diagnostic codes and messages, except which outcome is reported.
- Geometry, component, program and channel fields that expansion copies unchanged.
- Sockets, archives, scene files, Godot wrappers, color science and the visual core itself.
