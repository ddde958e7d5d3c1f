# imi, modelled and proved

`imi` writes a disk image to a block device through a fixed sequence of phases. This project models
the parts of it that are hard to get right and proves what they promise:

* **the write and read-back loops** (phases 4 and 5), each in its serial form and in its two-thread
  form: a worker that fills buffers from an arbitrary reader, a main thread that writes or compares
  them, two channels and a pool of two buffers between them;
* **the destructive window**: the order of the phases, the guard that is armed before the first
  write and disarmed after the last check, the FATAL notice, and the state every error reports;
* **the safety gates**: the walk over holders, the block stack of the target, the mountinfo text, the
  order of unmounting.

`dafny verify dfyconfig.toml` checks everything.

## How it is modelled

**Reader.** A script of events: some bytes, an interrupt, an error, a panic. A read takes as much of
the next piece as it has room for. `Readers.Stream` is what a script delivers and
`Readers.EndingOf` how it ends; every result is stated in those two, so it holds for every way of
cutting the same stream into reads.

**Device.** An array of bytes, one boolean for `O_DIRECT`, and a log of the writes issued. A write may
fail and leave any bytes in its own range; the flag change may fail on either `fcntl`.

**Buffers.** `BUF_SIZE` has no value here: it is any positive multiple of the alignment within the
bounds the source asserts at compile time (`crates/imi-core/src/common/throttle.rs:20-23`).

**The serial arms** are methods with the source's loops. Each is proved against a step function
(`Flash.RoundStep`, `Verify.RoundStep`) and a relation `LoopEnds` that says how a loop over that
stream and that device may end; `FlashMeaning` and `VerifyMeaning` prove what such an end means.

**The pipelined arms** are labelled transition systems. A state holds both program counters, both
channels with their open ends, the buffers, the cancellation flag and its mirror, the rest of the
script, the device and the clock. Every blocking or shared-state operation of a thread is one step,
any thread whose step is enabled may go next, and the caller may set the flag between any two steps.
One invariant (`FlashInvariant.Good`, `VerifyInvariant.Good`) is kept by every step; safety,
progress, refinement of the serial arm, pacing and cancellation follow from it for every run.

**Time** is a monotone clock; sleeps overshoot but never undershoot. **Cancellation** is a flag that,
once set, stays set.

**The whole run** is `Runs.RunWith`, over a record that says for every step that can fail how it
fails, if it does. The flash and verify inside it are the arms above, and the image and
stacked-volume gates before them are the searches below, not summaries of them. What it logs is, event
for event, the trace of the course it takes (`Journals.Trace`).

**sysfs** is a finite graph, fixed during one scan. **mountinfo** is bytes, and the kernel's printer
is written out so that the parser can be proved to undo it.

| files | what they hold |
|---|---|
| `Base`, `Reader`, `Device`, `Pace` | arithmetic and sequences; reader and fill loops; device; throttle, flag, clock, sleep |
| `Flash`, `FlashMeaning` | the write loop, its serial arm, what a flash means |
| `Channels`, `FlashPipeline`, `FlashInvariant`, `FlashTheorems`, `FlashArm` | the pipelined flash, its invariant and theorems |
| `FlashDiscipline`, `FlashRace` | the `O_DIRECT` discipline; exactly when the two flash arms agree |
| `Verify`, `VerifyMeaning`, `VerifyPipeline`, `VerifyInvariant`, `VerifyTheorems`, `VerifyArm` | the same for the read-back |
| `VerifyRace`, `VerifyLate`, `VerifyPacing` | exactly when the two verify arms agree; the throttle over the read-back |
| `Guard`, `Wipe`, `Errors`, `Journal`, `Run`, `EndToEnd` | the destructive window, the events and the whole run |
| `Unpaired` | one run for each way in which a phase is reported finished without having started |
| `Sysfs`, `Stacked`, `Subtree` | holders, stacked volumes, the target's block stack |
| `MountText`, `MountTable` | mountinfo parsing, mount prefixes, unmounting |

## Where a promise does not hold as stated

Four promises of the source's own prose are not true of every input. The code is modelled as it is,
and the exact condition is proved.

* *The arms give the same result* fails for a panicking reader: the pipelined arm re-raises a panic
  its worker met while reading ahead, although the serial arm stopped earlier for another reason.
  Flash: it happens under some schedule if and only if the panic lies within two buffers of where the
  serial loop stops (`FlashRace.ArmsAgreeExactly`); on an obedient device that is a comparison of two
  lengths (`FlashRace.ObedientArmsAgreeExactly`). Verify: if and only if the image panics before
  `total` and within two buffers of the first chunk for which the device is refused
  (`VerifyRace.ArmsAgreeExactly`); on a readable device, if and only if it panics in the buffer after
  the one with the first differing byte (`VerifyRace.ReadableArmsAgreeExactly`).
* *The verify arms give the same result* also fails under cancellation: the pipelined loop looks at
  the flag after the last chunk's sleep (`crates/imi-core/src/phases/phase_5.rs:563-572`), the serial
  one has already left (`crates/imi-core/src/phases/phase_5.rs:292`). It can happen if and only if
  there is a throttle, something to verify, and a device that can be read and agrees with the image on
  every byte to be verified (`VerifyLate.LateExactly`).
* *The block stack is complete* fails when a loop device of the stack is itself reached as a holder:
  it is then in the set before the loop scan looks at it
  (`crates/imi-core/src/phases/phase_0.rs:523`), and its partitions are never added
  (`Subtree.LeastStackExactly`, with a concrete tree in `Subtree.HolderLoopLosesPartitions`).
* *A finished phase has always been started* (`crates/imi-core/src/events.rs:148`) fails for two
  phases. The wipe is reported finished without having started if and only if phases 0 to 2 passed and
  the flag was set before phase 3. The verification is, if and only if the flash succeeded and
  verification is skipped or the cooldown was cut short: phase 5 reports its end as the end of the
  verification on every return. Every other start and finish pair up, once and in that order, unless
  the run unwinds (`Runs.RunWith`, `Journals.TracePairs`; one run for each case in `Unpaired`).

## Model

| member | source | states |
|---|---|---|
| Readers.ReadOnceMeaning | crates/imi-core/src/phases/phase_4.rs:620-632 | one read moves bytes from the front of the stream to the caller and changes nothing else; an interrupt loses nothing |
| Readers.Reader.Read | crates/imi-core/src/phases/phase_4.rs:620-632 | a read changes only the range it was given and takes exactly those bytes from the script |
| Readers.FillBuffer | crates/imi-core/src/phases/phase_4.rs:620-632 | for every script of short reads and interrupts the result depends on the stream and its ending only: a full buffer, the short rest, the error or the panic; the buffer holds exactly the next bytes and the reader is left after them |
| Readers.FillExact | crates/imi-core/src/phases/phase_5.rs:634-651 | the same for a demanded length, with an early end of file as an error |
| Readers.CutShape | crates/imi-core/src/phases/phase_4.rs:620-632 | cutting a stream into buffers loses nothing: full chunks, then exactly one short one, whose concatenation is the stream |
| Readers.FillsCutTheStream | crates/imi-core/src/phases/phase_5.rs:357-407 | successive fills deliver exactly that cut, and exact fills paced by the stream's length yield the same chunks and never report an early end |
| Devices.Device.SetFlag | crates/imi-core/src/common/direct_io.rs:30-42 | flips the one bit or fails and leaves it; no second `fcntl` when it already has the wanted value |
| Devices.Device.WriteAt | crates/imi-core/src/phases/phase_4.rs:644-670 | writes at one offset, changes no byte outside its range even when it fails, and is logged with the flag it was made under |
| Devices.SetDirectMeaning | crates/imi-core/src/common/direct_io.rs:30-42 | a flag change succeeds exactly when the flag can be read, and set if it has to be; then it is what was asked for, and otherwise nothing changed |
| Devices.WriteAllMeaning | crates/imi-core/src/phases/phase_4.rs:644-670 | a write succeeds exactly when nothing tears it and it fits, with its bytes then on the device; however it goes no other byte changes |
| Pace.TargetIsExact | crates/imi-core/src/common/throttle.rs:42-74 | no rate is no target and a zero rate is refused; for every other rate no clamp fires and the target is the exact floor of the ideal time |
| Pace.ThrottleBound | crates/imi-core/src/common/throttle.rs:42-74 | chunks that took one target each never moved faster than the rate, up to one nanosecond a chunk |
| Pace.CancellableSleep | crates/imi-core/src/common/cancel.rs:49-94 | waits out the whole span unless the flag was seen, on the deadline path and on the overflow fallback; a span above a tenth of a second is slept in steps of at most that, with a look at the flag before each |
| Pace.PaceChunk | crates/imi-core/src/phases/phase_4.rs:201-206 | after a chunk, a whole target has passed since the chunk began unless the flag was seen |
| Flash.ProcessChunk | crates/imi-core/src/phases/phase_4.rs:256-293 | the device and the outcome after a chunk are those of the step function: nothing for an empty chunk, a direct write for a full one, a buffered last write for a short one, a refusal before any write that would pass the device's end |
| Flash.FlashFinalize | crates/imi-core/src/phases/phase_4.rs:305-325 | reports nothing wrong if and only if the flag can be cleared and the sync succeeds, names which of the two failed, and changes no byte |
| Flash.WriteRound | crates/imi-core/src/phases/phase_4.rs:161-189 | one pass of the serial loop is one round of the step function, over any script |
| Flash.WriteLoop | crates/imi-core/src/phases/phase_4.rs:161-207 | the loop ends as the relation allows, is cancelled only if the flag can be set and at once if it is set on entry, takes a target per full chunk, and makes at most one more write once the flag is set |
| Flash.FlashSerial | crates/imi-core/src/phases/phase_4.rs:130-213 | the serial arm reports the settled end of that loop, or a setup failure with no byte written; a flag set on entry is reported as a cancellation; every uncancelled run, whatever it reports, keeps the throttle bound; at most one more write is made once the flag is set |
| FlashMeaning.AfterMeaning | crates/imi-core/src/phases/phase_4.rs:161-189 | after k full chunks the device holds the stream's first k buffers, everything else is untouched, and the log is exactly those k writes in order |
| FlashMeaning.FinishedMeaning | crates/imi-core/src/phases/phase_4.rs:130-213 | a loop that finishes did so at a clean end of the stream, with all of it on the device and nothing else changed |
| FlashMeaning.PrefixMeaning | crates/imi-core/src/phases/phase_4.rs:130-213 | however a loop ends, torn writes included, the device below the last full chunk holds the stream |
| FlashMeaning.DirectDiscipline | crates/imi-core/src/phases/phase_4.rs:256-293 | every direct write is one whole buffer at a multiple of its size, a shorter write is made with the flag off and is the last, none passes the device's end |
| FlashMeaning.OkClearsDirect | crates/imi-core/src/phases/phase_4.rs:305-325 | the flag is off on every `Ok` exit |
| FlashMeaning.ReportOf | crates/imi-core/src/phases/phase_4.rs:305-325 | `Ok` if and only if the loop finished, the flag could be cleared and the sync succeeded; which error each other end reports |
| FlashMeaning.FailedWriteReport | crates/imi-core/src/phases/phase_4.rs:644-678 | a write the device failed is reported as out of space for exactly the two kinds that mean it, and otherwise by its own kind |
| FlashMeaning.LoopEndsUnique | crates/imi-core/src/phases/phase_4.rs:130-213 | without cancellation a stream and a device determine outcome, device and chunk count |
| FlashMeaning.FaultFreeVerdict | crates/imi-core/src/phases/phase_4.rs:638-640 | on an obedient device the outcome, the chunk count and every byte in closed form, from the stream's length, its ending and the device's size |
| FlashMeaning.OkIff | crates/imi-core/src/phases/phase_4.rs:130-213 | an uncancelled, fault-free flash succeeds if and only if the stream ends cleanly and fits |
| FlashMeaning.FlashOk | crates/imi-core/src/phases/phase_4.rs:355-373 | `Ok` from either arm means the whole stream is on the device it was given, nothing else changed, the flag is off, the sync succeeded, there was memory and the rate was legal |
| FlashMeaning.FlashOkIff | crates/imi-core/src/phases/phase_4.rs:355-373 | an uncancelled flash whose writes and later flag changes work succeeds, in either arm, if and only if the flag could be set, there is memory, the rate is legal, the stream ends cleanly and fits, and the sync succeeds |
| FlashMeaning.ArmsAgree | crates/imi-core/src/phases/phase_4.rs:355-373 | given memory, a legal rate and no cancellation, two flashes that return report the same and leave the same device |
| FlashInvariant.ChunkRound | crates/imi-core/src/phases/phase_4.rs:536-557 | processing a received chunk is exactly one round of the serial loop |
| FlashInvariant.StepKeepsGood | crates/imi-core/src/phases/phase_4.rs:385-608 | the invariant of channels, buffers, stream, device and pacing is kept by every step of both threads and by cancellation |
| FlashTheorems.DeviceIsPrefix | crates/imi-core/src/phases/phase_4.rs:385-608 | in every reachable state of the loop the device below `offset` is the stream's first `offset` bytes, the rest is untouched, and the channel holds the next chunks in order, none lost or repeated |
| FlashTheorems.BuffersConserved | crates/imi-core/src/phases/phase_4.rs:467-476 | while the worker lives, each of the two buffers has exactly one owner |
| FlashTheorems.DisconnectMeansPanic | crates/imi-core/src/phases/phase_4.rs:512-532 | the protocol-violation branch is dead: a disconnected channel means the worker panicked |
| FlashTheorems.DeadlockFree | crates/imi-core/src/phases/phase_4.rs:442-608 | no reachable state is stuck before the result is reported |
| FlashTheorems.RunIsBounded | crates/imi-core/src/phases/phase_4.rs:442-608 | every run under every schedule is finite, with an explicit bound |
| FlashTheorems.ReportMeaning | crates/imi-core/src/phases/phase_4.rs:573-608 | at the report both channels are closed and the worker joined; the report is a panic exactly when the worker panicked, and otherwise the settled end of a serial loop |
| FlashTheorems.RefinesSerial | crates/imi-core/src/phases/phase_4.rs:442-608 | with the flag clear and a reader that does not panic, every schedule ends with the serial arm's report, device and chunk count |
| FlashTheorems.RefinesSerialOrPanics | crates/imi-core/src/phases/phase_4.rs:589-602 | with any reader, an uncancelled run ends as the serial arm or re-raises the panic |
| FlashTheorems.OkMeansAllWritten | crates/imi-core/src/phases/phase_4.rs:442-608 | `Ok` from any interleaving means the total is the stream's length, all of it is on the device, nothing else changed, the flag is off, and the sync succeeded |
| FlashTheorems.RunIsThrottled | crates/imi-core/src/phases/phase_4.rs:560-570 | every uncancelled interleaving keeps the throttle's cumulative bound |
| FlashTheorems.CancelIsPrompt | crates/imi-core/src/phases/phase_4.rs:492-602 | from any state with the flag set, every continuation issues at most one more write |
| FlashTheorems.CancelStopsWorker | crates/imi-core/src/phases/phase_4.rs:385-428 | in every run, once the main loop has been cancelled, a worker outside a fill starts no other in any continuation |
| FlashArm.FinishReports | crates/imi-core/src/phases/phase_4.rs:442-608 | driven by any schedule, the pipelined arm reaches its report |
| FlashArm.PipelinedFlashes | crates/imi-core/src/phases/phase_4.rs:442-608 | under every schedule the whole arm, setup included, reports what a flash may report; it unwinds only if the reader panicked |
| FlashDiscipline.EveryWriteIsDisciplined | crates/imi-core/src/phases/phase_4.rs:442-608 | the `O_DIRECT` discipline in every reachable state, cancelled and panicking runs included |
| FlashDiscipline.FlashIsDisciplined | crates/imi-core/src/phases/phase_4.rs:130-213 | the same for every arm that returns, whatever it reports |
| FlashDiscipline.PipelinedIsDisciplined | crates/imi-core/src/phases/phase_4.rs:442-608 | the same for every schedule of the pipelined arm, whether it returns or unwinds |
| FlashRace.CrashIsNear | crates/imi-core/src/phases/phase_4.rs:385-428 | a worker only meets a panic that lies less than two buffers beyond what main has written |
| FlashRace.ArmsAgreeExactly | crates/imi-core/src/phases/phase_4.rs:589-602 | the two arms agree under every schedule if and only if the panic, if any, is out of the worker's reach when the serial loop stops |
| FlashRace.ObedientArmsAgreeExactly | crates/imi-core/src/phases/phase_4.rs:589-602 | on an obedient device: if and only if the reader does not panic or the device does not hold exactly one full buffer fewer than the stream |
| Verify.FirstDiff | crates/imi-core/src/phases/phase_5.rs:616-623 | the first index at which two byte strings differ, and none exactly when they are equal |
| Verify.CompareChunk | crates/imi-core/src/phases/phase_5.rs:616-623 | agreement exactly when the chunks are equal; otherwise the absolute offset of the first difference, or of the chunk if the lengths differ |
| Verify.CompareRound | crates/imi-core/src/phases/phase_5.rs:292-320 | one pass of the serial compare loop is one round of the step function, over any script |
| Verify.CompareLoop | crates/imi-core/src/phases/phase_5.rs:292-335 | the serial loop ends as the relation allows, is cancelled if the flag is set on entry and something is left to compare, takes a target per chunk, and compares at most one more chunk once the flag is set |
| Verify.VerifySerial | crates/imi-core/src/phases/phase_5.rs:266-335 | the serial arm reports the conclusion of that loop, or a setup failure, keeps the pacing whatever it reports, and compares at most one more chunk once the flag is set |
| VerifyMeaning.AgreedMeaning | crates/imi-core/src/phases/phase_5.rs:266-335 | acceptance means the device starts with the image's first `total` bytes |
| VerifyMeaning.MismatchMeaning | crates/imi-core/src/phases/phase_5.rs:616-623 | a reported mismatch is the least index below `total` at which device and image differ |
| VerifyMeaning.SoundAndComplete | crates/imi-core/src/phases/phase_5.rs:266-335 | with no fault or cancel and a long enough image: accepted if and only if device and image agree on all of `[0, total)`, otherwise the one least differing index is named |
| VerifyMeaning.RejectionMeaning | crates/imi-core/src/phases/phase_5.rs:266-335 | what each error of an uncancelled check means: a device unreadable at a chunk's start or too short, an image that ended, broke or panicked before `total`, and which read error it names |
| VerifyMeaning.VerifyOk | crates/imi-core/src/phases/phase_5.rs:204-253 | `Ok` from either arm means the bytes agree on all of `total`, no chunk below it is unreadable, there was memory and the rate was legal |
| VerifyMeaning.ShortImageRejected | crates/imi-core/src/phases/phase_5.rs:634-651 | an image that ends early is never accepted |
| VerifyMeaning.AgreedIff | crates/imi-core/src/phases/phase_5.rs:266-335 | the serial loop accepts if and only if every byte below `total` is on both sides, can be read and agrees: no loop in the statement |
| VerifyMeaning.StopsShortIff | crates/imi-core/src/phases/phase_5.rs:266-335 | over an image that panics before `total`, the serial loop ends without the panic if and only if some chunk is the first not accepted and the device is to blame, and it ends at that chunk |
| VerifyMeaning.RefusedAtDifference | crates/imi-core/src/phases/phase_5.rs:616-623 | on a readable device that chunk is the one with the first difference, and it is whole |
| VerifyMeaning.LoopEndsUnique | crates/imi-core/src/phases/phase_5.rs:266-335 | without cancellation a check has exactly one verdict |
| VerifyMeaning.ArmsAgree | crates/imi-core/src/phases/phase_5.rs:204-253 | given memory, a legal rate and no cancellation, the two arms report the same after the same rounds |
| VerifyInvariant.StepKeepsGood | crates/imi-core/src/phases/phase_5.rs:357-597 | the invariant of channels, buffers, image, offsets and lockstep is kept by every step |
| VerifyTheorems.Lockstep | crates/imi-core/src/phases/phase_5.rs:357-407 | everything below `offset` agrees, and worker remaining plus bytes in flight equals main remaining |
| VerifyTheorems.BuffersConserved | crates/imi-core/src/phases/phase_5.rs:433-470 | while the worker lives, each buffer has exactly one owner |
| VerifyTheorems.ProtocolHolds | crates/imi-core/src/phases/phase_5.rs:515-544 | both protocol-violation branches are dead: received lengths match, and a disconnect means a panic |
| VerifyTheorems.DeadlockFree | crates/imi-core/src/phases/phase_5.rs:433-597 | no reachable state is stuck before the report |
| VerifyTheorems.RunIsBounded | crates/imi-core/src/phases/phase_5.rs:433-597 | every run under every schedule is finite, with an explicit bound |
| VerifyTheorems.ReportMeaning | crates/imi-core/src/phases/phase_5.rs:577-597 | at the report both channels are closed and the worker joined; a panic exactly when the worker panicked, otherwise a verdict of the compare loop |
| VerifyTheorems.RefinesSerial | crates/imi-core/src/phases/phase_5.rs:433-597 | with the flag clear and a reader that does not panic, every schedule ends with the serial report |
| VerifyTheorems.OkMeansEqual | crates/imi-core/src/phases/phase_5.rs:433-597 | even when cancelled or faulty, `Ok` is never reported over a difference |
| VerifyTheorems.CancelIsPrompt | crates/imi-core/src/phases/phase_5.rs:472-594 | from any state with the flag set, every continuation compares at most one more chunk |
| VerifyTheorems.CancelStopsWorker | crates/imi-core/src/phases/phase_5.rs:357-407 | in every run, once the main loop has been cancelled, a worker outside a fill starts no other in any continuation |
| VerifyPacing.RunIsThrottled | crates/imi-core/src/phases/phase_5.rs:563-572 | every uncancelled interleaving of the read-back keeps the throttle's cumulative bound |
| VerifyArm.PipelinedVerifies | crates/imi-core/src/phases/phase_5.rs:433-597 | under every schedule the whole arm reports what a verification may report; it unwinds only if the reader panicked |
| VerifyRace.SoundAndCompleteDespitePanics | crates/imi-core/src/phases/phase_5.rs:357-407 | sound and complete in every interleaving, with no promise about panics: a long enough image is never read far enough to meet one |
| VerifyRace.ArmsAgreeExactly | crates/imi-core/src/phases/phase_5.rs:577-597 | with the flag clear, the two arms agree under every schedule if and only if the image does not panic before `total` within two buffers of the first chunk for which the device is refused |
| VerifyRace.ReadableArmsAgreeExactly | crates/imi-core/src/phases/phase_5.rs:577-597 | on a readable device: if and only if the image does not panic before `total` in the buffer after the one with the first differing byte |
| VerifyRace.CrashIsNear | crates/imi-core/src/phases/phase_5.rs:357-407 | a worker only meets a panic below `total` and less than two buffers beyond what main has compared |
| VerifyLate.LateMeaning | crates/imi-core/src/phases/phase_5.rs:563-572 | in every run, cancelled ones included, a report the serial loop could not give is a cancellation over bytes that all agree, under a throttle |
| VerifyLate.LateExactly | crates/imi-core/src/phases/phase_5.rs:563-572 | such a report exists if and only if there is a throttle, something to verify, and a device that can be read and agrees with the image on every byte below `total` |
| Guards.FromU8 | crates/imi-core/src/common/guard.rs:65-82 | only zero decodes to the disarmed phase, and a value that encodes no phase decodes to the writing one |
| Guards.PhaseRoundTrip | crates/imi-core/src/common/guard.rs:65-82 | decoding undoes encoding |
| Guards.FlashGuard.Arm | crates/imi-core/src/common/guard.rs:154-157 | arming opens the window in the given phase and keeps the claim |
| Guards.FlashGuard.AdvancePhase | crates/imi-core/src/common/guard.rs:163-195 | advancing changes an armed guard's phase and never arms a disarmed one |
| Guards.FlashGuard.IntoFile | crates/imi-core/src/common/guard.rs:304-307 | hands back the claimed device and leaves nothing to warn about |
| Guards.FlashGuard.Drop | crates/imi-core/src/common/guard.rs:411-434 | prints the notice of the phase in flight exactly when armed, and releases the claim |
| Guards.ArmedGuard.SetPhase | crates/imi-core/src/common/guard.rs:357-359 | stays armed on the same device, in the new phase |
| Guards.ArmedGuard.Disarm | crates/imi-core/src/common/guard.rs:370-374 | closes the window and yields the guard with its claim |
| Guards.ArmedGuard.Drop | crates/imi-core/src/common/guard.rs:336-340 | dropping the wrapper drops what is inside, once |
| Errors.WrapKeepsClass | crates/imi-core/src/error.rs:217-319 | any number of layers keeps kind and device state, and the rendered chain shows each layer once, outermost first |
| Errors.BoundaryClassifies | crates/imi-core/src/error.rs:237-319 | after a phase boundary the kind is fixed by the cause and the device state alone, in both directions for each kind, whether the cause was taken over by `from_source` or put under a message by `layer`; each text is rendered once |
| Errors.Render | crates/imi-core/src/error.rs:372-386 | the cursor loop renders exactly the chain |
| Wipe.TailWipeOffset | crates/imi-core/src/phases/phase_3.rs:105-107 | an offset exactly when two regions fit, one region before the end |
| Wipe.WipeEnds | crates/imi-core/src/phases/phase_3.rs:114-155 | succeeds if and only if two regions fit, memory is there, neither write is torn and the sync succeeds; then both signature regions are zeroed and nothing else changes; a refusal or a failed allocation writes nothing |
| Wipe.FlashedByte | crates/imi-core/src/phases/phase_3.rs:114-155 | byte by byte, what a device holds after a wipe and a flash |
| EndToEnd.FlashedDevice | crates/imi-core/src/phases/phase_4.rs:130-213 | after wipe and a successful flash every byte is determined: image, zeroed regions, untouched rest; and no write passes the device's end |
| EndToEnd.FlashedIsAccepted | crates/imi-core/src/phases/phase_5.rs:204-253 | verification by either arm accepts what a successful flash wrote |
| Runs.Phase0 | crates/imi-core/src/phases/phase_0.rs:47-150 | passes only with a cooldown of 1 to 600 seconds, validated paths, a geometry, no write protection, room for two wipe regions and for a raw image, an unchanged identity, a confirmation, and an image off the computed block stack; fails only if one of these is missing, the stack is unreadable or the image is on every block stack; every failure reports an untouched device |
| Runs.RefusalIff | crates/imi-core/src/phases/phase_0.rs:47-150 | the checks before and after the image's place refuse if and only if one of the conditions `Phase0` lists is missing |
| Runs.Phase1 | crates/imi-core/src/phases/phase_1.rs:24-65 | passes if and only if everything stacked on the target is readable and a kpartx mapping and the rest of the topology check succeeds; a failure is untouched |
| Runs.Phase2 | crates/imi-core/src/phases/phase_2.rs:58-110 | passes if and only if the claim succeeds and, under it, nothing live is stacked on the target, nothing is mounted and the identity matches; then with a disarmed guard on the device, otherwise untouched, without a notice, the guard dropped |
| Runs.Phase3 | crates/imi-core/src/phases/phase_3.rs:44-96 | a flag found set is an untouched, silent failure reported as a finish without a start; a failure after arming is indeterminate, with the wiping notice; success is armed over a device wiped and synced |
| Runs.Phase4 | crates/imi-core/src/phases/phase_4.rs:74-123 | success puts the whole image on the device, synced and with the flag off, from an image that could be opened; failure is indeterminate, and a cancellation exactly when the flash was cancelled |
| Runs.FlashKinds | crates/imi-core/src/error.rs:237-319 | a cancelled flash, and no other, is reported as a cancellation |
| Runs.VerifyKinds | crates/imi-core/src/error.rs:237-319 | a cancelled check, and no other, is reported as a cancellation, and a mismatch, and nothing else, as a failed verification |
| Runs.CoolDown | crates/imi-core/src/phases/phase_5.rs:174-193 | waits the configured seconds with a look at the flag before each, or was cancelled; its phase starts and finishes either way |
| Runs.ReadBack | crates/imi-core/src/phases/phase_5.rs:204-253 | success means the kernel's cache was flushed, the flag is off, the image could be opened again, no chunk was unreadable, and the device agrees with the second pass over the image on all bytes written; a failure is a cancellation, a mismatch or neither exactly as the check reported; and it succeeds over the flashed image when nothing fails |
| Runs.Phase5 | crates/imi-core/src/phases/phase_5.rs:88-168 | the cooldown is waited out and the bytes compared behind a flushed cache unless skipped; a failure leaves the guard in the phase announced; the log is given event by event, and ends with a finished verification on every return, started or not |
| Runs.Phase6 | crates/imi-core/src/phases/phase_6.rs:18-57 | the window closes without a notice, the guard is disarmed and the claim released |
| Runs.AutomountDefense | crates/imi-core/src/phases/phase_7.rs:37-119 | success means the topology was rebuilt and, of at most four scans, one finds nothing after none failed, the settling time waited out unless the flag was seen; with the flag clear that is exactly when it succeeds |
| Journals.TraceIsOrderly | crates/imi-core/src/lib.rs:379-398 | in the log of every course each phase starts at most once, finishes at most once, and never starts after it finished |
| Journals.TracePairs | crates/imi-core/src/events.rs:145-151 | for every phase, exactly when its finish has no start and exactly when its start has no finish |
| Journals.TraceExtras | crates/imi-core/src/lib.rs:379-398 | exactly when a run logs its completion and each of the two skips |
| Unpaired.FlagSetBefore | crates/imi-core/src/phases/phase_3.rs:44-68 | a concrete run that reports the wipe finished and never started |
| Unpaired.VerificationSkipped | crates/imi-core/src/phases/phase_5.rs:88-102 | a concrete run, with nothing cancelled, that reports the verification finished and never started |
| Unpaired.CooldownCutShort | crates/imi-core/src/phases/phase_5.rs:88-102 | a concrete phase 5 with the verification not skipped, never started and reported finished |
| Runs.RunArmed | crates/imi-core/src/lib.rs:384-385 | an end inside the window prints exactly one notice, naming the phase in flight, and reports an indeterminate device; leaving it otherwise means flashed, synced, cooled down and read back behind a flushed cache, each unless skipped; the log is given event by event |
| Runs.RunWith | crates/imi-core/src/lib.rs:379-398 | over every failure, cancel and panic: nothing is written unless the device is writable, the image fits, the operator agreed and every other gate passed, each named; untouched means no byte was written; written or success means wiped, fully flashed, both synced, read back behind a flushed cache unless skipped, and cooled down unless skipped; a phase is reported skipped exactly when it was reached and told to be; the notice is printed exactly when the run ends between arming and disarming; each phase starts and finishes at most once and in that order, and exactly when one finishes unstarted is stated; and a run in which nothing goes wrong succeeds |
| Sysfs.WalkHolders | crates/imi-core/src/common/sysfs.rs:243-273 | one call over a shared accumulator, on any graph: what it adds is reachable and closed, and it fails only on an unreadable node it had to read |
| Sysfs.HoldersRecursive | crates/imi-core/src/common/sysfs.rs:236-240 | exactly the nodes reached by one or more holder edges, cyclic graphs included; fails exactly when the `holders/` directory of one to be read cannot be listed or has an entry without a usable name |
| Sysfs.ObstructedMeans | crates/imi-core/src/common/sysfs.rs:243-273 | an obstruction is a `holders/` directory on the way that is denied or has an entry without a usable name; a missing one is none |
| Sysfs.EdgeMeans | crates/imi-core/src/common/sysfs.rs:243-273 | a holder edge is a usable name listed in the `holders/` directory |
| Stacked.SyntheticIff | crates/imi-core/src/common/mount.rs:572-587 | a holder is taken for synthetic if and only if its UUID is `part`, digits, and nothing or a dash and a rest |
| Stacked.RejectActiveStackedVolumes | crates/imi-core/src/common/mount.rs:597-634 | accepts if and only if the disk can be listed and everything reachable from it or from any partition of it is readable and has a UUID of the kpartx shape |
| Subtree.TargetBlockSubtree | crates/imi-core/src/phases/phase_0.rs:495-545 | terminates on every finite tree; the result contains the disk and its partitions, is closed under holders and loop backing, and contains only what the rules force; it fails only if the listings fail or a node of every block stack leads to an unreadable one |
| Subtree.BackedLoopMeans | crates/imi-core/src/phases/phase_0.rs:522-529 | only a listed device whose name starts with `loop` is looked at for a backing file |
| Subtree.WithinEveryStack | crates/imi-core/src/phases/phase_0.rs:495-545 | the result is contained in every block stack of the disk |
| Subtree.LeastStack | crates/imi-core/src/phases/phase_0.rs:495-545 | the result is the least block stack when no loop backed from inside the stack holds a member of it or is listed as a partition; a loop-device target included |
| Subtree.LeastStackExactly | crates/imi-core/src/phases/phase_0.rs:518-537 | where names are unambiguous and every loop of the stack that holds a member of it is reached from the disk by holder edges: least block stack if and only if no such loop other than the disk has a partition |
| Subtree.HolderLoopLoses | crates/imi-core/src/phases/phase_0.rs:523 | a loop that holder edges reach from the disk loses every partition that only its own listing names |
| Subtree.HolderLoopLosesPartitions | crates/imi-core/src/phases/phase_0.rs:523 | a concrete tree on which a partition of the stack is missed |
| Subtree.EnsureImageNotOnTarget | crates/imi-core/src/phases/phase_0.rs:416-456 | accepts only an image that is neither the disk, nor one of its partitions, nor any member of the computed stack, nor the backing file of one, and refuses only an image on every block stack or a tree it cannot search |
| Subtree.AcceptedImageIsElsewhere | crates/imi-core/src/phases/phase_0.rs:416-456 | no member of the least block stack is an accepted image's device or backed by it, a loop-device target included |
| MountText.UnescapeEscape | crates/imi-core/src/common/mount.rs:160-191 | decoding undoes escaping for every byte string and every escape set with a backslash |
| MountText.UnescapeProcOctal | crates/imi-core/src/common/mount.rs:160-191 | the decoding loop computes the decoder that `UnescapeEscape` is about |
| MountText.UnescapePlain | crates/imi-core/src/common/mount.rs:160-191 | a string without a backslash stands for itself |
| MountText.UnescapeMalformed | crates/imi-core/src/common/mount.rs:160-191 | a backslash that three octal digits of one byte do not follow stays as it is |
| MountText.EscapeAvoids | crates/imi-core/src/common/mount.rs:160-191 | an escaped field holds no separator |
| MountText.ParseMountinfoLine | crates/imi-core/src/common/mount.rs:301-329 | the parsing loop computes the parser that `ParseUndoesPrint` is about |
| MountText.ParseUndoesPrint | crates/imi-core/src/common/mount.rs:301-329 | for every mount, optional fields and escape set, parsing the printed line returns its device number, target and source |
| MountText.ParseFailsIff | crates/imi-core/src/common/mount.rs:301-329 | a line is skipped if and only if it has too few fields, no file system type behind a dash, or a device number that is not two numbers around a colon |
| MountTable.FilterMountinfo | crates/imi-core/src/common/mount.rs:235-251 | the filter loop keeps, in order, the parsed lines that are on the target |
| MountTable.OnTargetMeans | crates/imi-core/src/common/mount.rs:235-251 | a mount is on the target by its own device number or by the one its source resolves to, and by nothing else |
| MountTable.FilterUndoesPrintText | crates/imi-core/src/common/mount.rs:235-251 | from the text printed for any table the filter returns exactly the mounts on the target, in order, paths decoded |
| MountTable.SourceOfLongestMountPrefix | crates/imi-core/src/common/mount.rs:275-289 | the source of the last line among the deepest sourced component-wise prefixes, and none exactly when there is no candidate |
| MountTable.ComponentsOfAbsolute | crates/imi-core/src/common/mount.rs:275-289 | the components of an absolute path are the root and the words it is spelled from |
| MountTable.ComponentsSkipDots | crates/imi-core/src/common/mount.rs:275-289 | a `.` in an absolute path, or one slash too many, makes no difference |
| MountTable.ComponentsOfRelative | crates/imi-core/src/common/mount.rs:275-289 | a relative path keeps its first word, a `.` too |
| MountTable.PrefixOfAbsolute | crates/imi-core/src/common/mount.rs:275-289 | one mount point contains a path exactly when its words come first, the root containing every absolute path |
| MountTable.EqualDepthSamePlace | crates/imi-core/src/common/mount.rs:275-289 | candidates of equal depth name the same mount point |
| MountTable.DeepestFirstSorts | crates/imi-core/src/common/mount.rs:467-471 | a permutation, longest path first, stable |
| MountTable.NoParentFirst | crates/imi-core/src/common/mount.rs:467-471 | no mount comes before one below it |
| MountTable.UnmountAll | crates/imi-core/src/common/mount.rs:487-501 | meets no refusal if and only if the set takes everything below it along and none of it is in use, overmounts included; then exactly that set is gone, otherwise exactly what came before the refusal |
| MountTable.WholeTableIsEmptied | crates/imi-core/src/common/mount.rs:487-501 | handed a whole table with nothing in use, it empties it |

## Left out

- The ioctls, `fcntl`, `umount2`, `swapoff` and the reading of `/proc` and `/sys`: their results are inputs. `BLKGETSIZE64` is taken to report the device's real size.
- `write_all_at` as several `pwrite` calls: one logged write stands for the whole loop, and a failed one may leave any bytes in its own range.
- The decoders and the magic-byte table: the reader script stands for what they deliver.
- `AlignedBuf`: only the constant facts about its size are used; allocation may fail.
- The command line, the picker, the prompt, progress events, signals and all message text: errors carry kinds and states, and the notice carries the phase.
- Failure to start the worker thread: not part of this model.
- `partitions_of_in` and its sorting: a directory's partitions are an input of the tree, and a set where order does not matter.
- Names that are not UTF-8, and lossy conversion: the decoder is proved on bytes; an unnameable sysfs entry is a separate kind of entry.
- sysfs changing during a scan: one scan sees one tree.
- The `HashSet` and `BTreeSet` iteration order: sets are walked in any order, so which unreadable member is named first is not modelled.
- Real time: the clock counts nanoseconds that only operations advance; the pipelined arms run on the clock of their own state, and the time they took is not added to the clock of the whole run.
- A sleep during which the flag is set is modelled as setting the flag before it, with the time slept as the step's own.
- A device that lies: after a failed write only the bytes below the last full chunk are claimed.
- MountTable.KernelMounts.Umount: models `umount2` as refusing exactly a path that is not mounted, in use, or has something mounted below it; which of several mounts on one path the kernel resolves to is not modelled.
- FlashMeaning.ArmsAgree: speaks of flashes that return; what happens when the reader panics is `FlashRace.ArmsAgreeExactly`.
- FlashMeaning.PrefixMeaning: claims nothing about bytes at or beyond a failed write's offset.
- Subtree.LeastStackExactly: assumes that a loop of the stack that holds a member of it is reached from the disk by holder edges. Any other such loop enters through the loop scan, with its partitions, or through a holder edge, without them, depending on which of two names comes first in the listing, which the source sorts (`crates/imi-core/src/common/sysfs.rs:388`) and the model takes in any order; no condition on the topology alone decides it.
- Runs.Phase0: privileges, canonical paths, file types, the geometry query and the identity snapshot are outside results; the image's place on the block stack and the size, protection and confirmation checks are modelled.
- Runs.Phase1: the whitelist, the swaps and the unmounting are one outside result here; unmounting is modelled in `MountTable`, apart from the run.
- Runs.Phase2: the mounts found under the claim and the identity re-check are outside results; the stacked-volume re-check is modelled.
