# Verification of the SynapticOS runtime guarantees

A Dafny model of the parts of SynapticOS that keep simple promises while being
preempted, interrupted or powered off, with proofs of those promises.

| area | files |
|---|---|
| layered executor and activation planner | `LayeredFormat`, `LayeredPlanner`, `LayeredExecutor`, `LayeredOutputs`, `LayeredNpu` |
| NOR flash port, CRC-32 | `FlashRam`, `Crc32` |
| model store | `StoreImage`, `StoreRoles`, `StoreRuns`, `StoreFaults`, `StoreDisk`, `SlotImage`, `ModelStore` |
| model update engine | `OtaStream`, `ModelOta` |
| job scheduler, quiesce gate, NPU residency | `InferScheduler`, `InferSlotLeaks`, `InferRuntime`, `ModelResidency` |
| scheduler and layered executor together | `InferLayered` |
| message ring, drain gate | `IpcRing`, `IpcRingSize`, `DrainGate` |
| FFT, non-maximum suppression, SYNN container | `FftSoft`, `FftResidues`, `Nms`, `Synn` |
| errors, bytes | `Errno`, `Bytes` |

Most areas come in two layers. A machine on values states what happens at the
granularity that matters (a call, a lock section, a memory access, a power cut) and
carries the theorems over all runs. Classes and loops below it have the code's own
fields and statements, and each method is proved to be the machine step it implements.

How the central theorems are stated:

- Preemption: `LayeredExecutor.RunsAgree` compares the executor with one shared activation
  area and two suspension slots to an executor in which nothing is ever shared. A begin
  that is refused has already replanned; it leaves a live session untouched exactly when
  the resident blob is the session's own. `InferLayered` puts the executor under the
  scheduler, which never uses a session touched so, and concludes that completed jobs have
  the reference output.
- Power loss: `StoreRuns` lets power fail inside any erase or program. A torn registry copy
  holds arbitrary bytes; that it then validates only as what was there before or as what
  was being written is the hypothesis `TearsShow` of the theorems, since no checksum can
  guarantee it. Two theorems need more: before-or-after that a commit which fails after
  another one failed has erased what that left, and complete payloads that no slot named by
  a failed commit is written meanwhile. `FailStop`, a restart after every failed commit,
  gives both; `StoreFaults` has a run from an erased store for each that lacks it. The RAM
  port cannot refuse to erase, so only the second run can be had from its write fault, and
  that for slot counts whose image leaves the last half page blank.
- Interleavings: in `InferScheduler`, `IpcRing` and `DrainGate` every step is one critical
  section, one semaphore operation or one access to shared memory, in any order. The
  scheduler's theorems hold for all runs; only the one-to-one correspondence of suspension
  slots and jobs needs callers that are `Disciplined`, and it fails at any other step.
- Residency: `ModelResidency` runs the registry and the NPU beside the scheduler machine.
- The FFT is proved over any commutative ring with the roots its twiddles name, which
  `FftResidues` exhibits for every accepted length, and non-maximum suppression over the
  reals.

Checking everything: `dafny verify dfyconfig.toml`.

Where code and documentation differ the model follows the code:

- `syn_flash_port.h` says an injected write fault leaves half the request; the code leaves
  the pages before the fault and half of the failing page.
- The comment on `syn_pipeline_destroy` speaks of jobs of that pipeline; the loop takes the
  suspension slot of every suspended job (`InferScheduler.DestroySlotsIff`).
- `Kconfig` allows ring sizes for which the index arithmetic is not safe
  (`IpcRingSize.FifoIffDivides`).

## Model

| member | source | states |
|---|---|---|
| LayeredExecutor.RunsAgree | src/hal/common/syn_npu_layered.c:292-449 | preemption is invisible: from power-on, any sequence of load, begin, step, output, save, restore and slot-free calls over any blobs gets from the shared-area executor exactly the replies of the executor that gives every activation of every session its own buffer, unless a session is used after a begin was refused over it while another blob was resident |
| LayeredExecutor.RunsAgreeFrom | src/hal/common/syn_npu_layered.c:292-449 | the same from any pair of states in step with each other |
| LayeredExecutor.CallAgrees | src/hal/common/syn_npu_layered.c:255-449 | every single call answers alike and keeps the two executors in step |
| LayeredExecutor.RefusedBeginKeepsIff | src/hal/common/syn_npu_layered.c:292-311 | a begin that is refused over a live session leaves the executor as it was if and only if the resident blob is the session's own |
| LayeredExecutor.RefusedBeginHarms | src/hal/common/syn_npu_layered.c:276-311 | a run in which it is not: the live session of a one-layer chain has two layers to go after a refused begin of a two-layer chain |
| LayeredExecutor.SessionStep | src/hal/common/syn_npu_layered.c:313-355 | a layer run in the shared area advances the session as with separate buffers |
| LayeredExecutor.LayerKeepsHolds | src/hal/common/syn_npu_layered.c:313-355 | after a layer the area holds the reference value of every buffer that is still needed |
| LayeredExecutor.SimulatesBegin | src/hal/common/syn_npu_layered.c:292-311 | begin replans and copies the input where the reference session keeps it, or refuses |
| LayeredExecutor.SimulatesSave | src/hal/common/syn_npu_layered.c:401-419 | a parked context holds everything the session will need, in the first free slot |
| LayeredExecutor.SimulatesRestore | src/hal/common/syn_npu_layered.c:421-442 | replanning is deterministic: a restored session continues where it was parked, whatever ran in between |
| LayeredExecutor.SimulatesOutput | src/hal/common/syn_npu_layered.c:365-385 | output hands out the reference output bytes, and only after the last layer |
| LayeredOutputs.UndisturbedRun | src/hal/common/syn_npu_layered.c:292-385 | from power-on, load, begin, as many steps as the model has layers, and output all succeed, and what is handed out is the reference output |
| LayeredOutputs.LayerReadsItsSources | src/hal/common/syn_npu_layered.c:332-346 | the bytes of a layer in terms of the activations it reads, skip source included |
| LayeredOutputs.PrimaryWeighs | src/hal/common/syn_npu_layered.c:332-346 | raising one byte of the primary source raises an output byte by 31 and by 1 where the two positions point, and no other |
| LayeredOutputs.SkipWeighs | src/hal/common/syn_npu_layered.c:332-346 | raising one byte of the skip source raises an output byte by 17 where the position points, and no other |
| LayeredOutputs.ZeroSources | src/hal/common/syn_npu_layered.c:332-346 | over silent sources an output byte is 13 times the layer index plus 3 times the position, modulo 256 |
| LayeredOutputs.NoSkipIsSilent | src/hal/common/syn_npu_layered.c:341-343 | a layer without a skip source is the layer with a silent one |
| LayeredOutputs.SkipGraphRuns | src/hal/common/syn_npu_layered.c:109-385 | a graph blob of two layers with a skip connection, run from power-on on input 1, hands out 30: each source reference reads the right buffer |
| LayeredNpu.RunLayer | src/hal/common/syn_npu_layered.c:332-346 | the byte loop writes the layer transform of both sources, read as they were before the loop, and nothing outside the output |
| LayeredNpu.Executor.OnLoad | src/hal/common/syn_npu_layered.c:255-273 | a load makes a well-formed layered blob resident and drops the resident model otherwise |
| LayeredNpu.Executor.PlanLive | src/hal/common/syn_npu_layered.c:276-290 | the live plan is the parse and placement of the blob, or the error of whichever failed |
| LayeredNpu.Executor.Begin | src/hal/common/syn_npu_layered.c:292-311 | the call is the begin of the machine, refused inputs that replace the plan of a live session included |
| LayeredNpu.Executor.Step | src/hal/common/syn_npu_layered.c:313-355 | the call is the step of the machine: error, next layer run, layers remaining |
| LayeredNpu.Executor.Remaining | src/hal/common/syn_npu_layered.c:357-363 | layers left in the live session, or an error without one |
| LayeredNpu.Executor.Output | src/hal/common/syn_npu_layered.c:365-385 | the final activation is copied out and the session ends, or one of the three errors and nothing is written |
| LayeredNpu.Executor.Save | src/hal/common/syn_npu_layered.c:401-419 | the session is parked in the first free slot with the planned bytes of the area |
| LayeredNpu.Executor.Restore | src/hal/common/syn_npu_layered.c:421-442 | the parked session is live again and its slot free, or the slot was not valid |
| LayeredNpu.Executor.SlotFree | src/hal/common/syn_npu_layered.c:444-449 | only a valid slot is freed |
| LayeredPlanner.PlacedFirstFit | src/hal/common/syn_npu_layered.c:211-250 | each buffer gets the least offset that clashes with no earlier buffer alive at an overlapping time |
| LayeredPlanner.LiveBuffersDisjoint | src/hal/common/syn_npu_layered.c:211-250 | two buffers alive at a common layer time never share a byte of the area |
| LayeredPlanner.PeakAtLeastLive | src/hal/common/syn_npu_layered.c:214-251 | the planned peak is at least the sum of the sizes alive at any layer time |
| LayeredPlanner.PeakAtMostNaive | src/hal/common/syn_npu_layered.c:204-251 | the planned peak is at most the all-live sum |
| LayeredPlanner.CellsCount | src/hal/common/syn_npu_layered.c:211-250 | the bytes occupied by buffers alive together are as many as their sizes add up to |
| LayeredPlanner.OffsetIsZeroOrAnEnd | src/hal/common/syn_npu_layered.c:216-239 | every buffer sits at offset 0 or at the end of an earlier buffer |
| LayeredPlanner.EndWithinSum | src/hal/common/syn_npu_layered.c:216-250 | a buffer ends within the sum of the sizes of the buffers up to it |
| LayeredPlanner.AliveIffNeeded | src/hal/common/syn_npu_layered.c:180-202 | a buffer is alive at a layer time if and only if it is then being written, still to be read by a layer, or the output not handed out yet |
| LayeredPlanner.OffsetsAreLeast | src/hal/common/syn_npu_layered.c:211-250 | in terms of the layers alone: going through the buffers in order, each gets the least offset at which it shares no byte with an earlier one while both are needed |
| LayeredPlanner.LeastIsUnique | src/hal/common/syn_npu_layered.c:211-250 | only one placement does that |
| LayeredPlanner.FitsIffLeastFits | src/hal/common/syn_npu_layered.c:240-246 | the plan is accepted if and only if that placement ends inside the area |
| LayeredPlanner.ChainFitsIff | src/hal/common/syn_npu_layered.c:175-253 | a chain of layers of one size fits if and only if twice that size does, however long it is |
| LayeredPlanner.NaiveIsAllLive | src/hal/common/syn_npu_layered.c:204-209 | the baseline is what would be alive if nothing ever died |
| LayeredPlanner.ComputeLifetimes | src/hal/common/syn_npu_layered.c:180-202 | the lifetime loops compute the definition of every buffer and the layer that reads it last |
| LayeredPlanner.SumOfSizes | src/hal/common/syn_npu_layered.c:204-209 | the baseline is the sum of all buffer sizes |
| LayeredPlanner.BumpPast | src/hal/common/syn_npu_layered.c:216-238 | the bump loop terminates at the first-fit offset |
| LayeredPlanner.PlaceAll | src/hal/common/syn_npu_layered.c:214-252 | the placement loop returns the first-fit offsets and their peak, and ENOMEM exactly when some first-fit offset does not fit |
| LayeredPlanner.PlaceBuffers | src/hal/common/syn_npu_layered.c:175-253 | place_buffers as a whole: sizes, lives and the least placement of the layers, with its peak, or ENOMEM if and only if that placement does not fit |
| LayeredFormat.ParsedIsWellFormed | src/hal/common/syn_npu_layered.c:109-168 | in an accepted blob every source of a layer is a buffer defined before the layer runs, and all sizes are in range |
| LayeredFormat.ResolveIff | src/hal/common/syn_npu_layered.c:84-107 | a descriptor is accepted if and only if its size and both source references are in range, and which buffer each reference reads |
| LayeredFormat.ParseModel | src/hal/common/syn_npu_layered.c:109-168 | the parsing loop fills the plan tables with the meaning of the blob, or returns its error |
| LayeredFormat.BlobParses | src/hal/common/syn_npu_layered.c:468-534 | a blob either writer produces parses back to the same sizes, work and resolved sources, whatever follows it |
| LayeredFormat.ChainIsDag | src/hal/common/syn_npu_layered.c:109-168 | a chain blob parses to the same model as the graph whose layers all read their predecessor and skip nothing |
| LayeredFormat.MakeModel | src/hal/common/syn_npu_layered.c:468-498 | make_model: every refusal, and otherwise exactly the chain blob and nothing written beyond it |
| LayeredFormat.MakeDag | src/hal/common/syn_npu_layered.c:500-534 | make_dag: every refusal, and otherwise exactly the graph blob and nothing written beyond it |
| FlashRam.ProgramsWhenBlank | src/core/syn_flash_port_ram.c:125-155 | a page-aligned write completes if and only if its whole range is blank and no injected fault falls into it; what lands is the data and nothing else |
| FlashRam.FailedWriteIsPrefix | src/core/syn_flash_port_ram.c:125-155 | a write that fails has put a prefix of the data in place and changed nothing else |
| FlashRam.FaultLandsWhole | src/core/syn_flash_port_ram.c:134-142 | a write that the fault hits in its last page fails although all of its data is in place, when the half that is lost is blank |
| FlashRam.DisjointUntouched | src/core/syn_flash_port_ram.c:20-30 | an operation confined to one region cannot be seen in a region disjoint from it |
| FlashRam.FlashPort.Read | src/core/syn_flash_port_ram.c:32-41 | a read returns the bytes of the window, or EINVAL outside it |
| FlashRam.FlashPort.Write | src/core/syn_flash_port_ram.c:43-55 | range and alignment guards, then the page loop |
| FlashRam.FlashPort.RamWrite | src/core/syn_flash_port_ram.c:125-155 | the page loop is the page-by-page specification: fault countdown, half page on the fault, refusal of pages that are not blank |
| FlashRam.FlashPort.Erase | src/core/syn_flash_port_ram.c:57-68 | range and alignment guards, then the range is all 0xFF |
| FlashRam.FlashPort.EraseSectors | src/core/syn_flash_port_ram.c:70-94 | erasing sector by sector has the effect of one erase |
| FlashRam.FlashPort.IsBlank | src/core/syn_flash_port_ram.c:96-104 | whether every byte of the range is 0xFF |
| FlashRam.FlashPort.constructor | src/core/syn_flash_port_ram.c:185-212 | port initialisation erases the whole window |
| Crc32.UpdateAppend | src/core/syn_model_store.c:283-301 | CRC-32 of a stream taken piece by piece is CRC-32 of the whole |
| Crc32.OneByteChangeIsSeen | src/core/syn_model_store.c:208-214 | two byte strings that differ in exactly one byte never have the same CRC-32 |
| Crc32.PolyIsGenerator | src/core/syn_model_store.c:283-301 | the register is shifted by the generator polynomial of IEEE Std 802.3, reflected |
| Crc32.CheckValue | src/core/syn_model_store.c:283-301 | the checksum of the digits 1 to 9 is 0xCBF43926 |
| StoreImage.LayoutValidate | src/core/syn_model_store.c:378-427 | a layout is accepted if and only if its regions are aligned, inside the window and pairwise apart and all sizes suffice, although the sums of the overlap test can wrap |
| StoreImage.BuiltLoads | src/core/syn_model_store.c:121-218 | a registry copy that was written whole loads as exactly the state that was written, whatever follows it in its region |
| StoreImage.DamageIsRejected | src/core/syn_model_store.c:161-218 | a registry copy with one damaged byte of its image does not load, except for the two bytes that say how much the checksum covers |
| StoreImage.LoadedFits | src/core/syn_model_store.c:161-218 | an accepted copy has every role in range or none, and one record per slot of the layout |
| StoreRoles.ApplyKeepsRoles | src/core/syn_model_store.c:582-829 | every operation leaves active, pivot and staged each none or occupied, and pairwise distinct |
| StoreRoles.ApplyKeepsActive | src/core/syn_model_store.c:582-966 | no operation leaves a store that had an active model without one |
| StoreRoles.TwoRollbacks | src/core/syn_model_store.c:727-802 | two rollbacks restore the registry if and only if there were an active model and a recorded pivot |
| StoreRoles.MeansIff | src/core/syn_model_store.c:582-966 | every operation, role by role: what it makes of active, pivot, staged, occupancy and records, and nothing else |
| StoreRoles.ActivateThenRollback | src/core/syn_model_store.c:684-742 | activating leaves the old active model as the pivot, and a rollback right after makes it active again |
| StoreRoles.InstallThenRollback | src/core/syn_model_store.c:941-956 | the same for install |
| StoreRoles.StageThenClear | src/core/syn_model_store.c:625-829 | clearing a staged update leaves everything but its own record as before it was staged |
| StoreRoles.EvictedIsFree | src/core/syn_model_store.c:600-620 | an evicted slot is free and in no role, and nothing else changed |
| StoreRoles.CommitsIff | src/core/syn_model_store.c:582-829 | exactly when each call goes on to its commit |
| StoreRoles.StagingChoiceSafe | src/core/syn_model_store.c:538-566 | the staging choice is unique, never the active slot, and the pivot only when there is no third slot |
| StoreRoles.DecidedIsAllowed | src/core/syn_model_store.c:582-829 | a call that reaches its commit commits an operation the machine allows |
| StoreRuns.PowerLossAtomicity | src/core/syn_model_store.c:161-272 | over every run with power cuts anywhere inside commits, if torn copies show: the next boot adopts the registry last committed or one attempted since, whole; valid copies never tie on generation; the copy being erased is not the one that holds what was committed; and the role invariant holds throughout |
| StoreRuns.BeforeOrAfter | src/core/syn_model_store.c:161-272 | the boot adopts exactly the state before or after the interrupted commit, in every run with at most one failed commit since the last success or boot, and in every run where a commit that fails after another has at least erased what that left; and while none has failed the newest valid copy is never the one erased |
| StoreRuns.PayloadsComplete | src/core/syn_model_store.c:582-652 | in every run that writes no slot named by a failed commit before the next success or boot, every occupied slot of the registry in force holds bytes whose CRC-32 is the one in its record |
| StoreRuns.ProgramKeepsBackedIff | src/core/syn_model_store.c:582-652 | writing a slot keeps a registry backed by payloads if and only if the slot is not one of its own or what is written is its payload |
| StoreRuns.FailStopIsEnough | src/core/syn_model_store.c:266-272 | runs in which every failed commit is followed by a restart meet the conditions of both |
| StoreRuns.ActiveNeverLost | src/core/syn_model_store.c:266-272 | once a model is active, every registry adopted or committed later has an active model |
| StoreRuns.WearCountsCommits | src/core/syn_model_store.c:221-263 | over every run without failed commits the wear stored in a copy is the number of times it was written, through every power cycle |
| StoreRuns.RunKeepsInv | src/core/syn_model_store.c:161-272 | the invariant behind these, over every run |
| StoreRuns.RegionLoads | src/core/syn_model_store.c:221-263 | a registry region that was erased and written with an image loads as that image |
| StoreRuns.ErasedIsFresh | src/core/syn_model_store.c:445-498 | an erased store boots with the empty registry and satisfies the hypotheses of the run theorems |
| StoreFaults.RunningOnAdoptsAnOldAttempt | src/core/syn_model_store.c:221-272 | a run from an erased store that meets neither condition: two commits fail, the second because the port refused to erase, and the boot adopts the first attempt, which is neither the committed state nor the last one attempted |
| StoreFaults.RunningOnLosesAPayload | src/core/syn_model_store.c:590-592 | a run from an erased store: a staging commit fails although it landed, the next session erases the slot without a commit, and the boot adopts a record whose payload is gone |
| StoreFaults.FaultLeavesTheImage | src/core/syn_flash_port_ram.c:134-142 | the write fault behind it: a commit can report failure with its whole image in place |
| StoreRuns.AttemptIsStep | src/core/syn_model_store.c:266-272 | the outcome of a commit call is a step of the machine |
| StoreRuns.StagingIsRun | src/core/syn_model_store.c:582-623 | begin_staging is at most one commit and leaves the slot free |
| StoreDisk.RegionChanged | src/core/syn_model_store.c:412-424 | a change inside one region of the layout changes that region and no other |
| ModelStore.ModelStore.ImageBuild | src/core/syn_model_store.c:121-149 | the serialised registry: header, records, checksum with its field zeroed, padding to whole pages |
| ModelStore.ModelStore.CopyLoad | src/core/syn_model_store.c:161-218 | the copy as validated: blank, magic, version 1 or 2, slot count, roles, occupancy and checksum |
| ModelStore.ModelStore.ReadBack | src/core/syn_model_store.c:242-256 | the read-back loop reports EIO exactly when what landed differs from the image |
| ModelStore.ModelStore.CopyCommit | src/core/syn_model_store.c:221-263 | on success the copy holds the new image and is the newest; on failure only that copy and its validity changed; without an injected fault it succeeds |
| ModelStore.ModelStore.Persist | src/core/syn_model_store.c:266-272 | commit goes to the older copy with the next generation |
| ModelStore.ModelStore.PersistOrRestore | src/core/syn_model_store.c:614-620 | a failed commit leaves the registry in RAM exactly as before the call |
| ModelStore.ModelStore.Init | src/core/syn_model_store.c:429-525 | the scan adopts the newest valid copy, or starts empty; EALREADY and EINVAL leave everything as it was |
| ModelStore.ModelStore.StagingSlot | src/core/syn_model_store.c:538-566 | the first free slot, else the first that is neither active nor pivot, else the first that is not active |
| ModelStore.ModelStore.BeginStaging | src/core/syn_model_store.c:582-623 | each refusal, success without a commit on a free slot, or the commit of the eviction |
| ModelStore.ModelStore.MarkStaged | src/core/syn_model_store.c:625-652 | each refusal, or the commit that records and stages the slot |
| ModelStore.ModelStore.Activate | src/core/syn_model_store.c:654-725 | each refusal, or the commit after which the slot is active, the old active slot is the pivot and nothing else changed |
| ModelStore.ModelStore.FindRollback | src/core/syn_model_store.c:738-753 | the pivot if usable, else the last occupied slot that is neither active nor staged |
| ModelStore.ModelStore.Rollback | src/core/syn_model_store.c:727-802 | each refusal, or the commit that swaps active model and pivot |
| ModelStore.ModelStore.ClearStaged | src/core/syn_model_store.c:804-829 | nothing to do, or the commit that frees the staged slot |
| ModelStore.ModelStore.Install | src/core/syn_model_store.c:831-978 | each refusal; on success the slot holds the packaged model, its record is active and the old active model is the pivot; always a run of the machine; without an injected fault it succeeds |
| ModelStore.ModelStore.WriteSlot | src/core/syn_model_store.c:863-932 | only the slot changed, and on success it holds header and payload, checked by reading back |
| SlotImage.WriteModel | src/core/syn_model_store.c:865-923 | erase, page-buffered header and block loop leave header and payload padded with 0xFF in the slot, or a failure confined to the slot |
| SlotImage.FlashCrc | src/core/syn_model_store.c:283-301 | the block-wise checksum of flash is the checksum of the bytes there |
| SlotImage.RoundUpLeast | src/core/syn_model_store.c:115-118 | rounding up gives the least multiple that is large enough |
| SlotImage.PlacedReads | src/core/syn_model_store.c:935-939 | the stored record carries the payload offset, size and checksum |
| OtaStream.ChunkingDoesNotMatter | src/core/syn_model_ota.c:258-331 | the state of a session depends on the bytes received, not on how they were cut into chunks |
| OtaStream.StrnSameMeansSameName | src/core/syn_model_ota.c:293-301 | the bounded name comparison succeeds if and only if the two names are the same C string |
| OtaStream.StagedReads | src/core/syn_model_ota.c:387-413 | the staged record carries the size and checksum of the header |
| OtaStream.HeaderPassesIff | src/core/syn_model_ota.c:281-301 | a header passes if and only if it has the magic and version, its payload fills the announced size and its name is the announced one |
| OtaStream.InstalledHeaderPasses | src/core/syn_model_store.c:865-890 | the header that install writes would pass as an update of that name and size |
| OtaStream.ElemsIsProduct | src/core/syn_model_ota.c:393-411 | the element count staged for a tensor is the product of its dimensions, zero ones left out |
| ModelOta.OtaEngine.Begin | src/core/syn_model_ota.c:124-219 | each refusal; otherwise a predecessor is cleared, the slot freed by a commit before it is erased, and an empty session open, or the error state; always a run of the machine |
| ModelOta.OtaEngine.FlushPages | src/core/syn_model_ota.c:222-256 | whole pages are programmed in place and the rest moves to the front; a final flush pads with 0xFF |
| ModelOta.OtaEngine.WriteChunk | src/core/syn_model_ota.c:258-331 | programmed bytes followed by buffered bytes are the stream received; size and header faults stop the session before anything of the chunk is programmed; only the slot changes |
| ModelOta.OtaEngine.BufferAll | src/core/syn_model_ota.c:304-325 | the chunk loop appends exactly the chunk, programming each page once, aligned and blank |
| ModelOta.OtaEngine.Check | src/core/syn_model_ota.c:270-302 | the size and header checks on a chunk, whichever chunk completes the header |
| ModelOta.OtaEngine.Finish | src/core/syn_model_ota.c:333-429 | ENODATA on a short stream; otherwise staged if and only if the payload in flash has the checksum of the header; the erased range holds the stream and padding, also when the checksum is wrong; always a run of the machine |
| ModelOta.OtaEngine.LandTail | src/core/syn_model_ota.c:346-351 | after the final flush the erased range holds the whole stream followed by 0xFF |
| ModelOta.OtaEngine.Activate | src/core/syn_model_ota.c:431-464 | the staged slot, also one staged before a power loss, is active and the old active slot the pivot, or the session is in error and the roles are as before |
| ModelOta.OtaEngine.Rollback | src/core/syn_model_ota.c:466-490 | refused during a transfer; otherwise the rollback of the store |
| ModelOta.StreamSynm | src/core/syn_model_ota.c:258-429 | an image of the announced length sent in any chunks and finished: outcome, bytes of the erased range and staged record depend on the image and the name alone; after a header fault the range is still erased |
| InferScheduler.NoLostWakeup | src/core/syn_infer.c:789-937 | over every run, runnable jobs never outnumber the wake tokens given, deferred and still to come, although the capped semaphore drops tokens; so a blocked scheduler with none left and no residency change under way has nothing to run |
| InferScheduler.GateExcludes | src/core/syn_infer.c:800-937 | over every run at most one job runs, none while the gate holder is inside, and a waiting gate holder always has its drain token coming |
| InferScheduler.SlotsNeverLeak | src/core/syn_infer.c:479-530 | over every disciplined run occupied slots and jobs that name one correspond one to one, every suspended job names one, and between jobs with none suspended every slot is free |
| InferScheduler.ResumesOwnContext | src/core/syn_infer.c:479-530 | over every run no two jobs share a slot, and a job that is resumed is resumed from the slot that holds its own context |
| InferScheduler.JobsConserved | src/core/syn_infer.c:860-869 | over every run accepted jobs are completed, failed, cancelled, queued, running or suspended |
| InferScheduler.DispatchesTheBest | src/core/syn_infer.c:760-826 | over every run the job dispatched has the highest priority of all runnable jobs, among those the earliest deadline, and among those the earliest submission |
| InferScheduler.PreemptedJobWaits | src/core/syn_infer.c:456-516 | over every run a job gives way only to a queued one of strictly higher priority, and is not dispatched again while such a one is queued |
| InferScheduler.FatesAreRecorded | src/core/syn_infer.c:860-1165 | what submission, cancellation, completion, failure and consumption leave in the entry of the job, and where it is counted |
| InferScheduler.DestroyCancelsItsOwn | src/core/syn_infer.c:347-374 | destroying a pipeline cancels its waiting jobs and leaves the state of every other job |
| InferScheduler.RunKeepsInv | src/core/syn_infer.c:743-1165 | the invariant behind these, over every interleaving |
| InferScheduler.StepKeepsInv | src/core/syn_infer.c:743-1165 | every critical section and semaphore operation keeps it |
| InferScheduler.StepKeepsSlotsIff | src/core/syn_infer.c:743-1165 | an event breaks the correspondence of slots and jobs if and only if it destroys a pipeline beside a suspended job of another, or fails a resuming job before its restore |
| InferScheduler.DestroySlotsIff | src/core/syn_infer.c:347-382 | destroying a pipeline leaves every suspended job in possession of its slot if and only if no other pipeline has a suspended job |
| InferScheduler.FailEarlySlotsIff | src/core/syn_infer.c:617-648 | a job that fails before its pipeline runs leaks its slot if and only if it was resuming |
| InferSlotLeaks.DestroyRobsAParkedJob | src/core/syn_infer.c:347-374 | a run in which destroying one pipeline makes the parked job of another fail when it is dispatched again |
| InferSlotLeaks.EarlyFailureLeaksASlot | src/core/syn_infer.c:617-648 | a run in which a resuming job fails early and its slot stays taken with no job left |
| InferLayered.CompletedJobsHaveReferenceOutput | src/core/syn_infer.c:479-571 | over every run of scheduler and layered executor, however often and by whatever a job was preempted, a completed layered job has the output of the reference executor on the blob and input it began with |
| InferLayered.SessionsAreUsable | src/core/syn_infer.c:479-571 | over every run, the session a job is about to drive is live and its own, so the scheduler never uses a session after a begin was refused over it |
| InferLayered.StepKeeps | src/core/syn_infer.c:347-1165 | every event of the scheduler with the calls it makes keeps the two slot tables coupled |
| InferLayered.RunKeepsInv | src/core/syn_infer.c:347-1165 | the invariant behind these, over every run |
| InferScheduler.PickIsForemost | src/core/syn_infer.c:772-787 | the pick of the loop is a runnable job that none outranks in priority, deadline and submission, and there is none only if no job is runnable |
| InferScheduler.BeforeIsStrictOrder | src/core/syn_infer.c:760-769 | the dispatch order puts the higher priority first, then the earlier deadline, then the earlier submission, and is a strict order total on jobs submitted at different times |
| InferRuntime.FindsTheJob | src/core/syn_infer.c:743-754 | while job numbers are distinct the search finds exactly the live job of that number |
| InferRuntime.ReplayedIsRun | src/core/syn_infer.c:929-936 | replaying deferred wakeups is a run of the machine |
| InferRuntime.Infer.Submit | src/core/syn_infer.c:959-1041 | accepted exactly below the limit and with a free entry; then the entry is queued, numbered, and a wake token given |
| InferRuntime.Infer.Cancel | src/core/syn_infer.c:1083-1126 | a waiting job is cancelled and a suspended one gives its slot back; each refusal changes nothing |
| InferRuntime.Infer.GetResult | src/core/syn_infer.c:1128-1165 | a finished job frees its entry; each refusal changes nothing |
| InferRuntime.Infer.Destroy | src/core/syn_infer.c:347-374 | the loop cancels the waiting jobs of the pipeline and takes the slot of every suspended job |
| InferRuntime.Infer.PickNextJob | src/core/syn_infer.c:772-787 | the loop finds a runnable job that no other outranks in priority, deadline and submission, or none when none is runnable |
| InferRuntime.Infer.IsPreemptPending | src/core/syn_infer.c:456-470 | whether a queued job has a higher priority than the running one |
| InferRuntime.Infer.Wake | src/core/syn_infer.c:800-826 | under the lock: defer while paused, else start the job that no other outranks, or none when none is runnable |
| InferRuntime.Infer.SaveContext | src/core/syn_infer.c:506-516 | the first free suspension slot, or none and the job runs on |
| InferRuntime.Infer.ResumeContext | src/core/syn_infer.c:485-492 | the slot is free and the job no longer names it, or the job is refused because its slot was empty |
| InferRuntime.Infer.SuspendJob | src/core/syn_infer.c:834-852 | the job is suspended, a waiting gate holder and the eventual resumption are paid for |
| InferRuntime.Infer.CompleteJob | src/core/syn_infer.c:860-893 | the result is recorded and counted, and a waiting gate holder gets its token |
| InferRuntime.Infer.Quiesce | src/core/syn_infer.c:909-922 | dispatch is paused; the caller waits exactly when a job is running |
| InferRuntime.Infer.Release | src/core/syn_infer.c:924-937 | dispatch resumes and every deferred wakeup is replayed |
| ModelResidency.ResidencyContract | src/core/syn_model.c:194-345 | over every run, while a fresh job of a model with data runs the NPU holds exactly that model's blob, which passed its checksum, and no gate holder is inside |
| ModelResidency.ResidencyExclusion | src/core/syn_model.c:247-345 | the NPU changes only by the gate holder while no job runs, or by the scheduler in the name of the one running job |
| ModelResidency.StartServesOwnModel | src/core/syn_model.c:305-345 | a fresh job starts only on a registered and loaded model, with its blob resident |
| ModelResidency.StartSucceedsIff | src/core/syn_model.c:305-345 | a fresh job starts if and only if its model is registered and loaded and its blob is resident or passes its checksum and the NPU takes it |
| ModelResidency.LoadMeans | src/core/syn_model.c:194-245 | when a load succeeds, and that it sets the flag of that model and no other and makes its blob resident; a load that fails changes nothing |
| ModelResidency.StepKeepsSystem | src/core/syn_model.c:118-434 | every step of scheduler, gate holder and registry keeps the system invariant |
| ModelResidency.Registry.HalLoad | src/core/syn_model.c:198-231 | checksum gate, then the NPU, then the resident blob; an error changes nothing |
| ModelResidency.Registry.EnsureResident | src/core/syn_model.c:305-345 | refusal of unregistered and unloaded models; no load when nothing is attached or already resident; else the gated load |
| ModelResidency.Registry.Load | src/core/syn_model.c:247-266 | each refusal, or the gated load and the loaded flag |
| ModelResidency.Registry.Unload | src/core/syn_model.c:268-303 | each refusal, or the flag cleared and the NPU released exactly when it held the model |
| ModelResidency.Registry.Swap | src/core/syn_model.c:396-434 | the old model is no longer loaded even when loading the new one fails |
| FftSoft.Fft | src/hal/common/syn_dsp_soft.c:25-89 | for every power-of-two length up to the limit out becomes the discrete Fourier transform of in, also in place; every refusal leaves out as it was |
| FftSoft.Transform | src/hal/common/syn_dsp_soft.c:36-86 | bit reversal and all stages in place compute the discrete Fourier transform |
| FftSoft.BitReverse | src/hal/common/syn_dsp_soft.c:36-54 | the swap loop leaves at p what was at the reversal of p |
| FftSoft.ReversedIncrement | src/hal/common/syn_dsp_soft.c:47-53 | the carry loop on the reversed counter terminates at the reversal of the successor |
| FftSoft.Stage | src/hal/common/syn_dsp_soft.c:57-85 | one stage applies the butterflies to every block |
| FftSoft.ButterflyBlock | src/hal/common/syn_dsp_soft.c:62-84 | the pair loop with its running twiddle applies the butterflies to one block |
| FftSoft.ButterfliesAreDft | src/hal/common/syn_dsp_soft.c:62-84 | the butterflies combine the transforms of even and odd samples into the transform of all, in any commutative ring with a half turn |
| FftSoft.StageTransforms | src/hal/common/syn_dsp_soft.c:57-85 | after the stage of size s every block of size s is transformed |
| FftSoft.ReversedIsLevelZero | src/hal/common/syn_dsp_soft.c:36-54 | reversed order is the order the stages need |
| FftSoft.RevInvolution | src/hal/common/syn_dsp_soft.c:36-54 | reversal undoes itself |
| FftSoft.IsPow2Exact | src/hal/common/syn_dsp_soft.c:20-23 | the bit trick recognises exactly the powers of two |
| FftSoft.ComplexIsRing | src/hal/common/syn_dsp_soft.c:65-77 | the complex arithmetic of the loop is that of a commutative ring |
| FftSoft.QuarterTurnRoots | src/hal/common/syn_dsp_soft.c:58-60 | the twiddle steps of the first two stages are the roots the transform asks for |
| FftResidues.ResidueRoots | src/hal/common/syn_dsp_soft.c:25-60 | the hypotheses on ring and roots can be met for every accepted length, in the integers modulo 12289 |
| FftResidues.RootIsPrimitive | src/hal/common/syn_dsp_soft.c:57-60 | there the root of a stage has exactly the order of the stage |
| IpcRing.RingIsFifo | src/core/syn_ipc_ring.c:31-64 | in every interleaving of the single accesses, through index wraparound: popped followed by queued is pushed, and never more than the capacity |
| IpcRing.NoSlotSharedWhileCopying | src/core/syn_ipc_ring.c:31-64 | the slot one side is copying into is never the slot the other is copying out of |
| IpcRing.RunKeepsInv | src/core/syn_ipc_ring.c:31-64 | the invariant behind both |
| IpcRing.SlotOfWrapped | src/core/syn_ipc_ring.c:39-57 | the wrapped index selects the slot of the true count when the entry count divides 2^32 |
| IpcRingSize.FifoIffDivides | Kconfig:251-254 | the ring is a FIFO in every run if and only if the entry count divides 2^32; the configuration allows others |
| IpcRingSize.LosesAMessage | src/core/syn_ipc_ring.c:31-46 | for every other count, a run in which the indices wrap and a message overwrites an unread one |
| IpcRing.SpscRing.Push | src/core/syn_ipc_ring.c:31-46 | EAGAIN exactly when full, else the message is appended |
| IpcRing.SpscRing.Pop | src/core/syn_ipc_ring.c:48-64 | EAGAIN exactly when empty, else the oldest message |
| IpcRing.SpscRing.Count | src/core/syn_ipc_ring.c:76-79 | the difference of the wrapped indices is the number queued |
| DrainGate.DrainedStaysEmpty | src/core/syn_drain_gate.c:21-72 | once drain has returned 0 no worker is inside until the controller resumes, whatever drains it calls meanwhile |
| DrainGate.DrainReturnsZeroOnlyWhenEmpty | src/core/syn_drain_gate.c:48-65 | drain returns 0 only with the worker out, whatever earlier drains timed out and whatever tokens they left |
| DrainGate.WaitingHasToken | src/core/syn_drain_gate.c:34-46 | a controller still waiting after the worker is out has its token |
| DrainGate.RunKeepsInv | src/core/syn_drain_gate.c:21-72 | the invariant behind these, over every interleaving |
| DrainGate.SynDrainGate.Enter | src/core/syn_drain_gate.c:21-32 | admitted exactly while not paused |
| DrainGate.SynDrainGate.DrainLocked | src/core/syn_drain_gate.c:52-60 | the critical section of drain as the machine has it |
| Nms.PostNms | src/postprocess/syn_postprocess_detect.c:41-126 | each refusal; otherwise the output is the prefix of the greedy answer that the box limit and the output capacity allow, with the guarantees of suppression |
| Nms.WrittenIsGuaranteed | src/postprocess/syn_postprocess_detect.c:67-117 | from the sorted candidates to what the caller gets: boxes above the threshold, best first, no pair of a class overlapping too much, and every other box above the threshold suppressed by a kept one that scores no less |
| Nms.GreedyIsSuppression | src/postprocess/syn_postprocess_detect.c:86-117 | kept boxes descend in score, no kept pair of a class overlaps beyond the threshold, and every other candidate is suppressed by a kept box of its class with at least its score |
| Nms.GreedyPrefix | src/postprocess/syn_postprocess_detect.c:86-117 | limits only truncate the answer |
| Nms.SortCandidates | src/postprocess/syn_postprocess_detect.c:70-84 | the insertion sort lists the candidates at or above the threshold in descending score, ties in input order |
| Nms.OrderIsUnique | src/postprocess/syn_postprocess_detect.c:70-84 | there is only one such order |
| Nms.PickGreedy | src/postprocess/syn_postprocess_detect.c:86-117 | the suppression loop computes the greedy answer up to its limits |
| Nms.Suppress | src/postprocess/syn_postprocess_detect.c:104-116 | the inner loop marks exactly the later candidates that overlap too much |
| Nms.IouIsARatio | src/postprocess/syn_postprocess_detect.c:19-39 | the overlap is between 0 and 1 for every pair of boxes |
| Nms.IouIsSymmetric | src/postprocess/syn_postprocess_detect.c:19-39 | the overlap does not depend on the order of the boxes |
| Nms.IouZeroIff | src/postprocess/syn_postprocess_detect.c:19-39 | the overlap is 0 if and only if no point lies inside both boxes |
| Nms.IouOneIff | src/postprocess/syn_postprocess_detect.c:19-39 | the overlap of two proper boxes is 1 if and only if they have the same corners |
| Nms.IouOfInner | src/postprocess/syn_postprocess_detect.c:19-39 | the overlap of a box inside another is the quotient of their areas |
| Nms.IouIsPartOfCover | src/postprocess/syn_postprocess_detect.c:32-38 | the overlap is the part that the common box is of the area the two boxes cover, common part counted once |
| Nms.CopiesAndStrangers | src/postprocess/syn_postprocess_detect.c:104-116 | a copy of a box is suppressed by any threshold below 1, and a box that shares no point with it by none from 0 up |
| Synn.RoundTrip | tools/syn_model_pack.py:162-185 | what the packer writes the parser reads back: exactly the three sections and the sizes, unless an input or output size is zero, which the parser refuses |
| Synn.SectionsDisjoint | tools/syn_model_pack.py:170-176 | sections are aligned, in order, and disjoint from each other and the header |
| Synn.AcceptedIff | src/core/syn_synn.c:35-78 | a container is accepted if and only if magic, version, flags, alignment, bounds and positive sizes are right, and what is handed out are the bytes of its sections |
| Synn.BuildSynn | tools/syn_model_pack.py:166-185 | the packing loops produce the specified container, and fail exactly when a value does not fit 32 bits |

## Left out

- Hardware and vendor code: the MCX flash port with its read errors on torn pages, Neutron and PowerQuad drivers, eDMA, MPU, boot, mailbox, watchdog; the RAM flash port and the stub NPU stand for them.
- Shell, samples, scripts, serial sender, logging, profiling and all time values, deadline-miss counting included.
- Preprocessing, softmax, quantisation, the audio path, `syn_mem.c`, plain registry lookups: they would add only easy members.
- Floating-point rounding and NaN in the FFT and in non-maximum suppression: the ring and the reals stand for `float`.
- NULL pointer checks where a Dafny value cannot be null, and callback invocation.
- Counters at 2^32: generation, job and sequence numbers are bounded by the length of the run (the store's methods do model the wrap of generation and wear; the run theorems exclude it); ring indices wrap exactly.
- Sizes of objects: a byte count plus an object's size is assumed not to wrap 32 bits.
- The busy loop that emulates compute time, and bytes of a blob changing after it was loaded or attached.
- LayeredExecutor.RunsAgree: excludes using a live session after a begin was refused over it while another blob was resident, until the next begin or restore; `LayeredExecutor.RefusedBeginKeepsIff` shows that this is when the session suffers, and `LayeredExecutor.RefusedBeginHarms` a run.
- LayeredNpu.Executor.Step: not for a live session whose tables a begin that did not fit the area has half overwritten, where offsets of one plan meet sizes of another and may reach beyond the area.
- LayeredNpu.Executor.Remaining: the same exclusion as step.
- LayeredNpu.Executor.Output: the same exclusion as step.
- LayeredNpu.Executor.Save: the same exclusion as step.
- StoreRuns.PowerLossAtomicity: a registry that some other writer left with tied generations or roles on empty slots is excluded as a start.
- StoreRuns.PayloadsComplete: not claimed for runs that write a slot named by a failed commit before a commit succeeds or power is cycled; `StoreFaults.RunningOnLosesAPayload` shows why.
- ModelStore.ModelStore.Init: does not model the registration of the adopted models in RAM.
- ModelStore.ModelStore.BeginStaging: what dropping the old model from the RAM registry answers is a parameter.
- ModelStore.ModelStore.Activate: whether the RAM registry still holds the old model is a parameter, and what it does to the NPU is left to `ModelResidency`.
- ModelStore.ModelStore.Rollback: the same two as in activate.
- ModelStore.ModelStore.Install: ends with the commit; registering the model in RAM after it is not modelled.
- ModelStore.ModelStore.MarkStaged: the machine step needs the slot to have been freed first, as its only caller does; the code does not check it.
- ModelOta.OtaEngine.Begin: the refusal when cross-core serving does not drain, and parking and resuming the second core, are not modelled; CPU1 is not parked in every write to its bank in the code either.
- ModelOta.OtaEngine.WriteChunk: relies on no install or other store call changing the slot between the calls of a session.
- InferScheduler.SlotsNeverLeak: for disciplined runs; `InferScheduler.StepKeepsSlotsIff` shows that every other step breaks the correspondence.
- InferLayered.CompletedJobsHaveReferenceOutput: what the pipeline does before and after its model stage is not modelled; the input of the stage is arbitrary.
- InferRuntime.Infer.Submit: the checks on pipeline, input and built flag are one flag.
- InferRuntime.Infer.Cancel: does not model the result value and the done semaphore.
- InferRuntime.Infer.GetResult: does not model the output tensor and the result value it hands out.
- InferRuntime.Infer.Destroy: does not model the clearing of the pipeline record and the done semaphore.
- InferRuntime.Infer.CompleteJob: does not model the callback, the done semaphore and the count of deadline misses.
- `syn_infer_wait` and the done semaphore, which can be given after the entry was reused.
- The concurrency limit is an upper bound in the machine: it also allows submissions the limit would refuse.
- ModelResidency.ResidencyContract: direct NPU loads by test rigs, changing the data of a loaded model, and a blob attached under two checksums are excluded; resumed jobs run from their parked context and are exempt, as in the code.
- Cross-core request and response matching, where a late response is not matched by number.
- IpcRing.RingIsFifo: assumes the barriers give both cores one order of the accesses.
- Record contents of the store beyond offset, size and checksum are opaque bytes.
