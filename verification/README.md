# X-Kernel: models and proofs

A Dafny 4.11 project that models the lock-free protocols and the boot-time builders of the
X-Kernel and proves what they promise. Every protocol is a transition system over its
single atomic operations, for any number of CPUs; its main results quantify over every
reachable state or every run. Every builder, loader and interpreter is a class or a method
with loops, proved against a definition of what its result means that does not mention how
it was computed.

| files | what they model |
|---|---|
| `TlbModel`, `TlbSafety`, `TlbCall`, `TlbEpoch`, `TlbPoll`, `TlbLive`, `TlbRetry`, `TlbWitness` | TLB shootdown: reusable request slots, nested handlers, the pending-epoch hint |
| `IrqWorkModel`, `IrqWorkProof`, `IrqWorkQueue`, `IrqWorkServe` | the NMI-safe one-shot work queue |
| `ExceptionContext` | the per-CPU active exception context under nesting and migration |
| `Notification`, `StopProtocol`, `StopLive` | the IPI notification word and the system stop protocol |
| `PageTables`, `LoadSearch`, `Align`, `Bits` | boot page tables and their hardware walk; the load-address search |
| `Crc`, `CrcDivision`, `BuildInfo`, `Bytes` | the build-information descriptor and its checksum |
| `UserStack` | the initial user stack and the reader of section 3.4.1 of the System V AMD64 psABI |
| `ElfLoader` | parsing, segment iteration and loading of the kernel ELF image |
| `EbpfInsn`, `EbpfSpec`, `EbpfLaws`, `EbpfVm` | the eBPF interpreter and the part of RFC 9669 it implements |
| `Bringup` | the SMP bring-up rendezvous |
| `BitSets`, `Sysno` | the syscall bitset and the syscall map |

`dafny verify dfyconfig.toml` checks the whole project.

## Properties that fail, and when they hold

- TLB fast path: "the announced request is acknowledged or no longer published" is false.
  Target flags are cleared before the next sequence is published, so an abandoned request
  can still be the published one when its target can no longer see it
  (`TlbWitness.PublishedSeqMarksReuseTooLate`), on every machine with two CPUs or more
  (`TlbWitness.PublishedSeqFailsEverywhere`). With reuse measured by `next_seq` the
  property holds in every reachable state (`TlbEpoch.FastPathHidesNothing`), and said of
  `published_seq` it holds for every slot that is not between allocating a sequence and
  publishing it (`TlbEpoch.FastPathBetweenRequests`).
- TLB retry: "a call that is denied because its CPU's slot is in use is made up for by the call
  in progress" is false. It is left to a later call if and only if the call in progress was
  past its look at the mark, or gives up, which returns without that look
  (`TlbRetry.LeftMarkedIff`, `TlbRetry.DenialOutlivesCall`). No denial is forgotten
  (`TlbRetry.DenialsConserved`).
- Exception context: a guard drop looks up the current CPU's slot and then compare-exchanges
  it, and masks nothing itself. It restores the next-outer guard in every continuation if and
  only if interrupts are masked while it runs, as they are on trap entry, or there is no
  second CPU (`ExceptionContext.DropRightIffMasked`); `ExceptionContext.UnmaskedDropFails`
  is a run from the initial state in which an unmasked drop leaves a dead trapframe exposed.
  The theorems about slots are over every run with masked drops.
- ELF loading: segments get their System V gABI contents if and only if they agree wherever
  they overlap (`ElfLoader.AbiExactly`, `ElfLoader.LoadedPerAbi`), because a later
  segment's zero fill does not erase an earlier segment's bytes; `ElfLoader.OverlapBreaksAbi`
  is an image that parses and for which they do not.

## Assumptions

- Each atomic operation is one step of a sequentially consistent interleaving.
- Fewer than 2^64 - 1 requests per shootdown slot and fewer than 2^64 epoch bumps per target.
- Give-up, timeout and resend decisions are nondeterministic; a give-up ends the guarantee
  for its request.
- Trapframe addresses of live guards are distinct and not null.
- A stop IPI sent to a CPU whose IPI queue is ready stays outstanding until that CPU takes it;
  one sent to any other CPU may be lost.
- After `stop_other_cpus` returns, its caller enters the power terminal.
- Boot page tables: a non-empty kernel range inside PML4 slot 511, distinct page-aligned
  frames, and a C-bit disjoint from every mapped address; 64-bit arithmetic wraps.
- Address arithmetic of the load search and of ELF header offsets does not overflow 64 bits.
- eBPF helpers and the trace output are arbitrary functions of their arguments, and the
  address of the stack is a parameter. UTF-8 validity is a parameter of the descriptor decoder.
- Starting a secondary CPU does not fail, and no more CPUs are present than the CPU id map has
  entries, which is `NR_CPUS` (`arch/kcpu_id_map/src/cpu_id.rs:135-188`).

## Model

| member | source | states |
|---|---|---|
| `TlbModel.SequencesCycle` | arch/kipi/src/tlb.rs:101-107 | request sequences count modulo 2^64 - 1, shifted by one so that 0 ("nothing published") never occurs |
| `TlbModel.SequenceReuse` | arch/kipi/src/tlb.rs:101-107 | a sequence comes back exactly when a multiple of 2^64 - 1 requests were allocated since |
| `TlbModel.StepShape` | arch/kipi/src/tlb.rs:141-262 | every step of every CPU keeps the shape of slots, acknowledgement arrays and handler stacks |
| `TlbSafety.StepSafe` | arch/kipi/src/tlb.rs:234-262 | one step of any CPU, including a nested or stalled handler reading a slot that is being rewritten, keeps the invariant tying acknowledgements, half-read payloads and waits to flushes |
| `TlbSafety.ReachableSafe` | arch/kipi/src/tlb.rs:406-573 | that invariant holds after every run, for any number of CPUs |
| `TlbSafety.AckMeansFlushed` | arch/kipi/src/tlb.rs:256-262 | an acknowledgement equal to the published sequence means the target flushed a covering range after that publication |
| `TlbSafety.ShootdownComplete` | arch/kipi/src/tlb.rs:449-522 | when `flush_remote` stops waiting without giving up, every target has flushed a range covering this request after it was published |
| `TlbCall.CallCompletes` | arch/kipi/src/tlb.rs:406-522 | said of the arguments: in every interleaving, when a call `flush_remote(range, mask)` is done waiting, every CPU of `mask` but the caller has, since the call began, flushed everything or exactly `range` |
| `TlbCall.CallDisturbsOnly` | arch/kipi/src/tlb.rs:415-436 | in every run a call announces work only to CPUs of its mask, and never to its own |
| `TlbEpoch.StepHinted` | arch/kipi/src/tlb.rs:382-401 | one step keeps the invariant of the pending-epoch hint, even when an outer scan overwrites a newer acknowledgement or stores an older snapshot |
| `TlbEpoch.ReachableHinted` | arch/kipi/src/tlb.rs:382-401 | the hint invariant holds after every run |
| `TlbEpoch.FastPathHidesNothing` | arch/kipi/src/tlb.rs:539-544 | no scan under way and last handled epoch equal to pending epoch: every request ever announced to this CPU is acknowledged or its slot was reused |
| `TlbEpoch.FastPathBetweenRequests` | arch/kipi/src/tlb.rs:427-434 | said of the published sequence, the fast path hides nothing for every slot that is not between allocating and publishing |
| `TlbEpoch.OnePollAcknowledges` | arch/kipi/src/tlb.rs:451-482 | one completed poll by a target, in any interleaving, acknowledges the request of a CPU that was already waiting |
| `TlbEpoch.MutualWaitResolves` | arch/kipi/src/tlb.rs:449-519 | any set of CPUs waiting for each other: once each has polled, no member still lacks another member's acknowledgement |
| `TlbPoll.Shootdown.constructor` | arch/kipi/src/tlb.rs:153-165 | empty slots and zero epochs |
| `TlbPoll.Shootdown.SetTargets` | arch/kipi/src/tlb.rs:224-232 | the target flags are exactly the given set; nothing else changes |
| `TlbPoll.Shootdown.NotePending` | arch/kipi/src/tlb.rs:382-384 | the epoch of exactly the targets rises by one |
| `TlbPoll.Shootdown.Announce` | arch/kipi/src/tlb.rs:427-438 | the slot holds exactly the request under a fresh sequence and each other target's epoch is one higher |
| `TlbPoll.Shootdown.HandleShootdown` | arch/kipi/src/tlb.rs:539-573 | an unchanged epoch does nothing; otherwise every owed request, and no other, is flushed in slot order and acknowledged, and the entry snapshot is stored |
| `TlbPoll.Settle` | arch/kipi/src/tlb.rs:549-565 | after acting on a slot the CPU owes nothing for it, and at most its own acknowledgement has changed |
| `TlbPoll.Shootdown.HandleSlot` | arch/kipi/src/tlb.rs:549-565 | one turn of the scan: exactly what is owed for the slot is flushed and acknowledged, and no other slot changes |
| `TlbPoll.UninterruptedPoll` | arch/kipi/src/tlb.rs:539-573 | a handler left alone always finishes, and its whole run of atomic steps is the atomic `Poll` |
| `TlbPoll.PollEffect` | arch/kipi/src/tlb.rs:539-573 | `Poll` changes memory as the loop of `HandleShootdown` does, so the step system and the loop agree |
| `TlbPoll.PollShrinksMissing` | arch/kipi/src/tlb.rs:449-519 | a poll removes exactly the (initiator, target) pairs it answers: a decreasing measure for mutual waits |
| `TlbLive.HandlersReturn` | arch/kipi/src/tlb.rs:539-573 | whatever stack of nested handler activations a CPU is in, left alone they all return |
| `TlbLive.CallCanComplete` | arch/kipi/src/tlb.rs:406-522 | no deadlock: from every reachable state a call under way can be completed without giving up, and its slot is free afterwards |
| `TlbRetry.DenialsConserved` | arch/kipi/src/tlb.rs:199-205 | over every run the retries of a CPU and the mark left are no more than its denied calls and the mark before, and are not nothing when there was a denial |
| `TlbRetry.LeftMarkedIff` | arch/kipi/src/tlb.rs:406-527 | in every interleaving a denied call is left to a later call if and only if the one it ran into was past its look at the mark or gives up |
| `TlbRetry.DenialOutlivesCall` | arch/kipi/src/tlb.rs:463-480 | such a state is reachable for every CPU but the first of any machine with two or more |
| `TlbRetry.RetryMakesUp` | arch/kipi/src/tlb.rs:525-527 | when a retry is done waiting, every other CPU has flushed its whole TLB since the denial |
| `TlbWitness.PublishedSeqMarksReuseTooLate` | arch/kipi/src/tlb.rs:427-434 | from every state with an unanswered waiter a state is reachable where the hint reports no work while the announced request is still the published one and unacknowledged: reuse must be measured by `next_seq` |
| `TlbWitness.StuckReachable` | arch/kipi/src/tlb.rs:406-482 | for any number of CPUs, each CPU but the first can come to wait for the first |
| `TlbWitness.PublishedSeqFailsEverywhere` | arch/kipi/src/tlb.rs:427-434 | so on every machine with two CPUs or more, and for each of them but the first, such a state is reachable from the initial one |
| `IrqWorkProof.PushOk` | arch/kirq/src/irq_work.rs:195-225 | every step of a submission, at any depth of NMI nesting, keeps the queue invariant |
| `IrqWorkProof.ConsumeOk` | arch/kirq/src/irq_work.rs:241-276 | every step of the drain keeps it |
| `IrqWorkProof.ReachableOk` | arch/kirq/src/irq_work.rs:195-276 | it holds after every run |
| `IrqWorkProof.ExactlyOnePlace` | arch/kirq/src/irq_work.rs:195-276 | a submitted node is in exactly one of: being published, incoming list, backlog, dispatched |
| `IrqWorkProof.ListsWellFormed` | arch/kirq/src/irq_work.rs:210-222 | both lists are acyclic and disjoint and end in null, whatever submissions are half-way through |
| `IrqWorkProof.CallbacksRunOnce` | arch/kirq/src/irq_work.rs:248-269 | no callback runs twice for one submission |
| `IrqWorkProof.NotTouchedAfterDispatch` | arch/kirq/src/irq_work.rs:257-268 | no later step of a submission or of the drain accesses a node whose callback ran |
| `IrqWorkProof.DoorbellNeverLost` | arch/kirq/src/irq_work.rs:213-225 | queued work with no drain active and nobody about to ring has a notification outstanding |
| `IrqWorkProof.DrainAlwaysSteps` | arch/kirq/src/irq_work.rs:241-276 | an active drain can always take its next step |
| `IrqWorkQueue.IrqWork.constructor` | arch/kirq/src/irq_work.rs:52-59 | a fresh node is unclaimed and unlinked |
| `IrqWorkQueue.LocalState.constructor` | arch/kirq/src/irq_work.rs:80-88 | empty lists, not ready, not running |
| `IrqWorkQueue.LocalState.Enqueue` | arch/kirq/src/irq_work.rs:195-225 | the two errors change nothing; success puts the node in front and rings |
| `IrqWorkQueue.LocalState.Link` | arch/kirq/src/irq_work.rs:208-222 | publication keeps both lists well formed with the node in front of the incoming one |
| `IrqWorkQueue.LocalState.DispatchOne` | arch/kirq/src/irq_work.rs:248-269 | one callback: backlog first, then the whole incoming list; false only when both are empty |
| `IrqWorkQueue.LocalState.DispatchBatch` | arch/kirq/src/irq_work.rs:248-269 | at most 64 callbacks, oldest detached first, the rest kept in order |
| `IrqWorkQueue.LocalState.Drain` | arch/kirq/src/irq_work.rs:241-276 | a re-entered or unready drain changes nothing; otherwise it dispatches a batch and rings again exactly when something is left |
| `IrqWorkQueue.LocalState.Serve` | arch/kirq/src/irq_work.rs:241-276 | with no new submissions n nodes finish, in order, in exactly ceil(n/64) drains |
| `IrqWorkServe.UninterruptedDrain` | arch/kirq/src/irq_work.rs:241-276 | the atomic steps of a drain nobody interrupts always finish and have the effect of `Drain`: the step system and the loop agree |
| `IrqWorkServe.ServedInRounds` | arch/kirq/src/irq_work.rs:241-276 | from every reachable state at rest, n waiting nodes are served in order in exactly ceil(n/64) drains, each but the last ringing again |
| `IrqWorkServe.SubmissionPublishes` | arch/kirq/src/irq_work.rs:208-222 | from every reachable state a half-done submission left alone, also one holding a stale head, puts its node in front of the incoming list |
| `IrqWorkServe.UninterruptedSubmission` | arch/kirq/src/irq_work.rs:195-225 | the atomic steps of a submission nobody interrupts have the effect of `Enqueue` |
| `ExceptionContext.StepSound` | arch/kcpu/src/active_exception_context.rs:124-221 | installing, suspending, resuming, looking up, restoring, unwinding, switching and spawning keep the slot invariant when drops are made with interrupts masked |
| `ExceptionContext.ReachableSound` | arch/kcpu/src/active_exception_context.rs:124-221 | it holds after every run of tasks that nest guards, switch and migrate, with masked drops |
| `ExceptionContext.SlotShowsInnermostGuard` | arch/kcpu/src/active_exception_context.rs:124-165 | each CPU's slot is the innermost live guard of the task running there, or 0 |
| `ExceptionContext.DropUncoversOuter` | arch/kcpu/src/active_exception_context.rs:169-221 | dropping a guard, also after migration, uncovers the next-outer one and leaves every other slot alone |
| `ExceptionContext.OriginalSlotUntouched` | arch/kcpu/src/active_exception_context.rs:210-219 | the compare-exchange on the slot of the CPU the guard was made on changes nothing |
| `ExceptionContext.DropRightIffMasked` | arch/kcpu/src/active_exception_context.rs:169-221 | in every continuation the drop uncovers the next-outer guard if and only if it is made with interrupts masked or there is no second CPU |
| `ExceptionContext.DropRightIffPrompt` | arch/kcpu/src/active_exception_context.rs:179-202 | a drop is right if and only if its task still runs on the CPU whose slot it looked up; otherwise the slot keeps the dead trapframe |
| `ExceptionContext.InterruptSplitsDrop` | arch/kcpu/src/active_exception_context.rs:179-202 | from every such state an unmasked drop can be interrupted after its lookup, moved to another CPU and leave that CPU's slot on the dead trapframe |
| `ExceptionContext.UnmaskedDropFails` | arch/kcpu/src/active_exception_context.rs:179-202 | such a run exists from the initial state of two CPUs |
| `ExceptionContext.ContextSlots.constructor` | arch/kcpu/src/active_exception_context.rs:30-32 | the slots of the initial state |
| `ExceptionContext.ContextSlots.Install` | arch/kcpu/src/active_exception_context.rs:124-136 | is the step that makes the guard innermost: the slot shows its trapframe and the invariant holds |
| `ExceptionContext.ContextSlots.Suspend` | arch/kcpu/src/active_exception_context.rs:142-150 | is the step that makes the token innermost: the slot shows nothing and the invariant holds |
| `ExceptionContext.ContextSlots.Resume` | arch/kcpu/src/active_exception_context.rs:155-165 | is the step that takes the token off: the slot shows what was innermost below it, on whichever CPU |
| `ExceptionContext.ContextSlots.RestoreSlot` | arch/kcpu/src/active_exception_context.rs:169-221 | the guard is gone, this CPU shows the next-outer one and no other slot changes, wherever the guard was made |
| `Notification.Publishes` | arch/kipi/src/notification.rs:35-40 | setting a reason bit adds that reason and reports readiness as it was |
| `Notification.Enables` | arch/kipi/src/notification.rs:42-45 | enabling keeps every pending reason |
| `Notification.Consumes` | arch/kipi/src/notification.rs:47-59 | the fetch-and leaves only the readiness bit; what it returns is every reason |
| `Notification.PendingWord.constructor` | arch/kipi/src/notification.rs:31-33 | the word of the initial protocol state |
| `Notification.PendingWord.Request` | arch/kipi/src/notification.rs:35-40 | is the protocol step: the reason is added, and the caller owes an IPI exactly when the CPU is enabled |
| `Notification.PendingWord.Enable` | arch/kipi/src/notification.rs:42-45 | is the protocol step: readiness is set and no reason is lost |
| `Notification.PendingWord.Take` | arch/kipi/src/notification.rs:47-59 | is the two protocol steps of a handler activation: before enablement nothing is consumed; afterwards all reasons are returned, cleared and logged |
| `Notification.ReachableOk` | arch/kipi/src/notification.rs:143-198 | the protocol invariant holds for any number of senders and any placement of `enable` |
| `Notification.PendingHasTakerAhead` | arch/kipi/src/notification.rs:143-198 | a reason pending on an enabled CPU has an unsent or undelivered IPI, or a handler not yet past its take, ahead of it |
| `Notification.TakeReturnsUnion` | arch/kipi/src/notification.rs:187-198 | each effective take returns exactly the reasons requested since the previous one, and none happens before enablement |
| `Notification.RequestedIsKept` | arch/kipi/src/notification.rs:35-59 | a request is still pending or was returned by a later take |
| `Notification.QuietMeansDelivered` | arch/kipi/src/notification.rs:143-198 | once an enabled CPU is quiet every request ever made has been returned |
| `Notification.DeliveriesEnd` | arch/kipi/src/notification.rs:143-198 | however sends, deliveries and takes are ordered, only a bounded number of them happens between requests |
| `Notification.ComesToRest` | arch/kipi/src/notification.rs:143-198 | from every reachable state they lead to a quiet state |
| `Notification.EveryRequestDelivered` | arch/kipi/src/notification.rs:143-198 | so every request to an enabled CPU is returned by a later take within that bound |
| `StopProtocol.StepOk` | arch/kipi/src/stop.rs:138-256 | every step of any CPU, with IPIs arriving late, from elsewhere or not at all on a CPU that is not ready, keeps the stop invariant |
| `StopProtocol.OneOrchestrator` | arch/kipi/src/stop.rs:168-182 | `STOP_STATE` is written at most once, and the winner never acknowledges, parks or is on its way to |
| `StopProtocol.AckIsLastWrite` | arch/kipi/src/stop.rs:104-109 | an acknowledged CPU is parked and makes no further shared write in any continuation |
| `StopProtocol.ReturnMeansStopped` | arch/kipi/src/stop.rs:192-233 | a return without timeout means every other CPU the target pass saw ready has acknowledged and writes no more |
| `StopProtocol.UnreadyNotAwaited` | arch/kipi/src/stop.rs:184-198 | a CPU that is not ready when the target pass is over is waited for in no continuation |
| `StopProtocol.StopIpiAhead` | arch/kipi/src/stop.rs:203-209 | every CPU waited for has acknowledged, is in its handler, or has an IPI outstanding it can take |
| `StopProtocol.HandlerParks` | arch/kipi/src/stop.rs:242-256 | a handler that finds a stop request of another CPU never returns: after at most three operations its CPU is acknowledged and parked |
| `StopProtocol.StopRequestParks` | arch/kipi/src/stop.rs:242-256 | the same from every reachable state and over every continuation |
| `StopLive.WaitEnds` | arch/kipi/src/stop.rs:211-232 | once its targets have acknowledged, the orchestrator returns without a timeout within n + 1 operations of its own, however the others are scheduled |
| `StopLive.StopCanComplete` | arch/kipi/src/stop.rs:138-233 | no deadlock: from every reachable state of a claimed stop that has not timed out the orchestrator can return without a timeout, all its targets acknowledged |
| `PageTables.EntryDecodes` | boot/x86-boot-common/src/lib.rs:107-115 | an entry made by or-ing address, C-bit and flags decodes to what it was made of |
| `PageTables.WalkBuilt` | boot/x86-boot-common/src/lib.rs:79-152 | the hardware walk over the built tables is the promised address map, for every canonical address, and all it maps is writable, executable and for the supervisor only |
| `PageTables.KernelMapped` | boot/x86-boot-common/src/lib.rs:117-118 | in the top PML4 slot the promised map holds exactly the pages with a byte of the given kernel range, the first of them at the load address |
| `PageTables.WrappedFrame` | boot/x86-boot-common/src/lib.rs:138-146 | 64-bit wrapping reaches the right frame when a 2 MiB piece starts below the image |
| `PageTables.BootMemory.constructor` | boot/x86_64-boot-stub/src/main.rs:298-300 | an allocator over a pool of frames |
| `PageTables.BootMemory.AllocPage` | boot/x86_64-boot-stub/src/main.rs:302-313 | pages come out in order; it fails exactly when the pool is used up |
| `PageTables.BootMemory.FillLinear` | boot/x86-boot-common/src/lib.rs:111-115 | both windows get the 1 GiB page at i << 30 in entry i |
| `PageTables.BootMemory.FillPt` | boot/x86-boot-common/src/lib.rs:137-147 | a page table maps exactly the pages of the image in its 2 MiB piece |
| `PageTables.BootMemory.FillKernel` | boot/x86-boot-common/src/lib.rs:130-148 | one page table per 2 MiB piece, and it fails exactly when frames run out |
| `PageTables.BootMemory.BuildFixed` | boot/x86-boot-common/src/lib.rs:91-115 | the five fixed tables are linked and the windows filled |
| `PageTables.BootMemory.BuildTables` | boot/x86-boot-common/src/lib.rs:91-152 | the same once the five fixed tables have their pages |
| `PageTables.BootMemory.BuildPageTables` | boot/x86-boot-common/src/lib.rs:79-152 | exact error conditions; on success the walk maps the kernel image, the low 512 GiB and its second window as promised, with those rights, and nothing else |
| `Align.AlignUp` | boot/x86-boot-common/src/lib.rs:155-157 | the least multiple not below the value |
| `Align.MaskIsAlignUp` | boot/x86-boot-common/src/lib.rs:155-157 | the add-and-mask form computes that multiple for every power of two |
| `LoadSearch.OverlappingReservedEnd` | boot/x86-boot-common/src/lib.rs:159-174 | none if and only if no reserved range overlaps, else the greatest end of an overlapping one |
| `LoadSearch.OverlapMeans` | boot/x86-boot-common/src/lib.rs:166-171 | ranges that are not empty overlap exactly when they share an address |
| `LoadSearch.SkipLosesNothing` | boot/x86_64-boot-stub/src/main.rs:426-431 | no address skipped after a collision is free |
| `LoadSearch.SearchArea` | boot/x86_64-boot-stub/src/main.rs:424-433 | terminates with the lowest acceptable address of an area, or none exists |
| `LoadSearch.ChooseLoadAddress` | boot/x86_64-boot-stub/src/main.rs:386-436 | the lowest acceptable address of the first usable area that has one; it fails only when no area has one |
| `CrcDivision.Crc32` | boot/kernel-image-metadata/src/lib.rs:209-219 | the bitwise loop computes the complement of the reflected remainder of the message by the CRC-32 generator polynomial |
| `CrcDivision.ChecksumIsRemainder` | boot/kernel-image-metadata/src/lib.rs:209-219 | the specified checksum is that remainder: of the bit-reflected message times x^32 plus initial ones, by x^32 + x^26 + ... + 1 |
| `CrcDivision.RemainderUnique` | boot/kernel-image-metadata/src/lib.rs:209-219 | division by a polynomial of degree 32 leaves one remainder |
| `CrcDivision.ChecksumPinned` | boot/kernel-image-metadata/src/lib.rs:209-219 | so no other number is the checksum of a message |
| `Crc.StepLinear` | boot/kernel-image-metadata/src/lib.rs:213-216 | one CRC step is linear over exclusive or |
| `Crc.StepKeepsNonzero` | boot/kernel-image-metadata/src/lib.rs:213-216 | no 32-bit state but zero steps to zero |
| `Crc.StateIsOneShift` | boot/kernel-image-metadata/src/lib.rs:209-219 | the byte loop is one linear map of the message read as a single little-endian number |
| `Crc.BurstChangesChecksum` | boot/kernel-image-metadata/src/lib.rs:209-219 | messages of one length that differ by a burst of at most 32 bits have different checksums |
| `Crc.FourBytesChangeChecksum` | boot/kernel-image-metadata/src/lib.rs:209-219 | replacing at most four consecutive bytes changes the checksum |
| `BuildInfo.EncodeBuildInfo` | boot/kernel-image-metadata/src/lib.rs:90-113 | exact error conditions, an untouched descriptor on error, and otherwise header, payload and zero padding |
| `BuildInfo.DecodesExactly` | boot/kernel-image-metadata/src/lib.rs:121-146 | decoding returns a payload if and only if the descriptor holds exactly that payload |
| `BuildInfo.RoundTrip` | boot/kernel-image-metadata/src/lib.rs:90-146 | whatever holds a valid payload decodes to it, and to no other |
| `BuildInfo.CorruptionDetected` | boot/kernel-image-metadata/src/lib.rs:139-144 | any change confined to at most four consecutive payload bytes is a checksum mismatch |
| `BuildInfo.WireFormat` | boot/kernel-image-metadata/src/lib.rs:106-111 | the bytes of a descriptor: "XKBUILD", zero, version 1, header size 20, then length, checksum and payload, little-endian |
| `BuildInfo.HeaderDamage` | boot/kernel-image-metadata/src/lib.rs:125-134 | a changed byte of magic, version or header size is reported as that field's error |
| `BuildInfo.ChecksumDamage` | boot/kernel-image-metadata/src/lib.rs:142-144 | a changed byte of the checksum field is a mismatch |
| `BuildInfo.Truncation` | boot/kernel-image-metadata/src/lib.rs:122-141 | a descriptor cut short is too small for its header or for its payload |
| `BuildInfo.NotText` | boot/kernel-image-metadata/src/lib.rs:145 | an intact payload that is not UTF-8 is reported as such |
| `UserStack.StackBuilder.constructor` | boot/kernel_elf_parser/src/user_stack.rs:66-73 | an empty image under the stack top |
| `UserStack.StackBuilder.Push` | boot/kernel_elf_parser/src/user_stack.rs:73-77 | prepends; reports the new lowest address or overflow |
| `UserStack.StackBuilder.PushStrings` | boot/kernel_elf_parser/src/user_stack.rs:83-99 | fails exactly when there is no room; otherwise each returned address leads to its string and terminator |
| `UserStack.StackBuilder.PushHead` | boot/kernel_elf_parser/src/user_stack.rs:79-81 | the random bytes and the executed path stand right below the stack top |
| `UserStack.StackBuilder.PushTexts` | boot/kernel_elf_parser/src/user_stack.rs:79-99 | all texts are in place and the two pointer vectors lead to them |
| `UserStack.StackBuilder.PushPadding` | boot/kernel_elf_parser/src/user_stack.rs:100-117 | the padding is exactly what alignment needs |
| `UserStack.StackBuilder.PushAux` | boot/kernel_elf_parser/src/user_stack.rs:119-143 | the entries on the stack are the caller's, the added ones and the terminal one, in that order |
| `UserStack.StackBuilder.PushVectors` | boot/kernel_elf_parser/src/user_stack.rs:145-151 | pointer vectors, their nulls and `argc`, in memory order |
| `UserStack.StackBuilder.PushFrame` | boot/kernel_elf_parser/src/user_stack.rs:119-151 | a frame laid out where the ABI puts each part |
| `UserStack.CutAux` | boot/kernel_elf_parser/src/user_stack.rs:68-71 | the entries before the first `AT_NULL` |
| `UserStack.FindHelpers` | boot/kernel_elf_parser/src/user_stack.rs:119-132 | whether the caller already supplies `AT_RANDOM` and `AT_EXECFN` |
| `UserStack.FrameAligned` | boot/kernel_elf_parser/src/user_stack.rs:102-117 | the final stack pointer is 16-byte aligned for every count of strings and entries |
| `UserStack.LoadAuxBack` | boot/kernel_elf_parser/src/user_stack.rs:133-143 | the psABI reader gets the entries back and stops at the terminal one |
| `UserStack.AuxVectorRead` | boot/kernel_elf_parser/src/user_stack.rs:68-143 | the vector a program reads: the caller's entries before the first of kind 0 in order, then one of kind 25 and one of kind 31 where the caller gave none, then the null entry |
| `UserStack.FrameReads` | boot/kernel_elf_parser/src/user_stack.rs:58-159 | a frame laid out this way reads back as its parts |
| `UserStack.StackBuilder.PushBelow` | boot/kernel_elf_parser/src/user_stack.rs:100-151 | succeeds exactly when padding and frame fit, and keeps every text where it was |
| `UserStack.StackBuilder.PushAll` | boot/kernel_elf_parser/src/user_stack.rs:79-151 | succeeds exactly when texts, padding and frame fit, with every part where it belongs |
| `UserStack.BuildStack` | boot/kernel_elf_parser/src/user_stack.rs:72-159 | succeeds if and only if the frame fits below `sp`; lays out every part and lands on a 16-byte boundary |
| `UserStack.AppStackRegion` | boot/kernel_elf_parser/src/user_stack.rs:58-159 | a program gets a 16-byte aligned stack pointer and reads back argc, argv, envp and auxv in order, with the added entries leading to their data |
| `UserStack.StringsWhole` | boot/kernel_elf_parser/src/user_stack.rs:83-99 | strings are read whole exactly when none of them holds a NUL |
| `UserStack.DeliversWhole` | boot/kernel_elf_parser/src/user_stack.rs:58-159 | so the program reads back the very argument and environment strings |
| `EbpfInsn.FromBytes` | core/kbpf/src/insn.rs:49-60 | every field is in range |
| `EbpfInsn.DecodeEncode` | core/kbpf/src/insn.rs:49-60 | every slot value has a wire form that decodes to it |
| `EbpfInsn.EncodeDecode` | core/kbpf/src/insn.rs:49-60 | and every eight bytes are the wire form of what they decode to |
| `EbpfInsn.WireFields` | core/kbpf/src/insn.rs:49-60 | the bytes of a slot: opcode, source and destination nibbles, then offset and immediate as little-endian two's complement |
| `EbpfVm.Vm.constructor` | core/kbpf/src/vm.rs:226-234 | zeroed registers and stack, an empty helper table, the default limit |
| `EbpfVm.Vm.RegisterHelper` | core/kbpf/src/vm.rs:255-271 | the id is bound and no other id changes; it fails, unchanged, exactly when the table is full of other ids |
| `EbpfVm.Vm.LookupHelper` | core/kbpf/src/vm.rs:273-282 | the first entry with the id |
| `EbpfVm.LoadMemoryValue` | core/kbpf/src/vm.rs:524-530 | shifting bytes into place reads the little-endian number |
| `EbpfVm.Vm.StoreMemoryValue` | core/kbpf/src/vm.rs:533-537 | the low bytes of the value, little-endian, and no other byte of the stack changes |
| `EbpfVm.Vm.ReadBytes` | core/kbpf/src/vm.rs:445-457 | stack first, then the first read-only region that holds the whole range |
| `EbpfVm.Vm.WriteStackValue` | core/kbpf/src/vm.rs:465-468 | a store happens exactly when the whole range is stack |
| `EbpfVm.Vm.ReadOnlyAddr` | core/kbpf/src/vm.rs:470-477 | the address inside the first region with the id, within its bounds |
| `EbpfVm.Vm.ExecuteLoad` | core/kbpf/src/vm.rs:337-343 | load: the specified result, or the specified error with nothing changed |
| `EbpfVm.Vm.ExecuteStore` | core/kbpf/src/vm.rs:345-358 | store immediate and store register, likewise |
| `EbpfVm.Vm.ExecuteAlu` | core/kbpf/src/vm.rs:360-377 | add and move with 64-bit wrapping and sign extension, likewise |
| `EbpfVm.Vm.ExecuteWide` | core/kbpf/src/vm.rs:321-335 | two-slot immediate and map-value address, likewise |
| `EbpfVm.Vm.ExecuteJump` | core/kbpf/src/vm.rs:379-387 | jumps relative to the next slot, inside the program, likewise |
| `EbpfVm.Vm.ExecuteCall` | core/kbpf/src/vm.rs:409-432 | helper calls and the built-in trace output, likewise |
| `EbpfVm.OpcodeTable` | core/kbpf/src/vm.rs:56-108 | the opcode constants are exactly the class, size, mode, source and code fields of RFC 9669 |
| `EbpfVm.Vm.Execute` | core/kbpf/src/vm.rs:319-396 | the dispatch does what the opcode's fields mean |
| `EbpfVm.Vm.Reset` | core/kbpf/src/vm.rs:298-305 | initial registers and a zeroed stack |
| `EbpfVm.Vm.Loop` | core/kbpf/src/vm.rs:307-400 | the loop is the specified run, step for step |
| `EbpfVm.Vm.RunWithInitialRegs` | core/kbpf/src/vm.rs:292-400 | result, instruction count, final registers and final stack are those of the small-step run |
| `EbpfSpec.StoreThenLoad` | core/kbpf/src/vm.rs:434-468 | a store then a load of the same place gives the value modulo 2^(8*width) |
| `EbpfSpec.StoreElsewhere` | core/kbpf/src/vm.rs:434-468 | a store leaves every disjoint read unchanged |
| `EbpfSpec.ReadStaysInside` | core/kbpf/src/vm.rs:445-457 | a read comes from the stack or one region, and fails if and only if none holds the range |
| `EbpfSpec.StepStaysInside` | core/kbpf/src/vm.rs:545-551 | a step leaves the program counter inside the program or just past its last slot |
| `EbpfSpec.BudgetIrrelevant` | core/kbpf/src/vm.rs:310-314 | a larger budget cannot change a run that ended within its budget |
| `EbpfSpec.LimitIsReached` | core/kbpf/src/vm.rs:310-314 | the limit is reported only after exactly that many instructions |
| `EbpfLaws.AddLaw` | core/kbpf/src/vm.rs:360-368 | add: the register becomes congruent, modulo 2^64, to its value plus the signed immediate or the source register; nothing else changes |
| `EbpfLaws.MovLaw` | core/kbpf/src/vm.rs:369-377 | move: the register reads as the signed immediate in two's complement, or is the source register |
| `EbpfLaws.WideLaw` | core/kbpf/src/vm.rs:321-335 | two-slot immediate: low half from this slot, high half from the next, which is skipped |
| `EbpfLaws.MapValueLaw` | core/kbpf/src/vm.rs:321-335 | map-value address: base plus the next slot's offset in the first region with the id, or the exact errors |
| `EbpfLaws.ReadLaw` | core/kbpf/src/vm.rs:445-457 | a read takes its bytes from the stack if it holds them all, else from the first region that does, else fails |
| `EbpfLaws.LoadLaw` | core/kbpf/src/vm.rs:337-343 | load: 1, 2, 4 or 8 bytes at source plus offset, least significant first |
| `EbpfLaws.StoreLaw` | core/kbpf/src/vm.rs:345-358 | store: exactly those bytes at destination plus offset change, to the low bytes of the value; off the stack it fails unchanged |
| `EbpfLaws.JumpLaw` | core/kbpf/src/vm.rs:379-387 | jumps: off slots past the next one, always or exactly when the register reads as the immediate, and only inside the program |
| `EbpfLaws.CallLaw` | core/kbpf/src/vm.rs:388-432 | call: the first helper with the id gets r1 to r5 in order and its result goes to r0; without one id 6 is the trace output |
| `EbpfLaws.ExitLaw` | core/kbpf/src/vm.rs:392-395 | exit ends the run with r0, and every opcode that is not listed is an error |
| `EbpfLaws.SumProgramAdds` | core/kbpf/src/vm.rs:292-400 | a whole program: move, add, exit returns the sum of its two immediates, whatever the registers held |
| `ElfLoader.Parse` | boot/kernel-elf-loader/src/lib.rs:23-59 | accepts exactly the images whose program headers are all sound and whose segments span a page; otherwise the first fault |
| `ElfLoader.ScanHeaders` | boot/kernel-elf-loader/src/lib.rs:29-49 | the smallest page range that holds every segment, or the first fault |
| `ElfLoader.SoundHeader` | boot/kernel-elf-loader/src/lib.rs:32-48 | a header passes every check exactly when it can be read and, if loadable, its file bytes lie in the file and in the segment, whose last page ends below 2^64 |
| `ElfLoader.LayoutMeans` | boot/kernel-elf-loader/src/lib.rs:211-226 | a header with a virtual address is placed there; one without goes to its physical address, and a size beyond that address is the end of the segment |
| `ElfLoader.LoadSegments.constructor` | boot/kernel-elf-loader/src/lib.rs:125-127 | an iterator at the first header |
| `ElfLoader.LoadSegments.Next` | boot/kernel-elf-loader/src/lib.rs:188-205 | on a parsed image it yields the next loadable segment and ends only when there is none |
| `ElfLoader.SegmentsInside` | boot/kernel-elf-loader/src/lib.rs:36-48 | every segment of a parsed image lies inside its page range |
| `ElfLoader.LoadTo` | boot/kernel-elf-loader/src/lib.rs:133-177 | only the image range changes, and each byte is the last covering segment's file byte, or zero |
| `ElfLoader.AbiExactly` | boot/kernel-elf-loader/src/lib.rs:162-175 | segments get their System V gABI contents if and only if they agree wherever they overlap |
| `ElfLoader.LoadedPerAbi` | boot/kernel-elf-loader/src/lib.rs:133-177 | said of memory: loading a parsed image leaves every segment its gABI contents if and only if its segments agree |
| `ElfLoader.EverySegmentList` | boot/kernel-elf-loader/src/lib.rs:23-59 | every list of segments that fits in a file is what some image parses to |
| `ElfLoader.OverlapBreaksAbi` | boot/kernel-elf-loader/src/lib.rs:162-175 | an image that parses, with two segments that do not agree and do not get their contents |
| `ElfLoader.AddressHoldsByte` | boot/kernel-elf-loader/src/lib.rs:73-79 | after loading, the address computed for a virtual address holds its byte, and there is one exactly inside the range |
| `Bringup.StepOk` | core/kruntime/src/mp.rs:87-203 | every step of the primary or a secondary keeps the rendezvous invariant |
| `Bringup.SecondariesRegistered` | core/kruntime/src/mp.rs:109-117 | start-up of secondaries returns only when every run queue is registered and every secondary runs |
| `Bringup.NoEarlyInterrupts` | core/kruntime/src/mp.rs:160-173 | a secondary has its interrupts active only after the primary finished its services and every run queue is registered |
| `Bringup.BarrierMeansAll` | core/kruntime/src/lib.rs:372-393 | late init passes the barrier only when all present CPUs finished their services and every secondary has its interrupts active |
| `Bringup.StacksDistinct` | core/kruntime/src/mp.rs:94-107 | secondaries boot on different stacks inside the pool |
| `Bringup.StepsProgress` | core/kruntime/src/mp.rs:87-203 | every step that does anything raises a bounded measure |
| `Bringup.SomeoneCanStep` | core/kruntime/src/mp.rs:87-203 | until the barrier is passed some CPU can take such a step |
| `Bringup.BarrierCanPass` | core/kruntime/src/lib.rs:241-247 | no deadlock: from every reachable state the barrier can still be passed |
| `Bringup.FairBringupCompletes` | core/kruntime/src/lib.rs:372-393 | however the CPUs are scheduled, the barrier is passed after at most 8n + 5 rounds in each of which every running CPU takes a turn |
| `Sysno.ElementsInOrder` | api/linux_sysno/src/set.rs:288-355 | listed members rise strictly: in order, and none twice |
| `Sysno.ElementsAre` | api/linux_sysno/src/set.rs:288-355 | the list holds exactly the set bits |
| `Sysno.SysnoSet.constructor` | api/linux_sysno/src/set.rs:88-92 | the empty set |
| `Sysno.SysnoSet.AddAll` | api/linux_sysno/src/set.rs:72-85 | adds exactly the listed syscalls |
| `Sysno.SysnoSet.Contains` | api/linux_sysno/src/set.rs:102-105 | set membership |
| `Sysno.SysnoSet.Insert` | api/linux_sysno/src/set.rs:134-141 | set insertion, and whether the member is new |
| `Sysno.SysnoSet.Remove` | api/linux_sysno/src/set.rs:145-152 | set removal, and whether it was a member |
| `Sysno.SysnoSet.Clear` | api/linux_sysno/src/set.rs:116-120 | the empty set |
| `Sysno.SysnoSet.IsEmpty` | api/linux_sysno/src/set.rs:111-113 | emptiness |
| `Sysno.SysnoSet.Count` | api/linux_sysno/src/set.rs:126-130 | the cardinality |
| `Sysno.SysnoSet.Combine` | api/linux_sysno/src/set.rs:156-208 | union, intersection, difference and symmetric difference |
| `Sysno.SysnoSetIter.constructor` | api/linux_sysno/src/set.rs:316-320 | all members are still to come |
| `Sysno.SysnoSetIter.NextWord` | api/linux_sysno/src/set.rs:291-301 | the next non-zero word, passing over no member |
| `Sysno.SysnoSetIter.Next` | api/linux_sysno/src/set.rs:326-355 | yields the lowest member left and ends only when there is none |
| `Sysno.SysnoMap.constructor` | api/linux_sysno/src/map.rs:87-92 | the empty map |
| `Sysno.SysnoMap.Insert` | api/linux_sysno/src/map.rs:129-142 | map update; the previous value is handed out |
| `Sysno.SysnoMap.Remove` | api/linux_sysno/src/map.rs:146-155 | map removal; the value is handed out |
| `Sysno.SysnoMap.Get` | api/linux_sysno/src/map.rs:159-167 | map lookup |
| `Sysno.SysnoMap.Clear` | api/linux_sysno/src/map.rs:100-107 | empties the map and destroys each value once, in ascending order of its key |
| `Sysno.SysnoMap.AddAll` | api/linux_sysno/src/map.rs:219-236 | for repeated keys the last entry wins |

## Left out

- Weak memory: acquire and release orderings are not distinguished from sequential consistency.
- Real time: resend timers, deadlines and log messages.
- The move of a retrying caller to another CPU between taking the mark and starting its retry; `TlbRetry.RetryMakesUp` is about a retry on the same CPU.
- The sequence wrap of a shootdown slot after 2^64 - 1 requests within the protocol; the numbering itself is `TlbModel.SequencesCycle`.
- The handlers that act on notification reasons (rescheduling, timers, bottom halves, RCU).
- Hardware: CR3 switching, APIC and interrupt-controller programming, MMIO, per-CPU base registers.
- ElfLoader.LoadTo: models the branch for a source and a destination that do not overlap, because the other branch writes over the image it still reads headers and segments from, and nothing checks in what order that destroys what.
- LoadSearch.ChooseLoadAddress: one model for the multiboot and the Linux-boot search, whose loops are the same; building the reserved ranges is not modelled.
- UserStack.AppStackRegion: random bytes and texts are given as byte strings; string encoding is not modelled.
- The symbol table lookup of the ELF loader, which would only add another bounded scan.
- The bodies of eBPF helpers and the formatting of trace output.
- Sysno.SysnoSet.Combine: the four set operations of the bitset are one method, because their loops differ only in the word operator.
- Serialisation, formatting and the iterator adapters of the syscall set and map.
- UEFI file input, boot console, configuration reading, feature selection and build scripts.
