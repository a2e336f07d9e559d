# upciedev: a verified model of the driver core

upciedev is the universal part of a family of PCI Express drivers for MicroTCA boards. This project models its four
intricate pieces in Dafny and proves what they are for:

* **The revocable device lock** (`LockSections`, `LockObject`, `LockProtocol`, `LockRuns`, `LockFine`,
  `LockRefinement`). A short mode guards one access, a long mode several accesses with user-space work in between; a
  waiter may take an overdue long lock away. `LockObject` is the lock object with its fields updated in place.
  `LockProtocol` interleaves the spinlock sections of any number of tasks with a clock; `LockFine` interleaves single
  statements, and `LockRefinement` maps every run of it to a run of `LockProtocol` with the same owners.
* **The register transfer engine** (`RegisterWords`, `TransferSpec`, `TransferLaws`, `TransferMeaning`,
  `TransferTheorems`, `TransferCalls`, `TransferSplit`, `TransferRoundTrip`, `TransferContainment`, `TransferConditions`,
  `VectorSpec`, `VectorLaws`, `VectorMeaning`, `VectorExample`, `RequestLayout`, `Temporaries`, `DeviceObject`). BARs are byte sequences, user memory is a partial map of bytes, and an access outside
  its domain is the failing copy of the source. `DeviceObject` holds the loops on 32-bit temporaries;
  the other modules define what they compute and prove what that means.
* **The hot-plug life cycle** (`HotplugSpec`, `HotplugRuns`, `HotplugSteps`, `HotplugTheorems`, `HotplugCalls`,
  `HotplugEffects`, `HotplugExamples`, `HotplugObject`). Sixteen slots, the last of which is the null device; open files move there when
  their board disappears. Calls and releases look at their device before they take its lock, so each of them is two
  steps of a run, and removes and probes may come in between. `HotplugObject` is the table updated in place.
* **The firmware record walk** (`RecordWalk`). Linked records in BAR memory become a list, a count and an interrupt mask.

Each mutable object is a class whose methods are proved equal to a function on values; the laws are proved about those
functions, over all inputs, all reachable states or all runs.

Facts about the code that the model keeps, and that the results state instead of assuming them away:

* The lock code is compiled only under `USE_SEMAPHORE`, which criticalregionlock.h:41 comments out; the default build
  uses a mutex. The model is of the conditional code.
* A nested Enter on a short lock is undone by the first Leave: `NestedEnterBreaksExclusion` is a run in which two tasks
  are inside, so mutual exclusion is stated for tasks that leave only what they entered and make no lock call in between.
* criticalregionlock.h:33 promises that a guilty program can be unlocked. A fresh long lock carries the in-region flag
  (criticalregionlock.c:241), so a program that long-locks and makes no further call keeps the lock for ever:
  `SilentOwnerKeepsLock`, with the run `OverdueButMarked`.
* `LongLockOfCriticalRegion` drops the result of the lock loop: `LongLock` returns 0 whether or not it acquired.
* The full-table test of probe (pciedev_probe_exp.c:95) can never succeed, because slot 15 is always bound:
  `SlotSearch`, with a reachable full table in `FullTable`. A failed `pci_enable_device` costs a slot for ever:
  `LeakedForEver`.
* Read, write and ioctl test the status before they take the lock (pciedev_rw_exp.c:44-49). A remove and a probe in
  between send the call to the new board: the run `OvertakenCall` has one open file reach two boards, and `OtherBoardIff`
  says exactly when this happens. After a remove alone the call is refused.
* Release reads the device of its file before it takes the lock (pciedev_ufn.c:259-262). A remove in between leaves the
  null device with a count too many: the run `OvertakenRelease`. `FileBookkeeping` counts these releases, and
  `OvertakenIff` says which they are.
* The record walk over BARs 1 to 5 starts again at offset 0 in each round: `RestartEndsIff` says exactly when it ends, and
  `LoopingBarNeverEnds` has BAR contents on which it does not.
* A vector request fetches its descriptors one at a time, so a read can overwrite a later descriptor, as in
  `OverwrittenRequest`. `StaticVector` takes the table as it stands at the start if no request reads into a later entry.
* The temporaries of the transfer loops are not initialised. `TmpMattersIff` says exactly when a read depends on what its
  temporary held, and a write does only when it needs data and none is given (`WriteSplit`, `StaleDataWritten`).

## Model

| member | source | states |
|---|---|---|
| LockObject.CriticalRegionLock.constructor | criticalregionlock.c:59-69 | the initial lock: one permit, no owner, no mode |
| LockObject.CriticalRegionLock.EnterTest | criticalregionlock.c:86-91 | the ownership test marks the region exactly when the caller is the owner |
| LockObject.CriticalRegionLock.Enter | criticalregionlock.c:81-100 | returns 0 exactly when the caller was the owner or one of its waits was granted; fields and signals in each case |
| LockObject.CriticalRegionLock.LongLock | criticalregionlock.c:113-133 | returns 0 on every path that waited, whether the lock was acquired or not |
| LockObject.CriticalRegionLock.Leave | criticalregionlock.c:156-197 | a short or marked lock is freed, any other only leaves the region; a marked release returns -3, any other 0; the region flag is cleared |
| LockObject.CriticalRegionLock.LongUnlock | criticalregionlock.c:172-197 | only the owner frees a long lock and gets 0; anybody else gets -5 and changes nothing |
| LockObject.CriticalRegionLock.OnExpiry | criticalregionlock.c:214-232 | an overdue long lock is stolen when idle, marked when busy, and left alone otherwise; the task to signal |
| LockObject.CriticalRegionLock.OnGrant | criticalregionlock.c:239-245 | the fields after the acquiring section |
| LockObject.VictimsExact | criticalregionlock.c:215-232 | the signals of a lock loop go to the owners of all overdue long locks that an expired round found idle, once per round, in the order of the rounds |
| LockObject.VictimsCounted | criticalregionlock.c:215-232 | every task is signalled as often as a round took the lock from it |
| LockObject.CriticalRegionLock.LockPrivate | criticalregionlock.c:203-254 | the loop succeeds exactly when one of its first 100 waits is granted and signals exactly the owners its expired rounds displaced, in order |
| LockProtocol.InvStep | criticalregionlock.c:81-254 | every step of every task, disciplined or not, keeps one permit, owner and mode in step, marks only on busy overdue long locks, and no waiting owner |
| LockProtocol.ExclusionStep | criticalregionlock.c:81-254 | every disciplined step keeps each inside task the owner, in region, and inside once |
| LockRuns.SemaphoreConserved | criticalregionlock.c:59-254 | in every state of every run: count + permits in flight + held lock is 1; no owner iff no mode; a mark implies long and in region |
| LockRuns.MutualExclusion | criticalregionlock.c:81-254 | at most one task is between Enter's 0 and its Leave in every disciplined run, revocations included |
| LockRuns.NestedEnterBreaksExclusion | criticalregionlock.c:87-91 | a concrete undisciplined run with two tasks inside |
| LockRuns.RegionAccessesContiguous | criticalregionlock.c:81-108 | during one stay in the region the global access history grows by exactly the accesses of the one inside, in its program order |
| LockRuns.OwnershipStable | criticalregionlock.c:86-97 | the owner field becomes p only by p's own acquiring step; no task waits for a lock it owns |
| LockRuns.OwnerKeepsAcquisition | criticalregionlock.c:240-244 | while a task stays owner, mode and start time are those of its acquisition |
| LockRuns.NoEarlyRevocation | criticalregionlock.c:160-228 | a long lock is lost only by its owner's long unlock or after more than the timeout since its acquisition |
| LockRuns.LossesReportedOnce | criticalregionlock.c:161-232 | at every point of every run, involuntary losses of a task equal its reports plus signals about to be sent |
| LockRuns.TimeoutReachesOwner | criticalregionlock.c:161-165 | under the discipline the timeout code is returned to the owner that lost the lock |
| LockRuns.LockCallBounded | criticalregionlock.c:210-252 | one lock call takes at most 301 steps of its task, whatever the others do |
| LockRuns.LockCallOutcome | criticalregionlock.c:210-252 | a lock call ends by the acquiring step as owner with fewer than 100 expired waits, or after exactly 100 without ownership |
| LockRuns.ExpiryFrees | criticalregionlock.c:214-228 | an expired wait frees the lock if and only if it is overdue and its owner idle; a busy overdue lock is marked |
| LockRuns.MarkFreesAtNextLeave | criticalregionlock.c:160-195 | a mark lasts as long as the owner, and the first Leave under it frees the lock and reports the timeout |
| LockRuns.SilentOwnerKeepsLock | criticalregionlock.c:215-241 | a long lock whose owner makes no further Leave or unlock is never taken, however long others wait |
| LockRuns.OverdueButMarked | criticalregionlock.c:215-221 | a run in which more than the timeout has passed and the expired wait only marks the lock |
| LockRefinement.SimStep | criticalregionlock.c:156-247 | forward simulation: each statement is the section it completes or no step |
| LockRefinement.FineRunRefines | criticalregionlock.c:156-247 | every statement-level run, with other tasks' waits granted between `up` and the field writes, is a section-level run with the same owners |
| LockRefinement.DisciplinedRunRefines | criticalregionlock.c:81-254 | discipline at the calls of a statement-level run gives a disciplined section-level run |
| LockRefinement.FineAccessesContiguous | pciedev_ioctl_exp.c:306-336 | at the grain of statements: what a task accesses between the return of its Enter and its Leave, as the vector loop does, stands in the global history without a gap |
| LockRefinement.FineMutualExclusion | criticalregionlock.c:81-254 | mutual exclusion at the grain of single statements |
| RegisterWords.WidthsAgree | pciedev_io.h:80-104 | step width and access width agree exactly on valid sizes or a 32-bit default |
| RegisterWords.SizeCorrected | pciedev_io.h:80-104 | sizes 0, 1, 2 mean 1, 2, 4 bytes, any other the width of the device |
| RegisterWords.MaskedBits | read_write_inline.h:88-120 | bit by bit: under the mask a set takes the data and a toggle inverts, elsewhere both keep the register |
| RegisterWords.SwapLBytes | pciedev_io.h:36 | the 32-bit swap macro reverses the bytes of a temporary |
| RegisterWords.SwapSBytes | pciedev_io.h:37 | the 16-bit swap macro swaps the low bytes and clears the high ones |
| RegisterWords.BitsBytes | read_write_inline.h:88-120 | the mask formulas on 32-bit temporaries act byte by byte, and the toggle formula is an exclusive or |
| TransferLaws.ClipIsLargest | read_write_inline.h:277-280 | the clipped count drops no register that still fits |
| TransferLaws.ClipSplit | read_write_inline.h:277-280 | the clip identity of the split law under truncating division |
| TransferMeaning.WriteMeaning | read_write_inline.h:353-361 | a block write completes exactly the registers before the first unreachable user word; each becomes what the user asked for, in the user's byte order; nothing else changes |
| TransferMeaning.ReadMeaning | read_write_inline.h:283-299 | a block read shows each completed register in the user's byte order, touches no other user byte, and stops early only at an unreachable word or at all ones with the link down |
| TransferMeaning.ReadComplete | read_write_inline.h:283-299 | with the link up and the buffer reachable a read is complete |
| TransferTheorems.BlockSeen | read_write_inline.h:88-232 | register by register: simple write gives the data, SET_BITS (data & mask) or (old & ~mask), SWAP_BITS old xor mask, in the user's view |
| TransferTheorems.SetBitsIdempotent | read_write_inline.h:88-105 | SET_BITS with fixed data is idempotent on any block |
| TransferTheorems.SwapBitsTwice | read_write_inline.h:106-120 | SWAP_BITS twice restores any block |
| TransferTheorems.SetBitsCommute | read_write_inline.h:88-105 | disjoint-mask SET_BITS commute, even when faults cut them short and whatever the four temporaries held |
| TransferCalls.SwapIndependent | read_write_inline.h:357-359 | the same request means the same to the user with swap on or off |
| TransferSplit.ReadSplit | read_write_inline.h:253-303 | reading a+b registers equals reading a and then b further on, in user data and byte count, whatever the second call's temporary held unless it matters; a first part that stops early is the whole |
| TransferSplit.WriteSplit | read_write_inline.h:323-364 | writing a+b registers equals writing a and then b further on, in device state and byte count, for every mode, whatever the second call's temporary held unless data is needed and not given |
| TransferSplit.TmpMattersIff | read_write_inline.h:285-297 | a read depends on its temporary if and only if the link is down and it compares a narrow all-ones register before a 16-bit swap has cleared the upper bytes |
| TransferSplit.UsuallyIndifferent | read_write_inline.h:285-297 | with the link up or with 32-bit registers a read never depends on its temporary |
| TransferSplit.StaleDataWritten | read_write_inline.h:355-359 | a simple write without data stores what the temporary held |
| TransferRoundTrip.RoundTrip | read_write_inline.h:253-364 | write, then read back any count: common words come back, both byte counts, device and user bytes outside unchanged |
| TransferRoundTrip.WriteStores | read_write_inline.h:323-364 | a plain write stores the clipped prefix and returns its size |
| TransferRoundTrip.ReadShows | read_write_inline.h:253-303 | a read with the link up shows the clipped prefix and returns its size |
| TransferRoundTrip.SwapReversesReads | read_write_inline.h:296-297 | switching swap on reverses the bytes of every register a program reads and changes no byte count |
| TransferRoundTrip.SetBitsCallIdempotent | pciedev_ioctl_exp.c:265-276 | repeating a SET_BITS call, accepted or not, changes nothing more |
| TransferRoundTrip.SwapBitsCallTwice | pciedev_ioctl_exp.c:278-289 | two SWAP_BITS calls with the same mask restore the device |
| TransferRoundTrip.SetBitsCallsCommute | pciedev_ioctl_exp.c:265-276 | SET_BITS calls with disjoint masks can be exchanged, whatever their temporaries held |
| TransferContainment.WriteContained | read_write_inline.h:339-364 | for every request: the completed registers are aligned and inside end-start, the return is their size, nothing else changes; rejected requests change nothing |
| TransferContainment.ReadContained | read_write_inline.h:268-303 | the same for reads, including the register at which a read stops; -ENOMEM only when the link is down |
| TransferConditions.AcceptedIff | read_write_inline.h:271-275 | a call is accepted exactly when its BAR is mapped and its offset a multiple of the width |
| TransferConditions.CountIs | read_write_inline.h:277-280 | the number of registers in terms of start, end, offset, width and count |
| TransferConditions.LinkDownIff | read_write_inline.h:378-398 | with 32-bit registers the link is down exactly when the scratch BAR is not mapped or its register is all ones |
| TransferConditions.LinkDownExactly | read_write_inline.h:384-397 | for any width: the scratch register is all ones and the upper bytes of the temporary are clear |
| TransferConditions.LostCall | read_write_inline.h:286-294 | a 32-bit read with the link down that gets to an all-ones register returns -ENOMEM |
| VectorMeaning.RequestWrites | pciedev_ioctl_exp.c:330-333 | a write request sets the registers at its offset from the words at its data and mask addresses, by mode, and returns their size |
| VectorMeaning.RequestReads | pciedev_ioctl_exp.c:312-317 | a read request shows the registers at its offset in the words at its data address |
| VectorMeaning.RequestRejected | read_write_inline.h:271-275 | a rejected request changes nothing and contributes -EFAULT |
| VectorMeaning.OtherModesWriteNothing | read_write_inline.h:220-229 | modes above 7 take the write path and write nothing |
| VectorMeaning.RequestContained | pciedev_ioctl_exp.c:311-333 | every request returns width times registers completed, in the device's width when it names none |
| VectorMeaning.OneRequest | pciedev_ioctl_exp.c:300-337 | a vector call with one request is that request |
| VectorMeaning.TakenAt | pciedev_ioctl_exp.c:308-309 | request i is what stands at its place in the table once the earlier ones are carried out |
| VectorMeaning.ReachableIs | pciedev_ioctl_exp.c:308-309 | the call gets as far as the entries of the table can be fetched |
| VectorMeaning.WrapIs | pciedev_ioctl_exp.c:316-333 | the sum is kept in a C int, up to multiples of 2^32 |
| VectorMeaning.MaskedMeaning | pciedev_ioctl_exp.c:265-289 | the bit commands set and toggle the registers at the offset with the words of the request |
| VectorMeaning.MaskedContained | pciedev_ioctl_exp.c:265-289 | a bit command completes whole registers, of the device's width when the request names none, and touches nothing else |
| VectorLaws.VectorIsOneByOne | pciedev_ioctl_exp.c:300-337 | a vector call is its requests one at a time, each fetched from what the earlier ones left |
| VectorLaws.VectorStops | pciedev_ioctl_exp.c:308-309 | it carries out exactly the requests before the first one outside the caller's memory |
| VectorLaws.VectorTotal | pciedev_ioctl_exp.c:316-333 | it returns the sum of the single results, error codes included, in a C int |
| VectorLaws.StaticVector | pciedev_ioctl_exp.c:300-337 | when no request reads into a later entry, the requests standing in memory at the start are the ones carried out, and the sum of their results is returned |
| VectorExample.OverwrittenRequest | pciedev_ioctl_exp.c:308-333 | a table whose first read turns its second request from a read into a write |
| VectorLaws.VectorSplit | pciedev_ioctl_exp.c:300-337 | a call for a table is a call for its front and then for the rest, if the front gets through |
| RequestLayout.RequestRoundTrip | pciedev_io.h:145-154 | the driver reads back every field of a request laid out as the C structure |
| VectorLaws.ReadFrame | read_write_inline.h:283-299 | a read changes no user byte outside its buffer of width times count bytes, and none at all without a buffer |
| Temporaries.MaskedBytes | read_write_inline.h:88-120 | masked writes on widened temporaries have the bytes of the masked write of the register, for every width |
| Temporaries.SwapTotBytes | pciedev_io.h:38 | the width-dependent swap of a temporary on its bytes |
| Temporaries.ScratchTestBytes | read_write_inline.h:266-286 | the all-ones comparison, on bytes, including the upper bytes of the temporary |
| DeviceObject.PcieDevice.ReadWritePrivate | read_write_inline.h:62-233 | one register access through temporaries: new BAR contents and value temporary for every mode and width |
| DeviceObject.PcieDevice.CheckScratch | read_write_inline.h:378-398 | reports the link down exactly when the scratch BAR is unmapped or its word all ones |
| DeviceObject.PcieDevice.ReadRegisters | read_write_inline.h:283-299 | the read loop computes its specification, whichever way it ends |
| DeviceObject.PcieDevice.Read | read_write_inline.h:253-303 | the whole read call computes its specification and leaves the device alone |
| DeviceObject.PcieDevice.WriteRegisters | read_write_inline.h:353-361 | the write loop computes its specification, whichever way it ends |
| DeviceObject.PcieDevice.Write | read_write_inline.h:323-364 | the whole write call computes its specification |
| DeviceObject.PcieDevice.MaskedWrite | pciedev_ioctl_exp.c:265-289 | the bit ioctls: -EFAULT on an unreadable request, otherwise the masked write it describes; a toggle takes no data |
| DeviceObject.PcieDevice.VectorRW | pciedev_ioctl_exp.c:300-337 | the vector loop computes its specification, including the conversion of the request count to int |
| DeviceObject.PcieDevice.SetRegisterSize | pciedev_ioctl_exp.c:344-350 | the stored size is always one of the three widths, 32 bits for an invalid request |
| HotplugTheorems.InvStart | pciedev_ufn.c:102-160 | the table after initialisation satisfies all invariants |
| HotplugTheorems.InvStep | pciedev_ufn.c:220-279 | every step keeps all invariants: open, probe, remove, the two halves of a release and the two halves of a call |
| HotplugTheorems.StaleHandlesRefused | pciedev_remove_exp.c:128-139 | a file that was open on a removed board fails the status test of read, write and ioctl in every later state, whatever the slot holds by then |
| HotplugCalls.CallOutcome | pciedev_rw_exp.c:42-77 | a call past its status test goes to the board it tested, is refused if that was removed, or goes to the board that took its place |
| HotplugCalls.OtherBoardIff | pciedev_rw_exp.c:42-49 | a call reaches a board it did not test if and only if a remove and then a successful probe of its slot, not removed again, lie between test and entry and the new board maps the BAR |
| HotplugCalls.OneBoardPerHandle | pciedev_remove_exp.c:133-139 | all calls of one open file that reach hardware reach the same board, unless a new board overtook one of them |
| HotplugCalls.OvertakenIff | pciedev_ufn.c:259-279 | a release counts as overtaken if and only if its slot was removed between its look at the file and its section |
| HotplugExamples.OvertakenCall | pciedev_rw_exp.c:44-49 | a run in which one open file reaches two boards |
| HotplugExamples.OvertakenRelease | pciedev_ufn.c:259-264 | a run after which no file is open and the null device counts one |
| HotplugExamples.FullTable | pciedev_probe_exp.c:91-98 | a run that binds all ordinary slots, after which the search ends behind the table |
| HotplugTheorems.FileBookkeeping | pciedev_ufn.c:220-279 | in every reachable state: lists hold exactly the open files pointing to a slot, once each; ordinary counter = list length + files ever moved away - overtaken releases; null counter = files pointing to it + all overtaken releases |
| HotplugTheorems.SlotSearch | pciedev_probe_exp.c:91-101 | probe finds the lowest free slot, never the null one, and runs off the table exactly when all ordinary slots are bound |
| HotplugTheorems.SlotTableConsistent | pciedev_probe_exp.c:226-258 | active implies bound, inactive slots map no BAR, the module count is the number of active slots, the address table shows exactly the active boards and is all zeros elsewhere |
| HotplugEffects.OpenEffect | pciedev_ufn.c:236-245 | open counts the file, points it to the slot and puts it at the head of the list |
| HotplugEffects.ReleaseEffect | pciedev_ufn.c:265-272 | release takes one count off the device and the file off its list, and closes the file |
| HotplugEffects.WithoutIs | pciedev_ufn.c:266-272 | the other files stay in their order |
| HotplugEffects.ProbeEffect | pciedev_probe_exp.c:101-369 | field by field: a failed enable leaves only the slot bound, refused regions leave the driver as it was, an accepted board is set up with its BARs, settings, bus and device; the result is the kernel's code |
| HotplugEffects.RefusedRegions | pciedev_probe_exp.c:105-111 | in a run, refused regions change nothing and the next search finds the same slot |
| HotplugEffects.RemoveEffect | pciedev_remove_exp.c:95-139 | field by field: slot free, mapped BARs cleared, table entry zero, listed files at the null device, which counts them |
| HotplugEffects.LostIff | pciedev_probe_exp.c:101-111 | in every reachable state a slot is bound without a board if and only if a board that could not be enabled was probed into it |
| HotplugCalls.FileHistory | pciedev_ufn.c:236-237 | from open to release a file points to its slot, or to the null device once the slot was removed |
| HotplugCalls.ClosedForEver | pciedev_ufn.c:252-279 | a released file is closed for good |
| HotplugTheorems.LeakedForEver | pciedev_probe_exp.c:101-104 | a slot bound by a failed enable stays bound and inactive in all later states |
| HotplugSteps.FilesMoveAll | pciedev_remove_exp.c:133-139 | moving every listed file keeps the file invariant, the null device gaining one count per file |
| HotplugObject.SlotTable.constructor | pciedev_ufn.c:102-160 | the initialisation loop: all slots free but the null device |
| HotplugObject.SlotTable.Open | pciedev_ufn.c:220-249 | counter, private data and list of the opened slot |
| HotplugObject.SlotTable.Release | pciedev_ufn.c:262-279 | the released file leaves the list and the counter of the device that was read before the lock |
| HotplugObject.SlotTable.FindFree | pciedev_probe_exp.c:91-94 | the search loop |
| HotplugObject.SlotTable.Probe | pciedev_probe_exp.c:91-369 | slot with its settings, address table, module count and result for success and for both failures |
| HotplugObject.SlotTable.Remove | pciedev_remove_exp.c:95-139 | table entry and mapped BARs cleared, slot released, every listed file moved to the null device |
| HotplugObject.SlotTable.Enter | pciedev_rw_exp.c:44-47 | the status test of read, write and ioctl and its error codes |
| RecordWalk.WalkEndsIff | pciedev_ufn.c:707-712 | a walk inside BAR 0 ends if and only if it visits no record twice |
| RecordWalk.EndsDistinct | pciedev_ufn.c:707-712 | a chain that ends visits pairwise distinct offsets |
| RecordWalk.RestartEndsIff | pciedev_ufn.c:714-724 | the rounds on one of BARs 1 to 5 end if and only if offset 0 holds no record with a next offset; otherwise each round adds the record again |
| RecordWalk.LoopingBarNeverEnds | pciedev_ufn.c:719-723 | BAR contents on which the rounds never end |
| RecordWalk.ChainList | pciedev_ufn.c:749-825 | entry i of the list is the record at offset n - 1 - i of the chain, word by word; modules carry the number n - i; each offset is the next word of the record before |
| RecordWalk.ChainIrq | pciedev_ufn.c:776-779 | a bit of the interrupt mask was set before or is set in the word at +0x24 of some module of the chain |
| RecordWalk.ProjectIrq | pciedev_ufn.c:654-692 | a project walk leaves the interrupt mask alone |
| RecordWalk.HeadsAre | pciedev_ufn.c:857-866 | the walk over BARs 1 to 5 lists the record of each BAR that has one, modules numbered in that order |
| RecordWalk.HeadsCounted | pciedev_ufn.c:857-868 | as many records as BARs with a record at offset 0 |
| RecordWalk.MagicBytes | pciedev_ufn.c:661-745 | the bytes that make a project and a module |
| RecordWalk.LoadBytes | pciedev_ufn.c:661-745 | a word has the byte at the lowest address in its lowest bits |
| RecordWalk.NamePartIs | pciedev_ufn.c:798-813 | place i of a name word holds bits 31 - 8i to 24 - 8i, or zero from the first blank or zero on |
| RecordWalk.StoreName | pciedev_ufn.c:798-813 | the characters of a name word up to the first blank or zero |
| RecordWalk.DeviceInfo.Fill | pciedev_ufn.c:654-692 | a matching record is counted, prepended and its interrupt id added, and a project clears the start of the next walk; anything else ends the walk |
| RecordWalk.DeviceInfo.WalkChain | pciedev_ufn.c:835-855 | prepends exactly the chain reversed, counts it, numbers modules 1 to n, and ORs every interrupt id into the mask |
| RecordWalk.DeviceInfo.WalkBars | pciedev_ufn.c:714-726 | one record per mapped BAR with a matching record at offset 0 |
| RecordWalk.DeviceInfo.GetInfo | pciedev_ufn.c:696-729 | the walk over BAR 0 or over the others, by the stored start; after a project was found the next walk takes the other path |

## Left out

- The default mutex build of the lock, `KillPidWithInfo` and real signal delivery; a signal is one event of the model.
- Time is an unbounded counter, so jiffies do not wrap; a `down_timeout` may expire at any moment, which allows more runs than a real clock.
- The two read and write error exits without Leave (pciedev_rw_exp.c:67, pciedev_rw_exp.c:113) and the unbalanced PCIEDEV_SINGLE_IOC_ACCESS (pciedev_ioctl_exp.c:352-373): these callers break the discipline that mutual exclusion is stated for.
- Memory barriers and side effects of hardware reads; registers are plain memory, and the link does not change state during one call.
- Temporaries.ScratchTestBytes: an all-ones 8- or 16-bit register is recognised only if the upper bytes of the temporary are clear, as in the source; `ReadMeaning` claims only the direction that needs all low bits set.
- TransferSplit.ReadSplit: the scratch temporaries of the two calls are taken to give the same link state, as they do on a device with 32-bit registers.
- DeviceObject.PcieDevice.Read: a size above RW_D32 on a device whose default is narrower would step by the default and access 32 bits; every caller corrects the size first, and this mix is not modelled.
- DeviceObject.PcieDevice.Write: the same sizes are excluded for the same reason.
- A user copy either succeeds or changes nothing; the kernel may copy a part before it fails.
- The loop counters are unbounded; a transfer or vector of more than 2^31 registers or requests is not modelled.
- pread and pwrite position decoding, which decodes the address of the position argument, and the `read`/`write` wrappers around the transfer engine.
- Range checks of BAR and slot numbers given by callers: BAR numbers below 6, a scratch register inside its BAR and physical slots below 15 are preconditions, as the code does not check them.
- Probe and remove are one step each, as under the kernel's own hot-plug lock: a call that enters while a probe is still mapping BARs, and a probe that binds a slot while a remove is still moving its files, are not modelled.
- Open and release are modelled with EnterCritRegion succeeding; when it fails in release the kernel drops the file although its list entry stays.
- Slots and files are indices instead of addresses; kernel allocation failures, device nodes, proc entries, interrupts and DMA masks are left out.
- The walks for projects and for modules are one model with a format parameter.
- The project list is freed at remove and the module list is not (pciedev_remove_exp.c:70-74); the lists are modelled during a walk only.
- Ioctls that copy a single field, mmap and interrupt set-up: straight-line copies or library calls.
