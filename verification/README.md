# A verified model of the microkernel, its terminal and its formatter

This Dafny project models the kernel's scheduler and message passing, the memory primitives below them, the
terminal driver and the user library's formatter, and proves what each of them promises.

* **Scheduler.** The ready queue is a doubly linked list of process records, sorted by weight, with an insertion
  shortcut that trusts the neighbours a process had when it was last dequeued. `Scheduling.Scheduler` is that
  structure on the heap; `ReadyQueue` is the same scheduler on values, with the stale neighbours kept as *hints*.
  Every heap operation is proved equal to its value-level counterpart, for whatever hints the process carries.
* **Message passing.** `Ipc` says on values what each system call and interrupt does: rendezvous send and receive,
  sender lists, the feature table and its waiters, latched interrupts. `KernelMemory.Kernel` does the same on process
  records, `nextSender` chains, the feature and interrupt tables and physical memory, and is proved to refine it.
* **Kernel.** `KernelModel.Step` is one interrupt: registers saved, call or interrupt served, the next process picked,
  the switch made. `KernelMemory.Kernel.Serve` is that interrupt on the records; `KernelRuns`, `IrqDelivery`, `Fifo`,
  `Service`, `LostSenders`, `UnitWeights` and `NoStarvation` prove what holds in whole runs; `Calls` says what every
  system call and interrupt answers and changes, in numbers.
* **Memory primitives.** The copy between address spaces, the allocation bitmaps (searched by double words, marked by
  bytes), and segment descriptors (packing and unpacking, against the layout in section 3.4.5 of the Intel 64 and
  IA-32 Architectures Software Developer's Manual, Volume 3A).
* **Terminal and formatter.** The scrolling screen as a window on an unbounded log, the line editor whose visible line
  must agree with its buffer, and formatted output cut into bounded messages.

Unsigned arithmetic wraps at 2^32 (`Word32`). Processes are assumed to have positive weights whose sum is below 2^32;
the environment is assumed to raise lines 0 to 15 only, to make no system call while the idle task runs, and to name
features whose bit lies within the four slots of the table (`KernelModel.Possible`).

Eight promises turn out to hold only under a condition; each is stated as an equivalence, with inputs that fail it:

* Registering a free feature overwrites the caller's own list of senders. The kernel's invariant survives that, but the
  processes in the list are lost: they wait in no list. A step leaves nobody lost exactly when nobody was and it does
  not register a free feature while senders already wait (`KernelModel.StepCompleteIff`); after any run exactly those
  are lost whose list was overwritten on the way (`LostSenders.RunLoses`), they stay so for ever
  (`LostSenders.LostForEver`), and it takes three calls from boot (`BootRuns.OverwritingHappens`). Only a process that
  supplies a feature already can do this (`LostSenders.OnlySuppliersOverwrite`).
* Leaving tells the senders in the leaver's list (`LostSenders.LeavingIsFinal`), but its features stay registered.
  Exactly those come to wait for a process that has left who send to such a feature, or who were lost to the process
  before it left (`KernelModel.StepAbandons`, `LostSenders.RunAbandons`); they wait for ever
  (`LostSenders.AbandonedForEver`), and four events from boot lead there (`BootRuns.AbandoningHappens`).
* While the queue's tick count is within the queue's weight, a process that joins gets the smaller of what it had left
  and its rounded-up share of that count exactly when the product in that computation stays below 2^32 or what it had
  left does not exceed that share (`JoinShare.ShareIsProportional`, `JoinShare.ShareOverflows`). Joining keeps the count
  within the weight (`JoinShare.JoinKeepsQueueBound`); charging does not, because nothing renews the count
  (`UnitWeights.QuietCounter`), and once it has gone below zero a joining process gets nothing at first and later all
  it had (`JoinShare.ShareBelowZero`).
* A new segment's limit is rounded up after a test of ten bits where a page has twelve. The decoded limit is within a
  page of the request exactly unless the request is in the last page and not a multiple of 1024, and it reaches as far
  as requested exactly when the request is small, a multiple of 4096, or not a multiple of 1024 and below the last page
  (`Descriptors.RequestWithinPage`, `Descriptors.RequestCovered`). Both failures befall requests that pass the check
  of the memory area (`Gdt.CutShort`, `Gdt.CutToNothing`).
* A data area passes the check of sends and receives exactly when its 32-bit sum of start and size is within the
  segment's limit (`Calls.RefusedExactly`), which is where the area ends unless that is past 2^32.
* A segment's area is accepted exactly when it keeps off the region below 1 MB that is not memory, unless it begins below
  that region and reaches past 2^32, when it is always accepted (`Gdt.ValidAreas`).
* A formatted message fits its buffer exactly when no character follows a number whose digits fill it up
  (`Formatter.MessageSizes`); one such format is `Formatter.OverrunHappens`.
* Digit keys write on the terminal's input line but not into its buffer. As long as no backspace leaves the screen, line
  and buffer agree exactly if the line has no digits on it (`LineEditor.RunAgreesIff`). A backspace leaves the screen
  (`Terminal.Screen.Backspace`; its address wraps past the video segment's limit of 4096 bytes, which
  kernel/main.hla:317 sets) exactly when the line has once been as long as the screen and now ends where its
  scrolled-off part ends (`LineEditor.FaultsIff`); one digit key can bring that about (`LineEditor.DigitLeavesScreen`).
  Without digit keys neither ever goes wrong (`LineEditor.RunAgrees`). What the agreement means for the cells of the
  screen, those behind the cursor included, is `LineEditor.Input.LineOnScreen`.

## Layout

`Word32`, `Processes` (records and their table); `ReadyQueue`, `QueueOrder`, `QueueMemory`, `Scheduler` (scheduler on
values, its link surgery, the heap); `Features`, `Ram`, `Ipc`, `IpcInvariant`, `MailMemory` (message passing on values,
what it keeps, its link surgery); `KernelModel`, `KernelRuns`, `Kernel` (steps, runs, the heap); `Calls`, `IrqDelivery`,
`Fifo`, `Rendezvous`, `LostSenders`, `BootRuns`, `Service`, `JoinShare`, `UnitWeights`, `NoStarvation` (theorems);
`Bitmaps`, `Descriptors`, `Gdt`; `Terminal`, `LineEditor`; `Numerals`, `Formatter`. Verify with `dafny verify dfyconfig.toml`.

## Model

| member | source | states |
|---|---|---|
| Scheduling.Scheduler.Enqueue | kernel/utilities_C.c:205-255 | on the linked records, whatever stale links the process carries, both insertion paths lead to exactly the queue, counts and ticks of the value-level enqueue; an enqueued process is left alone |
| Scheduling.Scheduler.Link | kernel/utilities_C.c:214-240 | flags the process and links it in where its stale neighbours put it if they still fit, and otherwise where the walk by weight does |
| Scheduling.Scheduler.SearchPlace | kernel/utilities_C.c:226-231 | the walk stops behind exactly the heavier processes |
| Scheduling.Scheduler.Grant | kernel/utilities_C.c:242-251 | the joining process's ticks and the two queue counters after the wrapping 32-bit computation |
| Scheduling.Scheduler.MacrosAgree | kernel/utilities_C.c:167-202 | the neighbour-validity macros, evaluated on pointers, say what the links say |
| Scheduling.Scheduler.Dequeue | kernel/utilities_C.c:332-364 | removes exactly the process, keeping its links as hints; counters, yielding of the running process and the sole-member case as on values |
| Scheduling.Scheduler.Yield | kernel/utilities_C.c:343-349 | the charge-and-pick loop terminates for every 32-bit tick count, through the wrap at 0, and reaches the value-level result |
| Scheduling.Scheduler.YieldStep | kernel/utilities_C.c:344-348 | each round that picks the same process again brings the explicit measure down |
| Scheduling.Scheduler.ChargeProcess | kernel/utilities_C.c:275-282 | one tick off the running process and off the queue, both wrapping, nothing for the idle task; links and flags unchanged |
| Scheduling.Scheduler.PickNextProc | kernel/utilities_C.c:293-330 | the pick, with the renewal of exhausted ticks, equals the value-level pick; only tick counts change |
| Scheduling.Scheduler.Dispatch | kernel/utilities_C.c:961-964 | charging and picking happen only if no process has been picked while blocking |
| Scheduling.Scheduler.Schedule | kernel/prototype.hhf:176-193 | the picked process becomes the running one and no process is picked any more |
| Scheduling.Scheduler.constructor | kernel/table.hla:76 | an empty queue over unlinked records represents the initial state |
| QueueMemory.NeighboursAgree | kernel/utilities_C.c:179-202 | for any non-self stale links the macros accept them exactly when they name two adjacent queue members, or one end, between which the weight fits |
| QueueMemory.AttachInserts | kernel/utilities_C.c:214-222 | pointing the neighbours at a process makes the list the old one with the process inserted there |
| QueueMemory.DetachRemoves | kernel/utilities_C.c:350-358 | making the neighbours skip a process makes the list the old one without it |
| QueueMemory.JoinMirrors | kernel/utilities_C.c:205-251 | link surgery and tick grant together take a faithful memory to one faithful to the enqueued state |
| QueueMemory.LeaveMirrors | kernel/utilities_C.c:350-360 | unlinking takes a faithful memory to one faithful to the dequeued state, hints included |
| ReadyQueue.EnqueueKeeps | kernel/utilities_C.c:205-255 | after enqueueing, the queue is sorted by descending weight without duplicates, holds exactly the old members and the process, and weighs the sum of its members |
| ReadyQueue.EnqueueOrder | kernel/utilities_C.c:214-240 | taking the newcomer out again gives the old queue: nobody else's order changes |
| ReadyQueue.PositionFits | kernel/utilities_C.c:179-240 | wherever the process is inserted, heavier or equal ones stand before it and lighter or equal ones behind |
| ReadyQueue.DequeueKeeps | kernel/utilities_C.c:332-364 | after dequeueing, exactly the process is gone, the total is lower by its weight, and if it was running with others queued the state ends with the same queued process picked and running |
| ReadyQueue.SoleMember | kernel/utilities_C.c:338-342 | the total weight equals the process's own exactly when it is the only member |
| ReadyQueue.YieldProgress | kernel/utilities_C.c:343-349 | one round from any 32-bit tick count either hands over to a queue member or lowers the measure that mixes the distance to the weight with the renewal at 0 |
| ReadyQueue.Yield | kernel/utilities_C.c:343-349 | the loop ends with another queue member running and picked |
| ReadyQueue.TotalIsWord | kernel/utilities_C.c:250-251 | the queue's weight counter never wraps |
| QueueOrder.ComesBetween | kernel/utilities_C.c:167-222 | a process whose old neighbours stand next to each other comes back between them if its weight fits there |
| QueueOrder.ComesByWeight | kernel/utilities_C.c:224-240 | any other comes in front of the first process that is not heavier |
| QueueOrder.RoundTrip | kernel/utilities_C.c:205-364 | leaving the queue and coming back restores it, order and all |
| QueueOrder.PickMeans | kernel/utilities_C.c:293-330 | which process is picked behind which, and whose ticks are renewed, for all weights |
| QueueOrder.EligibleMeans | kernel/utilities_C.c:284-291 | in integers, the successor is eligible if it has more ticks left or is ahead of the queue's progress by less than a round; being behind does not help, unless the difference wraps far enough |
| JoinShare.ShareIsProportional | kernel/utilities_C.c:242-249 | while the queue's tick count is within the queue's weight, a joining process gets the smaller of what it had left and its weight's share of that count, rounded up, exactly when the product stays within 32 bits or what it had left does not exceed that share |
| JoinShare.ShareBelowZero | kernel/utilities_C.c:242-249 | with the count charged d below zero, a process gets nothing while d times its weight is less than the queue's weight, and then the smaller of a wrapped share and what it had left, which is all of it if that is at most its weight |
| JoinShare.ShareBounded | kernel/utilities_C.c:242-249 | whatever wraps, it gets no more than it had left, and no more than its weight while the queue's count is within the queue's weight |
| JoinShare.JoinKeepsQueueBound | kernel/utilities_C.c:242-251 | joining keeps the queue's remaining ticks within its total weight, wrapping products included |
| JoinShare.ShareOverflows | kernel/utilities_C.c:205-251 | a queue in a valid state, with nothing left of its count, at which a joining process gets all it had left because the product wraps |
| Features.CheckFeature | kernel/utilities_C.c:570-584 | accepts exactly the words with one bit set |
| Features.FeatureIndex | kernel/utilities_C.c:586-594 | finds the slot of the lowest set bit |
| Features.FeatureIsPower | kernel/utilities_C.c:570-584 | one bit set means the power of two of the slot |
| KernelMemory.Kernel.GetSender | kernel/utilities_C.c:459-484 | walking the chain finds the first sender for ANYPROC, else the named one, else none |
| KernelMemory.Kernel.ReceivingFrom | kernel/utilities_C.c:486-502 | true exactly for a process that is receiving from anybody or from this sender |
| KernelMemory.Kernel.UnlinkSender | kernel/utilities_C.c:504-521 | the pointer surgery takes exactly the sender out of its receiver's list and keeps every other list |
| KernelMemory.Kernel.RemoveFromSendersList | kernel/utilities_C.c:504-522 | unlinks the sender, makes it ready and enqueues it |
| KernelMemory.Kernel.AddToSendersList | kernel/utilities_C.c:536-551 | lines the caller up last, raises its flag and dequeues it |
| KernelMemory.Kernel.AddWaitingForFeature | kernel/utilities_C.c:553-568 | lines the caller up last among the slot's waiters, its state bits clear |
| KernelMemory.Kernel.Register | kernel/utilities_C.c:586-606 | the caller becomes supplier and its sender list is the slot's waiter list, whatever it was before |
| KernelMemory.Kernel.ReleaseIrqsTaken | kernel/utilities_C.c:619-627 | exactly the lines below the last that the process owned are free |
| KernelMemory.Kernel.UnblockWaitingSenders | kernel/utilities_C.c:629-638 | every waiting sender leaves the list, learns that the receiver died and is enqueued, in order |
| KernelMemory.Kernel.SetStateFlag | kernel/prototype.h:48-50 | raising a flag of a ready process dequeues it |
| KernelMemory.Kernel.UnsetStateFlag | kernel/prototype.h:42-46 | clearing the flag of a waiting process enqueues it |
| KernelMemory.Kernel.ExchangeData | kernel/utilities_HLA.hla:290-365 | the smaller of the two lengths is copied between the two areas and reported to both sides |
| KernelMemory.Kernel.SyscallExit | kernel/utilities_C.c:640-665 | leaving, as on values: own state, lines, senders and the ready queue |
| KernelMemory.Kernel.SyscallSend | kernel/utilities_C.c:667-689 | sending, as on values: error, rendezvous or waiting |
| KernelMemory.Kernel.SyscallSendByFeature | kernel/utilities_C.c:692-721 | sending to a feature, as on values: error, circular send, supplier, waiting or refusal |
| KernelMemory.Kernel.SyscallReceive | kernel/utilities_C.c:723-756 | receiving, as on values: error, latched interrupts, a waiting sender or waiting |
| KernelMemory.Kernel.SyscallSetFeature | kernel/utilities_C.c:758-772 | registering, as on values |
| KernelMemory.Kernel.SyscallRequestIrq | kernel/utilities_C.c:866-882 | claiming a line, as on values |
| KernelMemory.Kernel.SyscallIsr | kernel/utilities_C.c:897-906 | dispatch on the call number, with the unknown numbers refused |
| KernelMemory.Kernel.NotifyIrq | kernel/utilities_C.c:927-941 | delivery to a receiving owner, latching otherwise |
| KernelMemory.Kernel.DoHardInt | kernel/utilities_C.c:944-966 | the interrupt's outcome and the ready queue with the next process picked |
| KernelMemory.Kernel.Serve | kernel/utilities_C.c:944-966 | one interrupt on the records is one step of the model; the invariant holds afterwards, and nobody is lost exactly when nobody was and no list of senders was overwritten |
| KernelMemory.Kernel.ServeAll | kernel/utilities_C.c:944-966 | a run of interrupts on the records is a run of the model |
| KernelMemory.Kernel.constructor | kernel/table.hla:34-45 | fresh tables and records represent a state that satisfies the invariant and in which nobody is lost |
| KernelMemory.Kernel.Boots | kernel/table.hla:34-76 | with no record in use and an empty queue the records represent a boot state |
| KernelMemory.Kernel.StartProcess | kernel/main.hla:317-331 | on the records, starting a process makes it ready and enqueues it, as on values; the boot state is kept |
| KernelMemory.Kernel.FirstSwitch | kernel/utilities_C.c:293-313 | after the first pick and switch the records represent a state in which interrupts can be served and nobody is lost |
| MailMemory.AppendLists | kernel/utilities_C.c:536-568 | linking a process behind a list changes that list and no other |
| MailMemory.RemoveLists | kernel/utilities_C.c:504-521 | unlinking a process changes its list and no other |
| MailMemory.HandOverLists | kernel/utilities_C.c:600-603 | handing over a chain of waiters changes two heads and no list content |
| IpcInvariant.SendKeeps | kernel/utilities_C.c:667-689 | after sending every process still stands in no list but the one it waits in, at most once, and no rendezvous is missed |
| IpcInvariant.ReceiveKeeps | kernel/utilities_C.c:723-756 | so does receiving |
| IpcInvariant.SendByFeatureKeeps | kernel/utilities_C.c:692-721 | so does sending to a feature |
| IpcInvariant.ExitKeeps | kernel/utilities_C.c:640-665 | so does leaving |
| IpcInvariant.NotifyKeeps | kernel/utilities_C.c:927-941 | so does a device interrupt |
| IpcInvariant.HandOverKeeps | kernel/utilities_C.c:586-606 | so does handing over waiters, even over a list that is not empty |
| IpcInvariant.HandOverLoses | kernel/utilities_C.c:600-603 | which loses exactly the processes of the list it overwrites |
| IpcInvariant.SyscallKeeps | kernel/utilities_C.c:897-906 | every call keeps the invariant |
| IpcInvariant.InterruptLoses | kernel/utilities_C.c:944-966 | after any call or interrupt exactly those wait in no list who did before or whose list a registration overwrote |
| IpcInvariant.OutUntouched | kernel/utilities_C.c:944-966 | no call or interrupt wakes a process that is lost, absent or waits for an absent one, moves it or writes to its registers |
| IpcInvariant.InterruptAbandons | kernel/utilities_C.c:640-721 | after any call or interrupt exactly those wait for a process that has left who did before, who send to its feature, or who were lost to it before it left |
| IpcInvariant.InterruptMoves | kernel/utilities_C.c:944-966 | exactly the processes a call wakes become ready and exactly a blocking caller stops being ready |
| KernelModel.StepKeeps | kernel/utilities_C.c:944-966 | every step keeps the kernel invariant: sorted queue, nobody in a list but his own, no missed rendezvous, queue membership equal to readiness, running process queued or idle |
| KernelModel.StepLoses | kernel/utilities_C.c:944-966 | after a step exactly those are lost who were before or whose list it overwrote |
| KernelModel.StepAbandons | kernel/utilities_C.c:944-966 | the same for a whole step |
| KernelModel.StepCompleteIff | kernel/utilities_C.c:944-966 | a step leaves the lists a partition of the waiting processes exactly when they were one and it overwrites no list |
| Calls.StepAnswers | kernel/utilities_C.c:640-906 | what each system call, by its number, answers and changes, with every error code, and that nothing else changes: leaving (0), registering (1), receiving (2), sending (3), claiming a line (4), device calls, unknown numbers |
| Calls.Registers | kernel/utilities_C.c:758-772 | registering answers -5 for anything but one bit and -11 for a taken slot; else the caller supplies the slot, takes over its waiters and is told 0 |
| Calls.Receives | kernel/utilities_C.c:723-756 | receiving answers -2 for an area that ends too far, else the latched interrupts, else the first acceptable message, else the caller waits |
| Calls.Sends | kernel/utilities_C.c:667-721 | sending answers -5, -3 for the caller's own feature, without a supplier -4 unless edi is 1, which makes the caller wait, and with one -2, the count, or waiting |
| Calls.Claims | kernel/utilities_C.c:866-882 | claiming a line answers -6 for lines 0, 2 and above 15, -7 for another's line; else the line is the caller's and it is told 0 |
| Calls.Exits | kernel/utilities_C.c:619-665 | leaving frees the caller's lines but the last, empties its list and tells its senders -8 |
| Calls.RefusedExactly | kernel/utilities_C.c:449-457 | receives, and sends to another supplier, are refused for their area exactly when the 32-bit sum of start and size is behind the segment's limit |
| Calls.NothingServed | kernel/utilities_C.c:944-960 | the clock and interrupts nobody claimed change nothing but the saved registers |
| Calls.ClaimLasts | kernel/utilities_C.c:866-941 | in every run after a successful claim each interrupt on the line is raised for the claimer, unless it has left |
| Calls.Masks | kernel/utilities_C.c:929 | the bit of each interrupt line |
| KernelModel.SettleKeeps | kernel/prototype.h:42-50 | enqueueing the woken and dequeueing a blocked caller gives exactly the new ready set and leaves a pick possible |
| KernelModel.DispatchKeeps | kernel/utilities_C.c:961-964 | after dispatch a queue member is picked, or the idle task if there is none, and the switch restores the resting state |
| KernelRuns.RunOnePlace | kernel/utilities_C.c:504-772 | in every state of every run each process is ready and queued, or receiving, or in exactly one list at one position, or lost, or does not exist |
| KernelRuns.RunNoMissed | kernel/utilities_C.c:667-756 | in every state of every run a receiver has no latched interrupt, nobody in its list if it accepts anybody, and not the awaited sender otherwise; whoever waits to send it something acceptable has been lost |
| KernelRuns.WorkConserving | kernel/utilities_C.c:293-330 | after every interrupt the idle task is picked exactly when the ready queue is empty, and otherwise a queued process is picked and runs next |
| KernelRuns.BootBegins | kernel/table.hla:34-76 | an empty queue with no process in use is a state to begin with |
| KernelRuns.StartKeeps | kernel/main.hla:317-331 | starting a process puts it into the queue and keeps the boot state |
| KernelRuns.FirstPick | kernel/utilities_C.c:293-313 | the first pick and switch after booting establish the invariant of runs |
| IrqDelivery.LatchedIsPending | kernel/utilities_C.c:927-941 | in every run the latch word of a process is exactly the set of interrupts raised for it while it was not receiving and not yet collected |
| IrqDelivery.DeliveredAtOnce | kernel/utilities_C.c:927-937 | an interrupt for a receiver is in its esi after the step, its eax is 0 and it is ready |
| IrqDelivery.ReceiveCollects | kernel/utilities_C.c:734-740 | the next valid receive returns exactly the pending interrupts and clears them |
| IrqDelivery.StaysLatched | kernel/utilities_C.c:927-941 | a latched interrupt stays latched until its owner's next valid receive |
| Fifo.InterruptOrdered | kernel/utilities_C.c:504-568 | every call keeps every list in the order in which its members blocked, also when waiters are handed to a supplier |
| Fifo.EarliestAccepted | kernel/utilities_C.c:459-484 | the sender found blocked before all others the receive accepts |
| FifoRuns.RunOrdered | kernel/utilities_C.c:504-606 | in every state of every run every list is in blocking order |
| FifoRuns.ServesLongestBlocked | kernel/utilities_C.c:723-756 | after any run a receive completes, of the senders in its list that it accepts, the one that has been blocked longest, counting the time before the supplier registered |
| Service.StepAdvances | kernel/utilities_C.c:459-756 | with every step a waiting sender keeps its place in the receiver's list or moves up, and it moves up with every receive that accepts it, unless it is taken, the receiver leaves or the list is overwritten |
| Service.ServedInTurn | kernel/utilities_C.c:723-756 | in every run, as soon as more receives accept it than senders stand in front of it, a waiting sender has been taken, is ready and told OK, unless the receiver has left or overwritten its list |
| Rendezvous.Confluence | kernel/utilities_C.c:667-756 | send then receive and receive then send end in the same IPC state, the one in which the message has passed |
| Rendezvous.FeatureConfluence | kernel/utilities_C.c:692-756 | the same for a message sent to the supplier of a feature |
| Rendezvous.MetFacts | kernel/utilities_C.c:675-683 | in that state both are ready, the lists are as before, both sides know the same byte count and OK, and for areas that do not clash exactly those bytes have been replaced |
| LostSenders.RunLoses | kernel/utilities_C.c:586-606 | after a run exactly those are lost who were before or whose list one of its events overwrote |
| LostSenders.RunCompleteIff | kernel/utilities_C.c:504-606 | after a run the lists are a partition of the waiting processes exactly if they were one before and no event overwrote a list |
| LostSenders.LostForEver | kernel/utilities_C.c:944-966 | after any further events a lost process is still lost, has never been told anything and is neither ready nor running |
| LostSenders.RunAbandons | kernel/utilities_C.c:640-721 | after a run exactly those wait for a process that has left who did before or whom one of its events abandoned |
| LostSenders.AbandonedForEver | kernel/utilities_C.c:640-721 | they still do after any further events, have not been told anything and are neither ready nor running |
| LostSenders.LeavingIsFinal | kernel/utilities_C.c:619-665 | after a process has left, the senders in its list are ready and told that it died, and whatever happens later it is never ready nor running again |
| LostSenders.OnlySuppliersOverwrite | kernel/utilities_C.c:586-606 | in every run only a process that supplies a feature already can overwrite a list: a first registration loses nobody |
| BootRuns.OverwritingHappens | kernel/utilities_C.c:586-606 | from boot with two processes, three calls lose one of them for ever: a registration, a send to it, a second registration |
| BootRuns.AbandoningHappens | kernel/utilities_C.c:640-721 | from boot with two processes, four events leave one waiting for ever: a registration, a clock tick, the supplier's exit, a send to its feature |
| UnitWeights.RunUnit | kernel/utilities_C.c:242-330 | with unit weights every count is 0 or 1 in every state of every run, and the running process holds 1 |
| UnitWeights.RunCharges | kernel/utilities_C.c:275-282 | after any run, whoever the next step charges holds exactly 1, in the yielding loop, which then takes one round, and before picking |
| UnitWeights.StartOnes | kernel/main.hla:317-331 | processes started at boot with weight and count 1 all keep count 1 |
| UnitWeights.FirstPickUnit | kernel/utilities_C.c:293-313 | after booting that way, the first pick begins such a run |
| UnitWeights.QuietTurns | kernel/utilities_C.c:293-330 | with an unchanging queue the processor moves on by one place per interrupt, cyclically |
| UnitWeights.QuietCounter | kernel/utilities_C.c:275-282 | meanwhile the queue's own tick count falls by one per interrupt, modulo 2^32, whatever the members' renewals |
| UnitWeights.RoundRobin | kernel/utilities_C.c:293-330 | within one round of n picks each process runs exactly at its turn and at no other |
| NoStarvation.StepWaits | kernel/utilities_C.c:205-364 | with unit weights, every interrupt hands the processor to a waiting process or lowers the number of picks it may still have to wait, whoever joins, blocks or leaves meanwhile |
| NoStarvation.NobodyStarves | kernel/utilities_C.c:205-364 | with unit weights and n process records, in every run whoever is ready without running gets the processor within 2n - 2 interrupts |
| Ram.CopyReplaces | kernel/utilities_HLA.hla:337-357 | copying by four, two and one bytes moves exactly the bytes asked for and changes no other, for areas that do not wrap and do not clash |
| Ram.ClashRepeats | kernel/utilities_HLA.hla:337-357 | eight bytes moved up by four come out as the first four twice, since a double word is written before the next is read |
| Ram.CopyBytes | kernel/utilities_HLA.hla:337-357 | the copy loop in place, for any addresses and lengths |
| Bitmaps.DwordBit | kernel/utilities_HLA.hla:118-170 | a bit found by double words is the bit the byte-wise setter numbers the same |
| Bitmaps.GetFreeBit | kernel/utilities_HLA.hla:118-147 | the least free number below the bound, or the bound when there is none, reading only whole double words of the map |
| Bitmaps.MarkedTaken | kernel/utilities_HLA.hla:149-170 | marking takes one number and no other |
| Bitmaps.UnfreeBit | kernel/utilities_HLA.hla:149-170 | the byte-wise setter marks exactly its number in the map |
| Descriptors.BaseRoundTrip | kernel/lowlevel.hla:127-131 | every 32-bit base is read back |
| Descriptors.LimitRoundTrip | kernel/lowlevel.hla:118-177 | every 20-bit limit is read back, in bytes or times the page size |
| Descriptors.BasesAgree | kernel/lowlevel.hla:179-196 | the base as read, as inlined in the copy routine, and as the processor reads it are the same for every descriptor |
| Descriptors.LimitsAgree | kernel/lowlevel.hla:156-177 | the limit as read is the processor's, scaled by its granularity bit |
| Descriptors.SmallRequestExact | kernel/utilities_C.c:1046-1048 | a limit up to 0xfffff is exact |
| Descriptors.RequestWithinPage | kernel/utilities_C.c:1037-1048 | the decoded limit is within a page of the request exactly unless the request is in the last page and no multiple of 1024 |
| Descriptors.RequestCovered | kernel/utilities_C.c:1037-1048 | exactly which requests are fully covered by the segment they get |
| Descriptors.RequestInNumbers | kernel/utilities_C.c:1037-1048 | the same two conditions and the exact small limits, in numbers |
| Descriptors.SegmentAccess | kernel/lowlevel.hla:133-145 | the processor sees a present 32-bit segment with the privilege asked for, executable exactly for code, readable or writable, neither conforming nor growing down |
| Gdt.DescriptorTable.GetLimit | kernel/lowlevel.hla:156-177 | reads the limit of an entry |
| Gdt.DescriptorTable.GetBase | kernel/lowlevel.hla:179-196 | reads the base of an entry |
| Gdt.DescriptorTable.GetFreeIdx | kernel/utilities_HLA.hla:195-203 | the least unused index, or the invalid one when all are in use |
| Gdt.DescriptorTable.WriteSegmentDesc | kernel/lowlevel.hla:98-154 | one entry is written, the table's limit grows to cover it, exactly its index is marked |
| Gdt.DescriptorTable.PlaceSegment | kernel/utilities_C.c:1029-1050 | succeeds exactly if the area is valid and an index is free; then one unused index is marked and holds the rounded segment, else nothing changes |
| Gdt.DescriptorTable.CreateSegments | kernel/utilities_C.c:1029-1163 | succeeds exactly if all areas asked for are valid and more indices are unused than segments asked for; then the indices of all segments and of the task state segment are distinct, were unused, are exactly the newly marked ones, and each holds the segment asked for; on failure the same of those placed so far; all other entries keep their contents |
| Gdt.PlacedSegments | kernel/utilities_C.c:1029-1163 | every segment so placed is seen by the processor with the base, the privilege and the kind asked for |
| Gdt.ValidAreas | kernel/utilities_C.c:982-998 | which areas are accepted, in numbers that do not wrap |
| Gdt.CutShort | kernel/utilities_C.c:1037-1048 | a request with a valid area whose segment does not reach as far as requested |
| Gdt.CutToNothing | kernel/utilities_C.c:1037-1048 | a request with a valid area, nearly 4 GB, whose segment is read back with limit 0 |
| Terminal.NextLine | tty/utilities.hla:107-121 | a line feed writes blanks up to the next line start, a whole line from the first column |
| Terminal.NextStop | tty/utilities.hla:122-149 | a tabulator writes blanks up to the next stop, at least one |
| Terminal.ExtendMeans | tty/utilities.hla:85-157 | what every character does to the log: printable ones from 32 to 126 are appended, a line feed pads to the next line start, a tabulator to the next stop, others do nothing |
| Terminal.PlacesMean | tty/utilities.hla:107-149 | line starts are the multiples of 80, tabulator stops the places whose successor's column is a multiple of 3 |
| Terminal.ScrollsFit | tty/utilities.hla:97-105 | the number of scrolls that the log length alone determines leaves at least 23 and less than 24 lines in the window |
| Terminal.Screen.ScrollScreen | tty/utilities.hla:348-379 | all lines move up by one, the last one is blank, nothing outside the screen changes |
| Terminal.Screen.Cls | tty/main.c:84-92 | whatever was on the screen, a line feed for each line leaves it blank, the cursor at the top |
| Terminal.Screen.PutCharacter | tty/utilities.hla:85-157 | the screen stays a window on the log, which grows by exactly what the character stands for, and stays blank from the cursor on; the padding loops terminate across scrolls |
| Terminal.Screen.PutString | tty/main.c:57-63 | the same for a whole string up to its zero |
| Terminal.TextMeans | tty/main.c:57-63 | a string is what stands before its first zero |
| Terminal.Screen.Backspace | tty/utilities.hla:12-20 | the last cell of the log is erased and overwritten with a blank, except exactly when the cursor stands at the start of the screen |
| LineEditor.StepAgrees | tty/main.c:94-195 | every key and message that does not leave the screen keeps buffer and input line in agreement, up to the digits on it |
| LineEditor.FreshAgrees | tty/main.c:18-19 | the editor starts in agreement |
| LineEditor.Input.constructor | tty/main.c:457-462 | the editor starts on a cleared screen, in agreement |
| LineEditor.Input.LineOnScreen | tty/main.c:137-195 | on the screen itself: without digits on the line, exactly the buffer's echoed characters, or nothing while interrupted, stand from the first column up to the cursor, less what has scrolled off, and all cells behind are blank |
| LineEditor.RunAgreesIff | tty/main.c:94-432 | after any keys and messages of which no backspace leaves the screen, the log of the screen ends with exactly the buffer's echoed characters, or with nothing while interrupted, if and only if no digit key has been pressed on the line |
| LineEditor.RunAgrees | tty/main.c:99-432 | after any keys and messages without digit keys it does, and none of the backspaces leaves the screen |
| LineEditor.FaultsIff | tty/main.c:163-184 | a backspace leaves the screen exactly when the last character was echoed, the line has once been as long as the screen, and its length is that of its scrolled-off part |
| LineEditor.DigitLeavesScreen | tty/main.c:94-184 | 1919 letters, one digit and 1841 backspaces leave the screen |
| LineEditor.EraseRemoves | tty/main.c:163-184 | a backspace removes one echoed character and the last cell of the log, or one whole maximal hidden run |
| LineEditor.NeverFaults | tty/main.c:163-184 | on a line without digits that has never been longer than the buffer, the character a backspace erases is on the screen |
| LineEditor.InterruptionIsUndone | tty/main.c:186-195 | a message leaves the buffer alone and the next key shows the same line again |
| LineEditor.MessageShown | tty/main.c:186-195 | printable text that arrives stands in the log from a line start on when a line was being typed, character by character, blanks up to the next line start behind it, what was there unchanged |
| LineEditor.MessagesHarmless | tty/main.c:99-195 | what has been typed and sent after a run is what the same run without its messages leads to |
| LineEditor.RunDrafts | tty/main.c:94-195 | after any keys and messages the editor holds, shows and has sent what the keys amount to, said by recursion over the keys alone |
| LineEditor.TypedIsSent | tty/main.c:99-151 | any up to 1919 letters typed into an empty line, echo toggles, digits and messages in between, are exactly what enter sends, with a zero behind them; those typed while the echo was on are what the line shows |
| LineEditor.DigitShows | tty/main.c:94-97 | a digit key shows the character of its digit |
| LineEditor.Input.ReadChar | tty/main.c:137-151 | on the arrays, exactly the key's effect on buffer and display; a full buffer ignores it |
| LineEditor.Input.PutHex | tty/main.c:33-55 | the mask loop writes the canonical hexadecimal numeral on the line |
| LineEditor.Input.PutUnsint | tty/main.c:65-82 | the divider loop writes the canonical decimal numeral on the line |
| LineEditor.Input.ReadUnsint | tty/main.c:94-97 | a digit key writes its digit and leaves the buffer alone |
| LineEditor.Input.BackspacePressed | tty/main.c:163-184 | on the arrays and the screen, exactly the erasure, the erased cell blank; it leaves the screen exactly when the last character was echoed and nothing is left before the cursor |
| LineEditor.Input.EnterPressed | tty/main.c:99-111 | on the arrays, exactly the sending; the message is the buffer and its zero |
| LineEditor.Input.ProcessMessage | tty/main.c:186-195 | on the arrays, exactly the interruption by the message up to its first zero |
| LineEditor.Input.RestoreInput | tty/main.c:394-403 | the loop writes again exactly the echoed characters |
| LineEditor.Input.Key | tty/main.c:405-432 | a key first brings back an interrupted line and then takes the editor's step, unless its backspace leaves the screen |
| Numerals.NumeralReadsBack | usrlib/utilities.c:61-137 | every printed numeral reads back as its number |
| Numerals.NumeralCanonical | usrlib/utilities.c:61-137 | no leading zero except for zero itself |
| Numerals.DigitCodes | usrlib/utilities.c:61-137 | the digits are the characters 0 to 9 and A to F |
| Numerals.TextsSpelled | usrlib/utilities.c:61-137 | a decimal, a hexadecimal and a negative number, character by character |
| Numerals.UintToString | usrlib/utilities.c:96-119 | the divider loop prints the canonical decimal numeral, zero bytes behind it |
| Numerals.IntToString | usrlib/utilities.c:121-137 | the signed text, for the least number as well |
| Numerals.HexToString | usrlib/utilities.c:61-94 | the mask loop prints the canonical hexadecimal numeral behind 0x |
| Formatter.TextReadsBack | usrlib/utilities.c:168-177 | every number printed by a directive reads back as its argument, signed for %d |
| Formatter.DirectivesExpand | usrlib/utilities.c:153-177 | a percent sign before u, d or x is replaced by the next argument in unsigned, signed or hexadecimal text, what stands before it is copied |
| Formatter.PercentCopied | usrlib/utilities.c:153-166 | before anything else, or at the end, a percent sign is copied |
| Formatter.Conservation | usrlib/utilities.c:139-202 | the messages put together are exactly the expanded format |
| Formatter.MessageSizes | usrlib/utilities.c:139-202 | every message fits the buffer exactly when no character is copied past its last place, and none is longer by more than one |
| Formatter.OverrunHappens | usrlib/utilities.c:139-202 | a format and argument whose message is one character too long |
| Formatter.PlainTextFits | usrlib/utilities.c:153-166 | text without directives is always cut in time |
| Formatter.SentWhenFull | usrlib/utilities.c:153-192 | a message is sent before the end exactly when it has 1920 characters or the number that follows does not fit |
| Formatter.CopyNumber | usrlib/utilities.c:178-192 | a number is kept whole: it goes into the next message if it does not fit |
| Formatter.CopyCharacter | usrlib/utilities.c:153-166 | a full message is sent only if more follows |
| Formatter.Outf | usrlib/utilities.c:139-202 | the loop sends exactly the messages of the value-level cutting |

## Left out

- Boot: the charge while no process runs yet (`curptr` null) is not modelled; runs start with the idle task or a queued process running and nobody picked.
- Port input and output, interrupt controller and clock set-up, hardware task switching, exceptions and PCI enumeration: device actions. Of the switch only its effect on `curptr` and `nextptr` is kept.
- KernelMemory.Kernel.SyscallIsr: what the port and address calls report (eax and esi) is a parameter of the step; which process may use which port is not modelled.
- KernelMemory.Kernel.SyscallExit: returning the segments and the process number is not modelled, because the routine that clears a bit (kernel/utilities_HLA.hla:187) addresses memory by the byte offset alone.
- KernelModel.StepKeeps: feature bits beyond the four slots of the table are excluded by the environment's assumptions, because the table is then read and written past its end; so is a call by the idle task.
- Gdt.DescriptorTable.CreateSegments: the contents of the task state descriptor's own entry, the rest of the process record and the search for an empty record are not modelled; neither is giving back the indices placed before a failure, for the reason named with SyscallExit.
- Gdt.DescriptorTable.WriteSegmentDesc: reloading the processor's table register is not modelled.
- Fairness for mixed weights: the eligibility test takes part in every proof as the computation it is, but waiting times are bounded for unit weights only, with which the kernel starts its processes.
- Liveness: that a receiver goes on receiving depends on its program, so a waiting sender's turn is counted in receives and not in time; a process record that is used again after its process has left is not modelled.
- Scheduling.Scheduler.Schedule: the back link to the interrupted task and the busy bit of its descriptor, which the hardware task switch needs, are not modelled.
- JoinShare.ShareBelowZero: where the count below zero makes the product wrap as well, only what the process kept bounds its share (`JoinShare.ShareBounded`).
- Terminal.Screen.PutCharacter: the status line below the screen (`tty_putcharacter`) and the cursor ports are not modelled; the attribute stored under the cursor is.
- LineEditor.Step: unhandled keys (they only write to the status line) and the shift count are not modelled; letters arrive already mapped. While something is typed the main loop asks for messages of length 0 (tty/main.c:440-442), for which the byte before the message buffer is cleared and the buffer's old text is shown; messages are taken to have at least one byte here.
- Formatter.Outf: sends are assumed to succeed, and the directives to have their arguments; the buffer is one byte longer than the source's so that the one-too-long message can be described.
- `memcpy` of the user library, the disk driver, the shell and the kernel's own video routines: I/O driven, unfinished, or copies of what is modelled.
