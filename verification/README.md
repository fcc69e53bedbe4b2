# Verified model of the dlos kernel's low-level machinery

dlos is a small teaching operating system for 32-bit x86. This project models the parts
of it that work closest to the machine and proves what they must guarantee:

- **Interrupt entry and exit** (`Machine`, `KernelRuns`, `KernelTheorems`, `KernelDepth`,
  `KernelMasks`, `KernelWitness`, `KernelEntry`): `save`, `sys_call`, `restart`, `restart_reenter` and the hardware
  interrupt stubs. `KernelRuns` is a transition system whose steps are single
  instructions where interrupts are enabled, whole stretches of code where they are
  disabled, and abstract moves of C handlers and processes. `KernelEntry` executes the
  stretches instruction by instruction in a `Processor` object and is proved to perform
  exactly those steps. `KernelTheorems` and `KernelDepth` speak about every run;
  `KernelWitness` constructs runs that show where their conditions are needed.
- **Interrupt masks** (`Pic`, `PicRace`): the two 8259 mask bytes against the set of
  masked lines, and every interleaving of the instructions that change them.
- **Message passing** (`Ipc`, `IpcTable`, `IpcCode`, `IpcPaths`, `IpcReceive`, `IpcWait`,
  `IpcRuns`, `IpcKernel`, `IpcFork`, `Schedule`): `sys_sendrec`, `msg_send`, `msg_receive`,
  `deadlock`, `inform_int` and `schedule` of kernel/proc.c (text in the GBK encoding). `Ipc`
  says what uninterrupted operations do to processes, queues and buffers. In `IpcCode` the
  assignments and assertions are single instructions with interrupts between any two, and
  `IpcPaths`, `IpcReceive` and `IpcWait` give for each piece of code exactly the interrupts
  that make a difference. `IpcRuns` speaks about all runs with interrupts anywhere, and
  `IpcKernel` executes the code on a table whose entries are linked into queues.
- **Paging** (`Paging`, `MemoryMap`, `PageSwitch`): the tables that `SetupPaging` builds
  against a separately defined page walk (Intel SDM volume 3A, section 4.3), the memory
  size they are built for, and `PSwitch`, which writes a second set of tables through the
  first.
- **Loading from the floppy** (`Bytes`, `Records`, `Fat12`, `Fat12Loader`): directory search, 12-bit
  FAT entries, cluster chains, `es:bx` stepping, up to the contents of memory.
- **Kernel image and descriptors** (`ElfFormat`, `ElfLoad`, `KernelMap`, `Descriptor`, `Hex`):
  `InitKernel`, `get_kernel_map`, `init_descriptor` and the LDT loop, and hexadecimal
  printing.

## How to read the interrupt model

A configuration is the processor (registers, stack memory, `k_reenter`, `p_proc_ready`,
`tss.esp0`, mask bytes) plus its history: the live activations, outermost first, and the
context each process was last stopped with; entries of the process table without such a
context are free slots, whose frames processes may write and which a fork turns into
processes. No step of the processor looks at the
history. Stack words are numbers, symbolic instruction addresses or images of the flags.
`int 0x90` can come from a process or from inside a handler, a hardware interrupt between
any two steps when IF is set and the line is not masked.

C handlers are abstract. They may change registers, flags, `p_proc_ready` and the mask
bytes; they write the stack below their return address, at most `budget` bytes deep, and
their own arguments; they touch no saved frame and return with the stack pointer they
were entered with. Theorems over runs assume that no entry finds the stack too full
(`Roomy`). Under two rules for handlers, not to unmask a line in service and not to issue
`int 0x90`, this holds of all runs exactly when the handlers' stack use fits
(`KernelWitness.FitsExactly`). The header files with `NR_TASKS`, `GDT_SIZE`,
`INDEX_LDT_FIRST` and the like are not part of this model: such numbers are parameters.

Where code and comments disagree the model follows the code: the comment above
`GetFATEntry`'s arithmetic has even and odd the wrong way round, and the comment above
`enable_irq` shifts by the line number where the code rotates by it modulo 8.

Facts about the code that its text does not suggest, each proved below:

- A handler that calls `disable_irq` on its own line has no lasting effect: the stub
  enables the line again (`Pic.StubUndoesOwnDisable`).
- The fourth argument of a system call handler is `p_proc_ready` read after `sti`. It names
  the caller as long as handlers that interrupt the call do not reschedule, which the test
  of `k_reenter` in `clock_handler` (kernel/clock.c:24) makes sure of
  (`KernelTheorems.FourthArgument`); without that test every such point could go wrong
  (`KernelWitness.Misnames`).
- With all sixteen lines in use, handlers that use up to 47 bytes of stack each are safe
  and handlers that use 48 are not (`KernelDepth.AllLinesBudget`, `KernelWitness.FitsExactly`).
- A message handed to a process that waits for anyone is lost or marred when that process
  is informed of an interrupt at the wrong moment, and every assertion holds all the same
  (`IpcPaths.HandOverExactly`, `IpcRuns.Spoils`, `IpcRuns.LosingRun`); nothing else can
  disturb the balance of messages (`IpcRuns.ConservationExactly`).
- `deadlock` finds every cycle of senders before it closes (`Ipc.DeadlockExactly`) and
  misses exactly the cycles on which a receiver lies (`Ipc.DeadlockMisses`,
  `Ipc.MissedCycle`); whoever waits for a process on a cycle waits for ever
  (`IpcRuns.FineStuckForever`).
- A receive that has to wait for one process fails an assertion when an interrupt has been
  noted for the receiver; one that waits for an interrupt does so unless interrupts during
  it come in just the right places (`IpcWait.WaitExactly`).
- A send to ANY or INTERRUPT passes the assertions of `sys_sendrec` and then uses an entry
  outside the process table (`IpcKernel.ProcTable.SysSendrec`).
- `do_fork` leaves the table in order exactly when no sender is queued at the parent
  (`IpcFork.ForkCopyExactly`).
- With 16 or more tables `PSwitch` overwrites part of the set it is running on, harmlessly
  for its own writes, and with more than 240 it overwrites the code that called it
  (`PageSwitch.FirstSetIntactExactly`, `PageSwitch.CallerOverwritten`).
- A usable memory range that reaches 4 GB from below is lost, because the loader adds the
  low halves of its base and length only (`MemoryMap.AllMappedExactly`,
  `MemoryMap.WrappedRangeIsLost`, `MemoryMap.LongRangeIsLost`), and so is a kernel section
  that ends there (`KernelMap.CoversExactly`, `KernelMap.WrappedSectionIsLost`).
- The loading loops stop at 0FFFh only; if that value is not met within 4095 lookups it
  never is (`Fat12.EndsExactly`).

## Model

| member | source | states |
|---|---|---|
| KernelTheorems.ResumeRestoresProcess | kernel/kernel.asm:276-353 | In every run, when a process stopped by an interrupt or a system call is next resumed, every register is what it held when it stopped, whatever ran in between; after a system call only eax differs and is what the handler of that very call returned; tss.esp0 again points to its own frame. |
| KernelTheorems.NestedReturnRestores | kernel/kernel.asm:311-353 | The return matching a nested entry restores all registers, stack pointer and flags of the interrupted kernel code, and the whole stack from there up is untouched; only eax differs, only after int 0x90, and then it is what the handler of that very call returned. |
| KernelTheorems.ForkedChildStarts | kernel/main.c:27-31 | A process forked by copying the frame of a stopped parent into a free slot, as do_fork in mm/forkexit.c does, first runs with exactly the registers the parent stopped with, eax as the parent's own call returned it, whatever ran between. |
| KernelTheorems.SystemCallResult | kernel/kernel.asm:315-333 | The store ending a system call, made by a process or inside a handler, writes that call's return value into the eax cell of the frame made at its entry and changes no other word, even if p_proc_ready changed or interrupts nested. |
| KernelTheorems.SystemCallArguments | kernel/kernel.asm:315-325 | When sys_call is about to call, the stack holds the ebx, ecx and edx of its own caller, process or handler, in argument order and eax the call number, whatever interrupted it on the way. |
| KernelTheorems.FourthArgument | kernel/kernel.asm:315-325 | If handlers that interrupt a system call do not make another process ready, the fourth argument names the process that was running at the call, whatever nested in between. |
| KernelTheorems.FourthArgumentExactly | kernel/kernel.asm:315-325 | It names another process exactly when some handler that interrupted the call made one ready and no later one took that back. |
| KernelWitness.Misnames | kernel/kernel.asm:315-325 | From every point of every run where the argument is about to be pushed and a line can be delivered, a handler that makes any process q ready leads to q being pushed. |
| KernelWitness.CallerMisnamed | kernel/kernel.asm:315-325 | A concrete run of ten events after which the argument names a process that did not make the call. |
| KernelTheorems.IrqArgument | kernel/kernel.asm:106-108 | A hardware stub calls its handler with its own line number on the stack. |
| KernelTheorems.HandlersPrepared | kernel/kernel.asm:291-298 | In every run every handler is called in ring 0 with the kernel's segment in ds, es, fs and ss and with interrupts enabled. |
| KernelTheorems.ReenterCountsActivations | kernel/kernel.asm:303-353 | In every run k_reenter is the number of live activations minus one; the stack pointer of ring-0 code between steps is never inside a saved frame; execution is never lost: it stands in a handler that will return to its own stub, or at an instruction that can be executed. |
| KernelTheorems.EntryProtectsOuterStacks | kernel/kernel.asm:303-313 | An entry resets the stack to StackTop exactly when no activation is live; otherwise all stack words from the interrupted stack pointer up, and all other process frames, are kept. |
| KernelTheorems.RunInv | kernel/main.c:27-113 | Starting from kernel_main's call of restart with k_reenter 0, with any entries of the process table free, the invariant of frames, return points and stack layout holds throughout every run, forks included. |
| KernelRuns.StepKeepsInv | kernel/kernel.asm:95-353 | Every step, of whatever kind, keeps that invariant. |
| KernelRuns.StoreKeepsInv | kernel/kernel.asm:328-333 | Storing a return value keeps every other frame and every stack level as the invariant wants it. |
| KernelRuns.LeaveLoads | kernel/kernel.asm:335-353 | Leaving the outermost activation loads the context kept for the process p_proc_ready points to, leaving an inner one the context it interrupted. |
| Machine.FrameRoundTrip | include/sys/sconst.inc:2-25 | Loading a saved frame gives back exactly the context that was saved in it. |
| KernelEntry.Processor.Save | kernel/kernel.asm:276-313 | save, instruction by instruction: the frame pictures the registers, ds, es and fs become ss, edx survives, the stack continues at StackTop or below the frame, control returns to the caller, no other word changes, and IF is 0 at each push into a frame. |
| KernelEntry.Processor.Gate | kernel/protect.c:91-92 | The processor's part of an interrupt through a 386 interrupt gate, with the stack switch from an outer ring only. |
| KernelEntry.Processor.Hwint | kernel/kernel.asm:95-106 | The head of a hardware stub performs exactly the delivery step of the transition system. |
| KernelEntry.Processor.SysCallEntry | kernel/kernel.asm:315-317 | The head of sys_call performs exactly the call step. |
| KernelEntry.Processor.LeaveStub | kernel/kernel.asm:110-117 | cli, unmasking, ret and restart or restart_reenter perform exactly the leaving step. |
| KernelEntry.Processor.RestartReenterCode | kernel/kernel.asm:341-353 | The pops up to iretd load the frame at the stack pointer, with esp and ss only for an outer ring. |
| KernelEntry.InvReady | kernel/kernel.asm:335-339 | In every configuration with the invariant the entry code's assumptions hold. |
| KernelMasks.EntryMasks | kernel/kernel.asm:98-101 | In every run a delivered line was not masked and is masked from then on, no other line is affected, and system calls and the instructions of the stubs mask nothing. |
| KernelMasks.LeaveMasks | kernel/kernel.asm:112-115 | In every run the leaving that matches the delivery of a line unmasks that line and no other, and the one that matches a system call leaves the masks alone. |
| KernelMasks.DeliverableAgain | kernel/kernel.asm:112-117 | After it has been serviced a line can be delivered again as soon as interrupts are enabled. |
| KernelMasks.NestedDeliverableAgain | kernel/kernel.asm:112-117 | After a nested interrupt that is at once. |
| KernelDepth.NestingBounded | kernel/kernel.asm:95-178 | If handlers neither unmask a line in service nor issue int 0x90, then in every run that never fills the stack, however much stack handlers use: live interrupts are distinct and masked, depth is at most one per usable line plus one system call, bookkeeping is at most 28 + 76 bytes per line and at most 1244, and the stack holds no more than that and the handlers' own use. |
| KernelDepth.StackNeverOverflows | kernel/kernel.asm:27-29 | If moreover handlers' use fits, no entry of any run finds the 2048-byte stack too full and the stack pointer stays on it. |
| KernelWitness.FitsExactly | kernel/kernel.asm:27-29 | All runs under the two rules have room for every entry exactly when 28 bytes, 76 per usable line and all handlers' budgets fit into 2048; otherwise a run that overflows is constructed. |
| KernelDepth.StepDisciplined | kernel/kernel.asm:95-178 | Every step keeps: lines in service are masked, distinct and usable, and system calls are outermost. |
| KernelDepth.DepthBound | kernel/kernel.asm:95-178 | Pigeonhole: no more activations than usable lines and one system call. |
| Pic.MaskLineSet | kernel/kernel.asm:98-101 | Setting a line's bit adds exactly that line to the set of masked lines. |
| Pic.UnmaskLineSet | kernel/kernel.asm:112-115 | Clearing it removes exactly that line. |
| Pic.StubUndoesOwnDisable | kernel/kernel.asm:152-178 | A line disabled by a handler stays disabled after the stub exactly when it is not the stub's own. |
| Pic.LineIsBit | kernel/kernel.asm:155-175 | With the slave's byte above the master's, a line is masked exactly if its bit of the 16 is set. |
| Pic.Controller.DisableIrq | lib/kliba.asm:135-164 | Adds the line to the set, returns 1 exactly when the set changed, restores IF. |
| Pic.Controller.EnableIrq | lib/kliba.asm:176-195 | Removes the line from the set, restores IF. |
| Pic.Controller.constructor | kernel/i8259.c:25-26 | Initially every line is masked. |
| PicRace.NoLostUpdate | lib/kliba.asm:135-195 | In every interleaving of the instructions of disable_irq, enable_irq and the stubs, the masked lines are those that the routines that took effect would leave if executed one after the other. |
| PicRace.ExactlyOnce | lib/kliba.asm:135-195 | In every interleaving, every routine that starts and ends takes effect exactly once in between, as the insertion or removal it was started as; disable_irq and enable_irq leave the interrupt flag as it was, stubs leave it set. |
| PicRace.StepIsAtomic | lib/kliba.asm:137-149 | Every single instruction changes the set as one whole routine or not at all, and disable_irq reports a change exactly when its line was not in the set. |
| IpcRuns.ConservationExactly | kernel/proc.c:168-346 | In every run with interrupts between any two instructions and for every pair of processes: no message from the one to the other is lost, repeated, changed or reordered if and only if every hand-over between them to a receiver that waits for anyone is intact, which is a condition on when that receiver is informed. |
| IpcRuns.FineConservation | kernel/proc.c:168-346 | Then what the receiver has got is what was sent, in order, but for at most one message the sender is blocked on, and each message bears its sender's number. |
| IpcPaths.HandOverExactly | kernel/proc.c:180-201 | A message handed over to a process that waits for anyone arrives as sent if and only if the process is not informed between the test of its flag and the clearing of the flag, or first in one of two places; the first assertion fails if and only if it is informed right after the test. |
| IpcRuns.Spoils | kernel/proc.c:180-201 | In every state with such a hand-over, one interrupt at any of five places gives a step that ends well and is not intact. |
| IpcRuns.LosingRun | kernel/proc.c:180-201 | A concrete run of two processes that loses a message. |
| IpcRuns.FineNeverStuck | kernel/proc.c:139-346 | In every run with interrupts anywhere: no cycle of senders, no process waits for a message that is waiting for it or for a noted interrupt, and lists and fields of the table agree. |
| IpcRuns.FineStepSerial | kernel/proc.c:168-430 | Every event that ends well, other than such a hand-over, is the uninterrupted operation followed by interrupts. |
| IpcRuns.FineStuckForever | kernel/proc.c:139-166 | In every run with interrupts anywhere, a process that waits, through senders and receivers, for a process on a cycle never runs again. |
| IpcCode.Bystanders | kernel/proc.c:410-430 | What code does depends on the interrupts for the one process it handles; all others might as well come at its end. |
| IpcWait.WaitExactly | kernel/proc.c:332-343 | Blocking in a receive passes all its assertions if and only if the interrupts for the receiver come in the places listed, and then the result is that of blocking followed by interrupts. |
| IpcReceive.NotedExactly | kernel/proc.c:245-261 | Answering a receive with a noted interrupt passes its assertions if and only if no further one comes between the clearing of the flag and the last assertion. |
| Ipc.Conservation | kernel/proc.c:168-346 | The balance of messages in runs of uninterrupted operations. |
| Ipc.StepConserves | kernel/proc.c:168-346 | Each uninterrupted operation keeps it. |
| Ipc.DeadlockExactly | kernel/proc.c:139-166 | Queueing a sender closes a cycle of senders if and only if its receiver already waits for it through a chain of senders. |
| Ipc.BlockingClosesCycle | kernel/proc.c:168-346 | A process that blocks, sending or receiving, closes a cycle of waiting processes if and only if the one it waits for already waits for it. |
| Ipc.DeadlockMisses | kernel/proc.c:139-166 | Of the cycles that a send would close, deadlock finds exactly those made of senders only. |
| Ipc.CycleHasReceiver | kernel/proc.c:139-166 | On every cycle that can come about lies a receiver. |
| Ipc.StuckForever | kernel/proc.c:139-166 | Whoever waits for a process on a cycle keeps its status throughout every later run. |
| Ipc.MissedCycle | kernel/proc.c:139-166 | A run of two senders and a receiver that closes a cycle unnoticed. |
| Ipc.NoOvertaking | kernel/proc.c:205-217 | While two processes wait in this order to send to a third, no receive from anyone takes the message of the second. |
| Ipc.FirstComeFirstServed | kernel/proc.c:205-217 | A process that begins to wait to send while another is already waiting is not served before it by a receive from anyone. |
| Ipc.ReceiversAnswered | kernel/proc.c:237-346 | Whenever a receive is satisfied, at once or later, the message in its buffer is from the process it asked for, or says that it is an interrupt. |
| IpcRuns.FineAnswered | kernel/proc.c:237-346 | The same with interrupts anywhere, for receives from one process or from the hardware. |
| Ipc.StepGood | kernel/proc.c:168-430 | Every uninterrupted operation keeps: queues hold exactly the blocked senders, once each; no cycles; nobody overlooked; blocked processes' buffers apart. |
| Ipc.NoticeThenReceive | kernel/proc.c:332-343 | A run of two processes after which a receive fails its last assertion. |
| IpcKernel.ProcTable.Deadlock | kernel/proc.c:139-166 | The loop ends and answers whether the destination waits for the source through senders; each process on the cycle it prints has a message. |
| IpcKernel.ProcTable.MsgSend | kernel/proc.c:168-235 | With interrupts anywhere: executes the code chosen on the linked table; it panics or fails an assertion if and only if a cycle would close or the receiver, waiting for anyone, is informed right after the test. |
| IpcKernel.ProcTable.MsgReceive | kernel/proc.c:237-346 | The same for a receive, which takes the oldest message or the one asked for; its assertions, each an instruction, fail exactly as stated for its three pieces of code. |
| IpcKernel.ProcTable.SysSendrec | kernel/proc.c:45-75 | Whenever it returns it has performed a step of those runs; exactly when it returns, panics, or leaves the table. |
| IpcKernel.ProcTable.InformInt | kernel/proc.c:410-430 | Wakes a task that waits for an interrupt or for anyone, writing through its message pointer whatever that is, or notes the interrupt. |
| IpcFork.ForkCopyExactly | kernel/main.c:27-31 | After do_fork's copy (mm/forkexit.c:35) the senders queued at the parent are in two lists; the table is in order if and only if there are none. |
| Schedule.ScheduleNext | kernel/proc.c:19-42 | Chooses the first of the runnable processes with the most ticks; if none has any, every runnable process gets its priority in ticks, nothing else changes, and the first of greatest priority is chosen. |
| Schedule.ReturnsExactly | kernel/proc.c:19-42 | Some round of the loop finds a process if and only if a runnable one has ticks or a positive priority, and then the first or the second does. |
| Paging.Mmu.SetupPaging | boot/loader.asm:650-695 | For every nonzero memory size the walk over the tables is the identity on all addresses below the size rounded up to 4 MB, ring 3 may read and write all of them (section 4.6 of Intel SDM volume 3A), and no memory outside directory and tables changes. |
| Paging.IdentityWalk | boot/loader.asm:662-685 | Over a built set of tables the page walk maps every covered address to itself, with user and write access. |
| Paging.Mmu.Fill | test/pmtest.asm:717-720 | A stosd loop writes exactly its run of entries, also when it writes through active tables. |
| Paging.TableCount | boot/loader.asm:651-659 | The number of tables is the memory size divided by 4 MB, rounded up. |
| MemoryMap.DispMemInfo | boot/loader.asm:612-634 | The memory size is the largest 32-bit end of a usable range. |
| MemoryMap.AllMappedExactly | boot/loader.asm:626-634 | All addresses below 4 GB of all usable 64-bit ranges are mapped exactly when no usable range that starts below 4 GB reaches it or the size exceeds FFC00000h. |
| MemoryMap.WrappedRangeIsLost | boot/loader.asm:628-632 | A concrete memory map for which a usable range that ends at 4 GB stays unmapped. |
| MemoryMap.LongRangeIsLost | boot/loader.asm:628-632 | Another, whose only range has a length of 4 GB and counts as empty. |
| MemoryMap.MapMemory | boot/loader.asm:341-342 | After both steps every address below 4 GB of every usable 64-bit range that does not reach 4 GB from below translates to itself and may be written from ring 3, and memory below 1 MB is unchanged. |
| PageSwitch.PSwitch | test/pmtest.asm:695-742 | For 1 to 1024 tables no store faults and each reaches the cell it names through the first set; with 2 or more the demonstration page then goes to ProcBar, every other mapped address to itself, all with user and write access. |
| PageSwitch.FirstSetMapsSecond | test/pmtest.asm:4-7 | The first set maps every address PSwitch writes to itself, through entries that PSwitch does not write. |
| PageSwitch.SecondSetWalk | test/pmtest.asm:722-735 | The walk over the second set sends the page of LinearAddrDemo to ProcBar and every other mapped address to itself, with user and write access. |
| PageSwitch.FirstSetIntactExactly | test/pmtest.asm:4-7 | The first set survives exactly for up to 15 tables. |
| PageSwitch.PagingDemo | test/pmtest.asm:590-596 | Running SetupPaging and then PSwitch with memory for 2 to 240 tables: what is fetched at LinearAddrDemo is foo before and bar after the switch, and the calling code is the same. |
| PageSwitch.Fetches | test/pmtest.asm:590-596 | The same of any three memories related as the two routines relate them. |
| PageSwitch.CallerOverwritten | test/pmtest.asm:9-12 | With more tables a table entry replaces the caller's first instruction. |
| Fat12.FatEntryUnpacks | boot/loader.asm:282-310 | Reading an entry undoes the 12-bit packing for every table in FAT1 and every index, straddling entries included. |
| Fat12.ChsRoundTrip | boot/loader.asm:250-258 | Cylinder, head and sector computed for a sector number name that sector and are in range. |
| Fat12.ChainDistinct | boot/loader.asm:133-163 | A chain that ends visits no cluster twice. |
| Fat12.EndsExactly | boot/loader.asm:145-148 | The loop ends exactly when a lookup gives 0FFFh, and then within 4095 iterations. |
| Fat12Loader.Loader.GetFATEntry | boot/loader.asm:273-314 | Returns the entry, leaves es and bx, writes only the 1 KB scratch; its two-sector read stays on one track. |
| Fat12Loader.Loader.ReadSector | boot/loader.asm:237-271 | Puts exactly the requested sectors at es:bx and nothing elsewhere; every caller shows that the transfer stays on one track and inside one 64 KB page. |
| Fat12Loader.Loader.SearchRoot | boot/loader.asm:59-109 | Finds the first of the 224 root entries with the name, with di at its start, and fails exactly when there is none. |
| Fat12Loader.EntryRead | boot/loader.asm:109-128 | For every directory entry written as the FAT specification has it, the loader's name comparison, first cluster and size are those of the entry. |
| Fat12.ClusterSector | boot/include/fat12hdr.inc:22-28 | Cluster c is sector c + 31, from the counts in the BIOS parameter block. |
| Fat12.RootStart | boot/include/fat12hdr.inc:22-28 | The root directory starts at sector 19, from the same counts. |
| Fat12Loader.Loader.LoadFile | boot/loader.asm:133-163 | Memory from the load address holds the clusters of the chain in order, across 64 KB segments, and outside it only the FAT scratch changes. |
| Fat12Loader.Loader.LoadKernel | boot/loader.asm:53-164 | End to end: no file, too large, or memory from 70000h equal to the file's clusters, with the loader at 90000h, the space between file and loader, and all other memory but the scratch intact. |
| Fat12Loader.Loader.LoadLoader | boot/boot.asm:45-133 | The boot sector's version: up to 127 sectors arrive at 90100h and nothing behind them changes. |
| Fat12Loader.KernelPlaceOf | boot/loader.asm:153-162 | i executions of the loop's 16-bit additions leave es:bx in 64 KB segment i / 128 at offset 512 (i mod 128). |
| Fat12Loader.Loader.NextAddress | boot/loader.asm:153-162 | The instructions perform one such step, with the carry into es in the loader only. |
| Fat12Loader.LoaderAddress | boot/loader.asm:153-162 | After i steps of the loop es:bx is 70000h + 512 i exactly for i below 1152, where es overflows. |
| Fat12Loader.LoaderNeverCrosses | boot/loader.asm:153-162 | After any number of steps the next sector does not cross a 64 KB boundary. |
| Fat12Loader.BootAddress | boot/boot.asm:107-132 | Without the segment step, es:bx after i steps is in place and inside the segment exactly for the first 127 sectors. |
| ElfLoad.InitKernel | boot/loader.asm:697-719 | Every non-null segment's destination holds its bytes of the file, and all other memory, the file included, is unchanged. |
| ElfLoad.HeaderRead | boot/loader.asm:697-702 | For every ELF header, written field by field, the loader's number and place of program headers are its e_phnum and e_phoff. |
| ElfLoad.SegmentRead | boot/loader.asm:703-713 | For every program header the loader's type, offset, address and size are p_type, p_offset, p_vaddr and p_filesz. |
| ElfLoad.MemCpy | boot/loader.asm:568-600 | Every byte of the destination is the original source byte, or with a destination inside its source the periodic repetition the upward loop makes; nothing else changes. |
| KernelMap.GetKernelMap | lib/klib.c:25-52 | From the bytes of the ELF file, finds the least address and greatest end of the sections to be allocated; the last assertion fails if and only if there is no nonempty extent, and that in get_boot_params if and only if the magic is wrong. |
| KernelMap.HeaderRead | lib/klib.c:29-37 | For every ELF header the magic, e_shnum, e_shoff and e_shentsize are read from where they are. |
| KernelMap.SectionRead | lib/klib.c:38-41 | For every section header so are sh_flags, sh_addr and sh_size. |
| KernelMap.SmallestInterval | lib/klib.c:33-49 | The interval found lies within every interval that holds all those sections. |
| KernelMap.CoversExactly | lib/klib.c:39-46 | It contains every byte of those sections exactly when none of them reaches 4 GB. |
| KernelMap.WrappedSectionIsLost | lib/klib.c:39-46 | Two concrete sections of which the one ending at 4 GB is not covered. |
| KernelMap.SegmentCoversKernel | kernel/main.c:63-73 | INIT's segment descriptor, decoded with 4 KB granularity, covers the kernel's last byte, exceeds it by less than 4096, and loses no limit bit. |
| KernelMap.SegmentHoldsSections | kernel/main.c:63-73 | Every byte of every allocated section that does not wrap is inside INIT's segments. |
| Descriptor.SameLayout | boot/include/pm.inc:161-167 | init_descriptor and the Descriptor macro give the same eight bytes for all arguments. |
| Descriptor.BaseRoundTrip | kernel/protect.c:125-139 | Reading a descriptor's base, as seg2linear does, recovers all 32 bits. |
| Descriptor.LimitRoundTrip | kernel/protect.c:130-139 | The limit field holds the low 20 bits and granularity is attribute bit 15. |
| Descriptor.SdmReads | kernel/protect.c:130-139 | In the eight bytes the processor finds the base, the low 20 bits of the limit and all attribute bits that were asked for. |
| Descriptor.InitLdts | kernel/protect.c:99-109 | After the loop every process's selector names the descriptor of its own LDT, a present LDT descriptor, and all other GDT entries are untouched; the loop's assertion fails exactly when the GDT is too short. |
| Hex.Itoa | lib/klib.c:54-84 | Writes 0x, the digits and a terminator, at most 11 characters, and nothing beyond. |
| Hex.ItoaFaithful | lib/klib.c:54-84 | The digits stand for the number, are characters 0 to 9 and A to F, have no redundant leading zero, and are DispInt's without its leading zeros. |
| Hex.ParseFixesText | lib/klib.c:54-84 | A text of such characters is fixed by its length and the number it stands for. |
| Hex.DispInt | boot/loader.asm:482-507 | Prints the eight digits of the number and an h. |
| Hex.DispAL | boot/loader.asm:440-476 | Prints the two digits of a byte. |

## Left out

- C handlers in the interrupt model are abstract moves with the restrictions above; message passing is modelled on its own.
- The file-system, memory and driver servers are not modelled.
- Message passing: an interrupt is one call of inform_int, not interrupted itself (each task has a line of its own, which is masked meanwhile); messages are copied part by part (source, type, rest), not byte by byte; the conditions that choose among pieces of code are single instructions; buffers of blocked processes are taken to be their own; the assertions inside inform_int and those on `prev` in the search are not stated.
- Exceptions (`exception`, `exception_handler`) and screen output: display only; the exception path ends in `hlt`.
- Spurious interrupts that an 8259 raises for a masked line, the cascade bit of line 2, and the one-instruction delay after `sti`.
- `lldt` in `restart`, and the stack segment limits: segments are taken to be flat.
- 32-bit wrap-around of stack addresses and of `k_reenter`: the stack lies inside the kernel's data and nesting is bounded, so neither wraps.
- Memory sizes of zero and empty memory maps: `loop` would then count down from 2^32; `DispMemInfo`, `SetupPaging` and `Fill` require nonzero counts, and `InitKernel` at least one program header.
- Fat12Loader.Loader.LoadKernel: requires a well-formed chain of the length the directory's size asks for; what the BIOS does with sectors beyond the disk is not modelled, nor are read errors and their retries.
- BSS zeroing: `InitKernel` copies p_filesz bytes and does not look at p_memsz.
- `init_idt_desc`, `Gate`, the process-table loop of `kernel_main` beyond INIT's segments, `alloc_mem` and `lib/string.asm`: simple assignments or duplicates of what is modelled.
- `makelinear`: the linear addresses of the LDTs are a parameter of `InitLdts`.
- A20, mode switching, port timing, `KillMotor`, the hard-disk boot sector read.
