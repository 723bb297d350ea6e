# A verified model of the Pirix kernel core

Pirix is a small microkernel. This project models the parts whose interplay carries it, and proves
what they promise:

- threads, the ready queue and semaphores, all threaded through one `next` field, and synchronous
  messages built from two semaphores per channel;
- i386 paging, where page tables are edited through virtual windows that the tables themselves define;
- the kernel heap, whose free lists live inside the free memory, the frame bitmap and the slot vector;
- the copying of messages between scattered buffers;
- software division for ARM and the in-place tokenizer.

`dafny verify dfyconfig.toml` checks everything. No lemma is assumed.

## How the files fit together

| file | content |
|---|---|
| Scheduling.dfy | the thread queues as values: what each routine does, and the invariant that every thread is in one place |
| Kernel.dfy | thread.c, scheduler.c and semaphore.c on heap objects with the shared `next` pointer, proved to compute the functions of Scheduling |
| Rendezvous.dfy | ipc.c as a machine; a step is one kernel path up to the next `scheduler_switch` |
| Ipc.dfy | the calls of ipc.c on channel and connection objects, proved to take exactly the steps of Rendezvous |
| Runs.dfy | properties of whole runs of that machine |
| History.dfy | the calls of Ipc in any order that the rules allow make runs |
| Session.dfy | one exchange between a client and a server, made of the calls of Ipc only |
| Loose.dfy | the thread and message code on memory of any shape: queues may share threads and run in circles, and any thread may make any call |
| Agreement.dfy | while the rules of the protocol are kept, the paths of Loose are the steps of Rendezvous |
| SecondSend.dfy | what becomes of a sender when another thread sends on the same connection |
| Misuse.dfy | what a reply to a message does that was not received, and a run to a state where the rules can be broken |
| Vector.dfy | vector.c |
| Bits.dfy, Mmu.dfy | facts about 32-bit words; physical memory and the two-level walk (Intel SDM Volume 3A, section 4.3) |
| Contexts.dfy | the shape of all paging contexts: self-maps, shared kernel tables, no frame used twice |
| Edits.dfy, Boot.dfy | what paging.c does to memory, as functions; the boot directory and what `paging_init` makes of it |
| Effects.dfy | what paging_map and paging_create_context leave in memory, and when they succeed |
| Paging.dfy | paging.c; all table accesses are walks through the tables being edited |
| Translations.dfy | what the operations mean for virtual addresses |
| Heap.dfy | kheap.c, runs of it, and a program whose calls are such a run |
| Slabs.dfy | the heap's pages taken from memory_alloc and paging_map_kernel |
| Frames.dfy | memory.c, runs of it, and a program whose calls are such a run |
| Supply.dfy | the frame bitmap does what Paging asks of memory_alloc |
| Messages.dfy | read_message, write_message and the iovec loops of ipc.c |
| Division.dfy | arch/arm/div.c |
| Tokenizer.dfy | strchr and strtok_r of string.c |
| Wrappers.dfy, Sequences.dfy, PowersOfTwo.dfy | Option and Bytes; sequences without repetition; powers of two |

Methods on classes (Kernel, Ipc, Vector, Paging, Heap, Frames, Messages) follow the C code and are proved
against the specification functions and predicates; the lemmas about these carry the properties. In Ipc a
channel's reply table is the list of its slots and the bytes of a message are a parameter; the table object and
the copying are in Vector and Messages.

## Assumptions

Threads and messages:

- A kernel path runs without interruption up to the next `scheduler_switch`. This is how ARM enters system
  calls (kernel/arch/arm/init.S:145-150). The i386 gate is a trap gate (kernel/arch/i386/irq.S:166), so nothing
  is claimed about preemption inside a kernel path there.
- A process listens at most once, because `proc->chan` is overwritten (kernel/ipc.c:80).
- `ipc_send` is called on a connection without another send outstanding, and `ipc_reply` on a received and
  unanswered recvid. Both conditions are exact for the protocol invariant: see `Rendezvous.SendNeedsIdle` and
  `Rendezvous.ReplyNeedsReceived`. Both calls are possible in a state that a run within the rules reaches
  (`Misuse.BusyReached`).
- A second send on a connection takes the reply away from the first sender exactly when that one has none yet, be its
  message queued, stored or received (`SecondSend.SecondSendDisowns`). From then on no reply names it as long as it
  stays in its call (`Loose.NeverNamed`). If its message was stored, it never runs again, whatever calls follow and
  whatever becomes of the queues (`Loose.LostForever`). If its message was still queued, the same holds from the
  moment it has stored it, unless a queue leads to it then (`Loose.StoreLoses`); `SecondSend.QueuedSenderIsLost` is
  such a run. Outside the rules a thread can be in two queues, so the queue lemmas of Scheduling say nothing there;
  Loose works on the pointers.
- An early reply makes a sender return whose message is still to be received (`Misuse.EarlyReply`).
- A new connection's `size` is 0; kernel/ipc.c:116-119 leaves it unset.

Paging:

- paging_init starts on the boot code's directory, while current_context is still 0; its last call sets it.
- The TLB is coherent, and each access to a table is a walk from the directory in use. During
  `paging_init` only the data accesses through low addresses are walks; the kernel's own code and stack go
  on through the TLB while directory entry 768 is replaced.
- `paging_map` is called for user pages (directory entries below 768) whose directory entry is no 4 MB page, with
  access bits below 0x1000 that leave the page-size bit alone.
- `memory_alloc` returns some free frame, and one below 0xc0000000 while there is one; Frames shows that it returns
  the lowest, and Supply that this is what Paging asks for.

Heap: sizes up to 4096, the sizes whose blocks fit a slab (see `Heap.PageHolds`), and frees with a size of the
block's bucket. Memory is seen as words at addresses divisible by 4; blocks begin and end there.

Vector: indices other than `bounds`, since kernel/vector.c:41 and kernel/vector.c:48 let `bounds` itself through.

Messages: segments of the receiver do not overlap each other, kernel buffers are apart from both messages, and
lengths add up to less than 2^32.

## Model

| member | source | states |
|---|---|---|
| Scheduling.OnePlace | kernel/scheduler.c:24-77 | every thread is in exactly one place, the one its state names: on the CPU, once in the ready queue, once in one semaphore queue, or in none of these; the lists hold nobody else |
| Scheduling.ScheduleKeeps | kernel/scheduler.c:60-77 | scheduler_schedule restores the ownership invariant from any point of a kernel path |
| Scheduling.BlockKeeps | kernel/thread.c:32-34 | blocking the current thread for a reply or for good and switching keeps the invariant |
| Scheduling.WaitKeeps | kernel/semaphore.c:13-37 | semaphore_wait keeps the invariant, including count >= 0 and no waiter while count > 0 |
| Scheduling.SignalKeeps | kernel/semaphore.c:39-52 | semaphore_signal keeps it, also when it hands over to the head of the queue |
| Scheduling.UnblockKeeps | kernel/thread.c:36-39 | thread_unblock of a thread waiting for a reply keeps it |
| Scheduling.SpawnKeeps | kernel/thread.c:13-26 | a new, enqueued thread keeps it |
| Scheduling.WorkConservation | kernel/scheduler.c:68-72 | the idle registers are returned exactly when no thread is READY |
| Scheduling.GetsItsTurn | kernel/scheduler.c:24-50 | a thread at position p of the ready queue moves up one place at each scheduler_schedule and gets the CPU at call p + 1 |
| Kernel.Machine.Enqueue | kernel/scheduler.c:24-38 | the pointer code appends the thread to the ready queue; all lists stay null-terminated, acyclic and disjoint |
| Kernel.Machine.Dequeue | kernel/scheduler.c:40-50 | the head is taken off; the tail is null exactly when the queue is empty |
| Kernel.Machine.Schedule | kernel/scheduler.c:60-77 | the preempted thread goes to the tail, the head gets the CPU |
| Kernel.Machine.Block | kernel/thread.c:32-34 | the state is set and the thread leaves the CPU for no list |
| Kernel.Machine.Unblock | kernel/thread.c:36-39 | the thread is READY and at the tail |
| Kernel.Machine.Last | kernel/semaphore.c:28-29 | the walk along `next` ends at the last waiter |
| Kernel.Machine.Append | kernel/semaphore.c:24-31 | the caller is behind all other waiters |
| Kernel.Machine.Wait | kernel/semaphore.c:13-37 | it takes the count, or sleeps at the tail of the queue, and reports which |
| Kernel.Machine.Signal | kernel/semaphore.c:39-52 | it raises the count, or makes the head READY without raising it |
| Kernel.Machine.Spawn | kernel/thread.c:13-26 | the new thread is READY and at the tail |
| Kernel.Machine.NewSemaphore | kernel/semaphore.c:7-11 | a semaphore with this count and no waiters |
| Kernel.Machine.Link | kernel/scheduler.c:24-38 | what scheduler_enqueue_thread writes, on queues of any shape |
| Kernel.Machine.Unlink | kernel/scheduler.c:40-50 | what scheduler_dequeue_thread writes, on queues of any shape |
| Kernel.Machine.Attach | kernel/semaphore.c:24-31 | what semaphore_wait writes when its walk along the queue ends, whatever else the queue shares |
| Kernel.Machine.Detach | kernel/semaphore.c:45-48 | what semaphore_signal writes, on queues of any shape |
| Rendezvous.SendArriveKeeps | kernel/ipc.c:137-147 | the send path up to the wait keeps the protocol invariant |
| Rendezvous.DepositKeeps | kernel/ipc.c:149-156 | storing the message, signalling and blocking keep it; nothing unread is overwritten |
| Rendezvous.RecvArriveKeeps | kernel/ipc.c:165-171 | the receive path up to the wait keeps it |
| Rendezvous.DrainKeeps | kernel/ipc.c:173-179 | draining the channel and returning the token keep it |
| Rendezvous.ReplyKeeps | kernel/ipc.c:182-198 | a reply to a received message keeps it |
| Rendezvous.ReturnKeeps | kernel/ipc.c:158-162 | the end of the send keeps it |
| Rendezvous.ListenKeeps | kernel/ipc.c:75-89 | a new channel starts with the token on the send side |
| Rendezvous.ConnectKeeps | kernel/ipc.c:104-122 | a new connection is idle |
| Rendezvous.ExitKeeps | kernel/process.c:87-92 | the end of a thread in user mode keeps the invariant |
| Rendezvous.TickKeeps | kernel/scheduler.c:60-77 | a timer tick keeps the invariant, whoever is on the CPU |
| Rendezvous.CloneKeeps | kernel/syscall.c:64-73 | a new thread keeps it |
| Rendezvous.SendNeedsIdle | kernel/ipc.c:145-147 | a send keeps the protocol invariant if and only if its connection has no send outstanding, since the owner is set before the wait |
| Rendezvous.ReplyNeedsReceived | kernel/ipc.c:186-195 | a reply keeps the protocol invariant if and only if the message of that slot was received, since the sender fills the slot before any receive |
| Runs.RunGood | kernel/ipc.c:137-198 | every state of every run, for any number of threads, channels and connections, satisfies the protocol, monitor and order invariants |
| Runs.ExactlyOnce | kernel/ipc.c:137-198 | a send that returned had exactly one store, one receive of the first stored bytes, one reply on the recvid that receive returned, and returns that reply's status and the first bytes of its data, each time as many as there is room for |
| Runs.DistinctRecvids | kernel/vector.c:27-38 | recvids of unanswered messages of a channel are distinct |
| Runs.InOrder | kernel/semaphore.c:24-49 | messages of a channel are received in the order in which the sends reached semaphore_wait |
| Runs.OneToken | kernel/ipc.c:83-84 | send count + receive count + tokens handed to senders + tokens handed to receivers is 1; the buffer is full exactly when the token is on the receive side |
| Runs.OneReplySlot | kernel/ipc.c:145-155 | a thread waits for a reply exactly when it owns the connection in one slot of one channel |
| Runs.ThreadOwnership | include/pirix/thread.h:9-15 | in every run each thread is in exactly one place, the one its state names: the CPU, once the ready queue, once one semaphore queue, one reply slot of one channel, or none when it is dead |
| Runs.BoundedWaiting | kernel/scheduler.c:24-77 | in every run a thread at position p gets the CPU at the (p + 1)-th later scheduler_schedule |
| Runs.IdleOnlyWhenStarved | kernel/scheduler.c:68-72 | in every run the CPU idles after a switch exactly when no thread is READY |
| Runs.HeldBuffers | kernel/ipc.c:149-193 | in every run a channel holds a kernel buffer exactly when one connection's message is stored and not received, and it is that message; a connection holds one only between the reply and the return of its send |
| Runs.RepliesAtHome | kernel/ipc.c:137-184 | in every run each process that listened has its own channel as its home, no two processes share one, every reply is by a thread of the process that its channel belongs to, and every send by one of the process that made the connection |
| Agreement.StepIsPath | kernel/ipc.c:75-198 | every step of the message machine within the rules is a path of the pointer code, on memory that shows the state before and after |
| Agreement.RunIsLoose | kernel/ipc.c:75-198 | the same for whole runs, from the empty kernel |
| Loose.StepUnnamed | kernel/ipc.c:137-198 | on memory of any shape and for any call: while a thread is in ipc_send and no slot, and no send under way, has a connection that it owns, that does not change |
| Loose.NeverNamed | kernel/ipc.c:182-195 | so no reply wakes that thread as long as it stays in its call |
| Loose.StepLost | kernel/scheduler.c:24-77 | a thread in STATE_REPLY that no reply names and no queue leads to stays so on every path, also when queues share threads or run in circles |
| Loose.LostForever | kernel/ipc.c:137-198 | it never runs again, whatever calls are made |
| Loose.StoreLoses | kernel/ipc.c:149-156 | a thread that no reply names and that only the CPU leads to is lost when it has stored its message |
| SecondSend.SecondSendDisowns | kernel/ipc.c:145-156 | after a second send on a connection its first sender waits for a reply that will not name it if and only if the first message is queued, stored or received and not answered; it is lost at once if and only if the message is stored or received and not answered |
| SecondSend.BusySendNames | kernel/ipc.c:145-195 | the reply slot of a stored message names the second sender then |
| SecondSend.QueuedSenderLost | kernel/ipc.c:149-156 | a first sender whose message was queued is lost when it has stored it, if the queues are in order |
| SecondSend.QueuedSenderIsLost | kernel/ipc.c:137-180 | from a state that a run within the rules reaches, a second send, a receive, a tick and the store of the first sender lose it |
| Misuse.StepMoves | kernel/ipc.c:137-198 | within the rules, owners change only to the running thread, and only its sends put connections into slots |
| Misuse.StepLeaves | kernel/ipc.c:182-195 | within the rules, a thread leaves STATE_REPLY only by a reply that clears a slot whose connection it owns |
| Misuse.EarlyReply | kernel/ipc.c:182-198 | a reply makes the sender READY and about to return; its message was never received if and only if the reply came before that, and then the message is still in the channel, with a recvid whose slot is null |
| Misuse.EarlyReplyBreaks | kernel/ipc.c:182-198 | the events about a message stop being one life if and only if it is answered before it was received |
| Misuse.BusyReached | kernel/ipc.c:75-156 | a run within the rules reaches a state in which a thread may send on a connection whose message is stored, or on one whose message is queued, and reply to a message that was not received |
| Ipc.System.Send | kernel/ipc.c:137-156 | the code takes the machine's send step, up to its sleep or its wait for the reply |
| Ipc.System.Store | kernel/ipc.c:149-156 | the second half of a send that slept in semaphore_wait |
| Ipc.System.Finish | kernel/ipc.c:158-162 | the last part of ipc_send returns the status and the first bytes of the reply, as many as there is room for |
| Ipc.System.Receive | kernel/ipc.c:165-180 | the code takes the machine's receive step; recvid and bytes are those of the message in the channel, as many as there is room for |
| Ipc.System.Fetch | kernel/ipc.c:173-179 | the second half of a receive that slept |
| Ipc.System.Reply | kernel/ipc.c:182-198 | the code finds the channel of the caller's process and takes the machine's reply step on it |
| Ipc.System.DoListen | kernel/ipc.c:75-89 | the code takes the machine's listen step with new semaphores, and makes the new channel that of the process |
| Ipc.System.DoConnect | kernel/ipc.c:104-122 | the code takes the machine's connect step |
| Ipc.System.DoTick | kernel/scheduler.c:60-77 | a timer tick is scheduler_schedule on the whole system |
| Ipc.System.DoExit | kernel/process.c:87-92 | the code takes the machine's exit step |
| Ipc.System.DoClone | kernel/syscall.c:64-73 | the code takes the machine's clone step |
| History.Start | kernel/ipc.c:75-198 | an empty system is at the start of a run |
| History.Tick | kernel/scheduler.c:60-77 | a timer tick prolongs every run that leads to the state of the system |
| History.Exit | kernel/process.c:87-92 | the end of a thread prolongs every run that leads to the state of the system |
| History.Clone | kernel/syscall.c:64-73 | a new thread prolongs every run that leads to the state of the system |
| History.Listen | kernel/ipc.c:75-89 | ipc_listen of a process that does not listen yet prolongs every run that leads to the state of the system |
| History.Connect | kernel/ipc.c:104-122 | ipc_connect prolongs every run that leads to the state of the system |
| History.Send | kernel/ipc.c:137-156 | ipc_send on a connection of the process without another send outstanding prolongs every run that leads to the state of the system |
| History.Store | kernel/ipc.c:149-156 | the rest of a send that slept prolongs every run that leads to the state of the system |
| History.Receive | kernel/ipc.c:165-180 | ipc_receive prolongs every run that leads to the state of the system |
| History.Fetch | kernel/ipc.c:173-179 | the rest of a receive that slept prolongs every run that leads to the state of the system |
| History.Reply | kernel/ipc.c:182-198 | ipc_reply to a message that was received and not answered prolongs every run that leads to the state of the system |
| History.Finish | kernel/ipc.c:158-162 | the end of ipc_send prolongs every run that leads to the state of the system |
| Session.Exchange | kernel/ipc.c:75-198 | with clone, listen, connect, send, receive and reply in a row the server gets the first bytes of the request and the client the status and the first bytes of the answer, as many as each has room for |
| Vector.Table.constructor | kernel/vector.c:19-25 | all slots null, count 0 |
| Vector.Table.Resize | kernel/vector.c:5-17 | growth moves no entry and appends null slots |
| Vector.Table.Add | kernel/vector.c:27-38 | the value goes to the least null index, after at most one growth; the count stays right for non-null values |
| Vector.Table.Set | kernel/vector.c:40-45 | one slot changes, the count with it; indices beyond the table are ignored |
| Vector.Table.Get | kernel/vector.c:47-50 | the lookup in the map from all naturals, null beyond the table |
| Vector.Table.Clear | kernel/vector.c:56-60 | all slots null, count 0 |
| Vector.AddedIsUpdate | kernel/vector.c:27-38 | seen as a map from all naturals, vector_add changes the least null index and nothing else, whether the table grew or not |
| Vector.NonNullAdded | kernel/vector.c:30-32 | a non-null value adds one to the number of non-null slots |
| Bits.MapSubscript | kernel/arch/i386/paging.c:92 | ptidx + 0x400 * pdidx is the page number |
| Bits.GetphysSubscript | kernel/arch/i386/paging.c:146-147 | (virt >> 12) & (0x3FF + 0x400 * pdidx) is the page number |
| Mmu.DirWindow | kernel/arch/i386/paging.c:11 | page_dir[i] reaches entry i of the directory in use |
| Mmu.TableWindow | kernel/arch/i386/paging.c:12 | page_tables[p] reaches entry p % 1024 of table p / 1024 |
| Contexts.WindowShared | kernel/arch/i386/paging.c:119-121 | the entry of a window page is the same word in all contexts, and page_tables reaches it |
| Contexts.WindowWrite | kernel/arch/i386/paging.c:123-124 | writing it through page_tables keeps self-maps and sharing of all contexts and changes no other window page |
| Contexts.InstallTable | kernel/arch/i386/paging.c:100-105 | putting a fresh table into a user directory entry keeps the shape of all contexts |
| Contexts.Adopt | kernel/arch/i386/paging.c:63-82 | a fresh directory with the three self pointers and the copied kernel half is a context beside the others |
| Boot.Booted | kernel/arch/i386/paging.c:41-58 | after the loop and the last entry the boot directory is a kernel context with a clean window |
| Boot.BootingNext | kernel/arch/i386/paging.c:41-56 | one round adds one table and keeps the tables made before |
| Paging.Kernel.InitTables | kernel/arch/i386/paging.c:41-56 | the loop makes the 255 tables of the kernel half; frames without a role keep their words |
| Paging.Kernel.Init | kernel/arch/i386/paging.c:36-60 | paging_init on the boot directory establishes the shape and makes it the current context; addresses below 0xc0000000 are physical ones, the 4 MB from there are the first 4 MB of memory, and the rest of kernel space is unmapped |
| Paging.Kernel.CreateContext | kernel/arch/i386/paging.c:63-82 | it succeeds exactly with two window pages and two frames free; the new context has an empty user space and the kernel space of the current one, and the other contexts keep all their pages |
| Paging.Kernel.FindWindow | kernel/arch/i386/paging.c:120-123 | the first window page that is not present |
| Paging.Kernel.MapKernel | kernel/arch/i386/paging.c:119-132 | the first free window page is mapped to the frame, in all contexts, and no other page changes; it panics exactly when the window is full |
| Paging.Kernel.UnmapKernel | kernel/arch/i386/paging.c:134-137 | the one word that page_tables reaches is cleared; a window page is then unmapped in all contexts, and no other page changes |
| Paging.Kernel.MapFast | kernel/arch/i386/paging.c:91-95 | the write through page_tables sets the one table entry in physical memory |
| Paging.Kernel.MapSlow | kernel/arch/i386/paging.c:97-116 | mapping, writing and unmapping leave the same memory as the fast path, or a cleared new table with the one entry; it panics exactly without two free window pages or a needed frame |
| Paging.Kernel.Map | kernel/arch/i386/paging.c:84-117 | both paths: the page of the given context, or of the current one for a null argument, is mapped to the frame with the access bits in its entries, and every other page below directory slot 1022 of every context translates as before |
| Paging.Kernel.Activate | kernel/arch/i386/paging.c:139-143 | the context becomes the current one, and a context keeps the machine in order |
| Paging.Kernel.GetPhys | kernel/arch/i386/paging.c:145-152 | the byte at the offset of the address in the frame that the directory and table entries name, or 0; it is where the walk of the current context ends when the directory entry is no 4 MB page |
| Effects.TranslatesIffTable | kernel/arch/i386/paging.c:149-151 | these two entries give the translation, whatever the second one holds, if and only if the first is no 4 MB page, which paging_getphys does not test |
| Effects.MappedAround | kernel/arch/i386/paging.c:97-112 | the window entry of the directory, set before and cleared after, leaves no trace |
| Translations.MapThenTranslate | kernel/arch/i386/paging.c:84-117 | after paging_map the walk of the page gives the frame |
| Translations.MapKeepsOthers | kernel/arch/i386/paging.c:84-117 | every other page below directory slot 1022 translates as before, in every context, also when a table was added |
| Translations.SlowPathIsFastPath | kernel/arch/i386/paging.c:91-116 | the writes of the slow path, with both window entries set before and cleared after, leave the memory of the one write of the fast path |
| Translations.KernelShared | kernel/arch/i386/paging.c:72 | kernel addresses translate alike in all contexts |
| Translations.WindowMapsOne | kernel/arch/i386/paging.c:119-137 | mapping or unmapping a window page changes that page in all contexts and no other page |
| Translations.CreateKeepsOthers | kernel/arch/i386/paging.c:63-82 | a new context changes no translation of the others |
| Translations.NewContextPages | kernel/arch/i386/paging.c:70-76 | a new context has an empty user space and the kernel space of all others |
| Translations.FirstMegabytes | kernel/arch/i386/paging.c:47-52 | 0xc0000000 and up map the first 4 MB of memory, in every context |
| Heap.Kheap.BucketFind | kernel/kheap.c:14-25 | the first bucket that holds the size, or BUCKET_COUNT |
| Heap.Fits | kernel/kheap.c:14-25 | a size up to 4096 gets a bucket whose blocks hold it and are, above 4 bytes, less than twice as large |
| Heap.NoBucket | kernel/kheap.c:39-60 | the guards never hold; a size without a bucket gives BUCKET_COUNT itself, and these are exactly the sizes above 131072 |
| Heap.PageHolds | kernel/kheap.c:27-34 | the one page of a slab holds a block of the chosen bucket if and only if the size is at most 4096 |
| Heap.PageTiled | kernel/kheap.c:27-34 | every byte of a slab page is in exactly one block |
| Heap.BlocksDisjoint | kernel/kheap.c:31-33 | different blocks have no byte in common |
| Heap.BlockAligned | kernel/kheap.c:31-33 | a block is aligned to its size |
| Heap.AlignedIsMultiple | kernel/kheap.c:31-33 | what alignment means: a multiple of the block size |
| Heap.CutKeeps | kernel/kheap.c:27-34 | cutting a new slab puts all its blocks into the free list and touches no other memory |
| Heap.FreeKeeps | kernel/kheap.c:57-66 | a matching free keeps the heap in order |
| Heap.TakeKeeps | kernel/kheap.c:45-46 | taking the head of a free list keeps it in order |
| Heap.AllocKeeps | kernel/kheap.c:36-49 | kmalloc gives a block that fits, is aligned, overlaps no block in use and disturbs none |
| Heap.FreeThenAlloc | kernel/kheap.c:36-66 | kfree and then kmalloc in the same bucket give the same block back, with no change but in its first word |
| Heap.AllocThenFree | kernel/kheap.c:36-66 | kmalloc and then kfree leave the lists and every word as they were once a slab was cut, if one was needed |
| Heap.BlockOfWords | kernel/kheap.c:31-33 | blocks begin at a word and consist of whole words |
| Heap.UseKeeps | kernel/kheap.c:8-12 | owners writing words of their blocks disturb no free list |
| Heap.RunKeeps | kernel/kheap.c:27-66 | over every run of kmalloc, kfree and writes by owners, each block of each slab is in use or once in its free list, and not both |
| Heap.ApplyMeans | kernel/kheap.c:36-66 | in a run, a block that kmalloc gives was not in use and is in use from then on, a freed block is not, and a write changes the one word |
| Heap.WordsStay | kernel/kheap.c:27-66 | over every run a word keeps its value until its owner writes it or frees the block |
| Heap.GivenApart | kernel/kheap.c:36-66 | over every run, two blocks that come into use have no byte in common unless the first is freed in between |
| Heap.WrittenStays | kernel/kheap.c:36-66 | over every run, what an owner wrote is read back until the word is written again or the block freed |
| Heap.Kheap.Kfree | kernel/kheap.c:57-66 | the block becomes the head of its list, its first word the link to the old head, and no other word changes |
| Heap.Kheap.SlabCreate | kernel/kheap.c:27-34 | the loop frees the blocks of the page one after the other |
| Heap.Kheap.Kmalloc | kernel/kheap.c:36-49 | the head of the list, after cutting a slab if there was none: a block that nobody has, apart from all blocks in use |
| Heap.Program.Malloc | kernel/kheap.c:36-49 | kmalloc prolongs the run of operations made so far, and gives a block that was not in use |
| Heap.Program.Free | kernel/kheap.c:57-66 | kfree of a block in use, with a size of its bucket, prolongs that run and ends the use of the block |
| Heap.Program.Write | kernel/kheap.c:8-12 | a store to a word of a block in use prolongs that run and changes this word |
| Slabs.AddressOfPage | kernel/arch/i386/paging.c:120-125 | the address of a window page as a number |
| Slabs.DistinctPages | kernel/arch/i386/paging.c:119-132 | mappings without an unmapping between them give different window pages |
| Slabs.FreeIsNew | kernel/kheap.c:28-29 | a free window page is no page of an earlier slab |
| Slabs.KernelHeap.SlabPage | kernel/kheap.c:28-29 | memory_alloc and paging_map_kernel give a new page for the heap; they panic exactly without a frame or a window page |
| Slabs.KernelHeap.Kmalloc | kernel/kheap.c:36-49 | kmalloc with its pages from there: it takes a block as Heap says, and panics exactly when it needs a page and gets none |
| Slabs.KernelHeap.Map | kernel/arch/i386/paging.c:84-117 | paging_map maps the page of the context it was given and takes no page away from a slab |
| Slabs.KernelHeap.CreateContext | kernel/arch/i386/paging.c:63-82 | nor does paging_create_context |
| Slabs.KernelHeap.Unmap | kernel/arch/i386/paging.c:134-137 | nor does paging_unmap_kernel of another window page |
| Slabs.KernelHeap.WriteSlab | kernel/kheap.c:8-12 | a store to a slab reaches the slab's own frame and no page table |
| Supply.InFreeFrames | kernel/memory.c:13-31 | the set of free frames is the set bits of the bitmap |
| Supply.WithoutFrame | kernel/memory.c:23-25 | clearing a bit takes this frame out of the set and no other |
| Supply.MemoryAlloc | kernel/memory.c:13-31 | memory_alloc on the bitmap gives a free frame, a low one while there is one, and panics exactly without any |
| Frames.Memory.Init | kernel/memory.c:9-11 | exactly the frames from 2048 on are free |
| Frames.Memory.Alloc | kernel/memory.c:13-31 | the lowest free frame, and only its bit is cleared; it panics exactly when no frame is free |
| Frames.Memory.AllocAligned | kernel/memory.c:33-59 | the first run of free frames in one word whose first frame is a multiple of 2^alignment, for alignments up to 30; exactly these frames are free no more; it panics exactly when there is none, as for more than 32 frames |
| Frames.Memory.SearchWord | kernel/memory.c:40-47 | the first such run in one word |
| Frames.SearchStart | kernel/memory.c:40-41 | the start offset is 0 or skips a word in which no frame is divisible |
| Frames.Memory.Free | kernel/memory.c:61-64 | exactly this frame becomes free |
| Frames.FreeRestores | kernel/memory.c:61-64 | freeing undoes memory_alloc |
| Frames.FreeRunRestores | kernel/memory.c:61-64 | freeing all its frames undoes memory_alloc_aligned |
| Frames.RunGood | kernel/memory.c:9-64 | over every run the frames from 2048 on are either free or in use, and no other frame is |
| Frames.HandedOutOnce | kernel/memory.c:9-64 | no frame below 2048 is handed out, and none twice without a free between |
| Frames.Program.Alloc | kernel/memory.c:9-31 | from memory_init on, memory_alloc prolongs the run of calls made so far; the frame was not in use, and there is none only when all frames from 2048 on are in use |
| Frames.Program.AllocAligned | kernel/memory.c:33-59 | memory_alloc_aligned prolongs that run, and none of its frames was in use |
| Frames.Program.Free | kernel/memory.c:61-64 | memory_free of a frame in use prolongs that run and ends its use |
| Messages.Copier.Memcpy | kernel/string.c:3-8 | the bytes are copied, nothing else changes |
| Messages.Copier.IovecSum | kernel/ipc.c:11-17 | the total length as a 32-bit word |
| Messages.Copier.IovecRead | kernel/ipc.c:19-24 | the buffer holds the bytes of the segments, one after the other |
| Messages.Copier.IovecWrite | kernel/ipc.c:26-34 | the buffer is spread over the segments as far as they reach |
| Messages.Copier.ReadMessage | kernel/ipc.c:36-53 | a linear message is copied, and byte k of segment i of a vector message goes behind the bytes of the segments before it, into a new kernel buffer of the message's size |
| Messages.Copier.WriteMessage | kernel/ipc.c:55-73 | the receiver's one piece or its segments, in order, get the bytes of the buffer as far as they reach, and the buffer is freed with its size |
| Messages.ScatteredBytes | kernel/ipc.c:26-34 | after scattering, the segments hold the data first and behind it what they held before |
| Messages.ScatteredElsewhere | kernel/ipc.c:26-34 | memory outside the segments stays |
| Messages.OverlaidBegins | kernel/ipc.c:55-60 | the receiver's bytes are what the message machine says it receives, as many as there is room for, and behind that what they were |
| Messages.Passed | kernel/ipc.c:36-73 | gathering and scattering together: the receiver's bytes begin with the first min(sent, room) bytes of the message, and nothing else changes |
| Messages.Copier.Pass | kernel/ipc.c:149-173 | a message arrives as it was sent: the receiver's pieces hold its bytes in order, as far as there is room, and nothing else changes; the kernel buffer is allocated and freed once |
| Messages.Copier.Answer | kernel/ipc.c:158-193 | the same for replies; the kernel buffers are as before if and only if the reply is not an empty message |
| Messages.ContentByte | kernel/ipc.c:36-53 | byte k of segment i is byte k behind the bytes of the segments before it |
| Messages.HeldByte | kernel/ipc.c:55-73 | byte k of the receiver's segment i is that byte of the message, or what it was before if the message is too short |
| Messages.Copier.Join | kernel/ipc.c:36-73 | two segments sent to one piece of their joint size arrive one behind the other |
| Messages.Copier.Split | kernel/ipc.c:36-73 | one piece sent to two segments of its joint size arrives in both, in order |
| Division.SignIsExact | kernel/arch/arm/div.c:17-19 | the shifted remainder is a word, and the sign bit of d - r - 1 tells whether d <= r, also for divisors of 2^31 and more |
| Division.RoundNext | kernel/arch/arm/div.c:16-22 | a round keeps n = (Q * d + r) * 2^sr + (top bits of q), with r < d |
| Division.Udivsi3 | kernel/arch/arm/div.c:1-26 | floor(n / d), and 0 for d = 0 |
| Division.Umodsi3 | kernel/arch/arm/div.c:41-43 | the remainder, and a for b = 0 |
| Division.Divsi3 | kernel/arch/arm/div.c:28-35 | the quotient truncated toward zero, wrapped to 32 bits, and 0 for b = 0 |
| Division.QuotientFits | kernel/arch/arm/div.c:28-35 | the quotient needs no wrapping if and only if it is not INT_MIN / -1 |
| Division.Modsi3 | kernel/arch/arm/div.c:37-39 | the remainder of the truncated division, also for INT_MIN and -1 |
| Division.RemainderBounds | kernel/arch/arm/div.c:28-39 | a = (a/b)*b + a%b, the remainder is smaller than b and has the sign of a, as section 6.5.5 of ISO/IEC 9899:1999 asks |
| Division.OnlyQuotient | kernel/arch/arm/div.c:28-39 | no other quotient and remainder meet these conditions |
| Tokenizer.Strchr | kernel/string.c:59-65 | the first place of the byte, where NUL is found at the end, or none |
| Tokenizer.SkipDelimiters | kernel/string.c:71-77 | the first byte that is no delimiter, or the end |
| Tokenizer.FindDelimiter | kernel/string.c:82 | the first delimiter, or the end |
| Tokenizer.StrtokR | kernel/string.c:67-93 | the code of one call: token, buffer and save pointer |
| Tokenizer.OneCall | kernel/string.c:67-93 | one call, whatever the delimiters of the calls before: the first maximal run of bytes that are no delimiters, ended by a NUL and with the place behind it saved, or null if there is none |
| Tokenizer.FindsTokens | kernel/string.c:67-93 | repeated calls with the same delimiters find exactly the maximal runs of bytes that are no delimiters, in order, write nothing but NULs behind tokens, and return null from then on, as POSIX.1-2008 asks |

## Left out

- Device drivers, serial and video output, timers, interrupt controllers, boot assembly and multiboot: input, output and hardware set-up.
- Register frames, context-switch assembly and TLB invalidation: a switch is "suspend here, resume later".
- Preemption inside kernel paths, several processors, spinlocks: kernel paths are atomic here, so no lock is ever contended.
- The rest of process.c and syscall.c, kputn, process_sbrk, TLS descriptors: thin wrappers.
- ipc_close, ipc_disconnect and the end of a thread with a send outstanding: outside the protocol that the code keeps up.
- Descriptor tables: a cid stands for its connection and a chanid for its channel, so the lookups that return -1 are not modelled. ipc_send reads `conn->chan` (kernel/ipc.c:141) before it tests `conn` (kernel/ipc.c:143).
- Faults on user message buffers.
- Ipc.System.Send: the sender's bytes are a parameter and the reply table is a list of slots; Messages and Vector show how the code moves and stores them.
- Ipc.System.Store: the bytes are a parameter, and the table is a list of slots.
- Ipc.System.Receive: the receiver's room is a number and the result the bytes that fit, without the write_message and its kfree.
- Ipc.System.Fetch: the bytes that fit are the result, without the write_message and its kfree.
- Ipc.System.Finish: the bytes that fit are the result, without the write_message and its kfree.
- Ipc.System.Reply: the reply's bytes are a parameter, and the table is a list of slots.
- Ipc.System.DoListen: without the process's table of channels, so the chanid is the channel.
- Ipc.System.DoConnect: without the process lookup and the table of descriptors, so the cid is the connection and nothing returns -1.
- Ipc.System.DoClone: without process_add_thread and the set-up of the new thread's registers.
- Loose.Step: what a caller gets back (status, recvid, bytes), and the checks that a connection or channel is the caller's own; so any thread may use any of them. A path that follows a null pointer or walks along a queue without an end goes nowhere.
- Messages.Copier.ReadMessage: kmalloc is an array that the caller hands in, with the allocation kept as bookkeeping.
- Messages.Copier.WriteMessage: kfree is bookkeeping.
- kcalloc and the contents of fresh blocks: a wrapper around kmalloc and memset.
- Heap.Kheap.Kmalloc: sizes above 4096 are not modelled: their blocks would reach beyond the one page of a slab (Heap.PageHolds), and from some size on there is no bucket at all (Heap.NoBucket).
- Heap.Kheap.Kfree: sizes above the largest bucket are not modelled, since kernel/kheap.c:60 lets BUCKET_COUNT through to the word behind the array.
- Heap.Kheap.SlabCreate: the page is a parameter; Slabs.KernelHeap.SlabPage shows where it comes from.
- Slabs.KernelHeap.Kmalloc: sizes up to 4096, as Heap.Kheap.Kmalloc.
- Heap.WordsStay: the same condition on slab pages as Heap.RunKeeps.
- Heap.GivenApart: the same condition.
- Heap.RunKeeps: that a slab's page is new is a condition of each kmalloc in a run; Slabs.FreeIsNew derives it from paging_map_kernel.
- Frames.Memory.AllocAligned: for at least one frame; with none the code would return a frame that stays free.
- Frames.Memory.Alloc: a word of the bitmap is its 32 bits, so the masks are modelled as bits and the wrap of (i*32+j)*0x1000 in a C int is not.
- Division.Udivsi3: words are numbers with explicit wrapping; `|` of a shifted word and one bit is their sum, and `^` and `&` with 0 or -1 are case distinctions.
- Vector.Table.Get: the index `bounds` itself is excluded; the code lets it through to the word behind the array.
- Vector.Table.Set: the index `bounds` is excluded as in Vector.Table.Get.
- Paging.Kernel.MapFast: user pages without a 4 MB page in their directory entry only, since paging_map has no test for such entries and the kernel maps its own pages with paging_map_kernel.
- Paging.Kernel.MapSlow: the same pages as Paging.Kernel.MapFast.
- Paging.Kernel.Map: the same pages as Paging.Kernel.MapFast.
- Paging.Kernel.InitTables: needs 255 free frames below 0xc0000000, as Paging.Kernel.Init.
- Paging.Kernel.Init: needs 255 free frames below 0xc0000000, which is what the code's comment relies on; the page-fault handler is not modelled.
- Paging.Kernel.Load: caching and access rights of pages.
- kernel/arch/arm/paging.c: new page tables are not cleared there (kernel/arch/arm/paging.c:35-38), and physical and virtual context pointers are mixed.
- strcmp, memcmp, strcpy, strncpy, strcat, strncat: they depart from their standard meaning.
- timer.c, irq.c: would only add easy members.
