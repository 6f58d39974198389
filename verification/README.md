# A verified model of the kernel's stateful cores

This project models, in Dafny, the parts of a small x86-64 Unix kernel in which most of its state changes hands: who
sleeps and who runs, what a cached block reads as, what a page is mapped to, which memory is whose, what a socket
delivers, when a callout fires, who may do what to a file, and how the kernel reads its settings. For each part it proves
what the kernel's own comments and documentation promise of it, over every input, every reachable state or every run; and
where the code does not keep a promise, it proves exactly when it does.

Run `dafny verify dfyconfig.toml` to check everything.

## What is modelled

**Sleeping and waking** (`links`, `chains`, `sleep`, `wait_protocol`, `resource_lock`). Links between processes are maps from
node to node; `links` has the lemmas for the three kinds of list the kernel uses and `chains` a table of doubly linked
lists. `Sleep.Kernel` runs the real pointer operations on the run list and the sleep buckets, each section with interrupts off as one
step, and every method equates the processes afterwards with a function of the processes before. `wait_protocol` puts the
arm, look, disarm and commit steps of any number of waiters beside the steps of any number of producers and proves that no
interleaving loses a wakeup, and that arming first is exactly what it takes. `resource_lock` does the same for `lock_resource`
on one CPU: it tests and sleeps in two steps, but between them only a handler can run, since the CPU changes hands only in `sleep`
and on the way back to user mode (kernel/boot64/idt64.c:844-912). While unlocking is left to processes, as it is everywhere in this
kernel, nobody is forgotten; a process could be exactly if a handler unlocked while it locks with interrupts on. In both,
`StartExists` gives every configuration a world to start in.

**Scheduling** (`sched`, `fairness`). The selection loops of `do_sched` over the linked run list, and a turn-taking machine that the
timer tick refines, in which every process gets exactly its priority in ticks between two refills.

**Callouts** (`delta_queue`, `callout`, `alarm_clock`). Relative expiries in a linked list behave like absolute deadlines; over whole runs
each callout fires once, on its tick, in order; and one armed for more ticks than an int holds stops the clock. Runs on the linked
callouts are runs of that clock.

**The buffer cache** (`ropes`, `buffer_state`, `buffer_cache`, `buffer_sync`, `buffer_runs`, `buffer_holding`). One pool, a hash index, and a free and a dirty list per size.
`view` is the plain map from blocks to bytes that the cache stands for: eviction, write-back and `sync_buffers` never change it,
and whole runs answer like it, both when each operation gives its buffer back and, in `buffer_holding`, when processes hold buffers
across each other's calls.

**Virtual memory areas** (`vma`, `vma_calls`, `vma_unmap`, `vma_maps`, `vma_runs`, `region_list`, `address_space`, `vma_faults`). A region list
against what each page is: protection, flags, section, inode and the low 32 bits of its file offset. `RegionList.Regions` keeps the
linked records, and every call is made on those, with the integer widths of the source: addresses of 64 bits, lengths of munmap
and mprotect of 32, the length of `free_vma_region` of 32 with a sign, protections of 8. `RightIffServed` says for each call
exactly when it is right; for ranges shorter than 2 GiB this is that nothing in the range is mapped behind a hole (`ServedShort`).
`RunRefinesPages` is the refinement over runs.

**The small-block allocator** (`buddy_tree`, `buddy_state`, `buddy_steps`, `buddy_low`). A page is a tree of halves, which makes alignment, disjointness and
covering facts about trees; the linked free lists and the block headers are proved to match the trees through every split and join.

**Sockets** (`unix_ring`, `unix_socket`, `backlog`, `listeners`, `listener_runs`, `loopback`). The byte ring of an AF_UNIX endpoint as a bounded FIFO under every interleaving of its
copy steps; the queues of pending connections with their back pointers, and over whole runs of socket calls who is served
in which order and who is connected to whom; the loopback stream over packets, up to its end.

**Access control lists** (`bits`, `acl`, `acl_decide`, `acl_change`, `acl_fold`, `acl_ops`, `acl_modes`). The validator against the grammar, the decision loops against acl(5), and chmod,
compression, inheritance and the folding of a list into a mode against what they do to decisions.

**kernel.conf** (`kconf`, `kconf_print`, `kconf_reader`). The reader as functions on the text still to be read, the cursor loops proved to compute
them, a printer, and the round trip. `prelude` has what several modules use.

## Where the code and its promises part

Each of these has a lemma that gives the exact condition, and one at an input on which the promise fails.

- munmap stops at the first hole, so a range with a mapping behind a hole is not cleared, and a fixed mapping over one
  leaves overlapping regions: `VmaUnmap.UnmapClearsIff` and `VmaFaults.UnmapStopsAtTheHole`; `VmaMaps.MappedOkIff` and
  `VmaRuns.FixedMapCanOverlap`.
- The length of `free_vma_region` is a signed int. A piece of 2 GiB or more that ends at 4 GiB or above is not cut out: a region
  that starts 4 GiB before its end is put in. One that ends below takes the rest of its region with it:
  `VmaUnmap.FreedRightIff`, `VmaUnmap.UnmappedIs`, `VmaFaults.UnmapGrows` and `VmaFaults.UnmapTakesTheRest`. The same happens to the
  record of a mapping that a device refuses: `AddressSpace.RefusedClearIff` and `VmaFaults.RefusedStays`.
- The lengths of munmap and mprotect are unsigned ints, and do_mmap unmaps with one: `VmaRuns.RightIffServed`,
  `VmaFaults.UnmapOfFour`, `VmaFaults.FixedMapOfFourOverlaps` and `VmaFaults.ProtectCutShort`. The conditions `VmaMaps.MapKeeps` and
  `VmaMaps.MapExact` also give the mappings of such lengths that come out right because a region that reaches into the new one is
  cut short when that is inserted, as `VmaFaults.OverlapMended` shows. (All of this is about the region list: the pages themselves are not
  modelled.)
- mprotect on a range inside a region protects up to the end of the region: `VmaCalls.ProtectsExactlyIff` and
  `VmaFaults.ProtectGoesOn`. An empty request at the start of one leaves an empty region behind: `VmaCalls.ProtectedOkIff` and
  `VmaFaults.ProtectNothing`.
- A region that straddles the start of the mmap area makes the search return a place that is taken:
  `AddressSpace.Space.GetUnmapped` and `VmaFaults.SearchFindsATakenPage`.
- A region's file offset is 32 bits wide, while a page fault computes with 64: `VmaRuns.TailOffsetIff` and
  `VmaFaults.CutFileStartsOver`.
- unix_read returns 0 on a connected socket that has bytes when the read offset stands at the end of the ring:
  `UnixRing.StuckReadIff` and `UnixRing.StuckReadHappens`.
- connect on a socket that waits in a backlog already spoils the queues: `Backlog.AppendedProperIff` and
  `Backlog.ConnectTwiceSpoils`. accept of a client that is connected already leaves a peer that it does not name: `Listeners.Sockets.Accept`
  and `Listeners.AcceptedTwice`. When the client then closes, that peer is left with one that is gone, and closing it writes
  through a pointer to freed storage: `ListenerRuns.CloseLeavesNoneIff` and `Listeners.ClosedAfterItsPeer`. While only sockets
  connect that are not connected, this does not happen: `ListenerRuns.NoneStrays`.
- A packet of length zero reads as the end of the stream, and MSG_PEEK takes what it sees: `Loopback.ZeroReadIff` and
  `Loopback.EmptyWriteReadsAsEnd`; `Loopback.PeekKeepsIff` and `Loopback.PeekLosesTheByte`.
- A callout armed for more ticks than an int holds never fires and keeps all others from firing:
  `AlarmClock.ArmedFiresOnTime` and `AlarmClock.LongArmStopsTheClock`.
- kernel/acl.c:336-338 says that a file whose inherited list could not be stored never over-grants. It does for a group that the
  mask lets do more than its own entry: `AclFold.FoldGrantsNoMoreIff` and `AclFold.FoldCanGrantMore`.
- kernel/acl.c:452-458 says that POSIX adds up the permissions of all matching groups. The section "ACCESS CHECK ALGORITHM"
  of acl(5) asks that one of the entries grant the whole request: `AclDecide.AgreesIffOneGroupGrants` and `AclDecide.SumsBeyondAcl5`.

## Model

| member | source | states |
|---|---|---|
| `Sleep.Kernel.Runnable` | kernel/sleep.c:25-42 | The process is at the head of the run list and RUNNING; nothing else changes and the run list stays exactly the RUNNING processes |
| `Sleep.Kernel.NotRunnable` | kernel/sleep.c:44-61 | The process is off the run list and in the given state; the list stays doubly linked and exact |
| `Sleep.Kernel.Sleep` | kernel/sleep.c:63-117 | A process sleeps once registered in the bucket of its channel; a pending signal or being asleep already means it does not; all lists stay exact |
| `Sleep.Kernel.Arm` | kernel/sleep.c:147-180 | The process is registered on the channel, in one bucket only, and keeps running; one that is registered already keeps its registration |
| `Sleep.Kernel.Disarm` | kernel/sleep.c:182-211 | The registration is undone and every other process keeps its own |
| `Sleep.Kernel.Commit` | kernel/sleep.c:213-250 | The process goes to sleep exactly when it is still registered and no signal is pending |
| `Sleep.Kernel.WakeOne` | kernel/sleep.c:267-293 | One registered process loses its registration and its place in the bucket, and is made RUNNING exactly when it was asleep; the link the walk goes on by survives |
| `Sleep.Kernel.Wakeup` | kernel/sleep.c:252-301 | The walk over a changing bucket wakes exactly the processes registered on the channel, all of them, and no others; a reschedule is asked for exactly when somebody woke |
| `Sleep.Kernel.WakeupProc` | kernel/sleep.c:303-342 | Exactly one process is woken, whatever bucket it is in; one that may not be interrupted is left alone |
| `Sleep.Kernel.Execute` | kernel/sleep.c:25-342 | Every run of the calls keeps the run list and the buckets exact, doubly linked and acyclic, keeps every SLEEPING process registered, and changes the processes as the calls in turn say |
| `WaitProtocol.StepInv` | kernel/sleep.c:119-146 | Every step of any waiter or producer keeps: what a registered waiter has looked at and missed has its wake still due |
| `WaitProtocol.ArmedWaitIsNeverStranded` | kernel/sleep.c:119-250 | Over every interleaving of any number of waiters that arm, look in several steps and commit, over and over, and producers that change state and then wake, no waiter sleeps with its condition true and no wake due |
| `WaitProtocol.DueWakeEndsTheSleep` | kernel/sleep.c:252-301 | In every reachable state, a wake that is due finds the sleeper and makes it run |
| `WaitProtocol.PlainWaitCanBeStranded` | kernel/sleep.c:119-146 | Checking first and registering second has a run, for any waiter and producer, that strands the waiter |
| `WaitProtocol.StrandingIffNotArmed` | kernel/sleep.c:119-146 | Arming before the look is exactly what makes every interleaving safe |
| `ResourceLock.MutualExclusion` | kernel/sleep.c:344-373 | In every run the resource is locked exactly while somebody holds it, and by one process only |
| `ResourceLock.NobodyInBetween` | kernel/boot64/idt64.c:844-912 | In every run, between a process's test and its sleep() nothing happens but handlers and its own next step |
| `ResourceLock.NobodyForgotten` | kernel/sleep.c:344-373 | While only processes unlock, no run leaves a process asleep on a resource that the next unlock would not wake it for, whether it locks with interrupts on or off |
| `ResourceLock.UnlockWakes` | kernel/sleep.c:362-373 | In every run, a sleeper has a holder to wait for and runs again as soon as that one unlocks |
| `ResourceLock.HandlerCanForget` | kernel/sleep.c:349-354 | If a handler unlocked for the holder, the window between the test and sleep() would have a run that leaves a process asleep on a free resource |
| `ResourceLock.ForgettingIffHandlerUnlocks` | kernel/sleep.c:344-373 | A process can be forgotten exactly when a handler may unlock while this process locks with interrupts on |
| `Sched.SelectRealTime` | kernel/sched.c:95-104 | The scan ends with the real-time process of highest priority, the larger quantum among equals, or with the idle process when there is none |
| `Sched.SelectOther` | kernel/sched.c:118-124 | The scan ends with the first process of the largest quantum, and that quantum |
| `Sched.Refill` | kernel/sched.c:129-133 | Every RUNNING process gets its priority as quantum and nobody else changes |
| `Sched.Choose` | kernel/sched.c:83-134 | The selection loop terminates: a real-time process wins over all ordinary ones, and otherwise one with the largest quantum is chosen after at most one refill |
| `Sched.DoSched` | kernel/sched.c:75-136 | A current process with quantum left keeps running and nothing changes; otherwise the choice above is made |
| `Sched.Tick` | kernel/timer.c:341-344 | One unit of quantum is used up by any process but idle, and a reschedule is asked for when none is left |
| `Fairness.TimerTick` | kernel/timer.c:341-344 | A tick and the reschedule it asks for are one step of a turn-taking machine over quanta and priorities |
| `Fairness.RoundIsExact` | kernel/sched.c:118-133 | With a fixed set of ordinary processes, each runs exactly its quantum before the next refill |
| `Fairness.RefillToRefill` | kernel/sched.c:118-133 | Between two refills there are as many ticks as the sum of the priorities, and each process runs exactly its priority |
| `Fairness.NobodyStarves` | kernel/sched.c:118-133 | Each process runs within what is left of a round and one more |
| `DeltaQueue.InsertedDeadlines` | kernel/timer.c:125-161 | Inserting by relative expiry is inserting by absolute deadline, behind equal ones; every other deadline stays |
| `DeltaQueue.DeletedDeadlines` | kernel/timer.c:103-123 | Deleting one callout leaves every other deadline as it was |
| `DeltaQueue.CountedDeadlines` | kernel/timer.c:326-337 | A tick leaves every deadline as it was, unless one was overdue |
| `DeltaQueue.FiredDeadlines` | kernel/timer.c:347-369 | Firing the first callout when it is due leaves the other deadlines as they were |
| `CalloutTable.Callouts.constructor` | kernel/timer.c:453-470 | Every slot is in the pool and nothing is pending |
| `CalloutTable.Callouts.Insert` | kernel/timer.c:137-158 | The walk along the linked list puts the callout where its deadline belongs and takes its remainder off its follower |
| `CalloutTable.Callouts.DoDel` | kernel/timer.c:103-123 | The slot goes back to the pool and its follower inherits its expiry |
| `CalloutTable.Callouts.Del` | kernel/timer.c:163-178 | The callout of the request, if there is one, is gone; pool and list still partition the slots |
| `CalloutTable.Callouts.Add` | kernel/timer.c:125-161 | The request is pending exactly once, with the expiry that an int makes of the ticks; it is refused only when every slot is taken by another |
| `CalloutTable.Callouts.Tick` | kernel/timer.c:326-337 | The first expiry counts down, and the bottom half is asked for when it reaches zero |
| `CalloutTable.Callouts.Fire` | kernel/timer.c:347-369 | The first callout is taken off exactly when it is due, and its slot goes to the pool |
| `AlarmClock.FiresAtItsDeadline` | kernel/timer.c:326-369 | In every run, a pending callout that nobody touches fires once, exactly on its deadline |
| `AlarmClock.ArmedFiresOnTime` | kernel/timer.c:125-161 | Armed for t ticks it fires on the t-th tick, neither sooner nor later |
| `AlarmClock.ArmedBehindEquals` | kernel/timer.c:137-158 | A new callout is behind all that are due no later and ahead of all others |
| `AlarmClock.FiresInOrder` | kernel/timer.c:347-369 | Callouts fire in the order of the queue: deadline order, equal ones as they were armed |
| `AlarmClock.LongArmStopsTheClock` | kernel/timer.c:125-161 | A callout armed for more ticks than an int holds never fires, and until it is deleted no run of ticks and bottom halves fires anything |
| `AlarmClock.Execute` | kernel/timer.c:84-369 | Any run of arming, deleting, ticks and bottom halves on the linked callouts leaves the queue of a run of the clock, and has fired what that fired |
| `AlarmClock.RunIsAnyway` | kernel/timer.c:326-369 | The runs of the theorems above are such runs |
| `BufferCache.Cache.constructor` | fs/buffer.c:871-878 | No buffers, all lists empty |
| `BufferCache.Cache.InsertOnDirtyList` | fs/buffer.c:138-163 | A dirty buffer is at the end of the list of its size unless it is on it already; the counters match |
| `BufferCache.Cache.RemoveFromDirtyList` | fs/buffer.c:165-195 | Exactly this buffer leaves the list; the counters match |
| `BufferCache.Cache.InsertOnFreeList` | fs/buffer.c:197-243 | An unlocked buffer is on its free list, at the front when it holds nothing and else at the end; all other places are kept |
| `BufferCache.Cache.Lock` | fs/buffer.c:359-375 | A free buffer leaves its free list as it is locked; nothing else changes |
| `BufferCache.Cache.Requeue` | fs/buffer.c:378-406 | A dirty buffer goes from its place to the end of its dirty list |
| `BufferCache.Cache.AddToPool` | fs/buffer.c:44-62 | A new buffer, held, invalid, clean and in no bucket; every other buffer is as it was |
| `BufferCache.Cache.RemoveFromHash` | fs/buffer.c:113-136 | The buffer is in no bucket and nobody else has moved |
| `BufferCache.Cache.WriteBack` | fs/buffer.c:408-428 | The block on disk is the buffer's contents, the buffer is clean and off its list, and what reads return is unchanged |
| `BufferCache.Cache.CreateBuffers` | fs/buffer.c:291-329 | As many new buffers of one size as fit a page and the structures allow, all free but one that is held; none exactly when there is no memory |
| `BufferCache.Cache.GetFreeBuffer` | fs/buffer.c:331-376 | A held buffer, new or the head of the free list of its size, no held buffer touched; NULL only when that list is empty, every buffer of the size is held and there is no memory |
| `BufferCache.Cache.Search` | fs/buffer.c:442-458 | The one buffer of the block, or NULL exactly when no buffer in the index has it |
| `BufferCache.Cache.Rebind` | fs/buffer.c:488-498 | The buffer moves to the bucket of its new block, is not valid, and no block reads differently |
| `BufferCache.Cache.Getblk` | fs/buffer.c:460-502 | Terminates with the one held buffer of the block; buffers written back or reused on the way change no block; it waits only for the block's own holder, or when all buffers of the size are held and there is no memory |
| `BufferCache.Cache.Bread` | fs/buffer.c:545-565 | The held buffer has exactly the bytes last written to the block |
| `BufferCache.Cache.Bwrite` | fs/buffer.c:567-571 | The block reads as the new bytes, every other block as before, and the buffer is released dirty |
| `BufferCache.Cache.Brelse` | fs/buffer.c:573-590 | The buffer is free again, at the front or the end of its free list as its flags say, and on exactly the lists its flags say |
| `BufferSync.SyncSize` | fs/buffer.c:600-626 | The walk over the list that it changes ends after one round: nothing of the device is left on it, and the others are there in order, one place on |
| `BufferSync.SyncBuffers` | fs/buffer.c:592-631 | No buffer of the device is dirty, other devices' dirty buffers are as before, and the disk holds what the device's blocks read as; done whenever no dirty buffer is held |
| `BufferRuns.LastWrite` | fs/buffer.c:567-571 | The reference map answers with the last bytes written |
| `BufferRuns.NeverWritten` | fs/buffer.c:545-565 | and with the original bytes where nothing was |
| `BufferRuns.Serve` | fs/buffer.c:545-631 | One read, write or sync answers like the reference map; a sync leaves the disk equal to it; a wait only for a size of which there is no buffer and no memory |
| `BufferHolding.HeldIsStable` | fs/buffer.c:331-631 | Over every run, a block reads the same as long as somebody holds it |
| `BufferHolding.Serve` | fs/buffer.c:545-631 | Each call of bread, getblk, bwrite, brelse and sync, with any buffers held, tells what the plain world does; a block that is held is waited for, and nobody else waits while there is memory |
| `BufferHolding.Execute` | fs/buffer.c:331-631 | Every run of such calls, whatever is held across them, tells and leaves what the plain world does |
| `BufferRuns.Run` | fs/buffer.c:331-631 | Every run of reads, writes and syncs answers like a plain map from blocks to bytes and never waits while there is memory |
| `Vma.TailPages` | mm/mmap.c:219-222 | The tail of a cut region shows the same pages, file offsets included |
| `Vma.InsertedPages` | mm/mmap.c:91-129 | An inserted region shows on its whole range, every other page is unchanged, merged or not |
| `Vma.InsertedOk` | mm/mmap.c:91-129 | The list stays sorted and disjoint exactly when the region runs into nothing behind it |
| `Vma.MergedPages` | mm/mmap.c:180-205 | One region in place of two that may be merged shows the same pages |
| `VmaUnmap.FreedRightIff` | mm/mmap.c:207-245 | What is cut out of a region is what was asked for exactly if it is shorter than 2 GiB, or ends its region below 4 GiB |
| `VmaUnmap.UnmappedIs` | mm/mmap.c:700-735 | For every length of 32 bits: the list after the loop is the old one with pieces cut out up to the first hole, or up to the end of the region of a piece of 2 GiB or more, and with one region put in where such a piece ends at 4 GiB or above |
| `VmaUnmap.UnmappedPages` | mm/mmap.c:700-735 | Unless such a piece ends at 4 GiB or above, exactly the pages from the start to the first hole are gone and the list stays sorted and disjoint; else the start of the piece is still mapped |
| `VmaUnmap.UnmapClearsIff` | mm/mmap.c:719-721 | The range is cleared exactly when nothing in it is mapped behind a hole and no such piece ends at 4 GiB or above |
| `VmaMaps.MappedOkIff` | mm/mmap.c:686-696 | The list stays disjoint, and besides shows the new mapping on its range and every other page as before, exactly under two conditions on the list, the range and the length before the call |
| `VmaCalls.ProtectedPages` | mm/mmap.c:737-793 | mprotect changes the protection of exactly the pages from the address to the end of the range, or to the end of the region when the range starts inside it |
| `VmaCalls.ProtectsExactlyIff` | mm/mmap.c:737-793 | It does what it was asked exactly when the range starts or ends with its region, or the protection is the same |
| `VmaCalls.ProtectedOkIff` | mm/mmap.c:752-772 | The list stays proper except that an empty request at the start of a region leaves an empty region |
| `VmaRuns.RightIffServed` | mm/mmap.c:590-793 | Each call, with any length, keeps the list in order and does to every page what it is to do, exactly under the conditions above |
| `VmaRuns.ServedShort` | mm/mmap.c:590-793 | For ranges shorter than 2 GiB these are: nothing mapped behind a hole; for a protection of less than 4 GiB: the range starts or ends with its region, or nothing changes, and is not empty at a start |
| `VmaRuns.RunRefinesPages` | mm/mmap.c:590-793 | Every run of such calls keeps the list sorted and disjoint and shows at each address what the calls in turn made of it |
| `VmaRuns.FixedMapCanOverlap` | mm/mmap.c:719-721 | A fixed mapping over a hole and a mapping behind it leaves overlapping regions |
| `VmaRuns.TailOffsetIff` | mm/mmap.c:222-222 | Cutting moves the pages of a file region to another place in the file exactly when the new offset does not fit 32 bits |
| `VmaRuns.ShortKept` | mm/mmap.c:207-245 | Regions whose offsets fit stay so through every call that is served, and every one that leaves no region over, if it maps only such |
| `VmaRuns.FaultsReadTheRightPage` | mm/fault.c:216-217 | After any run that maps only such regions, a page fault computes the file offset that the page has |
| `VmaFaults.UnmapStopsAtTheHole` | mm/mmap.c:719-721 | munmap of an unmapped page and the mapped one behind it changes nothing |
| `VmaFaults.ProtectGoesOn` | mm/mmap.c:774-793 | mprotect of the second of three pages changes the third one too |
| `VmaFaults.ProtectNothing` | mm/mmap.c:752-772 | mprotect of no bytes at the start of a region leaves an empty region |
| `VmaFaults.SearchFindsATakenPage` | mm/mmap.c:564-588 | With a region across the start of the mmap area, the page that the search goes by is taken |
| `VmaFaults.CutFileStartsOver` | mm/mmap.c:222-222 | munmap of the page below 4 GiB of a file leaves the page above it with offset 0 |
| `VmaFaults.UnmapGrows` | mm/mmap.c:207-216 | munmap of a region of 2 GiB in the mmap area leaves one of 4 GiB, the old one and as much before it |
| `VmaFaults.UnmapTakesTheRest` | mm/mmap.c:211-231 | munmap of the first 2 GiB of 3 in low memory leaves nothing |
| `VmaFaults.UnmapOfFour` | kernel/syscalls/munmap.c:16-22 | munmap of 4 GiB does nothing, anywhere |
| `VmaFaults.FixedMapOfFourOverlaps` | mm/mmap.c:686-696 | A fixed mapping of 4 GiB over two mapped pages leaves the second one under it, though nothing is mapped behind a hole |
| `VmaFaults.ProtectCutShort` | kernel/syscalls/mprotect.c:19-52 | mprotect of 4 GiB and a page changes one page |
| `VmaFaults.OverlapMended` | mm/mmap.c:260-284 | A fixed mapping of 4 GiB inside an anonymous one unmaps nothing, and leaves the list right |
| `VmaFaults.RefusedStays` | mm/mmap.c:688-694 | A device that refuses a mapping of 2 GiB leaves 4 GiB mapped |
| `AddressSpace.Space.FindVmaRegion` | mm/mmap.c:486-504 | The record of the first region that holds the page, or none |
| `Vma.InsertedOver` | mm/mmap.c:260-284 | A region put over one that reaches into it: that one is cut short, and its part behind the new one is back with the offset of the whole |
| `RegionList.Regions.AddVmaRegion` | mm/mmap.c:131-146 | The linked list holds exactly the regions with the new one in its place |
| `RegionList.Regions.InsertVmaRegion` | mm/mmap.c:91-129 | On any list in order of starts: the place, the links, and the merging with the record before |
| `RegionList.Regions.MergeVmaRegions` | mm/mmap.c:247-285 | Two records that are one mapping become one; one that reaches into the new region is cut short or goes, and its part behind is inserted in turn |
| `RegionList.Regions.LinkBefore` | mm/mmap.c:104-121 | The record is in the list at its place, linked both ways, with the first record naming the last |
| `RegionList.Regions.DelVmaRegion` | mm/mmap.c:148-178 | Exactly this record is gone, and the others are linked both ways |
| `AddressSpace.Space.FreeVmaRegion` | mm/mmap.c:207-245 | The linked list holds what is left of the regions, for every signed length |
| `AddressSpace.Space.DoMunmap` | mm/mmap.c:700-735 | Refused exactly for a bad address or end, else the loop is run, on any list in order of starts, and leaves such a list |
| `AddressSpace.Space.SysMunmap` | kernel/syscalls/munmap.c:16-22 | Right, against the range that was asked for, exactly under the condition above |
| `AddressSpace.Space.GetUnmapped` | mm/mmap.c:564-588 | The lowest place for the length above the start of the search and before some region, 0 only when there is none; what it returns is taken exactly when a region straddles the start and the first region above leaves room |
| `AddressSpace.Space.DoMprotect` | mm/mmap.c:737-793 | The list after splitting off the part that keeps its protection |
| `AddressSpace.Space.SysMprotect` | kernel/syscalls/mprotect.c:19-52 | Succeeds exactly for an aligned range, cut to 32 bits, within one region whose file may be written so, and for any protection that is at most 7 as a signed number; right exactly under the condition above |
| `AddressSpace.Space.DoMmap` | mm/mmap.c:590-698 | Refused with nothing changed, each error under its condition; else right exactly under the condition above |
| `AddressSpace.RefusedClearIff` | mm/mmap.c:688-694 | After a mapping that the device refuses, its range is clear exactly when it is shorter than 2 GiB or the signed end is negative |
| `BuddyState.BlockAligned` | mm/buddy_low.c:20-26 | Every block is aligned to its size |
| `BuddyState.TilesDisjoint` | mm/buddy_low.c:92-141 | No two blocks, free or allocated, share a byte |
| `BuddyState.TilesCover` | mm/buddy_low.c:92-141 | Every byte of the allocator's pages is in a block |
| `BuddyState.NoFreePair` | mm/buddy_low.c:28-90 | A block and its buddy are never both free |
| `BuddyState.EveryPageLive` | mm/buddy_low.c:62-77 | Every page the allocator keeps has an allocated block in it |
| `BuddyTree.BuddyNear` | mm/buddy_low.c:20-26 | The address with one bit flipped is the other half of the same bigger block |
| `BuddyLow.Allocator.constructor` | mm/buddy_low.c:169-172 | No pages, no blocks |
| `BuddyLow.Allocator.LevelOf` | mm/buddy_low.c:99-99 | The smallest level that holds the request |
| `BuddyLow.Allocator.Allocate` | mm/buddy_low.c:92-141 | Exactly one block more is live, of the smallest level that holds the request; a free block of that level is used before a bigger one, and a page is taken exactly when no free block is big enough; none exactly when no block is big enough and there is no page; the recursion terminates |
| `BuddyLow.Allocator.TakeBuddy` | mm/buddy_low.c:46-66 | The free buddy is unlinked from its list and the two are one live block |
| `BuddyLow.Allocator.Deallocate` | mm/buddy_low.c:28-90 | Exactly this block is no longer live; what can be joined is, up to the page |
| `BuddyLow.Allocator.BlMalloc` | mm/buddy_low.c:143-154 | Memory behind the header of a new live block that holds the request, up to a whole page; the header tells the level exactly of blocks smaller than a page |
| `BuddyLow.Allocator.BlFree` | mm/buddy_low.c:156-167 | Exactly this block is freed, and its page goes exactly when no other live block is in it |
| `BuddyLow.LastOneOut` | mm/buddy_low.c:69-77 | A page is given back exactly when its last live block is freed |
| `BuddyLow.Allocator.CountsLivePages` | mm/buddy_low.c:76-76 | The page counter counts exactly the pages with a live block |
| `UnixRing.ReadTakesOldest` | net/unix.c:620-640 | A copy out takes the oldest bytes, in order, across all positions of the offsets |
| `UnixRing.WriteAppends` | net/unix.c:700-722 | A copy in adds its bytes behind all others and fits the ring |
| `UnixRing.StuckReadIff` | net/unix.c:620-631 | Bytes are there but none can be copied exactly when the read offset is at the end |
| `UnixRing.StuckReadHappens` | net/unix.c:620-631 | A run of two writes and two reads after which a byte is in the ring and no read gets it |
| `UnixRing.StuckWriteIff` | net/unix.c:700-710 | Nothing can be copied in exactly when the ring is full, drained but not started over, or filled to its end |
| `UnixRing.RunFifo` | net/unix.c:611-740 | Over every interleaving of copies in, copies out and resets, what was read is a prefix of what was written and the ring holds the rest, its length in size |
| `UnixSocket.Endpoint.CopyOut` | net/unix.c:632-640 | The bytes copied and the offsets after |
| `UnixSocket.Endpoint.CopyIn` | net/unix.c:712-719 | The bytes copied and the offsets after |
| `UnixSocket.Endpoint.UnixRead` | net/unix.c:611-680 | The oldest bytes; one piece from a connected socket, everything from a closing one; a return of 0 with bytes in the ring exactly when the read offset is at the end |
| `UnixSocket.Endpoint.UnixWrite` | net/unix.c:682-740 | As many bytes as fit in one piece go behind the others; each outcome under its condition |
| `Backlog.PoppedMatches` | net/socket.c:65-87 | After the first leaves, all queues are proper lists, each socket where its back pointer says |
| `Backlog.AppendedMatches` | net/socket.c:89-114 | After a socket that waits nowhere joins, likewise |
| `Backlog.AppendedProperIff` | net/socket.c:89-114 | What joining leaves is a proper state exactly when the socket waited nowhere |
| `Backlog.ConnectTwiceSpoils` | net/ipv4.c:311-355 | A second connect by a waiting socket leaves a count of two on a list of one |
| `Backlog.UnlinkedMatches` | net/socket.c:130-151 | After one is taken out of the middle, likewise |
| `Backlog.ClosedMatches` | net/ipv4.c:208-255 | After a socket is gone, no queue and no back pointer names it |
| `Listeners.Sockets.GetSocketFromQueue` | net/socket.c:65-87 | The one that has waited longest comes out, with both its links cleared |
| `Listeners.Sockets.InsertSocketToQueue` | net/socket.c:89-114 | Refused exactly when the backlog is full, else at the end of the queue |
| `Listeners.Sockets.RemoveSocketFromQueue` | net/socket.c:130-151 | A socket that waits there is taken out, order and all others kept, and still names the listener; one that does not changes nothing |
| `Listeners.Sockets.Connect` | net/ipv4.c:311-355 | The client waits at the end of the queue or is refused; the queues stay proper exactly when it was refused or waited nowhere |
| `Listeners.Sockets.Accept` | net/ipv4.c:357-400 | Clients come out in the order they connected and get the new socket for their peer; a failed allocation loses the client; peers still name each other exactly when the client had none |
| `Listeners.AcceptedTwice` | net/ipv4.c:311-400 | listen, connect, accept, connect and accept again: the first peer still names the client, which names the second |
| `Listeners.ClosedAfterItsPeer` | net/ipv4.c:242-248 | After that run the client closes, and then its first peer: the second close writes through a peer that is gone |
| `Listeners.Sockets.Free` | net/ipv4.c:208-255 | The socket is in no queue, whoever waited for it and its peer are disconnected, all other queues are as they were, in order; the write to the peer goes astray exactly when the peer is closed already |
| `ListenerRuns.BacklogBounded` | net/ipv4.c:294-309 | In every run in which no socket connects that waits already, no more wait for a listener than the largest backlog it has asked for, or one |
| `ListenerRuns.PeersPair` | net/ipv4.c:208-400 | In every such run in which no socket connects that is connected, peers are open and name each other, and nobody waits who is connected |
| `ListenerRuns.NoneStrays` | net/ipv4.c:242-248 | In those runs no socket is closed after its peer |
| `ListenerRuns.CloseLeavesNoneIff` | net/ipv4.c:242-248 | A close leaves nobody with a peer that is gone exactly when nobody names the socket but the one it names |
| `ListenerRuns.Execute` | net/ipv4.c:208-400 | Any run of open, listen, connect, accept and close in which no socket connects that waits already leaves proper queues, equal to those of a run on plain sequences, and strays exactly when that does |
| `ListenerRuns.ServedInOrder` | net/socket.c:65-114 | In every run in which no socket connects that waits already, whom accept takes and who still waits are those who waited or joined, in that order, but for the ones who closed; exactly those when nobody closed |
| `ListenerRuns.NobodyLost` | net/socket.c:65-151 | In every such run, whoever waited or joined was taken once, closed, or still waits |
| `Loopback.ReceivedNext` | net/ipv4.c:581-605 | A read takes the next bytes of the stream and leaves the rest |
| `Loopback.PeekKeepsIff` | net/ipv4.c:581-605 | A read that is only to peek leaves the stream as it was exactly when nothing was asked for or the packet has nothing left |
| `Loopback.RunStream` | net/ipv4.c:86-124 | Over every run what was read is a prefix of what was written and the packets hold the rest |
| `Loopback.RunUnfinished` | net/ipv4.c:601-605 | Without empty writes and peeking, every packet in the queue has bytes left |
| `Loopback.ZeroReadIff` | net/ipv4.c:581-583 | A read returns 0 at an empty queue exactly when the peer has closed, and at a packet exactly when nothing was asked for or it has nothing left |
| `Loopback.ZeroIffDrainedAndClosed` | net/ipv4.c:548-617 | After every run without empty writes, empty reads and peeking, a read returns 0 exactly when the queue is drained and the peer has closed, and then all that was written has been read |
| `Loopback.EndIsFinal` | net/ipv4.c:563-567 | After that nothing changes any more |
| `Loopback.EmptyWriteReadsAsEnd` | net/ipv4.c:86-124 | An empty send is read as the end of an open stream |
| `Loopback.PeekLosesTheByte` | net/ipv4.c:581-605 | A byte that was peeked at is not read again, and the next read returns 0 on an open stream |
| `Loopback.Execute` | net/ipv4.c:86-617 | Any run of writes, reads and the close on the linked packets, also of writes that find no memory, returns what the plain run says |
| `Loopback.Inbox.Append` | net/packet.c:30-42 | The packet is behind all others in the linked queue |
| `Loopback.Inbox.RemoveFirst` | net/packet.c:19-28 | The first packet is gone, the others are in order |
| `Loopback.Inbox.Deliver` | net/ipv4.c:86-124 | The bytes follow all others in the stream, or nothing happens without memory |
| `Loopback.Inbox.Recvfrom` | net/ipv4.c:548-617 | The next bytes; with an empty queue the end exactly when the peer has closed, else a retry or sleep |
| `Acl.AcceptsIffCanonical` | kernel/acl.c:41-132 | The scan with its flags accepts exactly the canonical lists |
| `AclOps.AclValidate` | kernel/acl.c:41-132 | A payload is accepted exactly when its size is whole and it holds a canonical list |
| `AclOps.CheckEntries` | kernel/acl.c:414-482 | The loops decide by the first entry of each kind on any entries, and as the list taken apart says on a canonical one, for every caller and request |
| `AclDecide.AllowedIsGranted` | kernel/acl.c:414-482 | Whatever acl(5) allows is granted |
| `AclDecide.AgreesIffOneGroupGrants` | kernel/acl.c:447-471 | The code and acl(5) differ exactly for a caller of the group class whom the mask does not hinder, when each permission asked for is granted by some matching entry and all of them by none |
| `AclDecide.SinglePermissionAgrees` | kernel/acl.c:447-471 | For one permission at a time they always agree |
| `AclDecide.SumsBeyondAcl5` | kernel/acl.c:447-471 | A list under which the code grants what acl(5) denies |
| `AclChange.EquivalentDecides` | kernel/acl.c:171-200 | A list that may be compressed decides like its mode for every caller and request |
| `AclChange.ChmodShows` | kernel/acl.c:209-259 | chmod leaves a valid list that projects back to exactly the mode asked for |
| `AclChange.ChmodLimits` | kernel/acl.c:209-259 | After it the owner and the others have what the mode says and nobody of the group class more |
| `AclChange.InheritedProper` | kernel/acl.c:276-327 | The inherited list is valid |
| `AclChange.InheritsNoMore` | kernel/acl.c:276-327 | It never grants any caller anything that the default list does not |
| `AclChange.InheritedLimits` | kernel/acl.c:276-327 | Under it the owner and the others have what list and mode both say and nobody of the group class more |
| `AclFold.FoldGrantsNoMoreIff` | kernel/acl.c:329-371 | For all callers and requests, the folded mode alone grants no more than the list, exactly when the owning group and every named user may do all the mask lets through and nobody named less than the others |
| `AclFold.FoldGrantsNoLessIff` | kernel/acl.c:329-371 | and no less exactly when nobody named may do more than the others |
| `AclFold.InheritedFoldIff` | kernel/acl.c:276-371 | Both, for the list that a new file inherits |
| `AclFold.FoldCanGrantMore` | kernel/acl.c:336-338 | A default list that denies the group what the folded mode grants it |
| `AclModes.EntriesDetermine` | kernel/acl.c:41-132 | A payload stands for one list only |
| `AclModes.SyncMode` | kernel/acl.c:140-165 | The mode shows the list, its other bits unchanged; of any entries the last of each kind counts; a broken payload changes nothing |
| `AclModes.EquivMode` | kernel/acl.c:171-200 | True exactly when the list says no more than the mode, with that mode |
| `AclModes.AclChmod` | kernel/acl.c:209-259 | Refused exactly when the stored payload is no list, else changed in place to the list that shows the mode |
| `AclModes.DefaultMasq` | kernel/acl.c:276-327 | The inherited list in place, the mode that shows it, and whether it must be stored; for any entries, each cut down by the mode and those of its kind before it; a broken payload changes nothing |
| `AclModes.MasqTakesAway` | kernel/acl.c:276-327 | Of any entries whatever, permissions are only taken away |
| `AclModes.AclPermission` | kernel/acl.c:486-532 | Decided by the stored list, by the mode when there is none, an error exactly when the payload is no list or could not be read |
| `Kconf.NextProgress` | kernel/kconf.c:336-464 | On any text, a step that returns a setting leaves a strictly shorter end of the text |
| `KconfPrint.DecodeEscape` | kernel/kconf.c:201-288 | Decoding undoes escaping |
| `KconfPrint.PiecesPassed` | kernel/kconf.c:120-192 | Blanks, comments, declarations and other tags before a key are passed over |
| `KconfPrint.LineRead` | kernel/kconf.c:336-464 | One printed setting is read back and reading stops right behind it |
| `KconfPrint.RoundTrip` | kernel/kconf.c:336-492 | Reading a printed file gives exactly its settings in order and then the end |
| `KconfReader.PlistAt` | kernel/kconf.c:101-113 | Whether a literal stands at a place |
| `KconfReader.PlistSkip` | kernel/kconf.c:120-143 | Past blanks and comments |
| `KconfReader.PlistTag` | kernel/kconf.c:151-192 | Name, form and end of the tag, or the end of the buffer |
| `KconfReader.PlistEntity` | kernel/kconf.c:201-252 | The character of an entity, named or numeric |
| `KconfReader.PlistText` | kernel/kconf.c:260-288 | The decoded text cut to the buffer, refused exactly when an entity has no meaning |
| `KconfReader.PlistSkipElement` | kernel/kconf.c:296-328 | Past an element with all of the same name inside it |
| `KconfReader.KconfNext` | kernel/kconf.c:336-492 | The next setting; returning 1 moves the offset strictly on within the buffer, returning 0 puts it at the end |
| `KconfReader.ReadAll` | kernel/kconf.c:487-492 | Iterating to the end gives all settings of the text |

## Left out

- Context switch, page tables, traps, device drivers, boot code: inline assembly, port I/O or helpers in other files.
- Physical pages, copy on write, inode reference counts and the page cache: only the region list is modelled in mm/mmap.c.
- Running out of memory for a region record, SHM objects and `expand_heap` in mm/mmap.c. The open mode of a region is not part of a
  page, since merging two regions keeps only the first one's.
- Calls on a list that an earlier call has left with overlapping regions, other than munmap: mmap and mprotect are modelled on
  lists that are sorted and disjoint, which every served call leaves.
- I/O errors, `invalidate_buffers`, `reclaim_buffers`, `sync_buffers_select` and the flush daemon in fs/buffer.c. Each call is one
  step; a caller that would have to wait gets an outcome that says so and nothing else has happened.
- The transient BUFFER_LOCKED flag that `sync_buffers` sets and clears around one buffer.
- Request counters of the small-block allocator other than the page counter.
- Listeners.Sockets.Free: the packets that a closing socket has not read are not part of this state, and neither is the storage of closed
  sockets, so that a stray write changes nothing here; the result tells that there was one.
- The addresses and ports of sockets, and sleeping inside `accept`, `unix_read` and `unix_write`: the outcome says that
  the caller goes to sleep. External network code.
- Signals that interrupt `sleep`, other than as a flag; time limits of `select` and `poll`.
- KconfReader.PlistEntity: digits are added up without bound; the overflow of the int accumulator at kernel/kconf.c:244 is undefined in C.
- CalloutTable.Callouts.Add: expiries are added up without bound behind a negative one, where an int could overflow.
- BuddyLow.Allocator.BlMalloc: the page it may take comes as an argument, 0 when there is none; requests above a page run past the table of sizes.
- BuddyLow.Allocator.BlFree: not for a block that is a whole page, whose header was never given a level.
- CalloutTable.Callouts.Tick: says nothing about a callout that is overdue beyond asking for the bottom half again.
- Processes that call `sleep` or `lock_resource` between arming and disarming: the waiters modelled here do neither while they look.
- Callouts armed for no ticks: the theorems on when a callout fires are for 1 tick and more.
- Errors of `listen`, `connect` and `accept` that are decided before a queue is touched: wrong type, unbound, no such listener.
- Calendar time, the inode cache, path lookup, superblocks, consoles, the system call table, and everything under tools/.
