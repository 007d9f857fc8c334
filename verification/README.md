# A verified model of the exokernel's bookkeeping

The kernel multiplexes memory, devices and messages by keeping small tables, and
its safety rests on those tables agreeing with each other. This project models
that bookkeeping in Dafny, branch by branch and constant by constant, and proves
what every step keeps, over every run.

Where the kernel changes tables in place, so do the classes here; each is proved
against a function of its old state, and the theorems are about those functions.

- **DMA page tables** (`words`, `frame_alloc`, `iommu_pte`, `iommu_tree`,
  `iommu_domain`, `iommu_runs`, `iommu_iova`, `iommu_binding`): a bitmap frame
  allocator; three- to five-level radix tables written over its frames in both
  the VT-d and the AMD-Vi entry format; map, unmap, translate and teardown as a
  refinement of a plain finite map, with failures in the middle of a walk; two
  domains over one allocator; the IOVA allocator; the device entries that route
  DMA to a live root. The hardware's own walk is written from the entry formats
  and shown to agree.
- **Messages and capabilities** (`capability`, `wait_queue`, `ipc_model`,
  `ipc_safety`, `ipc_steps`, `ipc_death`, `ipc_runs`, `ipc_answers`, `ipc_lending`,
  `ipc_loans`, `ipc_words`, `ipc_landings`, `ipc_effects`, `ipc_witness`, `ipc_reaping`,
  `ipc_kernel`, `ipc_spawn`): one state machine whose steps are send, receive, call,
  reply, mint, spawn, release and death. `IpcModel` gives each step as a function on
  values; `IpcKernel` and `IpcSpawn` carry the same steps out over arrays and
  intrusive queues and are proved equal. One invariant
  covers reference counts, queues, reply capabilities and every process's history;
  a second one, the lending books, says which slot waits for which capability.
  `ipc_words`, `ipc_landings` and `ipc_effects` say what the operations do from
  outside: which word reaches whom, which slot a lender is told, what a mint, a
  spawn, a release and a death give and take.
- **User mappings** (`user_maps`, `user_space`, `frame_world`, `frame_ownership`,
  `frame_steps`, `frame_departures`, `frame_effects`, `frame_runs`): the records that
  keep page tables in step with capability tables, the unrecorded pages of bound devices, revocation,
  teardown, and the ownership of every pooled frame over whole runs, spawns included.
- **Rings** (`input_event`, `ring_queues`, `rings`, `event_stream`, `ring_table`,
  `event_runs`, `ring_submit`, `ring_rights`, `ring_credit`): free-running 32-bit
  indices, completion and submission queues with and without room, event subscriptions with a sticky drop
  flag, parking and waking, the drain of a submission queue against the submitter's
  rights, and how much may be under way before a completion is lost.
- **Loading** (`elf`, `elf_layout`, `loader`): the ELF checks as a declarative verdict,
  what they make of a file as the format lays it out, and the loader
  that carries an accepted image out frame by frame.
- **Console** (`fbcon`, `fbcon_text`): pixels as the rendering of lines of characters,
  and where each byte of a text stands.

`prelude` holds the result shapes. Integer widths are explicit wherever they
matter: words of page tables and bitmaps are numbers below 2^64, ring indices
wrap at 2^32, event words leave bit 31 free, the drop count saturates.

## What turned out to need a condition

The code is left as it is, and what it does meet is proved with its exact condition.

- A voluntary release can strand waiters: death wakes the queue whose last
  counterpart goes, `cap_release` does not. The invariant survives a release
  exactly when it is not the last counterpart of a queue with waiters
  (`IpcDeath.ReleaseKeepsExactly`); `IpcRuns.ReleaseCanStrand` is a run that does it.
- A slot is reserved exactly for one capability on its way home only if a first
  loan is of a returning kind precisely when its receiver has room
  (`IpcLoans.StepLendsExactly`): a loan that does not reserve still records where
  it came from and can take a slot reserved since (`IpcWitnesses.StrayLoanHappens`),
  and a refused first loan leaves its reservation behind (`IpcWitnesses.LoanCanStrand`).
- A call handed over to a process with a full capability table, whichever of the two
  came first, leaves a caller that nothing can answer; that is the only way a call
  becomes unanswerable (`IpcAnswers.StepAnswersExactly`). `IpcWitnesses.RecvCanStarve`
  and `IpcWitnesses.CallCanStarve` are runs that do it.
- `bind_device` maps five pooled frames and records none of them, and neither release,
  transfer nor spawn unmaps them. Releasing a bound device frees frames that its holder
  may still write; passing it on leaves access without authority. Both invariants
  survive exactly when none of the device's pages is mapped by the process that lets it
  go (`FrameRuns.StepKeepsExactly`); `FrameRuns.ReleaseCanShare` is a run after which
  two processes write one frame. The comment above `sys_bind_device` says the pages are
  not pooled frames; kernel/src/virtio_blk.rs takes them from the frame allocator and
  gives them back to it.
- The unit's tables cover bus 0 only, as its comments say, and the code routes by device
  and function alone. A device is routed exactly when it is on bus 0 (and, for AMD-Vi, among the first
  sixteen); for one on another bus it is the device with the same number on bus 0 that
  is routed instead (`IommuBinding.OwnIdIsMeant`, `IommuBinding.OtherBusMeansNamesake`).
- `unmap_buffer` accepts an address past the domain's width, unmaps the page it
  wraps to, and pushes the address as given; the allocator survives exactly when
  no such address reaches a stack with room (`IommuIova.UnmapBuffer`,
  `IommuIova.WideUnmapBreaksTheStack`).
- `load_and_map` gives every frame back on failure but one: the frame whose
  mapping was refused was never recorded (`Loader.LoadAndMap`).
- A block completion is never refused, so the queue is the library OS's to size. Unread
  completions, queued entries and requests in flight together must fit it; an event is
  admitted on what is unread alone and can take a place a request was counting on
  (`RingCredit.Serve`, `RingCredit.EventCanTakeTheLastPlace`).
- Releasing a ring tells nobody who is parked on it (`RingTables.RingTable.Release`).
- On a screen whose height is no multiple of a line the first scroll leaves the
  remainder as a gap between two lines (`FbConsoles.NewLineKeepsGridExactly`).
- A refused transfer restores the capability by the ordinary install, so it may
  come back in a lower slot, and its mappings do not come back
  (`IpcLoans.RefusedTransferIsInvisible`, `FrameWorld.GiveStep`).
- The comment in kernel/src/fbcon.rs asks for a height of two text lines for
  scrolling; the code is correct from one line up, and that is what is proved.

## Model

| member | source | states |
|---|---|---|
| FrameAllocator.SettingRemoves | kernel/src/frame_alloc.rs:159-165 | Setting a bitmap bit removes exactly that frame from the set of free frames |
| FrameAllocator.ClearingAdds | kernel/src/frame_alloc.rs:151-157 | Clearing a bitmap bit adds exactly that frame to the set of free frames |
| FrameAllocator.FreeSetDeterminesBitmap | kernel/src/frame_alloc.rs:26-34 | Two bitmaps of one length with the same free set are the same bitmap, so conservation of the set is bit-for-bit |
| FrameAllocator.LowestFree | kernel/src/frame_alloc.rs:113-127 | `trailing_ones` of the first word that is not all ones is the lowest free frame in the whole bitmap |
| FrameAllocator.PoolFramesAreUsableMemory | kernel/src/frame_alloc.rs:50-110 | For every memory map: each byte of a pool frame lies in a usable region, and outside frame 0, the trampoline page and the bitmap itself |
| FrameAllocator.FrameAlloc.constructor | kernel/src/frame_alloc.rs:50-110 | The free set after construction is exactly the pool (usable whole frames, less bitmap, frame 0 and trampoline); tail bits and holes stay used; the count equals its size |
| FrameAllocator.FrameAlloc.Alloc | kernel/src/frame_alloc.rs:113-127 | Fails exactly when nothing is free; otherwise returns the lowest free frame and removes only that one |
| FrameAllocator.FrameAlloc.Dealloc | kernel/src/frame_alloc.rs:130-145 | Succeeds exactly for an aligned, in-range, allocated address; each error in its own case; adds only that frame; count follows |
| FrameAllocator.FrameAlloc.MarkFree | kernel/src/frame_alloc.rs:151-157 | Adds exactly one frame, whether or not it was free, and keeps the count right |
| FrameAllocator.FrameAlloc.MarkUsed | kernel/src/frame_alloc.rs:159-165 | Removes exactly one frame, whether or not it was free, and keeps the count right |
| FrameAllocator.FrameAlloc.OpenUsable | kernel/src/frame_alloc.rs:80-86 | From an all-used bitmap, exactly the whole frames inside the usable regions are opened |
| FrameAllocator.FrameAlloc.ReserveBootFrames | kernel/src/frame_alloc.rs:87-110 | Removes exactly the bitmap span, frame 0 and the trampoline frame |
| FrameAllocator.Run | kernel/src/frame_alloc.rs:113-149 | Over every run of alloc and dealloc by callers that return what they hold: no frame is held twice, held and free partition the pool, and the free count plus the number held is the size of the pool |
| IommuPte.LeafRoundTrip | kernel/src/iommu.rs:246-273 | Both formats: the hardware reads an encoded leaf as that frame with those permissions, and `decode` agrees with it; a VT-d leaf naming no permission is absent |
| IommuPte.LinkRoundTrip | kernel/src/iommu.rs:275-291 | Both formats: an encoded link decodes to the child, grants both permissions on the way down, and is a next-table entry of the right level to the hardware |
| IommuPte.AddrMaskIsArithmetic | kernel/src/iommu.rs:210 | On 64-bit vectors, masking with the address mask is the arithmetic the model uses |
| IommuPte.OrOfFieldsIsSum | kernel/src/iommu.rs:258-262 | On 64-bit vectors, OR-ing the address and permission fields is their sum, and the presence test is the arithmetic one |
| IommuTree.IndexIsDigit | kernel/src/iommu.rs:370-373 | The shift-and-mask index at each depth is that digit of the page number in base 512 |
| IommuTree.PageOfPath | kernel/src/iommu.rs:370-373 | Path and page number are inverse below the domain width |
| IommuTree.PathOfPage | kernel/src/iommu.rs:370-373 | Every path of table indices is the path of exactly one page number |
| IommuTree.PathOfWraps | kernel/src/iommu.rs:370-373 | An address past the width walks the path of the address it wraps to |
| IommuTree.RootOnly | kernel/src/iommu.rs:350-367 | A zeroed root is a well-shaped tree that maps nothing |
| IommuTree.AddTable | kernel/src/iommu.rs:405-412 | Linking a zeroed table where there was none keeps the tree well shaped and changes no lookup |
| IommuTree.SetLeaf | kernel/src/iommu.rs:397-403 | Storing a leaf keeps the shape and changes the lookup of that one path only |
| IommuTree.Untouched | kernel/src/iommu.rs:311-330 | A tree depends only on its own table frames: any other write leaves its shape and every mapping |
| IommuTree.HardwareAgrees | kernel/src/iommu.rs:218-291 | The walk the hardware makes, from the entry formats alone, finds for every address exactly the leaf the abstract map has |
| IommuDomain.LevelsFor | kernel/src/iommu.rs:1255-1265 | Succeeds exactly for widths 39, 48 and 57, and the width is then 12 + 9 per level |
| IommuDomain.AllocTable | kernel/src/iommu.rs:338-344 | Fails exactly when the allocator is empty; otherwise takes one frame and leaves it zeroed |
| IommuDomain.Domain.Map | kernel/src/iommu.rs:379-418 | Each error exactly when it should be, `Exhausted` exactly when the missing tables outnumber the free frames; success updates the abstract map at that page only; frames taken are exactly the tables gained; no frame outside is written |
| IommuDomain.GrownTakesTheMissing | kernel/src/iommu.rs:395-412 | A map takes what is missing or, where that is more than there is, every frame left; it builds one table on its path from each, and all of them exactly when the frames suffice |
| IommuDomain.Domain.Unmap | kernel/src/iommu.rs:423-445 | Misaligned and not-mapped exactly when they should be; success removes that page only; nothing outside the domain is written |
| IommuDomain.Domain.Translate | kernel/src/iommu.rs:450-468 | Equals the abstract map at the page, plus the page offset, at every address |
| IommuDomain.Domain.Teardown | kernel/src/iommu.rs:473-478 | The free set grows by exactly the table frames of the domain, each once, and the root is cleared; a second call does nothing |
| IommuDomain.FreeSubtree | kernel/src/iommu.rs:492-506 | Frees exactly the tables at and under the given one; no leaf target is freed |
| IommuDomain.NewDomain | kernel/src/iommu.rs:350-367 | Errors exactly on an unsupported width or an empty allocator; otherwise a domain that maps nothing and owns one frame |
| IommuRuns.Apply | kernel/src/iommu.rs:379-445 | One map or unmap, failures included, refines one step of a plain finite map with a set of table paths and a count of free frames: it answers `Exhausted` exactly when the tables it misses are more than the frames there are |
| IommuRuns.Lifecycle | kernel/src/iommu.rs:350-506 | From `new` through any maps and unmaps: every answer, running out of frames included, is the plain map's for the frames there were, `translate` at any probe address equals it, and after `teardown` the bitmap and free count are bit for bit what they were |
| IommuRuns.ApplyBeside | kernel/src/iommu.rs:379-445 | The same on one of two live domains, and the other's mappings stay as they were and their tables disjoint |
| IommuRuns.Interleaved | kernel/src/iommu.rs:379-445 | Any interleaving of steps on two domains over one allocator: every answer and both final maps are those of the two plain maps over one count of free frames, and no frame is lost |
| IommuRuns.SidesAreAlone | kernel/src/iommu.rs:379-445 | However two domains are interleaved, each has the map and the answers of its own steps run alone; the other shows only in which of them found frames |
| IommuRuns.BystanderKept | kernel/src/iommu.rs:311-330 | Whatever a domain may write while it is changed, a domain with other frames keeps every mapping |
| IommuIova.IovaAllocator.constructor | kernel/src/iommu.rs:1470-1481 | The allocator starts with an empty stack at the base of its window |
| IommuIova.IovaAllocator.Alloc | kernel/src/iommu.rs:1486-1498 | Pops the stack if it can, bumps if the window allows, else fails; what it returns is aligned, in the window and no longer on the stack |
| IommuIova.IovaAllocator.Free | kernel/src/iommu.rs:1502-1507 | Pushes unless the stack is full (then the address is dropped); the allocator stays well-formed exactly when the address was one it had handed out and not had back |
| IommuIova.MapBuffer | kernel/src/iommu.rs:1521-1536 | Maps one fresh window address to the frame with the permissions; each error exactly when it should be; a failure maps nothing and leaves the address on the stack |
| IommuIova.UnmapBuffer | kernel/src/iommu.rs:1541-1549 | Succeeds exactly for a mapped page; the allocator survives exactly when the address is below the domain width or the stack is full (no precondition on the address) |
| IommuIova.WideAddressAliases | kernel/src/iommu.rs:1541-1549 | Why: an address one domain-width up names the same page and is not the address that was handed out |
| IommuIova.WideUnmapBreaksTheStack | kernel/src/iommu.rs:1541-1549 | One map and one unmap that do it: the unmap by an address past the width succeeds and leaves an address outside the window on top of the stack |
| IommuIova.BufferRun | kernel/src/iommu.rs:1511-1550 | Over every run of map_buffer and unmap_buffer below the width: the addresses handed out and not returned are exactly the mapped pages, distinct, in the window and off the free stack |
| IommuBinding.EntryRoundTrip | kernel/src/iommu.rs:571-584 | A context or device-table entry decodes to the root, domain id and depth it was written with, in both formats, and lets its device read and write |
| IommuBinding.EntryIsSelected | kernel/src/iommu.rs:571-599 | Writing the entry of a location changes what the unit selects for the requester ids with that device and function on bus 0, and for no other id; told from the bit fields of the id and the selection rule of each format |
| IommuBinding.OwnIdIsMeant | kernel/src/iommu.rs:571-599 | A device's own requester id is among those exactly when it is on bus 0 and, for AMD-Vi, among the first sixteen; otherwise no entry is ever selected for it |
| IommuBinding.OtherBusMeansNamesake | kernel/src/iommu.rs:571-599 | For a device on another bus it is the device with the same number on bus 0 that is routed |
| IommuBinding.BlockIommu.constructor | kernel/src/iommu.rs:1272-1302 | The unit starts with one live shared domain and no device entry present |
| IommuBinding.BlockIommu.Attach | kernel/src/iommu.rs:736-741 | Every requester id meant by the location selects the entry written, and every other id what it selected before |
| IommuBinding.BlockIommu.Detach | kernel/src/iommu.rs:744-749 | No requester id meant by the location selects an entry any more, and every other id selects what it did |
| IommuBinding.BlockIommu.MapShared | kernel/src/iommu.rs:1310-1316 | Identity-maps the page of an address in the shared domain, treating an existing mapping as done |
| IommuBinding.BlockIommu.PrepareDevice | kernel/src/iommu.rs:1272-1322 | On success the shared map is the old one with each fixed frame identity-mapped, and what the hardware makes of any address in a transaction with the device's requester id is that map; every other id selects what it did. On failure the map is that for a proper prefix and no entry changes |
| IommuBinding.IdentitiesAreMapped | kernel/src/iommu.rs:1310-1316 | After preparing a device each of its fixed frames is reachable at its own address |
| IommuBinding.BlockIommu.MapDma | kernel/src/iommu.rs:1329-1357 | Nothing before translation is enabled; afterwards success adds exactly the identity mapping of the page if it was missing, and failure, only by exhaustion, adds nothing |
| IommuBinding.BlockIommu.Enable | kernel/src/iommu.rs:1363-1379 | Turns translation on and changes no table and no entry |
| IommuBinding.BlockIommu.BindPrepare | kernel/src/iommu.rs:1583-1617 | The exact cases of the two early errors; on success the bound domain maps exactly the four fixed frames at the window addresses, and what the hardware makes of any address in a transaction with the device's requester id is that map, every other id selecting what it did; on failure nothing is routed and frames taken are accounted for as returned or lost |
| IommuBinding.BlockIommu.BindMapDma | kernel/src/iommu.rs:1624-1644 | Fails with no bound device exactly when none is bound; otherwise maps one fresh window address in the bound domain only |
| IommuBinding.BlockIommu.BindTeardown | kernel/src/iommu.rs:1653-1673 | Returns exactly the bound domain's table frames; the bound device's requester id selects no entry any more, every other id what it did, and no entry still names the domain's root |
| IommuBinding.RoutedThroughLiveDomain | kernel/src/iommu.rs:571-599 | Whatever requester id the unit selects an entry for is translated, at every address, by the map of the live domain with that id, whose root is not free; by the bound domain only for the bound device |
| IommuBinding.UnitRun | kernel/src/iommu.rs:1272-1673 | Over every run of prepare, map, enable, bind and teardown the unit stays well-formed and frames are conserved: free, in either tree, and dropped by a refused bind are apart, and their number is constant |
| Capabilities.LentTo | kernel/src/capability.rs:256-266 | A loan never alters what the capability names or permits |
| Capabilities.ReservedExactlyIfReturned | kernel/src/capability.rs:341-420 | Lend time and death time agree: a first loan reserves its slot exactly when death would send it back to that slot, and what is sent back is what was lent |
| Capabilities.RootLenderKeepsTheClaim | kernel/src/capability.rs:256-266 | Through any number of hops the claim stays with the first lender and the slot it left, until that lender has it again, owned outright |
| Capabilities.FirstFree | kernel/src/capability.rs:609-619 | `install`'s choice is the lowest slot that is empty and not held open |
| Capabilities.CapTable.constructor | kernel/src/capability.rs:499-501 | A new table is empty and reserves nothing |
| Capabilities.CapTable.PlaceFirst | kernel/src/capability.rs:609-619 | In-place `install` refines the functional one, table and landing |
| Capabilities.CapTable.ReclaimTo | kernel/src/capability.rs:577-584 | Lands only in a reserved empty slot, and lifts the reservation |
| Capabilities.CapTable.PlaceHome | kernel/src/capability.rs:541-555 | In-place `install_home`: the reserved slot when the capability is back with its lender, else the first free one |
| Capabilities.CapTable.Revoke | kernel/src/capability.rs:703-709 | Empties one slot and returns what it held |
| Capabilities.CapTable.RevokeForLend | kernel/src/process.rs:469-480 | Empties the slot and holds it open exactly when the loan is a first loan of a returning kind |
| Capabilities.CapTable.ClearOrigin | kernel/src/capability.rs:646-659 | Clears exactly the claims of one lender, keeps everything else, and counts what it cleared |
| Capabilities.CapTable.PutBack | kernel/src/syscall.rs:951-964 | A loan that did not happen: the reserved slot gets its capability back, or the reservation is lifted and the ordinary install decides |
| Capabilities.CapTable.Unclaim | kernel/src/capability.rs:566-570 | Lifts one reservation and ignores an index out of range |
| Capabilities.CapTable.ClaimSlot | kernel/src/capability.rs:519-523 | Marks one slot held open and ignores an index out of range |
| WaitQueues.ChainIsUnique | kernel/src/ipc.rs:112-118 | A head, tail and shared link array determine the waiting sequence |
| WaitQueues.WaitTable.constructor | kernel/src/ipc.rs:119-122 | All queues start empty |
| WaitQueues.WaitTable.Enqueue | kernel/src/ipc.rs:126-134 | Appends to its own queue, sets that queue's side, and leaves every other queue of the shared link array as it was |
| WaitQueues.WaitTable.Dequeue | kernel/src/ipc.rs:138-145 | Removes the head, or nothing from an empty queue; every other queue unchanged |
| WaitQueues.WaitTable.TakeIf | kernel/src/ipc.rs:151-157 | Removes the head exactly when the queue is non-empty and of the wanted side |
| WaitQueues.WaitTable.Reset | kernel/src/ipc.rs:306-318 | Putting an empty queue in place disturbs no other |
| WaitQueues.WaitTable.ForgetLink | kernel/src/scheduler.rs:895-903 | Clearing the link of a process that waits nowhere disturbs no queue |
| IpcModel.EndpointAt | kernel/src/ipc.rs:799-806 | A slot resolves to an endpoint only if it holds an endpoint capability with the right and the endpoint is in use |
| IpcModel.FreeEndpoint | kernel/src/ipc.rs:306-318 | The first endpoint not in use |
| IpcModel.FreeProc | kernel/src/scheduler.rs:1811-1814 | The first empty process slot |
| IpcSafety.InitialIsSafe | kernel/src/ipc.rs:237 | The empty machine satisfies the invariant |
| IpcSafety.TransitNetsToZero | kernel/src/ipc.rs:324-351 | Uncounting and recounting one held capability leaves every endpoint as it was |
| IpcSafety.MovedKeeps | kernel/src/ipc.rs:702-772 | Moving one endpoint or reply capability to another slot keeps the counters equal to the holdings, no name dangling, replies unique and owed |
| IpcSafety.TransferMoves | kernel/src/ipc.rs:702-772 | A transfer, whether it lands, is refused and restored, or is lost, moves at most one endpoint or reply duty and leaves counters, processes and histories alone |
| IpcSafety.TransferKeeps | kernel/src/ipc.rs:702-772 | A transfer inside a rendezvous keeps the state safe |
| IpcSafety.PopKeeps | kernel/src/ipc.rs:839-846 | Taking the head of a queue leaves a safe state but for that one process, which held the right it waited with and is in no other queue |
| IpcSafety.WakeKeeps | kernel/src/scheduler.rs:1427-1446 | Waking that process makes the state safe again |
| IpcSafety.HandOverKeeps | kernel/src/ipc.rs:556-566 | Handing a caller's request over and minting the one reply capability is safe |
| IpcSafety.ParkInQueueKeeps | kernel/src/ipc.rs:850-857 | Parking in a queue that has a living counterpart and no opposite waiter is safe |
| IpcSteps.SendKeeps | kernel/src/ipc.rs:512-539 | `ipc_send` keeps the invariant |
| IpcSteps.RecvKeeps | kernel/src/ipc.rs:551-607 | `ipc_recv` keeps the invariant |
| IpcSteps.CallKeeps | kernel/src/ipc.rs:614-640 | `ipc_call` keeps the invariant |
| IpcSteps.ReplyKeeps | kernel/src/ipc.rs:647-674 | `ipc_reply` keeps the invariant, and succeeds exactly for a slot that holds a reply capability |
| IpcSteps.ReplyFindsItsCaller | kernel/src/ipc.rs:647-674 | A reply capability names a process that is blocked, in no queue and owed an answer, and no other capability names it |
| IpcSteps.SpawnKeeps | kernel/src/syscall.rs:886-984 | `spawn_scheduled`, succeeding or failing at any point, keeps the invariant |
| IpcSteps.FailedSpawnKeeps | kernel/src/syscall.rs:886-984 | A spawn that fails for want of a process slot or a loadable image leaves endpoints, processes and histories as they were |
| IpcSteps.LaunchIs | kernel/src/syscall.rs:886-984 | What a successful spawn leaves, in one equation over the child made ready |
| IpcSteps.TakenBackWhere | kernel/src/syscall.rs:951-964 | Where a capability taken back after a failed spawn lands, and exactly when that restores the table |
| IpcEffects.SpawnConnects | kernel/src/syscall.rs:886-984 | After a successful spawn: a process that was not there, holding its budget, the send half of an endpoint nobody had and the gift with the caller's claim on it; the caller has lost the gift and has the receive half in its first open slot, or no handle for want of one |
| IpcEffects.ChildReportsBack | kernel/src/syscall.rs:886-984 | A caller that waits on its handle is woken with whatever word the child sends on its slot 1 |
| IpcSteps.CreateKeeps | kernel/src/ipc.rs:306-318 | Creating an endpoint in a free slot keeps the invariant |
| IpcSteps.MintKeeps | kernel/src/capability.rs:593-595 | A kernel mint keeps the invariant |
| IpcSteps.BootKeeps | kernel/src/scheduler.rs:645-708 | Starting a process in an empty slot keeps the invariant |
| IpcEffects.MintGives | kernel/src/capability.rs:593-595 | A mint puts exactly that object with those rights, owned outright, in the first slot that is empty and not reserved, and does nothing if there is none |
| IpcEffects.CreateOpens | kernel/src/ipc.rs:306-318 | Opens the first endpoint not in use, blank, or changes nothing when all are |
| IpcEffects.BootStarts | kernel/src/scheduler.rs:645-708 | Fills the first empty process slot with a ready process that holds its budget and nothing else |
| IpcDeath.DropKeeps | kernel/src/syscall.rs:663-668 | Releasing an endpoint capability keeps the invariant exactly when it is not the last counterpart of a queue with waiters |
| IpcDeath.ReleaseKeepsExactly | kernel/src/syscall.rs:620-721 | `cap_release` of any capability keeps the invariant exactly when it is not such a last counterpart |
| IpcDeath.ReclaimKeeps | kernel/src/scheduler.rs:1562-1589 | Reclaiming borrowed capabilities slot by slot keeps the invariant and changes only other tables and landings |
| IpcDeath.EndedKeeps | kernel/src/ipc.rs:387-436 | Reaping, clearing claims and draining the table together keep the invariant |
| IpcDeath.DieKeeps | kernel/src/scheduler.rs:849-908 | The whole death sequence keeps the invariant |
| IpcRuns.StepKeepsExactly | kernel/src/ipc.rs:226-232 | Every operation keeps the invariant, except exactly a stranding release |
| IpcRuns.Run | kernel/src/ipc.rs:182-232 | In every reachable state: both counters of every endpoint equal the capabilities with that right over all tables, queues are disjoint and single-sided, waiters hold their right, replies are unique and owed, reserved slots are empty |
| IpcRuns.NobodyWaitsForNobody | kernel/src/ipc.rs:226-232 | In every reachable state a non-empty queue has a capability alive with the opposite right |
| IpcRuns.FreeEndpointIsNamedByNone | kernel/src/ipc.rs:340-351 | In every reachable state no capability names an endpoint slot that is free, so none survives its recycling |
| IpcRuns.LawfulCounts | kernel/src/ipc.rs:512-674 | In a lawful history blocks and wakes pair off, a reply is preceded by its own request, and starts and exits alternate |
| IpcRuns.CallsAnsweredOnce | kernel/src/ipc.rs:614-674 | Over every run each call is answered or bereaved at most once, and a process is blocked exactly when one wait is outstanding |
| IpcRuns.ReplyReachesItsCaller | kernel/src/ipc.rs:647-674 | In every reachable state a reply wakes the one process that made the call, with that word, and the reply capability is gone |
| IpcWords.WordsArrive | kernel/src/ipc.rs:512-640 | Over every run, on every endpoint: the words its receivers are given are the words of the sends and calls made on it, in order and once each, and what is left over is what the senders still waiting there have pending, in the order they wait |
| IpcWords.SendArrives | kernel/src/ipc.rs:512-524 | A send that meets a parked receiver leaves the one that waited longest ready, with exactly the word sent and the slot, empty before, where the capability now is; none if none came; nobody else is touched |
| IpcWords.RecvBrings | kernel/src/ipc.rs:551-578 | A receive that meets a parked sender returns its word and the slot of what came with it; a plain sender is released, a caller waits on and is named by the reply capability in that slot |
| IpcWords.CallArrives | kernel/src/ipc.rs:612-640 | A call that meets a parked server leaves it ready with exactly the request and the slot of the right to answer, if it had room for it; the caller waits |
| IpcWords.DeadPeerExactly | kernel/src/ipc.rs:512-640 | Send, call and receive report a dead peer exactly when no capability anywhere carries the opposite right, and an error exactly when the slot names no endpoint with the right |
| IpcEffects.NobodyThereWaits | kernel/src/ipc.rs:529-539 | With nobody parked on the other side and somebody who could still come, each of the three parks its process last in the queue with its word pending, tells it nothing and changes nothing else |
| IpcRuns.DeathWakesExactly | kernel/src/ipc.rs:387-467 | A death wakes exactly the callers it owed a reply and the waiters it stranded, each told that its peer died; nobody else changes |
| IpcLandings.ReclaimTells | kernel/src/scheduler.rs:1562-1589 | The slot a lender has to be told after a reclamation is that of the first capability that came back to it, in the order of the borrower's table, or the one it already had; with none it is as it was |
| IpcLandings.DeathTellsTheLender | kernel/src/scheduler.rs:849-908 | After a death: the first framebuffer, block range or event source that came back is in an empty slot of its lender, who is told that slot if the death woke it as a stranded waiter and has it pending otherwise; a caller owed a reply is told no slot and has none pending |
| IpcLandings.RecvTellsOnce | kernel/src/ipc.rs:583-600 | A receive on a dead peer reports the pending slot and clears it, changing nothing else; the next one reports none |
| IpcLandings.OnlyDeathTells | kernel/src/scheduler.rs:1562-1589 | No other operation writes what a live process has to be told |
| IpcEffects.DeathLeavesNothing | kernel/src/scheduler.rs:849-908 | After a death its slot is empty, its table holds and reserves nothing, every other process holds every grant it held, and no capability anywhere is claimed by the dead process |
| IpcRuns.ReleaseCanStrand | kernel/src/syscall.rs:663-668 | The failing input: a run in which a voluntary release leaves a sender queued with no receiver |
| IpcAnswers.CallIsAnswerable | kernel/src/ipc.rs:614-640 | A call that meets a waiting receiver leaves a reply capability exactly when the receiver's table had room; without room the caller waits and nothing can answer it |
| IpcAnswers.RecvIsAnswerable | kernel/src/ipc.rs:556-566 | A receive that takes a queued caller leaves a reply capability exactly when the receiver's own table had room; without room the caller waits on and nothing can answer it |
| IpcAnswers.StepAnswersExactly | kernel/src/ipc.rs:551-640 | Every operation keeps each taken call answerable, through transfers, refusals, releases, spawns and deaths, except exactly a hand-over, on either side, into a full table |
| IpcAnswers.OwedIffNamedOnce | kernel/src/ipc.rs:551-674 | Over every run whose hand-overs found room, a process is owed an answer if and only if a reply capability names it, and then exactly one does |
| IpcWitnesses.RecvCanStarve | kernel/src/ipc.rs:556-566 | The failing input: a run from the empty machine after which a receive with a full table leaves its caller blocked and named by no reply |
| IpcWitnesses.CallCanStarve | kernel/src/ipc.rs:614-640 | The failing input on the other side: a run after which a call to a waiting process with a full table does the same |
| IpcLending.ReservedIffOneLoan | kernel/src/capability.rs:502-533 | When the books are kept, a slot is reserved if and only if exactly one capability in the system has it as origin |
| IpcLending.ComesHome | kernel/src/ipc.rs:702-772 | A borrowed capability transferred back lands in exactly the slot it left, owned outright, and the books stay kept |
| IpcLending.TransferLendsExactly | kernel/src/ipc.rs:702-772 | A transfer keeps the books exactly when a first loan is of a returning kind if and only if the receiver has room |
| IpcLending.StrandedReservation | kernel/src/ipc.rs:727-738 | A refused first loan of a returning kind leaves its slot reserved with nothing on its way back |
| IpcWitnesses.LoanCanStrand | kernel/src/ipc.rs:702-739 | A run from the empty machine that does it: the lender ends with its slot reserved, the capability in another, and nothing out |
| IpcLending.SpawnLendsExactly | kernel/src/syscall.rs:886-984 | A spawn keeps the books exactly when what it gives the child is not a first loan of a kind that never returns |
| IpcLending.ReleaseLends | kernel/src/syscall.rs:620-721 | Every voluntary release keeps the books |
| IpcEffects.ReleaseEmpties | kernel/src/syscall.rs:620-721 | A release succeeds exactly for a slot that holds anything but a right to reply, and then empties that slot and changes no other of the table |
| IpcLending.ReleasedComesHome | kernel/src/syscall.rs:688-709 | Releasing a borrowed capability puts it back, owned outright, in the slot it was lent from |
| IpcLending.LenderIsLive | kernel/src/scheduler.rs:1515-1538 | When the books are kept every claim names a live lender other than the holder, with that slot waiting |
| IpcLoans.DieLends | kernel/src/scheduler.rs:849-908 | Every death keeps the books: its borrowings go home and its own claims are cleared everywhere |
| IpcLoans.DeathBringsHome | kernel/src/scheduler.rs:1562-1589 | At the holder's death each borrowed capability is back in the slot it was lent from, owned outright |
| IpcLoans.StepLendsExactly | kernel/src/capability.rs:256-266 | Every operation keeps the books if and only if the loan it makes, if any, is a good one |
| IpcLoans.RunLends | kernel/src/capability.rs:502-533 | Over every run whose loans were good, a slot is reserved if and only if exactly one capability is on its way back to it |
| IpcLoans.StepKeepsLoan | kernel/src/ipc.rs:702-772 | Any step but its lender's death leaves a loan unaltered somewhere, or home and owned outright |
| IpcLoans.LoanEndsAtHome | kernel/src/capability.rs:541-584 | While the slot stays reserved the loan is still out, unaltered; when it stops being reserved the capability is in it |
| IpcLoans.LoanUnchangedWhileOut | kernel/src/capability.rs:256-266 | Over any stretch of a run that keeps the slot reserved, the loaned capability has the same object, rights and claim throughout |
| IpcLoans.StrayLoanTakesTheSlot | kernel/src/capability.rs:256-266 | Why the guard is needed: a returning loan of a kind that reserves nothing takes a slot reserved for another, which then lands elsewhere |
| IpcWitnesses.StrayLoanHappens | kernel/src/capability.rs:541-555 | A run from the empty machine that does it: a frame and then a block range lent from one slot, the frame handed back first; the block range ends in another slot |
| IpcLoans.RefusedTransferIsInvisible | kernel/src/ipc.rs:719-739 | A refused transfer leaves the tables untouched exactly when it was no first loan of a returning kind and no earlier slot of the giver was free |
| IpcLoans.TransferKeepsLoan | kernel/src/ipc.rs:702-772 | A transfer leaves every loan either unaltered somewhere or home |
| IpcReaping.ReapedAtTheEnd | kernel/src/ipc.rs:387-436 | The slot-by-slot and endpoint-by-endpoint loops of reaping amount to one simultaneous wake of all callers owed and all waiters stranded |
| IpcReaping.QueueIsUntouched | kernel/src/ipc.rs:387-436 | A stranded queue's members are not callers already answered by the reply pass, nor of an earlier queue, so none is woken twice |
| IpcReaping.DrainOne | kernel/src/capability.rs:715-721 | Dropping one capability of a table being drained takes exactly its counts, and frees the endpoint exactly at the last one |
| IpcReaping.DrainStep | kernel/src/process.rs:537-606 | One slot of the drain, for all endpoints at once |
| IpcReaping.BuriedAtTheEnd | kernel/src/process.rs:528-610 | The drained counters at the end of the loop are those of the state without the process |
| IpcKernel.Kernel.constructor | kernel/src/ipc.rs:237 | The in-place kernel state starts as the empty machine |
| IpcKernel.Kernel.MoveCap | kernel/src/ipc.rs:702-739 | The in-place transfer, with its failure branch, equals the model's transfer |
| IpcKernel.Kernel.NoteAdded | kernel/src/ipc.rs:324-331 | The in-place count of an arriving capability equals the model's |
| IpcKernel.Kernel.NoteRemoved | kernel/src/ipc.rs:340-351 | The in-place count of a departing capability, freeing at zero or not, equals the model's |
| IpcKernel.Kernel.TakeWaiting | kernel/src/ipc.rs:839-846 | Takes the peer the model takes, from that queue only |
| IpcKernel.Kernel.EnqueueWaiter | kernel/src/ipc.rs:850-857 | Appends to the model's queue |
| IpcKernel.Kernel.WakeWith | kernel/src/scheduler.rs:1427-1446 | Unblocks one process with its answer |
| IpcKernel.Kernel.IpcSend | kernel/src/ipc.rs:512-539 | The in-place operation equals the model's step, state and answer, and keeps the invariant |
| IpcKernel.Kernel.IpcRecv | kernel/src/ipc.rs:551-607 | The in-place operation equals the model's step, state and answer, and keeps the invariant |
| IpcKernel.Kernel.IpcCall | kernel/src/ipc.rs:614-640 | The in-place operation equals the model's step, state and answer, and keeps the invariant |
| IpcKernel.Kernel.IpcReply | kernel/src/ipc.rs:647-674 | The in-place operation equals the model's step, state and answer, and keeps the invariant |
| IpcKernel.Kernel.CapRelease | kernel/src/syscall.rs:620-721 | The in-place release equals the model's step |
| IpcKernel.Kernel.WakeAllStranded | kernel/src/ipc.rs:451-467 | The dequeue loop wakes every waiter of the queue once and empties it |
| IpcKernel.Kernel.ReclaimLentCaps | kernel/src/scheduler.rs:1562-1589 | The loop over the dying table equals the model's reclamation |
| IpcKernel.Kernel.ReapReplies | kernel/src/ipc.rs:389-411 | The first pass wakes exactly the callers owed a reply and counts the dying table's rights per endpoint |
| IpcKernel.Kernel.ReapDying | kernel/src/ipc.rs:387-436 | Both passes equal the model's reaping |
| IpcKernel.Kernel.ClearOriginsNaming | kernel/src/scheduler.rs:1615-1631 | Every other table loses exactly the claims of the dying lender |
| IpcKernel.Kernel.DrainTable | kernel/src/process.rs:537-606 | The drain loop empties the table and adjusts every endpoint exactly |
| IpcKernel.Kernel.OnExit | kernel/src/scheduler.rs:849-908 | The whole exit path, loops included, equals the model's death step and keeps the invariant |
| IpcSpawn.NewEndpoint | kernel/src/ipc.rs:306-318 | The scan takes the first free endpoint and leaves it in use, unreferenced and empty |
| IpcSpawn.FreeSlot | kernel/src/scheduler.rs:1811-1814 | The scan finds the first empty process slot |
| IpcSpawn.SetUp | kernel/src/scheduler.rs:645-708 | The child is ready with the budget in slot 0 and the grants after it in order, each counted |
| IpcSpawn.ReleaseEndpoint | kernel/src/ipc.rs:356-364 | Frees the endpoint exactly when nothing references it |
| IpcSpawn.Abandon | kernel/src/syscall.rs:946-968 | The failure branch, whichever step failed, equals the model's: endpoint released, capability taken back and counted again |
| IpcSpawn.Spawn | kernel/src/syscall.rs:886-984 | The in-place `spawn_scheduled`, success and failure, equals the model's step, state and handle, and keeps the invariant |
| UserMaps.AccessNeedsAuthority | kernel/src/process.rs:455-503 | Whatever a process can reach in its mapping window it reaches through one recorded slot, whose capability carries the map right and names that physical page, and which is not executable, or it is a page of `bind_device`, which records none |
| UserMaps.FrameMapKeeps | kernel/src/syscall.rs:302-349 | Succeeds exactly for an aligned, unmapped address in the window, a frame held with the map right, and a free record; then that one page appears, writable and not executable, recorded under the slot |
| UserMaps.FbMapKeeps | kernel/src/syscall.rs:358-489 | Succeeds exactly for a framebuffer held with the map right, a free record, a picture that is not empty, an aligned span inside the window with none of its pages mapped, a geometry pointer that can be written, and room in the mapper; then every page of the picture appears in order, writable and not executable, recorded under the slot, and otherwise nothing changes |
| UserMaps.FbPagesHold | kernel/src/syscall.rs:390-391 | The pages mapped hold every byte of stride times height times bytes per pixel, and not a page more |
| UserMaps.CutIsExact | kernel/src/process.rs:482-503 | Taking a capability out of its slot removes exactly the pages recorded under it: none reachable through it remains, no other is touched |
| UserMaps.ArrivalKeeps | kernel/src/capability.rs:541-619 | A capability arriving in an empty slot gives no access and takes none |
| UserMaps.BindIsLoose | kernel/src/syscall.rs:509-598 | Succeeds exactly for a bound device held with the map right and still bound, six aligned free pages inside the window, an info pointer that can be written, and room; then the doorbell, the three rings, the header and the data page appear there in that order, recorded nowhere, and recorded access is as it was |
| UserSpaces.UserSpace.MapFrame | kernel/src/syscall.rs:304-345 | The in-place `frame_map` equals the functional step |
| UserSpaces.UserSpace.MapFb | kernel/src/syscall.rs:358-489 | The in-place `fb_map`, with its mapping loop and rollback, equals the functional step |
| UserSpaces.UserSpace.MapStretch | kernel/src/syscall.rs:435-448 | Maps the whole stretch, or undoes what it had mapped and leaves the page table as it was |
| UserSpaces.UserSpace.TakeFbs | kernel/src/process.rs:105-121 | Takes exactly the records of the slot and clears exactly those |
| UserSpaces.UserSpace.UnmapFb | kernel/src/process.rs:512-523 | Unmaps exactly the pages recorded under the slot |
| UserSpaces.UserSpace.RevokeAndUnmap | kernel/src/process.rs:482-503 | The in-place revocation equals the functional step: the access leaves with the authority |
| UserSpaces.UserSpace.RevokeForLend | kernel/src/process.rs:469-480 | The same, with the slot held open exactly for a first loan of a returning kind |
| UserSpaces.UserSpace.Teardown | kernel/src/process.rs:528-610 | Every frame the table owns and every frame the loader recorded is free again, once each, and no other; no recorded page stays mapped |
| UserSpaces.UserSpace.BindDevice | kernel/src/syscall.rs:509-598 | The in-place `bind_device`, with its mapping loop and rollback, equals the functional step |
| UserSpaces.UserSpace.MapPages | kernel/src/syscall.rs:572-588 | Maps all of the listed pages, or undoes what it had mapped and leaves the page table as it was |
| UserSpaces.UserSpace.Unbind | kernel/src/virtio_blk.rs:1395-1425 | Frees exactly the five frames of the binding, once each |
| FrameOwnership.DevicePagesApart | kernel/src/virtio_blk.rs:1368-1385 | No physical page belongs to two bound devices |
| FrameOwnership.TetherCut | kernel/src/syscall.rs:509-598 | A bound device leaving its slot leaves its holder's other unrecorded access under authority, and leaves all of it under authority exactly when none of that device's pages was mapped |
| FrameSteps.GrabKeeps | kernel/src/syscall.rs:279-298 | `frame_alloc` moves one free frame to one capability, or moves nothing |
| FrameEffects.GrabGives | kernel/src/syscall.rs:279-298 | `frame_alloc` takes the lowest free frame and puts it in the first open slot, to read, write and map; it does nothing exactly when there is no free frame or no open slot |
| FrameEffects.BestowGives | kernel/src/capability.rs:593-595 | A kernel grant puts exactly that capability in the first open slot and touches no frame and no mapping |
| FrameSteps.AttachKeeps | kernel/src/virtio_blk.rs:845-870 | Setting up a binding moves five free frames to the device |
| FrameSteps.BindKeeps | kernel/src/syscall.rs:509-598 | Mapping a bound device keeps one owner per frame and access under authority |
| FrameDepartures.GiveKeepsExactly | kernel/src/ipc.rs:702-772 | A transfer moves the frame with its capability and takes the giver's recorded mappings away, and a refused one never loses a frame; it keeps ownership and authority exactly unless it lands a bound device the giver still maps |
| FrameEffects.GiveMoves | kernel/src/ipc.rs:702-772 | A transfer lands exactly when the receiver has an open slot or keeps one for its return; then the slot it left is empty, the same grant is in one empty slot of the receiver, the giver has lost exactly the pages recorded under the slot, and nobody else has lost or gained |
| FrameDepartures.FrameDropped | kernel/src/syscall.rs:642-659 | Releasing a frame keeps every invariant and the frame is free |
| FrameDepartures.DeviceDropped | kernel/src/virtio_blk.rs:1395-1425 | Releasing a bound device frees its frames, and keeps one owner per frame and access under authority exactly when the releaser has none of its pages mapped |
| FrameDepartures.DropKeepsExactly | kernel/src/syscall.rs:620-721 | Every voluntary release keeps one owner per frame and access in step with authority, exactly unless it is of a bound device whose pages the releaser still maps |
| FrameEffects.DropTakes | kernel/src/syscall.rs:620-721 | A release empties its slot and takes exactly the pages recorded under it; it frees that frame, or the five frames of that device and the binding, or nothing, by what it named; a right to reply and an empty slot change nothing |
| FrameDepartures.ExitKeeps | kernel/src/process.rs:528-610 | Death frees exactly the frames of the process's table and of its loader, and keeps every invariant; a bound device keeps its own |
| FrameEffects.ExitRemoves | kernel/src/process.rs:528-610 | A death removes its process and its mappings; every other process keeps every grant and every mapping, with no claim left by the dead one |
| FrameDepartures.SpawnKeepsExactly | kernel/src/syscall.rs:886-984 | A spawn, succeeding or failing at any point, keeps one owner per frame, the child's image and the gift included; exactly unless it gives the child a bound device the parent still maps |
| FrameEffects.SpawnLaunches | kernel/src/syscall.rs:886-984 | A successful spawn fills the first empty slot with a child that has the frames its image took, nothing mapped in its window, and its budget, result endpoint and gift; the caller has lost the gift and exactly the pages mapped through it |
| FrameRuns.StepKeepsExactly | kernel/src/syscall.rs:279-721 | Every operation keeps one owner for each pooled frame and access only under authority, except exactly a release, transfer or gift of a bound device that the process doing so still has mapped |
| FrameRuns.Run | kernel/src/syscall.rs:279-721 | In every state reached without such a step each frame of the pool is exactly one of free, lost by a failed load, or kept by one capability, one loaded process or one bound device |
| FrameRuns.AuthorityForAccess | kernel/src/process.rs:455-503 | In each of those states whatever a process can reach in its window, recorded or not, some capability it holds lets it map |
| FrameRuns.Isolation | kernel/src/process.rs:455-503 | A pooled frame one process can reach is neither free nor reachable by another: its one keeper is what that process's own slot names |
| FrameRuns.RunIsolates | kernel/src/process.rs:455-503 | The same in every state a run reaches |
| FrameRuns.ReleaseCanShare | kernel/src/virtio_blk.rs:1395-1425 | The failing input: a run that binds a device, after which its release frees five frames still mapped by the releaser, the next process is granted one of them, and both have it mapped writable |
| InputEvents.DriversWireEvents | kernel/src/input.rs:48-67 | Events as the drivers build them stay within their packed fields, for every scancode and every movement |
| InputEvents.PackRoundTrip | kernel/src/input.rs:73-75 | Unpacking a packed event gives it back, and a packed event is never zero and leaves bit 31 clear |
| InputEvents.FlagIsSeparate | kernel/src/input.rs:73-75 | With the drop flag overlaid, both the event and the flag can be read back without ambiguity |
| InputEvents.DeltasSurvive | kernel/src/input.rs:61-75 | Both signed mouse deltas and seven button bits survive packing |
| RingQueues.GoodSizesArePowersOfTwo | kernel/src/rings.rs:138-150 | On 32-bit vectors, the registration test accepts exactly the powers of two up to 64 |
| RingQueues.MaskIsRemainder | kernel/src/rings.rs:490-500 | On 32-bit vectors, masking by size minus one is the remainder by the size |
| RingQueues.SlotOfCount | kernel/src/rings.rs:490-500 | The slot of a wrapped index is the slot of the true count, for every count |
| RingQueues.WrapSubIsDistance | kernel/src/rings.rs:472-490 | Wrapping subtraction of two wrapped counts is their true distance while that is below 2^32 |
| RingQueues.PutKeepsIntact | kernel/src/rings.rs:490-500 | A put keeps every unread entry in its slot exactly when there was room |
| RingQueues.WrapSubWraps | kernel/src/rings.rs:483-489 | Wrapping subtraction of two wrapped counts is their true distance modulo 2^32, for any distance |
| RingQueues.Standing | kernel/src/rings.rs:490-500 | What stands in an entry's slot is the last entry put there: the entry itself exactly while no more than the size have followed |
| Rings.Ring.constructor | kernel/src/rings.rs:138-210 | A new ring is empty on both sides |
| Rings.Ring.UnreapedAreThere | kernel/src/rings.rs:443-453 | Every unread completion is still in its slot if and only if there are no more of them than slots |
| Rings.Ring.Post | kernel/src/rings.rs:472-514 | A post appends, or an event leaves everything unchanged: an event is refused exactly when the index distance, modulo 2^32, is at least the size; unread entries survive exactly when there was room; the owner is woken exactly when it was waiting |
| Rings.Ring.Reap | libos/src/ring.rs:343-377 | The reader takes what stands in the slot of its oldest unread completion, across index wrap-around: that completion while none has been overrun |
| Rings.Ring.Push | libos/src/ring.rs:661-672 | An honest push appends if there is room and otherwise changes nothing |
| Rings.DriveCq | kernel/src/rings.rs:472-514 | Over any number of posts and reaps, with room or without, the ring gives the answers of the list of all completions and a count of those read |
| Rings.TapeIsFifo | kernel/src/rings.rs:443-453 | While every block completion finds room that is a bounded FIFO: same outputs, same unread contents |
| Rings.OverrunReadsTheNewest | kernel/src/rings.rs:443-453 | The first block completion that finds none is what the reader is given in place of its oldest entry |
| EventStreams.LossesAreTheRun | kernel/src/rings.rs:774-790 | The sticky count is the length of the current run of losses, saturating |
| EventStreams.ReaderSees | kernel/src/rings.rs:774-790 | The reader sees the admitted events in order, and each carries the drop flag exactly when the event delivered just before it was lost |
| EventStreams.SeenIsDelivered | kernel/src/rings.rs:774-790 | Everything the reader sees is one admitted delivery, so its stream is a subsequence of the source |
| EventStreams.ReaderDecodes | kernel/src/rings.rs:774-790 | With driver-packed events the reader recovers the event and the flag |
| EventRuns.RoutedUnder | kernel/src/rings.rs:774-790 | One event puts at most one completion under a subscription's key, flagged by that subscription's own count |
| EventRuns.Watch | kernel/src/rings.rs:636-655 | Any run of events, block completions and reads on the table does what a plain board of queues does: every queue, every subscription's count, every event admitted or dropped, and every completion read |
| EventRuns.GivenIffRoom | kernel/src/rings.rs:472-490 | A subscription is given an event if and only if its queue has room left after the subscriptions before it; where none of those leads there, if and only if fewer are unread than the queue holds |
| EventRuns.StreamOverRun | kernel/src/rings.rs:774-790 | Over every run with room for the ring's block completions: what the owner has read under a fresh subscription's key, then what is unread, is exactly the admitted events of its source, flagged; every event of the source was offered, in order |
| EventRuns.ValidKeysAreOwn | kernel/src/rings.rs:732-739 | In a valid table no other subscription has the key of a subscription and its count is that of its log, as the stream theorem asks |
| RingTables.FindSub | kernel/src/rings.rs:807-811 | The first subscription with that ring and user data |
| RingTables.RingTable.constructor | kernel/src/rings.rs:108 | No ring, no subscription, nobody parked |
| RingTables.RingTable.Register | kernel/src/rings.rs:138-210 | Takes the first free slot for a good size, with an empty ring; otherwise changes nothing |
| RingTables.RingTable.PostTo | kernel/src/rings.rs:472-514 | A post to a live ring is the ring's post; a released ring swallows it; no other ring changes |
| RingTables.RingTable.Deliver | kernel/src/rings.rs:636-655 | Each subscription on the source is offered the event, refused exactly when its queue is full by then, and counts it; each ring gains exactly what is routed to it; every owner parked on a ring reached is woken, and woken once; nobody parked is ever on a non-empty queue |
| RingTables.RingTable.Complete | kernel/src/rings.rs:451-453 | A block completion is appended to its ring and wakes its owner exactly when parked on it |
| RingTables.RingTable.Wait | kernel/src/rings.rs:564-587 | Parks exactly on an empty queue; no wake-up is lost |
| RingTables.RingTable.ReapFrom | libos/src/ring.rs:343-377 | A read takes what stands in the slot of the oldest unread completion of that ring and disturbs no wait |
| RingTables.RingTable.Subscribe | kernel/src/rings.rs:732-739 | Fails exactly for a taken key or a full table; otherwise fills the first free entry with a zero count |
| RingTables.RingTable.CancelSub | kernel/src/rings.rs:744-752 | Removes exactly the subscription with that key |
| RingTables.RingTable.Release | kernel/src/rings.rs:593-602 | Frees the ring and drops exactly its subscriptions; nobody is left asleep exactly when nobody was waiting on it |
| RingTables.PostMissesNobody | kernel/src/rings.rs:472-514 | A post keeps: a waiting ring is empty with its owner parked, and a parked process waits on exactly one ring or is due a wake-up |
| RingTables.ParkMissesNobody | kernel/src/rings.rs:564-587 | Parking on an empty queue keeps the same |
| RingSubmit.IoIsAuthorised | kernel/src/rings.rs:320-431 | A request that passes the checks lies inside a block range the submitter holds in that direction and uses a frame it holds that way |
| RingSubmit.AuthorisedCanBeAsked | kernel/src/rings.rs:320-431 | Every such request is accepted for some entry, so the checks refuse no more than they must |
| RingSubmit.OnlyAuthorisedRequests | kernel/src/rings.rs:247-431 | Over any entries, whatever the submitter wrote, every request that reaches a device is authorised and earlier ones are kept |
| RingRights.BlockEntryExactly | kernel/src/rings.rs:314-431 | A block entry is refused as malformed, out of range, not held or without a device, each exactly in its own case on the entry and the capabilities held, under its own user data; otherwise exactly the request it asks for is started: disk, sector, count, frame, direction, ring and user data |
| RingRights.OtherEntryExactly | kernel/src/rings.rs:528-557 | An entry of any other kind: a subscription to exactly the source named by a held event-source capability with the read right, in the first free place, exactly when the source exists, the key is fresh and there is a place; an error completion exactly when not; a cancellation; or an unknown operation |
| RingRights.CancelLeavesNone | kernel/src/rings.rs:543-549 | A cancellation leaves no subscription with its key and touches no other |
| RingRights.EverythingIsAskedFor | kernel/src/rings.rs:247-557 | Over any entries: a subscription that was not there before is on this ring, has lost nothing, carries the user data of an entry and names a source its submitter may read; other rings' subscriptions are untouched; each request and each completion comes from an entry and the condition for it |
| RingRights.SubscriptionStands | kernel/src/rings.rs:528-549 | Over any entries, a subscription stays as it is, in its place, until its own key is cancelled |
| RingSubmit.PostEntry | kernel/src/rings.rs:295-312 | One entry has the effect of the functional handler, or none at all when its device is full |
| RingSubmit.Submit | kernel/src/rings.rs:247-289 | Terminates for any tail value; handles the entries consumed in order; for an honest submitter they are exactly the next ones pushed, and it stops short only at one whose device is full |
| RingSubmit.Doorbells | kernel/src/rings.rs:247-289 | Over any interleaving of honest pushes and submits, the entries consumed are a prefix of those pushed, in order and once each, and the effect is that of handling them in order |
| RingSubmit.BlockDevices.Post | kernel/src/rings.rs:364-374 | Accepts exactly while the device has room |
| RingSubmit.BlockDevices.Finish | kernel/src/virtio_blk.rs:1018-1063 | The device is done with one request in flight, whose place is free again |
| RingCredit.DrainSpends | kernel/src/rings.rs:247-289 | Draining an entry posts at most one completion or sends at most one request |
| RingCredit.WholeIffWithin | kernel/src/rings.rs:443-453 | If the requests in flight finish before the next read, no unread completion is overwritten if and only if they and the unread ones are no more than the queue holds |
| RingCredit.EventCanTakeTheLastPlace | kernel/src/rings.rs:456-490 | The failing input: an event admitted when every place is spoken for makes the reader lose a completion once the requests in flight finish |
| RingCredit.Serve | kernel/src/rings.rs:443-453 | Over every run of pushes, doorbells, completions, events and reads, in which pushes and events wait while unread completions, queued entries and requests in flight leave them no place, no unread completion is ever overwritten: the reader is given every completion posted, in order |
| Elf.Rd | kernel/src/elf.rs:209-219 | Little-endian reads succeed exactly when they are inside the file and fit their width |
| Elf.HeaderOf | kernel/src/elf.rs:229-280 | An accepted header has at most 16 program headers, all inside the file |
| Elf.Parse | kernel/src/elf.rs:229-379 | The loop over program headers computes exactly the declarative verdict, the error of the first offending header included |
| Elf.Check | kernel/src/elf.rs:311-352 | The per-segment checks, in their order, give the declarative error of that segment |
| Elf.HasEntry | kernel/src/elf.rs:369-376 | True exactly when the entry point is inside an executable segment |
| Elf.AcceptedExactly | kernel/src/elf.rs:229-379 | A file is accepted exactly when its header is good, it has no interpreter, its load segments are aligned, in the window, in the file, not writable and executable, pairwise disjoint and within the page budget, and one executable segment holds the entry |
| ElfLayout.PhdrIsRead | kernel/src/elf.rs:286-304 | A program header as ELF64 lays it out, its eight fields in order and little-endian, is read back field for field |
| ElfLayout.HeaderComplaint | kernel/src/elf.rs:236-280 | A file header as ELF64 lays it out is refused with each error exactly when that field is the first that is wrong |
| ElfLayout.LinkedFileIsLoaded | kernel/src/elf.rs:229-379 | Of a file with such headers: accepted exactly when it is a native static program whose loadable segments form a good image with the entry point in an executable one, and the image is then exactly those segments, in order, and that entry |
| ElfLayout.ComplaintIsTrue | kernel/src/elf.rs:282-363 | The error a file is refused with names a fault that is there, in one of its program headers |
| ElfLayout.FlagBits | kernel/src/elf.rs:66-69 | Readable, writable and executable are the bits of weight four, two and one |
| Elf.ScanAccepts | kernel/src/elf.rs:282-363 | No complaint over the first headers exactly when those load segments form a good image |
| Elf.PagesApart | kernel/src/elf.rs:339-345 | Byte-disjoint page-aligned segments share no page |
| Loader.PlanIsInjective | kernel/src/process.rs:279-345 | No address is planned twice, image and stack together |
| Loader.ImageBelowStack | kernel/src/process.rs:29-36 | Every image page lies inside the image window, so none meets a stack page |
| Loader.PlanIsWx | kernel/src/elf.rs:165-174 | No planned page is both writable and executable |
| Loader.ByteOfSegment | kernel/src/process.rs:296-317 | Byte k of a segment is the file's byte below filesz and zero from there to memsz |
| Loader.LoadAndMap | kernel/src/process.rs:279-352 | Succeeds exactly when the image is good and frames, mapper and addresses suffice; then the address space, record array and frames are exactly the plan's; a failure restores the address space and returns every frame but the one a refused mapping had taken |
| Loader.RollBack | kernel/src/process.rs:279-352 | Unmaps exactly the recorded pages and frees exactly their frames |
| Loader.UserReads | kernel/src/process.rs:279-352 | After a successful load every byte of every segment reads as the file says through the page tables, with the segment's own permissions and never writable and executable |
| Loader.StackReads | kernel/src/process.rs:325-339 | After a successful load the four pages below the top of the stack read as zero and are writable and not executable |
| FbConsoles.FbConsole.PixelsApart | kernel/src/fbcon.rs:150-185 | Distinct pixels occupy disjoint bytes, for every geometry the console accepts |
| FbConsoles.FbConsole.PutPixel | kernel/src/fbcon.rs:150-185 | Sets the one visible pixel in the format's byte order and no other, inside the buffer; an unknown format writes nothing |
| FbConsoles.FbConsole.Clear | kernel/src/fbcon.rs:71-79 | Shows a blank screen with the cursor at the top |
| FbConsoles.FbConsole.BlitGlyph | kernel/src/fbcon.rs:109-118 | Paints the glyph in the cursor cell and no other pixel |
| FbConsoles.FbConsole.MoveUp | kernel/src/fbcon.rs:123-138 | The overlapping copy moves every visible row up by one text line |
| FbConsoles.FbConsole.ScrollLine | kernel/src/fbcon.rs:123-146 | Every row moves up one line, the last line is blank and the cursor is on it |
| FbConsoles.FbConsole.AdvanceLine | kernel/src/fbcon.rs:96-105 | Refines the text's new line, scrolling exactly when there is no room for another line, on every height |
| FbConsoles.FbConsole.WriteByte | kernel/src/fbcon.rs:81-94 | Refines one character written, for every byte: newline, return, wrap and draw |
| FbConsoles.FbConsole.WriteStr | kernel/src/fbcon.rs:189-194 | From a shown text, any bytes: the visible pixels are the rendering of the lines those bytes produce |
| FbTexts.TextWraps | kernel/src/fbcon.rs:81-94 | For every plain text from every cursor: byte number i stands exactly i places past the cursor, counting on in rows of the screen's width; nothing else changes and the cursor ends after the last |
| FbTexts.ReturnOverwrites | kernel/src/fbcon.rs:84 | After a carriage return a text replaces the beginning of the last row, what it does not reach stays, and no row is added |
| FbTexts.NewlineStarts | kernel/src/fbcon.rs:83 | After a newline a text stands at the beginning of one new row, blank after it, and every row above is as it was |
| FbTexts.CellIsSeen | kernel/src/fbcon.rs:109-118 | A pixel of a cell is lit exactly when a character stands there and its glyph has that bit |
| FbTexts.LitBits | kernel/src/fbcon.rs:112-114 | A glyph row is the sum of its pixels from left to right, the first worth 128 and the last 1 |
| FbTexts.ColourIsShown | kernel/src/fbcon.rs:155-176 | A display that reads the channels in the format's order shows the colour asked for, a grey one its weighted brightness rounded down; ink is light grey on black |
| FbConsoles.WriteStaysWellFormed | kernel/src/fbcon.rs:81-105 | No two lines share a pixel row and the last one is wholly on the screen, whatever is written |
| FbConsoles.NewLineKeepsGridExactly | kernel/src/fbcon.rs:96-105 | A new line keeps the lines evenly spaced exactly when it needs no scrolling or scrolls from the last line the screen has |
| FbConsoles.WholeLinesStayAGrid | kernel/src/fbcon.rs:96-146 | On a height of whole lines a cleared screen is a grid, whatever is written |
| FbConsoles.FirstScrollLeavesAGap | kernel/src/fbcon.rs:96-146 | On any other the first scroll leaves a gap of the remainder between two lines |

## Left out

- FrameAllocator.FrameAlloc.constructor: region ends near 2^64, where rounding up to a frame would wrap, are not modelled; and the memory map must have a usable region large enough for the bitmap, where the kernel panics instead.
- IommuDomain.AllocTable: frames are below 2^52, the width of an entry's address field.
- IommuBinding.BlockIommu.BindPrepare: the frames of a domain dropped by a failure after it was built are tracked as lost, not returned, because the code does not return them.
- IommuBinding.BlockIommu.Attach: the AMD-Vi device table has 128 entries; it is modelled as 256 of which the upper half is never written.
- Registers, invalidation, fault reporting and bring-up of the remapping hardware, and the root table above the context table.
- IpcModel: message words are unbounded numbers; rights are a set instead of a bit mask; a process parked in `ring_wait` or `bind_wait` does not appear as blocked in the message states.
- IpcKernel.Kernel.CapRelease: gives back endpoints and borrowed capabilities; frames and bound devices are in FrameWorld, rings in RingTables.
- IpcSpawn.Spawn: whether the image loads is a parameter here; the loader itself is Loader.LoadAndMap.
- Scheduling: which ready process runs, stealing between cores, time slices and the saved contexts. One kernel entry is one atomic step, as the kernel lock makes it.
- UserMaps: `is_user_accessible` on the geometry pointer and the mapper's supply of page-table frames are parameters; framebuffer sizes whose byte product exceeds 2^64.
- FrameRuns.Run: the mapper's own page-table frames and the tables of a device's domain are not in the pool of frames it follows; a ring's two frames are frames like any other; a device is set up before its capability is granted, once, as the boot code does, and a device whose holder died without releasing it keeps its frames.
- Rings.Ring.Reap: the completion head the owner publishes is assumed honest; the submission tail and entries may be anything (RingSubmit.Submit).
- Rings.Ring.Push: an honest library OS checks for room before it pushes; the reference executor in libos/src/ring.rs instead bounds how much it has outstanding.
- RingTables.RingTable.Wait: fewer than 2^32 unread completions, which is what the equality of the two indices can tell apart.
- RingTables.RingTable.Register: the two frames of a ring are its own; the kernel compares only a ring's two frames with each other.
- RingSubmit.BlockDevices.Post: the device driver is reduced to how much room it has and which requests are in flight; completions come back through RingTables.RingTable.Complete.
- Loader.LoadAndMap: the page-table mapper is reduced to a budget of entries it can still make.
- FbConsoles.FbConsole.WriteStr: heights and widths of at least eight, widths at most the stride, a known pixel format of at most four bytes; the font table is a parameter.
- Process maps of the loader's own pages, ACPI and PCI discovery, NVMe and virtio internals, interrupt and context-switch code, file systems and user programs.
