# gpumemd verification

gpumemd is a daemon that brokers accelerator memory between processes. This project models its
decision-making parts in Dafny 4.11 and proves what they promise. `dafny verify dfyconfig.toml`
checks all of it.

## What is modelled

**Address space** (`PoolAllocator.dfy`). The pool strategy of the memory allocator: address-ordered
first fit, a sort and a merge loop on release. The class edits its free list in place, and its
methods take exactly the steps `AllocateStep` and `ReleaseStep`, written with wrapping 64-bit
arithmetic and without any invariant. From a tiled pool each step is proved to keep the tiling and
to meet the relation `Allocates` or `Releases`, which fixes the answer and the live allocations in
terms of addresses and asks that the resulting pool be tiled. Free blocks and live allocations tile
the address space, the free list is a unique normal form, so out-of-memory is an exact answer about
address space, release undoes allocate, and the order of releases does not matter.

**Admission** (`Scheduler.dfy`, `Admission.dfy`, `AdmissionLaws.dfy`, `AdmissionRuns.dfy`,
`AdmissionOutcomes.dfy`, `ResourceManagement.dfy`). The resource manager is a state machine whose
events are the critical sections of its one mutex, with clock readings as parameters (`acquire`
takes two: `now` on arrival and `again` when the caller enters the wait loop). Every step also
yields a log of what became of client requests. The class holds the queue as objects that its
methods complete one by one; each method is proved to take exactly one step of the machine and to
have told every waiter what the log says. `Snapshots.dfy` is what a status request shows. Over all
runs: the books balance within the capacity, nothing that waits would fit, nobody is overtaken
except by a smaller or better-ranked request, and each request is settled exactly once.
`AdmissionOutcomes.dfy` tells each call without its steps: for every answer exactly when it is
given, what is queued with which deadline, and what every part of the state holds afterwards.

**Residency** (`ModelStores.dfy`, `Residency.dfy`, `ResidencyLaws.dfy`, `ResidencyRuns.dfy`,
`History.dfy`, `Eviction.dfy`, `ResidencyOutcomes.dfy`, `ResidencyManagement.dfy`). `load` holds the
residency mutex but enters the resource manager twice, so it is modelled in phases (lookup, plan,
device, replace, finalize) and `unload` in two; client traffic and registrations may come between
any two phases. The invariant says, phase by phase, what registry, residency records, model
reservations and device allocations hold. From it: agreement of the four stores at rest, pinning of
referenced models, a failed load leaves nothing behind, and the exact condition under which a load
succeeds. `Eviction.dfy` says in the fields of the records what a ranking by score is, exactly and
for every monotone rounding, and `ResidencyOutcomes.dfy` what each uninterrupted call comes to.

**Wire** (`Numerals.dfy`, `Protocol.dfy`, `ClientCommands.dfy`, `CommandLanguage.dfy`,
`ParserVerdicts.dfy`, `ServerSession.dfy`, `Delivery.dfy`, `Responses.dfy`, `Readings.dfy`,
`Listings.dfy`, `Replies.dfy`, `Sharing.dfy`). Parsing of numbers, sizes and commands, with the
exact error for every line; the lines the client prints; the cutting of a byte stream into lines,
for every chunking; what becomes of a printed line from the client to the daemon's understanding of
it, with the exact set of commands that can arrive; the client's read-until-complete loop, for every
chunking; what a listing says to whoever splits it into lines and words; and the way of a shared
device handle from bytes to hexadecimal text and back.

`Common.dfy` holds 64-bit sizes, names and ledger totals. A field of type `Bytes` carries the proof
that the arithmetic assigned to it does not wrap. `Sorting.dfy` stands in for the C++ library sort:
any permutation that is in order, so equal elements may come out either way.

## Where the code and its documentation disagree

The model follows the code.

- The project's README describes the cost as the sixth field of an acquire command, after the
  timeout. The parser reads the timeout only when it is the last field
  (src/protocol/protocol.cpp:344-357), so a request with a cost waits without limit.
  `Delivery.AcquireArrives` gives the exact outcome for every request,
  `Delivery.AcquireRoundTripIff` the exact condition for a faithful one, and
  `ClientCommands.CostDropsTimeout` a concrete line.
- A negative cost is looked at only when a request joins the queue
  (src/core/resource_manager.cpp:129-142): a request that may not wait, or that finds the queue
  empty and enough room, is not refused for it. `AdmissionRuns.NegativeCostIsRefusedIff` gives the
  condition for every such request, `NegativeCostGranted` and `NegativeCostGrantedAtOnce` an
  instance of either kind. Over the wire a negative cost cannot occur
  (`CommandLanguage.AcceptedIsSayable`).
- A timeout whose deadline is the very last reading of the clock waits for ever, because that
  reading stands for "never" (src/core/resource_manager.cpp:146-165):
  `AdmissionRuns.AcquireThatDoesNotFit` excludes it.
- The client prints any name it is given. `Delivery.AcquireRoundTripIff` and its companions hold for
  all of them; `BlankNameIsAnotherRequest` is a name that arrives as another name, size, priority
  and timeout, `ReturnReleasesAnother` one that releases another client.
- The daemon drops a carriage return before a newline, but counts it against the limit of 4096
  bytes: `ServerSession.ReturnsReadIff`, and `LongestLineCannotReturn` for the one length concerned.
- The model listing ends at a line `END`, but a source path may end in these letters too, and then
  the client can stop early: `Listings.ModelsAreReceivedIff` and `LegendIsCutShort`.
- The client looks for a listing verb at the very start of its command, the daemon skips leading
  blanks and drops one carriage return: `Replies.SentListingIsExpectedIff`. `ReturnHidesStatus` is a
  status command whose listing the client can cut short.

## Model

| member | source | states |
|---|---|---|
| Common.TotalWithout | src/core/resource_manager.cpp:184-191 | the sum of a ledger is independent of order: removing any one entry lowers it by that entry |
| Common.ValidNameIff | src/core/resource_manager.cpp:17-27 | a name is valid exactly when it has one to sixty-four characters, each with the code of a digit, a letter, a hyphen, a full stop or an underscore |
| PoolAllocator.MemoryAllocator.Create | src/core/memory_allocator.cpp:8-13 | construction fails exactly for capacity zero; otherwise one free block spans the address space |
| PoolAllocator.MemoryAllocator.Allocate | src/core/memory_allocator.cpp:27-66 | refuses bad ids, zero sizes and duplicates without a change, fails with out-of-memory exactly when no interval of that length avoids all live allocations, and otherwise hands out the lowest such interval and keeps the tiling |
| PoolAllocator.MemoryAllocator.Carve | src/core/memory_allocator.cpp:55-60 | the chosen block loses exactly its first addresses and vanishes when nothing is left |
| PoolAllocator.MemoryAllocator.Release | src/core/memory_allocator.cpp:68-84 | an unknown id changes nothing; otherwise the named interval, and only it, becomes free and the tiling holds again |
| PoolAllocator.MemoryAllocator.Coalesce | src/core/memory_allocator.cpp:86-98 | from any pairwise disjoint blocks, the canonical list of the same addresses and the same total |
| PoolAllocator.Merge | src/core/memory_allocator.cpp:89-97 | the merge loop, whose additions do not wrap, makes of ascending blocks separated non-empty blocks with the same cover and sum |
| PoolAllocator.AbsorbedIsCanonical | src/core/memory_allocator.cpp:89-97 | merging ascending blocks, even with wrapping arithmetic, gives the canonical list of the same addresses |
| PoolAllocator.SortedIsAscending | src/core/memory_allocator.cpp:87-88 | sorting disjoint blocks by offset gives an ascending list with the same cover |
| PoolAllocator.CanonicalIsUnique | src/core/memory_allocator.cpp:86-98 | two canonical block lists covering the same addresses are equal |
| PoolAllocator.LiveDeterminesPool | src/core/memory_allocator.cpp:63-97 | the whole pool, free list and byte counts included, is a function of capacity and live allocations |
| PoolAllocator.IntervalInOneBlock | src/core/memory_allocator.cpp:49-51 | a fully free interval lies inside a single block of a canonical free list |
| PoolAllocator.FirstFitIsLowest | src/core/memory_allocator.cpp:49-57 | the start of the first long enough block is the lowest address with room anywhere |
| PoolAllocator.NoFitMeansNoRoom | src/core/memory_allocator.cpp:52-54 | if no block is long enough, no interval of that length is free anywhere |
| PoolAllocator.TakeMeetsSpec | src/core/memory_allocator.cpp:55-65 | carving the first fit yields a tiled pool, a used count within the capacity, and the answer the relation asks for |
| PoolAllocator.ReleaseMeetsSpec | src/core/memory_allocator.cpp:76-83 | any canonical list covering the old free addresses and the freed block completes a correct release |
| PoolAllocator.AllocateStepMeetsSpec | src/core/memory_allocator.cpp:27-66 | on a tiled pool, index search and carving, with wrapping arithmetic, keep the tiling and give the exact answer about address space |
| PoolAllocator.ReleaseStepMeetsSpec | src/core/memory_allocator.cpp:68-98 | on a tiled pool, removal, any sort and the merge keep the tiling and free exactly the named interval |
| PoolAllocator.OutcomeIsDetermined | src/core/memory_allocator.cpp:27-84 | answer and resulting pool of allocate and of release are unique |
| PoolAllocator.AllocateThenRelease | src/core/memory_allocator.cpp:27-84 | releasing what was just allocated restores the whole pool, free list included |
| PoolAllocator.ReleasesCommute | src/core/memory_allocator.cpp:68-84 | two releases give the same pool and the same answers in either order |
| PoolAllocator.EveryAddressHasOneOwner | src/core/memory_allocator.cpp:27-98 | each address is in exactly one free block or exactly one live allocation |
| PoolAllocator.StepKeepsTiling | src/core/memory_allocator.cpp:27-98 | each call, as the code performs it, keeps the tiling |
| PoolAllocator.RunStaysTiled | src/core/memory_allocator.cpp:27-98 | over every sequence of calls as the code performs them, the pool stays tiled and every answer is the exact one |
| PoolAllocator.DrainedRunIsAsNew | src/core/memory_allocator.cpp:68-98 | whatever happened before, with nothing live the pool equals a new one |
| PoolAllocator.ReleasingAllLeavesOneBlock | src/core/memory_allocator.cpp:68-98 | releasing every live id in any order leaves one free block spanning the capacity |
| Scheduler.AheadIsStrictTotalOrder | src/core/resource_manager.cpp:58-65 | the comparison ranks requests with different sequence numbers strictly and totally, the higher priority first, then under the cost-aware policy the lower cost, then the earlier arrival |
| Scheduler.ScanFindsBest | src/core/resource_manager.cpp:52-71 | the inner loop finds the fitting request that ranks ahead of every other fitting one, or that none fits |
| Scheduler.ExpirySplits | src/core/resource_manager.cpp:40-49 | expiry removes exactly the requests whose deadline has come and keeps the others |
| Scheduler.SelectIsOnePass | src/core/resource_manager.cpp:51-79 | repeated best-fitting selection grants, in the same order, what one greedy pass over the ranked queue grants |
| Scheduler.RankQueueSorts | src/core/resource_manager.cpp:58-65 | ranking permutes the queue into rank order, so the one-pass form always exists |
| Scheduler.SelectIgnoresStorageOrder | src/core/resource_manager.cpp:51-79 | the grants of a round do not depend on the order in which the queue stores its requests |
| Scheduler.SelectSplits | src/core/resource_manager.cpp:73-78 | a round parts the queue into granted and waiting requests, each in exactly one part |
| Scheduler.SelectFills | src/core/resource_manager.cpp:55-71 | the grants fit in the free bytes together, and no request left waiting would still fit |
| Scheduler.SelectNeverOvertakes | src/core/resource_manager.cpp:51-79 | within a round a request is granted before or instead of another only if it is smaller or ranks ahead |
| Scheduler.GrantsAreBestFitting | src/core/resource_manager.cpp:52-71 | in terms of the requests: when a grant is made, every other request still queued that would also fit in what is then free has a lower priority, or an equal one and, where costs count, a higher cost, or is equal in these and came later |
| Scheduler.SelectKeepsArrivalOrder | src/core/resource_manager.cpp:78 | those who keep waiting stay in arrival order |
| Admission.EnterAdds | src/core/resource_manager.cpp:73-75 | every grant of a round really inserts its reservation and overwrites none |
| Admission.RoundKeepsInv | src/core/resource_manager.cpp:39-81 | a round run on balanced books leaves balanced books and nothing queued that fits |
| Admission.RoundAtRest | src/core/resource_manager.cpp:39-81 | where nothing queued fits, a round grants nothing and only expires |
| Admission.VictimsAddUp | src/core/resource_manager.cpp:255-262 | distinct victims' bytes and the rest of the ledger add up to the ledger |
| Admission.ReplaceKeepsAccounts | src/core/resource_manager.cpp:263-273 | victims never sum to more than is used, and the swapped books balance within the capacity |
| Admission.StepKeepsInv | src/core/resource_manager.cpp:83-286 | after every call, wake-up, timeout or cancellation the books balance, queued names are distinct and hold no reservation, and no queued request fits |
| AdmissionLaws.FatesAreSound | src/core/resource_manager.cpp:40-49 | grants happen strictly before the deadline and their reservation appears in that step; lapses happen at or after it and never held anything; the timed wait gives up only on a request that does not fit |
| AdmissionLaws.NoOvertaking | src/core/resource_manager.cpp:39-176 | in any step, a request let in while another stays queued is smaller or ranks strictly ahead; immediate admissions are always smaller |
| AdmissionLaws.GrantedAheadOf | src/core/resource_manager.cpp:58-65 | in terms of the requests: in any step, one granted while another stays queued needs fewer bytes, or has a higher priority, or an equal one and, where costs count, a lower cost, or is equal in these and came earlier |
| AdmissionLaws.ModelIsSmallerThanWaiters | src/core/resource_manager.cpp:196-214 | a model reservation taken without eviction is smaller than every queued request |
| AdmissionLaws.LedgerIsExact | src/core/resource_manager.cpp:83-286 | client reservations change by exactly the name released and the names granted; all others keep their size |
| AdmissionRuns.StepBalances | src/core/resource_manager.cpp:39-176 | in every step a request leaves the queue exactly when the log settles it |
| AdmissionRuns.RunKeepsInv | src/core/resource_manager.cpp:83-286 | accounting, name uniqueness and work conservation after every run |
| AdmissionRuns.EveryRequestSettlesOnce | src/core/resource_manager.cpp:136-176 | after every run from the start, each sequence number handed out is queued once or settled once, never both |
| AdmissionRuns.NoOvertakingInRuns | src/core/resource_manager.cpp:39-176 | no overtaking at any point of any run |
| AdmissionRuns.AcquireAtOnceIffItFits | src/core/resource_manager.cpp:106-157 | a well-formed acquire is granted at once exactly when it fits, with the same books on the fast path and through the queue |
| AdmissionRuns.AcquireThatDoesNotFit | src/core/resource_manager.cpp:114-176 | a well-formed acquire that does not fit is refused if it never can or must not wait, times out exactly if arrival plus a million nanoseconds for each millisecond of its timeout is before the end of the clock and has come on entering the wait, and waits otherwise |
| AdmissionRuns.ArrivalsGrantNoOlderRequest | src/core/resource_manager.cpp:95-103 | an arriving acquire or try_acquire never causes an older waiter to be granted |
| AdmissionRuns.NegativeCostIsRefusedIff | src/core/resource_manager.cpp:106-142 | for every request of negative cost: it is answered with an invalid timeout exactly when name and size pass and its timeout is negative, or it may wait, could ever fit, is new, and does not find the queue empty with room |
| AdmissionRuns.CostDoesNotMatterAtOnce | src/core/resource_manager.cpp:114-122 | a request that may not wait is granted exactly when it fits, whatever its cost and whoever is queued |
| AdmissionRuns.NegativeCostGranted | src/core/resource_manager.cpp:129-142 | an instance: an idle manager with room grants a request of negative cost that may wait |
| AdmissionRuns.NegativeCostGrantedAtOnce | src/core/resource_manager.cpp:120-122 | an instance: it also grants one that may not wait |
| AdmissionRuns.ReplaceIsAllOrNothing | src/core/resource_manager.cpp:233-276 | a replacement goes through exactly when name, victims and bytes allow it, otherwise nothing changes; the byte arithmetic stays within the capacity |
| AdmissionOutcomes.SettingsStayInRuns | src/core/resource_manager.cpp:10-15 | no run changes the capacity or the policy |
| AdmissionOutcomes.GrantedAheadOfInRuns | src/core/resource_manager.cpp:58-65 | the order of grants in terms of the requests, at any point of any run |
| AdmissionOutcomes.NobodyIsOverdue | src/core/resource_manager.cpp:40-49 | a round leaves nobody queued whose deadline has come |
| AdmissionOutcomes.FatesKeepDeadlines | src/core/resource_manager.cpp:40-49 | a wait ends in a grant only before its deadline and in a lapse only at or after it, and one without a deadline never lapses |
| AdmissionOutcomes.WaitersAreToldTheTruth | src/core/resource_manager.cpp:39-81 | a waiter that a step settles is told its bytes exactly if they are reserved under its name afterwards, and a timeout otherwise |
| AdmissionOutcomes.TryAcquireOutcome | src/core/resource_manager.cpp:83-104 | for each of the five answers exactly when it is given; a refusal changes nothing, an admission adds exactly its entry and takes only waiters whose deadline has come out of the queue |
| AdmissionOutcomes.AcquireOutcome | src/core/resource_manager.cpp:106-176 | for each answer exactly when it is given; a request that joins the queue without room is queued under the next number with the caller's priority and cost and with arrival plus timeout as its deadline, or never if the clock cannot show that, and nothing but the queue and the counter changes |
| AdmissionOutcomes.DeadlineIsArrivalPlusTimeout | src/core/resource_manager.cpp:146-154 | the overflow test on milliseconds amounts to this: the deadline is arrival plus timeout in nanoseconds, or never where that exceeds the clock |
| AdmissionOutcomes.RecheckOutcome | src/core/resource_manager.cpp:158-162 | a caller that wakes while queued takes out exactly the waiters whose deadline has come; one that is settled changes nothing |
| AdmissionOutcomes.GiveUpOutcome | src/core/resource_manager.cpp:165-173 | a timed wait that ends at its deadline takes its own request and no other out of the queue and answers a timeout; before the deadline it changes nothing |
| AdmissionOutcomes.CancelOutcome | src/core/resource_manager.cpp:278-286 | a cancellation settles every waiter once and touches nothing but the queue |
| AdmissionOutcomes.ReleaseOutcome | src/core/resource_manager.cpp:178-194 | for each answer exactly when it is given; a release hands back the bytes that were reserved, the name holds nothing afterwards, all others keep theirs, and whoever left the queue before its deadline holds its bytes |
| AdmissionOutcomes.AcquireModelOutcome | src/core/resource_manager.cpp:196-214 | for each answer exactly when it is given, and the whole state after an admission |
| AdmissionOutcomes.ReleaseModelOutcome | src/core/resource_manager.cpp:216-231 | for each answer exactly when it is given; exactly this model's reservation goes, clients keep theirs, and whoever left the queue before its deadline holds its bytes |
| AdmissionOutcomes.ReplaceOutcome | src/core/resource_manager.cpp:233-276 | for each of the five refusals exactly when it is given, the order of the checks included; otherwise the victims are gone, the newcomer is there, every other model is as it was and no client loses anything |
| ResourceManagement.ResourceManager.Create | src/core/resource_manager.cpp:10-15 | construction fails exactly for capacity zero; otherwise the initial state |
| ResourceManagement.ResourceManager.ExpireWaiters | src/core/resource_manager.cpp:40-49 | the in-place loop keeps exactly the live waiters in order and tells each due one, and no other, of its timeout |
| ResourceManagement.ResourceManager.FindBest | src/core/resource_manager.cpp:52-68 | the scan loop selects the request that `Scan` names: by `ScanFindsBest` the fitting one that ranks ahead of every other fitting one, or none |
| ResourceManagement.ResourceManager.GrantFitting | src/core/resource_manager.cpp:51-79 | the grant loop ends in the books and queue of repeated selection, and completes only those it grants |
| ResourceManagement.ResourceManager.GrantWaiters | src/core/resource_manager.cpp:39-81 | the two loops together take one round step; every former waiter is still queued or holds the reply the log gives it |
| ResourceManagement.ResourceManager.TryAcquire | src/core/resource_manager.cpp:83-104 | exactly the try-acquire step, with its reply and with every waiter informed |
| ResourceManagement.ResourceManager.BeginAcquire | src/core/resource_manager.cpp:106-158 | exactly the acquire step; no reply means a fresh ticket is queued |
| ResourceManagement.ResourceManager.JoinQueue | src/core/resource_manager.cpp:136-162 | two rounds in a row, the second only if needed, are the enqueue step; a reply given by the first is not revised |
| ResourceManagement.ResourceManager.Resume | src/core/resource_manager.cpp:158-176 | from wake-up to the next sleep: a settled ticket returns its result, a timed-out one leaves the queue with a timeout, any other runs a round |
| ResourceManagement.ResourceManager.Release | src/core/resource_manager.cpp:178-194 | exactly the release step, with its reply and with every waiter informed |
| ResourceManagement.ResourceManager.AcquireModel | src/core/resource_manager.cpp:196-214 | exactly the model admission step; no waiter is touched |
| ResourceManagement.ResourceManager.ReleaseModel | src/core/resource_manager.cpp:216-231 | exactly the model release step, with every waiter informed |
| ResourceManagement.ResourceManager.InspectVictims | src/core/resource_manager.cpp:247-262 | reports a duplicate exactly when victims repeat, an unknown one exactly when they do not but one is not reserved, and otherwise their total, which is at most what is used |
| ResourceManagement.ResourceManager.RemoveVictims | src/core/resource_manager.cpp:267-271 | exactly the victims leave the ledger and used falls by their total |
| ResourceManagement.ResourceManager.ReplaceModelReservations | src/core/resource_manager.cpp:233-276 | exactly the replacement step, with every waiter informed |
| ResourceManagement.ResourceManager.CancelWaiters | src/core/resource_manager.cpp:278-286 | the queue empties and every waiter is told it timed out |
| ResourceManagement.ResourceManager.Status | src/core/resource_manager.cpp:288-303 | the two loops and the sort show the totals and every reservation, clients and models, exactly once in name order |
| Snapshots.SnapshotIsDetermined | src/core/resource_manager.cpp:288-303 | the state determines the snapshot, order included |
| Snapshots.ShownBytesAddUp | src/core/resource_manager.cpp:288-303 | the listed bytes add up to the used bytes, and with the free bytes to the capacity |
| Snapshots.ShownNamesAreListed | src/core/resource_manager.cpp:292-297 | every row is a client's, under its own name, or a model's, under "model:" and its id, with the bytes reserved; exactly the valid names are clients' |
| Snapshots.EverythingIsShown | src/core/resource_manager.cpp:290-297 | every reservation of a client and of a model has its row |
| Snapshots.NameLessIff | src/core/resource_manager.cpp:298-301 | one name precedes another exactly when, where they part, it ends or has the smaller character code |
| ModelStores.RegistrationsKeepAccessOrder | src/core/model_registry.cpp:48-117 | registering and unregistering keep access stamps distinct among accessed models |
| ModelStores.AccessIsLatest | src/core/model_registry.cpp:119-150 | a counted access makes its model the latest accessed of all and changes no other |
| ModelStores.ValidTextsIff | src/core/model_registry.cpp:21-45 | metadata is one to 128 characters with codes 33 to 126, a path one to 4096 characters with codes from 32 other than 127 |
| ResidencyLaws.NextKeepsInv | src/core/model_residency.cpp:30-241 | every act of every caller, in every phase of a load or unload, keeps the four stores in agreement |
| ResidencyLaws.ClientKeepsInv | src/ipc/unix_socket_server.cpp:48-79 | client acquires, releases and waits between the phases of a load never disturb model reservations |
| ResidencyLaws.RegistrationGains | src/core/model_registry.cpp:48-100 | a registration, which takes no residency mutex, only adds an unreferenced model |
| ResidencyLaws.ReplaceFrame | src/core/resource_manager.cpp:233-276 | a replacement with reserved distinct victims and a fresh id goes through exactly when it fits, swaps exactly these reservations, and otherwise changes nothing |
| ResidencyLaws.UnloadNeverRollsBack | src/core/model_residency.cpp:158-164 | once the device has let go of a model its reservation is always there to release: the rollback branch is unreachable |
| ResidencyRuns.RunKeepsInv | src/core/model_residency.cpp:30-241 | the phase-wise agreement after every interleaved run |
| ResidencyRuns.StoresAgreeAtRest | src/core/model_residency.cpp:30-241 | whenever no residency call is in progress: residents, reservations and device allocations are the same ids with the same bytes, records mirror the registry, unrecorded models have count zero, and used is clients plus models within the capacity |
| ResidencyRuns.ReferencedIsInPlace | src/core/model_residency.cpp:51-56 | a referenced resident model is reserved and on the device in every phase |
| ResidencyRuns.ReferencedStaysResident | src/core/model_residency.cpp:149-151 | no act of anybody makes a referenced model non-resident |
| ResidencyRuns.PinnedStaysInPlace | src/core/model_residency.cpp:51-56 | over any run, a resident model whose count stays positive stays resident, reserved and loaded with the same bytes |
| ResidencyRuns.CountIsBalance | src/core/model_residency.cpp:189-227 | a registered model's count is its successful retains minus its successful releases |
| ResidencyRuns.LoadStepLeavesUntouched | src/core/model_residency.cpp:43-122 | up to finalization each phase of a load leaves records, reservations and the rest of the device alone |
| ResidencyRuns.FailedLoadChangesNothing | src/core/model_residency.cpp:43-122 | a load that fails at any phase, with any other callers in between, leaves records, model reservations and device exactly as it found them, and the whole resource manager, client reservations and queue included, exactly as the client traffic alone makes it |
| ResidencyRuns.OnlyClientsMoveResources | src/core/model_residency.cpp:43-122 | up to a successful replacement no act but client traffic moves the resource manager |
| ResidencyRuns.RegistryIsListable | src/core/model_registry.cpp:48-100 | over any run every registered model has a valid id, metadata and path, as its listing needs |
| History.LoadCountIsHistory | src/core/model_residency.cpp:128-135 | over any run a model's load count is the number of its completed loads while it stays registered |
| History.LaterLoadIsYounger | src/core/model_residency.cpp:133 | of two models the one whose last load completed later carries the greater load stamp, whatever happened in between |
| History.AccessOrderInRuns | src/core/model_registry.cpp:48-150 | over any run no two accessed models share an access stamp and none is ahead of the counter |
| History.LaterAccessIsLater | src/core/model_registry.cpp:119-150 | of two models the one retained or released later carries the greater access stamp, whatever happened in between |
| Eviction.ScoreIsAnOrder | src/core/model_residency.cpp:57-67 | however operands and results are rounded, the score comparison is a strict weak order, as the sort demands |
| Eviction.FactorsMoveScore | src/core/model_residency.cpp:59-65 | whatever the monotone rounding, a later load, a higher cost or a higher load count never lowers a score and a larger footprint never raises it |
| Eviction.LeadersRankLater | src/core/model_residency.cpp:57-67 | whatever the monotone rounding, a model ranked before another that it leads in every factor has the same score |
| Eviction.ExactScoresCompare | src/core/model_residency.cpp:59-65 | without rounding, scores compare as the integer products of last load, cost and load count plus one with the other's footprint, cost and footprint raised to at least one |
| Eviction.ExactRankingIff | src/core/model_residency.cpp:57-67 | without rounding, the rankings are exactly the orders of the evictable models in which these products do not decrease |
| Eviction.VictimsAreWorthLeast | src/core/model_residency.cpp:57-76 | without rounding, no victim's product exceeds that of a resident unreferenced model that is spared |
| Eviction.EarlierScoresNoHigher | src/core/model_residency.cpp:59-65 | with equal cost, load count and footprint and any monotone rounding, the model loaded earlier never scores higher |
| Eviction.NeededIsLeast | src/core/model_residency.cpp:68-72 | the planning loop stops at the first prefix of the ranking that makes room, or at its end |
| Eviction.AvailableNeverExceedsCapacity | src/core/model_residency.cpp:69-72 | the running total of free and evictable bytes never exceeds the capacity |
| Eviction.PlanIsShortestPrefix | src/core/model_residency.cpp:48-79 | in whatever order the candidates were sorted, the victims are its shortest prefix that makes room: none if free bytes suffice, and one fewer never would |
| Eviction.PlanSparesHigherScores | src/core/model_residency.cpp:57-76 | whatever comparison the candidates are sorted by, rounded scores included, no spared candidate comes before a victim in it |
| Eviction.EqualModelsAreEvictedOldestFirst | src/core/model_residency.cpp:57-67 | with equal cost, load count and footprint and any monotone rounding, the ranking is least recently loaded first, up to models whose rounded scores are equal; with exact arithmetic there are none |
| Eviction.PlanFailsIff | src/core/model_residency.cpp:44-75 | in whatever order, planning fails exactly when the footprint exceeds free bytes plus all evictable models, and then changes nothing |
| Eviction.LoadSucceedsIffItFits | src/core/model_residency.cpp:43-136 | uninterrupted, with readable source and willing device, a load of a registered non-resident model succeeds exactly when its footprint is at most the free bytes plus the unreferenced residents; then the residents are those before, less the shortest prefix of the sorted candidates that makes room, plus the model; otherwise it reports insufficient memory and the world is unchanged |
| ResidencyOutcomes.LoadOutcome | src/core/model_residency.cpp:30-137 | one whole uninterrupted load, for every model, file, device and measured cost: for each answer exactly when it is given, an unsuccessful load leaves the world as it was, and after a successful one the model's record, device, reservations, victims and every other record are stated field by field |
| ResidencyOutcomes.UnloadOutcome | src/core/model_residency.cpp:139-165 | one whole uninterrupted unload succeeds exactly for a registered, resident, unreferenced model, answers its footprint, and takes exactly that model off device, reservations and residents; otherwise the exact error, and nothing changes |
| ResidencyOutcomes.RetainOutcome | src/core/model_residency.cpp:189-207 | a retain succeeds exactly for a registered model, answers its count plus one, and changes only that model's count, access stamp and record |
| ResidencyOutcomes.ReleaseOutcome | src/core/model_residency.cpp:209-227 | a release succeeds exactly for a registered model that is referenced, answers its count less one, and changes only that model's count, access stamp and record; otherwise the exact error, and nothing changes |
| ResidencyOutcomes.UnregisterOutcome | src/core/model_residency.cpp:229-241 | an unregistration succeeds exactly for a registered model that is neither resident nor referenced, and removes exactly its model and record; otherwise the exact error, and nothing changes |
| ResidencyOutcomes.RegisterOutcome | src/core/model_registry.cpp:48-67 | for each answer to a registration exactly when it is given, and the one model added |
| ResidencyOutcomes.RegisterFileOutcome | src/core/model_registry.cpp:69-100 | for each answer to the registration of a file exactly when it is given, and the one model added, with size and path of the file |
| ResidencyManagement.RankingExists | src/core/model_residency.cpp:51-67 | whatever the records, the candidates can be ranked, so planning is never stuck |
| ResidencyManagement.TakeVictims | src/core/model_residency.cpp:68-72 | the accumulating loop takes exactly the needed prefix and its 64-bit total does not wrap |
| ResidencyManagement.ModelResidencyManager.GatherCandidates | src/core/model_residency.cpp:51-56 | the loop over the records collects each resident unreferenced record once and nothing else |
| ResidencyManagement.ModelResidencyManager.RankCandidates | src/core/model_residency.cpp:51-67 | gathering and sorting rank all evictable models by score; what that order is in their fields, `ExactRankingIff` and `FactorsMoveScore` say |
| ResidencyManagement.ModelResidencyManager.Lookup | src/core/model_residency.cpp:30-41 | exactly the lookup phase |
| ResidencyManagement.ModelResidencyManager.Plan | src/core/model_residency.cpp:43-85 | the planning phase against one snapshot, for some ranking of the candidates |
| ResidencyManagement.ModelResidencyManager.LoadOntoDevice | src/core/model_residency.cpp:87-115 | exactly the device phase: file errors first, then a refusal by the device for any reason |
| ResidencyManagement.ModelResidencyManager.SwapReservations | src/core/model_residency.cpp:117-122 | exactly the replace phase; on refusal the device is as before the load |
| ResidencyManagement.ModelResidencyManager.DropVictims | src/core/model_residency.cpp:124-127 | the loop takes exactly the victims off the device and marks exactly their records |
| ResidencyManagement.ModelResidencyManager.FinishLoad | src/core/model_residency.cpp:124-136 | exactly the finalize phase |
| ResidencyManagement.ModelResidencyManager.Load | src/core/model_residency.cpp:30-137 | with nobody in between, the phases in sequence are one whole load for some ranking |
| ResidencyManagement.ModelResidencyManager.BeginUnload | src/core/model_residency.cpp:139-156 | exactly the first half of unload |
| ResidencyManagement.ModelResidencyManager.FinishUnload | src/core/model_residency.cpp:158-164 | exactly the second half of unload, rollback branch included |
| ResidencyManagement.ModelResidencyManager.Unload | src/core/model_residency.cpp:139-165 | with nobody in between, the two halves are one whole unload |
| ResidencyManagement.ModelResidencyManager.Retain | src/core/model_residency.cpp:189-207 | registry and record move together |
| ResidencyManagement.ModelResidencyManager.ReleaseModel | src/core/model_residency.cpp:209-227 | registry and record move together |
| ResidencyManagement.ModelResidencyManager.UnregisterModel | src/core/model_residency.cpp:229-241 | a resident or referenced model stays; otherwise model and record go together |
| Numerals.NumeralReadsBack | src/client/client.cpp:122-125 | a printed number denotes itself |
| Numerals.UnsignedIsDigits | src/protocol/protocol.cpp:81-91 | a token is an unsigned number exactly when it is non-empty, all digits, and denotes a 64-bit value |
| Numerals.PriorityIsSignedDigits | src/protocol/protocol.cpp:93-118 | a token is a priority exactly when it is an optional sign and digits within 32 bits |
| Numerals.PriorityReadsBack | src/protocol/protocol.cpp:93-118 | every 32-bit priority survives printing and parsing, the smallest included |
| Numerals.TimeoutReadsBack | src/protocol/protocol.cpp:120-126 | every non-negative timeout survives, every negative one is refused |
| Numerals.TimeoutIsDigits | src/protocol/protocol.cpp:120-126 | a token is a number of milliseconds exactly when it is non-empty, all digits, and within 63 bits |
| Protocol.LayoutIsTokenized | src/protocol/protocol.cpp:128-145 | whatever blanks surround them, the words of a line are its tokens |
| Protocol.TokensAreALayout | src/protocol/protocol.cpp:128-145 | every line is its tokens with blanks around them: nothing else is dropped |
| Protocol.TokensAcross | src/protocol/protocol.cpp:128-145 | a blank between two texts separates the tokens of one from those of the other |
| Protocol.TabSeparates | src/protocol/protocol.cpp:128-145 | so does a tab |
| Protocol.NothingElseSeparates | src/protocol/protocol.cpp:128-145 | a text without blank and tab is one token |
| Protocol.Tokenize | src/protocol/protocol.cpp:128-145 | the two-index loop computes these tokens |
| Protocol.ReadSize | src/protocol/protocol.cpp:38-79 | the suffix and digit loops compute the size specification |
| Protocol.SizeIsDigitsAndUnit | src/protocol/protocol.cpp:38-79 | a token is a size exactly when it is digits and a known unit (or none) whose product is a positive 64-bit number, and that product is the size |
| Protocol.UnitIsFound | src/protocol/protocol.cpp:52-58 | the first listed suffix that matches is the unit itself, although every unit also ends in a shorter one |
| CommandLanguage.AcceptedIsSayable | src/protocol/protocol.cpp:157-364 | whatever line arrives, an accepted command belongs to the line's verb, has a valid name, a positive size where it has one, a timeout or a cost but not both, neither negative, and nothing set that its kind does not use |
| CommandLanguage.LineSaysCommand | src/protocol/protocol.cpp:157-364 | every such command, of all seventeen kinds, has a canonical text that is parsed to exactly it |
| CommandLanguage.SayableIff | src/protocol/protocol.cpp:157-364 | the commands the parser takes some text for are exactly the sayable ones |
| CommandLanguage.VerbLeadsToBranch | src/protocol/protocol.cpp:163-363 | each kind's verb leads to that kind's branch of the parser |
| CommandLanguage.VerbsDiffer | src/protocol/protocol.cpp:163-363 | no two kinds, and no two modes of an acquire, share a verb |
| CommandLanguage.AcceptedHasVerb | src/protocol/protocol.cpp:163-363 | a line is accepted only under the verb of some kind, and as that kind's branch says |
| ParserVerdicts.RejectionIff | src/protocol/protocol.cpp:157-364 | under every verb, for each of the six errors exactly which words get it: number of words first, then name, size, path, metadata and options |
| ParserVerdicts.AcceptedFields | src/protocol/protocol.cpp:157-364 | accepted words have the number their verb asks for, and name, size, metadata, path, priority, timeout and cost are those of their own places |
| ParserVerdicts.UnknownVerbIsRefused | src/protocol/protocol.cpp:158-161 | a line without words, or under no kind's verb, is an invalid request |
| Delivery.ArrivesAsServed | src/ipc/unix_socket_server.cpp:147-205 | in whatever pieces it comes, a command the client sends is refused if it is too long, and otherwise answered once, as parsed without one trailing carriage return |
| Delivery.AcquireArrives | src/client/client.cpp:119-128 | for every name, size, priority, timeout and cost: a name with a newline is not sent, an over-long line is refused, of any other the words of the name are read as fields, and a name without blanks gives exactly the stated outcome |
| Delivery.AcquireRoundTripIff | src/client/client.cpp:119-128 | for every name whatever, the request arrives unchanged exactly when name and size are acceptable, the timeout is not negative and the cost is zero |
| Delivery.TryAcquireRoundTripIff | src/client/client.cpp:130-132 | for every name whatever, a try-acquire arrives unchanged exactly when name and size are acceptable |
| Delivery.NameLineRoundTripIff | src/client/client.cpp:134-148 | for every name whatever, a release, load, unload or share arrives unchanged exactly when the name is acceptable |
| Delivery.BlankNameIsAnotherRequest | src/client/client.cpp:119-128 | an instance: 100 bytes for the name "a 5" arrive as 5 bytes for "a" with priority 100 and no waiting |
| Delivery.ReturnReleasesAnother | src/client/client.cpp:134-136 | an instance: a release of "a" followed by a carriage return releases "a" |
| Delivery.DeliverableIff | src/ipc/unix_socket_server.cpp:168-205 | the commands that some line of a connection stands for are exactly the sayable ones whose path has no newline and, for a file registration, whose canonical line fits |
| ClientCommands.CostDropsTimeout | src/protocol/protocol.cpp:344-357 | an instance: with a cost of 7 a timeout of 5 ms becomes no timeout |
| Delivery.TryAcquireArrives | src/client/client.cpp:130-132 | for every name, the same for a try-acquire: not sent, refused as too long, or parsed with the words of the name as fields |
| Delivery.NameLineArrives | src/client/client.cpp:134-148 | for every name, a release, load, unload or share is not sent if the name has a newline, refused if the line is too long, and otherwise taken for the single word left of the name without blanks and one trailing carriage return, if there is just one and it is acceptable |
| ServerSession.CutsIff | src/ipc/unix_socket_server.cpp:168-205 | lines, remainder and refusal are those of the only division of the stream into lines of at most 4095 characters |
| ServerSession.CutsInTwo | src/ipc/unix_socket_server.cpp:150-153 | reading a prefix first and its remainder with the rest reads the whole |
| ServerSession.ChunksDoNotMatter | src/ipc/unix_socket_server.cpp:147-153 | for every chunking, the same lines, the same refusal and, while open, the same remainder |
| ServerSession.LineLimit | src/ipc/unix_socket_server.cpp:171-205 | in whatever pieces, a line of up to 4095 characters is cut out whole once its newline has come, until then the connection stays open, and 4096 characters without a newline close it |
| ServerSession.LineIsCutOut | src/ipc/unix_socket_server.cpp:171-205 | the same in the middle of a stream: what follows is read on its own |
| ServerSession.OneReturnIsDropped | src/ipc/unix_socket_server.cpp:187-193 | exactly one carriage return before the newline is dropped |
| ServerSession.Session.ProcessInput | src/ipc/unix_socket_server.cpp:168-205 | the consuming loop answers exactly the complete lines, keeps the rest, and refuses exactly when the cut says so |
| ServerSession.Session.Serve | src/ipc/unix_socket_server.cpp:147-165 | a session over any sequence of reads answers what one reading of the whole stream answers |
| ServerSession.PipelinedLinesArrive | src/ipc/unix_socket_server.cpp:168-205 | any number of fitting lines in any pieces are answered one by one, with nothing left behind |
| ServerSession.ReturnsReadIff | src/ipc/unix_socket_server.cpp:168-205 | lines ended by carriage return and newline, in any pieces, are answered like lines ended by newline alone up to the first of 4095 characters; the connection stays open exactly if there is none |
| ServerSession.LongestLineCannotReturn | src/ipc/unix_socket_server.cpp:181-185 | an instance: a line of 4095 characters is answered, and with a carriage return ends the connection |
| Delivery.AcquireReachesTheDaemon | src/client/client.cpp:88-128 | a request with a valid name, in any pieces, is answered as exactly one command with the fields that survive |
| Responses.Request | src/client/client.cpp:81-117 | the read loop returns the first complete accumulation, classified, or what it has when the stream ends |
| Responses.StopsAtEndIff | src/client/client.cpp:97-112 | a complete text is received whole in every chunking exactly when no proper beginning of it is complete |
| Responses.OneLineIsFramed | src/client/client.cpp:101-103 | a one-line answer is never cut short, an error not even where a listing is awaited |
| Responses.ListingIsFramedIff | src/client/client.cpp:101-103 | a listing is never cut short exactly when no line before the last ends in the letters of the last |
| Responses.CutOffAnswerFails | src/client/client.cpp:97-112 | an answer that is cut off anywhere is a failed read that keeps what came, and nothing after an empty read is looked at |
| Responses.StrangeLineFails | src/client/client.cpp:113-116 | a complete line that begins neither with OK nor with ERR is a failed read |
| Listings.FormatStatus | src/protocol/protocol.cpp:416-425 | split into lines and words, the text is OK, status, capacity, used, free and the number of reservations, then CLIENT, name and bytes of each in order, then END |
| Listings.FormatResidency | src/protocol/protocol.cpp:569-584 | split into lines and words, the text counts the resident records and gives RESIDENT, id, footprint, count and load stamp of exactly these in order, then END |
| Listings.FormatNodes | src/protocol/protocol.cpp:516-525 | split into lines and words, the text is the number of nodes, then NODE, id, endpoint, capacity, used and health of each in order, then END |
| Listings.FormatModels | src/protocol/protocol.cpp:527-541 | split into lines and words, the text is the number of models, then MODEL, id, metadata, footprint, count, access stamp and the words of the path of each in order, then END |
| Listings.FormatMetrics | src/protocol/protocol.cpp:473-487 | split into lines and words, the text is the nine counters, each after its name, then END |
| Listings.StatusReads | src/protocol/protocol.cpp:416-425 | the printed status lines read back as the snapshot, for every snapshot whose names are listed ones |
| Listings.ResidencyReads | src/protocol/protocol.cpp:569-584 | the printed residency lines read back as the resident records, for valid ids |
| Listings.ModelsRead | src/protocol/protocol.cpp:527-541 | the printed model lines read back as the models, for every list of registered models |
| Listings.NodesRead | src/protocol/protocol.cpp:516-525 | the printed node lines read back as the nodes, for valid ids and endpoints of one line |
| Listings.StatusIsReceived | src/client/client.cpp:97-112 | the status listing, clients and models, arrives whole in every chunking |
| Listings.ResidencyIsReceived | src/client/client.cpp:97-112 | the residency listing arrives whole in every chunking |
| Listings.NodesAreReceived | src/client/client.cpp:97-112 | the node listing arrives whole in every chunking |
| Listings.MetricsAreReceived | src/protocol/protocol.cpp:473-487 | the metrics listing arrives whole in every chunking |
| Listings.ModelsAreReceivedIff | src/protocol/protocol.cpp:527-541 | the model listing arrives whole in every chunking exactly when no source path ends in END |
| Listings.LegendIsCutShort | src/core/model_registry.cpp:69-100 | an instance: a file can be registered under such a path, and its listing can then be cut short |
| Replies.ReplyIsReceived | src/client/client.cpp:97-116 | the caller learns success or rejection and gets the reply to its last character, in every chunking, node replies without an amount included |
| Replies.ReplyReads | src/protocol/protocol.cpp:386-414 | split into words, a success is OK, what was done, the name and the amount if there is one, and an error is ERR and the words of its text |
| Replies.NodeReplyReads | src/protocol/protocol.cpp:489-498 | a node reply has its amount exactly if that is not zero |
| Replies.ExpectedListingIsSent | src/client/client.cpp:47-52 | where the client waits for a listing, an accepted command is one that gets a listing |
| Replies.SentListingIsExpectedIff | src/client/client.cpp:47-52 | a listing the daemon sends is awaited exactly when neither a leading blank nor a carriage return touches the verb |
| Replies.UnexpectedListingIsCut | src/client/client.cpp:97-112 | a listing that is not awaited can end, for the client, after its first line |
| Replies.ReturnHidesStatus | src/ipc/unix_socket_server.cpp:187-193 | an instance: a status command with a carriage return is answered with a listing that the client can cut short |
| Sharing.EncodeHandle | src/backend/cuda_backend.cu:146-153 | the push-back loop writes two lower-case digits per byte |
| Sharing.HexAt | src/backend/cuda_backend.cu:146-153 | byte i is written as two digits in its own place, the high half first |
| Sharing.HexValueIs | src/backend/cuda_ipc_client.cu:12-17 | the value of every character, by its code |
| Sharing.DecodeToken | src/backend/cuda_ipc_client.cu:32-45 | the decoding loop refuses a wrong length first, then any bad digit, and otherwise yields the handle |
| Sharing.DecodedIsEncoded | src/backend/cuda_ipc_client.cu:12-45 | a token opens to a handle exactly when it has twice the length, only hexadecimal digits, and is the handle's own text up to case; a wrong length is reported exactly when the length is wrong, a bad digit exactly when only the digits are |
| Sharing.HandleSurvives | src/backend/cuda_backend.cu:146-153 | decoding the text of a handle gives the handle |
| Sharing.ParseShareResponse | src/client/client.cpp:58-79 | the five extractions and the digit loop compute the reading of a share reply |
| Sharing.ParseShareIff | src/client/client.cpp:58-79 | a text is read as a share reply exactly when its first five words, between white space, are OK, shared, a name, a size in digits and a token of hexadecimal digits |
| Sharing.ShareSurvivesIff | src/protocol/protocol.cpp:549-554 | size and handle come back from a share reply exactly when the handle is not empty |
| Sharing.SharedHandleArrives | src/client/client.cpp:58-117 | encoded, formatted, sent in any pieces, collected, parsed and decoded, a handle and its size are the same |

## Left out

- The direct allocation strategy: its offsets only grow, may pass the capacity and can wrap; it carries no address guarantee.
- Sockets, polling, threads, failed or partial writes, signals and the daemon and command-line programs. A read that ends or fails is an empty read; connecting and writing are taken to succeed before `Responses.Request` starts.
- Condition variables and liveness: a wake-up is a step that runs a round at some clock reading. Nothing is claimed about starvation, which the scheduler allows: smaller requests may pass a large one, and a replacement may reuse evicted space ahead of queued clients.
- CUDA and Metal calls and the sharing calls of the backends: only the hexadecimal text of a handle is modelled. Device agreement is stated for a backend that may refuse to load but always unloads what it holds, as the mock backend does.
- File reading: whether a file is there, its size and whether it reads back are inputs; a file that reads back has the registered size.
- Wall-clock load timing: the cost is an arbitrary number, raised to at least 1.
- Eviction.ScoreIsAnOrder: rounding is an arbitrary function on the reals; infinities and not-a-number, which 64-bit operands cannot produce here, have no place in it.
- Counters for sequence numbers, references, accesses, load order and load counts are unbounded.
- The order of the residency, node and model listings: their rows are given as sequences.
- Replies.ReplyIsReceived: the wording of error replies is any one-line text.
- The metrics counters, device placement, the node registry, benchmarks and scripts: no result depends on these parts.
- The daemon's notice about an unterminated last command and its refusal text for long lines; the session ends the same way.
