# Verified model of libudo's stateful core

libudo is a C library of small system utilities. This project models the five parts of it
that carry real state, in Dafny, and proves what they promise:

- **Job pool** (`src/jpool.c`). One submitter deals jobs to worker threads, each with an
  array queue. `JobPool` is a step system in which every step is one atomic load, store,
  read-modify-write or futex call, so the publication of a job, the four stores of a reset
  and the two loads of a worker's check interleave freely with the other threads.
  `JobPoolQueue` is the invariant of one queue, `JobPoolRun` that of the pool,
  `JobPoolTheorems` what follows for whole runs. `JobPoolChecks` and `JobPoolRaces` say
  exactly when the promises fail, `JobPoolShutdown` when destroy can wait for a sleeping
  worker, `JobPoolIdle` when a worker can sleep over a new job, `JobPoolCalls` what the
  submitter's calls achieve. `JobPoolLayout` is the memory
  layout, `JobPoolMemory` places the slots of a run in it, `RoundRobin` is the dealing.
- **Futex** (`src/futex.c`, `include/futex.h`). `Futex` is a step system of any number of
  threads on one word, in which a store and the wake-all behind it, and a test and the sleep
  behind it, are separate steps. `FutexCalls` says what the calls mean to their callers.
- **Shared-memory channel** (`src/shm.c`). `ShmLayout` is the attach loop on the mapping,
  `ShmChannel` the read and write protocol, word by word, for any number of processes,
  with the sticky errno of each. `ShmCalls` follows a call from its start to its
  return, `ShmStart` joins the two.
- **Bump allocator** (`src/mm.c`). `MemoryMap` holds the class with its byte buffer, proved
  against a list of byte strings; `ByteBlocks` is the theory of size-prefixed blocks.
- **Lines, paths, alignment** (`src/file-ops.c`, `include/macros.h`). `FileOps` holds the
  loops over the file data and the path buffer, `Lines` and `Paths` their meaning; `Macros`
  gives the mask macros on machine words of any width.

`Arithmetic`, `Words` (32-bit and size_t arithmetic), `Runs` and `Options` are helpers.

## How to read the job pool's results

The code as written does not keep its promises in every interleaving. Two things do harm: a
worker tests or calls a slot that is still being stored (`EarlyUse`), or it dequeues although
nothing is queued (`EmptyDequeue`). A clean run is one without these two, and every other
interleaving of the single loads, stores and futex calls is allowed. The theorems of
`JobPoolTheorems` hold in every clean run.

The condition is exact for every single run: `JobPoolRaces.RunKeepsPromisesExactly` shows
that a run keeps its promises in all its states if and only if it is clean. The first mishap
breaks a promise at once, as job_count or the order of the jobs is then wrong.

An empty dequeue comes about in one way only: a reset has torn the worker's check, either
between its loads of rear and front (`BetweenLoads`) or around its load of rear
(`InsideReset`). `JobPoolRaces.PromisesKeptExactly` puts this together: with only the mishaps
of a set `a` allowed, the promises hold in every reachable state if and only if `a` lacks
`EarlyUse`, and lacks `EmptyDequeue` or both torn checks.

All this is about queues with room for at least one job. `udo_jpool_create` also makes smaller
ones, and `JobPoolMemory.SlotsAreSafeExactly` shows that their jobs are stored beyond the regions.

## Where the code and its documentation disagree

The model follows the code.

- `udo_futex_wait` is documented to wait for any desired value. A value equal to
  `UDO_FUTEX_LOCK` is set by a compare-and-swap that wakes nobody, so such a caller can sleep
  on although the word has its value (`Futex.WaitIsReliableUnlessForLock`).
- `udo_futex_unlock_force` is documented to make waiters exit. A waiter for any value but the
  force value itself can be left asleep on it (`Futex.ForceIsReliableForForceOnly`), unless
  nobody ever overwrites the force value (`Futex.ForceWakesWaiters`).
- `udo_mm_free` is documented to shift the memory after the freed region. It also clears
  bytes from the end of the freed block on, so that later blocks survive only under the exact
  condition in `MemoryMap.Mapping.Free`. Its library calls stay inside the
  mapped pages only under the condition in `MemoryMap.FreeStaysInside`, which a large block of
  a small mapping does not meet (`MemoryMap.LargeBlockCannotBeFreed`).
- `udo_mm_alloc` adds sizes without a check. If the sum wraps, growth copies beyond the new
  mapping unless both end on the same page (`MemoryMap.GrowthStaysInside`).
- A path without a slash loses its first character to the split
  (`Paths.SplitRoundTrip`).
- A process whose errno is EINTR from an earlier call takes the channel's token and returns
  an error without passing it on (`ShmChannel.StaleErrnoLosesToken`).
- `udo_jpool_create` computes sizes in 32 bits: the regions are as large as asked for exactly
  while they take less than 4 GiB together (`JobPoolLayout.RegionIsLargeEnough`). It gives out
  regions too small for a job, such as eight bytes each for a size of 1 and 511 threads
  (`JobPoolMemory.SmallRegionsAreMade`).
- `udo_jpool_destroy` is documented to return after all jobs. The jobs are always done, but
  it can wait for a worker that has gone to sleep on the force value, exactly if the worker
  was about to load job_free when that value was stored (`JobPoolShutdown.JoinCanWaitForSleeper`).
- `udo_jpool_add_job` wakes its worker, but a worker on its way to sleep misses that and can
  sleep over the job until a later wake-up (`JobPoolIdle.IdleWorkerCanSleepOver`).
- `p_shm_create` checks mmap by an `err` that mmap does not set (`src/shm.c:166-172`), so a
  failed mapping is not noticed; the model is about a mapping that mmap gave.

## Model

| member | source | states |
|---|---|---|
| JobPoolTheorems.FifoExactlyOnce | src/jpool.c:292-312 | In every state of every clean run, across any number of resets, the jobs dealt to a queue are those executed, then the one in the worker's hands, then the slots from front to rear, then the one being published, in that order |
| JobPoolTheorems.WorkerExecutesItsStride | src/jpool.c:438-445 | The j-th job worker t executes is accepted job number t + j * thread_count |
| JobPoolTheorems.AccessesStayInRegion | src/jpool.c:257-263 | Every slot that the worker holds, dequeues when there is one, or that the submitter is about to store, lies wholly inside the queue's region |
| JobPoolTheorems.CountIsOutstanding | src/jpool.c:246-254 | Outside publication and shutdown, job_count is the number of slots from front to rear plus the job in the worker's hands |
| JobPoolTheorems.ResetOnlyWhenDrained | src/jpool.c:246-254 | When p_queue_wait reads zero, front equals rear, the worker holds nothing, every slot is cleared, and all jobs dealt before are executed |
| JobPoolTheorems.WaitReturnsAfterAllJobs | src/jpool.c:476-486 | When udo_jpool_wait returns, every queue's worker has executed all jobs dealt to it and holds none |
| JobPoolTheorems.DestroyAfterAllJobs | src/jpool.c:506-517 | When udo_jpool_destroy unmaps the queues, all accepted jobs are executed and all workers have exited |
| JobPoolTheorems.ShutdownIsSafe | src/jpool.c:509-512 | From the store of the force value on, the worker calls no job function, dequeues at most once, and what it dequeues is a cleared slot inside its region |
| JobPoolTheorems.DrainNeverStuck | src/jpool.c:249-252 | While p_queue_wait waits, the worker has a step, or sleeps and the submitter's next steps wake it, which brings it nearer to a dequeue |
| JobPoolTheorems.WorkerStepWorks | include/futex.h:122-149 | While jobs are outstanding, every step of the worker lowers a measure of jobs left first and position in the loop second |
| JobPoolTheorems.DrainIsBounded | src/jpool.c:249-252 | During one drain a worker takes at most 16 * job_count + 14 steps, whatever the interleaving, so a drain ends under fair scheduling |
| JobPoolCalls.WaitsExactlyWhenFull | src/jpool.c:214-220 | udo_jpool_add_job goes to wait for a drain if and only if there is no whole slot behind the one at rear, and else on to publish |
| JobPoolCalls.AcceptsProperJobs | src/jpool.c:433-436 | Between calls exactly the jobs with a function and an argument are accepted |
| JobPoolCalls.AddPublishesAtOnce | src/jpool.c:442-464 | From every state of a clean run between calls, if the queue is not full, seven steps of the submitter alone leave the job in the slot at rear, rear moved on, the job counted and the worker awake, and nothing else changed |
| JobPoolCalls.AddCanReturn | src/jpool.c:419-465 | From every such state udo_jpool_add_job can be called with any proper job and return with it accepted, after a drain if the queue is full |
| JobPoolCalls.WaitCanReturn | src/jpool.c:476-486 | From every such state udo_jpool_wait can be called and return, for any number of queues |
| JobPoolCalls.DestroyCanReturn | src/jpool.c:497-517 | From every such state udo_jpool_destroy can be called and come to unmap the queues, for any number of queues |
| JobPoolCalls.SubmitterGetsOn | src/jpool.c:419-517 | Every step of the submitter, but for those that wait for jobs, lowers the number of steps left to the end of its call, which is zero exactly when the call is over |
| JobPoolCalls.WakeUpsWake | src/futex.c:245-252 | Each of the submitter's four wake-ups leaves the worker awake and changes nothing else |
| JobPoolRaces.RunKeepsPromisesExactly | src/jpool.c:233-312 | A run keeps FIFO, exactly-once and the exact job_count in every state if and only if no slot is used while being stored and no dequeue finds the queue empty |
| JobPoolRaces.PromisesKeptExactly | src/jpool.c:233-312 | FIFO, exactly-once and the exact job_count hold in every reachable state if and only if no slot is used while being stored, and either no dequeue finds the queue empty or no reset tears a check |
| JobPoolChecks.UntornIsClean | src/jpool.c:233-263 | Without a torn check no dequeue finds the queue empty, in any run |
| JobPoolRaces.EarlyUseLosesJob | src/jpool.c:304-308 | A run in which a slot is tested before it is stored ends with the accepted job unexecuted, behind front, and job_count zero |
| JobPoolRaces.TornResetWrapsCount | src/jpool.c:233-243 | For either torn check there is a run with an empty dequeue after which job_count has wrapped below zero and front has passed rear |
| JobPoolShutdown.JoinCanWaitForSleeper | src/jpool.c:509-512 | After the force value is stored in a clean run, destroy can come to join a sleeping worker if and only if the worker was about to load job_free as the value to sleep on |
| JobPoolShutdown.SleeperLoadedForce | src/futex.c:195-200 | Whenever destroy joins a sleeping worker, the worker was at that load when the force value was stored |
| JobPoolShutdown.WorkerExits | src/jpool.c:298-311 | Otherwise the worker takes at most eight more steps, has exited after eight, and has a step to take as long as destroy joins it and it has not exited |
| JobPoolShutdown.JoinIsStuck | src/jpool.c:512 | While destroy joins a sleeping worker the submitter has no step |
| JobPoolShutdown.ForceStoredTooEarly | src/jpool.c:509-512 | There is a clean run in which the force value is stored at that moment |
| JobPoolIdle.IdleWorkerCanSleepOver | src/jpool.c:461-462 | After the wake-up of a publication, and with no later one on the queue, a clean run can come to a worker asleep over a queued job, between calls, if and only if the worker was past its look at the queue and the job was still queued |
| JobPoolIdle.SleeperWasPastLook | src/jpool.c:461-462 | A worker asleep over a queued job between calls was past its look at the queue at the last wake-up |
| JobPoolIdle.IdleWorkerSleepsOver | src/jpool.c:461-462 | There is a clean run that ends with the worker asleep over its only job |
| JobPoolIdle.WorkerCanLookAgain | include/futex.h:122-149 | A worker that finds neither a job nor the force value can look again or go on to sleep, and a sleeper can be let go to look again; there is nothing else they can do |
| JobPoolRun.NextKeeps | src/jpool.c:419-513 | Every step of the submitter or of a worker that neither uses a slot early nor dequeues from an empty queue keeps the pool's invariant |
| JobPoolRun.InvOverRun | src/jpool.c:292-513 | The invariant holds in every state of every clean run |
| JobPoolQueue.WorkerKeepsLive | src/jpool.c:292-312 | Every step of a worker keeps the queue's invariant and the order executed, in hand, pending |
| JobPoolLayout.Create | src/jpool.c:355-405 | The loop places control words and region of every queue where the layout says, with the 32-bit arithmetic of the code, and fails in the code's cases only |
| JobPoolLayout.RegionIsLargeEnough | src/jpool.c:355-375 | Each region has at least the requested size if and only if the regions with their padding take less than 4 GiB |
| JobPoolLayout.HugeQueueIsTooSmall | src/jpool.c:355-371 | One queue of 4 GiB gets a smaller region than asked for |
| JobPoolLayout.LayoutFitsExactly | src/jpool.c:355-405 | Control words and regions of all queues lie inside the mapping if and only if it has room for the control words, for mappings of 4 GiB and more too |
| JobPoolLayout.MappingHoldsControlWords | src/jpool.c:355-361 | It has that room, and all bytes needed, unless the computed size wraps size_t |
| JobPoolLayout.LayoutIsDisjoint | src/jpool.c:375-405 | cur_thread, the control words of all queues and all regions are then pairwise disjoint |
| JobPoolLayout.RegionsFillMapping | src/jpool.c:371-403 | The regions use up a mapping of less than 4 GiB, but for fewer bytes than there are queues |
| JobPoolMemory.SlotsStayInOwnRegion | src/jpool.c:378-405 | In every clean run of a pool so laid out, every slot that the worker of a queue or the submitter on it uses lies in that queue's region of the mapping and in no other |
| JobPoolMemory.SlotsAreSafeExactly | src/jpool.c:214-220 | All slots in use stay in their own regions, in every run without a mishap, if and only if the regions have room for a job |
| JobPoolMemory.SmallRegionsAreMade | src/jpool.c:355-378 | 511 queues of one byte get regions of eight bytes |
| JobPoolMemory.CreatedPoolIsInitial | src/jpool.c:370-405 | What udo_jpool_create lays out, in zeroed memory, is an initial pool of the step system, with room for a job exactly if the region size says so |
| JobPoolLayout.PageRoundIsIdeal | src/jpool.c:355-375 | The mask form used for the mapping's size is rounding up to whole pages as long as it does not wrap |
| RoundRobin.ShareIsStride | src/jpool.c:438-445 | The j-th entry dealt to queue t of n is entry t + j * n of the log |
| RoundRobin.SharesBalanced | src/jpool.c:438-445 | Shares differ in length by at most one |
| Futex.NoLostWakeup | src/futex.c:143-192 | In every reachable state, a thread asleep on a value that is not in the word, which is not LOCK either, will be woken by a wake-all still to come |
| Futex.LockerSleepsOnHeldLock | src/futex.c:143-157 | With no wake-all still to come, a thread asleep in udo_futex_lock sleeps on a locked word |
| Futex.WaitIsReliableUnlessForLock | src/futex.c:161-192 | udo_futex_wait(desired) never leaves its caller asleep once desired is stored and its wake-all done, if and only if desired is not LOCK |
| Futex.ForceWakesLockers | src/futex.c:222-230 | After a forced unlock and its wake-all, nobody sleeps in udo_futex_lock, and other sleepers sleep on the force value itself |
| Futex.ForceWakesWaiters | src/futex.c:222-230 | If the force value is never overwritten, nobody is left asleep in udo_futex_wait either |
| Futex.ForceIsReliableForForceOnly | src/futex.c:181-191 | A forced unlock leaves no caller of udo_futex_wait(desired) asleep, over all runs, if and only if desired is the force value |
| Futex.LocksNeverExceedUnlocks | src/futex.c:122-158 | From the locked initial state, successful lock returns, plus one if the word is unlocked, never exceed the stores of UNLOCK |
| Futex.AtMostOneOwner | src/futex.c:122-219 | When only owners unlock and nobody forces, there is never more than one owner, and none exactly when the word is unlocked |
| Futex.NextKeepsWakeInv | src/futex.c:122-252 | Every step of every thread keeps the invariant behind these results |
| FutexCalls.LockReturns | src/futex.c:122-158 | udo_futex_lock returns only by a step of its caller that takes the lock, the word being unlocked, or that sees the force value; and such steps do return |
| FutexCalls.WaitReturns | src/futex.c:161-192 | udo_futex_wait(desired) returns only by a step of its caller that finds desired or the force value in the word; and such steps do return |
| FutexCalls.WaitCondReturns | src/futex.c:195-200 | A single wait on a condition loads the word, sleeps exactly if it is still the same, and ends when woken or let go early |
| FutexCalls.SleepsOnExpectedOnly | src/futex.c:156-190 | A thread falls asleep by its own step only, while the word is the value it expects, and changes nothing |
| FutexCalls.StoreTakesEffect | src/futex.c:211-242 | A store puts its value in the word, takes its caller from the owners, and the caller goes on to wake |
| FutexCalls.WakeAllWakesAll | src/futex.c:218-251 | A wake-all leaves nobody asleep: lockers and waiters have one more try before they sleep again, single waits are over, others stay where they are |
| FutexCalls.GivesUpEarly | src/futex.c:130-156 | Which steps can fail or end early, and where that leads |
| FutexCalls.TriesAreBounded | src/futex.c:130-178 | A caller of lock or wait tries a bounded number of times before it returns or tries to sleep |
| FutexCalls.CallsStart | include/futex.h:60-180 | Every call can be made by a thread that is in none, and begins as it should |
| FutexCalls.LockerSleeps | src/futex.c:143-157 | A run in which a caller of udo_futex_lock comes to sleep |
| ShmLayout.Attach | src/shm.c:181-218 | On a mapping that mmap gave, the loop computes every process's place, turns unlocked read futexes to locked, changes nothing else but the counter, and is refused in the code's cases only; on zeroed memory every read futex is then locked and every write futex unlocked |
| ShmLayout.LayoutFitsExactly | src/shm.c:192-218 | All futexes and data segments lie inside the mapping if and only if it has room for the counter and the futexes |
| ShmLayout.LayoutIsDisjoint | src/shm.c:192-218 | They, the counter and the segments are then pairwise disjoint, those of one process and those of two |
| ShmLayout.SegmentsFillMapping | src/shm.c:192-218 | The segments use up the mapping, but for fewer bytes than there are processes |
| ShmStart.FirstAttachIsInitial | src/shm.c:196-218 | On zeroed memory the first attach makes an initial channel |
| ShmStart.LaterAttachIsEvent | src/shm.c:204-214 | A later attach does to each segment what the protocol's event does |
| ShmChannel.OneTokenOrLost | src/shm.c:297-356 | In every reachable state a segment's unlocked futexes, writers and readers, and lost tokens add up to exactly one |
| ShmChannel.TokenConservedUnlessLost | src/shm.c:297-356 | A segment has exactly one token if and only if no step so far was one of the three that lose it |
| ShmChannel.LossCauses | src/shm.c:297-345 | A step loses a token exactly if a process that took it finds EINTR in errno, or a futex in which it lies is forced, or a process attaches while a message waits |
| ShmChannel.LostTokenNeverReturns | src/shm.c:297-356 | Once a segment has no token it has none in any later state, and nothing more is sent or received through it |
| ShmChannel.Exclusive | src/shm.c:297-356 | Two processes are never inside the same segment, whatever errno, forcing and attaching do |
| ShmChannel.FaithfulDelivery | src/shm.c:301-313 | The k-th completed read of a segment agrees with the k-th completed write as far as both go, and equals it if they have one length, for every interleaving of word steps and whatever the clears leave |
| ShmCalls.ReadDelivers | src/shm.c:297-317 | A call to read n words returns with one more message received, of exactly n words, and the write futex unlocked, or with EINTR and nothing transferred |
| ShmCalls.WriteDelivers | src/shm.c:343-356 | A call to write a message returns with exactly that message sent and the read futex unlocked, or with EINTR and nothing transferred |
| ShmCalls.ReadReceivesMessage | src/shm.c:301-313 | A read of as many words as the waiting message has, if it returns without an error, has received that message |
| ShmCalls.ReadFollowsWrite | src/shm.c:297-356 | When a read returns without an error there was a message waiting |
| ShmCalls.InsideGetsOn | src/shm.c:301-352 | A process with the token always has a step, and each one brings it nearer to its return |
| ShmCalls.ReadLockGetsOn | src/shm.c:297-299 | A reader at its lock has a step exactly if the futex is unlocked, and gets the token, or forced, and returns with EINTR in errno |
| ShmCalls.WriteLockGetsOn | src/shm.c:343-345 | The same for a writer |
| ShmCalls.ForceTakesEffect | src/futex.c:222-230 | Forcing a futex puts the force value there and changes nothing else of the transfer |
| ShmCalls.CallsAreAccepted | src/shm.c:287-295 | Between calls a process can call to read or write whatever fits the segment |
| ShmChannel.WritesAndReadsAlternate | src/shm.c:315-354 | Completed writes and reads of a segment alternate, a write first |
| ShmChannel.TokenTellsTurn | src/shm.c:297-356 | While the token is not lost, it is on the readers' side exactly when a message has been sent and not received |
| ShmChannel.StepKeepsDelivery | src/shm.c:301-352 | Every step inside a read or write keeps the invariant behind delivery |
| ShmChannel.StaleErrnoLosesToken | src/shm.c:343-345 | Without any force or attach, a process with a stale EINTR leaves a fresh segment in a state from which no continuation ever transfers anything |
| MemoryMap.Mapping.constructor | src/mm.c:61-100 | A new mapping is zeroed, empty and sized as requested, and accounted for if and only if the sum with the header does not wrap |
| MemoryMap.Mapping.Alloc | src/mm.c:83-115 | Growth happens exactly if the data size is at most the request; it copies every byte, zeroes the rest, resets the account and forgets the blocks, also if the sum wraps and the copy still fits, when the account holds exactly if there is room for the header; otherwise nothing changes |
| MemoryMap.Mapping.SubAlloc | src/mm.c:118-143 | The account is kept in any state; a block of the requested size is appended to the list at the returned address, bytes elsewhere unchanged, or the call fails for want of space and changes nothing; if the size wraps, the list stays and the buffer still holds it only if nothing was taken |
| MemoryMap.Mapping.GetSize | src/mm.c:146-154 | The size of every live block is the one it was asked for with |
| MemoryMap.Mapping.Free | src/mm.c:157-187 | The account is kept in any state; freeing a live block leaves exactly the list without it if and only if the bytes from two block sizes on were zero, in particular if no more bytes follow it than it has |
| MemoryMap.Mapping.FindsBlock | src/mm.c:170-171 | The size found before the address of a live block is that block's |
| MemoryMap.Mapping.LiveBlocksDisjoint | src/mm.c:134-140 | Live blocks are disjoint and inside the buffer |
| MemoryMap.Mapping.Write | src/mm.c:134-140 | What a caller writes into its block changes that byte of that block and no other block or prefix |
| MemoryMap.GrowthStaysInside | src/mm.c:67-91 | The copy of growth stays inside the new mapping if and only if the sum of sizes does not wrap, or wraps to a size that ends on the page where the old mapping ends |
| MemoryMap.GrowthCanLeaveMapping | src/mm.c:67-91 | A mapping of two pages and a request for which it does not |
| MemoryMap.FreeStaysInside | src/mm.c:170-186 | The library calls of udo_mm_free stay inside the mapped pages if and only if these have as many bytes behind the live ones as are freed, and the block is as far from their end as the live bytes are long |
| MemoryMap.LargeBlockCannotBeFreed | src/mm.c:157-187 | A mapping of one page whose only block has 3000 bytes does not meet that condition |
| MemoryMap.FreeClearsThirdBlock | src/mm.c:179-186 | On a mapping filled by three one-byte allocations and a write, freeing the first clears the third one's byte |
| ByteBlocks.FreedExactly | src/mm.c:170-186 | The set, move and set of udo_mm_free equal cutting the freed bytes out if and only if the bytes from two sizes on are zero |
| ByteBlocks.FreedBlocks | src/mm.c:170-186 | The same on lists of blocks |
| ByteBlocks.ParseIsUnique | src/mm.c:146-154 | A buffer parses as at most one list of blocks |
| ByteBlocks.PrefixRoundTrip | src/mm.c:135-154 | A size_t stored byte by byte reads back |
| FileOps.FileContext.GetLine | src/file-ops.c:292-322 | The index returned is the start of line p if and only if there are p - 1 newlines; beyond, it is that of the last line, or 1 without any newline |
| FileOps.FileContext.GetLineCount | src/file-ops.c:325-344 | The number of newlines in the data |
| Lines.LineExists | src/file-ops.c:292-322 | Line p has a start if and only if there are p - 1 newlines |
| Lines.StartsIncrease | src/file-ops.c:306-317 | A later line starts later |
| Lines.LinesRebuildText | src/file-ops.c:292-344 | The first n lines joined are the text up to the start of line n + 1, so all of them are the text up to its last newline |
| Lines.LineHasOneNewline | src/file-ops.c:306-317 | Between two consecutive starts the only newline is the last character |
| FileOps.FileContext.SetFnameOff | src/file-ops.c:98-113 | The buffer is cut at the last slash of index above 0, or at 0, that one character becoming NUL |
| FileOps.FileContext.GetFilename | src/file-ops.c:377-384 | In either form of the buffer, the string returned is the path behind the cut |
| FileOps.FileContext.GetDirname | src/file-ops.c:387-394 | In the split form the string returned is the path before the cut, or nothing without a directory |
| FileOps.FileContext.GetFullPath | src/file-ops.c:397-409 | From either form, writes back the slash and returns the whole path; without a directory it changes nothing |
| FileOps.FileContext.ResetFullPath | src/file-ops.c:420-431 | From either form, leads back to the split form and nothing else |
| FileOps.CreateDirectories | src/file-ops.c:83-95 | Visits the prefixes before each slash in order and leaves the buffer as it was |
| Paths.SplitRoundTrip | src/file-ops.c:98-113 | dirname, a slash and filename make the path again if and only if the path has a slash |
| Paths.FilenameHasNoSlash | src/file-ops.c:98-113 | The filename has no slash |
| Paths.PrefixesAreDirectories | src/file-ops.c:83-95 | Exactly the prefixes that end before a slash are visited |
| Paths.PrefixesGrow | src/file-ops.c:83-95 | Each prefix visited is longer than those before, so none is visited twice |
| Paths.ParentsFirst | src/file-ops.c:83-95 | Before a prefix is visited, all its own prefixes before a slash have been |
| Macros.ByteAlignMeetsPromise | include/macros.h:118-119 | UDO_BYTE_ALIGN is the least multiple of the power of two not below the value if and only if the addition does not wrap, for every word width |
| Macros.ByteAlignIsDivision | include/macros.h:118-119 | The mask form equals the division form |
| Macros.ByteAlignWraps | include/macros.h:118-119 | If the addition wraps the result is zero |
| Macros.PageGetIsPageStart | include/macros.h:136-137 | UDO_PAGE_GET is the greatest page multiple not above the address, and equals its division form |
| Macros.MaskRoundsDown | include/macros.h:118-137 | Masking with the complement of 2^k - 1 rounds down to a multiple of 2^k |
| Macros.AndIsBitwise | include/macros.h:118-137 | The AND used here has in each bit the conjunction of its operands' bits |
| Macros.NotIsBitwise | include/macros.h:118-137 | The complement used here has in each bit of the word the opposite bit |

## Left out

- Sockets (`src/sock-*`, `src/usock-*`, `src/vsock-*`, `src/csock-raw.c`), logging, versions and contexts allocated by the caller: thin wrappers and plumbing.
- System calls: mmap, ftruncate, shm_open and pthread_create appear only as success flags or not at all; file reading, copying and removal are not modelled.
- NULL arguments: the checks that return at once on a NULL context or address are not modelled, save for NULL jobs and a missing file mapping.
- Memory ordering weaker than sequential consistency: every atomic step is indivisible and seen by all at once.
- Several submitting threads: cur_thread is loaded and stored in two steps, so the model has one submitter.
- Runs with a mishap: the theorems of `JobPoolTheorems` are about clean runs; `JobPoolRaces.PromisesKeptExactly` shows that they cannot hold beyond.
- Job functions: a call is one step that ends and does not call the pool.
- DrainIsBounded: bounds the worker's own steps; that the worker is scheduled at all is an assumption about fairness.
- JobPoolTheorems.AccessesStayInRegion: for regions with room for a job, as are all theorems of that module; `JobPoolMemory.SlotsAreSafeExactly` shows that it fails for the others.
- JobPoolMemory.SlotsStayInOwnRegion: likewise.
- The lengths of spinning phases in the worker and in the channel's locks: a retry may happen any number of times. `Futex` keeps the bound for lock and wait; it does not model the errno they set.
- udo_futex_create and the *_destroy functions of futex and shared memory: simple loops and unmapping.
- JobPoolLayout.LayoutIsDisjoint: not for a mapping too small for the control words, which udo_jpool_create can only make by wrapping size_t.
- ShmLayout.Attach: for a mapping that mmap gave, as its failure is not noticed by the code.
- The attach counter of shared memory over whole runs: a rejected attach also decrements it, so it does not count contexts.
- Channel calls for a process index out of range, for more bytes than the segment has, or for a number of bytes that is not a whole number of words.
- MemoryMap.Mapping.SubAlloc: a size that wraps is modelled only if the prefix it stores is inside the mapped pages.
- MemoryMap.Mapping.Alloc: only if the copy of growth stays inside the mapped pages, which `MemoryMap.GrowthStaysInside` characterises; block bookkeeping does not survive growth, in the code either.
- MemoryMap.Mapping.Free: only if its calls stay inside the mapped pages, which `MemoryMap.FreeStaysInside` characterises; the code checks no bounds. The bytes of struct udo_mm at the start of the buffer are fields of the class and not modelled as bytes.
- MemoryMap.Mapping.Write: stands for the caller's own stores.
- FileOps.FileContext.GetLine: the result beyond the last line is described, not claimed to be useful.
- Paths longer than the buffer or holding a newline: udo_file_ops_create copies with memccpy, which is not modelled.
- UDO_MAX, UDO_MIN and UDO_STRTOU: one-line expressions and a hash without a promised property.
