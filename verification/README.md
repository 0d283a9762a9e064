# Lock and publication kernels under weak memory

The repository collects small concurrent kernels (queue locks, a compare-and-swap lock, an rw-lock,
double-checked creation, a publication arena, a cached mode) and scripts that run each of them under
several memory models and classify the verdicts. This project models the kernels as programs on a
store-buffer machine and proves what they promise for every run: any number of threads, any number
of rounds, any schedule.

## How it is built

**The machine** (`StoreBuffer`, `Machine`). TSO has one FIFO of stores per thread. PSO keeps a thread's
stores in order only if they are to one address or a store barrier stands between them, as in
chapter 8 and Appendix D of The SPARC Architecture Manual, Version 9. Loads take the thread's own
newest buffered store to the address, else memory, in program order. Read-modify-writes, full
fences and `seq_cst` stores wait for an empty buffer. Ordinary, relaxed and release stores (section
7.17.3 of ISO/IEC 9899:2011) are buffered, a release store behind everything its thread has stored
before. A store barrier lets the thread run on with its stores still buffered. A machine is
deterministic once a schedule is given and a choice that is not enabled changes nothing, so "every
run" is "every schedule".

**General theorems**, for arbitrary programs: SC runs are TSO runs and TSO runs are PSO runs
(`Inclusion`); programs whose stores are separated have no PSO run that is not a TSO run
(`Separated`); fenced programs have only SC runs, on TSO and on PSO (`Fenced`); all this with the
values that every thread reads (`Reads`); seq_cst stores take runs away and add none (`Stronger`); what the
verdict tables of the two scripts therefore say about a program (`Verdicts`); programs that descend
and never get stuck finish (`Progress`).

**Kernels.** Each shared access is one step, each spin loop a guarded step. A kernel appears twice: as
a program for the machine (`OpOf`, `AfterOp`), which the theorems are about, and as a class that does
the same accesses on a shared memory object in place (`SharedMemory`). Every method of a class is
proved to be exactly one step of that program, and its `Execute` to follow the machine under any
schedule and to end in a state that has the property of the kernel. History variables (who arrived
in which order, how many stores have landed) only observe; lemmas named `StepIsTso`, `NextIsTso`
and `ExecIsTso` say so.

| files | kernel | machine |
|---|---|---|
| `Mcs`, `McsInvariant`, `McsSteps`, `McsTheorems`, `McsProgress`, `McsLock` | MCS queue lock, three forms | SC, TSO |
| `McsPso`, `McsPlain` | the same lock | PSO |
| `Clh`, `ClhInvariant`, `ClhSteps`, `ClhTheorems`, `ClhProgress`, `ClhLock`, `ClhPso` | CLH queue lock | SC, TSO, PSO |
| `FifoLock` | the abstract lock both refine | |
| `CasLock`, `CasLockProgress`, `CasLockPso` | spinning compare-and-swap lock, four ways to unlock | TSO, PSO |
| `RwLock`, `RwLockOwner`, `RwLockFlag`, `RwLockProgress`, `RwLockEntry` | MySQL rw-lock, exclusive entry | TSO, PSO |
| `TableCreation`, `TableProgress` | double-checked creation | TSO |
| `Arena` | publication from a circular arena | TSO |
| `GtidCache` | counter-validated cache | TSO |
| `Publication`, `PublicationReads` | payload and flag, with and without something in between | TSO, PSO |
| `StoreBufferTest`, `ClhTest` | two tests of the scripts' batches | SC, TSO, PSO |

`TwoThreads` has the steps of PSO runs of two threads, for the runs that show a property to fail.

A theorem for TSO or PSO holds under SC too, and one for PSO under TSO: `Inclusion.EagerRun` and
`Inclusion.RunTogether` turn a run of the stronger machine into one of the weaker.

## Where the code and what is said about it differ

- The rewrite to `seq_cst` replaces the text `memory_order_relaxed` only. Ordinary stores, as in
  `GENMC&Nidhugg/Layer1/unsafe_publish_genmc.c`, and release stores stay as they are, so a program
  with either need not become sequentially consistent (`StoreBufferTest.RewriteMissesIff` says for
  the store-then-load test exactly when it does not). It does when all its buffered stores are
  relaxed (`Verdicts.RewriteIsFenced`), and a release store may be harmless: the one of
  `GENMC&Nidhugg/Layer1/3-sel4_genmc.c` is (`ClhTest.RewriteIsFaithful`).
- The CLH test of `GENMC&Nidhugg/Layer1/3-sel4_genmc.c` looks at its predecessor's node once instead of
  waiting for it. With the two threads it starts its assertion holds under sequential consistency;
  with four it can fail there (`ClhTest.WrongIff`).
- "Logic Bug" of the CBMC table is any program that fails under TSO, also one that is right under
  sequential consistency (`StoreBufferTest.LogicBugLabelIsNotAnScBug`).
- The CBMC classifier puts "fails under TSO, safe under PSO" together with errors and timeouts. That
  pair cannot be the truth about any program (`Verdicts.CbmcTable`).
- Run under PSO, the MCS lock of `CBMC/Layer1/1-Linuxeasy.c` fails its counter check, for its hand-off
  is a plain store with no fence before it. The two other forms have a release fence and a release
  store there and are safe (`McsPlain.PsoSafeIff`).
- The same goes for the CLH lock with ordinary stores (`ClhPso.PsoSafeIff`), for the compare-and-swap
  lock that unlocks by a plain store (`CasLockPso.PsoSafeIff`), and for publication with nothing between
  payload and flag, unless the payload is all zeros (`Publication.PsoPublishesIff`).

## Model

| member | source | states |
|---|---|---|
| `McsTheorems.MutualExclusion` | CBMC/Layer1/1-Linuxeasy.c:18-46 | In every TSO run, for any threads and rounds and each form of the lock, at most one thread is between entry and release, the check `cs == 1` never fails and no NULL is followed, although the counter and the hand-off stores are buffered |
| `McsTheorems.MutualExclusionSc` | CBMC/Layer1/1-Linuxeasy.c:18-46 | The same in every SC run |
| `McsTheorems.RefinesFifo` | Layer1/2-DPDK.c:29-120 | Every TSO run is a run of the abstract FIFO lock: entries are a prefix of the tail exchanges in their order, exits a prefix of the entries, at most one more entry than exits, over both release paths |
| `McsTheorems.RunStepRefines` | Layer1/2-DPDK.c:44-120 | Each single step acts on the abstract queue as the events it shows: arrival, entry at once into an empty queue, end of the spin, release by compare-and-swap or by hand-off, or nothing |
| `McsTheorems.QueueShape` | Layer1/1-Linuxeasy.c:47-76 | In every reachable memory there is a duplicate-free list of exactly the threads between exchange and release such that tail is its last node or NULL, each next is its immediate successor or NULL, NULL exactly while the successor's link store is not yet issued or still buffered, and everyone behind another is locked |
| `McsTheorems.NodeLifetime` | Layer1/1-Linuxeasy.c:63-76 | From the return of unlock on either path to the owner's next exchange no other thread is about to access the node or has a buffered store to it, and between rounds neither has the owner |
| `McsTheorems.InitInOrder` | Layer1/2-DPDK.c:35-36 | Of the two initialising stores the one to `next` comes first in the Linux forms and the one to `locked` in the DPDK form; before its exchange a thread sees both |
| `McsSteps.StepKeepsInv` | Layer1/1-Linuxeasy.c:47-76 | Every step of every thread and every landing store keeps the queue invariant |
| `McsSteps.CasSucceeds` | Layer1/1-Linuxeasy.c:66-68 | A compare-and-swap that finds the own node at the tail sends its thread home, leaves the queue empty and the tail NULL, and keeps the invariant |
| `McsSteps.CasFails` | Layer1/1-Linuxeasy.c:66-71 | One that does not leaves its thread at the head, waiting for `next`, with someone queued behind it, and keeps the invariant |
| `McsPso.PsoRunIsTsoRun` | Layer1/1-Linuxeasy.c:47-76 | With the release fence or the release store before the hand-off every PSO run goes through the local states of a TSO run, although initialising stores may land ahead of an earlier hand-off |
| `McsPso.PsoMutualExclusion` | Layer1/2-DPDK.c:29-120 | Hence exclusion and the counter check in every PSO run of these two forms |
| `McsPso.LinuxAsWritten` | Layer1/1-Linuxeasy.c:14-17 | The Linux form with `locked` atomic, so that assignments to it are seq_cst, is exclusive in every TSO run and in every PSO run |
| `McsPlain.PsoSafeIff` | CBMC/Layer1/1-Linuxeasy.c:28-36 | All PSO runs are exclusive if and only if the hand-off has the fence of the Linux form or the release order of the DPDK form |
| `McsProgress.McsDescends` | Layer1/2-DPDK.c:44-119 | Every operation that changes anything, and every landing store, strictly decreases a natural number of its thread |
| `McsProgress.SomeoneMoves` | Layer1/2-DPDK.c:44-119 | While a call is unfinished or a store buffered, some choice does change something, also when an unlocker waits for `next` |
| `McsProgress.ExitsCounted` | CBMC/Layer1/1-Linuxeasy.c:38-46 | In every run the rounds left over, the one in progress and the exits in the trace are the rounds asked for |
| `McsProgress.NeverWedges` | Layer1/2-DPDK.c:77-119 | After more than 34 stretches per round in which every thread may run and every buffer may drain, all calls have returned, all stores landed, and the trace has as many exits of every thread as it had rounds |
| `Progress.FairRunsStop` | Layer1/2-DPDK.c:77-119 | For every program that descends and is never stuck short of the end, each fair stretch uses up at least one unit of the measure until all have stopped |
| `McsLock.QueueLock.InitStep` | Layer1/1-Linuxeasy.c:48-49 | The two initialising stores, in place, are those steps of the program, in either source order |
| `McsLock.QueueLock.AcquireStep` | Layer1/1-Linuxeasy.c:51-60 | Exchange, link store and spin, in place, are those steps of the program |
| `McsLock.QueueLock.CriticalStep` | CBMC/Layer1/1-Linuxeasy.c:41-43 | The counter check, split into loads and stores, in place |
| `McsLock.QueueLock.ReleaseStep` | Layer1/1-Linuxeasy.c:65-75 | The test of `next`, the compare-and-swap, the wait, the fence and the hand-off, in place |
| `McsLock.QueueLock.Execute` | CBMC/Layer1/1-Linuxeasy.c:38-46 | Driving the object through any schedule from the initial state follows the TSO machine and ends with at most one holder and no failed check |
| `ClhTheorems.MutualExclusion` | CBMC/Layer1/3-sel4-dynamic.c:22-40 | In every TSO run at most one thread is between entry and unlock and the check `cs == 1` never fails, with plain as with seq_cst stores to `locked` |
| `ClhTheorems.MutualExclusionSc` | CBMC/Layer1/3-sel4-dynamic.c:22-40 | The same in every SC run |
| `ClhTheorems.RefinesFifo` | Layer1/3-sel4-dynamic.c:37-53 | Every TSO run is a run of the abstract FIFO lock: entry in tail-exchange order |
| `ClhTheorems.ChainShape` | Layer1/3-sel4-dynamic.c:23-28 | In every reachable memory the nodes from the dummy to the tail form a chain of distinct nodes that is unlocked below a point and locked above it; each waiter spins on the node just below its own, the holder's node is the lowest locked one, and a node at that point that is still locked has its unlocking store in some buffer |
| `ClhTheorems.VisitsDiffer` | Layer1/3-sel4-dynamic.c:38 | No node is used for two acquisitions |
| `ClhSteps.StepKeepsInv` | Layer1/3-sel4-dynamic.c:37-53 | Every step and every landing store keeps the chain invariant |
| `ClhPso.PsoRunIsTsoRun` | Layer1/3-sel4-dynamic.c:37-53 | With seq_cst or release stores to `locked` every PSO run has the memory and the local states of a TSO run, and its buffers up to barriers |
| `ClhPso.PsoSafeIff` | CBMC/Layer1/3-sel4-dynamic.c:28-30 | All PSO runs are exclusive if and only if the stores to `locked` are seq_cst or release stores |
| `ClhProgress.SomeoneMoves` | Layer1/3-sel4-dynamic.c:44-46 | While an acquisition is unfinished or a store buffered, some choice changes something |
| `ClhProgress.NeverWedges` | Layer1/3-sel4-dynamic.c:37-53 | After more than 18 fair stretches per acquisition all are over, all stores landed, and the trace has as many exits of every thread as it had acquisitions |
| `ClhLock.ChainLock.LockStep` | Layer1/3-sel4-dynamic.c:37-47 | Store to the fresh node, exchange and spin, in place, are those steps of the program |
| `ClhLock.ChainLock.HolderStep` | CBMC/Layer1/3-sel4-dynamic.c:28-38 | The counter check and the unlocking store, in place |
| `ClhLock.ChainLock.Execute` | CBMC/Layer1/3-sel4-dynamic.c:32-40 | Driving the object through any schedule follows the TSO machine and ends with at most one holder and no failed check |
| `FifoLock.AcceptedIsFifo` | Layer1/2-DPDK.c:72-76 | A trace the abstract lock accepts enters in arrival order, is left in that order, and its queue is the arrivals not yet left |
| `Inclusion.EagerRun` | CBMC/Layer1/run_cbmc.sh:29 | For every program, draining each store at once makes a TSO run that ends exactly where a given SC run does |
| `Inclusion.RunTogether` | CBMC/Layer1/run_cbmc.sh:50 | For every program, every TSO run is matched by a PSO run with the same memory and local states whose buffers differ by barriers only |
| `Inclusion.QueueIsFiltered` | CBMC/Layer1/run_cbmc.sh:50 | What a PSO buffer holds for an address is the TSO buffer filtered by that address |
| `Reads.ScReadsAreTsoReads` | CBMC/Layer1/run_cbmc.sh:29 | For every program, each SC run has a TSO run in which every thread reads the same values in the same order |
| `Reads.TsoReadsArePsoReads` | CBMC/Layer1/run_cbmc.sh:50 | For every program, each TSO run has a PSO run in which every thread reads the same values in the same order |
| `Reads.ScReadsStep` | CBMC/Layer1/run_cbmc.sh:29 | What the reads of an SC run are: a step adds to those of its thread the value its operation returns, and nothing else |
| `Reads.TsoReadsStep` | CBMC/Layer1/run_cbmc.sh:29 | What the reads of a TSO run are: an enabled run choice adds what its operation returns, forwarded from the own buffer or from memory; landing stores and disabled choices add nothing |
| `Reads.PsoReadsStep` | CBMC/Layer1/run_cbmc.sh:50 | The same for a PSO run |
| `Reads.ReadsStart` | CBMC/Layer1/run_cbmc.sh:29-50 | No reads at the start, on any of the three machines |
| `Separated.SeparatedPsoIsTso` | CBMC/Layer1/run_cbmc.sh:50 | For every program whose buffered stores to different addresses always have a barrier between them, each PSO run has the memory and local states of a TSO run |
| `Fenced.FencedTsoIsSc` | GENMC&Nidhugg/Layer1/run_genmc_eval.sh:36-38 | If in no SC run a thread loads with a buffered store since its last fence, every TSO run ends in the local states of an SC run, and in its memory too when nothing is buffered |
| `Fenced.FencedPsoIsSc` | GENMC&Nidhugg/Layer1/run_genmc_eval.sh:36-38 | The same for PSO, if in addition a store follows a store to another address only behind a barrier or as a release store |
| `Reads.FencedTsoReads` | Layer1/30-tso_test.c:15-22 | The TSO theorem with the values read: one SC run has every thread's reads, and the memory once the buffers have drained |
| `Reads.FencedPsoReads` | Layer1/30-tso_test.c:15-22 | The PSO theorem with the values read |
| `Stronger.StrongerPsoRun` | GENMC&Nidhugg/Layer1/run_genmc_eval.sh:36 | For every program, making stores seq_cst adds no PSO run: each ends where a run of the original does |
| `Verdicts.BugsGrow` | CBMC/Layer1/run_cbmc.sh:29-50 | A violation under SC is one under TSO, and one under TSO is one under PSO |
| `Verdicts.RunCbmc` | CBMC/Layer1/run_cbmc.sh:16-84 | One row per file in order: each result is Safe exactly if the tool reported success, Bug Detected exactly if it reported failure only, Timeout exactly for neither and status 124, Exception otherwise; exactly which pairs of results land on each label |
| `Verdicts.CbmcTable` | CBMC/Layer1/run_cbmc.sh:71-79 | With true verdicts the error label never appears, and each other label holds exactly when its reading of the two models does; a program wrong under SC is always "Logic Bug" |
| `Verdicts.RewriteKeepsSc` | GENMC&Nidhugg/Layer1/run_genmc_eval.sh:36-38 | The rewrite changes no SC run |
| `Verdicts.RewriteIsFenced` | GENMC&Nidhugg/Layer1/run_genmc_eval.sh:36 | If every buffered store is a relaxed one the rewritten program is fenced, for TSO and for PSO |
| `Verdicts.RewriteShowsScBugs` | GENMC&Nidhugg/Layer1/run_genmc_eval.sh:36-38 | If the rewritten program is fenced it has under TSO exactly the violations the original has under SC |
| `Verdicts.RewriteShowsScBugsOnPso` | GENMC&Nidhugg/Layer1/run_genmc_eval.sh:36-38 | And under PSO, if it is fenced for PSO |
| `Verdicts.RunGenmc` | GENMC&Nidhugg/Layer1/run_genmc_eval.sh:8-77 | One row per file in order: each flag is FAILED exactly for a violation or a race, SUCCESS exactly for no errors and neither, ERROR otherwise; exactly which pairs of flags land on each label |
| `Verdicts.GenmcTable` | GENMC&Nidhugg/Layer1/run_genmc_eval.sh:60-71 | With true TSO verdicts of a program whose rewrite is fenced, "Confirmed WMM Bug" means a violation only reordering gives, "Logic Bug" one that SC already has, and the error label never appears |
| `Verdicts.GenmcTableOnPso` | GENMC&Nidhugg/Layer1/run_genmc_eval.sh:60-71 | The same with true PSO verdicts |
| `StoreBufferTest.ZeroZeroIff` | Layer1/30-tso_test.c:15-32 | `r1 == 0 && r2 == 0` is possible under TSO exactly when the marked fence is missing and the stores are not seq_cst |
| `StoreBufferTest.ScSafe` | CBMC/Layer1/30-tso_test.c:26 | It is never possible under SC |
| `StoreBufferTest.LogicBugLabelIsNotAnScBug` | CBMC/Layer1/run_cbmc.sh:73-74 | The test as it stands is labelled "Logic Bug" and has no violation under SC |
| `StoreBufferTest.RewriteMissesIff` | GENMC&Nidhugg/Layer1/run_genmc_eval.sh:36 | The rewritten test still fails under TSO exactly when the fence is missing and the stores are ordinary or release stores, and never under SC |
| `StoreBufferTest.Test.Step` | Layer1/30-tso_test.c:15-32 | Store, fence and load of either thread, in place, are those steps of the program |
| `StoreBufferTest.Test.Execute` | CBMC/Layer1/30-tso_test.c:9-26 | Driving the object through any schedule follows the TSO machine, and with the fence or seq_cst stores never ends in the double zero |
| `ClhTest.RewriteIsFaithful` | GENMC&Nidhugg/Layer1/3-sel4_genmc.c:11-30 | For any number of threads the rewritten test is fenced although its release store stays, and fails its assertion under TSO and under PSO exactly if the original does under SC |
| `ClhTest.WrongIff` | GENMC&Nidhugg/Layer1/3-sel4_genmc.c:11-30 | Under SC the assertion of the test can fail if and only if there are at least four threads; the source starts two |
| `RwLockOwner.OneOwner` | Layer1/4-MySQL.c:72-133 | In every PSO run, from any initial word in (0x10000000, 0x30000000], all calls that returned 1 belong to one thread |
| `RwLockOwner.DecrementsCount` | Layer1/4-MySQL.c:59-70 | Between its calls the winner reads the word for exactly as many decrements as it has won calls, and memory holds it once its buffer has drained: none is lost or made twice, with or without the mutex |
| `RwLockFlag.RecursionFlag` | Layer1/4-MySQL.c:44-57 | In every PSO run, between its calls, the winner sees itself as the owner and the recursion flag set exactly if its first call had pass 0 |
| `RwLockFlag.WinsExactly` | Layer1/4-MySQL.c:80-132 | Between its calls a thread has won none of its calls, or the first one and, if that had pass 0, every later one with pass 0, and no other |
| `RwLockFlag.SomeoneWins` | Layer1/4-MySQL.c:80-126 | A thread that has finished a call without winning one has another one ahead of it |
| `RwLockFlag.AloneWinsAll` | Layer1/4-MySQL.c:72-133 | A single thread that always asks for recursion wins every call it begins |
| `RwLockProgress.NeverWedges` | Layer1/4-MySQL.c:72-133 | On TSO, after more than 62 fair stretches per call all calls have returned and all stores landed |
| `RwLockProgress.Outcome` | Layer1/4-MySQL.c:72-133 | And then whoever has won has won exactly the calls it should have, and memory holds the word for that many decrements |
| `RwLockOwner.StepKeepsInv` | Layer1/4-MySQL.c:44-133 | Every step and every landing store keeps the ownership invariant, through the window between the decrement and the setting of the owner |
| `RwLock.WordDecreases` | Layer1/4-MySQL.c:105-120 | The word is strictly decreasing in the recursion depth |
| `RwLock.WordDeterminesDepth` | Layer1/4-MySQL.c:105-120 | Equal words mean equal depths |
| `RwLock.WordBelowThreshold` | Layer1/4-MySQL.c:80 | From any initial word in the range no second decrement by X_LOCK_DECR at the first threshold is possible |
| `RwLock.WordFormula` | Layer1/4-MySQL.c:105-120 | From 0x30000000 depth `d >= 3` has the word -0x30000000 - (d - 3) |
| `RwLock.WordFromZero` | Layer1/4-MySQL.c:115-117 | From 0x20000000, where the first decrement leaves zero, the second takes another X_LOCK_DECR off and the later ones count down by one |
| `RwLock.WordFits` | Layer1/4-MySQL.c:167 | It fits a 32-bit int exactly while `d <= 0x50000003` |
| `RwLockEntry.ExclusiveLock.FirstDecrement` | Layer1/4-MySQL.c:59-70 | The mutex-protected test and decrement, in place, are those steps of the program |
| `RwLockEntry.ExclusiveLock.SetOwner` | Layer1/4-MySQL.c:44-57 | The two stores under the mutex, in place |
| `RwLockEntry.ExclusiveLock.RelockTest` | Layer1/4-MySQL.c:97-99 | The unprotected reads of `recursive` and `writer_thread`, in place |
| `RwLockEntry.ExclusiveLock.SecondDecrement` | Layer1/4-MySQL.c:105 | The relock attempt with threshold 0, in place |
| `RwLockEntry.ExclusiveLock.UnprotectedLoad` | Layer1/4-MySQL.c:115-119 | The tests of the word and the load half of the unprotected update, in place |
| `RwLockEntry.ExclusiveLock.UnprotectedStore` | Layer1/4-MySQL.c:117-119 | Its store half, in place |
| `RwLockEntry.ExclusiveLock.Execute` | Layer1/4-MySQL.c:72-133 | Driving the object through any schedule follows the PSO machine and ends with all winning calls in one thread, which has won exactly the calls it should have |
| `TableCreation.CreatedOnce` | Layer1/12-DragonWell8Easy.cpp:30-44 | In every TSO run at most one table is allocated over all threads and calls, every call that has finished has returned, once, that very table, and whoever has it sees all ten buckets null, fresh memory holding anything |
| `TableCreation.FastPath` | Layer1/12-DragonWell8Easy.cpp:34-43 | A call that finds the table there does not touch the mutex: its next access loads the pointer and returns it |
| `TableProgress.NeverWedges` | Layer1/12-DragonWell8Easy.cpp:30-44 | After more than 100 fair stretches per call every thread has a result for each of its calls |
| `TableCreation.StepKeepsInv` | Layer1/12-DragonWell8Easy.cpp:18-44 | Every step and every landing store keeps the invariant that the table pointer reaches memory after its ten buckets |
| `TableCreation.MemoryHasBuckets` | Layer1/12-DragonWell8Easy.cpp:18-22 | Once the pointer is in memory so is every null bucket |
| `TableCreation.Creator.CreateStep` | Layer1/12-DragonWell8Easy.cpp:34-37 | First check, mutex, second check, the filling loop and the pointer store, in place |
| `TableCreation.Creator.ReturnStep` | Layer1/12-DragonWell8Easy.cpp:41-43 | Unlocking, the last load of the pointer and the caller's look at the buckets, in place |
| `TableCreation.Creator.Execute` | Layer1/12-DragonWell8Easy.cpp:30-44 | Driving the object through any schedule follows the TSO machine and ends with one initialised table, returned by every call that has finished |
| `CasLock.TsoSafe` | CBMC/Layer1/8-CVE-2020-11739-Xen.c:7-22 | In every TSO run, for any threads and rounds, at most one thread is inside and no assertion fails, whichever way the lock is unlocked |
| `CasLock.PsoRunIsTsoRun` | CBMC/Layer1/8-CVE-2020-11739-Xen.c:7-22 | Unless it unlocks by a plain store every PSO run is a TSO run up to barriers, the thread running on past a store barrier with its stores still buffered |
| `CasLock.PsoSafe` | GENMC&Nidhugg/Layer1/24-mysql_genmc.c:10-26 | In every PSO run the lock is safe when the unlock is an exchange or a release store or follows a store barrier |
| `CasLock.TsoTakesAll` | GENMC&Nidhugg/Layer1/24-mysql_genmc.c:13-15 | In every TSO run the rounds a thread has left and the times it has turned the word from zero to something else are the rounds it was to do: a failed try is tried again |
| `CasLock.PsoTakesAll` | GENMC&Nidhugg/Layer1/24-mysql_genmc.c:13-15 | The same in every PSO run |
| `CasLockProgress.WordShows` | CBMC/Layer1/8-CVE-2020-11739-Xen.c:8 | In every TSO run the word is zero or the mark, 0xff or 1 by kernel, and it is the mark while someone is inside |
| `CasLockProgress.NeverWedges` | GENMC&Nidhugg/Layer1/24-mysql_genmc.c:10-26 | After more than 16 fair stretches per round every thread has taken the lock exactly as often as it was to, and lock and shared variable are zero |
| `CasLockPso.PsoSafeIff` | CBMC/Layer1/8-CVE-2020-11739-Xen.c:11-13 | All PSO runs are safe if and only if the unlock is not a plain store |
| `CasLock.Spinners.LockStep` | CBMC/Layer1/8-CVE-2020-11739-Xen.c:7-13 | The compare-and-swap and the accesses of the unlock, in place, are those steps of the program |
| `CasLock.Spinners.SectionStep` | GENMC&Nidhugg/Layer1/24-mysql_genmc.c:18-21 | The accesses of either critical section, in place |
| `CasLock.Spinners.Execute` | CBMC/Layer1/8-CVE-2020-11739-Xen.c:15-22 | Driving the object through any schedule follows the TSO machine and ends with at most one thread inside and no failed assertion, and each thread has taken the lock once for each round it has begun |
| `Arena.FieldsBelongTogether` | Layer1/31-unsafe_publish.c:54-79 | In every TSO run, over any number of wrap-arounds, `x + 1 == y` if fewer than ARENA_SIZE further fillings had begun to reach memory, counted on the run, since the publication whose pointer was loaded |
| `Arena.PointerIsFollowed` | Layer1/31-unsafe_publish.c:60-70 | A pointer that is not null leads to the loads of that slot's two fields, whose values are then compared; a null one is loaded again |
| `Arena.Reachable` | Layer1/31-unsafe_publish.c:27-79 | Every reachable state keeps the invariant: stores land in the writer's order and a slot not yet reached by its next filling holds its round's values |
| `Arena.SlotIsRemainder` | Layer1/31-unsafe_publish.c:47 | The slot counted up round by round is the round modulo ARENA_SIZE |
| `Arena.DifferentSlots` | Layer1/31-unsafe_publish.c:47 | Rounds less than ARENA_SIZE apart use different slots |
| `Arena.Publisher.WriterStep` | Layer1/31-unsafe_publish.c:31-48 | The two field stores and the pointer store, in place, are those steps of the program |
| `Arena.Publisher.ReaderStep` | Layer1/31-unsafe_publish.c:56-70 | The pointer load and the two field loads, in place |
| `Arena.Publisher.Execute` | Layer1/31-unsafe_publish.c:27-79 | Driving the object through any schedule follows the TSO machine, and fields read soon enough belong together whichever reader holds them |
| `GtidCache.CacheAgrees` | Layer1/26-mysql-99556.c:22-46 | In every TSO run, when the writer is between rounds, the reader not in a refresh and the cached counter current, the cached mode is the mode |
| `GtidCache.CacheIsNotStale` | Layer1/26-mysql-99556.c:22-34 | At all times after the first refresh the round whose mode the reader took is no older than the cached counter and at most one ahead of the counter |
| `GtidCache.ReaderRefreshes` | Layer1/26-mysql-99556.c:25-31 | After each turn of its loop the reader has the counter it read last as its cached counter |
| `GtidCache.Finishing` | Layer1/26-mysql-99556.c:37-49 | A writer that is through has counted every round and left the mode of the last; a reader is through only then, and stops at its next test once the flag has fallen, not before |
| `GtidCache.ModeCache.WriterStep` | Layer1/26-mysql-99556.c:37-49 | Mode store, fetch_add and the final store, in place, are those steps of the program |
| `GtidCache.ModeCache.ReaderStep` | Layer1/26-mysql-99556.c:22-35 | The tests and loads of the reader's loop, in place |
| `GtidCache.ModeCache.Execute` | Layer1/26-mysql-99556.c:22-49 | Driving the object through any schedule follows the TSO machine and ends with a cache that agrees whenever it claims to be current |
| `Publication.TsoPublishes` | CBMC/Layer1/19-ompi.c:9-21 | For a payload of any length and any number of readers, in every TSO run the flag is never in memory before the whole payload, and a reader that sees the flag sees every payload store |
| `Publication.PsoPublishes` | CBMC/Layer1/10-ceph.c:7-19 | The same in every PSO run when a full fence, a store barrier or the flag's release order keeps the flag behind the payload |
| `Publication.PsoPublishesIff` | CBMC/Layer1/10-ceph.c:9 | All PSO runs publish correctly if and only if one of these is there or the payload is all zeros |
| `PublicationReads.TsoLogs` | CBMC/Layer1/19-ompi.c:16-21 | In every TSO run a reader that has taken the message has loaded the flag as 1 and then every payload field with its value, in order; one that has skipped it has loaded a flag other than 1 and nothing else |
| `PublicationReads.PsoLogs` | CBMC/Layer1/19-ompi.c:16-21 | The same in every PSO run |
| `PublicationReads.NeverWedges` | CBMC/Layer1/10-ceph.c:7-19 | On TSO, after enough fair stretches flag and payload are in memory and every reader is through |
| `Publication.Channel.WriterStep` | CBMC/Layer1/10-ceph.c:7-12 | Payload stores, fence and flag store, in place, are those steps of the program |
| `Publication.Channel.ReaderStep` | CBMC/Layer1/19-ompi.c:16-21 | The flag load and the payload loads, in place |
| `Publication.Channel.Execute` | CBMC/Layer1/10-ceph.c:7-19 | Driving the object through any schedule follows the PSO machine, and with something between payload and flag no reader has failed |
| `SharedMemory.Memory.Load` | CBMC/Layer1/run_cbmc.sh:29 | The backwards search through the own buffer finds the newest store to the address, else memory |
| `SharedMemory.PsoMemory.Load` | CBMC/Layer1/run_cbmc.sh:50 | The same past the barriers of a PSO buffer |
| `SharedMemory.FirstReachable` | CBMC/Layer1/run_cbmc.sh:50 | The forwards search finds the store to an address that may land next: the oldest one, if no barrier is in front of it |

## Left out

- Layer2, Layer3 and their copies: drivers for system calls and fixed two-thread tests.
- Layer1/7-OpenBLAS.c, Layer1/11-MariaDBEasy.c, Layer1/15-openmpi.c, Layer1/24-mysql_rwlock_deadlock.c, Layer1/25-mysql_volatile_bug.c: what they check does not hold under SC to begin with.
- Layer1/8-CVE-2020-11739-Xen.c, Layer1/17-mysql.c and CBMC/Layer1/2-DPDK.c: acquisitions that do not retry, and a compare-and-swap against the address of a local; the retrying forms are modelled.
- Acquire and acq_rel fences of the MCS lock and the read barrier of the rw-lock are no steps: they drain no store buffer, and what is proved without them holds with them. Nor do relaxed and acquire loads differ.
- The orders of C11 on hardware that reorders loads or is not multi-copy-atomic; GenMC's own model is represented by TSO and PSO, and data races on ordinary variables are not undefined here.
- A store after a release store stays behind it and all before it here; C11 would let it overtake them.
- Spurious failures of the weak compare-and-swap: a failed try changes nothing, as a schedule that leaves the thread waiting does.
- Mutexes are a draining compare-and-swap and a draining exchange; the table's own mutex field, thread creation and joining, sleeping and printing are not modelled.
- malloc failure, the freeing of CLH nodes by the thread key and `clh_lock_destroy`: nodes stay allocated.
- The stack node of the MCS thread function is one node per thread, reused in every round; its contents before the first round are arbitrary.
- The fields `last_x_file_name` and `last_x_line` of the rw-lock, which nothing reads; thread ids are nonzero and distinct.
- 32-bit overflow of the arena's seed and of the gtid counter: they are unbounded integers here; for the rw-lock word `RwLock.WordFits` gives the exact range.
- The two scripts are modelled from the tools' outputs on; running the tools, the reports' text and the textual replacement itself are not, only its effect on stores.
- `Publication.Channel.ReaderStep`: tests the flag against 1, as CBMC/Layer1/19-ompi.c does; CBMC/Layer1/10-ceph.c tests it for being positive, which is the same as the flag is only ever 0 or 1.
- `McsPso.PsoMutualExclusion`: exclusion and the counter check; the order of entries, the shape of the queue and progress are stated for TSO.
- `Verdicts.RewriteShowsScBugs`: one way only; a rewritten program that is not fenced may still have no further violation.
