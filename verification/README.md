# Verification of the TL2 transactional memory and its grading harness

This project models, in Dafny, the software transactional memory of `335740/`, the bank workload that
grades it and the two thread protocols of the harness, and proves what they are for.

**The transactional memory, as a transition system** (`Striping`, `Tl2`, `Snapshots`, `Tl2Invariant`).
Any number of transactions share the memory words, the clock and 4999 versioned locks. Every load and
store of a shared word, of a lock bit, of a version or of the clock is a step of its own, and the steps
interleave freely: the copy of a word in `tm_read`, the load of its lock bit, the load of its version;
each exchange and each poll of the lock acquisition; each release on abort; the increment of the clock;
the two loads that validate a read node; and the store, the version update and the release of each
written word. `Tl2Invariant` holds the inductive invariant: who owns which lock, how versions relate to
the clock, what memory holds in the middle of any set of commits.

**What the protocol guarantees** (`Tl2Trace`, `Reference`, `Tl2Theorems`, `Tl2Runs`, `Tl2Progress`,
`Serializability`, `Outcomes`, `ReadOrder`, `StaleRead`). `Reference` is the coarse-lock implementation as a
sequential specification: operations applied directly to memory. Serializability, opacity, the memory
abstraction, real-time order, lock ownership and the bounds on the commit are theorems over all runs.
`Outcomes` says what decides the answers of the library, in terms of the words, locks and versions in
the states of the run: a transaction aborts exactly when one of its accesses was refused, that is, found
a lock held, or a version above rv, that gives it the reason.

`tm_read` copies the word before it looks at the lock, and samples nothing before the copy. So the
code, as it stands, is not serializable: in `StaleRead.TornRead` a writer with a version not above the
reader's stores, versions and releases the word between the copy and the two loads, the stale copy is
accepted, both transactions commit, and the reader fits neither order. The exact condition is proved
for all runs, in terms of the schedule (`Tl2Runs.SerializableBySchedule`): the committed transactions
replay, in version order, on the coarse-lock implementation if and only if no step of the run copied a
word for one of their reads while the owner of its lock, with a version the reader may see, had yet to
store another value there and was bound to do so. `Tl2Theorems.Stale` says the same of a finished read
and the history of commits, and the other results are stated with it; `Tl2Runs.StaleBySchedule` proves
the two equivalent. Runs in which a copy finds the lock free, or in which nobody steps in between the
copy and the load of the lock bit, satisfy the condition (`Tl2Runs.GuardedRun`; a copy and validation
made in one step is a special case), and for them serializability and opacity hold outright. Even a
stale read keeps to real time (`ReadOrder`): it misses no commit of the word that was over when its
transaction began, and reads of a word never go back in versions from one transaction to a later one.

**The code in place** (`LinkedSets`, `SharedRegion`, `TransactionalMemory`). The linked read and write
sets, the lock table and the functions of `335740/tm.c` with their loops. Before every shared access of
the method the other threads may make any number of steps (`SharedRegion.Region.schedule` stands for
what they do). Each method is proved to make exactly the steps of the transition system, so the
theorems above hold of the code (`TransactionalMemory.CodeIsSerializable`); and alone in the region a
transaction is proved never to fail a read and to commit exactly when its words have a lock each.

**The bank** (`BankProgram`, `BankState`, `BankInvariant`, `BankPreserved`, `BankOutcome`,
`BankWorkload`, `BankTheorem`, `TornBank`). The transaction bodies as programs that emit one memory
operation at a time; the bank invariant (balances plus parities are what the accounts were opened with,
no balance is negative, every segment but the last is full); what each transaction does to it; the
bodies with their loops, proved to follow those programs; and the composition with serializability: in
every interleaved run, a `long_tx` that took no stale value returns true, provided no transaction before
it that changed memory took one, and shared memory holds the bank whenever no transaction is inside
`tm_end` and none that changed memory took a stale value. That the code as it stands can fail its own
check is shown by a run: `TornBank.LongTxFails`. The check that follows `init` never fails, and with
guarded copies no `long_tx` does.

**The harness** (`Counting`, `Barrier`, `Sync`, `CounterCheck`, `TornCounter`). The reusable spin barrier
and the rounds of master and workers, for any number of threads and rounds, with every atomic access a
step of its own; and the correctness check that uses both the barrier and the transactional memory, on
a region whatever else was done to it before. The barrier keeps the phases of the check apart, in the
serial order too. The check of the initial value and the checks of all decrements succeed in every run
of the code as it stands. A decrement whose copy overlapped the store of another one has no effect,
though it commits; so the counter ends at the number of such decrements, and the last check succeeds if
and only if there is none. `TornCounter.LastCheckFails` is a run of two workers in which there is one.

`Sequences` and `Stretches` are shared by the rest: the last element of a sequence, and runs put together
step by step.

## Assumptions

- Memory is sequentially consistent, and the clock, the versions and all counters are unbounded integers.
- A word is one value; addresses are integers, memory the library never stored to is zero, and a new segment is apart from all others.
- Clients call the library as its interface demands: no write in a read-only transaction, one call at a
  time per transaction, sizes that are positive multiples of the alignment.
- Auxiliary parts, which no step looks at: the owner kept with a set lock bit, `hist` (the write set
  committed with each version), `writer`, the trace `ops` of a transaction and the version `asof` of a
  read; in the harness `round`, `tasks`, `error`, `result`, `entered` and `returned`.

## Model

| member | source | states |
|---|---|---|
| Striping.Pigeonhole | 335740/shared-lock.h:10-17 | addresses with pairwise distinct locks are at most 4999 |
| Striping.ConsecutiveWords | 335740/shared-lock.c:19-21 | for any base and any power-of-two alignment, n consecutive words have pairwise distinct locks if and only if n is at most 4999 |
| Tl2Invariant.RunInv | 335740/tm.c:71-249 | every reachable state satisfies the protocol invariant: locks owned, versions bounded, memory and finished reads explained by the history of commits |
| Tl2Theorems.ReadGuarantee | 335740/tm.c:268-290 | a finished read returns the value of a version not above rv, and that of rv itself if and only if it is not stale |
| Tl2Runs.FreeCopyIsCurrent | 335740/tm.c:268-291 | a word copied while its lock is free has the value of version rv when its read succeeds, whatever others do before and between the two validating loads |
| Tl2Theorems.Opacity | 335740/tm.c:259-299 | at every reachable state, what any transaction (live, committed or aborted) did so far is an execution on the snapshot of rv, if and only if none of its reads is stale |
| Tl2Runs.OpacityIsStable | 335740/tm.c:259-299 | later steps of anybody change neither the snapshot a finished read is measured against nor whether it is stale |
| Tl2Runs.OpacityGuarded | 335740/tm.c:268-291 | when no one steps in between a copy under a held lock and the load of the lock bit, every transaction only ever sees the snapshot of rv |
| Tl2Runs.StaleBySchedule | 335740/tm.c:268-291 | a finished read is stale if and only if some step of the run copied the word for it under the lock of a writer with a version the reader may see, before that writer stored another value there, which in the end it did or is bound to do |
| Tl2Runs.OpacityBySchedule | 335740/tm.c:259-299 | what any transaction saw is its snapshot if and only if the schedule made no such copy for it |
| StaleRead.TornRead | 335740/tm.c:268-287 | a reachable state in which both transactions committed and the reader replays neither before nor after the writer |
| Serializability.SerialOrderExists | 335740/tm.c:201-249 | the transactions that took effect can be ordered by version, read-only ones after the writer of the version they read |
| Serializability.Serializable | reference/tm.c:155-163 | in every run, the transactions that took effect, replayed in version order on the coarse-lock memory, from the memory the run began with, read exactly the values they read in the run, if and only if none of them took a stale value |
| Tl2Runs.SerializableBySchedule | 335740/tm.c:201-299 | the same condition on the schedule: no copy of theirs overlapped the store of another value by a writer they may see |
| Serializability.SerialMemory | reference/tm.c:155-163 | that replay leaves, at every word whose lock is free, the value the run left in shared memory |
| Serializability.RealTime | 335740/tm.c:201-213 | a transaction that committed before another began precedes it in the serial order |
| Tl2Runs.SerializableGuarded | 335740/tm.c:201-299 | with guarded copies the replay reproduces every value read, in every run |
| ReadOrder.SeesCommitted | 335740/tm.c:268-291 | in every run, a read, stale or not, is of no older a version of the word than any commit of it that was over when the reading transaction began |
| ReadOrder.ReadsInOrder | 335740/tm.c:268-291 | in every run, a read finished before another transaction began is of no newer a version than what that one reads of the same word, stale or not |
| Outcomes.WriteTakesEffect | 335740/tm.c:319-330 | in every run, a write is added to what its transaction did and is the buffered value of the word from then on, written before or not; nothing else changes |
| Outcomes.AllocTakesEffect | 335740/tm.c:347-374 | in every run, an allocation is added to what its transaction did, and its addresses are taken |
| Outcomes.ReadIsValidated | 335740/tm.c:267-291 | in every run, a finished read, from the own buffer or not, was a copy, then a load of the lock bit that found it clear, then a load of a version not above rv; its value is that of the buffer or of memory at the copy |
| Outcomes.FailsIffRefused | 335740/tm.c:220-241 | in every run, a transaction is aborted or giving its locks back if and only if one of its accesses was refused: a read or a validation that found the lock held or the version above rv, or the last of four polls, or the exchange after it, that found a wanted lock held |
| Outcomes.CommitsIffNeverRefused | 335740/tm.c:220-249 | so a transaction that is over committed if and only if no access of its reads, locking or validation was refused |
| Outcomes.LockAccess | 335740/versioned-spinlock.c:8-21 | an exchange of a clear bit takes the lock, a poll of a clear bit is followed by an exchange, a set bit by another poll until the fourth |
| Outcomes.GivesUp | 335740/versioned-spinlock.c:16-20 | a transaction gives up a lock only after four polls of it, with the bit found set by its last access |
| Outcomes.ReadFails | 335740/tm.c:287-291 | a read aborts only for a set bit or a version above rv at its own loads |
| Outcomes.ValidationFails | 335740/versioned-spinlock.c:31-40 | validation fails only for a read node whose lock was held, or whose version was above rv, when it loaded it |
| Outcomes.CommitsWhenFresh | 335740/tm.c:232-244 | a transaction that took its locks commits if the words it read were free and not newer than rv at each of its accesses until the end |
| Tl2Theorems.CommitPathsSound | 335740/tm.c:232-241 | whether validated or by the shortcut, a commit has no writer strictly between rv and wv for anything it read, so the snapshots of wv - 1 and rv agree there |
| Tl2Theorems.ReadModifyWriteShortcut | 335740/tm.c:234-241 | a transaction whose read and write sets share a lock commits only with wv == rv + 1 |
| Tl2Theorems.CommitsDistinctStripes | 335740/tm.c:83-93 | a committed write set has pairwise distinct locks, hence at most 4999 words |
| Tl2Theorems.FreeWordIsCurrent | 335740/tm.c:117-124 | in every reachable state, mid-commit included, a word whose lock is free holds the overlay of all committed write sets |
| Tl2Theorems.LockedWord | 335740/tm.c:117-124 | under a held lock a word holds the last committed value, or, if the owner is committed to storing it, the value of the version just before the owner's |
| Tl2Theorems.Quiescent | 335740/tm.c:71-93 | with no transaction inside tm_end every lock is free and memory is the last snapshot |
| Tl2Theorems.LockOwner | 335740/tm.c:83-93 | a held lock belongs to exactly one transaction, which is inside tm_end |
| Tl2Theorems.ReleasesOwnLock | 335740/tm.c:71-76 | every step that executes a release, on commit or abort, finds the lock held by its own transaction and clears exactly that one |
| Tl2Theorems.StepLocks | 335740/tm.c:71-93 | a lock is taken away only by such a release, taken only when free, and never passed on; so each acquisition is released once |
| Tl2Runs.AbortedIsSilent | 335740/tm.c:226-240 | no step of a transaction that aborts ever changed a word or a version |
| Tl2Runs.DecidedForever | 335740/tm.c:243-248 | a transaction that passed validation never aborts |
| Tl2Theorems.VersionsMonotone | 335740/tm.c:117-124 | no step lowers a version or the clock, and no version exceeds the clock |
| Tl2Theorems.VersionAhead | 335740/tm.c:226-243 | once it drew wv, a transaction finds a smaller version on every lock it holds until it updates that lock itself |
| Tl2Progress.CommitStep | 335740/tm.c:220-249 | inside tm_end the next step is always possible and brings the end nearer, whatever the shared words hold |
| Tl2Progress.CommitBounded | 335740/versioned-spinlock.c:8-21 | against any schedule, the own steps made inside tm_end are paid for by a strictly decreasing measure |
| Tl2Progress.CommitIsShort | 335740/tm.c:220-249 | from the start of tm_end, a transaction with W write nodes and R read nodes makes at most 12 W + 2 R + 3 own steps, in every run |
| Tl2Progress.SoloRun | 335740/tm.c:220-249 | a transaction that runs alone commits if and only if its write set has pairwise distinct locks |
| LinkedSets.WriteSet.Find | 335740/write-set.c:57-65 | the node of the address with its buffered value, or null exactly when the address is not in the list |
| LinkedSets.WriteSet.Add | 335740/write-set.c:8-51 | appends the address and binds it, keeping the list linked from first to last |
| LinkedSets.WriteSet.Overwrite | 335740/write-set.c:53-55 | rebinds the address of the node and changes nothing else |
| LinkedSets.WriteSet.Put | 335740/tm.c:319-330 | the last value written to an address wins; its place in the list is that of the first write |
| LinkedSets.ReadSet.Add | 335740/read-set.c:8-35 | appends the address to the log, keeping the list linked from first to last |
| SharedRegion.SharedLock.constructor | 335740/shared-lock.c:3-9 | clock zero, all locks free, all versions zero |
| SharedRegion.Region.TestBit | 335740/versioned-spinlock.c:32-34 | returns whether the bit is set after any steps of others, changes nothing shared, and moves the transaction as the protocol says |
| SharedRegion.Region.LoadVersion | 335740/versioned-spinlock.c:36-38 | returns the version after any steps of others, changes nothing shared, and decides a read or a read node |
| SharedRegion.Region.Exchange | 335740/versioned-spinlock.c:13 | reports whether the bit was set after any steps of others; the lock is taken exactly when it was clear, and nothing else shared changes |
| SharedRegion.Region.ClearBit | 335740/versioned-spinlock.c:23-25 | after any steps of others, clears this bit and changes nothing else shared, and moves the transaction to its next node |
| SharedRegion.Region.StoreVersion | 335740/versioned-spinlock.c:27-29 | after any steps of others, sets this version and changes nothing else shared |
| SharedRegion.Region.IncrementClock | 335740/shared-lock.c:15-17 | returns one more than the clock showed after any steps of others, and with it draws the next version and the choice between validation and shortcut |
| SharedRegion.Region.StoreWord | 335740/tm.c:119 | after any steps of others, stores the buffered word and changes nothing else shared |
| SharedRegion.Region.LoadWord | 335740/tm.c:268-281 | returns the word that memory holds after any steps of others, and logs it in a read-write transaction |
| SharedRegion.Region.LoadClock | 335740/shared-lock.c:11-13 | the new transaction's version is the clock after any steps of others |
| TransactionalMemory.Acquire | 335740/versioned-spinlock.c:8-21 | takes the lock or gives up, with at most five exchanges and four rounds of waiting against any adversary; gives up if and only if, after four polls, its last access found the bit set |
| TransactionalMemory.Validate | 335740/versioned-spinlock.c:31-40 | lock bit before version; false if and only if the bit was set at the first load, or the version above rv at the second; true when alone |
| TransactionalMemory.UnlockWriteSet | 335740/tm.c:71-76 | gives back the locks of the nodes before the given one, in list order; the transaction is then aborted |
| TransactionalMemory.LockWriteSet | 335740/tm.c:83-93 | takes all locks in list order and reports true, or gives back those it took and aborts, which it does only for a lock found set after four polls |
| TransactionalMemory.ValidateReadSet | 335740/tm.c:101-109 | validates the nodes in list order up to the first failure; false if and only if one of its loads found a lock held or a version above rv |
| TransactionalMemory.StoreWriteSet | 335740/tm.c:117-124 | stores, versions and releases word by word; run alone, it overrides memory by the write buffer and changes nothing else |
| TransactionalMemory.TmBegin | 335740/tm.c:201-213 | after any steps of others, one step begins a transaction with empty lists and the version the clock then shows |
| TransactionalMemory.ReadWord | 335740/tm.c:267-291 | one word, from the own buffer exactly if it was written, logged otherwise, then validated in both cases; fails if and only if its bit was set or its version above rv when loaded |
| TransactionalMemory.TmRead | 335740/tm.c:259-299 | reads consecutive words up to the first invalid one, whose transaction aborts; fails if and only if one of its loads found a set bit or a version above rv; never fails when alone |
| TransactionalMemory.TmWrite | 335740/tm.c:309-338 | adds the writes of the words to consecutive addresses, in order, to what the transaction did; for a positive alignment the write list then holds these values there, written before or not, and what it held elsewhere; shared memory is not touched |
| TransactionalMemory.CheckReads | 335740/tm.c:234-241 | validates unless the shortcut applies, and unlocks everything on failure, which has its cause in one of the loads |
| TransactionalMemory.TmEnd | 335740/tm.c:220-249 | true exactly when committed, and exactly when none of its accesses was refused; read-only transactions always commit; alone, a commit succeeds if and only if no two written words share a lock |
| TransactionalMemory.ListsMean | 335740/write-set.c:8-65 | after any calls, the write list denotes the last value written to each address, own reads returned it, and every other read of a read-write transaction is in its read list |
| TransactionalMemory.CodeIsSerializable | 335740/tm.c:201-338 | in version order, the transactions of threads running this code replay if and only if none took a stale value, and the replay leaves what memory holds wherever the lock bit is clear |
| BankPreserved.ShortKeeps | grading/workload.hpp:232-274 | a transfer keeps the bank invariant and the accounts, self-transfer included |
| BankPreserved.CloseKeeps | grading/workload.hpp:197-202 | closing an account of the last segment keeps the invariant, with one account fewer |
| BankPreserved.DropKeeps | grading/workload.hpp:203-209 | dropping the last segment moves its parity to the one before and keeps the invariant |
| BankPreserved.OpenKeeps | grading/workload.hpp:211-213 | opening an account in the last segment keeps the invariant, with one account more |
| BankPreserved.GrowKeeps | grading/workload.hpp:214-218 | linking a new segment with one account keeps the invariant |
| BankOutcome.LongVerdict | grading/workload.hpp:161-181 | on any memory with a chain of segments, long_tx returns true if and only if no balance is negative and the money is what the accounts were opened with; it writes nothing |
| BankOutcome.LongOutcome | grading/workload.hpp:161-181 | on a memory that holds the bank, long_tx finds no negative balance and the right total, and writes nothing |
| BankOutcome.ShortOutcome | grading/workload.hpp:232-274 | short_tx succeeds if and only if both indices exist, moves one unit between the accounts with these indices in chain order if there is one, and keeps the bank |
| BankOutcome.AllocOutcome | grading/workload.hpp:186-226 | alloc_tx closes the last account if and only if there are more than the trigger and more than two, opens one otherwise, and keeps the bank |
| BankOutcome.OpenedBank | grading/workload.hpp:280-286 | what init writes establishes the bank invariant |
| BankOutcome.CheckOutcome | grading/workload.hpp:287-292 | the check after init tells whether the first account holds the initial balance, and so succeeds on what init wrote |
| BankWorkload.LongTx | grading/workload.hpp:161-181 | the loops follow the program of long_tx; the result is true, the count is the number of accounts, memory is unchanged |
| BankWorkload.FindAccounts | grading/workload.hpp:238-262 | the search loop follows the program of short_tx to the transfer, or to failure |
| BankWorkload.ShortTx | grading/workload.hpp:232-274 | true if and only if both indices exist; memory afterwards is the transfer between these accounts, and holds the bank |
| BankWorkload.AllocTx | grading/workload.hpp:186-226 | memory afterwards holds the bank with one account more or fewer, as the trigger says |
| BankWorkload.Init | grading/workload.hpp:280-286 | memory afterwards holds the bank, every account with the initial balance |
| BankTheorem.LongTxSucceeds | grading/workload.hpp:161-181 | in every interleaved run of the workload after a committed init, a long_tx that took no stale value returns true, when no transaction before it in the serial order that changed memory took one |
| BankTheorem.CheckSucceeds | grading/workload.hpp:287-294 | in every run, a check of init that began after an init committed returns true, whatever copy it took |
| BankTheorem.BankAtRest | grading/workload.hpp:161-275 | with no transaction inside tm_end, and none that changed memory stale, shared memory itself holds the bank |
| TornBank.LongTxFails | grading/workload.hpp:161-181 | a run of the code in which, after a committed init, a transfer and a long_tx commit and the long_tx returns false |
| Tl2Runs.GuardedNotStale | 335740/tm.c:268-291 | with guarded copies nothing is ever stale |
| BankTheorem.LongTxGuarded | grading/workload.hpp:161-181 | with guarded copies every long_tx after a committed init returns true |
| BankTheorem.BankGuarded | grading/workload.hpp:161-275 | with guarded copies shared memory holds the bank whenever no transaction is inside tm_end |
| Barrier.Synchronizes | grading/common.hpp:317-332 | no thread returns from its k-th sync before all entered theirs, and threads are never more than one call apart |
| Barrier.NeverStuck | grading/common.hpp:317-332 | in every reachable state some thread can do more than spin |
| Barrier.EveryoneReturns | grading/common.hpp:317-332 | after m accesses that were not spinning, every one of n threads has returned from at least m / 4n - 7 / 4 calls |
| CounterCheck.Check | grading/workload.hpp:328-388 | for any results of its transactions, each path of check makes three sync calls, each transaction comes after as many of them as its phase says, and the first violation is reported |
| CounterCheck.PhasesInOrder | grading/workload.hpp:331-378 | the barrier keeps the phases apart, the transactions before the check included: whatever takes effect in a phase was over when a transaction of a later one began, and precedes it in the serial order |
| CounterCheck.FirstCheckSucceeds | grading/workload.hpp:334-349 | in every run, the check that the counter was set succeeds |
| CounterCheck.DecrementSucceeds | grading/workload.hpp:357-374 | in every run, no worker finds the counter above what it fetched before, whether its reads were stale or not |
| CounterCheck.DecrementEffect | grading/workload.hpp:366-370 | a committed decrement lowers the counter by one, or not at all if its read was stale |
| CounterCheck.CounterAt | grading/workload.hpp:357-374 | at every version since the counter was set, it is what it was set to less the decrements up to there that took no stale value |
| CounterCheck.NeverBelowOne | grading/workload.hpp:366-370 | with no more decrements than the counter was set to, none finds it below one, so the unsigned counter does not wrap around |
| CounterCheck.LastCheckReads | grading/workload.hpp:378-383 | the last check reads what the counter was set to, less the decrements, plus those that copied the counter while another commit had yet to store it |
| CounterCheck.LastCheckSucceeds | grading/workload.hpp:378-386 | when every worker's share of decrements is made, the last check finds zero if and only if no decrement copied the counter while another commit had yet to store it |
| CounterCheck.CounterEndsAt | grading/workload.hpp:328-388 | then the counter in shared memory, whenever its lock is free, is the number of such decrements |
| CounterCheck.CheckPasses | grading/workload.hpp:328-388 | then all checks of all workers succeed if and only if there is no such decrement |
| TornCounter.LastCheckFails | grading/workload.hpp:357-386 | a run of the code by two workers, one transaction at a time each, in which both decrement, the counter ends at one and the last check fails |
| Sync.OneTaskPerRound | grading/grading.cpp:102-124 | every worker runs exactly one task in every round that is over, and at most one in the current one |
| Sync.WaitTellsErrors | grading/grading.cpp:85-98 | master_wait returned a failure if and only if a task of the round returned an error, and then the error of one of them |
| Sync.NeverStray | grading/grading.cpp:90-97 | master_wait never takes its last branch |
| Sync.NeverStuck | grading/grading.cpp:72-138 | while the master waits, somebody can do more than spin |
| Sync.RoundsAreBounded | grading/grading.cpp:72-138 | up to round r, n workers make at most n (16 r + 1) accesses that are not spinning, so rounds do not go on for ever |
| Sync.QuitIsSeen | grading/grading.cpp:102-110 | once the master joined, a worker that is still there can do more than spin, and its next access makes it leave |
| Sync.AllLeave | grading/grading.cpp:77-82 | after the master joined and one access of each worker, all workers are gone and none has run another task |

## Left out

- C11 weak memory (the relaxed clock increment, the plain `version` field) and overflow of the `int` clock: memory is sequentially consistent and integers are unbounded.
- Failure of `malloc` and `posix_memalign`, freeing of nodes and transactions, and the bytes inside a word.
- `tm_create`, `tm_destroy`, the accessors, `transaction.c` and `tm_free` (which does nothing): they add nothing to the protocol.
- `tm_alloc` is a step of the transition system, which returns addresses apart from all it returned before and changes no memory; that they hold zero follows where memory starts out zeroed and nobody writes outside what it was given, as in the bank. Its list of segments and the mutex around it are not modelled, and `TransactionalMemory` has no method for it.
- The reader-writer lock and the segment list of `reference/tm.c`: the file serves as the sequential specification, one transaction at a time.
- `grading/transactional.hpp`: loading of libraries, exceptions, typed wrappers. A retried transaction is a new transaction.
- CounterCheck.Check: takes how its transactions turn out as given; its phases are what `CounterCheck.InPhase` asks of runs of the barrier and the library together, and the lemmas on those runs say how the transactions turn out.
- `Barrier` and `Sync` spin without bound, so they are modelled as transition systems over their atomic accesses and not as methods: a method would have to terminate.
- A worker of `Sync` that leaves its loop after an exception, timeouts of `master_wait`, and the measured times.
- Random choices, console output, `_mm_pause` and other hints, performance.
- Progress beyond the stated bounds: under contention, or with two written words on one lock, a transaction may be retried for ever.
- TransactionalMemory.TmEnd: says nothing of when a transaction commits while others run; that depends on them, and the theorems on runs say what a commit then means.
- CounterCheck.LastCheckSucceeds: takes as given which job each transaction does, and that a decrement begins after its look committed and the first check after the counter was set (`Course`).
- BankTheorem.LongTxSucceeds: is not an equivalence, since stale values may cancel out in the sum; and takes as given which operations each committed transaction made (`Runs`); `BankWorkload` proves that the bodies make these operations when run on the coarse-lock memory.
