# Verified models of LASAGNE's synchronization primitives, stream buffers, calendar and bit sets

LASAGNE builds its own concurrency primitives (`daf/`), an asynchronous serial-line stream over a ring buffer
(`TTY_Asynch/`), a calendar and a packed bit set. This project models them in Dafny and proves what they promise.

**How the concurrent parts are modelled.** Each primitive is a state machine whose steps are the sections of the source
between acquiring and releasing a lock (or waiting). Every call is an entry with its own program counter; timeouts,
wake-ups, exceptions of user commands and interrupts are events that may strike wherever the source allows them, so a run
is any interleaving of any number of calls. Histories (what was delivered, accepted, sent, which call arrived when) are
part of the state. Beside each machine stands a class with the fields of the source; its methods are the sections, written
as the source writes them, and each one is proved to make a step of the machine (a section that only waits again makes
none). The theorems are about all runs. The sequential parts (calendar, bit set, ring buffer) are classes over arrays and loops proved against functions on
sequences.

| file | what it models |
|---|---|
| `HandOff.dfy`, `HandOffInvariant.dfy`, `HandOffTheorems.dfy`, `SynchronousChannel.dfy` | `SynchronousChannel`: the hand-off protocol, its invariant, its promises, and the objects of the source |
| `Semaphore.dfy` | the waiter-preference `Semaphore` and the waiter count of `SYNCHCondition` |
| `Barrier.dfy` | `Barrier`: generations, entry gate, command, breakage |
| `Rendezvous.dfy` | `Rendezvous`: a barrier with an exchange of items, and the rotator |
| `SemaphoreControlledChannel.dfy` | the bounded buffer, in its FIFO and its priority variant |
| `Rings.dfy`, `WriteStream.dfy`, `ReadStream.dfy`, `TTYStream.dfy` | the ring buffer, the two directions of a stream with one asynchronous transfer in flight, and the objects of the source |
| `Calendar.dfy`, `DateTime.dfy` | Algorithm 199 of the Communications of the ACM (volume 6, number 8, August 1963, p. 444), date arithmetic, comparison |
| `Bits.dfy`, `Bitset.dfy` | bits packed into bytes, and `Bitset` |
| `Counting.dfy`, `Lexicographic.dfy`, `Options.dfy` | counting calls in a state, comparison at the first difference, optional values |

**Where the code does not do what it, or its documentation, says.** The models follow the code; each point is a theorem.

- `Channel_T.h` says that an operation that fails leaves the element neither put nor taken. An interrupt breaks this both
  ways. It loses an item: a `put` returns 0, and the interrupted `take` gives up the node that holds the item
  (`InterruptLosesAnItem`; `LostOnlyByInterrupt` says that this is the only way). And it makes a `put` fail although its
  item was taken: a `take` empties the node before the waiting `put` locks it, and the `put` looks for an interrupt before
  it looks at the node (`InterruptedPutWasTaken`; `FailsThoughTakenOnlyByInterrupt` says that this is the only way). A
  caller that repeats such a `put` delivers the item twice.
- `Semaphore.h` says that a newly entering thread never obtains a permit while others are waiting. In a reachable state
  it does if and only if somebody waits and there are more permits than waiters (`NewcomerPassesWaitersIff`); all those
  have then been notified and have a permit of their own (`NoOvertaking`).
- A broken `Barrier` need not become usable again. Whichever event leaves nobody inside re-arms it if and only if no
  thread of the generation arrived after another had left and the event is not an exception of the command or the wait
  (`LastToLeaveRearms`). A generation with a late arrival never ends (`LateGenerationNeverEnds`), and a command can still
  run if and only if there was none and the generation was not left by exceptions alone (`CanTripIff`). One timeout before
  the last arrival is enough (`LateArrivalStrands`), or a throwing command with one party (`ThrowStrandsOneParty`).
  `Barrier.h` says that index 0 belongs to the last thread to arrive; it belongs to the first (`Barrier.Barrier.Enter`).
- The all-or-none breakage that `Barrier.h` and `Rendezvous_T.h` promise fails for a generation if and only if a wait of it
  throws after its command has run (`Barrier.AllOrNoneFailsIff` and `Rendezvous.AllOrNoneFailsIff`, with the runs
  `CancelledWaitSplits`): the last to arrive has then returned normally, and a waiting thread ends with an exception. In
  `Rendezvous` it takes in addition a command that left a slot for every party; after any other command that has run,
  no call of the generation returns normally (`ShorteningBreaksEverybody`).
- In `Rendezvous` every exceptional exit drops a permit of the entry gate, and late arrivals strand a generation as in
  `Barrier`. In a reachable state a later command can run if and only if neither has happened, to any generation or to
  the current one (`Rendezvous.CanTripIff`, with the runs `ThrowDropsPermit` and `LateArrivalStrands`).
- `TTY_Stream::put` never returns when `tail_` is 0 and the request is longer than twice the free space
  (`PutEndsIff`): on a fresh stream, for a request longer than twice its size (`FreshPutSpins`), with the lock held. Its loops
  count each copy twice, so they may copy less than fits, but never nothing (`CopiedIsPrefix`). A buffer of fewer than two
  bytes never starts a transfer.
- `Bitset::operator ==` compares the common prefix only. For operands of given lengths it is transitive if and only if the
  middle one is not the shortest (`PrefixEqualityIsTransitiveIff`), and agrees with `compare_to` if and only if the lengths
  are the same (`EqualityIsOrderIff`). `a ^= a` leaves `a` alone, which is right only for an all-zero `a`
  (`SelfCombination`). `a += a` doubles a non-empty `a` and then throws (`Bitset.Append`). The check of a size against
  INT_MAX looks at its lower 32 bits only (`SizeCheckIsRightIff`).

## Model

| member | source | states |
|---|---|---|
| HandOffTheorems.AtMostOnce | daf/SynchronousChannel_T.cpp:116-192 | in every run, with or without interrupts, what a take returns was presented by a put, no other take returns it, and that put has not timed out |
| HandOffTheorems.FailedPutIsNotTaken | daf/SynchronousChannel_T.cpp:78-89 | the item of a put that returned -1 is returned by no take |
| HandOffTheorems.FailedPutIsTakenIff | daf/SynchronousChannel_T.cpp:75-111 | a put that failed, with -1 or an exception, was taken by some take if and only if it threw and its hand-off is in the history |
| HandOffTheorems.FailsThoughTakenOnlyByInterrupt | daf/SynchronousChannel_T.cpp:75-77 | a step makes a put fail although its item is taken if and only if it throws out, for an interrupt, a put waiting on a node that a take has emptied |
| HandOffTheorems.InterruptedPutWasTaken | daf/SynchronousChannel_T.cpp:75-77 | such a run exists: a put has thrown and a take has returned its item |
| HandOffTheorems.FailedTakeConsumesNothing | daf/SynchronousChannel_T.cpp:158-166 | a take that timed out or threw is the receiver of no hand-off |
| HandOffTheorems.ReturnedPutIsNotLost | daf/SynchronousChannel_T.cpp:93-104 | without an interrupt, the item of a put that returned 0 has been returned by a take or lies in the node of a take still waiting for it |
| HandOffTheorems.QuiescentBijection | daf/SynchronousChannel_T.cpp:42-192 | without an interrupt, when all calls have ended, successful puts and successful takes are in bijection and each pair holds the same item |
| HandOffTheorems.OneQueueIsEmpty | daf/SynchronousChannel_T.cpp:60-65 | in every run, at most one of the two queues holds any node |
| HandOffTheorems.UnresolvedIsQueuedOrHeld | daf/SynchronousChannel_T.cpp:60-65 | a node whose owner waits unresolved is in its queue, or held by exactly one call |
| HandOffTheorems.NoMissedMeeting | daf/SynchronousChannel_T.cpp:134-139 | when no call holds a node, a put and a take never both wait unresolved |
| HandOffTheorems.CancelledIsTerminal | daf/SynchronousChannel_T.cpp:230-259 | no step brings a cancelled node back |
| HandOffTheorems.InterruptEndsEveryCall | daf/SynchronousChannel_T.cpp:48-50 | in every reachable interrupted state each call that has not ended can end with an exception, at once or, if its node is cancelled, after it has seen that |
| HandOffTheorems.LostOnlyByInterrupt | daf/SynchronousChannel_T.cpp:151-153 | a step loses the item of a put if and only if it is an interrupted take giving up the node filled for it |
| HandOffTheorems.InterruptLosesAnItem | daf/SynchronousChannel_T.cpp:184-188 | such a run exists: a put has returned 0, both calls have ended, and its item was taken by nobody |
| HandOffInvariant.StepKeepsInv | daf/SynchronousChannel_T.cpp:42-192 | every step of every call keeps the invariant of nodes, queues, calls and history |
| HandOff.SkipCancelledIsOldest | daf/SynchronousChannel_T.cpp:263-274 | what the scan of deque leaves begins with the oldest node not found cancelled, all before it being cancelled |
| SynchronousChannel.SYNCHNode.SetState | daf/SynchronousChannel_T.cpp:230-241 | the new state, and that any state but FULL clears the item |
| SynchronousChannel.SYNCHNode.PutItem | daf/SynchronousChannel_T.cpp:243-250 | an empty node takes the item and becomes full; any other refuses and is unchanged |
| SynchronousChannel.SYNCHNode.GetItem | daf/SynchronousChannel_T.cpp:252-259 | a full node gives its item and becomes empty; any other refuses and is unchanged |
| SynchronousChannel.WaiterQueue.Deque | daf/SynchronousChannel_T.cpp:263-274 | the first node not cancelled is returned and everything up to it removed; null and an emptied list if there is none |
| SynchronousChannel.WaiterQueue.Enque | daf/SynchronousChannel_T.cpp:276-280 | the node is the new last one |
| SynchronousChannel.SynchronousChannel.Enter | daf/SynchronousChannel_T.cpp:60-65 | the section under the channel lock is the machine's step: the call gets the oldest node of the other side that is not cancelled, everything up to it leaving the list, or, exactly if there is none, queues a node of its own last, full with its item for a put and empty for a take |
| SynchronousChannel.SynchronousChannel.MeetPut | daf/SynchronousChannel_T.cpp:100-110 | a put at the node of a take makes the machine's step: it throws exactly when interrupted, the node being cancelled; otherwise it returns exactly if the node was empty, which is then full with its item, and else enters again |
| SynchronousChannel.SynchronousChannel.MeetTake | daf/SynchronousChannel_T.cpp:178-188 | likewise for a take at the node of a put: it returns, with the item the node held, exactly if not interrupted and the node was full |
| SynchronousChannel.SynchronousChannel.WaitPut | daf/SynchronousChannel_T.cpp:71-96 | each stretch of the waiting loop of put, and exactly when it ends how: -1 after an expired wait on a still full node, 0 on an emptied one, another entry on a cancelled one, an exception for an interrupt, and otherwise another wait; each is a step of the machine or none |
| SynchronousChannel.SynchronousChannel.WaitTake | daf/SynchronousChannel_T.cpp:147-174 | likewise for take, which returns what its node held, with the second look at the node after an expired wait |
| SynchronousChannel.SynchronousChannel.Interrupt | daf/SYNCHCondition_T.h:149-176 | the interrupted flag is set for good |
| Semaphore.PermitsAreConserved | daf/Semaphore.cpp:55-103 | permits plus calls that acquired equal the seed plus releases in every run, and are never negative for a seed that is not |
| Semaphore.NoStrandedPermit | daf/Semaphore.cpp:62-80 | while a call waits unnotified, permits do not exceed the calls woken but not resumed |
| Semaphore.NoOvertaking | daf/Semaphore.cpp:62-64 | a call that gets a permit on entering leaves enough for every waiter, and no waiter is unnotified |
| Semaphore.EntryOutcome | daf/Semaphore.cpp:58-67 | in every reachable state an entering call gets a permit exactly if there are more permits than waiters, and otherwise waits, or throws exactly if interrupted; only a granted call takes a permit |
| Semaphore.WaitOutcome | daf/Semaphore.cpp:65-83 | after a wait a call throws exactly if interrupted, gets a permit exactly if there is one, and otherwise fails after a timeout and starts again after a notification |
| Semaphore.QueueOutcome | daf/Semaphore.cpp:58-66 | beginning, timing out, waking for no reason and being interrupted move nothing but the call or the flag |
| Semaphore.NewcomerMayPassNotified | daf/Semaphore.h:45-51 | a run in which a call entering gets a permit while another still waits |
| Semaphore.NewcomerPassesWaitersIff | daf/Semaphore.cpp:62-64 | in every reachable state, a call entering gets a permit while another waits if and only if somebody waits and permits exceed waiters |
| Semaphore.StepKeepsInv | daf/Semaphore.cpp:55-103 | every step keeps conservation and the bound on unclaimed permits |
| Semaphore.Semaphore.Lock | daf/Semaphore.cpp:58-66 | the first section of acquire is the machine's step: granted exactly if the permits found exceed the waiters found, with one permit less; one waiter more exactly if the call waits |
| Semaphore.Semaphore.Resume | daf/Semaphore.cpp:65-80 | the section after a wait is the machine's step: granted exactly if not interrupted and a permit was there |
| Semaphore.Semaphore.Signal | daf/SYNCHCondition_T.h:97-101 | one queued call is notified, whichever, or there was none |
| Semaphore.Semaphore.Release | daf/Semaphore.cpp:86-103 | exactly the given number of permits is added, none for a negative one, each with its own signal, as one step of the machine |
| Barrier.GateIsConserved | daf/Barrier.cpp:89-134 | gate permits, calls between the gate and the lock, and `count_` add up to the parties in every run |
| Barrier.GenerationsAreIsolated | daf/Barrier.cpp:118-126 | `resets_` is at least the number of threads inside, these belong to the current generation, and the step that ends a generation leaves none of it inside |
| Barrier.AllOrNone | daf/Barrier.cpp:137-192 | in every run and for every generation: its command ran exactly once, for the calls with indices 0 to parties - 1, which all return normally unless a wait of that generation threw afterwards, or none returns normally |
| Barrier.AllOrNoneFailsIff | daf/Barrier.cpp:110-115 | some calls of a generation return normally and others end otherwise if and only if a wait of it threw after its command had run |
| Barrier.CancelledWaitSplits | daf/Barrier.cpp:110-115 | such a run exists: the second of two calls returns normally, and the wait of the first throws |
| Barrier.TrippedCallReturnsNormally | daf/Barrier.cpp:118-134 | a call inside a tripped generation returns normally whenever it wakes up, expired or not, unless a wait of the generation has thrown since |
| Barrier.TrippedCallFailsIff | daf/Barrier.cpp:99-134 | a step ends a call inside a tripped generation otherwise if and only if its own wait throws, or it wakes up and another's has thrown |
| Barrier.LastToLeaveRearms | daf/Barrier.cpp:110-126 | any event after which nobody is inside re-arms the barrier, with every permit back, if and only if no call of the generation came late and the event is not an exception |
| Barrier.LateGenerationNeverEnds | daf/Barrier.cpp:97-126 | once a call came late, no step ends the generation or runs a command |
| Barrier.AbandonedGenerationNeverEnds | daf/Barrier.cpp:110-126 | nor once everybody left a broken or tripped generation without ending it |
| Barrier.CanTripIff | daf/Barrier.cpp:89-192 | in every reachable state, some later run executes a command if and only if neither is the case |
| Barrier.TrippedGenerationEnds | daf/Barrier.cpp:99-126 | a tripped generation has no late arrival and `resets_` counts exactly those inside, so it ends re-armed |
| Barrier.ThrowLeavesOthersInside | daf/Barrier.cpp:110-115 | a throwing command leaves all the other parties inside |
| Barrier.GateOutcome | daf/Barrier.cpp:137-141 | a permit lets a waiting call pass the gate, a refused call takes none, and nothing else moves |
| Barrier.ArrivalOutcome | daf/Barrier.cpp:137-192 | in every reachable state, exactly when an arriving call ends as broken, waits, breaks the generation by its timeout, or as the last one runs the command whatever its deadline and returns normally or throws |
| Barrier.WakeOutcome | daf/Barrier.cpp:152-192 | in every reachable state, exactly when a call that wakes up or times out ends as broken, returns normally, breaks an open generation, or waits again; it never runs the command |
| Barrier.WaitThrowsOutcome | daf/Barrier.cpp:165-170 | a wait that throws breaks the generation and takes one thread out of it |
| Barrier.OpenIsIncomplete | daf/Barrier.cpp:99-109 | between two sections a generation neither broken nor tripped lacks a party |
| Barrier.ThrowStrandsOneParty | daf/Barrier.cpp:110-115 | with one party, a run whose throwing command strands the barrier |
| Barrier.LateArrivalStrands | daf/Barrier.cpp:150-150 | with three parties, a run in which one timeout before the third arrival strands the barrier |
| Barrier.StrandedForever | daf/Barrier.cpp:118-126 | no step leads out of the stranded state |
| Barrier.StepKeepsInv | daf/Barrier.cpp:89-192 | every step keeps the invariant of counters, runs, calls and members |
| Barrier.Barrier.Enter | daf/Barrier.cpp:93-99 | the section from the lock to the wait or the end is the machine's step, and the index is the value of `count_` found |
| Barrier.Barrier.Resume | daf/Barrier.cpp:99-134 | the section after a wait is the machine's step |
| Barrier.Barrier.WaitThrew | daf/Barrier.cpp:110-115 | a wait that throws breaks the barrier and leaves without a reset |
| Barrier.Barrier.Await | daf/Barrier.cpp:152-171 | the loop does what the machine does: wait, time out and break, run the command, or throw |
| Barrier.Barrier.Depart | daf/Barrier.cpp:118-134 | the end of a call, with the reset when `resets_` comes down to 0 |
| Rendezvous.GateIsConserved | daf/Rendezvous_T.cpp:110-172 | gate permits, calls between gate and lock, `count_` and the permits dropped by exceptional exits add up to the parties |
| Rendezvous.GenerationsAreIsolated | daf/Rendezvous_T.cpp:158-163 | `resets_` covers every thread inside, all of the current generation, and a step that ends a generation leaves none of it inside |
| Rendezvous.LastToLeaveRearms | daf/Rendezvous_T.cpp:139-163 | any event after which nobody is inside re-arms the rendezvous if and only if no call of the generation came late and the event is not an exception; the permits back are the parties less those dropped |
| Rendezvous.LateGenerationNeverEnds | daf/Rendezvous_T.cpp:127-163 | once a call came late, no step ends the generation or runs a command |
| Rendezvous.DroppedPermitEndsAllExchange | daf/Rendezvous_T.cpp:139-145 | once a permit is dropped it stays dropped and no later command runs |
| Rendezvous.CanTripIff | daf/Rendezvous_T.cpp:110-244 | in every reachable state, some later run executes a command if and only if no permit has been dropped and no call of the current generation came late |
| Rendezvous.ThrowDropsPermit | daf/Rendezvous_T.cpp:139-145 | a run that drops a permit |
| Rendezvous.LateArrivalStrands | daf/Rendezvous_T.cpp:195-195 | a run with a late arrival and no permit dropped |
| Rendezvous.NormalReturnIsOwnSlot | daf/Rendezvous_T.cpp:148-171 | a call that returns normally returns the slot of its own arrival index, of what the command made of the items of its own generation |
| Rendezvous.GateOutcome | daf/Rendezvous_T.cpp:175-179 | a permit lets a waiting call pass the gate, a refused call takes none, and nothing else moves |
| Rendezvous.ArrivalOutcome | daf/Rendezvous_T.cpp:174-244 | in every reachable state, exactly when an arriving call ends as broken, waits, breaks the generation by its timeout, or as the last one runs the command whatever its deadline and returns normally or throws |
| Rendezvous.WakeOutcome | daf/Rendezvous_T.cpp:197-244 | in every reachable state, exactly when a call that wakes up or times out ends as broken, returns normally, breaks an open generation, or waits again; it never runs the command |
| Rendezvous.WaitThrowsOutcome | daf/Rendezvous_T.cpp:209-215 | a wait that throws breaks the generation and takes one thread out of it |
| Rendezvous.SlotsSuffice | daf/Rendezvous_T.cpp:148-149 | with a command that does not shorten the slots, no call ever finds its slot gone |
| Rendezvous.RotatorExchanges | daf/Rendezvous_T.cpp:28-36 | with the rotator, the call with index i gets the item presented by the call with index i + 1 modulo parties of its generation |
| Rendezvous.AllOrNone | daf/Rendezvous_T.cpp:129-171 | for every command and generation: it ran at most once, for the calls with indices 0 to parties - 1, and unless a wait of the generation threw afterwards a call that has ended returned normally if and only if the command ran and left a slot for every party |
| Rendezvous.AllOrNoneFailsIff | daf/Rendezvous_T.cpp:139-151 | some calls of a generation return normally and others end otherwise if and only if a wait of it threw after a command that left a slot for every party |
| Rendezvous.CancelledWaitSplits | daf/Rendezvous_T.cpp:139-145 | such a run exists for every command that leaves both of two slots |
| Rendezvous.ShorteningBreaksEverybody | daf/Rendezvous_T.cpp:148-151 | a run for every command that leaves fewer: it has run, the generation has ended, and nobody has returned normally |
| Rendezvous.StepKeepsEnds | daf/Rendezvous_T.cpp:129-163 | every step keeps that a tripped generation is broken exactly when the command left too few slots or a wait threw, and that its calls end accordingly |
| Rendezvous.CompleteExchangeConservesItems | daf/Rendezvous_T.cpp:28-36 | when all calls of a generation return normally, what they return is, as a multiset, what they presented |
| Rendezvous.StepKeepsInv | daf/Rendezvous_T.cpp:110-244 | every step keeps the invariant of counters, slots, runs, calls and members |
| Rendezvous.RotateAt | daf/Rendezvous_T.cpp:28-36 | place i of the rotated slots holds the item of place i + 1 modulo their number |
| Rendezvous.Rotator | daf/Rendezvous_T.cpp:28-36 | pushing the front to the back and erasing it is the rotation |
| Rendezvous.Rendezvous.Enter | daf/Rendezvous_T.cpp:119-129 | the section from the lock to the wait or the end is the machine's step |
| Rendezvous.Rendezvous.Resume | daf/Rendezvous_T.cpp:129-171 | the section after a wait is the machine's step |
| Rendezvous.Rendezvous.WaitThrew | daf/Rendezvous_T.cpp:139-145 | a wait that throws breaks the rendezvous and takes the thread out of `count_` and `resets_` |
| Rendezvous.Rendezvous.Await | daf/Rendezvous_T.cpp:197-216 | the loop does what the machine does |
| Rendezvous.Rendezvous.Depart | daf/Rendezvous_T.cpp:218-243 | the look at the slot, the result, and the reset when `resets_` comes down to 0 |
| SemaphoreControlledChannel.BoundedBuffer | daf/SemaphoreControlledChannel_T.cpp:53-108 | put permits, puts about to insert, the container, and takes past extraction add up to the capacity, and no extraction meets an empty container |
| SemaphoreControlledChannel.ReportedSizes | daf/SemaphoreControlledChannel_T.cpp:40-51 | size() and capacity() are the length of the container and the capacity exactly when no call stands between its two semaphores |
| SemaphoreControlledChannel.EveryItemOnce | daf/SemaphoreControlledChannel_T.cpp:60-99 | every item inserted is in the container or has been taken, once |
| SemaphoreControlledChannel.TransfersPairOff | daf/SemaphoreControlledChannel_T.cpp:53-108 | in every run each extraction hands the item that one put presented to one take, and no put and no take has part in two |
| SemaphoreControlledChannel.NothingLostOrInvented | daf/SemaphoreControlledChannel_T.cpp:53-108 | a take has an item if and only if it was handed one; a put has put its item in if and only if it is in the container or was handed over |
| SemaphoreControlledChannel.QueueServesInOrder | daf/SemaphoreControlledQueue_T.cpp:34-49 | the n-th take to extract gets what the n-th put to insert presented |
| SemaphoreControlledChannel.ExtractionOutcome | daf/SemaphoreControlledQueue_T.cpp:42-49 | an extraction removes one item and gives it to its take: the front one, or one than which none present is greater |
| SemaphoreControlledChannel.PresentedItemStays | daf/SemaphoreControlledChannel_T.cpp:54-55 | a put presents the item it was called with from beginning to end |
| SemaphoreControlledChannel.StepKeepsAttribution | daf/SemaphoreControlledChannel_T.cpp:53-108 | every step keeps that insertions and extractions are those of the calls that have moved their item, each once |
| SemaphoreControlledChannel.QueueIsFIFO | daf/SemaphoreControlledQueue_T.cpp:34-49 | what was taken followed by what is queued is what was inserted, in order |
| SemaphoreControlledChannel.PriorityOrder | daf/SemaphoreControlledPriorityChannel_T.cpp:42-49 | no item that was in the channel when another was taken is greater than that one |
| SemaphoreControlledChannel.SemaphoreControlledChannel.Size | daf/SemaphoreControlledChannel_T.cpp:47-51 | never more than the length of the container, and that length exactly when no put is about to release and no take about to extract |
| SemaphoreControlledChannel.SemaphoreControlledChannel.Capacity | daf/SemaphoreControlledChannel_T.cpp:40-45 | never more than the capacity, and the capacity exactly when no call stands between its two semaphores |
| SemaphoreControlledChannel.SemaphoreControlledChannel.Acquire | daf/SemaphoreControlledChannel_T.cpp:60-89 | a permit is taken exactly when there is one; otherwise the call fails and nothing changes |
| SemaphoreControlledChannel.SemaphoreControlledChannel.Insert | daf/SemaphoreControlledQueue_T.cpp:34-40 | the container is what it was with the item given behind it, no permit moves, and this is the machine's step |
| SemaphoreControlledChannel.SemaphoreControlledChannel.ExtractFront | daf/SemaphoreControlledQueue_T.cpp:42-49 | the oldest item leaves and is the result |
| SemaphoreControlledChannel.SemaphoreControlledChannel.ExtractTop | daf/SemaphoreControlledPriorityChannel_T.cpp:42-49 | one item leaves, is the result, and none left is greater |
| SemaphoreControlledChannel.SemaphoreControlledChannel.Release | daf/SemaphoreControlledChannel_T.cpp:62-99 | a put gives a take permit, a take a put permit |
| Rings.PutBumpAppends | TTY_Asynch/TTY_Stream.cpp:80-92 | moving head makes the cells behind the content part of it |
| Rings.GetBumpDrops | TTY_Asynch/TTY_Stream.cpp:94-106 | moving tail drops that many bytes from the front |
| Rings.StoredAppends | TTY_Asynch/TTY_Stream.cpp:125-153 | put followed by put_bump appends the bytes, across the end of the buffer too |
| Rings.CopiedIsPrefix | TTY_Asynch/TTY_Stream.cpp:133-149 | what either loop copies fits both request and room, is at least half of the request unless room runs out, is not empty if neither is, exactly when it is all that fits, and how much it is where it is less |
| Rings.PutEndsIff | TTY_Asynch/TTY_Stream.cpp:133-149 | the loop of put ends if and only if tail is not 0 or the request is at most twice the free space |
| Rings.FreshPutSpins | TTY_Asynch/TTY_Stream.cpp:133-149 | on an empty ring at the front it ends if and only if the request is at most twice the size |
| WriteStream.BytesAreConserved | TTY_Asynch/TTY_Stream.cpp:195-237 | over every run of writes, signals, partial completions and closes, bytes sent and then the content are the bytes accepted; at most one transfer is in flight and it is a prefix of the content |
| WriteStream.TransferIsUntouched | TTY_Asynch/TTY_Stream.cpp:214-231 | until it completes, neither the extent of a transfer nor the bytes in its region change |
| WriteStream.SentOnceAndForAll | TTY_Asynch/TTY_Handler.cpp:119-130 | what was sent and what was accepted only grow at their ends over a run |
| WriteStream.DeviceIsKeptBusy | TTY_Asynch/TTY_Handler.cpp:119-130 | with a buffer of two bytes or more and a willing device, no step leaves bytes waiting without a transfer |
| WriteStream.SignalOutcome | TTY_Asynch/TTY_Stream.cpp:205-237 | a transfer starts exactly when the device accepts one, none is in flight and there are bytes; it is the longest prefix of the content up to the end of the buffer and half its size |
| WriteStream.CompletionOutcome | TTY_Asynch/TTY_Stream.cpp:195-203 | a completion sends as many first bytes of the transfer as the device took and makes that much room |
| WriteStream.WriteOutcome | TTY_Asynch/TTY_WriteStream.cpp:87-89 | a write is taken exactly where there is room and put ends; it appends a non-empty prefix of the request |
| WriteStream.TinyBufferNeverSends | TTY_Asynch/TTY_Stream.cpp:219-229 | with a smaller buffer, signal_writer never starts one |
| WriteStream.StepKeepsInv | TTY_Asynch/TTY_WriteStream.cpp:64-101 | every step keeps conservation, the single permit, and the transfer as the live prefix |
| ReadStream.BytesAreConserved | TTY_Asynch/TTY_Stream.cpp:185-271 | over every run, bytes returned and then the content are the bytes received; at most one transfer is in flight and its region fits the free space |
| ReadStream.TransferIsApart | TTY_Asynch/TTY_Stream.cpp:239-271 | while a transfer is in flight its region stays put and no write of the device or reset reaches the content |
| ReadStream.ReturnedOnceAndForAll | TTY_Asynch/TTY_Handler.cpp:93-104 | what was received and what was returned only grow at their ends over a run |
| ReadStream.DeviceIsKeptBusy | TTY_Asynch/TTY_Handler.cpp:93-104 | with a buffer of two bytes or more and a willing device, no signal, read or completion leaves free cells without a transfer |
| ReadStream.SignalOutcome | TTY_Asynch/TTY_Stream.cpp:239-271 | a transfer starts exactly when the device accepts one, none is in flight and there are free cells; into the longest run of them up to the end of the buffer and half its size, and an empty ring without a transfer starts over |
| ReadStream.CompletionOutcome | TTY_Asynch/TTY_Stream.cpp:185-193 | a completion appends the bytes the device has put into its region |
| ReadStream.ReadOutcome | TTY_Asynch/TTY_ReadStream.cpp:82-84 | a read is taken exactly where there are bytes, and takes a non-empty prefix of them |
| ReadStream.TinyBufferNeverReceives | TTY_Asynch/TTY_Stream.cpp:253-265 | with a smaller buffer, signal_reader never starts one |
| ReadStream.StepKeepsInv | TTY_Asynch/TTY_ReadStream.cpp:58-96 | every step keeps conservation, the single permit, and the region as free cells behind the content |
| TTYStream.Stream.IsFull | TTY_Asynch/TTY_Stream.cpp:50-54 | true exactly when no cell is free |
| TTYStream.Stream.IsEmpty | TTY_Asynch/TTY_Stream.cpp:56-60 | true exactly when there is no byte |
| TTYStream.Stream.Length | TTY_Asynch/TTY_Stream.cpp:68-72 | the number of bytes in the ring |
| TTYStream.Stream.PutBump | TTY_Asynch/TTY_Stream.cpp:80-92 | head moves by the request or the free space, whichever is less |
| TTYStream.Stream.GetBump | TTY_Asynch/TTY_Stream.cpp:94-106 | tail moves by the request or the content, whichever is less |
| TTYStream.Stream.Find | TTY_Asynch/TTY_Stream.cpp:108-123 | the first position from the offset on that holds the character, or -1 if there is none |
| TTYStream.Stream.Put | TTY_Asynch/TTY_Stream.cpp:125-153 | for every request: the exact number of bytes copied, that they are the first of the request, that only the free cells behind the content change, and exactly when the loop then spins forever |
| TTYStream.Stream.Get | TTY_Asynch/TTY_Stream.cpp:155-183 | the exact number of bytes copied, that they are the first of the content, and that no other cell of the target changes |
| TTYStream.Stream.SendNotify | TTY_Asynch/TTY_Stream.cpp:195-203 | the bytes sent leave the ring and the permit comes back |
| TTYStream.Stream.RecvNotify | TTY_Asynch/TTY_Stream.cpp:185-193 | the bytes received enter the ring and the permit comes back |
| TTYStream.Stream.SignalWriter | TTY_Asynch/TTY_Stream.cpp:205-237 | the machine's step; the reset of head and tail is never reached |
| TTYStream.Stream.SignalReader | TTY_Asynch/TTY_Stream.cpp:239-271 | the machine's step, with the reset of an empty ring |
| TTYStream.Stream.HandleWrite | TTY_Asynch/TTY_Handler.cpp:119-130 | a completion is one step of the machine: bytes sent, permit back, next transfer |
| TTYStream.Stream.HandleRead | TTY_Asynch/TTY_Handler.cpp:93-104 | likewise for received bytes |
| TTYStream.Stream.WriteSection | TTY_Asynch/TTY_WriteStream.cpp:87-89 | one step of the machine that accepts a non-empty prefix of the request |
| TTYStream.Stream.ReadSection | TTY_Asynch/TTY_ReadStream.cpp:82-84 | one step of the machine that returns a non-empty prefix of the content |
| TTYStream.Stream.WritePiece | TTY_Asynch/TTY_WriteStream.cpp:87-96 | one write and what the device does before the lock is taken again: the machine's step, then every completion that fits a transfer |
| TTYStream.Stream.ReadPiece | TTY_Asynch/TTY_ReadStream.cpp:82-91 | likewise for one read |
| TTYStream.Stream.AwaitRoom | TTY_Asynch/TTY_WriteStream.cpp:78-85 | the wait is left at once exactly if there is room or the stream is closed; otherwise the device is signalled and the lock released, round after round, until there is room, the stream is closed, or the last round timed out on a ring still full; what each round does is what the device does in it |
| TTYStream.Stream.AwaitBytes | TTY_Asynch/TTY_ReadStream.cpp:73-80 | likewise until there are bytes, the stream is closed, or the last round timed out on a ring still empty |
| TTYStream.Stream.WriteData | TTY_Asynch/TTY_WriteStream.cpp:64-101 | against any behaviour of the device, the call is a run of the machine that accepts exactly the first `count` bytes in order; a short count only after a round that timed out on a full ring, -1 only from a closed stream, blocked only with every round used up and the ring full, and hanging exactly where put never ends |
| TTYStream.Stream.ReadData | TTY_Asynch/TTY_ReadStream.cpp:58-96 | against any behaviour of the device, the call is a run of the machine, the first `count` cells are the bytes returned in order, the others unchanged; a short count only after a round that timed out on an empty ring, blocked only with every round used up, and it never hangs |
| TTYStream.WriteCallEnds | TTY_Asynch/TTY_WriteStream.cpp:64-101 | with a device that sends a byte in every round, write_data accepts all n bytes within 2n rounds, unless put never ends |
| TTYStream.ReadCallEnds | TTY_Asynch/TTY_ReadStream.cpp:58-96 | with a device that brings a byte in every round, read_data returns all n bytes within 2n rounds |
| TTYStream.RoundMakesRoom | TTY_Asynch/TTY_WriteStream.cpp:78-85 | one such round ends the wait for room |
| TTYStream.RoundBringsBytes | TTY_Asynch/TTY_ReadStream.cpp:73-80 | one such round ends the wait for bytes |
| Calendar.DateOfDayNumber | daf/DateTime.cpp:170-206 | JUGDate of JUGDay is the identity on every valid date from year 1 |
| Calendar.DayNumberOfDate | daf/DateTime.cpp:170-206 | JUGDay of JUGDate is the identity on every day number from 1 January of year 1, and the date is valid |
| Calendar.DateOfEarlyNumber | daf/DateTime.cpp:170-189 | an earlier day number gives a year before 1, which the range check refuses |
| Calendar.NextDayIsNextNumber | daf/DateTime.cpp:195-206 | the next day of the calendar, with its months and leap years, has the next number |
| Calendar.AddingIsCounting | daf/DateTime.cpp:375-383 | the date n numbers later is n calendar days later |
| Calendar.OrderIsLinear | daf/DateTime.cpp:195-206 | the order by year, month and day is the order of the numbers |
| Calendar.WeekDayIs | daf/DateTime.cpp:208-211 | for the numbers of valid dates, the weekday is the number plus one modulo seven |
| Calendar.NextIsNearest | daf/DateTime.cpp:416-427 | next lands on the given weekday, later, with no such day between |
| Calendar.PrevIsNearest | daf/DateTime.cpp:429-440 | prev lands on the given weekday, earlier, with no such day between |
| Calendar.UnixEpoch | daf/DateTime.cpp:312-319 | the origin of the conversion to seconds is Thursday 1 January 1970 |
| Calendar.TableCountsDays | daf/DateTime.cpp:446-457 | the table of first days of months counts the days of the months before |
| Calendar.JulianDayCounts | daf/DateTime.cpp:321-325 | julianDay is the number of the day in its year |
| DateTime.CheckRange | daf/DateTime.cpp:90-105 | accepts exactly the valid dates and times of the years 1 to 3000; any other gets IllegalArgumentException exactly for a month or year out of range with a day from 1 to 31, and otherwise DateTimeException |
| DateTime.DateOfIsAcceptedInRange | daf/DateTime.cpp:170-189 | what JUGDate computes is accepted exactly for the day numbers of those years |
| DateTime.AdditionIsAnAction | daf/DateTime.cpp:375-393 | (dt + a) + b is dt + (a + b), dt + 0 is dt, and subtraction undoes addition, wherever the results are accepted |
| DateTime.AdditionIsCounting | daf/DateTime.cpp:375-383 | adding n days is n calendar-successor steps |
| DateTime.ComparisonIsTimeOrder | daf/DateTime.cpp:312-319 | the order of the fields is the order of seconds and microseconds |
| DateTime.SecondsCount | daf/DateTime.cpp:312-319 | midnight of 1 January 1970 is second 0, the next calendar day begins 86400 seconds later, and hours, minutes and seconds add 3600, 60 and 1 |
| DateTime.DateTime.Create | daf/DateTime.cpp:253-260 | an object is made exactly for a valid value, with its weekday |
| DateTime.DateTime.Assign | daf/DateTime.cpp:356-373 | a valid value is stored with its weekday; any other throws and changes nothing |
| DateTime.DateTime.AddDays | daf/DateTime.cpp:375-383 | the sum is stored if and only if it is in range; otherwise the object is unchanged |
| DateTime.DateTime.SubtractDays | daf/DateTime.cpp:385-393 | likewise for the difference |
| DateTime.DateTime.CompareTo | daf/DateTime.cpp:395-414 | for every operand, the order of the fields and 0 exactly for equal values; for one in range, the order by seconds and microseconds |
| DateTime.DateTime.Next | daf/DateTime.cpp:416-427 | the nearest later date with that weekday, if there is one in range |
| DateTime.DateTime.Prev | daf/DateTime.cpp:429-440 | the nearest earlier date with that weekday, if there is one in range |
| Bits.ByteOrder | daf/Bitset.cpp:39-47 | different bytes first differ at a bit, most significant first, that decides their order |
| Bits.ByteOrderIsBitOrder | daf/Bitset.cpp:248-264 | with zero padding, comparing bytes is comparing bits lexicographically |
| Bitset.OrderIsTotal | daf/Bitset.cpp:248-264 | the order by length and then by bits is total, and only equal sequences compare as 0 |
| Bitset.OrderAtFirstDifference | daf/Bitset.cpp:248-264 | the shorter comes first, and of equal lengths the one with a zero where they first differ |
| Bitset.PrefixEqualityIsTransitiveIff | daf/Bitset.h:136-150 | for operands of lengths l, m and n, operator == is transitive on all contents if and only if l <= m or n <= m |
| Bitset.EqualityIsOrderIff | daf/Bitset.cpp:112-131 | for operands of two lengths, operator == and compare_to agree on all contents if and only if the lengths are equal |
| Bitset.SizeCheckIsRightIff | daf/Bitset.cpp:53-73 | the check refuses exactly the sizes above INT_MAX if and only if the size fits 32 bits or is refused anyway |
| Bitset.ComplementIsFlip | daf/Bitset.h:225-228 | xor with ones flips every bit, and flipping twice is the identity |
| Bitset.CombiningWithConstants | daf/Bitset.cpp:191-246 | and with zeros clears and with ones keeps, or keeps and sets, xor keeps and flips |
| Bitset.CombiningLeavesTheRest | daf/Bitset.cpp:191-246 | the bits behind the end of a shorter right operand stay |
| Bitset.SelfCombination | daf/Bitset.cpp:229-246 | leaving a sequence combined with itself alone is right except for xor of a sequence with a bit set |
| Bitset.BitraitsOpBit | daf/Bitset.cpp:359-388 | each operator of bitraits writes the combined bit and no other |
| Bitset.ByteOpBit | daf/Bitset.cpp:201-201 | combining a byte combines each of its bits |
| Bitset.Bitset.Create | daf/Bitset.cpp:53-73 | for every size: an object with all bits at the value given and zero padding, or none exactly where the check fails |
| Bitset.Bitset.Copy | daf/Bitset.cpp:75-86 | the same bits in a buffer of its own |
| Bitset.Bitset.Get | daf/Bitset.cpp:310-317 | the bit, or none out of range |
| Bitset.Bitset.Put | daf/Bitset.cpp:301-308 | that bit is written and no other; out of range nothing is |
| Bitset.Bitset.PutOp | daf/Bitset.cpp:359-388 | that bit is combined and no other changed |
| Bitset.Bitset.Combine | daf/Bitset.cpp:191-246 | the fast path down to byte boundaries is the operation on every bit of the common prefix; the rest and the padding stay |
| Bitset.Bitset.Equals | daf/Bitset.cpp:112-131 | equality of the common prefixes |
| Bitset.Bitset.CompareTo | daf/Bitset.cpp:248-264 | the sign of the order by length and then by bits |
| Bitset.Bitset.Flip | daf/Bitset.cpp:292-299 | every bit is flipped and the padding cleared |
| Bitset.Bitset.TrimBits | daf/Bitset.cpp:343-355 | the padding is cleared and no bit changed |
| Bitset.Bitset.Assign | daf/Bitset.cpp:133-155 | the bits of the other operand, before aliasing could matter |
| Bitset.Bitset.Reset | daf/Bitset.cpp:319-341 | for every size: all bits have the value given, or an exception exactly where the check fails and nothing changed |
| Bitset.Bitset.Append | daf/Bitset.cpp:157-189 | the bits of both in order, or unchanged on overflow; an operand appended to itself is doubled and then throws |
| Bitset.Bitset.Subits | daf/Bitset.cpp:266-277 | the slice from a position, of the given length or to the end, whichever is less, and to the end for a negative length; null exactly out of range |
| Bitset.Bitset.Erase | daf/Bitset.cpp:279-290 | prefix and suffix without the slice of that length, in the same buffer, stale bytes behind it notwithstanding |

## Left out

- HandOffTheorems.ReturnedPutIsNotLost: requires a run without channel interrupt, because the code loses items then; `LostOnlyByInterrupt` says exactly when.
- HandOffTheorems.QuiescentBijection: requires a run without channel interrupt, for the same reason.
- SynchronousChannel.SYNCHNode.SetState: the interrupt of a single node, which nothing in the source calls and which would force CANCELLED, is not modelled, nor is the result of the signal.
- SynchronousChannel.SynchronousChannel.Interrupt: sets the flag; the broadcasts, their retries after a delay and the result depend on timing, and a call may find the flag at every test the source makes.
- SemaphoreControlledChannel.SemaphoreControlledChannel.ExtractTop: finds a greatest item by a scan; the heap inside the standard library's priority queue is not modelled, and which of several greatest items it returns is left open in the machine.
- SemaphoreControlledChannel.SemaphoreControlledChannel.Acquire: the waiting inside the two semaphores is the subject of `Semaphore.dfy`; here a call that finds no permit fails or has not got there yet.
- TTYStream.Stream.WriteData: what happens at each release of the lock is a finite schedule; a call still blocked at its end is reported as waiting.
- Bitset.Bitset.Get: a bit whose byte number exceeds INT_MAX is not read, nor put (`Put`, `PutOp`): the source casts the number to int before it indexes the buffer. The operations on several bits are modelled up to INT_MAX bits, though the size check lets larger objects through from 2^32 bits on.
- DateTime.DateTime.AddDays: `long` is unbounded, so a sum of day numbers that overflows is not modelled.
- Resets by waitReset, shutdown and the destructors of Barrier, Rendezvous and the channels, whose draining depends on timed retries.
- Items partly rearranged by a Rendezvous command that then throws: they are never returned, since the rendezvous is broken.
- Lock failures, allocation failures, thread cancellation inside a condition variable, and exceptions of copying an item.
- Failed device transfers, which never give the permit back; the unlocked peek_data; the handler's process_input and process_output hooks; null buffers.
- The text formats of dates, gmtime, and the conversion of Bitset to text.
- SynchValue, whose setter returns while still holding its gate; CountDownSemaphore, LockedExecutor, DirectExecutor and TaskExecutor, which add little to the primitives modelled.
- The ACE, TAO, DDS and SQLite wrappers, the service container, the code generators, and the floating-point geography and conversion code.
