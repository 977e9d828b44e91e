# Models and proofs for doom-fish-utils

These modules model the concurrent and the data-handling core of the crate, and prove properties of the models.

**The lock-free ring** (`src/spsc.rs`). `RingPositions` shows that the masks and shifts of the code compute with
ordinals, modulo 2^64 and for every capacity, and gives the exact condition under which two ordinals share a word.
`RingMachine` is the ring with one step for each atomic operation of each thread, any number of threads, and weak
exchanges that may fail for no reason. `RingInvariant` holds its invariant, `RingFifo` refines it to a bounded queue in
which an overwrite is a dequeue at its read exchange and an enqueue at its write store, `RingRuns` follows the items
through whole runs and `RingSolo` says what calls return that nobody disturbs, from the call to its answer; `RingSteps`
says what each single operation does to the state. `RingClass` is the ring as the code keeps it, words and cells changed
in place, one method for each atomic operation; `RingOwner` runs it and drops it.

**Wakeups.** `AtomicWaker` is the waiting/registering/waking protocol. `Spsc` and `SpscWakeups` put it together with the
ring, and `SpscPolls` follows what the polls return; `Mpsc` and `Oneshot` put it together with their mutexes. `Stream`,
`StreamWaiters` and `StreamClass` are the bounded stream with its condition variable, `FutureMutex` the async mutex;
`Waiters` is what these two share. Each future carries ghost facts: whether its last poll returned Pending, and whether
its task has been woken since; wakes that a thread has yet to carry out are part of the state. "No lost wakeup" is then
an invariant of every run. `WakerCalls`, `MpscCalls`, `OneshotCalls`, `StreamCalls` and `MutexCalls` say what each call
does in the terms of its caller: what it answers, what it leaves as it was, and whom it wakes.

**JSON** (`src/json.rs`). `JsonGrammar` is the grammar of RFC 8259, sections 2 to 7, as syntax trees with a text and a
meaning each, and `JsonAlphabet` says what its bytes, digits, escapes and orders are. `JsonParser` is the reader as
recursive functions. `JsonTokens`, `JsonNumbers`, `JsonSoundness` and `JsonCompleteness` relate the two, `JsonWriter` is
the compact writer, and `JsonTheorems` holds the main results. `JsonFaults` and `JsonLocality` are about errors: what
they mean at their position, and that nothing behind it matters. `JsonFloats` shows that what is assumed of doubles can
be met. `JsonReader` and `JsonFormatter` are the reader and the writer in place, with their loops. `Utf8` is UTF-8 as in
RFC 3629.

**Collections.** `SlotMap` with `SlotMapClass` and `SecondaryMap` are the versioned maps, `SecondaryRuns` both of them
used together; `ArrayVec` and `SmallVec` the vectors, where a cell that holds no value of its own is `None`.

Where the code updates something in place there is a class, and each method of it is proved against a function of the
old state; what the program promises is proved about these functions, or about machines that take their steps in any
order.

## Assumptions

- Atomic operations are sequentially consistent steps.
- A thread does not sleep between two of its ring operations while the write cursor goes through a whole window (capacity
  * 2^64 / lap ordinals) less three capacities; `RingPositions.PositionsCollide` shows that only a multiple of the window
  can be mistaken. `Recent` in `RingClass` states it for each operation that compares.
- The capacity of a ring is at most 2^60, so that its slots fit in memory.
- Nobody else uses a handle while it is being dropped, as the borrow rules guarantee: a producer is dropped when no other
  call of it is in progress, the last sender of a stream when no push is, the stream when no future of it is left.
- A finite double is written as a number with a fraction or an exponent, and read back as itself (`FloatsOk` in
  `JsonWriter`); the round trip uses this, acceptance does not. `JsonFloats` exhibits conversions that satisfy it.
- An id that the stream gives out is not one that a live future still has (`FreshId` in `Stream`): that would take 2^64 - 1
  registrations within its life.

## Model

| member | source | states |
|---|---|---|
| `RingPositions.AndLowBits` | src/spsc.rs:76 | masking with a power of two less one is the remainder, so the mask of the code is the offset in the lap |
| `RingPositions.AndHighBits` | src/spsc.rs:77 | masking with the complement is the lap itself, for every word |
| `RingPositions.IndexOfPosition` | src/spsc.rs:87 | the masked and shifted position of ordinal k is slot k mod capacity, for every capacity and across the wrap of the word |
| `RingPositions.NextOfPosition` | src/spsc.rs:75-81 | `next` of the position of ordinal k is the position of k + 1, in 64 bits |
| `RingPositions.LapOfPosition` | src/spsc.rs:104 | a lap further is one capacity of ordinals further, in both directions, in 64 bits |
| `RingPositions.PositionIsEven` | src/spsc.rs:62 | positions are even, so a free stamp is never a full one |
| `RingPositions.PositionsCollide` | src/spsc.rs:67-71 | two ordinals have the same word if and only if they differ by a multiple of capacity * 2^64 / lap |
| `RingPositions.WindowDistinguishes` | src/spsc.rs:67-71 | inside one such window equal words mean equal ordinals |
| `RingPositions.LapFacts` | src/spsc.rs:69 | the lap is a power of two, at least twice the capacity and a divisor of 2^64 |
| `RingMachine.StepPush` | src/spsc.rs:83-132 | one atomic operation of `push` or `push_overwrite`; only the thread's own program counter changes beside the shared state |
| `RingMachine.StepPop` | src/spsc.rs:134-164 | one atomic operation of `pop` |
| `RingMachine.StepLen` | src/spsc.rs:166-184 | one atomic load of `len` |
| `RingInvariant.InitialInv` | src/spsc.rs:59-73 | a new ring satisfies the invariant for every capacity and number of threads |
| `RingInvariant.StepKeepsInv` | src/spsc.rs:83-184 | every atomic operation of every thread, with spurious failures of the weak exchange, keeps the invariant that ties stamps, cells and owners to the cursors |
| `RingInvariant.TouchKeepsInv` | src/spsc.rs:97-101 | an operation that changes one slot for its owner leaves all other slots and threads in order |
| `RingInvariant.ClaimedIsFree` | src/spsc.rs:91-98 | whoever moves the write cursor owns an empty cell |
| `RingInvariant.OldestIsFull` | src/spsc.rs:104-118 | when an overwrite takes the oldest slot, the ring is full and that slot holds a value |
| `RingInvariant.PushAdvanceKeepsInv` | src/spsc.rs:120 | the plain store of the write cursor in an overwrite keeps the invariant |
| `RingFifo.StepRefinesFifo` | src/spsc.rs:83-184 | every atomic operation is one step of a bounded queue, or none: a call begins as the very call that was asked for, with its item and its overwrite flag; enqueue is at the write exchange or store, dequeue at the read exchange, refusal, emptiness and length at a load |
| `RingFifo.LenIsExact` | src/spsc.rs:170-179 | the length computed from two loads is the number of ordinals between the cursors at one instant, from 0 to the capacity |
| `RingFifo.RoomAtFree` | src/spsc.rs:91 | a free stamp at the write cursor means there is room |
| `RingFifo.PushTakeOldestRefines` | src/spsc.rs:109-118 | an overwrite first dequeues the oldest item of a full queue |
| `RingFifo.PushAdvanceRefines` | src/spsc.rs:120 | and then enqueues its own, at the store |
| `RingFifo.PushLocalRefines` | src/spsc.rs:104-108 | a refused push happened on a full queue |
| `RingFifo.PopCheckWriteRefines` | src/spsc.rs:157-158 | a pop that returns nothing happened on an empty queue |
| `RingRuns.EveryRunIsFifo` | src/spsc.rs:83-164 | in every interleaving of any number of threads, the k-th item taken is the k-th that entered, at most the capacity that was asked for is queued, and when no thread carries an item, those delivered and those queued are all that entered, in order |
| `RingRuns.EveryRunRefines` | src/spsc.rs:59-184 | every run of the ring is a run of a bounded queue that starts empty with the capacity asked for: each turn is one queue step of the thread whose turn it is, or none while its call is in progress |
| `RingRuns.RunKeepsAll` | src/spsc.rs:83-184 | every run keeps the invariant and the account of who carries which item |
| `RingRuns.StepKeepsDelivery` | src/spsc.rs:121-124 | every taken item is delivered once, and carried by exactly one thread until then |
| `RingRuns.CellsAreExclusive` | src/spsc.rs:98-101 | no two threads are inside the same cell |
| `RingRuns.PlainStoreIsSafe` | src/spsc.rs:109-120 | between the read exchange and the plain store of an overwrite no other thread can move the write cursor or claim the slot |
| `RingSolo.PopAlone` | src/spsc.rs:134-164 | a pop that nobody disturbs, from its call to its answer, returns the oldest item, or nothing from an empty ring, in a bounded number of operations |
| `RingSolo.PushAlone` | src/spsc.rs:83-132 | an undisturbed call of push, from its item and flag to its answer: it stores the item if there is room; on a full ring a plain push hands its item back and leaves the queue as it was, and an overwrite displaces the oldest item |
| `RingSolo.LenAlone` | src/spsc.rs:166-184 | an undisturbed `len` ends with the length of the queue and leaves it as it was |
| `RingClass.Ring.constructor` | src/spsc.rs:59-73 | the new ring in words is the initial machine: the words change as the ordinal machine says, and stand for its state afterwards |
| `RingClass.Ring.PushLoadWrite` | src/spsc.rs:84 | load of the write cursor: the words change as the ordinal machine says, and stand for its state afterwards |
| `RingClass.Ring.PushLoadStamp` | src/spsc.rs:87-105 | load and comparison of a stamp: the words change as the ordinal machine says, and stand for its state afterwards |
| `RingClass.Ring.PushClaimWrite` | src/spsc.rs:91-97 | weak exchange of the write cursor: the words change as the ordinal machine says, and stand for its state afterwards |
| `RingClass.Ring.PushWriteCell` | src/spsc.rs:98 | write of the claimed cell: the words change as the ordinal machine says, and stand for its state afterwards |
| `RingClass.Ring.PushStoreStamp` | src/spsc.rs:99-100 | publication of the item: the words change as the ordinal machine says, and stand for its state afterwards |
| `RingClass.Ring.PushLoadRead` | src/spsc.rs:105-108 | load of the read cursor, refusal if the ring is full: the words change as the ordinal machine says, and stand for its state afterwards |
| `RingClass.Ring.PushExchangeRead` | src/spsc.rs:109-118 | exchange of the read cursor by an overwrite: the words change as the ordinal machine says, and stand for its state afterwards |
| `RingClass.Ring.PushStoreWrite` | src/spsc.rs:120 | plain store of the write cursor: the words change as the ordinal machine says, and stand for its state afterwards |
| `RingClass.Ring.PushReplaceCell` | src/spsc.rs:121 | replacement of the displaced item: the words change as the ordinal machine says, and stand for its state afterwards |
| `RingClass.Ring.PopLoadRead` | src/spsc.rs:135 | load of the read cursor: the words change as the ordinal machine says, and stand for its state afterwards |
| `RingClass.Ring.PopLoadStamp` | src/spsc.rs:138-157 | load and comparison of a stamp: the words change as the ordinal machine says, and stand for its state afterwards |
| `RingClass.Ring.PopClaimRead` | src/spsc.rs:141-150 | weak exchange of the read cursor: the words change as the ordinal machine says, and stand for its state afterwards |
| `RingClass.Ring.PopReadCell` | src/spsc.rs:152 | move of the item out of its cell: the words change as the ordinal machine says, and stand for its state afterwards |
| `RingClass.Ring.PopStoreStamp` | src/spsc.rs:153-154 | release of the slot for the next lap: the words change as the ordinal machine says, and stand for its state afterwards |
| `RingClass.Ring.PopLoadWrite` | src/spsc.rs:157-158 | load of the write cursor, nothing if the ring is empty: the words change as the ordinal machine says, and stand for its state afterwards |
| `RingClass.Ring.LenLoad` | src/spsc.rs:168-169 | loads of both cursors: the words change as the ordinal machine says, and stand for its state afterwards |
| `RingClass.Ring.LenCompare` | src/spsc.rs:170-180 | the length, if the read cursor has not moved: the words change as the ordinal machine says, and stand for its state afterwards |
| `RingClass.Ring.LengthOfWords` | src/spsc.rs:171-179 | the length computed from two words is the difference of the ordinals they stand for |
| `RingClass.StampTest` | src/spsc.rs:91-105 | inside a window the comparisons of words decide what the slot is about |
| `RingOwner.Execute` | src/spsc.rs:83-184 | any schedule, carried out on the words, follows the ordinal machine |
| `RingOwner.PopExclusively` | src/spsc.rs:134-164 | with exclusive access the loop of `pop` ends with the oldest item or with nothing |
| `RingOwner.Drop` | src/spsc.rs:186-192 | dropping the ring releases every remaining item once, oldest first |
| `AtomicWaker.StepKeepsInv` | src/atomic_waker/mod.rs:265-408 | every operation of concurrent `register` and `take` calls keeps the state consistent with who is inside the cell |
| `AtomicWaker.EveryRunIsSafe` | src/atomic_waker/mod.rs:265-408 | in every run the states the assertions of the code name are the only ones, and the waker that `register` takes back is there |
| `AtomicWaker.CellIsExclusive` | src/atomic_waker/mod.rs:272-286 | at most one thread is inside the waker cell |
| `AtomicWaker.StepKeepsKept` | src/atomic_waker/mod.rs:379-408 | a registered waker stays until it is taken to be woken |
| `AtomicWaker.StepKeepsComing` | src/atomic_waker/mod.rs:346-404 | while its task does not register, a wake in flight stays in flight until the task is woken |
| `AtomicWaker.StepKeepsRegisters` | src/atomic_waker/mod.rs:265-345 | a registration that no other one meets ends with the waker in the cell or woken |
| `WakerCalls.RegisterAlone` | src/atomic_waker/mod.rs:265-296 | an undisturbed registration leaves its waker in the cell and wakes nobody |
| `WakerCalls.WakeAlone` | src/atomic_waker/mod.rs:365-396 | an undisturbed wake empties the cell and wakes the task that was registered there, and no other |
| `WakerCalls.RegisterDuringWake` | src/atomic_waker/mod.rs:331-344 | a registration that meets a wake wakes its own task at once |
| `WakerCalls.AskedThreadWakes` | src/atomic_waker/mod.rs:296-330 | a wake that came while a thread registers is kept whatever the others do, and each step of that thread leads on to waking the task itself |
| `WakerCalls.OnlyRegisteredAreWoken` | src/atomic_waker/mod.rs:265-404 | in every run, only tasks that asked for it are woken |
| `AtomicWaker.WakerCell.RegisterStep` | src/atomic_waker/mod.rs:265-360 | one operation of `register`, in place |
| `AtomicWaker.WakerCell.TakeStep` | src/atomic_waker/mod.rs:379-408 | one operation of `take`, in place |
| `SpscWakeups.StepKeepsInv` | src/spsc.rs:311-412 | every step of producers, producer drop and the polling task keeps the account of who will notify the task |
| `SpscWakeups.NoPollIsLost` | src/spsc.rs:392-412 | in every run: if a poll returned Pending and an item is readable or the producer is closed, the task has been notified since or a wake is in flight; the end is reported only when the producer is closed and the ring empty |
| `SpscPolls.EveryPollReturns` | src/spsc.rs:392-412 | in every run the items that the pops of the task took out are exactly those that its polls returned, in order, but for one that the poll in progress is about to return; a pending poll and one that returned the end have popped nothing |
| `SpscPolls.EveryPollIsInOrder` | src/spsc.rs:392-412 | with one consumer and no overwrites the polls return the items in the order they entered, and all of them when a poll has returned the end |
| `SpscPolls.PollAlone` | src/spsc.rs:392-412 | an undisturbed poll ends with the oldest item if there is one, with the end if the ring is empty and closed, and else pending with its waker registered |
| `SpscWakeups.RestedTaskIsNotified` | src/spsc.rs:312-333 | when no call is under way the task has been notified |
| `SpscWakeups.RingFills` | src/spsc.rs:98-124 | only the publication of an item makes the ring readable |
| `Mpsc.StepKeepsInv` | src/future/mpsc.rs:40-98 | every critical section and every operation of the waker keeps the channel consistent |
| `Mpsc.EveryRunDelivers` | src/future/mpsc.rs:40-98 | in every run the receiver gets the accepted values in order and without loss until it is dropped, and all of them before the end; at most the capacity is queued; the channel is open just until the receiver closes it or goes; a pending receiver with news has been notified or will be |
| `MpscCalls.NothingAfterClose` | src/future/mpsc.rs:40-98 | in every run nothing is accepted once the receiver has closed the channel or gone |
| `MpscCalls.SendAnswers` | src/future/mpsc.rs:40-52 | a send is accepted just when the receiver has not closed the channel and there is room; else the value comes back, and `full` says which of the two it was |
| `MpscCalls.ReceiveAnswers` | src/future/mpsc.rs:54-76 | `try_recv` and both looks of a poll return the oldest queued value if there is one, the end just when the receiver has closed the channel or no sender is left, and nothing otherwise |
| `MpscCalls.ClosingAnswers` | src/future/mpsc.rs:78-98 | closing leaves what is queued to be received, and the drop of the receiver releases it |
| `MpscCalls.DropAnswers` | src/future/mpsc.rs:82-90 | the drop of the last sender, and of no other, wakes the receiver |
| `Mpsc.EndIsFinal` | src/future/mpsc.rs:54-61 | after the end has been reported no value comes |
| `Mpsc.SharedChannel.constructor` | src/future/mpsc.rs:24-34 | the new channel, in place, is the function the machine uses |
| `Mpsc.SharedChannel.SendValue` | src/future/mpsc.rs:40-52 | the critical section of `send`, in place, is the function the machine uses |
| `Mpsc.SharedChannel.TryReceive` | src/future/mpsc.rs:54-61 | the critical section of `try_recv`, in place, is the function the machine uses |
| `Mpsc.SharedChannel.DropOneSender` | src/future/mpsc.rs:82-90 | drop of a sender, and whether it was the last, in place, is the function the machine uses |
| `Mpsc.SharedChannel.DropTheReceiver` | src/future/mpsc.rs:92-98 | drop of the receiver, which releases what is queued, in place, is the function the machine uses |
| `Oneshot.StepKeepsInv` | src/future/oneshot.rs:25-137 | every step of both sides keeps the value in exactly one place and the wakeups accounted for |
| `Oneshot.EveryRunKeepsTheValue` | src/future/oneshot.rs:63-137 | in every run the value ends as the receiver's result, as the sender's refusal or released by the receiver's drop, and in one of them only; a cancellation is seen only when the receiver is gone |
| `Oneshot.FirstCompletion` | src/future/oneshot.rs:25-32 | the first completed poll yields the value that was sent; it is a cancellation only if none was |
| `OneshotCalls.SendAnswers` | src/future/oneshot.rs:63-71 | the value goes into the slot, or comes back just when the receiver is gone |
| `OneshotCalls.CancellationAnswers` | src/future/oneshot.rs:97-111 | a poll of `cancellation` completes, at either of its looks, just when the receiver is gone, and registers its task between them |
| `OneshotCalls.PollAnswers` | src/future/oneshot.rs:118-124 | a poll of the receiver yields the value that was sent if it is there, the cancellation just when the sender was dropped without one left, and registers its task between its two looks |
| `Oneshot.WaiterIsNotified` | src/future/oneshot.rs:97-136 | a pending receiver is notified of a value or of the sender's drop, and a pending cancellation of the receiver's drop |
| `Oneshot.SharedSlot.TakeValue` | src/future/oneshot.rs:25-32 | `take`, in place, is the function the machine uses |
| `Oneshot.SharedSlot.Send` | src/future/oneshot.rs:63-71 | the critical section of `send`, in place, is the function the machine uses |
| `Oneshot.SharedSlot.DropReceiver` | src/future/oneshot.rs:127-133 | drop of the receiver, in place, is the function the machine uses |
| `Utf8.EncodeDecodes` | src/json.rs:339-341 | the bytes pushed for a scalar are one well-formed character that decodes to it |
| `Utf8.SliceValid` | src/json.rs:301-312 | a slice of valid UTF-8 between character boundaries is valid UTF-8 |
| `Utf8.AfterAscii` | src/json.rs:301-312 | behind an ASCII byte there is a character boundary |
| `JsonValue.LastDuplicateWins` | src/json.rs:255-279 | inserting members one by one gives an ordered map in which the last value of a key counts |
| `JsonValue.SortedIsMap` | src/json.rs:14 | an ordered list of entries is determined by what it maps keys to |
| `JsonGrammar.SurrogatesRoundTrip` | src/json.rs:327-335 | joining two surrogates undoes the UTF-16 encoding of every code point past 0xFFFF |
| `JsonAlphabet.TokensMean` | src/json.rs:229-247 | the bytes of the grammar are the characters of its tokens and literals |
| `JsonAlphabet.BlanksMean` | src/json.rs:223-227 | whitespace is blank, tab, line feed and carriage return |
| `JsonAlphabet.DigitsMean` | src/json.rs:361-364 | a hex digit is one of `0123456789abcdef` or `0123456789ABCDEF` and counts its place there, and a decimal digit likewise |
| `JsonAlphabet.EscapesMean` | src/json.rs:315-323 | the short escapes are the quote, the backslash, the slash and the letters b, f, n, r and t, and each stands for its character |
| `JsonAlphabet.WritesShortestPiece` | src/json.rs:62-78 | a byte is written as itself where the grammar lets it, by its short escape if there is one, and else by four lower-case hex digits |
| `JsonAlphabet.LessMeans` | src/json.rs:14 | keys are in lexicographic order of their bytes |
| `JsonTokens.QuadReads` | src/json.rs:358-371 | exactly four hex digits are read, as the number they write |
| `JsonTokens.CharsSound` | src/json.rs:301-356 | a string that is read consists of pieces of the grammar, with their meaning |
| `JsonTokens.CharsComplete` | src/json.rs:301-356 | every string of the grammar is read, with its meaning |
| `JsonNumbers.NumberSound` | src/json.rs:373-422 | a number that is read is one of the grammar, with its meaning |
| `JsonNumbers.NumberComplete` | src/json.rs:373-422 | every number of the grammar in front of a delimiter is read as a whole |
| `JsonNumbers.ConvertIsMeaning` | src/json.rs:409-421 | a token becomes the exact integer if that has 64 bits and is not -0, a finite double otherwise, and an error if there is none |
| `JsonSoundness.ValueSound` | src/json.rs:229-251 | an accepted value is written by a tree of the grammar within the depth limit, with that meaning |
| `JsonSoundness.ElementsSound` | src/json.rs:289-298 | accepted elements of an array are items of the grammar |
| `JsonSoundness.PairsSound` | src/json.rs:260-279 | accepted members of an object are members of the grammar |
| `JsonSoundness.ParseSound` | src/json.rs:190-198 | an accepted text is a document of the grammar |
| `JsonCompleteness.ValueComplete` | src/json.rs:229-251 | every tree of the grammar is read with its meaning, or refused for its nesting |
| `JsonCompleteness.ElementsComplete` | src/json.rs:289-298 | the same of the elements of an array |
| `JsonCompleteness.PairsComplete` | src/json.rs:260-279 | the same of the members of an object |
| `JsonCompleteness.ParseComplete` | src/json.rs:190-198 | a document of the grammar whose numbers are finite is accepted, with its meaning, if it nests at most 128 deep, and refused for its nesting otherwise |
| `JsonTheorems.AcceptsTheGrammar` | src/json.rs:190-422 | `parse` returns a value if and only if the text is a document of RFC 8259 within the limits that means this value |
| `JsonTheorems.GrammarIsUnambiguous` | src/json.rs:190-422 | no text has two meanings |
| `JsonFaults.FaultsExplained` | src/json.rs:206-422 | every error names what is missing or wrong at its position: there, behind whitespace that has been skipped, the text does not go on as the message says it should |
| `JsonLocality.ErrorsAreLocal` | src/json.rs:206-422 | an error depends on the text up to its position and at most the length of a literal behind it: every text that agrees that far fails in the same way at the same position |
| `JsonWriter.TreeRepresents` | src/json.rs:29-60 | what is written is the text of a tree that means the value, with null for infinities and NaNs |
| `JsonWriter.StringOfText` | src/json.rs:62-78 | every string, with all escapes, is written so that it means itself |
| `JsonWriter.IntegerRoundTrip` | src/json.rs:33 | every 64-bit integer is written so that it means itself |
| `JsonWriter.NulledIsSame` | src/json.rs:34-35 | nothing is lost just when there is no infinity and no NaN |
| `JsonTheorems.ReadsWhatIsWritten` | src/json.rs:29-422 | the written text is read back as the value with null for non-finite numbers, or refused if it nests deeper than 128 |
| `JsonFloats.FloatsCanBeOk` | src/json.rs:34-35 | the assumption on the conversions of doubles can be met |
| `JsonTheorems.RoundTrip` | src/json.rs:29-422 | the same value comes back if and only if it nests at most 128 deep and holds no non-finite number |
| `JsonTheorems.ReadsProperValues` | src/json.rs:190-422 | what is read is valid UTF-8 throughout, ordered, finite and within the depth limit |
| `JsonTheorems.RewritingIsStable` | src/json.rs:29-422 | writing what was read and reading it again changes nothing |
| `JsonTheorems.CharsValid` | src/json.rs:301-356 | although the bytes of a character are stepped through one by one, strings are cut between characters |
| `JsonTheorems.WritesValidText` | src/json.rs:29-78 | what is written is valid UTF-8 |
| `JsonReader.Reader.Consume` | src/json.rs:214-221 | `consume`: same result and position as the specification, on success and on every error |
| `JsonReader.Reader.Whitespace` | src/json.rs:223-227 | `whitespace`: same result and position as the specification, on success and on every error |
| `JsonReader.Reader.Slice` | src/json.rs:306-313 | a slice, which must lie on character boundaries: same result and position as the specification, on success and on every error |
| `JsonReader.Reader.HexQuad` | src/json.rs:358-371 | `hex_quad`: same result and position as the specification, on success and on every error |
| `JsonReader.Reader.Unicode` | src/json.rs:324-344 | the `u` escape: same result and position as the specification, on success and on every error |
| `JsonReader.Reader.PushEscape` | src/json.rs:312-349 | the stretch of plain bytes up to an escape, and its character: same result and position as the specification, on success and on every error |
| `JsonReader.Reader.StartsWith` | src/json.rs:237-245 | the test for a literal, on a slice from a character boundary: same result and position as the specification, on success and on every error |
| `JsonReader.Reader.ReadSeparator` | src/json.rs:291-297 | the closing byte or comma behind a value: same result and position as the specification, on success and on every error |
| `JsonReader.Reader.MemberRound` | src/json.rs:260-279 | one turn of the loop of `object`: same result and position as the specification, on success and on every error |
| `JsonReader.Reader.SeparateMember` | src/json.rs:271-278 | the brace or comma behind a member: same result and position as the specification, on success and on every error |
| `JsonReader.Reader.ElementRound` | src/json.rs:289-298 | one turn of the loop of `array`: same result and position as the specification, on success and on every error |
| `JsonReader.Reader.SeparateElement` | src/json.rs:291-297 | the bracket or comma behind an element: same result and position as the specification, on success and on every error |
| `JsonReader.Reader.ReadChars` | src/json.rs:301-356 | the loop of `string`: same result and position as the specification, on success and on every error |
| `JsonReader.Reader.ReadString` | src/json.rs:301-356 | `string`; its slices lie on character boundaries and its result is valid UTF-8: same result and position as the specification, on success and on every error |
| `JsonReader.Reader.ReadEscape` | src/json.rs:315-346 | an escape: same result and position as the specification, on success and on every error |
| `JsonReader.Reader.Number` | src/json.rs:373-422 | `number`; the token lies on character boundaries: same result and position as the specification, on success and on every error |
| `JsonReader.Reader.ReadValue` | src/json.rs:229-251 | `value`: same result and position as the specification, on success and on every error |
| `JsonReader.Reader.ReadArray` | src/json.rs:282-299 | `array`: same result and position as the specification, on success and on every error |
| `JsonReader.Reader.ReadElements` | src/json.rs:289-298 | the loop of `array`: same result and position as the specification, on success and on every error |
| `JsonReader.Reader.ReadObject` | src/json.rs:253-280 | `object`: same result and position as the specification, on success and on every error |
| `JsonReader.Reader.ReadMembers` | src/json.rs:260-279 | the loop of `object`: same result and position as the specification, on success and on every error |
| `JsonReader.Reader.ReadKey` | src/json.rs:261-268 | a key and its colon: same result and position as the specification, on success and on every error |
| `JsonReader.ParseText` | src/json.rs:190-198 | `parse`: accepts exactly the documents of the grammar within the limits, returns their meaning, and explains each error |
| `JsonFormatter.Formatter.FormatValue` | src/json.rs:29-60 | `Display`: appends the text the round trip is about |
| `JsonFormatter.Formatter.FormatItems` | src/json.rs:37-46 | the loop over an array: appends the text the round trip is about |
| `JsonFormatter.Formatter.FormatEntries` | src/json.rs:47-60 | the loop over an object: appends the text the round trip is about |
| `JsonFormatter.Formatter.FormatString` | src/json.rs:62-78 | `write_string`, character by character: appends the text the round trip is about |
| `SlotMap.FfiRoundTrip` | src/collections/slot_map.rs:14-30 | index and version are the two halves of the 64 bits; keys survive the passage, and every 64-bit value gives a key, with the lowest bit of its version set |
| `SlotMap.EveryRunKeepsInv` | src/collections/slot_map.rs:109-184 | in every map that was built, the free list visits each vacant slot except slot 0 once and ends at the end of the slots, slots are occupied just when their version is odd, and `len` counts them |
| `SlotMap.InsertKeepsInv` | src/collections/slot_map.rs:135-156 | inserting keeps this |
| `SlotMap.InsertAddsKey` | src/collections/slot_map.rs:135-156 | the returned key was not in use, and nothing else changes |
| `SlotMap.RemoveKeepsInv` | src/collections/slot_map.rs:158-172 | removing any key, issued or not, removes its value if it has one and nothing else |
| `SlotMap.ClearKeepsInv` | src/collections/slot_map.rs:174-184 | clearing leaves no key and keeps the invariant |
| `SlotMap.LenCountsKeys` | src/collections/slot_map.rs:126-128 | `len` is the number of keys |
| `SlotMap.KeysAreAll` | src/collections/slot_map.rs:209-219 | the keys listed are those in use, in the order of their slots |
| `SlotMap.StaleKeys` | src/collections/slot_map.rs:143-164 | after any run a key finds something just when its slot is occupied and has been reused a multiple of 2^31 times |
| `SlotMapClass.SlotTable.constructor` | src/collections/slot_map.rs:111-123 | the new map, in place: what it does to the slots, and to the map from keys to values |
| `SlotMapClass.SlotTable.Insert` | src/collections/slot_map.rs:135-156 | `insert`, in place: what it does to the slots, and to the map from keys to values |
| `SlotMapClass.SlotTable.Remove` | src/collections/slot_map.rs:158-172 | `remove`, in place: what it does to the slots, and to the map from keys to values |
| `SlotMapClass.SlotTable.Clear` | src/collections/slot_map.rs:174-184 | the loop of `clear`, in place: what it does to the slots, and to the map from keys to values |
| `SlotMapClass.SlotTable.Get` | src/collections/slot_map.rs:186-196 | `get`, in place: what it does to the slots, and to the map from keys to values |
| `SlotMapClass.SlotTable.Set` | src/collections/slot_map.rs:198-207 | a write through `get_mut`, in place: what it does to the slots, and to the map from keys to values |
| `SlotMapClass.SlotTable.Keys` | src/collections/slot_map.rs:209-219 | `keys`, in place: what it does to the slots, and to the map from keys to values |
| `SecondaryMap.PutAgrees` | src/collections/slot_map.rs:279-302 | an insert stores and returns what a map that keeps the newest key of each index would, for any two turns of a slot, if and only if the wrapping comparison of versions orders them as they are |
| `SecondaryMap.NearIsResolved` | src/collections/slot_map.rs:293-295 | it does so for keys up to 2^30 - 1 reuses newer or 2^30 older, and for no others less than 2^31 reuses away |
| `SecondaryMap.FarIsIgnored` | src/collections/slot_map.rs:293-295 | a key 2^30 reuses newer is ignored as if it were older |
| `SecondaryMap.NullIsIgnored` | src/collections/slot_map.rs:279-283 | the null key is never put and never found |
| `SecondaryMap.LookAgrees` | src/collections/slot_map.rs:313-320 | looking up returns what the simple map would if and only if no other turn of the slot has the same version |
| `SecondaryMap.DropAgrees` | src/collections/slot_map.rs:304-311 | removing leaves and returns what the simple map would under the same condition, and under no other |
| `SecondaryRuns.EveryRunAgrees` | src/collections/slot_map.rs:135-320 | from two empty maps, for every interleaving of insert, remove and clear of the slot map with insert, remove and get of any returned key in the secondary map: as long as each used key is told apart from the newest of its slot (and, to be inserted, ordered against it), all returned values and all stored values are those of a map to the newest keys |
| `SecondaryRuns.InsertKeepsIssued` | src/collections/slot_map.rs:143 | the keys returned for a slot are those of its turns 1, 3, 5 and so on, across the wrap of versions, and every slot has the age of its last key |
| `SecondaryRuns.NearIsWithinBound` | src/collections/slot_map.rs:293-295 | a use at most 2^30 - 1 reuses newer or 2^30 older than the stored key is such a use |
| `SecondaryMap.TurnsOfKeys` | src/collections/slot_map.rs:143 | the keys of a slot map are near each other just when their reuses are |
| `SecondaryMap.Table.Insert` | src/collections/slot_map.rs:279-302 | `insert`, in place |
| `SecondaryMap.Table.Remove` | src/collections/slot_map.rs:304-311 | `remove`, in place |
| `SecondaryMap.Table.Get` | src/collections/slot_map.rs:313-320 | `get` |
| `SecondaryMap.Table.GetDisjoint` | src/collections/slot_map.rs:330-351 | gives access if and only if every key is present and all indices differ, and then to different slots |
| `Stream.StepKeepsSleepers` | src/stream.rs:304-429 | every step keeps: while a producer sleeps, the free places are at most the woken producers and owed notifications, or everyone is about to be notified |
| `Stream.NoProducerIsStranded` | src/stream.rs:381-429 | when no notification is under way, a producer sleeps only on a full buffer with a living consumer |
| `StreamWaiters.StepKeepsInv` | src/stream.rs:76-500 | every step of any number of producers and consumers keeps the whole invariant |
| `StreamWaiters.EveryRun` | src/stream.rs:76-500 | in every run wakers are registered only while the buffer is empty and the stream open, each pending future once; the senders are counted, and the stream is closed just when every sender that was ever made has been dropped; the buffer is at most the capacity asked for; items leave in the order they entered |
| `StreamWaiters.NoPollIsLost` | src/stream.rs:314-343 | a pending future for which there is an item or the end has been woken or is about to be |
| `StreamWaiters.EndMeansDrained` | src/stream.rs:325-327 | the end is reported just when no sender is left and the buffer is empty |
| `StreamWaiters.EndIsFinal` | src/stream.rs:325-327 | after the end nothing enters or leaves |
| `StreamCalls.PushAnswers` | src/stream.rs:365-379 | a push drops the oldest item just when the buffer is full, appends its own, and wakes all that wait |
| `StreamCalls.BlockingPushAnswers` | src/stream.rs:394-429 | a blocking push, at its call and whenever it looks again, hands its item back if the consumer is gone, sleeps while the buffer is full, and otherwise appends |
| `StreamCalls.PollAnswers` | src/stream.rs:314-343 | a poll takes the oldest item; without one it reports the end just when no sender is left, and else waits, registered with the waker of this poll |
| `StreamCalls.HandlesChange` | src/stream.rs:452-468 | the drop of a sender takes away this one, as a clone adds one, and the drop of the last wakes all that wait |
| `StreamCalls.ClearAnswers` | src/stream.rs:303-310 | clearing drops what is buffered, and then every producer is notified |
| `StreamCalls.WakesOne` | src/stream.rs:113-117 | a wake reaches the future whose registration was taken, and no other |
| `StreamWaiters.RegisterMembers` | src/stream.rs:76-102 | registering replaces the future's own registration or adds one |
| `StreamWaiters.UnregisterMembers` | src/stream.rs:104-111 | removing takes away the future's own registration and no other |
| `StreamClass.SharedStream.constructor` | src/stream.rs:219-242 | the new stream, in place, is the function the machine uses |
| `StreamClass.SharedStream.FindWaiter` | src/stream.rs:87-90 | the search for a registration, in place, is the function the machine uses |
| `StreamClass.SharedStream.RegisterWaiter` | src/stream.rs:76-102 | `register_waiter`, in place, is the function the machine uses |
| `StreamClass.SharedStream.RemoveWaiter` | src/stream.rs:104-111 | `remove_waiter`, in place, is the function the machine uses |
| `StreamClass.SharedStream.PollNextItem` | src/stream.rs:314-343 | the critical section of `poll_next_item`, in place, is the function the machine uses |
| `StreamClass.SharedStream.TryNext` | src/stream.rs:261-270 | `try_next`, in place, is the function the machine uses |
| `StreamClass.SharedStream.PushLossy` | src/stream.rs:365-379 | the critical section of `push`, in place, is the function the machine uses |
| `StreamClass.SharedStream.TryAppend` | src/stream.rs:394-429 | what a blocking push does while it holds the mutex, in place, is the function the machine uses |
| `StreamClass.SharedStream.LoseSender` | src/stream.rs:452-468 | drop of a sender, in place, is the function the machine uses |
| `FutureMutex.StepKeepsInv` | src/future/mutex.rs:28-96 | every step keeps: one guard just when locked, and when unlocked the first waiter has been woken or is about to be |
| `FutureMutex.EveryRun` | src/future/mutex.rs:20-96 | in every run, with barging, re-polls with new wakers and dropped futures |
| `FutureMutex.LockIsExclusive` | src/future/mutex.rs:28-31 | the lock is given out just when it is free, to one at a time |
| `MutexCalls.PollAnswers` | src/future/mutex.rs:66-82 | a poll gets the guard just when nobody has it, and gives up its registration; otherwise the future is registered with the waker of this poll, as the only change |
| `MutexCalls.UnlockAnswers` | src/future/mutex.rs:50-56 | the drop of the guard frees the lock and wakes the first waiter |
| `MutexCalls.FuturesChange` | src/future/mutex.rs:85-96 | a dropped future leaves the queue, and if it was in it while nobody has the lock, hands the wake on to the first of those left |
| `FutureMutex.FirstWaiterIsWoken` | src/future/mutex.rs:37-56 | when the mutex is free and no wake is under way, the waiter with the earliest first poll has been woken |
| `FutureMutex.PlacesAreKept` | src/future/mutex.rs:66-82 | a future keeps its place while it waits, behind those that waited before it |
| `FutureMutex.PutMembers` | src/future/mutex.rs:80 | registering replaces the future's waker or adds it, in order |
| `FutureMutex.LockState.Unlock` | src/future/mutex.rs:50-56 | drop of the guard, in place, is the function the machine uses |
| `FutureMutex.LockState.Poll` | src/future/mutex.rs:66-82 | `poll`, in place, is the function the machine uses |
| `FutureMutex.LockState.DropFuture` | src/future/mutex.rs:85-96 | drop of a lock future, in place, is the function the machine uses |
| `ArrayVec.ArrayVec.constructor` | src/collections/array_vec.rs:14-19 | an empty vector, no cell initialised; exactly the first `len` cells are initialised afterwards |
| `ArrayVec.ArrayVec.Push` | src/collections/array_vec.rs:35-39 | appends; exactly the first `len` cells are initialised afterwards |
| `ArrayVec.ArrayVec.Pop` | src/collections/array_vec.rs:41-47 | moves the last item out; exactly the first `len` cells are initialised afterwards |
| `ArrayVec.ArrayVec.Insert` | src/collections/array_vec.rs:49-58 | shifts the items behind; exactly the first `len` cells are initialised afterwards |
| `ArrayVec.ArrayVec.Remove` | src/collections/array_vec.rs:60-69 | moves an item out and closes the gap; exactly the first `len` cells are initialised afterwards |
| `ArrayVec.ArrayVec.Truncate` | src/collections/array_vec.rs:71-75 | drops the items behind, the last first; exactly the first `len` cells are initialised afterwards |
| `ArrayVec.ArrayVec.Retain` | src/collections/array_vec.rs:81-91 | keeps in order what the predicate keeps, each item moved once; exactly the first `len` cells are initialised afterwards |
| `ArrayVec.ArrayVec.Drain` | src/collections/array_vec.rs:93-120 | moves the range into an iterator and closes the gap; exactly the first `len` cells are initialised afterwards |
| `ArrayVec.RetainedAndRefused` | src/collections/array_vec.rs:81-91 | every item is kept or refused and none both, all that is kept comes of an item, and keeping everything changes nothing |
| `ArrayVec.RetainedConcat` | src/collections/array_vec.rs:81-91 | what is kept of each part of a sequence follows in the order of the parts |
| `ArrayVec.CoveredWhen` | src/collections/array_vec.rs:94-110 | a range is refused just when it is not a range of the items, even if a bound cannot be counted on from |
| `ArrayVec.ArrayVec.RetainTurn` | src/collections/array_vec.rs:83-90 | one turn of the loop: an item is moved out, and back behind those kept if it is kept too |
| `ArrayVec.IntoIter.Next` | src/collections/array_vec.rs:209-215 | yields the first item left |
| `ArrayVec.IntoIter.NextBack` | src/collections/array_vec.rs:223-229 | yields the last item left |
| `ArrayVec.IntoIter.Exhaust` | src/collections/array_vec.rs:232-238 | every item left is yielded or dropped once |
| `SmallVec.SmallVec.constructor` | src/collections/small_vec.rs:17-19 | an empty vector, inline |
| `SmallVec.SmallVec.ToHeap` | src/collections/small_vec.rs:116-124 | the items move to the heap |
| `SmallVec.SmallVec.Push` | src/collections/small_vec.rs:41-46 | appends; on the heap just when there was no room inline; never from the heap back to inline |
| `SmallVec.SmallVec.Pop` | src/collections/small_vec.rs:48-53 | removes the last item; never from the heap back to inline |
| `SmallVec.SmallVec.Remove` | src/collections/small_vec.rs:55-60 | removes an item; never from the heap back to inline |
| `SmallVec.SmallVec.Truncate` | src/collections/small_vec.rs:62-67 | keeps the first items; never from the heap back to inline |
| `SmallVec.SmallVec.Reserve` | src/collections/small_vec.rs:73-78 | contents unchanged; on the heap just when the items would not fit inline; never from the heap back to inline |
| `SmallVec.SmallVec.Extend` | src/collections/small_vec.rs:185-192 | appends a sequence; inline just as long as it fits; never from the heap back to inline |
| `SmallVec.SmallVec.Dedup` | src/collections/small_vec.rs:87-100 | leaves out each item equal to the one before it; never from the heap back to inline |
| `SmallVec.SmallVec.Retain` | src/collections/small_vec.rs:102-107 | keeps what the predicate keeps; never from the heap back to inline |
| `SmallVec.SmallVec.Drain` | src/collections/small_vec.rs:109-114 | removes and yields the range; never from the heap back to inline |
| `SmallVec.SmallVec.FromVec` | src/collections/small_vec.rs:203-211 | copied inline just when the capacity is small |
| `SmallVec.DedupedMeans` | src/collections/small_vec.rs:87-100 | no two neighbours are equal, no value is lost, and a sequence without equal neighbours stays as it is |
| `SmallVec.DedupStep` | src/collections/small_vec.rs:93-98 | one turn of the swapping loop follows the definition on sequences |

## Left out

- RingClass.Ring.PushLoadStamp: assumes `Recent`, like the other operations that compare a word loaded earlier, because a 64-bit word cannot tell ordinals a window apart.
- RingClass.Ring.PushClaimWrite: assumes `Recent`, for the same reason.
- RingClass.Ring.PushLoadRead: assumes `Recent`, for the same reason.
- RingClass.Ring.PushExchangeRead: assumes `Recent`, for the same reason.
- RingClass.Ring.PopLoadStamp: assumes `Recent`, for the same reason.
- RingClass.Ring.PopClaimRead: assumes `Recent`, for the same reason.
- RingClass.Ring.PopLoadWrite: assumes `Recent`, for the same reason.
- RingClass.Ring.LenCompare: assumes `Recent`, for the same reason.
- RingClass.StampTest: is about ordinals less than a window apart; `RingPositions.PositionsCollide` says which others share a word.
- RingOwner.Execute: is about schedules in which every compared position is `Recent`.
- RingSolo.PopAlone: says nothing about progress under contention, because a producer paused between its exchange and its stamp store makes `pop` spin.
- SpscWakeups.NoPollIsLost: covers one polling task, because the waker keeps one registration and drops the others by design.
- ArrayVec.ArrayVec.Retain: the predicate is a function of the item that may change it, not a closure with state, and does not panic.
- SmallVec.SmallVec.Retain: the predicate is a function of the item that may change it, as above.
- SmallVec.SmallVec.Drain: yields the drained items at once in order; a heap drain that is leaked half-way is not modelled, and the heap storage is a sequence.
- SlotMapClass.SlotTable.Insert: is not called on a full map, where the program panics after it has counted the item.
- SecondaryMap.Table.GetDisjoint: returns the slots to which access is given, not references.
- JsonTheorems.RoundTrip: parsing and printing of doubles are parameters, and doubles are bit patterns.
- JsonFaults.FaultsExplained: says what is wrong at the position of an error, not that the text up to there could have gone on to be a document.
- FutureMutex.LockState.Poll: counts first polls without a bound, where the code panics or wraps after 2^64 of them.
- Weak memory orderings, and wall-clock progress of any of the protocols.
- Panics as control flow: poisoned mutexes, out-of-range arguments, overflow of the sender count.
- Texts of error messages; a JSON error is a kind and a byte position.
- `FromJson` and `JsonValue::field`, comparison, hashing and `Debug` implementations, iterators by reference.
- `completion`, `panic_safe`, `callback_context`, the foreign-function modules, `select`, `join_all`, boxed futures and four-character codes.
