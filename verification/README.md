# A verified model of the web server's core

This Dafny project models the parts of the server whose correctness is not visible in any one
function: the lock-free queue with its semaphore, the skip list, the timer queue, the event loop's
task queue, the asynchronous log, the output side of a connection, the connection buffer,
incremental HTTP parsing, multipart bodies, the route trie and the date arithmetic.
What a run comes to is stated in terms of its events and of the caller's arguments, and limits and units
are written as numbers there. `dafny verify dfyconfig.toml` checks the whole project. Every lemma turns
automatic induction off, so each induction is spelled out in the proof that uses it.

## How it is organised

- `BitTricks`, `SpscQueue`, `SpscRefinement`, `SpscSimulation`, `SpscRuns`, `SpscCalls`, `SpscZero`: the
  single-producer, single-consumer queue as a transition system with one step per load or store of a
  shared variable, its ring invariant, the simulation by a plain FIFO, what follows for whole runs, and
  what each call comes to.
  A failed assertion, an access out of bounds, a read of a raw slot and a construction over a live
  object are steps labelled `Fault`.
- `Semaphore`, `BlockingQueue`, `BlockingCalls`: the lightweight semaphore, one step per atomic access or
  kernel call, the blocking queue as the composition of both transition systems, and what its calls come to.
- `SkipList`: nodes on the heap, one linked list per level.
- `Timers`, `TimerRuns`, `TimerQueue`: the timer queue as a transition system over a heap in which
  addresses are reused; what holds over every run; and the class, each method tied to the steps it
  performs. A callback is the list of actions it takes (adding and cancelling timers, letting time
  pass), given as a parameter.
- `EventLoop`: the loop thread and any number of other threads, in the build that guards the task
  queue with a mutex.
- `AsyncLog`: front end and writer thread at the granularity of their critical sections, with the
  class and the array-backed log buffer.
- `TcpConnection`, `Buffer`: system calls are parameters; a socket takes any prefix of what it is
  offered.
- `HttpParser`, `HttpRequests`, `Multipart`, `Routes`, `Letters`: the parsers, what they make of whole
  requests, the route trie, and words that differ in case only. The grammar of the request line and the
  library's `stoul` are parameters.
- `Calendar`: doubles that hold exact quarter integers are scaled to integers, so that
  `floor((z - 0.25) / 36524.25)` is written `(4 * z - 1) / 146097`. A rounded quotient there is
  never within a rounding error of the next integer, so both floors agree.

Where the code and what one would expect of it differ, the model follows the code, and a lemma says
exactly when they agree:

- a queue can fault if it is built for size 0 or for 2^63 and more, where `size + 1` rounds up to 0, and for no
  other size as long as twice `MAX_BLOCK_SIZE` fits a word (`SpscZero.SafeSizes`);
- `signal(0)` wakes a blocked waiter without giving a token; tokens are conserved if and only if every
  signal gives at least one (`Semaphore.ConservedExactly`);
- cancelling a timer misses it if and only if the loop has not yet added it
  (`TimerRuns.CancelExactly`);
- a literal segment inserted after a wildcard sibling takes the wildcard's node over. Searches return
  patterns that match, for every path, if and only if every stored pattern is in line with the labels on
  the way to it (`Routes.RightExactly`), and the first such insertion is the one that breaks this
  (`Routes.StaysRightExactly`);
- `Split` does not look at the character after a slash, so that segments come back from a path if and
  only if none but the first and the last is empty (`Routes.SplitJoin`);
- a write that fails, or a send while a file is being sent, breaks what the peer receives
  (`TcpConnection.StepKeepsOrder`); a writable event in which no file byte can be sent is the one that
  leaves a closing connection open (`TcpConnection.FailedFileWriteStaysOpen`);
- chunk lengths are read and written in base ten, although section 7.1 of RFC 9112 has them in
  hexadecimal; both readings agree exactly on lengths below ten (`HttpParser.HexLength`); lengths of up to
  five digits come back (`HttpParser.ChunksRoundTrip`), longer ones are
  waited for for ever (`HttpParser.LongChunkStalls`); a length line ends the body if and only if its
  digits, if there are any, are zeros (`HttpParser.LastChunkLine`);
- a request without a header field is not seen to end: the parser waits for a further empty line and
  drops the bytes up to it (`HttpParser.NoFieldsSwallows`); a head is read if and only if it has a field
  and the fields before the last do not pass 8192 bytes (`HttpParser.HeadIsRead`);
- a header value is what follows the colon, less leading blanks, if and only if that starts with a
  blank or has none (`HttpParser.HeaderValue`);
- date and time come back from their ticks if and only if the instant is not before 2000 or is a
  midnight (`Calendar.InstantRoundTrip`); printing and parsing keeps an instant to the millisecond if and
  only if it is not before 2000 or has no milliseconds, which are printed without their sign
  (`Calendar.PrintedFormKeeps`);
- of several uploads with one name the multipart parser keeps the first, of several fields the last, and
  nothing else (`Multipart.ComesBack`), so that every part comes back if and only if fields of one name
  are the same and uploads of one name are (`Multipart.EveryPartComesBack`); a name comes back if and only
  if it has no quote and no line break and does not end in an equals sign (`Multipart.NameReadExactly`).

## Model

| member | source | states |
|---|---|---|
| `BitTricks.CeilToPow2` | web/base/LockFreeQueue.h:654-666 | the least power of two not below a 64-bit word, 0 where that does not fit and for 0 |
| `BitTricks.MaskIsWrap` | web/base/LockFreeQueue.h:321-321 | masking with size - 1 is wrapping at a power-of-two size |
| `SpscRuns.MaskedIndexWraps` | web/base/LockFreeQueue.h:556-557 | in every reachable state, in every block, the masked increment is the model's wrapping one, because block sizes stay powers of two |
| `SpscRuns.LinkBlocks` | web/base/LockFreeQueue.h:126-143 | the constructor's loop links exactly the asked number of empty blocks into a ring, and fails exactly when memory gives out |
| `SpscRuns.Construct` | web/base/LockFreeQueue.h:105-162 | for every 64-bit size the constructor establishes the initial state, or fails only for want of memory for the block count of the formula, in word arithmetic |
| `SpscRuns.EnoughBlocks` | web/base/LockFreeQueue.h:117-124 | the block-count division leaves room for `size` elements beside one block |
| `SpscRuns.InitialRelated` | web/base/LockFreeQueue.h:105-162 | a queue built for a size that is served starts related to the empty FIFO |
| `SpscRefinement.CoreStoreTail` | web/base/LockFreeQueue.h:556-569 | publishing an element in the tail block keeps the ring shape and appends the element to what the ring stores |
| `SpscRefinement.CoreStoreNextTail` | web/base/LockFreeQueue.h:580-598 | filling the empty block after the tail block keeps the ring shape, with that block holding one element not yet published |
| `SpscRefinement.CoreSplice` | web/base/LockFreeQueue.h:618-622 | splicing a new block in after the tail keeps the ring shape and the contents |
| `SpscRefinement.CoreStoreTailBlock` | web/base/LockFreeQueue.h:600-601 | moving the tail to the prepared block publishes its element |
| `SpscRefinement.CoreStoreFront` | web/base/LockFreeQueue.h:317-324 | advancing front keeps the ring shape and removes the head |
| `SpscRefinement.CoreStoreFrontBlock` | web/base/LockFreeQueue.h:339-356 | leaving a drained front block for the next one keeps the ring shape and the contents |
| `SpscSimulation.CLoadTailBlockStep` | web/base/LockFreeQueue.h:326-326 | a moved `tailBlock` seen after an empty front block means there is a filled block ahead; an unmoved one means the queue has been empty during the call |
| `SpscSimulation.CReloadTailStep` | web/base/LockFreeQueue.h:329-331 | the second read of `tail` never skips a filled block |
| `SpscSimulation.PSpliceStep` | web/base/LockFreeQueue.h:621-631 | the splice step keeps what the producer, the consumer and the FIFO rely on |
| `SpscSimulation.CLookStep` | web/base/LockFreeQueue.h:384-423 | `peek` points at the head of the queue |
| `SpscSimulation.Simulates` | web/base/LockFreeQueue.h:285-484 | every step of either thread is one the FIFO allows, and the relation is kept |
| `SpscRuns.Refinement` | web/base/LockFreeQueue.h:285-644 | every trace of every interleaving is one a plain FIFO allows |
| `SpscRuns.AcceptedIsFifo` | web/base/LockFreeQueue.h:285-644 | in such a trace the values enqueued are those dequeued followed by the contents |
| `SpscRuns.Conservation` | web/base/LockFreeQueue.h:285-644 | at every moment, across growth and wrap-around, the values dequeued followed by what the slots of the ring hold are the values enqueued, and the ring is well shaped |
| `SpscRuns.NoFault` | web/base/LockFreeQueue.h:339-363 | no assertion fails, no access is out of bounds, no raw slot is read and no live one overwritten |
| `SpscRuns.EmptyMeansEmpty` | web/base/LockFreeQueue.h:285-376 | a dequeue or peek that reports empty had a moment during the call when the queue was empty |
| `SpscRuns.RefusedMeansFull` | web/base/LockFreeQueue.h:572-636 | a non-allocating enqueue is refused only if at some moment of the call at least the constructor's `size` elements were queued, grown or not |
| `SpscCalls.CallsAreAnswered` | web/base/LockFreeQueue.h:234-484 | in every run, for any size, every event answers the call in progress: one call a side at a time, the value passed is enqueued, only `try_enqueue` is refused, only `enqueue` runs out of memory, `peek` looks and the others remove |
| `SpscCalls.EnqueueComesTo` | web/base/LockFreeQueue.h:535-636 | an enqueuing call that may allocate is never refused; one that may not never runs out of memory and makes no block |
| `SpscCalls.GrowsOnlyWhenFull` | web/base/LockFreeQueue.h:572-617 | a block is made, or found to have no memory, only if at some moment of the call at least the constructor's `size` elements were queued, grown or not |
| `SpscCalls.GrowsByDoubling` | web/base/LockFreeQueue.h:603-609 | a new block is empty and twice as large as the largest so far, or as large once that has reached the limit; nothing else changes the number of blocks |
| `SpscCalls.EnqueueIsWaitFree` | web/base/LockFreeQueue.h:535-636 | an enqueuing call takes at most ten steps after it began, whatever the consumer does |
| `SpscCalls.DequeueIsWaitFree` | web/base/LockFreeQueue.h:285-484 | a dequeue or peek takes at most twelve, whatever the producer does |
| `SpscCalls.NobodyIsBlocked` | web/base/LockFreeQueue.h:285-636 | at the end of any run a side inside a call can take its next step, without a fault |
| `SpscZero.SizeZeroFaults` | web/base/LockFreeQueue.h:339-356 | a queue built for size 0 has a run in which three values go in, two come out and the next dequeue fails its assertion |
| `SpscZero.HugeSizeFaults` | web/base/LockFreeQueue.h:555-564 | a queue built for 2^63 or more has one block without a slot, and the first enqueue writes outside it |
| `SpscZero.NoBlockFaults` | web/base/LockFreeQueue.h:116-124 | with 2^63 for the maximal block size a size of 3 or more gets no block, and the first enqueue follows the null pointer |
| `SpscZero.SafeSizes` | web/base/LockFreeQueue.h:105-162 | for every 64-bit size, no run faults if and only if the size is from 1 to 2^63 - 1 (up to 2, with 2^63 for the maximal block size) |
| `Semaphore.SignalKeepsCore` | web/base/atomicops.h:736-745 | the fetch-and-add of a signal keeps the invariant if and only if it gives a token or no waiter owes one |
| `Semaphore.OthersKeepCore` | web/base/atomicops.h:667-745 | every other step keeps it and is allowed, whatever the counts |
| `Semaphore.Step` | web/base/atomicops.h:667-745 | every step of signaller and waiter is one that a plain token counter allows, and the invariant is kept |
| `Semaphore.RunInv` | web/base/atomicops.h:667-745 | the invariant and the allowance hold along every run |
| `Semaphore.TokensConserved` | web/base/atomicops.h:667-745 | waits never take more tokens than were given, the count is never below -1, and at most one kernel post is outstanding |
| `Semaphore.NoLostWakeup` | web/base/atomicops.h:690-708 | a waiter in the kernel has a post present or about to be made exactly when it has been signalled |
| `Semaphore.NoPostLeftOver` | web/base/atomicops.h:667-723 | no kernel post is left over when a wait returns true or false |
| `Semaphore.RefusedMeansNone` | web/base/atomicops.h:690-723 | a wait gives up only if at some moment of the call no token was available |
| `Semaphore.CallsAreAnswered` | web/base/atomicops.h:716-745 | each signal gives exactly the tokens it was called with, once, and each wait returns once |
| `Semaphore.RefusedAfterKernel` | web/base/atomicops.h:683-695 | a wait with a timeout, or without end, gives up only after it has waited in the kernel with that timeout |
| `Semaphore.TokenIsTaken` | web/base/atomicops.h:667-708 | once a token is there and no signal is on its way, a waiter takes it within its next four steps, wherever it was |
| `Semaphore.SignalZeroBreaks` | web/base/atomicops.h:736-745 | for any initial tokens, a run from the start in which `signal(0)` lets a waiter take a token that is not there |
| `Semaphore.ConservedExactly` | web/base/atomicops.h:736-745 | tokens are conserved in every run with signals of count n if and only if n is at least 1 |
| `BlockingQueue.Sound` | web/base/LockFreeQueue.h:784-943 | both component invariants hold in the composition, the tokens never exceed the queued elements, and offered values are received ones, the queue's and the one in flight |
| `BlockingQueue.WaitThenDequeueSucceeds` | web/base/LockFreeQueue.h:861-903 | after a successful wait the inner dequeue succeeds, in every interleaving |
| `BlockingQueue.ReceivedInOrder` | web/base/LockFreeQueue.h:822-943 | values are received in the order offered, none lost or repeated |
| `BlockingQueue.TokensBoundElements` | web/base/LockFreeQueue.h:822-829 | available tokens never exceed the elements stored in the ring |
| `BlockingCalls.CallsAreAnswered` | web/base/LockFreeQueue.h:784-943 | one call a side at a time; `wait_dequeue` comes back with an element only |
| `BlockingCalls.GivingUpMeansEmpty` | web/base/LockFreeQueue.h:861-903 | a dequeue gives up only if at some moment of its call every element whose enqueue had returned was received |
| `BlockingCalls.TimedCallWaits` | web/base/LockFreeQueue.h:892-903 | one with a timeout only after it has waited in the kernel for that long |
| `BlockingCalls.PeekedIsNext` | web/base/LockFreeQueue.h:926-929 | what a peek shows is the next value to be received, and it shows none only if the queue was empty in its call |
| `BlockingCalls.EnqueueFails` | web/base/LockFreeQueue.h:784-841 | `enqueue` fails only where memory gives out, `try_enqueue` only if the queue held its size at some moment of the call |
| `BlockingCalls.ElementIsReceived` | web/base/LockFreeQueue.h:861-903 | with an element accepted and the producer idle, a dequeue that waits or has its token receives one within seventeen steps |
| `SkipList.SkipList.constructor` | web/skiplist/SkipList.h:104-109 | an empty, valid list |
| `SkipList.SkipList.RandomLevel` | web/skiplist/SkipList.h:123-130 | the level is one more than the odd draws, at most the maximum |
| `SkipList.Walk` | web/skiplist/SkipList.h:147-149 | the inner loop stops at the last node of the level whose key is smaller |
| `SkipList.SkipList.FindPredecessors` | web/skiplist/SkipList.h:146-153 | at every level in use, the place that splits the list at the key |
| `SkipList.LinkAll` | web/skiplist/SkipList.h:174-177 | the new node is spliced into every level up to its own and no other list changes |
| `SkipList.SkipList.RaiseLevel` | web/skiplist/SkipList.h:165-170 | above the levels in use the lists are empty and the header precedes |
| `SkipList.SkipList.InsertElement` | web/skiplist/SkipList.h:139-186 | contents become the sorted association list with the key put in unless present; returns 1 exactly for present keys; the node is as high as its draws say, the list as high as its highest node; every level stays linked, sorted and in range |
| `SkipList.LevelsNest` | web/skiplist/SkipList.h:174-177 | each level is a sublist of the one below, of the nodes tall enough |
| `SkipList.InsertAll` | web/skiplist/SkipList.h:139-186 | any sequence of inserts with any draws builds the specified list |
| `SkipList.BuildHoldsFirstValues` | web/skiplist/SkipList.h:155-161 | that list is strictly sorted and holds exactly the inserted keys, each with its first value |
| `Timers.InsertElements` | web/net/timer/TimerQueue.cpp:153-168 | inserting keeps the order, adds exactly the entry, and changes the first exactly when the entry is earlier |
| `Timers.LowerBoundSplits` | web/net/timer/TimerQueue.cpp:171-180 | the sentry separates exactly the entries due by `now` |
| `Timers.NothingDangles` | web/net/timer/TimerQueue.cpp:130-202 | under the invariant every step reads, runs and frees allocated timers only, and every erase finds its entry |
| `Timers.StepKeepsInv` | web/net/timer/TimerQueue.cpp:95-210 | every step keeps both indexes in agreement, each timer in exactly one place, the run log's rule for one-shots, and the wake-up |
| `Timers.RunKeepsInv` | web/net/timer/TimerQueue.cpp:95-210 | so does every run |
| `TimerRuns.IndexesAgree` | web/net/timer/TimerQueue.cpp:130-188 | after any run both indexes describe the same timers with matching keys, and have the same size |
| `TimerRuns.RunsAreSafe` | web/net/timer/TimerQueue.cpp:95-210 | the assertions hold and no dangling timer is used in any run |
| `TimerRuns.ExpiredExactly` | web/net/timer/TimerQueue.cpp:171-188 | a batch is exactly the entries due, in order, and the rest stays |
| `TimerRuns.BatchRunsInOrder` | web/net/timer/TimerQueue.cpp:101-108 | whatever the callbacks do, the timers of a batch run once each in expiry order and nothing else runs |
| `TimerRuns.ResetSettlesTheBatch` | web/net/timer/TimerQueue.cpp:190-202 | after reset each repeating timer not cancelled is queued again, due its interval, in whole microseconds, after a moment of the reset; every other one is freed |
| `TimerRuns.ResetOneInterval` | web/net/timer/TimerQueue.cpp:192-202 | that moment is the one at which the timer's own round of the loop reads the clock; the other timers stay as they are |
| `TimerRuns.TermsKept` | web/net/timer/Timer.h:22-30 | in every run the timer numbered q has the interval of the q-th creation, is due when it was created for until it has run, and its first run is of that expiry |
| `TimerRuns.AlarmIsForTheFirst` | web/net/timer/TimerQueue.cpp:39-71 | whenever the descriptor is set, it is for the earliest expiry, or 100 microseconds ahead if that is later |
| `TimerRuns.OneShotsRunOnce` | web/net/timer/TimerQueue.cpp:95-110 | in any run a one-shot timer runs at most once |
| `TimerRuns.CancelledNeverRunsAgain` | web/net/timer/TimerQueue.cpp:130-147 | a timer cancelled once it has been added never runs after the batch in progress |
| `TimerRuns.EarlyCancelMisses` | web/net/timer/TimerQueue.cpp:112-120 | a timer cancelled before it is added, outside a batch or from a callback, can still be run by a later batch |
| `TimerRuns.CancelExactly` | web/net/timer/TimerQueue.cpp:130-147 | a cancelled timer can run in a later batch if and only if it had not yet been added in the loop |
| `TimerRuns.CancelTouchesOnlyItsOwn` | web/net/timer/TimerQueue.cpp:130-147 | a stale id changes nothing about any other timer, even at a reused address |
| `TimerRuns.WokenInTime` | web/net/timer/TimerQueue.cpp:122-128 | outside a batch a non-empty queue has the descriptor fired or armed no later than its earliest expiry or 100 microseconds after arming, so it has fired once both are past |
| `TimerQueue.TimerQueue.InsertTimer` | web/net/timer/TimerQueue.cpp:153-168 | the private insert and its result |
| `TimerQueue.TimerQueue.NewTimer` | web/net/timer/TimerQueue.cpp:112-116 | the timer has the expiry and the interval it was asked for, its id is returned, and it waits to be added |
| `TimerQueue.TimerQueue.AddTimerInLoop` | web/net/timer/TimerQueue.cpp:122-128 | performs the adding step |
| `TimerQueue.TimerQueue.CancelInLoop` | web/net/timer/TimerQueue.cpp:130-147 | performs the cancelling step |
| `TimerQueue.TimerQueue.GetExpired` | web/net/timer/TimerQueue.cpp:171-188 | takes the expired entries out of both indexes |
| `TimerQueue.TimerQueue.ResetOne` | web/net/timer/TimerQueue.cpp:192-202 | queues a repeating timer nobody cancelled its interval, in whole microseconds, ahead of the clock, or frees it |
| `TimerQueue.TimerQueue.Reset` | web/net/timer/TimerQueue.cpp:190-210 | performs the resets and the arming that end a batch |
| `TimerQueue.TimerQueue.ResetTimerfd` | web/net/timer/TimerQueue.cpp:39-71 | arms at the expiry, at least 100 microseconds ahead |
| `TimerQueue.TimerQueue.HandleRead` | web/net/timer/TimerQueue.cpp:95-110 | performs a whole batch, callbacks included |
| `EventLoop.StepKeepsInv` | web/net/tcp/EventLoop.cpp:99-124 | every step of every thread keeps the queue's order and the promise of a wakeup |
| `EventLoop.TasksInOrder` | web/net/tcp/EventLoop.cpp:287-304 | the tasks handed to `queueInLoop` by all threads are called by the loop thread in that order, none twice, none skipped; those not called are held |
| `EventLoop.NeverStuck` | web/net/tcp/EventLoop.cpp:172-223 | the loop is never in poll with a task pending unless the wakeup counter is positive or a queuing thread is about to raise it |
| `EventLoop.EveryTaskIsCalled` | web/net/tcp/EventLoop.cpp:99-124 | from every reachable state outside other threads' queueing, the loop thread alone, without the time-out, goes on to call every task queued |
| `EventLoop.EveryLoopRunCalls` | web/net/tcp/EventLoop.cpp:99-124 | every run of the loop thread that is as long as the steps that remain has called every task queued before it |
| `EventLoop.LoopComesToRest` | web/net/tcp/EventLoop.cpp:99-124 | the loop does not spin: with nothing new coming, a run is over after as many steps as there are tasks and thirteen more, with the wakeup counter read and every task called |
| `AsyncLog.StepKeepsInv` | web/log/AsyncLog.cpp:41-122 | every step keeps the conservation of messages and the supply of spare buffers |
| `AsyncLog.RunsAreSafe` | web/log/AsyncLog.cpp:80-120 | no null buffer is used and the writer's assertions hold in every run |
| `AsyncLog.Conservation` | web/log/AsyncLog.cpp:41-122 | the messages appended that are shorter than a buffer are those swapped out, queued and current, in order; written and in-flight ones are the batches less what was dropped; without a batch over 25 they add up to all |
| `AsyncLog.RoundFlushes` | web/log/AsyncLog.cpp:72-126 | when a round ends, every message appended before its swap that is shorter than a buffer is written, in order, if no batch was over 25 |
| `AsyncLog.DropsAreReported` | web/log/AsyncLog.cpp:91-98 | each drop, and nothing else, is reported in the log file, with the number of buffers lost and after what had been written |
| `AsyncLog.DropsWholeBuffers` | web/log/AsyncLog.cpp:91-99 | a drop keeps the first two buffers and removes whole ones |
| `AsyncLog.LossNeedsBacklog` | web/log/AsyncLog.cpp:44-57 | of messages shorter than a buffer, a batch loses some only if it holds fifty million bytes, because no two buffers in a row would have fitted into one |
| `AsyncLog.BytesOf` | web/log/LogUtil.h:38-43 | the array buffer and the list of messages take the same messages |
| `AsyncLog.LogBuffer.Append` | web/log/LogUtil.h:38-43 | the bytes are added if they fit strictly, else nothing changes |
| `AsyncLog.LogBuffer.Reset` | web/log/LogUtil.h:54-58 | empty again |
| `AsyncLog.AsyncLog.Append` | web/log/AsyncLog.cpp:41-59 | the message goes into the current buffer if it fits, else that one is queued and it starts the next; it is accepted exactly if it is shorter than a buffer |
| `AsyncLog.AsyncLog.SwapBuffers` | web/log/AsyncLog.cpp:80-86 | performs the writer's critical section |
| `AsyncLog.AsyncLog.TrimBatch` | web/log/AsyncLog.cpp:91-99 | performs the drop and its report |
| `AsyncLog.AsyncLog.RecycleSpares` | web/log/AsyncLog.cpp:105-122 | both spare buffers are there again, taken from the batch |
| `AsyncLog.AsyncLog.WriterRound` | web/log/AsyncLog.cpp:72-126 | a whole round, other threads appending meanwhile: everything accepted before it is written but for what a batch too long lost, and what came meanwhile is in the buffers, in order |
| `TcpConnection.StepKeepsOrder` | web/net/tcp/TcpConnection.cpp:122-320 | a step keeps wire, output buffer and file equal to what was asked for, and the interest in writability right, exactly when it is orderly; a send during a file transfer only if its bytes commute with the rest of the file |
| `TcpConnection.StepKeepsWatched` | web/net/tcp/TcpConnection.cpp:262-425 | the channel watches for writability exactly while bytes wait, and the write side is shut only when none do |
| `TcpConnection.WireIsFaithful` | web/net/tcp/TcpConnection.cpp:355-425 | in every orderly run the wire is a prefix of the bytes of the sends and files before the first shutdown or close, the rest waits in order, and all of it is out once the write side is shut |
| `TcpConnection.SocketTakes` | web/net/tcp/TcpConnection.cpp:122-320 | a step puts on the wire exactly those bytes the socket takes of what it offers: new ones if none wait, and on a writable event those that wait |
| `TcpConnection.ShutdownEffect` | web/net/tcp/TcpConnection.cpp:155-160 | a shutdown of a live connection changes nothing but its state, and shuts the write side at once exactly if no bytes wait; any other changes nothing |
| `TcpConnection.ShutdownCompletes` | web/net/tcp/TcpConnection.cpp:155-425 | after any orderly sends a shutdown goes through: once as many writable events have taken something as bytes were waiting, the write side is shut and every byte asked for is out |
| `TcpConnection.CloseIsFinal` | web/net/tcp/TcpConnection.cpp:326-341 | after a close nothing is sent, kept or shut, whatever comes |
| `TcpConnection.Finishes` | web/net/tcp/TcpConnection.cpp:262-320 | in any orderly run a closing connection is shut with everything on the wire once as many writable events have taken something as bytes wait |
| `TcpConnection.FailedFileWriteStaysOpen` | web/net/tcp/TcpConnection.cpp:306-314 | a writable event leaves a closing connection open for good if and only if it fails to send file bytes |
| `TcpConnection.OpenForGood` | web/net/tcp/TcpConnection.cpp:416-425 | nothing that happens later shuts such a connection |
| `TcpConnection.TcpConnection.SendInLoop` | web/net/tcp/TcpConnection.cpp:355-410 | performs the sending step; an orderly one keeps everything asked for on its way |
| `TcpConnection.TcpConnection.SendFile` | web/net/tcp/TcpConnection.cpp:108-119 | performs the file step; everything asked for stays on its way exactly if it is orderly |
| `TcpConnection.TcpConnection.SendFileInLoop` | web/net/tcp/TcpConnection.cpp:122-152 | what is sent at once, what is left, and whether to watch for writability |
| `TcpConnection.TcpConnection.ShutdownWrite` | web/net/tcp/TcpConnection.cpp:155-160 | a live connection is left disconnecting with nothing lost or sent, its write side shut exactly if no bytes wait; any other is left alone |
| `TcpConnection.TcpConnection.HandleWrite` | web/net/tcp/TcpConnection.cpp:262-320 | performs the writable step; everything asked for stays on its way exactly if it is orderly |
| `Buffer.Buffer.constructor` | web/base/Buffer.cpp:20-28 | empty, with 1032 bytes and both indices at 8 |
| `Buffer.Buffer.Retrieve` | web/base/Buffer.cpp:77-85 | drops that many bytes from the front; an emptied buffer starts at 8 again |
| `Buffer.Buffer.UnWrite` | web/base/Buffer.h:70-70 | drops that many bytes from the back |
| `Buffer.Buffer.MakeSpace` | web/base/Buffer.cpp:152-165 | grows to exactly the room asked for if the free bytes in front and behind do not suffice, else compacts in place; contents stay and there is room |
| `Buffer.Buffer.Append` | web/base/Buffer.cpp:136-141 | adds the bytes at the back |
| `Buffer.Buffer.ReadFd` | web/base/Buffer.cpp:177-200 | adds exactly the bytes read, spilled ones included |
| `Buffer.Buffer.ReadFdET` | web/base/Buffer.cpp:210-253 | adds exactly the bytes of all reads, and the result by how they ended |
| `Buffer.Buffer.WriteFdET` | web/base/Buffer.cpp:255-283 | what was sent followed by what is left is what was there; the calls stop at the first that blocks, fails, writes nothing or drains the buffer, with the count sent, -1, 0 and the count sent for result |
| `HttpParser.FindExtends` | web/base/Buffer.cpp:54-60 | a line break found stays the first one when bytes arrive |
| `HttpParser.BlockIsComplete` | web/http/HttpRequest.cpp:97-148 | a header block that ends in an empty line is never found incomplete |
| `HttpParser.RoundExtends` | web/http/HttpRequest.cpp:73-178 | a round that asks for more has consumed nothing; any other is the same with more bytes |
| `HttpParser.SplitOnce` | web/http/HttpRequest.cpp:28-71 | parsing what has arrived and then the rest is parsing all at once |
| `HttpParser.AnySplit` | web/http/HttpRequest.cpp:28-71 | however the stream is cut, verdict, line, headers, body and bytes left are those of one call |
| `HttpParser.NumberRoundTrip` | web/base/Util.cpp:59-81 | reading a written number gives it back |
| `HttpParser.HexString2Int` | web/base/Util.cpp:59-71 | the loop reads decimal digits in 32 bits, -1 at anything else or once it wraps to a negative number |
| `HttpParser.Int2HexString` | web/base/Util.cpp:73-81 | the loop writes the decimal digits |
| `HttpParser.HeaderValue` | web/http/HttpRequest.cpp:124-139 | a header line's value is what follows the colon, less leading blanks, if and only if that starts with a blank or has none |
| `HttpParser.ChunksRoundTrip` | web/http/HttpRequest.cpp:305-367 | framing any chunks of 1 to 99999 bytes and parsing restores their bytes and leaves what follows |
| `HttpParser.ChunksInPieces` | web/http/HttpRequest.cpp:305-367 | the same when the framed body arrives in any pieces |
| `HttpParser.LastChunkLine` | web/http/HttpRequest.cpp:318-325 | a length line ends the body if and only if its digits, if any, are all zero |
| `HttpParser.EmptyLengthLineEnds` | web/http/HttpRequest.cpp:318-325 | so an empty length line, and an empty line, complete the request |
| `HttpParser.HeadIsRead` | web/http/HttpRequest.cpp:73-149 | a request line and a rendered header block are read with exactly their fields, and parsing goes on behind them, if and only if there is a field and the fields before the last do not pass the limit |
| `HttpParser.NoFieldsSwallows` | web/http/HttpRequest.cpp:90-100 | without a field the parser waits for the next empty line and drops everything up to it |
| `HttpParser.LongHeadIsBad` | web/http/HttpRequest.cpp:110-116 | fields before the last that pass the limit make the request a bad one |
| `HttpParser.LongChunkStalls` | web/http/HttpRequest.cpp:310-316 | a chunk of 100000 bytes or more is waited for for ever |
| `HttpParser.HexLength` | web/http/HttpRequest.cpp:318-331 | a length line in hexadecimal announces the length it stands for if and only if that is below ten |
| `HttpParser.HttpRequest.ParseRequestLine` | web/http/HttpRequest.cpp:73-87 | performs the round for the request line |
| `HttpParser.HttpRequest.ParseHeaderLines` | web/http/HttpRequest.cpp:97-148 | the loop computes verdict, fields and their size |
| `HttpParser.HttpRequest.ParseRequestHeader` | web/http/HttpRequest.cpp:90-149 | performs the round for the header block |
| `HttpParser.HttpRequest.ReadFraming` | web/http/HttpRequest.cpp:286-303 | content length and transfer encoding from the fields |
| `HttpParser.HttpRequest.ParseChunked` | web/http/HttpRequest.cpp:305-367 | the loop over chunks ends as the specification does |
| `HttpParser.HttpRequest.ParseRequestContent` | web/http/HttpRequest.cpp:153-188 | so does the content phase |
| `HttpParser.HttpRequest.ParseRequest` | web/http/HttpRequest.cpp:28-71 | verdict, fields and bytes left are those of the specification; the reason recorded and the receive time |
| `HttpRequests.AddedHolds` | web/http/HttpRequest.cpp:142-143 | a look-up among the fields read finds the last one of that name, in any letter case |
| `HttpRequests.FramingOf` | web/http/HttpRequest.cpp:286-303 | length, encoding and whether it is chunked, in any letter case, are those of the fields sent; a length that is no number throws |
| `HttpRequests.ChunkedRequest` | web/http/HttpRequest.cpp:28-71 | a whole chunked request in any pieces, its field and word in any letter case, gives its line, fields and the chunks' bytes, and leaves what follows |
| `HttpRequests.LengthRequest` | web/http/HttpRequest.cpp:169-178 | so does one with a length, its body as many bytes as that says |
| `HttpRequests.LengthWaits` | web/http/HttpRequest.cpp:169-172 | until that many bytes are there more are asked for, and none is consumed |
| `HttpRequests.UnframedRequest` | web/http/HttpRequest.cpp:179-187 | with neither length nor encoding GET and HEAD are complete without a body and POST is refused |
| `HttpRequests.OtherEncoding` | web/http/HttpRequest.cpp:155-166 | an encoding other than chunked is refused, with or without a length |
| `HttpRequests.LengthThrows` | web/http/HttpRequest.cpp:286-292 | a length that is no number throws, whatever the encoding |
| `HttpRequests.LongRequest` | web/http/HttpRequest.cpp:110-116 | in any pieces, a head whose fields before the last pass 8192 bytes is refused |
| `HttpRequests.PartsWait` | web/http/HttpRequest.cpp:28-71 | no proper part of a complete request, cut anywhere, is taken for a request or refused |
| `HttpRequests.BadRequestLine` | web/http/HttpRequest.cpp:73-87 | a request line outside the grammar is refused, and only it is consumed |
| `HttpRequests.BadFieldLine` | web/http/HttpRequest.cpp:124-126 | a field line without a colon, anywhere in the head, is refused |
| `HttpRequests.BadLength` | web/http/HttpRequest.cpp:326-329 | after any chunks, a length line with a character that is no digit is refused |
| `HttpRequests.BadChunkEnd` | web/http/HttpRequest.cpp:336-349 | so is data that does not end where its length says |
| `HttpRequests.BadBodyEnd` | web/http/HttpRequest.cpp:352-363 | and so is anything but an empty line behind the last chunk |
| `Multipart.RoundTrip` | web/http/base/HttpMultiPart.cpp:46-247 | parsing a rendering, whatever follows it, ends with the parts stored one after the other |
| `Multipart.DispositionExactly` | web/http/base/HttpMultiPart.cpp:91-101 | after a delimiter line the loop goes on if and only if the disposition keyword is next, in any letter case, and stands still otherwise |
| `Multipart.TypeExactly` | web/http/base/HttpMultiPart.cpp:137-155 | after a disposition line without an empty one, the same for the content type |
| `Multipart.PreambleSticks` | web/http/base/HttpMultiPart.cpp:62-70 | a body in which anything comes before the first delimiter is never parsed to its end |
| `Multipart.OtherBoundarySticks` | web/http/base/HttpMultiPart.cpp:71-90 | nor is one with another boundary |
| `Multipart.ComesBack` | web/http/base/HttpMultiPart.cpp:214-235 | a part is in the result if and only if it is the last field, or the first upload, of its name |
| `Multipart.EveryPartComesBack` | web/http/base/HttpMultiPart.cpp:214-235 | every part comes back byte for byte if and only if no two fields of one name differ and no two uploads of one name do |
| `Multipart.NameReadExactly` | web/http/base/HttpMultiPart.cpp:102-136 | a field's name comes back if and only if it has no quote and no line break and does not end in an equals sign |
| `Multipart.CleanIfFree` | web/http/base/HttpMultiPart.cpp:190-200 | with a boundary free of carriage returns, data is safe if and only if it does not contain the delimiter |
| `Multipart.DataRead` | web/http/base/HttpMultiPart.cpp:182-212 | all of the data is read, and nothing behind it, if and only if the delimiter after it is the first one |
| `Multipart.StepProgress` | web/http/base/HttpMultiPart.cpp:60-246 | a round of the loop advances or changes nothing at all |
| `Multipart.ReadDisposition` | web/http/base/HttpMultiPart.cpp:102-136 | the loop over the disposition line |
| `Multipart.ReadType` | web/http/base/HttpMultiPart.cpp:156-169 | the loop over the content type |
| `Multipart.ReadData` | web/http/base/HttpMultiPart.cpp:182-212 | the loop staged in blocks of 4096 gathers exactly the bytes before the delimiter |
| `Multipart.Round` | web/http/base/HttpMultiPart.cpp:61-245 | one round of the state loop performs the step |
| `Multipart.HttpMultiPart.ParseBody` | web/http/base/HttpMultiPart.cpp:46-247 | the whole loop, or that it would never end |
| `Routes.SplitJoin` | web/http/base/HttpRoute.h:135-151 | segments without a slash come back from their joined path if and only if none but the first and the last is empty |
| `Routes.JoinSplit` | web/http/base/HttpRoute.h:142-150 | no character is lost in splitting |
| `Routes.SplitPath` | web/http/base/HttpRoute.h:135-151 | the loop computes the split |
| `Routes.InsertKeepsShape` | web/http/base/HttpRoute.h:95-111 | each node keeps at most one wild child, the last, and patterns as long as their depth |
| `Routes.RouteIsFound` | web/http/base/HttpRoute.h:113-132 | a path that matches a route of the trie is found |
| `Routes.InsertSound` | web/http/base/HttpRoute.h:95-111 | an insertion keeps stored patterns in line with their paths if and only if no literal falls to a wild child |
| `Routes.SearchIsRight` | web/http/base/HttpRoute.h:77-132 | after any insertions: matching paths are found, what is found has the path's length, and it matches if literals came before wild siblings |
| `Routes.InsertWrites` | web/http/base/HttpRoute.h:95-111 | an insertion writes its pattern and handler at its place and nowhere else, and the nodes it makes on the way have none |
| `Routes.FoundIsLatest` | web/http/base/HttpRoute.h:95-132 | what a search finds is the pattern and the handler of the last insertion that ended at that node |
| `Routes.LateLiteralGoesWrong` | web/http/base/HttpRoute.h:95-132 | in any trie, inserting a pattern with a literal that falls to a wild child makes some search return a pattern that does not match |
| `Routes.RightExactly` | web/http/base/HttpRoute.h:77-132 | after any insertions, searches return matching patterns for every path if and only if every stored pattern is in line with the labels on the way to it |
| `Routes.StaysRightExactly` | web/http/base/HttpRoute.h:77-132 | as long as no literal came after a wild sibling, the next insertion keeps searches right for every path if and only if none of its literals does |
| `Routes.InsertNeat` | web/http/base/HttpRoute.h:95-111 | every insertion keeps siblings distinct and stored patterns equal to the literal labels on their way |
| `Routes.LateLiteralTakesOver` | web/http/base/HttpRoute.h:45-54 | two insertions after which a search returns a pattern that does not match |
| `Routes.ReadParams` | web/http/base/HttpRoute.cpp:35-41 | a parameter is there if and only if some segment of the pattern names it, with the path's segment at the last such place |
| `Routes.Router.AddRouter` | web/http/base/HttpRoute.cpp:12-21 | the method's trie is the one built by all its insertions |
| `Routes.Router.FindRoute` | web/http/base/HttpRoute.cpp:23-47 | the node of the search, with the pattern and handler of the last insertion that ended there; the flag says whether the pattern has a wild segment, and the parameters are those its segments name |
| `Calendar.NextDayIsNextNumber` | web/sqlconn/TmDateTime.cpp:24-38 | the day-number formula counts days of the calendar given by the month lengths |
| `Calendar.NumberToDateAndBack` | web/sqlconn/TmDateTime.cpp:65-89 | every day number converts to a valid date with that number, so the month-overflow correction never fires |
| `Calendar.DateToNumberAndBack` | web/sqlconn/TmDateTime.cpp:24-79 | every valid date is restored from its number |
| `Calendar.WeekdaysAdvance` | web/sqlconn/TmDateTime.cpp:103-103 | the weekday advances by one modulo 7, and 1 January 2000 is a Saturday |
| `Calendar.SplitDays` | web/sqlconn/TmDateTime.cpp:65-79 | the locals of the conversion compute the date |
| `Calendar.DayOfYear` | web/sqlconn/TmDateTime.cpp:91-94 | the loop over the months counts the days since 1 January |
| `Calendar.ToTm` | web/sqlconn/TmDateTime.cpp:61-106 | a valid date with the right number, day of the year and weekday, and the time fields |
| `Calendar.InstantRoundTrip` | web/sqlconn/TmDateTime.cpp:14-22 | date and time are restored, down to the nanosecond, if and only if the instant is not before 2000 or is a midnight |
| `Calendar.BeforeTheEpochTimesShift` | web/sqlconn/TmDateTime.h:32-35 | noon of 31 December 1999 comes back as 1 January 2000 |
| `Calendar.PrintedFormKeeps` | web/sqlconn/TmDateTime.cpp:108-162 | printing an instant and parsing the fields keeps it to the millisecond if and only if it is not before 2000 or has no milliseconds |
| `Calendar.MidnightKeepsDate` | web/sqlconn/TmDateTime.h:128-130 | `Date()` is a midnight that converts to the same date |
| `Calendar.TicksFit` | web/sqlconn/TmDateTime.cpp:16-21 | in the years the constructor accepts the ticks fit 64 bits |

## Left out

- Weak memory, fences, alignment and placement of objects in the queue: atomics are interleaved steps.
- The queue's move construction, destructor, `size_approx` and `max_capacity`, and wrap-around of 64-bit counters.
- The byte count `make_block` asks for: a block has as many slots as were asked for, also where `sizeof(T) * capacity` would pass 2^64.
- The event loop's lock-free build, `quit`, and tasks queued by the loop thread before `loop()` starts.
- HttpParser.HexString2Int: signed overflow, undefined in the original's language, is taken to wrap around.
- HttpParser.HttpRequest.ParseRequestHeader: the keep-alive, accept-encoding, content-type, cookie and session fields derived from the headers are not modelled; none has a part in finding the end of a request.
- HttpParser.HttpRequest.ParseRequestContent: the decoding of a complete body as form, multipart or JSON is not modelled here; the multipart parser has its own model.
- The grammar of the request line, a parameter here.
- Malformed multipart bodies beyond where the loop stands still on them; boundaries and bodies with NUL characters, at which `strncmp` stops.
- Routes.InsertKeepsShape: nodes are values, so that update in place and node addresses are not captured; no node has two parents.
- SkipList.SkipList.InsertElement: `forward` arrays are sequence fields of the nodes, keys are integers, and the lock is not modelled; search, delete and the file operations are declared in the original but not defined.
- Construction order of the log's thread, and messages appended after the last swap before it stops.
- The wall clock of time stamps and the monotonic clock of the timer descriptor are one clock that never runs back.
- Calendar.PrintedFormKeeps: the characters of the printed form and the scanning of them are not modelled, and the years are not limited as `Parse` and the constructor do.
- Cross-thread sends and shutdowns, and the write-complete and high-water callbacks of connections.
- `Buffer::shrink`, which swaps the storage without moving the indices.
- HTTP server glue, servlets, sessions, the chat server, database wrappers, poller, sockets, threads and configuration.
