/**
 The event loop's task queue and its wakeup descriptor, in the build that guards the queue with a
 mutex: one loop thread, any number of other threads, one step per critical section or system call.
 */
module EventLoop {

  type Task = nat
  type Thread = nat

  /** The largest value an eventfd counter holds; a write beyond it fails and is only logged. */
  const COUNTER_MAX: nat := 0xFFFF_FFFF_FFFF_FFFE

  /** Where the loop thread is. */
  datatype Pc =
    | Polling                                   // in poll, or about to call it
    | Handling(woken: bool)                     // dispatching channels; `woken`: the wakeup channel is still to be read
    | Entering                                  // doPendingTask, before its flag is raised
    | Swapping                                  // before the swap
    | Calling(functors: seq<Task>)              // tasks swapped out and not yet called
    | Leaving                                   // before the flag is lowered
    | Checking(k: Pc)                           // inside queueInLoop, pushed, before the test of the flag

  datatype State = State(
    pc: Pc,
    flag: bool,              // _callPendingTasks
    pending: seq<Task>,      // _pendingTasks
    waking: set<Thread>,     // other threads that have pushed and not yet written to the wakeup descriptor
    counter: nat,            // the wakeup descriptor
    queued: seq<Task>,       // every task ever queued, in order
    executed: seq<Task>      // every queued task called, in order
  )

  datatype Event =
    | Push(t: Thread, task: Task)    // another thread, in queueInLoop's critical section
    | Wake(u: Thread)                // that thread's wakeup()
    | PollReturns                    // an event, or the time-out
    | ReadWakeup                     // handleWakeUp
    | Dispatched                     // all active channels handled
    | Raise
    | Swap
    | Call
    | CallsDone
    | Lower
    | LoopPush(own: Task)            // the loop thread's own queueInLoop, from a handler or a task
    | LoopCheck

  const START := State(Polling, false, [], {}, 0, [], [])

  function Bumped(counter: nat): nat {
    if counter < COUNTER_MAX then counter + 1 else counter
  }

  predicate Enabled(s: State, e: Event) {
    match e
    case Push(t, _) => t !in s.waking
    case Wake(t) => t in s.waking
    case PollReturns => s.pc.Polling?
    case ReadWakeup => s.pc.Handling? && s.pc.woken
    case Dispatched => s.pc.Handling? && !s.pc.woken
    case Raise => s.pc.Entering?
    case Swap => s.pc.Swapping?
    case Call => s.pc.Calling? && s.pc.functors != []
    case CallsDone => s.pc.Calling? && s.pc.functors == []
    case Lower => s.pc.Leaving?
    case LoopPush(_) => s.pc.Handling? || s.pc.Calling?
    case LoopCheck => s.pc.Checking?
  }

  function Step(s: State, e: Event): State
    requires Enabled(s, e)
  {
    match e
    case Push(t, task) => s.(pending := s.pending + [task], queued := s.queued + [task], waking := s.waking + {t})
    case Wake(t) => s.(waking := s.waking - {t}, counter := Bumped(s.counter))
    case PollReturns => s.(pc := Handling(s.counter > 0))
    case ReadWakeup => s.(pc := Handling(false), counter := 0)
    case Dispatched => s.(pc := Entering)
    case Raise => s.(pc := Swapping, flag := true)
    case Swap => s.(pc := Calling(s.pending), pending := [])
    case Call => s.(pc := Calling(s.pc.functors[1..]), executed := s.executed + [s.pc.functors[0]])
    case CallsDone => s.(pc := Leaving)
    case Lower => s.(pc := Polling, flag := false)
    case LoopPush(task) => s.(pc := Checking(s.pc), pending := s.pending + [task], queued := s.queued + [task])
    case LoopCheck => s.(pc := s.pc.k, counter := if s.flag then Bumped(s.counter) else s.counter)
  }

  ghost predicate IsRun(s: State, es: seq<Event>)
    decreases |es|
  {
    es == [] || (Enabled(s, es[0]) && IsRun(Step(s, es[0]), es[1..]))
  }

  ghost function After(s: State, es: seq<Event>): State
    requires IsRun(s, es)
    decreases |es|
  {
    if es == [] then s else After(Step(s, es[0]), es[1..])
  }

  // ---------------------------------------------------------------- the invariant

  /** The tasks swapped out and not yet called. */
  function Out(pc: Pc): seq<Task> {
    match pc
    case Calling(functors) => functors
    case Checking(Calling(functors)) => functors
    case _ => []
  }

  predicate FlagUp(pc: Pc) {
    match pc
    case Polling | Handling(_) | Entering => false
    case Swapping | Calling(_) | Leaving => true
    case Checking(k) => k.Calling?
  }

  /** A swap comes before the next poll. */
  predicate WillSwap(pc: Pc) {
    match pc
    case Handling(_) | Entering | Swapping => true
    case Checking(k) => k.Handling?
    case _ => false
  }

  /** Someone has raised the wakeup counter or is about to. */
  predicate WakeupComing(s: State) {
    s.counter > 0 || s.waking != {} || (s.pc.Checking? && s.flag)
  }

  /** Tasks keep their order. */
  ghost predicate InOrder(s: State) {
    s.executed + Out(s.pc) + s.pending == s.queued
  }

  /** The flag follows the program counter, and a pending task has its swap or its wakeup to come. */
  ghost predicate Promised(s: State) {
    && (s.pc.Checking? ==> s.pc.k.Handling? || s.pc.k.Calling?)
    && s.flag == FlagUp(s.pc)
    && (s.pending == [] || WillSwap(s.pc) || WakeupComing(s))
  }

  ghost predicate Inv(s: State) {
    InOrder(s) && Promised(s)
  }

  lemma {:induction false} StepKeepsOrder(s: State, e: Event)
    requires InOrder(s) && Promised(s) && Enabled(s, e)
    ensures InOrder(Step(s, e))
  {
    var t := Step(s, e);
    match e
    case Push(_, task) => Grows(s.executed, Out(s.pc), s.pending, task);
    case LoopPush(task) => Grows(s.executed, Out(s.pc), s.pending, task);
    case Call => Moves(s.executed, s.pc.functors, s.pending);
    case Swap => assert s.executed + [] + s.pending == s.executed + s.pending + [];
    case _ =>
  }

  lemma {:induction false} Grows(a: seq<Task>, b: seq<Task>, c: seq<Task>, task: Task)
    ensures a + b + (c + [task]) == a + b + c + [task]
  {}

  lemma {:induction false} Moves(a: seq<Task>, b: seq<Task>, c: seq<Task>)
    requires b != []
    ensures a + [b[0]] + b[1..] + c == a + b + c
  {
    assert b == [b[0]] + b[1..];
  }

  lemma {:induction false} StepKeepsPromise(s: State, e: Event)
    requires Promised(s) && Enabled(s, e)
    ensures Promised(Step(s, e))
  {}

  lemma {:induction false} StepKeepsInv(s: State, e: Event)
    requires Inv(s) && Enabled(s, e)
    ensures Inv(Step(s, e))
  {
    StepKeepsOrder(s, e);
    StepKeepsPromise(s, e);
  }

  lemma {:induction false} RunKeepsInv(s: State, es: seq<Event>)
    requires Inv(s) && IsRun(s, es)
    ensures Inv(After(s, es))
    decreases |es|
  {
    if es != [] {
      StepKeepsInv(s, es[0]);
      RunKeepsInv(Step(s, es[0]), es[1..]);
    }
  }

  // ---------------------------------------------------------------- what holds over every run

  /** The tasks handed to `queueInLoop` by all threads, in order. */
  function QueuedOf(es: seq<Event>): seq<Task> {
    if es == [] then [] else Queues(es[0]) + QueuedOf(es[1..])
  }

  function Queues(e: Event): seq<Task> {
    match e
    case Push(_, task) => [task]
    case LoopPush(task) => [task]
    case _ => []
  }

  lemma {:induction false} RunQueues(s: State, es: seq<Event>)
    requires IsRun(s, es)
    ensures After(s, es).queued == s.queued + QueuedOf(es)
    decreases |es|
  {
    if es != [] {
      assert Step(s, es[0]).queued == s.queued + Queues(es[0]);
      hide Step, Enabled, Queues;
      RunQueues(Step(s, es[0]), es[1..]);
    }
  }

  /** Tasks are called in queue order, none twice, none skipped; those not called yet are still held. */
  lemma {:induction false} TasksInOrder(es: seq<Event>)
    requires IsRun(START, es)
    ensures var s := After(START, es);
            s.executed + Out(s.pc) + s.pending == QueuedOf(es) && s.executed <= QueuedOf(es)
  {
    RunKeepsInv(START, es);
    RunQueues(START, es);
    hide IsRun, After, QueuedOf, Out, Promised;
    var s := After(START, es);
    NothingQueued(QueuedOf(es));
    FirstOfThree(s.executed, Out(s.pc), s.pending);
  }

  lemma {:induction false} NothingQueued(later: seq<Task>)
    ensures START.queued + later == later
  {}

  lemma {:induction false} FirstOfThree(a: seq<Task>, b: seq<Task>, c: seq<Task>)
    ensures a <= a + b + c
  {}

  /** The loop is never in poll with a task pending and no wakeup on its way. */
  lemma {:induction false} NeverStuck(es: seq<Event>)
    requires IsRun(START, es)
    ensures var s := After(START, es);
            s.pc.Polling? && s.pending != [] ==> s.counter > 0 || s.waking != {}
  {
    RunKeepsInv(START, es);
  }

  // ---------------------------------------------------------------- progress

  /** Steps of the loop thread in which nothing new is queued, with poll only returning when it must. */
  predicate LoopStep(s: State, e: Event) {
    !e.Push? && !e.Wake? && !e.LoopPush? && (e.PollReturns? ==> s.counter > 0)
  }

  ghost predicate LoopRun(s: State, es: seq<Event>)
    decreases |es|
  {
    es == [] || (Enabled(s, es[0]) && LoopStep(s, es[0]) && LoopRun(Step(s, es[0]), es[1..]))
  }

  /** How many loop steps remain until every task queued so far has been called. */
  function Remaining(s: State): nat {
    var again := if s.pending == [] then 0 else 9 + |s.pending|;
    match s.pc
    case Polling => again
    case Handling(woken) => 6 + |s.pending| + (if woken then 1 else 0)
    case Entering => 5 + |s.pending|
    case Swapping => 4 + |s.pending|
    case Calling(functors) => 3 + |functors| + again
    case Leaving => 1 + again
    case Checking(Calling(functors)) => 4 + |functors| + again
    case Checking(_) => 8 + |s.pending|
  }

  /** The loop thread's next step. */
  function Next(s: State): Event {
    match s.pc
    case Polling => PollReturns
    case Handling(woken) => if woken then ReadWakeup else Dispatched
    case Entering => Raise
    case Swapping => Swap
    case Calling(functors) => if functors != [] then Call else CallsDone
    case Leaving => Lower
    case Checking(_) => LoopCheck
  }

  lemma {:induction false} NextMakesProgress(s: State)
    requires Inv(s) && s.waking == {} && Remaining(s) > 0
    ensures Enabled(s, Next(s)) && LoopStep(s, Next(s))
    ensures Remaining(Step(s, Next(s))) < Remaining(s)
    ensures Step(s, Next(s)).waking == {} && Step(s, Next(s)).queued == s.queued
  {}

  /**
   From every reachable state in which no other thread is inside queueInLoop, the loop thread by
   itself, without waiting for the time-out, goes on to call every task queued so far.
   */
  lemma {:induction false} EveryTaskIsCalled(s: State) returns (es: seq<Event>)
    requires Inv(s) && s.waking == {}
    ensures LoopRun(s, es) && IsRun(s, es) && After(s, es).executed == s.queued
    decreases Remaining(s)
  {
    if Remaining(s) == 0 {
      es := [];
    } else {
      NextMakesProgress(s);
      StepKeepsInv(s, Next(s));
      var rest := EveryTaskIsCalled(Step(s, Next(s)));
      es := [Next(s)] + rest;
      assert es[1..] == rest;
    }
  }

  /** The loop thread has no choice. */
  lemma {:induction false} LoopStepIsNext(s: State, e: Event)
    requires Enabled(s, e) && LoopStep(s, e)
    ensures e == Next(s)
  {}

  /** Once every task is called, that stays so. */
  lemma {:induction false} LoopKeepsAllCalled(s: State, e: Event)
    requires InOrder(s) && Enabled(s, e) && LoopStep(s, e) && s.executed == s.queued
    ensures var t := Step(s, e); t.executed == t.queued == s.queued && t.waking == s.waking
  {
    assert |s.executed| + |Out(s.pc)| + |s.pending| == |s.queued|;
  }

  lemma {:induction false} NoneRemaining(s: State)
    requires Inv(s) && Remaining(s) == 0
    ensures s.executed == s.queued
  {}

  /**
   And so does every run of the loop thread: whenever it has taken as many steps as remain, every
   task queued before them has been called.
   */
  lemma {:induction false} EveryLoopRunCalls(s: State, es: seq<Event>)
    requires Inv(s) && s.waking == {} && LoopRun(s, es) && (|es| >= Remaining(s) || s.executed == s.queued)
    ensures IsRun(s, es) && After(s, es).executed == s.queued
    decreases |es|
  {
    if Remaining(s) == 0 {
      NoneRemaining(s);
    }
    if es != [] {
      var e := es[0];
      LoopStepIsNext(s, e);
      StepKeepsInv(s, e);
      if s.executed == s.queued {
        LoopKeepsAllCalled(s, e);
      } else {
        NextMakesProgress(s);
      }
      hide Inv, Remaining, Next, LoopStep;
      EveryLoopRunCalls(Step(s, e), es[1..]);
    }
  }

  /** How many loop steps remain until the loop rests in poll. */
  function StepsToRest(s: State): nat {
    var again := if s.counter > 0 then 7 + |s.pending| else 0;
    var later := if s.counter > 0 then 7 else 0;
    match s.pc
    case Polling => again
    case Handling(woken) => if woken then 6 + |s.pending| else 5 + |s.pending| + later
    case Entering => 4 + |s.pending| + later
    case Swapping => 3 + |s.pending| + later
    case Calling(functors) => 2 + |functors| + again
    case Leaving => 1 + again
    case Checking(Calling(functors)) => 10 + |functors| + |s.pending|
    case Checking(Handling(true)) => 7 + |s.pending|
    case Checking(_) => 6 + |s.pending| + later
  }

  lemma {:induction false} NextNearsRest(s: State, e: Event)
    requires Inv(s) && s.waking == {} && Enabled(s, e) && LoopStep(s, e)
    ensures StepsToRest(Step(s, e)) < StepsToRest(s) && Step(s, e).waking == {}
  {
    hide InOrder;
  }

  lemma {:induction false} RestIsNear(s: State)
    requires Inv(s)
    ensures StepsToRest(s) <= 13 + |s.pending| + |Out(s.pc)|
  {
    hide InOrder;
  }

  /**
   The loop does not spin: with nothing new coming, every run of it is over after as many steps as it
   has tasks and thirteen more, and at the end of the longest the counter is read and every task called.
   */
  lemma {:induction false} LoopComesToRest(s: State, es: seq<Event>)
    requires Inv(s) && s.waking == {} && LoopRun(s, es)
    ensures IsRun(s, es) && |es| <= StepsToRest(s) <= 13 + |s.pending| + |Out(s.pc)|
    ensures var t := After(s, es);
            && (|es| == StepsToRest(s) ==> t.pc.Polling? && t.counter == 0 && t.executed == t.queued)
            && (t.pc.Polling? && t.counter == 0 ==> t.executed == t.queued)
    decreases |es|
  {
    RestIsNear(s);
    if es == [] {
      if StepsToRest(s) == 0 || (s.pc.Polling? && s.counter == 0) { NoneRemaining(s); }
    } else {
      NextNearsRest(s, es[0]);
      StepKeepsInv(s, es[0]);
      hide Inv, Step, StepsToRest;
      LoopComesToRest(Step(s, es[0]), es[1..]);
    }
  }
}
