/**
 What the queue owes its callers: every call is answered for what was asked, only a call that may
 allocate makes a block, and both sides are done within a bounded number of their own steps.
 */
module SpscCalls {
  import opened SpscQueue
  import opened SpscSimulation
  import opened SpscRuns
  import BitTricks

  // ---------------------------------------------------------------- calls and their answers

  datatype EnqueueCall = EnqueueCall(v: Value, grow: bool)

  /** The calls in progress, one a side at most. */
  datatype Calls = Calls(enqueue: Option<EnqueueCall>, dequeue: Option<Kind>)

  /** The calls in progress after a trace, read off its events alone. */
  function InProgress(es: seq<Event>): Calls {
    if es == [] then Calls(None, None)
    else Noted(InProgress(es[..|es| - 1]), es[|es| - 1])
  }

  function Noted(o: Calls, e: Event): Calls {
    match e
    case EnqCall(v, grow) => o.(enqueue := Some(EnqueueCall(v, grow)))
    case Enq(_) => o.(enqueue := None)
    case EnqRefused => o.(enqueue := None)
    case EnqNoMemory => o.(enqueue := None)
    case DeqCall(k) => o.(dequeue := Some(k))
    case Deq(_) => o.(dequeue := None)
    case DeqEmpty => o.(dequeue := None)
    case Peeked(_) => o.(dequeue := None)
    case Tau => o
    case Fault => o
  }

  /**
   A call begins when its side is idle, and its result fits what it asked for: the value passed is
   the one enqueued, only `try_enqueue` is refused, only `enqueue` runs out of memory, and a value is
   removed or looked at as asked.
   */
  predicate Answers(o: Calls, e: Event) {
    match e
    case EnqCall(_, _) => o.enqueue.None?
    case Enq(v) => o.enqueue.Some? && o.enqueue.value.v == v
    case EnqRefused => o.enqueue.Some? && !o.enqueue.value.grow
    case EnqNoMemory => o.enqueue.Some? && o.enqueue.value.grow
    case DeqCall(_) => o.dequeue.None?
    case Deq(_) => o.dequeue == Some(Remove)
    case Peeked(_) => o.dequeue == Some(Peek)
    case DeqEmpty => o.dequeue.Some?
    case Tau => true
    case Fault => true
  }

  /** The producer is serving the call `o`; past the choice to allocate it must have been allowed to. */
  ghost predicate Enqueues(p: Producer, o: Option<EnqueueCall>) {
    match p
    case PIdle => o.None?
    case PLoadTailBlock(v, grow) => o == Some(EnqueueCall(v, grow))
    case PLoadTail(v, grow, _) => o == Some(EnqueueCall(v, grow))
    case PLoadFront(v, grow, _, _) => o == Some(EnqueueCall(v, grow))
    case PLoadNext(v, grow, _) => o == Some(EnqueueCall(v, grow))
    case PLoadFrontBlock(v, grow, _, _) => o == Some(EnqueueCall(v, grow))
    case PAlloc(v, _) => o == Some(EnqueueCall(v, true))
    case _ => o.Some? && o.value.v == p.v
  }

  ghost predicate Dequeues(c: Consumer, o: Option<Kind>) {
    if c.CIdle? then o.None? else o.Some? && Doing(c, o.value)
  }

  lemma {:induction false} ProducerAnswers(s: State, s': State, e: Event, o: Calls)
    requires Enqueues(s.p, o.enqueue) && ProducerNext(s, s', e)
    ensures Answers(o, e) && Enqueues(s'.p, Noted(o, e).enqueue)
    ensures s'.c == s.c && Noted(o, e).dequeue == o.dequeue
  {
    hide ProducerNext, Enqueues, Answers, Noted;
    if Finds(s.p) {
      FindAnswers(s, s', e, o);
    } else if UsesTail(s.p) {
      TailAnswers(s, s', e, o);
    } else if UsesNext(s.p) {
      NextAnswers(s, s', e, o);
    } else {
      NewAnswers(s, s', e, o);
    }
  }

  lemma {:induction false} FindAnswers(s: State, s': State, e: Event, o: Calls)
    requires Enqueues(s.p, o.enqueue) && ProducerNext(s, s', e) && Finds(s.p)
    ensures Answers(o, e) && Enqueues(s'.p, Noted(o, e).enqueue)
    ensures s'.c == s.c && Noted(o, e).dequeue == o.dequeue
  {
    hide Inc;
  }

  lemma {:induction false} TailAnswers(s: State, s': State, e: Event, o: Calls)
    requires Enqueues(s.p, o.enqueue) && ProducerNext(s, s', e) && UsesTail(s.p) && !Finds(s.p)
    ensures Answers(o, e) && Enqueues(s'.p, Noted(o, e).enqueue)
    ensures s'.c == s.c && Noted(o, e).dequeue == o.dequeue
  {
    hide Inc;
  }

  lemma {:induction false} NextAnswers(s: State, s': State, e: Event, o: Calls)
    requires Enqueues(s.p, o.enqueue) && ProducerNext(s, s', e) && UsesNext(s.p)
    ensures Answers(o, e) && Enqueues(s'.p, Noted(o, e).enqueue)
    ensures s'.c == s.c && Noted(o, e).dequeue == o.dequeue
  {
    hide Inc;
  }

  lemma {:induction false} NewAnswers(s: State, s': State, e: Event, o: Calls)
    requires Enqueues(s.p, o.enqueue) && ProducerNext(s, s', e) && !UsesTail(s.p) && !UsesNext(s.p)
    ensures Answers(o, e) && Enqueues(s'.p, Noted(o, e).enqueue)
    ensures s'.c == s.c && Noted(o, e).dequeue == o.dequeue
  {
    hide Inc;
  }

  lemma {:induction false} ConsumerAnswers(s: State, s': State, e: Event, o: Calls)
    requires Dequeues(s.c, o.dequeue) && ConsumerNext(s, s', e)
    ensures Answers(o, e) && Dequeues(s'.c, Noted(o, e).dequeue)
    ensures s'.p == s.p && Noted(o, e).enqueue == o.enqueue
  {
    hide ConsumerNext, Dequeues, Answers, Noted;
    if Early(s.c) { EarlyAnswers(s, s', e, o); } else { LateAnswers(s, s', e, o); }
  }

  lemma {:induction false} EarlyAnswers(s: State, s': State, e: Event, o: Calls)
    requires Dequeues(s.c, o.dequeue) && ConsumerNext(s, s', e) && Early(s.c)
    ensures Answers(o, e) && Dequeues(s'.c, Noted(o, e).dequeue)
    ensures s'.p == s.p && Noted(o, e).enqueue == o.enqueue
  {
    hide Inc;
  }

  lemma {:induction false} LateAnswers(s: State, s': State, e: Event, o: Calls)
    requires Dequeues(s.c, o.dequeue) && ConsumerNext(s, s', e) && !Early(s.c)
    ensures Answers(o, e) && Dequeues(s'.c, Noted(o, e).dequeue)
    ensures s'.p == s.p && Noted(o, e).enqueue == o.enqueue
  {
    hide Inc;
  }

  lemma {:induction false} InitiallyIdle(s: State, size: nat, max: nat)
    requires Initial(s, size, max)
    ensures s.p.PIdle? && s.c.CIdle?
  {}

  lemma {:induction false} RunServes(r: Run, size: nat, max: nat, i: nat)
    requires IsRun(r, size, max) && i <= |r.events|
    ensures var o := InProgress(r.events[..i]);
            && Enqueues(r.states[i].p, o.enqueue) && Dequeues(r.states[i].c, o.dequeue)
            && (i < |r.events| ==> Answers(o, r.events[i]))
  {
    hide Next, Initial, Enqueues, Dequeues, Answers, Noted;
    var o := InProgress(r.events[..i]);
    if i == 0 {
      InitiallyIdle(r.states[0], size, max);
      NothingServed(r.states[0]);
    } else {
      RunServes(r, size, max, i - 1);
      assert r.events[..i][..i - 1] == r.events[..i - 1];
      assert Next(r.states[i - 1], r.states[i - 1 + 1], r.events[i - 1]);
      StepAnswers(r.states[i - 1], r.states[i], r.events[i - 1], InProgress(r.events[..i - 1]));
    }
    if i < |r.events| {
      assert Next(r.states[i], r.states[i + 1], r.events[i]);
      StepAnswers(r.states[i], r.states[i + 1], r.events[i], o);
    }
  }

  lemma {:induction false} NothingServed(s: State)
    requires s.p.PIdle? && s.c.CIdle?
    ensures Enqueues(s.p, None) && Dequeues(s.c, None)
  {}

  lemma {:induction false} StepAnswers(s: State, s': State, e: Event, o: Calls)
    requires Enqueues(s.p, o.enqueue) && Dequeues(s.c, o.dequeue) && Next(s, s', e)
    ensures var o' := Noted(o, e);
            Answers(o, e) && Enqueues(s'.p, o'.enqueue) && Dequeues(s'.c, o'.dequeue)
  {
    hide ProducerNext, ConsumerNext, Enqueues, Dequeues, Answers, Noted;
    if ProducerNext(s, s', e) { ProducerAnswers(s, s', e, o); } else { ConsumerAnswers(s, s', e, o); }
  }

  /** In every run, for any size, every event is an answer to the call in progress. */
  lemma {:induction false} CallsAreAnswered(r: Run, size: nat, max: nat, i: nat)
    requires IsRun(r, size, max) && i < |r.events|
    ensures Answers(InProgress(r.events[..i]), r.events[i])
  {
    hide Enqueues, Dequeues, Answers, Noted, Next, Initial;
    RunServes(r, size, max, i);
  }

  /** After an enqueuing call, and until the next, that call is in progress or has been answered. */
  lemma {:induction false} EnqueueInProgress(es: seq<Event>, i: nat, j: nat)
    requires i < j <= |es| && es[i].EnqCall? && forall m :: i < m < j ==> !es[m].EnqCall?
    ensures var o := InProgress(es[..j]).enqueue; o.None? || o.value == EnqueueCall(es[i].v, es[i].grow)
    decreases j
  {
    assert es[..j][..j - 1] == es[..j - 1];
    if j > i + 1 { EnqueueInProgress(es, i, j - 1); }
  }

  /**
   What an enqueuing call comes to, in a queue of any size: the value enqueued is the one passed; one
   that may allocate is never refused, one that may not never runs out of memory, and makes no block.
   */
  lemma {:induction false} EnqueueComesTo(r: Run, size: nat, max: nat, i: nat, j: nat)
    requires IsRun(r, size, max) && i < j < |r.events| && r.events[i].EnqCall?
    requires forall m :: i < m < j ==> !r.events[m].EnqCall?
    ensures r.events[j].Enq? ==> r.events[j].v == r.events[i].v
    ensures r.events[j].EnqRefused? ==> !r.events[i].grow
    ensures r.events[j].EnqNoMemory? ==> r.events[i].grow
    ensures |r.states[j + 1].blocks| != |r.states[j].blocks| ==>
              r.events[i].grow
  {
    hide Enqueues, Dequeues, Noted, Next, Initial;
    RunServes(r, size, max, j);
    EnqueueInProgress(r.events, i, j);
    assert Next(r.states[j], r.states[j + 1], r.events[j]);
    var o := InProgress(r.events[..j]).enqueue;
    OnlyAllocAdds(r.states[j], r.states[j + 1], r.events[j], o);
  }

  /** But for the allocation, no step changes a block's size. */
  lemma {:induction false} OnlyAllocAdds(s: State, s': State, e: Event, o: Option<EnqueueCall>)
    requires Next(s, s', e) && Enqueues(s.p, o)
    ensures SameSizes(s, s') || (Allocates(s, s') && o.Some? && o.value.grow)
  {
    hide ProducerNext, ConsumerNext, Enqueues;
    if ConsumerNext(s, s', e) {
      if Early(s.c) { EarlySizes(s, s', e); } else { LateSizes(s, s', e); }
    } else if UsesTail(s.p) {
      TailSizes(s, s', e);
    } else if UsesNext(s.p) {
      NextSizes(s, s', e);
    } else if s.p.PAlloc? {
      AllocAdds(s, s', e, o);
    } else {
      NewSizes(s, s', e);
    }
  }

  ghost predicate Allocates(s: State, s': State) {
    var size := if s.largest >= s.maxBlock then s.largest else 2 * s.largest;
    s'.blocks == s.blocks + [EmptyBlock(size)] && s'.largest == size && s'.maxBlock == s.maxBlock
  }

  lemma {:induction false} AllocAdds(s: State, s': State, e: Event, o: Option<EnqueueCall>)
    requires s.p.PAlloc? && ProducerNext(s, s', e) && Enqueues(s.p, o)
    ensures SameSizes(s, s') || Allocates(s, s')
    ensures o.Some? && o.value.grow
  {}

  // ---------------------------------------------------------------- when the queue grows

  /** Where an allocating call goes on to allocate, a non-allocating one would be refused. */
  lemma {:induction false} AllocatesWhereRefused(s: State, s': State, e: Event, l: Layout, f: Fifo, n: nat)
    requires Rel(s, l, f, n) && Next(s, s', e) && s'.p.PAlloc? && !s.p.PAlloc?
    ensures f.most >= n && !e.EnqCall?
  {
    hide Inc, Rel;
    assert s.p.PLoadFrontBlock? && s.p.nx == s.frontBlock && e == Tau;
    var other := s.(p := PLoadFrontBlock(s.p.v, false, s.p.tb, s.p.nx));
    FlagDoesNotMatter(s, other, l, f, n);
    var _ := Simulates(other, l, f, n, other.(p := PIdle), EnqRefused);
  }

  lemma {:induction false} FlagDoesNotMatter(s: State, t: State, l: Layout, f: Fifo, n: nat)
    requires Rel(s, l, f, n) && s.p.PLoadFrontBlock? && t == s.(p := PLoadFrontBlock(s.p.v, false, s.p.tb, s.p.nx))
    ensures Rel(t, l, f, n)
  {}

  lemma {:induction false} AllocatingMeansFull(r: Run, size: nat, max: nat, i: nat, j: nat) returns (k: nat)
    requires Sized(size, max) && IsRun(r, size, max) && i < j <= |r.events| && r.states[j].p.PAlloc?
    requires r.events[i].EnqCall? && forall m :: i < m < j ==> !r.events[m].EnqCall?
    ensures i < k <= j && |Enqueued(r.events[..k])| - |Dequeued(r.events[..k])| >= size
    decreases j
  {
    hide Rel, Stores, Initial, Next;
    assert Next(r.states[j - 1], r.states[j - 1 + 1], r.events[j - 1]);
    CallsDoNotAllocate(r.states[j - 1], r.states[j], r.events[j - 1]);
    if r.states[j - 1].p.PAlloc? {
      k := AllocatingMeansFull(r, size, max, i, j - 1);
    } else {
      var l := RunRelated(r, size, max, j - 1);
      AllocatesWhereRefused(r.states[j - 1], r.states[j], r.events[j - 1], l, After(r.events[..j - 1]), size);
      k := MostMeans(r.events, i, j - 1, size);
      Refinement(r, size, max);
      AcceptedPrefix(r.events, size, k);
      AcceptedIsFifo(r.events[..k], size);
    }
  }

  lemma {:induction false} CallsDoNotAllocate(s: State, s': State, e: Event)
    requires Next(s, s', e) && s'.p.PAlloc?
    ensures !e.EnqCall?
  {
    hide Inc;
  }

  lemma {:induction false} NoMemoryFrom(s: State, s': State, e: Event)
    requires Next(s, s', e) && e.EnqNoMemory?
    ensures s.p.PAlloc?
  {
    hide Inc;
  }

  lemma {:induction false} OnlyThere(s: State, s': State, e: Event)
    requires Next(s, s', e) && |s'.blocks| != |s.blocks|
    ensures s.p.PAlloc?
  {
    hide ProducerNext, ConsumerNext;
    if ConsumerNext(s, s', e) {
      if Early(s.c) { EarlySizes(s, s', e); } else { LateSizes(s, s', e); }
    } else if UsesTail(s.p) {
      TailSizes(s, s', e);
    } else if UsesNext(s.p) {
      NextSizes(s, s', e);
    } else if !s.p.PAlloc? {
      NewSizes(s, s', e);
    }
  }

  /**
   A queue built for `size` elements makes a block, or runs out of memory for one, only if at some
   moment of the call it held at least `size` elements, whether or not it has grown.
   */
  lemma {:induction false} GrowsOnlyWhenFull(r: Run, size: nat, max: nat, i: nat, j: nat) returns (k: nat)
    requires Sized(size, max) && IsRun(r, size, max) && i < j < |r.events|
    requires r.events[i].EnqCall? && forall m :: i < m < j ==> !r.events[m].EnqCall?
    requires |r.states[j + 1].blocks| != |r.states[j].blocks| || r.events[j].EnqNoMemory?
    ensures i < k <= j && |Enqueued(r.events[..k])| - |Dequeued(r.events[..k])| >= size
  {
    hide Next, Initial;
    assert Next(r.states[j], r.states[j + 1], r.events[j]);
    if r.events[j].EnqNoMemory? {
      NoMemoryFrom(r.states[j], r.states[j + 1], r.events[j]);
    } else {
      OnlyThere(r.states[j], r.states[j + 1], r.events[j]);
    }
    k := AllocatingMeansFull(r, size, max, i, j);
  }

  // ---------------------------------------------------------------- how the queue grows

  /** `m` is the size of the largest block. */
  ghost predicate IsLargest(m: nat, blocks: seq<Block>) {
    && (exists i :: 0 <= i < |blocks| && Size(blocks[i]) == m)
    && forall i :: 0 <= i < |blocks| ==> Size(blocks[i]) <= m
  }

  ghost predicate KnowsLargest(s: State, max: nat) {
    IsLargest(s.largest, s.blocks) && s.maxBlock == max
  }

  lemma {:induction false} SameSizesKnown(s: State, s': State, max: nat)
    requires KnowsLargest(s, max) && SameSizes(s, s') && s'.maxBlock == s.maxBlock
    ensures KnowsLargest(s', max)
  {
    var i :| 0 <= i < |s.blocks| && Size(s.blocks[i]) == s.largest;
    assert Size(s'.blocks[i]) == s'.largest;
  }

  lemma {:induction false} AllocationKnown(s: State, s': State, max: nat)
    requires KnowsLargest(s, max) && Allocates(s, s')
    ensures KnowsLargest(s', max)
  {
    assert Size(s'.blocks[|s.blocks|]) == s'.largest;
  }

  lemma {:induction false} MaxBlockStays(s: State, s': State, e: Event)
    requires Next(s, s', e)
    ensures s'.maxBlock == s.maxBlock
  {
    hide Inc;
  }

  lemma {:induction false} InitiallyKnown(s: State, size: nat, max: nat)
    requires Sized(size, max) && Initial(s, size, max)
    ensures KnowsLargest(s, max)
  {
    hide BitTricks.IsPow2, BitTricks.Pow2;
    var c := InitialRounding(s, size, max);
    if c > Twice(max) { EnoughBlocks(c, size, max); }
    assert Size(s.blocks[0]) == s.largest;
  }

  lemma {:induction false} RunKnows(r: Run, size: nat, max: nat, i: nat)
    requires Sized(size, max) && IsRun(r, size, max) && i <= |r.events|
    ensures KnowsLargest(r.states[i], max)
  {
    hide KnowsLargest, Allocates, Next, Initial, Enqueues, Dequeues, SameSizes;
    if i == 0 {
      InitiallyKnown(r.states[0], size, max);
    } else {
      RunKnows(r, size, max, i - 1);
      RunServes(r, size, max, i - 1);
      var s, s', e := r.states[i - 1], r.states[i - 1 + 1], r.events[i - 1];
      assert Next(s, s', e);
      MaxBlockStays(s, s', e);
      OnlyAllocAdds(s, s', e, InProgress(r.events[..i - 1]).enqueue);
      if SameSizes(s, s') { SameSizesKnown(s, s', max); } else { AllocationKnown(s, s', max); }
    }
  }

  /** A new block is twice as large as the largest so far, and as large once that has reached the limit. */
  lemma {:induction false} GrowsByDoubling(r: Run, size: nat, max: nat, i: nat) returns (m: nat)
    requires Sized(size, max) && IsRun(r, size, max) && i < |r.events|
    ensures IsLargest(m, r.states[i].blocks)
    ensures var now, next := r.states[i].blocks, r.states[i + 1].blocks;
            |next| != |now| ==> next == now + [EmptyBlock(if m >= max then m else 2 * m)]
  {
    hide IsLargest, Next, Initial, Enqueues, Dequeues;
    RunKnows(r, size, max, i);
    RunServes(r, size, max, i);
    assert Next(r.states[i], r.states[i + 1], r.events[i]);
    OnlyAllocAdds(r.states[i], r.states[i + 1], r.events[i], InProgress(r.events[..i]).enqueue);
    m := r.states[i].largest;
  }

  // ---------------------------------------------------------------- nobody waits

  /** An upper bound on the producer's steps until its call returns. */
  function EnqueueSteps(p: Producer): nat {
    match p
    case PIdle => 0
    case PLoadTailBlock(_, _) => 11
    case PLoadTail(_, _, _) => 10
    case PLoadFront(_, _, _, _) => 9
    case PLoadNext(_, _, _) => 8
    case PLoadFrontBlock(_, _, _, _) => 7
    case PReloadNext(_, _) => 6
    case PLoadNextFront(_, _) => 5
    case PLoadNextTail(_, _, _) => 4
    case PConstructNext(_, _, _) => 3
    case PStoreNextTail(_, _, _) => 2
    case PAlloc(_, _) => 6
    case PConstructNew(_, _, _) => 5
    case PStoreNewTail(_, _, _) => 4
    case PLinkNew(_, _, _) => 3
    case PSplice(_, _, _) => 2
    case PStoreTailBlock(_, _) => 1
    case PConstruct(_, _, _) => 2
    case PStoreTail(_, _, _) => 1
  }

  function DequeueSteps(c: Consumer): nat {
    match c
    case CIdle => 0
    case CLoadFrontBlock(_) => 13
    case CLoadFront(_, _, _) => 12
    case CLoadTail(_, _, _) => 11
    case CLoadTailBlock(_, _) => 10
    case CReloadFrontBlock(_) => 9
    case CReloadTail(_, _) => 8
    case CReloadFront(_, _, _) => 7
    case CLoadNext(_, _) => 6
    case CLoadNextFront(_, _) => 5
    case CLoadNextTail(_, _, _) => 4
    case CStoreFrontBlock(_, _) => 3
    case CTake(_, _) => 2
    case CStoreFront(_, _, _) => 1
    case CLook(_, _) => 1
  }

  /** A step inside a call comes closer to its end, whatever the other side does. */
  lemma {:induction false} ProducerAdvances(s: State, s': State, e: Event)
    requires !s.p.PIdle? && ProducerNext(s, s', e) && e != Fault
    ensures EnqueueSteps(s'.p) < EnqueueSteps(s.p) && s'.c == s.c
  {
    hide ProducerNext, EnqueueSteps;
    if UsesTail(s.p) {
      TailAdvances(s, s', e);
    } else if UsesNext(s.p) {
      NextAdvances(s, s', e);
    } else {
      NewAdvances(s, s', e);
    }
  }

  lemma {:induction false} TailAdvances(s: State, s': State, e: Event)
    requires !s.p.PIdle? && UsesTail(s.p) && ProducerNext(s, s', e) && e != Fault
    ensures EnqueueSteps(s'.p) < EnqueueSteps(s.p) && s'.c == s.c
  {
    hide Inc;
  }

  lemma {:induction false} NextAdvances(s: State, s': State, e: Event)
    requires UsesNext(s.p) && ProducerNext(s, s', e) && e != Fault
    ensures EnqueueSteps(s'.p) < EnqueueSteps(s.p) && s'.c == s.c
  {
    hide Inc;
  }

  lemma {:induction false} NewAdvances(s: State, s': State, e: Event)
    requires !UsesTail(s.p) && !UsesNext(s.p) && ProducerNext(s, s', e) && e != Fault
    ensures EnqueueSteps(s'.p) < EnqueueSteps(s.p) && s'.c == s.c
  {
    hide Inc;
  }

  lemma {:induction false} ConsumerAdvances(s: State, s': State, e: Event)
    requires !s.c.CIdle? && ConsumerNext(s, s', e) && e != Fault
    ensures DequeueSteps(s'.c) < DequeueSteps(s.c) && s'.p == s.p
  {
    hide Inc;
  }

  /** How many of the steps from the `i`-th up to the `j`-th were the producer's, and the consumer's. */
  function ProducerSteps(r: Run, i: nat, j: nat): nat
    requires i <= j < |r.states|
  {
    if i == j then 0
    else ProducerSteps(r, i, j - 1) + if r.states[j].p != r.states[j - 1].p then 1 else 0
  }

  function ConsumerSteps(r: Run, i: nat, j: nat): nat
    requires i <= j < |r.states|
  {
    if i == j then 0
    else ConsumerSteps(r, i, j - 1) + if r.states[j].c != r.states[j - 1].c then 1 else 0
  }

  lemma {:induction false} BothAdvance(s: State, s': State, e: Event)
    requires Next(s, s', e) && e != Fault
    ensures s'.p == s.p || s.p.PIdle? || EnqueueSteps(s'.p) < EnqueueSteps(s.p)
    ensures s'.c == s.c || s.c.CIdle? || DequeueSteps(s'.c) < DequeueSteps(s.c)
  {
    hide ProducerNext, ConsumerNext, EnqueueSteps, DequeueSteps;
    if ProducerNext(s, s', e) {
      if s.p.PIdle? { CallKeepsConsumer(s, s', e); } else { ProducerAdvances(s, s', e); }
    } else if s.c.CIdle? {
      CallKeepsProducer(s, s', e);
    } else {
      ConsumerAdvances(s, s', e);
    }
  }

  lemma {:induction false} CallKeepsConsumer(s: State, s': State, e: Event)
    requires s.p.PIdle? && ProducerNext(s, s', e)
    ensures s'.c == s.c
  {}

  lemma {:induction false} CallKeepsProducer(s: State, s': State, e: Event)
    requires s.c.CIdle? && ConsumerNext(s, s', e)
    ensures s'.p == s.p
  {}

  /**
   Both sides are wait-free but for the allocator: while a call is in progress its side has taken at
   most ten steps more (twelve for the consumer), however many the other side has taken meanwhile.
   */
  lemma {:induction false} EnqueueIsWaitFree(r: Run, size: nat, max: nat, i: nat, j: nat)
    requires Sized(size, max) && IsRun(r, size, max) && i < j <= |r.events| && r.events[i].EnqCall?
    requires forall m :: i < m <= j ==> !r.states[m].p.PIdle?
    ensures ProducerSteps(r, i + 1, j) + EnqueueSteps(r.states[j].p) <= 11
    ensures ProducerSteps(r, i + 1, j) <= 10
    decreases j
  {
    hide Initial, Sized, Next;
    assert Next(r.states[j - 1], r.states[j - 1 + 1], r.events[j - 1]);
    if j == i + 1 {
      EnqueueBegins(r.states[i], r.states[i + 1], r.events[i]);
    } else {
      EnqueueIsWaitFree(r, size, max, i, j - 1);
      NoFault(r, size, max, j - 1);
      BothAdvance(r.states[j - 1], r.states[j], r.events[j - 1]);
    }
    assert !r.states[j].p.PIdle?;
  }

  lemma {:induction false} EnqueueBegins(s: State, s': State, e: Event)
    requires Next(s, s', e) && e.EnqCall?
    ensures EnqueueSteps(s'.p) == 11
  {
    hide Inc;
  }

  lemma {:induction false} DequeueBegins(s: State, s': State, e: Event)
    requires Next(s, s', e) && e.DeqCall?
    ensures DequeueSteps(s'.c) == 13
  {
    hide Inc;
  }

  lemma {:induction false} DequeueIsWaitFree(r: Run, size: nat, max: nat, i: nat, j: nat)
    requires Sized(size, max) && IsRun(r, size, max) && i < j <= |r.events| && r.events[i].DeqCall?
    requires forall m :: i < m <= j ==> !r.states[m].c.CIdle?
    ensures ConsumerSteps(r, i + 1, j) + DequeueSteps(r.states[j].c) <= 13
    ensures ConsumerSteps(r, i + 1, j) <= 12
    decreases j
  {
    hide Initial, Sized, Next;
    assert Next(r.states[j - 1], r.states[j - 1 + 1], r.events[j - 1]);
    if j == i + 1 {
      DequeueBegins(r.states[i], r.states[i + 1], r.events[i]);
    } else {
      DequeueIsWaitFree(r, size, max, i, j - 1);
      NoFault(r, size, max, j - 1);
      BothAdvance(r.states[j - 1], r.states[j], r.events[j - 1]);
    }
    assert !r.states[j].c.CIdle?;
  }

  /** The run and one more step. */
  function Longer(r: Run, s: State, e: Event): Run {
    Run(r.states + [s], r.events + [e])
  }

  lemma {:induction false} LongerRun(r: Run, size: nat, max: nat, s: State, e: Event)
    requires IsRun(r, size, max) && Next(r.states[|r.events|], s, e)
    ensures IsRun(Longer(r, s, e), size, max)
  {
    hide Next, Initial;
    var x := Longer(r, s, e);
    forall i | 0 <= i < |x.events| ensures Next(x.states[i], x.states[i + 1], x.events[i]) {
      if i < |r.events| { assert Next(r.states[i], r.states[i + 1], r.events[i]); }
    }
  }

  /**
   Nobody is ever blocked: at the end of any run, a side inside a call can take its next step, without
   a fault and, if the allocator has memory, without running out of it.
   */
  lemma {:induction false} NobodyIsBlocked(r: Run, size: nat, max: nat)
    requires Sized(size, max) && IsRun(r, size, max)
    ensures var s := r.states[|r.events|];
            && (!s.p.PIdle? ==> var (t, e) := ProducerStep(s);
                  IsRun(Longer(r, t, e), size, max) && e != Fault && e != EnqNoMemory && t.p != s.p)
            && (!s.c.CIdle? ==> var (t, e) := ConsumerStep(s);
                  IsRun(Longer(r, t, e), size, max) && e != Fault && t.c != s.c)
  {
    hide Initial, Sized, EnqueueSteps, DequeueSteps, ProducerStep, ConsumerStep;
    var s, n := r.states[|r.events|], |r.events|;
    if !s.p.PIdle? {
      var (t, e) := ProducerStep(s);
      LongerRun(r, size, max, t, e);
      NoFault(Longer(r, t, e), size, max, n);
      ProducerAdvances(s, t, e);
      MemoryIsThere(s);
    }
    if !s.c.CIdle? {
      var (t, e) := ConsumerStep(s);
      LongerRun(r, size, max, t, e);
      NoFault(Longer(r, t, e), size, max, n);
      ConsumerAdvances(s, t, e);
    }
  }

  lemma {:induction false} MemoryIsThere(s: State)
    requires !s.p.PIdle?
    ensures ProducerStep(s).1 != EnqNoMemory
  {
    hide Inc;
  }
}
