/**
 What the blocking queue owes its callers: which calls may fail and what that says about the queue,
 what a peek shows, that a timed call has waited, and that an element in the queue is received.
 */
module BlockingCalls {
  import opened BlockingQueue
  import Q = SpscQueue
  import S = Semaphore
  import R = SpscRuns
  import Sim = SpscSimulation
  import C = SpscCalls

  // ---------------------------------------------------------------- calls and their answers

  datatype Request = Take(call: Call) | Front

  /** The calls in progress, one a side at most. */
  datatype Calls = Calls(enqueue: Q.Option<C.EnqueueCall>, request: Q.Option<Request>)

  /** Read off the events alone. */
  function InProgress(es: seq<Event>): Calls {
    if es == [] then Calls(Q.None, Q.None) else Noted(InProgress(es[..|es| - 1]), es[|es| - 1])
  }

  function Noted(o: Calls, e: Event): Calls {
    match e
    case EnqCall(v, grow) => o.(enqueue := Q.Some(C.EnqueueCall(v, grow)))
    case EnqTrue => o.(enqueue := Q.None)
    case EnqFalse => o.(enqueue := Q.None)
    case DeqCall(call) => o.(request := Q.Some(Take(call)))
    case PeekCall => o.(request := Q.Some(Front))
    case Deq(_) => o.(request := Q.None)
    case DeqFalse => o.(request := Q.None)
    case PeekResult(_) => o.(request := Q.None)
    case Tau => o
    case Fault => o
  }

  /** One call a side at a time; `wait_dequeue` never returns without an element. */
  predicate Answers(o: Calls, e: Event) {
    match e
    case EnqCall(_, _) => o.enqueue.None?
    case EnqTrue => o.enqueue.Some?
    case EnqFalse => o.enqueue.Some?
    case DeqCall(_) => o.request.None?
    case PeekCall => o.request.None?
    case Deq(_) => o.request.Some? && o.request.value.Take?
    case DeqFalse => o.request.Some? && o.request.value.Take? && o.request.value.call.Once?
    case PeekResult(_) => o.request == Q.Some(Front)
    case Tau => true
    case Fault => true
  }

  /** The producer's side is serving the call in progress. */
  ghost predicate Offers(b: State, o: Q.Option<C.EnqueueCall>) {
    if b.p.PNone? then o.None? else o.Some? && (b.p.PInner? ==> C.Enqueues(b.q.p, o))
  }

  ghost predicate Asks(b: State, o: Q.Option<Request>) {
    match b.c
    case CNone => o.None?
    case CWait(call) => o == Q.Some(Take(call)) && S.Waits(b.s.c, S.Some(ModeOf(call)))
    case CInner => o.Some? && o.value.Take?
    case CPeek => o == Q.Some(Front)
  }

  /** The enqueue calls that have returned true. */
  function Accepted(es: seq<Event>): nat {
    if es == [] then 0 else Accepted(es[..|es| - 1]) + if es[|es| - 1].EnqTrue? then 1 else 0
  }

  /** After the first `k` events, in the consumer's call, every element whose enqueue had returned was received. */
  ghost predicate EmptyAt(es: seq<Event>, k: nat) {
    && k <= |es| && Accepted(es[..k]) <= |Received(es[..k])|
    && forall m :: k <= m < |es| ==> !es[m].DeqCall? && !es[m].PeekCall?
  }

  /** After the first `k` events, in the call of the producer, there were at least `n` elements in the queue. */
  ghost predicate FullAt(es: seq<Event>, k: nat, n: nat) {
    && k <= |es| && Accepted(es[..k]) >= |Received(es[..k])| + n
    && forall m :: k <= m < |es| ==> !es[m].EnqCall?
  }

  /** What the events tell of a state: the elements in the queue, and what the calls in progress have seen. */
  ghost predicate Told(es: seq<Event>, b: State, g: Ghost) {
    && |Received(es)| + |g.f.q| == Accepted(es) + (if b.p.PSignal? then 1 else 0)
    && (b.c.CWait? && g.t.sawNone ==> exists k: nat :: EmptyAt(es, k))
    && (b.c.CPeek? && g.f.sawEmpty ==> exists k: nat :: EmptyAt(es, k))
    && (b.p.PInner? ==> exists k: nat :: FullAt(es, k, g.f.most))
    && Offers(b, InProgress(es).enqueue) && Asks(b, InProgress(es).request)
  }

  lemma {:induction false} OneMore(es: seq<Event>, e: Event)
    ensures Accepted(es + [e]) == Accepted(es) + if e.EnqTrue? then 1 else 0
    ensures Received(es + [e]) == Received(es) + if e.Deq? then [e.v] else []
    ensures InProgress(es + [e]) == Noted(InProgress(es), e)
  {
    assert (es + [e])[..|es|] == es;
  }

  lemma {:induction false} EmptyStays(es: seq<Event>, e: Event)
    requires exists k: nat :: EmptyAt(es, k)
    requires !e.DeqCall? && !e.PeekCall?
    ensures exists k: nat :: EmptyAt(es + [e], k)
  {
    var k: nat :| EmptyAt(es, k);
    assert (es + [e])[..k] == es[..k];
    assert EmptyAt(es + [e], k);
  }

  lemma {:induction false} FullStays(es: seq<Event>, e: Event, n: nat)
    requires exists k: nat :: FullAt(es, k, n)
    requires !e.EnqCall?
    ensures exists k: nat :: FullAt(es + [e], k, n)
  {
    var k: nat :| FullAt(es, k, n);
    assert (es + [e])[..k] == es[..k];
    assert FullAt(es + [e], k, n);
  }

  lemma {:induction false} Now(es: seq<Event>, n: nat)
    ensures Accepted(es) <= |Received(es)| ==> exists k: nat :: EmptyAt(es, k)
    ensures Accepted(es) >= |Received(es)| + n ==> exists k: nat :: FullAt(es, k, n)
  {
    assert es[..|es|] == es;
    if Accepted(es) <= |Received(es)| { assert EmptyAt(es, |es|); }
    if Accepted(es) >= |Received(es)| + n { assert FullAt(es, |es|, n); }
  }

  // ---------------------------------------------------------------- the steps serve the calls

  lemma {:induction false} ProducerServes(b: State, g: Ghost, n: nat, b': State, e: Event, o: Calls)
    requires Inv(b, g, n) && ProducerNext(b, b', e) && Offers(b, o.enqueue)
    ensures Answers(o, e) && Offers(b', Noted(o, e).enqueue)
    ensures e.EnqFalse? && b.q.p.PAlloc? ==> o.enqueue.value.grow
    ensures e.EnqFalse? && !b.q.p.PAlloc? ==> !o.enqueue.value.grow
    ensures Noted(o, e).request == o.request && b'.c == b.c && b'.s.c == b.s.c
  {
    hide Q.Rel, S.Inv, C.Enqueues, Q.ProducerNext, S.SignallerNext;
    match b.p
    case PNone =>
      var qe := Q.EnqCall(e.v, e.grow);
      IdleServes(b.q.p);
      C.ProducerAnswers(b.q, b'.q, qe, C.Calls(Q.None, Q.None));
    case PInner =>
      var qe: Q.Event, q': Q.State :| Q.ProducerNext(b.q, q', qe) && InnerEnqueue(b, b', e, qe, q');
      EnqueueProceeds(b.q, q', qe);
      C.ProducerAnswers(b.q, q', qe, C.Calls(o.enqueue, Q.None));
      RefusedFrom(b.q, q', qe, o.enqueue);
    case PSignal =>
      SignallerKeepsWaiter();
  }

  lemma {:induction false} IdleServes(p: Q.Producer)
    requires p.PIdle?
    ensures C.Enqueues(p, Q.None)
  {}

  lemma {:induction false} RefusedFrom(q: Q.State, q': Q.State, qe: Q.Event, o: Q.Option<C.EnqueueCall>)
    requires Q.ProducerNext(q, q', qe) && !q.p.PIdle? && C.Enqueues(q.p, o)
    ensures qe.EnqRefused? ==> !q.p.PAlloc?
    ensures q.p.PAlloc? ==> o.Some? && o.value.grow
  {
    hide Q.Inc;
  }

  lemma {:induction false} SignallerKeepsWaiter()
    ensures forall s, s', e :: S.SignallerNext(s, s', e) ==> s'.c == s.c
  {}

  lemma {:induction false} ConsumerServes(b: State, g: Ghost, n: nat, b': State, e: Event, o: Calls)
    requires Inv(b, g, n) && ConsumerNext(b, b', e) && Asks(b, o.request)
    ensures Answers(o, e) && Asks(b', Noted(o, e).request)
    ensures Noted(o, e).enqueue == o.enqueue && b'.p == b.p && b'.q.p == b.q.p
  {
    hide Inv, S.Waits, ConsumerNext;
    var _ := ConsumerStep(b, g, n, b', e);
    WaitServes(b, b', e);
  }

  /** While the wrapper waits, the semaphore serves a wait in the mode of the call. */
  lemma {:induction false} WaitServes(b: State, b': State, e: Event)
    requires ConsumerNext(b, b', e) && (b.c.CWait? ==> S.Waits(b.s.c, S.Some(ModeOf(b.c.call))))
    ensures b'.c.CWait? ==> S.Waits(b'.s.c, S.Some(ModeOf(b'.c.call)))
    ensures b'.q.p == b.q.p
  {
    hide Q.ConsumerNext, S.WaiterNext, S.Waits;
    ConsumerLeavesProducer();
    match b.c
    case CNone =>
      if e.DeqCall? { WaitBegins(b.s, b'.s, ModeOf(e.call)); }
    case CWait(call) =>
      var se: S.Event, s': S.State :| S.WaiterNext(b.s, s', se) && Waiting(b, b', e, call, se, s');
      WaitGoesOn(b.s, s', se, ModeOf(call));
      if se.Refused? && call.Patient? { WaitBegins(s', b'.s, ModeOf(call)); }
    case _ =>
  }

  lemma {:induction false} WaitBegins(s: S.State, s': S.State, m: S.Mode)
    requires S.WaiterNext(s, s', S.WaitCall(m))
    ensures S.Waits(s'.c, S.Some(m))
  {}

  lemma {:induction false} WaitGoesOn(s: S.State, s': S.State, e: S.Event, m: S.Mode)
    requires S.WaiterNext(s, s', e) && S.Waits(s.c, S.Some(m))
    ensures e.Acquired? || e.Refused? || S.Waits(s'.c, S.Some(m))
    ensures e.Tau? || e.Acquired? || e.Refused?
  {}

  lemma {:induction false} ProducerTells(b: State, g: Ghost, n: nat, b': State, e: Event, es: seq<Event>)
      returns (g': Ghost)
    requires Inv(b, g, n) && ProducerNext(b, b', e) && Told(es, b, g)
    ensures Inv(b', g', n) && Told(es + [e], b', g')
  {
    hide Q.Rel, S.Inv, ProducerNext, Answers, Noted, EmptyAt, FullAt, C.Enqueues, S.Waits, InProgress;
    g' := ProducerStep(b, g, n, b', e);
    OneMore(es, e);
    ProducerServes(b, g, n, b', e, InProgress(es));
    Tells(b, g, n, b', g', e, es);
  }

  lemma {:induction false} ConsumerTells(b: State, g: Ghost, n: nat, b': State, e: Event, es: seq<Event>)
      returns (g': Ghost)
    requires Inv(b, g, n) && ConsumerNext(b, b', e) && Told(es, b, g)
    ensures Inv(b', g', n) && Told(es + [e], b', g')
  {
    hide Q.Rel, S.Inv, ConsumerNext, Answers, Noted, EmptyAt, FullAt, C.Enqueues, S.Waits, InProgress;
    g' := ConsumerStep(b, g, n, b', e);
    OneMore(es, e);
    ConsumerServes(b, g, n, b', e, InProgress(es));
    Tells(b, g, n, b', g', e, es);
  }

  /** What has been seen is told by the events, with the moments before or by the moment after the step. */
  lemma {:induction false} Tells(b: State, g: Ghost, n: nat, b': State, g': Ghost, e: Event, es: seq<Event>)
    requires Inv(b', g', n) && Told(es, b, g) && Sees(b, g, b', g')
    requires b.c.CNone? || (!e.DeqCall? && !e.PeekCall?)
    requires b.p.PNone? || !e.EnqCall?
    requires |Received(es + [e])| + |g'.f.q| == Accepted(es + [e]) + (if b'.p.PSignal? then 1 else 0)
    ensures b'.c.CWait? && g'.t.sawNone ==> exists k: nat :: EmptyAt(es + [e], k)
    ensures b'.c.CPeek? && g'.f.sawEmpty ==> exists k: nat :: EmptyAt(es + [e], k)
    ensures b'.p.PInner? ==> exists k: nat :: FullAt(es + [e], k, g'.f.most)
  {
    hide Q.Rel, S.Inv, EmptyAt, FullAt, Offers, Asks, Accepted, Received;
    Now(es + [e], g'.f.most);
    if !e.DeqCall? && !e.PeekCall? && exists k: nat :: EmptyAt(es, k) { EmptyStays(es, e); }
    if !e.EnqCall? && exists k: nat :: FullAt(es, k, g'.f.most) { FullStays(es, e, g'.f.most); }
  }

  lemma {:induction false} NothingTold(b: State, g: Ghost)
    requires b.p.PNone? && b.c.CNone? && g.f.q == []
    ensures Told([], b, g)
  {}

  lemma {:induction false} RunTells(r: Run, size: nat, max: nat, i: nat) returns (g: Ghost)
    requires R.Sized(size, max) && IsRun(r, size, max) && i <= |r.events|
    ensures Inv(r.states[i], g, size) && Told(r.events[..i], r.states[i], g)
    decreases i
  {
    hide Inv, ProducerNext, ConsumerNext, Told, R.Initial;
    if i == 0 {
      g := InitialSound(r.states[0], size, max);
      NothingTold(r.states[0], g);
    } else {
      var h := RunTells(r, size, max, i - 1);
      var b, b', e, es := r.states[i - 1], r.states[i - 1 + 1], r.events[i - 1], r.events[..i - 1];
      assert Next(b, b', e);
      assert r.events[..i] == es + [e];
      if ProducerNext(b, b', e) {
        g := ProducerTells(b, h, size, b', e, es);
      } else {
        g := ConsumerTells(b, h, size, b', e, es);
      }
    }
  }

  // ---------------------------------------------------------------- what a call comes to

  lemma {:induction false} StepAnswers(b: State, g: Ghost, n: nat, b': State, e: Event, o: Calls)
    requires Inv(b, g, n) && Next(b, b', e) && Offers(b, o.enqueue) && Asks(b, o.request)
    ensures Answers(o, e)
  {
    hide Inv, ProducerNext, ConsumerNext, Offers, Asks, Noted, Answers;
    if ProducerNext(b, b', e) { ProducerServes(b, g, n, b', e, o); } else { ConsumerServes(b, g, n, b', e, o); }
  }

  /** In every interleaving each event answers the call in progress; `wait_dequeue` comes back with an element. */
  lemma {:induction false} CallsAreAnswered(r: Run, size: nat, max: nat, i: nat)
    requires R.Sized(size, max) && IsRun(r, size, max) && i < |r.events|
    ensures Answers(InProgress(r.events[..i]), r.events[i])
  {
    hide Inv, Next, Offers, Asks, Answers, InProgress, R.Initial;
    var g := RunTells(r, size, max, i);
    assert Next(r.states[i], r.states[i + 1], r.events[i]);
    StepAnswers(r.states[i], g, size, r.states[i + 1], r.events[i], InProgress(r.events[..i]));
  }

  /** A dequeue gives up only if the queue was empty at some moment of its call. */
  lemma {:induction false} GivingUpMeansEmpty(r: Run, size: nat, max: nat, j: nat) returns (k: nat)
    requires R.Sized(size, max) && IsRun(r, size, max) && j < |r.events| && r.events[j].DeqFalse?
    ensures EmptyAt(r.events[..j], k)
  {
    hide Inv, ProducerNext, ConsumerNext, EmptyAt, FullAt, Offers, Asks, R.Initial;
    var g := RunTells(r, size, max, j);
    var b, b', e := r.states[j], r.states[j + 1], r.events[j];
    assert Next(b, b', e);
    if ProducerNext(b, b', e) {
      var _ := ProducerStep(b, g, size, b', e);
    } else {
      var _ := ConsumerStep(b, g, size, b', e);
    }
    k :| EmptyAt(r.events[..j], k);
  }

  lemma {:induction false} PeekShowsHead(b: State, g: Ghost, n: nat, b': State, e: Event)
    requires Inv(b, g, n) && Next(b, b', e) && e.PeekResult?
    ensures if e.front.Some? then g.f.q != [] && e.front.value == g.f.q[0] else b.c.CPeek? && g.f.sawEmpty
  {
    hide Inv, ProducerNext, ConsumerNext;
    if ProducerNext(b, b', e) {
      var _ := ProducerStep(b, g, n, b', e);
    } else {
      var _ := ConsumerStep(b, g, n, b', e);
    }
  }

  lemma {:induction false} HeadIsNext(offered: seq<Q.Value>, received: seq<Q.Value>, q: seq<Q.Value>,
                                      pending: seq<Q.Value>)
    requires offered == received + (q + pending) && q != []
    ensures received + [q[0]] <= offered
  {
    assert offered[..|received|] == received && offered[|received|] == q[0];
  }

  /** What a peek shows is the next value to be received; it shows none only if the queue was empty in its call. */
  lemma {:induction false} PeekedIsNext(r: Run, size: nat, max: nat, j: nat)
    requires R.Sized(size, max) && IsRun(r, size, max) && j < |r.events| && r.events[j].PeekResult?
    ensures var es, front := r.events[..j], r.events[j].front;
            if front.Some? then Received(es) + [front.value] <= Offered(es)
            else exists k: nat :: EmptyAt(es, k)
  {
    hide Inv, Next, EmptyAt, FullAt, Offers, Asks, R.Initial, Offered, Received;
    var b, b', e, es := r.states[j], r.states[j + 1], r.events[j], r.events[..j];
    assert Next(b, b', e);
    if e.front.Some? {
      var h := Sound(r, size, max, j);
      PeekShowsHead(b, h, size, b', e);
      HeadIsNext(Offered(es), Received(es), h.f.q, Pending(b));
    } else {
      var g := RunTells(r, size, max, j);
      PeekShowsHead(b, g, size, b', e);
    }
  }

  /**
   An enqueue fails only where memory gave out if it may allocate, and only if the queue held as many
   elements as it was built for at some moment of its call if it may not.
   */
  lemma {:induction false} EnqueueFails(r: Run, size: nat, max: nat, j: nat)
    requires R.Sized(size, max) && IsRun(r, size, max) && j < |r.events| && r.events[j].EnqFalse?
    ensures var o := InProgress(r.events[..j]).enqueue;
            && o.Some?
            && if o.value.grow then r.states[j].q.p.PAlloc? else exists k: nat :: FullAt(r.events[..j], k, size)
  {
    hide Inv, ProducerNext, ConsumerNext, EmptyAt, FullAt, Offers, Asks, R.Initial, InProgress;
    var g := RunTells(r, size, max, j);
    var b, b', e, es := r.states[j], r.states[j + 1], r.events[j], r.events[..j];
    assert Next(b, b', e);
    if ProducerNext(b, b', e) {
      var _ := ProducerStep(b, g, size, b', e);
      ProducerServes(b, g, size, b', e, InProgress(es));
      if !b.q.p.PAlloc? {
        var k: nat :| FullAt(es, k, g.f.most);
        assert FullAt(es, k, size) by { FullOfFewer(es, k, g.f.most, size); }
      }
    } else {
      var _ := ConsumerStep(b, g, size, b', e);
    }
  }

  lemma {:induction false} FullOfFewer(es: seq<Event>, k: nat, n: nat, m: nat)
    requires FullAt(es, k, n) && n >= m
    ensures FullAt(es, k, m)
  {}

  /** After a dequeuing call, and until the next of the consumer's, that call is in progress or answered. */
  lemma {:induction false} RequestInProgress(es: seq<Event>, i: nat, j: nat)
    requires i < j <= |es| && es[i].DeqCall? && forall m :: i < m < j ==> !es[m].DeqCall? && !es[m].PeekCall?
    ensures InProgress(es[..j]).request in [Q.None, Q.Some(Take(es[i].call))]
    decreases j
  {
    assert es[..j][..j - 1] == es[..j - 1];
    if j > i + 1 { RequestInProgress(es, i, j - 1); }
  }

  lemma {:induction false} ReturningComesFrom(b: State, b': State, e: Event)
    requires Next(b, b', e) && b'.c.CWait? && S.Returning(b'.s.c)
    ensures b.c == b'.c && (S.Returning(b.s.c) || b.s.c.WKernel? || b.s.c == S.WEnter(0))
  {
    hide Q.ProducerNext, Q.ConsumerNext, Q.Inc;
  }

  lemma {:induction false} GivingUpComesFrom(b: State, b': State, e: Event)
    requires Next(b, b', e) && e.DeqFalse?
    ensures b.c.CWait? && b.c.call.Once? && (S.Returning(b.s.c) || b.s.c == S.WTryLoad(S.Try))
  {
    hide Q.ProducerNext, Q.ConsumerNext, Q.Inc;
  }

  lemma {:induction false} WasInKernel(r: Run, size: nat, max: nat, i: nat, j: nat, t: int) returns (k: nat)
    requires R.Sized(size, max) && IsRun(r, size, max) && i < j <= |r.events|
    requires r.events[i] == DeqCall(Once(S.Timed(t))) && t != 0
    requires r.states[j].c.CWait? && S.Returning(r.states[j].s.c)
    requires forall m :: i < m < j ==> !r.events[m].DeqCall? && !r.events[m].PeekCall?
    ensures i < k <= j && r.states[k].s.c == S.WKernel(t)
    decreases j
  {
    hide Inv, Next, Offers, S.Waits, R.Initial, S.Returning;
    var _ := RunTells(r, size, max, j - 1);
    assert Next(r.states[j - 1], r.states[j - 1 + 1], r.events[j - 1]);
    ReturningComesFrom(r.states[j - 1], r.states[j], r.events[j - 1]);
    S.KernelKeepsTimeout(r.states[j - 1].s.c, S.Some(ModeOf(r.states[j - 1].c.call)));
    if i == j - 1 {
      CallsAreAnswered(r, size, max, i);
      assert false;
    }
    RequestInProgress(r.events, i, j - 1);
    if r.states[j - 1].s.c.WKernel? {
      k := j - 1;
    } else {
      k := WasInKernel(r, size, max, i, j - 1, t);
    }
  }

  /** A dequeue with a timeout never gives up before it has waited in the kernel for that long. */
  lemma {:induction false} TimedCallWaits(r: Run, size: nat, max: nat, i: nat, j: nat, t: int) returns (k: nat)
    requires R.Sized(size, max) && IsRun(r, size, max) && i < j < |r.events|
    requires r.events[i] == DeqCall(Once(S.Timed(t))) && t != 0 && r.events[j].DeqFalse?
    requires forall m :: i < m < j ==> !r.events[m].DeqCall? && !r.events[m].PeekCall?
    ensures i < k <= j && r.states[k].s.c == S.WKernel(t)
  {
    hide Inv, Next, Offers, S.Waits, R.Initial, S.Returning;
    var _ := RunTells(r, size, max, j);
    assert Next(r.states[j], r.states[j + 1], r.events[j]);
    GivingUpComesFrom(r.states[j], r.states[j + 1], r.events[j]);
    RequestInProgress(r.events, i, j);
    S.KernelKeepsTimeout(r.states[j].s.c, S.Some(ModeOf(r.states[j].c.call)));
    k := WasInKernel(r, size, max, i, j, t);
  }

  // ---------------------------------------------------------------- an element is received

  /** How many steps a dequeuing consumer needs at most while there is an element and the producer is idle. */
  function StepsToReceive(b: State): nat {
    match b.c
    case CWait(_) => 13 + S.WaitSteps(b.s.c)
    case CInner => C.DequeueSteps(b.q.c)
    case _ => 0
  }

  lemma {:induction false} WaitApproaches(b: State, g: Ghost, n: nat, b': State, e: Event)
    requires Inv(b, g, n) && ConsumerNext(b, b', e) && b.c.CWait? && b.p.PNone? && g.f.q != []
    ensures e == Tau && b'.c in [b.c, CInner] && StepsToReceive(b') < StepsToReceive(b)
  {
    hide Q.Rel, Q.ProducerNext, Q.ConsumerNext, S.WaiterNext, S.Core, C.DequeueSteps, S.WaitSteps;
    var se: S.Event, s': S.State :| S.WaiterNext(b.s, s', se) && Waiting(b, b', e, b.c.call, se, s');
    S.WaiterAdvances(b.s, g.t, s', se);
    if se.Acquired? {
      BeginsAndWaits(b.q, b'.q, b.s.c);
    }
  }

  lemma {:induction false} BeginsAndWaits(q: Q.State, q': Q.State, c: S.Waiter)
    requires Q.ConsumerNext(q, q', Q.DeqCall(Q.Remove)) && !c.WIdle?
    ensures C.DequeueSteps(q'.c) == 13 && S.WaitSteps(c) > 0
  {}

  lemma {:induction false} InnerApproaches(b: State, g: Ghost, n: nat, b': State, e: Event)
    requires Inv(b, g, n) && ConsumerNext(b, b', e) && b.c.CInner?
    ensures e.Deq? || (e == Tau && b'.c.CInner? && StepsToReceive(b') < StepsToReceive(b))
  {
    hide Q.Rel, S.Inv, Q.ProducerNext, Q.ConsumerNext, S.WaiterNext, C.DequeueSteps;
    var qe: Q.Event, q': Q.State :| Q.ConsumerNext(b.q, q', qe) && InnerDequeue(b, b', e, qe, q');
    DequeueProceeds(b.q, q', qe, Q.Remove);
    var _ := ConsumerStep(b, g, n, b', e);
    C.ConsumerAdvances(b.q, q', qe);
  }

  lemma {:induction false} Approaches(b: State, g: Ghost, n: nat, b': State, e: Event)
    requires Inv(b, g, n) && Next(b, b', e) && b.p.PNone? && b'.p.PNone? && g.f.q != []
    requires b.c.CWait? || b.c.CInner?
    ensures e.Deq? || (e == Tau && (b'.c.CWait? || b'.c.CInner?) && StepsToReceive(b') < StepsToReceive(b))
  {
    hide Inv, ConsumerNext, Q.ProducerNext, StepsToReceive;
    if b.c.CWait? { WaitApproaches(b, g, n, b', e); } else { InnerApproaches(b, g, n, b', e); }
  }

  lemma {:induction false} TauTells(es: seq<Event>, i: nat)
    requires i < |es| && es[i] == Tau
    ensures Accepted(es[..i + 1]) == Accepted(es[..i]) && Received(es[..i + 1]) == Received(es[..i])
  {
    assert es[..i + 1] == es[..i] + [es[i]];
    OneMore(es[..i], es[i]);
  }

  lemma {:induction false} AtMostSeventeen(b: State)
    ensures StepsToReceive(b) <= 17
  {}

  /**
   In every run, a dequeue that waits or has got its token, with an element accepted and not received
   and the producer idle, receives one within its next seventeen steps.
   */
  lemma {:induction false} ElementIsReceived(r: Run, size: nat, max: nat, i: nat) returns (m: nat)
    requires R.Sized(size, max) && IsRun(r, size, max) && i <= |r.events|
    requires i + StepsToReceive(r.states[i]) <= |r.events|
    requires r.states[i].c.CWait? || r.states[i].c.CInner?
    requires |Received(r.events[..i])| < Accepted(r.events[..i])
    requires forall k :: i <= k <= i + StepsToReceive(r.states[i]) ==> r.states[k].p.PNone?
    ensures i <= m < i + StepsToReceive(r.states[i]) <= i + 17 && r.events[m].Deq?
    decreases StepsToReceive(r.states[i])
  {
    hide Inv, Next, Offers, Asks, StepsToReceive, R.Initial, Accepted, Received, EmptyAt, FullAt, InProgress;
    AtMostSeventeen(r.states[i]);
    var g := RunTells(r, size, max, i);
    InsideACall(r.states[i], g, size);
    assert Next(r.states[i], r.states[i + 1], r.events[i]);
    Approaches(r.states[i], g, size, r.states[i + 1], r.events[i]);
    if r.events[i].Deq? {
      m := i;
    } else {
      TauTells(r.events, i);
      m := ElementIsReceived(r, size, max, i + 1);
    }
  }

  lemma {:induction false} InsideACall(b: State, g: Ghost, n: nat)
    requires Inv(b, g, n) && (b.c.CWait? || b.c.CInner?)
    ensures StepsToReceive(b) > 0
  {
    hide Q.Rel, S.Inv;
  }
}
