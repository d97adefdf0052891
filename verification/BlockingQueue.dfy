/**
 The blocking queue (`BlockingReaderWriterQueue`): the lock-free queue and the semaphore composed.
 Enqueuing signals after the element is in; dequeuing waits for a token before it takes one, and
 asserts that it then finds an element.
 */
module BlockingQueue {
  import Q = SpscQueue
  import S = Semaphore
  import R = SpscRuns
  import Sim = SpscSimulation

  datatype Producing = PNone | PInner | PSignal

  /** `wait_dequeue` waits again when a wait fails; `try_dequeue`, `pop` and the timed form give up. */
  datatype Call = Patient | Once(m: S.Mode)

  datatype Consuming = CNone | CWait(call: Call) | CInner | CPeek

  datatype State = State(q: Q.State, s: S.State, p: Producing, c: Consuming)

  datatype Event =
    | Tau
    | EnqCall(v: Q.Value, grow: bool)
    | EnqTrue
    | EnqFalse
    | DeqCall(call: Call)
    | PeekCall
    | Deq(v: Q.Value)
    | DeqFalse
    | PeekResult(front: Q.Option<Q.Value>)
    | Fault

  function ModeOf(call: Call): S.Mode {
    if call.Patient? then S.Timed(-1) else call.m
  }

  /** What a step of the inner enqueue means to the wrapper. */
  predicate InnerEnqueue(b: State, b': State, e: Event, qe: Q.Event, q': Q.State) {
    match qe
    case Tau => e == Tau && b' == b.(q := q')
    case Enq(_) =>
      // the inner call returns true and signal() begins
      e == Tau && b' == b.(q := q', p := PSignal, s := b.s.(p := S.SAdd(1)))
    case EnqRefused => e == EnqFalse && b' == b.(q := q', p := PNone)
    case EnqNoMemory => e == EnqFalse && b' == b.(q := q', p := PNone)
    case _ => e == Fault && b' == b
  }

  ghost predicate ProducerNext(b: State, b': State, e: Event) {
    match b.p
    case PNone =>
      && e.EnqCall? && b'.q.p == Q.PLoadTailBlock(e.v, e.grow)
      && Q.ProducerNext(b.q, b'.q, Q.EnqCall(e.v, e.grow)) && b' == b.(q := b'.q, p := PInner)
    case PInner =>
      exists qe: Q.Event, q': Q.State :: Q.ProducerNext(b.q, q', qe) && InnerEnqueue(b, b', e, qe, q')
    case PSignal =>
      exists se: S.Event, s': S.State ::
        && S.SignallerNext(b.s, s', se)
        && (if se.Fault? then e == Fault && b' == b
            else if s'.p.SIdle? then e == EnqTrue && b' == b.(s := s', p := PNone)
            else e == Tau && b' == b.(s := s'))
  }

  /** What a step of the semaphore's wait means to the wrapper. */
  predicate Waiting(b: State, b': State, e: Event, call: Call, se: S.Event, s': S.State) {
    match se
    case Acquired =>
      // the wait returns true and the inner dequeue begins
      && e == Tau && Q.ConsumerNext(b.q, b'.q, Q.DeqCall(Q.Remove)) && b' == b.(s := s', q := b'.q, c := CInner)
    case Refused =>
      if call.Patient? then
        && e == Tau && S.WaiterNext(s', b'.s, S.WaitCall(ModeOf(call))) && b' == b.(s := b'.s)
      else e == DeqFalse && b' == b.(s := s', c := CNone)
    case Fault => e == Fault && b' == b
    case _ => e == Tau && b' == b.(s := s')
  }

  /** What a step of the inner dequeue means: finding nothing fails the wrapper's assert. */
  predicate InnerDequeue(b: State, b': State, e: Event, qe: Q.Event, q': Q.State) {
    match qe
    case Tau => e == Tau && b' == b.(q := q')
    case Deq(v) => e == Deq(v) && b' == b.(q := q', c := CNone)
    case _ => e == Fault && b' == b
  }

  predicate InnerPeek(b: State, b': State, e: Event, qe: Q.Event, q': Q.State) {
    match qe
    case Tau => e == Tau && b' == b.(q := q')
    case Peeked(v) => e == PeekResult(Q.Some(v)) && b' == b.(q := q', c := CNone)
    case DeqEmpty => e == PeekResult(Q.None) && b' == b.(q := q', c := CNone)
    case _ => e == Fault && b' == b
  }

  ghost predicate ConsumerNext(b: State, b': State, e: Event) {
    match b.c
    case CNone =>
      || (&& e.DeqCall? && S.WaiterNext(b.s, b'.s, S.WaitCall(ModeOf(e.call)))
          && b' == b.(s := b'.s, c := CWait(e.call)))
      || (e == PeekCall && Q.ConsumerNext(b.q, b'.q, Q.DeqCall(Q.Peek)) && b' == b.(q := b'.q, c := CPeek))
    case CWait(call) =>
      exists se: S.Event, s': S.State :: S.WaiterNext(b.s, s', se) && Waiting(b, b', e, call, se, s')
    case CInner =>
      exists qe: Q.Event, q': Q.State :: Q.ConsumerNext(b.q, q', qe) && InnerDequeue(b, b', e, qe, q')
    case CPeek =>
      exists qe: Q.Event, q': Q.State :: Q.ConsumerNext(b.q, q', qe) && InnerPeek(b, b', e, qe, q')
  }

  ghost predicate Next(b: State, b': State, e: Event) {
    ProducerNext(b, b', e) || ConsumerNext(b, b', e)
  }

  ghost predicate Initial(b: State, size: nat, max: nat) {
    && R.Initial(b.q, size, max)
    && b.s == S.State(0, 0, S.SIdle, S.WIdle) && b.p == PNone && b.c == CNone
  }

  // ---------------------------------------------------------------- the invariant

  /** Ghost witnesses: the queue's layout and FIFO, and the semaphore's tokens. */
  datatype Ghost = Ghost(l: Q.Layout, f: Q.Fifo, t: S.Tokens)

  /** Elements in the queue that no free token stands for: one being signalled, one being taken. */
  function Unclaimed(b: State): nat {
    (if b.p == PSignal && b.s.p.SAdd? then 1 else 0) + (if b.c == CInner then 1 else 0)
  }

  /**
   Both parts are sound on their own; there is a queued element for every token, besides the one
   whose signal is on its way and the one whose token the consumer holds; and while the consumer
   holds a token the queue has not been empty since its inner call began.
   */
  ghost predicate Inv(b: State, g: Ghost, n: nat) {
    && Q.Rel(b.q, g.l, g.f, n) && S.Inv(b.s, g.t)
    && |g.f.q| == g.t.avail + Unclaimed(b)
    && (b.p.PNone? <==> b.q.p.PIdle? && b.s.p.SIdle?) && (b.p.PInner? ==> !b.q.p.PIdle? && b.s.p.SIdle?)
    && (b.p.PSignal? ==> b.q.p.PIdle? && !b.s.p.SIdle?)
    && (b.s.p.SAdd? ==> b.s.p.count == 1)
    && (b.c.CNone? <==> b.q.c.CIdle? && b.s.c.WIdle?) && (b.c.CWait? <==> !b.s.c.WIdle?)
    && (b.c.CWait? ==> b.q.c.CIdle?)
    && (b.c.CInner? ==> !g.f.sawEmpty && Q.Doing(b.q.c, Q.Remove))
    && (b.c.CPeek? ==> Q.Doing(b.q.c, Q.Peek))
  }

  /** The value an enqueue in progress has not yet put in the queue. */
  function Pending(b: State): seq<Q.Value> {
    if b.p.PInner? && !b.q.p.PIdle? then [b.q.p.v] else []
  }

  // ---------------------------------------------------------------- how inner calls proceed and return

  lemma {:induction false} EnqueueProceeds(q: Q.State, q': Q.State, e: Q.Event)
    requires Q.ProducerNext(q, q', e) && !q.p.PIdle?
    ensures q'.c == q.c
    ensures q'.p.PIdle? <==> e.Enq? || e.EnqRefused? || e.EnqNoMemory?
    ensures e.Tau? || e.Enq? || e.EnqRefused? || e.EnqNoMemory? || e.Fault?
    ensures (e.Enq? ==> e.v == q.p.v) && (e.Tau? ==> q'.p.v == q.p.v)
    ensures e.EnqNoMemory? ==> q.p.PAlloc?
  {
    hide Q.ProducerNext;
    if Sim.UsesTail(q.p) { TailProceeds(q, q', e); } else { FillProceeds(q, q', e); }
  }

  lemma {:induction false} TailProceeds(q: Q.State, q': Q.State, e: Q.Event)
    requires Q.ProducerNext(q, q', e) && !q.p.PIdle? && Sim.UsesTail(q.p)
    ensures q'.c == q.c
    ensures q'.p.PIdle? <==> e.Enq? || e.EnqRefused? || e.EnqNoMemory?
    ensures e.Tau? || e.Enq? || e.EnqRefused? || e.EnqNoMemory? || e.Fault?
    ensures (e.Enq? ==> e.v == q.p.v) && (e.Tau? ==> q'.p.v == q.p.v)
    ensures e.EnqNoMemory? ==> q.p.PAlloc?
  {
    hide Q.Inc;
  }

  lemma {:induction false} FillProceeds(q: Q.State, q': Q.State, e: Q.Event)
    requires Q.ProducerNext(q, q', e) && !Sim.UsesTail(q.p)
    ensures q'.c == q.c
    ensures q'.p.PIdle? <==> e.Enq? || e.EnqRefused? || e.EnqNoMemory?
    ensures e.Tau? || e.Enq? || e.EnqRefused? || e.EnqNoMemory? || e.Fault?
    ensures (e.Enq? ==> e.v == q.p.v) && (e.Tau? ==> q'.p.v == q.p.v)
    ensures e.EnqNoMemory? ==> q.p.PAlloc?
  {
    hide Q.Inc;
  }

  lemma {:induction false} DequeueProceeds(q: Q.State, q': Q.State, e: Q.Event, k: Q.Kind)
    requires Q.ConsumerNext(q, q', e) && Q.Doing(q.c, k)
    ensures q'.p == q.p
    ensures if q'.c.CIdle? then e.DeqEmpty? || (if k == Q.Remove then e.Deq? else e.Peeked?)
            else (e.Tau? || e.Fault?) && Q.Doing(q'.c, k)
  {}

  lemma {:induction false} CallDequeue(q: Q.State, q': Q.State, k: Q.Kind)
    requires Q.ConsumerNext(q, q', Q.DeqCall(k))
    ensures q'.p == q.p && Q.Doing(q'.c, k) && q.c.CIdle?
  {}

  lemma {:induction false} CallEnqueue(q: Q.State, q': Q.State, v: Q.Value, grow: bool)
    requires Q.ProducerNext(q, q', Q.EnqCall(v, grow))
    ensures q'.c == q.c && !q'.p.PIdle? && q'.p.v == v
  {}

  lemma {:induction false} SignalBegins(s: S.State, t: S.Tokens)
    requires S.Inv(s, t) && s.p.SIdle?
    ensures S.Inv(s.(p := S.SAdd(1)), t)
  {}

  lemma {:induction false} SignalProceeds(s: S.State, s': S.State, e: S.Event)
    requires S.SignallerNext(s, s', e) && !s.p.SIdle?
    ensures s'.c == s.c && !e.SignalCall? && !e.Acquired?
    ensures s.p.SAdd? ==> e.Fault? || (e == S.Signalled(s.p.count) && !s'.p.SAdd?)
    ensures s.p.SPost? ==> e == S.SignalDone && s'.p.SIdle?
  {}

  lemma {:induction false} WaitProceeds(s: S.State, s': S.State, e: S.Event)
    requires S.WaiterNext(s, s', e)
    ensures s'.p == s.p && !e.SignalCall? && !e.Signalled? && !e.SignalDone? && !e.Fault?
    ensures s'.c.WIdle? <==> e.Acquired? || e.Refused?
    ensures e.WaitCall? <==> s.c.WIdle?
  {}

  // ---------------------------------------------------------------- the steps

  predicate ConsumerEvent(e: Event) {
    e.DeqCall? || e.PeekCall? || e.Deq? || e.DeqFalse? || e.PeekResult?
  }

  predicate ProducerEvent(e: Event) {
    e.EnqCall? || e.EnqTrue? || e.EnqFalse?
  }

  /** How the producer's place and the length of the queue go with the events of its steps. */
  predicate ProducerMoves(p: Producing, p': Producing, e: Event, before: nat, after: nat) {
    match p
    case PNone => e.EnqCall? && p' == PInner && after == before
    case PInner =>
      if e.EnqFalse? then p' == PNone && after == before
      else e == Tau && p' != PNone && after == before + if p' == PSignal then 1 else 0
    case PSignal => after == before && ((e == EnqTrue && p' == PNone) || (e == Tau && p' == PSignal))
  }

  predicate ConsumerMoves(c: Consuming, c': Consuming, e: Event) {
    match c
    case CNone => if e.DeqCall? then c' == CWait(e.call) else e == PeekCall && c' == CPeek
    case CWait(_) => if e.DeqFalse? then c' == CNone else e == Tau && (c' == c || c' == CInner)
    case CInner => if e.Deq? then c' == CNone else e == Tau && c' == CInner
    case CPeek => if e.PeekResult? then c' == CNone else e == Tau && c' == CPeek
  }

  /**
   What a call in progress has seen since it began: a wait, that there was no token; a peek, that the
   queue was empty; an enqueue, how many elements there were at most. It is so now, or was seen before.
   */
  ghost predicate Sees(b: State, g: Ghost, b': State, g': Ghost) {
    && (b'.c.CWait? && g'.t.sawNone ==> g'.t.avail == 0 || (b.c.CWait? && g.t.sawNone))
    && (b'.c.CPeek? && g'.f.sawEmpty ==> g'.f.q == [] || (b.c.CPeek? && g.f.sawEmpty))
    && (b'.p.PInner? ==> g'.f.most == |g'.f.q| || (b.p.PInner? && g'.f.most == g.f.most))
  }

  lemma {:induction false} ProducerStep(b: State, g: Ghost, n: nat, b': State, e: Event) returns (g': Ghost)
    requires Inv(b, g, n) && ProducerNext(b, b', e)
    ensures e != Fault && Inv(b', g', n)
    ensures e.EnqCall? ==> Pending(b') == [e.v] && Pending(b) == [] && g'.f.q == g.f.q
    ensures e.EnqFalse? ==> |Pending(b)| == 1 && Pending(b') == [] && g'.f.q == g.f.q
    ensures !e.EnqCall? && !e.EnqFalse? ==> g'.f.q + Pending(b') == g.f.q + Pending(b)
    ensures !ConsumerEvent(e) && b'.c == b.c && Sees(b, g, b', g')
    ensures ProducerMoves(b.p, b'.p, e, |g.f.q|, |g'.f.q|)
    ensures e.EnqFalse? ==> b.p.PInner? && (b.q.p.PAlloc? || g.f.most >= n)
  {
    hide Q.Rel, S.Inv, Q.ProducerNext, Q.ConsumerNext, S.SignallerNext;
    match b.p
    case PNone =>
      var l := Sim.Simulates(b.q, g.l, g.f, n, b'.q, Q.EnqCall(e.v, e.grow));
      CallEnqueue(b.q, b'.q, e.v, e.grow);
      g' := g.(l := l, f := Q.Apply(g.f, Q.EnqCall(e.v, e.grow)));
    case PInner =>
      var qe: Q.Event, q': Q.State :| Q.ProducerNext(b.q, q', qe) && InnerEnqueue(b, b', e, qe, q');
      EnqueueProceeds(b.q, q', qe);
      var l := Sim.Simulates(b.q, g.l, g.f, n, q', qe);
      SignalBegins(b.s, g.t);
      g' := g.(l := l, f := Q.Apply(g.f, qe));
    case PSignal =>
      var se: S.Event, s': S.State :|
        && S.SignallerNext(b.s, s', se)
        && (if se.Fault? then e == Fault && b' == b
            else if s'.p.SIdle? then e == EnqTrue && b' == b.(s := s', p := PNone)
            else e == Tau && b' == b.(s := s'));
      SignalProceeds(b.s, s', se);
      S.Step(b.s, g.t, s', se);
      g' := g.(t := S.Apply(g.t, se));
  }

  /** A step inside the wait, up to the start of the inner dequeue. */
  lemma {:induction false} WaitStep(b: State, g: Ghost, n: nat, b': State, e: Event) returns (g': Ghost)
    requires Inv(b, g, n) && ConsumerNext(b, b', e) && b.c.CWait?
    ensures e != Fault && Inv(b', g', n) && (e.Tau? || e.DeqFalse?) && g'.f.q == g.f.q
    ensures b'.p == b.p && Sees(b, g, b', g') && ConsumerMoves(b.c, b'.c, e)
    ensures e.DeqFalse? ==> b.c.call.Once? && g.t.sawNone
  {
    hide Q.Rel, S.Inv, Q.ProducerNext, Q.ConsumerNext, S.WaiterNext;
    var call := b.c.call;
    var se: S.Event, s': S.State :| S.WaiterNext(b.s, s', se) && Waiting(b, b', e, call, se, s');
    WaitProceeds(b.s, s', se);
    S.Step(b.s, g.t, s', se);
    var t := S.Apply(g.t, se);
    g' := g.(t := t);
    if se.Acquired? {
      var qe := Q.DeqCall(Q.Remove);
      CallDequeue(b.q, b'.q, Q.Remove);
      var l := Sim.Simulates(b.q, g.l, g.f, n, b'.q, qe);
      g' := Ghost(l, Q.Apply(g.f, qe), t);
    } else if se.Refused? && call.Patient? {
      var we := S.WaitCall(ModeOf(call));
      WaitProceeds(s', b'.s, we);
      S.Step(s', t, b'.s, we);
      g' := g.(t := S.Apply(t, we));
    }
  }

  lemma {:induction false} ConsumerStep(b: State, g: Ghost, n: nat, b': State, e: Event) returns (g': Ghost)
    requires Inv(b, g, n) && ConsumerNext(b, b', e)
    ensures e != Fault && Inv(b', g', n)
    ensures g'.f.q == (if e.Deq? && g.f.q != [] then g.f.q[1..] else g.f.q)
    ensures e.Deq? ==> g.f.q != [] && e.v == g.f.q[0]
    ensures b'.p == b.p && !ProducerEvent(e) && Sees(b, g, b', g') && ConsumerMoves(b.c, b'.c, e)
    ensures e.DeqFalse? ==> b.c.CWait? && b.c.call.Once? && g.t.sawNone
    ensures e.PeekResult? && e.front.Some? ==> b.c.CPeek? && g.f.q != [] && e.front.value == g.f.q[0]
    ensures e.PeekResult? && e.front.None? ==> b.c.CPeek? && g.f.sawEmpty
  {
    hide Q.Rel, S.Inv, Q.ProducerNext, Q.ConsumerNext, S.WaiterNext;
    match b.c
    case CNone =>
      if e.DeqCall? {
        var se := S.WaitCall(ModeOf(e.call));
        WaitProceeds(b.s, b'.s, se);
        S.Step(b.s, g.t, b'.s, se);
        g' := g.(t := S.Apply(g.t, se));
      } else {
        var qe := Q.DeqCall(Q.Peek);
        CallDequeue(b.q, b'.q, Q.Peek);
        var l := Sim.Simulates(b.q, g.l, g.f, n, b'.q, qe);
        g' := g.(l := l, f := Q.Apply(g.f, qe));
      }
    case CWait(_) => g' := WaitStep(b, g, n, b', e);
    case CInner =>
      var qe: Q.Event, q': Q.State :| Q.ConsumerNext(b.q, q', qe) && InnerDequeue(b, b', e, qe, q');
      DequeueProceeds(b.q, q', qe, Q.Remove);
      var l := Sim.Simulates(b.q, g.l, g.f, n, q', qe);
      g' := g.(l := l, f := Q.Apply(g.f, qe));
    case CPeek =>
      var qe: Q.Event, q': Q.State :| Q.ConsumerNext(b.q, q', qe) && InnerPeek(b, b', e, qe, q');
      DequeueProceeds(b.q, q', qe, Q.Peek);
      var l := Sim.Simulates(b.q, g.l, g.f, n, q', qe);
      g' := g.(l := l, f := Q.Apply(g.f, qe));
  }

  // ---------------------------------------------------------------- runs

  datatype Run = Run(states: seq<State>, events: seq<Event>)

  ghost predicate IsRun(r: Run, size: nat, max: nat) {
    && |r.states| == |r.events| + 1 && Initial(r.states[0], size, max)
    && forall i :: 0 <= i < |r.events| ==> Next(r.states[i], r.states[i + 1], r.events[i])
  }

  /** The values of the enqueue calls so far, but for those that have returned false. */
  function Offered(es: seq<Event>): seq<Q.Value> {
    if es == [] then [] else
      var vs, e := Offered(es[..|es| - 1]), es[|es| - 1];
      if e.EnqCall? then vs + [e.v] else if e.EnqFalse? && vs != [] then vs[..|vs| - 1] else vs
  }

  /** The values the dequeue calls have returned so far. */
  function Received(es: seq<Event>): seq<Q.Value> {
    if es == [] then [] else
      Received(es[..|es| - 1]) + (var e := es[|es| - 1]; if e.Deq? then [e.v] else [])
  }

  lemma {:induction false} Balance(b: State, g: Ghost, n: nat, b': State, e: Event, offered: seq<Q.Value>,
                                   received: seq<Q.Value>) returns (g': Ghost)
    requires Inv(b, g, n) && Next(b, b', e)
    requires offered == received + (g.f.q + Pending(b))
    ensures e != Fault && Inv(b', g', n)
    ensures var o := if e.EnqCall? then offered + [e.v]
                     else if e.EnqFalse? && offered != [] then offered[..|offered| - 1]
                     else offered;
            o == received + (if e.Deq? then [e.v] else []) + (g'.f.q + Pending(b'))
  {
    hide Inv, ProducerNext, ConsumerNext;
    if ProducerNext(b, b', e) {
      g' := ProducerStep(b, g, n, b', e);
    } else {
      g' := ConsumerStep(b, g, n, b', e);
      PendingKept(b, b', e);
      if e.Deq? { assert g.f.q == [e.v] + g'.f.q; }
    }
  }

  lemma {:induction false} PendingKept(b: State, b': State, e: Event)
    requires ConsumerNext(b, b', e)
    ensures Pending(b') == Pending(b) && !e.EnqCall? && !e.EnqFalse?
  {
    hide Q.ProducerNext;
    ConsumerLeavesProducer();
  }

  lemma {:induction false} ConsumerLeavesProducer()
    ensures forall q, q', e :: Q.ConsumerNext(q, q', e) ==> q'.p == q.p
  {}

  /**
   For every interleaving of enqueue-then-signal with wait-then-dequeue: the run so far has not
   failed an assert, and the values received, those queued and the one being enqueued are the
   values offered, in order.
   */
  lemma {:induction false} Sound(r: Run, size: nat, max: nat, i: nat) returns (g: Ghost)
    requires R.Sized(size, max) && IsRun(r, size, max) && i <= |r.events|
    ensures Inv(r.states[i], g, size)
    ensures forall j :: 0 <= j < i ==> r.events[j] != Fault
    ensures Offered(r.events[..i]) == Received(r.events[..i]) + (g.f.q + Pending(r.states[i]))
    decreases i
  {
    hide Inv, Next, Initial;
    if i == 0 {
      g := InitialSound(r.states[0], size, max);
    } else {
      var h := Sound(r, size, max, i - 1);
      assert Next(r.states[i - 1], r.states[i - 1 + 1], r.events[i - 1]);
      assert r.events[..i][..i - 1] == r.events[..i - 1];
      g := Balance(r.states[i - 1], h, size, r.states[i], r.events[i - 1], Offered(r.events[..i - 1]),
                   Received(r.events[..i - 1]));
    }
  }

  lemma {:induction false} InitialSound(b: State, size: nat, max: nat) returns (g: Ghost)
    requires R.Sized(size, max) && Initial(b, size, max)
    ensures Inv(b, g, size) && g.f.q == [] && Pending(b) == []
  {
    hide Q.Rel;
    var l := R.InitialRelated(b.q, size, max);
    S.InitialInv(0);
    InitiallyIdle(b.q, size, max);
    g := Ghost(l, R.START, S.Tokens(0, true));
  }

  lemma {:induction false} InitiallyIdle(q: Q.State, size: nat, max: nat)
    requires R.Initial(q, size, max)
    ensures q.p.PIdle? && q.c.CIdle?
  {}

  /** A successful wait is always followed by a successful inner dequeue: no run fails an assert. */
  lemma {:induction false} WaitThenDequeueSucceeds(r: Run, size: nat, max: nat)
    requires R.Sized(size, max) && IsRun(r, size, max)
    ensures Fault !in r.events
  {
    hide IsRun, Inv;
    var _ := Sound(r, size, max, |r.events|);
  }

  /** Values come out in the order they went in, none lost or repeated. */
  lemma {:induction false} ReceivedInOrder(r: Run, size: nat, max: nat)
    requires R.Sized(size, max) && IsRun(r, size, max)
    ensures Received(r.events) <= Offered(r.events)
  {
    hide IsRun, Inv;
    var _ := Sound(r, size, max, |r.events|);
    assert r.events[..|r.events|] == r.events;
  }

  /** The semaphore's counter, which `size_approx` reports, never exceeds the elements in the queue. */
  lemma {:induction false} TokensBoundElements(r: Run, size: nat, max: nat, i: nat) returns (l: Q.Layout,
                                                                                             q: seq<Q.Value>)
    requires R.Sized(size, max) && IsRun(r, size, max) && i <= |r.events|
    ensures r.states[i].s.count <= |q| && R.Stores(r.states[i].q, q, l)
  {
    hide Q.Rel, R.Stores, Initial, Next;
    var g := Sound(r, size, max, i);
    R.RelStores(r.states[i].q, g.l, g.f, size);
    l, q := g.l, g.f.q;
  }
}
