/**
 The timer queue as a transition system: timers created by any thread, added and cancelled in the
 loop thread (also from inside the callbacks of a running batch), batches of expired timers, and the
 one-shot kernel timer that has to wake the loop.
 */
module Timers {

  // ---------------------------------------------------------------- timers and ordered entries

  type Addr = nat
  type Entry = (int, Addr)
  type Id = (Addr, nat)

  /** The address in the sentry of `getExpired`; no object lives there. */
  const ADDR_LIMIT: nat := 0xFFFF_FFFF_FFFF_FFFF

  datatype Timer = Timer(expiration: int, interval: real, sequence: nat)

  predicate Repeats(t: Timer) {
    t.interval > 0.0
  }

  /** Microseconds, `seconds` truncated to whole ones; only used with positive seconds. */
  function AddTime(now: int, seconds: real): int {
    now + (seconds * 1000000.0).Floor
  }

  function Restarted(t: Timer, now: int): Timer {
    t.(expiration := if Repeats(t) then AddTime(now, t.interval) else 0)
  }

  predicate Less(e: Entry, f: Entry) {
    e.0 < f.0 || (e.0 == f.0 && e.1 < f.1)
  }

  ghost predicate Ordered(s: seq<Entry>) {
    forall i, j :: 0 <= i < j < |s| ==> Less(s[i], s[j])
  }

  /** The ordered set's `insert`. */
  function Insert(s: seq<Entry>, e: Entry): seq<Entry> {
    if s == [] || Less(e, s[0]) then [e] + s
    else if s[0] == e then s
    else [s[0]] + Insert(s[1..], e)
  }

  /** The ordered set's `erase`. */
  function Remove(s: seq<Entry>, e: Entry): seq<Entry> {
    if s == [] then [] else if s[0] == e then s[1..] else [s[0]] + Remove(s[1..], e)
  }

  /** The place of the first entry that is not less than `e`. */
  function LowerBound(s: seq<Entry>, e: Entry): (p: nat)
    ensures p <= |s|
  {
    if s == [] || !Less(s[0], e) then 0 else 1 + LowerBound(s[1..], e)
  }

  lemma {:induction false} InsertElements(s: seq<Entry>, e: Entry)
    requires Ordered(s)
    ensures Ordered(Insert(s, e))
    ensures forall x :: x in Insert(s, e) <==> x in s || x == e
    ensures Insert(s, e) != []
    ensures Insert(s, e)[0] == if s == [] || Less(e, s[0]) then e else s[0]
  {
    if s != [] && !Less(e, s[0]) && s[0] != e {
      var t := Insert(s[1..], e);
      InsertElements(s[1..], e);
      forall x | x in t ensures Less(s[0], x) {}
      assert forall x :: x in s <==> x == s[0] || x in s[1..];
      forall i, j | 0 <= i < j < |t| + 1 ensures Less(([s[0]] + t)[i], ([s[0]] + t)[j]) {
        assert t[j - 1] in t;
      }
    } else {
      forall x | x in s ensures x == e || Less(e, x) {}
    }
  }

  lemma {:induction false} RemoveElements(s: seq<Entry>, e: Entry)
    requires Ordered(s)
    ensures Ordered(Remove(s, e))
    ensures forall x :: x in Remove(s, e) <==> x in s && x != e
    ensures |Remove(s, e)| == |s| - (if e in s then 1 else 0)
  {
    if s != [] {
      var t := Remove(s[1..], e);
      RemoveElements(s[1..], e);
      assert forall x :: x in s <==> x == s[0] || x in s[1..];
      forall x | x in s[1..] ensures Less(s[0], x) {}
      forall x | x in t ensures Less(s[0], x) {}
      if s[0] != e {
        forall i, j | 0 <= i < j < |t| + 1 ensures Less(([s[0]] + t)[i], ([s[0]] + t)[j]) {
          assert t[j - 1] in t;
        }
      }
    }
  }

  /** `getExpired` cuts at the sentry: exactly the entries due by `now` come before it. */
  lemma {:induction false} LowerBoundSplits(s: seq<Entry>, now: int)
    requires Ordered(s) && forall e :: e in s ==> e.1 < ADDR_LIMIT
    ensures var p := LowerBound(s, (now, ADDR_LIMIT));
            && (forall i :: 0 <= i < p ==> s[i].0 <= now) && (forall i :: p <= i < |s| ==> now < s[i].0)
  {
    if s != [] {
      assert s[0] in s;
      if Less(s[0], (now, ADDR_LIMIT)) {
        var t := s[1..];
        LowerBoundSplits(t, now);
        assert forall i :: 1 <= i < |s| ==> s[i] == t[i - 1];
      } else {
        forall i | 0 <= i < |s| ensures now < s[i].0 {
          assert i == 0 || Less(s[0], s[i]);
        }
      }
    }
  }

  // ---------------------------------------------------------------- states

  /** The timer descriptor: it fires once, and setting it again clears a firing not yet read. */
  datatype Alarm = Off | Fired | Armed(deadline: int, setAt: int)

  function Arm(now: int, when: int): Alarm {
    Armed(now + (if when - now < 100 then 100 else when - now), now)
  }

  datatype Phase = Idle | Calling(ran: nat) | Resetting

  datatype State = State(
    clock: int,
    heap: map<Addr, Timer>,      // the timers allocated
    created: nat,                // the sequence numbers handed out
    pending: set<Addr>,          // allocated by addTimer, not yet added in the loop
    timers: seq<Entry>,
    active: set<Id>,
    canceling: set<Id>,
    phase: Phase,
    batch: seq<Entry>,           // the expired entries of the batch in progress, those still to reset
    alarm: Alarm,
    log: seq<Timer>              // the timers run, in order
  )

  datatype Event =
    | Tick(now: int)
    | Create(a: Addr, when: int, interval: real)
    | AddInLoop(b: Addr)
    | Cancel(id: Id)
    | Begin
    | RunNext
    | EndCalls
    | ResetNext
    | Rearm

  /** When each step can be taken: adds and cancels come outside a batch or from its callbacks. */
  predicate Allowed(s: State, e: Event) {
    match e
    case Tick(t) => s.clock <= t
    case Create(a, _, _) => a !in s.heap && a < ADDR_LIMIT
    case AddInLoop(a) => !s.phase.Resetting? && a in s.pending
    case Cancel(id) => !s.phase.Resetting?
    case Begin => s.phase.Idle?
    case RunNext => s.phase.Calling? && s.phase.ran < |s.batch|
    case EndCalls => s.phase.Calling? && s.phase.ran == |s.batch|
    case ResetNext => s.phase.Resetting? && s.batch != []
    case Rearm => s.phase.Resetting? && s.batch == []
  }

  /** Every timer the step reads, runs or frees is still allocated, and every erase finds its entry. */
  predicate Safe(s: State, e: Event)
    requires Allowed(s, e)
  {
    match e
    case AddInLoop(a) => a in s.heap
    case Cancel(id) => id in s.active ==> id.0 in s.heap && (s.heap[id.0].expiration, id.0) in s.timers
    case Begin => forall x :: x in Expired(s) ==> x.1 in s.heap && IdAt(s, x.1) in s.active
    case RunNext => s.batch[s.phase.ran].1 in s.heap
    case ResetNext => s.batch[0].1 in s.heap
    case _ => true
  }

  predicate Enabled(s: State, e: Event) {
    Allowed(s, e) && Safe(s, e)
  }

  function IdAt(s: State, a: Addr): Id
    requires a in s.heap
  {
    (a, s.heap[a].sequence)
  }

  /** The private `insert`, shared by adding and resetting. */
  function Inserted(s: State, a: Addr): State
    requires a in s.heap
  {
    s.(timers := Insert(s.timers, (s.heap[a].expiration, a)), active := s.active + {IdAt(s, a)})
  }

  function EarliestChanged(s: State, when: int): bool {
    s.timers == [] || when < s.timers[0].0
  }

  function Expired(s: State): seq<Entry> {
    s.timers[..LowerBound(s.timers, (s.clock, ADDR_LIMIT))]
  }

  ghost function Step(s: State, e: Event): State
    requires Enabled(s, e)
  {
    match e
    case Tick(t) =>
      s.(clock := t, alarm := if s.alarm.Armed? && s.alarm.deadline <= t then Fired else s.alarm)
    case Create(a, when, interval) =>
      s.(heap := s.heap[a := Timer(when, interval, s.created + 1)], created := s.created + 1,
         pending := s.pending + {a})
    case AddInLoop(a) =>
      var when := s.heap[a].expiration;
      Inserted(s, a).(pending := s.pending - {a},
                      alarm := if EarliestChanged(s, when) then Arm(s.clock, when) else s.alarm)
    case Cancel(id) =>
      if id in s.active then
        s.(timers := Remove(s.timers, (s.heap[id.0].expiration, id.0)), heap := s.heap - {id.0},
           active := s.active - {id})
      else if s.phase.Calling? then s.(canceling := s.canceling + {id})
      else s
    case Begin =>
      var expired := Expired(s);
      s.(alarm := if s.alarm.Fired? then Off else s.alarm, batch := expired, timers := s.timers[|expired|..],
         active := s.active - (set x | x in expired && x.1 in s.heap :: IdAt(s, x.1)),
         phase := Calling(0), canceling := {})
    case RunNext => s.(log := s.log + [s.heap[s.batch[s.phase.ran].1]], phase := Calling(s.phase.ran + 1))
    case EndCalls => s.(phase := Resetting)
    case ResetNext =>
      var a := s.batch[0].1;
      if Repeats(s.heap[a]) && IdAt(s, a) !in s.canceling then
        Inserted(s.(heap := s.heap[a := Restarted(s.heap[a], s.clock)], batch := s.batch[1..]), a)
      else s.(heap := s.heap - {a}, batch := s.batch[1..])
    case Rearm =>
      s.(phase := Idle,
         alarm := if s.timers != [] && s.timers[0].0 > 0 then Arm(s.clock, s.timers[0].0) else s.alarm)
  }

  ghost predicate IsRun(s: State, es: seq<Event>)
    decreases |es|
  {
    es == [] || (Enabled(s, es[0]) && IsRun(Step(s, es[0]), es[1..]))
  }

  ghost function After(s: State, es: seq<Event>): State
    requires IsRun(s, es)
    decreases |es|
  {
    if es == [] then s else After(Step(s, es[0]), es[1..])
  }

  function Start(clock: int): State {
    State(clock, map[], 0, {}, [], {}, {}, Idle, [], Off, [])
  }

  // ---------------------------------------------------------------- what every step keeps

  /** Every allocated timer has its own sequence number, at most the last one handed out. */
  ghost predicate Numbered(heap: map<Addr, Timer>, created: nat) {
    && (forall a :: a in heap ==> a < ADDR_LIMIT && 1 <= heap[a].sequence <= created)
    && (forall a, b :: a in heap && b in heap && a != b ==> heap[a].sequence != heap[b].sequence)
  }

  /** Ordered entries of allocated timers, each filed under its own expiry. */
  ghost predicate Filed(heap: map<Addr, Timer>, timers: seq<Entry>) {
    Ordered(timers) && forall e :: e in timers ==> e.1 in heap && heap[e.1].expiration == e.0
  }

  /** The by-identity index describes the same timers as the by-expiry one. */
  ghost predicate SameTimers(heap: map<Addr, Timer>, timers: seq<Entry>, active: set<Id>) {
    forall id: Id ::
      id in active <==> id.0 in heap && heap[id.0].sequence == id.1 && (heap[id.0].expiration, id.0) in timers
  }

  /** Every allocated timer is in exactly one place: not added yet, queued, or in the batch. */
  ghost predicate Owned(heap: map<Addr, Timer>, pending: set<Addr>, timers: seq<Entry>, batch: seq<Entry>) {
    && pending <= heap.Keys
    && forall a {:trigger heap[a]} :: a in heap ==>
         var e := (heap[a].expiration, a);
         && (a in pending || e in timers || e in batch)
         && !(a in pending && e in timers) && !(a in pending && e in batch) && !(e in timers && e in batch)
  }

  ghost predicate Placed(heap: map<Addr, Timer>, created: nat, pending: set<Addr>, timers: seq<Entry>, active: set<Id>,
                         batch: seq<Entry>) {
    && Numbered(heap, created) && Filed(heap, timers) && Filed(heap, batch)
    && SameTimers(heap, timers, active) && Owned(heap, pending, timers, batch)
  }

  /** The timer at `a` is in the batch and has been run in it. */
  ghost predicate Ran(heap: map<Addr, Timer>, phase: Phase, batch: seq<Entry>, a: Addr)
    requires a in heap
  {
    match phase
    case Idle => false
    case Calling(ran) => ran <= |batch| && (heap[a].expiration, a) in batch[..ran]
    case Resetting => (heap[a].expiration, a) in batch
  }

  ghost predicate OneShotsOnce(log: seq<Timer>) {
    forall i, j :: 0 <= i < j < |log| && log[i].sequence == log[j].sequence ==> Repeats(log[i])
  }

  /** A one-shot timer that has been run is gone, or about to be dropped with its batch. */
  ghost predicate Logged(heap: map<Addr, Timer>, created: nat, phase: Phase, batch: seq<Entry>, log: seq<Timer>) {
    && (phase.Idle? ==> batch == []) && (phase.Calling? ==> phase.ran <= |batch|)
    && (forall i :: 0 <= i < |log| ==> 1 <= log[i].sequence <= created)
    && (forall i, a :: 0 <= i < |log| && a in heap && heap[a].sequence == log[i].sequence ==>
          heap[a].interval == log[i].interval && (Repeats(log[i]) || Ran(heap, phase, batch, a)))
    && OneShotsOnce(log)
  }

  /** The alarm has fired, or will by `expiry` or 100 microseconds after it was set. */
  ghost predicate Wakes(alarm: Alarm, expiry: int) {
    alarm.Fired? || (alarm.Armed? && (alarm.deadline <= expiry || alarm.deadline <= alarm.setAt + 100))
  }

  /** Outside a batch, a non-empty queue has its wake-up; inside one, entries that reset would not arm for have it. */
  ghost predicate Timed(clock: int, timers: seq<Entry>, phase: Phase, alarm: Alarm) {
    && clock > 0 && (alarm.Armed? ==> alarm.setAt <= clock < alarm.deadline)
    && (timers != [] && (phase.Idle? || timers[0].0 <= 0) ==> Wakes(alarm, timers[0].0))
  }

  ghost predicate Inv(s: State) {
    && Placed(s.heap, s.created, s.pending, s.timers, s.active, s.batch)
    && Logged(s.heap, s.created, s.phase, s.batch, s.log)
    && Timed(s.clock, s.timers, s.phase, s.alarm)
  }

  lemma {:induction false} NothingDangles(s: State, e: Event)
    requires Inv(s) && Allowed(s, e)
    ensures Safe(s, e)
  {
    hide Logged, Timed;
    if e.Begin? {
      forall x | x in Expired(s) ensures x.1 in s.heap && IdAt(s, x.1) in s.active {
        assert x in s.timers;
      }
    }
  }

  // ---------------------------------------------------------------- moving one timer from place to place

  lemma {:induction false} PlacedAdd(heap: map<Addr, Timer>, created: nat, pending: set<Addr>, timers: seq<Entry>,
                                     active: set<Id>, batch: seq<Entry>, a: Addr)
    requires Placed(heap, created, pending, timers, active, batch) && a in pending
    ensures a in heap
    ensures Placed(heap, created, pending - {a}, Insert(timers, (heap[a].expiration, a)),
                   active + {(a, heap[a].sequence)}, batch)
  {
    InsertElements(timers, (heap[a].expiration, a));
  }

  lemma {:induction false} PlacedRemove(heap: map<Addr, Timer>, created: nat, pending: set<Addr>, timers: seq<Entry>,
                                        active: set<Id>, batch: seq<Entry>, id: Id)
    requires Placed(heap, created, pending, timers, active, batch) && id in active
    ensures id.0 in heap
    ensures Placed(heap, created, pending + {id.0}, Remove(timers, (heap[id.0].expiration, id.0)), active - {id}, batch)
  {
    RemoveElements(timers, (heap[id.0].expiration, id.0));
  }

  lemma {:induction false} PlacedFree(heap: map<Addr, Timer>, created: nat, pending: set<Addr>, timers: seq<Entry>,
                                      active: set<Id>, batch: seq<Entry>, a: Addr)
    requires Placed(heap, created, pending, timers, active, batch) && a in pending
    ensures Placed(heap - {a}, created, pending - {a}, timers, active, batch)
  {}

  lemma {:induction false} PlacedPop(heap: map<Addr, Timer>, created: nat, pending: set<Addr>, timers: seq<Entry>,
                                     active: set<Id>, batch: seq<Entry>, t: Timer)
    requires Placed(heap, created, pending, timers, active, batch) && batch != []
    requires batch[0].1 in heap && t.sequence == heap[batch[0].1].sequence
    ensures Placed(heap[batch[0].1 := t], created, pending + {batch[0].1}, timers, active, batch[1..])
  {
    assert batch[0] in batch;
    assert forall e :: e in batch[1..] ==> e in batch && e != batch[0];
    assert forall e :: e in batch && e != batch[0] ==> e in batch[1..];
  }

  lemma {:induction false} PlacedCut(heap: map<Addr, Timer>, created: nat, pending: set<Addr>, timers: seq<Entry>,
                                     active: set<Id>, p: nat)
    requires Placed(heap, created, pending, timers, active, []) && p <= |timers|
    ensures Placed(heap, created, pending, timers[p..],
                   active - (set x | x in timers[..p] && x.1 in heap :: (x.1, heap[x.1].sequence)), timers[..p])
  {
    assert timers == timers[..p] + timers[p..];
    assert forall e :: e in timers[..p] ==> e !in timers[p..];
  }

  lemma {:induction false} PlacedCreate(heap: map<Addr, Timer>, created: nat, pending: set<Addr>, timers: seq<Entry>,
                                        active: set<Id>, batch: seq<Entry>, a: Addr, t: Timer)
    requires Placed(heap, created, pending, timers, active, batch) && a !in heap && a < ADDR_LIMIT
             && t.sequence == created + 1
    ensures Placed(heap[a := t], created + 1, pending + {a}, timers, active, batch)
  {}

  // ---------------------------------------------------------------- every step keeps the invariant

  lemma {:induction false} CancelKeepsPlaced(s: State, id: Id)
    requires Inv(s) && Enabled(s, Cancel(id))
    ensures var t := Step(s, Cancel(id)); Placed(t.heap, t.created, t.pending, t.timers, t.active, t.batch)
  {
    if id in s.active {
      PlacedRemove(s.heap, s.created, s.pending, s.timers, s.active, s.batch, id);
      assert id.0 !in s.pending;
      hide Placed, Logged, Timed;
      PlacedFree(s.heap, s.created, s.pending + {id.0}, Remove(s.timers, (s.heap[id.0].expiration, id.0)),
                 s.active - {id}, s.batch, id.0);
      assert s.pending + {id.0} - {id.0} == s.pending;
    }
  }

  lemma {:induction false} ResetKeepsPlaced(s: State)
    requires Inv(s) && Enabled(s, ResetNext)
    ensures var t := Step(s, ResetNext); Placed(t.heap, t.created, t.pending, t.timers, t.active, t.batch)
  {
    var a := s.batch[0].1;
    assert s.batch[0] in s.batch && a !in s.pending;
    hide Placed, Logged, Timed;
    assert s.pending + {a} - {a} == s.pending;
    if Repeats(s.heap[a]) && IdAt(s, a) !in s.canceling {
      var t := Restarted(s.heap[a], s.clock);
      PlacedPop(s.heap, s.created, s.pending, s.timers, s.active, s.batch, t);
      PlacedAdd(s.heap[a := t], s.created, s.pending + {a}, s.timers, s.active, s.batch[1..], a);
    } else {
      PlacedPop(s.heap, s.created, s.pending, s.timers, s.active, s.batch, s.heap[a]);
      assert s.heap[a := s.heap[a]] == s.heap;
      PlacedFree(s.heap, s.created, s.pending + {a}, s.timers, s.active, s.batch[1..], a);
    }
  }

  lemma {:induction false} StepKeepsPlaced(s: State, e: Event)
    requires Inv(s) && Enabled(s, e)
    ensures var t := Step(s, e); Placed(t.heap, t.created, t.pending, t.timers, t.active, t.batch)
  {
    match e
    case Create(a, when, interval) =>
      hide Placed, Logged, Timed;
      PlacedCreate(s.heap, s.created, s.pending, s.timers, s.active, s.batch, a, Timer(when, interval, s.created + 1));
    case AddInLoop(a) =>
      hide Placed, Logged, Timed;
      PlacedAdd(s.heap, s.created, s.pending, s.timers, s.active, s.batch, a);
    case Cancel(id) => CancelKeepsPlaced(s, id);
    case Begin =>
      hide Placed, Timed;
      PlacedCut(s.heap, s.created, s.pending, s.timers, s.active, |Expired(s)|);
      BeginActive(s);
    case ResetNext => ResetKeepsPlaced(s);
    case _ =>
      hide Placed, Logged, Timed;
  }

  lemma {:induction false} BeginActive(s: State)
    requires Enabled(s, Begin)
    ensures Step(s, Begin).active
         == s.active - (set x | x in s.timers[..|Expired(s)|] && x.1 in s.heap :: (x.1, s.heap[x.1].sequence))
  {
    assert Expired(s) == s.timers[..|Expired(s)|];
  }

  lemma {:induction false} RunKeepsLogged(s: State)
    requires Inv(s) && Enabled(s, RunNext)
    ensures var t := Step(s, RunNext); Logged(t.heap, t.created, t.phase, t.batch, t.log)
  {
    hide Timed, SameTimers, Owned;
    var k := s.phase.ran;
    var x := s.batch[k];
    var t := Step(s, RunNext);
    assert x in s.batch && s.batch[..k + 1] == s.batch[..k] + [x];
    assert x !in s.batch[..k];
    forall i, a | 0 <= i < |t.log| && a in t.heap && t.heap[a].sequence == t.log[i].sequence
      ensures t.heap[a].interval == t.log[i].interval && (Repeats(t.log[i]) || Ran(t.heap, t.phase, t.batch, a))
    {
      if i == |s.log| { assert a == x.1; }
    }
  }

  lemma {:induction false} ResetKeepsLogged(s: State)
    requires Inv(s) && Enabled(s, ResetNext)
    ensures var t := Step(s, ResetNext); Logged(t.heap, t.created, t.phase, t.batch, t.log)
  {
    hide Timed, SameTimers, Owned, Insert, Remove;
    var x := s.batch[0];
    assert x in s.batch;
    assert forall e :: e in s.batch && e != x ==> e in s.batch[1..];
  }

  lemma {:induction false} StepKeepsLogged(s: State, e: Event)
    requires Inv(s) && Enabled(s, e)
    ensures var t := Step(s, e); Logged(t.heap, t.created, t.phase, t.batch, t.log)
  {
    hide Timed, Placed, Insert, Remove;
    match e
    case RunNext => RunKeepsLogged(s);
    case ResetNext => ResetKeepsLogged(s);
    case EndCalls => assert s.batch[..|s.batch|] == s.batch;
    case _ =>
  }

  lemma {:induction false} StepKeepsTimed(s: State, e: Event)
    requires Inv(s) && Enabled(s, e)
    ensures var t := Step(s, e); Timed(t.clock, t.timers, t.phase, t.alarm)
  {
    hide Logged, SameTimers, Owned;
    match e
    case AddInLoop(a) => InsertElements(s.timers, (s.heap[a].expiration, a));
    case Cancel(id) =>
      if id in s.active {
        var x := (s.heap[id.0].expiration, id.0);
        var r := Remove(s.timers, x);
        RemoveElements(s.timers, x);
        assert r != [] ==> r[0] in r;
      }
    case Begin => LowerBoundSplits(s.timers, s.clock);
    case ResetNext =>
      var a := s.batch[0].1;
      if Repeats(s.heap[a]) && IdAt(s, a) !in s.canceling {
        InsertElements(s.timers, (Restarted(s.heap[a], s.clock).expiration, a));
      }
    case _ =>
  }

  lemma {:induction false} StepKeepsInv(s: State, e: Event)
    requires Inv(s) && Enabled(s, e)
    ensures Inv(Step(s, e))
  {
    hide Placed, Logged, Timed, Step, Enabled;
    StepKeepsPlaced(s, e);
    StepKeepsLogged(s, e);
    StepKeepsTimed(s, e);
  }

  lemma {:induction false} StartInv(clock: int)
    requires clock > 0
    ensures Inv(Start(clock))
  {}

  lemma {:induction false} RunKeepsInv(s: State, es: seq<Event>)
    requires Inv(s) && IsRun(s, es)
    ensures Inv(After(s, es))
    decreases |es|
  {
    if es != [] {
      StepKeepsInv(s, es[0]);
      RunKeepsInv(Step(s, es[0]), es[1..]);
    }
  }
}
