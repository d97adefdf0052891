/** What holds over every run of the timer queue. */
module TimerRuns {
  import opened Timers

  // ---------------------------------------------------------------- the two indexes

  /** By induction over the entries: as many identities as entries. */
  lemma {:induction false} AsManyIds(heap: map<Addr, Timer>, timers: seq<Entry>, active: set<Id>)
    requires Filed(heap, timers) && SameTimers(heap, timers, active)
    ensures |active| == |timers|
  {
    if timers == [] {
      assert active == {};
    } else {
      var x := timers[0];
      assert x in timers;
      var id := (x.1, heap[x.1].sequence);
      assert forall e :: e in timers <==> e == x || e in timers[1..];
      assert x !in timers[1..];
      AsManyIds(heap, timers[1..], active - {id});
    }
  }

  lemma {:induction false} IndexesAgree(clock: int, es: seq<Event>)
    requires clock > 0 && IsRun(Start(clock), es)
    ensures var s := After(Start(clock), es);
            && Ordered(s.timers) && |s.active| == |s.timers|
            && (forall x :: x in s.timers ==>
                  x.1 in s.heap && s.heap[x.1].expiration == x.0 && IdAt(s, x.1) in s.active)
            && (forall id :: id in s.active ==>
                  id.0 in s.heap && IdAt(s, id.0) == id && (s.heap[id.0].expiration, id.0) in s.timers)
  {
    StartInv(clock);
    RunKeepsInv(Start(clock), es);
    var s := After(Start(clock), es);
    AsManyIds(s.heap, s.timers, s.active);
  }

  /** No step of any run reads, runs or frees a timer that is not allocated, or erases a missing entry. */
  lemma {:induction false} RunsAreSafe(clock: int, es: seq<Event>, e: Event)
    requires clock > 0 && IsRun(Start(clock), es) && Allowed(After(Start(clock), es), e)
    ensures Safe(After(Start(clock), es), e)
  {
    StartInv(clock);
    RunKeepsInv(Start(clock), es);
    NothingDangles(After(Start(clock), es), e);
  }

  // ---------------------------------------------------------------- batches

  lemma {:induction false} CutAt(s: seq<Entry>, now: int)
    requires Ordered(s) && forall e :: e in s ==> e.1 < ADDR_LIMIT
    ensures var p := LowerBound(s, (now, ADDR_LIMIT));
            && s[..p] + s[p..] == s
            && (forall x :: x in s[..p] <==> x in s && x.0 <= now)
            && (forall x :: x in s[p..] <==> x in s && now < x.0)
  {
    hide Ordered;
    LowerBoundSplits(s, now);
    Halves(s, LowerBound(s, (now, ADDR_LIMIT)), now);
  }

  lemma {:induction false} Halves(s: seq<Entry>, p: nat, now: int)
    requires p <= |s| && (forall i :: 0 <= i < p ==> s[i].0 <= now) && (forall i :: p <= i < |s| ==> now < s[i].0)
    ensures s[..p] + s[p..] == s
    ensures forall x :: x in s[..p] <==> x in s && x.0 <= now
    ensures forall x :: x in s[p..] <==> x in s && now < x.0
  {
    assert s[..p] + s[p..] == s;
  }

  lemma {:induction false} ExpiredExactly(s: State)
    requires Inv(s) && Enabled(s, Begin)
    ensures var t := Step(s, Begin);
            && t.batch + t.timers == s.timers
            && (forall x :: x in t.batch <==> x in s.timers && x.0 <= s.clock)
            && (forall x :: x in t.timers <==> x in s.timers && s.clock < x.0)
  {
    hide Logged, Timed, SameTimers, Owned, Ordered, LowerBound;
    CutAt(s.timers, s.clock);
  }

  /** The timers of the entries, read from `heap`. */
  function TimersOf(heap: map<Addr, Timer>, batch: seq<Entry>): seq<Timer>
    requires forall x :: x in batch ==> x.1 in heap
  {
    seq(|batch|, k requires 0 <= k < |batch| => assert batch[k] in batch; heap[batch[k].1])
  }

  /** The batch `b` is being called: as many of its timers as were run were logged, in order, since `log0`. */
  ghost predicate CallingBatch(s: State, log0: seq<Timer>, b: seq<Entry>, ts: seq<Timer>) {
    && s.phase.Calling? && s.batch == b && s.phase.ran <= |b| == |ts| && s.log == log0 + ts[..s.phase.ran]
    && forall k :: 0 <= k < |b| ==> b[k].1 in s.heap && s.heap[b[k].1] == ts[k]
  }

  lemma {:induction false} CallingStep(s: State, e: Event, log0: seq<Timer>, b: seq<Entry>, ts: seq<Timer>)
    requires Inv(s) && CallingBatch(s, log0, b, ts) && Enabled(s, e) && !e.EndCalls?
    ensures CallingBatch(Step(s, e), log0, b, ts)
  {
    hide Logged, Timed, Insert, Remove;
    assert forall k :: 0 <= k < |b| ==> b[k] in s.batch;
    match e
    case Cancel(id) =>
      if id in s.active {
        forall k | 0 <= k < |b| ensures b[k].1 != id.0 {
          assert s.heap[b[k].1].expiration == b[k].0;
        }
      }
    case RunNext => assert ts[..s.phase.ran + 1] == ts[..s.phase.ran] + [ts[s.phase.ran]];
    case _ =>
  }

  lemma {:induction false} CallingRun(s: State, es: seq<Event>, log0: seq<Timer>, b: seq<Entry>, ts: seq<Timer>)
    requires Inv(s) && CallingBatch(s, log0, b, ts) && IsRun(s, es) && EndCalls !in es
    ensures CallingBatch(After(s, es), log0, b, ts)
    decreases |es|
  {
    if es != [] {
      hide CallingBatch, Inv, Step;
      assert es[0] in es;
      CallingStep(s, es[0], log0, b, ts);
      StepKeepsInv(s, es[0]);
      CallingRun(Step(s, es[0]), es[1..], log0, b, ts);
    }
  }

  /**
   Whatever the callbacks add and cancel, when the calls of a batch end its timers have run once
   each, in expiry order, and nothing else has.
   */
  lemma {:induction false} BatchRunsInOrder(s: State, es: seq<Event>)
    requires Inv(s) && Enabled(s, Begin) && EndCalls !in es && IsRun(Step(s, Begin), es + [EndCalls])
    ensures forall x :: x in Expired(s) ==> x.1 in s.heap
    ensures After(Step(s, Begin), es + [EndCalls]).log == s.log + TimersOf(s.heap, Expired(s))
  {
    var b := Expired(s);
    var t := Step(s, Begin);
    BatchBegins(s);
    hide Inv, Step, Enabled;
    var ts := TimersOf(s.heap, b);
    StepKeepsInv(s, Begin);
    RunSplits(t, es, [EndCalls]);
    CallingRun(t, es, s.log, b, ts);
    EndOfCalls(After(t, es), s.log, b, ts);
  }

  lemma {:induction false} BatchBegins(s: State)
    requires Inv(s) && Enabled(s, Begin)
    ensures forall x :: x in Expired(s) ==> x.1 in s.heap
    ensures CallingBatch(Step(s, Begin), s.log, Expired(s), TimersOf(s.heap, Expired(s)))
  {
    hide Logged, Timed, SameTimers, Owned, Ordered, LowerBound;
    assert forall x :: x in Expired(s) ==> x in s.timers;
    assert forall k :: 0 <= k < |Expired(s)| ==> Expired(s)[k] in Expired(s);
  }

  lemma {:induction false} EndOfCalls(s: State, log0: seq<Timer>, b: seq<Entry>, ts: seq<Timer>)
    requires CallingBatch(s, log0, b, ts) && IsRun(s, [EndCalls])
    ensures After(s, [EndCalls]).log == log0 + ts
  {
    assert After(s, [EndCalls]) == Step(s, EndCalls);
    assert ts[..|b|] == ts;
  }

  lemma {:induction false} RunSplits(s: State, es: seq<Event>, fs: seq<Event>)
    requires IsRun(s, es + fs)
    ensures IsRun(s, es) && IsRun(After(s, es), fs) && After(s, es + fs) == After(After(s, es), fs)
    decreases |es|
  {
    if es == [] {
      assert es + fs == fs;
    } else {
      assert (es + fs)[1..] == es[1..] + fs;
      RunSplits(Step(s, es[0]), es[1..], fs);
    }
  }

  /** `x` is `seconds` after `now`, in whole microseconds. */
  ghost predicate Ahead(x: int, now: int, seconds: real) {
    var due := now as real + seconds * 1000000.0;
    due - 1.0 < x as real <= due
  }

  /** One round of `reset`: a repeating timer nobody cancelled is due one interval from now; others are freed. */
  lemma {:induction false} ResetOneInterval(s: State)
    requires Inv(s) && Enabled(s, ResetNext)
    ensures var (a, u) := (s.batch[0].1, Step(s, ResetNext));
            if s.heap[a].interval > 0.0 && (a, s.heap[a].sequence) !in s.canceling then
              && a in u.heap && u.heap[a] == s.heap[a].(expiration := u.heap[a].expiration)
              && Ahead(u.heap[a].expiration, s.clock, s.heap[a].interval)
              && (u.heap[a].expiration, a) in u.timers
            else a !in u.heap
    ensures forall b :: b in s.heap && b != s.batch[0].1 ==> b in Step(s, ResetNext).heap
                                                             && Step(s, ResetNext).heap[b] == s.heap[b]
  {
    hide Logged, Timed, LowerBound, Insert, Remove, SameTimers;
    var a := s.batch[0].1;
    if Repeats(s.heap[a]) { InsertElements(s.timers, (Restarted(s.heap[a], s.clock).expiration, a)); }
  }

  /** What reset owes the batch timer `t` at `a`: queued again an interval after it was reset, or freed. */
  ghost predicate Settled(s: State, a: Addr, t: Timer, since: int, again: bool) {
    if again then
      && a in s.heap && s.heap[a] == t.(expiration := s.heap[a].expiration)
      && (exists now :: since <= now <= s.clock && Ahead(s.heap[a].expiration, now, t.interval))
      && (s.heap[a].expiration, a) in s.timers
    else Gone(s, t.sequence)
  }

  /** `a` is still to be reset, or settled. */
  ghost predicate BeingSettled(s: State, a: Addr, t: Timer, since: int, again: bool) {
    && s.phase.Resetting? && since <= s.clock && (again <==> Repeats(t) && (a, t.sequence) !in s.canceling)
    && (((t.expiration, a) in s.batch && a in s.heap && s.heap[a] == t) || Settled(s, a, t, since, again))
  }

  lemma {:induction false} ResetOneSettles(s: State, a: Addr, t: Timer, since: int, again: bool)
    requires Inv(s) && BeingSettled(s, a, t, since, again) && Enabled(s, ResetNext)
    ensures BeingSettled(Step(s, ResetNext), a, t, since, again)
  {
    if s.batch[0].1 == a {
      ThisSettles(s, a, t, since, again);
    } else {
      AnotherSettles(s, a, t, since, again);
    }
  }

  /** The timer at the head of the batch is the one in question. */
  lemma {:induction false} ThisSettles(s: State, a: Addr, t: Timer, since: int, again: bool)
    requires Inv(s) && BeingSettled(s, a, t, since, again) && Enabled(s, ResetNext) && s.batch[0].1 == a
    ensures BeingSettled(Step(s, ResetNext), a, t, since, again)
  {
    hide Logged, Timed, LowerBound, Insert, Remove, SameTimers;
    var x := s.batch[0];
    assert x in s.batch && s.heap[a].expiration == x.0;
    ResetOneInterval(s);
    hide Ordered, Ahead;
  }

  lemma {:induction false} AnotherSettles(s: State, a: Addr, t: Timer, since: int, again: bool)
    requires Inv(s) && BeingSettled(s, a, t, since, again) && Enabled(s, ResetNext) && s.batch[0].1 != a
    ensures BeingSettled(Step(s, ResetNext), a, t, since, again)
  {
    hide Logged, Timed, LowerBound, Insert, Remove, SameTimers;
    var x := s.batch[0];
    assert forall e :: e in s.batch && e != x ==> e in s.batch[1..];
    if Repeats(s.heap[x.1]) && IdAt(s, x.1) !in s.canceling {
      InsertElements(s.timers, (Restarted(s.heap[x.1], s.clock).expiration, x.1));
    }
    hide Ordered, Owned;
  }

  lemma {:induction false} OthersSettle(s: State, e: Event, a: Addr, t: Timer, since: int, again: bool)
    requires BeingSettled(s, a, t, since, again) && Enabled(s, e) && !e.ResetNext? && !e.Rearm?
    ensures BeingSettled(Step(s, e), a, t, since, again)
  {
    hide Insert, Remove, LowerBound;
  }

  lemma {:induction false} ResetRun(s: State, es: seq<Event>, a: Addr, t: Timer, since: int, again: bool)
    requires Inv(s) && BeingSettled(s, a, t, since, again) && IsRun(s, es) && Rearm !in es
    ensures BeingSettled(After(s, es), a, t, since, again)
    decreases |es|
  {
    if es != [] {
      assert es[0] in es;
      StepKeepsInv(s, es[0]);
      if es[0].ResetNext? {
        ResetOneSettles(s, a, t, since, again);
      } else {
        OthersSettle(s, es[0], a, t, since, again);
      }
      hide Inv, BeingSettled, Step, Enabled;
      ResetRun(Step(s, es[0]), es[1..], a, t, since, again);
    }
  }

  /**
   When reset is over, each timer of the batch has been queued again, one interval after a moment of
   the reset, if it repeats and no callback cancelled it, and freed otherwise.
   */
  lemma {:induction false} ResetSettlesTheBatch(s: State, es: seq<Event>, x: Entry)
    requires Inv(s) && s.phase.Resetting? && x in s.batch && Rearm !in es && IsRun(s, es + [Rearm])
    ensures x.1 in s.heap
    ensures Settled(After(s, es + [Rearm]), x.1, s.heap[x.1], s.clock,
                    s.heap[x.1].interval > 0.0 && IdAt(s, x.1) !in s.canceling)
  {
    var t := s.heap[x.1];
    var again := Repeats(t) && IdAt(s, x.1) !in s.canceling;
    RunSplits(s, es, [Rearm]);
    assert BeingSettled(s, x.1, t, s.clock, again);
    ResetRun(s, es, x.1, t, s.clock, again);
    var u := After(s, es);
    assert After(u, [Rearm]) == Step(u, Rearm);
  }

  // ---------------------------------------------------------------- the terms a timer was created on

  /** The expiry and the interval of each `Create`, in order. */
  function Creations(es: seq<Event>): seq<(int, real)> {
    if es == [] then [] else Creation(es[0]) + Creations(es[1..])
  }

  function Creation(e: Event): seq<(int, real)> {
    if e.Create? then [(e.when, e.interval)] else []
  }

  ghost predicate HasRun(log: seq<Timer>, q: nat) {
    exists i :: 0 <= i < |log| && log[i].sequence == q
  }

  /** The number `q` stands for the `q`-th creation `c[q - 1]`; a timer keeps its first expiry until it has run. */
  ghost predicate OnTerms(t: Timer, log: seq<Timer>, c: seq<(int, real)>) {
    && 1 <= t.sequence <= |c| && t.interval == c[t.sequence - 1].1
    && (!HasRun(log, t.sequence) ==> t.expiration == c[t.sequence - 1].0)
  }

  ghost predicate Terms(s: State, c: seq<(int, real)>) {
    && s.created == |c|
    && (forall a :: a in s.heap ==> OnTerms(s.heap[a], s.log, c))
    && (forall i :: 0 <= i < |s.log| ==> OnTerms(s.log[i], s.log[..i], c))
  }

  /** The timers of the batch that have been called are in the log. */
  ghost predicate CalledAreLogged(s: State) {
    forall a :: a in s.heap && Ran(s.heap, s.phase, s.batch, a) ==> HasRun(s.log, s.heap[a].sequence)
  }

  lemma {:induction false} HasRunStays(log: seq<Timer>, t: Timer)
    ensures forall q :: HasRun(log + [t], q) <==> HasRun(log, q) || q == t.sequence
  {
    forall q | HasRun(log, q) ensures HasRun(log + [t], q) {
      var i :| 0 <= i < |log| && log[i].sequence == q;
      assert (log + [t])[i].sequence == q;
    }
    assert (log + [t])[|log|] == t;
  }

  lemma {:induction false} StepKeepsCalled(s: State, e: Event)
    requires Inv(s) && Enabled(s, e) && CalledAreLogged(s)
    ensures CalledAreLogged(Step(s, e))
  {
    hide Timed, HasRun, SameTimers, Insert, Remove, LowerBound;
    match e
    case RunNext =>
      var k := s.phase.ran;
      HasRunStays(s.log, s.heap[s.batch[k].1]);
      assert s.batch[..k + 1] == s.batch[..k] + [s.batch[k]];
    case EndCalls => assert s.batch[..|s.batch|] == s.batch;
    case ResetNext => ResetKeepsCalled(s);
    case _ =>
  }

  lemma {:induction false} ResetKeepsCalled(s: State)
    requires Inv(s) && Enabled(s, ResetNext) && CalledAreLogged(s)
    ensures CalledAreLogged(Step(s, ResetNext))
    ensures s.batch[0].1 in s.heap && HasRun(s.log, s.heap[s.batch[0].1].sequence)
  {
    hide Timed, HasRun, SameTimers, Insert, Remove, LowerBound;
    var x := s.batch[0];
    assert x in s.batch && s.heap[x.1].expiration == x.0;
    assert Ran(s.heap, s.phase, s.batch, x.1);
    assert forall e :: e in s.batch[1..] ==> e in s.batch;
  }

  lemma {:induction false} CreateKeepsTerms(s: State, e: Event, c: seq<(int, real)>)
    requires Inv(s) && Enabled(s, e) && Terms(s, c) && e.Create?
    ensures Terms(Step(s, e), c + [(e.when, e.interval)])
  {
    hide Placed, Timed, HasRun;
    UnusedNumber(s, s.created + 1);
  }

  lemma {:induction false} LogKeepsTerms(s: State, c: seq<(int, real)>)
    requires Enabled(s, RunNext) && Terms(s, c)
    ensures Terms(Step(s, RunNext), c)
  {
    hide HasRun;
    var t := s.heap[s.batch[s.phase.ran].1];
    HasRunStays(s.log, t);
    var log := s.log + [t];
    assert log[..|s.log|] == s.log && forall i :: 0 <= i < |s.log| ==> log[..i] == s.log[..i];
  }

  /** A timer that has run may have any expiry. */
  lemma {:induction false} RestartedOnTerms(t: Timer, now: int, log: seq<Timer>, c: seq<(int, real)>)
    requires OnTerms(t, log, c) && HasRun(log, t.sequence)
    ensures OnTerms(Restarted(t, now), log, c)
  {
    hide HasRun;
  }

  lemma {:induction false} ResetKeepsTerms(s: State, c: seq<(int, real)>)
    requires Inv(s) && Enabled(s, ResetNext) && CalledAreLogged(s) && Terms(s, c)
    ensures Terms(Step(s, ResetNext), c)
  {
    ResetKeepsCalled(s);
    RestartedOnTerms(s.heap[s.batch[0].1], s.clock, s.log, c);
    hide Inv, CalledAreLogged, OnTerms, Insert, AddTime, Restarted, Repeats;
  }

  lemma {:induction false} OthersKeepTerms(s: State, e: Event, c: seq<(int, real)>)
    requires Enabled(s, e) && Terms(s, c) && !e.Create? && !e.RunNext? && !e.ResetNext?
    ensures Terms(Step(s, e), c)
  {
    hide OnTerms, Insert, Remove, LowerBound;
  }

  lemma {:induction false} StepKeepsTerms(s: State, e: Event, c: seq<(int, real)>)
    requires Inv(s) && Enabled(s, e) && CalledAreLogged(s) && Terms(s, c)
    ensures Terms(Step(s, e), c + Creation(e))
  {
    hide Inv, CalledAreLogged, Step, Enabled, Terms;
    assert !e.Create? ==> c + Creation(e) == c;
    match e
    case Create(_, _, _) => CreateKeepsTerms(s, e, c);
    case RunNext => LogKeepsTerms(s, c);
    case ResetNext => ResetKeepsTerms(s, c);
    case _ => OthersKeepTerms(s, e, c);
  }

  lemma {:induction false} UnusedNumber(s: State, q: nat)
    requires q > s.created && forall i :: 0 <= i < |s.log| ==> s.log[i].sequence <= s.created
    ensures !HasRun(s.log, q)
  {}

  lemma {:induction false} RunKeepsTerms(s: State, es: seq<Event>, c: seq<(int, real)>)
    requires Inv(s) && IsRun(s, es) && CalledAreLogged(s) && Terms(s, c)
    ensures Terms(After(s, es), c + Creations(es))
    decreases |es|
  {
    hide Inv, Step, Enabled, Terms, CalledAreLogged;
    if es == [] {
      assert c + [] == c;
    } else {
      StepKeepsInv(s, es[0]);
      StepKeepsCalled(s, es[0]);
      StepKeepsTerms(s, es[0], c);
      RunKeepsTerms(Step(s, es[0]), es[1..], c + Creation(es[0]));
      assert c + Creation(es[0]) + Creations(es[1..]) == c + Creations(es);
    }
  }

  /**
   In every run a timer has the interval it was created with, is due when it was created for until it
   has run, and its first run is the one of that expiry.
   */
  lemma {:induction false} TermsKept(clock: int, es: seq<Event>)
    requires clock > 0 && IsRun(Start(clock), es)
    ensures Terms(After(Start(clock), es), Creations(es))
  {
    StartInv(clock);
    StartOnTerms(clock);
    hide Inv, IsRun, After, CalledAreLogged, Terms, Creations;
    RunKeepsTerms(Start(clock), es, []);
    assert [] + Creations(es) == Creations(es);
  }

  lemma {:induction false} StartOnTerms(clock: int)
    ensures CalledAreLogged(Start(clock)) && Terms(Start(clock), [])
  {}

  // ---------------------------------------------------------------- one-shot and cancelled timers

  lemma {:induction false} OneShotsRunOnce(clock: int, es: seq<Event>)
    requires clock > 0 && IsRun(Start(clock), es)
    ensures OneShotsOnce(After(Start(clock), es).log)
  {
    StartInv(clock);
    RunKeepsInv(Start(clock), es);
  }

  /** The number `q` was handed out and its timer is gone. */
  ghost predicate Gone(s: State, q: nat) {
    q <= s.created && forall a :: a in s.heap ==> s.heap[a].sequence != q
  }

  /** The only timer numbered `id.1` is in the batch in progress, and marked. */
  ghost predicate Doomed(s: State, id: Id) {
    && id.1 <= s.created && !s.phase.Idle?
    && forall a :: a in s.heap && s.heap[a].sequence == id.1 ==>
         a == id.0 && (s.heap[a].expiration, a) in s.batch && id in s.canceling
  }

  lemma {:induction false} GoneStep(s: State, e: Event, q: nat)
    requires Gone(s, q) && Enabled(s, e)
    ensures Gone(Step(s, e), q)
  {
    hide Insert, Remove, LowerBound;
  }

  lemma {:induction false} DoomedStep(s: State, e: Event, id: Id)
    requires Inv(s) && Doomed(s, id) && Enabled(s, e)
    ensures Doomed(Step(s, e), id) || Gone(Step(s, e), id.1)
    ensures e == Rearm ==> Gone(Step(s, e), id.1)
  {
    if e.ResetNext? {
      DoomedReset(s, id);
    } else {
      hide Inv, Insert, Remove, LowerBound;
    }
  }

  lemma {:induction false} DoomedReset(s: State, id: Id)
    requires Inv(s) && Doomed(s, id) && Enabled(s, ResetNext)
    ensures Doomed(Step(s, ResetNext), id)
  {
    hide Logged, Timed, SameTimers, Owned, Ordered, Insert, Remove, LowerBound;
    var x := s.batch[0];
    assert x in s.batch && s.heap[x.1].expiration == x.0;
    assert forall e :: e in s.batch && e != x ==> e in s.batch[1..];
  }

  /** `GoneStep` over a run: the number is never logged again. */
  lemma {:induction false} GoneForever(s: State, es: seq<Event>, q: nat)
    requires Gone(s, q) && IsRun(s, es)
    ensures Gone(After(s, es), q)
    ensures s.log <= After(s, es).log
    ensures forall t :: t in After(s, es).log[|s.log|..] ==> t.sequence != q
    decreases |es|
  {
    if es != [] {
      var t := Step(s, es[0]);
      GoneStep(s, es[0], q);
      GoneForever(t, es[1..], q);
      var full := After(s, es).log;
      LogGrows(s, es[0], q);
      assert t.log == full[..|t.log|];
      assert full[|s.log|..] == t.log[|s.log|..] + full[|t.log|..];
    }
  }

  lemma {:induction false} LogGrows(s: State, e: Event, q: nat)
    requires Gone(s, q) && Enabled(s, e)
    ensures s.log <= Step(s, e).log
    ensures forall t :: t in Step(s, e).log[|s.log|..] ==> t.sequence != q
  {}

  lemma {:induction false} DoomedRun(s: State, es: seq<Event>, id: Id)
    requires Inv(s) && (Doomed(s, id) || Gone(s, id.1)) && IsRun(s, es)
    ensures Doomed(After(s, es), id) || Gone(After(s, es), id.1)
    ensures Begin in es ==> Gone(After(s, es), id.1)
    decreases |es|
  {
    hide Gone;
    if Gone(s, id.1) {
      GoneForever(s, es, id.1);
    } else if es != [] {
      StepKeepsInv(s, es[0]);
      DoomedStep(s, es[0], id);
      DoomedRun(Step(s, es[0]), es[1..], id);
    }
  }

  /** The id `addTimer` returned, unless its timer is still waiting to be added in the loop. */
  ghost predicate Cancellable(s: State, id: Id) {
    id.1 <= s.created && forall a :: a in s.heap && s.heap[a].sequence == id.1 ==> a == id.0 && a !in s.pending
  }

  lemma {:induction false} CancelDooms(s: State, id: Id)
    requires Inv(s) && Enabled(s, Cancel(id)) && Cancellable(s, id)
    ensures var t := Step(s, Cancel(id)); Doomed(t, id) || Gone(t, id.1)
  {
    hide Logged, Timed, Remove;
    LoggedPhase(s);
    if id !in s.active {
      forall a | a in s.heap && s.heap[a].sequence == id.1 ensures (s.heap[a].expiration, a) in s.batch {}
    }
  }

  lemma {:induction false} LoggedPhase(s: State)
    requires Inv(s)
    ensures s.phase.Idle? ==> s.batch == []
  {}

  /** A cancelled timer never runs after the batch in progress. */
  lemma {:induction false} CancelledNeverRunsAgain(s: State, id: Id, es: seq<Event>, fs: seq<Event>)
    requires Inv(s) && Enabled(s, Cancel(id)) && Cancellable(s, id)
    requires IsRun(Step(s, Cancel(id)), es + fs) && Begin in es
    ensures IsRun(Step(s, Cancel(id)), es)
    ensures var before := After(Step(s, Cancel(id)), es).log;
            var after := After(Step(s, Cancel(id)), es + fs).log;
            before <= after && forall t :: t in after[|before|..] ==> t.sequence != id.1
  {
    var t := Step(s, Cancel(id));
    CancelDooms(s, id);
    StepKeepsInv(s, Cancel(id));
    RunSplits(t, es, fs);
    DoomedRun(t, es, id);
    GoneForever(After(t, es), fs, id.1);
  }

  /** Cancelling does nothing to a timer with another number, even one at the same address. */
  lemma {:induction false} CancelTouchesOnlyItsOwn(s: State, id: Id, a: Addr)
    requires Inv(s) && Enabled(s, Cancel(id)) && a in s.heap && s.heap[a].sequence != id.1
    ensures var t := Step(s, Cancel(id));
            && a in t.heap && t.heap[a] == s.heap[a] && t.pending == s.pending && t.batch == s.batch
            && ((s.heap[a].expiration, a) in t.timers <==> (s.heap[a].expiration, a) in s.timers)
            && (IdAt(s, a) in t.active <==> IdAt(s, a) in s.active)
            && (IdAt(s, a) in t.canceling <==> IdAt(s, a) in s.canceling)
  {
    hide Logged, Timed;
    if id in s.active {
      RemoveElements(s.timers, (s.heap[id.0].expiration, id.0));
    }
  }

  // ---------------------------------------------------------------- cancelling too early

  lemma {:induction false} RunUpTo(s: State, n: nat)
    requires Inv(s) && s.phase.Calling? && s.phase.ran + n <= |s.batch|
    ensures var es := seq(n, _ => RunNext);
            && IsRun(s, es) && After(s, es) == s.(phase := Calling(s.phase.ran + n), log := After(s, es).log)
            && |After(s, es).log| == |s.log| + n
            && (n > 0 ==>
                  && s.batch[s.phase.ran + n - 1].1 in s.heap
                  && After(s, es).log[|s.log| + n - 1] == s.heap[s.batch[s.phase.ran + n - 1].1])
    decreases n
  {
    hide Inv;
    if n > 0 {
      var es := seq(n, _ => RunNext);
      NothingDangles(s, RunNext);
      StepKeepsInv(s, RunNext);
      assert es[1..] == seq(n - 1, _ => RunNext);
      RunUpTo(Step(s, RunNext), n - 1);
    }
  }

  lemma {:induction false} OneStep(s: State, e: Event)
    requires Enabled(s, e)
    ensures IsRun(s, [e]) && After(s, [e]) == Step(s, e)
  {
    assert [e][1..] == [];
  }

  lemma {:induction false} RunJoins(s: State, es: seq<Event>, fs: seq<Event>)
    requires IsRun(s, es) && IsRun(After(s, es), fs)
    ensures IsRun(s, es + fs) && After(s, es + fs) == After(After(s, es), fs)
    decreases |es|
  {
    hide Step, Enabled;
    if es == [] {
      assert es + fs == fs;
    } else {
      assert (es + fs)[1..] == es[1..] + fs;
      RunJoins(Step(s, es[0]), es[1..], fs);
    }
  }

  /** The run of `es`, and one more step. */
  lemma {:induction false} Snoc(s: State, es: seq<Event>, e: Event)
    requires Inv(s) && IsRun(s, es) && Allowed(After(s, es), e)
    ensures IsRun(s, es + [e]) && Enabled(After(s, es), e)
    ensures After(s, es + [e]) == Step(After(s, es), e) && Inv(After(s, es + [e]))
  {
    hide Inv, Allowed, Step;
    RunKeepsInv(s, es);
    NothingDangles(After(s, es), e);
    OneStep(After(s, es), e);
    RunJoins(s, es, [e]);
    StepKeepsInv(After(s, es), e);
  }

  /** The timer at `a` waits to be added, as `t`. */
  ghost predicate Waits(s: State, a: Addr, t: Timer) {
    a in s.pending && a in s.heap && s.heap[a] == t
  }

  /** A batch in progress can be brought to its end, and the timers that wait to be added still wait. */
  lemma {:induction false} FinishReset(s: State, a: Addr, t: Timer) returns (es: seq<Event>)
    requires Inv(s) && s.phase.Resetting? && Waits(s, a, t)
    ensures IsRun(s, es) && After(s, es).phase.Idle? && Waits(After(s, es), a, t) && Inv(After(s, es))
    decreases |s.batch|
  {
    var e := if s.batch == [] then Rearm else ResetNext;
    NothingDangles(s, e);
    assert s.batch != [] ==> s.batch[0] in s.batch;
    StepKeepsInv(s, e);
    OneStep(s, e);
    assert Waits(Step(s, e), a, t) by { hide Insert, Logged, Timed, SameTimers; }
    if s.batch == [] {
      es := [Rearm];
    } else {
      hide Inv, Insert;
      var rest := FinishReset(Step(s, e), a, t);
      RunJoins(s, [e], rest);
      es := [e] + rest;
    }
  }

  lemma {:induction false} FinishBatch(s: State, a: Addr, t: Timer) returns (es: seq<Event>)
    requires Inv(s) && s.phase.Calling? && s.phase.ran <= |s.batch| && Waits(s, a, t)
    ensures IsRun(s, es) && After(s, es).phase.Idle? && Waits(After(s, es), a, t) && Inv(After(s, es))
  {
    hide Inv;
    var n := |s.batch| - s.phase.ran;
    var runs := seq(n, _ => RunNext);
    RunUpTo(s, n);
    Snoc(s, runs, EndCalls);
    var mid := After(s, runs + [EndCalls]);
    var rest := FinishReset(mid, a, t);
    RunJoins(s, runs + [EndCalls], rest);
    es := runs + [EndCalls] + rest;
  }

  /** From an idle state, a timer that waits to be added can be added and come due. */
  lemma {:induction false} WaitingTimerComesDue(s: State, a: Addr, t: Timer) returns (es: seq<Event>)
    requires Inv(s) && s.phase.Idle? && Waits(s, a, t)
    ensures IsRun(s, es) && Inv(After(s, es))
    ensures var u := After(s, es);
            u.phase.Idle? && a in u.heap && u.heap[a] == t && (t.expiration, a) in u.timers && t.expiration <= u.clock
  {
    var e1, e2 := AddInLoop(a), Tick(if t.expiration < s.clock then s.clock else t.expiration);
    InsertElements(s.timers, (t.expiration, a));
    hide Inv, Insert;
    OneStep(s, e1);
    StepKeepsInv(s, e1);
    hide IsRun, After;
    Snoc(s, [e1], e2);
    es := [e1] + [e2];
  }

  /** And then the next batch can run it. */
  lemma {:induction false} WaitingTimerCanRun(s: State, a: Addr, t: Timer) returns (es: seq<Event>, fs: seq<Event>)
    requires Inv(s) && s.phase.Idle? && Waits(s, a, t)
    ensures Begin in es && IsRun(s, es) && IsRun(After(s, es), fs)
    ensures var before, after := After(s, es).log, After(After(s, es), fs).log;
            |before| < |after| && after[|after| - 1] == t
  {
    hide Inv, Step, IsRun, After, Safe;
    es := WaitingTimerComesDue(s, a, t);
    var due := After(s, es);
    Snoc(s, es, Begin);
    es := es + [Begin];
    var k := DueTimerIsReached(due, a);
    fs := seq(k + 1, _ => RunNext);
  }

  lemma {:induction false} DueTimerIsReached(s: State, a: Addr) returns (k: nat)
    requires Inv(s) && s.phase.Idle? && a in s.heap && (s.heap[a].expiration, a) in s.timers
    requires s.heap[a].expiration <= s.clock
    ensures Enabled(s, Begin)
    ensures var es := seq(k + 1, _ => RunNext);
            && IsRun(Step(s, Begin), es)
            && var log := After(Step(s, Begin), es).log; |Step(s, Begin).log| < |log| && log[|log| - 1] == s.heap[a]
  {
    hide Inv, LowerBound;
    var x := (s.heap[a].expiration, a);
    NothingDangles(s, Begin);
    ExpiredExactly(s);
    StepKeepsInv(s, Begin);
    var t := Step(s, Begin);
    assert x in t.batch;
    k :| 0 <= k < |t.batch| && t.batch[k] == x;
    RunUpTo(t, k + 1);
  }

  /** After the cancel, `es` reaches a batch begun later, and in `fs` the cancelled number runs. */
  ghost predicate RunsLater(s: State, id: Id, es: seq<Event>, fs: seq<Event>) {
    && Enabled(s, Cancel(id)) && Begin in es
    && var t := Step(s, Cancel(id));
       && IsRun(t, es) && IsRun(t, es + fs)
       && var before, after := After(t, es).log, After(t, es + fs).log;
          exists i :: |before| <= i < |after| && after[i].sequence == id.1
  }

  /**
   Cancelling a timer that is still waiting to be added misses it, outside a batch and from a
   callback alike: there is a continuation in which a later batch runs it.
   */
  lemma {:induction false} EarlyCancelMisses(s: State, a: Addr) returns (es: seq<Event>, fs: seq<Event>)
    requires Inv(s) && !s.phase.Resetting? && a in s.pending && a in s.heap
    ensures RunsLater(s, IdAt(s, a), es, fs)
  {
    var id, t := IdAt(s, a), s.heap[a];
    NothingDangles(s, Cancel(id));
    StepKeepsInv(s, Cancel(id));
    var s1 := Step(s, Cancel(id));
    assert Waits(s1, a, t) && s1.phase == s.phase && s1.batch == s.batch
           && (s1.phase.Calling? ==> s1.phase.ran <= |s1.batch|);
    hide Inv, Step, Enabled;
    es := [];
    if s1.phase.Calling? {
      es := FinishBatch(s1, a, t);
    }
    var more;
    more, fs := WaitingTimerCanRun(After(s1, es), a, t);
    RunJoins(s1, es, more);
    es := es + more;
    RunJoins(s1, es, fs);
  }

  /** The exact condition for an id that `addTimer` returned: the timer has been added in the loop. */
  lemma {:induction false} CancelExactly(s: State, a: Addr)
    requires Inv(s) && !s.phase.Resetting? && a in s.heap
    ensures (exists es, fs :: RunsLater(s, IdAt(s, a), es, fs)) <==> a in s.pending
  {
    if a in s.pending {
      var es, fs := EarlyCancelMisses(s, a);
      assert RunsLater(s, IdAt(s, a), es, fs);
    } else {
      var id := IdAt(s, a);
      assert Cancellable(s, id) by { hide Logged, Timed, SameTimers, Owned; }
      hide Inv, Step, Enabled, Cancellable;
      if es, fs :| RunsLater(s, id, es, fs) {
        CancelledNeverRunsAgain(s, id, es, fs);
        assert false;
      }
    }
  }

  // ---------------------------------------------------------------- waking up

  /**
   Outside a batch, once the earliest expiry has come and 100 microseconds have passed since the
   alarm was set, the alarm has fired.
   */
  lemma {:induction false} WokenInTime(clock: int, es: seq<Event>)
    requires clock > 0 && IsRun(Start(clock), es)
    ensures var s := After(Start(clock), es);
            s.phase.Idle? && s.timers != [] ==>
              && Wakes(s.alarm, s.timers[0].0)
              && (s.timers[0].0 <= s.clock && (s.alarm.Armed? ==> s.alarm.setAt + 100 <= s.clock) ==> s.alarm.Fired?)
  {
    StartInv(clock);
    RunKeepsInv(Start(clock), es);
  }

  /** Whenever the alarm is set it is for the first expiry, or 100 microseconds ahead if that is later. */
  lemma {:induction false} AlarmIsForTheFirst(s: State, e: Event)
    requires Inv(s) && Enabled(s, e)
    ensures var t := Step(s, e);
            t.alarm.Armed? && t.alarm != s.alarm ==>
              && t.timers != [] && t.alarm.setAt == s.clock
              && var first := t.timers[0].0;
                 t.alarm.deadline == if first < s.clock + 100 then s.clock + 100 else first
  {
    hide Placed, Logged, Timed;
    if e.AddInLoop? {
      IndexIsOrdered(s);
      InsertElements(s.timers, (s.heap[e.b].expiration, e.b));
    }
  }

  lemma {:induction false} IndexIsOrdered(s: State)
    requires Inv(s)
    ensures Ordered(s.timers)
  {}
}
