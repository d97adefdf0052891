/**
 The lightweight semaphore for one signalling and one waiting thread (`LightweightSemaphore`): a
 counter changed by fetch-and-add in front of a kernel semaphore, with timeouts.  One step per
 atomic access or kernel call; a failed `assert` is a `Fault` step.
 */
module Semaphore {

  datatype Option<T> = None | Some(value: T)

  /** `signal(count)`: the fetch-and-add, then one kernel post if a waiter may be blocked. */
  datatype Signaller = SIdle | SAdd(count: nat) | SPost

  /** A wait with no spinning (`tryWait`), or one that may block for `timeout` (negative: for ever). */
  datatype Mode = Try | Timed(timeout: int)

  datatype Waiter =
    | WIdle
    | WTryLoad(m: Mode)
    | WTryTake
    | WSpin(spin: nat, timeout: int)
    | WSpinTake
    | WEnter(timeout: int)
    | WKernel(timeout: int)
    | WRestore
    | WRetry
    | WTryKernel

  /** `count` is `m_count`, `posts` the kernel semaphore's value. */
  datatype State = State(count: int, posts: nat, p: Signaller, c: Waiter)

  datatype Event =
    | Tau
    | SignalCall(count: nat)
    | Signalled(count: nat)
    | SignalDone
    | WaitCall(m: Mode)
    | Acquired
    | Refused
    | Fault

  const SPINS: nat := 1024

  /** The signaller's next step inside a call. */
  function SignallerStep(s: State): (State, Event)
    requires !s.p.SIdle?
  {
    match s.p
    case SAdd(n) =>
      // asserted: at most one waiter owes a token
      if s.count < -1 then (s, Fault)
      else (s.(count := s.count + n, p := if s.count < 0 then SPost else SIdle), Signalled(n))
    case SPost => (s.(posts := s.posts + 1, p := SIdle), SignalDone)
  }

  /** The signaller begins a call, or takes its step in one. */
  predicate SignallerNext(s: State, s': State, e: Event) {
    if s.p.SIdle? then e.SignalCall? && s' == s.(p := SAdd(e.count))
    else
      var (t, f) := SignallerStep(s);
      s' == t && e == f
  }

  /** The waiter's next step inside a call: the kernel wait takes a post if there is one. */
  function WaiterStep(s: State): (State, Event)
    requires !s.c.WIdle?
  {
    match s.c
    case WTryLoad(m) =>
      if s.count > 0 then (s.(c := WTryTake), Tau)
      else if m.Try? then (s.(c := WIdle), Refused)
      else (s.(c := WSpin(SPINS, m.timeout)), Tau)
    case WTryTake => (s.(count := s.count - 1, c := WIdle), Acquired)
    case WSpin(spin, timeout) =>
      (s.(c := if spin == 0 then WEnter(timeout) else if s.count > 0 then WSpinTake else WSpin(spin - 1, timeout)), Tau)
    case WSpinTake => (s.(count := s.count - 1, c := WIdle), Acquired)
    case WEnter(timeout) =>
      if s.count > 0 then (s.(count := s.count - 1, c := WIdle), Acquired)
      else (s.(count := s.count - 1, c := if timeout == 0 then WRestore else WKernel(timeout)), Tau)
    case WKernel(_) =>
      if s.posts > 0 then (s.(posts := s.posts - 1, c := WIdle), Acquired) else (s.(c := WRestore), Tau)
    case WRestore =>
      if s.count < 0 then (s.(count := s.count + 1, c := WIdle), Refused)
      else (s.(count := s.count + 1, c := WRetry), Tau)
    case WRetry => (s.(count := s.count - 1, c := if s.count > 0 then WTryKernel else WRestore), Tau)
    case WTryKernel =>
      if s.posts > 0 then (s.(posts := s.posts - 1, c := WIdle), Acquired) else (s.(c := WRestore), Tau)
  }

  /** The waiter begins a call, or takes its step in one; the kernel wait may also time out or fail. */
  predicate WaiterNext(s: State, s': State, e: Event) {
    if s.c.WIdle? then e.WaitCall? && s' == s.(c := WTryLoad(e.m))
    else
      var (t, f) := WaiterStep(s);
      (s' == t && e == f) || (s.c.WKernel? && e == Tau && s' == s.(c := WRestore))
  }

  predicate Next(s: State, s': State, e: Event) {
    SignallerNext(s, s', e) || WaiterNext(s, s', e)
  }

  // ---------------------------------------------------------------- the specification

  /** A plain counter of tokens, and whether there was none at some moment of the wait in progress. */
  datatype Tokens = Tokens(avail: nat, sawNone: bool)

  predicate Allowed(t: Tokens, e: Event) {
    match e
    case Acquired => t.avail > 0
    case Refused => t.sawNone
    case Fault => false
    case _ => true
  }

  function Apply(t: Tokens, e: Event): Tokens {
    var avail := match e
                 case Signalled(n) => t.avail + n
                 case Acquired => if t.avail > 0 then t.avail - 1 else 0
                 case _ => t.avail;
    Tokens(avail, avail == 0 || (t.sawNone && !e.WaitCall?))
  }

  // ---------------------------------------------------------------- the invariant

  /** The waiter has taken its unit off the counter and has not yet got a token for it. */
  predicate Owing(c: Waiter) { c.WKernel? || c.WRestore? || c.WTryKernel? }

  /** Kernel posts made, or about to be made by a signaller past its fetch-and-add. */
  function Posts(s: State): nat { s.posts + if s.p.SPost? then 1 else 0 }

  /**
   The counter is the number of tokens, less one while the waiter owes; it is never below -1; at
   most one kernel post is outstanding, and there is one exactly when the waiter owes and has been
   signalled (or is putting its unit back only to find that it has been).
   */
  ghost predicate Core(s: State, t: Tokens) {
    && s.count == t.avail - (if Owing(s.c) then 1 else 0)
    && s.count >= -1
    && Posts(s) == (if (Owing(s.c) && s.count >= 0) || s.c.WRetry? then 1 else 0)
    && (s.c.WRetry? || s.c.WTryTake? || s.c.WSpinTake? ==> s.count >= 1)
    && (s.c.WTryKernel? ==> s.count >= 0)
    && (t.avail == 0 ==> t.sawNone)
  }

  /** The same while every signal in progress gives at least one token. */
  ghost predicate Inv(s: State, t: Tokens) {
    Core(s, t) && (s.p.SAdd? ==> s.p.count >= 1)
  }

  lemma {:induction false} InitialInv(initial: nat)
    ensures Inv(State(initial, 0, SIdle, WIdle), Tokens(initial, initial == 0))
  {}

  /**
   The fetch-and-add of `signal(n)` keeps the invariant exactly when it gives a token or finds no
   waiter that owes one.
   */
  lemma {:induction false} SignalKeepsCore(s: State, t: Tokens, s': State, n: nat)
    requires Core(s, t) && s.p == SAdd(n) && SignallerNext(s, s', Signalled(n))
    ensures Core(s', Apply(t, Signalled(n))) <==> n >= 1 || s.count >= 0
  {}

  /** All the other steps keep it, and are ones the token counter allows, whatever the counts. */
  lemma {:induction false} OthersKeepCore(s: State, t: Tokens, s': State, e: Event)
    requires Core(s, t) && Next(s, s', e) && !e.Signalled?
    ensures Allowed(t, e) && Core(s', Apply(t, e))
  {
    hide SignallerNext, WaiterNext, Core;
    if SignallerNext(s, s', e) { SignallerKeepsCore(s, t, s', e); } else { WaiterKeepsCore(s, t, s', e); }
  }

  lemma {:induction false} SignallerKeepsCore(s: State, t: Tokens, s': State, e: Event)
    requires Core(s, t) && SignallerNext(s, s', e) && !e.Signalled?
    ensures Allowed(t, e) && Core(s', Apply(t, e))
  {}

  lemma {:induction false} WaiterKeepsCore(s: State, t: Tokens, s': State, e: Event)
    requires Core(s, t) && WaiterNext(s, s', e)
    ensures Allowed(t, e) && Core(s', Apply(t, e))
  {}

  /** Every step is one that the token counter allows, and the invariant is kept. */
  lemma {:induction false} Step(s: State, t: Tokens, s': State, e: Event)
    requires Inv(s, t) && Next(s, s', e) && (e.SignalCall? ==> e.count >= 1)
    ensures Allowed(t, e) && Inv(s', Apply(t, e))
  {
    AddsComeFromCalls(s, s', e);
    hide SignallerNext, WaiterNext, Core;
    if e.Signalled? { SignalKeepsCore(s, t, s', e.count); } else { OthersKeepCore(s, t, s', e); }
  }

  lemma {:induction false} AddsComeFromCalls(s: State, s': State, e: Event)
    requires Next(s, s', e)
    ensures s'.p.SAdd? ==> s'.p == s.p || e == SignalCall(s'.p.count)
    ensures e.Signalled? ==> s.p == SAdd(e.count) && SignallerNext(s, s', e)
  {}

  // ---------------------------------------------------------------- runs

  datatype Run = Run(states: seq<State>, events: seq<Event>)

  /** The interleavings of one signaller and one waiter on a semaphore built with `initial` tokens. */
  ghost predicate Interleaving(r: Run, initial: nat) {
    && |r.states| == |r.events| + 1 && r.states[0] == State(initial, 0, SIdle, WIdle)
    && forall i :: 0 <= i < |r.events| ==> Next(r.states[i], r.states[i + 1], r.events[i])
  }

  /** Those in which every signal gives at least one token. */
  ghost predicate IsRun(r: Run, initial: nat) {
    && Interleaving(r, initial)
    && forall i :: 0 <= i < |r.events| && r.events[i].SignalCall? ==> r.events[i].count >= 1
  }

  ghost function After(initial: nat, es: seq<Event>): Tokens {
    if es == [] then Tokens(initial, initial == 0) else Apply(After(initial, es[..|es| - 1]), es[|es| - 1])
  }

  lemma {:induction false} RunInv(r: Run, initial: nat, i: nat)
    requires IsRun(r, initial) && i <= |r.events|
    ensures Inv(r.states[i], After(initial, r.events[..i]))
    ensures i < |r.events| ==> Allowed(After(initial, r.events[..i]), r.events[i])
  {
    hide Inv, Next, Apply, Allowed;
    if i == 0 {
      InitialInv(initial);
    } else {
      RunInv(r, initial, i - 1);
      assert r.events[..i][..i - 1] == r.events[..i - 1];
      assert Next(r.states[i - 1], r.states[i - 1 + 1], r.events[i - 1]);
      Step(r.states[i - 1], After(initial, r.events[..i - 1]), r.states[i], r.events[i - 1]);
    }
    if i < |r.events| {
      assert Next(r.states[i], r.states[i + 1], r.events[i]);
      Step(r.states[i], After(initial, r.events[..i]), r.states[i + 1], r.events[i]);
    }
  }

  function Given(es: seq<Event>): int {
    if es == [] then 0 else Given(es[..|es| - 1]) + (var e := es[|es| - 1]; if e.Signalled? then e.count else 0)
  }

  function Taken(es: seq<Event>): int {
    if es == [] then 0 else Taken(es[..|es| - 1]) + (if es[|es| - 1].Acquired? then 1 else 0)
  }

  lemma {:induction false} TokensAre(r: Run, initial: nat, i: nat)
    requires IsRun(r, initial) && i <= |r.events|
    ensures After(initial, r.events[..i]).avail == initial + Given(r.events[..i]) - Taken(r.events[..i])
  {
    hide Inv, Next;
    if i > 0 {
      TokensAre(r, initial, i - 1);
      RunInv(r, initial, i - 1);
      assert r.events[..i][..i - 1] == r.events[..i - 1];
    }
  }

  /** Tokens are conserved: no wait succeeds without one, under every interleaving and timeout. */
  lemma {:induction false} TokensConserved(r: Run, initial: nat, i: nat)
    requires IsRun(r, initial) && i <= |r.events|
    ensures Taken(r.events[..i]) <= initial + Given(r.events[..i])
    ensures !Owing(r.states[i].c) ==> r.states[i].count == initial + Given(r.events[..i]) - Taken(r.events[..i])
    ensures r.states[i].count >= -1 && Posts(r.states[i]) <= 1
  {
    TokensAre(r, initial, i);
    RunInv(r, initial, i);
  }

  /** A waiter in the kernel that has been signalled finds a post, or one is about to be made. */
  lemma {:induction false} NoLostWakeup(r: Run, initial: nat, i: nat)
    requires IsRun(r, initial) && i <= |r.events| && r.states[i].c.WKernel?
    ensures Taken(r.events[..i]) < initial + Given(r.events[..i]) <==> Posts(r.states[i]) == 1
  {
    TokensAre(r, initial, i);
    RunInv(r, initial, i);
  }

  /** When a wait returns, true or false, no kernel post is left over. */
  lemma {:induction false} NoPostLeftOver(r: Run, initial: nat, i: nat)
    requires IsRun(r, initial) && i < |r.events| && (r.events[i].Acquired? || r.events[i].Refused?)
    ensures Posts(r.states[i + 1]) == 0
  {
    RunInv(r, initial, i + 1);
    assert Next(r.states[i], r.states[i + 1], r.events[i]);
  }

  lemma {:induction false} SawNoneMeans(initial: nat, es: seq<Event>, i: nat, j: nat) returns (k: nat)
    requires i < j <= |es| && es[i].WaitCall? && After(initial, es[..j]).sawNone
    requires forall m :: i < m < j ==> !es[m].WaitCall?
    ensures i < k <= j && After(initial, es[..k]).avail == 0
    decreases j
  {
    assert es[..j][..j - 1] == es[..j - 1];
    if After(initial, es[..j]).avail == 0 {
      k := j;
    } else {
      k := SawNoneMeans(initial, es, i, j - 1);
    }
  }

  /** A wait gives up only if at some moment of the call every token signalled had been taken. */
  lemma {:induction false} RefusedMeansNone(r: Run, initial: nat, i: nat, j: nat) returns (k: nat)
    requires IsRun(r, initial) && i < j < |r.events|
    requires r.events[i].WaitCall? && r.events[j].Refused? && forall m :: i < m < j ==> !r.events[m].WaitCall?
    ensures i < k <= j && Taken(r.events[..k]) == initial + Given(r.events[..k])
  {
    RunInv(r, initial, j);
    k := SawNoneMeans(initial, r.events, i, j);
    TokensAre(r, initial, k);
  }

  // ---------------------------------------------------------------- calls and what they come to

  /** The calls in progress: a signal that has not yet given its tokens, and a wait. */
  datatype Calls = Calls(signal: Option<nat>, wait: Option<Mode>)

  /** Read off the events alone. */
  function InProgress(es: seq<Event>): Calls {
    if es == [] then Calls(None, None) else Noted(InProgress(es[..|es| - 1]), es[|es| - 1])
  }

  function Noted(o: Calls, e: Event): Calls {
    match e
    case SignalCall(n) => o.(signal := Some(n))
    case Signalled(_) => o.(signal := None)
    case WaitCall(m) => o.(wait := Some(m))
    case Acquired => o.(wait := None)
    case Refused => o.(wait := None)
    case _ => o
  }

  /** A signal gives as many tokens as it was called with, once; a wait returns once. */
  predicate Answers(o: Calls, e: Event) {
    match e
    case SignalCall(_) => o.signal.None?
    case Signalled(n) => o.signal == Some(n)
    case WaitCall(_) => o.wait.None?
    case Acquired => o.wait.Some?
    case Refused => o.wait.Some?
    case _ => true
  }

  ghost predicate Signals(p: Signaller, o: Option<nat>) {
    o == if p.SAdd? then Some(p.count) else None
  }

  /** `tryWait` does not spin or block; a wait that does keeps its timeout. */
  ghost predicate Waits(c: Waiter, o: Option<Mode>) {
    match c
    case WIdle => o.None?
    case WTryLoad(m) => o == Some(m)
    case WTryTake => o.Some?
    case WSpin(_, timeout) => o == Some(Timed(timeout))
    case WEnter(timeout) => o == Some(Timed(timeout))
    case WKernel(timeout) => o == Some(Timed(timeout)) && timeout != 0
    case _ => o.Some? && o.value.Timed?
  }

  lemma {:induction false} StepAnswers(s: State, s': State, e: Event, o: Calls)
    requires Signals(s.p, o.signal) && Waits(s.c, o.wait) && Next(s, s', e)
    ensures Answers(o, e) && Signals(s'.p, Noted(o, e).signal) && Waits(s'.c, Noted(o, e).wait)
  {}

  /** In every interleaving each signal gives exactly what it was asked to, and each wait returns once. */
  lemma {:induction false} CallsAreAnswered(r: Run, initial: nat, i: nat)
    requires Interleaving(r, initial) && i <= |r.events|
    ensures var o := InProgress(r.events[..i]);
            && Signals(r.states[i].p, o.signal) && Waits(r.states[i].c, o.wait)
            && (i < |r.events| ==> Answers(o, r.events[i]))
  {
    hide Next, Signals, Waits, Noted, Answers;
    if i == 0 {
      NothingInProgress(initial);
    } else {
      CallsAreAnswered(r, initial, i - 1);
      assert r.events[..i][..i - 1] == r.events[..i - 1];
      assert Next(r.states[i - 1], r.states[i - 1 + 1], r.events[i - 1]);
      StepAnswers(r.states[i - 1], r.states[i], r.events[i - 1], InProgress(r.events[..i - 1]));
    }
    if i < |r.events| {
      assert Next(r.states[i], r.states[i + 1], r.events[i]);
      StepAnswers(r.states[i], r.states[i + 1], r.events[i], InProgress(r.events[..i]));
    }
  }

  lemma {:induction false} NothingInProgress(initial: nat)
    ensures var s := State(initial, 0, SIdle, WIdle); Signals(s.p, None) && Waits(s.c, None)
  {}

  /** The waiter is past the kernel wait, or past a timeout of zero. */
  predicate Returning(c: Waiter) { c.WRestore? || c.WRetry? || c.WTryKernel? }

  lemma {:induction false} ReturningComesFrom(s: State, s': State, e: Event)
    requires Next(s, s', e) && Returning(s'.c)
    ensures Returning(s.c) || s.c.WKernel? || s.c == WEnter(0)
    ensures !e.WaitCall?
  {}

  lemma {:induction false} RefusedComesFrom(s: State, s': State, e: Event)
    requires Next(s, s', e) && e.Refused?
    ensures Returning(s.c) || s.c == WTryLoad(Try)
  {}

  /** Once a blocking wait is returning it has been in the kernel, unless its timeout was zero. */
  lemma {:induction false} WasInKernel(r: Run, initial: nat, i: nat, j: nat, t: int) returns (k: nat)
    requires Interleaving(r, initial) && i < j <= |r.events| && r.events[i] == WaitCall(Timed(t)) && t != 0
    requires Returning(r.states[j].c) && forall m :: i < m < j ==> !r.events[m].WaitCall?
    ensures i < k <= j && r.states[k].c == WKernel(t)
    decreases j
  {
    hide Signals, Waits, Answers, Next;
    assert Next(r.states[j - 1], r.states[j - 1 + 1], r.events[j - 1]);
    ReturningComesFrom(r.states[j - 1], r.states[j], r.events[j - 1]);
    CallsAreAnswered(r, initial, j - 1);
    WaitInProgress(r.events, i, j - 1);
    var o := InProgress(r.events[..j - 1]).wait;
    KernelKeepsTimeout(r.states[j - 1].c, o);
    if r.states[j - 1].c.WKernel? {
      k := j - 1;
    } else {
      k := WasInKernel(r, initial, i, j - 1, t);
    }
  }

  lemma {:induction false} KernelKeepsTimeout(c: Waiter, o: Option<Mode>)
    requires Waits(c, o)
    ensures c.WKernel? ==> o == Some(Timed(c.timeout))
    ensures c == WEnter(0) ==> o == Some(Timed(0))
    ensures c == WTryLoad(Try) ==> o == Some(Try)
    ensures c.WIdle? <==> o.None?
  {}

  lemma {:induction false} WaitInProgress(es: seq<Event>, i: nat, j: nat)
    requires i < j <= |es| && es[i].WaitCall? && forall m :: i < m < j ==> !es[m].WaitCall?
    ensures InProgress(es[..j]).wait in [None, Some(es[i].m)]
    decreases j
  {
    assert es[..j][..j - 1] == es[..j - 1];
    if j > i + 1 { WaitInProgress(es, i, j - 1); }
  }

  /** A wait with a timeout, or without end, is never given up before it has waited in the kernel for that long. */
  lemma {:induction false} RefusedAfterKernel(r: Run, initial: nat, i: nat, j: nat, t: int) returns (k: nat)
    requires Interleaving(r, initial) && i < j < |r.events| && r.events[i] == WaitCall(Timed(t)) && t != 0
    requires r.events[j].Refused? && forall m :: i < m < j ==> !r.events[m].WaitCall?
    ensures i < k <= j && r.states[k].c == WKernel(t)
  {
    hide Signals, Waits, Answers, Next;
    assert Next(r.states[j], r.states[j + 1], r.events[j]);
    RefusedComesFrom(r.states[j], r.states[j + 1], r.events[j]);
    CallsAreAnswered(r, initial, j);
    WaitInProgress(r.events, i, j);
    KernelKeepsTimeout(r.states[j].c, InProgress(r.events[..j]).wait);
    k := WasInKernel(r, initial, i, j, t);
  }

  // ---------------------------------------------------------------- a token given is taken

  /** How many steps of its own a waiter needs at most once there is a token for it. */
  function WaitSteps(c: Waiter): nat {
    match c
    case WIdle => 0
    case WTryLoad(_) => 2
    case WTryTake => 1
    case WSpin(_, _) => 2
    case WSpinTake => 1
    case WEnter(_) => 1
    case WKernel(_) => 4
    case WRestore => 3
    case WRetry => 2
    case WTryKernel => 1
  }

  /** With a token about and no signal on its way, each step of the waiter comes closer to taking it. */
  lemma {:induction false} WaiterAdvances(s: State, t: Tokens, s': State, e: Event)
    requires Core(s, t) && s.p.SIdle? && t.avail > 0 && !s.c.WIdle? && WaiterNext(s, s', e)
    ensures e == Acquired || (e == Tau && !s'.c.WIdle? && WaitSteps(s'.c) < WaitSteps(s.c))
    ensures s'.p.SIdle?
  {}

  /**
   In every run, once a token has been given and no signal is on its way, the waiter inside a call takes
   it within its next four steps, whatever spinning, blocking or timing out it was at.
   */
  lemma {:induction false} TokenIsTaken(r: Run, initial: nat, i: nat) returns (m: nat)
    requires IsRun(r, initial) && i <= |r.events| && !r.states[i].c.WIdle?
    requires i + WaitSteps(r.states[i].c) <= |r.events|
    requires Taken(r.events[..i]) < initial + Given(r.events[..i])
    requires forall k :: i <= k <= i + WaitSteps(r.states[i].c) ==> r.states[k].p.SIdle?
    ensures i <= m < i + WaitSteps(r.states[i].c) <= i + 4 && r.events[m] == Acquired
    decreases WaitSteps(r.states[i].c)
  {
    hide Core, SignallerNext, WaiterNext, Given, Taken;
    RunInv(r, initial, i);
    TokensAre(r, initial, i);
    assert Next(r.states[i], r.states[i + 1], r.events[i]);
    SignallerLeavesIdle();
    WaiterAdvances(r.states[i], After(initial, r.events[..i]), r.states[i + 1], r.events[i]);
    if r.events[i] == Acquired {
      m := i;
    } else {
      SameTokens(r.events, i);
      m := TokenIsTaken(r, initial, i + 1);
    }
  }

  lemma {:induction false} SignallerLeavesIdle()
    ensures forall s, s', e :: SignallerNext(s, s', e) && s.p.SIdle? ==> !s'.p.SIdle?
  {}

  lemma {:induction false} SameTokens(es: seq<Event>, i: nat)
    requires i < |es| && es[i] == Tau
    ensures Given(es[..i + 1]) == Given(es[..i]) && Taken(es[..i + 1]) == Taken(es[..i])
  {
    assert es[..i + 1][..i] == es[..i];
  }

  // ---------------------------------------------------------------- signalling no token

  /** The run `r` followed by one more step. */
  function Extended(r: Run, s: State, e: Event): Run {
    Run(r.states + [s], r.events + [e])
  }

  function Last(r: Run): State {
    if r.states == [] then State(0, 0, SIdle, WIdle) else r.states[|r.states| - 1]
  }

  /** A run on which every signal carries the count `n`. */
  ghost predicate UniformRun(r: Run, initial: nat, n: nat) {
    Interleaving(r, initial) && forall i :: 0 <= i < |r.events| && r.events[i].SignalCall? ==> r.events[i].count == n
  }

  lemma {:induction false} Extend(r: Run, initial: nat, n: nat, s: State, e: Event) returns (x: Run)
    requires UniformRun(r, initial, n) && Next(Last(r), s, e) && (e.SignalCall? ==> e.count == n)
    ensures UniformRun(x, initial, n) && x == Extended(r, s, e) && Last(x) == s
    ensures Given(x.events) == Given(r.events) + if e.Signalled? then e.count else 0
    ensures Taken(x.events) == Taken(r.events) + if e.Acquired? then 1 else 0
  {
    x := Extended(r, s, e);
    assert x.events[..|r.events|] == r.events;
    forall i | 0 <= i < |x.events| ensures Next(x.states[i], x.states[i + 1], x.events[i]) {
      if i < |r.events| {
        assert Next(r.states[i], r.states[i + 1], r.events[i]);
        assert x.states[i] == r.states[i] && x.states[i + 1] == r.states[i + 1];
      }
    }
  }

  /** The waiter can take every token there is, one `tryWait` after the other. */
  lemma {:induction false} DrainTokens(r: Run, initial: nat, n: nat) returns (x: Run)
    requires UniformRun(r, initial, n) && Last(r).p.SIdle? && Last(r).c.WIdle? && Last(r).posts == 0
    requires Last(r).count >= 0 && Given(r.events) == 0 && Taken(r.events) == initial - Last(r).count
    ensures UniformRun(x, initial, n) && Last(x) == State(0, 0, SIdle, WIdle)
    ensures Given(x.events) == 0 && Taken(x.events) == initial
    decreases Last(r).count
  {
    hide UniformRun, Given, Taken, Extended, Last;
    x := r;
    if Last(r).count > 0 {
      var s := Last(r);
      x := Extend(x, initial, n, s.(c := WTryLoad(Try)), WaitCall(Try));
      x := Extend(x, initial, n, s.(c := WTryTake), Tau);
      x := Extend(x, initial, n, s.(count := s.count - 1), Acquired);
      x := DrainTokens(x, initial, n);
    }
  }

  /** With no token about, the spinning waiter goes to the kernel. */
  lemma {:induction false} SpinToKernel(r: Run, initial: nat, n: nat, spin: nat) returns (x: Run)
    requires UniformRun(r, initial, n) && Last(r) == State(0, 0, SIdle, WSpin(spin, -1))
    ensures UniformRun(x, initial, n) && Last(x) == State(-1, 0, SIdle, WKernel(-1))
    ensures Given(x.events) == Given(r.events) && Taken(x.events) == Taken(r.events)
    decreases spin
  {
    hide UniformRun, Given, Taken, Extended, Last;
    if spin == 0 {
      x := Extend(r, initial, n, State(0, 0, SIdle, WEnter(-1)), Tau);
      x := Extend(x, initial, n, State(-1, 0, SIdle, WKernel(-1)), Tau);
    } else {
      x := Extend(r, initial, n, State(0, 0, SIdle, WSpin(spin - 1, -1)), Tau);
      x := SpinToKernel(x, initial, n, spin - 1);
    }
  }

  lemma {:induction false} StartRun(r: Run, initial: nat, n: nat)
    requires r == Run([State(initial, 0, SIdle, WIdle)], [])
    ensures UniformRun(r, initial, n) && Last(r) == r.states[0] && Given(r.events) == 0 == Taken(r.events)
  {}

  /** Whatever the initial tokens, a waiter can come to be blocked in the kernel with every token taken. */
  lemma {:induction false} BlockedWaiter(initial: nat, n: nat) returns (x: Run)
    ensures UniformRun(x, initial, n) && Last(x) == State(-1, 0, SIdle, WKernel(-1))
    ensures Given(x.events) == 0 && Taken(x.events) == initial
  {
    x := Run([State(initial, 0, SIdle, WIdle)], []);
    StartRun(x, initial, n);
    hide UniformRun, Given, Taken, Extended, Last;
    x := DrainTokens(x, initial, n);
    x := Extend(x, initial, n, State(0, 0, SIdle, WTryLoad(Timed(-1))), WaitCall(Timed(-1)));
    x := Extend(x, initial, n, State(0, 0, SIdle, WSpin(SPINS, -1)), Tau);
    x := SpinToKernel(x, initial, n, SPINS);
  }

  /**
   `signal(0)`, which the code accepts, posts for a blocked waiter all the same, and so lets it
   through with no token given: a run from the start in which more tokens are taken than there are.
   */
  lemma {:induction false} SignalZeroBreaks(initial: nat) returns (x: Run)
    ensures UniformRun(x, initial, 0)
    ensures Taken(x.events) > initial + Given(x.events)
  {
    hide UniformRun, Given, Taken, Extended, Last;
    x := BlockedWaiter(initial, 0);
    var z := Last(x);
    x := Extend(x, initial, 0, z.(p := SAdd(0)), SignalCall(0));
    x := Extend(x, initial, 0, z.(p := SPost), Signalled(0));
    x := Extend(x, initial, 0, z.(posts := 1), SignalDone);
    x := Extend(x, initial, 0, z.(c := WIdle), Acquired);
  }

  /** Tokens are conserved when every signal carries the count `n`. */
  ghost predicate Conserves(initial: nat, n: nat) {
    forall r :: UniformRun(r, initial, n) ==> Taken(r.events) <= initial + Given(r.events)
  }

  /** The exact condition on the count. */
  lemma {:induction false} ConservedExactly(initial: nat, n: nat)
    ensures Conserves(initial, n) <==> n >= 1
  {
    if n == 0 {
      var r := SignalZeroBreaks(initial);
      assert UniformRun(r, initial, n);
    } else {
      forall r | UniformRun(r, initial, n) ensures Taken(r.events) <= initial + Given(r.events) {
        TokensConserved(r, initial, |r.events|);
        assert r.events[..|r.events|] == r.events;
      }
    }
  }
}
