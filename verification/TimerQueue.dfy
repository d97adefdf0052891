/**
 The timer queue's methods, each tied to the steps of the transition system it performs.
 The clock and the alarm stand for the kernel's timer descriptor, `heap` for the allocated timers.
 */
module TimerQueue {
  import opened Timers
  import Runs = TimerRuns

  /** What a callback may do: let time pass, create a timer, add it in the loop, cancel one. */
  predicate CallbackAction(e: Event) {
    e.Tick? || e.Create? || e.AddInLoop? || e.Cancel?
  }

  /** The calls of a batch whose callbacks act as `script` says. */
  function Calls(script: seq<seq<Event>>): seq<Event> {
    if script == [] then [] else [RunNext] + script[0] + Calls(script[1..])
  }

  /** The resets of a batch, the clock read before each as `ticks` says. */
  function Resets(ticks: seq<int>): seq<Event> {
    if ticks == [] then [] else [Tick(ticks[0]), ResetNext] + Resets(ticks[1..])
  }

  /** All of `handleRead`. */
  function BatchEvents(script: seq<seq<Event>>, ticks: seq<int>, last: int): seq<Event> {
    [Begin] + (Calls(script) + ([EndCalls] + (Resets(ticks) + [Tick(last), Rearm])))
  }

  /** The run `es` is possible from `s` and ends in `goal`. */
  ghost predicate Leads(s: State, es: seq<Event>, goal: State) {
    IsRun(s, es) && After(s, es) == goal
  }

  lemma {:induction false} LeadsOn(s: State, e: Event, es: seq<Event>, goal: State)
    requires Leads(s, [e] + es, goal)
    ensures Enabled(s, e) && Leads(Step(s, e), es, goal)
  {
    assert ([e] + es)[1..] == es;
  }

  lemma {:induction false} LeadsNowhere(s: State, goal: State)
    requires Leads(s, [], goal)
    ensures s == goal
  {}

  lemma {:induction false} ActionKeepsBatch(s: State, e: Event)
    requires CallbackAction(e) && Enabled(s, e)
    ensures Step(s, e).batch == s.batch && Step(s, e).phase == s.phase
  {}

  class TimerQueue {
    var clock: int
    var alarm: Alarm
    var heap: map<Addr, Timer>
    var created: nat
    var timers: seq<Entry>
    var active: set<Id>
    var canceling: set<Id>
    var calling: bool
    ghost var model: State

    ghost predicate Valid()
      reads this
    {
      && Inv(model) && clock == model.clock && alarm == model.alarm && heap == model.heap && created == model.created
      && timers == model.timers && active == model.active && canceling == model.canceling
      && calling == model.phase.Calling?
    }

    constructor (now: int)
      requires now > 0
      ensures Valid() && model == Start(now)
    {
      clock, alarm, heap, created := now, Off, map[], 0;
      timers, active, canceling, calling := [], {}, {}, false;
      model := Start(now);
      StartInv(now);
    }

    /** Time passes; the alarm may fire. */
    method Advance(now: int)
      requires Valid() && Enabled(model, Tick(now))
      modifies this
      ensures Valid() && model == Step(old(model), Tick(now))
    {
      hide Inv, Insert, Remove, LowerBound;
      StepKeepsInv(model, Tick(now));
      clock := now;
      if alarm.Armed? && alarm.deadline <= now {
        alarm := Fired;
      }
      model := Step(model, Tick(now));
    }

    /** The allocation in `addTimer`, at the free address `a`. */
    method NewTimer(a: Addr, when: int, interval: real) returns (id: Id)
      requires Valid() && Enabled(model, Create(a, when, interval))
      modifies this
      ensures Valid() && model == Step(old(model), Create(a, when, interval))
      ensures a in model.heap && id == IdAt(model, a)
      ensures model.heap[a].expiration == when && model.heap[a].interval == interval && a in model.pending
    {
      hide Inv, Insert, Remove, LowerBound;
      StepKeepsInv(model, Create(a, when, interval));
      created := created + 1;
      heap := heap[a := Timer(when, interval, created)];
      model := Step(model, Create(a, when, interval));
      id := (a, created);
    }

    method ResetTimerfd(expiration: int)
      modifies this`alarm
      ensures alarm == Armed(if expiration < clock + 100 then clock + 100 else expiration, clock)
    {
      var microseconds := expiration - clock;
      if microseconds < 100 {
        microseconds := 100;
      }
      alarm := Armed(clock + microseconds, clock);
    }

    /** The private `insert`. */
    method InsertTimer(a: Addr) returns (earliestChanged: bool)
      requires a in heap
      modifies this`timers, this`active
      ensures timers == Insert(old(timers), (heap[a].expiration, a))
      ensures active == old(active) + {(a, heap[a].sequence)}
      ensures earliestChanged <==> old(timers) == [] || heap[a].expiration < old(timers)[0].0
    {
      earliestChanged := false;
      var when := heap[a].expiration;
      if timers == [] || when < timers[0].0 {
        earliestChanged := true;
      }
      timers := Insert(timers, (when, a));
      active := active + {(a, heap[a].sequence)};
    }

    method AddTimerInLoop(a: Addr)
      requires Valid() && Enabled(model, AddInLoop(a))
      modifies this
      ensures Valid() && model == Step(old(model), AddInLoop(a))
    {
      hide Inv, Insert, LowerBound;
      StepKeepsInv(model, AddInLoop(a));
      var earliestChanged := InsertTimer(a);
      if earliestChanged {
        ResetTimerfd(heap[a].expiration);
      }
      model := Step(model, AddInLoop(a));
    }

    method CancelInLoop(id: Id)
      requires Valid() && Enabled(model, Cancel(id))
      modifies this
      ensures Valid() && model == Step(old(model), Cancel(id))
    {
      hide Inv, Remove, LowerBound;
      StepKeepsInv(model, Cancel(id));
      if id in active {
        var entry := (heap[id.0].expiration, id.0);
        assert entry in timers;
        timers := Remove(timers, entry);
        heap := heap - {id.0};
        active := active - {id};
      } else if calling {
        canceling := canceling + {id};
      }
      model := Step(model, Cancel(id));
    }

    method GetExpired(now: int) returns (expired: seq<Entry>)
      requires timers == model.timers && heap == model.heap && active == model.active && now == model.clock
      requires Enabled(model, Begin)
      modifies this`timers, this`active
      ensures expired == Expired(model) && timers == Step(model, Begin).timers && active == Step(model, Begin).active
    {
      var end := LowerBound(timers, (now, ADDR_LIMIT));
      expired := timers[..end];
      timers := timers[end..];
      assert expired == Expired(model) && timers == Step(model, Begin).timers;
      hide LowerBound;
      var i := 0;
      while i < |expired|
        invariant 0 <= i <= |expired| && timers == Step(model, Begin).timers
        invariant active == old(active) - set x | x in expired[..i] && x.1 in heap :: (x.1, heap[x.1].sequence)
      {
        assert expired[i] in expired;
        var timer := (expired[i].1, heap[expired[i].1].sequence);
        assert expired[..i + 1] == expired[..i] + [expired[i]];
        active := active - {timer};
        i := i + 1;
      }
      assert expired[..i] == expired;
    }

    method Perform(e: Event)
      requires Valid() && CallbackAction(e) && Enabled(model, e)
      modifies this
      ensures Valid() && model == Step(old(model), e)
      ensures model.batch == old(model.batch) && model.phase == old(model.phase)
    {
      ActionKeepsBatch(model, e);
      hide Inv, Step;
      match e {
        case Tick(now) => Advance(now);
        case Create(a, when, interval) => var _ := NewTimer(a, when, interval);
        case AddInLoop(a) => AddTimerInLoop(a);
        case Cancel(id) => CancelInLoop(id);
      }
    }

    /** One callback. */
    method RunCallback(actions: seq<Event>, ghost rest: seq<Event>, ghost goal: State)
      requires Valid() && (forall e :: e in actions ==> CallbackAction(e))
      requires Leads(model, [RunNext] + actions + rest, goal)
      modifies this
      ensures Valid() && Leads(model, rest, goal)
      ensures calling && model.batch == old(model.batch)
    {
      hide Inv, Leads;
      assert [RunNext] + actions + rest == [RunNext] + (actions + rest);
      LeadsOn(model, RunNext, actions + rest, goal);
      StepKeepsInv(model, RunNext);
      model := Step(model, RunNext);
      hide Step;
      var i := 0;
      while i < |actions|
        invariant 0 <= i <= |actions| && Valid() && Leads(model, actions[i..] + rest, goal)
        invariant calling && model.batch == old(model.batch)
      {
        assert actions[i] in actions;
        assert actions[i..] + rest == [actions[i]] + (actions[i + 1..] + rest);
        LeadsOn(model, actions[i], actions[i + 1..] + rest, goal);
        Perform(actions[i]);
        i := i + 1;
      }
      assert actions[i..] + rest == rest;
    }

    /** One round of the loop in `reset`. */
    method ResetOne(a: Addr)
      requires Valid() && Enabled(model, ResetNext) && a == model.batch[0].1
      modifies this
      ensures Valid() && model == Step(old(model), ResetNext)
      ensures if old(heap)[a].interval > 0.0 && (a, old(heap)[a].sequence) !in old(canceling) then
                && a in heap && (heap[a].expiration, a) in timers
                && Runs.Ahead(heap[a].expiration, clock, old(heap)[a].interval)
              else a !in heap
    {
      hide Inv, Insert, LowerBound;
      StepKeepsInv(model, ResetNext);
      Runs.ResetOneInterval(model);
      var timer := heap[a];
      if Repeats(timer) && (a, timer.sequence) !in canceling {
        heap := heap[a := Restarted(timer, clock)];
        var _ := InsertTimer(a);
      } else {
        heap := heap - {a};
      }
      model := Step(model, ResetNext);
    }

    method Reset(expired: seq<Entry>, ticks: seq<int>, last: int, ghost goal: State)
      requires Valid() && model.phase.Resetting? && model.batch == expired && |ticks| == |expired|
      requires Leads(model, Resets(ticks) + [Tick(last), Rearm], goal)
      modifies this
      ensures Valid() && model == goal
    {
      hide Inv, Leads;
      ghost var tail := [Tick(last), Rearm];
      var i := 0;
      while i < |expired|
        invariant 0 <= i <= |expired| && Valid() && model.phase.Resetting? && model.batch == expired[i..]
        invariant Leads(model, Resets(ticks[i..]) + tail, goal)
      {
        ghost var rest := Resets(ticks[i + 1..]) + tail;
        assert ticks[i..][1..] == ticks[i + 1..];
        assert Resets(ticks[i..]) + tail == [Tick(ticks[i])] + ([ResetNext] + rest);
        LeadsOn(model, Tick(ticks[i]), [ResetNext] + rest, goal);
        Advance(ticks[i]);
        LeadsOn(model, ResetNext, rest, goal);
        ResetOne(expired[i].1);
        i := i + 1;
      }
      assert Resets(ticks[i..]) + tail == [Tick(last)] + [Rearm];
      LeadsOn(model, Tick(last), [Rearm], goal);
      Advance(last);
      assert [Rearm] == [Rearm] + [];
      LeadsOn(model, Rearm, [], goal);
      LeadsNowhere(Step(model, Rearm), goal);
      StepKeepsInv(model, Rearm);
      if timers != [] && timers[0].0 > 0 {
        ResetTimerfd(timers[0].0);
      }
      model := Step(model, Rearm);
    }

    /** `handleRead` up to its loop. */
    method BeginBatch() returns (expired: seq<Entry>)
      requires Valid() && Enabled(model, Begin)
      modifies this
      ensures Valid() && model == Step(old(model), Begin) && expired == model.batch == Expired(old(model)) && calling
    {
      hide Inv, LowerBound;
      StepKeepsInv(model, Begin);
      if alarm.Fired? {
        alarm := Off;
      }
      expired := GetExpired(clock);
      calling := true;
      canceling := {};
      model := Step(model, Begin);
    }

    method EndBatch()
      requires Valid() && Enabled(model, EndCalls)
      modifies this
      ensures Valid() && model == Step(old(model), EndCalls)
    {
      hide Inv;
      StepKeepsInv(model, EndCalls);
      calling := false;
      model := Step(model, EndCalls);
    }

    /** `handleRead`, the callback of the i-th expired timer doing `script[i]`. */
    method HandleRead(script: seq<seq<Event>>, ticks: seq<int>, last: int)
      requires Valid() && IsRun(model, BatchEvents(script, ticks, last))
      requires forall i :: 0 <= i < |script| ==> forall e :: e in script[i] ==> CallbackAction(e)
      requires |script| == |ticks| == |Expired(model)|
      modifies this
      ensures Valid() && model == After(old(model), BatchEvents(script, ticks, last))
    {
      hide Inv;
      ghost var goal := After(model, BatchEvents(script, ticks, last));
      assert Leads(model, BatchEvents(script, ticks, last), goal);
      hide Leads, After, IsRun, Step, LowerBound;
      ghost var tail := [EndCalls] + (Resets(ticks) + [Tick(last), Rearm]);
      LeadsOn(model, Begin, Calls(script) + tail, goal);
      var expired := BeginBatch();
      var i := 0;
      while i < |expired|
        invariant 0 <= i <= |expired| && Valid() && calling && model.batch == expired
        invariant Leads(model, Calls(script[i..]) + tail, goal)
      {
        assert script[i..][1..] == script[i + 1..];
        assert Calls(script[i..]) + tail == [RunNext] + script[i] + (Calls(script[i + 1..]) + tail);
        RunCallback(script[i], Calls(script[i + 1..]) + tail, goal);
        i := i + 1;
      }
      assert Calls(script[i..]) + tail == tail;
      LeadsOn(model, EndCalls, Resets(ticks) + [Tick(last), Rearm], goal);
      EndBatch();
      Reset(expired, ticks, last, goal);
    }
  }
}
