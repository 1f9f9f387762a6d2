/** First in, first out, over whole runs of the simulation on an engine with insertion queues. */
module EngineFifo {
  import opened Kernel
  import opened EventQueue
  import opened EngineQueues
  import opened Ports
  import opened Simulation
  import opened NoLostWakeup

  /** A run with the lists of the two queues and everything given to Schedule, in order. */
  datatype Traced = Traced(s: Sys, q: Lists, asked: seq<Event>)

  /** A step of the simulation in which the engine pops what nextEvent chooses; `es` are the events that the step
      schedules, in the order in which it does. */
  ghost predicate CanStep(t: Traced, a: Action, es: seq<Event>) {
    && Enabled(t.s, a) && (a.Pop? ==> SomeEvent(t.q) && a.e == Chosen(t.q))
    && Step(t.s, a).net.clock.engine.scheduled == t.s.net.clock.engine.scheduled + multiset(es)
  }

  ghost function StepOf(t: Traced, a: Action, es: seq<Event>): Traced
    requires CanStep(t, a, es)
  {
    Traced(Step(t.s, a), PushedAll(Rest(t.q, a), es), t.asked + es)
  }

  datatype Move = Move(a: Action, es: seq<Event>)

  ghost predicate TracedRuns(t: Traced, ms: seq<Move>)
    decreases |ms|
  {
    ms == [] || (CanStep(t, ms[0].a, ms[0].es) && TracedRuns(StepOf(t, ms[0].a, ms[0].es), ms[1..]))
  }

  ghost function TracedFinal(t: Traced, ms: seq<Move>): Traced
    requires TracedRuns(t, ms)
    decreases |ms|
  {
    if ms == [] then t else TracedFinal(StepOf(t, ms[0].a, ms[0].es), ms[1..])
  }

  /** The kick starter was scheduled and popped. */
  ghost predicate TracedInit(t: Traced) {
    Init(t.s) && t.q == Lists([], []) && t.asked == t.s.handled
  }

  /** The lists hold what the bags of the engine hold. */
  ghost predicate Matches(t: Traced) {
    ListsOk(t.q) && All(t.q) == Queued(t.s.net.clock.engine)
  }

  ghost predicate TracedInv(t: Traced) {
    Inv(t.s) && Matches(t) && InOrder(t.asked, t.s.handled, t.q)
  }

  lemma InvAccounts(s: Sys)
    requires Inv(s)
    ensures QueuesOk(s.net.clock.engine, s.late)
    ensures s.net.clock.engine.scheduled == multiset(s.handled) + Queued(s.net.clock.engine)
  {
  }

  lemma SeparateBags(q: Lists, e: Engine, late: bool)
    requires ListsOk(q) && QueuesOk(e, late) && All(q) == Queued(e)
    ensures multiset(q.primary) == e.primary && multiset(q.secondary) == e.secondary
  {
    hide Sorted;
    forall x: Event ensures multiset(q.primary)[x] == e.primary[x] && multiset(q.secondary)[x] == e.secondary[x] {
      assert All(q)[x] == Queued(e)[x];
      if x.secondary {
        assert x !in q.primary && x !in e.primary;
      } else {
        assert x !in q.secondary && x !in e.secondary;
      }
    }
  }

  /** nextEvent is possible in every state between handlers with an event left, and what it chooses may be popped. */
  lemma ChosenCanPop(t: Traced)
    requires TracedInv(t) && t.s.running.None? && Queued(t.s.net.clock.engine) != multiset{}
    ensures SomeEvent(t.q) && IsNext(t.s.net.clock.engine, Chosen(t.q))
  {
    InvAccounts(t.s);
    hide Inv;
    hide InOrder;
    SeparateBags(t.q, t.s.net.clock.engine, t.s.late);
    ChosenIsNext(t.q, t.s.net.clock.engine);
  }

  lemma HandledAfter(s: Sys, a: Action)
    requires Enabled(s, a)
    ensures Step(s, a).handled == if a.Pop? then s.handled + [a.e] else s.handled
  {
    hide LinkOk;
    hide IsNext;
    hide TickLink;
    hide TickLater;
    hide TickNow;
    hide Notify;
  }

  lemma MovedBags(before: multiset<Event>, done: multiset<Event>, left: multiset<Event>, es: multiset<Event>,
                  after: multiset<Event>, done': multiset<Event>, left': multiset<Event>, x: multiset<Event>)
    requires before == done + left && after == done' + left' && after == before + es && done' == done + x && x <= left
    ensures left' == (left - x) + es
  {
    forall e: Event ensures left'[e] == ((left - x) + es)[e] {
      assert after[e] == done'[e] + left'[e] && before[e] == done[e] + left[e];
    }
  }

  /** The events that a step takes out of the queues, and the lists without them. */
  function Taken(a: Action): multiset<Event> {
    if a.Pop? then multiset{a.e} else multiset{}
  }

  function Rest(q: Lists, a: Action): Lists
    requires a.Pop? ==> SomeEvent(q)
  {
    if a.Pop? then Popped(q) else q
  }

  lemma RestKeeps(t: Traced, a: Action, handled: seq<Event>)
    requires ListsOk(t.q) && InOrder(t.asked, t.s.handled, t.q) && (a.Pop? ==> SomeEvent(t.q) && a.e == Chosen(t.q))
    requires handled == if a.Pop? then t.s.handled + [a.e] else t.s.handled
    ensures ListsOk(Rest(t.q, a)) && All(t.q) == All(Rest(t.q, a)) + Taken(a)
    ensures InOrder(t.asked, handled, Rest(t.q, a)) && multiset(handled) == multiset(t.s.handled) + Taken(a)
  {
    hide ListsOk;
    hide InOrder;
    if a.Pop? {
      PoppedOk(t.q);
      PopKeepsOrder(t.asked, t.s.handled, t.q);
    }
  }

  lemma QueuedAfter(t: Traced, a: Action, es: seq<Event>)
    requires Inv(t.s) && CanStep(t, a, es)
    ensures Inv(Step(t.s, a))
    ensures var e, e' := t.s.net.clock.engine, Step(t.s, a).net.clock.engine;
            && Step(t.s, a).handled == (if a.Pop? then t.s.handled + [a.e] else t.s.handled)
            && e.scheduled == multiset(t.s.handled) + Queued(e)
            && e'.scheduled == multiset(Step(t.s, a).handled) + Queued(e') && e'.scheduled == e.scheduled + multiset(es)
  {
    StepKeeps(t.s, a);
    HandledAfter(t.s, a);
    InvAccounts(t.s);
    hide Inv;
    hide Enabled;
    hide Step;
    InvAccounts(Step(t.s, a));
  }

  /** The queues after the step: the rest, and what was scheduled. */
  lemma ListsAfter(t: Traced, a: Action, es: seq<Event>)
    requires TracedInv(t) && CanStep(t, a, es)
    ensures var s', q := Step(t.s, a), PushedAll(Rest(t.q, a), es);
            ListsOk(q) && All(q) == Queued(s'.net.clock.engine) && InOrder(t.asked + es, s'.handled, q)
  {
    QueuedAfter(t, a, es);
    var s', q := Step(t.s, a), Rest(t.q, a);
    var e, e' := t.s.net.clock.engine, s'.net.clock.engine;
    assert ListsOk(t.q) && All(t.q) == Queued(e) && InOrder(t.asked, t.s.handled, t.q);
    assert a.Pop? ==> SomeEvent(t.q) && a.e == Chosen(t.q);
    hide *;
    RestKeeps(t, a, s'.handled);
    PushAllKeeps(t.asked, s'.handled, q, es);
    MovedBags(e.scheduled, multiset(t.s.handled), Queued(e), multiset(es), e'.scheduled, multiset(s'.handled),
              Queued(e'), Taken(a));
    Less(All(t.q), All(q), Taken(a));
  }

  lemma Less(all: multiset<Event>, rest: multiset<Event>, x: multiset<Event>)
    requires all == rest + x
    ensures all - x == rest
  {
  }

  lemma TracedStepKeeps(t: Traced, a: Action, es: seq<Event>)
    requires TracedInv(t) && CanStep(t, a, es)
    ensures TracedInv(StepOf(t, a, es))
  {
    ListsAfter(t, a, es);
    QueuedAfter(t, a, es);
    hide Inv;
    hide Enabled;
    hide Step;
    hide InOrder;
    hide ListsOk;
    hide All;
    hide Queued;
    hide Rest;
    hide PushedAll;
    assert StepOf(t, a, es) == Traced(Step(t.s, a), PushedAll(Rest(t.q, a), es), t.asked + es);
  }

  lemma TracedStart(t: Traced)
    requires TracedInit(t)
    ensures TracedInv(t)
  {
    InitInv(t.s);
    hide Inv;
    hide LinkOk;
    hide Usable;
    forall sec, x ensures InOrderAt(t.asked, t.s.handled, t.q, sec, x) {
      Nothing(AtTime(OfKind(t.asked, sec), x));
    }
  }

  lemma {:induction false} TracedRunKeeps(t: Traced, ms: seq<Move>)
    requires TracedInv(t) && TracedRuns(t, ms)
    ensures TracedInv(TracedFinal(t, ms))
    decreases |ms|
  {
    hide TracedInv;
    hide CanStep;
    hide StepOf;
    if ms != [] {
      TracedStepKeeps(t, ms[0].a, ms[0].es);
      TracedRunKeeps(StepOf(t, ms[0].a, ms[0].es), ms[1..]);
    }
  }

  /** Over every run, primary events of equal time are handled in the order in which they were scheduled, and so are
      secondary ones: those scheduled are those handled, followed by those in the queue. */
  lemma EqualTimesRunInOrder(t: Traced, ms: seq<Move>, sec: bool, x: real)
    requires TracedInit(t) && TracedRuns(t, ms)
    ensures var t' := TracedFinal(t, ms);
            AtTime(OfKind(t'.asked, sec), x) == AtTime(OfKind(t'.s.handled, sec), x) + AtTime(Of(t'.q, sec), x)
  {
    TracedStart(t);
    TracedRunKeeps(t, ms);
    assert InOrderAt(TracedFinal(t, ms).asked, TracedFinal(t, ms).s.handled, TracedFinal(t, ms).q, sec, x);
  }

  /* ----- These are the runs of the engine ----- */

  lemma TickAtGrows(c: Clock, h: Handler, t: real)
    requires h in c.sched && t >= c.engine.now
    ensures c.engine.scheduled <= TickAt(c, h, t).engine.scheduled
  {
  }

  lemma {:induction false} WakesGrow(c: Clock, c': Clock, hs: seq<Handler>)
    requires WakesAll(c, c', hs)
    ensures c.engine.scheduled <= c'.engine.scheduled
    decreases |hs|
  {
    if hs != [] {
      TickAtGrows(c, hs[0], NextTickOf(c, hs[0]));
      WakesGrow(TickLater(c, hs[0]), c', hs[1..]);
    }
  }

  lemma PopGrows(s: Sys, e: Event)
    requires Inv(s) && Enabled(s, Pop(e))
    ensures s.net.clock.engine.scheduled <= StepPop(s, e).net.clock.engine.scheduled
  {
    var n := s.net.(clock := s.net.clock.(engine := Take(s.net.clock.engine, e)));
    LinkOkAnyClock(s.link, s.net, n);
    hide LinkOk;
    hide IsNext;
    if e.kind == TickOf(LinkHandler) {
      InvUsable(s);
      hide Inv;
      TickLinkFacts(n, s.link);
      hide TickLink;
      hide Usable;
      hide Quiet;
      var t := TickLink(n, s.link);
      DeliveredClock(n, t.net, t.log);
      hide Delivered;
      var hs :| WakesAll(n.clock, t.net.clock, hs);
      WakesGrow(n.clock, t.net.clock, hs);
      if t.progress && LinkHandler in t.net.clock.sched {
        TickAtGrows(t.net.clock, LinkHandler, NextTickOf(t.net.clock, LinkHandler));
      }
    }
  }

  lemma InvUsable(s: Sys)
    requires Inv(s)
    ensures Usable(s.link)
  {
  }

  lemma TicksGrow(c: Clock, h: Handler)
    requires h in c.sched
    ensures c.engine.scheduled <= TickNow(c, h).engine.scheduled
    ensures c.engine.scheduled <= TickLater(c, h).engine.scheduled
  {
    TickAtGrows(c, h, c.engine.now);
    TickAtGrows(c, h, NextTickOf(c, h));
  }

  lemma SendGrows(s: Sys, m: Msg)
    requires Enabled(s, SendMsg(m))
    ensures s.net.clock.engine.scheduled <= StepSend(s, m).net.clock.engine.scheduled
  {
    TicksGrow(s.net.clock, LinkHandler);
    hide LinkOk;
    hide HasRoom;
    hide TickNow;
  }

  lemma RetrieveGrows(s: Sys, p: nat)
    requires Enabled(s, Retrieve(p))
    ensures s.net.clock.engine.scheduled <= StepRetrieve(s, p).net.clock.engine.scheduled
  {
    TicksGrow(s.net.clock, LinkHandler);
    hide LinkOk;
    hide TickNow;
    hide TickLater;
  }

  lemma FinishGrows(s: Sys, progress: bool)
    requires Enabled(s, Finish(progress))
    ensures s.net.clock.engine.scheduled <= Step(s, Finish(progress)).net.clock.engine.scheduled
  {
    hide LinkOk;
    hide TickLater;
    if s.running.value.kind.TickOf? {
      TicksGrow(s.net.clock, s.running.value.kind.h);
    }
  }

  lemma StepGrows(s: Sys, a: Action)
    requires Inv(s) && Enabled(s, a)
    ensures s.net.clock.engine.scheduled <= Step(s, a).net.clock.engine.scheduled
  {
    hide Inv;
    hide LinkOk;
    hide IsNext;
    hide StepPop;
    hide StepSend;
    hide StepRetrieve;
    hide TickNow;
    hide TickLater;
    match a
    case Pop(e) => PopGrows(s, e);
    case SendMsg(m) => SendGrows(s, m);
    case Retrieve(p) => RetrieveGrows(s, p);
    case WakeComponent(h) => TicksGrow(s.net.clock, Component(h));
    case TickComponentNow(h) => TicksGrow(s.net.clock, Component(h));
    case Finish(progress) => FinishGrows(s, progress);
    case _ =>
  }

  /** Every step of the simulation, popping what nextEvent chooses, is a step here, with some order of the events that
      it schedules. */
  lemma EveryStepIsTraced(t: Traced, a: Action) returns (es: seq<Event>)
    requires TracedInv(t) && Enabled(t.s, a) && (a.Pop? ==> SomeEvent(t.q) && a.e == Chosen(t.q))
    ensures CanStep(t, a, es)
  {
    StepGrows(t.s, a);
    hide Step;
    hide Enabled;
    hide TracedInv;
    hide SomeEvent;
    hide Chosen;
    var before, after := t.s.net.clock.engine.scheduled, Step(t.s, a).net.clock.engine.scheduled;
    es := ListOf(after - before);
    Difference(before, after);
  }

  lemma Difference(a: multiset<Event>, b: multiset<Event>)
    requires a <= b
    ensures b == a + (b - a)
  {
  }

  lemma ListOf(m: multiset<Event>) returns (l: seq<Event>)
    ensures multiset(l) == m
    decreases |m|
  {
    if m == multiset{} {
      l := [];
    } else {
      var e :| e in m;
      var rest := ListOf(m - multiset{e});
      l := [e] + rest;
      assert m == multiset{e} + (m - multiset{e});
    }
  }
}
