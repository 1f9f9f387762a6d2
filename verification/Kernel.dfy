/** Events, the two event queues of akita/sim/serialengine.go and the tick schedulers of akita/sim/ticker.go, on
    values. */
module Kernel {
  import opened Wrappers
  import opened Freq

  /** The connection under study ticks in secondary events, every other component in primary ones. */
  datatype Handler = LinkHandler | Component(id: nat)

  datatype Kind = TickOf(h: Handler) | Custom(id: nat)

  datatype Event = Event(time: real, secondary: bool, kind: Kind)

  function TickEvent(h: Handler, t: real): Event {
    Event(t, h.LinkHandler?, TickOf(h))
  }

  /** Both queues as bags, since only the earliest time decides what may be popped; `scheduled` is every
      event ever given to Schedule. */
  datatype Engine = Engine(now: real, primary: multiset<Event>, secondary: multiset<Event>, scheduled: multiset<Event>)

  /** Schedule; an earlier time panics. */
  function Schedule(e: Engine, evt: Event): Engine
    requires evt.time >= e.now
  {
    var e' := e.(scheduled := e.scheduled + multiset{evt});
    if evt.secondary then e'.(secondary := e.secondary + multiset{evt}) else e'.(primary := e.primary + multiset{evt})
  }

  /** nextEvent may return evt: the earliest of its queue, primary events going first on a tie. */
  ghost predicate IsNext(e: Engine, evt: Event) {
    if evt.secondary then
      && evt in e.secondary
      && (forall o :: o in e.secondary ==> evt.time <= o.time)
      && (forall o :: o in e.primary ==> evt.time < o.time)
    else
      && evt in e.primary
      && (forall o :: o in e.primary ==> evt.time <= o.time)
      && (forall o :: o in e.secondary ==> evt.time <= o.time)
  }

  /** Popping evt and moving the clock to it. */
  function Take(e: Engine, evt: Event): Engine {
    if evt.secondary then e.(now := evt.time, secondary := e.secondary - multiset{evt})
    else e.(now := evt.time, primary := e.primary - multiset{evt})
  }

  datatype Scheduler = Scheduler(freq: Frequency, nextTickTime: real)

  datatype Clock = Clock(engine: Engine, sched: map<Handler, Scheduler>)

  /** The common part of TickNow and TickLater: a tick at t unless one at t or later was already asked for. */
  function TickAt(c: Clock, h: Handler, t: real): (c': Clock)
    requires h in c.sched && t >= c.engine.now
    ensures c'.engine.now == c.engine.now && c'.sched.Keys == c.sched.Keys
  {
    if c.sched[h].nextTickTime >= t then c
    else Clock(Schedule(c.engine, TickEvent(h, t)), c.sched[h := c.sched[h].(nextTickTime := t)])
  }

  function TickNow(c: Clock, h: Handler): (c': Clock)
    requires h in c.sched
    ensures c'.engine.now == c.engine.now && c'.sched.Keys == c.sched.Keys
  {
    TickAt(c, h, c.engine.now)
  }

  function NextTickOf(c: Clock, h: Handler): (t: real)
    requires h in c.sched
    ensures t > c.engine.now
  {
    NextTickWindow(c.sched[h].freq, c.engine.now);
    NextTick(c.sched[h].freq, c.engine.now)
  }

  function TickLater(c: Clock, h: Handler): (c': Clock)
    requires h in c.sched
    ensures c'.engine.now == c.engine.now && c'.sched.Keys == c.sched.Keys
  {
    TickAt(c, h, NextTickOf(c, h))
  }

  function Queued(e: Engine): multiset<Event> {
    e.primary + e.secondary
  }

  ghost predicate Pending(c: Clock, h: Handler, t: real) {
    TickEvent(h, t) in Queued(c.engine)
  }

  ghost predicate TickPending(c: Clock, h: Handler) {
    exists e :: e in Queued(c.engine) && e.kind == TickOf(h)
  }

  /* ----- The invariant of clock and queues ----- */

  /** Queues hold what belongs to them, nothing is in the past, and once a secondary event of time now has
      started (`late`) no primary event of time now is left. */
  ghost predicate QueuesOk(e: Engine, late: bool) {
    && (forall x :: x in e.primary ==> !x.secondary && x.time >= e.now && (late ==> x.time > e.now))
    && (forall x :: x in e.secondary ==> x.secondary && x.time >= e.now)
  }

  /** Every tick of h is asked for at most once, none later than nextTickTime, and a nextTickTime in the
      future is pending. */
  ghost predicate SchedulerOk(c: Clock, h: Handler)
    requires h in c.sched
  {
    var next := c.sched[h].nextTickTime;
    && (forall x :: x in c.engine.scheduled && x.kind == TickOf(h) ==>
         x == TickEvent(h, x.time) && x.time <= next && c.engine.scheduled[x] == 1)
    && (next > c.engine.now ==> Pending(c, h, next))
  }

  /** `done` are the events already popped. */
  ghost predicate Accounted(e: Engine, done: multiset<Event>) {
    && e.scheduled == done + Queued(e)
    && (forall x :: x in done ==> x.time <= e.now)
  }

  ghost predicate ClockOk(c: Clock, done: multiset<Event>, late: bool) {
    && QueuesOk(c.engine, late)
    && Accounted(c.engine, done)
    && (forall h :: h in c.sched ==> SchedulerOk(c, h))
    && LinkHandler in c.sched
    && (!late && c.sched[LinkHandler].nextTickTime == c.engine.now ==> Pending(c, LinkHandler, c.engine.now))
  }

  lemma ScheduleQueues(e: Engine, done: multiset<Event>, late: bool, evt: Event)
    requires QueuesOk(e, late) && Accounted(e, done) && evt.time >= e.now
            && (late && !evt.secondary ==> evt.time > e.now)
    ensures var e' := Schedule(e, evt);
            QueuesOk(e', late) && Accounted(e', done) && Queued(e') == Queued(e) + multiset{evt}
  {
  }

  lemma CustomIsNoTick(c: Clock, evt: Event, h: Handler)
    requires h in c.sched && SchedulerOk(c, h) && evt.kind.Custom? && evt.time >= c.engine.now
    ensures SchedulerOk(c.(engine := Schedule(c.engine, evt)), h)
  {
    var c' := c.(engine := Schedule(c.engine, evt));
    assert Queued(c'.engine) == Queued(c.engine) + multiset{evt};
  }

  lemma ScheduleKeeps(c: Clock, done: multiset<Event>, late: bool, evt: Event)
    requires ClockOk(c, done, late) && evt.time >= c.engine.now && (late && !evt.secondary ==> evt.time > c.engine.now)
    requires evt.kind.Custom?
    ensures ClockOk(c.(engine := Schedule(c.engine, evt)), done, late)
  {
    var c' := c.(engine := Schedule(c.engine, evt));
    ScheduleQueues(c.engine, done, late, evt);
    forall h | h in c'.sched ensures SchedulerOk(c', h) {
      CustomIsNoTick(c, evt, h);
    }
    assert !late && c.sched[LinkHandler].nextTickTime == c.engine.now ==> Pending(c', LinkHandler, c.engine.now);
  }

  /** TickAt keeps the invariant, at time now only while primary events of now may still run. */
  lemma TickAtKeeps(c: Clock, done: multiset<Event>, late: bool, h: Handler, t: real)
    requires ClockOk(c, done, late) && h in c.sched && c.engine.now <= t
    requires t == c.engine.now ==> !late
    ensures ClockOk(TickAt(c, h, t), done, late)
  {
    if c.sched[h].nextTickTime < t {
      var c' := TickAt(c, h, t);
      var evt := TickEvent(h, t);
      assert SchedulerOk(c, h);
      assert evt !in c.engine.scheduled;
      ScheduleQueues(c.engine, done, late, evt);
      forall g | g in c'.sched ensures SchedulerOk(c', g) {
        AskedOnce(c, h, t, g);
      }
    }
  }

  lemma AskedOnce(c: Clock, h: Handler, t: real, g: Handler)
    requires h in c.sched && g in c.sched && SchedulerOk(c, g) && SchedulerOk(c, h)
    requires c.sched[h].nextTickTime < t && c.engine.now <= t
    ensures SchedulerOk(TickAt(c, h, t), g)
  {
    var c' := TickAt(c, h, t);
    assert Queued(c'.engine) == Queued(c.engine) + multiset{TickEvent(h, t)};
  }

  /** After a tick was asked for at a future time t, one is pending at t or later. */
  lemma TickAtPends(c: Clock, done: multiset<Event>, late: bool, h: Handler, t: real)
    requires ClockOk(c, done, late) && h in c.sched && c.engine.now <= t
    requires t == c.engine.now ==> !late && h == LinkHandler
    ensures TickPending(TickAt(c, h, t), h)
  {
    TickAtKeeps(c, done, late, h, t);
    var c' := TickAt(c, h, t);
    assert SchedulerOk(c', h);
    var next := c'.sched[h].nextTickTime;
    assert Pending(c', h, next);
    assert TickEvent(h, next) in Queued(c'.engine);
  }

  /** No scheduler runs ahead of the next tick of now. */
  ghost predicate NotAhead(c: Clock) {
    forall h :: h in c.sched ==> c.sched[h].nextTickTime <= NextTickOf(c, h)
  }

  /** TickLater always leaves nextTickTime at the next tick of now, an edge of h's clock, with exactly one tick pending
      there and none of h beyond it. */
  lemma TickLaterExactlyOne(c: Clock, done: multiset<Event>, late: bool, h: Handler)
    requires ClockOk(c, done, late) && h in c.sched && NotAhead(c)
    ensures var c' := TickLater(c, h);
            var t := NextTickOf(c, h);
            && c'.sched[h].nextTickTime == t && (exists k :: t == Edge(c.sched[h].freq, k))
            && Queued(c'.engine)[TickEvent(h, t)] == 1
            && forall e :: e in Queued(c'.engine) && e.kind == TickOf(h) ==> e.time <= t
  {
    var t := NextTickOf(c, h);
    OnAnEdge(c, h);
    TickAtKeeps(c, done, late, h, t);
    PendingOnce(TickLater(c, h), done, late, h);
  }

  lemma OnAnEdge(c: Clock, h: Handler)
    requires h in c.sched
    ensures exists k :: NextTickOf(c, h) == Edge(c.sched[h].freq, k)
  {
    var f := c.sched[h].freq;
    assert NextTickOf(c, h) == Edge(f, FloorTenth(Tenths(f, c.engine.now)) + 1);
  }

  lemma PendingOnce(c: Clock, done: multiset<Event>, late: bool, h: Handler)
    requires ClockOk(c, done, late) && h in c.sched && c.sched[h].nextTickTime > c.engine.now
    ensures var t := c.sched[h].nextTickTime;
            && Queued(c.engine)[TickEvent(h, t)] == 1
            && forall e :: e in Queued(c.engine) && e.kind == TickOf(h) ==> e.time <= t
  {
    assert SchedulerOk(c, h);
    var evt := TickEvent(h, c.sched[h].nextTickTime);
    assert evt in Queued(c.engine) && evt in c.engine.scheduled;
    assert forall e :: e in Queued(c.engine) ==> e in c.engine.scheduled;
  }

  lemma TickAtNotAhead(c: Clock, h: Handler, t: real)
    requires NotAhead(c) && h in c.sched && c.engine.now <= t <= NextTickOf(c, h)
    ensures NotAhead(TickAt(c, h, t))
  {
    var c' := TickAt(c, h, t);
    forall g | g in c'.sched ensures c'.sched[g].nextTickTime <= NextTickOf(c', g) {
      assert NextTickOf(c', g) == NextTickOf(c, g);
    }
  }

  lemma TakeNotAhead(c: Clock, e': Engine)
    requires NotAhead(c) && e'.now >= c.engine.now
    ensures NotAhead(c.(engine := e'))
  {
    var c' := c.(engine := e');
    forall g | g in c'.sched ensures c'.sched[g].nextTickTime <= NextTickOf(c', g) {
      NextTickMonotone(c.sched[g].freq, c.engine.now, e'.now);
    }
  }

  /** What is left is not earlier than evt, and after a secondary event no primary one of its time is left. */
  lemma TakeOrder(e: Engine, late: bool, evt: Event)
    requires QueuesOk(e, late) && IsNext(e, evt)
    ensures evt.time >= e.now && evt in Queued(e)
    ensures var late' := evt.secondary || (late && evt.time == e.now);
            (late' ==> evt.secondary) && QueuesOk(Take(e, evt), late')
  {
  }

  lemma TakeBag(e: Engine, evt: Event)
    requires IsNext(e, evt)
    ensures evt in Queued(e) && Queued(Take(e, evt)) == Queued(e) - multiset{evt}
  {
  }

  lemma AccountedTake(e: Engine, done: multiset<Event>, evt: Event)
    requires Accounted(e, done) && evt.time >= e.now && evt in Queued(e)
    requires Queued(Take(e, evt)) == Queued(e) - multiset{evt}
    ensures evt in e.scheduled && Accounted(Take(e, evt), done + multiset{evt})
  {
    hide Queued;
    assert e.scheduled == done + Queued(e);
  }

  lemma TakeQueues(e: Engine, done: multiset<Event>, late: bool, evt: Event)
    requires QueuesOk(e, late) && Accounted(e, done) && IsNext(e, evt)
    ensures evt.time >= e.now && evt in Queued(e) && evt in e.scheduled
    ensures var e' := Take(e, evt);
            var late' := evt.secondary || (late && evt.time == e.now);
            && (late' ==> evt.secondary)
            && QueuesOk(e', late') && Accounted(e', done + multiset{evt})
            && Queued(e') == Queued(e) - multiset{evt}
  {
    TakeOrder(e, late, evt);
    TakeBag(e, evt);
    hide QueuesOk;
    hide IsNext;
    hide Queued;
    AccountedTake(e, done, evt);
  }

  /** Popping the next event keeps the invariant; the event is never in the past. */
  lemma TakeKeeps(c: Clock, done: multiset<Event>, late: bool, evt: Event)
    requires ClockOk(c, done, late) && IsNext(c.engine, evt)
    ensures evt.time >= c.engine.now
    ensures evt.kind == TickOf(LinkHandler) ==> evt == TickEvent(LinkHandler, evt.time)
    ensures var c' := c.(engine := Take(c.engine, evt));
            var late' := evt.secondary || (late && evt.time == c.engine.now);
            && (late' ==> evt.secondary)
            && ClockOk(c', done + multiset{evt}, late')
  {
    var c' := c.(engine := Take(c.engine, evt));
    TakeQueues(c.engine, done, late, evt);
    assert SchedulerOk(c, LinkHandler);
    forall h | h in c'.sched ensures SchedulerOk(c', h) {
      TakeScheduler(c, evt, h);
    }
    var late' := evt.secondary || (late && evt.time == c.engine.now);
    if !late' && c'.sched[LinkHandler].nextTickTime == c'.engine.now {
      assert Pending(c, LinkHandler, evt.time);
      assert TickEvent(LinkHandler, evt.time) != evt;
    }
  }

  lemma TakeScheduler(c: Clock, evt: Event, h: Handler)
    requires h in c.sched && SchedulerOk(c, h) && evt.time >= c.engine.now
    requires Queued(Take(c.engine, evt)) == Queued(c.engine) - multiset{evt}
    ensures SchedulerOk(c.(engine := Take(c.engine, evt)), h)
  {
    var c' := c.(engine := Take(c.engine, evt));
    var next := c.sched[h].nextTickTime;
    if next > evt.time {
      assert TickEvent(h, next) != evt;
      assert Pending(c, h, next);
    }
  }

  /** c' is c after TickLater on each of the components hs in turn. */
  ghost predicate WakesAll(c: Clock, c': Clock, hs: seq<Handler>)
    decreases |hs|
  {
    if hs == [] then c' == c
    else hs[0].Component? && hs[0] in c.sched && WakesAll(TickLater(c, hs[0]), c', hs[1..])
  }

  /** What a connection may do to the clock while it ticks: nothing but TickLater on components. */
  ghost predicate OnlyWakes(c: Clock, c': Clock) {
    exists hs :: WakesAll(c, c', hs)
  }

  lemma NoWakes(c: Clock)
    ensures OnlyWakes(c, c)
  {
    assert WakesAll(c, c, []);
  }

  lemma OneWake(c: Clock, h: Handler)
    requires h in c.sched && h.Component?
    ensures OnlyWakes(c, TickLater(c, h))
  {
    assert [h][1..] == [];
    assert WakesAll(c, TickLater(c, h), [h]);
  }

  lemma {:induction false} WakesAppend(a: Clock, b: Clock, c: Clock, hs: seq<Handler>, hs': seq<Handler>)
    requires WakesAll(a, b, hs) && WakesAll(b, c, hs')
    ensures WakesAll(a, c, hs + hs')
    decreases |hs|
  {
    if hs == [] {
      ConcatNil(hs');
    } else {
      WakesAppend(TickLater(a, hs[0]), b, c, hs[1..], hs');
      TailOfConcat(hs, hs');
    }
  }

  lemma WakesTwice(a: Clock, b: Clock, c: Clock)
    requires OnlyWakes(a, b) && OnlyWakes(b, c)
    ensures OnlyWakes(a, c)
  {
    var hs :| WakesAll(a, b, hs);
    var hs' :| WakesAll(b, c, hs');
    WakesAppend(a, b, c, hs, hs');
  }

  lemma {:induction false} WakesKeep(c: Clock, c': Clock, hs: seq<Handler>, done: multiset<Event>, late: bool)
    requires WakesAll(c, c', hs) && ClockOk(c, done, late)
    ensures ClockOk(c', done, late) && (NotAhead(c) ==> NotAhead(c'))
    decreases |hs|
  {
    if hs != [] {
      var t := NextTickOf(c, hs[0]);
      TickAtKeeps(c, done, late, hs[0], t);
      if NotAhead(c) {
        TickAtNotAhead(c, hs[0], t);
      }
      WakesKeep(TickLater(c, hs[0]), c', hs[1..], done, late);
    }
  }

  /** Waking components leaves time, the secondary queue and the connection's own scheduler alone. */
  lemma {:induction false} WakesFrame(c: Clock, c': Clock, hs: seq<Handler>)
    requires WakesAll(c, c', hs)
    ensures c'.engine.now == c.engine.now && c'.engine.secondary == c.engine.secondary
            && c.engine.primary <= c'.engine.primary
    ensures c'.sched.Keys == c.sched.Keys && (LinkHandler in c.sched ==> c'.sched[LinkHandler] == c.sched[LinkHandler])
    decreases |hs|
  {
    if hs != [] {
      WakesFrame(TickLater(c, hs[0]), c', hs[1..]);
    }
  }
}
