/** akita/sim/serialengine.go and the tick scheduler of akita/sim/ticker.go, as objects. */
module SerialEngines {
  import opened Freq
  import opened Kernel
  import opened EventQueue
  import Q = EngineQueues

  ghost function SmallestOf(q: InsertionQueue): (e: Event)
    requires q.Valid() && q.l != []
    reads q
    ensures e == q.l[0] && forall x :: x in q.l ==> e.time <= x.time
  {
    q.l[0]
  }

  class SerialEngine {
    var time: real
    const queue: InsertionQueue
    const secondaryQueue: InsertionQueue
    ghost var scheduled: multiset<Event>

    ghost const Repr: set<object> := {this, queue, secondaryQueue}

    ghost predicate Valid()
      reads Repr
    {
      queue != secondaryQueue && queue.Valid() && secondaryQueue.Valid()
    }

    ghost function Model(): (e: Engine)
      reads Repr
      ensures e.now == time
    {
      Engine(time, multiset(queue.l), multiset(secondaryQueue.l), scheduled)
    }

    /** The queues as lists; Model forgets their order. */
    ghost function Lists(): Q.Lists
      reads Repr
    {
      Q.Lists(queue.l, secondaryQueue.l)
    }

    constructor ()
      ensures Valid() && fresh(Repr) && Lists() == Q.Lists([], [])
      ensures Model() == Engine(0.0, multiset{}, multiset{}, multiset{})
    {
      time := 0.0;
      queue := new InsertionQueue();
      secondaryQueue := new InsertionQueue();
      scheduled := multiset{};
    }

    /** Schedule panics on an event before the current time, which callers must rule out. */
    method Schedule(evt: Event)
      requires Valid() && evt.time >= time
      modifies this`scheduled, queue`l, secondaryQueue`l
      ensures Valid() && Model() == Kernel.Schedule(old(Model()), evt) && Lists() == Q.Pushed(old(Lists()), evt)
    {
      scheduled := scheduled + multiset{evt};
      if evt.secondary {
        secondaryQueue.Push(evt);
        return;
      }
      queue.Push(evt);
    }

    method NoMoreEvent() returns (none: bool)
      ensures none <==> Queued(Model()) == multiset{}
    {
      var a := queue.Len();
      var b := secondaryQueue.Len();
      none := a == 0 && b == 0;
      if !none {
        if a > 0 {
          assert queue.l[0] in Queued(Model());
        } else {
          assert secondaryQueue.l[0] in Queued(Model());
        }
      }
    }

    /** Primary and secondary events sit in their own queues. */
    ghost predicate Separated()
      reads Repr
    {
      (forall e :: e in queue.l ==> !e.secondary) && (forall e :: e in secondaryQueue.l ==> e.secondary)
    }

    lemma FrontIsNext(evt: Event)
      requires Separated()
      requires if evt.secondary then
                 evt in secondaryQueue.l && (forall e :: e in secondaryQueue.l ==> evt.time <= e.time)
                     && (forall e :: e in queue.l ==> evt.time < e.time)
               else
                 evt in queue.l && (forall e :: e in queue.l ==> evt.time <= e.time)
                     && (forall e :: e in secondaryQueue.l ==> evt.time <= e.time)
      ensures IsNext(Model(), evt)
    {
    }

    /** The earliest event, a primary one on a tie. */
    method NextEvent() returns (evt: Event)
      requires Valid() && Separated() && (queue.l != [] || secondaryQueue.l != [])
      modifies queue`l, secondaryQueue`l
      ensures Valid() && IsNext(old(Model()), evt) && Model() == Take(old(Model()), evt).(now := old(time))
      ensures evt == Q.Chosen(old(Lists())) && Lists() == Q.Popped(old(Lists()))
    {
      hide Sorted;
      hide IsNext;
      var a := queue.Len();
      var b := secondaryQueue.Len();
      if a == 0 {
        FrontIsNext(SmallestOf(secondaryQueue));
        evt := PopSecondary();
      } else if b == 0 {
        FrontIsNext(SmallestOf(queue));
        evt := PopPrimary();
      } else {
        var primaryEvt := queue.Peek();
        var secondaryEvt := secondaryQueue.Peek();
        if primaryEvt.time <= secondaryEvt.time {
          FrontIsNext(primaryEvt);
          evt := PopPrimary();
        } else {
          FrontIsNext(secondaryEvt);
          evt := PopSecondary();
        }
      }
    }

    method PopPrimary() returns (evt: Event)
      requires Valid() && Separated() && queue.l != []
      modifies queue`l
      ensures Valid() && evt == old(queue.l[0]) && !evt.secondary && queue.l == old(queue.l[1..])
      ensures Model() == old(Model()).(primary := old(Model()).primary - multiset{evt})
    {
      assert !queue.l[0].secondary;
      evt := queue.Pop();
    }

    method PopSecondary() returns (evt: Event)
      requires Valid() && Separated() && secondaryQueue.l != []
      modifies secondaryQueue`l
      ensures Valid() && evt == old(secondaryQueue.l[0]) && evt.secondary
      ensures secondaryQueue.l == old(secondaryQueue.l[1..])
      ensures Model() == old(Model()).(secondary := old(Model()).secondary - multiset{evt})
    {
      assert secondaryQueue.l[0].secondary;
      evt := secondaryQueue.Pop();
    }

    /** The head of Run's loop, up to the call of the handler; an event in the past panics. */
    method StartNext() returns (evt: Event, panics: bool)
      requires Valid() && Separated() && (queue.l != [] || secondaryQueue.l != [])
      modifies this`time, queue`l, secondaryQueue`l
      ensures Valid() && IsNext(old(Model()), evt)
      ensures panics <==> evt.time < old(time)
      ensures !panics ==> Model() == Take(old(Model()), evt)
      ensures evt == Q.Chosen(old(Lists())) && Lists() == Q.Popped(old(Lists()))
      ensures (forall e :: e in old(Queued(Model())) ==> e.time >= old(time)) ==> !panics
    {
      evt := NextEvent();
      assert evt in old(Queued(Model()));
      panics := evt.time < time;
      if !panics {
        time := evt.time;
      }
    }
  }

  class TickScheduler {
    const handler: Handler
    const freq: Frequency
    const engine: SerialEngine
    var nextTickTime: real

    ghost function View(): Scheduler
      reads this
    {
      Scheduler(freq, nextTickTime)
    }

    /** NewTickScheduler and NewSecondaryTickScheduler. */
    constructor (handler: Handler, engine: SerialEngine, freq: Frequency)
      ensures this.handler == handler && this.engine == engine && this.freq == freq && nextTickTime == -1.0
    {
      this.handler, this.engine, this.freq, nextTickTime := handler, engine, freq, -1.0;
    }

    /** The effect of asking for a tick at t: nothing if one at t or later was asked for before. */
    twostate predicate Asked(t: real)
      reads this, engine.Repr
    {
      if old(nextTickTime) >= t then nextTickTime == old(nextTickTime) && engine.Model() == old(engine.Model())
      else
        && nextTickTime == t && old(engine.Model()).now <= t
        && engine.Model() == Kernel.Schedule(old(engine.Model()), TickEvent(handler, t))
    }

    method TickNow(now: real)
      requires engine.Valid() && now >= engine.time
      modifies this`nextTickTime, engine`scheduled, engine.queue`l, engine.secondaryQueue`l
      ensures engine.Valid() && Asked(now)
    {
      if nextTickTime >= now {
        return;
      }
      nextTickTime := now;
      engine.Schedule(TickEvent(handler, now));
    }

    method TickLater(now: real)
      requires engine.Valid() && now >= engine.time
      modifies this`nextTickTime, engine`scheduled, engine.queue`l, engine.secondaryQueue`l
      ensures engine.Valid() && Asked(NextTick(freq, now))
    {
      NextTickWindow(freq, now);
      var time := NextTick(freq, now);
      if nextTickTime >= time {
        return;
      }
      nextTickTime := time;
      engine.Schedule(TickEvent(handler, time));
    }
  }
}
