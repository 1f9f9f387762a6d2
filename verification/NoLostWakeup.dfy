/** No message is stranded, in any run of the simulation. */
module NoLostWakeup {
  import opened Wrappers
  import opened Freq
  import opened Kernel
  import opened Ports
  import opened Simulation
  import opened PipelineModel
  import D = DirectLink
  import C = ChannelLink

  /* ----- One Tick of the connection ----- */

  /** The messages of source p taken out of the connection by a Tick with log `log`. */
  ghost predicate Left(link: Link, link': Link, log: seq<Msg>, p: nat) {
    && multiset(InFlight(link, p)) == multiset(From(log, p)) + multiset(InFlight(link', p))
    && (Fifo(link) ==> InFlight(link, p) == From(log, p) + InFlight(link', p))
  }

  lemma TickLinkFacts(n: Net, link: Link)
    requires LinkOk(link, n) && Usable(link)
    ensures var t := TickLink(n, link);
            && LinkOk(t.link, t.net) && Usable(t.link) && (Fifo(t.link) <==> Fifo(link))
            && Delivered(n, t.net, t.log)
            && (forall m :: m in t.log ==> m.src < |n.ports|)
            && (forall p :: 0 <= p < |n.ports| ==> Left(link, t.link, t.log, p))
            && (!t.progress ==> Quiet(t.link, t.net))
  {
    match link
    case Direct(d) =>
      D.TickSettles(n, d);
      var o := D.Tick(n, d);
      forall p | 0 <= p < |n.ports| ensures Left(link, Direct(o.link), o.log, p) {
        assert d.ends[p].buf == From(o.log, p) + o.link.ends[p].buf;
      }
    case Channel(c) =>
      ChannelTickFacts(n, c);
  }

  lemma ChannelTickFacts(n: Net, c: C.Channel)
    requires C.ChannelOk(c, n) && Usable(Channel(c))
    ensures var o := C.TickChannel(n, c);
            && C.ChannelOk(o.link, o.net) && Usable(Channel(o.link)) && o.link.width == c.width
            && Delivered(n, o.net, o.log)
            && (forall m :: m in o.log ==> m.src < |n.ports|)
            && (forall p :: 0 <= p < |n.ports| ==> Left(Channel(c), Channel(o.link), o.log, p))
            && (!o.progress ==> C.QuietChannel(o.link, o.net))
  {
    hide C.TickChannel;
    hide Delivered;
    hide C.Drained;
    hide Left;
    hide Usable;
    C.TickDelivers(n, c);
    var o := C.TickChannel(n, c);
    if !o.progress {
      ChannelSleeps(n, c);
    }
    hide C.QuietChannel;
    hide C.EndOk;
    hide C.Routed;
    DrainedIsLeft(c, o.link, o.log, 0);
    DrainedIsLeft(c, o.link, o.log, 1);
    EndsUsable(c, o.link, o.log);
  }

  lemma ChannelSleeps(n: Net, c: C.Channel)
    requires C.ChannelOk(c, n) && Usable(Channel(c)) && !C.TickChannel(n, c).progress
    ensures C.ChannelOk(C.TickChannel(n, c).link, C.TickChannel(n, c).net)
    ensures C.QuietChannel(C.TickChannel(n, c).link, C.TickChannel(n, c).net)
  {
    hide C.TickChannel;
    hide Usable;
    hide Delivered;
    hide C.Drained;
    hide C.OnlyFlags;
    assert c.width > 0 && c.ends[0].cap > 0 && c.ends[1].cap > 0 by { UsableEnds(c); }
    C.TickDelivers(n, c);
    C.SleepIsSafe(n, c);
  }

  lemma DrainedIsLeft(c: C.Channel, c': C.Channel, log: seq<Msg>, s: nat)
    requires s < 2 && |c.ends| == 2 && |c'.ends| == 2 && c'.width == c.width
    requires C.Drained(c.ends[s], c'.ends[s], c.width, From(log, s))
    ensures Left(Channel(c), Channel(c'), log, s)
  {
  }

  lemma UsableEnds(c: C.Channel)
    requires |c.ends| == 2 && Usable(Channel(c))
    ensures c.width > 0 && c.ends[0].cap > 0 && c.ends[1].cap > 0
  {
  }

  lemma EndsUsable(c: C.Channel, c': C.Channel, log: seq<Msg>)
    requires |c.ends| == 2 && |c'.ends| == 2 && c'.width == c.width && Usable(Channel(c))
    requires C.Drained(c.ends[0], c'.ends[0], c.width, From(log, 0))
            && C.Drained(c.ends[1], c'.ends[1], c.width, From(log, 1))
    ensures Usable(Channel(c'))
  {
  }

  /* ----- Clock and order ----- */

  lemma MultisetOfAppend(a: seq<Event>, e: Event)
    ensures multiset(a + [e]) == multiset(a) + multiset{e}
  {
  }

  lemma PopControl(s: Sys, e: Event)
    requires ControlOk(s) && s.running.None? && IsNext(s.net.clock.engine, e)
    ensures e.time >= s.net.clock.engine.now
    ensures e.kind == TickOf(LinkHandler) ==> e == TickEvent(LinkHandler, e.time)
    ensures var c := s.net.clock.(engine := Take(s.net.clock.engine, e));
            var late := e.secondary || (s.late && e.time == s.net.clock.engine.now);
            && (late ==> e.secondary)
            && ClockOk(c, multiset(s.handled + [e]), late) && NotAhead(c)
            && OrderOk(s.handled + [e], e.time, late)
  {
    TakeKeeps(s.net.clock, multiset(s.handled), s.late, e);
    MultisetOfAppend(s.handled, e);
    TakeNotAhead(s.net.clock, Take(s.net.clock.engine, e));
    OrderGrows(s.handled, s.net.clock.engine.now, s.late, e);
  }

  lemma OrderGrows(handled: seq<Event>, now: real, late: bool, e: Event)
    requires OrderOk(handled, now, late) && e.time >= now && (late && !e.secondary ==> e.time > now)
    ensures OrderOk(handled + [e], e.time, e.secondary || (late && e.time == now))
  {
  }

  lemma WakesKeepControl(c: Clock, c': Clock, done: multiset<Event>, late: bool)
    requires ClockOk(c, done, late) && NotAhead(c) && OnlyWakes(c, c')
    ensures ClockOk(c', done, late) && NotAhead(c') && c'.engine.now == c.engine.now && c'.sched.Keys == c.sched.Keys
    ensures TickPending(c, LinkHandler) ==> TickPending(c', LinkHandler)
  {
    var hs :| WakesAll(c, c', hs);
    WakesKeep(c, c', hs, done, late);
    WakesFrame(c, c', hs);
    if TickPending(c, LinkHandler) {
      PendingGrows(c, c');
    }
  }

  lemma PendingGrows(c: Clock, c': Clock)
    requires TickPending(c, LinkHandler) && c.engine.primary <= c'.engine.primary
            && c.engine.secondary <= c'.engine.secondary
    ensures TickPending(c', LinkHandler)
  {
    var e :| e in Queued(c.engine) && e.kind == TickOf(LinkHandler);
    assert e in Queued(c'.engine);
  }

  lemma TickLaterControl(c: Clock, done: multiset<Event>, late: bool, h: Handler)
    requires ClockOk(c, done, late) && NotAhead(c) && h in c.sched
    ensures ClockOk(TickLater(c, h), done, late) && NotAhead(TickLater(c, h)) && TickPending(TickLater(c, h), h)
    ensures TickPending(c, LinkHandler) ==> TickPending(TickLater(c, h), LinkHandler)
  {
    var t := NextTickOf(c, h);
    TickAtControl(c, done, late, h, t);
    TickAtPends(c, done, late, h, t);
  }

  lemma PrimaryGrows(c: Clock, h: Handler, t: real)
    requires h in c.sched && t >= c.engine.now
    ensures c.engine.primary <= TickAt(c, h, t).engine.primary && c.engine.secondary <= TickAt(c, h, t).engine.secondary
  {
  }

  lemma TickAtControl(c: Clock, done: multiset<Event>, late: bool, h: Handler, t: real)
    requires ClockOk(c, done, late) && NotAhead(c) && h in c.sched && c.engine.now <= t <= NextTickOf(c, h)
    requires t == c.engine.now ==> !late
    ensures ClockOk(TickAt(c, h, t), done, late) && NotAhead(TickAt(c, h, t))
    ensures TickPending(c, LinkHandler) ==> TickPending(TickAt(c, h, t), LinkHandler)
  {
    PrimaryGrows(c, h, t);
    hide *;
    TickAtKeeps(c, done, late, h, t);
    TickAtNotAhead(c, h, t);
    if TickPending(c, LinkHandler) {
      PendingGrows(c, TickAt(c, h, t));
    }
  }

  lemma TickNowControl(c: Clock, done: multiset<Event>, h: Handler)
    requires ClockOk(c, done, false) && NotAhead(c) && h in c.sched
    ensures ClockOk(TickNow(c, h), done, false) && NotAhead(TickNow(c, h))
    ensures TickPending(c, LinkHandler) || h == LinkHandler ==> TickPending(TickNow(c, h), LinkHandler)
  {
    TickAtControl(c, done, false, h, c.engine.now);
    if h == LinkHandler {
      TickAtPends(c, done, false, h, c.engine.now);
    }
  }

  /* ----- One action at a time ----- */

  lemma PortsStayOk(n: Net, n': Net, log: seq<Msg>)
    requires Delivered(n, n', log) && PortsOk(n)
    ensures PortsOk(n')
  {
    forall p | 0 <= p < |n'.ports|
      ensures |n'.ports[p].buf| <= n'.ports[p].cap && (n'.ports[p].busy ==> |n'.ports[p].buf| == n'.ports[p].cap)
    {
      assert PortGrew(n.ports[p], n'.ports[p], To(log, p));
    }
  }

  /** Delivering moves messages from the connection into the ports and nowhere else. */
  lemma DeliveryKeepsFlow(s: Sys, s': Sys, log: seq<Msg>)
    requires Flow(s) && Delivered(s.net, s'.net, log)
    requires s'.sent == s.sent && s'.retrieved == s.retrieved && s'.delivered == s.delivered + log
    requires forall p :: 0 <= p < |s.net.ports| ==> Left(s.link, s'.link, log, p)
    requires Fifo(s'.link) <==> Fifo(s.link)
    ensures Flow(s')
  {
    hide FlowAt;
    hide InFlight;
    hide Fifo;
    hide PortGrew;
    hide From;
    hide To;
    forall p | 0 <= p < |s'.net.ports|
      ensures FlowAt(s'.sent, s'.delivered, s'.retrieved, InFlight(s'.link, p), s'.net.ports[p].buf, Fifo(s'.link), p)
    {
      assert PortGrew(s.net.ports[p], s'.net.ports[p], To(log, p));
      BufGrew(s.net.ports[p], s'.net.ports[p], To(log, p));
      assert Left(s.link, s'.link, log, p);
      FlowAtDelivers(s.sent, s.delivered, s.retrieved, InFlight(s.link, p), s.net.ports[p].buf, Fifo(s.link), p, log,
          InFlight(s'.link, p));
    }
  }

  lemma BufGrew(a: Port, b: Port, got: seq<Msg>)
    requires PortGrew(a, b, got)
    ensures b.buf == a.buf + got
  {
  }

  lemma FlowAtDelivers(sent: seq<Msg>, delivered: seq<Msg>, retrieved: seq<Msg>, held: seq<Msg>, buf: seq<Msg>,
                       fifo: bool, p: nat, log: seq<Msg>, held': seq<Msg>)
    requires FlowAt(sent, delivered, retrieved, held, buf, fifo, p)
    requires multiset(held) == multiset(From(log, p)) + multiset(held') && (fifo ==> held == From(log, p) + held')
    ensures FlowAt(sent, delivered + log, retrieved, held', buf + To(log, p), fifo, p)
  {
    hide From;
    hide To;
    FromAppend(delivered, log, p);
    ToAppend(delivered, log, p);
    AppendBoth(To(delivered, p), To(retrieved, p), buf, To(log, p));
    BagMove(From(sent, p), From(delivered, p), held, From(log, p), held');
  }

  lemma BagMove(sent: seq<Msg>, delivered: seq<Msg>, held: seq<Msg>, log: seq<Msg>, held': seq<Msg>)
    requires multiset(sent) == multiset(delivered) + multiset(held)
    requires multiset(held) == multiset(log) + multiset(held')
    ensures multiset(sent) == multiset(delivered + log) + multiset(held')
    ensures sent == delivered + held && held == log + held' ==> sent == (delivered + log) + held'
  {
    assert multiset(delivered + log) == multiset(delivered) + multiset(log);
  }

  lemma OthersStayPending(c: Clock, e: Event)
    requires e in Queued(c.engine) && e.kind != TickOf(LinkHandler)
    requires Queued(Take(c.engine, e)) == Queued(c.engine) - multiset{e}
    ensures TickPending(c, LinkHandler) ==> TickPending(c.(engine := Take(c.engine, e)), LinkHandler)
  {
    if TickPending(c, LinkHandler) {
      var x :| x in Queued(c.engine) && x.kind == TickOf(LinkHandler);
      assert x in Queued(Take(c.engine, e));
    }
  }

  /** LinkOk and Quiet look at the ports and at which schedulers exist only. */
  lemma LinkOkAnyClock(link: Link, n: Net, n': Net)
    requires LinkOk(link, n) && n'.ports == n.ports && n'.clock.sched.Keys == n.clock.sched.Keys
    ensures LinkOk(link, n') && (Quiet(link, n) <==> Quiet(link, n'))
  {
    match link
    case Direct(d) =>
      assert D.EndsOk(d.ends, n');
    case Channel(c) =>
  }

  lemma SameFlow(s: Sys, s': Sys)
    requires Flow(s) && s'.net.ports == s.net.ports && s'.link == s.link
    requires s'.sent == s.sent && s'.delivered == s.delivered && s'.retrieved == s.retrieved
    ensures Flow(s')
  {
  }

  /** Steps that change only clock, handled events and the running handler. */
  lemma ControlStep(s: Sys, s': Sys)
    requires Inv(s) && ControlOk(s')
    requires s'.link == s.link && s'.net.ports == s.net.ports && s'.net.clock.sched.Keys == s.net.clock.sched.Keys
    requires s'.sent == s.sent && s'.delivered == s.delivered && s'.retrieved == s.retrieved
    requires TickPending(s.net.clock, LinkHandler) ==> TickPending(s'.net.clock, LinkHandler)
    ensures Inv(s')
  {
    hide Quiet;
    hide LinkOk;
    hide Usable;
    hide ControlOk;
    hide TickPending;
    SameFlow(s, s');
    hide Flow;
    LinkOkAnyClock(s.link, s.net, s'.net);
  }

  ghost predicate CanPop(s: Sys, e: Event) {
    s.running.None? && IsNext(s.net.clock.engine, e)
  }

  lemma PopOtherKeeps(s: Sys, e: Event)
    requires Inv(s) && CanPop(s, e) && e.kind != TickOf(LinkHandler)
    ensures Inv(StepPop(s, e))
  {
    hide Quiet;
    hide LinkOk;
    hide Flow;
    hide NotAhead;
    hide OrderOk;
    PopControl(s, e);
    TakeQueues(s.net.clock.engine, multiset(s.handled), s.late, e);
    OthersStayPending(s.net.clock, e);
    hide ClockOk;
    ControlStep(s, StepPop(s, e));
  }

  lemma DeliveredClock(n: Net, n': Net, log: seq<Msg>)
    requires Delivered(n, n', log)
    ensures OnlyWakes(n.clock, n'.clock) && |n'.ports| == |n.ports|
  {
  }

  /** The clock after a tick of the connection was popped and run. */
  lemma PopTickControl(s: Sys, e: Event)
    requires Inv(s) && CanPop(s, e) && e.kind == TickOf(LinkHandler)
    ensures ControlOk(StepPop(s, e))
    ensures var n := s.net.(clock := s.net.clock.(engine := Take(s.net.clock.engine, e)));
            && LinkOk(s.link, n)
            && var t := TickLink(n, s.link);
            && StepPop(s, e).net.clock.sched.Keys == t.net.clock.sched.Keys
            && (t.progress ==> TickPending(StepPop(s, e).net.clock, LinkHandler))
  {
    hide TickLink;
    hide Flow;
    hide ClockOk;
    hide NotAhead;
    hide Delivered;
    hide OrderOk;
    hide Quiet;
    hide LinkOk;
    PopControl(s, e);
    var c := s.net.clock.(engine := Take(s.net.clock.engine, e));
    var n := s.net.(clock := c);
    LinkOkAnyClock(s.link, s.net, n);
    TickLinkFacts(n, s.link);
    var t := TickLink(n, s.link);
    DeliveredClock(n, t.net, t.log);
    var done := multiset(s.handled + [e]);
    WakesKeepControl(c, t.net.clock, done, true);
    LinkIsScheduled(t.net.clock, done, true);
    if t.progress {
      TickLaterControl(t.net.clock, done, true, LinkHandler);
    }
  }

  lemma LinkIsScheduled(c: Clock, done: multiset<Event>, late: bool)
    requires ClockOk(c, done, late)
    ensures LinkHandler in c.sched
  {
  }

  lemma PopTickKeeps(s: Sys, e: Event)
    requires Inv(s) && CanPop(s, e) && e.kind == TickOf(LinkHandler)
    ensures Inv(StepPop(s, e))
  {
    PopTickControl(s, e);
    hide ControlOk;
    hide TickLink;
    hide Quiet;
    hide Usable;
    hide Flow;
    hide Delivered;
    hide LinkOk;
    hide IsNext;
    hide PortsOk;
    hide TickPending;
    var n := s.net.(clock := s.net.clock.(engine := Take(s.net.clock.engine, e)));
    var s' := StepPop(s, e);
    TickLinkFacts(n, s.link);
    var t := TickLink(n, s.link);
    assert s'.net.ports == t.net.ports && s'.link == t.link;
    LinkOkAnyClock(t.link, t.net, s'.net);
    SamePortsOk(s.net, n);
    PortsStayOk(n, t.net, t.log);
    SamePortsOk(t.net, s'.net);
    SameFlow(s, s.(net := n));
    var mid := s.(net := t.net, link := t.link, delivered := s.delivered + t.log);
    DeliveryKeepsFlow(s.(net := n), mid, t.log);
    SameFlow(mid, s');
  }

  lemma SamePortsOk(n: Net, n': Net)
    requires PortsOk(n) && n'.ports == n.ports
    ensures PortsOk(n')
  {
  }

  /* ----- Handlers that only schedule ----- */

  lemma WakeKeeps(s: Sys, h: Handler)
    requires Inv(s) && h in s.net.clock.sched
    ensures Inv(WithClock(s, TickLater(s.net.clock, h)))
  {
    hide ClockOk;
    hide NotAhead;
    TickLaterControl(s.net.clock, multiset(s.handled), s.late, h);
    ControlStep(s, WithClock(s, TickLater(s.net.clock, h)));
  }

  lemma TickComponentKeeps(s: Sys, h: Handler)
    requires Inv(s) && h in s.net.clock.sched && !s.late
    ensures Inv(WithClock(s, TickNow(s.net.clock, h)))
  {
    hide ClockOk;
    hide NotAhead;
    TickNowControl(s.net.clock, multiset(s.handled), h);
    ControlStep(s, WithClock(s, TickNow(s.net.clock, h)));
  }

  lemma PlanKeeps(s: Sys, e: Event)
    requires Inv(s) && e.kind.Custom? && e.time >= s.net.clock.engine.now
    requires s.late && !e.secondary ==> e.time > s.net.clock.engine.now
    ensures Inv(WithClock(s, s.net.clock.(engine := Schedule(s.net.clock.engine, e))))
  {
    var c' := s.net.clock.(engine := Schedule(s.net.clock.engine, e));
    ScheduleKeeps(s.net.clock, multiset(s.handled), s.late, e);
    hide ClockOk;
    TakeNotAhead(s.net.clock, c'.engine);
    hide NotAhead;
    if TickPending(s.net.clock, LinkHandler) {
      PendingGrows(s.net.clock, c');
    }
    ControlStep(s, WithClock(s, c'));
  }

  lemma StopKeeps(s: Sys)
    requires Inv(s)
    ensures Inv(s.(running := None))
  {
    hide ClockOk;
    hide NotAhead;
    ControlStep(s, s.(running := None));
  }

  lemma FinishKeeps(s: Sys, progress: bool)
    requires Inv(s) && Enabled(s, Finish(progress))
    ensures Inv(Step(s, Finish(progress)))
  {
    hide Inv;
    var e := s.running.value;
    if e.kind.TickOf? && progress {
      WakeKeeps(s, e.kind.h);
      StopKeeps(WithClock(s, TickLater(s.net.clock, e.kind.h)));
    } else {
      StopKeeps(s);
    }
  }

  /* ----- Sending ----- */

  lemma MarkBusyKeeps(s: Sys, p: nat)
    requires Inv(s) && p < |s.net.ports| && !HasRoom(s.link, p)
    ensures Inv(s.(link := MarkBusy(s.link, p)))
  {
    hide ClockOk;
    hide NotAhead;
    hide OrderOk;
    hide TickPending;
    hide Quiet;
    hide Usable;
    hide FlowAt;
    hide InFlight;
    hide Fifo;
    MarkBusyLink(s.link, s.net, p);
    forall q | 0 <= q < |s.net.ports|
      ensures FlowAt(s.sent, s.delivered, s.retrieved, InFlight(MarkBusy(s.link, p), q), s.net.ports[q].buf,
              Fifo(MarkBusy(s.link, p)), q)
    {
      MarkBusyHolds(s.link, p, q);
    }
  }

  lemma MarkBusyHolds(link: Link, p: nat, q: nat)
    requires match link case Direct(d) => p < |d.ends| case Channel(c) => p < |c.ends|
    ensures InFlight(MarkBusy(link, p), q) == InFlight(link, q) && (Fifo(MarkBusy(link, p)) <==> Fifo(link))
  {
  }

  lemma MarkBusyLink(link: Link, n: Net, p: nat)
    requires LinkOk(link, n) && Usable(link) && p < |n.ports| && !HasRoom(link, p)
    ensures LinkOk(MarkBusy(link, p), n) && Usable(MarkBusy(link, p))
    ensures Quiet(link, n) ==> Quiet(MarkBusy(link, p), n)
  {
    match link
    case Direct(d) =>
      var ends' := d.ends[p := d.ends[p].(busy := true)];
      forall q | 0 <= q < |ends'| ensures D.EndOk(ends'[q], q, |ends'|) {
        assert D.EndOk(d.ends[q], q, |d.ends|);
      }
      forall q | 0 <= q < |ends'| && D.Settled(d.ends[q], n) ensures D.Settled(ends'[q], n) {
      }
    case Channel(c) =>
      var ends' := c.ends[p := c.ends[p].(busy := true)];
      forall q | 0 <= q < 2
        ensures C.Content(ends'[q]) == C.Content(c.ends[q]) && C.EndOk(ends'[q], c.numStage, c.width)
                && C.Routed(ends'[q], q)
      {
        assert C.Routed(c.ends[q], q);
      }
  }

  lemma PushLink(link: Link, n: Net, m: Msg)
    requires LinkOk(link, n) && Usable(link) && m.src < |n.ports| && m.dst < |n.ports| && m.src != m.dst
            && HasRoom(link, m.src)
    ensures LinkOk(Push(link, m), n) && Usable(Push(link, m)) && (Fifo(Push(link, m)) <==> Fifo(link))
  {
    match link
    case Direct(d) =>
      var ends' := d.ends[m.src := d.ends[m.src].(buf := d.ends[m.src].buf + [m])];
      forall q | 0 <= q < |ends'| ensures D.EndOk(ends'[q], q, |ends'|) {
        assert D.EndOk(d.ends[q], q, |d.ends|);
      }
    case Channel(c) =>
      var ends' := c.ends[m.src := c.ends[m.src].(src := c.ends[m.src].src + [m])];
      forall q | 0 <= q < 2 ensures C.EndOk(ends'[q], c.numStage, c.width) && C.Routed(ends'[q], q) {
        assert C.EndOk(c.ends[q], c.numStage, c.width) && C.Routed(c.ends[q], q);
        PushHolds(link, m, q);
      }
  }

  lemma PushHolds(link: Link, m: Msg, q: nat)
    requires match link case Direct(d) => m.src < |d.ends| case Channel(c) => m.src < |c.ends|
    ensures InFlight(Push(link, m), q) == InFlight(link, q) + (if q == m.src then [m] else [])
  {
    match link
    case Direct(d) =>
    case Channel(c) =>
      if q == m.src {
        var e := c.ends[q];
        assert e.post + Items(e.lanes) + (e.src + [m]) == e.post + Items(e.lanes) + e.src + [m];
      }
  }

  lemma SendFlow(sent: seq<Msg>, delivered: seq<Msg>, retrieved: seq<Msg>, held: seq<Msg>, buf: seq<Msg>, fifo: bool,
      p: nat, m: Msg)
    requires FlowAt(sent, delivered, retrieved, held, buf, fifo, p)
    ensures FlowAt(sent + [m], delivered, retrieved, held + (if p == m.src then [m] else []), buf, fifo, p)
  {
    FromAppend(sent, [m], p);
    assert [m][1..] == [];
    var extra := if p == m.src then [m] else [];
    assert From([m], p) == extra;
    assert multiset(From(sent, p) + extra) == multiset(From(sent, p)) + multiset(extra);
    assert multiset(held + extra) == multiset(held) + multiset(extra);
    if fifo {
      AppendBoth(From(sent, p), From(delivered, p), held, extra);
    }
  }

  /** An accepted Send leaves a tick of the connection pending. */
  lemma SendKeeps(s: Sys, m: Msg)
    requires Inv(s) && !s.late && m.src < |s.net.ports| && m.dst < |s.net.ports| && m.src != m.dst
            && HasRoom(s.link, m.src)
    ensures Inv(StepSend(s, m)) && TickPending(StepSend(s, m).net.clock, LinkHandler)
  {
    hide ClockOk;
    hide NotAhead;
    hide OrderOk;
    hide Quiet;
    hide Usable;
    LinkIsScheduled(s.net.clock, multiset(s.handled), s.late);
    TickNowControl(s.net.clock, multiset(s.handled), LinkHandler);
    hide TickPending;
    hide TickNow;
    var s' := StepSend(s, m);
    PushLink(s.link, s.net, m);
    LinkOkAnyClock(Push(s.link, m), s.net, s'.net);
    hide LinkOk;
    hide FlowAt;
    hide InFlight;
    hide Fifo;
    forall p | 0 <= p < |s'.net.ports|
      ensures FlowAt(s'.sent, s'.delivered, s'.retrieved, InFlight(s'.link, p), s'.net.ports[p].buf, Fifo(s'.link), p)
    {
      PushHolds(s.link, m, p);
      SendFlow(s.sent, s.delivered, s.retrieved, InFlight(s.link, p), s.net.ports[p].buf, Fifo(s.link), p, m);
    }
  }

  /* ----- Retrieving ----- */

  lemma {:induction false} ToHolds(ms: seq<Msg>, d: nat)
    ensures forall m :: m in To(ms, d) ==> m.dst == d
  {
    if ms != [] {
      ToHolds(ms[1..], d);
    }
  }

  lemma RetrieveFlow(sent: seq<Msg>, delivered: seq<Msg>, retrieved: seq<Msg>, held: seq<Msg>, buf: seq<Msg>,
      fifo: bool, p: nat, x: Msg, buf': seq<Msg>)
    requires FlowAt(sent, delivered, retrieved, held, buf, fifo, p)
    requires if x.dst == p then buf == [x] + buf' else buf' == buf
    ensures FlowAt(sent, delivered, retrieved + [x], held, buf', fifo, p)
  {
    hide From;
    ToAppend(retrieved, [x], p);
    assert [x][1..] == [];
  }

  /** Dropping the first message of a port that is not marked busy disturbs no blocked head. */
  lemma RetrieveStaysQuiet(link: Link, n: Net, n': Net, p: nat)
    requires LinkOk(link, n) && LinkOk(link, n') && Quiet(link, n) && p < |n.ports| && !n.ports[p].busy
    requires |n'.ports| == |n.ports| && forall q :: 0 <= q < |n.ports| && q != p ==> n'.ports[q] == n.ports[q]
    ensures Quiet(link, n')
  {
    match link
    case Direct(d) =>
      forall s | 0 <= s < |d.ends| ensures D.Settled(d.ends[s], n') {
        assert D.Settled(d.ends[s], n);
      }
    case Channel(c) =>
  }

  lemma LinkOkSamePorts(link: Link, n: Net, n': Net)
    requires LinkOk(link, n) && |n'.ports| == |n.ports| && n'.clock.sched.Keys == n.clock.sched.Keys
    requires forall q :: 0 <= q < |n.ports| ==> n'.ports[q].owner == n.ports[q].owner
    ensures LinkOk(link, n')
  {
    match link
    case Direct(d) => assert D.EndsOk(d.ends, n');
    case Channel(c) =>
  }

  lemma NotifyControl(link: Link, c: Clock, done: multiset<Event>)
    requires ClockOk(c, done, false) && NotAhead(c) && LinkHandler in c.sched
    ensures ClockOk(Notify(link, c), done, false) && NotAhead(Notify(link, c))
            && TickPending(Notify(link, c), LinkHandler)
    ensures Notify(link, c).engine.now == c.engine.now
  {
    if link.Direct? {
      TickNowControl(c, done, LinkHandler);
    } else {
      TickLaterControl(c, done, false, LinkHandler);
    }
  }

  /** Taking a message from a blocked port leaves a tick of the connection pending. */
  lemma RetrieveKeeps(s: Sys, p: nat)
    requires Inv(s) && !s.late && p < |s.net.ports| && LinkHandler in s.net.clock.sched
    ensures Inv(StepRetrieve(s, p))
    ensures s.net.ports[p].buf != [] && s.net.ports[p].busy ==> TickPending(StepRetrieve(s, p).net.clock, LinkHandler)
  {
    if s.net.ports[p].buf != [] {
      RetrieveOneFlow(s, p);
      hide Flow;
      RetrieveControl(s, p);
    }
  }

  lemma RetrieveOneFlow(s: Sys, p: nat)
    requires Flow(s) && p < |s.net.ports| && s.net.ports[p].buf != [] && LinkHandler in s.net.clock.sched
    ensures Flow(StepRetrieve(s, p))
  {
    hide InFlight;
    hide Fifo;
    hide Notify;
    var s' := StepRetrieve(s, p);
    var x := s.net.ports[p].buf[0];
    assert FlowAt(s.sent, s.delivered, s.retrieved, InFlight(s.link, p), s.net.ports[p].buf, Fifo(s.link), p);
    assert x in To(s.delivered, p);
    ToHolds(s.delivered, p);
    hide FlowAt;
    forall q | 0 <= q < |s'.net.ports|
      ensures FlowAt(s'.sent, s'.delivered, s'.retrieved, InFlight(s'.link, q), s'.net.ports[q].buf, Fifo(s'.link), q)
    {
      RetrieveFlow(s.sent, s.delivered, s.retrieved, InFlight(s.link, q), s.net.ports[q].buf, Fifo(s.link), q, x,
          s'.net.ports[q].buf);
    }
  }

  lemma RetrieveControl(s: Sys, p: nat)
    requires Inv(s) && !s.late && p < |s.net.ports| && LinkHandler in s.net.clock.sched && s.net.ports[p].buf != []
    ensures var s' := StepRetrieve(s, p);
            && ControlOk(s') && LinkOk(s'.link, s'.net) && PortsOk(s'.net) && Awake(s')
            && (s.net.ports[p].busy ==> TickPending(s'.net.clock, LinkHandler))
  {
    hide ClockOk;
    hide NotAhead;
    hide OrderOk;
    hide Flow;
    hide Quiet;
    hide TickPending;
    hide Usable;
    NotifyControl(s.link, s.net.clock, multiset(s.handled));
    hide Notify;
    var s' := StepRetrieve(s, p);
    LinkOkSamePorts(s.link, s.net, s'.net);
    hide LinkOk;
    if !s.net.ports[p].busy && Quiet(s.link, s.net) {
      RetrieveStaysQuiet(s.link, s.net, s'.net, p);
    }
  }

  /* ----- Whole runs ----- */

  lemma PrimaryIsEarly(s: Sys)
    requires Inv(s) && PrimaryRunning(s)
    ensures !s.late
  {
  }

  lemma LateHandlerIsSecondary(s: Sys)
    requires Inv(s) && s.running.Some? && s.late
    ensures s.running.value.secondary
  {
  }

  lemma SendStepKeeps(s: Sys, m: Msg)
    requires Inv(s) && Enabled(s, SendMsg(m))
    ensures Inv(Step(s, SendMsg(m)))
  {
    PrimaryIsEarly(s);
    hide Inv;
    if HasRoom(s.link, m.src) { SendKeeps(s, m); } else { MarkBusyKeeps(s, m.src); }
  }

  lemma PopStepKeeps(s: Sys, e: Event)
    requires Inv(s) && Enabled(s, Pop(e))
    ensures Inv(Step(s, Pop(e)))
  {
    hide Inv;
    hide LinkOk;
    hide IsNext;
    if e.kind == TickOf(LinkHandler) { PopTickKeeps(s, e); } else { PopOtherKeeps(s, e); }
  }

  lemma AskStepKeeps(s: Sys, p: nat)
    requires Inv(s) && Enabled(s, AskCanSend(p))
    ensures Inv(Step(s, AskCanSend(p)))
  {
    hide Inv;
    if !HasRoom(s.link, p) { MarkBusyKeeps(s, p); }
  }

  lemma RetrieveStepKeeps(s: Sys, p: nat)
    requires Inv(s) && Enabled(s, Retrieve(p))
    ensures Inv(Step(s, Retrieve(p)))
  {
    PrimaryIsEarly(s);
    hide Inv;
    hide LinkOk;
    hide IsNext;
    RetrieveKeeps(s, p);
  }

  lemma TickStep(s: Sys, h: nat)
    requires Enabled(s, TickComponentNow(h))
    ensures PrimaryRunning(s) && Component(h) in s.net.clock.sched
    ensures Step(s, TickComponentNow(h)) == WithClock(s, TickNow(s.net.clock, Component(h)))
  {
    hide LinkOk;
    hide TickNow;
  }

  lemma TickStepKeeps(s: Sys, h: nat)
    requires Inv(s) && Enabled(s, TickComponentNow(h))
    ensures Inv(Step(s, TickComponentNow(h)))
  {
    hide *;
    TickStep(s, h);
    PrimaryIsEarly(s);
    TickComponentKeeps(s, Component(h));
  }

  lemma PlanStepKeeps(s: Sys, e: Event)
    requires Inv(s) && Enabled(s, Plan(e))
    ensures Inv(Step(s, Plan(e)))
  {
    if s.late {
      LateHandlerIsSecondary(s);
    }
    hide Inv;
    hide LinkOk;
    hide IsNext;
    PlanKeeps(s, e);
  }

  lemma WakeStepKeeps(s: Sys, h: nat)
    requires Inv(s) && Enabled(s, WakeComponent(h))
    ensures Inv(Step(s, WakeComponent(h)))
  {
    hide Inv;
    hide LinkOk;
    hide IsNext;
    hide TickLater;
    WakeKeeps(s, Component(h));
  }

  lemma StepKeeps(s: Sys, a: Action)
    requires Inv(s) && Enabled(s, a)
    ensures Inv(Step(s, a))
  {
    hide *;
    match a
    case Pop(e) => PopStepKeeps(s, e);
    case SendMsg(m) => SendStepKeeps(s, m);
    case AskCanSend(p) => AskStepKeeps(s, p);
    case Retrieve(p) => RetrieveStepKeeps(s, p);
    case WakeComponent(h) => WakeStepKeeps(s, h);
    case TickComponentNow(h) => TickStepKeeps(s, h);
    case Plan(e) => PlanStepKeeps(s, e);
    case Finish(progress) => FinishKeeps(s, progress);
  }

  lemma InitControl(s: Sys)
    requires Init(s)
    ensures ControlOk(s)
  {
    hide LinkOk;
    hide Usable;
    hide NextTickOf;
    var c := s.net.clock;
    assert multiset(s.handled) == multiset{s.running.value};
    forall h | h in c.sched ensures SchedulerOk(c, h) {
    }
    InitNotAhead(c);
  }

  lemma InitNotAhead(c: Clock)
    requires c.engine.now >= 0.0 && forall h :: h in c.sched ==> c.sched[h].nextTickTime == -1.0
    ensures NotAhead(c)
  {
    hide NextTick;
  }

  lemma InitInv(s: Sys)
    requires Init(s)
    ensures Inv(s)
  {
    InitControl(s);
    hide ControlOk;
    hide TickPending;
    hide Usable;
    InitFlow(s);
    hide Flow;
    InitQuiet(s);
  }

  lemma InitFlow(s: Sys)
    requires Init(s)
    ensures Flow(s)
  {
    hide LinkOk;
    hide Usable;
    hide InFlight;
  }

  lemma InitQuiet(s: Sys)
    requires Init(s)
    ensures Quiet(s.link, s.net)
  {
    match s.link
    case Direct(d) =>
      forall q | 0 <= q < |d.ends| ensures D.Settled(d.ends[q], s.net) {
        assert InFlight(s.link, q) == [];
      }
    case Channel(ch) =>
      assert InFlight(s.link, 0) == [] && InFlight(s.link, 1) == [];
  }

  lemma {:induction false} RunKeeps(s: Sys, acts: seq<Action>)
    requires Inv(s) && Runs(s, acts)
    ensures Inv(Final(s, acts))
    decreases |acts|
  {
    if acts != [] {
      StepKeeps(s, acts[0]);
      RunKeeps(Step(s, acts[0]), acts[1..]);
    }
  }

  /** No lost wakeup. In every reachable state, if the connection has no tick pending then everything it holds waits
      behind a message for a full port with portBusy set; and an end is only marked busy while its buffer is full. */
  lemma NoMessageIsStranded(s0: Sys, acts: seq<Action>)
    requires Init(s0) && Runs(s0, acts)
    ensures var s := Final(s0, acts);
            && LinkOk(s.link, s.net)
            && (TickPending(s.net.clock, LinkHandler) || Quiet(s.link, s.net))
            && match s.link
               case Direct(d) =>
                 && (!TickPending(s.net.clock, LinkHandler) ==> forall p :: 0 <= p < |d.ends| && d.ends[p].buf != [] ==>
                      d.ends[p].buf[0].dst < |s.net.ports| && Blocked(s.net.ports[d.ends[p].buf[0].dst]))
                 && forall p :: 0 <= p < |d.ends| && d.ends[p].busy ==> |d.ends[p].buf| == d.ends[p].bufSize
               case Channel(c) =>
                 && |c.ends| == 2
                 && (!TickPending(s.net.clock, LinkHandler) ==> forall p :: 0 <= p < 2 ==>
                      C.Content(c.ends[p]) == [] || (c.ends[p].post != [] && Blocked(s.net.ports[1 - p])))
                 && forall p :: 0 <= p < 2 && c.ends[p].busy ==> |c.ends[p].src| == c.ends[p].cap
  {
    InitInv(s0);
    RunKeeps(s0, acts);
    var s := Final(s0, acts);
    hide ControlOk;
    hide Flow;
    hide TickPending;
    match s.link
    case Direct(d) =>
      forall p | 0 <= p < |d.ends| ensures D.EndOk(d.ends[p], p, |d.ends|) {
      }
      if Quiet(s.link, s.net) {
        forall p | 0 <= p < |d.ends| ensures D.Settled(d.ends[p], s.net) {
        }
      }
    case Channel(c) =>
      forall p | 0 <= p < 2 ensures C.EndOk(c.ends[p], c.numStage, c.width) {
      }
  }

  /** The other half: reading a blocked port makes the connection tick again. */
  lemma ReadingABlockedPortWakes(s0: Sys, acts: seq<Action>, p: nat)
    requires Init(s0) && Runs(s0, acts) && Enabled(Final(s0, acts), Retrieve(p))
    requires Blocked(Final(s0, acts).net.ports[p]) && Final(s0, acts).net.ports[p].cap > 0
    ensures TickPending(Step(Final(s0, acts), Retrieve(p)).net.clock, LinkHandler)
  {
    InitInv(s0);
    RunKeeps(s0, acts);
    RetrieveKeeps(Final(s0, acts), p);
  }

  /** Every message is delivered exactly once and in order, at all times; no port buffer overflows. */
  lemma DeliveryIsExactlyOnce(s0: Sys, acts: seq<Action>, p: nat)
    requires Init(s0) && Runs(s0, acts) && p < |Final(s0, acts).net.ports|
    ensures var s := Final(s0, acts);
            && multiset(From(s.sent, p)) == multiset(From(s.delivered, p)) + multiset(InFlight(s.link, p))
            && (Fifo(s.link) ==> From(s.sent, p) == From(s.delivered, p) + InFlight(s.link, p))
            && To(s.delivered, p) == To(s.retrieved, p) + s.net.ports[p].buf
            && |s.net.ports[p].buf| <= s.net.ports[p].cap
  {
    InitInv(s0);
    RunKeeps(s0, acts);
    var s := Final(s0, acts);
    assert FlowAt(s.sent, s.delivered, s.retrieved, InFlight(s.link, p), s.net.ports[p].buf, Fifo(s.link), p);
  }

  /** A run that ends with both queues empty and room in every port has delivered everything it sent. */
  lemma NothingIsLeftBehind(s0: Sys, acts: seq<Action>, p: nat)
    requires Init(s0) && Runs(s0, acts) && p < |Final(s0, acts).net.ports|
    requires Queued(Final(s0, acts).net.clock.engine) == multiset{}
    requires forall q :: 0 <= q < |Final(s0, acts).net.ports| ==>
            |Final(s0, acts).net.ports[q].buf| < Final(s0, acts).net.ports[q].cap
    ensures var s := Final(s0, acts);
            InFlight(s.link, p) == [] && multiset(From(s.sent, p)) == multiset(From(s.delivered, p))
  {
    NoMessageIsStranded(s0, acts);
    DeliveryIsExactlyOnce(s0, acts, p);
    hide Runs;
    hide Final;
    hide Init;
    RoomMeansEmpty(Final(s0, acts).link, Final(s0, acts).net, p);
  }

  lemma RoomMeansEmpty(link: Link, n: Net, p: nat)
    requires LinkOk(link, n) && Quiet(link, n) && p < |n.ports|
    requires forall q :: 0 <= q < |n.ports| ==> |n.ports[q].buf| < n.ports[q].cap
    ensures InFlight(link, p) == []
  {
    match link
    case Direct(d) => assert D.Settled(d.ends[p], n);
    case Channel(c) =>
  }

  /** Runs of the engine: handled times never decrease and are never beyond now, no primary event of a time follows a
      secondary one of that time, nothing pending is in the past, handled plus pending is what was scheduled, and
      the ticks of one component are handled at strictly increasing times. */
  lemma EngineRunsInOrder(s0: Sys, acts: seq<Action>)
    requires Init(s0) && Runs(s0, acts)
    ensures var s := Final(s0, acts);
            var e := s.net.clock.engine;
            && OrderOk(s.handled, e.now, s.late)
            && e.scheduled == multiset(s.handled) + Queued(e)
            && (forall x :: x in Queued(e) ==> x.time >= e.now)
            && forall h :: h in s.net.clock.sched ==> TicksIncrease(s.handled, h)
  {
    InitInv(s0);
    RunKeeps(s0, acts);
    var s := Final(s0, acts);
    hide LinkOk;
    hide Flow;
    hide Awake;
    hide NotAhead;
    forall h | h in s.net.clock.sched ensures TicksIncrease(s.handled, h) {
      assert SchedulerOk(s.net.clock, h);
      HandledOnce(s.net.clock, s.handled, s.late, h);
    }
  }

  ghost predicate TicksIncrease(handled: seq<Event>, h: Handler) {
    forall i, j :: 0 <= i < j < |handled| && handled[i].kind == TickOf(h) && handled[j].kind == TickOf(h) ==>
      handled[i].time < handled[j].time
  }

  lemma HandledOnce(c: Clock, handled: seq<Event>, late: bool, h: Handler)
    requires h in c.sched && SchedulerOk(c, h) && OrderOk(handled, c.engine.now, late)
    requires c.engine.scheduled == multiset(handled) + Queued(c.engine)
    ensures TicksIncrease(handled, h)
  {
    forall i, j | 0 <= i < j < |handled| && handled[i].kind == TickOf(h) && handled[j].kind == TickOf(h)
      ensures handled[i].time < handled[j].time
    {
      TickedOnce(handled, i, j, h, c.engine);
    }
  }

  lemma TickedOnce(handled: seq<Event>, i: nat, j: nat, h: Handler, e: Engine)
    requires i < j < |handled| && handled[i].kind == handled[j].kind == TickOf(h) && handled[i].time <= handled[j].time
    requires forall x :: x in e.scheduled && x.kind == TickOf(h) ==> x == TickEvent(h, x.time) && e.scheduled[x] == 1
    requires multiset(handled) <= e.scheduled
    ensures handled[i].time < handled[j].time
  {
    assert handled[i] in multiset(handled) && handled[j] in multiset(handled);
    if handled[i].time == handled[j].time {
      assert handled[i] == handled[j];
      Twice(handled, i, j);
    }
  }

  lemma Twice(s: seq<Event>, i: nat, j: nat)
    requires i < j < |s| && s[i] == s[j]
    ensures multiset(s)[s[i]] >= 2
  {
    assert s == s[..j] + [s[j]] + s[j + 1..];
    assert s[i] in s[..j];
    assert multiset(s) == multiset(s[..j]) + multiset([s[j]]) + multiset(s[j + 1..]);
  }
}
