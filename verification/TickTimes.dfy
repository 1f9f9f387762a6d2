/** When ticks are asked for, in every reachable state: what an action does to the clock and to the busy flags. */
module TickTimes {
  import opened Wrappers
  import opened Freq
  import opened Kernel
  import opened Ports
  import opened Simulation
  import opened NoLostWakeup
  import opened OwnersWoken
  import D = DirectLink
  import C = ChannelLink
  import ChannelTiming

  /** From c to c' a tick of h was asked for now: it is pending now, or the one that was pending already. */
  ghost predicate TickAskedNow(c: Clock, c': Clock, h: Handler) {
    exists t :: Pending(c', h, t) && (t == c.engine.now || (t > c.engine.now && Pending(c, h, t)))
  }

  /** From c to c' a tick of h was asked for at its next clock edge. */
  ghost predicate NextTickAsked(c: Clock, c': Clock, h: Handler) {
    h in c.sched && Pending(c', h, NextTickOf(c, h))
  }

  lemma TickNowAsks(c: Clock, done: multiset<Event>)
    requires ClockOk(c, done, false)
    ensures TickAskedNow(c, TickNow(c, LinkHandler), LinkHandler)
  {
    var now, next, c' := c.engine.now, c.sched[LinkHandler].nextTickTime, TickNow(c, LinkHandler);
    assert SchedulerOk(c, LinkHandler);
    assert Pending(c', LinkHandler, if next > now then next else now);
  }

  lemma TickLaterAtNext(c: Clock, done: multiset<Event>, late: bool, h: Handler)
    requires ClockOk(c, done, late) && NotAhead(c) && h in c.sched
    ensures NextTickAsked(c, TickLater(c, h), h)
  {
    TickLaterExactlyOne(c, done, late, h);
  }

  lemma InvClock(s: Sys)
    requires Inv(s)
    ensures ClockOk(s.net.clock, multiset(s.handled), s.late) && NotAhead(s.net.clock)
    ensures PrimaryRunning(s) ==> !s.late
  {
  }

  lemma InvPort(s: Sys, p: nat)
    requires Inv(s) && p < |s.net.ports|
    ensures s.net.ports[p].busy ==> |s.net.ports[p].buf| == s.net.ports[p].cap
  {
  }

  /** A message that is accepted ticks the connection in the same cycle, unless a later tick is pending already. */
  lemma AcceptedSendTicksNow(s0: Sys, acts: seq<Action>, m: Msg)
    requires Init(s0) && Runs(s0, acts) && Enabled(Final(s0, acts), SendMsg(m))
    requires HasRoom(Final(s0, acts).link, m.src)
    ensures var s := Final(s0, acts); TickAskedNow(s.net.clock, Step(s, SendMsg(m)).net.clock, LinkHandler)
  {
    var s := Final(s0, acts);
    InitInv(s0);
    RunKeeps(s0, acts);
    InvClock(s);
    TickNowAsks(s.net.clock, multiset(s.handled));
  }

  /** Reading from a blocked port ticks a direct connection in the same cycle and a channel in the next one; reading
      from any other port asks for nothing. Afterwards the port is not marked. */
  lemma ReadingTicksWhenBlocked(s0: Sys, acts: seq<Action>, p: nat)
    requires Init(s0) && Runs(s0, acts) && Enabled(Final(s0, acts), Retrieve(p))
    requires Final(s0, acts).net.ports[p].buf != []
    ensures var s := Final(s0, acts);
            var s', port := Step(s, Retrieve(p)), s.net.ports[p];
            && (Blocked(port) && s.link.Direct? ==> TickAskedNow(s.net.clock, s'.net.clock, LinkHandler))
            && (Blocked(port) && s.link.Channel? ==> NextTickAsked(s.net.clock, s'.net.clock, LinkHandler))
            && (!Blocked(port) ==> s'.net.clock == s.net.clock)
            && p < |s'.net.ports| && !s'.net.ports[p].busy
  {
    InitInv(s0);
    RunKeeps(s0, acts);
    ReadingFrom(Final(s0, acts), p);
  }

  lemma ReadingFrom(s: Sys, p: nat)
    requires Inv(s) && Enabled(s, Retrieve(p)) && p < |s.net.ports| && s.net.ports[p].buf != []
    ensures var s', port := Step(s, Retrieve(p)), s.net.ports[p];
            && (Blocked(port) && s.link.Direct? ==> TickAskedNow(s.net.clock, s'.net.clock, LinkHandler))
            && (Blocked(port) && s.link.Channel? ==> NextTickAsked(s.net.clock, s'.net.clock, LinkHandler))
            && (!Blocked(port) ==> s'.net.clock == s.net.clock)
            && p < |s'.net.ports| && !s'.net.ports[p].busy
  {
    hide *;
    InvClock(s);
    InvPort(s, p);
    RetrieveStep(s, p);
    ReadingTicks(s, p);
  }

  lemma RetrieveStep(s: Sys, p: nat)
    requires Enabled(s, Retrieve(p))
    ensures PrimaryRunning(s) && p < |s.net.ports| && LinkHandler in s.net.clock.sched
    ensures Step(s, Retrieve(p)) == StepRetrieve(s, p)
  {
    hide LinkOk;
    hide StepRetrieve;
  }

  lemma ReadingTicks(s: Sys, p: nat)
    requires ClockOk(s.net.clock, multiset(s.handled), false) && NotAhead(s.net.clock)
    requires LinkHandler in s.net.clock.sched && p < |s.net.ports| && s.net.ports[p].buf != []
    requires s.net.ports[p].busy ==> |s.net.ports[p].buf| == s.net.ports[p].cap
    ensures var c, s' := s.net.clock, StepRetrieve(s, p);
            && (Blocked(s.net.ports[p]) && s.link.Direct? ==> TickAskedNow(c, s'.net.clock, LinkHandler))
            && (Blocked(s.net.ports[p]) && s.link.Channel? ==>
                  NextTickAsked(c, s'.net.clock, LinkHandler))
            && (!Blocked(s.net.ports[p]) ==> s'.net.clock == c)
            && p < |s'.net.ports| && !s'.net.ports[p].busy
  {
    TickNowAsks(s.net.clock, multiset(s.handled));
    TickLaterAtNext(s.net.clock, multiset(s.handled), false, LinkHandler);
    hide ClockOk;
    hide NotAhead;
    hide TickAskedNow;
    hide NextTickAsked;
    hide TickNow;
    hide TickLater;
  }

  /** A component that finished its tick with progress ticks again at its next clock edge, one without does not. */
  lemma ProgressTicksAgain(s0: Sys, acts: seq<Action>, progress: bool)
    requires Init(s0) && Runs(s0, acts) && Enabled(Final(s0, acts), Finish(progress))
    requires Final(s0, acts).running.value.kind.TickOf?
    ensures var s := Final(s0, acts);
            var h, c, c' := s.running.value.kind.h, s.net.clock, Step(s, Finish(progress)).net.clock;
            if progress then NextTickAsked(c, c', h) else c' == c
  {
    var s := Final(s0, acts);
    InitInv(s0);
    RunKeeps(s0, acts);
    InvClock(s);
    TickLaterAtNext(s.net.clock, multiset(s.handled), s.late, s.running.value.kind.h);
  }

  /** A tick of the connection that delivered something is followed by another one. */
  lemma DeliveryTicksAgain(s0: Sys, acts: seq<Action>, e: Event)
    requires Init(s0) && Runs(s0, acts) && Enabled(Final(s0, acts), Pop(e)) && e.kind == TickOf(LinkHandler)
    requires Step(Final(s0, acts), Pop(e)).delivered != Final(s0, acts).delivered
    ensures FutureTick(Step(Final(s0, acts), Pop(e)).net.clock, LinkHandler)
  {
    var s := Final(s0, acts);
    InitInv(s0);
    RunKeeps(s0, acts);
    StepKeeps(s, Pop(e));
    InvClock(Step(s, Pop(e)));
    PopAsks(s, e);
    AskedIsPending(Step(s, Pop(e)).net.clock, multiset(Step(s, Pop(e)).handled), Step(s, Pop(e)).late, LinkHandler);
  }

  lemma PopAsks(s: Sys, e: Event)
    requires Inv(s) && Enabled(s, Pop(e)) && e.kind == TickOf(LinkHandler)
    requires Step(s, Pop(e)).delivered != s.delivered
    ensures Asked(Step(s, Pop(e)).net.clock, LinkHandler)
  {
    var n := s.net.(clock := s.net.clock.(engine := Take(s.net.clock.engine, e)));
    LinkOkAnyClock(s.link, s.net, n);
    LogIsProgress(n, s.link);
    ConcatNil(s.delivered);
    hide Inv;
    hide LinkOk;
    hide IsNext;
    hide TickLink;
    hide Take;
    TickLaterAsks(TickLink(n, s.link).net.clock, LinkHandler);
    hide TickLater;
    hide Asked;
  }

  lemma LogIsProgress(n: Net, link: Link)
    requires LinkOk(link, n) && LinkHandler in n.clock.sched
    ensures LinkHandler in TickLink(n, link).net.clock.sched
    ensures TickLink(n, link).log != [] ==> TickLink(n, link).progress
  {
    match link
    case Direct(d) =>
      D.TickSettles(n, d);
      DeliveredClock(n, D.Tick(n, d).net, D.Tick(n, d).log);
    case Channel(c) =>
      C.TickDelivers(n, c);
      DeliveredClock(n, C.TickChannel(n, c).net, C.TickChannel(n, c).log);
      if !C.TickChannel(n, c).progress {
        C.SleepIsSafe(n, c);
      }
  }

  /** A tick of the connection that moved nothing asks for no further one. */
  lemma IdleTickSleeps(s0: Sys, acts: seq<Action>, e: Event)
    requires Init(s0) && Runs(s0, acts) && Enabled(Final(s0, acts), Pop(e)) && e.kind == TickOf(LinkHandler)
    requires var s := Final(s0, acts);
             var s' := Step(s, Pop(e));
             s'.delivered == s.delivered && (s.link.Direct? || s'.link == s.link)
    ensures var c, c' := Final(s0, acts).net.clock, Step(Final(s0, acts), Pop(e)).net.clock;
            && LinkHandler in c.sched && LinkHandler in c'.sched
            && c'.sched[LinkHandler] == c.sched[LinkHandler]
  {
    InitInv(s0);
    RunKeeps(s0, acts);
    PopIdles(Final(s0, acts), e);
  }

  lemma PopIdles(s: Sys, e: Event)
    requires Inv(s) && Enabled(s, Pop(e)) && e.kind == TickOf(LinkHandler)
    requires Step(s, Pop(e)).delivered == s.delivered && (s.link.Direct? || Step(s, Pop(e)).link == s.link)
    ensures LinkHandler in s.net.clock.sched && LinkHandler in Step(s, Pop(e)).net.clock.sched
    ensures Step(s, Pop(e)).net.clock.sched[LinkHandler] == s.net.clock.sched[LinkHandler]
  {
    var n := s.net.(clock := s.net.clock.(engine := Take(s.net.clock.engine, e)));
    LinkOkAnyClock(s.link, s.net, n);
    NothingIsIdle(n, s.link);
    assert s.delivered + TickLink(n, s.link).log == s.delivered ==> TickLink(n, s.link).log == [];
    hide Inv;
    hide LinkOk;
    hide IsNext;
    hide TickLink;
    hide Take;
    hide TickLater;
  }

  lemma NothingIsIdle(n: Net, link: Link)
    requires LinkOk(link, n) && LinkHandler in n.clock.sched
    ensures var t := TickLink(n, link);
            && LinkHandler in t.net.clock.sched && t.net.clock.sched[LinkHandler] == n.clock.sched[LinkHandler]
            && (t.log == [] && (link.Direct? || t.link == link) ==> !t.progress)
  {
    match link
    case Direct(d) =>
      D.TickSettles(n, d);
      DeliveredClock(n, D.Tick(n, d).net, D.Tick(n, d).log);
    case Channel(c) =>
      C.TickDelivers(n, c);
      DeliveredClock(n, C.TickChannel(n, c).net, C.TickChannel(n, c).log);
      ChannelTiming.ProgressIsReal(n, c);
  }

  lemma DeliveredClock(n: Net, n': Net, log: seq<Msg>)
    requires Delivered(n, n', log)
    ensures n'.clock.sched.Keys == n.clock.sched.Keys
    ensures LinkHandler in n.clock.sched ==> n'.clock.sched[LinkHandler] == n.clock.sched[LinkHandler]
  {
    var hs :| WakesAll(n.clock, n'.clock, hs);
    WakesFrame(n.clock, n'.clock, hs);
  }

  /* ----- Refusals ----- */

  /** A refusal, of CanSend or of Send, is remembered at the end of the port and changes nothing else. */
  lemma RefusalIsRemembered(s0: Sys, acts: seq<Action>, a: Action, p: nat)
    requires Init(s0) && Runs(s0, acts) && Enabled(Final(s0, acts), a) && p < |Final(s0, acts).net.ports|
    requires a == AskCanSend(p) || (a.SendMsg? && a.m.src == p)
    requires !HasRoom(Final(s0, acts).link, p)
    ensures var s := Final(s0, acts);
            var s' := Step(s, a);
            && (match s'.link case Direct(d) => |d.ends| == |s.net.ports| case Channel(c) => |c.ends| == |s.net.ports|)
            && Busy(s'.link, p) && s' == s.(link := s'.link)
            && forall q :: 0 <= q < |s.net.ports| ==>
                 InFlight(s'.link, q) == InFlight(s.link, q) && (q != p ==> (Busy(s'.link, q) <==> Busy(s.link, q)))
  {
    InitInv(s0);
    RunKeeps(s0, acts);
    InvLink(Final(s0, acts));
    RefusedStep(Final(s0, acts), a, p);
    hide *;
  }

  lemma RefusedStep(s: Sys, a: Action, p: nat)
    requires Enabled(s, a) && p < |s.net.ports| && (a == AskCanSend(p) || (a.SendMsg? && a.m.src == p))
    requires LinkOk(s.link, s.net) && !HasRoom(s.link, p)
    ensures Step(s, a) == s.(link := MarkBusy(s.link, p))
    ensures var marked := MarkBusy(s.link, p);
            && (match marked case Direct(d) => |d.ends| == |s.net.ports| case Channel(c) => |c.ends| == |s.net.ports|)
            && Busy(marked, p)
            && forall q :: 0 <= q < |s.net.ports| ==>
                 InFlight(marked, q) == InFlight(s.link, q) && (q != p ==> (Busy(marked, q) <==> Busy(s.link, q)))
  {
    EndsOfPorts(s.link, s.net);
    hide LinkOk;
    hide IsNext;
  }

  predicate Ends(link: Link, n: nat) {
    match link
    case Direct(d) => |d.ends| == n
    case Channel(c) => |c.ends| == n
  }

  /** In the states from s on there is one with room again at port p and a tick of its owner to come. */
  ghost predicate WokenInRun(s: Sys, acts: seq<Action>, p: nat)
    requires Runs(s, acts)
    decreases |acts|
  {
    || (p < |s.net.ports| && Ends(s.link, |s.net.ports|) && HasRoom(s.link, p) && OwnerTicks(s, p))
    || (acts != [] && WokenInRun(Step(s, acts[0]), acts[1..], p))
  }

  lemma FirstStep(s: Sys, acts: seq<Action>, p: nat)
    requires Runs(s, acts) && acts != []
    ensures Enabled(s, acts[0]) && Runs(Step(s, acts[0]), acts[1..])
    ensures Final(s, acts) == Final(Step(s, acts[0]), acts[1..])
    ensures WokenInRun(Step(s, acts[0]), acts[1..], p) ==> WokenInRun(s, acts, p)
  {
  }

  lemma WokenAtOnce(s: Sys, acts: seq<Action>, p: nat)
    requires Runs(s, acts) && p < |s.net.ports| && Ends(s.link, |s.net.ports|)
    requires HasRoom(s.link, p) && OwnerTicks(s, p)
    ensures WokenInRun(s, acts, p)
  {
  }

  lemma NoSteps(s: Sys)
    ensures Final(s, []) == s
  {
  }

  lemma {:induction false} BusyUntilWoken(s: Sys, acts: seq<Action>, p: nat)
    requires Inv(s) && Runs(s, acts) && p < |s.net.ports| && Ends(s.link, |s.net.ports|) && Busy(s.link, p)
    ensures p < |Final(s, acts).net.ports| && Ends(Final(s, acts).link, |Final(s, acts).net.ports|)
    ensures Busy(Final(s, acts).link, p) || WokenInRun(s, acts, p)
    decreases |acts|
  {
    hide Inv;
    hide Runs;
    hide Final;
    hide Step;
    hide Enabled;
    hide HasRoom;
    hide OwnerTicks;
    hide Busy;
    hide WokenInRun;
    if acts == [] {
      NoSteps(s);
    } else {
      FirstStep(s, acts, p);
      StepKeeps(s, acts[0]);
      StepClears(s, acts[0], p);
      var s' := Step(s, acts[0]);
      if Busy(s'.link, p) {
        BusyUntilWoken(s', acts[1..], p);
      } else {
        WokenAtOnce(s', acts[1..], p);
        ShapeStays(s', acts[1..], p);
      }
    }
  }

  lemma {:induction false} ShapeStays(s: Sys, acts: seq<Action>, p: nat)
    requires Inv(s) && Runs(s, acts) && p < |s.net.ports|
    ensures p < |Final(s, acts).net.ports| && Ends(Final(s, acts).link, |Final(s, acts).net.ports|)
    decreases |acts|
  {
    hide *;
    InvEnds(s);
    if acts == [] {
      NoSteps(s);
    } else {
      FirstStep(s, acts, p);
      StepKeeps(s, acts[0]);
      StepClears(s, acts[0], p);
      ShapeStays(Step(s, acts[0]), acts[1..], p);
    }
  }

  lemma InvEnds(s: Sys)
    requires Inv(s)
    ensures Ends(s.link, |s.net.ports|)
  {
    EndsOfPorts(s.link, s.net);
  }

  lemma StepClears(s: Sys, a: Action, p: nat)
    requires Inv(s) && Enabled(s, a) && p < |s.net.ports|
    ensures Ends(s.link, |s.net.ports|) && |Step(s, a).net.ports| == |s.net.ports|
    ensures Ends(Step(s, a).link, |s.net.ports|)
    ensures Busy(s.link, p) && !Busy(Step(s, a).link, p) ==> HasRoom(Step(s, a).link, p) && OwnerTicks(Step(s, a), p)
  {
    InvLink(s);
    hide Inv;
    hide OwnerTicks;
    if a.Pop? && a.e.kind == TickOf(LinkHandler) {
      PopWakes(s, a.e, p);
    } else {
      OthersKeepBusy(s, a, p);
    }
  }

  /** A refused sender is not forgotten: in any continuation after a refusal, if there is room again at the end then
      at the moment of the first room the owner had a tick to come. */
  lemma RefusedSenderIsNotForgotten(s0: Sys, acts: seq<Action>, more: seq<Action>, p: nat)
    requires Init(s0) && Runs(s0, acts) && Runs(Final(s0, acts), more) && p < |Final(s0, acts).net.ports|
    requires Ends(Final(s0, acts).link, |Final(s0, acts).net.ports|) && Busy(Final(s0, acts).link, p)
    ensures var s := Final(Final(s0, acts), more);
            && p < |s.net.ports| && Ends(s.link, |s.net.ports|)
            && (HasRoom(s.link, p) ==> WokenInRun(Final(s0, acts), more, p))
  {
    InitInv(s0);
    RunKeeps(s0, acts);
    var s := Final(s0, acts);
    RunKeeps(s, more);
    BusyUntilWoken(s, more, p);
    InvLink(Final(s, more));
    EndsOfPorts(Final(s, more).link, Final(s, more).net);
  }

  /* ----- The order within a cycle ----- */

  /** The connection ticks last: what it does at a time comes after all primary events and component ticks of it. */
  lemma ConnectionTicksLast(s0: Sys, acts: seq<Action>)
    requires Init(s0) && Runs(s0, acts)
    ensures var s := Final(s0, acts);
            forall i, j :: 0 <= i < j < |s.handled| && s.handled[i].kind == TickOf(LinkHandler)
                && (if s.handled[j].kind.TickOf? then s.handled[j].kind.h != LinkHandler
                        && s.handled[j].kind.h in s.net.clock.sched else !s.handled[j].secondary)
              ==> s.handled[i].time < s.handled[j].time
  {
    var s := Final(s0, acts);
    InitInv(s0);
    RunKeeps(s0, acts);
    InvClock(s);
    InvOrder(s);
    hide Inv;
    hide Runs;
    hide Final;
    hide Init;
    forall i | 0 <= i < |s.handled| && s.handled[i].kind.TickOf? && s.handled[i].kind.h in s.net.clock.sched
      ensures s.handled[i].secondary == s.handled[i].kind.h.LinkHandler?
    {
      TickIsItsOwn(s.net.clock, s.handled, s.late, i);
    }
    hide ClockOk;
    hide NotAhead;
  }

  lemma TickIsItsOwn(c: Clock, handled: seq<Event>, late: bool, i: nat)
    requires ClockOk(c, multiset(handled), late)
    requires i < |handled| && handled[i].kind.TickOf? && handled[i].kind.h in c.sched
    ensures handled[i] == TickEvent(handled[i].kind.h, handled[i].time)
  {
    assert SchedulerOk(c, handled[i].kind.h);
    assert handled[i] in c.engine.scheduled;
  }

  lemma InvOrder(s: Sys)
    requires Inv(s)
    ensures OrderOk(s.handled, s.net.clock.engine.now, s.late) && LinkHandler in s.net.clock.sched
  {
  }
}
