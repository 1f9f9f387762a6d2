/** The other two halves of the wake-up property: a component that was refused is asked for a tick when there is room
    again, and a component that a message is delivered to is asked for a tick. */
module OwnersWoken {
  import opened Wrappers
  import opened Kernel
  import opened Ports
  import opened Simulation
  import opened NoLostWakeup
  import opened PipelineModel
  import D = DirectLink
  import C = ChannelLink

  /* ----- Asking for a tick ----- */

  /** A tick of h at a future time was asked for. */
  ghost predicate Asked(c: Clock, h: Handler) {
    h in c.sched && c.sched[h].nextTickTime > c.engine.now
  }

  lemma TickLaterAsks(c: Clock, h: Handler)
    requires h in c.sched
    ensures Asked(TickLater(c, h), h)
  {
  }

  lemma TickAtStays(c: Clock, g: Handler, t: real, h: Handler)
    requires g in c.sched && t >= c.engine.now && Asked(c, h)
    ensures Asked(TickAt(c, g, t), h)
  {
  }

  lemma {:induction false} WakesStay(c: Clock, c': Clock, hs: seq<Handler>, h: Handler)
    requires WakesAll(c, c', hs) && Asked(c, h)
    ensures Asked(c', h)
    decreases |hs|
  {
    if hs != [] {
      TickAtStays(c, hs[0], NextTickOf(c, hs[0]), h);
      hide Asked;
      WakesStay(TickLater(c, hs[0]), c', hs[1..], h);
    }
  }

  /** Then a tick of h really is pending in the future. */
  ghost predicate FutureTick(c: Clock, h: Handler) {
    exists t :: t > c.engine.now && Pending(c, h, t)
  }

  lemma AskedIsPending(c: Clock, done: multiset<Event>, late: bool, h: Handler)
    requires ClockOk(c, done, late) && Asked(c, h)
    ensures FutureTick(c, h)
  {
    assert SchedulerOk(c, h);
    assert Pending(c, h, c.sched[h].nextTickTime);
  }

  /** The owner of port p, if there is one, was asked for a tick. */
  ghost predicate Woken(n: Net, p: nat)
    requires p < |n.ports|
  {
    n.ports[p].owner.Some? ==> Asked(n.clock, Component(n.ports[p].owner.value))
  }

  lemma WokenStays(n: Net, n': Net, log: seq<Msg>, p: nat)
    requires Delivered(n, n', log) && p < |n.ports| && Woken(n, p)
    ensures p < |n'.ports| && Woken(n', p)
  {
    assert PortGrew(n.ports[p], n'.ports[p], To(log, p));
    if n.ports[p].owner.Some? {
      var hs :| WakesAll(n.clock, n'.clock, hs);
      WakesStay(n.clock, n'.clock, hs, Component(n.ports[p].owner.value));
    }
  }

  lemma WakeOwnerWakes(n: Net, p: nat)
    requires Wired(n) && p < |n.ports|
    ensures Woken(WakeOwner(n, p), p)
  {
    if n.ports[p].owner.Some? {
      TickLaterAsks(n.clock, Component(n.ports[p].owner.value));
    }
  }

  lemma ReceiveWakes(n: Net, p: nat, m: Msg)
    requires Wired(n) && p < |n.ports| && Receive(n, p, m).ok
    ensures Woken(Receive(n, p, m).net, p)
  {
    WakeOwnerWakes(n.(ports := n.ports[p := n.ports[p].(buf := n.ports[p].buf + [m])]), p);
  }

  /** Every port that a message of the log went to has its owner woken. */
  ghost predicate LogWoken(n: Net, log: seq<Msg>) {
    forall p :: 0 <= p < |n.ports| && To(log, p) != [] ==> Woken(n, p)
  }

  lemma LogWokenNothing(n: Net)
    ensures LogWoken(n, [])
  {
  }

  lemma LogWokenTwice(mid: Net, n: Net, log: seq<Msg>, log': seq<Msg>)
    requires LogWoken(mid, log) && Delivered(mid, n, log') && LogWoken(n, log')
    ensures LogWoken(n, log + log')
  {
    forall p | 0 <= p < |n.ports| && To(log + log', p) != [] ensures Woken(n, p) {
      ToAppend(log, log', p);
      if To(log', p) == [] {
        WokenStays(mid, n, log', p);
      }
    }
  }

  lemma OneReceived(n: Net, m: Msg)
    requires Wired(n) && m.dst < |n.ports| && Receive(n, m.dst, m).ok
    ensures LogWoken(Receive(n, m.dst, m).net, [m])
  {
    ReceiveWakes(n, m.dst, m);
    assert [m][1..] == [];
  }

  /* ----- DirectConnection ----- */

  /** From end to end', the end of port s, the flag was only cleared with the owner woken and a message gone. */
  ghost predicate FlagWoken(n: Net, end: D.End, end': D.End, s: nat)
    requires s < |n.ports|
  {
    && |end'.buf| <= |end.buf|
    && (end.busy && !end'.busy ==> Woken(n, s) && |end'.buf| < |end.buf|)
  }

  ghost predicate FlagsWoken(n: Net, ends: seq<D.End>, ends': seq<D.End>) {
    |ends'| == |ends| == |n.ports| && forall s :: 0 <= s < |ends| ==> FlagWoken(n, ends[s], ends'[s], s)
  }

  lemma FlagsSame(n: Net, ends: seq<D.End>)
    requires |ends| == |n.ports|
    ensures FlagsWoken(n, ends, ends)
  {
  }

  lemma FlagsTwice(mid: Net, n: Net, log: seq<Msg>, a: seq<D.End>, b: seq<D.End>, c: seq<D.End>)
    requires FlagsWoken(mid, a, b) && Delivered(mid, n, log) && FlagsWoken(n, b, c)
    ensures FlagsWoken(n, a, c)
  {
    forall s | 0 <= s < |a| ensures FlagWoken(n, a[s], c[s], s) {
      assert FlagWoken(mid, a[s], b[s], s) && FlagWoken(n, b[s], c[s], s);
      if a[s].busy && !b[s].busy {
        WokenStays(mid, n, log, s);
      }
    }
  }

  lemma {:induction false} ForwardManyWakes(n: Net, ends: seq<D.End>, s: nat)
    requires D.EndsOk(ends, n) && s < |ends|
    ensures var o := D.ForwardMany(n, ends, s);
            LogWoken(o.net, o.log) && FlagsWoken(o.net, ends, o.ends)
    decreases |ends[s].buf|
  {
    hide Receive;
    hide WakeOwner;
    hide Delivered;
    hide D.EndsFit;
    hide Wired;
    hide LogWoken;
    hide FlagsWoken;
    hide Woken;
    hide To;
    D.ForwardUnfold(n, ends, s);
    hide D.ForwardMany;
    var end := ends[s];
    if end.buf == [] {
      LogWokenNothing(n);
      FlagsSame(n, ends);
    } else {
      var m := end.buf[0];
      var r := Receive(n, m.dst, m);
      if !r.ok {
        LogWokenNothing(r.net);
        FlagsSame(r.net, ends);
      } else {
        var net := if end.busy then WakeOwner(r.net, s) else r.net;
        var ends' := ends[s := end.(buf := end.buf[1..], busy := false)];
        RoundWakes(n, ends, s);
        D.ForwardManyFacts(net, ends', s);
        ForwardManyWakes(net, ends', s);
        var rest := D.ForwardMany(net, ends', s);
        LogWokenTwice(net, rest.net, [m], rest.log);
        FlagsTwice(net, rest.net, rest.log, ends, ends', rest.ends);
      }
    }
  }

  /** One delivered message of forwardMany. */
  lemma RoundWakes(n: Net, ends: seq<D.End>, s: nat)
    requires D.EndsOk(ends, n) && s < |ends| && ends[s].buf != [] && ends[s].buf[0].dst < |n.ports|
    requires Receive(n, ends[s].buf[0].dst, ends[s].buf[0]).ok
    ensures var r := Receive(n, ends[s].buf[0].dst, ends[s].buf[0]);
            var net := if ends[s].busy then WakeOwner(r.net, s) else r.net;
            && LogWoken(net, [ends[s].buf[0]])
            && FlagsWoken(net, ends, ends[s := ends[s].(buf := ends[s].buf[1..], busy := false)])
  {
    hide D.EndsFit;
    var m := ends[s].buf[0];
    OneReceived(n, m);
    hide Receive;
    hide Woken;
    hide To;
    var r := Receive(n, m.dst, m);
    if ends[s].busy {
      WakeOwnerWakes(r.net, s);
      WakeDelivers(r.net, s);
      hide WakeOwner;
      hide Delivered;
      LogWokenNothing(WakeOwner(r.net, s));
      LogWokenTwice(r.net, WakeOwner(r.net, s), [m], []);
      ConcatNil([m]);
    }
  }

  lemma {:induction false} TickFromWakes(n: Net, ends: seq<D.End>, first: nat, i: nat)
    requires D.EndsOk(ends, n) && i <= |ends| && first < |ends|
    ensures var o := D.TickFrom(n, ends, first, i);
            LogWoken(o.net, o.log) && FlagsWoken(o.net, ends, o.ends)
    decreases |ends| - i
  {
    hide D.ForwardMany;
    hide Delivered;
    hide LogWoken;
    hide FlagsWoken;
    hide Woken;
    hide D.EndsFit;
    D.TickUnfold(n, ends, first, i);
    hide D.TickFrom;
    if i == |ends| {
      LogWokenNothing(n);
      FlagsSame(n, ends);
    } else {
      var s := D.PortAt(i, first, |ends|);
      var a := D.ForwardMany(n, ends, s);
      ForwardManyWakes(n, ends, s);
      TickFromWakes(a.net, a.ends, first, i + 1);
      D.TickFromDelivers(a.net, a.ends, first, i + 1);
      var b := D.TickFrom(a.net, a.ends, first, i + 1);
      LogWokenTwice(a.net, b.net, a.log, b.log);
      FlagsTwice(a.net, b.net, b.log, ends, a.ends, b.ends);
    }
  }

  /* ----- Channel ----- */

  lemma {:induction false} DeliverOneWakes(n: Net, post: seq<Msg>, dst: nat)
    requires Wired(n) && dst < |n.ports| && forall m :: m in post ==> m.dst == dst
    ensures var o := C.DeliverOne(n, post, dst); LogWoken(o.net, o.log)
    decreases |post|
  {
    hide Receive;
    hide Delivered;
    hide LogWoken;
    if post == [] {
      LogWokenNothing(n);
    } else {
      var r := Receive(n, dst, post[0]);
      if r.ok {
        OneReceived(n, post[0]);
        C.DeliverOneFacts(r.net, post[1..], dst);
        DeliverOneWakes(r.net, post[1..], dst);
        var rest := C.DeliverOne(r.net, post[1..], dst);
        LogWokenTwice(r.net, rest.net, [post[0]], rest.log);
      } else {
        LogWokenNothing(r.net);
      }
    }
  }

  lemma {:induction false} FeedWakes(n: Net, e: C.End, numStage: nat, cps: nat, width: nat, p: nat)
    requires Wired(n) && p < |n.ports| && C.EndOk(e, numStage, width)
    ensures var o := C.Feed(n, e, numStage, cps, p);
            && |o.end.src| <= |e.src|
            && (e.busy && !o.end.busy ==> Woken(o.net, p) && |o.end.src| < |e.src|)
    decreases |e.src|
  {
    hide Delivered;
    hide WakeOwner;
    hide Woken;
    hide CanAccept;
    hide Accept;
    if e.src != [] && CanAccept(numStage, e.lanes, e.post, e.cap) {
      var a := Accept(cps, numStage, e.lanes, e.post, e.cap, e.src[0]);
      var e' := C.End(e.src[1..], a.post, e.cap, false, a.lanes);
      var net := if e.busy then WakeOwner(n, p) else n;
      C.FeedOneContent(e, numStage, cps, width);
      FeedWakes(net, e', numStage, cps, width, p);
      if e.busy {
        WakeOwnerWakes(n, p);
        C.FeedFacts(net, e', numStage, cps, width, p);
        WokenStays(net, C.Feed(net, e', numStage, cps, p).net, [], p);
      }
    }
  }

  lemma MoveOneWakes(n: Net, e: C.End, numStage: nat, cps: nat, width: nat, p: nat)
    requires Wired(n) && p < |n.ports| && C.EndOk(e, numStage, width)
    ensures var o := C.MoveOne(n, e, numStage, cps, p);
            e.busy && !o.end.busy ==> Woken(o.net, p) && |o.end.src| < |e.src|
  {
    hide Woken;
    hide C.Feed;
    var t := Tick(cps, e.lanes, e.post, e.cap);
    C.TickContent(e, numStage, cps, width);
    FeedWakes(n, e.(lanes := t.lanes, post := t.post), numStage, cps, width, p);
  }

  lemma DeliverBothWakes(n: Net, c: C.Channel)
    requires C.ChannelOk(c, n)
    ensures var l := C.DeliverOne(n, c.ends[0].post, 1);
            var r := C.DeliverOne(l.net, c.ends[1].post, 0);
            LogWoken(r.net, l.log + r.log)
  {
    hide Delivered;
    hide C.DeliverOne;
    hide LogWoken;
    C.PostIsRouted(c.ends[0], 0);
    C.PostIsRouted(c.ends[1], 1);
    var l := C.DeliverOne(n, c.ends[0].post, 1);
    C.DeliverOneFacts(n, c.ends[0].post, 1);
    DeliverOneWakes(n, c.ends[0].post, 1);
    C.DeliverOneFacts(l.net, c.ends[1].post, 0);
    DeliverOneWakes(l.net, c.ends[1].post, 0);
    LogWokenTwice(l.net, C.DeliverOne(l.net, c.ends[1].post, 0).net, l.log, C.DeliverOne(l.net, c.ends[1].post, 0).log);
  }

  lemma MoveBothWakes(n: Net, e0: C.End, e1: C.End, numStage: nat, cps: nat, width: nat)
    requires Wired(n) && |n.ports| == 2 && C.EndOk(e0, numStage, width) && C.EndOk(e1, numStage, width)
    ensures var ml := C.MoveOne(n, e0, numStage, cps, 0);
            var mr := C.MoveOne(ml.net, e1, numStage, cps, 1);
            && Delivered(n, mr.net, [])
            && (e0.busy && !ml.end.busy ==> Woken(mr.net, 0) && |ml.end.src| < |e0.src|)
            && (e1.busy && !mr.end.busy ==> Woken(mr.net, 1) && |mr.end.src| < |e1.src|)
  {
    hide Delivered;
    hide C.MoveOne;
    hide C.SameContent;
    hide Woken;
    var ml := C.MoveOne(n, e0, numStage, cps, 0);
    var mr := C.MoveOne(ml.net, e1, numStage, cps, 1);
    C.MoveBoth(n, e0, e1, numStage, cps, width);
    C.MoveOneFacts(ml.net, e1, numStage, cps, width, 1);
    MoveOneWakes(n, e0, numStage, cps, width, 0);
    MoveOneWakes(ml.net, e1, numStage, cps, width, 1);
    if e0.busy && !ml.end.busy {
      WokenStays(ml.net, mr.net, [], 0);
    }
  }

  lemma ChannelTickWakes(n: Net, c: C.Channel)
    requires C.ChannelOk(c, n)
    ensures var o := C.TickChannel(n, c);
            && LogWoken(o.net, o.log) && |o.link.ends| == 2 && |o.net.ports| == 2
            && forall s :: 0 <= s < 2 && c.ends[s].busy && !o.link.ends[s].busy ==>
                 Woken(o.net, s) && |o.link.ends[s].src| < |c.ends[s].src|
  {
    hide Delivered;
    hide C.DeliverOne;
    hide C.MoveOne;
    hide C.Routed;
    hide LogWoken;
    hide Woken;
    var l := C.DeliverOne(n, c.ends[0].post, 1);
    var r := C.DeliverOne(l.net, c.ends[1].post, 0);
    C.DeliverBoth(n, c);
    DeliverBothWakes(n, c);
    var m0, m1 := c.ends[0].(post := l.post), c.ends[1].(post := r.post);
    MoveBothWakes(r.net, m0, m1, c.numStage, c.cps, c.width);
    var o := C.TickChannel(n, c);
    LogWokenNothing(o.net);
    LogWokenTwice(r.net, o.net, l.log + r.log, []);
    ConcatNil(l.log + r.log);
    C.PortsKept(r.net, o.net, []);
  }

  /* ----- Runs ----- */

  /** The busy flag of the sending side of port p: a message was refused there. */
  predicate Busy(link: Link, p: nat)
    requires match link case Direct(d) => p < |d.ends| case Channel(c) => p < |c.ends|
  {
    match link
    case Direct(d) => d.ends[p].busy
    case Channel(c) => c.ends[p].busy
  }

  lemma EndsOfPorts(link: Link, n: Net)
    requires LinkOk(link, n)
    ensures match link case Direct(d) => |d.ends| == |n.ports| case Channel(c) => |c.ends| == |n.ports|
    ensures forall p :: 0 <= p < |n.ports| && Busy(link, p) ==> !HasRoom(link, p)
  {
    match link
    case Direct(d) =>
      forall p | 0 <= p < |n.ports| ensures D.EndOk(d.ends[p], p, |d.ends|) {
      }
    case Channel(c) =>
      forall p | 0 <= p < 2 ensures C.EndOk(c.ends[p], c.numStage, c.width) {
      }
  }

  lemma DirectTickWakes(n: Net, d: D.Direct)
    requires D.DirectOk(d, n)
    ensures var o := D.Tick(n, d);
            && LogWoken(o.net, o.log) && |o.link.ends| == |d.ends| == |o.net.ports| == |n.ports|
            && forall p :: 0 <= p < |n.ports| && d.ends[p].busy && !o.link.ends[p].busy ==>
                 Woken(o.net, p) && |o.link.ends[p].buf| < o.link.ends[p].bufSize
  {
    TickFromWakes(n, d.ends, d.nextPortID, 0);
    D.TickSettles(n, d);
    var o := D.Tick(n, d);
    hide Woken;
    hide LogWoken;
    hide D.Quiet;
    hide Delivered;
    forall p | 0 <= p < |n.ports| && d.ends[p].busy && !o.link.ends[p].busy
      ensures Woken(o.net, p) && |o.link.ends[p].buf| < o.link.ends[p].bufSize
    {
      assert FlagWoken(o.net, d.ends[p], o.link.ends[p], p) && D.EndOk(d.ends[p], p, |d.ends|);
    }
  }

  lemma ShorterHasRoom(n: Net, c: C.Channel, c': C.Channel, log: seq<Msg>)
    requires C.ChannelOk(c, n) && |c'.ends| == 2
    requires C.Drained(c.ends[0], c'.ends[0], c.width, From(log, 0))
            && C.Drained(c.ends[1], c'.ends[1], c.width, From(log, 1))
    ensures forall p :: 0 <= p < 2 && |c'.ends[p].src| < |c.ends[p].src| ==> |c'.ends[p].src| < c'.ends[p].cap
  {
    assert C.EndOk(c.ends[0], c.numStage, c.width) && C.EndOk(c.ends[1], c.numStage, c.width);
  }

  lemma TickLinkWakes(n: Net, link: Link)
    requires LinkOk(link, n)
    ensures var t := TickLink(n, link);
            && LinkOk(t.link, t.net) && |t.net.ports| == |n.ports| && LogWoken(t.net, t.log)
            && (match link case Direct(d) => |d.ends| == |n.ports| case Channel(c) => |c.ends| == |n.ports|)
            && (match t.link case Direct(d) => |d.ends| == |n.ports| case Channel(c) => |c.ends| == |n.ports|)
            && forall p :: 0 <= p < |n.ports| && Busy(link, p) && !Busy(t.link, p) ==>
                 Woken(t.net, p) && HasRoom(t.link, p)
  {
    hide D.Tick;
    hide C.TickChannel;
    hide LogWoken;
    hide Woken;
    match link
    case Direct(d) =>
      DirectTickWakes(n, d);
    case Channel(c) =>
      ChannelTickWakes(n, c);
      C.TickDelivers(n, c);
      var o := C.TickChannel(n, c);
      ShorterHasRoom(n, c, o.link, o.log);
      hide C.Drained;
      hide C.EndOk;
      hide C.Routed;
  }

  /** The owner of port p has a tick to come. */
  ghost predicate OwnerTicks(s: Sys, p: nat)
    requires p < |s.net.ports|
  {
    s.net.ports[p].owner.Some? ==> FutureTick(s.net.clock, Component(s.net.ports[p].owner.value))
  }

  lemma WokenTicks(s: Sys, p: nat)
    requires Inv(s) && p < |s.net.ports| && Woken(s.net, p)
    ensures OwnerTicks(s, p)
  {
    if s.net.ports[p].owner.Some? {
      AskedIsPending(s.net.clock, multiset(s.handled), s.late, Component(s.net.ports[p].owner.value));
    }
  }

  lemma LinkTickSame(n: Net, p: nat)
    requires p < |n.ports| && Woken(n, p) && LinkHandler in n.clock.sched
    ensures Woken(n.(clock := TickLater(n.clock, LinkHandler)), p)
  {
    if n.ports[p].owner.Some? {
      TickAtStays(n.clock, LinkHandler, NextTickOf(n.clock, LinkHandler), Component(n.ports[p].owner.value));
    }
  }

  /** A popped tick of the connection. */
  lemma PopWakes(s: Sys, e: Event, p: nat)
    requires Inv(s) && Enabled(s, Pop(e)) && e.kind == TickOf(LinkHandler) && p < |s.net.ports|
    ensures var s' := StepPop(s, e);
            && |s'.net.ports| == |s.net.ports|
            && (match s.link case Direct(d) => |d.ends| == |s.net.ports| case Channel(c) => |c.ends| == |s.net.ports|)
            && (match s'.link case Direct(d) => |d.ends| == |s.net.ports| case Channel(c) => |c.ends| == |s.net.ports|)
            && (Busy(s.link, p) && !Busy(s'.link, p) ==> OwnerTicks(s', p) && HasRoom(s'.link, p))
            && (To(s'.delivered, p) != To(s.delivered, p) ==> OwnerTicks(s', p))
  {
    PopTickKeeps(s, e);
    var n := s.net.(clock := s.net.clock.(engine := Take(s.net.clock.engine, e)));
    var s' := StepPop(s, e);
    LinkOkAnyClock(s.link, s.net, n);
    hide Inv;
    hide LinkOk;
    hide IsNext;
    hide Woken;
    hide OwnerTicks;
    TickLinkWakes(n, s.link);
    hide TickLink;
    var t := TickLink(n, s.link);
    assert s'.net.ports == t.net.ports && s'.link == t.link;
    if Woken(t.net, p) {
      if t.progress && LinkHandler in t.net.clock.sched {
        LinkTickSame(t.net, p);
      }
      assert s'.net == t.net || s'.net == t.net.(clock := TickLater(t.net.clock, LinkHandler));
      WokenTicks(s', p);
    }
    ToAppend(s.delivered, t.log, p);
    if To(t.log, p) == [] {
      ConcatNil(To(s.delivered, p));
    }
  }

  /** Other steps do not touch the flag of p while it is set. */
  lemma OthersKeepBusy(s: Sys, a: Action, p: nat)
    requires LinkOk(s.link, s.net) && Enabled(s, a) && !(a.Pop? && a.e.kind == TickOf(LinkHandler)) && p < |s.net.ports|
    ensures match s.link case Direct(d) => |d.ends| == |s.net.ports| case Channel(c) => |c.ends| == |s.net.ports|
    ensures var s' := Step(s, a);
            && (match s'.link case Direct(d) => |d.ends| == |s.net.ports| case Channel(c) => |c.ends| == |s.net.ports|)
            && |s'.net.ports| == |s.net.ports| && s'.delivered == s.delivered
            && (Busy(s.link, p) ==> Busy(s'.link, p))
  {
    EndsOfPorts(s.link, s.net);
    hide LinkOk;
    hide IsNext;
    hide TickLater;
    hide TickNow;
  }

  /** A refused sender is woken: if there is room again at a port that was busy, its owner has a tick to come. */
  lemma RefusedSenderIsWoken(s0: Sys, acts: seq<Action>, a: Action, p: nat)
    requires Init(s0) && Runs(s0, acts) && Enabled(Final(s0, acts), a) && p < |Final(s0, acts).net.ports|
    ensures var s := Final(s0, acts);
            var s' := Step(s, a);
            && (match s.link case Direct(d) => |d.ends| == |s.net.ports| case Channel(c) => |c.ends| == |s.net.ports|)
            && (match s'.link case Direct(d) => |d.ends| == |s.net.ports| case Channel(c) => |c.ends| == |s.net.ports|)
            && |s'.net.ports| == |s.net.ports|
            && (Busy(s.link, p) && HasRoom(s'.link, p) ==> OwnerTicks(s', p))
  {
    InitInv(s0);
    RunKeeps(s0, acts);
    var s := Final(s0, acts);
    StepKeeps(s, a);
    var s' := Step(s, a);
    hide Inv;
    InvLink(s);
    InvLink(s');
    EndsOfPorts(s'.link, s'.net);
    if a.Pop? && a.e.kind == TickOf(LinkHandler) {
      PopWakes(s, a.e, p);
    } else {
      OthersKeepBusy(s, a, p);
    }
  }

  lemma InvLink(s: Sys)
    requires Inv(s)
    ensures LinkOk(s.link, s.net)
  {
  }

  /** A delivered message wakes its receiver: after the step that delivers it the owner has a tick to come. */
  lemma DeliveryWakesOwner(s0: Sys, acts: seq<Action>, a: Action, p: nat)
    requires Init(s0) && Runs(s0, acts) && Enabled(Final(s0, acts), a) && p < |Final(s0, acts).net.ports|
    ensures var s := Final(s0, acts);
            var s' := Step(s, a);
            && |s'.net.ports| == |s.net.ports|
            && (To(s'.delivered, p) != To(s.delivered, p) ==> OwnerTicks(s', p))
  {
    InitInv(s0);
    RunKeeps(s0, acts);
    var s := Final(s0, acts);
    InvLink(s);
    if a.Pop? && a.e.kind == TickOf(LinkHandler) {
      PopWakes(s, a.e, p);
    } else {
      OthersKeepBusy(s, a, p);
    }
  }
}
