/** Whole runs: a SerialEngine, ticking components, their ports and one connection (DirectConnection or Channel).
    The rest of the simulator is free to do anything a handler may do. */
module Simulation {
  import opened Wrappers
  import opened Kernel
  import opened Ports
  import D = DirectLink
  import C = ChannelLink

  datatype Link = Direct(d: D.Direct) | Channel(c: C.Channel)

  /** `running` is the event whose handler is executing, `late` says that a secondary event of time now has
      started, `handled` lists all events popped so far. `sent`, `delivered` and `retrieved` list the messages
      accepted by the connection, pushed into destination ports, and taken by their owners. */
  datatype Sys = Sys(
    net: Net,
    link: Link,
    running: Option<Event>,
    late: bool,
    handled: seq<Event>,
    sent: seq<Msg>,
    delivered: seq<Msg>,
    retrieved: seq<Msg>
  )

  /* ----- The connection, whichever it is ----- */

  ghost predicate LinkOk(link: Link, n: Net) {
    match link
    case Direct(d) => D.DirectOk(d, n)
    case Channel(c) => C.ChannelOk(c, n)
  }

  /** A Channel needs at least one lane and room for one message in each buffer. */
  ghost predicate Usable(link: Link) {
    link.Channel? ==> link.c.width > 0 && forall s :: 0 <= s < |link.c.ends| ==> link.c.ends[s].cap > 0
  }

  predicate Fifo(link: Link) {
    link.Channel? ==> link.c.width == 1
  }

  /** Messages of source s that the connection holds. */
  function InFlight(link: Link, s: nat): seq<Msg> {
    match link
    case Direct(d) => if s < |d.ends| then d.ends[s].buf else []
    case Channel(c) => if s < |c.ends| then C.Content(c.ends[s]) else []
  }

  ghost predicate Quiet(link: Link, n: Net)
    requires LinkOk(link, n)
  {
    match link
    case Direct(d) => D.Quiet(d, n)
    case Channel(c) => C.QuietChannel(c, n)
  }

  predicate HasRoom(link: Link, p: nat)
    requires match link case Direct(d) => p < |d.ends| case Channel(c) => p < |c.ends|
  {
    match link
    case Direct(d) => |d.ends[p].buf| < d.ends[p].bufSize
    case Channel(c) => |c.ends[p].src| < c.ends[p].cap
  }

  /** A refused Send or CanSend raises the end's busy flag. */
  function MarkBusy(link: Link, p: nat): Link
    requires match link case Direct(d) => p < |d.ends| case Channel(c) => p < |c.ends|
  {
    match link
    case Direct(d) => Direct(d.(ends := d.ends[p := d.ends[p].(busy := true)]))
    case Channel(c) => Channel(c.(ends := c.ends[p := c.ends[p].(busy := true)]))
  }

  function Push(link: Link, m: Msg): Link
    requires match link case Direct(d) => m.src < |d.ends| case Channel(c) => m.src < |c.ends|
  {
    match link
    case Direct(d) => Direct(d.(ends := d.ends[m.src := d.ends[m.src].(buf := d.ends[m.src].buf + [m])]))
    case Channel(c) => Channel(c.(ends := c.ends[m.src := c.ends[m.src].(src := c.ends[m.src].src + [m])]))
  }

  /** NotifyAvailable: a DirectConnection ticks now, a Channel at the next tick. */
  function Notify(link: Link, c: Clock): (c': Clock)
    requires LinkHandler in c.sched
    ensures c'.sched.Keys == c.sched.Keys
  {
    if link.Direct? then TickNow(c, LinkHandler) else TickLater(c, LinkHandler)
  }

  datatype Ticked = Ticked(net: Net, link: Link, progress: bool, log: seq<Msg>)

  function TickLink(n: Net, link: Link): Ticked
    requires LinkOk(link, n)
  {
    match link
    case Direct(d) => var o := D.Tick(n, d); Ticked(o.net, Direct(o.link), o.progress, o.log)
    case Channel(c) => var o := C.TickChannel(n, c); Ticked(o.net, Channel(o.link), o.progress, o.log)
  }

  /* ----- Steps ----- */

  /** Pop starts the next event; a tick of the connection runs to its end at once. While a primary handler runs it
      may send, ask, retrieve, and tick its component now. Any handler may schedule events of its own, but a
      secondary handler no primary event at the current time. Components may be woken at any moment. Finish ends
      the handler, with TickLater when a component's tick made progress. */
  datatype Action =
    | Pop(e: Event)
    | SendMsg(m: Msg)
    | AskCanSend(p: nat)
    | Retrieve(p: nat)
    | WakeComponent(h: nat)
    | TickComponentNow(h: nat)
    | Plan(e: Event)
    | Finish(progress: bool)

  ghost predicate PrimaryRunning(s: Sys) {
    s.running.Some? && !s.running.value.secondary
  }

  ghost predicate Enabled(s: Sys, a: Action) {
    LinkOk(s.link, s.net) && LinkHandler in s.net.clock.sched &&
    match a
    case Pop(e) => s.running.None? && IsNext(s.net.clock.engine, e)
    case SendMsg(m) => PrimaryRunning(s) && m.src < |s.net.ports| && m.dst < |s.net.ports| && m.src != m.dst
    case AskCanSend(p) => PrimaryRunning(s) && p < |s.net.ports|
    case Retrieve(p) => PrimaryRunning(s) && p < |s.net.ports|
    case WakeComponent(h) => Component(h) in s.net.clock.sched
    case TickComponentNow(h) => PrimaryRunning(s) && Component(h) in s.net.clock.sched
    case Plan(e) =>
      && s.running.Some? && e.kind.Custom? && e.time >= s.net.clock.engine.now
      && (s.running.value.secondary && !e.secondary ==> e.time > s.net.clock.engine.now)
    case Finish(_) => s.running.Some? && (s.running.value.kind.TickOf? ==> s.running.value.kind.h in s.net.clock.sched)
  }

  function WithClock(s: Sys, c: Clock): Sys {
    s.(net := s.net.(clock := c))
  }

  function StepPop(s: Sys, e: Event): Sys
    requires LinkOk(s.link, s.net) && LinkHandler in s.net.clock.sched
  {
    var c := s.net.clock;
    var n := s.net.(clock := c.(engine := Take(c.engine, e)));
    var late := e.secondary || (s.late && e.time == c.engine.now);
    var handled := s.handled + [e];
    if e.kind == TickOf(LinkHandler) then
      var t := TickLink(n, s.link);
      var net :=
        if t.progress && LinkHandler in t.net.clock.sched then t.net.(clock := TickLater(t.net.clock, LinkHandler))
        else t.net;
      s.(net := net, link := t.link, late := late, handled := handled, delivered := s.delivered + t.log)
    else s.(net := n, running := Some(e), late := late, handled := handled)
  }

  function StepSend(s: Sys, m: Msg): Sys
    requires LinkOk(s.link, s.net) && LinkHandler in s.net.clock.sched && m.src < |s.net.ports|
  {
    if HasRoom(s.link, m.src) then
      WithClock(s, TickNow(s.net.clock, LinkHandler)).(link := Push(s.link, m), sent := s.sent + [m])
    else s.(link := MarkBusy(s.link, m.src))
  }

  function StepRetrieve(s: Sys, p: nat): Sys
    requires LinkHandler in s.net.clock.sched && p < |s.net.ports|
  {
    var port := s.net.ports[p];
    if port.buf == [] then s
    else
      var net := s.net.(ports := s.net.ports[p := port.(buf := port.buf[1..], busy := false)]);
      var net' := if port.busy then net.(clock := Notify(s.link, net.clock)) else net;
      s.(net := net', retrieved := s.retrieved + [port.buf[0]])
  }

  function Step(s: Sys, a: Action): Sys
    requires Enabled(s, a)
  {
    match a
    case Pop(e) => StepPop(s, e)
    case SendMsg(m) => StepSend(s, m)
    case AskCanSend(p) => if HasRoom(s.link, p) then s else s.(link := MarkBusy(s.link, p))
    case Retrieve(p) => StepRetrieve(s, p)
    case WakeComponent(h) => WithClock(s, TickLater(s.net.clock, Component(h)))
    case TickComponentNow(h) => WithClock(s, TickNow(s.net.clock, Component(h)))
    case Plan(e) => WithClock(s, s.net.clock.(engine := Schedule(s.net.clock.engine, e)))
    case Finish(progress) =>
      var e := s.running.value;
      var s' := if e.kind.TickOf? && progress then WithClock(s, TickLater(s.net.clock, e.kind.h)) else s;
      s'.(running := None)
  }

  /** The kick starter: one primary event is running, nothing has been sent, every scheduler is fresh. */
  ghost predicate Init(s: Sys) {
    && s.running.Some? && !s.running.value.secondary && s.running.value.kind.Custom?
    && var e := s.running.value;
    && s.handled == [e] && !s.late
    && s.net.clock.engine == Engine(e.time, multiset{}, multiset{}, multiset{e}) && e.time >= 0.0
    && LinkHandler in s.net.clock.sched
    && (forall h :: h in s.net.clock.sched ==> s.net.clock.sched[h].nextTickTime == -1.0)
    && LinkOk(s.link, s.net) && Usable(s.link)
    && (forall p :: 0 <= p < |s.net.ports| ==> s.net.ports[p].buf == [] && !s.net.ports[p].busy)
    && (forall p :: 0 <= p < |s.net.ports| ==> InFlight(s.link, p) == [])
    && s.sent == [] && s.delivered == [] && s.retrieved == []
  }

  ghost predicate Runs(s: Sys, acts: seq<Action>)
    decreases |acts|
  {
    acts == [] || (Enabled(s, acts[0]) && Runs(Step(s, acts[0]), acts[1..]))
  }

  ghost function Final(s: Sys, acts: seq<Action>): Sys
    requires Runs(s, acts)
    decreases |acts|
  {
    if acts == [] then s else Final(Step(s, acts[0]), acts[1..])
  }

  /* ----- The invariant ----- */

  /** Sleeping is safe: the connection has a tick pending, or nothing to do until a blocked port is read. */
  ghost predicate Awake(s: Sys)
    requires LinkOk(s.link, s.net)
  {
    TickPending(s.net.clock, LinkHandler) || Quiet(s.link, s.net)
  }

  /** Exactly-once, in-order delivery at port p: what it sent is what was delivered of it, then what is in flight;
      what was delivered to it is what its owner took, then what it buffers. */
  ghost predicate FlowAt(sent: seq<Msg>, delivered: seq<Msg>, retrieved: seq<Msg>, held: seq<Msg>, buf: seq<Msg>,
      fifo: bool, p: nat) {
    && multiset(From(sent, p)) == multiset(From(delivered, p)) + multiset(held)
    && (fifo ==> From(sent, p) == From(delivered, p) + held)
    && To(delivered, p) == To(retrieved, p) + buf
  }

  ghost predicate Flow(s: Sys) {
    forall p :: 0 <= p < |s.net.ports| ==>
      FlowAt(s.sent, s.delivered, s.retrieved, InFlight(s.link, p), s.net.ports[p].buf, Fifo(s.link), p)
  }

  /** Events ran in time order, and no primary event of a time after a secondary one of that time. */
  ghost predicate OrderOk(handled: seq<Event>, now: real, late: bool) {
    && (forall i, j :: 0 <= i < j < |handled| ==> handled[i].time <= handled[j].time)
    && (forall i, j :: 0 <= i < j < |handled| && handled[i].secondary && !handled[j].secondary ==>
       handled[i].time < handled[j].time)
    && (forall i :: 0 <= i < |handled| ==>
       handled[i].time <= now && (handled[i].secondary && handled[i].time == now ==> late))
  }

  ghost predicate PortsOk(n: Net) {
    forall p :: 0 <= p < |n.ports| ==>
      |n.ports[p].buf| <= n.ports[p].cap && (n.ports[p].busy ==> |n.ports[p].buf| == n.ports[p].cap)
  }

  ghost predicate ControlOk(s: Sys) {
    && ClockOk(s.net.clock, multiset(s.handled), s.late)
    && NotAhead(s.net.clock)
    && OrderOk(s.handled, s.net.clock.engine.now, s.late)
    && (s.running.Some? && !s.running.value.secondary ==> !s.late)
    && (s.running.Some? && s.running.value.kind.TickOf? ==> s.running.value.kind.h.Component?)
  }

  ghost predicate Inv(s: Sys) {
    && ControlOk(s)
    && LinkOk(s.link, s.net) && Usable(s.link) && PortsOk(s.net)
    && Awake(s)
    && Flow(s)
  }
}
