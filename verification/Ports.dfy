/** Messages and the receiving side of akita/sim/port.go, on values. A port is named by its place in the list of
    ports plugged into the connection. */
module Ports {
  import opened Wrappers
  import opened Kernel

  datatype Msg = Msg(id: nat, src: nat, dst: nat)

  /** `busy` is the portBusy flag; `owner` the component to notify, if any. */
  datatype Port = Port(buf: seq<Msg>, cap: nat, busy: bool, owner: Option<nat>)

  datatype Net = Net(clock: Clock, ports: seq<Port>)

  ghost predicate Wired(n: Net) {
    forall p :: 0 <= p < |n.ports| && n.ports[p].owner.Some? ==> Component(n.ports[p].owner.value) in n.clock.sched
  }

  /** NotifyRecv and NotifyPortFree: TickLater on the owner. */
  function WakeOwner(n: Net, p: nat): (n': Net)
    requires Wired(n) && p < |n.ports|
    ensures Wired(n') && n'.ports == n.ports && n'.clock.sched.Keys == n.clock.sched.Keys
  {
    match n.ports[p].owner
    case None => n
    case Some(c) => n.(clock := TickLater(n.clock, Component(c)))
  }

  datatype Received = Received(net: Net, ok: bool)

  /** Recv: refuse and raise portBusy when full, else push and notify the owner. */
  function Receive(n: Net, p: nat, m: Msg): (r: Received)
    requires Wired(n) && p < |n.ports|
    ensures Wired(r.net) && |r.net.ports| == |n.ports| && r.net.clock.sched.Keys == n.clock.sched.Keys
  {
    var port := n.ports[p];
    if |port.buf| >= port.cap then Received(n.(ports := n.ports[p := port.(busy := true)]), false)
    else Received(WakeOwner(n.(ports := n.ports[p := port.(buf := port.buf + [m])]), p), true)
  }

  /** Full, and its next Retrieve will tell the connection. */
  predicate Blocked(port: Port) {
    |port.buf| >= port.cap && port.busy
  }

  function To(ms: seq<Msg>, d: nat): seq<Msg> {
    if ms == [] then [] else (if ms[0].dst == d then [ms[0]] else []) + To(ms[1..], d)
  }

  function From(ms: seq<Msg>, s: nat): seq<Msg> {
    if ms == [] then [] else (if ms[0].src == s then [ms[0]] else []) + From(ms[1..], s)
  }

  lemma {:induction false} ToAppend(a: seq<Msg>, b: seq<Msg>, d: nat)
    ensures To(a + b, d) == To(a, d) + To(b, d)
  {
    if a == [] {
      ConcatNil(b);
    } else {
      ToAppend(a[1..], b, d);
      TailOfConcat(a, b);
    }
  }

  lemma {:induction false} FromAppend(a: seq<Msg>, b: seq<Msg>, s: nat)
    ensures From(a + b, s) == From(a, s) + From(b, s)
  {
    if a == [] {
      ConcatNil(b);
    } else {
      FromAppend(a[1..], b, s);
      TailOfConcat(a, b);
    }
  }

  lemma {:induction false} FromUniform(ms: seq<Msg>, s: nat, src: nat)
    requires forall m :: m in ms ==> m.src == src
    ensures From(ms, s) == if s == src then ms else []
  {
    if ms != [] {
      FromUniform(ms[1..], s, src);
    }
  }

  /** One port after the messages `got` were pushed into it by deliveries. */
  ghost predicate PortGrew(a: Port, b: Port, got: seq<Msg>) {
    && b.cap == a.cap && b.owner == a.owner
    && b.buf == a.buf + got
    && (a.busy ==> b.busy) && (b.busy ==> a.busy || |b.buf| >= b.cap)
    && (got != [] ==> |b.buf| <= b.cap)
  }

  /** n' is n after the messages `log` were delivered to their destinations, in order. */
  ghost predicate Delivered(n: Net, n': Net, log: seq<Msg>) {
    && OnlyWakes(n.clock, n'.clock)
    && |n'.ports| == |n.ports|
    && forall p :: 0 <= p < |n.ports| ==> PortGrew(n.ports[p], n'.ports[p], To(log, p))
  }

  lemma DeliveredTwice(a: Net, b: Net, c: Net, log: seq<Msg>, log': seq<Msg>)
    requires Delivered(a, b, log) && Delivered(b, c, log')
    ensures Delivered(a, c, log + log')
  {
    WakesTwice(a.clock, b.clock, c.clock);
    hide PortGrew;
    hide OnlyWakes;
    hide To;
    forall p | 0 <= p < |a.ports| ensures PortGrew(a.ports[p], c.ports[p], To(log + log', p)) {
      ToAppend(log, log', p);
      assert PortGrew(a.ports[p], b.ports[p], To(log, p)) && PortGrew(b.ports[p], c.ports[p], To(log', p));
      PortGrewTwice(a.ports[p], b.ports[p], c.ports[p], To(log, p), To(log', p));
    }
  }

  lemma PortGrewTwice(a: Port, b: Port, c: Port, got: seq<Msg>, got': seq<Msg>)
    requires PortGrew(a, b, got) && PortGrew(b, c, got')
    ensures PortGrew(a, c, got + got')
  {
    assert a.buf + got + got' == a.buf + (got + got');
  }

  lemma DeliveredNothing(n: Net)
    ensures Delivered(n, n, [])
  {
    NoWakes(n.clock);
  }

  /** A blocked port stays blocked while a connection delivers. */
  lemma BlockedStays(n: Net, n': Net, log: seq<Msg>, p: nat)
    requires Delivered(n, n', log) && p < |n.ports| && Blocked(n.ports[p])
    ensures Blocked(n'.ports[p]) && n'.ports[p].buf == n.ports[p].buf
  {
    assert PortGrew(n.ports[p], n'.ports[p], To(log, p));
  }

  lemma WakeDelivers(n: Net, p: nat)
    requires Wired(n) && p < |n.ports|
    ensures Delivered(n, WakeOwner(n, p), [])
  {
    if n.ports[p].owner.Some? {
      OneWake(n.clock, Component(n.ports[p].owner.value));
    } else {
      NoWakes(n.clock);
    }
  }

  /** Receive either delivers the message or leaves the port blocked. */
  lemma ReceiveDelivers(n: Net, p: nat, m: Msg)
    requires Wired(n) && p < |n.ports| && m.dst == p
    ensures var r := Receive(n, p, m);
            && Delivered(n, r.net, if r.ok then [m] else [])
            && (!r.ok ==> Blocked(r.net.ports[p]) && r.net.clock == n.clock)
  {
    var r := Receive(n, p, m);
    NoWakes(n.clock);
    if r.ok {
      var pushed := n.(ports := n.ports[p := n.ports[p].(buf := n.ports[p].buf + [m])]);
      assert Delivered(n, pushed, [m]) by {
        forall q | 0 <= q < |n.ports| ensures PortGrew(n.ports[q], pushed.ports[q], To([m], q)) {
          assert [m][1..] == [];
        }
      }
      WakeDelivers(pushed, p);
      DeliveredTwice(n, pushed, r.net, [m], []);
      assert [m] + [] == [m];
    }
  }
}
