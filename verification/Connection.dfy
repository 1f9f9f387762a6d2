/** akita/sim/port.go, akita/sim/directconnection.go and akita/noc/messaging/channel.go as objects. */
module Connections {
  import opened Freq
  import opened Kernel
  import opened SerialEngines
  import P = Ports
  import D = DirectLink
  import C = ChannelLink
  import PipelineModel

  /** A LimitNumMsgPort. `comp` schedules its owner's ticks, `conn` those of the connection it is plugged into. */
  class Port {
    var buf: seq<P.Msg>
    const cap: nat
    var portBusy: bool
    const comp: TickScheduler?
    const conn: TickScheduler

    ghost function Owner(): set<TickScheduler> {
      if comp == null then {} else {comp}
    }

    ghost predicate Valid()
      reads conn.engine.Repr
    {
      conn.engine.Valid() && (comp != null ==> comp.engine == conn.engine && comp != conn)
    }

    constructor (comp: TickScheduler?, cap: nat, conn: TickScheduler)
      requires conn.engine.Valid() && (comp != null ==> comp.engine == conn.engine && comp != conn)
      ensures Valid() && buf == [] && !portBusy && this.cap == cap && this.comp == comp && this.conn == conn
    {
      this.comp, this.cap, this.conn := comp, cap, conn;
      buf, portBusy := [], false;
    }

    /** NotifyAvailable of the port: NotifyPortFree on the owner. */
    method NotifyAvailable(now: real)
      requires Valid() && now >= conn.engine.time
      modifies Owner()`nextTickTime, conn.engine`scheduled, conn.engine.queue`l, conn.engine.secondaryQueue`l
      ensures Valid()
      ensures comp == null ==> conn.engine.Model() == old(conn.engine.Model())
      ensures comp != null ==> comp.Asked(NextTick(comp.freq, now))
    {
      if comp != null {
        comp.TickLater(now);
      }
    }

    /** Called by the connection; a refusal raises portBusy. */
    method Recv(msg: P.Msg, now: real) returns (ok: bool)
      requires Valid() && now >= conn.engine.time
      modifies this`buf, this`portBusy, Owner()`nextTickTime, conn.engine`scheduled, conn.engine.queue`l,
          conn.engine.secondaryQueue`l
      ensures Valid()
      ensures ok == (|old(buf)| < cap)
      ensures if ok then buf == old(buf) + [msg] && portBusy == old(portBusy) else buf == old(buf) && portBusy
      ensures !ok || comp == null ==> conn.engine.Model() == old(conn.engine.Model())
      ensures !ok && comp != null ==> comp.nextTickTime == old(comp.nextTickTime)
      ensures ok && comp != null ==> comp.Asked(NextTick(comp.freq, now))
    {
      if |buf| >= cap {
        portBusy := true;
        return false;
      }
      buf := buf + [msg];
      if comp != null {
        comp.TickLater(now);
      }
      return true;
    }

    /** Called by the owner. Taking a message from a port that turned one away wakes the connection: `ticksNow` is a
        DirectConnection's way, otherwise a Channel's. */
    method Retrieve(now: real, ticksNow: bool) returns (msg: seq<P.Msg>)
      requires Valid() && now >= conn.engine.time
      modifies this`buf, this`portBusy, conn`nextTickTime, conn.engine`scheduled, conn.engine.queue`l,
          conn.engine.secondaryQueue`l
      ensures Valid()
      ensures old(buf) == msg + buf && |msg| == (if old(buf) == [] then 0 else 1)
      ensures portBusy == (old(portBusy) && msg == [])
      ensures msg == [] || !old(portBusy) ==>
              conn.engine.Model() == old(conn.engine.Model()) && conn.nextTickTime == old(conn.nextTickTime)
      ensures msg != [] && old(portBusy) ==> conn.Asked(if ticksNow then now else NextTick(conn.freq, now))
    {
      if |buf| == 0 {
        return [];
      }
      msg, buf := [buf[0]], buf[1..];
      if portBusy {
        portBusy := false;
        if ticksNow {
          conn.TickNow(now);
        } else {
          conn.TickLater(now);
        }
      }
    }
  }

  /** A DirectConnection. `net` is what it reaches through the ports: their buffers and the clock they share. */
  class DirectConnection {
    var ends: seq<D.End>
    var nextPortID: nat
    var net: P.Net

    ghost predicate Valid()
      reads this
    {
      && D.EndsOk(ends, net) && LinkHandler in net.clock.sched
      && (nextPortID < |ends| || (ends == [] && nextPortID == 0))
    }

    constructor (clock: Clock)
      requires LinkHandler in clock.sched
      ensures Valid() && ends == [] && nextPortID == 0 && net == P.Net(clock, [])
    {
      ends, nextPortID, net := [], 0, P.Net(clock, []);
    }

    method PlugIn(port: P.Port, sourceSideBufSize: nat)
      requires Valid() && (port.owner.Some? ==> Component(port.owner.value) in net.clock.sched)
      modifies this`ends, this`net
      ensures Valid() && net == old(net).(ports := old(net).ports + [port])
      ensures ends == old(ends) + [D.End([], sourceSideBufSize, false)]
    {
      D.EndsFitAppend(ends, sourceSideBufSize);
      net := net.(ports := net.ports + [port]);
      ends := ends + [D.End([], sourceSideBufSize, false)];
    }

    /** A refused sender is remembered in `busy`. */
    method CanSend(src: nat) returns (canSend: bool)
      requires Valid() && src < |ends|
      modifies this`ends
      ensures Valid() && canSend == (|old(ends)[src].buf| < old(ends)[src].bufSize)
      ensures ends == if canSend then old(ends) else old(ends)[src := old(ends)[src].(busy := true)]
    {
      canSend := |ends[src].buf| < ends[src].bufSize;
      if !canSend {
        D.EndsFitUpdate(ends, src, ends[src].(busy := true));
        ends := ends[src := ends[src].(busy := true)];
      }
    }

    /** Send with SendTime now. */
    method Send(msg: P.Msg) returns (ok: bool)
      requires Valid() && msg.src < |ends| && msg.dst < |ends| && msg.src != msg.dst
      modifies this`ends, this`net
      ensures Valid()
      ensures ok == (|old(ends)[msg.src].buf| < old(ends)[msg.src].bufSize)
      ensures ends == old(ends)[msg.src := if ok then old(ends)[msg.src].(buf := old(ends)[msg.src].buf + [msg])
              else old(ends)[msg.src].(busy := true)]
      ensures net == if ok then old(net).(clock := TickNow(old(net).clock, LinkHandler)) else old(net)
    {
      var srcEnd := ends[msg.src];
      if |srcEnd.buf| >= srcEnd.bufSize {
        D.EndsFitUpdate(ends, msg.src, srcEnd.(busy := true));
        ends := ends[msg.src := srcEnd.(busy := true)];
        return false;
      }
      D.EndsFitUpdate(ends, msg.src, srcEnd.(buf := srcEnd.buf + [msg]));
      ends := ends[msg.src := srcEnd.(buf := srcEnd.buf + [msg])];
      net := net.(clock := TickNow(net.clock, LinkHandler));
      return true;
    }

    /** Delivers from end s until its buffer is empty or a destination refuses. */
    method ForwardMany(s: nat) returns (madeProgress: bool)
      requires Valid() && s < |ends|
      modifies this`ends, this`net
      ensures Valid()
      ensures var o := D.ForwardMany(old(net), old(ends), s);
              net == o.net && ends == o.ends && madeProgress == o.progress
    {
      hide D.ForwardMany;
      hide D.EndsFit;
      hide P.Receive;
      hide P.WakeOwner;
      ghost var o := D.ForwardMany(net, ends, s);
      madeProgress := false;
      while |ends[s].buf| > 0
        invariant D.EndsOk(ends, net) && |ends| == |old(ends)| && LinkHandler in net.clock.sched
        invariant var r := D.ForwardMany(net, ends, s);
                  o.net == r.net && o.ends == r.ends && o.progress == (madeProgress || r.progress)
        decreases |ends[s].buf|
      {
        D.ForwardUnfold(net, ends, s);
        var head := ends[s].buf[0];
        var received := P.Receive(net, head.dst, head);
        net := received.net;
        if !received.ok {
          break;
        }
        madeProgress := true;
        var wasBusy := ends[s].busy;
        ends := ends[s := ends[s].(buf := ends[s].buf[1..], busy := false)];
        if wasBusy {
          net := P.WakeOwner(net, s);
        }
      }
      D.ForwardUnfold(net, ends, s);
    }

    /** One round-robin pass over all ends. */
    method Tick() returns (madeProgress: bool)
      requires Valid() && ends != []
      modifies this`ends, this`net, this`nextPortID
      ensures Valid()
      ensures var o := D.Tick(old(net), D.Direct(old(ends), old(nextPortID)));
              net == o.net && ends == o.link.ends && nextPortID == o.link.nextPortID && madeProgress == o.progress
    {
      ghost var o := D.TickFrom(net, ends, nextPortID, 0);
      hide D.TickFrom;
      hide D.ForwardMany;
      hide D.EndsOk;
      hide D.PortAt;
      madeProgress := false;
      var n := |ends|;
      var i := 0;
      while i < n
        invariant Valid() && |ends| == n && i <= n && nextPortID == old(nextPortID)
        invariant var r := D.TickFrom(net, ends, nextPortID, i);
                  o.net == r.net && o.ends == r.ends && o.progress == (madeProgress || r.progress)
      {
        D.TickUnfold(net, ends, nextPortID, i);
        var progress := ForwardMany(D.PortAt(i, nextPortID, n));
        madeProgress := progress || madeProgress;
        i := i + 1;
      }
      D.TickUnfold(net, ends, nextPortID, i);
      nextPortID := (nextPortID + 1) % n;
    }
  }

  /** A Channel: ends[0] is the left end, ends[1] the right one. */
  class Channel {
    const numStage: nat
    const cps: nat
    const width: nat
    var ends: seq<C.End>
    var net: P.Net

    ghost function View(): C.Channel
      reads this
    {
      C.Channel(ends, numStage, cps, width)
    }

    ghost predicate Valid()
      reads this
    {
      C.ChannelOk(View(), net) && LinkHandler in net.clock.sched
    }

    constructor (clock: Clock, left: P.Port, right: P.Port, bufferSize: nat, numStage: nat, cps: nat, width: nat)
      requires P.Wired(P.Net(clock, [left, right])) && LinkHandler in clock.sched
      ensures Valid() && net == P.Net(clock, [left, right])
      ensures forall s :: 0 <= s < 2 ==>
              ends[s] == C.End([], [], bufferSize, false, PipelineModel.EmptyLanes(width, numStage))
      ensures this.numStage == numStage && this.cps == cps && this.width == width
    {
      this.numStage, this.cps, this.width := numStage, cps, width;
      net := P.Net(clock, [left, right]);
      var end := C.End([], [], bufferSize, false, PipelineModel.EmptyLanes(width, numStage));
      ends := [end, end];
      new;
      C.FreshIsRouted(bufferSize, width, numStage, 0);
      C.FreshIsRouted(bufferSize, width, numStage, 1);
    }

    /** A refused sender is remembered in `busy`. */
    method CanSend(src: nat) returns (canSend: bool)
      requires Valid() && src < 2
      modifies this`ends
      ensures Valid() && canSend == (|old(ends)[src].src| < old(ends)[src].cap)
      ensures ends == if canSend then old(ends) else old(ends)[src := old(ends)[src].(busy := true)]
    {
      var end := ends[src];
      canSend := |end.src| < end.cap;
      if !canSend {
        C.SentIsRouted(end, end.(busy := true), [], src);
        ends := ends[src := end.(busy := true)];
      }
    }

    /** Send with SendTime now. */
    method Send(msg: P.Msg) returns (ok: bool)
      requires Valid() && msg.src < 2 && msg.dst == 1 - msg.src
      modifies this`ends, this`net
      ensures Valid()
      ensures ok == (|old(ends)[msg.src].src| < old(ends)[msg.src].cap)
      ensures ends == old(ends)[msg.src := if ok then old(ends)[msg.src].(src := old(ends)[msg.src].src + [msg])
              else old(ends)[msg.src].(busy := true)]
      ensures net == if ok then old(net).(clock := TickNow(old(net).clock, LinkHandler)) else old(net)
    {
      var srcEnd := ends[msg.src];
      if |srcEnd.src| >= srcEnd.cap {
        C.SentIsRouted(srcEnd, srcEnd.(busy := true), [], msg.src);
        ends := ends[msg.src := srcEnd.(busy := true)];
        return false;
      }
      C.SentIsRouted(srcEnd, srcEnd.(src := srcEnd.src + [msg]), [msg], msg.src);
      ends := ends[msg.src := srcEnd.(src := srcEnd.src + [msg])];
      net := net.(clock := TickNow(net.clock, LinkHandler));
      return true;
    }

    /** deliverOneEnd: from the post-pipeline buffer of end s to the other port, until a refusal. */
    method DeliverOneEnd(s: nat) returns (madeProgress: bool)
      requires s < |ends| == 2 && P.Wired(net) && |net.ports| == 2
      modifies this`ends, this`net
      ensures var o := C.DeliverOne(old(net), old(ends)[s].post, 1 - s);
              net == o.net && ends == old(ends)[s := old(ends)[s].(post := o.post)] && madeProgress == o.progress
    {
      hide P.Receive;
      ghost var o := C.DeliverOne(net, ends[s].post, 1 - s);
      madeProgress := false;
      while |ends[s].post| > 0
        invariant |ends| == 2 && P.Wired(net) && |net.ports| == 2
        invariant ends == old(ends)[s := old(ends)[s].(post := ends[s].post)]
        invariant var r := C.DeliverOne(net, ends[s].post, 1 - s);
                  o.net == r.net && o.post == r.post && o.progress == (madeProgress || r.progress)
        decreases |ends[s].post|
      {
        var received := P.Receive(net, 1 - s, ends[s].post[0]);
        net := received.net;
        if !received.ok {
          break;
        }
        ends := ends[s := ends[s].(post := ends[s].post[1..])];
        madeProgress := true;
      }
    }

    /** moveMsgOneEnd: tick the pipeline of end s, then feed it from the source buffer. */
    method MoveMsgOneEnd(s: nat) returns (madeProgress: bool)
      requires s < |ends| == 2 && P.Wired(net) && |net.ports| == 2 && PipelineModel.Shape(numStage, ends[s].lanes)
      modifies this`ends, this`net
      ensures var o := C.MoveOne(old(net), old(ends)[s], numStage, cps, s);
              net == o.net && ends == old(ends)[s := o.end] && madeProgress == o.progress
    {
      hide P.WakeOwner;
      hide PipelineModel.Tick;
      hide PipelineModel.Accept;
      hide PipelineModel.CanAccept;
      var t := PipelineModel.Tick(cps, ends[s].lanes, ends[s].post, ends[s].cap);
      C.TickShape(cps, ends[s].lanes, ends[s].post, ends[s].cap, numStage);
      ends := ends[s := ends[s].(lanes := t.lanes, post := t.post)];
      madeProgress := t.progress;
      ghost var o := C.Feed(net, ends[s], numStage, cps, s);
      while |ends[s].src| > 0 && PipelineModel.CanAccept(numStage, ends[s].lanes, ends[s].post, ends[s].cap)
        invariant |ends| == 2 && P.Wired(net) && |net.ports| == 2 && PipelineModel.Shape(numStage, ends[s].lanes)
        invariant ends == old(ends)[s := ends[s]]
        invariant var r := C.Feed(net, ends[s], numStage, cps, s);
                  o.net == r.net && o.end == r.end && (t.progress || o.progress) == (madeProgress || r.progress)
        decreases |ends[s].src|
      {
        var end := ends[s];
        var a := PipelineModel.Accept(cps, numStage, end.lanes, end.post, end.cap, end.src[0]);
        ends := ends[s := C.End(end.src[1..], a.post, end.cap, false, a.lanes)];
        if end.busy {
          net := P.WakeOwner(net, s);
        }
        madeProgress := true;
      }
    }

    method Deliver() returns (madeProgress: bool)
      requires |ends| == 2 && P.Wired(net) && |net.ports| == 2
      modifies this`ends, this`net
      ensures var l := C.DeliverOne(old(net), old(ends)[0].post, 1);
              var r := C.DeliverOne(l.net, old(ends)[1].post, 0);
              && net == r.net && madeProgress == (l.progress || r.progress)
              && ends == [old(ends)[0].(post := l.post), old(ends)[1].(post := r.post)]
    {
      hide C.DeliverOne;
      hide P.Wired;
      var left := DeliverOneEnd(0);
      var right := DeliverOneEnd(1);
      madeProgress := left || right;
    }

    method MoveMsg() returns (madeProgress: bool)
      requires |ends| == 2 && P.Wired(net) && |net.ports| == 2
      requires PipelineModel.Shape(numStage, ends[0].lanes) && PipelineModel.Shape(numStage, ends[1].lanes)
      modifies this`ends, this`net
      ensures var l := C.MoveOne(old(net), old(ends)[0], numStage, cps, 0);
              var r := C.MoveOne(l.net, old(ends)[1], numStage, cps, 1);
              net == r.net && ends == [l.end, r.end] && madeProgress == (l.progress || r.progress)
    {
      hide C.MoveOne;
      hide P.Wired;
      hide PipelineModel.Shape;
      var left := MoveMsgOneEnd(0);
      var right := MoveMsgOneEnd(1);
      madeProgress := left || right;
    }

    /** Delivers in both directions, then moves in both directions. */
    method Tick() returns (madeProgress: bool)
      requires Valid()
      modifies this`ends, this`net
      ensures Valid()
      ensures var o := C.TickChannel(old(net), old(View()));
              net == o.net && View() == o.link && madeProgress == o.progress
    {
      ghost var o := C.TickChannel(net, View());
      C.TickDelivers(net, View());
      C.KeepsKeys(net, o.net, o.log);
      assert C.EndOk(ends[0], numStage, width) && C.EndOk(ends[1], numStage, width);
      hide C.Routed;
      hide C.DeliverOne;
      hide C.MoveOne;
      hide C.Drained;
      hide PipelineModel.Shape;
      hide P.Wired;
      hide P.Delivered;
      var delivered := Deliver();
      var moved := MoveMsg();
      madeProgress := delivered || moved;
    }
  }
}
