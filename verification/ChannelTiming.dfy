/** How long a message takes through the Channel of akita/noc/messaging/channel.go: deliver, tick the
    pipelines and feed them happen once each per tick, in this order. */
module ChannelTiming {
  import opened Wrappers
  import opened Kernel
  import opened Ports
  import opened PipelineModel
  import opened PipelineTiming
  import C = ChannelLink

  /* ----- The parts of a tick ----- */

  lemma {:induction false} ToShorter(ms: seq<Msg>, d: nat)
    ensures |To(ms, d)| <= |ms|
    ensures (forall m :: m in ms ==> m.dst != d) ==> To(ms, d) == []
  {
    if ms != [] {
      ToShorter(ms[1..], d);
    }
  }

  /** The destination port has room for all that left the pipeline, and the post buffer for one message per lane. */
  predicate Open(n: Net, c: C.Channel, s: nat)
    requires s < 2 && |n.ports| == 2 && |c.ends| == 2
  {
    |n.ports[1 - s].buf| + |c.ends[s].post| <= n.ports[1 - s].cap && c.width <= c.ends[s].cap
  }

  lemma DeliversAll(n: Net, post: seq<Msg>, dst: nat)
    requires Wired(n) && dst < |n.ports| && forall m :: m in post ==> m.dst == dst
    requires |n.ports[dst].buf| + |post| <= n.ports[dst].cap
    ensures C.DeliverOne(n, post, dst).post == [] && C.DeliverOne(n, post, dst).log == post
  {
    var o := C.DeliverOne(n, post, dst);
    C.DeliverOneFacts(n, post, dst);
    assert PortGrew(n.ports[dst], o.net.ports[dst], To(o.log, dst));
    ToShorter(o.log, dst);
    ConcatNil(o.log);
  }

  /** Direction s after a tick. */
  function EndAfter(n: Net, c: C.Channel, s: nat): C.End
    requires C.ChannelOk(c, n) && s < 2
  {
    C.TickChannel(n, c).link.ends[s]
  }

  /** With the port open a tick delivers exactly what had left the pipeline before it, and then moves. */
  lemma TickParts(n: Net, c: C.Channel, s: nat) returns (net: Net)
    requires C.ChannelOk(c, n) && s < 2 && Open(n, c, s)
    ensures Wired(net) && |net.ports| == 2
    ensures var o := C.TickChannel(n, c);
            && From(o.log, s) == c.ends[s].post
            && EndAfter(n, c, s) == C.MoveOne(net, c.ends[s].(post := []), c.numStage, c.cps, s).end
  {
    var l := C.DeliverOne(n, c.ends[0].post, 1);
    var r := C.DeliverOne(l.net, c.ends[1].post, 0);
    LogsBySide(n, c);
    hide C.DeliverOne;
    hide C.MoveOne;
    hide C.Routed;
    hide C.Content;
    hide From;
    hide Wired;
    if s == 0 {
      net := r.net;
    } else {
      net := C.MoveOne(r.net, c.ends[0].(post := l.post), c.numStage, c.cps, 0).net;
    }
  }

  lemma LogsBySide(n: Net, c: C.Channel)
    requires C.ChannelOk(c, n)
    ensures var l := C.DeliverOne(n, c.ends[0].post, 1);
            var r := C.DeliverOne(l.net, c.ends[1].post, 0);
            && From(l.log + r.log, 0) == l.log && From(l.log + r.log, 1) == r.log
            && (Open(n, c, 0) ==> l.log == c.ends[0].post && l.post == [])
            && (Open(n, c, 1) ==> r.log == c.ends[1].post && r.post == [])
  {
    var l := C.DeliverOne(n, c.ends[0].post, 1);
    var r := C.DeliverOne(l.net, c.ends[1].post, 0);
    C.DeliverBoth(n, c);
    SideOf(c.ends[0], 0, l.log, l.post);
    SideOf(c.ends[1], 1, r.log, r.post);
    C.SplitLog(l.log, r.log);
    if Open(n, c, 0) {
      DeliversAll(n, c.ends[0].post, 1);
    }
    if Open(n, c, 1) {
      C.DeliverOneFacts(n, c.ends[0].post, 1);
      assert PortGrew(n.ports[0], l.net.ports[0], To(l.log, 0));
      ToShorter(l.log, 0);
      DeliversAll(l.net, c.ends[1].post, 0);
    }
  }

  lemma SideOf(e: C.End, s: nat, log: seq<Msg>, post: seq<Msg>)
    requires C.Routed(e, s) && e.post == log + post
    ensures (forall m :: m in log ==> m.src == s && m.dst == 1 - s) && forall m :: m in e.post ==> m.dst == 1 - s
  {
    forall m | m in e.post ensures m.src == s && m.dst == 1 - s {
      assert m in C.Content(e);
    }
    forall m | m in log ensures m in e.post {
    }
  }

  /* ----- Feeding ----- */

  /** Feeding disturbs nothing that is in the pipeline or has left it. */
  lemma {:induction false} FeedKeeps(n: Net, e: C.End, numStage: nat, cps: nat, p: nat, l: nat, x: Msg, r: nat)
    requires Wired(n) && p < |n.ports| && Shape(numStage, e.lanes) && AllSmooth(cps, e.lanes)
    ensures var o := C.Feed(n, e, numStage, cps, p).end;
            && AllSmooth(cps, o.lanes) && |o.lanes| == |e.lanes| && e.post <= o.post
            && (l < |e.lanes| && Sits(cps, e.lanes[l], x, r) ==> Sits(cps, o.lanes[l], x, r))
    decreases |e.src|
  {
    hide Sits;
    hide Smooth;
    hide WakeOwner;
    if e.src != [] && CanAccept(numStage, e.lanes, e.post, e.cap) {
      var pipe := Pipe(e.lanes, e.post);
      StepKeepsSmooth(cps, numStage, e.cap, pipe, AcceptOp(e.src[0]));
      if l < |e.lanes| && Sits(cps, e.lanes[l], x, r) {
        AcceptKeepsSeat(cps, numStage, e.cap, pipe, e.src[0], l, x, r);
      }
      var a := Accept(cps, numStage, e.lanes, e.post, e.cap, e.src[0]);
      FeedKeeps(if e.busy then WakeOwner(n, p) else n, C.End(e.src[1..], a.post, e.cap, false, a.lanes), numStage, cps,
                p, l, x, r);
    }
  }

  /** The ticks an item takes through the pipeline. */
  function Way(numStage: nat, cps: nat): nat {
    numStage * Cycles(cps)
  }

  /** x is in the pipeline with r unobstructed ticks to go, or has left it when r is 0. */
  ghost predicate Travels(e: C.End, cps: nat, x: Msg, r: nat) {
    if r == 0 then x in e.post else exists l :: 0 <= l < |e.lanes| && Sits(cps, e.lanes[l], x, r)
  }

  lemma FeedKeepsTravel(n: Net, e: C.End, numStage: nat, cps: nat, p: nat, x: Msg, r: nat)
    requires Wired(n) && p < |n.ports| && Shape(numStage, e.lanes) && AllSmooth(cps, e.lanes)
    requires Travels(e, cps, x, r)
    ensures Travels(C.Feed(n, e, numStage, cps, p).end, cps, x, r)
  {
    hide AllSmooth;
    hide C.Feed;
    hide Sits;
    if r == 0 {
      FeedKeeps(n, e, numStage, cps, p, 0, x, r);
    } else {
      var l :| 0 <= l < |e.lanes| && Sits(cps, e.lanes[l], x, r);
      FeedKeeps(n, e, numStage, cps, p, l, x, r);
    }
  }

  /** When something is fed, the head of the source buffer is and starts its whole way. */
  lemma FeedStarts(n: Net, e: C.End, numStage: nat, cps: nat, p: nat)
    requires Wired(n) && p < |n.ports| && Shape(numStage, e.lanes) && AllSmooth(cps, e.lanes)
    requires e.src != [] && |C.Feed(n, e, numStage, cps, p).end.src| < |e.src|
    ensures Travels(C.Feed(n, e, numStage, cps, p).end, cps, e.src[0], Way(numStage, cps))
  {
    var x := e.src[0];
    var a := Accept(cps, numStage, e.lanes, e.post, e.cap, x);
    var e' := C.End(e.src[1..], a.post, e.cap, false, a.lanes);
    StepKeepsSmooth(cps, numStage, e.cap, Pipe(e.lanes, e.post), AcceptOp(x));
    AheadIsProduct(cps, numStage);
    if numStage > 0 {
      FreshSeat(cps, e.lanes[FreeLane(e.lanes, 0)], x);
      assert Sits(cps, e'.lanes[FreeLane(e.lanes, 0)], x, Ahead(cps, numStage));
    }
    assert Travels(e', cps, x, Way(numStage, cps));
    FeedKeepsTravel(if e.busy then WakeOwner(n, p) else n, e', numStage, cps, p, x, Way(numStage, cps));
  }

  /* ----- One tick ----- */

  lemma {:induction false} LeavingFits<T>(lanes: seq<Lane<T>>, l: nat)
    requires l <= |lanes|
    ensures |Leaving(lanes, l)| <= |lanes| - l
    decreases |lanes| - l
  {
    if l < |lanes| {
      LeavingFits(lanes, l + 1);
    }
  }

  /** The direction after the pipeline's own tick, before it is fed. */
  function Ticked(e: C.End, cps: nat): C.End {
    var t := Tick(cps, e.lanes, [], e.cap);
    e.(lanes := t.lanes, post := t.post)
  }

  lemma TickedTravels(e: C.End, numStage: nat, cps: nat, x: Msg, r: nat)
    requires Shape(numStage, e.lanes) && AllSmooth(cps, e.lanes) && |e.lanes| <= e.cap
    ensures Shape(numStage, Ticked(e, cps).lanes) && AllSmooth(cps, Ticked(e, cps).lanes)
    ensures r > 0 && Travels(e, cps, x, r) ==> Travels(Ticked(e, cps), cps, x, r - 1)
  {
    var pipe := Pipe(e.lanes, []);
    LeavingFits(e.lanes, 0);
    StepKeepsSmooth(cps, numStage, e.cap, pipe, TickOp);
    if r > 0 && Travels(e, cps, x, r) {
      var l :| 0 <= l < |e.lanes| && Sits(cps, e.lanes[l], x, r);
      if r > 1 {
        TickKeepsSeat(cps, numStage, e.cap, pipe, l, x, r);
      } else {
        LastTick(cps, numStage, e.cap, pipe, l, x);
      }
    }
  }

  /** One tick with the port open: everything in the pipeline comes one tick closer, what enters starts its whole way,
      and what had left is delivered. */
  lemma OneTick(n: Net, c: C.Channel, s: nat, x: Msg, r: nat)
    requires C.ChannelOk(c, n) && s < 2 && Open(n, c, s) && AllSmooth(c.cps, c.ends[s].lanes)
    ensures var e, e' := c.ends[s], EndAfter(n, c, s);
            && AllSmooth(c.cps, e'.lanes)
            && (r > 0 && Travels(e, c.cps, x, r) ==> Travels(e', c.cps, x, r - 1))
            && (e.src != [] && |e'.src| < |e.src| ==> Travels(e', c.cps, e.src[0], Way(c.numStage, c.cps)))
  {
    var net := TickParts(n, c, s);
    var e := c.ends[s];
    assert C.EndOk(e, c.numStage, c.width);
    hide EndAfter;
    hide C.ChannelOk;
    hide AllSmooth;
    hide Travels;
    hide C.MoveOne;
    MoveTravels(net, e.(post := []), c.numStage, c.cps, s, x, r);
  }

  lemma MoveTravels(n: Net, e: C.End, numStage: nat, cps: nat, p: nat, x: Msg, r: nat)
    requires Wired(n) && p < |n.ports| && Shape(numStage, e.lanes) && AllSmooth(cps, e.lanes)
    requires e.post == [] && |e.lanes| <= e.cap
    ensures var o := C.MoveOne(n, e, numStage, cps, p).end;
            && AllSmooth(cps, o.lanes)
            && (r > 0 && Travels(e, cps, x, r) ==> Travels(o, cps, x, r - 1))
            && (e.src != [] && |o.src| < |e.src| ==> Travels(o, cps, e.src[0], Way(numStage, cps)))
  {
    var mid := Ticked(e, cps);
    TickedTravels(e, numStage, cps, x, r);
    MoveIsTickAndFeed(n, e, numStage, cps, p);
    hide *;
    FeedKeeps(n, mid, numStage, cps, p, 0, x, r);
    if r > 0 && Travels(e, cps, x, r) {
      FeedKeepsTravel(n, mid, numStage, cps, p, x, r - 1);
    }
    if mid.src != [] && |C.Feed(n, mid, numStage, cps, p).end.src| < |mid.src| {
      FeedStarts(n, mid, numStage, cps, p);
    }
  }

  lemma MoveIsTickAndFeed(n: Net, e: C.End, numStage: nat, cps: nat, p: nat)
    requires Wired(n) && p < |n.ports| && Shape(numStage, e.lanes) && e.post == []
    requires Shape(numStage, Ticked(e, cps).lanes)
    ensures C.MoveOne(n, e, numStage, cps, p).end == C.Feed(n, Ticked(e, cps), numStage, cps, p).end
    ensures Ticked(e, cps).src == e.src
  {
  }

  lemma SmoothAfter(n: Net, c: C.Channel, s: nat)
    requires C.ChannelOk(c, n) && s < 2 && Open(n, c, s) && AllSmooth(c.cps, c.ends[s].lanes)
    ensures AllSmooth(c.cps, EndAfter(n, c, s).lanes)
  {
    hide *;
    OneTick(n, c, s, Msg(0, 0, 0), 0);
  }

  /* ----- Progress ----- */

  /** Work waiting in a source buffer of n messages. */
  function SrcWork(cps: nat, numStage: nat, n: nat): nat {
    if n == 0 then 0 else Ahead(cps, numStage) + 1 + SrcWork(cps, numStage, n - 1)
  }

  /** What is left to do in a direction before all of it has left the pipeline. */
  function Todo(e: C.End, numStage: nat, cps: nat): nat {
    Work(cps, e.lanes) + SrcWork(cps, numStage, |e.src|)
  }

  lemma AcceptWork(cps: nat, numStage: nat, e: C.End, x: Msg)
    requires Shape(numStage, e.lanes) && CanAccept(numStage, e.lanes, e.post, e.cap)
    ensures Work(cps, Accept(cps, numStage, e.lanes, e.post, e.cap, x).lanes) ==
            Work(cps, e.lanes) + Ahead(cps, numStage)
  {
    if numStage > 0 {
      var l, stage := FreeLane(e.lanes, 0), Stage(Some(x), cps - 1);
      LaneWorkUpdate(cps, e.lanes[l], 0, 0, stage);
      WorkUpdate(cps, e.lanes, l, e.lanes[l][0 := stage]);
    }
  }

  lemma {:induction false} FeedWork(n: Net, e: C.End, numStage: nat, cps: nat, p: nat)
    requires Wired(n) && p < |n.ports| && Shape(numStage, e.lanes)
    ensures var o := C.Feed(n, e, numStage, cps, p);
            if o.progress then Todo(o.end, numStage, cps) < Todo(e, numStage, cps) else o.end == e
    decreases |e.src|
  {
    hide Work;
    hide WakeOwner;
    if e.src != [] && CanAccept(numStage, e.lanes, e.post, e.cap) {
      var a := Accept(cps, numStage, e.lanes, e.post, e.cap, e.src[0]);
      AcceptWork(cps, numStage, e, e.src[0]);
      FeedWork(if e.busy then WakeOwner(n, p) else n, C.End(e.src[1..], a.post, e.cap, false, a.lanes), numStage, cps,
               p);
    }
  }

  lemma MoveWork(n: Net, e: C.End, numStage: nat, cps: nat, p: nat)
    requires Wired(n) && p < |n.ports| && Shape(numStage, e.lanes)
    ensures var o := C.MoveOne(n, e, numStage, cps, p);
            if o.progress then Todo(o.end, numStage, cps) < Todo(e, numStage, cps) else o.end == e
  {
    var t := Tick(cps, e.lanes, e.post, e.cap);
    TickProgress(cps, e.lanes, e.post, e.cap);
    C.TickShape(cps, e.lanes, e.post, e.cap, numStage);
    hide Tick;
    hide Work;
    hide C.Feed;
    FeedWork(n, e.(lanes := t.lanes, post := t.post), numStage, cps, p);
  }

  function ChannelTodo(c: C.Channel): nat
    requires |c.ends| == 2
  {
    Todo(c.ends[0], c.numStage, c.cps) + Todo(c.ends[1], c.numStage, c.cps)
  }

  /** A tick reports progress exactly when it delivers a message or there is less left to do after it; so without new
      messages a channel does not tick for ever. */
  lemma ProgressIsReal(n: Net, c: C.Channel)
    requires C.ChannelOk(c, n)
    ensures var o := C.TickChannel(n, c);
            && |o.link.ends| == 2 && ChannelTodo(o.link) <= ChannelTodo(c)
            && (o.progress <==> o.log != [] || ChannelTodo(o.link) < ChannelTodo(c))
  {
    var l := C.DeliverOne(n, c.ends[0].post, 1);
    var r := C.DeliverOne(l.net, c.ends[1].post, 0);
    C.DeliverBoth(n, c);
    DeliveriesProgress(n, c);
    hide C.DeliverOne;
    hide Todo;
    hide C.MoveOne;
    var e0, e1 := c.ends[0].(post := l.post), c.ends[1].(post := r.post);
    MoveWork(r.net, e0, c.numStage, c.cps, 0);
    MoveWork(C.MoveOne(r.net, e0, c.numStage, c.cps, 0).net, e1, c.numStage, c.cps, 1);
    SameTodo(c.ends[0], l.post, c.numStage, c.cps);
    SameTodo(c.ends[1], r.post, c.numStage, c.cps);
  }

  lemma SameTodo(e: C.End, post: seq<Msg>, numStage: nat, cps: nat)
    ensures Todo(e.(post := post), numStage, cps) == Todo(e, numStage, cps)
  {
  }

  lemma DeliveriesProgress(n: Net, c: C.Channel)
    requires C.ChannelOk(c, n)
    ensures var l := C.DeliverOne(n, c.ends[0].post, 1);
            var r := C.DeliverOne(l.net, c.ends[1].post, 0);
            l.progress || r.progress <==> l.log + r.log != []
  {
    C.PostIsRouted(c.ends[0], 0);
    C.PostIsRouted(c.ends[1], 1);
    C.DeliverOneFacts(n, c.ends[0].post, 1);
    C.DeliverOneFacts(C.DeliverOne(n, c.ends[0].post, 1).net, c.ends[1].post, 0);
  }

  /* ----- Many ticks ----- */

  /** The channel and its ports before a tick. */
  datatype Before = Before(n: Net, c: C.Channel)

  /** Between two ticks the ports may be read and messages sent, which only appends to the source buffers. */
  ghost predicate Continues(b: Before, b': Before, s: nat)
    requires s < 2 && C.ChannelOk(b.c, b.n) && C.ChannelOk(b'.c, b'.n)
  {
    var e, e' := EndAfter(b.n, b.c, s), b'.c.ends[s];
    && b'.c == b.c.(ends := b'.c.ends)
    && e'.lanes == e.lanes && e'.post == e.post && e'.cap == e.cap && e.src <= e'.src
  }

  /** Consecutive ticks of a new channel, with port 1 - s always open. */
  ghost predicate OpenTicks(bs: seq<Before>, s: nat) {
    && s < 2 && bs != []
    && (forall k :: 0 <= k < |bs| ==> C.ChannelOk(bs[k].c, bs[k].n) && Open(bs[k].n, bs[k].c, s))
    && (forall k :: 0 <= k < |bs| - 1 ==> Continues(bs[k], bs[k + 1], s))
    && bs[0].c.ends[s].lanes == EmptyLanes(bs[0].c.width, bs[0].c.numStage)
  }

  /** Direction s before tick k. */
  function EndAt(bs: seq<Before>, s: nat, k: nat): C.End
    requires OpenTicks(bs, s) && k < |bs|
  {
    bs[k].c.ends[s]
  }

  /** What tick k delivers from port s. */
  function LogAt(bs: seq<Before>, s: nat, k: nat): seq<Msg>
    requires OpenTicks(bs, s) && k < |bs|
  {
    From(C.TickChannel(bs[k].n, bs[k].c).log, s)
  }

  /** The head of the source buffer enters the pipeline in tick k. */
  predicate Enters(bs: seq<Before>, s: nat, k: nat)
    requires OpenTicks(bs, s) && k < |bs|
  {
    EndAt(bs, s, k).src != [] && |EndAfter(bs[k].n, bs[k].c, s).src| < |EndAt(bs, s, k).src|
  }

  lemma StartsSmooth(bs: seq<Before>, s: nat)
    requires OpenTicks(bs, s)
    ensures AllSmooth(bs[0].c.cps, EndAt(bs, s, 0).lanes)
  {
    hide Open;
    hide Continues;
  }

  lemma StepSmooth(bs: seq<Before>, s: nat, k: nat)
    requires OpenTicks(bs, s) && k + 1 < |bs| && AllSmooth(bs[k].c.cps, EndAt(bs, s, k).lanes)
    ensures AllSmooth(bs[k].c.cps, EndAt(bs, s, k + 1).lanes)
    ensures bs[k + 1].c == bs[k].c.(ends := bs[k + 1].c.ends)
  {
    assert Continues(bs[k], bs[k + 1], s);
    hide EndAfter;
    hide AllSmooth;
    hide Open;
    SmoothAfter(bs[k].n, bs[k].c, s);
  }

  lemma {:induction false} StaysSmooth(bs: seq<Before>, s: nat, k: nat)
    requires OpenTicks(bs, s) && k < |bs|
    ensures AllSmooth(bs[0].c.cps, EndAt(bs, s, k).lanes)
    ensures bs[k].c == bs[0].c.(ends := bs[k].c.ends)
  {
    hide *;
    if k == 0 {
      StartsSmooth(bs, s);
    } else {
      StaysSmooth(bs, s, k - 1);
      StepSmooth(bs, s, k - 1);
    }
  }

  /** OneTick for a tick of such a sequence. */
  lemma TickAt(bs: seq<Before>, s: nat, k: nat, x: Msg, r: nat)
    requires OpenTicks(bs, s) && k + 1 < |bs|
    ensures r > 0 && Travels(EndAt(bs, s, k), bs[0].c.cps, x, r) ==>
            Travels(EndAt(bs, s, k + 1), bs[0].c.cps, x, r - 1)
    ensures Enters(bs, s, k) ==>
            Travels(EndAt(bs, s, k + 1), bs[0].c.cps, EndAt(bs, s, k).src[0], Way(bs[0].c.numStage, bs[0].c.cps))
  {
    StaysSmooth(bs, s, k);
    assert Continues(bs[k], bs[k + 1], s);
    hide EndAfter;
    hide AllSmooth;
    hide Sits;
    hide Open;
    OneTick(bs[k].n, bs[k].c, s, x, r);
  }

  lemma {:induction false} Approaches(bs: seq<Before>, s: nat, k: nat, j: nat, x: Msg, r: nat)
    requires OpenTicks(bs, s) && k + j < |bs| && j <= r && Travels(EndAt(bs, s, k), bs[0].c.cps, x, r)
    ensures Travels(EndAt(bs, s, k + j), bs[0].c.cps, x, r - j)
  {
    hide OpenTicks;
    hide EndAt;
    hide Travels;
    hide Enters;
    if j > 0 {
      Approaches(bs, s, k, j - 1, x, r);
      TickAt(bs, s, k + j - 1, x, r - (j - 1));
    }
  }

  lemma LastDelivers(bs: seq<Before>, s: nat, k: nat, x: Msg)
    requires OpenTicks(bs, s) && k < |bs| && Travels(EndAt(bs, s, k), bs[0].c.cps, x, 0)
    ensures x in LogAt(bs, s, k)
  {
    var net := TickParts(bs[k].n, bs[k].c, s);
  }

  lemma LatencyTravels(bs: seq<Before>, s: nat, a: nat, j: nat)
    requires OpenTicks(bs, s) && a + j < |bs| && j > 0 && Enters(bs, s, a)
    ensures EndAt(bs, s, a).src != []
    ensures var m, way, cps := EndAt(bs, s, a).src[0], Way(bs[0].c.numStage, bs[0].c.cps), bs[0].c.cps;
            && (j <= way + 1 ==> Travels(EndAt(bs, s, a + j), cps, m, way + 1 - j))
            && (j == way + 1 ==> m in LogAt(bs, s, a + j))
  {
    var m, way := EndAt(bs, s, a).src[0], Way(bs[0].c.numStage, bs[0].c.cps);
    hide *;
    TickAt(bs, s, a, m, 0);
    if j <= way + 1 {
      Approaches(bs, s, a + 1, j - 1, m, way);
      if j == way + 1 {
        LastDelivers(bs, s, a + j, m);
      }
    }
  }

  /** The latency of a channel whose destination always has room: the head of the source buffer that enters the
      pipeline in tick a is delivered in tick a + numStage * cycles + 1, and is still inside before. */
  lemma ChannelLatency(bs: seq<Before>, s: nat, a: nat, j: nat)
    requires OpenTicks(bs, s) && a + j < |bs| && j > 0 && Enters(bs, s, a)
    ensures var m, way, cps := EndAt(bs, s, a).src[0], bs[0].c.numStage * Cycles(bs[0].c.cps), bs[0].c.cps;
            var lanes := EndAt(bs, s, a + j).lanes;
            && (j <= way ==> exists l :: 0 <= l < |lanes| && Sits(cps, lanes[l], m, way + 1 - j))
            && (j == way + 1 ==> m in LogAt(bs, s, a + j))
  {
    var m, cps, e := EndAt(bs, s, a).src[0], bs[0].c.cps, EndAt(bs, s, a + j);
    var way := Way(bs[0].c.numStage, cps);
    LatencyTravels(bs, s, a, j);
    hide OpenTicks;
    hide EndAt;
    hide LogAt;
    hide Sits;
    hide Enters;
    if j <= way {
      StillInside(e, cps, m, way + 1 - j);
    }
  }

  lemma StillInside(e: C.End, cps: nat, x: Msg, r: nat)
    requires Travels(e, cps, x, r) && r > 0
    ensures exists l :: 0 <= l < |e.lanes| && Sits(cps, e.lanes[l], x, r)
  {
    hide Sits;
  }
}
