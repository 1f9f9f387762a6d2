/** akita/noc/messaging/channel.go on values: two ports, and one delay pipeline per direction. */
module ChannelLink {
  import opened Wrappers
  import opened Kernel
  import opened Ports
  import opened PipelineModel

  /** The sending side of one direction; `cap` is the capacity of both buffers. */
  datatype End = End(src: seq<Msg>, post: seq<Msg>, cap: nat, busy: bool, lanes: seq<Lane<Msg>>)

  /** ends[0] is the left end and ends[1] the right one. */
  datatype Channel = Channel(ends: seq<End>, numStage: nat, cps: nat, width: nat)

  /** Everything travelling away from an end, oldest first when the pipeline has one lane. */
  function Content(e: End): seq<Msg> {
    e.post + Items(e.lanes) + e.src
  }

  ghost predicate EndOk(e: End, numStage: nat, width: nat) {
    && Shape(numStage, e.lanes) && |e.lanes| == width
    && |e.src| <= e.cap && |e.post| <= e.cap
    && (e.busy ==> |e.src| >= e.cap)
  }

  /* ----- deliverOneEnd ----- */

  datatype DeliverOut = DeliverOut(net: Net, post: seq<Msg>, progress: bool, log: seq<Msg>)

  function DeliverOne(n: Net, post: seq<Msg>, dst: nat): (o: DeliverOut)
    requires Wired(n) && dst < |n.ports|
    ensures Wired(o.net) && |o.net.ports| == |n.ports|
    decreases |post|
  {
    if post == [] then DeliverOut(n, [], false, [])
    else
      var r := Receive(n, dst, post[0]);
      if !r.ok then DeliverOut(r.net, post, false, [])
      else
        var rest := DeliverOne(r.net, post[1..], dst);
        DeliverOut(rest.net, rest.post, true, [post[0]] + rest.log)
  }

  /** Same network up to portBusy flags. */
  ghost predicate OnlyFlags(n: Net, n': Net) {
    && n'.clock == n.clock && |n'.ports| == |n.ports|
    && forall p :: 0 <= p < |n.ports| ==> n'.ports[p] == n.ports[p].(busy := n'.ports[p].busy)
  }

  lemma {:induction false} DeliverOneFacts(n: Net, post: seq<Msg>, dst: nat)
    requires Wired(n) && dst < |n.ports| && forall m :: m in post ==> m.dst == dst
    ensures var o := DeliverOne(n, post, dst);
            && Delivered(n, o.net, o.log)
            && post == o.log + o.post
            && (o.post == [] || Blocked(o.net.ports[dst]))
            && (o.progress <==> o.log != [])
            && (!o.progress ==> OnlyFlags(n, o.net))
    decreases |post|
  {
    hide Delivered;
    hide Receive;
    if post == [] {
      DeliveredNothing(n);
    } else {
      var r := Receive(n, dst, post[0]);
      ReceiveDelivers(n, dst, post[0]);
      if r.ok {
        DeliverOneFacts(r.net, post[1..], dst);
        var rest := DeliverOne(r.net, post[1..], dst);
        DeliveredTwice(n, r.net, rest.net, [post[0]], rest.log);
      } else {
        RefusedOnlyFlags(n, dst, post[0]);
      }
    }
  }

  lemma RefusedOnlyFlags(n: Net, p: nat, m: Msg)
    requires Wired(n) && p < |n.ports| && !Receive(n, p, m).ok
    ensures OnlyFlags(n, Receive(n, p, m).net)
  {
  }

  /* ----- moveMsgOneEnd ----- */

  datatype MoveOut = MoveOut(net: Net, end: End, progress: bool)

  /** The loop that feeds the pipeline from the source buffer of port p. */
  function Feed(n: Net, e: End, numStage: nat, cps: nat, p: nat): (o: MoveOut)
    requires Wired(n) && p < |n.ports| && Shape(numStage, e.lanes)
    ensures Wired(o.net) && |o.net.ports| == |n.ports|
    decreases |e.src|
  {
    if e.src == [] || !CanAccept(numStage, e.lanes, e.post, e.cap) then MoveOut(n, e, false)
    else
      var a := Accept(cps, numStage, e.lanes, e.post, e.cap, e.src[0]);
      var net := if e.busy then WakeOwner(n, p) else n;
      var rest := Feed(net, End(e.src[1..], a.post, e.cap, false, a.lanes), numStage, cps, p);
      MoveOut(rest.net, rest.end, true)
  }

  function MoveOne(n: Net, e: End, numStage: nat, cps: nat, p: nat): (o: MoveOut)
    requires Wired(n) && p < |n.ports| && Shape(numStage, e.lanes)
    ensures Wired(o.net) && |o.net.ports| == |n.ports|
  {
    var t := Tick(cps, e.lanes, e.post, e.cap);
    var o := Feed(n, e.(lanes := t.lanes, post := t.post), numStage, cps, p);
    MoveOut(o.net, o.end, t.progress || o.progress)
  }

  /** e' holds what e holds, in the same order at width 1. */
  ghost predicate SameContent(e: End, e': End, width: nat) {
    && e'.cap == e.cap
    && multiset(Content(e')) == multiset(Content(e))
    && (width == 1 ==> Content(e') == Content(e))
  }

  lemma ContentBag(e: End)
    ensures multiset(Content(e)) == multiset(e.post) + multiset(Items(e.lanes)) + multiset(e.src)
  {
  }

  lemma FeedOneContent(e: End, numStage: nat, cps: nat, width: nat)
    requires EndOk(e, numStage, width) && e.src != [] && CanAccept(numStage, e.lanes, e.post, e.cap)
    ensures var a := Accept(cps, numStage, e.lanes, e.post, e.cap, e.src[0]);
            var e' := End(e.src[1..], a.post, e.cap, false, a.lanes);
            EndOk(e', numStage, width) && SameContent(e, e', width)
  {
    hide Items;
    var x, rest := e.src[0], e.src[1..];
    var a := Accept(cps, numStage, e.lanes, e.post, e.cap, x);
    var e' := End(rest, a.post, e.cap, false, a.lanes);
    AcceptAdds(cps, numStage, e.lanes, e.post, e.cap, x);
    hide Accept;
    hide CanAccept;
    ContentBag(e);
    ContentBag(e');
    assert e.src == [x] + rest;
    assert multiset(e.src) == multiset{x} + multiset(rest);
    BagShift(multiset(a.post) + multiset(Items(a.lanes)), multiset(e.post) + multiset(Items(e.lanes)), x,
        multiset(rest));
    if width == 1 {
      AcceptIsFifo(cps, numStage, e.lanes, e.post, e.cap, x);
      Shift(a.post, Items(a.lanes), e.post, Items(e.lanes), x, rest);
    }
  }

  lemma BagShift<T>(new': multiset<T>, old': multiset<T>, x: T, rest: multiset<T>)
    requires new' == old' + multiset{x}
    ensures new' + rest == old' + (multiset{x} + rest)
  {
  }

  lemma Shift<T>(p': seq<T>, i': seq<T>, p: seq<T>, i: seq<T>, x: T, rest: seq<T>)
    requires p' + i' == p + i + [x]
    ensures p' + i' + rest == p + i + ([x] + rest)
  {
  }

  lemma {:induction false} FeedFacts(n: Net, e: End, numStage: nat, cps: nat, width: nat, p: nat)
    requires Wired(n) && p < |n.ports| && EndOk(e, numStage, width)
    ensures var o := Feed(n, e, numStage, cps, p);
            && Delivered(n, o.net, [])
            && EndOk(o.end, numStage, width) && SameContent(e, o.end, width)
            && (!o.progress ==> o.net == n && o.end == e)
            && (o.end.src == [] || !CanAccept(numStage, o.end.lanes, o.end.post, o.end.cap))
    decreases |e.src|
  {
    hide Delivered;
    hide WakeOwner;
    hide SameContent;
    hide CanAccept;
    hide Accept;
    if e.src == [] || !CanAccept(numStage, e.lanes, e.post, e.cap) {
      DeliveredNothing(n);
      assert SameContent(e, e, width) by { SameContentRefl(e, width); }
    } else {
      var a := Accept(cps, numStage, e.lanes, e.post, e.cap, e.src[0]);
      var e' := End(e.src[1..], a.post, e.cap, false, a.lanes);
      FeedOneContent(e, numStage, cps, width);
      var net := if e.busy then WakeOwner(n, p) else n;
      if e.busy {
        WakeDelivers(n, p);
      } else {
        DeliveredNothing(n);
      }
      FeedFacts(net, e', numStage, cps, width, p);
      var o := Feed(net, e', numStage, cps, p);
      DeliveredTwice(n, net, o.net, [], []);
      ConcatNil<Msg>([]);
      SameContentTrans(e, e', o.end, width);
    }
  }

  lemma SameContentRefl(e: End, width: nat)
    ensures SameContent(e, e, width)
  {
  }

  lemma SameContentTrans(a: End, b: End, c: End, width: nat)
    requires SameContent(a, b, width) && SameContent(b, c, width)
    ensures SameContent(a, c, width)
  {
  }

  lemma TickContent(e: End, numStage: nat, cps: nat, width: nat)
    requires EndOk(e, numStage, width)
    ensures var t := Tick(cps, e.lanes, e.post, e.cap);
            var e' := e.(lanes := t.lanes, post := t.post);
            EndOk(e', numStage, width) && SameContent(e, e', width)
  {
    var t := Tick(cps, e.lanes, e.post, e.cap);
    var e' := e.(lanes := t.lanes, post := t.post);
    TickConserves(cps, e.lanes, e.post, e.cap);
    TickLanesNoOverflow(cps, e.lanes, 0, e.post, e.cap);
    ContentBag(e);
    ContentBag(e');
    if width == 1 {
      TickIsFifo(cps, e.lanes, e.post, e.cap);
    }
  }

  lemma {:induction false} EmptyHasNoItems<T>(lanes: seq<Lane<T>>)
    requires Empty(lanes)
    ensures Items(lanes) == []
  {
    if lanes != [] {
      EmptyLaneHasNoItems(lanes[0]);
      assert forall j, i :: 0 <= j < |lanes[1..]| && 0 <= i < |lanes[1..][j]| ==> lanes[1..][j][i] == lanes[j + 1][i];
      EmptyHasNoItems(lanes[1..]);
    }
  }

  lemma {:induction false} EmptyLaneHasNoItems<T>(lane: Lane<T>)
    requires forall i :: 0 <= i < |lane| ==> lane[i].elem.None?
    ensures LaneItems(lane) == []
  {
    if lane != [] {
      EmptyLaneHasNoItems(lane[1..]);
    }
  }

  /** moveMsgOneEnd neither loses nor reorders, and leaves a message behind only when no lane takes one; without
      progress it changes nothing, and then with room in the post buffer the whole direction is empty. */
  lemma MoveOneFacts(n: Net, e: End, numStage: nat, cps: nat, width: nat, p: nat)
    requires Wired(n) && p < |n.ports| && EndOk(e, numStage, width)
    ensures var o := MoveOne(n, e, numStage, cps, p);
            && Delivered(n, o.net, [])
            && EndOk(o.end, numStage, width) && SameContent(e, o.end, width)
            && (o.end.src == [] || !CanAccept(numStage, o.end.lanes, o.end.post, o.end.cap))
            && (!o.progress ==> o.net == n && o.end == e)
            && (!o.progress && e.post == [] && e.cap > 0 && width > 0 ==> Content(e) == [])
  {
    hide Delivered;
    hide SameContent;
    var t := Tick(cps, e.lanes, e.post, e.cap);
    var e' := e.(lanes := t.lanes, post := t.post);
    TickContent(e, numStage, cps, width);
    FeedFacts(n, e', numStage, cps, width, p);
    var o := Feed(n, e', numStage, cps, p);
    SameContentTrans(e, e', o.end, width);
    TickProgress(cps, e.lanes, e.post, e.cap);
    if !t.progress && !o.progress && e.post == [] && e.cap > 0 && width > 0 {
      IdleIsEmpty(e, numStage, cps, width);
    }
  }

  lemma IdleIsEmpty(e: End, numStage: nat, cps: nat, width: nat)
    requires EndOk(e, numStage, width) && e.post == [] && e.cap > 0 && width > 0
    requires !Tick(cps, e.lanes, e.post, e.cap).progress
    requires e.src == [] || !CanAccept(numStage, e.lanes, e.post, e.cap)
    ensures Content(e) == []
  {
    StuckLanesAreEmpty(cps, e.lanes, 0, e.post, e.cap);
    assert Empty(e.lanes);
    EmptyHasNoItems(e.lanes);
    if numStage > 0 {
      assert e.lanes[0][0].elem.None?;
      assert FreeLane(e.lanes, 0) == 0;
    }
  }

  /* ----- Tick ----- */

  datatype TickOut = TickOut(net: Net, link: Channel, progress: bool, log: seq<Msg>)

  ghost predicate Routed(e: End, s: nat) {
    forall m :: m in Content(e) ==> m.src == s && m.dst == 1 - s
  }

  ghost predicate ChannelOk(c: Channel, n: Net) {
    && Wired(n) && |n.ports| == 2 && |c.ends| == 2
    && forall s :: 0 <= s < 2 ==> EndOk(c.ends[s], c.numStage, c.width) && Routed(c.ends[s], s)
  }

  function TickChannel(n: Net, c: Channel): (o: TickOut)
    requires ChannelOk(c, n)
  {
    var l := DeliverOne(n, c.ends[0].post, 1);
    var r := DeliverOne(l.net, c.ends[1].post, 0);
    var ml := MoveOne(r.net, c.ends[0].(post := l.post), c.numStage, c.cps, 0);
    var mr := MoveOne(ml.net, c.ends[1].(post := r.post), c.numStage, c.cps, 1);
    TickOut(mr.net, c.(ends := [ml.end, mr.end]), l.progress || r.progress || ml.progress || mr.progress, l.log + r.log)
  }

  /** Each direction is completely empty, or has a message for a full port that will report its next Retrieve. */
  ghost predicate QuietChannel(c: Channel, n: Net)
    requires |c.ends| == 2 && |n.ports| == 2
  {
    forall s :: 0 <= s < 2 ==> Content(c.ends[s]) == [] || (c.ends[s].post != [] && Blocked(n.ports[1 - s]))
  }

  /** Direction s loses exactly the messages of `log`, from the front when the pipeline has one lane. */
  ghost predicate Drained(e: End, e': End, width: nat, got: seq<Msg>) {
    && e'.cap == e.cap
    && multiset(Content(e)) == multiset(got) + multiset(Content(e'))
    && (width == 1 ==> Content(e) == got + Content(e'))
  }

  lemma DrainThenMove(e: End, mid: End, e': End, width: nat, got: seq<Msg>)
    requires mid == e.(post := mid.post) && e.post == got + mid.post && SameContent(mid, e', width)
    ensures Drained(e, e', width, got)
  {
    assert Content(e) == got + Content(mid);
    assert multiset(Content(e)) == multiset(got) + multiset(Content(mid));
  }

  lemma RoutedKept(e: End, e': End, width: nat, got: seq<Msg>, s: nat)
    requires Routed(e, s) && Drained(e, e', width, got)
    ensures Routed(e', s) && forall m :: m in got ==> m.src == s && m.dst == 1 - s
  {
    forall m | m in Content(e') ensures m in Content(e) {
      assert m in multiset(Content(e'));
      assert m in multiset(Content(e));
    }
    forall m | m in got ensures m in Content(e) {
      assert m in multiset(got);
      assert m in multiset(Content(e));
    }
  }

  lemma PostIsRouted(e: End, s: nat)
    requires Routed(e, s)
    ensures forall m :: m in e.post ==> m.dst == 1 - s
  {
    forall m | m in e.post ensures m in Content(e) {
    }
  }

  /** Both deliveries of a Tick. */
  lemma DeliverBoth(n: Net, c: Channel)
    requires ChannelOk(c, n)
    ensures var l := DeliverOne(n, c.ends[0].post, 1);
            var r := DeliverOne(l.net, c.ends[1].post, 0);
            && Delivered(n, r.net, l.log + r.log)
            && c.ends[0].post == l.log + l.post && c.ends[1].post == r.log + r.post
  {
    hide Delivered;
    hide DeliverOne;
    var l := DeliverOne(n, c.ends[0].post, 1);
    var r := DeliverOne(l.net, c.ends[1].post, 0);
    PostIsRouted(c.ends[0], 0);
    PostIsRouted(c.ends[1], 1);
    DeliverOneFacts(n, c.ends[0].post, 1);
    DeliverOneFacts(l.net, c.ends[1].post, 0);
    DeliveredTwice(n, l.net, r.net, l.log, r.log);
  }

  /** Both moves of a Tick. */
  lemma MoveBoth(n: Net, e0: End, e1: End, numStage: nat, cps: nat, width: nat)
    requires Wired(n) && |n.ports| == 2 && EndOk(e0, numStage, width) && EndOk(e1, numStage, width)
    ensures var ml := MoveOne(n, e0, numStage, cps, 0);
            var mr := MoveOne(ml.net, e1, numStage, cps, 1);
            && Delivered(n, mr.net, [])
            && EndOk(ml.end, numStage, width) && SameContent(e0, ml.end, width)
            && EndOk(mr.end, numStage, width) && SameContent(e1, mr.end, width)
  {
    hide Delivered;
    hide MoveOne;
    hide SameContent;
    var ml := MoveOne(n, e0, numStage, cps, 0);
    MoveOneFacts(n, e0, numStage, cps, width, 0);
    MoveOneFacts(ml.net, e1, numStage, cps, width, 1);
    ConcatNil<Msg>([]);
    DeliveredTwice(n, ml.net, MoveOne(ml.net, e1, numStage, cps, 1).net, [], []);
  }

  lemma DrainOne(e: End, mid: End, e': End, numStage: nat, width: nat, got: seq<Msg>, s: nat)
    requires EndOk(e, numStage, width) && EndOk(e', numStage, width) && Routed(e, s)
    requires mid == e.(post := mid.post) && e.post == got + mid.post && SameContent(mid, e', width)
    ensures Drained(e, e', width, got) && Routed(e', s) && forall m :: m in got ==> m.src == s
  {
    DrainThenMove(e, mid, e', width, got);
    RoutedKept(e, e', width, got, s);
  }

  /** What a Tick delivers and keeps. */
  lemma TickDelivers(n: Net, c: Channel)
    requires ChannelOk(c, n)
    ensures var o := TickChannel(n, c);
            && Delivered(n, o.net, o.log)
            && ChannelOk(o.link, o.net)
            && o.link == c.(ends := o.link.ends)
            && (forall m :: m in o.log ==> m.src < 2)
            && Drained(c.ends[0], o.link.ends[0], c.width, From(o.log, 0))
            && Drained(c.ends[1], o.link.ends[1], c.width, From(o.log, 1))
  {
    hide Delivered;
    hide SameContent;
    hide DeliverOne;
    hide MoveOne;
    hide Drained;
    hide Routed;
    hide From;
    var e0, e1 := c.ends[0], c.ends[1];
    var l := DeliverOne(n, e0.post, 1);
    var r := DeliverOne(l.net, e1.post, 0);
    DeliverBoth(n, c);
    var m0, m1 := e0.(post := l.post), e1.(post := r.post);
    MoveBoth(r.net, m0, m1, c.numStage, c.cps, c.width);
    var ml := MoveOne(r.net, m0, c.numStage, c.cps, 0);
    var mr := MoveOne(ml.net, m1, c.numStage, c.cps, 1);
    DeliveredTwice(n, r.net, mr.net, l.log + r.log, []);
    ConcatNil(l.log + r.log);
    DrainOne(e0, m0, ml.end, c.numStage, c.width, l.log, 0);
    DrainOne(e1, m1, mr.end, c.numStage, c.width, r.log, 1);
    SplitLog(l.log, r.log);
    PortsKept(n, mr.net, l.log + r.log);
  }

  lemma PortsKept(n: Net, n': Net, log: seq<Msg>)
    requires Delivered(n, n', log)
    ensures |n'.ports| == |n.ports|
  {
  }

  lemma SplitLog(a: seq<Msg>, b: seq<Msg>)
    requires (forall m :: m in a ==> m.src == 0) && (forall m :: m in b ==> m.src == 1)
    ensures From(a + b, 0) == a && From(a + b, 1) == b
  {
    FromAppend(a, b, 0);
    FromAppend(a, b, 1);
    FromUniform(a, 0, 0);
    FromUniform(a, 1, 0);
    FromUniform(b, 0, 1);
    FromUniform(b, 1, 1);
  }

  /** Sleeping is safe: a Tick that reports no progress changed nothing but portBusy flags, and with buffers of
      capacity at least 1 nothing is left that could move before a full destination port is read. */
  lemma SleepIsSafe(n: Net, c: Channel)
    requires ChannelOk(c, n) && !TickChannel(n, c).progress
    ensures var o := TickChannel(n, c);
            && o.link == c && o.log == [] && OnlyFlags(n, o.net)
            && (c.width > 0 && c.ends[0].cap > 0 && c.ends[1].cap > 0 ==> QuietChannel(o.link, o.net))
  {
    hide Delivered;
    hide SameContent;
    hide DeliverOne;
    hide MoveOne;
    hide Wired;
    hide Blocked;
    hide Content;
    var e0, e1 := c.ends[0], c.ends[1];
    var l := DeliverOne(n, e0.post, 1);
    var r := DeliverOne(l.net, e1.post, 0);
    PostIsRouted(e0, 0);
    PostIsRouted(e1, 1);
    DeliverOneFacts(n, e0.post, 1);
    DeliverOneFacts(l.net, e1.post, 0);
    ConcatNil(l.post);
    ConcatNil(r.post);
    assert e0.(post := l.post) == e0 && e1.(post := r.post) == e1;
    MoveOneFacts(r.net, e0, c.numStage, c.cps, c.width, 0);
    MoveOneFacts(r.net, e1, c.numStage, c.cps, c.width, 1);
    BlockedThroughFlags(l.net, r.net, 1);
    assert [e0, e1] == c.ends;
  }

  lemma BlockedThroughFlags(n: Net, n': Net, p: nat)
    requires OnlyFlags(n, n') && p < |n.ports| && Delivered(n, n', [])
    ensures Blocked(n.ports[p]) ==> Blocked(n'.ports[p])
  {
    if Blocked(n.ports[p]) {
      BlockedStays(n, n', [], p);
    }
  }

  lemma TickShape<T>(cps: nat, lanes: seq<Lane<T>>, post: seq<T>, cap: nat, numStage: nat)
    requires Shape(numStage, lanes)
    ensures Shape(numStage, Tick(cps, lanes, post, cap).lanes)
  {
  }

  lemma FreshIsRouted(cap: nat, width: nat, numStage: nat, s: nat)
    ensures Routed(End([], [], cap, false, EmptyLanes(width, numStage)), s)
  {
    EmptyHasNoItems(EmptyLanes<Msg>(width, numStage));
  }

  lemma KeepsKeys(n: Net, n': Net, log: seq<Msg>)
    requires Delivered(n, n', log)
    ensures n'.clock.sched.Keys == n.clock.sched.Keys
  {
    var hs :| WakesAll(n.clock, n'.clock, hs);
    WakesFrame(n.clock, n'.clock, hs);
  }

  lemma SentIsRouted(e: End, e': End, sent: seq<Msg>, s: nat)
    requires Routed(e, s) && e' == e.(busy := e'.busy, src := e.src + sent)
    requires forall m :: m in sent ==> m.src == s && m.dst == 1 - s
    ensures Routed(e', s)
  {
    assert Content(e') == Content(e) + sent;
  }
}
