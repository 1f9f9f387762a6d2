/** akita/sim/directconnection.go on values: one bounded source buffer per plugged-in port. */
module DirectLink {
  import opened Arith
  import opened Ports

  /** `busy` records that a sender was turned away. */
  datatype End = End(buf: seq<Msg>, bufSize: nat, busy: bool)

  datatype Direct = Direct(ends: seq<End>, nextPortID: nat)

  datatype Out = Out(net: Net, ends: seq<End>, progress: bool, log: seq<Msg>)

  ghost predicate EndOk(end: End, s: nat, ports: nat) {
    && (forall m :: m in end.buf ==> m.src == s && m.dst < ports)
    && |end.buf| <= end.bufSize
    && (end.busy ==> |end.buf| >= end.bufSize)
  }

  ghost predicate EndsFit(ends: seq<End>) {
    forall s :: 0 <= s < |ends| ==> EndOk(ends[s], s, |ends|)
  }

  ghost predicate EndsOk(ends: seq<End>, n: Net) {
    Wired(n) && |ends| == |n.ports| && EndsFit(ends)
  }

  /** forwardMany: deliver from the head until the buffer is empty or a destination refuses. `log` lists the
      messages delivered. */
  function ForwardMany(n: Net, ends: seq<End>, s: nat): (o: Out)
    requires EndsOk(ends, n) && s < |ends|
    ensures Wired(o.net) && |o.net.ports| == |n.ports| == |o.ends|
    decreases |ends[s].buf|
  {
    var end := ends[s];
    if end.buf == [] then Out(n, ends, false, [])
    else
      var r := Receive(n, end.buf[0].dst, end.buf[0]);
      if !r.ok then Out(r.net, ends, false, [])
      else
        var net := if end.busy then WakeOwner(r.net, s) else r.net;
        var ends' := ends[s := end.(buf := end.buf[1..], busy := false)];
        assert EndOk(ends'[s], s, |ends|);
        var rest := ForwardMany(net, ends', s);
        Out(rest.net, rest.ends, true, [end.buf[0]] + rest.log)
  }

  lemma EndsFitUpdate(ends: seq<End>, s: nat, end: End)
    requires EndsFit(ends) && s < |ends| && EndOk(end, s, |ends|)
    ensures EndsFit(ends[s := end])
  {
  }

  lemma EndsFitAppend(ends: seq<End>, bufSize: nat)
    requires EndsFit(ends)
    ensures EndsFit(ends + [End([], bufSize, false)])
  {
    var ends' := ends + [End([], bufSize, false)];
    forall s | 0 <= s < |ends'| ensures EndOk(ends'[s], s, |ends'|) {
      assert s < |ends| ==> EndOk(ends[s], s, |ends|);
    }
  }

  /** One round of the loop: what it leaves to do. */
  lemma ForwardUnfold(n: Net, ends: seq<End>, s: nat)
    requires EndsOk(ends, n) && s < |ends|
    ensures ends[s].buf == [] ==> ForwardMany(n, ends, s) == Out(n, ends, false, [])
    ensures ends[s].buf != [] ==>
              var m := ends[s].buf[0];
              && m.dst < |n.ports|
              && EndOk(ends[s].(buf := ends[s].buf[1..], busy := false), s, |ends|)
              && var r := Receive(n, m.dst, m);
              if !r.ok then ForwardMany(n, ends, s) == Out(r.net, ends, false, [])
              else
                var net := if ends[s].busy then WakeOwner(r.net, s) else r.net;
                var ends' := ends[s := ends[s].(buf := ends[s].buf[1..], busy := false)];
                && EndsOk(ends', net)
                && var rest := ForwardMany(net, ends', s);
                && ForwardMany(n, ends, s) == Out(rest.net, rest.ends, true, [m] + rest.log)
  {
  }

  /** The port whose turn it is in round i of a Tick that starts at port `first`. */
  function PortAt(i: nat, first: nat, n: nat): (p: nat)
    requires n > 0
    ensures p < n
  {
    (i + first) % n
  }

  /** The loop of Tick, from its i-th round on. */
  function TickFrom(n: Net, ends: seq<End>, first: nat, i: nat): (o: Out)
    requires EndsOk(ends, n) && i <= |ends| && first < |ends|
    ensures EndsOk(o.ends, o.net) && |o.ends| == |ends|
    decreases |ends| - i
  {
    if i == |ends| then Out(n, ends, false, [])
    else
      ForwardManyFacts(n, ends, PortAt(i, first, |ends|));
      var a := ForwardMany(n, ends, PortAt(i, first, |ends|));
      var b := TickFrom(a.net, a.ends, first, i + 1);
      Out(b.net, b.ends, a.progress || b.progress, a.log + b.log)
  }

  /** One round of Tick's loop: what it leaves to do. */
  lemma TickUnfold(n: Net, ends: seq<End>, first: nat, i: nat)
    requires EndsOk(ends, n) && i <= |ends| && first < |ends|
    ensures i == |ends| ==> TickFrom(n, ends, first, i) == Out(n, ends, false, [])
    ensures i < |ends| ==>
              var a := ForwardMany(n, ends, PortAt(i, first, |ends|));
              && EndsOk(a.ends, a.net) && |a.ends| == |ends|
              && var b := TickFrom(a.net, a.ends, first, i + 1);
              && TickFrom(n, ends, first, i) == Out(b.net, b.ends, a.progress || b.progress, a.log + b.log)
  {
    if i < |ends| {
      ForwardManyFacts(n, ends, PortAt(i, first, |ends|));
    }
  }

  ghost predicate Settled(end: End, n: Net) {
    end.buf == [] || (end.buf[0].dst < |n.ports| && Blocked(n.ports[end.buf[0].dst]))
  }

  /** What one round does: `log` is what it delivered, and the buffer of port s loses just that. */
  ghost predicate Moved(n: Net, n': Net, ends: seq<End>, ends': seq<End>, s: nat, log: seq<Msg>)
    requires s < |ends|
  {
    && EndsOk(ends', n') && Delivered(n, n', log) && |ends'| == |ends| && ends' == ends[s := ends'[s]]
    && ends'[s].bufSize == ends[s].bufSize && ends[s].buf == log + ends'[s].buf
  }

  lemma MovedNothing(n: Net, ends: seq<End>, s: nat)
    requires EndsOk(ends, n) && s < |ends|
    ensures Moved(n, n, ends, ends, s, [])
  {
    DeliveredNothing(n);
    hide Delivered;
    assert [] + ends[s].buf == ends[s].buf;
  }

  lemma MovedTwice(a: Net, b: Net, c: Net, x: seq<End>, y: seq<End>, z: seq<End>, s: nat, log: seq<Msg>, log': seq<Msg>)
    requires s < |x| == |y| && Moved(a, b, x, y, s, log) && Moved(b, c, y, z, s, log')
    ensures Moved(a, c, x, z, s, log + log')
  {
    hide EndsOk;
    DeliveredTwice(a, b, c, log, log');
    hide Delivered;
    assert log + (log' + z[s].buf) == (log + log') + z[s].buf;
  }

  /** A refused message leaves the port blocked. */
  lemma RefusedRound(n: Net, ends: seq<End>, s: nat)
    requires EndsOk(ends, n) && s < |ends| && ends[s].buf != []
    requires var m := ends[s].buf[0]; m.dst < |n.ports| && !Receive(n, m.dst, m).ok
    ensures var r := Receive(n, ends[s].buf[0].dst, ends[s].buf[0]);
            Moved(n, r.net, ends, ends, s, []) && Settled(ends[s], r.net)
  {
    var m := ends[s].buf[0];
    ReceiveDelivers(n, m.dst, m);
    hide Receive;
    hide Delivered;
    hide EndsFit;
    hide Wired;
    assert [] + ends[s].buf == ends[s].buf;
  }

  lemma AcceptedRound(n: Net, ends: seq<End>, s: nat)
    requires EndsOk(ends, n) && s < |ends| && ends[s].buf != []
    requires var m := ends[s].buf[0]; m.dst < |n.ports| && Receive(n, m.dst, m).ok
    requires EndOk(ends[s].(buf := ends[s].buf[1..], busy := false), s, |ends|)
    ensures var m := ends[s].buf[0];
            var r := Receive(n, m.dst, m);
            var net := if ends[s].busy then WakeOwner(r.net, s) else r.net;
            Moved(n, net, ends, ends[s := ends[s].(buf := ends[s].buf[1..], busy := false)], s, [m])
  {
    var m := ends[s].buf[0];
    var r := Receive(n, m.dst, m);
    ReceiveDelivers(n, m.dst, m);
    hide Receive;
    if ends[s].busy {
      WakeDelivers(r.net, s);
      hide WakeOwner;
      hide Delivered;
      DeliveredTwice(n, r.net, WakeOwner(r.net, s), [m], []);
      assert [m] + [] == [m];
    }
    EndsFitUpdate(ends, s, ends[s].(buf := ends[s].buf[1..], busy := false));
    hide Delivered;
    hide EndsFit;
    assert ends[s].buf == [m] + ends[s].buf[1..];
  }

  lemma {:induction false} ForwardManyMoves(n: Net, ends: seq<End>, s: nat)
    requires EndsOk(ends, n) && s < |ends|
    ensures var o := ForwardMany(n, ends, s);
            && Moved(n, o.net, ends, o.ends, s, o.log)
            && Settled(o.ends[s], o.net) && (o.progress <==> o.log != [])
    decreases |ends[s].buf|
  {
    ForwardUnfold(n, ends, s);
    if ends[s].buf == [] {
      MovedNothing(n, ends, s);
    } else {
      var m := ends[s].buf[0];
      var r := Receive(n, m.dst, m);
      hide *;
      if !r.ok {
        RefusedRound(n, ends, s);
      } else {
        var net := if ends[s].busy then WakeOwner(r.net, s) else r.net;
        var ends' := ends[s := ends[s].(buf := ends[s].buf[1..], busy := false)];
        AcceptedRound(n, ends, s);
        ForwardManyMoves(net, ends', s);
        var rest := ForwardMany(net, ends', s);
        MovedTwice(n, net, rest.net, ends, ends', rest.ends, s, [m], rest.log);
      }
    }
  }

  lemma ForwardManyFacts(n: Net, ends: seq<End>, s: nat)
    requires EndsOk(ends, n) && s < |ends|
    ensures var o := ForwardMany(n, ends, s);
            && EndsOk(o.ends, o.net)
            && Delivered(n, o.net, o.log)
            && o.ends == ends[s := o.ends[s]]
            && o.ends[s].bufSize == ends[s].bufSize
            && ends[s].buf == o.log + o.ends[s].buf
            && Settled(o.ends[s], o.net)
            && (o.progress <==> o.log != [])
  {
    hide ForwardMany;
    hide EndsOk;
    hide Delivered;
    ForwardManyMoves(n, ends, s);
  }

  /** What Send and the ticks keep: per source, buffered messages only leave from the front into the log. */
  ghost predicate Forwarded(ends: seq<End>, ends': seq<End>, log: seq<Msg>) {
    && |ends'| == |ends|
    && (forall m :: m in log ==> m.src < |ends|)
    && forall s :: 0 <= s < |ends| ==> ends'[s].bufSize == ends[s].bufSize && ends[s].buf == From(log, s) + ends'[s].buf
  }

  lemma ForwardedOne(ends: seq<End>, ends': seq<End>, s: nat, log: seq<Msg>)
    requires s < |ends| == |ends'| && ends' == ends[s := ends'[s]] && ends'[s].bufSize == ends[s].bufSize
    requires ends[s].buf == log + ends'[s].buf && (forall m :: m in ends[s].buf ==> m.src == s)
    ensures Forwarded(ends, ends', log)
  {
    assert forall m :: m in log ==> m in ends[s].buf;
    forall t | 0 <= t < |ends| ensures ends'[t].bufSize == ends[t].bufSize
        && ends[t].buf == From(log, t) + ends'[t].buf {
      FromUniform(log, t, s);
    }
  }

  lemma ForwardedTwice(a: seq<End>, b: seq<End>, c: seq<End>, log: seq<Msg>, log': seq<Msg>)
    requires Forwarded(a, b, log) && Forwarded(b, c, log')
    ensures Forwarded(a, c, log + log')
  {
    forall s | 0 <= s < |a| ensures c[s].bufSize == a[s].bufSize && a[s].buf == From(log + log', s) + c[s].buf {
      FromAppend(log, log', s);
    }
  }

  /** The round-robin order visits every end: the i-th round of a Tick starting at `first` handles end s. */
  function RoundOf(s: nat, first: nat, n: nat): (i: nat)
    requires s < n && first < n
    ensures i < n && PortAt(i, first, n) == s
  {
    var i := if s >= first then s - first else s + n - first;
    RoundTrip(i, first, n, s);
    i
  }

  lemma RoundTrip(i: nat, first: nat, n: nat, s: nat)
    requires first < n && s < n && (i + first == s || i + first == s + n)
    ensures PortAt(i, first, n) == s
  {
    if i + first == s + n {
      DivModUnique(i + first, n, 1, s);
    }
  }

  lemma RoundUnique(i: nat, first: nat, n: nat)
    requires i < n && first < n
    ensures RoundOf(PortAt(i, first, n), first, n) == i
  {
    if i + first < n {
      DivModUnique(i + first, n, 0, i + first);
    } else {
      RoundTrip(i, first, n, i + first - n);
    }
  }

  lemma {:induction false} TickFromDelivers(n: Net, ends: seq<End>, first: nat, i: nat)
    requires EndsOk(ends, n) && i <= |ends| && first < |ends|
    ensures var o := TickFrom(n, ends, first, i);
            && Delivered(n, o.net, o.log)
            && Forwarded(ends, o.ends, o.log)
            && (o.progress <==> o.log != [])
    decreases |ends| - i
  {
    hide ForwardMany;
    hide Delivered;
    if i == |ends| {
      DeliveredNothing(n);
    } else {
      var s := PortAt(i, first, |ends|);
      var a := ForwardMany(n, ends, s);
      ForwardManyFacts(n, ends, s);
      ForwardedOne(ends, a.ends, s, a.log);
      TickFromDelivers(a.net, a.ends, first, i + 1);
      var b := TickFrom(a.net, a.ends, first, i + 1);
      DeliveredTwice(n, a.net, b.net, a.log, b.log);
      ForwardedTwice(ends, a.ends, b.ends, a.log, b.log);
    }
  }

  /** The ends whose round has passed are settled. */
  ghost predicate SettledBefore(ends: seq<End>, n: Net, first: nat, i: nat)
    requires first < |ends|
  {
    forall s :: 0 <= s < |ends| && RoundOf(s, first, |ends|) < i ==> Settled(ends[s], n)
  }

  lemma RoundSettles(n: Net, ends: seq<End>, first: nat, i: nat)
    requires EndsOk(ends, n) && i < |ends| && first < |ends| && SettledBefore(ends, n, first, i)
    ensures var o := ForwardMany(n, ends, PortAt(i, first, |ends|));
            |o.ends| == |ends| && SettledBefore(o.ends, o.net, first, i + 1)
  {
    var s := PortAt(i, first, |ends|);
    var o := ForwardMany(n, ends, s);
    ForwardManyFacts(n, ends, s);
    forall t | 0 <= t < |ends| && RoundOf(t, first, |ends|) < i + 1 ensures Settled(o.ends[t], o.net) {
      RoundUnique(i, first, |ends|);
      if t != s && ends[t].buf != [] {
        BlockedStays(n, o.net, o.log, ends[t].buf[0].dst);
      }
    }
  }

  ghost predicate AllSettled(ends: seq<End>, n: Net) {
    forall s :: 0 <= s < |ends| ==> Settled(ends[s], n)
  }

  lemma AllRoundsSettle(ends: seq<End>, n: Net, first: nat)
    requires first < |ends| && SettledBefore(ends, n, first, |ends|)
    ensures AllSettled(ends, n)
  {
    forall s | 0 <= s < |ends| ensures Settled(ends[s], n) {
      assert RoundOf(s, first, |ends|) < |ends|;
    }
  }

  lemma {:induction false} TickFromSettles(n: Net, ends: seq<End>, first: nat, i: nat)
    requires EndsOk(ends, n) && i <= |ends| && first < |ends| && SettledBefore(ends, n, first, i)
    ensures var o := TickFrom(n, ends, first, i); AllSettled(o.ends, o.net)
    decreases |ends| - i
  {
    hide ForwardMany;
    hide AllSettled;
    hide SettledBefore;
    if i == |ends| {
      AllRoundsSettle(ends, n, first);
    } else {
      RoundSettles(n, ends, first, i);
      var a := ForwardMany(n, ends, PortAt(i, first, |ends|));
      ForwardManyFacts(n, ends, PortAt(i, first, |ends|));
      TickFromSettles(a.net, a.ends, first, i + 1);
    }
  }

  datatype TickOut = TickOut(net: Net, link: Direct, progress: bool, log: seq<Msg>)

  ghost predicate DirectOk(d: Direct, n: Net) {
    EndsOk(d.ends, n) && d.nextPortID < |d.ends|
  }

  function Tick(n: Net, d: Direct): (o: TickOut)
    requires DirectOk(d, n)
    ensures DirectOk(o.link, o.net)
  {
    var o := TickFrom(n, d.ends, d.nextPortID, 0);
    TickOut(o.net, Direct(o.ends, (d.nextPortID + 1) % |d.ends|), o.progress, o.log)
  }

  /** Every source buffer is empty or its head waits for a full port that will report its next Retrieve. */
  ghost predicate Quiet(d: Direct, n: Net) {
    AllSettled(d.ends, n)
  }

  /** After a Tick, with or without progress, nothing is left that the connection could deliver. */
  lemma TickSettles(n: Net, d: Direct)
    requires DirectOk(d, n)
    ensures var o := Tick(n, d);
            && Quiet(o.link, o.net)
            && Delivered(n, o.net, o.log)
            && Forwarded(d.ends, o.link.ends, o.log)
            && (o.progress <==> o.log != [])
  {
    TickFromDelivers(n, d.ends, d.nextPortID, 0);
    TickFromSettles(n, d.ends, d.nextPortID, 0);
  }

  /* ----- Fairness ----- */

  /** The connection and its ports before a tick. */
  datatype Before = Before(n: Net, d: Direct)

  /** Between two ticks messages may be sent and read, which only appends to the source buffers. */
  ghost predicate Continues(b: Before, b': Before) {
    && DirectOk(b.d, b.n) && DirectOk(b'.d, b'.n)
    && var o := Tick(b.n, b.d);
    && |b'.d.ends| == |o.link.ends| && b'.d.nextPortID == o.link.nextPortID
    && forall s :: 0 <= s < |o.link.ends| ==> o.link.ends[s].buf <= b'.d.ends[s].buf
  }

  ghost predicate Consecutive(bs: seq<Before>) {
    && (forall k :: 0 <= k < |bs| ==> DirectOk(bs[k].d, bs[k].n))
    && forall k :: 0 <= k < |bs| - 1 ==> Continues(bs[k], bs[k + 1])
  }

  lemma TickKeepsSize(n: Net, d: Direct)
    requires DirectOk(d, n)
    ensures |Tick(n, d).link.ends| == |d.ends|
    ensures d.nextPortID + 1 < |d.ends| ==> Tick(n, d).link.nextPortID == d.nextPortID + 1
    ensures d.nextPortID + 1 == |d.ends| ==> Tick(n, d).link.nextPortID == 0
  {
    if d.nextPortID + 1 < |d.ends| {
      DivModUnique(d.nextPortID + 1, |d.ends|, 0, d.nextPortID + 1);
    } else {
      DivModUnique(d.nextPortID + 1, |d.ends|, 1, 0);
    }
  }

  /** The k-th tick after a start at port s begins at the port k places behind s, around the circle. */
  lemma {:induction false} RoundRobin(bs: seq<Before>, k: nat)
    requires Consecutive(bs) && k < |bs| && k < |bs[0].d.ends|
    ensures var s, n := bs[0].d.nextPortID, |bs[0].d.ends|;
            && |bs[k].d.ends| == n
            && bs[k].d.nextPortID == if s + k < n then s + k else s + k - n
  {
    if k > 0 {
      RoundRobin(bs, k - 1);
      assert Continues(bs[k - 1], bs[k]);
      TickKeepsSize(bs[k - 1].n, bs[k - 1].d);
    }
  }

  /** In as many consecutive ticks as there are ports, each port is first exactly once. */
  lemma EachIsFirstOnce(bs: seq<Before>, p: nat) returns (k: nat)
    requires Consecutive(bs) && bs != [] && |bs| == |bs[0].d.ends| && p < |bs|
    ensures k < |bs| && bs[k].d.nextPortID == p
    ensures forall j :: 0 <= j < |bs| && bs[j].d.nextPortID == p ==> j == k
  {
    var s, n := bs[0].d.nextPortID, |bs|;
    k := if p >= s then p - s else p + n - s;
    RoundRobin(bs, k);
    forall j | 0 <= j < |bs| && bs[j].d.nextPortID == p ensures j == k {
      RoundRobin(bs, j);
    }
  }

  /** The port whose turn it is first gets its first message delivered, if the destination has room. */
  lemma FirstIsServed(n: Net, d: Direct)
    requires DirectOk(d, n) && d.ends[d.nextPortID].buf != []
    requires var m := d.ends[d.nextPortID].buf[0]; m.dst < |n.ports| && |n.ports[m.dst].buf| < n.ports[m.dst].cap
    ensures From(Tick(n, d).log, d.nextPortID) != []
  {
    var s := d.nextPortID;
    var m := d.ends[s].buf[0];
    RoundTrip(0, s, |d.ends|, s);
    assert Receive(n, m.dst, m).ok;
    TickUnfold(n, d.ends, s, 0);
    ForwardUnfold(n, d.ends, s);
    ForwardManyFacts(n, d.ends, s);
    hide Receive;
    hide WakeOwner;
    hide ForwardMany;
    hide TickFrom;
    hide EndsFit;
    hide Delivered;
    var a := ForwardMany(n, d.ends, s);
    assert a.log != [] && a.log[0] == m && m.src == s;
    var b := TickFrom(a.net, a.ends, s, 1);
    FromAppend(a.log, b.log, s);
  }

  /** A tick takes messages of source s from the front: the first one is delivered or stays first. */
  lemma HeadLeavesOrStays(n: Net, d: Direct, s: nat)
    requires DirectOk(d, n) && s < |d.ends| && d.ends[s].buf != []
    ensures var o := Tick(n, d);
            |o.link.ends| == |d.ends| &&
            if From(o.log, s) != [] then d.ends[s].buf[0] in o.log else o.link.ends[s].buf == d.ends[s].buf
  {
    TickKeepsSize(n, d);
    TickSettles(n, d);
    hide Tick;
    var o := Tick(n, d);
    assert d.ends[s].buf == From(o.log, s) + o.link.ends[s].buf;
    if From(o.log, s) != [] {
      assert d.ends[s].buf[0] == From(o.log, s)[0];
      FromHolds(o.log, s);
    } else {
      assert [] + o.link.ends[s].buf == o.link.ends[s].buf;
    }
  }

  lemma {:induction false} FromHolds(ms: seq<Msg>, s: nat)
    ensures forall m :: m in From(ms, s) ==> m in ms
  {
    if ms != [] {
      FromHolds(ms[1..], s);
    }
  }

  /** No sender starves: if the destination of the first message of port p has room before every tick, the message is
      delivered within as many ticks as there are ports. */
  lemma NobodyStarves(bs: seq<Before>, p: nat) returns (k: nat)
    requires Consecutive(bs) && bs != [] && |bs| == |bs[0].d.ends| && p < |bs| && bs[0].d.ends[p].buf != []
    requires var dst := bs[0].d.ends[p].buf[0].dst;
             forall j :: 0 <= j < |bs| ==> dst < |bs[j].n.ports| && |bs[j].n.ports[dst].buf| < bs[j].n.ports[dst].cap
    ensures k < |bs| && bs[0].d.ends[p].buf[0] in Tick(bs[k].n, bs[k].d).log
  {
    var turn := EachIsFirstOnce(bs, p);
    k := 0;
    while k < turn && From(Tick(bs[k].n, bs[k].d).log, p) == []
      invariant k <= turn && |bs[k].d.ends| == |bs|
      invariant bs[k].d.ends[p].buf != [] && bs[k].d.ends[p].buf[0] == bs[0].d.ends[p].buf[0]
    {
      HeadLeavesOrStays(bs[k].n, bs[k].d, p);
      assert Continues(bs[k], bs[k + 1]);
      TickKeepsSize(bs[k].n, bs[k].d);
      k := k + 1;
    }
    if k == turn {
      FirstIsServed(bs[k].n, bs[k].d);
    }
    HeadLeavesOrStays(bs[k].n, bs[k].d, p);
  }
}
