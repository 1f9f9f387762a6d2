/** A run in which a migration hangs although its lists are not empty: the shootdown responses of two GPUs arrive in
    one cycle. */
module MigrationAsleep {
  import opened Wrappers
  import opened MigrationModel
  import opened MigrationWake
  import opened MigrationHangs

  ghost predicate Leads(t: Timed, t': Timed) {
    exists es :: TimedRuns(t, es, Any, true) && Last(t, es, Any, true) == t'
  }

  lemma {:induction false} OneMoreEvent(t: Timed, es: seq<Event>, e: Event)
    requires TimedRuns(t, es, Any, true) && Possible(Last(t, es, Any, true), e, true)
    ensures TimedRuns(t, es + [e], Any, true)
    ensures Last(t, es + [e], Any, true) == After(Last(t, es, Any, true), e, true)
    decreases |es|
  {
    hide Possible;
    hide After;
    if es == [] {
      assert [e][1..] == [];
      ConcatNil([e]);
      assert TimedRuns(After(t, e, true), [], Any, true);
    } else {
      OneMoreEvent(After(t, es[0], true), es[1..], e);
      TailOfConcat(es, [e]);
    }
  }

  lemma Then(t: Timed, m: Timed, e: Event)
    requires Leads(t, m) && Possible(m, e, true)
    ensures Leads(t, After(m, e, true))
  {
    hide Possible;
    hide After;
    var es :| TimedRuns(t, es, Any, true) && Last(t, es, Any, true) == m;
    OneMoreEvent(t, es, e);
    assert TimedRuns(t, es + [e], Any, true);
  }

  const INPUT := Input(true, true, true, [], false, false, [], [0])
  const TWO_GPUS := MigrationReq([1, 2], map[1 := [7]], true)

  lemma TwoGPUsFacts()
    ensures Requesting(TWO_GPUS, 2) == [0] && PagesOf(TWO_GPUS, 2) == [7] && VisitOrder(TWO_GPUS, 2, [0])
  {
    assert Requesting(TWO_GPUS, 0) == [];
    assert Requesting(TWO_GPUS, 1) == [0];
    assert PagesIn(TWO_GPUS, [0]) == PagesFor(TWO_GPUS, 0) + PagesIn(TWO_GPUS, [0][1..]);
    assert PagesIn(TWO_GPUS, []) == [];
  }

  /** A driver of two GPUs that handles TWO_GPUS. */
  function Handling(toSend: seq<Request>, drain: nat, shoot: nat): Driver {
    Driver(2, toSend, Some(TWO_GPUS), None, [], true, drain, shoot, 0, 0, 0, false, map[7 := Page(0, 0, false)], 1)
  }

  function During(d: Driver, outstanding: seq<Request>, gpuIn: seq<Request>): System {
    System(d, outstanding, gpuIn, [], [], [TWO_GPUS], [], multiset{}, 0)
  }

  /** Between two cycles, with a tick asked for. */
  function Woken(s: System): Timed {
    Timed(s, false, true, false, false, false, false)
  }

  /** The first half of a tick of a driver that has nothing to do for the MMU and no page to copy. */
  lemma PlainTick(s: System)
    requires s.d.toSendToMMU.None? && s.d.copiesToSend == []
    ensures Taken(s, INPUT, true) == if s.d.requestsToSend == [] then s else Step(s, SendToGPU, true)
  {
    var s1 := if s.d.requestsToSend == [] then s else Step(s, SendToGPU, true);
    assert Sent1(s, INPUT, true) == s1;
    assert Sent3(s, INPUT, true) == s1;
  }

  /** A cycle in which the driver sends one request. */
  lemma SendCycle(t: Timed, r: Request, rest: seq<Request>, drain: nat, shoot: nat, out: seq<Request>)
    requires Leads(t, Woken(During(Handling([r] + rest, drain, shoot), out, [])))
    ensures Leads(t, Woken(During(Handling(rest, drain, shoot), out + [r], [])))
  {
    hide Leads;
    var s := During(Handling([r] + rest, drain, shoot), out, []);
    Then(t, Woken(s), NextCycle);
    var m := After(Woken(s), NextCycle, true);
    TwoGPUsFacts();
    PlainTick(s);
    Then(t, m, DriverTick(INPUT));
    assert ([r] + rest)[1..] == rest;
    assert After(m, DriverTick(INPUT), true) == Woken(During(Handling(rest, drain, shoot), out + [r], []));
  }

  /** Two responses are delivered in one cycle. */
  lemma DeliverTwo(t: Timed, d: Driver, a: Request, b: Request)
    requires Leads(t, Woken(During(d, [a] + [b], [])))
    ensures Leads(t, Woken(During(d, [], [a] + [b])).(arrived := true))
  {
    hide Leads;
    var m := Woken(During(d, [a] + [b], []));
    Then(t, m, Deliver(0));
    var m1 := After(m, Deliver(0), true);
    assert m1 == Woken(During(d, [b], [a])).(arrived := true);
    Then(t, m1, Deliver(0));
    assert After(m1, Deliver(0), true) == Woken(During(d, [], [a] + [b])).(arrived := true);
  }

  /** A cycle in which the driver takes the response in front, and nothing is to be sent. */
  lemma TakeCycle(t: Timed, r: Request, rest: seq<Request>, drain: nat, shoot: nat, arrived: bool)
    requires r.Drain? || (r.ShootDown? && shoot == 2 && rest != [])
    requires Leads(t, Woken(During(Handling([], drain, shoot), [], [r] + rest)).(arrived := arrived))
    ensures r.Drain? ==> Leads(t, Woken(During(DrainDone(Handling([], drain, shoot)), [], rest)))
    ensures r.ShootDown? ==>
              Leads(t, Woken(During(Handling([], drain, 1), [], rest)).(next := false, slept := true))
  {
    hide Leads;
    var d := Handling([], drain, shoot);
    var s := During(d, [], [r] + rest);
    var m0 := Woken(s).(arrived := arrived);
    Then(t, m0, NextCycle);
    var m := After(m0, NextCycle, true);
    TwoGPUsFacts();
    hide Requesting;
    hide PagesIn;
    PlainTick(s);
    assert Can(s, ProcessReturn([0]), true, true);
    assert ([r] + rest)[1..] == rest;
    Then(t, m, DriverTick(INPUT));
    var m' := After(m, DriverTick(INPUT), true);
    if r.Drain? {
      assert m' == Woken(During(DrainDone(d), [], rest));
    } else {
      assert m' == Woken(During(Handling([], drain, 1), [], rest)).(next := false, slept := true);
    }
  }

  /** An idle driver takes up a request. */
  lemma ParseTick(s: System)
    requires s.d.toSendToMMU.None? && s.d.copiesToSend == [] && s.d.requestsToSend == [] && s.gpuIn == []
    requires !s.d.handling && s.mmuIn != []
    ensures Tick(s, INPUT, true) == ParseStep(s) && Progress(s, INPUT, true)
  {
    PlainTick(s);
    assert Commanded(s, INPUT, true) == s;
  }

  const IDLE := Driver(2, [], None, None, [], false, 0, 0, 0, 0, 0, false, map[7 := Page(0, 0, false)], 1)

  function Idle(mmuIn: seq<MigrationReq>): System {
    System(IDLE, [], [], mmuIn, [], [], [], multiset{}, 0)
  }

  /** The MMU asks. */
  lemma Asked(t: Timed)
    requires t == Woken(Idle([])).(next := false)
    ensures Start(t) && Leads(t, Woken(Idle([TWO_GPUS])))
  {
    assert Leads(t, t) by {
      assert TimedRuns(t, [], Any, true) && Last(t, [], Any, true) == t;
    }
    hide Leads;
    TwoGPUsFacts();
    hide Requesting;
    hide PagesIn;
    Then(t, t, FromMMU(TWO_GPUS));
    assert After(t, FromMMU(TWO_GPUS), true) == Woken(Idle([TWO_GPUS]));
  }

  /** The driver takes the request up. */
  lemma TakenUp(t: Timed)
    requires Leads(t, Woken(Idle([TWO_GPUS])))
    ensures Leads(t, Woken(During(Handling([Drain(0), Drain(1)], 2, 0), [], [])))
  {
    hide Leads;
    Then(t, Woken(Idle([TWO_GPUS])), NextCycle);
    var m := After(Woken(Idle([TWO_GPUS])), NextCycle, true);
    ParseTick(m.s);
    hide Tick;
    hide Progress;
    Then(t, m, DriverTick(INPUT));
    assert Drains(2) == [Drain(0), Drain(1)];
    assert After(m, DriverTick(INPUT), true) == Woken(During(Handling([Drain(0), Drain(1)], 2, 0), [], []));
  }

  /** Both drain responses. */
  lemma Drained(t: Timed)
    requires Leads(t, Woken(During(Handling([Drain(0), Drain(1)], 2, 0), [], [])))
    ensures Leads(t, Woken(During(Handling([ShootDown(0, [7])] + [ShootDown(1, [7])], 0, 2), [], [])))
  {
    hide Leads;
    var a, b := Drain(0), Drain(1);
    assert [a, b] == [a] + [b] && [b] + [] == [b] && [] + [a] == [a];
    SendCycle(t, a, [b], 2, 0, []);
    SendCycle(t, b, [], 2, 0, [a]);
    DeliverTwo(t, Handling([], 2, 0), a, b);
    TakeCycle(t, a, [b], 2, 0, true);
    TakeCycle(t, b, [], 1, 0, false);
    AllDrained(ShootDown(0, [7]), ShootDown(1, [7]));
  }

  /** Both shootdown responses, in one cycle. */
  lemma ShotDown(t: Timed, x: Request, y: Request)
    requires x.ShootDown? && Leads(t, Woken(During(Handling([x] + [y], 0, 2), [], [])))
    ensures Leads(t, Woken(During(Handling([], 0, 1), [], [y])).(next := false, slept := true))
  {
    hide Leads;
    assert [y] + [] == [y] && [] + [x] == [x];
    SendCycle(t, x, [y], 0, 2, []);
    SendCycle(t, y, [], 0, 2, [x]);
    DeliverTwo(t, Handling([], 0, 2), x, y);
    TakeCycle(t, x, [y], 0, 2, true);
  }

  /** The run: nothing can happen any more, a response waits in the port, and the migration is not over. */
  lemma TwoResponsesInOneCycleHang() returns (t: Timed)
    ensures TimedReachable(t, Any, true) && Stranded(t) && Quiet(t) && !Finished(t.s)
    ensures t.s.d.handling && t.s.d.current.Some? && !EmptyRequest(t.s.d.current.value, t.s.d.numGPUs)
    ensures t.s.gpuIn != [] && t.s.gpuIn[0].ShootDown?
    ensures !exists e :: Protocol(e) && Possible(t, e, true)
  {
    hide Leads;
    var t0 := Woken(Idle([])).(next := false);
    Asked(t0);
    TakenUp(t0);
    Drained(t0);
    ShotDown(t0, ShootDown(0, [7]), ShootDown(1, [7]));
    t := Woken(During(Handling([], 0, 1), [], [ShootDown(1, [7])])).(next := false, slept := true);
    LeadsReaches(t0, t);
    TwoGPUsFacts();
    QuietIsStable(t, Any, true);
  }

  lemma AllDrained(x: Request, y: Request)
    requires x == ShootDown(0, [7]) && y == ShootDown(1, [7])
    ensures DrainDone(Handling([], 1, 0)) == Handling([x] + [y], 0, 2)
  {
    TwoGPUsFacts();
    hide Requesting;
    hide PagesIn;
    assert ShootDowns([1, 2], [7]) == [x] + [y];
  }

  lemma LeadsReaches(t0: Timed, t: Timed)
    requires Start(t0) && Leads(t0, t)
    ensures TimedReachable(t, Any, true)
  {
  }
}
