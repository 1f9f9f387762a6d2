/** When a migration ends and when it hangs, over every run of the driver's ticks. */
module MigrationHangs {
  import opened MigrationModel
  import opened MigrationRuns
  import opened MigrationResults
  import opened MigrationProgress
  import opened MigrationWake

  lemma {:induction false} TimedRunKeeps(t: Timed, es: seq<Event>, rule: Rule, patient: bool)
    requires TimedInv(t, patient) && TimedRuns(t, es, rule, patient)
    ensures TimedInv(Last(t, es, rule, patient), patient)
    decreases |es|
  {
    hide TimedInv;
    hide After;
    hide Possible;
    if es != [] {
      EventKeeps(t, es[0], patient);
      TimedRunKeeps(After(t, es[0], patient), es[1..], rule, patient);
    }
  }

  lemma TimedReachableInv(t: Timed, rule: Rule, patient: bool)
    requires TimedReachable(t, rule, patient)
    ensures TimedInv(t, patient)
  {
    hide Reachable;
    var t0, es :| Start(t0) && TimedRuns(t0, es, rule, patient) && Last(t0, es, rule, patient) == t;
    ReachableStart(t0.s, patient);
    TimedRunKeeps(t0, es, rule, patient);
  }

  /* ----- Lost wake-ups ----- */

  /** A response lies in the port and no tick of the driver is pending. */
  predicate Stranded(t: Timed) {
    Asleep(t) && t.s.gpuIn != []
  }

  /** A response is stranded exactly by a tick that takes a shootdown response, not the last one, with another response
      behind it, and does nothing else, provided no message has asked for the next tick yet. Whatever happens next
      wakes the driver. */
  lemma WakeLostExactly(t: Timed, e: Event, rule: Rule, patient: bool)
    requires TimedReachable(t, rule, patient) && Possible(t, e, patient)
    ensures Stranded(t) <==> t.slept
    ensures !Stranded(t) ==>
              (Stranded(After(t, e, patient)) <==> e.DriverTick? && !t.next && LosesWake(t.s, e.i))
    ensures Stranded(t) ==> !Stranded(After(t, e, patient))
  {
    TimedReachableInv(t, rule, patient);
    EventKeeps(t, e, patient);
    hide Reachable;
    hide Tick;
    hide Progress;
  }

  /** Otherwise sleeping is safe: what is left to be sent waits for a port that owes a notification, copies wait for
      the one on its way, and the next request for the end of the migration. */
  lemma SleepIsSafe(t: Timed, rule: Rule, patient: bool)
    requires TimedReachable(t, rule, patient) && Asleep(t)
    ensures t.s.gpuIn == [] || t.slept
    ensures t.s.d.requestsToSend == [] || t.fullGPU
    ensures t.s.d.toSendToMMU.None? || t.fullMMU
    ensures t.s.d.copiesToSend == [] || t.fullGPU || Count(t.s.outstanding, CopyK) + Count(t.s.gpuIn, CopyK) == 1
    ensures t.s.mmuIn == [] || t.s.d.handling
  {
    TimedReachableInv(t, rule, patient);
    ReachableInv(t.s, patient);
  }

  /* ----- Hanging ----- */

  /** An event that is not up to the world outside driver, GPUs and connections. */
  predicate Protocol(e: Event) {
    !e.FromMMU? && !e.Wake?
  }

  predicate Quiet(t: Timed) {
    Asleep(t) && t.s.outstanding == [] && !t.fullGPU && !t.fullMMU
  }

  /** Quiet states are those in which nothing can happen unless somebody outside acts. */
  lemma QuietIsStable(t: Timed, rule: Rule, patient: bool)
    requires TimedReachable(t, rule, patient)
    ensures Quiet(t) <==> !exists e :: Protocol(e) && Possible(t, e, patient)
  {
    hide VisitOrder;
    hide Enabled;
    if t.now {
      var order := if t.s.d.current.Some? then Requesting(t.s.d.current.value, t.s.d.numGPUs) else [];
      var e := DriverTick(Input(true, true, true, [], false, false, [], order));
      OwnOrder(t.s);
      assert Protocol(e) && Possible(t, e, patient);
    } else if t.next {
      assert Protocol(NextCycle) && Possible(t, NextCycle, patient);
    } else if t.s.outstanding != [] {
      assert Protocol(Deliver(0)) && Possible(t, Deliver(0), patient);
    } else if t.fullGPU {
      assert Protocol(FreeGPU) && Possible(t, FreeGPU, patient);
    } else if t.fullMMU {
      assert Protocol(FreeMMU) && Possible(t, FreeMMU, patient);
    }
  }

  lemma OwnOrder(s: System)
    ensures s.d.current.Some? ==> VisitOrder(s.d.current.value, s.d.numGPUs, Requesting(s.d.current.value, s.d.numGPUs))
  {
  }

  predicate Finished(s: System) {
    !s.d.handling && s.mmuIn == [] && Moving(s) == 0
  }

  /** In a quiet state everything is finished, or a request had an empty list, or a wake-up was lost; never two of the
      three. */
  lemma HangsExactly(t: Timed, rule: Rule, patient: bool)
    requires TimedReachable(t, rule, patient) && Quiet(t)
    ensures t.s.d.handling ==> t.s.d.current.Some?
    ensures Finished(t.s) <==> !t.slept && !(t.s.d.handling && EmptyRequest(t.s.d.current.value, t.s.d.numGPUs))
    ensures !Finished(t.s) ==> t.s.d.handling
  {
    TimedReachableInv(t, rule, patient);
    ReachableInv(t.s, patient);
    hide Reachable;
    if !t.slept {
      NothingMoves(t.s);
    }
  }

  lemma NothingMoves(s: System)
    requires Books(s) && s.outstanding == [] && s.gpuIn == [] && s.d.requestsToSend == []
    requires s.d.copiesToSend == [] || s.d.migratingOnePage
    ensures s.d.copiesToSend == [] && (s.d.handling <==> PhaseOf(s.d).Stuck?)
    ensures s.d.handling ==> EmptyRequest(s.d.current.value, s.d.numGPUs)
  {
    OnlyCopies(s.d.copiesToSend);
    OnePhase(s, CopyK);
    OnePhase(s, KindOf(PhaseOf(s.d)));
  }

  /* ----- When no wake-up is lost ----- */

  /** With one accessing GPU. */
  lemma OneGPUNeverStrands(t: Timed, rule: Rule, patient: bool)
    requires TimedReachable(t, rule, patient) && t.s.d.handling
    ensures t.s.d.current.Some? && (|t.s.d.current.value.accessing| <= 1 ==> !t.slept)
  {
    TimedReachableInv(t, rule, patient);
    ReachableInv(t.s, patient);
  }

  /** At most one response more than the pending tick will take, and that one arrived in this cycle. */
  ghost predicate CycleOk(t: Timed) {
    && (t.arrived ==> t.next) && !t.slept
    && |t.s.gpuIn| <= (if t.now then 1 else 0) + (if t.arrived then 1 else 0)
  }

  lemma TickTakes(s: System, i: Input, patient: bool)
    requires Reachable(s, patient) && OrderOk(s, i)
    ensures |Tick(s, i, patient).gpuIn| <= (if s.gpuIn == [] then 0 else |s.gpuIn| - 1)
  {
    hide Reachable;
    hide Try;
    hide Launches;
    TickReaches(s, i, patient);
    SendKeepsPort(s, SendToGPU, i.toGPU, patient);
    SendKeepsPort(Sent1(s, i, patient), SendToMMU, i.toMMU, patient);
    SendKeepsPort(Sent2(s, i, patient), SendCopy, i.copy, patient);
    LaunchesOnly(Sent3(s, i, patient), i.middleware, patient);
    MiddlewareTakes(Offered(s, i, patient), i, patient);
    var s1 := Taken(s, i, patient);
    CanAlwaysProcess(s1, i, patient);
    PortShortens(s1, i, patient);
    LaunchesOnly(Returned(s, i, patient), i.commands, patient);
    SendKeepsPort(Commanded(s, i, patient), ParseFromMMU, true, patient);
  }

  lemma SendKeepsPort(s: System, a: Action, on: bool, patient: bool)
    requires a.SendToGPU? || a.SendToMMU? || a.SendCopy? || a.ParseFromMMU?
    ensures var s' := Try(s, a, on, patient);
            s'.gpuIn == s.gpuIn && (a.ParseFromMMU? || s'.d.current == s.d.current) && s'.d.numGPUs == s.d.numGPUs
  {
  }

  lemma MiddlewareTakes(s: System, i: Input, patient: bool)
    ensures var s' := Try(s, ProcessReturn(i.order), i.takes && OtherHead(s), patient);
            && s'.d.current == s.d.current && s'.d.numGPUs == s.d.numGPUs
            && (s'.gpuIn == s.gpuIn || (s.gpuIn != [] && s'.gpuIn == s.gpuIn[1..]))
  {
    hide KnownRequest;
    hide CopyReady;
  }

  lemma PortShortens(s: System, i: Input, patient: bool)
    requires Can(s, ProcessReturn(i.order), true, patient) <==> s.gpuIn != []
    ensures Try(s, ProcessReturn(i.order), true, patient).gpuIn == if s.gpuIn == [] then [] else s.gpuIn[1..]
  {
    hide PagesIn;
    hide KnownRequest;
  }

  lemma {:induction false} LaunchesOnly(s: System, ids: seq<nat>, patient: bool)
    ensures var s' := Launches(s, ids, patient);
            s' == s.(d := s.d.(requestsToSend := s'.d.requestsToSend))
                && |s'.d.requestsToSend| == |s.d.requestsToSend| + |ids|
    decreases |ids|
  {
    if ids != [] {
      LaunchesOnly(Step(s, LaunchKernel(ids[0]), patient), ids[1..], patient);
    }
  }

  lemma CycleKeeps(t: Timed, e: Event, patient: bool)
    requires TimedInv(t, patient) && CycleOk(t) && Possible(t, e, patient) && Allowed(t, e, OnePerCycle)
    ensures CycleOk(After(t, e, patient))
  {
    hide Reachable;
    hide Tick;
    hide Progress;
    if e.DriverTick? {
      TickTakes(t.s, e.i, patient);
    }
  }

  lemma {:induction false} RunCycles(t: Timed, es: seq<Event>, patient: bool)
    requires TimedInv(t, patient) && CycleOk(t) && TimedRuns(t, es, OnePerCycle, patient)
    ensures CycleOk(Last(t, es, OnePerCycle, patient))
    decreases |es|
  {
    hide TimedInv;
    hide CycleOk;
    hide After;
    hide Possible;
    hide Allowed;
    if es != [] {
      EventKeeps(t, es[0], patient);
      CycleKeeps(t, es[0], patient);
      RunCycles(After(t, es[0], patient), es[1..], patient);
    }
  }

  /** With at most one response delivered per cycle. */
  lemma OnePerCycleNeverStrands(t: Timed, patient: bool)
    requires TimedReachable(t, OnePerCycle, patient)
    ensures !t.slept && |t.s.gpuIn| <= 2
  {
    hide Reachable;
    hide TimedRuns;
    hide Last;
    var t0, es :| Start(t0) && TimedRuns(t0, es, OnePerCycle, patient) && Last(t0, es, OnePerCycle, patient) == t;
    ReachableStart(t0.s, patient);
    RunCycles(t0, es, patient);
  }

  /** A migration with non-empty lists never hangs if there is one accessing GPU, or if responses arrive in different
      cycles: once nothing can happen any more, everything is finished. */
  lemma MigrationNeverHangs(t: Timed, rule: Rule, patient: bool)
    requires TimedReachable(t, rule, patient) && Quiet(t)
    requires t.s.d.handling && t.s.d.current.Some? ==>
               && !EmptyRequest(t.s.d.current.value, t.s.d.numGPUs)
               && (rule.OnePerCycle? || |t.s.d.current.value.accessing| == 1)
    ensures Finished(t.s)
  {
    HangsExactly(t, rule, patient);
    if t.s.d.handling {
      OneGPUNeverStrands(t, rule, patient);
      if rule.OnePerCycle? {
        OnePerCycleNeverStrands(t, patient);
      }
    } else if t.slept {
      TimedReachableInv(t, rule, patient);
    }
  }

  /* ----- Every run gets there ----- */

  lemma TryWork(s: System, a: Action, on: bool, patient: bool)
    requires Reachable(s, patient) && Advances(a)
    ensures Work(Try(s, a, on, patient)) + (if Can(s, a, on, patient) then 1 else 0) <= Work(s)
  {
    hide Enabled;
    hide Step;
    hide Work;
    hide Inv;
    if Can(s, a, on, patient) {
      ReachableInv(s, patient);
      InvBooks(s, patient);
      StepWork(s, a, patient);
      LostGrows(s, a, patient);
    }
  }

  lemma LaunchesWork(s: System, ids: seq<nat>, patient: bool)
    ensures Work(Launches(s, ids, patient)) == Work(s) + 3 * |ids|
  {
    LaunchesOnly(s, ids, patient);
    hide Launches;
    hide QueueCost;
    hide PagesCost;
    hide RestartCost;
    hide ShootCost;
  }

  /** Requests that a tick creates for others than the migration. */
  function Others(i: Input): nat {
    |i.middleware| + |i.commands|
  }

  lemma TickWork(s: System, i: Input, patient: bool)
    requires Reachable(s, patient)
    ensures Work(Tick(s, i, patient)) <= Work(s) + 3 * Others(i)
    ensures Progress(s, i, patient) && !i.busy && Others(i) == 0 ==> Work(Tick(s, i, patient)) < Work(s)
  {
    hide Reachable;
    hide Try;
    hide Can;
    hide Launches;
    hide Work;
    TickReaches(s, i, patient);
    TryWork(s, SendToGPU, i.toGPU, patient);
    TryWork(Sent1(s, i, patient), SendToMMU, i.toMMU, patient);
    TryWork(Sent2(s, i, patient), SendCopy, i.copy, patient);
    LaunchesWork(Sent3(s, i, patient), i.middleware, patient);
    var s' := Offered(s, i, patient);
    TryWork(s', ProcessReturn(i.order), i.takes && OtherHead(s'), patient);
    TryWork(Taken(s, i, patient), ProcessReturn(i.order), true, patient);
    LaunchesWork(Returned(s, i, patient), i.commands, patient);
    TryWork(Commanded(s, i, patient), ParseFromMMU, true, patient);
  }

  function Bit(b: bool): nat {
    if b then 1 else 0
  }

  /** How many more protocol events there can be if nothing comes from outside. */
  function Weight(t: Timed): nat {
    3 * Work(t.s) + Bit(t.now) + 2 * Bit(t.next) + 3 * Bit(t.fullGPU) + 3 * Bit(t.fullMMU)
  }

  /** What an event adds from outside: requests of others, requests of the MMU, refused sends, wake-ups. */
  function Disturbs(t: Timed, e: Event): nat {
    match e
    case DriverTick(i) =>
      11 * Others(i) + 2 * Bit(i.busy) + 3 * Bit(RefusedGPU(t.s, i)) + 3 * Bit(RefusedMMU(t.s, i))
    case FromMMU(req) => 3 * Cost(req, t.s.d.numGPUs) + 2
    case Wake => 2
    case _ => 0
  }

  lemma EventWeight(t: Timed, e: Event, patient: bool)
    requires TimedInv(t, patient) && Possible(t, e, patient)
    ensures Weight(After(t, e, patient)) + Bit(Protocol(e)) <= Weight(t) + Disturbs(t, e)
  {
    hide Reachable;
    hide Work;
    hide Step;
    hide Cost;
    hide SleepOk;
    if e.DriverTick? {
      TickWeight(t, e.i, patient);
    } else {
      hide Tick;
      hide Progress;
      match e
      case Deliver(k) => OneStep(t.s, Answer(k), patient);
      case FromMMU(req) => OneStep(t.s, Ask(req), patient);
      case _ =>
    }
  }

  lemma TickWeight(t: Timed, i: Input, patient: bool)
    requires Reachable(t.s, patient) && Possible(t, DriverTick(i), patient)
    ensures Weight(After(t, DriverTick(i), patient)) + 1 <= Weight(t) + Disturbs(t, DriverTick(i))
  {
    hide Reachable;
    hide Tick;
    hide Progress;
    hide Work;
    hide RefusedGPU;
    hide RefusedMMU;
    hide OrderOk;
    TickWork(t.s, i, patient);
  }

  lemma OneStep(s: System, a: Action, patient: bool)
    requires Reachable(s, patient) && Enabled(s, a, patient)
    ensures Work(Step(s, a, patient)) + Bit(Advances(a)) <= Work(s) + Added(a, s.d.numGPUs)
  {
    hide Work;
    hide Enabled;
    hide Step;
    hide Inv;
    ReachableInv(s, patient);
    InvBooks(s, patient);
    StepWork(s, a, patient);
    LostGrows(s, a, patient);
  }

  ghost function Protocols(es: seq<Event>): nat {
    if es == [] then 0 else Bit(Protocol(es[0])) + Protocols(es[1..])
  }

  ghost function AllDisturbs(t: Timed, es: seq<Event>, rule: Rule, patient: bool): nat
    requires TimedRuns(t, es, rule, patient)
    decreases |es|
  {
    if es == [] then 0 else Disturbs(t, es[0]) + AllDisturbs(After(t, es[0], patient), es[1..], rule, patient)
  }

  /** Every run reaches a quiet state: its protocol events are bounded by the work at the start and what came in. */
  lemma {:induction false} RunsAreBounded(t: Timed, es: seq<Event>, rule: Rule, patient: bool)
    requires TimedInv(t, patient) && TimedRuns(t, es, rule, patient)
    ensures Protocols(es) + Weight(Last(t, es, rule, patient)) <= Weight(t) + AllDisturbs(t, es, rule, patient)
    decreases |es|
  {
    hide TimedInv;
    hide After;
    hide Possible;
    hide Allowed;
    hide Weight;
    hide Disturbs;
    hide Protocol;
    if es != [] {
      EventKeeps(t, es[0], patient);
      EventWeight(t, es[0], patient);
      RunsAreBounded(After(t, es[0], patient), es[1..], rule, patient);
    }
  }
}
