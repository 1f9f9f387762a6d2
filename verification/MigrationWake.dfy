/** When the driver ticks. It is a ticking component: it ticks in a cycle only if it was asked to in an earlier one, by
    a message, by a connection that has room again, by a command or by its own last tick if that made progress. */
module MigrationWake {
  import opened MigrationModel
  import opened MigrationRuns
  import opened MigrationResults
  import opened MigrationProgress

  /* ----- One tick ----- */

  /** What a tick finds: which sends the ports accept, the requests that middlewares and new commands make, whether a
      middleware takes the response in front (that of a memory copy or flush), whether they report progress otherwise,
      and the order of map iterations. */
  datatype Input = Input(
    toGPU: bool,
    toMMU: bool,
    copy: bool,
    middleware: seq<nat>,
    takes: bool,
    busy: bool,
    commands: seq<nat>,
    order: seq<nat>
  )

  ghost predicate Can(s: System, a: Action, on: bool, patient: bool) {
    on && Enabled(s, a, patient)
  }

  ghost function Try(s: System, a: Action, on: bool, patient: bool): System {
    if Can(s, a, on, patient) then Step(s, a, patient) else s
  }

  ghost function Launches(s: System, ids: seq<nat>, patient: bool): System
    decreases |ids|
  {
    if ids == [] then s else Launches(Step(s, LaunchKernel(ids[0]), patient), ids[1..], patient)
  }

  predicate OtherHead(s: System) {
    s.gpuIn != [] && s.gpuIn[0].Launch?
  }

  /** sendToGPUs, sendToMMU, sendMigrationReqToCP. */
  ghost function Sent1(s: System, i: Input, patient: bool): System {
    Try(s, SendToGPU, i.toGPU, patient)
  }

  ghost function Sent2(s: System, i: Input, patient: bool): System {
    Try(Sent1(s, i, patient), SendToMMU, i.toMMU, patient)
  }

  ghost function Sent3(s: System, i: Input, patient: bool): System {
    Try(Sent2(s, i, patient), SendCopy, i.copy, patient)
  }

  /** The middlewares. */
  ghost function Offered(s: System, i: Input, patient: bool): System {
    Launches(Sent3(s, i, patient), i.middleware, patient)
  }

  ghost function Taken(s: System, i: Input, patient: bool): System {
    var s' := Offered(s, i, patient);
    Try(s', ProcessReturn(i.order), i.takes && OtherHead(s'), patient)
  }

  /** processReturnReq. */
  ghost function Returned(s: System, i: Input, patient: bool): System {
    Try(Taken(s, i, patient), ProcessReturn(i.order), true, patient)
  }

  /** processNewCommand. */
  ghost function Commanded(s: System, i: Input, patient: bool): System {
    Launches(Returned(s, i, patient), i.commands, patient)
  }

  /** The whole tick; parseFromMMU is last. */
  ghost function Tick(s: System, i: Input, patient: bool): System {
    Try(Commanded(s, i, patient), ParseFromMMU, true, patient)
  }

  /** The response in front is a shootdown response and not the last one: taking it is not reported as progress. */
  predicate Silent(s: System) {
    s.gpuIn != [] && s.gpuIn[0].ShootDown? && Dec(s.d.shootDownACK) != 0
  }

  ghost predicate Progress(s: System, i: Input, patient: bool) {
    || Can(s, SendToGPU, i.toGPU, patient)
    || Can(Sent1(s, i, patient), SendToMMU, i.toMMU, patient)
    || Can(Sent2(s, i, patient), SendCopy, i.copy, patient)
    || i.middleware != [] || i.busy || i.commands != []
    || Can(Offered(s, i, patient), ProcessReturn(i.order), i.takes && OtherHead(Offered(s, i, patient)), patient)
    || (Can(Taken(s, i, patient), ProcessReturn(i.order), true, patient) && !Silent(Taken(s, i, patient)))
    || Can(Commanded(s, i, patient), ParseFromMMU, true, patient)
  }

  /** The order is one in which the requesting GPUs can be visited. */
  ghost predicate OrderOk(s: System, i: Input) {
    s.d.current.Some? ==> VisitOrder(s.d.current.value, s.d.numGPUs, i.order)
  }

  /* ----- Ticks are runs ----- */

  lemma TryReaches(s: System, a: Action, on: bool, patient: bool)
    requires Reachable(s, patient)
    ensures Reachable(Try(s, a, on, patient), patient)
  {
    hide Reachable;
    hide Enabled;
    hide Step;
    if Can(s, a, on, patient) {
      ReachableStep(s, a, patient);
    }
  }

  lemma {:induction false} LaunchesReach(s: System, ids: seq<nat>, patient: bool)
    requires Reachable(s, patient)
    ensures Reachable(Launches(s, ids, patient), patient)
    decreases |ids|
  {
    hide Reachable;
    hide Step;
    if ids != [] {
      ReachableStep(s, LaunchKernel(ids[0]), patient);
      LaunchesReach(Step(s, LaunchKernel(ids[0]), patient), ids[1..], patient);
    }
  }

  /** All that is proved of the steps holds of the ticks that they make up. */
  lemma TickReaches(s: System, i: Input, patient: bool)
    requires Reachable(s, patient)
    ensures Reachable(Sent1(s, i, patient), patient) && Reachable(Sent2(s, i, patient), patient)
    ensures Reachable(Sent3(s, i, patient), patient) && Reachable(Offered(s, i, patient), patient)
    ensures Reachable(Taken(s, i, patient), patient) && Reachable(Returned(s, i, patient), patient)
    ensures Reachable(Commanded(s, i, patient), patient) && Reachable(Tick(s, i, patient), patient)
  {
    hide Reachable;
    hide Try;
    hide Launches;
    TryReaches(s, SendToGPU, i.toGPU, patient);
    TryReaches(Sent1(s, i, patient), SendToMMU, i.toMMU, patient);
    TryReaches(Sent2(s, i, patient), SendCopy, i.copy, patient);
    LaunchesReach(Sent3(s, i, patient), i.middleware, patient);
    var s' := Offered(s, i, patient);
    TryReaches(s', ProcessReturn(i.order), i.takes && OtherHead(s'), patient);
    TryReaches(Taken(s, i, patient), ProcessReturn(i.order), true, patient);
    LaunchesReach(Returned(s, i, patient), i.commands, patient);
    TryReaches(Commanded(s, i, patient), ParseFromMMU, true, patient);
  }

  /** The driver can always process the response in front. */
  lemma CanAlwaysProcess(s: System, i: Input, patient: bool)
    requires Reachable(s, patient) && OrderOk(s, i)
    ensures Can(s, ProcessReturn(i.order), true, patient) <==> s.gpuIn != []
    ensures Silent(s) ==> s.d.handling && s.d.current.Some? && s.d.shootDownACK > 1 && |s.d.current.value.accessing| > 1
  {
    ReachableInv(s, patient);
    if s.gpuIn != [] && !s.gpuIn[0].Launch? {
      AckPositive(s, KindOfRequest(s.gpuIn[0]));
      KnownFacts(s);
    }
  }

  lemma KnownFacts(s: System)
    requires Books(s) && s.d.handling
    ensures HasCurrent(s.d) && forall v :: v in PagesOf(s.d.current.value, s.d.numGPUs) ==> v in s.d.pageTable
  {
  }

  lemma {:induction false} InCounted(rs: seq<Request>, r: Request, k: Kind)
    requires r in rs && Is(r, k)
    ensures Count(rs, k) > 0
  {
    if r != rs[0] {
      InCounted(rs[1..], r, k);
    }
  }

  /** In every reachable state the driver's handlers can run: responses to a migration come only while there is one. */
  lemma ReachableIsReady(s: System, patient: bool)
    requires Reachable(s, patient)
    ensures || (HasCurrent(s.d) && CopyReady(s.d, Requesting(s.d.current.value, s.d.numGPUs)))
            || forall r :: r in s.gpuIn ==> r.Launch?
  {
    ReachableInv(s, patient);
    if s.d.handling {
      KnownFacts(s);
    } else {
      forall r | r in s.gpuIn ensures r.Launch? {
        if !r.Launch? {
          InCounted(s.gpuIn, r, KindOfRequest(r));
          OnePhase(s, KindOfRequest(r));
        }
      }
    }
  }

  /** Nothing is sent, and neither middlewares nor commands do anything. */
  predicate NothingElse(s: System, i: Input) {
    && (s.d.requestsToSend == [] || !i.toGPU) && (s.d.toSendToMMU.None? || !i.toMMU)
    && (s.d.copiesToSend == [] || s.d.migratingOnePage || !i.copy)
    && i.middleware == [] && !i.busy && i.commands == []
  }

  /** A tick reports no progress exactly if nothing was sent or taken up, or all it did was to take a shootdown
      response that was not the last one. */
  lemma QuietTick(s: System, i: Input, patient: bool)
    requires Reachable(s, patient) && OrderOk(s, i)
    ensures !Progress(s, i, patient) <==>
              NothingElse(s, i) && (Silent(s) || (s.gpuIn == [] && (s.d.handling || s.mmuIn == [])))
    ensures !Progress(s, i, patient) ==>
              if s.gpuIn == [] then Tick(s, i, patient) == s
              else CanProcess(s, i.order) && Tick(s, i, patient) == ProcessStep(s, i.order)
  {
    hide Reachable;
    CanAlwaysProcess(s, i, patient);
    if NothingElse(s, i) || !Progress(s, i, patient) {
      assert Sent1(s, i, patient) == s && Sent2(s, i, patient) == s && Sent3(s, i, patient) == s;
      assert Offered(s, i, patient) == s;
      if s.gpuIn == [] || Silent(s) || !Progress(s, i, patient) {
        assert Taken(s, i, patient) == s;
        assert Commanded(s, i, patient) == Returned(s, i, patient);
        if s.gpuIn != [] {
          ProcessSameRequest(s, i.order);
          SilentStep(s, i.order);
        }
      }
    }
  }

  lemma SilentStep(s: System, order: seq<nat>)
    requires CanProcess(s, order) && Silent(s)
    ensures ProcessStep(s, order) == s.(d := s.d.(shootDownACK := Dec(s.d.shootDownACK)), gpuIn := s.gpuIn[1..])
  {
  }

  /* ----- Cycles ----- */

  /** The system with the tick events of the driver: one in this cycle (`now`), one in the next. A port that refused a
      message owes a notification. Of the history: `slept`, the driver's last tick only took a shootdown response, left
      another response behind and nobody asked for a tick since; `arrived`, a response was delivered in this cycle. */
  datatype Timed = Timed(s: System, now: bool, next: bool, fullGPU: bool, fullMMU: bool, slept: bool, arrived: bool)

  datatype Event =
    | DriverTick(i: Input)
    | NextCycle
    | Deliver(k: nat)
    | FromMMU(req: MigrationReq)
    | FreeGPU
    | FreeMMU
    | Wake

  ghost predicate Possible(t: Timed, e: Event, patient: bool) {
    match e
    case DriverTick(i) => t.now && OrderOk(t.s, i)
    case NextCycle => !t.now && t.next
    case Deliver(k) => k < |t.s.outstanding|
    case FromMMU(req) => Enabled(t.s, Ask(req), patient)
    case FreeGPU => t.fullGPU
    case FreeMMU => t.fullMMU
    case Wake => true
  }

  predicate RefusedGPU(s: System, i: Input) {
    || (s.d.requestsToSend != [] && !i.toGPU)
    || (s.d.copiesToSend != [] && !s.d.migratingOnePage && !i.copy)
  }

  predicate RefusedMMU(s: System, i: Input) {
    s.d.toSendToMMU.Some? && !i.toMMU
  }

  /** The tick that loses a wake-up: it takes a shootdown response, not the last one, while another response lies
      behind it, and does nothing else. */
  predicate LosesWake(s: System, i: Input) {
    Silent(s) && |s.gpuIn| > 1 && NothingElse(s, i)
  }

  ghost function After(t: Timed, e: Event, patient: bool): Timed
    requires Possible(t, e, patient)
  {
    match e
    case DriverTick(i) =>
      t.(s := Tick(t.s, i, patient), now := false, next := t.next || Progress(t.s, i, patient),
         fullGPU := t.fullGPU || RefusedGPU(t.s, i), fullMMU := t.fullMMU || RefusedMMU(t.s, i),
         slept := !t.next && LosesWake(t.s, i))
    case NextCycle => t.(now := true, next := false, arrived := false)
    case Deliver(k) => t.(s := Step(t.s, Answer(k), patient), next := true, slept := false, arrived := true)
    case FromMMU(req) => t.(s := Step(t.s, Ask(req), patient), next := true, slept := false)
    case FreeGPU => t.(fullGPU := false, next := true, slept := false)
    case FreeMMU => t.(fullMMU := false, next := true, slept := false)
    case Wake => t.(next := true, slept := false)
  }

  ghost predicate Start(t: Timed) {
    Init(t.s) && !t.now && !t.next && !t.fullGPU && !t.fullMMU && !t.slept && !t.arrived
  }

  /** A condition on the events of a run. */
  datatype Rule = Any | OnePerCycle

  /** OnePerCycle: at most one response is delivered to the driver in a cycle. */
  predicate Allowed(t: Timed, e: Event, rule: Rule) {
    rule.OnePerCycle? && e.Deliver? ==> !t.arrived
  }

  ghost predicate TimedRuns(t: Timed, es: seq<Event>, rule: Rule, patient: bool)
    decreases |es|
  {
    es == [] || (Possible(t, es[0], patient) && Allowed(t, es[0], rule)
                 && TimedRuns(After(t, es[0], patient), es[1..], rule, patient))
  }

  ghost function Last(t: Timed, es: seq<Event>, rule: Rule, patient: bool): Timed
    requires TimedRuns(t, es, rule, patient)
    decreases |es|
  {
    if es == [] then t else Last(After(t, es[0], patient), es[1..], rule, patient)
  }

  ghost predicate TimedReachable(t: Timed, rule: Rule, patient: bool) {
    exists t0, es :: Start(t0) && TimedRuns(t0, es, rule, patient) && Last(t0, es, rule, patient) == t
  }

  predicate Asleep(t: Timed) {
    !t.now && !t.next
  }

  /* ----- What every run keeps ----- */

  ghost predicate SleepOk(t: Timed) {
    && (t.slept ==>
          && Asleep(t) && t.s.gpuIn != [] && t.s.d.handling && t.s.d.current.Some?
          && |t.s.d.current.value.accessing| > 1 && t.s.d.shootDownACK > 0)
    && (Asleep(t) ==>
          && (t.s.d.requestsToSend == [] || t.fullGPU) && (t.s.d.toSendToMMU.None? || t.fullMMU)
          && (t.s.d.copiesToSend == [] || t.s.d.migratingOnePage || t.fullGPU)
          && (t.s.gpuIn == [] || t.slept) && (t.s.mmuIn == [] || t.s.d.handling))
  }

  ghost predicate TimedInv(t: Timed, patient: bool) {
    Reachable(t.s, patient) && SleepOk(t)
  }

  lemma TickSleeps(t: Timed, i: Input, patient: bool)
    requires TimedInv(t, patient) && Possible(t, DriverTick(i), patient)
    ensures SleepOk(After(t, DriverTick(i), patient))
  {
    hide Reachable;
    hide Tick;
    hide Progress;
    QuietTick(t.s, i, patient);
    CanAlwaysProcess(t.s, i, patient);
    if !Progress(t.s, i, patient) && t.s.gpuIn != [] {
      SilentStep(t.s, i.order);
    }
  }

  lemma EventKeeps(t: Timed, e: Event, patient: bool)
    requires TimedInv(t, patient) && Possible(t, e, patient)
    ensures TimedInv(After(t, e, patient), patient)
  {
    hide Reachable;
    hide Tick;
    hide Progress;
    match e
    case DriverTick(i) => TickSleeps(t, i, patient); TickReaches(t.s, i, patient);
    case Deliver(k) => ReachableStep(t.s, Answer(k), patient);
    case FromMMU(req) => ReachableStep(t.s, Ask(req), patient);
    case _ =>
  }
}
