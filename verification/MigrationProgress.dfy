/** How much work a migration is, what every step takes off it, and what an empty list does to it. Here the driver
    is always awake; MigrationWake is about its sleep. */
module MigrationProgress {
  import opened Wrappers
  import opened MigrationModel
  import opened MigrationRuns
  import opened MigrationResults

  /* ----- The work of a migration ----- */

  /** Steps from the last copy to the end: each request is sent, answered and its response is processed. */
  function RestartCost(req: MigrationReq, n: nat): nat {
    3 * |req.accessing| + 3 * n
  }

  /** Steps from the last shootdown response to the end, one of them for the reply to the MMU. */
  function PagesCost(req: MigrationReq, n: nat): nat {
    if PagesOf(req, n) == [] then 0 else 3 * |PagesOf(req, n)| + 1 + RestartCost(req, n)
  }

  /** Steps from the last drain response to the end. */
  function ShootCost(req: MigrationReq, n: nat): nat {
    if req.accessing == [] then 0 else 3 * |req.accessing| + PagesCost(req, n)
  }

  /** Steps of a migration from taking up its request to its end. */
  function Cost(req: MigrationReq, n: nat): nat {
    1 + 3 * n + (if n == 0 then 0 else ShootCost(req, n))
  }

  /** Work of the current migration for which no request exists yet. */
  function Ahead(d: Driver): nat {
    if d.current.None? then 0
    else
      var req := d.current.value;
      match PhaseOf(d)
      case Draining => ShootCost(req, d.numGPUs)
      case ShootingDown => PagesCost(req, d.numGPUs)
      case Copying => 1 + RestartCost(req, d.numGPUs)
      case Restarting => 3 * d.numGPUs
      case _ => 0
  }

  function QueueCost(reqs: seq<MigrationReq>, n: nat): nat {
    if reqs == [] then 0 else Cost(reqs[0], n) + QueueCost(reqs[1..], n)
  }

  /** Work to be done for the messages that are somewhere in the system. */
  function Moving(s: System): nat {
    3 * |s.d.requestsToSend| + 3 * |s.d.copiesToSend| + 2 * |s.outstanding| + |s.gpuIn| + |Waiting(s.d)|
  }

  /** All the work that is left. */
  function Work(s: System): nat {
    Moving(s) + Ahead(s.d) + QueueCost(s.mmuIn, s.d.numGPUs)
  }

  lemma {:induction false} QueueCostPush(reqs: seq<MigrationReq>, req: MigrationReq, n: nat)
    ensures QueueCost(reqs + [req], n) == QueueCost(reqs, n) + Cost(req, n)
  {
    hide Cost;
    if reqs == [] {
      ConcatNil([req]);
      assert [req][1..] == [];
    } else {
      QueueCostPush(reqs[1..], req, n);
      TailOfConcat(reqs, [req]);
    }
  }

  /** A step of the driver or of a GPU, which works on what is there already. */
  predicate Advances(a: Action) {
    !a.LaunchKernel? && !a.Ask?
  }

  /** Work that comes from outside with an action. */
  function Added(a: Action, n: nat): nat {
    match a
    case LaunchKernel(_) => 3
    case Ask(req) => Cost(req, n)
    case _ => 0
  }

  /* ----- Every step takes one off ----- */

  lemma CopiesAhead(s: System, order: seq<nat>)
    requires CanProcess(s, order) && Books(s) && s.gpuIn[0].ShootDown? && s.d.shootDownACK == 1
    ensures var d' := ProcessStep(s, order).d;
            && |d'.copiesToSend| == |s.d.copiesToSend| + |PagesOf(s.d.current.value, s.d.numGPUs)|
            && d'.requestsToSend == s.d.requestsToSend
               && d'.pagesACK == s.d.pagesACK + |PagesOf(s.d.current.value, s.d.numGPUs)|
            && d'.shootDownACK == 0 && d'.drainACK == s.d.drainACK
  {
    hide AllCounted;
    hide PagesCounted;
    hide PhaseOk;
    hide KnownRequest;
    hide PagesIn;
    hide PagesOf;
    hide CopyAll;
    var req := s.d.current.value;
    VisitsAllPages(req, s.d.numGPUs, order);
    var d1 := s.d.(shootDownACK := 0);
    CopyAllFacts(d1, req, order, CopyK);
    OnlyCopies(s.d.copiesToSend);
    OnlyCopies(CopyAll(d1, req, order).copiesToSend);
  }

  lemma OnlyCopies(rs: seq<Request>)
    requires AllCopies(rs)
    ensures Count(rs, CopyK) == |rs|
  {
    CountAlike(rs, CopyK, 1);
  }

  /** A response: its own step is taken off, and what it starts was counted ahead. */
  lemma ProcessWork(s: System, order: seq<nat>)
    requires CanProcess(s, order) && Books(s)
    ensures Work(ProcessStep(s, order)) + 1 + (ProcessStep(s, order).lost - s.lost) == Work(s)
  {
    hide Books;
    hide CopyReady;
    hide ProcessStep;
    hide Work;
    match s.gpuIn[0]
    case Drain(_) => DrainWork(s, order);
    case ShootDown(_, _) => ShootDownWork(s, order);
    case Copy(_, _, _, _) => CopyWork(s, order);
    case Restart(_) => RestartWork(s, order);
    case _ => RdmaWork(s, order);
  }

  lemma DrainWork(s: System, order: seq<nat>)
    requires CanProcess(s, order) && Books(s) && s.gpuIn[0].Drain?
    ensures Work(ProcessStep(s, order)) + 1 == Work(s) && ProcessStep(s, order).lost == s.lost
  {
    hide OneCopy;
    hide PagesCounted;
    hide KnownRequest;
    hide PagesIn;
    hide PagesOf;
    hide QueueCost;
    hide AllCounted;
    AckPositive(s, DrainK);
  }

  lemma CopyWork(s: System, order: seq<nat>)
    requires CanProcess(s, order) && Books(s) && s.gpuIn[0].Copy?
    ensures Work(ProcessStep(s, order)) + 1 + (ProcessStep(s, order).lost - s.lost) == Work(s)
  {
    hide OneCopy;
    hide PagesCounted;
    hide KnownRequest;
    hide PagesIn;
    hide PagesOf;
    hide QueueCost;
    hide AllCounted;
    AckPositive(s, CopyK);
  }

  lemma RestartWork(s: System, order: seq<nat>)
    requires CanProcess(s, order) && Books(s) && s.gpuIn[0].Restart?
    ensures Work(ProcessStep(s, order)) + 1 == Work(s) && ProcessStep(s, order).lost == s.lost
  {
    hide OneCopy;
    hide PagesCounted;
    hide KnownRequest;
    hide PagesIn;
    hide PagesOf;
    hide QueueCost;
    hide AllCounted;
    AckPositive(s, RestartK);
  }

  lemma RdmaWork(s: System, order: seq<nat>)
    requires CanProcess(s, order) && Books(s) && (s.gpuIn[0].RdmaRestart? || s.gpuIn[0].Launch?)
    ensures Work(ProcessStep(s, order)) + 1 == Work(s) && ProcessStep(s, order).lost == s.lost
  {
    hide OneCopy;
    hide PagesCounted;
    hide KnownRequest;
    hide PagesIn;
    hide PagesOf;
    hide QueueCost;
    hide AllCounted;
    if s.gpuIn[0].RdmaRestart? {
      AckPositive(s, RdmaK);
    }
  }

  lemma ShootDownWork(s: System, order: seq<nat>)
    requires CanProcess(s, order) && Books(s) && s.gpuIn[0].ShootDown?
    ensures Work(ProcessStep(s, order)) + 1 == Work(s) && ProcessStep(s, order).lost == s.lost
  {
    hide OneCopy;
    hide PagesCounted;
    hide KnownRequest;
    hide PagesIn;
    hide PagesOf;
    hide QueueCost;
    hide AllCounted;
    AckPositive(s, ShootK);
    ShootDownPhase(s, order);
    ProcessFrame(s, order);
    if s.d.shootDownACK == 1 {
      CopiesAhead(s, order);
    }
  }

  /** Every step of driver or GPUs takes exactly one off the work; a reply that is overwritten is one less to send. */
  lemma StepWork(s: System, a: Action, patient: bool)
    requires Books(s) && Enabled(s, a, patient)
    ensures var s' := Step(s, a, patient);
            Work(s') + (if Advances(a) then 1 else 0) + (s'.lost - s.lost) == Work(s) + Added(a, s.d.numGPUs)
  {
    hide Books;
    hide KnownRequest;
    hide PagesOf;
    hide CanProcess;
    hide ProcessStep;
    hide ParseStep;
    hide PagesCost;
    hide RestartCost;
    hide ShootCost;
    hide Cost;
    match a
    case ProcessReturn(order) => ProcessWork(s, order);
    case ParseFromMMU => ParseWork(s);
    case Ask(req) => QueueCostPush(s.mmuIn, req, s.d.numGPUs);
    case _ =>
  }

  lemma ParseWork(s: System)
    requires Books(s) && !s.d.handling && s.mmuIn != []
    ensures Work(ParseStep(s)) + 1 == Work(s) && ParseStep(s).lost == s.lost
  {
    hide OneCopy;
    hide PagesCounted;
    hide AllCounted;
    hide PagesOf;
  }

  function Advancing(acts: seq<Action>): nat {
    if acts == [] then 0 else (if Advances(acts[0]) then 1 else 0) + Advancing(acts[1..])
  }

  function AllAdded(acts: seq<Action>, n: nat): nat {
    if acts == [] then 0 else Added(acts[0], n) + AllAdded(acts[1..], n)
  }

  /** Over every run: the steps made and the work left are the work at the start and the work that came in. Every
      migration therefore takes Cost steps, no more and, unless a reply is lost, no less. */
  lemma {:induction false} RunWork(s: System, acts: seq<Action>, patient: bool)
    requires Inv(s, patient) && Runs(s, acts, patient)
    ensures var s' := Final(s, acts, patient);
            Work(s') + Advancing(acts) + (s'.lost - s.lost) == Work(s) + AllAdded(acts, s.d.numGPUs)
    decreases |acts|
  {
    hide Inv;
    hide Work;
    hide Added;
    hide Advances;
    if acts != [] {
      StepKeeps(s, acts[0], patient);
      InvBooks(s, patient);
      StepWork(s, acts[0], patient);
      SameGPUs(s, acts[0], patient);
      RunWork(Step(s, acts[0], patient), acts[1..], patient);
    }
  }

  lemma InvBooks(s: System, patient: bool)
    requires Inv(s, patient)
    ensures Books(s)
  {
  }

  lemma SameGPUs(s: System, a: Action, patient: bool)
    requires Enabled(s, a, patient)
    ensures Step(s, a, patient).d.numGPUs == s.d.numGPUs
  {
    hide KnownRequest;
    if a.ProcessReturn? {
      ProcessFrame(s, a.order);
    }
  }

  /* ----- Empty lists ----- */

  /** Taking up a request with no GPU in the system, the last drain response with no accessing GPU, and the last
      shootdown response with no page, are exactly the steps after which no counter waits for anything. */
  lemma EmptyListsHang(d: Driver, req: MigrationReq, order: seq<nat>)
    ensures PhaseOk(d) && !d.handling ==> (PhaseOf(Accept(d, req)).Stuck? <==> d.numGPUs == 0)
    ensures HasCurrent(d) && PhaseOf(d).Draining? && d.drainACK == 1 &&
            d.shootDownACK == d.pagesACK == d.restartACK == d.rdmaRestartACK == 0 ==>
              (PhaseOf(DrainDone(d)).Stuck? <==> d.current.value.accessing == [])
    ensures CopyReady(d, order) && PhaseOf(d).ShootingDown? && d.shootDownACK == 1 &&
            d.pagesACK == d.restartACK == d.rdmaRestartACK == 0 ==>
              (PhaseOf(ShootDownDone(d, order)).Stuck? <==> PagesOf(d.current.value, d.numGPUs) == [])
  {
    if CopyReady(d, order) && PhaseOf(d).ShootingDown? && d.shootDownACK == 1 {
      VisitsAllPages(d.current.value, d.numGPUs, order);
      CopyAllFacts(d.(shootDownACK := 0), d.current.value, order, CopyK);
    }
  }

  /** Nothing is left that could end the migration. */
  ghost predicate Hung(s: System) {
    PhaseOf(s.d).Stuck? && forall k: Kind :: !k.PageK? ==> Total(s, k) == 0
  }

  lemma StuckIsHung(s: System)
    requires Books(s) && PhaseOf(s.d).Stuck?
    ensures Hung(s)
  {
    forall k: Kind | !k.PageK? ensures Total(s, k) == 0 {
      OnePhase(s, k);
    }
  }

  /** A hung migration stays hung, and no other is taken up. */
  lemma {:induction false} HungForever(s: System, acts: seq<Action>, patient: bool)
    requires Hung(s) && Runs(s, acts, patient)
    ensures Hung(Final(s, acts, patient)) && Final(s, acts, patient).accepted == s.accepted
    decreases |acts|
  {
    if acts != [] {
      HungStep(s, acts[0], patient);
      hide Hung;
      hide Step;
      HungForever(Step(s, acts[0], patient), acts[1..], patient);
    }
  }

  lemma HungStep(s: System, a: Action, patient: bool)
    requires Hung(s) && Enabled(s, a, patient)
    ensures Hung(Step(s, a, patient)) && Step(s, a, patient).accepted == s.accepted
  {
    hide KnownRequest;
    hide CopyReady;
    var s' := Step(s, a, patient);
    if a.ProcessReturn? {
      HungHead(s);
    }
    assert s'.d.handling && PhaseOf(s'.d).Stuck?;
    forall k: Kind | !k.PageK? ensures Total(s', k) == 0 {
      assert Total(s, k) == 0;
      match a
      case SendToGPU => CountPush(s.outstanding, s.d.requestsToSend[0], k);
      case SendCopy => CountPush(s.outstanding, s.d.copiesToSend[0], k);
      case LaunchKernel(id) => CountPush(s.d.requestsToSend, Launch(id), k);
      case Answer(i) => CountPush(s.gpuIn, s.outstanding[i], k); CountRemove(s.outstanding, i, k);
      case _ =>
    }
  }

  lemma HungHead(s: System)
    requires Hung(s) && s.gpuIn != []
    ensures s.gpuIn[0].Launch?
  {
    if !s.gpuIn[0].Launch? {
      HeadCounted(s, KindOfRequest(s.gpuIn[0]));
    }
  }

  function KindOfRequest(r: Request): Kind {
    match r
    case Drain(_) => DrainK
    case ShootDown(_, _) => ShootK
    case Copy(_, _, _, _) => CopyK
    case Restart(_) => RestartK
    case _ => RdmaK
  }

  lemma HeadCounted(s: System, k: Kind)
    requires s.gpuIn != [] && Is(s.gpuIn[0], k)
    ensures Total(s, k) > 0
  {
  }

  predicate NoParse(acts: seq<Action>) {
    forall a :: a in acts ==> !a.ParseFromMMU?
  }

  /** From d to d' no other migration started. */
  ghost predicate Same(d: Driver, d': Driver) {
    d'.numGPUs == d.numGPUs && (d'.handling ==> d.handling && d'.current == d.current)
  }

  lemma SameRequest(s: System, a: Action, patient: bool)
    requires Enabled(s, a, patient) && !a.ParseFromMMU?
    ensures Same(s.d, Step(s, a, patient).d)
  {
    hide KnownRequest;
    hide CanProcess;
    hide ProcessStep;
    hide ParseStep;
    if a.ProcessReturn? {
      ProcessSameRequest(s, a.order);
    }
  }

  lemma ProcessSameRequest(s: System, order: seq<nat>)
    requires CanProcess(s, order)
    ensures Same(s.d, ProcessStep(s, order).d)
  {
    hide KnownRequest;
    hide PagesIn;
    hide PagesOf;
    hide CopyAll;
    hide CopyReady;
    if s.gpuIn[0].ShootDown? {
      ReadyVisits(s.d, order);
      CopyAllFacts(s.d.(shootDownACK := 0), s.d.current.value, order, CopyK);
    }
  }

  lemma {:induction false} RunSameRequest(s: System, acts: seq<Action>, patient: bool)
    requires Runs(s, acts, patient) && NoParse(acts)
    ensures Same(s.d, Final(s, acts, patient).d)
    decreases |acts|
  {
    hide Enabled;
    hide Step;
    if acts != [] {
      assert acts[0] in acts;
      SameRequest(s, acts[0], patient);
      RunSameRequest(Step(s, acts[0], patient), acts[1..], patient);
    }
  }

  /** Until a migration is over or hung, the driver or a GPU can work on it. */
  lemma SomeMove(s: System, patient: bool) returns (a: Action)
    requires Books(s) && s.d.handling && !PhaseOf(s.d).Stuck?
    ensures Enabled(s, a, patient) && Advances(a) && !a.ParseFromMMU?
  {
    var k := KindOf(PhaseOf(s.d));
    OnePhase(s, k);
    if s.d.requestsToSend != [] {
      a := SendToGPU;
    } else if s.outstanding != [] {
      a := Answer(0);
    } else if s.gpuIn != [] {
      a := ProcessReturn(Requesting(s.d.current.value, s.d.numGPUs));
    } else {
      a := SendCopy;
    }
  }

  /** A migration with an empty list does not end. */
  lemma EmptyGoesOn(s: System, a: Action, patient: bool)
    requires Inv(s, patient) && Enabled(s, a, patient)
    requires s.d.handling && EmptyRequest(s.d.current.value, s.d.numGPUs)
    ensures Step(s, a, patient).d.handling
  {
    hide KnownRequest;
    hide AllCounted;
    hide OneCopy;
    hide PagesCounted;
    if a.ProcessReturn? {
      ProcessBooks(s, a.order);
      ProcessPhase(s, a.order);
      InvBooks(s, patient);
    }
  }

  lemma EmptyMoves(s: System, patient: bool) returns (a: Action)
    requires Inv(s, patient) && s.d.handling && EmptyRequest(s.d.current.value, s.d.numGPUs) && !PhaseOf(s.d).Stuck?
    ensures Enabled(s, a, patient) && !a.ParseFromMMU?
    ensures var s' := Step(s, a, patient);
            && Inv(s', patient) && Work(s') < Work(s) && s'.d.handling && s'.d.current == s.d.current
            && s'.d.numGPUs == s.d.numGPUs
  {
    InvBooks(s, patient);
    a := SomeMove(s, patient);
    EmptyGoesOn(s, a, patient);
    hide Inv;
    hide Work;
    hide Books;
    hide PhaseOf;
    hide Enabled;
    hide Step;
    hide EmptyRequest;
    SameRequest(s, a, patient);
    StepKeeps(s, a, patient);
    StepWork(s, a, patient);
    LostGrows(s, a, patient);
  }

  lemma LostGrows(s: System, a: Action, patient: bool)
    requires Enabled(s, a, patient)
    ensures Step(s, a, patient).lost >= s.lost
  {
    hide KnownRequest;
    hide PagesIn;
  }

  lemma {:induction false} DrivenToHung(s: System, patient: bool) returns (acts: seq<Action>)
    requires Inv(s, patient) && s.d.handling && EmptyRequest(s.d.current.value, s.d.numGPUs)
    ensures Runs(s, acts, patient) && NoParse(acts) && Hung(Final(s, acts, patient))
    decreases Work(s)
  {
    hide Work;
    hide Enabled;
    hide Step;
    hide EmptyRequest;
    InvBooks(s, patient);
    if PhaseOf(s.d).Stuck? {
      StuckIsHung(s);
      acts := [];
    } else {
      var a := EmptyMoves(s, patient);
      hide Inv;
      hide Books;
      hide PhaseOf;
      var rest := DrivenToHung(Step(s, a, patient), patient);
      acts := [a] + rest;
      assert acts[1..] == rest;
    }
  }

  /** A migration can hang exactly if one of its lists is empty; then it also never ends. */
  lemma HangsIffEmpty(s: System, patient: bool)
    requires Reachable(s, patient) && s.d.handling
    ensures s.d.current.Some?
    ensures (exists acts :: NoParse(acts) && Runs(s, acts, patient) && Hung(Final(s, acts, patient)))
            <==> EmptyRequest(s.d.current.value, s.d.numGPUs)
  {
    ReachableInv(s, patient);
    if acts :| NoParse(acts) && Runs(s, acts, patient) && Hung(Final(s, acts, patient)) {
      RunSameRequest(s, acts, patient);
      RunKeeps(s, acts, patient);
    }
    if EmptyRequest(s.d.current.value, s.d.numGPUs) {
      var acts := DrivenToHung(s, patient);
    }
  }

  /** From the initial state, any request with an empty list leads there. */
  lemma EmptyRequestHangs(s: System, req: MigrationReq, patient: bool) returns (acts: seq<Action>)
    requires Init(s) && KnownRequest(req, s.d.numGPUs, s.d.pageTable) && EmptyRequest(req, s.d.numGPUs)
    ensures Runs(s, acts, patient) && Hung(Final(s, acts, patient)) && Final(s, acts, patient).accepted == [req]
  {
    InitHolds(s, patient);
    var s1 := Step(s, Ask(req), patient);
    StepKeeps(s, Ask(req), patient);
    var s2 := Step(s1, ParseFromMMU, patient);
    StepKeeps(s1, ParseFromMMU, patient);
    hide Inv;
    var rest := DrivenToHung(s2, patient);
    RunAccepts(s2, rest, patient);
    acts := [Ask(req), ParseFromMMU] + rest;
    assert acts[1..][1..] == rest;
  }

  lemma {:induction false} RunAccepts(s: System, acts: seq<Action>, patient: bool)
    requires Runs(s, acts, patient) && NoParse(acts)
    ensures Final(s, acts, patient).accepted == s.accepted
    decreases |acts|
  {
    hide Enabled;
    hide Step;
    if acts != [] {
      assert acts[0] in acts;
      StepAccepts(s, acts[0], patient);
      RunAccepts(Step(s, acts[0], patient), acts[1..], patient);
    }
  }

  lemma StepAccepts(s: System, a: Action, patient: bool)
    requires Enabled(s, a, patient) && !a.ParseFromMMU?
    ensures Step(s, a, patient).accepted == s.accepted
  {
    hide KnownRequest;
    hide PagesIn;
  }

  /** For example, a request for page 7 that names no accessing GPU. */
  lemma NoAccessingGPUHangs() returns (s: System, acts: seq<Action>)
    ensures Init(s) && Runs(s, acts, true) && Hung(Final(s, acts, true))
    ensures Final(s, acts, true).accepted == [MigrationReq([], map[1 := [7]], true)]
  {
    var d := Driver(1, [], None, None, [], false, 0, 0, 0, 0, 0, false, map[7 := Page(0, 0, false)], 1);
    s := System(d, [], [], [], [], [], [], multiset{}, 0);
    var req := MigrationReq([], map[1 := [7]], true);
    assert Requesting(req, 0) == [];
    assert Requesting(req, 1) == [0];
    assert PagesIn(req, [0][1..]) == [];
    assert PagesOf(req, 1) == [7];
    hide PagesOf;
    acts := EmptyRequestHangs(s, req, true);
  }
}
