/** The page-migration protocol of mgpusim/driver/driver.go on values: drain, shootdown, copy, GPU restart, RDMA
    restart, each phase ended by its acknowledgement counter. GPUs are numbered from 0, as in the GPUs list; the
    identifiers in a migration request are one higher. */
module MigrationModel {
  import opened Wrappers

  const WRAP: nat := 0x1_0000_0000_0000_0000

  /** What the driver sends to GPUs. A response names the request it answers. */
  datatype Request =
    | Drain(gpu: int)
    | ShootDown(gpu: int, vAddrs: seq<nat>)
    | Copy(gpu: int, vAddr: nat, from: nat, to: nat)
    | Restart(gpu: int)
    | RdmaRestart(gpu: int)
    | Launch(id: nat)

  /** PageMigrationReqToDriver. `pages` is GPUReqToVAddrMap. */
  datatype MigrationReq = MigrationReq(accessing: seq<int>, pages: map<nat, seq<nat>>, respondToTop: bool)

  datatype Reply = Reply(vAddrs: seq<nat>, rspToTop: bool)

  datatype Page = Page(pAddr: nat, device: int, isMigrating: bool)

  /** The fields of Driver that take part. `pageTable` is the migrating process's, `nextFrame` the allocator's next
      fresh physical page. */
  datatype Driver = Driver(
    numGPUs: nat,
    requestsToSend: seq<Request>,
    current: Option<MigrationReq>,
    toSendToMMU: Option<Reply>,
    copiesToSend: seq<Request>,
    handling: bool,
    drainACK: nat,
    shootDownACK: nat,
    pagesACK: nat,
    restartACK: nat,
    rdmaRestartACK: nat,
    migratingOnePage: bool,
    pageTable: map<nat, Page>,
    nextFrame: nat
  )

  /** uint64 decrement. */
  function Dec(n: nat): nat {
    if n == 0 then WRAP - 1 else n - 1
  }

  function Drains(n: nat): (r: seq<Request>)
    ensures |r| == n && forall i :: 0 <= i < n ==> r[i] == Drain(i)
  {
    seq(n, i => Drain(i))
  }

  function RdmaRestarts(n: nat): (r: seq<Request>)
    ensures |r| == n && forall i :: 0 <= i < n ==> r[i] == RdmaRestart(i)
  {
    seq(n, i => RdmaRestart(i))
  }

  function ShootDowns(accessing: seq<int>, vAddrs: seq<nat>): (r: seq<Request>)
    ensures |r| == |accessing| && forall i :: 0 <= i < |accessing| ==> r[i] == ShootDown(accessing[i] - 1, vAddrs)
  {
    seq(|accessing|, i requires 0 <= i < |accessing| => ShootDown(accessing[i] - 1, vAddrs))
  }

  function Restarts(accessing: seq<int>): (r: seq<Request>)
    ensures |r| == |accessing| && forall i :: 0 <= i < |accessing| ==> r[i] == Restart(accessing[i] - 1)
  {
    seq(|accessing|, i requires 0 <= i < |accessing| => Restart(accessing[i] - 1))
  }

  /** findRequestingGPUs: the GPUs among the first n that pages are migrated to. */
  function Requesting(req: MigrationReq, n: nat): seq<nat> {
    if n == 0 then [] else Requesting(req, n - 1) + (if n in req.pages then [n - 1] else [])
  }

  /** A missing key of a Go map reads as the empty list. */
  function PagesFor(req: MigrationReq, gpu: nat): seq<nat> {
    if gpu + 1 in req.pages then req.pages[gpu + 1] else []
  }

  /** The pages of the GPUs in `order`. */
  function PagesIn(req: MigrationReq, order: seq<nat>): seq<nat> {
    if order == [] then [] else PagesFor(req, order[0]) + PagesIn(req, order[1..])
  }

  /** The pages to migrate: those of known GPUs, in GPU order. */
  function PagesOf(req: MigrationReq, n: nat): seq<nat> {
    PagesIn(req, Requesting(req, n))
  }

  /** Accessing GPUs are GPUs of the system and pages are mapped; otherwise the source panics. */
  ghost predicate KnownRequest(req: MigrationReq, n: nat, pageTable: map<nat, Page>) {
    && (forall g :: g in req.accessing ==> 0 < g <= n)
    && (forall v :: v in PagesOf(req, n) ==> v in pageTable)
  }

  /** No GPU to shoot down or no page to copy. With no GPU in the system every known request is empty. */
  predicate EmptyRequest(req: MigrationReq, n: nat) {
    req.accessing == [] || PagesOf(req, n) == []
  }

  /** An order in which Go's map iteration may visit the requesting GPUs. */
  ghost predicate VisitOrder(req: MigrationReq, n: nat, order: seq<nat>) {
    multiset(order) == multiset(Requesting(req, n))
  }

  /* ----- Handlers ----- */

  /** parseFromMMU and initiateRDMADrain. */
  function Accept(d: Driver, req: MigrationReq): Driver {
    d.(current := Some(req), handling := true, requestsToSend := d.requestsToSend + Drains(d.numGPUs),
        drainACK := d.drainACK + d.numGPUs)
  }

  ghost predicate HasCurrent(d: Driver) {
    d.current.Some? && forall g :: g in d.current.value.accessing ==> 0 < g <= d.numGPUs
  }

  /** processRDMADrainRsp and sendShootDownReqs. */
  function DrainDone(d: Driver): Driver
    requires HasCurrent(d)
  {
    var d1 := d.(drainACK := Dec(d.drainACK));
    if d1.drainACK != 0 then d1
    else
      var req := d.current.value;
      d1.(shootDownACK := |req.accessing|,
          requestsToSend := d.requestsToSend + ShootDowns(req.accessing, PagesOf(req, d.numGPUs)))
  }

  /** preparePageForMigration and the copy request built from it. */
  function CopyPage(d: Driver, gpu: nat, v: nat): Driver
    requires v in d.pageTable
  {
    d.(copiesToSend := d.copiesToSend + [Copy(gpu, v, d.pageTable[v].pAddr, d.nextFrame)], pagesACK := d.pagesACK + 1,
       pageTable := d.pageTable[v := Page(d.nextFrame, gpu + 1, true)], nextFrame := d.nextFrame + 1)
  }

  function CopyList(d: Driver, gpu: nat, vs: seq<nat>): (d': Driver)
    requires forall v :: v in vs ==> v in d.pageTable
    ensures d'.pageTable.Keys == d.pageTable.Keys && d.copiesToSend <= d'.copiesToSend
    decreases |vs|
  {
    if vs == [] then d else CopyList(CopyPage(d, gpu, vs[0]), gpu, vs[1..])
  }

  function CopyAll(d: Driver, req: MigrationReq, order: seq<nat>): (d': Driver)
    requires forall v :: v in PagesIn(req, order) ==> v in d.pageTable
    ensures d'.pageTable.Keys == d.pageTable.Keys && d.copiesToSend <= d'.copiesToSend
    decreases |order|
  {
    if order == [] then d else CopyAll(CopyList(d, order[0], PagesFor(req, order[0])), req, order[1..])
  }

  lemma {:induction false} BagOfPages(req: MigrationReq, a: seq<nat>, i: nat)
    requires i < |a|
    ensures multiset(PagesIn(req, a)) == multiset(PagesFor(req, a[i])) + multiset(PagesIn(req, a[..i] + a[i + 1..]))
  {
    hide PagesFor;
    if i == 0 {
      assert a[..0] + a[1..] == a[1..];
    } else {
      var rest := a[..i] + a[i + 1..];
      BagOfPages(req, a[1..], i - 1);
      assert rest[1..] == a[1..][..i - 1] + a[1..][i..];
      assert PagesIn(req, rest) == PagesFor(req, a[0]) + PagesIn(req, rest[1..]);
    }
  }

  /** The order of visits does not change which pages are visited. */
  lemma {:induction false} PagesInAnyOrder(req: MigrationReq, a: seq<nat>, b: seq<nat>)
    requires multiset(a) == multiset(b)
    ensures multiset(PagesIn(req, a)) == multiset(PagesIn(req, b))
    decreases |a|
  {
    hide PagesFor;
    if a == [] {
      assert |multiset(b)| == 0;
    } else {
      var i := MatchFirst(a, b);
      var b' := b[..i] + b[i + 1..];
      PagesInAnyOrder(req, a[1..], b');
      BagOfPages(req, b, i);
    }
  }

  lemma MatchFirst(a: seq<nat>, b: seq<nat>) returns (i: nat)
    requires multiset(a) == multiset(b) && a != []
    ensures i < |b| && b[i] == a[0] && multiset(a[1..]) == multiset(b[..i] + b[i + 1..])
  {
    assert a[0] in multiset(b);
    i :| 0 <= i < |b| && b[i] == a[0];
    assert b == b[..i] + [b[i]] + b[i + 1..];
    assert a == [a[0]] + a[1..];
    assert multiset(b) == multiset(b[..i] + b[i + 1..]) + multiset{a[0]};
    TakeOne(multiset(a[1..]), multiset(b[..i] + b[i + 1..]), a[0]);
  }

  lemma TakeOne(a: multiset<nat>, b: multiset<nat>, x: nat)
    requires multiset{x} + a == b + multiset{x}
    ensures a == b
  {
    forall y: nat ensures a[y] == b[y] {
      assert (multiset{x} + a)[y] == (b + multiset{x})[y];
    }
  }

  lemma VisitsAllPages(req: MigrationReq, n: nat, order: seq<nat>)
    requires VisitOrder(req, n, order)
    ensures multiset(PagesIn(req, order)) == multiset(PagesOf(req, n)) && |PagesIn(req, order)| == |PagesOf(req, n)|
    ensures forall v :: v in PagesIn(req, order) ==> v in PagesOf(req, n)
  {
    PagesInAnyOrder(req, order, Requesting(req, n));
    assert |multiset(PagesIn(req, order))| == |multiset(PagesOf(req, n))|;
    forall v | v in PagesIn(req, order) ensures v in PagesOf(req, n) {
      assert v in multiset(PagesIn(req, order));
    }
  }

  ghost predicate CopyReady(d: Driver, order: seq<nat>) {
    && d.current.Some? && VisitOrder(d.current.value, d.numGPUs, order)
    && forall v :: v in PagesOf(d.current.value, d.numGPUs) ==> v in d.pageTable
  }

  /** processShootdownCompleteRsp. */
  function ShootDownDone(d: Driver, order: seq<nat>): (d': Driver)
    requires CopyReady(d, order)
    ensures d.copiesToSend <= d'.copiesToSend
  {
    VisitsAllPages(d.current.value, d.numGPUs, order);
    var d1 := d.(shootDownACK := Dec(d.shootDownACK));
    if d1.shootDownACK != 0 then d1 else CopyAll(d1, d.current.value, order)
  }

  /** processPageMigrationRspFromCP, prepareGPURestartReqs and preparePageMigrationRspToMMU. */
  function CopyDone(d: Driver, order: seq<nat>): Driver
    requires HasCurrent(d) && VisitOrder(d.current.value, d.numGPUs, order)
  {
    VisitsAllPages(d.current.value, d.numGPUs, order);
    var d1 := d.(pagesACK := Dec(d.pagesACK), migratingOnePage := false);
    if d1.pagesACK != 0 then d1
    else
      var req := d.current.value;
      d1.(requestsToSend := d.requestsToSend + Restarts(req.accessing), restartACK := d.restartACK + |req.accessing|,
          toSendToMMU := Some(Reply(PagesIn(req, order), req.respondToTop)))
  }

  /** handleGPURestartRsp and prepareRDMARestartReqs. */
  function RestartDone(d: Driver): Driver {
    var d1 := d.(restartACK := Dec(d.restartACK));
    if d1.restartACK != 0 then d1
    else d1.(requestsToSend := d.requestsToSend + RdmaRestarts(d.numGPUs),
        rdmaRestartACK := d.rdmaRestartACK + d.numGPUs)
  }

  /** processRDMARestartRspToDriver. */
  function RdmaRestartDone(d: Driver): Driver {
    var d1 := d.(rdmaRestartACK := Dec(d.rdmaRestartACK));
    if d1.rdmaRestartACK != 0 then d1 else d1.(current := None, handling := false)
  }

  /** processReturnReq on the response to `req`. */
  function Answered(d: Driver, req: Request, order: seq<nat>): Driver
    requires req.Launch? || req.Restart? || req.RdmaRestart? || (HasCurrent(d) && CopyReady(d, order))
  {
    match req
    case Drain(_) => DrainDone(d)
    case ShootDown(_, _) => ShootDownDone(d, order)
    case Copy(_, _, _, _) => CopyDone(d, order)
    case Restart(_) => RestartDone(d)
    case RdmaRestart(_) => RdmaRestartDone(d)
    case Launch(_) => d
  }

  /* ----- The system ----- */

  /** The driver with its surroundings: requests the GPUs have not answered, responses in the GPU port, requests in
      the MMU port, replies given to the MMU. Of the history: requests taken up, replies prepared, the pages copied
      for the current request, and how many prepared replies were overwritten before they were sent. */
  datatype System = System(
    d: Driver,
    outstanding: seq<Request>,
    gpuIn: seq<Request>,
    mmuIn: seq<MigrationReq>,
    mmuOut: seq<Reply>,
    accepted: seq<MigrationReq>,
    prepared: seq<Reply>,
    copied: multiset<nat>,
    lost: nat
  )

  datatype Action =
    | SendToGPU
    | SendToMMU
    | SendCopy
    | ProcessReturn(order: seq<nat>)
    | ParseFromMMU
    | LaunchKernel(id: nat)
    | Answer(i: nat)
    | Ask(req: MigrationReq)

  /** `patient`: the MMU asks again only after it has the reply to its last request, as akita/mem/vm/mmu/mmu.go does. */
  ghost predicate Enabled(s: System, a: Action, patient: bool) {
    match a
    case SendToGPU => s.d.requestsToSend != []
    case SendToMMU => s.d.toSendToMMU.Some?
    case SendCopy => s.d.copiesToSend != [] && !s.d.migratingOnePage
    case ProcessReturn(order) => CanProcess(s, order)
    case ParseFromMMU => !s.d.handling && s.mmuIn != []
    case LaunchKernel(_) => true
    case Answer(i) => i < |s.outstanding|
    case Ask(req) =>
      && KnownRequest(req, s.d.numGPUs, s.d.pageTable)
      && (patient ==> |s.accepted| + |s.mmuIn| == |s.mmuOut|)
  }

  ghost predicate CanProcess(s: System, order: seq<nat>) {
    && s.gpuIn != []
    && var r := s.gpuIn[0];
    (r.Launch? || r.Restart? || r.RdmaRestart? || (HasCurrent(s.d) && CopyReady(s.d, order)))
  }

  function ProcessStep(s: System, order: seq<nat>): System
    requires CanProcess(s, order)
  {
    var r := s.gpuIn[0];
    var d := Answered(s.d, r, order);
    var s1 := s.(d := d, gpuIn := s.gpuIn[1..]);
    if !r.Copy? then s1
    else
      var s2 := s1.(copied := s.copied + multiset{r.vAddr});
      if d.pagesACK != 0 || d.toSendToMMU.None? then s2
      else
        s2.(prepared := s.prepared + [d.toSendToMMU.value],
            lost := if s.d.toSendToMMU.Some? then s.lost + 1 else s.lost)
  }

  function ParseStep(s: System): System
    requires s.mmuIn != []
  {
    s.(d := Accept(s.d, s.mmuIn[0]), mmuIn := s.mmuIn[1..], accepted := s.accepted + [s.mmuIn[0]], copied := multiset{})
  }

  function Step(s: System, a: Action, ghost patient: bool): System
    requires Enabled(s, a, patient)
  {
    match a
    case SendToGPU => s.(d := s.d.(requestsToSend := s.d.requestsToSend[1..]),
        outstanding := s.outstanding + [s.d.requestsToSend[0]])
    case SendToMMU => s.(d := s.d.(toSendToMMU := None), mmuOut := s.mmuOut + [s.d.toSendToMMU.value])
    case SendCopy =>
      s.(d := s.d.(copiesToSend := s.d.copiesToSend[1..], migratingOnePage := true),
          outstanding := s.outstanding + [s.d.copiesToSend[0]])
    case ProcessReturn(order) => ProcessStep(s, order)
    case ParseFromMMU => ParseStep(s)
    case LaunchKernel(id) => s.(d := s.d.(requestsToSend := s.d.requestsToSend + [Launch(id)]))
    case Answer(i) => s.(outstanding := s.outstanding[..i] + s.outstanding[i + 1..],
        gpuIn := s.gpuIn + [s.outstanding[i]])
    case Ask(req) => s.(mmuIn := s.mmuIn + [req])
  }

  ghost predicate Init(s: System) {
    && s.d.requestsToSend == [] && s.d.current == None && s.d.toSendToMMU == None && s.d.copiesToSend == []
       && !s.d.handling
    && s.d.drainACK == s.d.shootDownACK == s.d.pagesACK == s.d.restartACK == s.d.rdmaRestartACK == 0
    && !s.d.migratingOnePage
    && s.outstanding == [] && s.gpuIn == [] && s.mmuIn == [] && s.mmuOut == [] && s.accepted == [] && s.prepared == []
    && s.copied == multiset{} && s.lost == 0
  }

  ghost predicate Runs(s: System, acts: seq<Action>, patient: bool)
    decreases |acts|
  {
    acts == [] || (Enabled(s, acts[0], patient) && Runs(Step(s, acts[0], patient), acts[1..], patient))
  }

  ghost function Final(s: System, acts: seq<Action>, patient: bool): System
    requires Runs(s, acts, patient)
    decreases |acts|
  {
    if acts == [] then s else Final(Step(s, acts[0], patient), acts[1..], patient)
  }

  datatype Phase = Idle | Draining | ShootingDown | Copying | Restarting | RestartingRdma | Stuck

  /** The phase, read off the counters. Stuck: a migration is being handled and no counter waits for anything. */
  function PhaseOf(d: Driver): Phase {
    if !d.handling then Idle
    else if d.drainACK > 0 then Draining
    else if d.shootDownACK > 0 then ShootingDown
    else if d.pagesACK > 0 then Copying
    else if d.restartACK > 0 then Restarting
    else if d.rdmaRestartACK > 0 then RestartingRdma
    else Stuck
  }

  /** The phase after p of a migration for this request among n GPUs. */
  function Next(p: Phase, req: MigrationReq, n: nat): Phase {
    match p
    case Idle => if n == 0 then Stuck else Draining
    case Draining => if req.accessing == [] then Stuck else ShootingDown
    case ShootingDown => if PagesOf(req, n) == [] then Stuck else Copying
    case Copying => Restarting
    case Restarting => RestartingRdma
    case RestartingRdma => Idle
    case Stuck => Stuck
  }
}
