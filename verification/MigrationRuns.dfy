/** What every run of the migration protocol keeps, when each GPU answers each request once, in any order. */
module MigrationRuns {
  import opened Wrappers
  import opened MigrationModel

  /** What is counted: requests of one kind, or copies of one page. */
  datatype Kind = DrainK | ShootK | CopyK | RestartK | RdmaK | PageK(v: nat)

  predicate Is(r: Request, k: Kind) {
    match k
    case DrainK => r.Drain?
    case ShootK => r.ShootDown?
    case CopyK => r.Copy?
    case RestartK => r.Restart?
    case RdmaK => r.RdmaRestart?
    case PageK(v) => r.Copy? && r.vAddr == v
  }

  function One(r: Request, k: Kind): nat {
    if Is(r, k) then 1 else 0
  }

  function Count(rs: seq<Request>, k: Kind): nat {
    if rs == [] then 0 else One(rs[0], k) + Count(rs[1..], k)
  }

  lemma {:induction false} CountAppend(a: seq<Request>, b: seq<Request>, k: Kind)
    ensures Count(a + b, k) == Count(a, k) + Count(b, k)
  {
    hide One;
    if a == [] {
      ConcatNil(b);
    } else {
      CountAppend(a[1..], b, k);
      TailOfConcat(a, b);
    }
  }

  lemma CountPush(a: seq<Request>, r: Request, k: Kind)
    ensures Count(a + [r], k) == Count(a, k) + One(r, k)
  {
    CountAppend(a, [r], k);
    assert [r][1..] == [];
  }

  lemma CountRemove(a: seq<Request>, i: nat, k: Kind)
    requires i < |a|
    ensures Count(a[..i] + a[i + 1..], k) + One(a[i], k) == Count(a, k)
  {
    hide One;
    assert a == (a[..i] + [a[i]]) + a[i + 1..];
    CountAppend(a[..i] + [a[i]], a[i + 1..], k);
    CountPush(a[..i], a[i], k);
    CountAppend(a[..i], a[i + 1..], k);
  }

  lemma {:induction false} CountAlike(rs: seq<Request>, k: Kind, one: nat)
    requires (forall r :: r in rs ==> One(r, k) == one) && one <= 1
    ensures Count(rs, k) == if one == 1 then |rs| else 0
  {
    hide One;
    if rs != [] {
      assert rs[0] in rs;
      CountAlike(rs[1..], k, one);
    }
  }

  lemma CountDrains(n: nat, k: Kind)
    ensures Count(Drains(n), k) == if k == DrainK then n else 0
  {
    CountAlike(Drains(n), k, if k == DrainK then 1 else 0);
  }

  lemma CountRdmaRestarts(n: nat, k: Kind)
    ensures Count(RdmaRestarts(n), k) == if k == RdmaK then n else 0
  {
    CountAlike(RdmaRestarts(n), k, if k == RdmaK then 1 else 0);
  }

  lemma CountShootDowns(accessing: seq<int>, vAddrs: seq<nat>, k: Kind)
    ensures Count(ShootDowns(accessing, vAddrs), k) == if k == ShootK then |accessing| else 0
  {
    CountAlike(ShootDowns(accessing, vAddrs), k, if k == ShootK then 1 else 0);
  }

  lemma CountRestarts(accessing: seq<int>, k: Kind)
    ensures Count(Restarts(accessing), k) == if k == RestartK then |accessing| else 0
  {
    CountAlike(Restarts(accessing), k, if k == RestartK then 1 else 0);
  }

  /** Requests the driver has created and not yet seen answered. */
  function Total(s: System, k: Kind): nat {
    Count(s.d.requestsToSend, k) + Count(s.d.copiesToSend, k) + Count(s.outstanding, k) + Count(s.gpuIn, k)
  }

  ghost predicate AllCopies(rs: seq<Request>) {
    forall r :: r in rs ==> r.Copy?
  }

  /* ----- The copy phase ----- */

  /** How many of the new copies count as k. */
  function CopyCount(vs: seq<nat>, k: Kind): nat {
    match k
    case CopyK => |vs|
    case PageK(v) => multiset(vs)[v]
    case _ => 0
  }

  lemma CopyCountAppend(a: seq<nat>, b: seq<nat>, k: Kind)
    ensures CopyCount(a + b, k) == CopyCount(a, k) + CopyCount(b, k)
  {
    assert multiset(a + b) == multiset(a) + multiset(b);
  }

  lemma {:induction false} CopyListFacts(d: Driver, gpu: nat, vs: seq<nat>, k: Kind)
    requires forall x :: x in vs ==> x in d.pageTable
    ensures var d' := CopyList(d, gpu, vs);
            && d' == d.(copiesToSend := d'.copiesToSend, pagesACK := d.pagesACK + |vs|, pageTable := d'.pageTable,
               nextFrame := d'.nextFrame)
            && Count(d'.copiesToSend, k) == Count(d.copiesToSend, k) + CopyCount(vs, k)
            && (AllCopies(d.copiesToSend) ==> AllCopies(d'.copiesToSend))
    decreases |vs|
  {
    hide CopyCount;
    hide Is;
    if vs == [] {
      NoCopies(k);
    } else {
      var copy := Copy(gpu, vs[0], d.pageTable[vs[0]].pAddr, d.nextFrame);
      var d1 := CopyPage(d, gpu, vs[0]);
      CopyListFacts(d1, gpu, vs[1..], k);
      CountPush(d.copiesToSend, copy, k);
      OneCopyCount(copy, k);
      assert vs == [vs[0]] + vs[1..];
      CopyCountAppend([vs[0]], vs[1..], k);
    }
  }

  lemma NoCopies(k: Kind)
    ensures CopyCount([], k) == 0
  {
  }

  lemma OneCopyCount(copy: Request, k: Kind)
    requires copy.Copy?
    ensures CopyCount([copy.vAddr], k) == One(copy, k)
  {
  }

  lemma {:induction false} CopyAllFacts(d: Driver, req: MigrationReq, order: seq<nat>, k: Kind)
    requires forall x :: x in PagesIn(req, order) ==> x in d.pageTable
    ensures var d' := CopyAll(d, req, order); var vs := PagesIn(req, order);
            && d' == d.(copiesToSend := d'.copiesToSend, pagesACK := d.pagesACK + |vs|, pageTable := d'.pageTable,
               nextFrame := d'.nextFrame)
            && Count(d'.copiesToSend, k) == Count(d.copiesToSend, k) + CopyCount(vs, k)
            && (AllCopies(d.copiesToSend) ==> AllCopies(d'.copiesToSend))
    decreases |order|
  {
    hide PagesFor;
    hide CopyCount;
    hide Count;
    hide CopyList;
    if order == [] {
      NoCopies(k);
    } else {
      var first := PagesFor(req, order[0]);
      assert PagesIn(req, order) == first + PagesIn(req, order[1..]);
      CopyListFacts(d, order[0], first, k);
      CopyAllFacts(CopyList(d, order[0], first), req, order[1..], k);
      CopyCountAppend(first, PagesIn(req, order[1..]), k);
    }
  }

  /* ----- The invariant ----- */

  function Ack(d: Driver, k: Kind): nat {
    match k
    case DrainK => d.drainACK
    case ShootK => d.shootDownACK
    case CopyK => d.pagesACK
    case RestartK => d.restartACK
    case RdmaK => d.rdmaRestartACK
    case PageK(_) => 0
  }

  /** The counter of kind k equals the requests of this kind that are not answered yet. */
  ghost predicate Counted(s: System, k: Kind) {
    k.PageK? || Ack(s.d, k) == Total(s, k)
  }

  ghost predicate AllCounted(s: System) {
    forall k :: Counted(s, k)
  }

  /** At most one page copy is on its way. */
  ghost predicate OneCopy(s: System) {
    && Count(s.d.requestsToSend, CopyK) == 0
    && Count(s.outstanding, CopyK) + Count(s.gpuIn, CopyK) == (if s.d.migratingOnePage then 1 else 0)
    && AllCopies(s.d.copiesToSend)
  }

  /** Copies of page v still to be done and done so far. */
  ghost predicate PageCounted(s: System, v: nat) {
    s.d.handling && s.d.current.Some? ==>
      match PhaseOf(s.d)
      case Draining => s.copied[v] == 0
      case ShootingDown => s.copied[v] == 0
      case Stuck => s.copied[v] == 0
      case _ => s.copied[v] + Total(s, PageK(v)) == multiset(PagesOf(s.d.current.value, s.d.numGPUs))[v]
  }

  ghost predicate PagesCounted(s: System) {
    forall v: nat :: PageCounted(s, v)
  }

  /** While nothing is migrated all counters are zero, otherwise exactly one is not, unless an empty list stopped the
      migration. */
  ghost predicate PhaseOk(d: Driver) {
    && (!d.handling ==>
          d.current.None? && d.drainACK == d.shootDownACK == d.pagesACK == d.restartACK == d.rdmaRestartACK == 0)
    && (d.handling ==>
          && d.current.Some? && KnownRequest(d.current.value, d.numGPUs, d.pageTable)
          && PhaseFits(PhaseOf(d), d.current.value, d.numGPUs) && d.shootDownACK <= |d.current.value.accessing|
          && (d.drainACK > 0 ==> d.shootDownACK == d.pagesACK == d.restartACK == d.rdmaRestartACK == 0)
          && (d.shootDownACK > 0 ==> d.pagesACK == d.restartACK == d.rdmaRestartACK == 0)
          && (d.pagesACK > 0 ==> d.restartACK == d.rdmaRestartACK == 0)
          && (d.restartACK > 0 ==> d.rdmaRestartACK == 0))
  }

  /** A phase is reached only if the lists it needs are not empty, and none follows if they are. */
  predicate PhaseFits(p: Phase, req: MigrationReq, n: nat) {
    match p
    case Draining => true
    case ShootingDown => req.accessing != []
    case Stuck => EmptyRequest(req, n)
    case _ => !EmptyRequest(req, n)
  }

  /** The reply of the current request is still to be prepared. */
  predicate ReplyDue(d: Driver) {
    d.handling && (d.drainACK > 0 || d.shootDownACK > 0 || d.pagesACK > 0 || PhaseOf(d).Stuck?)
  }

  ghost predicate Answers(reply: Reply, req: MigrationReq, n: nat) {
    multiset(reply.vAddrs) == multiset(PagesOf(req, n)) && reply.rspToTop == req.respondToTop
  }

  ghost predicate RepliesOk(s: System) {
    && |s.accepted| == |s.prepared| + (if ReplyDue(s.d) then 1 else 0)
    && (forall i :: 0 <= i < |s.prepared| ==> Answers(s.prepared[i], s.accepted[i], s.d.numGPUs))
    && (s.d.handling && s.d.current.Some? ==> s.accepted != [] && s.accepted[|s.accepted| - 1] == s.d.current.value)
  }

  function Waiting(d: Driver): seq<Reply> {
    if d.toSendToMMU.Some? then [d.toSendToMMU.value] else []
  }

  ghost predicate SentOk(s: System, patient: bool) {
    && |s.prepared| == |s.mmuOut| + |Waiting(s.d)| + s.lost
    && (s.lost == 0 ==> s.prepared == s.mmuOut + Waiting(s.d))
    && (patient ==> s.lost == 0 && |s.accepted| + |s.mmuIn| <= |s.mmuOut| + 1)
  }

  ghost predicate AllGood(s: System) {
    forall req :: req in s.mmuIn ==> KnownRequest(req, s.d.numGPUs, s.d.pageTable)
  }

  /** The counted part of the invariant. */
  ghost predicate Books(s: System) {
    AllCounted(s) && OneCopy(s) && PagesCounted(s) && PhaseOk(s.d)
  }

  ghost predicate Inv(s: System, patient: bool) {
    Books(s) && RepliesOk(s) && SentOk(s, patient) && AllGood(s)
  }

  lemma {:induction false} PageIsCopy(rs: seq<Request>, v: nat)
    ensures Count(rs, PageK(v)) <= Count(rs, CopyK)
  {
    if rs != [] {
      PageIsCopy(rs[1..], v);
    }
  }

  /** Without a copy in the system there is none of page v. */
  lemma NoPages(s: System, v: nat)
    ensures Total(s, PageK(v)) <= Total(s, CopyK)
  {
    PageIsCopy(s.d.requestsToSend, v);
    PageIsCopy(s.d.copiesToSend, v);
    PageIsCopy(s.outstanding, v);
    PageIsCopy(s.gpuIn, v);
  }

  /* ----- Steps that only move requests ----- */

  lemma SameTotals(s: System, s': System)
    requires Books(s) && OneCopy(s') && s'.copied == s.copied
    requires s'.d == s.d.(requestsToSend := s'.d.requestsToSend, copiesToSend := s'.d.copiesToSend,
            migratingOnePage := s'.d.migratingOnePage, toSendToMMU := s'.d.toSendToMMU)
    requires forall k :: Total(s', k) == Total(s, k)
    ensures Books(s')
  {
    hide Total;
    hide OneCopy;
    hide PagesOf;
    hide KnownRequest;
    forall k ensures Counted(s', k) {
      assert Counted(s, k);
    }
    forall v: nat ensures PageCounted(s', v) {
      assert PageCounted(s, v);
    }
  }

  lemma SendToGPUBooks(s: System)
    requires s.d.requestsToSend != [] && Books(s)
    ensures Books(Step(s, SendToGPU, false))
  {
    hide Books;
    hide Is;
    var s' := Step(s, SendToGPU, false);
    forall k ensures Total(s', k) == Total(s, k) && s.d.requestsToSend != [] {
      CountPush(s.outstanding, s.d.requestsToSend[0], k);
    }
    CountPush(s.outstanding, s.d.requestsToSend[0], CopyK);
    assert OneCopy(s) by { BooksHave(s); }
    SameTotals(s, s');
  }

  lemma BooksHave(s: System)
    requires Books(s)
    ensures OneCopy(s)
  {
  }

  lemma SendCopyBooks(s: System)
    requires s.d.copiesToSend != [] && !s.d.migratingOnePage && Books(s)
    ensures Books(Step(s, SendCopy, false))
  {
    hide Books;
    var s' := Step(s, SendCopy, false);
    forall k ensures Total(s', k) == Total(s, k) && s.d.copiesToSend != [] {
      CountPush(s.outstanding, s.d.copiesToSend[0], k);
    }
    BooksHave(s);
    CountPush(s.outstanding, s.d.copiesToSend[0], CopyK);
    assert s.d.copiesToSend[0].Copy?;
    SameTotals(s, s');
  }

  lemma LaunchBooks(s: System, id: nat)
    requires Books(s)
    ensures Books(Step(s, LaunchKernel(id), false))
  {
    hide Books;
    var s' := Step(s, LaunchKernel(id), false);
    forall k ensures Total(s', k) == Total(s, k) {
      CountPush(s.d.requestsToSend, Launch(id), k);
    }
    CountPush(s.d.requestsToSend, Launch(id), CopyK);
    BooksHave(s);
    SameTotals(s, s');
  }

  lemma AnswerBooks(s: System, i: nat)
    requires i < |s.outstanding| && Books(s)
    ensures Books(Step(s, Answer(i), false))
  {
    hide Books;
    hide Is;
    var s' := Step(s, Answer(i), false);
    forall k ensures Total(s', k) == Total(s, k) {
      CountPush(s.gpuIn, s.outstanding[i], k);
      CountRemove(s.outstanding, i, k);
    }
    CountPush(s.gpuIn, s.outstanding[i], CopyK);
    CountRemove(s.outstanding, i, CopyK);
    BooksHave(s);
    SameTotals(s, s');
  }

  lemma ParseBooks(s: System)
    requires !s.d.handling && s.mmuIn != [] && Books(s) && KnownRequest(s.mmuIn[0], s.d.numGPUs, s.d.pageTable)
    ensures Books(ParseStep(s))
  {
    hide PagesOf;
    hide Is;
    var s' := ParseStep(s);
    if s.mmuIn[0].accessing != [] {
      SomeGPU(s.mmuIn[0], s.d.numGPUs, s.d.pageTable);
    }
    forall k ensures Counted(s', k) {
      CountDrains(s.d.numGPUs, k);
      CountAppend(s.d.requestsToSend, Drains(s.d.numGPUs), k);
      assert Counted(s, k);
    }
    CountDrains(s.d.numGPUs, CopyK);
    CountAppend(s.d.requestsToSend, Drains(s.d.numGPUs), CopyK);
  }

  /* ----- Responses ----- */

  lemma AckPositive(s: System, k: Kind)
    requires AllCounted(s) && s.gpuIn != [] && Is(s.gpuIn[0], k) && !k.PageK?
    ensures Ack(s.d, k) > 0
  {
    assert Counted(s, k);
  }

  lemma DrainBooks(s: System, order: seq<nat>)
    requires CanProcess(s, order) && s.gpuIn[0].Drain? && Books(s)
    ensures Books(ProcessStep(s, order))
  {
    hide CopyReady;
    hide PagesOf;
    AckPositive(s, DrainK);
    var s' := ProcessStep(s, order);
    var req := s.d.current.value;
    var last := s.d.drainACK == 1;
    var vs := PagesOf(req, s.d.numGPUs);
    forall k ensures Counted(s', k)
        && (last ==>
              Count(s'.d.requestsToSend, k) ==
              Count(s.d.requestsToSend, k) + (if k == ShootK then |req.accessing| else 0)) {
      assert Counted(s, k);
      if last {
        CountShootDowns(req.accessing, vs, k);
        CountAppend(s.d.requestsToSend, ShootDowns(req.accessing, vs), k);
      }
    }
    forall v: nat ensures PageCounted(s', v) {
      assert PageCounted(s, v);
    }
  }

  lemma ShootDownBooks(s: System, order: seq<nat>)
    requires CanProcess(s, order) && s.gpuIn[0].ShootDown? && Books(s)
    ensures Books(ProcessStep(s, order))
  {
    AckPositive(s, ShootK);
    if s.d.shootDownACK == 1 {
      LastShootDownBooks(s, order);
    } else {
      hide KnownRequest;
      hide PagesIn;
      hide PagesOf;
      hide CopyAll;
      var s' := ProcessStep(s, order);
      forall k ensures Counted(s', k) {
        assert Counted(s, k);
      }
      forall v: nat ensures PageCounted(s', v) {
        assert PageCounted(s, v);
      }
    }
  }

  lemma LastShootDownBooks(s: System, order: seq<nat>)
    requires CanProcess(s, order) && s.gpuIn[0].ShootDown? && Books(s) && s.d.shootDownACK == 1
    ensures Books(ProcessStep(s, order))
  {
    hide KnownRequest;
    hide PagesIn;
    hide PagesOf;
    hide CopyAll;
    hide CopyReady;
    var s' := ProcessStep(s, order);
    var req := s.d.current.value;
    var vs := PagesIn(req, order);
    var d1 := s.d.(shootDownACK := 0);
    ReadyVisits(s.d, order);
    forall k ensures Counted(s', k) && Count(s'.d.copiesToSend, k) == Count(s.d.copiesToSend, k) + CopyCount(vs, k) {
      assert Counted(s, k);
      CopyAllFacts(d1, req, order, k);
    }
    CopyAllFacts(d1, req, order, CopyK);
    forall v: nat ensures PageCounted(s', v) {
      assert PageCounted(s, v);
      assert Counted(s, CopyK);
      NoPages(s, v);
      CopyAllFacts(d1, req, order, PageK(v));
    }
    GoodKept(req, s.d.numGPUs, s.d.pageTable, s'.d.pageTable);
  }

  lemma ReadyVisits(d: Driver, order: seq<nat>)
    requires CopyReady(d, order)
    ensures d.current.Some?
    ensures var req := d.current.value;
            && multiset(PagesIn(req, order)) == multiset(PagesOf(req, d.numGPUs))
            && |PagesIn(req, order)| == |PagesOf(req, d.numGPUs)|
            && forall v :: v in PagesIn(req, order) ==> v in d.pageTable
  {
    hide PagesIn;
    VisitsAllPages(d.current.value, d.numGPUs, order);
  }

  lemma GoodKept(req: MigrationReq, n: nat, pt: map<nat, Page>, pt': map<nat, Page>)
    requires KnownRequest(req, n, pt) && pt'.Keys == pt.Keys
    ensures KnownRequest(req, n, pt')
  {
  }

  lemma CopyBooks(s: System, order: seq<nat>)
    requires CanProcess(s, order) && s.gpuIn[0].Copy? && Books(s)
    ensures Books(ProcessStep(s, order))
  {
    hide KnownRequest;
    hide CopyReady;
    hide PagesIn;
    hide PagesOf;
    AckPositive(s, CopyK);
    var s' := ProcessStep(s, order);
    var req := s.d.current.value;
    var last := s.d.pagesACK == 1;
    forall k ensures Counted(s', k)
        && (last ==>
              Count(s'.d.requestsToSend, k) ==
              Count(s.d.requestsToSend, k) + (if k == RestartK then |req.accessing| else 0)) {
      assert Counted(s, k);
      if last {
        CountRestarts(req.accessing, k);
        CountAppend(s.d.requestsToSend, Restarts(req.accessing), k);
      }
    }
    forall v: nat ensures PageCounted(s', v) {
      assert PageCounted(s, v);
      if last {
        CountRestarts(req.accessing, PageK(v));
        CountAppend(s.d.requestsToSend, Restarts(req.accessing), PageK(v));
      }
    }
  }

  lemma SomeGPU(req: MigrationReq, n: nat, pageTable: map<nat, Page>)
    requires KnownRequest(req, n, pageTable) && req.accessing != []
    ensures n > 0
  {
    hide PagesOf;
    var g := req.accessing[0];
    assert g in req.accessing && 0 < g <= n;
  }

  lemma RestartBooks(s: System, order: seq<nat>)
    requires CanProcess(s, order) && s.gpuIn[0].Restart? && Books(s)
    ensures Books(ProcessStep(s, order))
  {
    hide KnownRequest;
    hide PagesOf;
    AckPositive(s, RestartK);
    SomeGPU(s.d.current.value, s.d.numGPUs, s.d.pageTable);
    var s' := ProcessStep(s, order);
    var last := s.d.restartACK == 1;
    forall k ensures Counted(s', k)
        && (last ==>
              Count(s'.d.requestsToSend, k) == Count(s.d.requestsToSend, k) + (if k == RdmaK then s.d.numGPUs else 0)) {
      assert Counted(s, k);
      if last {
        CountRdmaRestarts(s.d.numGPUs, k);
        CountAppend(s.d.requestsToSend, RdmaRestarts(s.d.numGPUs), k);
      }
    }
    forall v: nat ensures PageCounted(s', v) {
      assert PageCounted(s, v);
      if last {
        CountRdmaRestarts(s.d.numGPUs, PageK(v));
        CountAppend(s.d.requestsToSend, RdmaRestarts(s.d.numGPUs), PageK(v));
      }
    }
  }

  lemma RdmaBooks(s: System, order: seq<nat>)
    requires CanProcess(s, order) && (s.gpuIn[0].RdmaRestart? || s.gpuIn[0].Launch?) && Books(s)
    ensures Books(ProcessStep(s, order))
  {
    hide KnownRequest;
    hide PagesOf;
    if s.gpuIn[0].RdmaRestart? {
      AckPositive(s, RdmaK);
    }
    var s' := ProcessStep(s, order);
    forall k ensures Counted(s', k) {
      assert Counted(s, k);
    }
    forall v: nat ensures PageCounted(s', v) {
      assert PageCounted(s, v);
    }
  }

  /* ----- Replies ----- */

  /** Steps that neither take up a request nor finish the copies. */
  lemma RepliesKept(s: System, s': System)
    requires RepliesOk(s) && s'.accepted == s.accepted && s'.prepared == s.prepared && s'.d.numGPUs == s.d.numGPUs
    requires s'.d.handling ==> s.d.handling && s'.d.current == s.d.current
    requires ReplyDue(s'.d) == ReplyDue(s.d)
    ensures RepliesOk(s')
  {
    hide Answers;
    hide ReplyDue;
  }

  lemma ParseReplies(s: System, patient: bool)
    requires !s.d.handling && s.mmuIn != [] && PhaseOk(s.d) && RepliesOk(s) && SentOk(s, patient)
    ensures RepliesOk(ParseStep(s)) && SentOk(ParseStep(s), patient)
  {
    hide Answers;
  }

  /** A response that is not the last copy. */
  lemma ProcessReplies(s: System, order: seq<nat>)
    requires CanProcess(s, order) && Books(s) && RepliesOk(s) && !(s.gpuIn[0].Copy? && s.d.pagesACK == 1)
    ensures RepliesOk(ProcessStep(s, order))
    ensures ProcessStep(s, order).prepared == s.prepared && ProcessStep(s, order).d.toSendToMMU == s.d.toSendToMMU
  {
    hide Answers;
    hide KnownRequest;
    hide PagesOf;
    hide PagesIn;
    hide CopyAll;
    var r := s.gpuIn[0];
    if r.Drain? {
      AckPositive(s, DrainK);
    } else if r.ShootDown? {
      AckPositive(s, ShootK);
      ShootDownPhase(s, order);
    } else if r.Copy? {
      AckPositive(s, CopyK);
    } else if r.Restart? {
      AckPositive(s, RestartK);
      SomeGPU(s.d.current.value, s.d.numGPUs, s.d.pageTable);
    } else if r.RdmaRestart? {
      AckPositive(s, RdmaK);
    }
    RepliesKept(s, ProcessStep(s, order));
  }

  lemma ShootDownPhase(s: System, order: seq<nat>)
    requires CanProcess(s, order) && s.gpuIn[0].ShootDown? && PhaseOk(s.d) && s.d.shootDownACK > 0
    ensures var d' := ProcessStep(s, order).d;
            && d'.handling && d'.current == s.d.current && d'.numGPUs == s.d.numGPUs
               && d'.toSendToMMU == s.d.toSendToMMU
            && d'.drainACK == s.d.drainACK && ReplyDue(d')
  {
    var req := s.d.current.value;
    VisitsAllPages(req, s.d.numGPUs, order);
    if s.d.shootDownACK == 1 {
      CopyAllFacts(s.d.(shootDownACK := 0), req, order, CopyK);
    }
  }

  /** The last copy: the reply is prepared and lists the pages of the request, which are those copied. */
  lemma LastCopyReplies(s: System, order: seq<nat>, patient: bool)
    requires CanProcess(s, order) && Books(s) && RepliesOk(s) && SentOk(s, patient) && s.gpuIn[0].Copy?
            && s.d.pagesACK == 1
    ensures var s' := ProcessStep(s, order);
            && RepliesOk(s') && SentOk(s', patient)
            && s'.prepared == s.prepared + [s'.d.toSendToMMU.value]
            && s'.lost == s.lost + (if s.d.toSendToMMU.Some? then 1 else 0)
  {
    hide KnownRequest;
    hide PagesIn;
    hide PagesOf;
    hide OneCopy;
    hide AllCounted;
    hide PagesCounted;
    var s' := ProcessStep(s, order);
    var req := s.d.current.value;
    VisitsAllPages(req, s.d.numGPUs, order);
    assert Answers(s'.d.toSendToMMU.value, req, s.d.numGPUs);
  }

  /* ----- All steps ----- */

  lemma ProcessKeeps(s: System, order: seq<nat>, patient: bool)
    requires Inv(s, patient) && CanProcess(s, order)
    ensures Inv(ProcessStep(s, order), patient)
  {
    hide RepliesOk;
    hide Books;
    hide KnownRequest;
    ProcessBooks(s, order);
    ProcessGood(s, order);
    if s.gpuIn[0].Copy? && s.d.pagesACK == 1 {
      LastCopyReplies(s, order, patient);
    } else {
      ProcessReplies(s, order);
      ProcessQuiet(s, order);
    }
  }

  lemma ProcessQuiet(s: System, order: seq<nat>)
    requires CanProcess(s, order) && Books(s) && !(s.gpuIn[0].Copy? && s.d.pagesACK == 1)
    ensures var s' := ProcessStep(s, order);
            s'.mmuOut == s.mmuOut && s'.lost == s.lost && s'.accepted == s.accepted && s'.mmuIn == s.mmuIn
  {
    hide KnownRequest;
    hide CopyAll;
    hide PagesIn;
    hide PagesOf;
    if s.gpuIn[0].Copy? {
      AckPositive(s, CopyK);
    }
  }

  lemma ProcessBooks(s: System, order: seq<nat>)
    requires Books(s) && CanProcess(s, order)
    ensures Books(ProcessStep(s, order))
  {
    hide Books;
    match s.gpuIn[0]
    case Drain(_) => DrainBooks(s, order);
    case ShootDown(_, _) => ShootDownBooks(s, order);
    case Copy(_, _, _, _) => CopyBooks(s, order);
    case Restart(_) => RestartBooks(s, order);
    case _ => RdmaBooks(s, order);
  }

  lemma ProcessGood(s: System, order: seq<nat>)
    requires CanProcess(s, order) && AllGood(s)
    ensures AllGood(ProcessStep(s, order))
  {
    var s' := ProcessStep(s, order);
    ProcessFrame(s, order);
    forall req | req in s'.mmuIn ensures KnownRequest(req, s'.d.numGPUs, s'.d.pageTable) {
      GoodKept(req, s.d.numGPUs, s.d.pageTable, s'.d.pageTable);
    }
  }

  lemma ProcessFrame(s: System, order: seq<nat>)
    requires CanProcess(s, order)
    ensures var s' := ProcessStep(s, order);
            s'.d.numGPUs == s.d.numGPUs && s'.d.pageTable.Keys == s.d.pageTable.Keys && s'.mmuIn == s.mmuIn
  {
    hide KnownRequest;
    hide PagesOf;
    hide PagesIn;
    if s.gpuIn[0].ShootDown? {
      var req := s.d.current.value;
      VisitsAllPages(req, s.d.numGPUs, order);
      if Dec(s.d.shootDownACK) == 0 {
        CopyAllFacts(s.d.(shootDownACK := 0), req, order, CopyK);
      }
    }
  }

  lemma QuietKeeps(s: System, s': System, patient: bool)
    requires Inv(s, patient) && Books(s') && s'.accepted == s.accepted && s'.prepared == s.prepared
            && s'.mmuOut == s.mmuOut
    requires s'.lost == s.lost && s'.mmuIn == s.mmuIn
    requires s'.d == s.d.(requestsToSend := s'.d.requestsToSend, copiesToSend := s'.d.copiesToSend,
            migratingOnePage := s'.d.migratingOnePage)
    ensures Inv(s', patient)
  {
    hide Books;
    hide KnownRequest;
    hide RepliesOk;
    RepliesKept(s, s');
  }

  lemma SendToMMUKeeps(s: System, patient: bool)
    requires Inv(s, patient) && s.d.toSendToMMU.Some?
    ensures Inv(Step(s, SendToMMU, patient), patient)
  {
    hide Books;
    hide KnownRequest;
    hide RepliesOk;
    var s' := Step(s, SendToMMU, patient);
    SameTotals(s, s') by {
      BooksHave(s);
    }
    RepliesKept(s, s');
    assert s'.mmuOut + [] == s.mmuOut + [s.d.toSendToMMU.value];
  }

  lemma AskKeeps(s: System, req: MigrationReq, patient: bool)
    requires Inv(s, patient) && Enabled(s, Ask(req), patient)
    ensures Inv(Step(s, Ask(req), patient), patient)
  {
    hide Books;
    hide KnownRequest;
    hide RepliesOk;
    var s' := Step(s, Ask(req), patient);
    SameTotals(s, s') by {
      BooksHave(s);
    }
    RepliesKept(s, s');
  }

  lemma ParseKeeps(s: System, patient: bool)
    requires Inv(s, patient) && !s.d.handling && s.mmuIn != []
    ensures Inv(ParseStep(s), patient)
  {
    ParseBooks(s);
    ParseReplies(s, patient);
    hide Books;
    hide KnownRequest;
    hide RepliesOk;
    hide SentOk;
  }

  lemma StepKeeps(s: System, a: Action, patient: bool)
    requires Inv(s, patient) && Enabled(s, a, patient)
    ensures Inv(Step(s, a, patient), patient)
  {
    hide Books;
    hide RepliesOk;
    hide SentOk;
    hide AllGood;
    var s' := Step(s, a, patient);
    match a
    case SendToGPU => SendToGPUBooks(s); QuietKeeps(s, s', patient);
    case SendToMMU => SendToMMUKeeps(s, patient);
    case SendCopy => SendCopyBooks(s); QuietKeeps(s, s', patient);
    case ProcessReturn(order) => ProcessKeeps(s, order, patient);
    case ParseFromMMU => ParseKeeps(s, patient);
    case LaunchKernel(id) => LaunchBooks(s, id); QuietKeeps(s, s', patient);
    case Answer(i) => AnswerBooks(s, i); QuietKeeps(s, s', patient);
    case Ask(req) => AskKeeps(s, req, patient);
  }

  lemma InitHolds(s: System, patient: bool)
    requires Init(s)
    ensures Inv(s, patient)
  {
    forall k ensures Counted(s, k) {
    }
  }

  lemma {:induction false} RunKeeps(s: System, acts: seq<Action>, patient: bool)
    requires Inv(s, patient) && Runs(s, acts, patient)
    ensures Inv(Final(s, acts, patient), patient)
    decreases |acts|
  {
    hide Inv;
    if acts != [] {
      StepKeeps(s, acts[0], patient);
      RunKeeps(Step(s, acts[0], patient), acts[1..], patient);
    }
  }

  /** A state of some run. */
  ghost predicate Reachable(s: System, patient: bool) {
    exists s0, acts :: Init(s0) && Runs(s0, acts, patient) && Final(s0, acts, patient) == s
  }

  lemma ReachableInv(s: System, patient: bool)
    requires Reachable(s, patient)
    ensures Inv(s, patient)
  {
    hide Inv;
    var s0, acts :| Init(s0) && Runs(s0, acts, patient) && Final(s0, acts, patient) == s;
    InitHolds(s0, patient);
    RunKeeps(s0, acts, patient);
  }

  lemma {:induction false} OneMore(s: System, acts: seq<Action>, a: Action, patient: bool)
    requires Runs(s, acts, patient) && Enabled(Final(s, acts, patient), a, patient)
    ensures Runs(s, acts + [a], patient)
    ensures Final(s, acts + [a], patient) == Step(Final(s, acts, patient), a, patient)
    decreases |acts|
  {
    hide Enabled;
    hide Step;
    if acts == [] {
      assert [a][1..] == [];
      ConcatNil([a]);
      assert Runs(Step(s, a, patient), [], patient);
    } else {
      OneMore(Step(s, acts[0], patient), acts[1..], a, patient);
      TailOfConcat(acts, [a]);
    }
  }

  lemma ReachableStep(s: System, a: Action, patient: bool)
    requires Reachable(s, patient) && Enabled(s, a, patient)
    ensures Reachable(Step(s, a, patient), patient)
  {
    hide Init;
    hide Enabled;
    hide Step;
    var s0, acts :| Init(s0) && Runs(s0, acts, patient) && Final(s0, acts, patient) == s;
    OneMore(s0, acts, a, patient);
  }

  lemma ReachableStart(s: System, patient: bool)
    requires Init(s)
    ensures Reachable(s, patient)
  {
    assert Runs(s, [], patient) && Final(s, [], patient) == s;
  }
}
