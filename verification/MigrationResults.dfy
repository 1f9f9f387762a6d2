/** Main results on the migration protocol, for every reachable state. */
module MigrationResults {
  import opened Wrappers
  import opened MigrationModel
  import opened MigrationRuns

  function KindOf(p: Phase): Kind {
    match p
    case Draining => DrainK
    case ShootingDown => ShootK
    case Copying => CopyK
    case Restarting => RestartK
    case _ => RdmaK
  }

  /** In each phase only requests of its own kind are unanswered, and the phase's counter is their number. */
  lemma OnePhaseAtATime(s: System, patient: bool, k: Kind)
    requires Reachable(s, patient) && !k.PageK?
    ensures Ack(s.d, k) == Total(s, k)
    ensures Total(s, k) > 0 <==> (s.d.handling && !PhaseOf(s.d).Stuck? && k == KindOf(PhaseOf(s.d)))
    ensures s.d.handling <==> s.d.current.Some?
  {
    ReachableInv(s, patient);
    OnePhase(s, k);
  }

  lemma OnePhase(s: System, k: Kind)
    requires Books(s) && !k.PageK?
    ensures Ack(s.d, k) == Total(s, k)
    ensures Total(s, k) > 0 <==> (s.d.handling && !PhaseOf(s.d).Stuck? && k == KindOf(PhaseOf(s.d)))
    ensures s.d.handling <==> s.d.current.Some?
  {
    assert Counted(s, k);
  }

  /** At most one page copy is on its way, and copies are sent only in the copy phase. */
  lemma OneCopyInFlight(s: System, patient: bool)
    requires Reachable(s, patient)
    ensures Count(s.outstanding, CopyK) + Count(s.gpuIn, CopyK) <= 1
    ensures s.d.copiesToSend != [] || Count(s.outstanding, CopyK) + Count(s.gpuIn, CopyK) > 0 ==>
            PhaseOf(s.d) == Copying
  {
    OnePhaseAtATime(s, patient, CopyK);
    ReachableInv(s, patient);
    if s.d.copiesToSend != [] {
      assert s.d.copiesToSend[0].Copy?;
    }
  }

  /** The request of a migration that goes on or starts with the step from d to d'. */
  function RequestOf(d: Driver, d': Driver): Option<MigrationReq> {
    if d.handling then d.current else d'.current
  }

  /** d' is in the phase of d or in the one that follows it. */
  ghost predicate Follows(d: Driver, d': Driver) {
    PhaseOf(d') != PhaseOf(d) ==>
      RequestOf(d, d').Some? && PhaseOf(d') == Next(PhaseOf(d), RequestOf(d, d').value, d.numGPUs)
  }

  /** Phases follow each other strictly: drain, shootdown, copy, GPU restart, RDMA restart, done; an empty list ends
      this order where it is needed. */
  lemma PhasesInOrder(s: System, a: Action, patient: bool)
    requires Reachable(s, patient) && Enabled(s, a, patient)
    ensures Follows(s.d, Step(s, a, patient).d)
    ensures PhaseOf(s.d).Idle? && PhaseOf(Step(s, a, patient).d).Draining? ==> a.ParseFromMMU?
  {
    ReachableInv(s, patient);
    StepKeeps(s, a, patient);
    if a.ProcessReturn? {
      ProcessPhase(s, a.order);
    } else if a.ParseFromMMU? && s.d.numGPUs == 0 {
      assert PhaseOf(ParseStep(s).d).Stuck?;
    }
  }

  lemma ProcessPhase(s: System, order: seq<nat>)
    requires CanProcess(s, order) && Books(s) && Books(ProcessStep(s, order))
    ensures Follows(s.d, ProcessStep(s, order).d)
    ensures PhaseOf(s.d).Idle? ==> PhaseOf(ProcessStep(s, order).d).Idle?
  {
    hide OneCopy;
    hide PagesCounted;
    hide KnownRequest;
    hide PagesIn;
    hide PagesOf;
    var r := s.gpuIn[0];
    if r.Drain? {
      AckPositive(s, DrainK);
    } else if r.ShootDown? {
      AckPositive(s, ShootK);
      ShootDownPhase(s, order);
      if s.d.shootDownACK == 1 {
        LastShootDown(s, order);
      }
    } else if r.Copy? {
      AckPositive(s, CopyK);
    } else if r.Restart? {
      AckPositive(s, RestartK);
    } else if r.RdmaRestart? {
      AckPositive(s, RdmaK);
    }
  }

  lemma LastShootDown(s: System, order: seq<nat>)
    requires CanProcess(s, order) && s.gpuIn[0].ShootDown? && s.d.shootDownACK == 1
    ensures ProcessStep(s, order).d.shootDownACK == 0 && ProcessStep(s, order).d.drainACK == s.d.drainACK
  {
    var req := s.d.current.value;
    VisitsAllPages(req, s.d.numGPUs, order);
    CopyAllFacts(s.d.(shootDownACK := 0), req, order, CopyK);
  }

  /* ----- Replies ----- */

  /** Every finished migration prepared one reply, in order, listing exactly the pages of its request. */
  lemma OneReplyPerMigration(s: System, patient: bool)
    requires Reachable(s, patient)
    ensures |s.accepted| == |s.prepared| + (if ReplyDue(s.d) then 1 else 0)
    ensures forall i :: 0 <= i < |s.prepared| ==>
              multiset(s.prepared[i].vAddrs) == multiset(PagesOf(s.accepted[i], s.d.numGPUs))
                  && s.prepared[i].rspToTop == s.accepted[i].respondToTop
  {
    ReachableInv(s, patient);
    forall i | 0 <= i < |s.prepared| ensures Answers(s.prepared[i], s.accepted[i], s.d.numGPUs) {
    }
  }

  /** Once the copies are done, exactly the pages of the request were copied. */
  lemma AllPagesCopied(s: System)
    requires Books(s) && (PhaseOf(s.d).Restarting? || PhaseOf(s.d).RestartingRdma?)
    ensures s.d.current.Some? && s.copied == multiset(PagesOf(s.d.current.value, s.d.numGPUs))
  {
    hide KnownRequest;
    hide PagesOf;
    hide OneCopy;
    hide Total;
    var bag: multiset<nat> := multiset(PagesOf(s.d.current.value, s.d.numGPUs));
    forall v: nat ensures s.copied[v] == bag[v] {
      assert PageCounted(s, v);
      assert Counted(s, CopyK);
      NoPages(s, v);
    }
    assert s.copied == bag;
  }

  /** When a reply is prepared, the pages it lists are the pages copied, each as often as it was copied. */
  lemma ReplyListsCopiedPages(s: System, order: seq<nat>, patient: bool)
    requires Reachable(s, patient) && CanProcess(s, order) && s.gpuIn[0].Copy? && s.d.pagesACK == 1
    ensures var s' := ProcessStep(s, order);
            s'.d.toSendToMMU.Some? && multiset(s'.d.toSendToMMU.value.vAddrs) == s'.copied
  {
    ReachableInv(s, patient);
    var s' := ProcessStep(s, order);
    ProcessBooks(s, order);
    LastCopyPhase(s, order);
    AllPagesCopied(s');
  }

  lemma LastCopyPhase(s: System, order: seq<nat>)
    requires CanProcess(s, order) && Books(s) && s.gpuIn[0].Copy? && s.d.pagesACK == 1
    ensures var s' := ProcessStep(s, order);
            && PhaseOf(s'.d).Restarting? && s'.d.current == s.d.current && s.d.current.Some?
               && s'.d.numGPUs == s.d.numGPUs
            && s'.d.toSendToMMU.Some?
               && multiset(s'.d.toSendToMMU.value.vAddrs) == multiset(PagesOf(s.d.current.value, s.d.numGPUs))
  {
    hide OneCopy;
    hide AllCounted;
    hide PagesCounted;
    hide PagesIn;
    hide PagesOf;
    VisitsAllPages(s.d.current.value, s.d.numGPUs, order);
  }

  /** With an MMU that waits for its reply, every prepared reply was sent or waits to be sent, in order. */
  lemma PatientMMUGetsAllReplies(s: System)
    requires Reachable(s, true)
    ensures s.prepared == s.mmuOut + Waiting(s.d)
    ensures |s.mmuOut| <= |s.accepted| <= |s.mmuOut| + 1
  {
    ReachableInv(s, true);
  }

  /** In general a reply is lost exactly when copies finish while the previous reply still waits. */
  lemma RepliesLostExactly(s: System, a: Action, patient: bool)
    requires Reachable(s, patient) && Enabled(s, a, patient)
    ensures s.prepared == s.mmuOut + Waiting(s.d) <==> s.lost == 0
    ensures Step(s, a, patient).lost > s.lost <==>
            (a.ProcessReturn? && s.gpuIn[0].Copy? && s.d.pagesACK == 1 && s.d.toSendToMMU.Some?)
  {
    ReachableInv(s, patient);
    if a.ProcessReturn? {
      if s.gpuIn[0].Copy? && s.d.pagesACK == 1 {
        LastCopyReplies(s, a.order, patient);
      } else {
        ProcessQuiet(s, a.order);
      }
    }
  }

  /* ----- The page table ----- */

  /** Where v occurs last in vs, or -1. */
  function LastAt(vs: seq<nat>, v: nat): (k: int)
    ensures -1 <= k < |vs| && (k >= 0 ==> vs[k] == v)
    ensures k < 0 <==> v !in vs
  {
    if vs == [] then -1 else if vs[|vs| - 1] == v then |vs| - 1 else LastAt(vs[..|vs| - 1], v)
  }

  lemma {:induction false} LastAtAppend(vs: seq<nat>, ws: seq<nat>, v: nat)
    ensures LastAt(vs + ws, v) == if v in ws then |vs| + LastAt(ws, v) else LastAt(vs, v)
  {
    if ws == [] {
      ConcatNil(vs);
    } else {
      var n := |ws| - 1;
      assert (vs + ws)[..|vs| + n] == vs + ws[..n];
      assert ws == ws[..n] + [ws[n]];
      LastAtAppend(vs, ws[..n], v);
    }
  }

  /** The frame of page v after copies for the pages vs were prepared: the newest one, or still the old one. */
  function FrameAfter(d: Driver, vs: seq<nat>, v: nat): nat
    requires v in d.pageTable
  {
    if v in vs then d.nextFrame + LastAt(vs, v) else d.pageTable[v].pAddr
  }

  /** Copy i of those for the pages vs goes from where its page is by then to a fresh frame. */
  ghost predicate CopyOf(d: Driver, d': Driver, vs: seq<nat>, i: nat)
    requires i < |vs| && |d'.copiesToSend| == |d.copiesToSend| + |vs|
  {
    var c := d'.copiesToSend[|d.copiesToSend| + i];
    && c.Copy? && c.vAddr == vs[i] && vs[i] in d.pageTable
    && c.from == FrameAfter(d, vs[..i], vs[i]) && c.to == d.nextFrame + i
  }

  /** Page v is, after the copies for vs, where the last copy of it goes, on the GPU that makes this copy. */
  ghost predicate PageMoved(d: Driver, d': Driver, vs: seq<nat>, v: nat)
    requires v in d.pageTable && |d'.copiesToSend| == |d.copiesToSend| + |vs|
  {
    v in d'.pageTable &&
    if v !in vs then d'.pageTable[v] == d.pageTable[v]
    else
      var c := d'.copiesToSend[|d.copiesToSend| + LastAt(vs, v)];
      c.Copy? && d'.pageTable[v] == Page(FrameAfter(d, vs, v), c.gpu + 1, true)
  }

  /** The copies made for the pages vs, which may name a page twice: one for each, and the page table follows. */
  ghost predicate Prepared(d: Driver, d': Driver, vs: seq<nat>) {
    && |d'.copiesToSend| == |d.copiesToSend| + |vs| && d.copiesToSend <= d'.copiesToSend
    && d'.nextFrame == d.nextFrame + |vs| && d'.pageTable.Keys == d.pageTable.Keys
    && (forall i :: 0 <= i < |vs| ==> CopyOf(d, d', vs, i))
    && (forall v :: v in d.pageTable ==> PageMoved(d, d', vs, v))
  }

  lemma PreparedOne(d: Driver, gpu: nat, v: nat)
    requires v in d.pageTable
    ensures Prepared(d, CopyPage(d, gpu, v), [v])
  {
    assert [v][..0] == [];
    assert LastAt([v], v) == 0;
  }

  lemma PreparedNone(d: Driver)
    ensures Prepared(d, d, [])
  {
  }

  lemma FramesAppend(a: Driver, b: Driver, vs: seq<nat>, ws: seq<nat>, v: nat)
    requires Prepared(a, b, vs) && v in a.pageTable
    ensures v in b.pageTable && FrameAfter(a, vs + ws, v) == FrameAfter(b, ws, v)
  {
    LastAtAppend(vs, ws, v);
    assert PageMoved(a, b, vs, v);
  }

  lemma PreparedTwice(a: Driver, b: Driver, c: Driver, vs: seq<nat>, ws: seq<nat>)
    requires Prepared(a, b, vs) && Prepared(b, c, ws)
    ensures Prepared(a, c, vs + ws)
  {
    forall i | 0 <= i < |vs + ws| ensures CopyOf(a, c, vs + ws, i) {
      CopiesAppend(a, b, c, vs, ws, i);
    }
    forall v | v in a.pageTable ensures PageMoved(a, c, vs + ws, v) {
      PagesAppend(a, b, c, vs, ws, v);
    }
  }

  lemma CopiesAppend(a: Driver, b: Driver, c: Driver, vs: seq<nat>, ws: seq<nat>, i: nat)
    requires Prepared(a, b, vs) && Prepared(b, c, ws) && i < |vs + ws|
    ensures |c.copiesToSend| == |a.copiesToSend| + |vs + ws| && CopyOf(a, c, vs + ws, i)
  {
    hide PageMoved;
    hide LastAt;
    var n := |a.copiesToSend|;
    if i < |vs| {
      assert (vs + ws)[..i] == vs[..i];
      assert CopyOf(a, b, vs, i);
      assert c.copiesToSend[n + i] == b.copiesToSend[n + i];
    } else {
      var j := i - |vs|;
      assert (vs + ws)[..i] == vs + ws[..j];
      assert c.copiesToSend[n + i] == c.copiesToSend[|b.copiesToSend| + j];
      assert CopyOf(b, c, ws, j);
      FramesAppend(a, b, vs, ws[..j], ws[j]);
    }
  }

  lemma PagesAppend(a: Driver, b: Driver, c: Driver, vs: seq<nat>, ws: seq<nat>, v: nat)
    requires Prepared(a, b, vs) && Prepared(b, c, ws) && v in a.pageTable
    ensures PageMoved(a, c, vs + ws, v)
  {
    hide CopyOf;
    LastAtAppend(vs, ws, v);
    FramesAppend(a, b, vs, ws, v);
    assert PageMoved(a, b, vs, v) && PageMoved(b, c, ws, v);
  }

  lemma {:induction false} CopyListPrepares(d: Driver, gpu: nat, vs: seq<nat>)
    requires forall v :: v in vs ==> v in d.pageTable
    ensures Prepared(d, CopyList(d, gpu, vs), vs)
    decreases |vs|
  {
    hide Prepared;
    if vs == [] {
      PreparedNone(d);
    } else {
      PreparedOne(d, gpu, vs[0]);
      CopyListPrepares(CopyPage(d, gpu, vs[0]), gpu, vs[1..]);
      assert vs == [vs[0]] + vs[1..];
      PreparedTwice(d, CopyPage(d, gpu, vs[0]), CopyList(d, gpu, vs), [vs[0]], vs[1..]);
    }
  }

  lemma {:induction false} CopyAllPrepares(d: Driver, req: MigrationReq, order: seq<nat>)
    requires forall v :: v in PagesIn(req, order) ==> v in d.pageTable
    ensures Prepared(d, CopyAll(d, req, order), PagesIn(req, order))
    decreases |order|
  {
    hide Prepared;
    hide PagesFor;
    if order == [] {
      PreparedNone(d);
    } else {
      var first, rest := PagesFor(req, order[0]), PagesIn(req, order[1..]);
      assert PagesIn(req, order) == first + rest;
      var d1 := CopyList(d, order[0], first);
      CopyListPrepares(d, order[0], first);
      CopyAllPrepares(d1, req, order[1..]);
      PreparedTwice(d, d1, CopyAll(d, req, order), first, rest);
    }
  }

  /* ----- Which GPU a page goes to ----- */

  /** The pages that the copies bring to GPU g, in the order of the copies. */
  function BroughtTo(copies: seq<Request>, g: nat): seq<nat> {
    if copies == [] then []
    else
      var c := copies[|copies| - 1];
      BroughtTo(copies[..|copies| - 1], g) + if c.Copy? && c.gpu == g then [c.vAddr] else []
  }

  lemma {:induction false} BroughtAppend(a: seq<Request>, b: seq<Request>, g: nat)
    ensures BroughtTo(a + b, g) == BroughtTo(a, g) + BroughtTo(b, g)
  {
    if b == [] {
      assert a + b == a;
    } else {
      var n := |b| - 1;
      assert (a + b)[..|a| + n] == a + b[..n];
      BroughtAppend(a, b[..n], g);
    }
  }

  /** The GPU each copy goes to when the GPUs in `order` get their pages in turn. */
  function VisitedGPUs(req: MigrationReq, order: seq<nat>): seq<nat> {
    if order == [] then [] else seq(|PagesFor(req, order[0])|, _ => order[0]) + VisitedGPUs(req, order[1..])
  }

  /** These are copies to the GPUs gs, one each. */
  ghost predicate GoTo(copies: seq<Request>, gs: seq<nat>) {
    |copies| == |gs| && forall i :: 0 <= i < |gs| ==> copies[i].Copy? && copies[i].gpu == gs[i]
  }

  lemma GoToAppend(a: seq<Request>, b: seq<Request>, c: seq<Request>, gs: seq<nat>, hs: seq<nat>)
    requires a <= b <= c && GoTo(b[|a|..], gs) && GoTo(c[|b|..], hs)
    ensures GoTo(c[|a|..], gs + hs)
  {
    assert c[|a|..] == b[|a|..] + c[|b|..];
  }

  /** What copying adds: copies to the GPUs gs, which bring `pages` to GPU g. */
  ghost predicate Brings(d: Driver, d': Driver, gs: seq<nat>, g: nat, pages: seq<nat>) {
    && d.copiesToSend <= d'.copiesToSend && GoTo(d'.copiesToSend[|d.copiesToSend|..], gs)
    && BroughtTo(d'.copiesToSend, g) == BroughtTo(d.copiesToSend, g) + pages
  }

  lemma BringsNone(d: Driver, g: nat)
    ensures Brings(d, d, [], g, [])
  {
  }

  lemma BringsOne(d: Driver, gpu: nat, v: nat, g: nat)
    requires v in d.pageTable
    ensures Brings(d, CopyPage(d, gpu, v), [gpu], g, if gpu == g then [v] else [])
  {
    assert CopyPage(d, gpu, v).copiesToSend[..|d.copiesToSend|] == d.copiesToSend;
  }

  lemma BringsTwice(a: Driver, b: Driver, c: Driver, gs: seq<nat>, hs: seq<nat>, g: nat, vs: seq<nat>, ws: seq<nat>)
    requires Brings(a, b, gs, g, vs) && Brings(b, c, hs, g, ws)
    ensures Brings(a, c, gs + hs, g, vs + ws)
  {
    hide GoTo;
    hide BroughtTo;
    GoToAppend(a.copiesToSend, b.copiesToSend, c.copiesToSend, gs, hs);
  }

  lemma {:induction false} CopyListBrings(d: Driver, gpu: nat, vs: seq<nat>, g: nat)
    requires forall v :: v in vs ==> v in d.pageTable
    ensures Brings(d, CopyList(d, gpu, vs), seq(|vs|, _ => gpu), g, if gpu == g then vs else [])
    decreases |vs|
  {
    hide Brings;
    if vs == [] {
      BringsNone(d, g);
      assert seq(|vs|, _ => gpu) == [];
    } else {
      var d1, again := CopyPage(d, gpu, vs[0]), seq(|vs[1..]|, _ => gpu);
      BringsOne(d, gpu, vs[0], g);
      CopyListBrings(d1, gpu, vs[1..], g);
      assert [gpu] + again == seq(|vs|, _ => gpu) && vs == [vs[0]] + vs[1..];
      ConcatNil<nat>([]);
      BringsTwice(d, d1, CopyList(d, gpu, vs), [gpu], again, g, if gpu == g then [vs[0]] else [],
                  if gpu == g then vs[1..] else []);
    }
  }

  /** What GPU g gets when the GPUs in `order` are visited: its own list at each visit. */
  function AtVisits(req: MigrationReq, order: seq<nat>, g: nat): seq<nat> {
    if order == [] then [] else (if order[0] == g then PagesFor(req, g) else []) + AtVisits(req, order[1..], g)
  }

  lemma {:induction false} CopyAllBrings(d: Driver, req: MigrationReq, order: seq<nat>, g: nat)
    requires forall v :: v in PagesIn(req, order) ==> v in d.pageTable
    ensures Brings(d, CopyAll(d, req, order), VisitedGPUs(req, order), g, AtVisits(req, order, g))
    decreases |order|
  {
    hide Brings;
    hide PagesFor;
    if order == [] {
      BringsNone(d, g);
    } else {
      var pages := PagesFor(req, order[0]);
      var d1 := CopyList(d, order[0], pages);
      CopyListBrings(d, order[0], pages, g);
      CopyAllBrings(d1, req, order[1..], g);
      BringsTwice(d, d1, CopyAll(d, req, order), seq(|pages|, _ => order[0]), VisitedGPUs(req, order[1..]), g,
                  if order[0] == g then pages else [], AtVisits(req, order[1..], g));
    }
  }

  lemma {:induction false} OneVisit(req: MigrationReq, order: seq<nat>, g: nat)
    requires multiset(order)[g] <= 1
    ensures AtVisits(req, order, g) == if g in order then PagesFor(req, g) else []
  {
    hide PagesFor;
    if order != [] {
      assert order == [order[0]] + order[1..];
      OneVisit(req, order[1..], g);
      assert order[0] == g ==> g !in multiset(order[1..]);
    }
  }

  lemma RequestingUnfold(req: MigrationReq, n: nat)
    ensures n == 0 ==> Requesting(req, n) == []
    ensures n > 0 && n in req.pages ==> Requesting(req, n) == Requesting(req, n - 1) + [n - 1]
    ensures n > 0 && n !in req.pages ==> Requesting(req, n) == Requesting(req, n - 1)
  {
    if n > 0 {
      ConcatNil(Requesting(req, n - 1));
    }
  }

  lemma OneBehind(s: seq<nat>, x: nat, g: nat)
    ensures multiset(s + [x])[g] == multiset(s)[g] + if x == g then 1 else 0
  {
  }

  /** Each requesting GPU is visited once. */
  lemma {:induction false} RequestingExactly(req: MigrationReq, n: nat, g: nat)
    ensures multiset(Requesting(req, n))[g] == if g < n && g + 1 in req.pages then 1 else 0
  {
    hide *;
    RequestingUnfold(req, n);
    if n > 0 {
      RequestingExactly(req, n - 1, g);
      if n in req.pages {
        OneBehind(Requesting(req, n - 1), n - 1, g);
      }
    }
  }

  lemma BroughtIsListed(copies: seq<Request>, g: nat, i: nat)
    requires i < |copies| && copies[i].Copy? && copies[i].gpu == g
    ensures copies[i].vAddr in BroughtTo(copies, g)
  {
    if i < |copies| - 1 {
      BroughtIsListed(copies[..|copies| - 1], g, i);
    }
  }

  lemma BroughtByOne(copies: seq<Request>, g: nat, v: nat) returns (i: nat)
    requires v in BroughtTo(copies, g)
    ensures i < |copies| && copies[i].Copy? && copies[i].gpu == g && copies[i].vAddr == v
  {
    var n := |copies| - 1;
    if v in BroughtTo(copies[..n], g) {
      i := BroughtByOne(copies[..n], g, v);
    } else {
      i := n;
    }
  }

  /** GPU g is one of the n GPUs, counted from 1 as in the request, and the request lists page v under it. */
  ghost predicate ListedUnder(req: MigrationReq, n: nat, g: int, v: nat) {
    0 < g <= n && g in req.pages && v in req.pages[g]
  }

  /** The copies made in a visit of `order`. */
  function NewCopies(d: Driver, order: seq<nat>): seq<Request>
    requires CopyReady(d, order)
  {
    ShootDownDone(d, order).copiesToSend[|d.copiesToSend|..]
  }

  lemma Cancel(a: seq<nat>, b: seq<nat>, c: seq<nat>)
    requires a + b == a + c
    ensures b == c
  {
    assert (a + b)[|a|..] == b && (a + c)[|a|..] == c;
  }

  /** Every GPU gets the pages listed under it, in the order of its list, and no others. */
  lemma EachGPUGetsItsList(d: Driver, order: seq<nat>, g: nat)
    requires CopyReady(d, order) && d.shootDownACK == 1
    ensures var req := d.current.value;
            && GoTo(NewCopies(d, order), VisitedGPUs(req, order))
            && BroughtTo(NewCopies(d, order), g) ==
               if g < d.numGPUs && g + 1 in req.pages then req.pages[g + 1] else []
  {
    hide PagesIn;
    hide PagesOf;
    hide CopyAll;
    hide VisitedGPUs;
    hide AtVisits;
    hide BroughtTo;
    var req, d0, made := d.current.value, d.(shootDownACK := 0), NewCopies(d, order);
    VisitsAllPages(req, d.numGPUs, order);
    CopyAllBrings(d0, req, order, g);
    OneVisitEach(req, d.numGPUs, order, g);
    BroughtAppend(d.copiesToSend, made, g);
    assert CopyAll(d0, req, order).copiesToSend == d.copiesToSend + made;
    Cancel(BroughtTo(d.copiesToSend, g), BroughtTo(made, g), AtVisits(req, order, g));
  }

  lemma OneVisitEach(req: MigrationReq, n: nat, order: seq<nat>, g: nat)
    requires VisitOrder(req, n, order)
    ensures AtVisits(req, order, g) == if g < n && g + 1 in req.pages then req.pages[g + 1] else []
  {
    RequestingExactly(req, n, g);
    OneVisit(req, order, g);
    assert g in order <==> g in multiset(order);
  }

  /** After the last shootdown response, whatever order the GPUs are visited in: one copy for each page of the request,
      to the GPU visited, from where the page is by then to a fresh frame, and the page table has the last one; other
      pages stay. */
  lemma PagesMoveWithTheirCopies(d: Driver, order: seq<nat>)
    requires CopyReady(d, order) && d.shootDownACK == 1
    ensures Prepared(d.(shootDownACK := 0), ShootDownDone(d, order), PagesIn(d.current.value, order))
    ensures multiset(PagesIn(d.current.value, order)) == multiset(PagesOf(d.current.value, d.numGPUs))
    ensures GoTo(NewCopies(d, order), VisitedGPUs(d.current.value, order))
  {
    VisitsAllPages(d.current.value, d.numGPUs, order);
    CopyAllPrepares(d.(shootDownACK := 0), d.current.value, order);
    CopyAllBrings(d.(shootDownACK := 0), d.current.value, order, 0);
  }

  /** Copies go to GPUs that asked for the page. */
  lemma CopyGoesWhereListed(d: Driver, order: seq<nat>, c: Request)
    requires d.current.Some? && CopyReady(d, order) && d.shootDownACK == 1 && c in NewCopies(d, order)
    ensures c.Copy? && c.gpu >= 0 && ListedUnder(d.current.value, d.numGPUs, c.gpu + 1, c.vAddr)
  {
    hide *;
    var made, gs := NewCopies(d, order), VisitedGPUs(d.current.value, order);
    var i: nat :| i < |made| && made[i] == c;
    PagesMoveWithTheirCopies(d, order);
    GoToAt(made, gs, i);
    EachGPUGetsItsList(d, order, c.gpu);
    BroughtIsListed(made, c.gpu, i);
    InItsList(d.current.value, d.numGPUs, c.gpu, c.vAddr);
  }

  lemma GoToAt(copies: seq<Request>, gs: seq<nat>, i: nat)
    requires GoTo(copies, gs) && i < |copies|
    ensures copies[i].Copy? && copies[i].gpu >= 0
  {
  }

  lemma InItsList(req: MigrationReq, n: nat, g: nat, v: nat)
    requires v in (if g < n && g + 1 in req.pages then req.pages[g + 1] else [])
    ensures ListedUnder(req, n, g + 1, v)
  {
  }

  lemma PreparedPage(d: Driver, d': Driver, vs: seq<nat>, v: nat)
    requires Prepared(d, d', vs) && v in d.pageTable
    ensures v in d'.pageTable && |d.copiesToSend| <= |d'.copiesToSend|
    ensures var made := d'.copiesToSend[|d.copiesToSend|..];
            || (d'.pageTable[v] == d.pageTable[v] && forall c :: c in made && c.Copy? ==> c.vAddr != v)
            || exists c :: c in made && c.Copy? && c.vAddr == v && d'.pageTable[v].device == c.gpu + 1
  {
    var made, n := d'.copiesToSend[|d.copiesToSend|..], |d.copiesToSend|;
    assert PageMoved(d, d', vs, v);
    if v in vs {
      var k := LastAt(vs, v);
      assert CopyOf(d, d', vs, k);
      assert made[k] == d'.copiesToSend[n + k];
      assert made[k] in made;
    } else {
      forall c | c in made && c.Copy? ensures c.vAddr != v {
        var i :| 0 <= i < |made| && made[i] == c;
        assert made[i] == d'.copiesToSend[n + i];
        assert CopyOf(d, d', vs, i);
      }
    }
  }

  /** The page table follows one of the copies of the page, or keeps a page without copies. */
  lemma MovedToCopy(d: Driver, order: seq<nat>, v: nat)
    requires CopyReady(d, order) && d.shootDownACK == 1 && v in d.pageTable
    ensures var d' := ShootDownDone(d, order);
            && v in d'.pageTable
            && ((d'.pageTable[v] == d.pageTable[v] &&
                 forall c :: c in NewCopies(d, order) && c.Copy? ==> c.vAddr != v)
                || exists c :: c in NewCopies(d, order) && c.Copy? && c.vAddr == v &&
                               d'.pageTable[v].device == c.gpu + 1)
  {
    var d0, d', made := d.(shootDownACK := 0), ShootDownDone(d, order), NewCopies(d, order);
    assert d0.copiesToSend == d.copiesToSend && made == d'.copiesToSend[|d.copiesToSend|..];
    PagesMoveWithTheirCopies(d, order);
    hide *;
    PreparedPage(d0, d', PagesIn(d.current.value, order), v);
  }

  /** The pages to migrate are those listed under known GPUs. */
  lemma ListedIsMigrated(req: MigrationReq, n: nat, g: int, v: nat)
    requires ListedUnder(req, n, g, v)
    ensures v in PagesOf(req, n)
  {
    RequestingExactly(req, n, g - 1);
    assert g - 1 in multiset(Requesting(req, n));
    InTheVisit(req, Requesting(req, n), g - 1, v);
  }

  lemma InTheVisit(req: MigrationReq, order: seq<nat>, g: nat, v: nat)
    requires g in order && v in PagesFor(req, g)
    ensures v in PagesIn(req, order)
  {
    if order[0] != g {
      InTheVisit(req, order[1..], g, v);
    }
  }

  lemma AskedIsBrought(d: Driver, order: seq<nat>, g: int, v: nat)
    requires CopyReady(d, order) && d.shootDownACK == 1 && ListedUnder(d.current.value, d.numGPUs, g, v)
    ensures exists c :: c in NewCopies(d, order) && c.Copy? && c.gpu == g - 1 && c.vAddr == v
  {
    EachGPUGetsItsList(d, order, g - 1);
    hide *;
    var i := BroughtByOne(NewCopies(d, order), g - 1, v);
    assert NewCopies(d, order)[i] in NewCopies(d, order);
  }

  /** A page ends on a GPU that asks for it, or stays when none does. */
  lemma PagesGoWhereAsked(d: Driver, order: seq<nat>, v: nat)
    requires CopyReady(d, order) && d.shootDownACK == 1 && v in d.pageTable
    ensures var req, n, d' := d.current.value, d.numGPUs, ShootDownDone(d, order);
            && v in d'.pageTable
            && ((forall g :: !ListedUnder(req, n, g, v)) ==> d'.pageTable[v] == d.pageTable[v])
            && ((exists g :: ListedUnder(req, n, g, v)) ==> ListedUnder(req, n, d'.pageTable[v].device, v))
  {
    var req, n := d.current.value, d.numGPUs;
    MovedToCopy(d, order, v);
    hide ListedUnder;
    hide NewCopies;
    hide ShootDownDone;
    forall c | c in NewCopies(d, order) ensures c.Copy? && c.gpu >= 0 && ListedUnder(req, n, c.gpu + 1, c.vAddr) {
      CopyGoesWhereListed(d, order, c);
    }
    if g :| ListedUnder(req, n, g, v) {
      AskedIsBrought(d, order, g, v);
    }
  }

  /** A page that one known GPU asks for ends on this GPU, and only this GPU copies it. */
  lemma RequesterGetsThePage(d: Driver, order: seq<nat>, v: nat, g: int)
    requires CopyReady(d, order) && d.shootDownACK == 1 && ListedUnder(d.current.value, d.numGPUs, g, v)
    requires forall h :: ListedUnder(d.current.value, d.numGPUs, h, v) ==> h == g
    ensures v in ShootDownDone(d, order).pageTable && ShootDownDone(d, order).pageTable[v].device == g
    ensures forall c :: c in NewCopies(d, order) && c.Copy? && c.vAddr == v ==> c.gpu == g - 1
  {
    hide ListedUnder;
    hide NewCopies;
    hide ShootDownDone;
    ListedIsMigrated(d.current.value, d.numGPUs, g, v);
    PagesGoWhereAsked(d, order, v);
    forall c | c in NewCopies(d, order) && c.Copy? && c.vAddr == v ensures c.gpu == g - 1 {
      CopyGoesWhereListed(d, order, c);
    }
  }

  /* ----- Who is asked ----- */

  /** The requests for GPUs that a step from d to d' adds. */
  function NewRequests(d: Driver, d': Driver): seq<Request> {
    if |d.requestsToSend| <= |d'.requestsToSend| then d'.requestsToSend[|d.requestsToSend|..] else []
  }

  lemma NewBehind(d: Driver, d': Driver, rs: seq<Request>)
    requires d'.requestsToSend == d.requestsToSend + rs
    ensures NewRequests(d, d') == rs
  {
  }

  /** GPU g, counted from 1, is asked to shoot down all pages that are listed under known GPUs. */
  ghost predicate IsShootDown(r: Request, g: int, d: Driver)
    requires d.current.Some?
  {
    && r.ShootDown? && r.gpu == g - 1
    && forall v :: v in r.vAddrs <==> exists h :: ListedUnder(d.current.value, d.numGPUs, h, v)
  }

  /** A migration begins with every GPU asked once to drain. */
  lemma EveryGPUDrains(d: Driver, req: MigrationReq)
    ensures var rs := NewRequests(d, Accept(d, req));
            |rs| == d.numGPUs && forall g :: 0 <= g < |rs| ==> rs[g] == Drain(g)
  {
    NewBehind(d, Accept(d, req), Drains(d.numGPUs));
  }

  /** After the last drain, and only then, the accessing GPUs shoot down all pages listed under known GPUs. */
  lemma AccessingGPUsShootDown(d: Driver)
    requires HasCurrent(d) && d.drainACK > 0
    ensures var rs, gs := NewRequests(d, DrainDone(d)), d.current.value.accessing;
            if d.drainACK > 1 then rs == []
            else |rs| == |gs| && forall i :: 0 <= i < |gs| ==> IsShootDown(rs[i], gs[i], d)
  {
    if d.drainACK == 1 {
      var gs, pages := d.current.value.accessing, PagesOf(d.current.value, d.numGPUs);
      NewBehind(d, DrainDone(d), ShootDowns(gs, pages));
      hide NewRequests;
      hide DrainDone;
      hide ListedUnder;
      PagesAreListed(d.current.value, d.numGPUs);
      hide PagesOf;
    }
  }

  /** After the last copy, and only then, the GPUs that were asked to shoot down are asked to restart. */
  lemma SameGPUsRestart(d: Driver, order: seq<nat>)
    requires HasCurrent(d) && CopyReady(d, order) && d.pagesACK > 0
    ensures var rs, gs := NewRequests(d, CopyDone(d, order)), d.current.value.accessing;
            if d.pagesACK > 1 then rs == []
            else |rs| == |gs| && forall i :: 0 <= i < |gs| ==> rs[i] == Restart(gs[i] - 1)
  {
    hide PagesIn;
    hide PagesOf;
    if d.pagesACK == 1 {
      NewBehind(d, CopyDone(d, order), Restarts(d.current.value.accessing));
    }
  }

  /** After the last restart, and only then, every GPU is asked once to restart its RDMA. */
  lemma EveryRdmaRestarts(d: Driver)
    requires d.restartACK > 0
    ensures var rs := NewRequests(d, RestartDone(d));
            if d.restartACK > 1 then rs == []
            else |rs| == d.numGPUs && forall g :: 0 <= g < |rs| ==> rs[g] == RdmaRestart(g)
  {
    if d.restartACK == 1 {
      NewBehind(d, RestartDone(d), RdmaRestarts(d.numGPUs));
    }
  }

  lemma PagesAreListed(req: MigrationReq, n: nat)
    ensures forall v :: v in PagesOf(req, n) <==> exists g :: ListedUnder(req, n, g, v)
  {
    forall v ensures v in PagesOf(req, n) <==> exists g :: ListedUnder(req, n, g, v) {
      if g :| ListedUnder(req, n, g, v) {
        ListedIsMigrated(req, n, g, v);
      }
      if v in PagesOf(req, n) {
        var g := OneLists(req, Requesting(req, n), v);
        RequestingExactly(req, n, g);
        assert g in multiset(Requesting(req, n));
        assert ListedUnder(req, n, g + 1, v);
      }
    }
  }

  lemma OneLists(req: MigrationReq, order: seq<nat>, v: nat) returns (g: nat)
    requires v in PagesIn(req, order)
    ensures g in order && v in PagesFor(req, g)
  {
    if v in PagesFor(req, order[0]) {
      g := order[0];
    } else {
      g := OneLists(req, order[1..], v);
    }
  }

  /** What the GPUs do to the frames when they make these copies one after the other. */
  ghost function Copied(frames: nat -> int, copies: seq<Request>): nat -> int {
    if copies == [] then frames
    else
      var before, c := Copied(frames, copies[..|copies| - 1]), copies[|copies| - 1];
      (f: nat) => if c.Copy? && f == c.to then before(c.from) else before(f)
  }

  /** All frames in use were handed out before the next fresh one. */
  ghost predicate Fresh(d: Driver) {
    forall v :: v in d.pageTable ==> d.pageTable[v].pAddr < d.nextFrame
  }

  lemma FrameStep(d: Driver, vs: seq<nat>, n: nat, v: nat)
    requires n < |vs| && v in d.pageTable && Fresh(d)
    ensures FrameAfter(d, vs[..n + 1], v) == if vs[n] == v then d.nextFrame + n else FrameAfter(d, vs[..n], v)
    ensures FrameAfter(d, vs[..n], v) < d.nextFrame + n
  {
    assert vs[..n + 1] == vs[..n] + [vs[n]];
    LastAtAppend(vs[..n], [vs[n]], v);
    assert vs[n] == v ==> LastAt([vs[n]], v) == 0;
  }

  lemma CopiedStep(frames: nat -> int, copies: seq<Request>, n: nat, f: nat)
    requires n < |copies| && copies[n].Copy?
    ensures Copied(frames, copies[..n + 1])(f) ==
            Copied(frames, copies[..n])(if f == copies[n].to then copies[n].from else f)
  {
    assert copies[..n + 1][..n] == copies[..n];
  }

  /** After n of the copies, page v has its contents in the frame where it is by then. */
  ghost predicate ContentsAt(d: Driver, d': Driver, vs: seq<nat>, frames: nat -> int, n: nat, v: nat)
    requires |d'.copiesToSend| == |d.copiesToSend| + |vs| && n <= |vs| && v in d.pageTable
  {
    Copied(frames, d'.copiesToSend[|d.copiesToSend|..][..n])(FrameAfter(d, vs[..n], v)) == frames(d.pageTable[v].pAddr)
  }

  lemma ContentsStep(d: Driver, d': Driver, vs: seq<nat>, frames: nat -> int, n: nat, v: nat)
    requires Prepared(d, d', vs) && Fresh(d) && n < |vs| && v in d.pageTable && ContentsAt(d, d', vs, frames, n, v)
    ensures ContentsAt(d, d', vs, frames, n + 1, v)
  {
    CopyAt(d, d', vs, n);
    FrameStep(d, vs, n, v);
    hide Prepared;
    hide Fresh;
    hide Copied;
    hide FrameAfter;
    CopiedStep(frames, d'.copiesToSend[|d.copiesToSend|..], n, FrameAfter(d, vs[..n + 1], v));
  }

  lemma ContentsStart(d: Driver, d': Driver, vs: seq<nat>, frames: nat -> int, v: nat)
    requires |d'.copiesToSend| == |d.copiesToSend| + |vs| && v in d.pageTable
    ensures ContentsAt(d, d', vs, frames, 0, v)
  {
    assert vs[..0] == [] && d'.copiesToSend[|d.copiesToSend|..][..0] == [];
  }

  lemma SomeCopies(d: Driver, d': Driver, vs: seq<nat>)
    requires Prepared(d, d', vs)
    ensures |d'.copiesToSend| == |d.copiesToSend| + |vs|
  {
  }

  lemma {:induction false} ContentsFollow(d: Driver, d': Driver, vs: seq<nat>, frames: nat -> int, n: nat, v: nat)
    requires Prepared(d, d', vs) && Fresh(d) && n <= |vs| && v in d.pageTable
    ensures |d'.copiesToSend| == |d.copiesToSend| + |vs| && ContentsAt(d, d', vs, frames, n, v)
  {
    hide *;
    SomeCopies(d, d', vs);
    if n == 0 {
      ContentsStart(d, d', vs, frames, v);
    } else {
      ContentsFollow(d, d', vs, frames, n - 1, v);
      ContentsStep(d, d', vs, frames, n - 1, v);
    }
  }

  lemma CopyAt(d: Driver, d': Driver, vs: seq<nat>, i: nat)
    requires Prepared(d, d', vs) && i < |vs|
    ensures |d'.copiesToSend| == |d.copiesToSend| + |vs| && vs[i] in d.pageTable
    ensures var c := d'.copiesToSend[|d.copiesToSend|..][i];
            c.Copy? && c.from == FrameAfter(d, vs[..i], vs[i]) && c.to == d.nextFrame + i
  {
    hide FrameAfter;
    hide PageMoved;
    assert CopyOf(d, d', vs, i);
  }

  lemma FreshKept(d: Driver, d': Driver, vs: seq<nat>)
    requires Prepared(d, d', vs) && Fresh(d)
    ensures Fresh(d')
  {
    forall v | v in d'.pageTable ensures d'.pageTable[v].pAddr < d'.nextFrame {
      assert PageMoved(d, d', vs, v);
    }
  }

  /** No page loses its contents: after the copies of a migration every page, in its frame of the new page table, has
      what it had before in its old one. */
  lemma MigrationKeepsContents(d: Driver, order: seq<nat>, frames: nat -> int, v: nat)
    requires CopyReady(d, order) && d.shootDownACK == 1 && Fresh(d) && v in d.pageTable
    ensures var d' := ShootDownDone(d, order);
            && Fresh(d') && v in d'.pageTable && |d'.copiesToSend| >= |d.copiesToSend|
            && Copied(frames, d'.copiesToSend[|d.copiesToSend|..])(d'.pageTable[v].pAddr) ==
               frames(d.pageTable[v].pAddr)
  {
    var d0, d' := d.(shootDownACK := 0), ShootDownDone(d, order);
    var vs := PagesIn(d.current.value, order);
    PagesMoveWithTheirCopies(d, order);
    hide CopyReady;
    hide ShootDownDone;
    FreshKept(d0, d', vs);
    var copies := d'.copiesToSend[|d.copiesToSend|..];
    ContentsFollow(d0, d', vs, frames, |vs|, v);
    assert copies[..|vs|] == copies && vs[..|vs|] == vs;
    assert PageMoved(d0, d', vs, v);
  }
}
