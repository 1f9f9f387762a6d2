/** The driver's migration handlers as methods that update the driver in place. */
module Drivers {
  import opened Wrappers
  import M = MigrationModel
  import W = MigrationWake

  lemma {:induction false} CopyListAppend(d: M.Driver, gpu: nat, vs: seq<nat>, v: nat)
    requires (forall x :: x in vs ==> x in d.pageTable) && v in d.pageTable
    ensures M.CopyList(d, gpu, vs + [v]) == M.CopyPage(M.CopyList(d, gpu, vs), gpu, v)
    decreases |vs|
  {
    if vs == [] {
      assert [v][1..] == [];
      ConcatNil([v]);
      assert M.CopyList(M.CopyPage(d, gpu, v), gpu, []) == M.CopyPage(d, gpu, v);
    } else {
      CopyListAppend(M.CopyPage(d, gpu, vs[0]), gpu, vs[1..], v);
      TailOfConcat(vs, [v]);
    }
  }

  lemma {:induction false} PagesInAppend(req: M.MigrationReq, order: seq<nat>, g: nat)
    ensures M.PagesIn(req, order + [g]) == M.PagesIn(req, order) + M.PagesFor(req, g)
  {
    hide M.PagesFor;
    if order == [] {
      assert [g][1..] == [];
      ConcatNil([g]);
      ConcatNil(M.PagesFor(req, g));
    } else {
      PagesInAppend(req, order[1..], g);
      TailOfConcat(order, [g]);
      assert M.PagesFor(req, order[0]) + (M.PagesIn(req, order[1..]) + M.PagesFor(req, g)) ==
             (M.PagesFor(req, order[0]) + M.PagesIn(req, order[1..])) + M.PagesFor(req, g);
    }
  }

  lemma {:induction false} CopyAllAppend(d: M.Driver, req: M.MigrationReq, order: seq<nat>, g: nat)
    requires forall x :: x in M.PagesIn(req, order + [g]) ==> x in d.pageTable
    ensures (forall x :: x in M.PagesIn(req, order) ==> x in d.pageTable)
            && (forall x :: x in M.PagesFor(req, g) ==> x in d.pageTable)
    ensures M.CopyAll(d, req, order + [g]) == M.CopyList(M.CopyAll(d, req, order), g, M.PagesFor(req, g))
    decreases |order|
  {
    hide M.PagesFor;
    PagesInAppend(req, order, g);
    if order == [] {
      assert [g][1..] == [];
      ConcatNil([g]);
    } else {
      var d1 := M.CopyList(d, order[0], M.PagesFor(req, order[0]));
      TailOfConcat(order, [g]);
      CopyAllAppend(d1, req, order[1..], g);
    }
  }

  function SetOf(s: seq<nat>): set<nat> {
    set x | x in s
  }

  lemma {:induction false} RequestingOnce(req: M.MigrationReq, n: nat)
    ensures forall g :: g in M.Requesting(req, n) ==> g < n
    ensures multiset(M.Requesting(req, n)) == multiset(SetOf(M.Requesting(req, n)))
  {
    if n > 0 {
      RequestingOnce(req, n - 1);
      var before := M.Requesting(req, n - 1);
      if n in req.pages {
        assert SetOf(before + [n - 1]) == SetOf(before) + {n - 1};
      } else {
        ConcatNil(before);
      }
    }
  }

  class Driver {
    const numGPUs: nat
    var requestsToSend: seq<M.Request>
    var currentPageMigrationReq: Option<M.MigrationReq>
    var toSendToMMU: Option<M.Reply>
    var migrationReqToSendToCP: seq<M.Request>
    var isCurrentlyHandlingMigrationReq: bool
    var numRDMADrainACK: nat
    var numRDMARestartACK: nat
    var numShootDownACK: nat
    var numRestartACK: nat
    var numPagesMigratingACK: nat
    var isCurrentlyMigratingOnePage: bool
    var pageTable: map<nat, M.Page>
    var nextFrame: nat

    function View(): M.Driver
      reads this
    {
      M.Driver(numGPUs, requestsToSend, currentPageMigrationReq, toSendToMMU, migrationReqToSendToCP,
               isCurrentlyHandlingMigrationReq, numRDMADrainACK, numShootDownACK, numPagesMigratingACK, numRestartACK,
               numRDMARestartACK, isCurrentlyMigratingOnePage, pageTable, nextFrame)
    }

    constructor (numGPUs: nat, pageTable: map<nat, M.Page>, nextFrame: nat)
      ensures View() == M.Driver(numGPUs, [], None, None, [], false, 0, 0, 0, 0, 0, false, pageTable, nextFrame)
    {
      this.numGPUs, this.pageTable, this.nextFrame := numGPUs, pageTable, nextFrame;
      requestsToSend, currentPageMigrationReq, toSendToMMU, migrationReqToSendToCP := [], None, None, [];
      isCurrentlyHandlingMigrationReq, isCurrentlyMigratingOnePage := false, false;
      numRDMADrainACK, numRDMARestartACK, numShootDownACK, numRestartACK, numPagesMigratingACK := 0, 0, 0, 0, 0;
    }

    method InitiateRDMADrain()
      modifies this`requestsToSend, this`numRDMADrainACK
      ensures requestsToSend == old(requestsToSend) + M.Drains(numGPUs)
              && numRDMADrainACK == old(numRDMADrainACK) + numGPUs
    {
      var i := 0;
      while i < numGPUs
        invariant i <= numGPUs && numRDMADrainACK == old(numRDMADrainACK) + i
        invariant requestsToSend == old(requestsToSend) + M.Drains(i)
      {
        assert M.Drains(i + 1) == M.Drains(i) + [M.Drain(i)];
        requestsToSend := requestsToSend + [M.Drain(i)];
        numRDMADrainACK := numRDMADrainACK + 1;
        i := i + 1;
      }
    }

    /** parseFromMMU; `req` is the message in the MMU port. */
    method ParseFromMMU(req: Option<M.MigrationReq>) returns (madeProgress: bool)
      modifies this
      ensures madeProgress == (req.Some? && !old(isCurrentlyHandlingMigrationReq))
      ensures View() == if madeProgress then M.Accept(old(View()), req.value) else old(View())
    {
      if isCurrentlyHandlingMigrationReq || req.None? {
        return false;
      }
      currentPageMigrationReq := req;
      isCurrentlyHandlingMigrationReq := true;
      InitiateRDMADrain();
      return true;
    }

    method ProcessRDMADrainRsp() returns (madeProgress: bool)
      requires M.HasCurrent(View())
      modifies this
      ensures madeProgress && View() == M.DrainDone(old(View()))
    {
      numRDMADrainACK := M.Dec(numRDMADrainACK);
      if numRDMADrainACK == 0 {
        SendShootDownReqs();
      }
      return true;
    }

    method SendShootDownReqs()
      requires M.HasCurrent(View())
      modifies this`requestsToSend, this`numShootDownACK
      ensures var req := currentPageMigrationReq.value;
              && requestsToSend == old(requestsToSend) + M.ShootDowns(req.accessing, M.PagesOf(req, numGPUs))
              && numShootDownACK == |req.accessing|
    {
      var req := currentPageMigrationReq.value;
      var vAddr := [];
      var i := 1;
      while i < numGPUs + 1
        invariant 1 <= i <= numGPUs + 1 && vAddr == M.PagesIn(req, M.Requesting(req, i - 1))
        invariant requestsToSend == old(requestsToSend)
      {
        if i in req.pages {
          PagesInAppend(req, M.Requesting(req, i - 1), i - 1);
          vAddr := vAddr + req.pages[i];
        } else {
          ConcatNil(M.Requesting(req, i - 1));
        }
        i := i + 1;
      }
      assert vAddr == M.PagesOf(req, numGPUs);
      hide M.PagesIn;
      numShootDownACK := |req.accessing|;
      i := 0;
      assert M.ShootDowns(req.accessing[..0], vAddr) == [];
      while i < |req.accessing|
        invariant i <= |req.accessing| && numShootDownACK == |req.accessing|
        invariant requestsToSend == old(requestsToSend) + M.ShootDowns(req.accessing[..i], vAddr)
      {
        assert M.ShootDowns(req.accessing[..i + 1], vAddr) ==
            M.ShootDowns(req.accessing[..i], vAddr) + [M.ShootDown(req.accessing[i] - 1, vAddr)];
        requestsToSend := requestsToSend + [M.ShootDown(req.accessing[i] - 1, vAddr)];
        i := i + 1;
      }
      assert req.accessing[..i] == req.accessing;
    }

    method FindRequestingGPUs(req: M.MigrationReq) returns (requestingGPUs: seq<nat>)
      ensures requestingGPUs == M.Requesting(req, numGPUs)
    {
      requestingGPUs := [];
      var i := 1;
      while i < numGPUs + 1
        invariant 1 <= i <= numGPUs + 1 && requestingGPUs == M.Requesting(req, i - 1)
      {
        if i in req.pages {
          requestingGPUs := requestingGPUs + [i - 1];
        } else {
          ConcatNil(requestingGPUs);
        }
        i := i + 1;
      }
    }

    /** The map from requesting GPU to its pages, built by both users in the same way. */
    method PagesByGPU(req: M.MigrationReq) returns (pageVaddrs: map<nat, seq<nat>>)
      ensures forall g :: g in pageVaddrs ==> pageVaddrs[g] == M.PagesFor(req, g)
      ensures multiset(pageVaddrs.Keys) == multiset(M.Requesting(req, numGPUs))
    {
      var requestingGPUs := FindRequestingGPUs(req);
      pageVaddrs := map[];
      var i := 0;
      while i < |requestingGPUs|
        invariant i <= |requestingGPUs| && pageVaddrs.Keys == SetOf(requestingGPUs[..i])
        invariant forall g :: g in pageVaddrs ==> pageVaddrs[g] == M.PagesFor(req, g)
      {
        var g := requestingGPUs[i];
        pageVaddrs := pageVaddrs[g := if g + 1 in req.pages then req.pages[g + 1] else []];
        assert requestingGPUs[..i + 1] == requestingGPUs[..i] + [g];
        i := i + 1;
      }
      assert requestingGPUs[..i] == requestingGPUs;
      RequestingOnce(req, numGPUs);
    }

    /** preparePageForMigration and the copy request. */
    method PreparePage(gpuID: nat, vAddr: nat)
      requires vAddr in pageTable
      modifies this`pageTable, this`nextFrame, this`migrationReqToSendToCP, this`numPagesMigratingACK
      ensures View() == M.CopyPage(old(View()), gpuID, vAddr)
    {
      var oldPAddr := pageTable[vAddr].pAddr;
      var newPAddr := nextFrame;
      nextFrame := nextFrame + 1;
      pageTable := pageTable[vAddr := M.Page(newPAddr, gpuID + 1, true)];
      migrationReqToSendToCP := migrationReqToSendToCP + [M.Copy(gpuID, vAddr, oldPAddr, newPAddr)];
      numPagesMigratingACK := numPagesMigratingACK + 1;
    }

    method PreparePages(gpuID: nat, vAddrs: seq<nat>)
      requires forall v :: v in vAddrs ==> v in pageTable
      modifies this`pageTable, this`nextFrame, this`migrationReqToSendToCP, this`numPagesMigratingACK
      ensures View() == M.CopyList(old(View()), gpuID, vAddrs)
    {
      ghost var d := View();
      var i := 0;
      while i < |vAddrs|
        invariant i <= |vAddrs| && View() == M.CopyList(d, gpuID, vAddrs[..i])
      {
        assert vAddrs[i] in vAddrs;
        CopyListAppend(d, gpuID, vAddrs[..i], vAddrs[i]);
        assert vAddrs[..i + 1] == vAddrs[..i] + [vAddrs[i]];
        PreparePage(gpuID, vAddrs[i]);
        i := i + 1;
      }
      assert vAddrs[..i] == vAddrs;
    }

    /** A set of keys still to visit and the order of those visited. */
    static lemma Visited(keys: set<nat>, g: nat, order: seq<nat>, all: multiset<nat>)
      requires g in keys && multiset(order) + multiset(keys) == all
      ensures multiset(order + [g]) + multiset(keys - {g}) == all
    {
      assert multiset(keys) == multiset(keys - {g}) + multiset{g};
    }

    /** Reports progress only for the last response. */
    method ProcessShootdownCompleteRsp() returns (madeProgress: bool, ghost order: seq<nat>)
      requires currentPageMigrationReq.Some?
              && M.CopyReady(View(), M.Requesting(currentPageMigrationReq.value, numGPUs))
      modifies this
      ensures M.CopyReady(old(View()), order) && View() == M.ShootDownDone(old(View()), order)
      ensures madeProgress == (M.Dec(old(numShootDownACK)) == 0)
    {
      hide M.PagesFor;
      order := M.Requesting(currentPageMigrationReq.value, numGPUs);
      numShootDownACK := M.Dec(numShootDownACK);
      if numShootDownACK == 0 {
        ghost var d := View();
        var req := currentPageMigrationReq.value;
        var pageVaddrs := PagesByGPU(req);
        var remaining := pageVaddrs.Keys;
        order := [];
        ghost var all := multiset(remaining);
        while remaining != {}
          invariant remaining <= pageVaddrs.Keys && multiset(order) + multiset(remaining) == all
          invariant pageTable.Keys == d.pageTable.Keys && currentPageMigrationReq == Some(req)
          invariant forall v :: v in M.PagesIn(req, order) ==> v in d.pageTable
          invariant View() == M.CopyAll(d, req, order)
          decreases remaining
        {
          var gpuID :| gpuID in remaining;
          Mapped(req, numGPUs, order, gpuID, remaining, d.pageTable.Keys);
          CopyAllAppend(d, req, order, gpuID);
          PreparePages(gpuID, pageVaddrs[gpuID]);
          Visited(remaining, gpuID, order, all);
          order := order + [gpuID];
          remaining := remaining - {gpuID};
        }
        return true, order;
      }
      return false, order;
    }

    /** Every page met on the way is one of the request. */
    static lemma Mapped(req: M.MigrationReq, n: nat, order: seq<nat>, g: nat, remaining: set<nat>, mapped: set<nat>)
      requires multiset(order) + multiset(remaining) == multiset(M.Requesting(req, n)) && g in remaining
      requires forall v :: v in M.PagesOf(req, n) ==> v in mapped
      ensures forall v :: v in M.PagesIn(req, order + [g]) ==> v in mapped
    {
      forall x | x in order + [g] ensures x in M.Requesting(req, n) {
        assert x in multiset(order) + multiset(remaining);
      }
      forall v | v in M.PagesIn(req, order + [g]) ensures v in mapped {
        var x := Home(req, order + [g], v);
        Contributes(req, M.Requesting(req, n), x, v);
      }
    }

    static lemma {:induction false} Home(req: M.MigrationReq, order: seq<nat>, v: nat) returns (g: nat)
      requires v in M.PagesIn(req, order)
      ensures g in order && v in M.PagesFor(req, g)
    {
      if v in M.PagesFor(req, order[0]) {
        g := order[0];
      } else {
        g := Home(req, order[1..], v);
      }
    }

    static lemma {:induction false} Contributes(req: M.MigrationReq, order: seq<nat>, g: nat, v: nat)
      requires g in order && v in M.PagesFor(req, g)
      ensures v in M.PagesIn(req, order)
    {
      if g != order[0] {
        Contributes(req, order[1..], g, v);
      }
    }

    method ProcessPageMigrationRspFromCP() returns (madeProgress: bool, ghost order: seq<nat>)
      requires M.HasCurrent(View())
      modifies this
      ensures M.VisitOrder(old(View()).current.value, numGPUs, order)
      ensures madeProgress && View() == M.CopyDone(old(View()), order)
    {
      hide M.Requesting;
      hide M.PagesIn;
      hide M.PagesOf;
      hide M.Restarts;
      order := M.Requesting(currentPageMigrationReq.value, numGPUs);
      numPagesMigratingACK := M.Dec(numPagesMigratingACK);
      isCurrentlyMigratingOnePage := false;
      if numPagesMigratingACK == 0 {
        PrepareGPURestartReqs();
        order := PreparePageMigrationRspToMMU();
      }
      return true, order;
    }

    method PrepareGPURestartReqs()
      requires M.HasCurrent(View())
      modifies this`requestsToSend, this`numRestartACK
      ensures requestsToSend == old(requestsToSend) + M.Restarts(currentPageMigrationReq.value.accessing)
      ensures numRestartACK == old(numRestartACK) + |currentPageMigrationReq.value.accessing|
    {
      var accessingGPUs := currentPageMigrationReq.value.accessing;
      var i := 0;
      while i < |accessingGPUs|
        invariant i <= |accessingGPUs| && numRestartACK == old(numRestartACK) + i
        invariant requestsToSend == old(requestsToSend) + M.Restarts(accessingGPUs[..i])
      {
        assert M.Restarts(accessingGPUs[..i + 1]) == M.Restarts(accessingGPUs[..i]) + [M.Restart(accessingGPUs[i] - 1)];
        requestsToSend := requestsToSend + [M.Restart(accessingGPUs[i] - 1)];
        numRestartACK := numRestartACK + 1;
        i := i + 1;
      }
      assert accessingGPUs[..i] == accessingGPUs;
    }

    static method AppendAll(vAddr: seq<nat>, pages: seq<nat>) returns (r: seq<nat>)
      ensures r == vAddr + pages
    {
      r := vAddr;
      var j := 0;
      while j < |pages|
        invariant j <= |pages| && r == vAddr + pages[..j]
      {
        r := r + [pages[j]];
        j := j + 1;
      }
      assert pages[..j] == pages;
    }

    method PreparePageMigrationRspToMMU() returns (ghost order: seq<nat>)
      requires currentPageMigrationReq.Some?
      modifies this`toSendToMMU
      ensures var req := currentPageMigrationReq.value;
              M.VisitOrder(req, numGPUs, order) && toSendToMMU == Some(M.Reply(M.PagesIn(req, order), req.respondToTop))
    {
      hide M.PagesFor;
      var req := currentPageMigrationReq.value;
      var pageVaddrs := PagesByGPU(req);
      var remaining := pageVaddrs.Keys;
      ghost var all := multiset(remaining);
      order := [];
      var vAddr := [];
      while remaining != {}
        invariant remaining <= pageVaddrs.Keys && multiset(order) + multiset(remaining) == all
                && vAddr == M.PagesIn(req, order)
        decreases remaining
      {
        var gpuID :| gpuID in remaining;
        vAddr := AppendAll(vAddr, pageVaddrs[gpuID]);
        PagesInAppend(req, order, gpuID);
        Visited(remaining, gpuID, order, all);
        order := order + [gpuID];
        remaining := remaining - {gpuID};
      }
      toSendToMMU := Some(M.Reply(vAddr, req.respondToTop));
    }

    method HandleGPURestartRsp() returns (madeProgress: bool)
      modifies this
      ensures madeProgress && View() == M.RestartDone(old(View()))
    {
      numRestartACK := M.Dec(numRestartACK);
      if numRestartACK == 0 {
        PrepareRDMARestartReqs();
      }
      return true;
    }

    method PrepareRDMARestartReqs()
      modifies this`requestsToSend, this`numRDMARestartACK
      ensures requestsToSend == old(requestsToSend) + M.RdmaRestarts(numGPUs)
              && numRDMARestartACK == old(numRDMARestartACK) + numGPUs
    {
      var i := 0;
      while i < numGPUs
        invariant i <= numGPUs && numRDMARestartACK == old(numRDMARestartACK) + i
        invariant requestsToSend == old(requestsToSend) + M.RdmaRestarts(i)
      {
        assert M.RdmaRestarts(i + 1) == M.RdmaRestarts(i) + [M.RdmaRestart(i)];
        requestsToSend := requestsToSend + [M.RdmaRestart(i)];
        numRDMARestartACK := numRDMARestartACK + 1;
        i := i + 1;
      }
    }

    method ProcessRDMARestartRspToDriver() returns (madeProgress: bool)
      modifies this
      ensures madeProgress && View() == M.RdmaRestartDone(old(View()))
    {
      numRDMARestartACK := M.Dec(numRDMARestartACK);
      if numRDMARestartACK == 0 {
        currentPageMigrationReq := None;
        isCurrentlyHandlingMigrationReq := false;
      }
      return true;
    }

    /** There is a migration whose pages are mapped. */
    ghost predicate MigrationReady()
      reads this
    {
      && M.HasCurrent(View())
      && M.CopyReady(View(), M.Requesting(currentPageMigrationReq.value, numGPUs))
    }

    /** processReturnReq on the response at the head of the GPU port. */
    method ProcessReturnReq(rsp: Option<M.Request>) returns (madeProgress: bool, ghost order: seq<nat>)
      requires rsp.None? || rsp.value.Launch? || rsp.value.Restart? || rsp.value.RdmaRestart? || MigrationReady()
      modifies this
      ensures old(currentPageMigrationReq).Some? ==> M.VisitOrder(old(currentPageMigrationReq).value, numGPUs, order)
      ensures rsp.None? ==> !madeProgress && View() == old(View())
      ensures rsp.Some? && rsp.value.Launch? ==> madeProgress && View() == old(View())
      ensures rsp.Some? && !(rsp.value.Launch? || rsp.value.Restart? || rsp.value.RdmaRestart?) ==>
              M.CopyReady(old(View()), order)
      ensures rsp.Some? ==> View() == M.Answered(old(View()), rsp.value, order)
      ensures rsp.Some? ==> madeProgress == (rsp.value.ShootDown? ==> M.Dec(old(numShootDownACK)) == 0)
    {
      order := if currentPageMigrationReq.Some? then M.Requesting(currentPageMigrationReq.value, numGPUs) else [];
      if rsp.None? {
        return false, order;
      }
      match rsp.value {
        case Drain(_) => madeProgress := ProcessRDMADrainRsp();
        case ShootDown(_, _) => madeProgress, order := ProcessShootdownCompleteRsp();
        case Copy(_, _, _, _) => madeProgress, order := ProcessPageMigrationRspFromCP();
        case Restart(_) => madeProgress := HandleGPURestartRsp();
        case RdmaRestart(_) => madeProgress := ProcessRDMARestartRspToDriver();
        case Launch(_) => madeProgress := true;
      }
    }

    /** sendToGPUs; `accepted` says whether the port's Send succeeds. */
    method SendToGPUs(accepted: bool) returns (madeProgress: bool, sent: seq<M.Request>)
      modifies this`requestsToSend
      ensures madeProgress == (old(requestsToSend) != [] && accepted)
      ensures old(requestsToSend) == sent + requestsToSend && |sent| == (if madeProgress then 1 else 0)
    {
      if |requestsToSend| == 0 || !accepted {
        return false, [];
      }
      sent, requestsToSend := [requestsToSend[0]], requestsToSend[1..];
      return true, sent;
    }

    method SendToMMU(accepted: bool) returns (madeProgress: bool, sent: Option<M.Reply>)
      modifies this`toSendToMMU
      ensures madeProgress == (old(toSendToMMU).Some? && accepted)
      ensures if madeProgress then sent == old(toSendToMMU) && toSendToMMU == None
              else sent == None && toSendToMMU == old(toSendToMMU)
    {
      if toSendToMMU.None? || !accepted {
        return false, None;
      }
      sent, toSendToMMU := toSendToMMU, None;
      return true, sent;
    }

    method SendMigrationReqToCP(accepted: bool) returns (madeProgress: bool, sent: seq<M.Request>)
      modifies this`migrationReqToSendToCP, this`isCurrentlyMigratingOnePage
      ensures madeProgress == (old(migrationReqToSendToCP) != [] && !old(isCurrentlyMigratingOnePage) && accepted)
      ensures old(migrationReqToSendToCP) == sent + migrationReqToSendToCP && |sent| == (if madeProgress then 1 else 0)
      ensures isCurrentlyMigratingOnePage == (old(isCurrentlyMigratingOnePage) || madeProgress)
    {
      if |migrationReqToSendToCP| == 0 || isCurrentlyMigratingOnePage || !accepted {
        return false, [];
      }
      sent, migrationReqToSendToCP := [migrationReqToSendToCP[0]], migrationReqToSendToCP[1..];
      isCurrentlyMigratingOnePage := true;
      return true, sent;
    }

    /** Requests of others, from middlewares and commands. */
    method QueueOthers(ids: seq<nat>, ghost s: M.System, ghost patient: bool)
      requires s.d == View()
      modifies this`requestsToSend
      ensures W.Launches(s, ids, patient) == s.(d := s.d.(requestsToSend := requestsToSend))
      ensures W.Launches(s, ids, patient).d == View()
    {
      ghost var s' := s;
      var i := 0;
      while i < |ids|
        invariant i <= |ids| && s' == s.(d := View())
        invariant W.Launches(s', ids[i..], patient) == W.Launches(s, ids, patient)
      {
        s' := M.Step(s', M.LaunchKernel(ids[i]), patient);
        requestsToSend := requestsToSend + [M.Launch(ids[i])];
        assert ids[i..][1..] == ids[i + 1..];
        i := i + 1;
      }
    }

    /** What the sends do to the system, from what they do to the driver. */
    static lemma SendToGPUIs(s: M.System, on: bool, patient: bool, d: M.Driver, sent: seq<M.Request>)
      requires d == s.d.(requestsToSend := d.requestsToSend) && s.d.requestsToSend == sent + d.requestsToSend
      requires |sent| == (if s.d.requestsToSend != [] && on then 1 else 0)
      ensures W.Can(s, M.SendToGPU, on, patient) <==> sent != []
      ensures W.Try(s, M.SendToGPU, on, patient) == s.(d := d, outstanding := s.outstanding + sent)
    {
    }

    static lemma SendToMMUIs(s: M.System, on: bool, patient: bool, d: M.Driver, reply: Option<M.Reply>)
      requires d == s.d.(toSendToMMU := if on then None else s.d.toSendToMMU)
      requires reply == if on then s.d.toSendToMMU else None
      ensures W.Can(s, M.SendToMMU, on, patient) <==> reply.Some?
      ensures W.Try(s, M.SendToMMU, on, patient) == s.(d := d, mmuOut := s.mmuOut + ReplySeq(reply))
    {
    }

    static lemma SendCopyIs(s: M.System, on: bool, patient: bool, d: M.Driver, sent: seq<M.Request>)
      requires d == s.d.(copiesToSend := d.copiesToSend, migratingOnePage := s.d.migratingOnePage || sent != [])
      requires s.d.copiesToSend == sent + d.copiesToSend
      requires |sent| == (if s.d.copiesToSend != [] && !s.d.migratingOnePage && on then 1 else 0)
      ensures W.Can(s, M.SendCopy, on, patient) <==> sent != []
      ensures W.Try(s, M.SendCopy, on, patient) == s.(d := d, outstanding := s.outstanding + sent)
    {
    }

    static ghost function AfterSends(s: M.System, toGPU: bool, toMMU: bool, copy: bool, patient: bool): M.System {
      W.Try(W.Try(W.Try(s, M.SendToGPU, toGPU, patient), M.SendToMMU, toMMU, patient), M.SendCopy, copy, patient)
    }

    static ghost predicate SendsAny(s: M.System, toGPU: bool, toMMU: bool, copy: bool, patient: bool) {
      var s1 := W.Try(s, M.SendToGPU, toGPU, patient);
      || W.Can(s, M.SendToGPU, toGPU, patient) || W.Can(s1, M.SendToMMU, toMMU, patient)
      || W.Can(W.Try(s1, M.SendToMMU, toMMU, patient), M.SendCopy, copy, patient)
    }

    /** The three sends. */
    method Sends(toGPU: bool, toMMU: bool, copy: bool, ghost s: M.System, ghost patient: bool)
      returns (madeProgress: bool, sent: seq<M.Request>, reply: Option<M.Reply>)
      requires s.d == View()
      modifies this
      ensures madeProgress == SendsAny(s, toGPU, toMMU, copy, patient)
      ensures AfterSends(s, toGPU, toMMU, copy, patient)
           == s.(d := View(), outstanding := s.outstanding + sent, mmuOut := s.mmuOut + ReplySeq(reply))
      ensures currentPageMigrationReq == old(currentPageMigrationReq) && pageTable == old(pageTable)
    {
      var sent1, sent2, a, b, c;
      a, sent1 := SendToGPUs(toGPU);
      ghost var d1 := View();
      assert d1 == s.d.(requestsToSend := d1.requestsToSend);
      b, reply := SendToMMU(toMMU);
      ghost var d2 := View();
      assert d2 == d1.(toSendToMMU := d2.toSendToMMU);
      c, sent2 := SendMigrationReqToCP(copy);
      ghost var d3 := View();
      assert d3 == d2.(copiesToSend := d3.copiesToSend, migratingOnePage := d3.migratingOnePage);
      madeProgress, sent := a || b || c, sent1 + sent2;
      SendsAre(s, toGPU, toMMU, copy, patient, d1, d2, d3, sent1, sent2, reply);
    }

    static function ReplySeq(reply: Option<M.Reply>): seq<M.Reply> {
      if reply.Some? then [reply.value] else []
    }

    static lemma SendsAre(s: M.System, toGPU: bool, toMMU: bool, copy: bool, patient: bool, d1: M.Driver, d2: M.Driver,
                          d3: M.Driver, sent1: seq<M.Request>, sent2: seq<M.Request>, reply: Option<M.Reply>)
      requires d1 == s.d.(requestsToSend := d1.requestsToSend) && s.d.requestsToSend == sent1 + d1.requestsToSend
      requires |sent1| == (if s.d.requestsToSend != [] && toGPU then 1 else 0)
      requires d2 == d1.(toSendToMMU := if toMMU then None else d1.toSendToMMU)
      requires reply == if toMMU then d1.toSendToMMU else None
      requires d3 == d2.(copiesToSend := d3.copiesToSend, migratingOnePage := d2.migratingOnePage || sent2 != [])
      requires d2.copiesToSend == sent2 + d3.copiesToSend
      requires |sent2| == (if d2.copiesToSend != [] && !d2.migratingOnePage && copy then 1 else 0)
      ensures SendsAny(s, toGPU, toMMU, copy, patient) == (sent1 != [] || reply.Some? || sent2 != [])
      ensures AfterSends(s, toGPU, toMMU, copy, patient)
           == s.(d := d3, outstanding := s.outstanding + (sent1 + sent2), mmuOut := s.mmuOut + ReplySeq(reply))
    {
      hide W.Can;
      hide W.Try;
      SendToGPUIs(s, toGPU, patient, d1, sent1);
      var s1 := s.(d := d1, outstanding := s.outstanding + sent1);
      SendToMMUIs(s1, toMMU, patient, d2, reply);
      var s2 := s1.(d := d2, mmuOut := s1.mmuOut + ReplySeq(reply));
      hide ReplySeq;
      SendCopyIs(s2, copy, patient, d3, sent2);
      Associates(s.outstanding, sent1, sent2);
    }

    static lemma Associates(a: seq<M.Request>, b: seq<M.Request>, c: seq<M.Request>)
      ensures a + (b + c) == (a + b) + c
    {
    }

    /** What parseFromMMU does to the system. */
    static lemma ParseEffect(s: M.System, patient: bool)
      ensures W.Can(s, M.ParseFromMMU, true, patient) <==> !s.d.handling && s.mmuIn != []
      ensures var s' := W.Try(s, M.ParseFromMMU, true, patient);
              if !W.Can(s, M.ParseFromMMU, true, patient) then s' == s
              else s'.d == M.Accept(s.d, s.mmuIn[0]) && s'.mmuIn == s.mmuIn[1..]
                   && s'.gpuIn == s.gpuIn && s'.outstanding == s.outstanding && s'.mmuOut == s.mmuOut
    {
    }

    static ghost function AfterReturns(s: M.System, takes: bool, order: seq<nat>, patient: bool): M.System {
      var s1 := W.Try(s, M.ProcessReturn(order), takes && W.OtherHead(s), patient);
      W.Try(s1, M.ProcessReturn(order), true, patient)
    }

    static ghost predicate ReturnsAny(s: M.System, takes: bool, order: seq<nat>, patient: bool) {
      var a := M.ProcessReturn(order);
      var s1 := W.Try(s, a, takes && W.OtherHead(s), patient);
      W.Can(s, a, takes && W.OtherHead(s), patient) || (W.Can(s1, a, true, patient) && !W.Silent(s1))
    }

    /** The response that a middleware takes and the one that processReturnReq takes. */
    method Returns(gpuIn: seq<M.Request>, takes: bool, ghost s: M.System, ghost patient: bool)
      returns (madeProgress: bool, gpuLeft: seq<M.Request>, ghost order: seq<nat>)
      requires s.d == View() && s.gpuIn == gpuIn
      requires MigrationReady() || forall r :: r in gpuIn ==> r.Launch? || r.Restart? || r.RdmaRestart?
      modifies this
      ensures old(currentPageMigrationReq).Some? ==> M.VisitOrder(old(currentPageMigrationReq).value, numGPUs, order)
      ensures madeProgress == ReturnsAny(s, takes, order, patient)
      ensures var s' := AfterReturns(s, takes, order, patient);
              && s'.d == View() && s'.gpuIn == gpuLeft
              && s'.outstanding == s.outstanding && s'.mmuOut == s.mmuOut && s'.mmuIn == s.mmuIn
    {
      hide M.KnownRequest;
      hide M.PagesOf;
      hide M.PagesIn;
      var took := takes && gpuIn != [] && gpuIn[0].Launch?;
      gpuLeft := if took then gpuIn[1..] else gpuIn;
      assert forall r :: r in gpuLeft ==> r in gpuIn;
      ghost var s1 := s.(gpuIn := gpuLeft);
      var rsp := if gpuLeft == [] then None else Some(gpuLeft[0]);
      madeProgress, order := ProcessReturnReq(rsp);
      ReturnsAre(s, takes, order, patient, s1);
      hide M.Answered;
      if gpuLeft != [] {
        gpuLeft := gpuLeft[1..];
      }
      madeProgress := madeProgress || took;
    }

    static lemma ReturnsAre(s: M.System, takes: bool, order: seq<nat>, patient: bool, s1: M.System)
      requires s1 == s.(gpuIn := if takes && W.OtherHead(s) then s.gpuIn[1..] else s.gpuIn)
      requires s1.gpuIn != [] ==> M.CanProcess(s1, order)
      ensures ReturnsAny(s, takes, order, patient) ==
              ((takes && W.OtherHead(s)) || (s1.gpuIn != [] && !W.Silent(s1)))
      ensures var s' := AfterReturns(s, takes, order, patient);
              && s'.d == (if s1.gpuIn == [] then s.d else M.Answered(s.d, s1.gpuIn[0], order))
              && s'.gpuIn == (if s1.gpuIn == [] then [] else s1.gpuIn[1..])
              && s'.outstanding == s.outstanding && s'.mmuOut == s.mmuOut && s'.mmuIn == s.mmuIn
    {
      hide M.KnownRequest;
      hide M.PagesOf;
      hide M.PagesIn;
      hide M.CopyReady;
      assert s1 == W.Try(s, M.ProcessReturn(order), takes && W.OtherHead(s), patient);
    }

    /** Middlewares, processReturnReq and processNewCommand. */
    static ghost function AfterMiddle(s: M.System, middleware: seq<nat>, takes: bool, commands: seq<nat>,
                                      order: seq<nat>, patient: bool): M.System {
      W.Launches(AfterReturns(W.Launches(s, middleware, patient), takes, order, patient), commands, patient)
    }

    method Middle(middleware: seq<nat>, takes: bool, commands: seq<nat>, gpuIn: seq<M.Request>, ghost s: M.System,
                  ghost patient: bool)
      returns (returned: bool, gpuLeft: seq<M.Request>, ghost order: seq<nat>)
      requires s.d == View() && s.gpuIn == gpuIn
      requires MigrationReady() || forall r :: r in gpuIn ==> r.Launch? || r.Restart? || r.RdmaRestart?
      modifies this
      ensures old(currentPageMigrationReq).Some? ==> M.VisitOrder(old(currentPageMigrationReq).value, numGPUs, order)
      ensures returned == ReturnsAny(W.Launches(s, middleware, patient), takes, order, patient)
      ensures var s' := AfterMiddle(s, middleware, takes, commands, order, patient);
              && s'.d == View() && s'.gpuIn == gpuLeft
              && s'.outstanding == s.outstanding && s'.mmuOut == s.mmuOut && s'.mmuIn == s.mmuIn
    {
      hide M.PagesOf;
      hide M.VisitOrder;
      hide W.Launches;
      hide AfterReturns;
      hide ReturnsAny;
      QueueOthers(middleware, s, patient);
      ghost var s4 := W.Launches(s, middleware, patient);
      returned, gpuLeft, order := Returns(gpuIn, takes, s4, patient);
      QueueOthers(commands, AfterReturns(s4, takes, order, patient), patient);
    }

    /** The parts of a tick make up the tick. */
    static lemma TickIs(s: M.System, i: W.Input, patient: bool)
      ensures var s3 := AfterSends(s, i.toGPU, i.toMMU, i.copy, patient);
              var s7 := AfterMiddle(s3, i.middleware, i.takes, i.commands, i.order, patient);
              && W.Tick(s, i, patient) == W.Try(s7, M.ParseFromMMU, true, patient)
              && W.Progress(s, i, patient) ==
                 (SendsAny(s, i.toGPU, i.toMMU, i.copy, patient) || i.middleware != [] || i.busy || i.commands != [] ||
                  ReturnsAny(W.Launches(s3, i.middleware, patient), i.takes, i.order, patient) ||
                  W.Can(s7, M.ParseFromMMU, true, patient))
    {
      hide W.Can;
      hide W.Try;
      hide W.Silent;
      hide W.OtherHead;
    }

    /** Tick. `gpuIn` and `mmuIn` are the messages in the two ports, `gpuLeft` and `mmuLeft` those left there. The
        ports accept what the first three parameters say; the middlewares and the commands create requests, the
        middlewares may take the response in front and either may report progress (`busy`). The tick is the one that
        the runs of the system are made of. */
    method Tick(toGPU: bool, toMMU: bool, copy: bool, middleware: seq<nat>, takes: bool, busy: bool, commands: seq<nat>,
                gpuIn: seq<M.Request>, mmuIn: seq<M.MigrationReq>, ghost s: M.System, ghost patient: bool)
      returns (madeProgress: bool, gpuLeft: seq<M.Request>, mmuLeft: seq<M.MigrationReq>, sent: seq<M.Request>,
               reply: Option<M.Reply>, ghost i: W.Input)
      requires s.d == View() && s.gpuIn == gpuIn && s.mmuIn == mmuIn
      requires MigrationReady() || forall r :: r in gpuIn ==> r.Launch? || r.Restart? || r.RdmaRestart?
      modifies this
      ensures i == W.Input(toGPU, toMMU, copy, middleware, takes, busy, commands, i.order) && W.OrderOk(s, i)
      ensures madeProgress == W.Progress(s, i, patient)
      ensures var s' := W.Tick(s, i, patient);
              && View() == s'.d && gpuLeft == s'.gpuIn && mmuLeft == s'.mmuIn
              && s'.outstanding == s.outstanding + sent && s'.mmuOut == s.mmuOut + ReplySeq(reply)
    {
      hide M.PagesOf;
      hide M.VisitOrder;
      hide M.Accept;
      hide W.Try;
      hide W.Can;
      hide W.Tick;
      hide W.Progress;
      hide AfterSends;
      hide AfterMiddle;
      hide SendsAny;
      hide ReturnsAny;
      var a, b, e;
      a, sent, reply := Sends(toGPU, toMMU, copy, s, patient);
      ghost var s3 := AfterSends(s, toGPU, toMMU, copy, patient);
      ghost var order;
      b, gpuLeft, order := Middle(middleware, takes, commands, gpuIn, s3, patient);
      i := W.Input(toGPU, toMMU, copy, middleware, takes, busy, commands, order);
      TickIs(s, i, patient);
      ParseEffect(AfterMiddle(s3, middleware, takes, commands, order, patient), patient);
      e := ParseFromMMU(if mmuIn == [] then None else Some(mmuIn[0]));
      mmuLeft := if e then mmuIn[1..] else mmuIn;
      madeProgress := a || middleware != [] || b || busy || commands != [] || e;
    }
  }
}
