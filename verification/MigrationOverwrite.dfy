/** A run in which the driver loses a reply: the MMU asks twice without waiting, and the first reply is still to be
    sent when the copies of the second migration finish. */
module MigrationOverwrite {
  import opened Wrappers
  import opened MigrationModel
  import opened MigrationRuns

  ghost predicate Leads(s: System, s': System) {
    exists acts :: Runs(s, acts, false) && Final(s, acts, false) == s'
  }

  lemma Then(s: System, m: System, a: Action)
    requires Leads(s, m) && Enabled(m, a, false)
    ensures Leads(s, Step(m, a, false))
  {
    hide Enabled;
    hide Step;
    var acts :| Runs(s, acts, false) && Final(s, acts, false) == m;
    OneMore(s, acts, a, false);
    assert Runs(s, acts + [a], false);
  }

  /** Between messages, with only `todo` to be sent to the GPU. */
  ghost predicate Calm(m: System, todo: seq<Request>) {
    m.d.requestsToSend == todo && m.outstanding == [] && m.gpuIn == []
  }

  /** Send, answer and process one request. */
  lemma Exchange(s: System, m: System, r: Request)
    requires Leads(s, m) && Calm(m, [r]) && CanProcess(m.(gpuIn := [r], d := m.d.(requestsToSend := [])), [0])
    ensures Leads(s, ProcessStep(m.(gpuIn := [r], d := m.d.(requestsToSend := [])), [0]))
  {
    hide CanProcess;
    hide ProcessStep;
    hide Leads;
    hide KnownRequest;
    var m1 := Step(m, SendToGPU, false);
    Then(s, m, SendToGPU);
    assert m1.outstanding == [r] && m1.d.requestsToSend == [];
    var m2 := Step(m1, Answer(0), false);
    Then(s, m1, Answer(0));
    assert m2 == m.(gpuIn := [r], d := m.d.(requestsToSend := []));
    Then(s, m2, ProcessReturn([0]));
  }

  lemma ExchangeCopy(s: System, m: System, c: Request)
    requires Leads(s, m) && Calm(m, []) && m.d.copiesToSend == [c] && !m.d.migratingOnePage
    requires CanProcess(m.(gpuIn := [c], d := m.d.(copiesToSend := [], migratingOnePage := true)), [0])
    ensures Leads(s, ProcessStep(m.(gpuIn := [c], d := m.d.(copiesToSend := [], migratingOnePage := true)), [0]))
  {
    hide CanProcess;
    hide ProcessStep;
    hide Leads;
    hide KnownRequest;
    var m1 := Step(m, SendCopy, false);
    Then(s, m, SendCopy);
    assert m1.outstanding == [c] && m1.d.copiesToSend == [];
    var m2 := Step(m1, Answer(0), false);
    Then(s, m1, Answer(0));
    assert m2 == m.(gpuIn := [c], d := m.d.(copiesToSend := [], migratingOnePage := true));
    Then(s, m2, ProcessReturn([0]));
  }

  const ONE_PAGE := MigrationReq([1], map[1 := [7]], true)

  lemma OnePageFacts()
    ensures Requesting(ONE_PAGE, 1) == [0] && PagesOf(ONE_PAGE, 1) == [7] && PagesIn(ONE_PAGE, [0]) == [7]
            && VisitOrder(ONE_PAGE, 1, [0])
  {
    assert Requesting(ONE_PAGE, 0) == [];
    assert PagesIn(ONE_PAGE, [0]) == PagesFor(ONE_PAGE, 0) + PagesIn(ONE_PAGE, [0][1..]);
    assert PagesIn(ONE_PAGE, []) == [];
  }

  /** A driver of one GPU that waits for exactly one acknowledgement of kind k for this request. */
  ghost predicate At(m: System, p: Phase, todo: seq<Request>, copies: nat) {
    && Calm(m, todo) && m.d.numGPUs == 1 && 7 in m.d.pageTable && !m.d.migratingOnePage
    && m.d.drainACK == (if p.Draining? then 1 else 0) && m.d.shootDownACK == (if p.ShootingDown? then 1 else 0)
    && m.d.pagesACK == (if p.Copying? then 1 else 0) && m.d.restartACK == (if p.Restarting? then 1 else 0)
    && m.d.rdmaRestartACK == (if p.RestartingRdma? then 1 else 0)
    && m.d.handling == !p.Idle? && (m.d.handling ==> m.d.current == Some(ONE_PAGE))
    && |m.d.copiesToSend| == copies
  }

  /** Queued requests, replies and losses are as before. */
  ghost predicate SameEnds(m: System, m': System) {
    m'.mmuIn == m.mmuIn && m'.lost == m.lost && m'.d.toSendToMMU == m.d.toSendToMMU
  }

  lemma DrainAndShoot(s: System, m: System) returns (m': System)
    requires Leads(s, m) && At(m, Draining, [Drain(0)], 0)
    ensures Leads(s, m') && At(m', Copying, [], 1) && SameEnds(m, m') && m'.d.copiesToSend[0].Copy?
  {
    hide Leads;
    OnePageFacts();
    hide PagesIn;
    hide Requesting;
    var a := ProcessStep(m.(gpuIn := [Drain(0)], d := m.d.(requestsToSend := [])), [0]);
    Exchange(s, m, Drain(0));
    assert ShootDowns([1], [7]) == [ShootDown(0, [7])];
    assert a.d.requestsToSend == [ShootDown(0, [7])] && At(a, ShootingDown, [ShootDown(0, [7])], 0);
    m' := Shoot(s, a);
  }

  lemma Shoot(s: System, m: System) returns (m': System)
    requires Leads(s, m) && At(m, ShootingDown, [ShootDown(0, [7])], 0)
    ensures Leads(s, m') && At(m', Copying, [], 1) && SameEnds(m, m') && m'.d.copiesToSend[0].Copy?
  {
    hide Leads;
    OnePageFacts();
    var d0 := m.d.(requestsToSend := [], shootDownACK := 0);
    assert PagesFor(ONE_PAGE, 0) == [7];
    assert CopyList(d0, 0, [7]) == CopyPage(d0, 0, 7) by {
      assert [7][1..] == [];
      assert CopyList(CopyPage(d0, 0, 7), 0, []) == CopyPage(d0, 0, 7);
    }
    assert CopyAll(d0, ONE_PAGE, [0]) == CopyPage(d0, 0, 7) by {
      assert [0][1..] == [];
      assert CopyAll(CopyPage(d0, 0, 7), ONE_PAGE, []) == CopyPage(d0, 0, 7);
    }
    hide CopyAll;
    hide CopyList;
    hide PagesIn;
    hide PagesFor;
    hide Requesting;
    Exchange(s, m, ShootDown(0, [7]));
    m' := ProcessStep(m.(gpuIn := [ShootDown(0, [7])], d := m.d.(requestsToSend := [])), [0]);
  }

  lemma CopyAndRestart(s: System, m: System) returns (m': System)
    requires Leads(s, m) && At(m, Copying, [], 1) && m.d.copiesToSend[0].Copy?
    ensures Leads(s, m') && At(m', RestartingRdma, [RdmaRestart(0)], 0) && m'.mmuIn == m.mmuIn
    ensures m'.d.toSendToMMU.Some? && m'.lost == m.lost + (if m.d.toSendToMMU.Some? then 1 else 0)
  {
    hide Leads;
    OnePageFacts();
    hide PagesIn;
    hide Requesting;
    var c := m.d.copiesToSend[0];
    ExchangeCopy(s, m, c);
    var a := ProcessStep(m.(gpuIn := [c], d := m.d.(copiesToSend := [], migratingOnePage := true)), [0]);
    assert Restarts([1]) == [Restart(0)];
    assert a.d.requestsToSend == [Restart(0)];
    Exchange(s, a, Restart(0));
    m' := ProcessStep(a.(gpuIn := [Restart(0)], d := a.d.(requestsToSend := [])), [0]);
    assert RdmaRestarts(1) == [RdmaRestart(0)];
    assert m'.d.requestsToSend == [RdmaRestart(0)];
  }

  /** One whole migration, during which the reply to the MMU is never sent. */
  lemma WholeMigration(s: System, m: System) returns (m': System)
    requires Leads(s, m) && At(m, Idle, [], 0) && m.mmuIn != [] && m.mmuIn[0] == ONE_PAGE
    ensures Leads(s, m') && At(m', Idle, [], 0) && m'.mmuIn == m.mmuIn[1..]
    ensures m'.d.toSendToMMU.Some? && m'.lost == m.lost + (if m.d.toSendToMMU.Some? then 1 else 0)
  {
    hide Leads;
    var a := ParseStep(m);
    Then(s, m, ParseFromMMU);
    assert Drains(1) == [Drain(0)];
    assert a.d.requestsToSend == [Drain(0)];
    var b := DrainAndShoot(s, a);
    var c := CopyAndRestart(s, b);
    Exchange(s, c, RdmaRestart(0));
    m' := ProcessStep(c.(gpuIn := [RdmaRestart(0)], d := c.d.(requestsToSend := [])), [0]);
  }

  /** The run: two requests, two migrations, one reply overwritten. */
  lemma ImpatientMMULosesReply() returns (s: System)
    ensures Reachable(s, false) && s.lost == 1 && s.prepared != s.mmuOut + Waiting(s.d)
  {
    hide Leads;
    var d := Driver(1, [], None, None, [], false, 0, 0, 0, 0, 0, false, map[7 := Page(0, 0, false)], 1);
    var s0 := System(d, [], [], [], [], [], [], multiset{}, 0);
    assert Leads(s0, s0) by { LeadsHere(s0); }
    OnePageFacts();
    hide PagesIn;
    hide Requesting;
    var s1 := Step(s0, Ask(ONE_PAGE), false);
    Then(s0, s0, Ask(ONE_PAGE));
    var s2 := Step(s1, Ask(ONE_PAGE), false);
    Then(s0, s1, Ask(ONE_PAGE));
    var s3 := WholeMigration(s0, s2);
    s := WholeMigration(s0, s3);
    LeadsReaches(s0, s);
    ReachableInv(s, false);
    assert |s.prepared| == |s.mmuOut| + |Waiting(s.d)| + 1;
  }

  lemma LeadsHere(s: System)
    ensures Leads(s, s)
  {
    assert Runs(s, [], false) && Final(s, [], false) == s;
  }

  lemma LeadsReaches(s0: System, s: System)
    requires Init(s0) && Leads(s0, s)
    ensures Reachable(s, false)
  {
  }
}
