/** What one tick of the driver takes and sends, counted from the state in front of it. */
module MigrationTicks {
  import opened Wrappers
  import opened MigrationModel
  import opened MigrationRuns
  import opened MigrationWake

  /** From s to s' nothing was received, sent or taken up. */
  ghost predicate SameTraffic(s: System, s': System) {
    && s'.outstanding == s.outstanding && s'.mmuOut == s.mmuOut && s'.gpuIn == s.gpuIn && s'.mmuIn == s.mmuIn
  }

  ghost predicate SameRequest(s: System, s': System) {
    s'.d.current == s.d.current && s'.d.numGPUs == s.d.numGPUs && s'.d.handling == s.d.handling
  }

  lemma {:induction false} LaunchesFrame(s: System, ids: seq<nat>, patient: bool)
    ensures SameTraffic(s, Launches(s, ids, patient)) && SameRequest(s, Launches(s, ids, patient))
    decreases |ids|
  {
    if ids != [] {
      LaunchesFrame(Step(s, LaunchKernel(ids[0]), patient), ids[1..], patient);
    }
  }

  /** The first request, the reply and the first copy, if there are any when the tick begins. */
  function RequestSent(s: System, i: Input): seq<Request> {
    if i.toGPU && s.d.requestsToSend != [] then [s.d.requestsToSend[0]] else []
  }

  function CopySent(s: System, i: Input): seq<Request> {
    if i.copy && s.d.copiesToSend != [] && !s.d.migratingOnePage then [s.d.copiesToSend[0]] else []
  }

  function ReplySent(s: System, i: Input): seq<Reply> {
    if i.toMMU && s.d.toSendToMMU.Some? then [s.d.toSendToMMU.value] else []
  }

  lemma RequestFrame(s: System, i: Input, patient: bool)
    ensures var s' := Sent1(s, i, patient);
            && s'.outstanding == s.outstanding + RequestSent(s, i) && CopySent(s', i) == CopySent(s, i)
            && ReplySent(s', i) == ReplySent(s, i)
            && s'.mmuOut == s.mmuOut && s'.gpuIn == s.gpuIn && s'.mmuIn == s.mmuIn && SameRequest(s, s')
  {
  }

  lemma ReplyFrame(s: System, i: Input, patient: bool)
    ensures var s' := Try(s, SendToMMU, i.toMMU, patient);
            && s'.mmuOut == s.mmuOut + ReplySent(s, i) && CopySent(s', i) == CopySent(s, i)
            && s'.outstanding == s.outstanding && s'.gpuIn == s.gpuIn && s'.mmuIn == s.mmuIn && SameRequest(s, s')
  {
  }

  lemma CopyFrame(s: System, i: Input, patient: bool)
    ensures var s' := Try(s, SendCopy, i.copy, patient);
            && s'.outstanding == s.outstanding + CopySent(s, i)
            && s'.mmuOut == s.mmuOut && s'.gpuIn == s.gpuIn && s'.mmuIn == s.mmuIn && SameRequest(s, s')
  {
  }

  lemma SendsFrame(s: System, i: Input, patient: bool)
    ensures var s' := Sent3(s, i, patient);
            && s'.outstanding == s.outstanding + RequestSent(s, i) + CopySent(s, i)
            && s'.mmuOut == s.mmuOut + ReplySent(s, i)
            && s'.gpuIn == s.gpuIn && s'.mmuIn == s.mmuIn && SameRequest(s, s')
  {
    RequestFrame(s, i, patient);
    ReplyFrame(Sent1(s, i, patient), i, patient);
    CopyFrame(Sent2(s, i, patient), i, patient);
    hide RequestSent;
    hide CopySent;
    hide ReplySent;
    hide Try;
  }

  lemma ProcessTraffic(s: System, order: seq<nat>)
    requires CanProcess(s, order)
    ensures SameTraffic(s.(gpuIn := s.gpuIn[1..]), ProcessStep(s, order))
    ensures s.gpuIn[0].Launch? ==> SameRequest(s, ProcessStep(s, order))
  {
    hide CopyAll;
    hide PagesIn;
    hide PagesOf;
  }

  /** How many responses a tick takes: one, and one more when a middleware took the one in front. */
  function TakenBy(s: System, i: Input): (k: nat)
    ensures k <= |s.gpuIn|
  {
    if s.gpuIn == [] then 0 else if i.takes && s.gpuIn[0].Launch? && |s.gpuIn| > 1 then 2 else 1
  }

  /** What a tick sends was there when it began: at most one request, one copy and one reply. It takes responses from
      the front. At its end no request of the MMU waits unless one is being handled. */
  lemma WhatATickDoes(s: System, i: Input, patient: bool)
    requires Reachable(s, patient) && OrderOk(s, i)
    ensures var s' := Tick(s, i, patient);
            && s'.outstanding == s.outstanding + RequestSent(s, i) + CopySent(s, i)
            && s'.mmuOut == s.mmuOut + ReplySent(s, i)
            && s'.gpuIn == s.gpuIn[TakenBy(s, i)..]
            && (s'.mmuIn == s.mmuIn || (s.mmuIn != [] && s'.mmuIn == s.mmuIn[1..]))
            && (s'.mmuIn == [] || s'.d.handling)
  {
    TickReaches(s, i, patient);
    SendsFrame(s, i, patient);
    var s3, s4, s5, s6, s7 := Sent3(s, i, patient), Offered(s, i, patient), Taken(s, i, patient),
                              Returned(s, i, patient), Commanded(s, i, patient);
    LaunchesFrame(s3, i.middleware, patient);
    LaunchesFrame(s6, i.commands, patient);
    TakenFrame(s4, s5, i, patient);
    ReturnedFrame(s5, s6, i, patient);
    ParsedFrame(s7, patient);
    hide *;
    FrontsTaken(s, s4, s5, s6, i);
  }

  lemma TakenFrame(s: System, s': System, i: Input, patient: bool)
    requires s' == Try(s, ProcessReturn(i.order), i.takes && OtherHead(s), patient)
    ensures SameRequest(s, s') && SameTraffic(s.(gpuIn := s.gpuIn[if i.takes && OtherHead(s) then 1 else 0..]), s')
  {
    if i.takes && OtherHead(s) {
      ProcessTraffic(s, i.order);
    }
  }

  lemma ReturnedFrame(s: System, s': System, i: Input, patient: bool)
    requires Reachable(s, patient) && OrderOk(s, i) && s' == Try(s, ProcessReturn(i.order), true, patient)
    ensures SameTraffic(s.(gpuIn := s.gpuIn[if s.gpuIn == [] then 0 else 1..]), s')
  {
    CanAlwaysProcess(s, i, patient);
    if s.gpuIn != [] {
      ProcessTraffic(s, i.order);
    }
  }

  lemma ParsedFrame(s: System, patient: bool)
    ensures var s' := Try(s, ParseFromMMU, true, patient);
            && s'.outstanding == s.outstanding && s'.mmuOut == s.mmuOut && s'.gpuIn == s.gpuIn
            && (s'.mmuIn == s.mmuIn || (s.mmuIn != [] && s'.mmuIn == s.mmuIn[1..]))
            && (s'.mmuIn == [] || s'.d.handling)
  {
  }

  lemma FrontsTaken(s: System, s4: System, s5: System, s6: System, i: Input)
    requires s4.gpuIn == s.gpuIn && s5.gpuIn == s4.gpuIn[if i.takes && OtherHead(s4) then 1 else 0..]
    requires s6.gpuIn == s5.gpuIn[if s5.gpuIn == [] then 0 else 1..]
    ensures s6.gpuIn == s.gpuIn[TakenBy(s, i)..]
  {
  }
}
