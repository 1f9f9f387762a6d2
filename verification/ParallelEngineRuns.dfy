/** What holds over every run of the parallel engine, for any interleaving of the main loop and its workers. */
module ParallelEngineRuns {
  import opened Bags
  import opened ParallelEngineModel

  /* ----- Moving one thing ----- */

  lemma TokensSet(ws: seq<Worker>, i: nat, w: Worker, sec: bool)
    requires i < |ws|
    ensures Sum(Tokens(ws[i := w], sec)) + Token(ws[i], sec) == Sum(Tokens(ws, sec)) + Token(w, sec)
  {
    assert Tokens(ws[i := w], sec) == Tokens(ws, sec)[i := Token(w, sec)];
    SumUpdate(Tokens(ws, sec), i, Token(w, sec));
  }

  lemma CargosSet(ws: seq<Worker>, i: nat, w: Worker)
    requires i < |ws|
    ensures Sum(Cargos(ws[i := w])) + Cargo(ws[i]) == Sum(Cargos(ws)) + Cargo(w)
  {
    assert Cargos(ws[i := w]) == Cargos(ws)[i := Cargo(w)];
    SumUpdate(Cargos(ws), i, Cargo(w));
  }

  lemma NewWorker(ws: seq<Worker>, e: Event, sec: bool)
    ensures Sum(Tokens(ws + [Running(e)], sec)) == Sum(Tokens(ws, sec))
    ensures Sum(Cargos(ws + [Running(e)])) == Sum(Cargos(ws))
  {
    assert Tokens(ws + [Running(e)], sec) == Tokens(ws, sec) + [multiset{}];
    assert Cargos(ws + [Running(e)]) == Cargos(ws) + [multiset{}];
    SumAppend(Tokens(ws, sec), multiset{});
    SumAppend(Cargos(ws), multiset{});
  }

  lemma AllDone(ws: seq<Worker>, sec: bool)
    requires forall i :: 0 <= i < |ws| ==> ws[i].Done?
    ensures Sum(Tokens(ws, sec)) == multiset{} && Sum(Cargos(ws)) == multiset{}
  {
    SumEmpty(Tokens(ws, sec));
    SumEmpty(Cargos(ws));
  }

  lemma PutWaits(g: Group, q: nat, x: Event)
    requires q < |g.queues|
    ensures Waits(Put(g, q, x)) == Waits(g) + multiset{x}
  {
    SumUpdate(g.queues, q, g.queues[q] + multiset{x});
    Cancel(Waits(Put(g, q, x)), Waits(g), g.queues[q], x);
  }

  lemma Cancel(a': multiset<Event>, a: multiset<Event>, m: multiset<Event>, x: Event)
    requires a' + m == a + (m + multiset{x})
    ensures a' == a + multiset{x}
  {
    forall e: Event ensures a'[e] == (a + multiset{x})[e] {
      assert (a' + m)[e] == (a + (m + multiset{x}))[e];
    }
  }

  lemma PopWaits(g: Group, k: nat, e: Event)
    requires k < |g.queues| && e in g.queues[k]
    ensures Waits(g) == Waits(g.(queues := g.queues[k := g.queues[k] - multiset{e}])) + multiset{e}
  {
    var rest := g.(queues := g.queues[k := g.queues[k] - multiset{e}]);
    assert (g.queues[k] - multiset{e}) + multiset{e} == g.queues[k];
    assert Put(rest, k, e).queues == g.queues;
    PutWaits(rest, k, e);
  }

  lemma HeadOfChan(chan: seq<nat>)
    requires chan != []
    ensures multiset(chan) == multiset{chan[0]} + multiset(chan[1..])
  {
    assert chan == [chan[0]] + chan[1..];
  }

  lemma Shift(a: multiset<nat>, a': multiset<nat>, b: multiset<nat>, b': multiset<nat>, t: multiset<nat>,
      t': multiset<nat>, c: multiset<nat>, r: multiset<nat>)
    requires a + b + c == r && b' + t == b + t' && a' + t' == a + t
    ensures a' + b' + c == r
  {
    forall q: nat ensures (a' + b' + c)[q] == r[q] {
      assert (a + b + c)[q] == r[q] && (b' + t)[q] == (b + t')[q] && (a' + t')[q] == (a + t)[q];
    }
  }

  /* ----- Each queue is in one place ----- */

  /** A step of worker i that moves a queue only between the channel and this worker. */
  lemma TokenMoved(s: State, s': State, i: nat, sec: bool)
    requires TokensOk(s, sec) && i < |s.workers| && |s'.workers| == |s.workers|
            && s'.workers == s.workers[i := s'.workers[i]]
    requires Size(s') == Size(s) && s'.phase == s.phase && s'.secondaryRound == s.secondaryRound
    requires multiset(Of(s', sec).chan) + Token(s'.workers[i], sec) ==
            multiset(Of(s, sec).chan) + Token(s.workers[i], sec)
    ensures TokensOk(s', sec)
  {
    hide Sum;
    hide Range;
    hide Kept;
    hide Token;
    hide Of;
    TokensSet(s.workers, i, s'.workers[i], sec);
    Shift(multiset(Of(s, sec).chan), multiset(Of(s', sec).chan), Sum(Tokens(s.workers, sec)),
          Sum(Tokens(s'.workers, sec)),
          Token(s.workers[i], sec), Token(s'.workers[i], sec), KeptOf(s, sec), Range(0, Size(s)));
  }

  lemma TakeTokens(s: State, i: nat, sec: bool)
    requires CanTake(s, i) && TokensOk(s, sec)
    ensures TokensOk(TakeStep(s, i), sec)
  {
    hide TokensOk;
    HeadOfChan(Of(s, s.workers[i].x.secondary).chan);
    TokenMoved(s, TakeStep(s, i), i, sec);
  }

  lemma GiveBackTokens(s: State, i: nat, sec: bool)
    requires CanGiveBack(s, i) && TokensOk(s, sec)
    ensures TokensOk(GiveBackStep(s, i), sec)
  {
    hide TokensOk;
    TokenMoved(s, GiveBackStep(s, i), i, sec);
  }

  lemma PushTokens(s: State, i: nat, sec: bool)
    requires CanPush(s, i) && TokensOk(s, sec)
    ensures TokensOk(PushStep(s, i), sec)
  {
    hide TokensOk;
    TokenMoved(s, PushStep(s, i), i, sec);
  }

  /** Ask and Finish. */
  lemma HandsOffTokens(s: State, s': State, i: nat, w: Worker, sec: bool)
    requires i < |s.workers| && s.workers[i].Running? && (w.Wants? || w.Done?) && TokensOk(s, sec)
    requires s' == s.(workers := s.workers[i := w], scheduled := s'.scheduled)
    ensures TokensOk(s', sec)
  {
    hide TokensOk;
    TokenMoved(s, s', i, sec);
  }

  /** When the main loop has received as many queues as there are, it has them all. */
  lemma AllReceived(s: State, maxTime: real)
    requires Shape(s, maxTime) && TokensOk(s, s.secondaryRound) && s.phase.Emptying? && |s.phase.received| == Size(s)
    ensures Of(s, s.secondaryRound).chan == [] && multiset(s.phase.received) == Range(0, Size(s))
  {
    AllDone(s.workers, s.secondaryRound);
    RangeSize(0, Size(s));
    var chan := Of(s, s.secondaryRound).chan;
    assert |multiset(chan) + multiset(s.phase.received)| == Size(s);
    assert |multiset(chan)| == 0;
  }

  lemma KickTokens(s: State, x: Event, sec: bool)
    requires CanKick(s, x) && TokensOk(s, sec)
    ensures TokensOk(KickStep(s, x), sec)
  {
    hide Sum;
    HeadOfChan(Of(s, x.secondary).chan);
  }

  lemma ChooseTokens(s: State, p: real, t: real, sec: bool)
    requires s.phase.Idle? && TokensOk(s, sec)
    ensures TokensOk(ChooseStep(s, p, t), sec)
  {
    hide Sum;
    hide Waits;
    assert multiset(ChooseStep(s, p, t).phase.received) == multiset{};
  }

  lemma ReceiveTokens(s: State, sec: bool)
    requires CanReceive(s) && TokensOk(s, sec)
    ensures TokensOk(ReceiveStep(s), sec)
  {
    hide Sum;
    HeadOfChan(Of(s, s.secondaryRound).chan);
  }

  lemma StartDrainTokens(s: State, sec: bool, maxTime: real)
    requires CanStartDrain(s) && Shape(s, maxTime) && TokensOk(s, sec)
    ensures TokensOk(s.(phase := Draining(0)), sec)
  {
    hide Sum;
    if s.secondaryRound == sec {
      AllReceived(s, maxTime);
      AllDone(s.workers, sec);
    }
  }

  lemma PopTokens(s: State, e: Event, sec: bool)
    requires AtQueue(s) && TokensOk(s, sec)
    ensures TokensOk(PopStep(s, e), sec)
  {
    hide Sum;
    hide Tokens;
    NewWorker(s.workers, e, sec);
  }

  lemma ReturnTokens(s: State, sec: bool)
    requires AtQueue(s) && |s.secondary.queues| == Size(s) && TokensOk(s, sec)
    ensures TokensOk(ReturnStep(s), sec)
  {
    hide Sum;
    hide Tokens;
  }

  lemma EndRoundTokens(s: State, sec: bool)
    requires CanEndRound(s) && TokensOk(s, sec)
    ensures TokensOk(s.(phase := Idle, workers := []), sec)
  {
    hide Sum;
    AllDone(s.workers, sec);
    AllDone([], sec);
  }

  /* ----- Nothing is lost ----- */

  lemma Balance(q: multiset<Event>, q': multiset<Event>, c: multiset<Event>, c': multiset<Event>, l: multiset<Event>,
      sch: multiset<Event>, sch': multiset<Event>, x: multiset<Event>)
    requires sch == q + c + l && sch' == sch + x && q' + c' == q + c + x
    ensures sch' == q' + c' + l
  {
    assert q' + c' + l == q + c + x + l;
  }

  lemma WithQueues(s: State, sec: bool, g: Group, x: multiset<Event>)
    requires Waits(g) == Waits(Of(s, sec)) + x
    ensures InQueues(With(s, sec, g)) == InQueues(s) + x
  {
  }

  lemma AskConserves(s: State, i: nat, x: Event)
    requires CanAsk(s, i, x) && Conserved(s)
    ensures Conserved(AskStep(s, i, x))
  {
    hide Sum;
    var s' := AskStep(s, i, x);
    CargosSet(s.workers, i, Wants(s.workers[i].evt, x));
    SameQueues(s, s');
    CargoIn(Sum(Cargos(s.workers)), Sum(Cargos(s'.workers)), multiset{}, multiset{x});
    Balance(InQueues(s), InQueues(s'), Sum(Cargos(s.workers)), Sum(Cargos(s'.workers)), multiset(s.log), s.scheduled,
        s'.scheduled, multiset{x});
  }

  lemma PushConserves(s: State, i: nat)
    requires CanPush(s, i) && Conserved(s)
    ensures Conserved(PushStep(s, i))
  {
    hide Sum;
    hide InQueues;
    var s' := PushStep(s, i);
    var w := s.workers[i];
    CargosSet(s.workers, i, Pushed(w.evt, w.x, w.q));
    var g := Put(Of(s, w.x.secondary), w.q, w.x);
    PutWaits(Of(s, w.x.secondary), w.q, w.x);
    WithQueues(s, w.x.secondary, g, multiset{w.x});
    SameQueues(With(s, w.x.secondary, g), s');
    CargoOut(Sum(Cargos(s.workers)), Sum(Cargos(s'.workers)), w.x, InQueues(s));
    Balance(InQueues(s), InQueues(s'), Sum(Cargos(s.workers)), Sum(Cargos(s'.workers)), multiset(s.log), s.scheduled,
        s'.scheduled, multiset{});
  }

  /** A step that moves no event. */
  lemma CargoKept(s: State, s': State, i: nat)
    requires Conserved(s) && i < |s.workers| && |s'.workers| == |s.workers|
            && s'.workers == s.workers[i := s'.workers[i]]
    requires Cargo(s'.workers[i]) == Cargo(s.workers[i]) && s'.log == s.log && s'.scheduled == s.scheduled
    requires s'.primary.queues == s.primary.queues && s'.secondary.queues == s.secondary.queues
    ensures Conserved(s')
  {
    hide Sum;
    CargosSet(s.workers, i, s'.workers[i]);
    CargoIn(Sum(Cargos(s.workers)), Sum(Cargos(s'.workers)), Cargo(s.workers[i]), Cargo(s'.workers[i]));
    SameQueues(s, s');
  }

  lemma SameQueues(s: State, s': State)
    requires s'.primary.queues == s.primary.queues && s'.secondary.queues == s.secondary.queues
    ensures InQueues(s') == InQueues(s)
  {
  }

  lemma CargoOut(c: multiset<Event>, c': multiset<Event>, x: Event, q: multiset<Event>)
    requires c' + multiset{x} == c + multiset{}
    ensures (q + multiset{x}) + c' == q + c + multiset{}
  {
    assert (q + multiset{x}) + c' == q + (c' + multiset{x});
  }

  lemma CargoIn(c: multiset<Event>, c': multiset<Event>, x: multiset<Event>, x': multiset<Event>)
    requires c' + x == c + x'
    ensures x == x' ==> c' == c
    ensures x == multiset{} ==> c' == c + x'
  {
    if x == x' {
      forall e: Event ensures c'[e] == c[e] {
        assert (c' + x)[e] == (c + x')[e];
      }
    }
  }

  lemma PopConserves(s: State, e: Event)
    requires CanPop(s, e) && Conserved(s)
    ensures Conserved(PopStep(s, e))
  {
    hide Sum;
    hide InQueues;
    var s' := PopStep(s, e);
    var g := Of(s, s.secondaryRound);
    PopWaits(g, s.phase.k, e);
    NewWorker(s.workers, e, false);
    WithQueues(s', s.secondaryRound, g, multiset{e});
    SameQueues(With(s', s.secondaryRound, g), s);
    assert multiset(s.log + [e]) == multiset(s.log) + multiset{e};
  }

  lemma EndRoundConserves(s: State)
    requires CanEndRound(s) && Conserved(s)
    ensures Conserved(s.(phase := Idle, workers := []))
  {
    hide Sum;
    AllDone(s.workers, false);
    AllDone([], false);
  }

  lemma KickConserves(s: State, x: Event)
    requires CanKick(s, x) && Conserved(s)
    ensures Conserved(KickStep(s, x))
  {
    hide Sum;
    hide InQueues;
    var g := Of(s, x.secondary);
    var turned := g.(chan := g.chan[1..] + [g.chan[0]]);
    assert Waits(turned) == Waits(g);
    PutWaits(turned, g.chan[0], x);
    WithQueues(s, x.secondary, Put(turned, g.chan[0], x), multiset{x});
    SameQueues(With(s, x.secondary, Put(turned, g.chan[0], x)), KickStep(s, x));
  }

  /* ----- Nothing is in the past ----- */

  lemma KickInTime(s: State, x: Event)
    requires CanKick(s, x) && InTime(s)
    ensures InTime(KickStep(s, x))
  {
    hide Sum;
    var g := Of(s, x.secondary);
    var turned := g.(chan := g.chan[1..] + [g.chan[0]]);
    assert Waits(turned) == Waits(g);
    PutWaits(turned, g.chan[0], x);
  }

  lemma PushInTime(s: State, i: nat)
    requires CanPush(s, i) && InTime(s)
    ensures InTime(PushStep(s, i))
  {
    hide Sum;
    var w := s.workers[i];
    assert WorkerInTime(w, s.now, s.secondaryRound);
    PutWaits(Of(s, w.x.secondary), w.q, w.x);
  }

  lemma ChooseInTime(s: State, p: real, t: real, maxTime: real)
    requires CanChoose(s, p, t, maxTime) && InTime(s) && s.workers == []
    ensures InTime(ChooseStep(s, p, t))
  {
    hide Sum;
  }

  lemma PopInTime(s: State, e: Event)
    requires CanPop(s, e) && InTime(s)
    ensures InTime(PopStep(s, e))
  {
    hide Sum;
    PopWaits(Of(s, s.secondaryRound), s.phase.k, e);
    assert e in Waits(Of(s, s.secondaryRound));
  }

  /** A step of one worker that leaves queues and time alone. */
  lemma WorkerStaysInTime(s: State, s': State, i: nat)
    requires InTime(s) && i < |s.workers| && |s'.workers| == |s.workers| && s'.workers == s.workers[i := s'.workers[i]]
    requires s'.primary.queues == s.primary.queues && s'.secondary.queues == s.secondary.queues
    requires s'.now == s.now && s'.secondaryRound == s.secondaryRound
            && WorkerInTime(s'.workers[i], s.now, s.secondaryRound)
    ensures InTime(s')
  {
    hide Sum;
  }

  /** Times never decrease in the log: a round's time is no earlier than any logged event. */
  lemma LogChoose(s: State, p: real, t: real, maxTime: real)
    requires CanChoose(s, p, t, maxTime) && InTime(s) && LogOk(s.log, s.now) && s.now <= maxTime
    ensures LogOk(s.log, ChooseStep(s, p, t).now) && s.now <= ChooseStep(s, p, t).now <= maxTime
  {
    hide Sum;
  }

  lemma LogPop(log: seq<Event>, e: Event, now: real)
    requires LogOk(log, now) && e.time == now
    ensures LogOk(log + [e], now)
  {
  }

  /* ----- Every due event of a round runs ----- */

  /** Sums over the queues still ahead only change where a queue changes. */
  lemma SuffixPut(g: Group, q: nat, x: Event, k: nat)
    requires q < |g.queues| && k <= |g.queues|
    ensures Sum(g.queues[k..]) <= Sum(Put(g, q, x).queues[k..])
  {
    var g' := Put(g, q, x);
    if q < k {
      assert g'.queues[k..] == g.queues[k..];
    } else {
      assert g'.queues[k..] == g.queues[k..][q - k := g.queues[q] + multiset{x}];
      PutWaits(Group(g.queues[k..], []), q - k, x);
    }
  }

  lemma DuePush(s: State, i: nat)
    requires CanPush(s, i) && DueOk(s)
    ensures DueOk(PushStep(s, i))
  {
    hide Sum;
    var w := s.workers[i];
    var g := Of(s, w.x.secondary);
    if w.x.secondary == s.secondaryRound && Frontier(s) <= |g.queues| {
      SuffixPut(g, w.q, w.x, Frontier(s));
    }
  }

  lemma DueChoose(s: State, p: real, t: real)
    requires s.phase.Idle?
    ensures DueOk(ChooseStep(s, p, t))
  {
    hide Sum;
    var s' := ChooseStep(s, p, t);
    var g := Of(s', s'.secondaryRound);
    assert g.queues[0..] == g.queues;
  }

  lemma DuePop(s: State, e: Event)
    requires CanPop(s, e) && DueOk(s)
    ensures DueOk(PopStep(s, e))
  {
    hide Sum;
    var s' := PopStep(s, e);
    var g, g', k := Of(s, s.secondaryRound), Of(s', s'.secondaryRound), s.phase.k;
    PopWaits(Group(g.queues[k..], []), 0, e);
    assert g'.queues[k..] == g.queues[k..][0 := g.queues[k] - multiset{e}];
    assert Sum(g.queues[k..]) == Sum(g'.queues[k..]) + multiset{e};
  }

  lemma DueReturn(s: State)
    requires CanReturn(s) && DueOk(s)
    ensures DueOk(ReturnStep(s))
  {
    var s' := ReturnStep(s);
    var g, k := Of(s, s.secondaryRound), s.phase.k;
    assert g.queues[k..][1..] == g.queues[k + 1..];
    assert Sum(g.queues[k..]) == g.queues[k] + Sum(g.queues[k + 1..]);
  }

  lemma DueIdle(s: State)
    requires s.phase.Idle?
    ensures DueOk(s)
  {
  }

  lemma ConservedSame(s: State, s': State)
    requires Conserved(s) && s'.primary.queues == s.primary.queues && s'.secondary.queues == s.secondary.queues
    requires s'.workers == s.workers && s'.log == s.log && s'.scheduled == s.scheduled
    ensures Conserved(s')
  {
    hide Sum;
  }

  lemma InTimeSame(s: State, s': State)
    requires InTime(s) && s'.primary.queues == s.primary.queues && s'.secondary.queues == s.secondary.queues
    requires s'.workers == s.workers && s'.now == s.now && s'.secondaryRound == s.secondaryRound
    ensures InTime(s')
  {
    hide Sum;
  }

  /** A step that keeps the active queues, the frontier and the round. */
  lemma DueKept(s: State, s': State)
    requires DueOk(s) && s'.secondaryRound == s.secondaryRound && s'.now == s.now && s'.found == s.found
            && s'.ran == s.ran
    requires Of(s', s.secondaryRound).queues == Of(s, s.secondaryRound).queues
    requires s'.phase.Idle? || (!s.phase.Idle? && Frontier(s') == Frontier(s))
    ensures DueOk(s')
  {
    hide Sum;
  }

  /* ----- Runs ----- */

  lemma MainStepKeeps(s: State, a: Action, maxTime: real)
    requires Inv(s, maxTime) && Enabled(s, a, maxTime)
    requires a.Kick? || a.Choose? || a.Receive? || a.StartDrain? || a.PopEvent? || a.ReturnQueue? || a.EndDrain?
            || a.EndRound?
    ensures Inv(Step(s, a, maxTime), maxTime)
  {
    hide TokensOk;
    hide Conserved;
    hide InTime;
    hide LogOk;
    hide DueOk;
    match a
    case Kick(x) => KickKeeps(s, x, maxTime);
    case Choose(p, t) => ChooseKeeps(s, p, t, maxTime);
    case Receive => ReceiveKeeps(s, maxTime);
    case StartDrain => StartDrainKeeps(s, maxTime);
    case PopEvent(e) => PopKeeps(s, e, maxTime);
    case ReturnQueue => ReturnKeeps(s, maxTime);
    case EndDrain => EndDrainKeeps(s, maxTime);
    case EndRound => EndRoundKeeps(s, maxTime);
  }

  lemma KickKeeps(s: State, x: Event, maxTime: real)
    requires Inv(s, maxTime) && CanKick(s, x)
    ensures Inv(KickStep(s, x), maxTime)
  {
    hide TokensOk;
    hide Conserved;
    hide InTime;
    hide LogOk;
    hide DueOk;
    KickTokens(s, x, false);
    KickTokens(s, x, true);
    KickConserves(s, x);
    KickInTime(s, x);
    DueIdle(KickStep(s, x));
  }

  lemma ChooseKeeps(s: State, p: real, t: real, maxTime: real)
    requires Inv(s, maxTime) && CanChoose(s, p, t, maxTime)
    ensures Inv(ChooseStep(s, p, t), maxTime)
  {
    hide TokensOk;
    hide Conserved;
    hide InTime;
    hide LogOk;
    hide DueOk;
    hide InQueues;
    hide IsEarliest;
    ChooseTokens(s, p, t, false);
    ChooseTokens(s, p, t, true);
    ConservedSame(s, ChooseStep(s, p, t));
    ChooseInTime(s, p, t, maxTime);
    LogChoose(s, p, t, maxTime);
    DueChoose(s, p, t);
  }

  lemma ReceiveKeeps(s: State, maxTime: real)
    requires Inv(s, maxTime) && CanReceive(s)
    ensures Inv(ReceiveStep(s), maxTime)
  {
    hide TokensOk;
    hide Conserved;
    hide InTime;
    hide LogOk;
    hide DueOk;
    ReceiveTokens(s, false);
    ReceiveTokens(s, true);
    DueKept(s, ReceiveStep(s));
    ConservedSame(s, ReceiveStep(s));
    InTimeSame(s, ReceiveStep(s));
  }

  lemma StartDrainKeeps(s: State, maxTime: real)
    requires Inv(s, maxTime) && CanStartDrain(s)
    ensures Inv(s.(phase := Draining(0)), maxTime)
  {
    hide TokensOk;
    hide Conserved;
    hide InTime;
    hide LogOk;
    hide DueOk;
    StartDrainTokens(s, false, maxTime);
    StartDrainTokens(s, true, maxTime);
    DueKept(s, s.(phase := Draining(0)));
    ConservedSame(s, s.(phase := Draining(0)));
    InTimeSame(s, s.(phase := Draining(0)));
  }

  lemma PopKeeps(s: State, e: Event, maxTime: real)
    requires Inv(s, maxTime) && CanPop(s, e)
    ensures Inv(PopStep(s, e), maxTime)
  {
    hide TokensOk;
    hide Conserved;
    hide InTime;
    hide LogOk;
    hide DueOk;
    hide Peeks;
    PopTokens(s, e, false);
    PopTokens(s, e, true);
    PopConserves(s, e);
    PopInTime(s, e);
    LogPop(s.log, e, s.now);
    DuePop(s, e);
  }

  lemma ReturnKeeps(s: State, maxTime: real)
    requires Inv(s, maxTime) && CanReturn(s)
    ensures Inv(ReturnStep(s), maxTime)
  {
    hide TokensOk;
    hide Conserved;
    hide InTime;
    hide LogOk;
    hide DueOk;
    assert AtQueue(s);
    ReturnTokens(s, false);
    ReturnTokens(s, true);
    DueReturn(s);
    ConservedSame(s, ReturnStep(s));
    InTimeSame(s, ReturnStep(s));
  }

  lemma EndDrainKeeps(s: State, maxTime: real)
    requires Inv(s, maxTime) && CanEndDrain(s)
    ensures Inv(s.(phase := Waiting), maxTime)
  {
    hide LogOk;
    hide DueOk;
    DueKept(s, s.(phase := Waiting));
  }

  lemma EndRoundKeeps(s: State, maxTime: real)
    requires Inv(s, maxTime) && CanEndRound(s)
    ensures Inv(s.(phase := Idle, workers := []), maxTime)
  {
    EndRoundTokens(s, false);
    EndRoundTokens(s, true);
    EndRoundConserves(s);
    hide TokensOk;
    hide Conserved;
    hide LogOk;
  }

  lemma WorkerStepKeeps(s: State, a: Action, maxTime: real)
    requires Inv(s, maxTime) && Enabled(s, a, maxTime) && (a.Ask? || a.Take? || a.Push? || a.GiveBack? || a.Finish?)
    ensures Inv(Step(s, a, maxTime), maxTime)
  {
    hide TokensOk;
    hide Conserved;
    hide InTime;
    hide LogOk;
    hide DueOk;
    match a
    case Ask(i, x) => AskKeeps(s, i, x, maxTime);
    case Take(i) => TakeKeeps(s, i, maxTime);
    case Push(i) => PushKeeps(s, i, maxTime);
    case GiveBack(i) => GiveBackKeeps(s, i, maxTime);
    case Finish(i) => FinishKeeps(s, i, maxTime);
  }

  lemma WorkerOk(s: State, i: nat)
    requires InTime(s) && i < |s.workers|
    ensures WorkerInTime(s.workers[i], s.now, s.secondaryRound)
  {
  }

  lemma AskKeeps(s: State, i: nat, x: Event, maxTime: real)
    requires Inv(s, maxTime) && CanAsk(s, i, x)
    ensures Inv(AskStep(s, i, x), maxTime)
  {
    hide TokensOk;
    hide Conserved;
    hide InTime;
    hide LogOk;
    hide DueOk;
    var s' := AskStep(s, i, x);
    HandsOffTokens(s, s', i, s'.workers[i], false);
    HandsOffTokens(s, s', i, s'.workers[i], true);
    AskConserves(s, i, x);
    WorkerOk(s, i);
    WorkerStaysInTime(s, s', i);
    DueKept(s, s');
  }

  lemma TakeKeeps(s: State, i: nat, maxTime: real)
    requires Inv(s, maxTime) && CanTake(s, i)
    ensures Inv(TakeStep(s, i), maxTime)
  {
    hide TokensOk;
    hide Conserved;
    hide InTime;
    hide LogOk;
    hide DueOk;
    TakeTokens(s, i, false);
    TakeTokens(s, i, true);
    CargoKept(s, TakeStep(s, i), i);
    WorkerOk(s, i);
    WorkerStaysInTime(s, TakeStep(s, i), i);
    DueKept(s, TakeStep(s, i));
  }

  lemma PushKeeps(s: State, i: nat, maxTime: real)
    requires Inv(s, maxTime) && CanPush(s, i)
    ensures Inv(PushStep(s, i), maxTime)
  {
    hide TokensOk;
    hide Conserved;
    hide InTime;
    hide LogOk;
    hide DueOk;
    PushTokens(s, i, false);
    PushTokens(s, i, true);
    PushConserves(s, i);
    PushInTime(s, i);
    DuePush(s, i);
  }

  lemma GiveBackKeeps(s: State, i: nat, maxTime: real)
    requires Inv(s, maxTime) && CanGiveBack(s, i)
    ensures Inv(GiveBackStep(s, i), maxTime)
  {
    hide TokensOk;
    hide Conserved;
    hide InTime;
    hide LogOk;
    hide DueOk;
    GiveBackTokens(s, i, false);
    GiveBackTokens(s, i, true);
    CargoKept(s, GiveBackStep(s, i), i);
    WorkerOk(s, i);
    WorkerStaysInTime(s, GiveBackStep(s, i), i);
    DueKept(s, GiveBackStep(s, i));
  }

  lemma FinishKeeps(s: State, i: nat, maxTime: real)
    requires Inv(s, maxTime) && CanFinish(s, i)
    ensures Inv(FinishStep(s, i), maxTime)
  {
    hide TokensOk;
    hide Conserved;
    hide InTime;
    hide LogOk;
    hide DueOk;
    var s' := FinishStep(s, i);
    HandsOffTokens(s, s', i, s'.workers[i], false);
    HandsOffTokens(s, s', i, s'.workers[i], true);
    CargoKept(s, s', i);
    WorkerOk(s, i);
    WorkerStaysInTime(s, s', i);
    DueKept(s, s');
  }

  lemma StepKeeps(s: State, a: Action, maxTime: real)
    requires Inv(s, maxTime) && Enabled(s, a, maxTime)
    ensures Inv(Step(s, a, maxTime), maxTime)
  {
    hide Inv;
    hide Enabled;
    if a.Ask? || a.Take? || a.Push? || a.GiveBack? || a.Finish? {
      WorkerStepKeeps(s, a, maxTime);
    } else {
      MainStepKeeps(s, a, maxTime);
    }
  }

  lemma {:induction false} IndexBag(i: nat, n: nat)
    requires i <= n
    ensures multiset(seq(n - i, j => i + j)) == Range(i, n)
    decreases n - i
  {
    if i < n {
      IndexBag(i + 1, n);
      assert seq(n - i, j => i + j) == [i] + seq(n - i - 1, j => i + 1 + j);
    }
  }

  lemma InitHolds(s: State, n: nat, maxTime: real)
    requires Init(s, n, maxTime)
    ensures Inv(s, maxTime)
  {
    IndexBag(0, n);
    assert s.primary.chan == seq(n - 0, j => 0 + j);
    SumEmpty(s.primary.queues);
    AllDone([], false);
    AllDone([], true);
  }

  lemma {:induction false} RunKeeps(s: State, acts: seq<Action>, maxTime: real)
    requires Inv(s, maxTime) && Runs(s, acts, maxTime)
    ensures Inv(Final(s, acts, maxTime), maxTime)
    decreases |acts|
  {
    hide Inv;
    if acts != [] {
      StepKeeps(s, acts[0], maxTime);
      RunKeeps(Step(s, acts[0], maxTime), acts[1..], maxTime);
    }
  }

  /* ----- Main results ----- */

  /** A state of some run of an engine with n queues of each kind. */
  ghost predicate Reachable(s: State, n: nat, maxTime: real) {
    exists s0, acts :: Init(s0, n, maxTime) && Runs(s0, acts, maxTime) && Final(s0, acts, maxTime) == s
  }

  lemma ReachableInv(s: State, n: nat, maxTime: real)
    requires Reachable(s, n, maxTime)
    ensures Inv(s, maxTime) && Size(s) == n
  {
    hide Inv;
    var s0, acts :| Init(s0, n, maxTime) && Runs(s0, acts, maxTime) && Final(s0, acts, maxTime) == s;
    InitHolds(s0, n, maxTime);
    RunKeeps(s0, acts, maxTime);
    SizeKept(s0, acts, maxTime);
  }

  /** Every queue is in exactly one place at any time, and all are back in the channel between rounds. */
  lemma QueuesChangeHands(s: State, n: nat, maxTime: real, sec: bool, q: nat)
    requires Reachable(s, n, maxTime) && q < n
    ensures multiset(Of(s, sec).chan)[q] + Sum(Tokens(s.workers, sec))[q] + KeptOf(s, sec)[q] == 1
    ensures (s.phase.Idle? ==> multiset(Of(s, sec).chan) == Range(0, n))
  {
    ReachableInv(s, n, maxTime);
    OnePlace(s, sec, q);
    if s.phase.Idle? {
      AllDone(s.workers, sec);
      IdleTokens(s, sec);
    }
  }

  lemma OnePlace(s: State, sec: bool, q: nat)
    requires TokensOk(s, sec) && q < Size(s)
    ensures multiset(Of(s, sec).chan)[q] + Sum(Tokens(s.workers, sec))[q] + KeptOf(s, sec)[q] == 1
  {
    hide Sum;
    hide Tokens;
    hide Of;
    hide KeptOf;
    RangeCount(0, Size(s), q);
    CountSum(multiset(Of(s, sec).chan), Sum(Tokens(s.workers, sec)), KeptOf(s, sec), q);
  }

  lemma CountSum(a: multiset<nat>, b: multiset<nat>, c: multiset<nat>, q: nat)
    ensures (a + b + c)[q] == a[q] + b[q] + c[q]
  {
  }

  lemma IdleTokens(s: State, sec: bool)
    requires TokensOk(s, sec) && s.phase.Idle? && Sum(Tokens(s.workers, sec)) == multiset{}
    ensures multiset(Of(s, sec).chan) == Range(0, Size(s))
  {
    hide Sum;
    hide Tokens;
    hide Of;
    hide Range;
  }

  lemma {:induction false} SizeKept(s: State, acts: seq<Action>, maxTime: real)
    requires Inv(s, maxTime) && Runs(s, acts, maxTime)
    ensures Size(Final(s, acts, maxTime)) == Size(s)
    decreases |acts|
  {
    if acts != [] {
      StepSize(s, acts[0], maxTime);
      StepKeeps(s, acts[0], maxTime);
      hide Inv;
      hide Step;
      hide Enabled;
      SizeKept(Step(s, acts[0], maxTime), acts[1..], maxTime);
    }
  }

  lemma StepSize(s: State, a: Action, maxTime: real)
    requires Enabled(s, a, maxTime)
    ensures Size(Step(s, a, maxTime)) == Size(s)
  {
  }

  /** No pending event is ever earlier than now, handlers run at their event's own time, and neither panic about
      an event in the past can happen. */
  lemma NothingInThePast(s: State, n: nat, maxTime: real)
    requires Reachable(s, n, maxTime)
    ensures (forall e :: e in InQueues(s) ==> e.time >= s.now)
    ensures (forall i :: 0 <= i < |s.workers| ==> s.workers[i].evt.time == s.now)
    ensures !PopPanics(s)
  {
    ReachableInv(s, n, maxTime);
    hide Reachable;
    if PopPanics(s) {
      var g := Of(s, s.secondaryRound);
      var e :| Peeks(g.queues[s.phase.k], e) && e.time < s.now;
      SumHas(g.queues, e);
    }
    forall i | 0 <= i < |s.workers| ensures s.workers[i].evt.time == s.now {
      WorkerOk(s, i);
    }
  }

  /** What was scheduled is what waits, what is being scheduled, and what was run: no event is lost or run twice.
      Events run in time order. */
  lemma EachEventRunsOnce(s: State, n: nat, maxTime: real)
    requires Reachable(s, n, maxTime)
    ensures s.scheduled == InQueues(s) + Sum(Cargos(s.workers)) + multiset(s.log)
    ensures (forall i, j :: 0 <= i < j < |s.log| ==> s.log[i].time <= s.log[j].time)
    ensures (s.phase.Idle? && InQueues(s) == multiset{} ==> multiset(s.log) == s.scheduled)
  {
    ReachableInv(s, n, maxTime);
    hide Reachable;
    if s.phase.Idle? {
      AllDone(s.workers, false);
    }
  }

  /** A secondary round at t starts only when no primary event with time at or before t is pending. */
  lemma SecondaryRoundsWait(s: State, n: nat, maxTime: real, p: real, t: real)
    requires Reachable(s, n, maxTime) && CanChoose(s, p, t, maxTime)
    ensures var s' := ChooseStep(s, p, t);
            && (s'.secondaryRound ==> forall e :: e in InQueues(s') && !e.secondary ==> e.time > s'.now)
            && (forall e :: e in InQueues(s') ==> e.time >= s'.now)
            && s'.now >= s.now
  {
    ReachableInv(s, n, maxTime);
    hide Reachable;
    hide Sum;
    LogChoose(s, p, t, maxTime);
  }

  /** A round runs every event that was due when it was chosen. */
  lemma RoundRunsAllDue(s: State, n: nat, maxTime: real, e: Event)
    requires Reachable(s, n, maxTime) && CanEndRound(s)
    requires e.time == s.now
    ensures s.found[e] <= s.ran[e]
  {
    ReachableInv(s, n, maxTime);
    hide Reachable;
    assert Of(s, s.secondaryRound).queues[Size(s)..] == [];
  }

  lemma {:induction false} EarliestExists(bag: multiset<Event>, maxTime: real) returns (t: real)
    ensures IsEarliest(bag, t, maxTime)
    decreases bag
  {
    t := maxTime;
    if bag != multiset{} {
      var e :| e in bag;
      var rest := bag - multiset{e};
      t := EarliestExists(rest, maxTime);
      assert forall o :: o in bag ==> o == e || o in rest;
      if e.time < t {
        t := e.time;
      } else {
        assert t == maxTime || exists o :: o in bag && o.time == t by {
          if t != maxTime {
            var o :| o in rest && o.time == t;
            assert o in bag;
          }
        }
      }
    }
  }

  lemma {:induction false} FirstExists(bag: multiset<Event>) returns (e: Event)
    requires bag != multiset{}
    ensures Peeks(bag, e)
    decreases bag
  {
    e :| e in bag;
    var rest := bag - multiset{e};
    assert forall o :: o in bag ==> o == e || o in rest;
    if rest != multiset{} {
      var f := FirstExists(rest);
      if f.time < e.time {
        e := f;
      }
    }
  }

  /** What the engine itself does, as opposed to what handlers and the user choose to schedule. */
  predicate Internal(a: Action) {
    !a.Kick? && !a.Ask?
  }

  /** The engine never blocks for good: unless all events are done, some step of its own is possible. */
  lemma NoDeadlock(s: State, n: nat, maxTime: real)
    requires Reachable(s, n, maxTime)
    requires !(s.phase.Idle? && InQueues(s) == multiset{})
    ensures exists a :: Internal(a) && Enabled(s, a, maxTime)
  {
    ReachableInv(s, n, maxTime);
    hide Reachable;
    hide Inv;
    hide Reachable;
    hide Enabled;
    var a: Action;
    match s.phase {
      case Idle => a := IdleMoves(s, maxTime);
      case Emptying(_) => a := EmptyingMoves(s, maxTime);
      case Draining(_) => a := DrainingMoves(s, maxTime);
      case Waiting => a := WaitingMoves(s, maxTime);
    }
    assert Internal(a) && Enabled(s, a, maxTime);
  }

  lemma IdleMoves(s: State, maxTime: real) returns (a: Action)
    requires s.phase.Idle? && InQueues(s) != multiset{}
    ensures Internal(a) && Enabled(s, a, maxTime)
  {
    hide IsEarliest;
    hide Waits;
    var p := EarliestExists(Waits(s.primary), maxTime);
    var t := EarliestExists(Waits(s.secondary), maxTime);
    a := Choose(p, t);
  }

  lemma EmptyingMoves(s: State, maxTime: real) returns (a: Action)
    requires Inv(s, maxTime) && s.phase.Emptying?
    ensures Internal(a) && Enabled(s, a, maxTime)
  {
    hide Conserved;
    hide InTime;
    hide DueOk;
    var chan := Of(s, s.secondaryRound).chan;
    assert TokensOk(s, s.secondaryRound);
    AllDone(s.workers, s.secondaryRound);
    RangeSize(0, Size(s));
    assert |multiset(chan) + multiset(s.phase.received)| == Size(s);
    a := if |s.phase.received| == Size(s) then StartDrain else Receive;
  }

  lemma DrainingMoves(s: State, maxTime: real) returns (a: Action)
    requires Inv(s, maxTime) && s.phase.Draining?
    ensures Internal(a) && Enabled(s, a, maxTime)
  {
    hide Conserved;
    hide TokensOk;
    hide DueOk;
    if s.phase.k == Size(s) {
      a := EndDrain;
    } else {
      var g := Of(s, s.secondaryRound);
      var bag := g.queues[s.phase.k];
      a := ReturnQueue;
      if bag != multiset{} {
        var e := FirstExists(bag);
        SumHas(g.queues, e);
        if e.time == s.now {
          a := PopEvent(e);
        }
      }
    }
  }

  /** A worker that holds a queue can go on. */
  lemma HolderMoves(s: State, j: nat, maxTime: real) returns (a: Action)
    requires j < |s.workers| && (s.workers[j].Holds? || s.workers[j].Pushed?)
    requires TokensOk(s, s.workers[j].x.secondary) && |s.secondary.queues| == Size(s)
    ensures Internal(a) && Enabled(s, a, maxTime)
  {
    TokenIsQueue(s, j);
    hide TokensOk;
    a := if s.workers[j].Holds? then Push(j) else GiveBack(j);
  }

  lemma TokenIsQueue(s: State, j: nat)
    requires j < |s.workers| && (s.workers[j].Holds? || s.workers[j].Pushed?) && TokensOk(s, s.workers[j].x.secondary)
    ensures s.workers[j].q < Size(s)
  {
    var q, sec := s.workers[j].q, s.workers[j].x.secondary;
    assert q in Tokens(s.workers, sec)[j];
    SumHas(Tokens(s.workers, sec), q);
    hide Sum;
    hide Tokens;
    hide Of;
    hide KeptOf;
    RangeCount(0, Size(s), q);
    assert q in multiset(Of(s, sec).chan) + Sum(Tokens(s.workers, sec)) + KeptOf(s, sec);
  }

  /** With the channel empty and the main loop done, some worker holds a queue. */
  lemma SomeHolder(s: State, sec: bool) returns (j: nat)
    requires TokensOk(s, sec) && s.phase.Waiting? && Of(s, sec).chan == [] && Size(s) > 0
    ensures j < |s.workers| && (s.workers[j].Holds? || s.workers[j].Pushed?)
  {
    RangeCount(0, Size(s), 0);
    assert Sum(Tokens(s.workers, sec)) == Range(0, Size(s));
    SumHas(Tokens(s.workers, sec), 0);
    j :| 0 <= j < |s.workers| && 0 in Tokens(s.workers, sec)[j];
  }

  lemma WaitingMoves(s: State, maxTime: real) returns (a: Action)
    requires Inv(s, maxTime) && s.phase.Waiting?
    ensures Internal(a) && Enabled(s, a, maxTime)
  {
    hide Conserved;
    hide InTime;
    hide DueOk;
    hide Sum;
    hide TokensOk;
    if forall i :: 0 <= i < |s.workers| ==> s.workers[i].Done? {
      a := EndRound;
    } else {
      var i :| 0 <= i < |s.workers| && !s.workers[i].Done?;
      var w := s.workers[i];
      if w.Running? {
        a := Finish(i);
      } else if w.Holds? || w.Pushed? {
        a := HolderMoves(s, i, maxTime);
      } else if Of(s, w.x.secondary).chan != [] {
        a := Take(i);
      } else {
        var j := SomeHolder(s, w.x.secondary);
        a := HolderMoves(s, j, maxTime);
      }
    }
  }

  /** earliestTimeInQueueGroup starts from the largest number, so a round has something to run exactly when some
      event is earlier than that, or is a primary event of that very time; otherwise Run repeats empty rounds. */
  lemma RoundHasWork(s: State, n: nat, maxTime: real, p: real, t: real)
    requires Reachable(s, n, maxTime) && CanChoose(s, p, t, maxTime)
    ensures var s' := ChooseStep(s, p, t);
            (exists e :: e in s'.found && e.time == s'.now) <==>
            (exists e :: e in InQueues(s) && (e.time < maxTime || (e.time == maxTime && !e.secondary)))
  {
    ReachableInv(s, n, maxTime);
    hide Reachable;
    WorkOf(s, p, t, maxTime);
  }

  lemma WorkOf(s0: State, p: real, t: real, maxTime: real)
    requires CanChoose(s0, p, t, maxTime) && InTime(s0)
    ensures var s := ChooseStep(s0, p, t);
            (exists e :: e in s.found && e.time == s.now) <==>
            (exists e :: e in InQueues(s) && (e.time < maxTime || (e.time == maxTime && !e.secondary)))
  {
    hide Sum;
    var s := ChooseStep(s0, p, t);
    if e :| e in s.found && e.time == s.now {
      assert e in InQueues(s) && (e.time < maxTime || (e.time == maxTime && !e.secondary));
    }
    if e :| e in InQueues(s) && (e.time < maxTime || (e.time == maxTime && !e.secondary)) {
      if s.now < maxTime {
        var o :| o in s.found && o.time == s.now;
      } else {
        assert e in s.found && e.time == s.now;
      }
    }
  }
}
