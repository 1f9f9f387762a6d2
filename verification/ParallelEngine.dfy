/** akita/sim/parallelengine.go as a state machine: the main loop, the workers it starts, and the channels through
    which queues change hands. */
module ParallelEngineModel {
  import opened Bags
  import Kernel

  type Event = Kernel.Event

  /** What a worker is doing for the event `evt` it handles. Schedule(x) goes through Wants (before the queue is
      received), Holds (before the push) and Pushed (before the queue is sent back). */
  datatype Worker =
    | Running(evt: Event)
    | Wants(evt: Event, x: Event)
    | Holds(evt: Event, x: Event, q: nat)
    | Pushed(evt: Event, x: Event, q: nat)
    | Done(evt: Event)

  /** The queues of one kind and the channel that holds the free ones, by index. */
  datatype Group = Group(queues: seq<multiset<Event>>, chan: seq<nat>)

  /** Where the main loop is. Emptying lists the queues received so far; Draining(k) works on queue k. */
  datatype Phase = Idle | Emptying(received: seq<nat>) | Draining(k: nat) | Waiting

  /** `log` lists the events popped, in order. `found` and `ran` belong to the current round: what its queues held
      when it was chosen, and what it popped. */
  datatype State = State(
    now: real,
    secondaryRound: bool,
    primary: Group,
    secondary: Group,
    phase: Phase,
    workers: seq<Worker>,
    scheduled: multiset<Event>,
    log: seq<Event>,
    found: multiset<Event>,
    ran: multiset<Event>
  )

  function Of(s: State, sec: bool): Group {
    if sec then s.secondary else s.primary
  }

  function With(s: State, sec: bool, g: Group): State {
    if sec then s.(secondary := g) else s.(primary := g)
  }

  function Size(s: State): nat {
    |s.primary.queues|
  }

  /** Everything in the queues of one kind. */
  function Waits(g: Group): multiset<Event> {
    Sum(g.queues)
  }

  function InQueues(s: State): multiset<Event> {
    Waits(s.primary) + Waits(s.secondary)
  }

  /** earliestTimeInQueueGroup: the smallest time, or the largest number when the queues are empty. */
  ghost predicate IsEarliest(bag: multiset<Event>, t: real, maxTime: real) {
    && t <= maxTime
    && (forall e :: e in bag ==> t <= e.time)
    && (t == maxTime || exists e :: e in bag && e.time == t)
  }

  /* ----- Steps ----- */

  datatype Action =
    | Kick(x: Event)
    | Choose(primaryTime: real, secondaryTime: real)
    | Receive
    | StartDrain
    | PopEvent(e: Event)
    | ReturnQueue
    | EndDrain
    | Ask(i: nat, x: Event)
    | Take(i: nat)
    | Push(i: nat)
    | GiveBack(i: nat)
    | Finish(i: nat)
    | EndRound

  /** Schedule from outside a handler, while nothing runs. */
  ghost predicate CanKick(s: State, x: Event) {
    s.phase.Idle? && x.time >= s.now && Of(s, x.secondary).chan != []
        && Of(s, x.secondary).chan[0] < |Of(s, x.secondary).queues|
  }

  function Put(g: Group, q: nat, x: Event): Group
    requires q < |g.queues|
  {
    g.(queues := g.queues[q := g.queues[q] + multiset{x}])
  }

  function KickStep(s: State, x: Event): State
    requires CanKick(s, x)
  {
    var g := Of(s, x.secondary);
    With(s, x.secondary,
        Put(g.(chan := g.chan[1..] + [g.chan[0]]), g.chan[0], x)).(scheduled := s.scheduled + multiset{x})
  }

  /** hasMoreEvents and determineWhatToRun: primary events first on a tie. */
  ghost predicate CanChoose(s: State, p: real, t: real, maxTime: real) {
    s.phase.Idle? && InQueues(s) != multiset{} && IsEarliest(Waits(s.primary), p, maxTime)
        && IsEarliest(Waits(s.secondary), t, maxTime)
  }

  function ChooseStep(s: State, p: real, t: real): State {
    var sec := !(p <= t);
    s.(now := if sec then t else p, secondaryRound := sec, phase := Emptying([]), found := Waits(Of(s, sec)),
        ran := multiset{})
  }

  /** One round of emptyQueueChan's loop. */
  predicate CanReceive(s: State) {
    s.phase.Emptying? && |s.phase.received| < Size(s) && Of(s, s.secondaryRound).chan != []
  }

  function ReceiveStep(s: State): State
    requires CanReceive(s)
  {
    var g := Of(s, s.secondaryRound);
    With(s, s.secondaryRound, g.(chan := g.chan[1..])).(phase := Emptying(s.phase.received + [g.chan[0]]))
  }

  predicate CanStartDrain(s: State) {
    s.phase.Emptying? && |s.phase.received| == Size(s)
  }

  predicate AtQueue(s: State) {
    s.phase.Draining? && s.phase.k < |Of(s, s.secondaryRound).queues|
  }

  ghost predicate Peeks(bag: multiset<Event>, e: Event) {
    e in bag && forall o :: o in bag ==> e.time <= o.time
  }

  /** runEventsUntilConflict: pop an event of time now and start a worker for it. */
  ghost predicate CanPop(s: State, e: Event) {
    AtQueue(s) && Peeks(Of(s, s.secondaryRound).queues[s.phase.k], e) && e.time == s.now
  }

  function PopStep(s: State, e: Event): State
    requires AtQueue(s)
  {
    var g := Of(s, s.secondaryRound);
    With(s, s.secondaryRound, g.(queues := g.queues[s.phase.k := g.queues[s.phase.k] - multiset{e}]))
    .(workers := s.workers + [Running(e)], log := s.log + [e], ran := s.ran + multiset{e})
  }

  /** The panic of the same loop. */
  ghost predicate PopPanics(s: State) {
    AtQueue(s) && exists e :: Peeks(Of(s, s.secondaryRound).queues[s.phase.k], e) && e.time < s.now
  }

  ghost predicate CanReturn(s: State) {
    AtQueue(s) && forall e :: e in Of(s, s.secondaryRound).queues[s.phase.k] ==> e.time > s.now
  }

  function ReturnStep(s: State): State
    requires s.phase.Draining?
  {
    var g := Of(s, s.secondaryRound);
    With(s, s.secondaryRound, g.(chan := g.chan + [s.phase.k])).(phase := Draining(s.phase.k + 1))
  }

  predicate CanEndDrain(s: State) {
    s.phase.Draining? && s.phase.k == Size(s)
  }

  /** The wait group is empty. */
  ghost predicate CanEndRound(s: State) {
    s.phase.Waiting? && forall i :: 0 <= i < |s.workers| ==> s.workers[i].Done?
  }

  ghost predicate CanAsk(s: State, i: nat, x: Event) {
    i < |s.workers| && s.workers[i].Running? && x.time >= s.now
  }

  function AskStep(s: State, i: nat, x: Event): State
    requires i < |s.workers|
  {
    s.(workers := s.workers[i := Wants(s.workers[i].evt, x)], scheduled := s.scheduled + multiset{x})
  }

  predicate CanTake(s: State, i: nat) {
    i < |s.workers| && s.workers[i].Wants? && Of(s, s.workers[i].x.secondary).chan != []
  }

  function TakeStep(s: State, i: nat): State
    requires CanTake(s, i)
  {
    var w := s.workers[i];
    var g := Of(s, w.x.secondary);
    With(s, w.x.secondary, g.(chan := g.chan[1..])).(workers := s.workers[i := Holds(w.evt, w.x, g.chan[0])])
  }

  predicate CanPush(s: State, i: nat) {
    i < |s.workers| && s.workers[i].Holds? && s.workers[i].q < |Of(s, s.workers[i].x.secondary).queues|
  }

  function PushStep(s: State, i: nat): State
    requires CanPush(s, i)
  {
    var w := s.workers[i];
    With(s, w.x.secondary, Put(Of(s, w.x.secondary), w.q, w.x)).(workers := s.workers[i := Pushed(w.evt, w.x, w.q)])
  }

  predicate CanGiveBack(s: State, i: nat) {
    i < |s.workers| && s.workers[i].Pushed?
  }

  function GiveBackStep(s: State, i: nat): State
    requires CanGiveBack(s, i)
  {
    var w := s.workers[i];
    var g := Of(s, w.x.secondary);
    With(s, w.x.secondary, g.(chan := g.chan + [w.q])).(workers := s.workers[i := Running(w.evt)])
  }

  predicate CanFinish(s: State, i: nat) {
    i < |s.workers| && s.workers[i].Running?
  }

  function FinishStep(s: State, i: nat): State
    requires i < |s.workers|
  {
    s.(workers := s.workers[i := Done(s.workers[i].evt)])
  }

  ghost predicate Enabled(s: State, a: Action, maxTime: real) {
    match a
    case Kick(x) => CanKick(s, x)
    case Choose(p, t) => CanChoose(s, p, t, maxTime)
    case Receive => CanReceive(s)
    case StartDrain => CanStartDrain(s)
    case PopEvent(e) => CanPop(s, e)
    case ReturnQueue => CanReturn(s)
    case EndDrain => CanEndDrain(s)
    case EndRound => CanEndRound(s)
    case Ask(i, x) => CanAsk(s, i, x)
    case Take(i) => CanTake(s, i)
    case Push(i) => CanPush(s, i)
    case GiveBack(i) => CanGiveBack(s, i)
    case Finish(i) => CanFinish(s, i)
  }

  function Step(s: State, a: Action, ghost maxTime: real): State
    requires Enabled(s, a, maxTime)
  {
    match a
    case Kick(x) => KickStep(s, x)
    case Choose(p, t) => ChooseStep(s, p, t)
    case Receive => ReceiveStep(s)
    case StartDrain => s.(phase := Draining(0))
    case PopEvent(e) => PopStep(s, e)
    case ReturnQueue => ReturnStep(s)
    case EndDrain => s.(phase := Waiting)
    case EndRound => s.(phase := Idle, workers := [])
    case Ask(i, x) => AskStep(s, i, x)
    case Take(i) => TakeStep(s, i)
    case Push(i) => PushStep(s, i)
    case GiveBack(i) => GiveBackStep(s, i)
    case Finish(i) => FinishStep(s, i)
  }

  /* ----- The invariant ----- */

  function Token(w: Worker, sec: bool): multiset<nat> {
    if (w.Holds? || w.Pushed?) && w.x.secondary == sec then multiset{w.q} else multiset{}
  }

  function Tokens(ws: seq<Worker>, sec: bool): (r: seq<multiset<nat>>)
    ensures |r| == |ws| && forall i :: 0 <= i < |ws| ==> r[i] == Token(ws[i], sec)
  {
    seq(|ws|, i requires 0 <= i < |ws| => Token(ws[i], sec))
  }

  /** An event on its way into a queue. */
  function Cargo(w: Worker): multiset<Event> {
    if w.Wants? || w.Holds? then multiset{w.x} else multiset{}
  }

  function Cargos(ws: seq<Worker>): (r: seq<multiset<Event>>)
    ensures |r| == |ws| && forall i :: 0 <= i < |ws| ==> r[i] == Cargo(ws[i])
  {
    seq(|ws|, i requires 0 <= i < |ws| => Cargo(ws[i]))
  }

  /** The queues the main loop keeps for itself. */
  function Kept(phase: Phase, n: nat): multiset<nat> {
    match phase
    case Emptying(received) => multiset(received)
    case Draining(k) => Range(k, n)
    case _ => multiset{}
  }

  function KeptOf(s: State, sec: bool): multiset<nat> {
    if s.secondaryRound == sec then Kept(s.phase, Size(s)) else multiset{}
  }

  /** Each queue is in exactly one place: its channel, the main loop or a worker. */
  ghost predicate TokensOk(s: State, sec: bool) {
    multiset(Of(s, sec).chan) + Sum(Tokens(s.workers, sec)) + KeptOf(s, sec) == Range(0, Size(s))
  }

  /** Nothing is lost or run twice. */
  ghost predicate Conserved(s: State) {
    s.scheduled == InQueues(s) + Sum(Cargos(s.workers)) + multiset(s.log)
  }

  ghost predicate QueuesInTime(g: Group, now: real, sec: bool) {
    forall e :: e in Waits(g) ==> e.time >= now && e.secondary == sec
  }

  ghost predicate WorkerInTime(w: Worker, now: real, sec: bool) {
    w.evt.time == now && w.evt.secondary == sec && (w.Wants? || w.Holds? || w.Pushed? ==> w.x.time >= now)
  }

  ghost predicate InTime(s: State) {
    && QueuesInTime(s.primary, s.now, false) && QueuesInTime(s.secondary, s.now, true)
    && (forall i :: 0 <= i < |s.workers| ==> WorkerInTime(s.workers[i], s.now, s.secondaryRound))
  }

  ghost predicate LogOk(log: seq<Event>, now: real) {
    && (forall i, j :: 0 <= i < j < |log| ==> log[i].time <= log[j].time)
    && (forall i :: 0 <= i < |log| ==> log[i].time <= now)
  }

  /** Control facts. */
  ghost predicate Shape(s: State, maxTime: real) {
    && |s.secondary.queues| == Size(s) > 0
    && s.now <= maxTime
    && (s.phase.Idle? || s.phase.Emptying? ==> s.workers == [])
    && (s.phase.Draining? ==> s.phase.k <= Size(s))
  }

  /** From which queue on the current round has still to look. */
  function Frontier(s: State): nat {
    match s.phase
    case Emptying(_) => 0
    case Draining(k) => k
    case _ => Size(s)
  }

  /** The due events of the round were popped or are still ahead. */
  ghost predicate DueOk(s: State) {
    !s.phase.Idle? && Frontier(s) <= |Of(s, s.secondaryRound).queues| ==>
      forall e: Event :: e.time == s.now ==>
          s.found[e] <= Sum(Of(s, s.secondaryRound).queues[Frontier(s)..])[e] + s.ran[e]
  }

  ghost predicate Inv(s: State, maxTime: real) {
    && Shape(s, maxTime)
    && TokensOk(s, false) && TokensOk(s, true)
    && Conserved(s)
    && InTime(s)
    && LogOk(s.log, s.now)
    && DueOk(s)
  }

  ghost predicate Init(s: State, n: nat, maxTime: real) {
    && n > 0 && s.now <= maxTime
    && s.primary == Group(seq(n, _ => multiset{}), seq(n, i => i)) && s.secondary == s.primary
    && s.phase == Idle && s.workers == [] && s.scheduled == multiset{} && s.log == []
  }

  ghost predicate Runs(s: State, acts: seq<Action>, maxTime: real)
    decreases |acts|
  {
    acts == [] || (Enabled(s, acts[0], maxTime) && Runs(Step(s, acts[0], maxTime), acts[1..], maxTime))
  }

  ghost function Final(s: State, acts: seq<Action>, maxTime: real): State
    requires Runs(s, acts, maxTime)
    decreases |acts|
  {
    if acts == [] then s else Final(Step(s, acts[0], maxTime), acts[1..], maxTime)
  }
}
