/** A run in which Run of the parallel engine does not return: a secondary event at the largest time. */
module ParallelEngineStall {
  import opened ParallelEngineModel
  import opened ParallelEngineRuns

  /** One queue of each kind, and event x waits in the secondary one. */
  function Loaded(now: real, phase: Phase, chan: seq<nat>, x: Event): State {
    State(now, false, Group([multiset{}], chan), Group([multiset{x}], [0]), phase, [], multiset{x}, [], multiset{},
          multiset{})
  }

  function Stalled(maxTime: real, x: Event): State {
    Loaded(maxTime, Idle, [0], x)
  }

  /** A round of the main loop that finds nothing to run. */
  function Round(maxTime: real): seq<Action> {
    [Choose(maxTime, maxTime), Receive, StartDrain, ReturnQueue, EndDrain, EndRound]
  }

  lemma LoadedWaits(now: real, phase: Phase, chan: seq<nat>, x: Event)
    ensures var s := Loaded(now, phase, chan, x);
            Waits(s.primary) == multiset{} && Waits(s.secondary) == multiset{x} && InQueues(s) == multiset{x}
  {
    var none: seq<multiset<Event>> := [multiset{}];
    assert none[1..] == [];
    assert [multiset{x}][1..] == [];
  }

  lemma Then(s: State, a: Action, rest: seq<Action>, maxTime: real)
    requires Enabled(s, a, maxTime) && Runs(Step(s, a, maxTime), rest, maxTime)
    ensures Runs(s, [a] + rest, maxTime)
    ensures Final(s, [a] + rest, maxTime) == Final(Step(s, a, maxTime), rest, maxTime)
  {
    assert ([a] + rest)[1..] == rest;
  }

  /** Choosing finds the largest time for both kinds, and primary events go first. */
  lemma Chosen(now: real, maxTime: real, x: Event)
    requires x.time == maxTime
    ensures var s := Loaded(now, Idle, [0], x);
            && CanChoose(s, maxTime, maxTime, maxTime)
            && ChooseStep(s, maxTime, maxTime) == Loaded(maxTime, Emptying([]), [0], x)
  {
    LoadedWaits(now, Idle, [0], x);
  }

  /** The main loop receives the queue, ... */
  lemma Received(maxTime: real, x: Event)
    ensures var s, s1 := Loaded(maxTime, Emptying([]), [0], x), Loaded(maxTime, Emptying([0]), [], x);
            && Enabled(s, Receive, maxTime) && Step(s, Receive, maxTime) == s1
            && Enabled(s1, StartDrain, maxTime) && Step(s1, StartDrain, maxTime) == Loaded(maxTime, Draining(0), [], x)
  {
    var empty: seq<nat> := [];
    assert [0][1..] == empty && empty + [0] == [0];
  }

  /** ... returns it unused and waits for nobody. */
  lemma Drained(maxTime: real, x: Event)
    ensures var s2, s3 := Loaded(maxTime, Draining(0), [], x), Loaded(maxTime, Draining(1), [0], x);
            && Enabled(s2, ReturnQueue, maxTime) && Step(s2, ReturnQueue, maxTime) == s3
            && Enabled(s3, EndDrain, maxTime) && Step(s3, EndDrain, maxTime) == Loaded(maxTime, Waiting, [0], x)
  {
    var empty: seq<nat> := [];
    assert empty + [0] == [0];
  }

  lemma Ended(maxTime: real, x: Event)
    ensures var s4 := Loaded(maxTime, Waiting, [0], x);
            Enabled(s4, EndRound, maxTime) && Step(s4, EndRound, maxTime) == Stalled(maxTime, x)
  {
  }

  lemma Returned(maxTime: real, x: Event)
    ensures var s := Loaded(maxTime, Emptying([]), [0], x);
            var acts := [Receive, StartDrain, ReturnQueue, EndDrain, EndRound];
            Runs(s, acts, maxTime) && Final(s, acts, maxTime) == Stalled(maxTime, x)
  {
    Received(maxTime, x);
    Drained(maxTime, x);
    Ended(maxTime, x);
    assert Runs(Stalled(maxTime, x), [], maxTime);
    assert Final(Stalled(maxTime, x), [], maxTime) == Stalled(maxTime, x);
    hide *;
    Then(Loaded(maxTime, Waiting, [0], x), EndRound, [], maxTime);
    Then(Loaded(maxTime, Draining(1), [0], x), EndDrain, [EndRound], maxTime);
    Then(Loaded(maxTime, Draining(0), [], x), ReturnQueue, [EndDrain, EndRound], maxTime);
    Then(Loaded(maxTime, Emptying([0]), [], x), StartDrain, [ReturnQueue, EndDrain, EndRound], maxTime);
    Then(Loaded(maxTime, Emptying([]), [0], x), Receive, [StartDrain, ReturnQueue, EndDrain, EndRound], maxTime);
  }

  lemma RoundFrom(now: real, maxTime: real, x: Event)
    requires x.time == maxTime
    ensures var s := Loaded(now, Idle, [0], x);
            Runs(s, Round(maxTime), maxTime) && Final(s, Round(maxTime), maxTime) == Stalled(maxTime, x)
  {
    var s := Loaded(now, Idle, [0], x);
    Chosen(now, maxTime, x);
    Returned(maxTime, x);
    Then(s, Choose(maxTime, maxTime), [Receive, StartDrain, ReturnQueue, EndDrain, EndRound], maxTime);
  }

  function Rounds(maxTime: real, n: nat): seq<Action> {
    if n == 0 then [] else Round(maxTime) + Rounds(maxTime, n - 1)
  }

  lemma {:induction false} RunJoin(s: State, a: seq<Action>, b: seq<Action>, maxTime: real)
    requires Runs(s, a, maxTime) && Runs(Final(s, a, maxTime), b, maxTime)
    ensures Runs(s, a + b, maxTime) && Final(s, a + b, maxTime) == Final(Final(s, a, maxTime), b, maxTime)
    decreases |a|
  {
    hide Enabled;
    hide Step;
    if a == [] {
      assert a + b == b;
    } else {
      assert (a + b)[1..] == a[1..] + b;
      RunJoin(Step(s, a[0], maxTime), a[1..], b, maxTime);
    }
  }

  lemma {:induction false} StaysStalled(maxTime: real, x: Event, n: nat)
    requires x.time == maxTime
    ensures Runs(Stalled(maxTime, x), Rounds(maxTime, n), maxTime)
    ensures Final(Stalled(maxTime, x), Rounds(maxTime, n), maxTime) == Stalled(maxTime, x)
  {
    if n > 0 {
      RoundFrom(maxTime, maxTime, x);
      StaysStalled(maxTime, x, n - 1);
      hide Runs;
      hide Final;
      RunJoin(Stalled(maxTime, x), Round(maxTime), Rounds(maxTime, n - 1), maxTime);
    }
  }

  /** The run: the event is scheduled at time zero, and after any number of further rounds it still waits and nothing
      has run. */
  lemma LargestTimeNeverRuns(maxTime: real, x: Event, n: nat)
    requires 0.0 <= maxTime == x.time && x.secondary
    ensures Reachable(Stalled(maxTime, x), 1, maxTime)
    ensures Runs(Stalled(maxTime, x), Rounds(maxTime, n), maxTime)
    ensures Final(Stalled(maxTime, x), Rounds(maxTime, n), maxTime) == Stalled(maxTime, x)
    ensures InQueues(Stalled(maxTime, x)) == multiset{x} && Stalled(maxTime, x).log == []
  {
    StaysStalled(maxTime, x, n);
    LoadedWaits(maxTime, Idle, [0], x);
    var g := Group([multiset{}], [0]);
    var s0 := State(0.0, false, g, g, Idle, [], multiset{}, [], multiset{}, multiset{});
    FreshStart(s0, maxTime);
    var s1 := Step(s0, Kick(x), maxTime);
    assert s1 == Loaded(0.0, Idle, [0], x);
    RoundFrom(0.0, maxTime, x);
    Then(s0, Kick(x), Round(maxTime), maxTime);
  }

  lemma FreshStart(s: State, maxTime: real)
    requires 0.0 <= maxTime
    requires s == State(0.0, false, s.primary, s.primary, Idle, [], multiset{}, [], multiset{}, multiset{})
    requires s.primary == Group([multiset{}], [0])
    ensures Init(s, 1, maxTime)
  {
    assert s.primary.queues == seq(1, _ => multiset{});
    assert s.primary.chan == seq(1, i => i);
  }
}
