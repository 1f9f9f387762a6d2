/** The loops of akita/sim/parallelengine.go, one round at a time and without concurrent calls of Schedule. */
module ParallelEngines {
  import opened Bags
  import opened EventQueue
  import M = ParallelEngineModel

  type Event = M.Event

  function Contents(queues: seq<seq<Event>>): (r: seq<multiset<Event>>)
    ensures |r| == |queues| && forall i :: 0 <= i < |queues| ==> r[i] == multiset(queues[i])
  {
    seq(|queues|, i requires 0 <= i < |queues| => multiset(queues[i]))
  }

  ghost predicate AllSorted(queues: seq<seq<Event>>) {
    forall i :: 0 <= i < |queues| ==> Sorted(queues[i])
  }

  lemma OneMore(queues: seq<seq<Event>>, i: nat)
    requires i < |queues|
    ensures Sum(Contents(queues[..i + 1])) == Sum(Contents(queues[..i])) + multiset(queues[i])
  {
    assert Contents(queues[..i + 1]) == Contents(queues[..i]) + [multiset(queues[i])];
    SumAppend(Contents(queues[..i]), multiset(queues[i]));
  }

  lemma EarliestOfMore(bag: multiset<Event>, q: seq<Event>, t: real, maxTime: real)
    requires M.IsEarliest(bag, t, maxTime) && Sorted(q) && q != []
    ensures M.IsEarliest(bag + multiset(q), if q[0].time < t then q[0].time else t, maxTime)
  {
    var t' := if q[0].time < t then q[0].time else t;
    forall e | e in bag + multiset(q) ensures t' <= e.time {
      assert e in bag || e in q;
    }
    if t' != maxTime {
      if q[0].time < t {
        assert q[0] in bag + multiset(q);
      } else {
        var e :| e in bag && e.time == t;
        assert e in bag + multiset(q);
      }
    }
  }

  class ParallelEngine {
    var now: real
    var runningSecondaryEvents: bool
    var queues: seq<seq<Event>>
    var secondaryQueues: seq<seq<Event>>
    const maxTime: real

    ghost predicate Valid()
      reads this
    {
      AllSorted(queues) && AllSorted(secondaryQueues)
    }

    constructor (numQueues: nat, maxTime: real)
      ensures Valid() && now == 0.0 && |queues| == |secondaryQueues| == numQueues && this.maxTime == maxTime
      ensures forall i :: 0 <= i < numQueues ==> queues[i] == [] && secondaryQueues[i] == []
    {
      now, runningSecondaryEvents, this.maxTime := 0.0, false, maxTime;
      queues, secondaryQueues := seq(numQueues, _ => []), seq(numQueues, _ => []);
    }

    static method EarliestTimeInQueueGroup(queues: seq<seq<Event>>, maxTime: real) returns (earliestTime: real)
      requires AllSorted(queues)
      ensures M.IsEarliest(Sum(Contents(queues)), earliestTime, maxTime)
    {
      hide Sum;
      hide M.IsEarliest;
      hide Sorted;
      earliestTime := maxTime;
      var i := 0;
      NothingEarlier(queues[..0], maxTime);
      while i < |queues|
        invariant i <= |queues| && M.IsEarliest(Sum(Contents(queues[..i])), earliestTime, maxTime)
      {
        OneMore(queues, i);
        if |queues[i]| == 0 {
          assert Sum(Contents(queues[..i])) + multiset{} == Sum(Contents(queues[..i]));
        } else {
          EarliestOfMore(Sum(Contents(queues[..i])), queues[i], earliestTime, maxTime);
          var t := queues[i][0].time;
          if t < earliestTime {
            earliestTime := t;
          }
        }
        i := i + 1;
      }
      assert queues[..i] == queues;
    }

    static lemma NothingEarlier(queues: seq<seq<Event>>, maxTime: real)
      requires queues == []
      ensures M.IsEarliest(Sum(Contents(queues)), maxTime, maxTime)
    {
    }

    static method HasMore(queues: seq<seq<Event>>) returns (more: bool)
      ensures more <==> Sum(Contents(queues)) != multiset{}
    {
      var i := 0;
      while i < |queues|
        invariant i <= |queues| && forall j :: 0 <= j < i ==> queues[j] == []
      {
        if |queues[i]| > 0 {
          SumHas(Contents(queues), queues[i][0]);
          assert queues[i][0] in Contents(queues)[i];
          return true;
        }
        i := i + 1;
      }
      SumEmpty(Contents(queues));
      return false;
    }

    method HasMoreEvents() returns (more: bool)
      ensures more <==> Sum(Contents(queues)) + Sum(Contents(secondaryQueues)) != multiset{}
    {
      more := HasMore(queues);
      if !more {
        more := HasMore(secondaryQueues);
      }
    }

    /** Sets the time and the kind of the next round as the state machine's Choose does. */
    method DetermineWhatToRun() returns (ghost primaryTime: real, ghost secondaryTime: real)
      requires Valid()
      modifies this`now, this`runningSecondaryEvents
      ensures M.IsEarliest(Sum(Contents(queues)), primaryTime, maxTime)
      ensures M.IsEarliest(Sum(Contents(secondaryQueues)), secondaryTime, maxTime)
      ensures runningSecondaryEvents == (secondaryTime < primaryTime)
      ensures now == if runningSecondaryEvents then secondaryTime else primaryTime
    {
      var p := EarliestTimeInQueueGroup(queues, maxTime);
      var t := EarliestTimeInQueueGroup(secondaryQueues, maxTime);
      primaryTime, secondaryTime := p, t;
      if p <= t {
        runningSecondaryEvents := false;
        now := p;
        return;
      }
      runningSecondaryEvents := true;
      now := t;
    }

    /** The inner loop of runEventsUntilConflict, on one queue. `events` are those handed to workers. */
    static method RunQueue(queue: seq<Event>, now: real) returns (rest: seq<Event>, events: seq<Event>)
      requires Sorted(queue) && forall e :: e in queue ==> e.time >= now
      ensures queue == events + rest
      ensures (forall e :: e in events ==> e.time == now) && (forall e :: e in rest ==> e.time > now)
    {
      rest, events := queue, [];
      while |rest| > 0
        invariant queue == events + rest && forall e :: e in events ==> e.time == now
        decreases |rest|
      {
        var evt := rest[0];
        assert evt in queue;
        if evt.time == now {
          assert queue == (events + [evt]) + rest[1..];
          events, rest := events + [evt], rest[1..];
        } else {
          forall j | 0 <= j < |rest| ensures rest[j].time > now {
            assert queue[|events|].time <= queue[|events| + j].time;
          }
          break;
        }
      }
    }

    /** runEventsUntilConflict: exactly the events of time now leave the queues. */
    static method RunEventsUntilConflict(queues: seq<seq<Event>>, now: real)
        returns (rest: seq<seq<Event>>, events: seq<Event>)
      requires AllSorted(queues) && forall e :: e in Sum(Contents(queues)) ==> e.time >= now
      ensures |rest| == |queues| && forall j :: 0 <= j < |queues| ==> SuffixOf(rest[j], queues[j])
      ensures Sum(Contents(queues)) == Sum(Contents(rest)) + multiset(events)
      ensures (forall e :: e in events ==> e.time == now) && (forall e :: e in Sum(Contents(rest)) ==> e.time > now)
    {
      hide Sum;
      hide Sorted;
      rest, events := queues, [];
      var i := 0;
      while i < |rest|
        invariant i <= |rest| == |queues| && rest[i..] == queues[i..]
        invariant Sum(Contents(queues)) == Sum(Contents(rest)) + multiset(events)
        invariant forall e :: e in events ==> e.time == now
        invariant forall j :: 0 <= j < i ==> LaterThan(rest[j], now) && SuffixOf(rest[j], queues[j])
      {
        assert rest[i] == queues[i] by { assert rest[i] == rest[i..][0] && queues[i] == queues[i..][0]; }
        InOne(queues, i);
        var left, due := RunQueue(rest[i], now);
        assert SuffixOf(left, queues[i]);
        Drained(rest, i, left, due);
        Moved(Sum(Contents(queues)), Sum(Contents(rest)), Sum(Contents(rest[i := left])), events, due);
        rest := rest[i := left];
        events := events + due;
        i := i + 1;
      }
      AllLater(rest, now);
    }

    /** runRound, for handlers that schedule nothing: all events of time now of the round's kind, and only those. */
    method RunRound() returns (events: seq<Event>)
      requires Valid()
      requires forall e :: e in Sum(Contents(if runningSecondaryEvents then secondaryQueues else queues)) ==>
              e.time >= now
      modifies this`queues, this`secondaryQueues
      ensures Valid()
      ensures runningSecondaryEvents ==>
              queues == old(queues)
                  && Sum(Contents(old(secondaryQueues))) == Sum(Contents(secondaryQueues)) + multiset(events)
      ensures !runningSecondaryEvents ==>
              secondaryQueues == old(secondaryQueues)
                  && Sum(Contents(old(queues))) == Sum(Contents(queues)) + multiset(events)
      ensures forall e :: e in events ==> e.time == now
      ensures forall e :: e in Sum(Contents(if runningSecondaryEvents then secondaryQueues else queues)) ==>
              e.time > now
    {
      hide Sum;
      hide Sorted;
      if runningSecondaryEvents {
        var before := secondaryQueues;
        secondaryQueues, events := RunEventsUntilConflict(before, now);
        StillSorted(before, secondaryQueues);
      } else {
        var before := queues;
        queues, events := RunEventsUntilConflict(before, now);
        StillSorted(before, queues);
      }
    }

    static lemma StillSorted(queues: seq<seq<Event>>, rest: seq<seq<Event>>)
      requires AllSorted(queues) && |rest| == |queues| && forall j :: 0 <= j < |queues| ==> SuffixOf(rest[j], queues[j])
      ensures AllSorted(rest)
    {
      forall j | 0 <= j < |rest| ensures Sorted(rest[j]) {
        assert forall i :: 0 <= i < |rest[j]| ==> rest[j][i] == queues[j][|queues[j]| - |rest[j]| + i];
      }
    }

    static ghost predicate SuffixOf(rest: seq<Event>, q: seq<Event>) {
      |rest| <= |q| && q[|q| - |rest|..] == rest
    }

    static ghost predicate LaterThan(q: seq<Event>, t: real) {
      forall e :: e in q ==> e.time > t
    }

    static lemma InOne(queues: seq<seq<Event>>, i: nat)
      requires i < |queues|
      ensures forall e :: e in queues[i] ==> e in Sum(Contents(queues))
    {
      forall e | e in queues[i] ensures e in Sum(Contents(queues)) {
        assert e in Contents(queues)[i];
        SumHas(Contents(queues), e);
      }
    }

    static lemma Drained(queues: seq<seq<Event>>, i: nat, rest: seq<Event>, due: seq<Event>)
      requires i < |queues| && queues[i] == due + rest
      ensures Sum(Contents(queues)) == Sum(Contents(queues[i := rest])) + multiset(due)
    {
      assert Contents(queues[i := rest]) == Contents(queues)[i := multiset(rest)];
      SumUpdate(Contents(queues), i, multiset(rest));
      Cancel(Sum(Contents(queues)), Sum(Contents(queues[i := rest])), multiset(due), multiset(rest));
    }

    static lemma Cancel(a: multiset<Event>, a': multiset<Event>, due: multiset<Event>, rest: multiset<Event>)
      requires a' + (due + rest) == a + rest
      ensures a == a' + due
    {
      forall e: Event ensures a[e] == (a' + due)[e] {
        assert (a' + (due + rest))[e] == (a + rest)[e];
      }
    }

    static lemma Moved(all: multiset<Event>, a: multiset<Event>, a': multiset<Event>, events: seq<Event>,
        due: seq<Event>)
      requires all == a + multiset(events) && a == a' + multiset(due)
      ensures all == a' + multiset(events + due)
    {
    }

    static lemma AllLater(queues: seq<seq<Event>>, t: real)
      requires forall j :: 0 <= j < |queues| ==> LaterThan(queues[j], t)
      ensures forall e :: e in Sum(Contents(queues)) ==> e.time > t
    {
      forall e | e in Sum(Contents(queues)) ensures e.time > t {
        SumHas(Contents(queues), e);
        var j :| 0 <= j < |queues| && e in Contents(queues)[j];
        assert e in queues[j];
      }
    }
  }
}
