/** The insertion-sorted queue of akita/sim/eventqueue.go. */
module EventQueue {
  import opened Wrappers
  import opened Kernel

  ghost predicate Sorted(l: seq<Event>) {
    forall i, j :: 0 <= i < j < |l| ==> l[i].time <= l[j].time
  }

  /** Where Push inserts: in front of the first strictly later event. */
  function Slot(l: seq<Event>, t: real): (i: nat)
    ensures i <= |l| && (forall j :: 0 <= j < i ==> l[j].time <= t) && (i < |l| ==> l[i].time > t)
  {
    if l == [] || l[0].time > t then 0 else 1 + Slot(l[1..], t)
  }

  function Inserted(l: seq<Event>, e: Event): seq<Event> {
    l[..Slot(l, e.time)] + [e] + l[Slot(l, e.time)..]
  }

  lemma InsertedFacts(l: seq<Event>, e: Event)
    requires Sorted(l)
    ensures Sorted(Inserted(l, e)) && multiset(Inserted(l, e)) == multiset(l) + multiset{e}
  {
    var i := Slot(l, e.time);
    SplicedBag(l, i, e);
    SplicedSorted(l, i, e);
  }

  lemma SplicedBag(l: seq<Event>, i: nat, e: Event)
    requires i <= |l|
    ensures multiset(l[..i] + [e] + l[i..]) == multiset(l) + multiset{e}
  {
    assert l == l[..i] + l[i..];
  }

  lemma SplicedSorted(l: seq<Event>, i: nat, e: Event)
    requires Sorted(l) && i <= |l| && (forall j :: 0 <= j < i ==> l[j].time <= e.time)
            && (i < |l| ==> l[i].time > e.time)
    ensures Sorted(l[..i] + [e] + l[i..])
  {
    forall j | i <= j < |l| ensures l[j].time > e.time {
      assert l[i].time <= l[j].time;
    }
  }

  /** The events of time t, in order. */
  function AtTime(l: seq<Event>, t: real): seq<Event> {
    if l == [] then [] else (if l[0].time == t then [l[0]] else []) + AtTime(l[1..], t)
  }

  lemma {:induction false} AtTimeAppend(a: seq<Event>, b: seq<Event>, t: real)
    ensures AtTime(a + b, t) == AtTime(a, t) + AtTime(b, t)
  {
    if a == [] {
      ConcatNil(b);
    } else {
      AtTimeAppend(a[1..], b, t);
      TailOfConcat(a, b);
    }
  }

  lemma {:induction false} NoneAtTime(l: seq<Event>, t: real)
    requires forall e :: e in l ==> e.time != t
    ensures AtTime(l, t) == []
  {
    if l != [] {
      NoneAtTime(l[1..], t);
    }
  }

  /** Insertion puts an event behind all events of its own time. */
  lemma InsertedIsFifo(l: seq<Event>, e: Event, t: real)
    requires Sorted(l)
    ensures AtTime(Inserted(l, e), t) == AtTime(l, t) + AtTime([e], t)
  {
    hide AtTime;
    var i := Slot(l, e.time);
    var front, back := l[..i], l[i..];
    assert l == front + back;
    AtTimeAppend(front, back, t);
    AtTimeAppend(front + [e], back, t);
    AtTimeAppend(front, [e], t);
    if t == e.time {
      LaterAtTime(l, i, t);
      ConcatNil(AtTime(front, t));
      ConcatNil(AtTime(front, t) + AtTime([e], t));
    } else {
      NoneAtTime([e], t);
      ConcatNil(AtTime(front, t));
      ConcatNil(AtTime(l, t));
    }
  }

  lemma LaterAtTime(l: seq<Event>, i: nat, t: real)
    requires Sorted(l) && i <= |l| && (i < |l| ==> l[i].time > t)
    ensures AtTime(l[i..], t) == []
  {
    forall x | x in l[i..] ensures x.time != t {
      var j :| 0 <= j < |l[i..]| && l[i..][j] == x;
      assert l[i].time <= l[i + j].time;
    }
    NoneAtTime(l[i..], t);
  }

  /** Pushes and pops on one queue; a pop on an empty queue would panic. */
  datatype QueueOp = PushOp(e: Event) | PopOp

  datatype QueueRun = QueueRun(queue: seq<Event>, pushed: seq<Event>, popped: seq<Event>)

  ghost predicate QueueAllowed(l: seq<Event>, ops: seq<QueueOp>)
    decreases |ops|
  {
    ops == [] ||
    match ops[0]
    case PushOp(e) => QueueAllowed(Inserted(l, e), ops[1..])
    case PopOp => l != [] && QueueAllowed(l[1..], ops[1..])
  }

  ghost function RunQueue(r: QueueRun, ops: seq<QueueOp>): QueueRun
    requires QueueAllowed(r.queue, ops)
    decreases |ops|
  {
    if ops == [] then r
    else match ops[0]
      case PushOp(e) => RunQueue(QueueRun(Inserted(r.queue, e), r.pushed + [e], r.popped), ops[1..])
      case PopOp => RunQueue(QueueRun(r.queue[1..], r.pushed, r.popped + [r.queue[0]]), ops[1..])
  }

  ghost predicate FifoAt(r: QueueRun, t: real) {
    AtTime(r.pushed, t) == AtTime(r.popped, t) + AtTime(r.queue, t)
  }

  /** Over any run, events of one time leave the queue in the order in which they were pushed. */
  lemma {:induction false} EqualTimesAreFifo(r: QueueRun, ops: seq<QueueOp>, t: real)
    requires Sorted(r.queue) && FifoAt(r, t) && QueueAllowed(r.queue, ops)
    ensures FifoAt(RunQueue(r, ops), t)
    decreases |ops|
  {
    hide AtTime;
    hide Inserted;
    if ops != [] {
      match ops[0]
      case PushOp(e) =>
        InsertedFacts(r.queue, e);
        InsertedIsFifo(r.queue, e, t);
        AtTimeAppend(r.pushed, [e], t);
        AppendBoth(AtTime(r.pushed, t), AtTime(r.popped, t), AtTime(r.queue, t), AtTime([e], t));
        EqualTimesAreFifo(QueueRun(Inserted(r.queue, e), r.pushed + [e], r.popped), ops[1..], t);
      case PopOp =>
        var x, rest := r.queue[0], r.queue[1..];
        assert r.queue == [x] + rest;
        AtTimeAppend([x], rest, t);
        AtTimeAppend(r.popped, [x], t);
        EqualTimesAreFifo(QueueRun(rest, r.pushed, r.popped + [x]), ops[1..], t);
    }
  }

  class InsertionQueue {
    var l: seq<Event>

    ghost predicate Valid()
      reads this
    {
      Sorted(l)
    }

    constructor ()
      ensures Valid() && l == []
    {
      l := [];
    }

    /** Walks to the first later event and inserts in front of it. */
    method Push(evt: Event)
      requires Valid()
      modifies this`l
      ensures Valid() && l == Inserted(old(l), evt) && multiset(l) == multiset(old(l)) + multiset{evt}
    {
      var i := 0;
      while i < |l| && l[i].time <= evt.time
        invariant 0 <= i <= |l|
        invariant forall j :: 0 <= j < i ==> l[j].time <= evt.time
      {
        i := i + 1;
      }
      assert i == Slot(l, evt.time);
      InsertedFacts(l, evt);
      l := l[..i] + [evt] + l[i..];
    }

    /** Removes the front element, an event of the smallest time. */
    method Pop() returns (evt: Event)
      requires Valid() && l != []
      modifies this`l
      ensures Valid() && old(l) == [evt] + l
      ensures multiset(l) == multiset(old(l)) - multiset{evt}
      ensures forall e :: e in old(l) ==> evt.time <= e.time
    {
      evt := l[0];
      assert l == [evt] + l[1..];
      l := l[1..];
    }

    method Peek() returns (evt: Event)
      requires Valid() && l != []
      ensures evt == l[0] && forall e :: e in l ==> evt.time <= e.time
    {
      evt := l[0];
    }

    method Len() returns (n: nat)
      ensures n == |l|
    {
      n := |l|;
    }
  }
}
