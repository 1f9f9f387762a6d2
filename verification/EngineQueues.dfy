/** The two insertion queues of akita/sim/serialengine.go together, as lists. */
module EngineQueues {
  import opened Kernel
  import opened EventQueue

  datatype Lists = Lists(primary: seq<Event>, secondary: seq<Event>)

  function Of(q: Lists, sec: bool): seq<Event> {
    if sec then q.secondary else q.primary
  }

  /** Schedule. */
  function Pushed(q: Lists, e: Event): Lists {
    if e.secondary then q.(secondary := Inserted(q.secondary, e)) else q.(primary := Inserted(q.primary, e))
  }

  function PushedAll(q: Lists, es: seq<Event>): Lists
    decreases |es|
  {
    if es == [] then q else PushedAll(Pushed(q, es[0]), es[1..])
  }

  /** nextEvent: whether the front of the secondary queue goes first. */
  predicate SecondaryFirst(q: Lists) {
    q.primary == [] || (q.secondary != [] && q.primary[0].time > q.secondary[0].time)
  }

  predicate SomeEvent(q: Lists) {
    q.primary != [] || q.secondary != []
  }

  function Chosen(q: Lists): Event
    requires SomeEvent(q)
  {
    if SecondaryFirst(q) then q.secondary[0] else q.primary[0]
  }

  function Popped(q: Lists): Lists
    requires SomeEvent(q)
  {
    if SecondaryFirst(q) then q.(secondary := q.secondary[1..]) else q.(primary := q.primary[1..])
  }

  /** Both lists are sorted and hold events of their kind. */
  ghost predicate ListsOk(q: Lists) {
    && Sorted(q.primary) && Sorted(q.secondary)
    && (forall e :: e in q.primary ==> !e.secondary) && (forall e :: e in q.secondary ==> e.secondary)
  }

  function All(q: Lists): multiset<Event> {
    multiset(q.primary) + multiset(q.secondary)
  }

  lemma PushedOk(q: Lists, e: Event)
    requires ListsOk(q)
    ensures ListsOk(Pushed(q, e)) && All(Pushed(q, e)) == All(q) + multiset{e}
  {
    var l := Of(q, e.secondary);
    InsertedFacts(l, e);
    hide Sorted;
    hide Inserted;
    forall x | x in Inserted(l, e) ensures x in l || x == e {
      assert x in multiset(Inserted(l, e));
    }
  }

  lemma FrontSplits(l: seq<Event>)
    requires l != []
    ensures multiset(l) == multiset{l[0]} + multiset(l[1..]) && (Sorted(l) ==> Sorted(l[1..]))
  {
    assert l == [l[0]] + l[1..];
  }

  lemma PoppedOk(q: Lists)
    requires ListsOk(q) && SomeEvent(q)
    ensures ListsOk(Popped(q)) && All(q) == All(Popped(q)) + multiset{Chosen(q)}
    ensures Chosen(q) in All(q) && (Chosen(q).secondary <==> SecondaryFirst(q))
  {
    hide Sorted;
    if SecondaryFirst(q) {
      FrontSplits(q.secondary);
    } else {
      FrontSplits(q.primary);
    }
  }

  /** What nextEvent chooses is the earliest event, and a primary one on a tie. */
  lemma ChosenIsNext(q: Lists, e: Engine)
    requires ListsOk(q) && SomeEvent(q) && multiset(q.primary) == e.primary && multiset(q.secondary) == e.secondary
    ensures IsNext(e, Chosen(q))
  {
    forall x | x in e.primary ensures q.primary != [] && q.primary[0].time <= x.time {
      FrontIsEarliest(q.primary, x);
    }
    forall x | x in e.secondary ensures q.secondary != [] && q.secondary[0].time <= x.time {
      FrontIsEarliest(q.secondary, x);
    }
    assert q.primary != [] ==> q.primary[0] in e.primary;
    assert q.secondary != [] ==> q.secondary[0] in e.secondary;
  }

  lemma FrontIsEarliest(l: seq<Event>, x: Event)
    requires Sorted(l) && x in multiset(l)
    ensures l != [] && l[0].time <= x.time
  {
    var i :| 0 <= i < |l| && l[i] == x;
  }

  /* ----- First in, first out ----- */

  /** The events of one kind, in order. */
  function OfKind(l: seq<Event>, sec: bool): seq<Event> {
    if l == [] then [] else (if l[0].secondary == sec then [l[0]] else []) + OfKind(l[1..], sec)
  }

  lemma {:induction false} OfKindPush(l: seq<Event>, e: Event, sec: bool)
    ensures OfKind(l + [e], sec) == OfKind(l, sec) + (if e.secondary == sec then [e] else [])
  {
    if l == [] {
      assert [e][1..] == [];
    } else {
      OfKindPush(l[1..], e, sec);
      assert (l + [e])[1..] == l[1..] + [e];
    }
  }

  /** Of the events of one kind and time, those asked for are those that left, followed by those in the queue. */
  ghost predicate InOrderAt(asked: seq<Event>, left: seq<Event>, q: Lists, sec: bool, t: real) {
    AtTime(OfKind(asked, sec), t) == AtTime(OfKind(left, sec), t) + AtTime(Of(q, sec), t)
  }

  ghost predicate InOrder(asked: seq<Event>, left: seq<Event>, q: Lists) {
    forall sec, t :: InOrderAt(asked, left, q, sec, t)
  }

  lemma PushKeepsOrder(asked: seq<Event>, left: seq<Event>, q: Lists, e: Event)
    requires ListsOk(q) && InOrder(asked, left, q)
    ensures InOrder(asked + [e], left, Pushed(q, e))
  {
    hide ListsOk;
    hide AtTime;
    hide OfKind;
    forall sec, t ensures InOrderAt(asked + [e], left, Pushed(q, e), sec, t) {
      assert InOrderAt(asked, left, q, sec, t);
      OfKindPush(asked, e, sec);
      if e.secondary == sec {
        PushAtTime(q, e, t);
        AtTimeAppend(OfKind(asked, sec), [e], t);
        Together(AtTime(OfKind(left, sec), t), AtTime(Of(q, sec), t), AtTime([e], t));
      } else {
        Nothing(OfKind(asked, sec));
      }
    }
  }

  lemma PushAtTime(q: Lists, e: Event, t: real)
    requires ListsOk(q)
    ensures AtTime(Of(Pushed(q, e), e.secondary), t) == AtTime(Of(q, e.secondary), t) + AtTime([e], t)
  {
    hide AtTime;
    hide Inserted;
    InsertedIsFifo(Of(q, e.secondary), e, t);
  }

  lemma Together(a: seq<Event>, b: seq<Event>, c: seq<Event>)
    ensures (a + b) + c == a + (b + c)
  {
  }

  lemma Nothing(a: seq<Event>)
    ensures a + [] == a
  {
  }

  lemma ChosenKind(q: Lists)
    requires ListsOk(q) && SomeEvent(q)
    ensures Chosen(q).secondary <==> SecondaryFirst(q)
  {
    hide Sorted;
    if SecondaryFirst(q) {
      assert q.secondary[0] in q.secondary;
    } else {
      assert q.primary[0] in q.primary;
    }
  }

  lemma Cons(l: seq<Event>)
    ensures l != [] ==> l == [l[0]] + l[1..]
    ensures [] + l == l
  {
  }

  lemma PoppedKind(q: Lists, sec: bool)
    requires ListsOk(q) && SomeEvent(q)
    ensures var e := Chosen(q);
            Of(q, sec) == (if e.secondary == sec then [e] else []) + Of(Popped(q), sec)
  {
    ChosenKind(q);
    hide ListsOk;
    Cons(Of(q, sec));
  }

  lemma PopKeepsOrder(asked: seq<Event>, left: seq<Event>, q: Lists)
    requires ListsOk(q) && SomeEvent(q) && InOrder(asked, left, q)
    ensures InOrder(asked, left + [Chosen(q)], Popped(q))
  {
    hide ListsOk;
    hide AtTime;
    hide OfKind;
    hide Of;
    hide Chosen;
    hide Popped;
    hide SomeEvent;
    var e := Chosen(q);
    forall sec, t ensures InOrderAt(asked, left + [e], Popped(q), sec, t) {
      assert InOrderAt(asked, left, q, sec, t);
      OfKindPush(left, e, sec);
      PoppedKind(q, sec);
      var now: seq<Event> := if e.secondary == sec then [e] else [];
      AtTimeAppend(now, Of(Popped(q), sec), t);
      AtTimeAppend(OfKind(left, sec), now, t);
      Together(AtTime(OfKind(left, sec), t), AtTime(now, t), AtTime(Of(Popped(q), sec), t));
    }
  }

  /** Scheduling any number of events, in their order. */
  lemma {:induction false} PushAllKeeps(asked: seq<Event>, left: seq<Event>, q: Lists, es: seq<Event>)
    requires ListsOk(q) && InOrder(asked, left, q)
    ensures ListsOk(PushedAll(q, es)) && All(PushedAll(q, es)) == All(q) + multiset(es)
    ensures InOrder(asked + es, left, PushedAll(q, es))
    decreases |es|
  {
    hide ListsOk;
    hide InOrder;
    hide All;
    hide Pushed;
    if es == [] {
      Nothing(asked);
    } else {
      PushedOk(q, es[0]);
      PushKeepsOrder(asked, left, q, es[0]);
      PushAllKeeps(asked + [es[0]], left, Pushed(q, es[0]), es[1..]);
      assert es == [es[0]] + es[1..];
      Together(asked, [es[0]], es[1..]);
      assert multiset(es) == multiset{es[0]} + multiset(es[1..]);
    }
  }
}
