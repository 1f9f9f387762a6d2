/** Sums of bags, for conservation arguments over lists of holders. */
module Bags {
  import opened Wrappers

  function Sum<T>(ms: seq<multiset<T>>): multiset<T> {
    if ms == [] then multiset{} else ms[0] + Sum(ms[1..])
  }

  lemma Under<T>(head: multiset<T>, a: multiset<T>, a': multiset<T>, x: multiset<T>, x': multiset<T>)
    requires a' + x == a + x'
    ensures (head + a') + x == (head + a) + x'
  {
    assert (head + a') + x == head + (a' + x);
  }

  lemma {:induction false} SumUpdate<T>(ms: seq<multiset<T>>, i: nat, m: multiset<T>)
    requires i < |ms|
    ensures Sum(ms[i := m]) + ms[i] == Sum(ms) + m
  {
    if i == 0 {
      assert ms[0 := m][1..] == ms[1..];
    } else {
      SumUpdate(ms[1..], i - 1, m);
      assert ms[i := m][1..] == ms[1..][i - 1 := m];
      Under(ms[0], Sum(ms[1..]), Sum(ms[1..][i - 1 := m]), ms[i], m);
    }
  }

  lemma {:induction false} SumAppend<T>(ms: seq<multiset<T>>, m: multiset<T>)
    ensures Sum(ms + [m]) == Sum(ms) + m
  {
    if ms == [] {
      assert [m][1..] == [];
    } else {
      SumAppend(ms[1..], m);
      TailOfConcat(ms, [m]);
    }
  }

  /** A bag with one element is in the sum when it is in one of the bags. */
  lemma {:induction false} SumHas<T>(ms: seq<multiset<T>>, x: T)
    ensures x in Sum(ms) <==> exists i :: 0 <= i < |ms| && x in ms[i]
  {
    if ms != [] {
      SumHas(ms[1..], x);
      if x in Sum(ms[1..]) {
        var i :| 0 <= i < |ms[1..]| && x in ms[1..][i];
        assert x in ms[i + 1];
      }
      forall i | 0 <= i < |ms| && x in ms[i] ensures x in Sum(ms) {
        assert i > 0 ==> x in ms[1..][i - 1];
      }
    }
  }

  lemma {:induction false} SumEmpty<T>(ms: seq<multiset<T>>)
    requires forall i :: 0 <= i < |ms| ==> ms[i] == multiset{}
    ensures Sum(ms) == multiset{}
  {
    if ms != [] {
      SumEmpty(ms[1..]);
    }
  }

  /** The bag {lo, lo + 1, ..., hi - 1}. */
  function Range(lo: nat, hi: nat): multiset<nat>
    decreases hi - lo
  {
    if lo >= hi then multiset{} else multiset{lo} + Range(lo + 1, hi)
  }

  lemma {:induction false} RangeCount(lo: nat, hi: nat, x: nat)
    ensures Range(lo, hi)[x] == if lo <= x < hi then 1 else 0
    decreases hi - lo
  {
    if lo < hi {
      RangeCount(lo + 1, hi, x);
    }
  }

  lemma {:induction false} RangeSize(lo: nat, hi: nat)
    requires lo <= hi
    ensures |Range(lo, hi)| == hi - lo
    decreases hi - lo
  {
    if lo < hi {
      RangeSize(lo + 1, hi);
    }
  }
}
