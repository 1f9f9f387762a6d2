module Wrappers {
  datatype Option<+T> = None | Some(value: T)

  lemma TailOfConcat<T>(a: seq<T>, b: seq<T>)
    requires a != []
    ensures (a + b)[0] == a[0] && (a + b)[1..] == a[1..] + b
  {
  }

  lemma ConcatNil<T>(a: seq<T>)
    ensures [] + a == a && a + [] == a
  {
  }

  lemma AppendBoth<T>(a: seq<T>, b: seq<T>, c: seq<T>, d: seq<T>)
    requires a == b + c
    ensures a + d == b + (c + d)
  {
  }
}
