/** Sequences of reads and writes: a storage behaves like one flat memory, whatever its unit size. */
module FlatMemory {
  import opened Wrappers
  import opened Storages

  type Flat = nat -> Byte

  datatype Op = ReadOp(address: nat, len: nat) | WriteOp(address: nat, bytes: seq<Byte>)

  function Peek(m: Flat, address: nat, len: nat): seq<Byte> {
    seq(len, k requires k >= 0 => m(address + k))
  }

  function Poke(m: Flat, address: nat, bytes: seq<Byte>): Flat {
    (a: nat) => if address <= a < address + |bytes| then bytes[a - address] else m(a)
  }

  function Next(m: Flat, op: Op): Flat {
    if op.ReadOp? then m else Poke(m, op.address, op.bytes)
  }

  function Output(m: Flat, op: Op): seq<seq<Byte>> {
    if op.ReadOp? then [Peek(m, op.address, op.len)] else []
  }

  /** What the operations return, reads in order, on a flat memory. */
  function Results(m: Flat, ops: seq<Op>): seq<seq<Byte>> {
    if ops == [] then [] else Output(m, ops[0]) + Results(Next(m, ops[0]), ops[1..])
  }

  /** The memory they leave. */
  function After(m: Flat, ops: seq<Op>): Flat {
    if ops == [] then m else After(Next(m, ops[0]), ops[1..])
  }

  lemma Unfold(m: Flat, ops: seq<Op>, i: nat)
    requires i < |ops|
    ensures Results(m, ops[i..]) == Output(m, ops[i]) + Results(Next(m, ops[i]), ops[i + 1..])
    ensures After(m, ops[i..]) == After(Next(m, ops[i]), ops[i + 1..])
  {
    assert ops[i..][0] == ops[i] && ops[i..][1..] == ops[i + 1..];
  }

  predicate InCapacity(op: Op, capacity: nat) {
    op.address + (if op.ReadOp? then op.len else |op.bytes|) <= capacity
  }

  ghost predicate Shows(s: Storage, m: Flat)
    reads s, s.data.Values
  {
    s.Valid() && forall a: nat :: s.At(a) == m(a)
  }

  method RunOne(s: Storage, op: Op, ghost m: Flat) returns (out: seq<seq<Byte>>)
    requires Shows(s, m) && InCapacity(op, s.capacity)
    modifies s`data, s.data.Values
    ensures fresh(s.data.Values - old(s.data.Values)) && old(s.data.Values) <= s.data.Values
    ensures out == Output(m, op) && Shows(s, Next(m, op))
  {
    hide Refused;
    UnitSizePositive(s);
    match op {
      case ReadOp(a, n) =>
        InCapacityIsServed(a, n, s.unitSize, s.capacity);
        var ok, bytes := s.Read(a, n);
        assert bytes == Peek(m, a, n);
        out := [bytes];
      case WriteOp(a, bytes) =>
        InCapacityIsServed(a, |bytes|, s.unitSize, s.capacity);
        var ok, written := s.Write(a, bytes);
        out := [];
    }
  }

  /** A storage refines the flat memory: every run of operations inside the capacity succeeds and returns what the flat
      memory returns. */
  method RunAll(s: Storage, ops: seq<Op>, ghost m: Flat) returns (results: seq<seq<Byte>>)
    requires Shows(s, m) && forall op :: op in ops ==> InCapacity(op, s.capacity)
    modifies s`data, s.data.Values
    ensures fresh(s.data.Values - old(s.data.Values)) && old(s.data.Values) <= s.data.Values
    ensures results == Results(m, ops)
    ensures Shows(s, After(m, ops))
  {
    hide Results;
    hide After;
    hide Output;
    hide Next;
    hide Shows;
    hide InCapacity;
    results := [];
    var i := 0;
    ghost var now := m;
    ConcatNil(Results(m, ops));
    assert ops[0..] == ops;
    while i < |ops|
      invariant i <= |ops| && fresh(s.data.Values - old(s.data.Values)) && old(s.data.Values) <= s.data.Values
      invariant Shows(s, now)
      invariant Results(m, ops) == results + Results(now, ops[i..])
      invariant After(m, ops) == After(now, ops[i..])
    {
      assert ops[i] in ops;
      Unfold(now, ops, i);
      var out := RunOne(s, ops[i], now);
      assert results + (out + Results(Next(now, ops[i]), ops[i + 1..])) ==
          (results + out) + Results(Next(now, ops[i]), ops[i + 1..]);
      results := results + out;
      now := Next(now, ops[i]);
      i := i + 1;
    }
    assert ops[i..] == [];
    NothingLeft(now);
    ConcatNil(results);
  }

  lemma NothingLeft(m: Flat)
    ensures Results(m, []) == [] && After(m, []) == m
  {
  }

  lemma UnitSizePositive(s: Storage)
    requires s.Valid()
    ensures s.unitSize > 0
  {
  }

  /** Two fresh storages with different unit sizes cannot be told apart by operations inside the capacity. */
  method UnitSizeDoesNotShow(capacity: nat, unit1: nat, unit2: nat, ops: seq<Op>)
      returns (r1: seq<seq<Byte>>, r2: seq<seq<Byte>>)
    requires unit1 > 0 && unit2 > 0 && forall op :: op in ops ==> InCapacity(op, capacity)
    ensures r1 == r2 == Results(_ => 0, ops)
  {
    ghost var zero: Flat := _ => 0;
    var s1 := new Storage(capacity, unit1);
    r1 := RunAll(s1, ops, zero);
    var s2 := new Storage(capacity, unit2);
    r2 := RunAll(s2, ops, zero);
  }

  /** Beyond the capacity the unit size shows: 20 bytes at 90 of 100 are served from units of 64 bytes and refused
      from units of 8. */
  lemma UnitSizeShowsBeyondCapacity()
    ensures !Refused(90, 20, 64, 100) && Refused(90, 20, 8, 100)
  {
  }
}
