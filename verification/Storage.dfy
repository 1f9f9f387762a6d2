/** The sparse storage of akita/mem/mem/storage.go against one flat, zero-initialised byte memory. */
module Storages {
  import opened Arith

  type Byte = b: int | 0 <= b < 256

  function Base(a: nat, unit: nat): nat
    requires unit > 0
  {
    a - a % unit
  }

  function InUnit(a: nat, unit: nat): nat
    requires unit > 0
  {
    a % unit
  }

  lemma Parse(a: nat, unit: nat)
    requires unit > 0
    ensures Base(a, unit) + InUnit(a, unit) == a && InUnit(a, unit) < unit && Base(a, unit) % unit == 0
    ensures Base(a, unit) == a / unit * unit
  {
    assert a == (a / unit) * unit + a % unit;
    DivModUnique(Base(a, unit), unit, a / unit, 0);
  }

  /** Addresses that stay in the unit of `a`. */
  lemma SameUnit(a: nat, n: nat, unit: nat)
    requires unit > 0 && InUnit(a, unit) + n < unit
    ensures Base(a + n, unit) == Base(a, unit) && InUnit(a + n, unit) == InUnit(a, unit) + n
  {
    Parse(a, unit);
    DivModUnique(a + n, unit, a / unit, InUnit(a, unit) + n);
  }

  lemma NextUnit(a: nat, unit: nat)
    requires unit > 0
    ensures Base(Base(a, unit) + unit, unit) == Base(a, unit) + unit
  {
    Parse(a, unit);
    assert Base(a, unit) + unit == (a / unit + 1) * unit;
    DivModUnique(Base(a, unit) + unit, unit, a / unit + 1, 0);
  }

  /** The highest address at which an access of n bytes looks up a unit. */
  function LastChunk(a: nat, n: nat, unit: nat): nat
    requires unit > 0 && n > 0
  {
    if Base(a + n - 1, unit) > a then Base(a + n - 1, unit) else a
  }

  /** Whether an access of n bytes at a is refused: some unit is looked up beyond the capacity. */
  predicate Refused(a: nat, n: nat, unit: nat, capacity: nat)
    requires unit > 0
  {
    n > 0 && LastChunk(a, n, unit) > capacity
  }

  lemma BaseMonotone(a: nat, b: nat, unit: nat)
    requires unit > 0 && a <= b
    ensures Base(a, unit) <= Base(b, unit)
  {
    Parse(a, unit);
    Parse(b, unit);
    var p, q := a / unit, b / unit;
    hide Base;
    hide InUnit;
    assert (q + 1) * unit == q * unit + unit;
    if p > q {
      MulMonotone(q + 1, p, unit);
    } else {
      MulMonotone(p, q, unit);
    }
  }

  /** Nothing inside the capacity is refused, for any unit size. */
  lemma InCapacityIsServed(a: nat, n: nat, unit: nat, capacity: nat)
    requires unit > 0 && a + n <= capacity
    ensures !Refused(a, n, unit, capacity)
  {
    if n > 0 {
      Parse(a + n - 1, unit);
    }
  }

  /** The addresses at which an access of n bytes at a looks up a unit: its own, and every later start of a unit. */
  predicate LooksUp(a: nat, n: nat, unit: nat, c: nat)
    requires unit > 0
  {
    a <= c < a + n && (c == a || c % unit == 0)
  }

  /** An access is refused exactly when it looks up a unit beyond the capacity; one at the capacity is still served. */
  lemma RefusedExactly(a: nat, n: nat, unit: nat, capacity: nat)
    requires unit > 0
    ensures Refused(a, n, unit, capacity) <==> exists c: nat :: LooksUp(a, n, unit, c) && c > capacity
  {
    if n > 0 {
      var last := LastChunk(a, n, unit);
      Parse(a + n - 1, unit);
      assert LooksUp(a, n, unit, last);
      forall c: nat | LooksUp(a, n, unit, c) ensures c <= last {
        BaseMonotone(c, a + n - 1, unit);
      }
    }
  }

  function Chunk(a: nat, left: nat, unit: nat): nat
    requires unit > 0
  {
    if left < unit - InUnit(a, unit) then left else unit - InUnit(a, unit)
  }

  /** One round of the copy loops: the chunk lies in one unit, and the rest is refused exactly when the whole is. */
  lemma ChunkFacts(a: nat, left: nat, unit: nat, capacity: nat)
    requires unit > 0 && left > 0
    ensures var n := Chunk(a, left, unit); 0 < n <= left && InUnit(a, unit) + n <= unit
    ensures a > capacity ==> Refused(a, left, unit, capacity)
    ensures a <= capacity ==> (Refused(a, left, unit, capacity) <==>
            Refused(a + Chunk(a, left, unit), left - Chunk(a, left, unit), unit, capacity))
  {
    Parse(a, unit);
    Parse(a + left - 1, unit);
    var n := Chunk(a, left, unit);
    if n < left {
      NextUnit(a, unit);
      BaseMonotone(a + n, a + left - 1, unit);
    } else {
      SameUnit(a, n - 1, unit);
    }
  }

  lemma ValuesGrow<V>(m: map<nat, V>, k: nat, v: V)
    requires k !in m
    ensures m.Values <= m[k := v].Values <= m.Values + {v}
  {
    forall x | x in m.Values ensures x in m[k := v].Values {
      var b :| b in m && m[b] == x;
      assert m[k := v][b] == x;
    }
  }

  class Storage {
    const capacity: nat
    const unitSize: nat
    var data: map<nat, array<Byte>>

    ghost predicate Valid()
      reads this, data.Values
    {
      && unitSize > 0
      && (forall b :: b in data ==> data[b].Length == unitSize)
      && (forall b, c :: b in data && c in data && b != c ==> data[b] != data[c])
    }

    /** The byte at address a. */
    ghost function At(a: nat): Byte
      reads this, data.Values
      requires Valid()
    {
      Parse(a, unitSize);
      if Base(a, unitSize) in data then data[Base(a, unitSize)][InUnit(a, unitSize)] else 0
    }

    constructor (capacity: nat, unitSize: nat)
      requires unitSize > 0
      ensures Valid() && this.capacity == capacity && this.unitSize == unitSize && fresh(data.Values)
      ensures forall a: nat :: At(a) == 0
    {
      this.capacity, this.unitSize, data := capacity, unitSize, map[];
    }

    /** None when the address is beyond the capacity. A new unit does not change what can be read. */
    method CreateOrGetStorageUnit(address: nat) returns (ok: bool, unit: array<Byte>)
      requires Valid()
      modifies this`data
      ensures Valid() && fresh(data.Values - old(data.Values)) && old(data.Values) <= data.Values
      ensures ok == (address <= capacity)
      ensures ok ==> Base(address, unitSize) in data && unit == data[Base(address, unitSize)]
      ensures !ok ==> data == old(data)
      ensures forall a: nat :: At(a) == old(At(a))
    {
      hide Base;
      hide InUnit;
      if address > capacity {
        unit := new Byte[0];
        return false, unit;
      }
      var baseAddr := Base(address, unitSize);
      if baseAddr in data {
        return true, data[baseAddr];
      }
      unit := new Byte[unitSize](_ => 0);
      ValuesGrow(data, baseAddr, unit);
      data := data[baseAddr := unit];
      forall a: nat ensures At(a) == old(At(a)) {
        Parse(a, unitSize);
      }
      return true, unit;
    }

    /** Writes bytes into one unit. */
    method Store(address: nat, unit: array<Byte>, bytes: seq<Byte>)
      requires Valid() && Base(address, unitSize) in data && unit == data[Base(address, unitSize)]
      requires InUnit(address, unitSize) + |bytes| <= unitSize
      modifies unit
      ensures Valid()
      ensures forall a: nat :: At(a) == if address <= a < address + |bytes| then bytes[a - address] else old(At(a))
    {
      hide Base;
      hide InUnit;
      var start := InUnit(address, unitSize);
      forall k | 0 <= k < |bytes| {
        unit[start + k] := bytes[k];
      }
      forall a: nat ensures At(a) == if address <= a < address + |bytes| then bytes[a - address] else old(At(a)) {
        Parse(a, unitSize);
        Parse(address, unitSize);
        if address <= a < address + |bytes| {
          SameUnit(address, a - address, unitSize);
        }
      }
    }

    /** Reads bytes out of one unit. */
    method Load(address: nat, unit: array<Byte>, n: nat) returns (bytes: seq<Byte>)
      requires Valid() && Base(address, unitSize) in data && unit == data[Base(address, unitSize)]
      requires 0 < n && InUnit(address, unitSize) + n <= unitSize
      ensures |bytes| == n && forall k :: 0 <= k < n ==> bytes[k] == At(address + k)
    {
      hide Base;
      hide InUnit;
      var start := InUnit(address, unitSize);
      bytes := unit[start..start + n];
      forall k | 0 <= k < n ensures bytes[k] == At(address + k) {
        SameUnit(address, k, unitSize);
      }
    }

    /** The bytes of the flat memory, or an error exactly when a unit beyond the capacity is looked up. Nothing
        observable changes, although units may be allocated. */
    method Read(address: nat, len: nat) returns (ok: bool, res: seq<Byte>)
      requires Valid()
      modifies this`data
      ensures Valid() && fresh(data.Values - old(data.Values)) && old(data.Values) <= data.Values
      ensures forall a: nat :: At(a) == old(At(a))
      ensures ok == !Refused(address, len, unitSize, capacity)
      ensures ok ==> |res| == len && forall k :: 0 <= k < len ==> res[k] == At(address + k)
    {
      hide Base;
      hide InUnit;
      UnitPositive();
      hide Refused;
      hide Chunk;
      hide Valid;
      hide At;
      var currAddr := address;
      var lenLeft := len;
      res := [];
      NotRefused(address + len, unitSize, capacity);
      while currAddr < address + len
        invariant address <= currAddr && currAddr + lenLeft == address + len && |res| == currAddr - address
        invariant Valid() && fresh(data.Values - old(data.Values)) && old(data.Values) <= data.Values
        invariant forall a: nat :: At(a) == old(At(a))
        invariant Refused(address, len, unitSize, capacity) <==> Refused(currAddr, lenLeft, unitSize, capacity)
        invariant forall k :: 0 <= k < |res| ==> res[k] == At(address + k)
        decreases lenLeft
      {
        ChunkFacts(currAddr, lenLeft, unitSize, capacity);
        var found, unit := CreateOrGetStorageUnit(currAddr);
        if !found {
          return false, [];
        }
        var lenToRead := Chunk(currAddr, lenLeft, unitSize);
        var bytes := Load(currAddr, unit, lenToRead);
        forall k | |res| <= k < |res| + lenToRead ensures (res + bytes)[k] == At(address + k) {
          assert (res + bytes)[k] == bytes[k - |res|] == At(currAddr + (k - |res|));
        }
        res := res + bytes;
        lenLeft := lenLeft - lenToRead;
        currAddr := currAddr + lenToRead;
      }
      return true, res;
    }

    lemma UnitPositive()
      requires Valid()
      ensures unitSize > 0
    {
    }

    /** Changes exactly the bytes from address on; when the access is refused, those before the refused unit. */
    method Write(address: nat, bytes: seq<Byte>) returns (ok: bool, ghost written: nat)
      requires Valid()
      modifies this`data, data.Values
      ensures Valid() && fresh(data.Values - old(data.Values)) && old(data.Values) <= data.Values
      ensures ok == !Refused(address, |bytes|, unitSize, capacity)
      ensures if ok then written == |bytes| else written < |bytes| && address + written > capacity
      ensures forall a: nat :: At(a) == if address <= a < address + written then bytes[a - address] else old(At(a))
    {
      hide Base;
      hide InUnit;
      UnitPositive();
      hide Refused;
      hide Chunk;
      hide Valid;
      hide At;
      var currAddr := address;
      var dataOffset := 0;
      NotRefused(address + |bytes|, unitSize, capacity);
      while dataOffset < |bytes|
        invariant dataOffset <= |bytes| && currAddr == address + dataOffset
        invariant Valid() && fresh(data.Values - old(data.Values)) && old(data.Values) <= data.Values
        invariant forall a: nat :: At(a) == if address <= a < currAddr then bytes[a - address] else old(At(a))
        invariant Refused(address, |bytes|, unitSize, capacity) <==>
                Refused(currAddr, |bytes| - dataOffset, unitSize, capacity)
        decreases |bytes| - dataOffset
      {
        ChunkFacts(currAddr, |bytes| - dataOffset, unitSize, capacity);
        var found, unit := CreateOrGetStorageUnit(currAddr);
        if !found {
          return false, dataOffset;
        }
        var lenToWrite := Chunk(currAddr, |bytes| - dataOffset, unitSize);
        Stored(currAddr);
        Store(currAddr, unit, bytes[dataOffset..dataOffset + lenToWrite]);
        dataOffset := dataOffset + lenToWrite;
        currAddr := currAddr + lenToWrite;
      }
      return true, |bytes|;
    }

    lemma Stored(address: nat)
      requires unitSize > 0 && Base(address, unitSize) in data
      ensures data[Base(address, unitSize)] in data.Values
    {
    }

    static lemma NotRefused(a: nat, unit: nat, capacity: nat)
      ensures unit > 0 ==> !Refused(a, 0, unit, capacity)
    {
    }
  }
}
