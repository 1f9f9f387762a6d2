/** Address interleaving: akita/mem/mem/addressconverter.go and akita/mem/mem/lowmodulefinder.go. */
module Interleaving {
  import opened Arith

  /** An InterleavingConverter. */
  datatype Converter = Converter(size: nat, elements: nat, index: nat, offset: nat)

  predicate ConverterOk(c: Converter) {
    c.size > 0 && c.index < c.elements
  }

  datatype Result = Ok(internal: nat) | BelowOffset | NotHere

  function Round(c: Converter): (r: nat)
    requires ConverterOk(c)
    ensures r > 0
  {
    MulAtLeast(c.elements, c.size);
    c.size * c.elements
  }

  /** The element that holds an address. */
  function Owner(c: Converter, external: nat): nat
    requires ConverterOk(c) && external >= c.offset
  {
    (external - c.offset) % Round(c) / c.size
  }

  function ConvertExternalToInternal(c: Converter, external: nat): Result
    requires ConverterOk(c)
  {
    if external < c.offset then BelowOffset
    else if Owner(c, external) != c.index then NotHere
    else Ok((external - c.offset) / Round(c) * c.size + external % c.size)
  }

  /** Row, element and byte of an address behind the offset. */
  lemma Decompose(c: Converter, external: nat)
    requires ConverterOk(c) && external >= c.offset
    ensures var a := external - c.offset;
            && a == a / Round(c) * Round(c) + Owner(c, external) * c.size + a % c.size
            && Owner(c, external) < c.elements && a % Round(c) == Owner(c, external) * c.size + a % c.size
  {
    var a, round := external - c.offset, Round(c);
    var q, r := a / round, a % round;
    assert a == q * round + r;
    var o, b := r / c.size, r % c.size;
    assert r == o * c.size + b;
    if o >= c.elements {
      MulMonotone(c.elements, o, c.size);
    }
    assert q * round == (q * c.elements) * c.size;
    assert a == (q * c.elements + o) * c.size + b;
    DivModUnique(a, c.size, q * c.elements + o, b);
  }

  /** The other way around. */
  lemma Recompose(c: Converter, q: nat, o: nat, b: nat)
    requires ConverterOk(c) && o < c.elements && b < c.size
    ensures var a := q * Round(c) + o * c.size + b;
            a / Round(c) == q && Owner(c, c.offset + a) == o && a % c.size == b
  {
    var round := Round(c);
    var r := o * c.size + b;
    RowBound(o, b, c.size, c.elements);
    DivModUnique(q * round + r, round, q, r);
    DivModUnique(r, c.size, o, b);
    RowsOfUnits(q, o, b, c.size, c.elements);
    DivModUnique(q * round + r, c.size, q * c.elements + o, b);
  }

  lemma RowBound(o: nat, b: nat, size: nat, n: nat)
    requires o < n && b < size
    ensures o * size + b < size * n
  {
    MulMonotone(o + 1, n, size);
    assert (o + 1) * size == o * size + size;
  }

  lemma RowsOfUnits(q: nat, o: nat, b: nat, size: nat, n: nat)
    ensures q * (size * n) + (o * size + b) == (q * n + o) * size + b
  {
    assert q * (size * n) == (q * n) * size;
  }

  /** Two addresses with the same remainder, less than size apart, are the same. */
  lemma SameRemainder(x: nat, y: nat, size: nat)
    requires size > 0 && x % size == y % size && x - y < size && y - x < size
    ensures x == y
  {
    assert x == x / size * size + x % size && y == y / size * size + y % size;
    if x / size > y / size {
      MulMonotone(y / size + 1, x / size, size);
    } else if y / size > x / size {
      MulMonotone(x / size + 1, y / size, size);
    }
  }

  /** No two addresses of an element are converted to the same internal address, whatever the offset. */
  lemma ConvertIsInjective(c: Converter, x: nat, y: nat)
    requires ConverterOk(c) && ConvertExternalToInternal(c, x).Ok?
            && ConvertExternalToInternal(c, x) == ConvertExternalToInternal(c, y)
    ensures x == y
  {
    hide *;
    var qx, ox := Parts(c, x);
    var qy, oy := Parts(c, y);
    RowAndByte(qx, x % c.size, qy, y % c.size, c.size);
    SameRemainder(x, y, c.size);
  }

  /** The row of an accepted address and its byte in the interleaving unit. */
  lemma Parts(c: Converter, x: nat) returns (q: nat, o: nat)
    requires ConverterOk(c) && ConvertExternalToInternal(c, x).Ok?
    ensures c.size > 0 && x % c.size < c.size && o < c.size
    ensures ConvertExternalToInternal(c, x) == Ok(q * c.size + x % c.size)
    ensures x == c.offset + Product(q, Product(c.size, c.elements)) + Product(c.index, c.size) + o
  {
    Decompose(c, x);
    hide Owner;
    q, o := (x - c.offset) / Round(c), (x - c.offset) % c.size;
  }

  /** An accepted address keeps its byte in the interleaving unit, and the internal unit is the number of whole rounds
      behind the offset. */
  lemma RowsInOrder(c: Converter, x: nat)
    requires ConverterOk(c) && ConvertExternalToInternal(c, x).Ok?
    ensures var internal := ConvertExternalToInternal(c, x).internal;
            internal % c.size == x % c.size && internal / c.size == (x - c.offset) / (c.size * c.elements)
  {
    var row := (x - c.offset) / Round(c);
    DivModUnique(row * c.size + x % c.size, c.size, row, x % c.size);
    hide Owner;
  }

  lemma RowAndByte(q: nat, b: nat, q': nat, b': nat, size: nat)
    requires size > 0 && b < size && b' < size && q * size + b == q' * size + b'
    ensures q == q' && b == b'
  {
    DivModUnique(q * size + b, size, q, b);
    DivModUnique(q' * size + b', size, q', b');
  }

  function External(c: Converter, internal: nat): nat
    requires ConverterOk(c)
  {
    c.offset + Product(internal / c.size, Round(c)) + Product(c.index, c.size) + internal % c.size
  }

  function Product(a: nat, b: nat): nat {
    a * b
  }

  /** When the interleaving size divides the offset, every internal address is used, by the address of this formula. */
  lemma InternalIsUsed(c: Converter, internal: nat)
    requires ConverterOk(c) && c.offset % c.size == 0
    ensures ConvertExternalToInternal(c, External(c, internal)) == Ok(internal)
  {
    var q, b := internal / c.size, internal % c.size;
    Recompose(c, q, c.index, b);
    var a := Product(q, Round(c)) + Product(c.index, c.size) + b;
    OffsetVanishes(c.offset, a, c.size);
    assert External(c, internal) == c.offset + a && internal == q * c.size + b;
    hide Round;
    hide Owner;
  }

  /** And then the formula inverts the conversion. */
  lemma ConvertInverts(c: Converter, external: nat)
    requires ConverterOk(c) && c.offset % c.size == 0 && ConvertExternalToInternal(c, external).Ok?
    ensures External(c, ConvertExternalToInternal(c, external).internal) == external
  {
    Decompose(c, external);
    OffsetVanishes(c.offset, external - c.offset, c.size);
    var q, b := (external - c.offset) / Round(c), external % c.size;
    DivModUnique(q * c.size + b, c.size, q, b);
    hide Round;
    hide Owner;
  }

  lemma OffsetVanishes(offset: nat, a: nat, size: nat)
    requires size > 0 && offset % size == 0
    ensures (offset + a) % size == a % size
  {
    assert offset == offset / size * size && a == a / size * size + a % size;
    assert (offset / size + a / size) * size == offset / size * size + a / size * size;
    DivModUnique(offset + a, size, offset / size + a / size, a % size);
  }

  /** InterleavedLowModuleFinder.Find; None is ModuleForOtherAddresses. */
  datatype Finder = Finder(limited: bool, low: nat, high: nat, size: nat, modules: nat)

  datatype Routed = Module(index: nat) | Other

  function Find(f: Finder, address: nat): Routed
    requires f.size > 0 && f.modules > 0
  {
    if f.limited && (address >= f.high || address < f.low) then Other else Module(address / f.size % f.modules)
  }

  /** Find leaves exactly the addresses outside its limits to the module for other addresses. */
  lemma OutsideGoesElsewhere(f: Finder, address: nat)
    requires f.size > 0 && f.modules > 0
    ensures Find(f, address) == Other <==> f.limited && !(f.low <= address < f.high)
    ensures Find(f, address) != Other ==> Find(f, address).index < f.modules
  {
  }

  /** Where Find sends an address in its range. */
  function Route(size: nat, n: nat, address: nat): nat
    requires size > 0 && n > 0
  {
    address / size % n
  }

  lemma RouteIsRemainder(size: nat, n: nat, address: nat)
    requires size > 0 && n > 0
    ensures size * n > 0 && Route(size, n, address) == address % (size * n) / size
  {
    MulAtLeast(n, size);
    var c := Converter(size, n, 0, 0);
    Decompose(c, address);
    var q, o, b := address / Round(c), Owner(c, address), address % size;
    assert q * (size * n) == (q * n) * size;
    assert address == (q * n + o) * size + b;
    DivModUnique(address, size, q * n + o, b);
    DivModUnique(q * n + o, n, q, o);
  }

  /** An element accepts exactly the addresses routed to it, for every address behind the offset, if and only if the
      offset is a multiple of a whole round, or there is only one element. */
  lemma AcceptsIffRouted(size: nat, n: nat, offset: nat)
    requires size > 0 && n > 0
    ensures size * n > 0
    ensures (forall a: nat :: a >= offset ==> Owner(Converter(size, n, 0, offset), a) == Route(size, n, a)) <==>
            (n == 1 || offset % (size * n) == 0)
  {
    MulAtLeast(n, size);
    var c := Converter(size, n, 0, offset);
    if n == 1 || offset % (size * n) == 0 {
      forall a: nat | a >= offset ensures Owner(c, a) == Route(size, n, a) {
        AlignedRoutes(size, n, offset, a);
      }
    } else {
      var a := Misrouted(size, n, offset);
      assert Owner(c, a) != Route(size, n, a);
    }
  }

  lemma AlignedRoutes(size: nat, n: nat, offset: nat, a: nat)
    requires size > 0 && n > 0 && size * n > 0 && (n == 1 || offset % (size * n) == 0) && a >= offset
    ensures Owner(Converter(size, n, 0, offset), a) == Route(size, n, a)
  {
    RouteIsRemainder(size, n, a);
    if n == 1 {
      Decompose(Converter(size, n, 0, offset), a);
    } else {
      OffsetVanishes(offset, a - offset, size * n);
    }
  }

  /** An address behind a misaligned offset on which the two disagree. */
  lemma Misrouted(size: nat, n: nat, offset: nat) returns (a: nat)
    requires size > 0 && n > 1 && size * n > 0 && offset % (size * n) != 0
    ensures a >= offset && Owner(Converter(size, n, 0, offset), a) != Route(size, n, a)
  {
    var c := Converter(size, n, 0, offset);
    var r := offset % size;
    assert offset == offset / size * size + r;
    if Route(size, n, offset) != 0 {
      a := offset;
      Recompose(c, 0, 0, 0);
    } else {
      NotAligned(size, n, offset);
      a := offset + (size - r);
      Recompose(c, 0, 0, size - r);
      assert a == (offset / size + 1) * size;
      DivModUnique(a, size, offset / size + 1, 0);
      NextModule(offset / size, n);
    }
  }

  lemma NextModule(q: nat, n: nat)
    requires n > 1 && q % n == 0
    ensures (q + 1) % n == 1
  {
    DivModUnique(q + 1, n, q / n, 1);
  }

  lemma NotAligned(size: nat, n: nat, offset: nat)
    requires size > 0 && n > 0 && size * n > 0 && offset % (size * n) != 0 && offset / size % n == 0
    ensures offset % size != 0
  {
    if offset % size == 0 {
      var q := offset / size;
      assert q == q / n * n && offset == q * size;
      assert offset == (q / n) * (size * n);
      DivModUnique(offset, size * n, q / n, 0);
    }
  }

  /** With an offset that is a multiple of a round, an element converts an in-range address exactly when Find sends it
      there. */
  lemma ConvertsIffFound(c: Converter, f: Finder, address: nat)
    requires ConverterOk(c) && f.size == c.size && f.modules == c.elements && c.offset % Round(c) == 0
            && address >= c.offset
    requires f.limited ==> f.low <= address < f.high
    ensures ConvertExternalToInternal(c, address).Ok? <==> Find(f, address) == Module(c.index)
  {
    AlignedRoutes(c.size, c.elements, c.offset, address);
  }
}
