/** Copies through the page table: mgpusim/driver/memorycopyglobalstorage.go and mgpusim/emu/storageaccessor.go. */
module Copies {
  import opened Arith
  import opened Storages
  import opened PageTables

  const TOP: nat := 0x1_0000_0000_0000_0000

  /** A storage of some capacity, made of units, behind a page table. */
  datatype Memory = Memory(pages: seq<Page>, size: nat, unit: nat, capacity: nat)

  /** Pages of one size in frames that do not overlap. The frames may be scattered and may lie beyond the capacity. */
  ghost predicate Frames(mem: Memory) {
    && mem.size > 0 && mem.unit > 0
    && (forall i :: 0 <= i < |mem.pages| ==> mem.pages[i].pageSize == mem.size && mem.pages[i].pAddr + mem.size <= TOP)
    && (forall i, j :: 0 <= i < j < |mem.pages| ==>
          mem.pages[i].pAddr + mem.size <= mem.pages[j].pAddr || mem.pages[j].pAddr + mem.size <= mem.pages[i].pAddr)
  }

  predicate Mapped(mem: Memory, v: nat)
    requires mem.size > 0
  {
    IndexOf(mem.pages, Base(v, mem.size)) < |mem.pages|
  }

  /** The physical address of a mapped virtual one. */
  function Phys(mem: Memory, v: nat): nat
    requires mem.size > 0 && Mapped(mem, v)
  {
    mem.pages[IndexOf(mem.pages, Base(v, mem.size))].pAddr + InUnit(v, mem.size)
  }

  ghost predicate AllMapped(mem: Memory, v: nat, n: nat)
    requires mem.size > 0
  {
    forall w: nat :: v <= w < v + n ==> Mapped(mem, w)
  }

  /** Different virtual bytes are different physical bytes. */
  lemma PhysInjective(mem: Memory, v: nat, w: nat)
    requires Frames(mem) && Mapped(mem, v) && Mapped(mem, w) && Phys(mem, v) == Phys(mem, w)
    ensures v == w
  {
    hide IndexOf;
    Parse(v, mem.size);
    Parse(w, mem.size);
    hide Base;
    hide InUnit;
    var i, j := IndexOf(mem.pages, Base(v, mem.size)), IndexOf(mem.pages, Base(w, mem.size));
    assert mem.pages[i].vAddr == Base(v, mem.size) && mem.pages[j].vAddr == Base(w, mem.size);
  }

  /** Within a page physical addresses run along with virtual ones. */
  lemma PhysRuns(mem: Memory, v: nat, n: nat, w: nat)
    requires mem.size > 0 && Mapped(mem, v) && InUnit(v, mem.size) + n <= mem.size && v <= w < v + n
    ensures Mapped(mem, w) && Phys(mem, w) == Phys(mem, v) + (w - v)
  {
    hide IndexOf;
    SameUnit(v, w - v, mem.size);
    hide Base;
    hide InUnit;
  }

  /* ----- Chunks ----- */

  /** The part of the range of n bytes from v that lies in the page of w: where it starts and where it ends. */
  function ChunkFrom(mem: Memory, v: nat, w: nat): nat
    requires mem.size > 0
  {
    if Base(w, mem.size) > v then Base(w, mem.size) else v
  }

  function ChunkEnd(mem: Memory, v: nat, n: nat, w: nat): nat
    requires mem.size > 0
  {
    if v + n < Base(w, mem.size) + mem.size then v + n else Base(w, mem.size) + mem.size
  }

  /** The storage serves an access to the chunk of w when it lies at physical address p. */
  predicate ServedAt(mem: Memory, v: nat, n: nat, w: nat, p: nat)
    requires mem.size > 0 && mem.unit > 0
  {
    var from, end := ChunkFrom(mem, v, w), ChunkEnd(mem, v, n, w);
    from <= end && !Refused(p, end - from, mem.unit, mem.capacity)
  }

  /** The storage serves the chunk of w where the page table has it. */
  predicate Served(mem: Memory, v: nat, n: nat, w: nat)
    requires mem.size > 0 && mem.unit > 0
  {
    Mapped(mem, ChunkFrom(mem, v, w)) && ServedAt(mem, v, n, w, Phys(mem, ChunkFrom(mem, v, w)))
  }

  /** A loop is between two chunks, at `cur`. */
  predicate AtChunk(mem: Memory, v: nat, cur: nat)
    requires mem.size > 0
  {
    v <= cur && (cur == v || InUnit(cur, mem.size) == 0)
  }

  /** The same for a loop that has dealt with the first i of n bytes. */
  predicate AtOffset(mem: Memory, v: nat, n: nat, i: nat)
    requires mem.size > 0
  {
    i < n ==> AtChunk(mem, v, v + i)
  }

  /** Bytes up to the end of the page or of the range. */
  function ChunkSize(mem: Memory, cur: nat, left: nat): nat
    requires mem.size > 0
  {
    if left < mem.size - InUnit(cur, mem.size) then left else mem.size - InUnit(cur, mem.size)
  }

  /** The chunk at `cur`, and where the loop is behind it. */
  lemma ThisChunk(mem: Memory, v: nat, n: nat, cur: nat, w: nat)
    requires mem.size > 0 && AtChunk(mem, v, cur) && cur < v + n
    requires cur <= w < cur + ChunkSize(mem, cur, v + n - cur)
    ensures ChunkFrom(mem, v, w) == cur && ChunkEnd(mem, v, n, w) == cur + ChunkSize(mem, cur, v + n - cur)
  {
    Parse(cur, mem.size);
    SameUnit(cur, w - cur, mem.size);
    Parse(v, mem.size);
    BaseMonotone(v, cur, mem.size);
    hide Base;
    hide InUnit;
  }

  lemma NextChunk(mem: Memory, v: nat, n: nat, cur: nat)
    requires mem.size > 0 && AtChunk(mem, v, cur) && cur < v + n
    ensures 0 < ChunkSize(mem, cur, v + n - cur) <= v + n - cur
    ensures InUnit(cur, mem.size) + ChunkSize(mem, cur, v + n - cur) <= mem.size
    ensures var next := cur + ChunkSize(mem, cur, v + n - cur); next < v + n ==> AtChunk(mem, v, next)
  {
    Parse(cur, mem.size);
    NextUnit(cur, mem.size);
    Parse(Base(cur, mem.size) + mem.size, mem.size);
    hide Base;
    hide InUnit;
  }

  lemma NextOffset(mem: Memory, v: nat, n: nat, i: nat)
    requires mem.size > 0 && AtOffset(mem, v, n, i) && i < n
    ensures AtChunk(mem, v, v + i) && 0 < ChunkSize(mem, v + i, n - i) <= n - i
    ensures AtOffset(mem, v, n, i + ChunkSize(mem, v + i, n - i))
  {
    hide AtChunk;
    hide ChunkSize;
    NextChunk(mem, v, n, v + i);
  }

  /** All of the chunk at `cur` is served, or nothing of it. */
  lemma ChunkServed(mem: Memory, v: nat, n: nat, cur: nat, w: nat)
    requires mem.size > 0 && mem.unit > 0 && AtChunk(mem, v, cur) && cur < v + n && Mapped(mem, cur)
    requires cur <= w < cur + ChunkSize(mem, cur, v + n - cur)
    ensures Served(mem, v, n, w) <==> !Refused(Phys(mem, cur), ChunkSize(mem, cur, v + n - cur), mem.unit, mem.capacity)
  {
    ThisChunk(mem, v, n, cur, w);
    hide ChunkFrom;
    hide ChunkEnd;
    hide ChunkSize;
  }

  /** Frames inside the capacity are always served. */
  lemma InsideIsServed(mem: Memory, v: nat, n: nat, w: nat)
    requires Frames(mem) && v <= w < v + n && Mapped(mem, w)
    requires forall i :: 0 <= i < |mem.pages| ==> mem.pages[i].pAddr + mem.size <= mem.capacity
    ensures Served(mem, v, n, w)
  {
    hide IndexOf;
    hide Refused;
    var from, end := ChunkFrom(mem, v, w), ChunkEnd(mem, v, n, w);
    Parse(w, mem.size);
    Parse(from, mem.size);
    FromSamePage(mem, v, w);
    hide Base;
    hide InUnit;
    InCapacityIsServed(Phys(mem, from), end - from, mem.unit, mem.capacity);
  }

  lemma FromSamePage(mem: Memory, v: nat, w: nat)
    requires mem.size > 0 && v <= w
    ensures Base(ChunkFrom(mem, v, w), mem.size) == Base(w, mem.size) && ChunkFrom(mem, v, w) <= w
  {
    Parse(w, mem.size);
    var from := ChunkFrom(mem, v, w);
    BaseMonotone(from, w, mem.size);
    if from == Base(w, mem.size) {
      BaseOfBase(w, mem.size);
    } else {
      BaseMonotone(Base(w, mem.size), v, mem.size);
      BaseOfBase(w, mem.size);
    }
  }

  lemma BaseOfBase(w: nat, size: nat)
    requires size > 0
    ensures Base(Base(w, size), size) == Base(w, size)
  {
    Parse(w, size);
    DivModUnique(Base(w, size), size, w / size, 0);
  }

  /* ----- What a copy leaves ----- */

  /** Address a is the physical address of a byte of the range. */
  ghost predicate Hit(mem: Memory, v: nat, n: nat, a: nat)
    requires mem.size > 0
  {
    exists w: nat :: v <= w < v + n && Mapped(mem, w) && Phys(mem, w) == a
  }

  /** A byte of a range of n bytes at v: in place if its chunk is served. The source ignores refused writes, which may
      have stored part of their chunk. */
  ghost predicate PlacedAt(was: nat -> Byte, now: nat -> Byte, mem: Memory, v: nat, n: nat, bytes: seq<Byte>, w: nat)
    requires mem.size > 0 && mem.unit > 0 && Mapped(mem, w) && v <= w < v + |bytes|
  {
    var b := bytes[w - v];
    && (Served(mem, v, n, w) ==> now(Phys(mem, w)) == b)
    && (now(Phys(mem, w)) == b || now(Phys(mem, w)) == was(Phys(mem, w)))
  }

  /** The memory before (`was`), and after the first bytes of a range of n were put in place; nothing else changed. */
  ghost predicate Placed(was: nat -> Byte, now: nat -> Byte, mem: Memory, v: nat, n: nat, bytes: seq<Byte>)
    requires mem.size > 0 && mem.unit > 0
  {
    && AllMapped(mem, v, |bytes|)
    && (forall w: nat :: v <= w < v + |bytes| ==> PlacedAt(was, now, mem, v, n, bytes, w))
    && (forall a: nat :: !Hit(mem, v, |bytes|, a) ==> now(a) == was(a))
  }

  ghost function Poked(m: nat -> Byte, p: nat, bytes: seq<Byte>): nat -> Byte {
    (a: nat) => if p <= a < p + |bytes| then bytes[a - p] else m(a)
  }

  /** The chunk of the loop: `written` of its bytes were stored, all of them if it is served. */
  ghost predicate ChunkStored(mem: Memory, v: nat, n: nat, cur: nat, chunk: seq<Byte>, written: nat)
    requires mem.size > 0 && mem.unit > 0
  {
    && Mapped(mem, cur) && InUnit(cur, mem.size) + |chunk| <= mem.size && written <= |chunk|
    && (written < |chunk| ==> forall w: nat :: cur <= w < cur + |chunk| ==> !Served(mem, v, n, w))
  }

  lemma OldByte(was: nat -> Byte, mid: nat -> Byte, mem: Memory, v: nat, n: nat, done: seq<Byte>, chunk: seq<Byte>,
                written: nat, w: nat)
    requires Frames(mem) && Placed(was, mid, mem, v, n, done) && ChunkStored(mem, v, n, v + |done|, chunk, written)
    requires v <= w < v + |done|
    ensures PlacedAt(was, Poked(mid, Phys(mem, v + |done|), chunk[..written]), mem, v, n, done, w)
  {
    hide Phys;
    hide Mapped;
    hide Served;
    var cur := v + |done|;
    var a, p := Phys(mem, w), Phys(mem, cur);
    assert PlacedAt(was, mid, mem, v, n, done, w);
    if p <= a < p + written {
      PhysRuns(mem, cur, |chunk|, cur + (a - p));
      PhysInjective(mem, w, cur + (a - p));
    }
  }

  lemma NewByte(was: nat -> Byte, mid: nat -> Byte, mem: Memory, v: nat, n: nat, done: seq<Byte>, chunk: seq<Byte>,
                written: nat, w: nat)
    requires Frames(mem) && Placed(was, mid, mem, v, n, done) && ChunkStored(mem, v, n, v + |done|, chunk, written)
    requires v + |done| <= w < v + |done + chunk|
    ensures Mapped(mem, w)
    ensures PlacedAt(was, Poked(mid, Phys(mem, v + |done|), chunk[..written]), mem, v, n, done + chunk, w)
  {
    hide Phys;
    hide Mapped;
    hide Served;
    var cur := v + |done|;
    PhysRuns(mem, cur, |chunk|, w);
    assert (done + chunk)[w - v] == chunk[w - cur];
    if w - cur >= written {
      if Hit(mem, v, |done|, Phys(mem, w)) {
        var u: nat :| v <= u < v + |done| && Mapped(mem, u) && Phys(mem, u) == Phys(mem, w);
        PhysInjective(mem, u, w);
      }
    }
  }

  lemma SameByte(was: nat -> Byte, now: nat -> Byte, mem: Memory, v: nat, n: nat, done: seq<Byte>, chunk: seq<Byte>,
      w: nat)
    requires mem.size > 0 && mem.unit > 0 && v <= w < v + |done| && Mapped(mem, w)
    requires PlacedAt(was, now, mem, v, n, done, w)
    ensures PlacedAt(was, now, mem, v, n, done + chunk, w)
  {
  }

  /** Placing one more chunk behind what was placed. */
  lemma PlaceChunk(was: nat -> Byte, mid: nat -> Byte, mem: Memory, v: nat, n: nat, done: seq<Byte>, chunk: seq<Byte>,
                   written: nat)
    requires Frames(mem) && Placed(was, mid, mem, v, n, done) && ChunkStored(mem, v, n, v + |done|, chunk, written)
    ensures Placed(was, Poked(mid, Phys(mem, v + |done|), chunk[..written]), mem, v, n, done + chunk)
  {
    hide Phys;
    hide Mapped;
    hide PlacedAt;
    var cur := v + |done|;
    var p := Phys(mem, cur);
    var now := Poked(mid, p, chunk[..written]);
    forall w: nat | v <= w < v + |done + chunk|
      ensures Mapped(mem, w) && PlacedAt(was, now, mem, v, n, done + chunk, w)
    {
      if w < cur {
        OldByte(was, mid, mem, v, n, done, chunk, written, w);
        SameByte(was, now, mem, v, n, done, chunk, w);
      } else {
        NewByte(was, mid, mem, v, n, done, chunk, written, w);
      }
    }
    forall a: nat ensures Hit(mem, v, |done + chunk|, a) || now(a) == was(a) {
      if p <= a < p + written {
        PhysRuns(mem, cur, |chunk|, cur + (a - p));
      } else if Hit(mem, v, |done|, a) {
        var w: nat :| v <= w < v + |done| && Mapped(mem, w) && Phys(mem, w) == a;
        assert w < v + |done + chunk|;
      }
    }
  }

  lemma PlaceNothing(m: nat -> Byte, mem: Memory, v: nat, n: nat)
    requires mem.size > 0 && mem.unit > 0
    ensures Placed(m, m, mem, v, n, [])
  {
  }

  /** What is read back of a range of n bytes: those at their physical addresses, and zeros for refused chunks. */
  ghost predicate Fetched(m: nat -> Byte, mem: Memory, v: nat, n: nat, bytes: seq<Byte>)
    requires mem.size > 0 && mem.unit > 0
  {
    && AllMapped(mem, v, |bytes|)
    && forall w: nat :: v <= w < v + |bytes| ==>
         bytes[w - v] == if Served(mem, v, n, w) then m(Phys(mem, w)) else 0
  }

  /** What an access at physical address p leaves in the zeroed buffer of the copy. */
  ghost predicate ChunkRead(m: nat -> Byte, mem: Memory, p: nat, chunk: seq<Byte>)
    requires mem.unit > 0
  {
    forall k :: 0 <= k < |chunk| ==>
      (chunk[k] == if Refused(p, |chunk|, mem.unit, mem.capacity) then 0 else m(p + k))
  }

  /** Fetching the chunk at `cur`. */
  lemma FetchChunk(m: nat -> Byte, mem: Memory, v: nat, n: nat, done: seq<Byte>, chunk: seq<Byte>)
    requires mem.size > 0 && mem.unit > 0 && Fetched(m, mem, v, n, done) && AtChunk(mem, v, v + |done|) && |done| < n
    requires Mapped(mem, v + |done|) && |chunk| == ChunkSize(mem, v + |done|, n - |done|)
    requires ChunkRead(m, mem, Phys(mem, v + |done|), chunk)
    ensures Fetched(m, mem, v, n, done + chunk)
  {
    hide Phys;
    hide Mapped;
    hide Served;
    hide Refused;
    hide ChunkSize;
    var cur := v + |done|;
    NextChunk(mem, v, n, cur);
    forall w: nat | v <= w < v + |done + chunk|
      ensures Mapped(mem, w)
      ensures (done + chunk)[w - v] == if Served(mem, v, n, w) then m(Phys(mem, w)) else 0
    {
      if w >= cur {
        PhysRuns(mem, cur, |chunk|, w);
        ChunkServed(mem, v, n, cur, w);
        assert (done + chunk)[w - v] == chunk[w - cur];
      }
    }
  }

  lemma FetchNothing(m: nat -> Byte, mem: Memory, v: nat, n: nat)
    requires mem.size > 0 && mem.unit > 0
    ensures Fetched(m, mem, v, n, [])
  {
  }

  /* ----- The copies ----- */

  /** The storage as a flat memory. */
  ghost predicate Holds(s: Storage, m: nat -> Byte)
    reads s, s.data.Values
  {
    s.Valid() && forall a: nat :: s.At(a) == m(a)
  }

  ghost function MemoryOf(table: ProcessTable, s: Storage): Memory
    reads table, table.entries
  {
    Memory(table.Pages(), table.pageSize, s.unitSize, s.capacity)
  }

  /** A write whose error is ignored. */
  method WriteChunk(s: Storage, p: nat, bytes: seq<Byte>, ghost m: nat -> Byte)
    returns (ok: bool, ghost written: nat, ghost m': nat -> Byte)
    requires Holds(s, m)
    modifies s`data, s.data.Values
    ensures s.unitSize > 0 && ok == !Refused(p, |bytes|, s.unitSize, s.capacity)
    ensures written <= |bytes| && (ok <==> written == |bytes|)
    ensures m' == Poked(m, p, bytes[..written]) && Holds(s, m')
    ensures fresh(s.data.Values - old(s.data.Values)) && old(s.data.Values) <= s.data.Values
  {
    UnitSizeOf(s);
    hide Refused;
    ok, written := s.Write(p, bytes);
    m' := Poked(m, p, bytes[..written]);
  }

  /** What the error of a read leaves in the zeroed buffer. */
  function Zeros(n: nat): (r: seq<Byte>)
    ensures |r| == n && forall k :: 0 <= k < n ==> r[k] == 0
  {
    seq(n, _ => 0)
  }

  method ReadChunk(s: Storage, p: nat, n: nat, ghost m: nat -> Byte, ghost mem: Memory)
      returns (ok: bool, bytes: seq<Byte>)
    requires Holds(s, m) && mem.unit == s.unitSize && mem.capacity == s.capacity
    modifies s`data
    ensures mem.unit > 0 && ok == !Refused(p, n, mem.unit, mem.capacity)
    ensures Holds(s, m) && fresh(s.data.Values - old(s.data.Values)) && old(s.data.Values) <= s.data.Values
    ensures |bytes| == n && ChunkRead(m, mem, p, bytes)
  {
    UnitSizeOf(s);
    hide Refused;
    ok, bytes := s.Read(p, n);
    if !ok {
      bytes := Zeros(n);
    }
  }

  lemma UnitSizeOf(s: Storage)
    requires s.Valid()
    ensures s.unitSize > 0
  {
  }

  /** What page lookup and arithmetic give for one address. */
  method Translate(table: ProcessTable, addr: nat, ghost mem: Memory)
      returns (found: bool, pAddr: nat, sizeLeftInPage: nat)
    requires table.Valid() && Frames(mem) && mem.pages == table.Pages() && mem.size == table.pageSize
    ensures found == Mapped(mem, addr)
    ensures found ==> pAddr == Phys(mem, addr) && sizeLeftInPage == mem.size - InUnit(addr, mem.size)
  {
    var page := table.Find(addr);
    Parse(addr, table.pageSize);
    hide Base;
    hide InUnit;
    hide IndexOf;
    if page.None? {
      return false, 0, 0;
    }
    assert page.value.vAddr == Base(addr, table.pageSize);
    return true, page.value.pAddr + (addr - page.value.vAddr), page.value.pageSize - (addr - page.value.vAddr);
  }

  lemma Slices(bytes: seq<Byte>, i: nat, n: nat)
    requires i + n <= |bytes|
    ensures bytes[..i] + bytes[i..i + n] == bytes[..i + n]
  {
  }

  lemma Sizes(mem: Memory)
    requires Frames(mem)
    ensures mem.size > 0 && mem.unit > 0
  {
  }

  lemma Unmapped(mem: Memory, v: nat, n: nat, w: nat)
    requires mem.size > 0 && v <= w < v + n && !Mapped(mem, w)
    ensures !AllMapped(mem, v, n)
  {
  }

  lemma PlacedMapped(was: nat -> Byte, now: nat -> Byte, mem: Memory, v: nat, n: nat, bytes: seq<Byte>)
    requires mem.size > 0 && mem.unit > 0 && Placed(was, now, mem, v, n, bytes)
    ensures AllMapped(mem, v, |bytes|)
  {
  }

  lemma FetchedMapped(m: nat -> Byte, mem: Memory, v: nat, n: nat, bytes: seq<Byte>)
    requires mem.size > 0 && mem.unit > 0 && Fetched(m, mem, v, n, bytes)
    ensures AllMapped(mem, v, |bytes|)
  {
  }

  lemma InPage(v: nat, size: nat)
    requires size > 0
    ensures InUnit(v, size) < size
  {
  }

  /** Where the size left in the page is the limit, it is that of the chunk. */
  lemma ChunkSizeIs(mem: Memory, cur: nat, left: nat)
    requires mem.size > 0
    ensures ChunkSize(mem, cur, left) ==
            if left < mem.size - InUnit(cur, mem.size) then left else mem.size - InUnit(cur, mem.size)
  {
  }

  lemma AtStart(mem: Memory, v: nat)
    requires mem.size > 0
    ensures forall n :: AtOffset(mem, v, n, 0)
  {
  }

  /** A chunk was written as far as the storage served it. */
  lemma Stored(mem: Memory, v: nat, n: nat, cur: nat, chunk: seq<Byte>, written: nat)
    requires mem.size > 0 && mem.unit > 0 && AtChunk(mem, v, cur) && cur < v + n && Mapped(mem, cur)
    requires |chunk| == ChunkSize(mem, cur, v + n - cur) && written <= |chunk|
    requires written < |chunk| ==> Refused(Phys(mem, cur), |chunk|, mem.unit, mem.capacity)
    ensures ChunkStored(mem, v, n, cur, chunk, written)
  {
    hide Refused;
    hide Phys;
    hide Served;
    hide Mapped;
    hide InUnit;
    NextChunk(mem, v, n, cur);
    forall w: nat | written < |chunk| && cur <= w < cur + |chunk| ensures !Served(mem, v, n, w) {
      ChunkServed(mem, v, n, cur, w);
    }
  }

  /** One round of the loop of the copy. */
  lemma StoreStep(was: nat -> Byte, mid: nat -> Byte, now: nat -> Byte, mem: Memory, v: nat, bytes: seq<Byte>,
                  i: nat, k: nat, written: nat)
    requires Frames(mem) && i < |bytes| && AtOffset(mem, v, |bytes|, i) && Mapped(mem, v + i)
    requires k == ChunkSize(mem, v + i, |bytes| - i) && written <= k
    requires written < k ==> Refused(Phys(mem, v + i), k, mem.unit, mem.capacity)
    requires Placed(was, mid, mem, v, |bytes|, bytes[..i])
            && now == Poked(mid, Phys(mem, v + i), bytes[i..i + k][..written])
    ensures Placed(was, now, mem, v, |bytes|, bytes[..i + k]) && AtOffset(mem, v, |bytes|, i + k)
  {
    hide *;
    Sizes(mem);
    NextOffset(mem, v, |bytes|, i);
    Stored(mem, v, |bytes|, v + i, bytes[i..i + k], written);
    Slices(bytes, i, k);
    PlaceChunk(was, mid, mem, v, |bytes|, bytes[..i], bytes[i..i + k], written);
  }

  /** One round of the loop, at `offset`. */
  method CopyNext(table: ProcessTable, s: Storage, dst: nat, rawBytes: seq<Byte>, offset: nat, ghost mem: Memory,
                  ghost was: nat -> Byte, ghost m: nat -> Byte)
    returns (ok: bool, sizeToCopy: nat, ghost m': nat -> Byte)
    requires table.Valid() && mem == MemoryOf(table, s) && Frames(mem) && Holds(s, m) && offset < |rawBytes|
    requires AtOffset(mem, dst, |rawBytes|, offset) && Placed(was, m, mem, dst, |rawBytes|, rawBytes[..offset])
    modifies s`data, s.data.Values
    ensures table.Valid() && MemoryOf(table, s) == mem
    ensures Holds(s, m') && fresh(s.data.Values - old(s.data.Values)) && old(s.data.Values) <= s.data.Values
    ensures ok == Mapped(mem, dst + offset)
    ensures ok ==> 0 < sizeToCopy <= |rawBytes| - offset && AtOffset(mem, dst, |rawBytes|, offset + sizeToCopy)
    ensures ok ==> Placed(was, m', mem, dst, |rawBytes|, rawBytes[..offset + sizeToCopy])
  {
    hide *;
    TheMemory(table, s);
    Sizes(mem);
    var addr := dst + offset;
    var sizeLeft := |rawBytes| - offset;
    InPage(addr, mem.size);
    ChunkSizeIs(mem, addr, |rawBytes| - offset);
    var found, pAddr, sizeLeftInPage := Translate(table, addr, mem);
    if !found {
      return false, 0, m;
    }
    sizeToCopy := sizeLeftInPage;
    if sizeLeft < sizeLeftInPage {
      sizeToCopy := sizeLeft;
    }
    NextOffset(mem, dst, |rawBytes|, offset);
    var chunk := rawBytes[offset..offset + sizeToCopy];
    var _, written, now := WriteChunk(s, pAddr, chunk, m);
    StoreStep(was, m, now, mem, dst, rawBytes, offset, sizeToCopy, written);
    return true, sizeToCopy, now;
  }

  /** Host to device. `ok` is false where the source panics on a missing page. */
  method ProcessMemCopyH2D(table: ProcessTable, s: Storage, dst: nat, rawBytes: seq<Byte>, ghost m: nat -> Byte)
    returns (ok: bool, ghost m': nat -> Byte)
    requires table.Valid() && Holds(s, m) && Frames(MemoryOf(table, s))
    modifies s`data, s.data.Values
    ensures table.Valid() && MemoryOf(table, s) == old(MemoryOf(table, s)) && table.pageSize > 0 && s.unitSize > 0
    ensures Holds(s, m') && fresh(s.data.Values - old(s.data.Values)) && old(s.data.Values) <= s.data.Values
    ensures ok == AllMapped(MemoryOf(table, s), dst, |rawBytes|)
    ensures ok ==> Placed(m, m', MemoryOf(table, s), dst, |rawBytes|, rawBytes)
  {
    hide *;
    ghost var mem := MemoryOf(table, s);
    TheMemory(table, s);
    Sizes(mem);
    PlaceNothing(m, mem, dst, |rawBytes|);
    AtStart(mem, dst);
    assert rawBytes[..0] == [];
    var offset := 0;
    m' := m;
    while offset < |rawBytes|
      invariant offset <= |rawBytes| && AtOffset(mem, dst, |rawBytes|, offset)
      invariant table.Valid() && MemoryOf(table, s) == mem
      invariant Holds(s, m') && fresh(s.data.Values - old(s.data.Values)) && old(s.data.Values) <= s.data.Values
      invariant Placed(m, m', mem, dst, |rawBytes|, rawBytes[..offset])
    {
      var found, sizeToCopy, now := CopyNext(table, s, dst, rawBytes, offset, mem, m, m');
      m' := now;
      if !found {
        Unmapped(mem, dst, |rawBytes|, dst + offset);
        return false, m';
      }
      offset := offset + sizeToCopy;
    }
    assert rawBytes[..offset] == rawBytes;
    PlacedMapped(m, m', mem, dst, |rawBytes|, rawBytes);
    return true, m';
  }

  lemma TheMemory(table: ProcessTable, s: Storage)
    ensures var mem := MemoryOf(table, s);
            mem.pages == table.Pages() && mem.size == table.pageSize && mem.unit == s.unitSize
                && mem.capacity == s.capacity
  {
  }

  /** Device to host, into a zeroed buffer. */
  method ProcessMemCopyD2H(table: ProcessTable, s: Storage, src: nat, n: nat, ghost m: nat -> Byte)
    returns (ok: bool, data: seq<Byte>)
    requires table.Valid() && Holds(s, m) && Frames(MemoryOf(table, s))
    modifies s`data
    ensures table.Valid() && MemoryOf(table, s) == old(MemoryOf(table, s)) && table.pageSize > 0 && s.unitSize > 0
    ensures Holds(s, m) && fresh(s.data.Values - old(s.data.Values)) && old(s.data.Values) <= s.data.Values
    ensures ok == AllMapped(MemoryOf(table, s), src, n)
    ensures ok ==> |data| == n && Fetched(m, MemoryOf(table, s), src, n, data)
  {
    hide *;
    ghost var mem := MemoryOf(table, s);
    TheMemory(table, s);
    Sizes(mem);
    data := [];
    var sizeLeft := n;
    var addr := src;
    FetchNothing(m, mem, src, n);
    AtStart(mem, src);
    while sizeLeft > 0
      invariant sizeLeft >= 0 && |data| + sizeLeft == n && addr == src + |data|
      invariant AtOffset(mem, src, n, |data|)
      invariant table.Valid() && MemoryOf(table, s) == mem && table.Pages() == mem.pages
      invariant Holds(s, m) && fresh(s.data.Values - old(s.data.Values)) && old(s.data.Values) <= s.data.Values
      invariant Fetched(m, mem, src, n, data)
    {
      var found, pAddr, sizeLeftInPage := Translate(table, addr, mem);
      if !found {
        Unmapped(mem, src, n, addr);
        return false, data;
      }
      InPage(addr, mem.size);
      ChunkSizeIs(mem, src + |data|, n - |data|);
      NextOffset(mem, src, n, |data|);
      var sizeToCopy := sizeLeftInPage;
      if sizeLeft < sizeLeftInPage {
        sizeToCopy := sizeLeft;
      }
      var _, chunk := ReadChunk(s, pAddr, sizeToCopy, m, mem);
      FetchChunk(m, mem, src, n, data, chunk);
      data := data + chunk;
      sizeLeft := sizeLeft - sizeToCopy;
      addr := addr + sizeToCopy;
    }
    FetchedMapped(m, mem, src, n, data);
    return true, data;
  }

  /** Every byte of the range is mapped and its chunk served. */
  ghost predicate AllServed(mem: Memory, v: nat, n: nat)
    requires mem.size > 0 && mem.unit > 0
  {
    AllMapped(mem, v, n) && forall w: nat :: v <= w < v + n ==> Served(mem, v, n, w)
  }

  /** Every chunk of the first k of n bytes is served. */
  ghost predicate ServedTo(mem: Memory, v: nat, n: nat, k: nat)
    requires mem.size > 0 && mem.unit > 0
  {
    forall w: nat :: v <= w < v + k ==> Served(mem, v, n, w)
  }

  lemma ServedStep(mem: Memory, v: nat, n: nat, i: nat)
    requires mem.size > 0 && mem.unit > 0 && AtOffset(mem, v, n, i) && i < n && Mapped(mem, v + i)
            && ServedTo(mem, v, n, i)
    ensures var k := ChunkSize(mem, v + i, n - i);
            if Refused(Phys(mem, v + i), k, mem.unit, mem.capacity) then !AllServed(mem, v, n)
            else ServedTo(mem, v, n, i + k)
  {
    hide Refused;
    hide Phys;
    hide Served;
    hide Mapped;
    hide ChunkSize;
    hide AtChunk;
    NextOffset(mem, v, n, i);
    var k := ChunkSize(mem, v + i, n - i);
    forall w: nat | v + i <= w < v + i + k
      ensures Served(mem, v, n, w) <==> !Refused(Phys(mem, v + i), k, mem.unit, mem.capacity)
    {
      ChunkServed(mem, v, n, v + i, w);
    }
    assert AllServed(mem, v, n) ==> Served(mem, v, n, v + i);
  }

  lemma NoneServed(mem: Memory, v: nat, n: nat)
    requires mem.size > 0 && mem.unit > 0
    ensures ServedTo(mem, v, n, 0)
  {
  }

  lemma NotAllServed(mem: Memory, v: nat, n: nat, w: nat)
    requires mem.size > 0 && mem.unit > 0 && v <= w < v + n && (!Mapped(mem, w) || !Served(mem, v, n, w))
    ensures !AllServed(mem, v, n)
  {
  }

  lemma AllWereServed(mem: Memory, v: nat, n: nat)
    requires mem.size > 0 && mem.unit > 0 && AllMapped(mem, v, n)
    requires ServedTo(mem, v, n, n)
    ensures AllServed(mem, v, n)
  {
  }

  /** ((v >> log2) + 1) << log2, where size is 2 to the power log2. */
  function PageAfter(v: nat, size: nat): nat
    requires size > 0
  {
    (v / size + 1) * size
  }

  lemma NextPageStart(v: nat, size: nat)
    requires size > 0
    ensures PageAfter(v, size) - v == size - InUnit(v, size)
  {
    assert v == (v / size) * size + v % size;
    assert (v / size + 1) * size == (v / size) * size + size;
  }

  /** storageAccessor.Read without address converter: the size left is computed from where the next page starts, and a
      refused read panics. */
  method AccessorRead(table: ProcessTable, s: Storage, vAddr: nat, n: nat, ghost m: nat -> Byte)
    returns (ok: bool, data: seq<Byte>)
    requires table.Valid() && Holds(s, m) && Frames(MemoryOf(table, s))
    modifies s`data
    ensures table.Valid() && MemoryOf(table, s) == old(MemoryOf(table, s)) && table.pageSize > 0 && s.unitSize > 0
    ensures Holds(s, m) && fresh(s.data.Values - old(s.data.Values)) && old(s.data.Values) <= s.data.Values
    ensures ok == AllServed(MemoryOf(table, s), vAddr, n)
    ensures ok ==> |data| == n && Fetched(m, MemoryOf(table, s), vAddr, n, data)
  {
    hide *;
    ghost var mem := MemoryOf(table, s);
    TheMemory(table, s);
    Sizes(mem);
    data := [];
    var sizeLeft := n;
    var offset := 0;
    FetchNothing(m, mem, vAddr, n);
    NoneServed(mem, vAddr, n);
    AtStart(mem, vAddr);
    while sizeLeft > 0
      invariant sizeLeft >= 0 && |data| == offset && offset + sizeLeft == n
      invariant AtOffset(mem, vAddr, n, offset)
      invariant table.Valid() && MemoryOf(table, s) == mem && table.Pages() == mem.pages
      invariant Holds(s, m) && fresh(s.data.Values - old(s.data.Values)) && old(s.data.Values) <= s.data.Values
      invariant Fetched(m, mem, vAddr, n, data)
      invariant ServedTo(mem, vAddr, n, offset)
    {
      var currVAddr := vAddr + offset;
      NextPageStart(currVAddr, table.pageSize);
      InPage(currVAddr, table.pageSize);
      ChunkSizeIs(mem, vAddr + offset, n - offset);
      NextOffset(mem, vAddr, n, offset);
      var sizeToRead := PageAfter(currVAddr, table.pageSize) - currVAddr;
      if sizeToRead > sizeLeft {
        sizeToRead := sizeLeft;
      }
      var found, pAddr, _ := Translate(table, currVAddr, mem);
      if !found {
        NotAllServed(mem, vAddr, n, currVAddr);
        return false, data;
      }
      var served, chunk := ReadChunk(s, pAddr, sizeToRead, m, mem);
      ServedStep(mem, vAddr, n, offset);
      if !served {
        return false, data;
      }
      FetchChunk(m, mem, vAddr, n, data, chunk);
      data := data + chunk;
      offset := offset + sizeToRead;
      sizeLeft := sizeLeft - sizeToRead;
    }
    FetchedMapped(m, mem, vAddr, n, data);
    AllWereServed(mem, vAddr, n);
    return true, data;
  }

  /* ----- Round trip ----- */

  /** Reading the range back gives exactly the bytes put there, except zeros for refused chunks, and every other mapped
      byte is as before. */
  lemma ReadsBack(was: nat -> Byte, now: nat -> Byte, mem: Memory, v: nat, bytes: seq<Byte>, read: seq<Byte>)
    requires Frames(mem) && Placed(was, now, mem, v, |bytes|, bytes) && |read| == |bytes|
    requires Fetched(now, mem, v, |bytes|, read)
    ensures forall k :: 0 <= k < |bytes| ==> (read[k] == if Served(mem, v, |bytes|, v + k) then bytes[k] else 0)
    ensures read == bytes <==> forall k :: 0 <= k < |bytes| ==> Served(mem, v, |bytes|, v + k) || bytes[k] == 0
    ensures forall x: nat :: Mapped(mem, x) && !(v <= x < v + |bytes|) ==> now(Phys(mem, x)) == was(Phys(mem, x))
  {
    hide Phys;
    hide Mapped;
    hide Served;
    hide Frames;
    Sizes(mem);
    forall k | 0 <= k < |bytes| ensures read[k] == if Served(mem, v, |bytes|, v + k) then bytes[k] else 0 {
      assert PlacedAt(was, now, mem, v, |bytes|, bytes, v + k);
      assert read[v + k - v] == read[k];
    }
    forall x: nat | Mapped(mem, x) && !(v <= x < v + |bytes|) ensures now(Phys(mem, x)) == was(Phys(mem, x)) {
      if Hit(mem, v, |bytes|, Phys(mem, x)) {
        var y: nat :| v <= y < v + |bytes| && Mapped(mem, y) && Phys(mem, y) == Phys(mem, x);
        PhysInjective(mem, y, x);
      }
    }
  }

  lemma AllServedReads(mem: Memory, v: nat, bytes: seq<Byte>, read: seq<Byte>)
    requires mem.size > 0 && mem.unit > 0 && AllServed(mem, v, |bytes|) && |read| == |bytes|
    requires forall k :: 0 <= k < |bytes| ==> (read[k] == if Served(mem, v, |bytes|, v + k) then bytes[k] else 0)
    ensures read == bytes
  {
  }

  /** Copy round trip: host to device, then back by either reader. A byte comes back if and only if its chunk lies where
      the storage serves it or the byte is zero; frames inside the capacity are always served (InsideIsServed). */
  method CopyRoundTrip(table: ProcessTable, s: Storage, addr: nat, bytes: seq<Byte>, ghost m: nat -> Byte)
    returns (ok: bool, back: seq<Byte>, readable: bool, seen: seq<Byte>)
    requires table.Valid() && Holds(s, m) && Frames(MemoryOf(table, s))
    modifies s`data, s.data.Values
    ensures table.Valid() && MemoryOf(table, s) == old(MemoryOf(table, s)) && table.pageSize > 0 && s.Valid()
            && s.unitSize > 0
    ensures ok <==> AllMapped(MemoryOf(table, s), addr, |bytes|)
    ensures ok ==> |back| == |bytes| && forall k :: 0 <= k < |bytes| ==>
                     (back[k] == if Served(MemoryOf(table, s), addr, |bytes|, addr + k) then bytes[k] else 0)
    ensures ok ==> (readable <==> AllServed(MemoryOf(table, s), addr, |bytes|))
    ensures ok && readable ==> seen == back == bytes
    ensures ok ==> forall x: nat :: Mapped(MemoryOf(table, s), x) && !(addr <= x < addr + |bytes|) ==>
                     s.At(Phys(MemoryOf(table, s), x)) == m(Phys(MemoryOf(table, s), x))
  {
    hide Frames;
    hide Placed;
    hide Fetched;
    hide AllMapped;
    hide AllServed;
    hide Served;
    hide Mapped;
    hide Phys;
    ghost var mem := MemoryOf(table, s);
    var copied, m' := ProcessMemCopyH2D(table, s, addr, bytes, m);
    if !copied {
      return false, [], false, [];
    }
    var _, data := ProcessMemCopyD2H(table, s, addr, |bytes|, m');
    ReadsBack(m, m', mem, addr, bytes, data);
    var served, data2 := AccessorRead(table, s, addr, |bytes|, m');
    if served {
      ReadsBack(m, m', mem, addr, bytes, data2);
      AllServedReads(mem, addr, bytes, data);
      AllServedReads(mem, addr, bytes, data2);
    }
    return true, data, served, data2;
  }

  /** A chunk that starts beyond the capacity is not served. */
  lemma BeyondIsRefused(mem: Memory, v: nat, n: nat, w: nat)
    requires Frames(mem) && v <= w < v + n && Mapped(mem, ChunkFrom(mem, v, w))
    requires Phys(mem, ChunkFrom(mem, v, w)) > mem.capacity
    ensures !Served(mem, v, n, w)
  {
    Parse(w, mem.size);
    hide Phys;
    hide Mapped;
    hide Base;
    hide InUnit;
    assert ChunkEnd(mem, v, n, w) > ChunkFrom(mem, v, w);
  }

  /** One page, whose frame lies beyond a capacity of 16 bytes. */
  predicate Outside(mem: Memory) {
    && mem.size == 16 && mem.unit == 16 && mem.capacity == 16 && |mem.pages| == 1
    && mem.pages[0] == Page(1, 0, 64, 16, 0, 0)
  }

  lemma OutsideAt(mem: Memory, w: nat)
    requires Outside(mem) && w < 16
    ensures Mapped(mem, w) && Phys(mem, w) == w + 64
  {
    IndexIs(mem.pages, 0, 0);
    hide IndexOf;
  }

  lemma OutsideFrames(mem: Memory)
    requires Outside(mem)
    ensures Frames(mem)
  {
  }

  lemma FromStart(mem: Memory, v: nat)
    requires mem.size > 0
    ensures ChunkFrom(mem, v, v) == v
  {
  }

  /** Its chunks are not served, so what is copied there comes back as zeros (ReadsBack). */
  lemma BeyondCapacityIsLost(mem: Memory, v: nat)
    requires Outside(mem) && v < 16
    ensures Frames(mem) && Mapped(mem, v) && !Served(mem, v, 1, v)
  {
    OutsideAt(mem, v);
    OutsideFrames(mem);
    FromStart(mem, v);
    hide *;
    BeyondIsRefused(mem, v, 1, v);
  }

  /* ----- storageAccessor.Write ----- */

  /** Like Translate, but with the page of `first` for every address: what storageAccessor.Write computes. */
  method TranslateByFirst(table: ProcessTable, first: nat, addr: nat, ghost mem: Memory)
      returns (found: bool, pAddr: nat)
    requires table.Valid() && Frames(mem) && mem.pages == table.Pages() && mem.size == table.pageSize && first <= addr
    ensures found == Mapped(mem, first)
    ensures found ==> pAddr == Phys(mem, first) + (addr - first)
  {
    var page := table.Find(first);
    Parse(first, table.pageSize);
    hide Base;
    hide InUnit;
    hide IndexOf;
    if page.None? {
      return false, 0;
    }
    assert page.value.vAddr == Base(first, table.pageSize);
    return true, page.value.pAddr + (addr - page.value.vAddr);
  }

  /** The storage serves the chunk of w as far behind v in physical as in virtual memory. */
  predicate RunServed(mem: Memory, v: nat, n: nat, w: nat)
    requires mem.size > 0 && mem.unit > 0 && v <= w && Mapped(mem, v)
  {
    ChunkFrom(mem, v, w) >= v && ServedAt(mem, v, n, w, Phys(mem, v) + (ChunkFrom(mem, v, w) - v))
  }

  /** It does for the first k of the n bytes. */
  ghost predicate RunServedTo(mem: Memory, v: nat, n: nat, k: nat)
    requires mem.size > 0 && mem.unit > 0 && Mapped(mem, v)
  {
    forall w: nat :: v <= w < v + k ==> RunServed(mem, v, n, w)
  }

  lemma RunStep(mem: Memory, v: nat, n: nat, i: nat, k: nat)
    requires mem.size > 0 && mem.unit > 0 && AtOffset(mem, v, n, i) && i < n && Mapped(mem, v)
    requires k == ChunkSize(mem, v + i, n - i) && RunServedTo(mem, v, n, i)
    ensures 0 < k <= n - i && AtOffset(mem, v, n, i + k)
    ensures if Refused(Phys(mem, v) + i, k, mem.unit, mem.capacity) then !RunServedTo(mem, v, n, n)
            else RunServedTo(mem, v, n, i + k)
  {
    hide Refused;
    hide Phys;
    hide Mapped;
    hide ChunkSize;
    hide ChunkFrom;
    hide ChunkEnd;
    hide AtChunk;
    NextOffset(mem, v, n, i);
    forall w: nat | v + i <= w < v + i + k
      ensures RunServed(mem, v, n, w) <==> !Refused(Phys(mem, v) + i, k, mem.unit, mem.capacity)
    {
      ThisChunk(mem, v, n, v + i, w);
    }
    assert RunServedTo(mem, v, n, n) ==> RunServed(mem, v, n, v + i);
  }

  lemma RunNone(mem: Memory, v: nat, n: nat)
    requires mem.size > 0 && mem.unit > 0 && Mapped(mem, v)
    ensures RunServedTo(mem, v, n, 0)
  {
  }

  lemma PokeMore(m: nat -> Byte, p: nat, bytes: seq<Byte>, i: nat, k: nat)
    requires i + k <= |bytes|
    ensures var m1, m2 := Poked(Poked(m, p, bytes[..i]), p + i, bytes[i..i + k]), Poked(m, p, bytes[..i + k]);
            forall a: nat :: m1(a) == m2(a)
  {
  }

  lemma SameMemory(s: Storage, m: nat -> Byte, m': nat -> Byte)
    requires Holds(s, m) && forall a: nat :: m(a) == m'(a)
    ensures Holds(s, m')
  {
  }

  /** One round of the loop, at `offset`. */
  method WriteNext(table: ProcessTable, s: Storage, vAddr: nat, data: seq<Byte>, offset: nat, ghost mem: Memory,
                   ghost was: nat -> Byte, ghost m: nat -> Byte)
    returns (ok: bool, sizeToWrite: nat, ghost m': nat -> Byte)
    requires table.Valid() && mem == MemoryOf(table, s) && Frames(mem) && Holds(s, m) && offset < |data|
    requires AtOffset(mem, vAddr, |data|, offset) && IsRun(m, was, mem, vAddr, data, offset)
    requires offset > 0 ==> Mapped(mem, vAddr) && RunServedTo(mem, vAddr, |data|, offset)
    modifies s`data, s.data.Values
    ensures table.Valid() && MemoryOf(table, s) == mem
    ensures Holds(s, m') && fresh(s.data.Values - old(s.data.Values)) && old(s.data.Values) <= s.data.Values
    ensures ok ==> Mapped(mem, vAddr) && RunServedTo(mem, vAddr, |data|, offset + sizeToWrite)
    ensures ok ==> 0 < sizeToWrite <= |data| - offset && AtOffset(mem, vAddr, |data|, offset + sizeToWrite)
    ensures ok ==> IsRun(m', was, mem, vAddr, data, offset + sizeToWrite)
    ensures !ok && Mapped(mem, vAddr) ==> !RunServedTo(mem, vAddr, |data|, |data|)
  {
    hide *;
    TheMemory(table, s);
    Sizes(mem);
    var currVAddr := vAddr + offset;
    NextPageStart(currVAddr, table.pageSize);
    InPage(currVAddr, table.pageSize);
    ChunkSizeIs(mem, currVAddr, |data| - offset);
    var sizeLeft := |data| - offset;
    sizeToWrite := PageAfter(currVAddr, table.pageSize) - currVAddr;
    if sizeToWrite > sizeLeft {
      sizeToWrite := sizeLeft;
    }
    var found, pAddr := TranslateByFirst(table, vAddr, currVAddr, mem);
    if !found {
      return false, sizeToWrite, m;
    }
    RunNone(mem, vAddr, |data|);
    RunStep(mem, vAddr, |data|, offset, sizeToWrite);
    var chunk := data[offset..offset + sizeToWrite];
    var served, written, now := WriteChunk(s, pAddr, chunk, m);
    if served {
      m' := OneRun(s, was, mem, vAddr, data, offset, sizeToWrite, m, now);
    } else {
      m' := now;
    }
    ok := served;
  }

  /** Every chunk is translated with the page of the first address, so the bytes land in one physical run. Panics when
      the first address is not mapped or the storage refuses a chunk of that run. */
  method AccessorWrite(table: ProcessTable, s: Storage, vAddr: nat, data: seq<Byte>, ghost m: nat -> Byte)
    returns (ok: bool, ghost m': nat -> Byte)
    requires table.Valid() && Holds(s, m) && Frames(MemoryOf(table, s))
    modifies s`data, s.data.Values
    ensures table.Valid() && MemoryOf(table, s) == old(MemoryOf(table, s)) && table.pageSize > 0 && s.unitSize > 0
    ensures Holds(s, m') && fresh(s.data.Values - old(s.data.Values)) && old(s.data.Values) <= s.data.Values
    ensures ok <==> data == [] || (Mapped(MemoryOf(table, s), vAddr) &&
                                   RunServedTo(MemoryOf(table, s), vAddr, |data|, |data|))
    ensures ok ==> m' == if data == [] then m else Poked(m, Phys(MemoryOf(table, s), vAddr), data)
  {
    hide *;
    ghost var mem := MemoryOf(table, s);
    TheMemory(table, s);
    Sizes(mem);
    AtStart(mem, vAddr);
    NoRun(m, mem, vAddr, data);
    var offset := 0;
    m' := m;
    while offset < |data|
      invariant offset <= |data| && AtOffset(mem, vAddr, |data|, offset)
      invariant table.Valid() && MemoryOf(table, s) == mem
      invariant Holds(s, m') && fresh(s.data.Values - old(s.data.Values)) && old(s.data.Values) <= s.data.Values
      invariant offset > 0 ==> Mapped(mem, vAddr) && RunServedTo(mem, vAddr, |data|, offset)
      invariant IsRun(m', m, mem, vAddr, data, offset)
    {
      var written, sizeToWrite, now := WriteNext(table, s, vAddr, data, offset, mem, m, m');
      m' := now;
      if !written {
        return false, m';
      }
      offset := offset + sizeToWrite;
    }
    assert offset == |data|;
    WholeRun(m', m, mem, vAddr, data);
    return true, m';
  }

  /** The first k bytes went to the run behind the first address. */
  ghost predicate IsRun(now: nat -> Byte, was: nat -> Byte, mem: Memory, v: nat, data: seq<Byte>, k: nat)
    requires mem.size > 0 && k <= |data|
  {
    if k == 0 then now == was else Mapped(mem, v) && now == Poked(was, Phys(mem, v), data[..k])
  }

  lemma NoRun(m: nat -> Byte, mem: Memory, v: nat, data: seq<Byte>)
    requires mem.size > 0
    ensures IsRun(m, m, mem, v, data, 0)
  {
  }

  lemma WholeRun(now: nat -> Byte, was: nat -> Byte, mem: Memory, v: nat, data: seq<Byte>)
    requires mem.size > 0 && IsRun(now, was, mem, v, data, |data|)
    ensures data == [] ==> now == was
    ensures data != [] ==> Mapped(mem, v) && now == Poked(was, Phys(mem, v), data)
  {
    assert data[..|data|] == data;
  }

  lemma OneRun(s: Storage, was: nat -> Byte, mem: Memory, v: nat, data: seq<Byte>, i: nat, k: nat, mid: nat -> Byte,
               stored: nat -> Byte) returns (now: nat -> Byte)
    requires mem.size > 0 && Mapped(mem, v) && 0 < k && i + k <= |data| && IsRun(mid, was, mem, v, data, i)
    requires Holds(s, stored) && stored == Poked(mid, Phys(mem, v) + i, data[i..i + k][..k])
    ensures Holds(s, now) && IsRun(now, was, mem, v, data, i + k)
  {
    hide Phys;
    hide Mapped;
    var p := Phys(mem, v);
    now := Poked(was, p, data[..i + k]);
    assert data[i..i + k][..k] == data[i..i + k];
    PokeMore(was, p, data, i, k);
    SameMemory(s, Poked(mid, p + i, data[i..i + k]), now);
  }

  /** Every byte of the range is in place and no other changed. */
  ghost predicate InPlace(was: nat -> Byte, now: nat -> Byte, mem: Memory, v: nat, bytes: seq<Byte>)
    requires mem.size > 0
  {
    && AllMapped(mem, v, |bytes|)
    && (forall w: nat :: v <= w < v + |bytes| ==> now(Phys(mem, w)) == bytes[w - v])
    && (forall a: nat :: !Hit(mem, v, |bytes|, a) ==> now(a) == was(a))
  }

  /** Address w is as far behind v in physical as in virtual memory. */
  ghost predicate RunsAt(mem: Memory, v: nat, w: nat)
    requires mem.size > 0 && v <= w
  {
    Mapped(mem, v) && Mapped(mem, w) && Phys(mem, w) == Phys(mem, v) + (w - v)
  }

  /** Every page that starts inside the range follows the first page's frame. */
  ghost predicate FramesFollow(mem: Memory, v: nat, n: nat)
    requires mem.size > 0
  {
    forall b: nat :: v < b < v + n && Base(b, mem.size) == b ==> RunsAt(mem, v, b)
  }

  /** One physical run is the right place for the whole range exactly when the frames of its pages follow each other. */
  lemma RunsIffFollow(mem: Memory, v: nat, n: nat)
    requires mem.size > 0 && AllMapped(mem, v, n) && n > 0
    ensures (forall w: nat :: v <= w < v + n ==> RunsAt(mem, v, w)) <==> FramesFollow(mem, v, n)
  {
    hide AllMapped;
    hide RunsAt;
    hide Base;
    if FramesFollow(mem, v, n) {
      forall w: nat | v <= w < v + n ensures RunsAt(mem, v, w) {
        FollowsAt(mem, v, n, w);
      }
    }
  }

  lemma FollowsAt(mem: Memory, v: nat, n: nat, w: nat)
    requires mem.size > 0 && AllMapped(mem, v, n) && v <= w < v + n && FramesFollow(mem, v, n)
    ensures RunsAt(mem, v, w)
  {
    hide IndexOf;
    assert Mapped(mem, v) && Mapped(mem, w);
    var b := Base(w, mem.size);
    BaseMonotone(v, w, mem.size);
    BaseOfBase(w, mem.size);
    hide AllMapped;
    Parse(w, mem.size);
    Parse(b, mem.size);
    hide Base;
    hide InUnit;
    if b <= v {
      BaseMonotone(b, v, mem.size);
      SameUnitOffset(v, w, mem.size);
    } else {
      assert RunsAt(mem, v, b);
    }
  }

  lemma SameUnitOffset(v: nat, w: nat, size: nat)
    requires size > 0 && Base(v, size) == Base(w, size) && v <= w
    ensures InUnit(w, size) == InUnit(v, size) + (w - v)
  {
    Parse(v, size);
    Parse(w, size);
  }

  /** Whatever the memory and the bytes, the run that the accessor writes puts every byte in its place. */
  ghost predicate AlwaysInPlace(mem: Memory, v: nat, n: nat)
    requires mem.size > 0 && Mapped(mem, v)
  {
    forall m: nat -> Byte, data: seq<Byte> | |data| == n :: InPlace(m, Poked(m, Phys(mem, v), data), mem, v, data)
  }

  /** storageAccessor.Write does what it is for exactly when the frames of the pages follow each other. */
  lemma AccessorWriteRightIff(mem: Memory, v: nat, n: nat)
    requires mem.size > 0 && AllMapped(mem, v, n) && n > 0
    ensures Mapped(mem, v) && (AlwaysInPlace(mem, v, n) <==> FramesFollow(mem, v, n))
  {
    hide Phys;
    hide Mapped;
    hide RunsAt;
    hide FramesFollow;
    RunsIffFollow(mem, v, n);
    assert Mapped(mem, v + 0);
    if FramesFollow(mem, v, n) {
      forall m: nat -> Byte, data: seq<Byte> | |data| == n
        ensures InPlace(m, Poked(m, Phys(mem, v), data), mem, v, data)
      {
        RunInPlace(mem, v, m, data);
      }
    } else {
      var w: nat :| v <= w < v + n && !RunsAt(mem, v, w);
      Misplaced(mem, v, n, w);
    }
  }

  lemma RunInPlace(mem: Memory, v: nat, m: nat -> Byte, data: seq<Byte>)
    requires mem.size > 0 && AllMapped(mem, v, |data|) && data != [] && Mapped(mem, v)
    requires forall w: nat :: v <= w < v + |data| ==> RunsAt(mem, v, w)
    ensures InPlace(m, Poked(m, Phys(mem, v), data), mem, v, data)
  {
    hide Phys;
    hide Mapped;
    var p := Phys(mem, v);
    forall w: nat | v <= w < v + |data| ensures Poked(m, p, data)(Phys(mem, w)) == data[w - v] {
      assert RunsAt(mem, v, w);
    }
    forall a: nat | p <= a < p + |data| ensures Hit(mem, v, |data|, a) {
      assert RunsAt(mem, v, v + (a - p));
    }
  }

  /** A single one among zeros shows the byte that is not in its place. */
  lemma Misplaced(mem: Memory, v: nat, n: nat, w: nat)
    requires mem.size > 0 && AllMapped(mem, v, n) && v <= w < v + n && !RunsAt(mem, v, w) && Mapped(mem, v)
    ensures !AlwaysInPlace(mem, v, n)
  {
    hide Phys;
    hide Mapped;
    var m: nat -> Byte := _ => 0;
    var data: seq<Byte> := Zeros(n)[w - v := 1];
    assert Mapped(mem, w);
    assert Poked(m, Phys(mem, v), data)(Phys(mem, w)) == 0;
    assert !InPlace(m, Poked(m, Phys(mem, v), data), mem, v, data);
  }

  /** Two pages of 16 bytes in the frames at 0 and 64. */
  predicate Scattered(mem: Memory) {
    && mem.size == 16 && mem.unit == 16 && mem.capacity == 128 && |mem.pages| == 2
    && mem.pages[0] == Page(1, 0, 0, 16, 0, 0) && mem.pages[1] == Page(1, 16, 64, 16, 0, 0)
  }

  lemma ScatteredAt(mem: Memory, w: nat)
    requires Scattered(mem) && w < 32
    ensures Mapped(mem, w) && Phys(mem, w) == if w < 16 then w else w + 48
  {
    IndexIs(mem.pages, 0, 0);
    IndexIs(mem.pages, 16, 1);
    hide IndexOf;
  }

  lemma ScatteredFrames(mem: Memory)
    requires Scattered(mem)
    ensures Frames(mem)
  {
  }

  lemma Gap(mem: Memory, v: nat, w: nat)
    requires mem.size > 0 && v <= w && Mapped(mem, v) && Mapped(mem, w) && Phys(mem, w) != Phys(mem, v) + (w - v)
    ensures !RunsAt(mem, v, w)
  {
  }

  lemma NotFollowing(mem: Memory, v: nat, n: nat, b: nat)
    requires mem.size > 0 && v < b < v + n && Base(b, mem.size) == b && !RunsAt(mem, v, b)
    ensures !FramesFollow(mem, v, n)
  {
    hide Base;
    hide RunsAt;
  }

  lemma SixteenStarts()
    ensures Base(16, 16) == 16
  {
  }

  lemma ScatteredSecond(mem: Memory)
    requires Scattered(mem)
    ensures !FramesFollow(mem, 8, 16)
  {
    ScatteredAt(mem, 8);
    ScatteredAt(mem, 16);
    SixteenStarts();
    hide *;
    Gap(mem, 8, 16);
    NotFollowing(mem, 8, 16, 16);
  }

  /** Of 16 bytes written to address 8, those of the second page go to address 16 instead of 64. */
  lemma ScatteredFramesMisplace(mem: Memory, m: nat -> Byte, data: seq<Byte>)
    requires Scattered(mem) && |data| == 16
    ensures Frames(mem) && AllMapped(mem, 8, 16) && !FramesFollow(mem, 8, 16)
    ensures Mapped(mem, 8) && Mapped(mem, 16) && Phys(mem, 16) == 64
    ensures var m' := Poked(m, Phys(mem, 8), data); m'(64) == m(64) && m'(16) == data[8]
  {
    hide Mapped;
    hide Phys;
    hide Frames;
    hide FramesFollow;
    ScatteredFrames(mem);
    ScatteredSecond(mem);
    forall w: nat | 8 <= w < 24 ensures Mapped(mem, w) {
      ScatteredAt(mem, w);
    }
    ScatteredAt(mem, 8);
    ScatteredAt(mem, 16);
  }
}
