/** mgpusim/kernels/gridbuilder.go: counting work-groups, producing them one by one, and filling them. */
module GridBuilders {
  import opened Wrappers
  import opened MixedRadix
  import opened Grid

  /* ----- Work-items ----- */

  /** The items of a box of currX * currY * currZ points, x fastest. */
  function Cuboid(cx: nat, cy: nat, cz: nat): (r: seq<Item>)
    requires cx > 0 && cy > 0
    ensures |r| == Volume(cx, cy, cz)
    ensures forall i :: 0 <= i < |r| ==> r[i] == Item(DigitX(i, cx), DigitY(i, cx, cy), DigitZ(i, cx, cy))
  {
    seq(Volume(cx, cy, cz), i requires 0 <= i => Item(DigitX(i, cx), DigitY(i, cx, cy), DigitZ(i, cx, cy)))
  }

  /** An item of the box stands at its flattened place. */
  lemma CuboidAt(cx: nat, cy: nat, cz: nat, x: nat, y: nat, z: nat)
    requires x < cx && y < cy && z < cz
    ensures var i := Flat(x, y, z, cx, cy); i < Volume(cx, cy, cz) && Cuboid(cx, cy, cz)[i] == Item(x, y, z)
  {
    FlatBound(x, y, z, cx, cy, cz);
    DigitsOfFlat(x, y, z, cx, cy);
  }

  method SpawnWorkItems(cx: nat, cy: nat, cz: nat) returns (items: seq<Item>)
    requires cx > 0 && cy > 0
    ensures items == Cuboid(cx, cy, cz)
  {
    hide Cuboid;
    hide Flat;
    hide DigitX;
    hide DigitY;
    hide DigitZ;
    hide Volume;
    items := [];
    ghost var all := Cuboid(cx, cy, cz);
    var z := 0;
    FlatZero(cx, cy);
    while z < cz
      invariant z <= cz && Flat(0, 0, z, cx, cy) <= |all| && items == all[..Flat(0, 0, z, cx, cy)]
    {
      var y := 0;
      while y < cy
        invariant y <= cy && Flat(0, y, z, cx, cy) <= |all| && items == all[..Flat(0, y, z, cx, cy)]
      {
        var x := 0;
        while x < cx
          invariant x <= cx && Flat(x, y, z, cx, cy) <= |all| && items == all[..Flat(x, y, z, cx, cy)]
        {
          CuboidAt(cx, cy, cz, x, y, z);
          Steps(x, y, z, cx, cy);
          items := items + [Item(x, y, z)];
          x := x + 1;
        }
        Steps(x, y, z, cx, cy);
        y := y + 1;
      }
      Steps(0, y, z, cx, cy);
      z := z + 1;
    }
    FlatEnd(cx, cy, cz);
  }

  lemma FlatZero(nx: nat, ny: nat)
    ensures Flat(0, 0, 0, nx, ny) == 0
  {
  }

  /* ----- Counting ----- */

  /** int(GridSize - 1) / int(WorkgroupSize) + 1, where the subtraction is on uint32. */
  function CountedGroups(g: nat, s: nat): (n: nat)
    requires s > 0 && g < U32
    ensures n > 0
    ensures g > 0 ==> n == Groups(g, s)
  {
    ((g - 1) % U32) / s + 1
  }

  /** What countWG computes without a filter. */
  function CountedTotal(p: Packet): nat
    requires PacketOk(p)
  {
    Volume(CountedGroups(p.gridX, p.wgX), CountedGroups(p.gridY, p.wgY), CountedGroups(p.gridZ, p.wgZ))
  }

  /** A grid without points has no group, but 2^32 are counted. */
  lemma ZeroGridCounts(p: Packet)
    requires p == Packet(0, 1, 1, 1, 1, 1)
    ensures PacketOk(p) && CountedTotal(p) == U32 && Wanted(p, None, 0) == []
  {
    VolumePositive(NX(p), NY(p), NZ(p));
  }

  lemma CountedIsExact(g: nat, s: nat)
    requires s > 0 && 0 < g < U32
    ensures CountedGroups(g, s) == Groups(g, s)
  {
  }

  predicate Passes(f: Filter, x: nat, y: nat, z: nat) {
    f.None? || f.value(x, y, z)
  }

  /** Group i comes before (a, b, c) when groups are ordered by x, then y, then z. */
  predicate Before(p: Packet, i: nat, a: nat, b: nat, c: nat)
    requires PacketOk(p) && i < Total(p)
  {
    var x, y, z := DigitX(i, NX(p)), DigitY(i, NX(p), NY(p)), DigitZ(i, NX(p), NY(p));
    x < a || (x == a && (y < b || (y == b && z < c)))
  }

  /** The groups countWG has counted when its loops are at (a, b, c). */
  ghost function Counted(p: Packet, f: Filter, a: nat, b: nat, c: nat): set<nat>
    requires PacketOk(p)
  {
    set i: nat | i < Total(p) && Accepts(p, f, i) && Before(p, i, a, b, c)
  }

  /** One more round of the innermost loop. */
  lemma CountOne(p: Packet, f: Filter, a: nat, b: nat, c: nat)
    requires PacketOk(p) && a < NX(p) && b < NY(p) && c < NZ(p)
    ensures |Counted(p, f, a, b, c + 1)| == |Counted(p, f, a, b, c)| + (if Passes(f, a, b, c) then 1 else 0)
  {
    hide Groups;
    var e := Flat(a, b, c, NX(p), NY(p));
    FlatBound(a, b, c, NX(p), NY(p), NZ(p));
    DigitsOfFlat(a, b, c, NX(p), NY(p));
    hide Volume;
    forall i: nat | i < Total(p) && Before(p, i, a, b, c + 1) && !Before(p, i, a, b, c) ensures i == e {
      FlatOfDigits(i, NX(p), NY(p));
    }
    hide Flat;
    hide DigitX;
    hide DigitY;
    hide DigitZ;
    assert !Before(p, e, a, b, c) && Before(p, e, a, b, c + 1);
    if Passes(f, a, b, c) {
      assert Counted(p, f, a, b, c + 1) == Counted(p, f, a, b, c) + {e};
    } else {
      assert Counted(p, f, a, b, c + 1) == Counted(p, f, a, b, c);
    }
  }

  /** Where a loop ends the next round of the loop around it begins. */
  lemma CountCarry(p: Packet, f: Filter, a: nat, b: nat)
    requires PacketOk(p)
    ensures Counted(p, f, a, b, NZ(p)) == Counted(p, f, a, b + 1, 0)
    ensures Counted(p, f, a, NY(p), 0) == Counted(p, f, a + 1, 0, 0)
  {
    hide Groups;
    forall i: nat | i < Total(p)
        ensures Before(p, i, a, b, NZ(p)) == Before(p, i, a, b + 1, 0)
                && Before(p, i, a, NY(p), 0) == Before(p, i, a + 1, 0, 0) {
      DigitZBound(i, NX(p), NY(p), NZ(p));
    }
  }

  ghost function From(p: Packet, f: Filter, i: nat): set<nat>
    requires PacketOk(p)
  {
    set j: nat | i <= j < Total(p) && Accepts(p, f, j)
  }

  lemma FromStep(p: Packet, f: Filter, i: nat)
    requires PacketOk(p) && i < Total(p)
    ensures |From(p, f, i)| == |From(p, f, i + 1)| + (if Accepts(p, f, i) then 1 else 0)
  {
    hide Accepts;
    hide Total;
    hide PacketOk;
    if Accepts(p, f, i) {
      assert From(p, f, i) == From(p, f, i + 1) + {i};
    } else {
      assert From(p, f, i) == From(p, f, i + 1);
    }
  }

  lemma {:induction false} WantedSize(p: Packet, f: Filter, i: nat)
    requires PacketOk(p)
    ensures |Wanted(p, f, i)| == |From(p, f, i)|
    decreases Total(p) - i
  {
    hide Accepts;
    hide Total;
    hide PacketOk;
    if i < Total(p) {
      FromStep(p, f, i);
      WantedSize(p, f, i + 1);
    } else {
      assert From(p, f, i) == {};
    }
  }

  lemma CountsAll(p: Packet, f: Filter)
    requires PacketOk(p)
    ensures |Counted(p, f, NX(p), 0, 0)| == |Wanted(p, f, 0)|
    ensures Counted(p, f, 0, 0, 0) == {}
  {
    hide Groups;
    assert Counted(p, f, NX(p), 0, 0) == From(p, f, 0);
    WantedSize(p, f, 0);
  }

  lemma {:induction false} AllWanted(p: Packet, i: nat)
    requires PacketOk(p) && i <= Total(p)
    ensures |Wanted(p, None, i)| == Total(p) - i
    decreases Total(p) - i
  {
    if i < Total(p) {
      AllWanted(p, i + 1);
    }
  }

  /* ----- Wavefronts ----- */

  /** Where wavefront k begins among the items. */
  function Start(wfs: seq<Wavefront>, k: nat): nat
    requires k <= |wfs|
  {
    if k == 0 then 0 else Start(wfs, k - 1) + |wfs[k - 1].items|
  }

  lemma {:induction false} StartGrows(wfs: seq<Wavefront>, j: nat, k: nat)
    requires j <= k <= |wfs|
    ensures Start(wfs, j) <= Start(wfs, k)
    decreases k
  {
    if j < k {
      StartGrows(wfs, j, k - 1);
    }
  }

  lemma {:induction false} StartPrefix(wfs: seq<Wavefront>, wfs': seq<Wavefront>, k: nat)
    requires k <= |wfs| && k <= |wfs'| && wfs[..k] == wfs'[..k]
    ensures Start(wfs, k) == Start(wfs', k)
    decreases k
  {
    if k > 0 {
      assert wfs[..k - 1] == wfs[..k][..k - 1] && wfs'[..k - 1] == wfs'[..k][..k - 1];
      assert wfs[k - 1] == wfs[..k][k - 1] && wfs'[k - 1] == wfs'[..k][k - 1];
      StartPrefix(wfs, wfs', k - 1);
    }
  }

  /** Lane l is on when some of the items has it. */
  ghost predicate MaskOk(mask: seq<bool>, items: seq<Item>, sx: nat, sy: nat) {
    |mask| == 64 && forall l :: 0 <= l < 64 ==>
        (mask[l] <==> exists w :: w in items && FlattenedID(w, sx, sy) % 64 == l)
  }

  /** One wavefront: it starts with an item whose identifier is a multiple of 64, and has no other such item. */
  ghost predicate WavefrontOk(wf: Wavefront, sx: nat, sy: nat) {
    && wf.items != [] && wf.firstWiFlatID == FlattenedID(wf.items[0], sx, sy) && wf.firstWiFlatID % 64 == 0
    && (forall j :: 0 < j < |wf.items| ==> FlattenedID(wf.items[j], sx, sy) % 64 != 0)
    && MaskOk(wf.mask, wf.items, sx, sy)
  }

  ghost predicate Slice(wfs: seq<Wavefront>, items: seq<Item>, k: nat)
    requires k < |wfs|
  {
    Start(wfs, k) + |wfs[k].items| <= |items| && wfs[k].items == items[Start(wfs, k)..Start(wfs, k) + |wfs[k].items|]
  }

  /** The wavefronts are the items cut in front of every multiple of 64. */
  ghost predicate WavefrontsOf(wfs: seq<Wavefront>, items: seq<Item>, sx: nat, sy: nat) {
    && Start(wfs, |wfs|) == |items|
    && (forall k :: 0 <= k < |wfs| ==> WavefrontOk(wfs[k], sx, sy) && Slice(wfs, items, k))
  }

  function NoLanes(): seq<bool> {
    seq(64, _ => false)
  }

  lemma LaneOn(mask: seq<bool>, items: seq<Item>, w: Item, sx: nat, sy: nat)
    requires MaskOk(mask, items, sx, sy)
    ensures MaskOk(mask[FlattenedID(w, sx, sy) % 64 := true], items + [w], sx, sy)
  {
    var mask' := mask[FlattenedID(w, sx, sy) % 64 := true];
    forall l | 0 <= l < 64 ensures mask'[l] <==> exists v :: v in items + [w] && FlattenedID(v, sx, sy) % 64 == l {
      if l == FlattenedID(w, sx, sy) % 64 {
        assert w in items + [w];
      }
      if v :| v in items && FlattenedID(v, sx, sy) % 64 == l {
        assert v in items + [w];
      }
    }
  }

  lemma SliceKept(wfs: seq<Wavefront>, wfs': seq<Wavefront>, items: seq<Item>, w: Item, k: nat)
    requires k < |wfs| && k < |wfs'| && wfs'[..k] == wfs[..k] && wfs'[k] == wfs[k] && Slice(wfs, items, k)
    ensures Slice(wfs', items + [w], k)
  {
    StartPrefix(wfs, wfs', k);
    assert (items + [w])[Start(wfs, k)..Start(wfs, k) + |wfs[k].items|] ==
        items[Start(wfs, k)..Start(wfs, k) + |wfs[k].items|];
  }

  /** The last wavefront reaches to the end. */
  lemma SliceLast(wfs: seq<Wavefront>, items: seq<Item>, w: Item, n: nat)
    requires |wfs| == n + 1 && n <= |wfs| && Start(wfs, n) <= |items| && wfs[n].items == items[Start(wfs, n)..] + [w]
    ensures Slice(wfs, items + [w], n) && Start(wfs, n + 1) == |items| + 1
  {
    assert (items + [w])[Start(wfs, n)..] == items[Start(wfs, n)..] + [w];
  }

  function Opening(w: Item, sx: nat, sy: nat): Wavefront {
    Wavefront(FlattenedID(w, sx, sy), [w], NoLanes()[0 := true])
  }

  lemma OpeningOk(w: Item, sx: nat, sy: nat)
    requires FlattenedID(w, sx, sy) % 64 == 0
    ensures WavefrontOk(Opening(w, sx, sy), sx, sy)
  {
    hide FlattenedID;
    LaneOn(NoLanes(), [], w, sx, sy);
    assert [] + [w] == [w];
  }

  /** Starting a wavefront with item w. */
  lemma Opened(wfs: seq<Wavefront>, items: seq<Item>, w: Item, sx: nat, sy: nat)
    requires WavefrontsOf(wfs, items, sx, sy) && FlattenedID(w, sx, sy) % 64 == 0
    ensures WavefrontsOf(wfs + [Opening(w, sx, sy)], items + [w], sx, sy)
  {
    hide WavefrontOk;
    hide Slice;
    hide FlattenedID;
    var n := |wfs|;
    var wfs' := wfs + [Opening(w, sx, sy)];
    OpeningOk(w, sx, sy);
    assert wfs'[..n] == wfs[..n];
    StartPrefix(wfs, wfs', n);
    assert items[Start(wfs', n)..] + [w] == [w];
    SliceLast(wfs', items, w, n);
    forall k | 0 <= k < n ensures WavefrontOk(wfs'[k], sx, sy) && Slice(wfs', items + [w], k) {
      assert wfs'[..k] == wfs[..k];
      SliceKept(wfs, wfs', items, w, k);
    }
  }

  function Extending(wf: Wavefront, w: Item, sx: nat, sy: nat): Wavefront
    requires |wf.mask| == 64
  {
    wf.(items := wf.items + [w], mask := wf.mask[FlattenedID(w, sx, sy) % 64 := true])
  }

  lemma ExtendingOk(wf: Wavefront, w: Item, sx: nat, sy: nat)
    requires WavefrontOk(wf, sx, sy) && FlattenedID(w, sx, sy) % 64 != 0
    ensures WavefrontOk(Extending(wf, w, sx, sy), sx, sy)
  {
    hide FlattenedID;
    LaneOn(wf.mask, wf.items, w, sx, sy);
    hide MaskOk;
  }

  lemma LastReaches(wfs: seq<Wavefront>, items: seq<Item>, n: nat)
    requires |wfs| == n + 1 && Start(wfs, n + 1) == |items| && Slice(wfs, items, n)
    ensures Start(wfs, n) <= |items| && wfs[n].items == items[Start(wfs, n)..]
  {
  }

  /** Adding item w to the last wavefront. */
  lemma Extended(wfs: seq<Wavefront>, items: seq<Item>, w: Item, sx: nat, sy: nat)
    requires WavefrontsOf(wfs, items, sx, sy) && FlattenedID(w, sx, sy) % 64 != 0 && wfs != []
    ensures |wfs[|wfs| - 1].mask| == 64
    ensures WavefrontsOf(wfs[|wfs| - 1 := Extending(wfs[|wfs| - 1], w, sx, sy)], items + [w], sx, sy)
  {
    hide Slice;
    hide FlattenedID;
    hide MaskOk;
    var n := |wfs| - 1;
    MaskSize(wfs[n], sx, sy);
    var wfs' := wfs[n := Extending(wfs[n], w, sx, sy)];
    ExtendingOk(wfs[n], w, sx, sy);
    LastReaches(wfs, items, n);
    assert wfs'[..n] == wfs[..n];
    StartPrefix(wfs, wfs', n);
    SliceLast(wfs', items, w, n);
    hide WavefrontOk;
    forall k | 0 <= k < n ensures WavefrontOk(wfs'[k], sx, sy) && Slice(wfs', items + [w], k) {
      assert wfs'[..k] == wfs[..k];
      SliceKept(wfs, wfs', items, w, k);
    }
  }

  lemma MaskSize(wf: Wavefront, sx: nat, sy: nat)
    requires WavefrontOk(wf, sx, sy)
    ensures |wf.mask| == 64
  {
  }

  method FormWavefronts(items: seq<Item>, sx: nat, sy: nat) returns (wfs: seq<Wavefront>)
    requires items != [] ==> FlattenedID(items[0], sx, sy) % 64 == 0
    ensures WavefrontsOf(wfs, items, sx, sy)
  {
    hide WavefrontsOf;
    hide FlattenedID;
    wfs := [];
    var i := 0;
    NoWavefronts(items[..0], sx, sy);
    while i < |items|
      invariant i <= |items| && WavefrontsOf(wfs, items[..i], sx, sy) && (i > 0 ==> wfs != [])
    {
      var wi := items[i];
      var inWGID := wi.z * sx * sy + wi.y * sx + wi.x;
      SameID(wi, sx, sy);
      assert items[..i + 1] == items[..i] + [wi];
      if inWGID % 64 == 0 {
        Opened(wfs, items[..i], wi, sx, sy);
        wfs := wfs + [Wavefront(FlattenedID(items[i], sx, sy), [wi], NoLanes()[inWGID % 64 := true])];
      } else {
        Extended(wfs, items[..i], wi, sx, sy);
        var wf := wfs[|wfs| - 1];
        wfs := wfs[|wfs| - 1 := wf.(items := wf.items + [wi], mask := wf.mask[inWGID % 64 := true])];
      }
      i := i + 1;
    }
    assert items[..i] == items;
  }

  lemma NoWavefronts(items: seq<Item>, sx: nat, sy: nat)
    requires items == []
    ensures WavefrontsOf([], items, sx, sy)
  {
  }

  lemma SameID(w: Item, sx: nat, sy: nat)
    ensures FlattenedID(w, sx, sy) == w.z * sx * sy + w.y * sx + w.x
  {
  }

  lemma CuboidStarts(cx: nat, cy: nat, cz: nat)
    requires cx > 0 && cy > 0 && cz > 0
    ensures Cuboid(cx, cy, cz) != [] && Cuboid(cx, cy, cz)[0] == Item(0, 0, 0)
    ensures forall sx: nat, sy: nat :: FlattenedID(Item(0, 0, 0), sx, sy) == 0
  {
    CuboidAt(cx, cy, cz, 0, 0, 0);
    FlatZero(cx, cy);
  }

  /* ----- The builder ----- */

  /** What NextWG knows of group i before it fills it. */
  predicate Describes(wg: WorkGroup, p: Packet, i: nat)
    requires PacketOk(p) && i < Total(p)
  {
    && wg.idX == DigitX(i, NX(p)) && wg.idY == DigitY(i, NX(p), NY(p)) && wg.idZ == DigitZ(i, NX(p), NY(p))
    && wg.sizeX == p.wgX && wg.sizeY == p.wgY && wg.sizeZ == p.wgZ
    && wg.currX == Curr(p.gridX, p.wgX, wg.idX) && wg.currY == Curr(p.gridY, p.wgY, wg.idY)
       && wg.currZ == Curr(p.gridZ, p.wgZ, wg.idZ)
  }

  /** The builder is at the group with flattened index i, or at the end. */
  predicate At(p: Packet, x: nat, y: nat, z: nat, i: nat)
    requires PacketOk(p)
  {
    if Total(p) == 0 then x == 0 && y == 0 && z == 0 && i == 0
    else
      && i == Flat(x, y, z, NX(p), NY(p))
      && ((x < NX(p) && y < NY(p) && z < NZ(p)) || (x == 0 && y == 0 && z == NZ(p)))
  }

  /** No group is left exactly at the end. */
  lemma LeftAt(p: Packet, x: nat, y: nat, z: nat, i: nat)
    requires PacketOk(p) && At(p, x, y, z, i)
    ensures i <= Total(p)
    ensures (p.gridX - x * p.wgX <= 0 || p.gridY - y * p.wgY <= 0 || p.gridZ - z * p.wgZ <= 0) <==> i == Total(p)
    ensures i < Total(p) ==> x == DigitX(i, NX(p)) && y == DigitY(i, NX(p), NY(p)) && z == DigitZ(i, NX(p), NY(p)) &&
                             x < NX(p) && y < NY(p) && z < NZ(p)
  {
    hide Groups;
    GroupExists(p.gridX, p.wgX, x);
    GroupExists(p.gridY, p.wgY, y);
    GroupExists(p.gridZ, p.wgZ, z);
    if Total(p) > 0 {
      if z < NZ(p) {
        FlatBound(x, y, z, NX(p), NY(p), NZ(p));
        DigitsOfFlat(x, y, z, NX(p), NY(p));
      } else {
        FlatEnd(NX(p), NY(p), NZ(p));
      }
    }
  }

  /** The carry from x to y to z. */
  lemma AdvanceAt(p: Packet, x: nat, y: nat, z: nat, i: nat)
    requires PacketOk(p) && At(p, x, y, z, i) && i < Total(p)
    ensures x < NX(p) && y < NY(p) && z < NZ(p)
    ensures if x + 1 < NX(p) then At(p, x + 1, y, z, i + 1)
            else if y + 1 < NY(p) then At(p, 0, y + 1, z, i + 1)
            else At(p, 0, 0, z + 1, i + 1)
  {
    hide Groups;
    LeftAt(p, x, y, z, i);
    hide Curr;
    Steps(x, y, z, NX(p), NY(p));
    Steps(0, y, z, NX(p), NY(p));
    hide Flat;
  }

  /** The group NextWG returns: items and wavefronts included. */
  ghost predicate Filled(wg: WorkGroup, p: Packet, i: nat)
    requires PacketOk(p) && i < Total(p)
  {
    && Describes(wg, p, i) && 0 < wg.currX && 0 < wg.currY && 0 < wg.currZ
    && wg.items == Cuboid(wg.currX, wg.currY, wg.currZ)
    && WavefrontsOf(wg.wavefronts, wg.items, wg.sizeX, wg.sizeY)
  }

  class GridBuilder {
    var packet: Packet
    var filter: Filter
    var numWG: nat
    var xid: nat
    var yid: nat
    var zid: nat
    ghost var next: nat

    ghost predicate Valid()
      reads this
    {
      PacketOk(packet) && At(packet, xid, yid, zid, next)
    }

    constructor (packet: Packet, filter: Filter)
      requires PacketOk(packet)
      ensures Valid() && this.packet == packet && this.filter == filter && next == 0
    {
      this.packet, this.filter := packet, filter;
      numWG, xid, yid, zid, next := 0, 0, 0, 0, 0;
      new;
      StartAt(packet);
    }

    static lemma StartAt(p: Packet)
      requires PacketOk(p)
      ensures At(p, 0, 0, 0, 0)
    {
      FlatZero(NX(p), NY(p));
    }

    method SetKernel(packet: Packet, filter: Filter)
      requires PacketOk(packet)
      modifies this
      ensures Valid() && this.packet == packet && this.filter == filter && next == 0
      ensures packet.gridX > 0 && packet.gridY > 0 && packet.gridZ > 0 ==> numWG == |Wanted(packet, filter, 0)|
    {
      this.packet, this.filter := packet, filter;
      xid, yid, zid, next := 0, 0, 0, 0;
      StartAt(packet);
      CountWG();
    }

    /** NumWG is the number of groups that will be produced, unless a grid size is zero. */
    method CountWG()
      requires Valid()
      modifies this`numWG
      ensures packet.gridX > 0 && packet.gridY > 0 && packet.gridZ > 0 ==> numWG == |Wanted(packet, filter, 0)|
      ensures filter.None? ==> numWG == CountedTotal(packet)
      ensures filter.None? ==> (numWG == |Wanted(packet, filter, 0)| <==>
              packet.gridX > 0 && packet.gridY > 0 && packet.gridZ > 0)
    {
      hide CountedGroups;
      hide Groups;
      hide Wanted;
      hide Counted;
      hide At;
      var p := packet;
      var x := CountedGroups(p.gridX, p.wgX);
      var y := CountedGroups(p.gridY, p.wgY);
      var z := CountedGroups(p.gridZ, p.wgZ);
      if filter.None? {
        VolumePositive(x, y, z);
        numWG := x * y * z;
        AllWanted(p, 0);
        ZeroTotal(p);
        return;
      }
      numWG := 0;
      ghost var exact := x == NX(p) && y == NY(p) && z == NZ(p);
      CountsAll(p, filter);
      var i := 0;
      while i < x
        invariant i <= x && (exact ==> numWG == |Counted(p, filter, i, 0, 0)|)
      {
        var j := 0;
        while j < y
          invariant j <= y && (exact ==> numWG == |Counted(p, filter, i, j, 0)|)
        {
          var k := 0;
          while k < z
            invariant k <= z && (exact ==> numWG == |Counted(p, filter, i, j, k)|)
          {
            if exact {
              CountOne(p, filter, i, j, k);
            }
            if filter.value(i, j, k) {
              numWG := numWG + 1;
            }
            k := k + 1;
          }
          CountCarry(p, filter, i, j);
          j := j + 1;
        }
        CountCarry(p, filter, i, j);
        i := i + 1;
      }
    }

    /** The next group that passes the filter, filled with its items and wavefronts, or None at the end. */
    method NextWG() returns (wg: Option<WorkGroup>)
      requires Valid()
      modifies this`xid, this`yid, this`zid, this`next
      ensures Valid() && old(next) <= next
      ensures wg.None? ==> Wanted(packet, filter, old(next)) == [] == Wanted(packet, filter, next)
      ensures wg.Some? ==>
                && old(next) < next <= Total(packet)
                && Wanted(packet, filter, old(next)) == [next - 1] + Wanted(packet, filter, next)
                && Filled(wg.value, packet, next - 1)
    {
      hide Wanted;
      hide At;
      hide Accepts;
      hide Describes;
      hide Cuboid;
      hide WavefrontsOf;
      var p := packet;
      while true
        invariant Valid() && old(next) <= next
        invariant Wanted(p, filter, old(next)) == Wanted(p, filter, next)
        decreases Total(p) - next
      {
        LeftAt(p, xid, yid, zid, next);
        if p.gridX - xid * p.wgX <= 0 || p.gridY - yid * p.wgY <= 0 || p.gridZ - zid * p.wgZ <= 0 {
          NoneWanted(p, filter, next);
          return None;
        }
        var x, y, z := xid, yid, zid;
        ghost var i := next;
        var candidate := Describe(x, y, z, i);
        var passes := Passes(filter, x, y, z);
        WantedHere(p, filter, x, y, z, i);
        Advance();
        if passes {
          assert Wanted(p, filter, i) == [next - 1] + Wanted(p, filter, next);
          var items := SpawnWorkItems(candidate.currX, candidate.currY, candidate.currZ);
          CuboidStarts(candidate.currX, candidate.currY, candidate.currZ);
          var wavefronts := FormWavefronts(items, candidate.sizeX, candidate.sizeY);
          wg := Some(candidate.(items := items, wavefronts := wavefronts));
          StillDescribes(candidate, wg.value, p, i);
          return wg;
        }
      }
    }

    static lemma NoneWanted(p: Packet, f: Filter, i: nat)
      requires PacketOk(p) && i >= Total(p)
      ensures Wanted(p, f, i) == []
    {
    }

    static lemma WantedHere(p: Packet, f: Filter, x: nat, y: nat, z: nat, i: nat)
      requires PacketOk(p) && i < Total(p) && x == DigitX(i, NX(p)) && y == DigitY(i, NX(p), NY(p))
              && z == DigitZ(i, NX(p), NY(p))
      ensures Wanted(p, f, i) == if Passes(f, x, y, z) then [i] + Wanted(p, f, i + 1) else Wanted(p, f, i + 1)
    {
      ConcatNil(Wanted(p, f, i + 1));
    }

    static lemma StillDescribes(a: WorkGroup, b: WorkGroup, p: Packet, i: nat)
      requires PacketOk(p) && i < Total(p) && Describes(a, p, i)
              && b == a.(items := b.items, wavefronts := b.wavefronts)
      ensures Describes(b, p, i)
    {
    }

    /** The fields set from the packet and the current identifiers. */
    method Describe(x: nat, y: nat, z: nat, ghost i: nat) returns (wg: WorkGroup)
      requires PacketOk(packet) && At(packet, x, y, z, i) && i < Total(packet)
      ensures Describes(wg, packet, i) && wg.items == [] && wg.wavefronts == []
      ensures 0 < wg.currX && 0 < wg.currY && 0 < wg.currZ && wg.sizeX > 0 && wg.sizeY > 0
      ensures wg.idX == x && wg.idY == y && wg.idZ == z
    {
      var p := packet;
      LeftAt(p, x, y, z, i);
      GroupExists(p.gridX, p.wgX, x);
      GroupExists(p.gridY, p.wgY, y);
      GroupExists(p.gridZ, p.wgZ, z);
      hide Groups;
      wg := WorkGroup(x, y, z, p.wgX, p.wgY, p.wgZ, Curr(p.gridX, p.wgX, x), Curr(p.gridY, p.wgY, y),
          Curr(p.gridZ, p.wgZ, z), [], []);
    }

    method Advance()
      requires Valid() && next < Total(packet)
      modifies this`xid, this`yid, this`zid, this`next
      ensures Valid() && next == old(next) + 1
    {
      var p := packet;
      AdvanceAt(p, xid, yid, zid, next);
      GroupExists(p.gridX, p.wgX, xid);
      GroupExists(p.gridY, p.wgY, yid);
      hide At;
      hide Groups;
      var xLeft := p.gridX - xid * p.wgX;
      var yLeft := p.gridY - yid * p.wgY;
      var xToAllocate := if xLeft < p.wgX then xLeft else p.wgX;
      var yToAllocate := if yLeft < p.wgY then yLeft else p.wgY;
      next := next + 1;
      xid := xid + 1;
      xLeft := xLeft - xToAllocate;
      if xLeft <= 0 {
        xid := 0;
        yid := yid + 1;
        yLeft := yLeft - yToAllocate;
        if yLeft <= 0 {
          yid := 0;
          zid := zid + 1;
        }
      }
    }

    /** Skip(n) drops the next n groups that pass, or all if there are fewer. */
    method Skip(n: nat)
      requires Valid()
      modifies this`xid, this`yid, this`zid, this`next
      ensures Valid()
      ensures var w := Wanted(packet, filter, old(next));
              Wanted(packet, filter, next) == if n <= |w| then w[n..] else []
    {
      hide Wanted;
      hide At;
      ghost var w := Wanted(packet, filter, next);
      var i := 0;
      while i < n
        invariant i <= n && Valid()
        invariant Wanted(packet, filter, next) == if i <= |w| then w[i..] else []
      {
        ghost var before := Wanted(packet, filter, next);
        var wg := NextWG();
        assert wg.Some? ==> before[1..] == Wanted(packet, filter, next);
        i := i + 1;
      }
    }

    static lemma ZeroTotal(p: Packet)
      requires PacketOk(p)
      ensures Total(p) > 0 <==> p.gridX > 0 && p.gridY > 0 && p.gridZ > 0
    {
    }
  }
}
