/** Packets, work-groups and the order in which a grid is cut: mgpusim/kernels/gridbuilder.go and
    mgpusim/kernels/grid.go. */
module Grid {
  import opened Wrappers
  import opened Arith
  import opened MixedRadix

  const U32: nat := 0x1_0000_0000

  /** The sizes in an HSA dispatch packet. */
  datatype Packet = Packet(gridX: nat, gridY: nat, gridZ: nat, wgX: nat, wgY: nat, wgZ: nat)

  /** Grid sizes are uint32, work-group sizes uint16, and the source divides by the latter. */
  predicate PacketOk(p: Packet) {
    p.gridX < U32 && p.gridY < U32 && p.gridZ < U32 && 0 < p.wgX < 0x1_0000 && 0 < p.wgY < 0x1_0000
        && 0 < p.wgZ < 0x1_0000
  }

  /** A WGFilterFunc, reduced to the identifiers it looks at. */
  type Filter = Option<(nat, nat, nat) -> bool>

  /** How many groups of size s are needed for g points. */
  function Groups(g: nat, s: nat): (n: nat)
    requires s > 0
    ensures n > 0 <==> g > 0
  {
    if g == 0 then 0 else (g - 1) / s + 1
  }

  /** Points of group i. */
  function Curr(g: nat, s: nat, i: nat): int {
    if g - i * s < s then g - i * s else s
  }

  /** A group exists exactly when some point is left for it, and the last one takes all that is left. */
  lemma GroupExists(g: nat, s: nat, i: nat)
    requires s > 0
    ensures i < Groups(g, s) <==> g - i * s > 0
    ensures i < Groups(g, s) ==> 0 < Curr(g, s, i) <= s && (i + 1 == Groups(g, s) <==> g - i * s - Curr(g, s, i) <= 0)
  {
    if g > 0 {
      var q, r := (g - 1) / s, (g - 1) % s;
      assert g - 1 == q * s + r;
      if i <= q {
        MulMonotone(i, q, s);
        if i < q {
          MulMonotone(i + 1, q, s);
          assert (i + 1) * s == i * s + s;
        }
      } else {
        MulMonotone(q + 1, i, s);
        assert (q + 1) * s == q * s + s;
      }
    }
  }

  function NX(p: Packet): nat
    requires PacketOk(p)
  {
    Groups(p.gridX, p.wgX)
  }

  function NY(p: Packet): nat
    requires PacketOk(p)
  {
    Groups(p.gridY, p.wgY)
  }

  function NZ(p: Packet): nat
    requires PacketOk(p)
  {
    Groups(p.gridZ, p.wgZ)
  }

  function Total(p: Packet): (t: nat)
    requires PacketOk(p)
    ensures t > 0 ==> NX(p) > 0 && NY(p) > 0 && NZ(p) > 0
    ensures t > 0 <== p.gridX > 0 && p.gridY > 0 && p.gridZ > 0
  {
    VolumePositive(NX(p), NY(p), NZ(p));
    Volume(NX(p), NY(p), NZ(p))
  }

  lemma VolumePositive(a: nat, b: nat, c: nat)
    ensures Volume(a, b, c) > 0 <==> a > 0 && b > 0 && c > 0
  {
    if a > 0 && b > 0 && c > 0 {
      MulAtLeast(a, b);
      MulAtLeast(a * b, c);
    }
  }

  /** Whether the filter lets the i-th group of the grid pass. */
  predicate Accepts(p: Packet, f: Filter, i: nat)
    requires PacketOk(p) && i < Total(p)
  {
    f.None? || f.value(DigitX(i, NX(p)), DigitY(i, NX(p), NY(p)), DigitZ(i, NX(p), NY(p)))
  }

  /** The groups from the i-th on that pass, in grid order. */
  function Wanted(p: Packet, f: Filter, i: nat): seq<nat>
    requires PacketOk(p)
    decreases Total(p) - i
  {
    if i >= Total(p) then [] else (if Accepts(p, f, i) then [i] else []) + Wanted(p, f, i + 1)
  }

  /** The work-items of a group, by identifier. */
  datatype Item = Item(x: nat, y: nat, z: nat)

  function FlattenedID(w: Item, sizeX: nat, sizeY: nat): nat {
    w.x + w.y * sizeX + w.z * sizeX * sizeY
  }

  /** A wavefront of a work-group. `mask` is InitExecMask, one flag per lane. */
  datatype Wavefront = Wavefront(firstWiFlatID: nat, items: seq<Item>, mask: seq<bool>)

  datatype WorkGroup = WorkGroup(
    idX: nat, idY: nat, idZ: nat,
    sizeX: nat, sizeY: nat, sizeZ: nat,
    currX: nat, currY: nat, currZ: nat,
    items: seq<Item>,
    wavefronts: seq<Wavefront>
  )

  /* ----- Every point of the grid is in one group, at one place ----- */

  datatype Point = Point(x: nat, y: nat, z: nat)

  predicate InGrid(p: Packet, pt: Point) {
    pt.x < p.gridX && pt.y < p.gridY && pt.z < p.gridZ
  }

  /** Item w of group i exists. */
  predicate HasItem(p: Packet, i: nat, w: Item)
    requires PacketOk(p) && i < Total(p)
  {
    && w.x < Curr(p.gridX, p.wgX, DigitX(i, NX(p)))
    && w.y < Curr(p.gridY, p.wgY, DigitY(i, NX(p), NY(p)))
    && w.z < Curr(p.gridZ, p.wgZ, DigitZ(i, NX(p), NY(p)))
  }

  /** The grid point that item w of group i stands for. */
  function PointOf(p: Packet, i: nat, w: Item): Point
    requires PacketOk(p) && i < Total(p)
  {
    Point(DigitX(i, NX(p)) * p.wgX + w.x, DigitY(i, NX(p), NY(p)) * p.wgY + w.y, DigitZ(i, NX(p), NY(p)) * p.wgZ + w.z)
  }

  function Quotient(x: nat, s: nat): nat
    requires s > 0
  {
    x / s
  }

  function Remainder(x: nat, s: nat): nat
    requires s > 0
  {
    x % s
  }

  function GroupOf(p: Packet, pt: Point): nat
    requires PacketOk(p) && InGrid(p, pt)
  {
    Flat(Quotient(pt.x, p.wgX), Quotient(pt.y, p.wgY), Quotient(pt.z, p.wgZ), NX(p), NY(p))
  }

  function ItemOf(p: Packet, pt: Point): Item
    requires PacketOk(p) && InGrid(p, pt)
  {
    Item(Remainder(pt.x, p.wgX), Remainder(pt.y, p.wgY), Remainder(pt.z, p.wgZ))
  }

  lemma PointSplits(g: nat, s: nat, x: nat)
    requires s > 0 && x < g
    ensures Quotient(x, s) < Groups(g, s) && Remainder(x, s) < Curr(g, s, Quotient(x, s))
            && Quotient(x, s) * s + Remainder(x, s) == x
  {
    GroupExists(g, s, x / s);
  }

  lemma PointJoins(g: nat, s: nat, i: nat, x: nat)
    requires s > 0 && i < Groups(g, s) && x < Curr(g, s, i)
    ensures i * s + x < g && Quotient(i * s + x, s) == i && Remainder(i * s + x, s) == x
  {
    DivModUnique(i * s + x, s, i, x);
  }

  /** From points to items and back. */
  lemma PointHasItem(p: Packet, pt: Point)
    requires PacketOk(p) && InGrid(p, pt)
    ensures var i := GroupOf(p, pt); i < Total(p) && HasItem(p, i, ItemOf(p, pt)) && PointOf(p, i, ItemOf(p, pt)) == pt
  {
    hide Flat;
    hide DigitX;
    hide DigitY;
    hide DigitZ;
    hide Groups;
    hide Curr;
    hide Volume;
    hide Quotient;
    hide Remainder;
    PointSplits(p.gridX, p.wgX, pt.x);
    PointSplits(p.gridY, p.wgY, pt.y);
    PointSplits(p.gridZ, p.wgZ, pt.z);
    FlatBound(Quotient(pt.x, p.wgX), Quotient(pt.y, p.wgY), Quotient(pt.z, p.wgZ), NX(p), NY(p), NZ(p));
    DigitsOfFlat(Quotient(pt.x, p.wgX), Quotient(pt.y, p.wgY), Quotient(pt.z, p.wgZ), NX(p), NY(p));
  }

  /** From items to points and back: no two items stand for the same point. */
  lemma ItemHasPoint(p: Packet, i: nat, w: Item)
    requires PacketOk(p) && i < Total(p) && HasItem(p, i, w)
    ensures var pt := PointOf(p, i, w); InGrid(p, pt) && GroupOf(p, pt) == i && ItemOf(p, pt) == w
  {
    hide Flat;
    hide DigitX;
    hide DigitY;
    hide DigitZ;
    hide Groups;
    hide Curr;
    hide Volume;
    hide Quotient;
    hide Remainder;
    DigitZBound(i, NX(p), NY(p), NZ(p));
    PointJoins(p.gridX, p.wgX, DigitX(i, NX(p)), w.x);
    PointJoins(p.gridY, p.wgY, DigitY(i, NX(p), NY(p)), w.y);
    PointJoins(p.gridZ, p.wgZ, DigitZ(i, NX(p), NY(p)), w.z);
    FlatOfDigits(i, NX(p), NY(p));
  }
}
