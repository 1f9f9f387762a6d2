/** A whole launch, from the grid cut over GPUs down to single points: driver, grid builders and work-items together. */
module LaunchPoints {
  import opened Bags
  import opened MixedRadix
  import opened Grid
  import opened GridBuilders
  import opened Dispatch

  /** The items of group i. */
  function ItemsOf(p: Packet, i: nat): seq<Item>
    requires PacketOk(p) && i < Total(p)
  {
    SizesOf(p, i);
    Cuboid(Curr(p.gridX, p.wgX, DigitX(i, NX(p))), Curr(p.gridY, p.wgY, DigitY(i, NX(p), NY(p))),
           Curr(p.gridZ, p.wgZ, DigitZ(i, NX(p), NY(p))))
  }

  lemma SizesOf(p: Packet, i: nat)
    requires PacketOk(p) && i < Total(p)
    ensures DigitX(i, NX(p)) < NX(p) && DigitY(i, NX(p), NY(p)) < NY(p) && DigitZ(i, NX(p), NY(p)) < NZ(p)
    ensures Curr(p.gridX, p.wgX, DigitX(i, NX(p))) > 0 && Curr(p.gridY, p.wgY, DigitY(i, NX(p), NY(p))) > 0
    ensures Curr(p.gridZ, p.wgZ, DigitZ(i, NX(p), NY(p))) > 0
  {
    hide DigitX;
    hide DigitY;
    hide DigitZ;
    hide Groups;
    hide Curr;
    hide Volume;
    DigitZBound(i, NX(p), NY(p), NZ(p));
    GroupExists(p.gridX, p.wgX, DigitX(i, NX(p)));
    GroupExists(p.gridY, p.wgY, DigitY(i, NX(p), NY(p)));
    GroupExists(p.gridZ, p.wgZ, DigitZ(i, NX(p), NY(p)));
  }

  /** They are the items of the group that NextWG returns. */
  lemma FilledItems(wg: WorkGroup, p: Packet, i: nat)
    requires PacketOk(p) && i < Total(p) && Filled(wg, p, i)
    ensures wg.items == ItemsOf(p, i)
  {
    hide Cuboid;
    hide WavefrontsOf;
  }

  /** How often item w is in a box, as often as its place is below the volume. */
  lemma ItemsOnce(p: Packet, i: nat, w: Item)
    requires PacketOk(p) && i < Total(p)
    ensures multiset(ItemsOf(p, i))[w] == if HasItem(p, i, w) then 1 else 0
  {
    SizesOf(p, i);
    var cx, cy := Curr(p.gridX, p.wgX, DigitX(i, NX(p))), Curr(p.gridY, p.wgY, DigitY(i, NX(p), NY(p)));
    var cz := Curr(p.gridZ, p.wgZ, DigitZ(i, NX(p), NY(p)));
    assert ItemsOf(p, i) == Cuboid(cx, cy, cz);
    assert HasItem(p, i, w) <==> w.x < cx && w.y < cy && w.z < cz;
    hide *;
    BoxOnce(cx, cy, cz, w);
  }

  lemma BoxOnce(cx: nat, cy: nat, cz: nat, w: Item)
    requires cx > 0 && cy > 0
    ensures multiset(Cuboid(cx, cy, cz))[w] == if w.x < cx && w.y < cy && w.z < cz then 1 else 0
  {
    hide *;
    var items := Cuboid(cx, cy, cz);
    if w.x < cx && w.y < cy && w.z < cz {
      CuboidAt(cx, cy, cz, w.x, w.y, w.z);
      forall k | 0 <= k < |items| && items[k] == w ensures k == Flat(w.x, w.y, w.z, cx, cy) {
        FlatOfDigits(k, cx, cy);
      }
      OncePlace(items, w, Flat(w.x, w.y, w.z, cx, cy));
    } else {
      forall k | 0 <= k < |items| ensures items[k] != w {
        DigitZBound(k, cx, cy, cz);
      }
      NoPlace(items, w);
    }
  }

  lemma OncePlace<T>(s: seq<T>, x: T, i: nat)
    requires i < |s| && s[i] == x && forall k :: 0 <= k < |s| && s[k] == x ==> k == i
    ensures multiset(s)[x] == 1
  {
    assert s == s[..i] + [x] + s[i + 1..];
    NoPlace(s[..i], x);
    NoPlace(s[i + 1..], x);
  }

  lemma NoPlace<T>(s: seq<T>, x: T)
    requires forall k :: 0 <= k < |s| ==> s[k] != x
    ensures multiset(s)[x] == 0
  {
    assert x !in s;
  }

  /* ----- Points ----- */

  /** How many of the items stand for point pt of the grid. */
  function PointsIn(p: Packet, i: nat, items: seq<Item>, pt: Point): nat
    requires PacketOk(p) && i < Total(p)
  {
    if items == [] then 0
    else (if PointOf(p, i, items[0]) == pt then 1 else 0) + PointsIn(p, i, items[1..], pt)
  }

  /** How many items of group i do; beyond the grid there are none. */
  function PointsAt(p: Packet, i: nat, pt: Point): nat
    requires PacketOk(p)
  {
    if i < Total(p) then PointsIn(p, i, ItemsOf(p, i), pt) else 0
  }

  function PointsOf(p: Packet, groups: seq<nat>, pt: Point): nat
    requires PacketOk(p)
  {
    if groups == [] then 0 else PointsAt(p, groups[0], pt) + PointsOf(p, groups[1..], pt)
  }

  /** Items of a group that exist stand for a point exactly if they are its item. */
  lemma {:induction false} PointsAreItems(p: Packet, i: nat, items: seq<Item>, pt: Point)
    requires PacketOk(p) && i < Total(p) && forall w :: w in items ==> HasItem(p, i, w)
    ensures PointsIn(p, i, items, pt) ==
            if InGrid(p, pt) && GroupOf(p, pt) == i then multiset(items)[ItemOf(p, pt)] else 0
  {
    hide *;
    if items == [] {
      NoPoints(p, i, pt);
    } else {
      assert items[0] in items;
      MorePoints(p, i, items, pt);
      ItemHasPoint(p, i, items[0]);
      if InGrid(p, pt) {
        PointHasItem(p, pt);
      }
      PointsAreItems(p, i, items[1..], pt);
      assert items == [items[0]] + items[1..];
      assert multiset(items) == multiset{items[0]} + multiset(items[1..]);
    }
  }

  lemma NoPoints(p: Packet, i: nat, pt: Point)
    requires PacketOk(p) && i < Total(p)
    ensures PointsIn(p, i, [], pt) == 0
  {
  }

  lemma MorePoints(p: Packet, i: nat, items: seq<Item>, pt: Point)
    requires PacketOk(p) && i < Total(p) && items != []
    ensures PointsIn(p, i, items, pt) ==
            (if PointOf(p, i, items[0]) == pt then 1 else 0) + PointsIn(p, i, items[1..], pt)
  {
  }

  /** A group has exactly one item for each of its points. */
  lemma GroupPoints(p: Packet, i: nat, pt: Point)
    requires PacketOk(p)
    ensures PointsAt(p, i, pt) == if InGrid(p, pt) && GroupOf(p, pt) == i then 1 else 0
  {
    hide PointsIn;
    hide ItemsOf;
    hide Total;
    hide InGrid;
    hide GroupOf;
    hide ItemOf;
    hide HasItem;
    hide PacketOk;
    if InGrid(p, pt) {
      PointHasItem(p, pt);
    }
    if i < Total(p) {
      GroupItems(p, i, pt);
    }
  }

  lemma GroupItems(p: Packet, i: nat, pt: Point)
    requires PacketOk(p) && i < Total(p)
    ensures PointsIn(p, i, ItemsOf(p, i), pt) == if InGrid(p, pt) && GroupOf(p, pt) == i then 1 else 0
  {
    hide *;
    var items := ItemsOf(p, i);
    forall w | w in items ensures HasItem(p, i, w) {
      ItemsOnce(p, i, w);
    }
    PointsAreItems(p, i, items, pt);
    if InGrid(p, pt) && GroupOf(p, pt) == i {
      PointHasItem(p, pt);
      ItemsOnce(p, i, ItemOf(p, pt));
    }
  }

  /** Groups have as many items for a point as they contain its group. */
  lemma {:induction false} GroupsPoints(p: Packet, groups: seq<nat>, pt: Point)
    requires PacketOk(p)
    ensures PointsOf(p, groups, pt) == if InGrid(p, pt) then multiset(groups)[GroupOf(p, pt)] else 0
  {
    hide GroupOf;
    hide InGrid;
    hide PacketOk;
    hide Total;
    hide PointsAt;
    if groups != [] {
      GroupPoints(p, groups[0], pt);
      GroupsPoints(p, groups[1..], pt);
      assert groups == [groups[0]] + groups[1..];
      assert multiset(groups) == multiset{groups[0]} + multiset(groups[1..]);
    }
  }

  /* ----- The launch ----- */

  lemma {:induction false} WantedExist(p: Packet, f: Filter, i: nat)
    requires PacketOk(p)
    ensures forall j :: j in Wanted(p, f, i) ==> j < Total(p)
    decreases Total(p) - i
  {
    hide Total;
    hide Accepts;
    if i < Total(p) {
      WantedExist(p, f, i + 1);
    }
  }

  /** How many work-items the requests of a launch make for point pt, on all GPUs together. */
  function LaunchedPoints(p: Packet, reqs: seq<LaunchReq>, pt: Point): nat
    requires PacketOk(p)
  {
    if reqs == [] then 0
    else
      var groups := Wanted(p, reqs[|reqs| - 1].filter, 0);
      LaunchedPoints(p, reqs[..|reqs| - 1], pt) + PointsOf(p, groups, pt)
  }

  lemma {:induction false} LaunchedGroups(p: Packet, reqs: seq<LaunchReq>, pt: Point)
    requires PacketOk(p)
    ensures LaunchedPoints(p, reqs, pt) == if InGrid(p, pt) then Launched(p, reqs)[GroupOf(p, pt)] else 0
    decreases |reqs|
  {
    hide GroupOf;
    hide InGrid;
    hide PacketOk;
    hide Wanted;
    hide PointsOf;
    if reqs != [] {
      var f := reqs[|reqs| - 1].filter;
      GroupsPoints(p, Wanted(p, f, 0), pt);
      LaunchedGroups(p, reqs[..|reqs| - 1], pt);
    }
  }

  /** The first point of a group. */
  lemma FirstPoint(p: Packet, i: nat) returns (pt: Point)
    requires PacketOk(p) && i < Total(p)
    ensures InGrid(p, pt) && GroupOf(p, pt) == i
  {
    SizesOf(p, i);
    assert HasItem(p, i, Item(0, 0, 0));
    hide *;
    pt := PointOf(p, i, Item(0, 0, 0));
    ItemHasPoint(p, i, Item(0, 0, 0));
  }

  /** The work-items of the launch are exactly the points of the grid, each once. */
  ghost predicate CoversGrid(p: Packet, reqs: seq<LaunchReq>)
    requires PacketOk(p)
  {
    forall pt :: LaunchedPoints(p, reqs, pt) == if InGrid(p, pt) then 1 else 0
  }

  lemma CoversIffAllGroups(p: Packet, reqs: seq<LaunchReq>)
    requires PacketOk(p) && forall i :: i in Launched(p, reqs) ==> i < Total(p)
    ensures CoversGrid(p, reqs) <==> Launched(p, reqs) == Range(0, Total(p))
  {
    hide Launched;
    hide LaunchedPoints;
    hide Total;
    hide Range;
    hide GroupOf;
    hide InGrid;
    hide PacketOk;
    if CoversGrid(p, reqs) {
      forall i: nat ensures Launched(p, reqs)[i] == Range(0, Total(p))[i] {
        RangeCount(0, Total(p), i);
        if i < Total(p) {
          var pt := FirstPoint(p, i);
          LaunchedGroups(p, reqs, pt);
        }
      }
      assert Launched(p, reqs) == Range(0, Total(p));
    }
    if Launched(p, reqs) == Range(0, Total(p)) {
      forall pt ensures LaunchedPoints(p, reqs, pt) == if InGrid(p, pt) then 1 else 0 {
        LaunchedGroups(p, reqs, pt);
        if InGrid(p, pt) {
          PointHasItem(p, pt);
          RangeCount(0, Total(p), GroupOf(p, pt));
        }
      }
    }
  }

  lemma {:induction false} LaunchedExist(p: Packet, reqs: seq<LaunchReq>)
    requires PacketOk(p)
    ensures forall i :: i in Launched(p, reqs) ==> i < Total(p)
    decreases |reqs|
  {
    hide PacketOk;
    hide Wanted;
    hide Total;
    if reqs != [] {
      var f := reqs[|reqs| - 1].filter;
      WantedExist(p, f, 0);
      LaunchedExist(p, reqs[..|reqs| - 1]);
      forall i | i in Launched(p, reqs) ensures i < Total(p) {
        assert i in Launched(p, reqs[..|reqs| - 1]) || i in Wanted(p, f, 0);
      }
    }
  }

  /** A unified launch gives every point of the grid exactly one work-item, over all GPUs, work-groups and items, if
      and only if its groups can be counted in 32 bits. */
  method LaunchCoversGrid(cus: seq<nat>, p: Packet) returns (reqs: seq<LaunchReq>)
    requires PacketOk(p) && 0 < CUCount(cus) < U32 && p.gridX > 0 && p.gridY > 0 && p.gridZ > 0
    ensures CoversGrid(p, reqs) <==> Total(p) < U32
  {
    hide *;
    reqs := ProcessUnifiedLaunch(cus, p);
    LaunchedExist(p, reqs);
    CoversIffAllGroups(p, reqs);
  }
}
