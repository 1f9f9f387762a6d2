/** Wavefronts, execution masks and the identifiers in the vector registers: formWavefronts of
    mgpusim/kernels/gridbuilder.go against the lane loop of initWfRegs in mgpusim/emu/computeunit.go. */
module Wavefronts {
  import opened Arith
  import opened MixedRadix
  import opened Grid
  import opened GridBuilders

  lemma IdIsFlat(w: Item, sx: nat, sy: nat)
    ensures FlattenedID(w, sx, sy) == Flat(w.x, w.y, w.z, sx, sy)
  {
  }

  /* ----- Items are in the order of their identifiers ----- */

  ghost predicate Increasing(items: seq<Item>, sx: nat, sy: nat) {
    forall i, j :: 0 <= i < j < |items| ==> FlattenedID(items[i], sx, sy) < FlattenedID(items[j], sx, sy)
  }

  /** One item further in the box is a larger identifier. */
  lemma NextIsLarger(i: nat, cx: nat, cy: nat, sx: nat, sy: nat)
    requires 0 < cx <= sx && 0 < cy <= sy
    ensures Flat(DigitX(i, cx), DigitY(i, cx, cy), DigitZ(i, cx, cy), sx, sy) <
            Flat(DigitX(i + 1, cx), DigitY(i + 1, cx, cy), DigitZ(i + 1, cx, cy), sx, sy)
  {
    hide Flat;
    var x, y, z := DigitX(i, cx), DigitY(i, cx, cy), DigitZ(i, cx, cy);
    hide DigitX;
    hide DigitY;
    hide DigitZ;
    FlatOfDigits(i, cx, cy);
    Steps(x, y, z, cx, cy);
    Steps(x, y, z, sx, sy);
    if x + 1 < cx {
      DigitsOfFlat(x + 1, y, z, cx, cy);
    } else {
      FlatMono(x, y, z, sx, sx, sy);
      if y + 1 < cy {
        DigitsOfFlat(0, y + 1, z, cx, cy);
      } else {
        DigitsOfFlat(0, 0, z + 1, cx, cy);
        Steps(0, y, z, sx, sy);
        Steps(0, y, z, cx, cy);
        RowsMono(y + 1, sy, z, sx, sy);
      }
    }
  }

  lemma FlatMono(x: nat, y: nat, z: nat, x': nat, sx: nat, sy: nat)
    requires x < x'
    ensures Flat(x, y, z, sx, sy) < Flat(x', y, z, sx, sy)
  {
  }

  lemma RowsMono(y: nat, y': nat, z: nat, sx: nat, sy: nat)
    requires y <= y'
    ensures Flat(0, y, z, sx, sy) <= Flat(0, y', z, sx, sy)
  {
    MulMonotone(y, y', sx);
  }

  lemma {:induction false} LaterIsLarger(cx: nat, cy: nat, cz: nat, sx: nat, sy: nat, i: nat, j: nat)
    requires 0 < cx <= sx && 0 < cy <= sy && i < j < |Cuboid(cx, cy, cz)|
    ensures FlattenedID(Cuboid(cx, cy, cz)[i], sx, sy) < FlattenedID(Cuboid(cx, cy, cz)[j], sx, sy)
    decreases j
  {
    var items := Cuboid(cx, cy, cz);
    hide Cuboid;
    NextIsLarger(j - 1, cx, cy, sx, sy);
    IdIsFlat(items[j], sx, sy);
    IdIsFlat(items[j - 1], sx, sy);
    hide FlattenedID;
    hide Flat;
    hide DigitX;
    hide DigitY;
    hide DigitZ;
    if i < j - 1 {
      LaterIsLarger(cx, cy, cz, sx, sy, i, j - 1);
    }
  }

  lemma ItemsIncrease(cx: nat, cy: nat, cz: nat, sx: nat, sy: nat)
    requires 0 < cx <= sx && 0 < cy <= sy
    ensures Increasing(Cuboid(cx, cy, cz), sx, sy)
  {
    hide FlattenedID;
    hide Cuboid;
    var items := Cuboid(cx, cy, cz);
    forall i, j | 0 <= i < j < |items| ensures FlattenedID(items[i], sx, sy) < FlattenedID(items[j], sx, sy) {
      LaterIsLarger(cx, cy, cz, sx, sy, i, j);
    }
  }

  /** In a group that is full in x and y the identifiers are 0, 1, 2, ... */
  lemma FullGroupIds(sx: nat, sy: nat, cz: nat, i: nat)
    requires 0 < sx && 0 < sy && i < |Cuboid(sx, sy, cz)|
    ensures FlattenedID(Cuboid(sx, sy, cz)[i], sx, sy) == i
  {
    IdIsFlat(Cuboid(sx, sy, cz)[i], sx, sy);
    FlatOfDigits(i, sx, sy);
  }

  /* ----- When wavefronts are blocks of 64 ----- */

  /** The items of a wavefront fit its 64 lanes. */
  ghost predicate FitsLanes(wf: Wavefront, sx: nat, sy: nat) {
    forall w :: w in wf.items ==> wf.firstWiFlatID <= FlattenedID(w, sx, sy) < wf.firstWiFlatID + 64
  }

  /** Each occupied block of 64 identifiers has its first one. */
  ghost predicate BlocksStart(items: seq<Item>, sx: nat, sy: nat) {
    forall w :: w in items ==> exists v :: v in items && FlattenedID(v, sx, sy) == FlattenedID(w, sx, sy) / 64 * 64
  }

  /** Wavefront k, read off the items. */
  lemma Facts(wfs: seq<Wavefront>, items: seq<Item>, sx: nat, sy: nat, k: nat)
    requires WavefrontsOf(wfs, items, sx, sy) && k < |wfs|
    ensures var s, n := Start(wfs, k), |wfs[k].items|;
            && n > 0 && s + n <= |items| && Start(wfs, k + 1) == s + n && (k + 1 == |wfs| ==> s + n == |items|)
            && wfs[k].items == items[s..s + n]
            && wfs[k].firstWiFlatID == FlattenedID(items[s], sx, sy) && FlattenedID(items[s], sx, sy) % 64 == 0
  {
    hide *;
    Spans(wfs, items, sx, sy, k);
    ItsSlice(wfs, items, sx, sy, k);
  }

  lemma Spans(wfs: seq<Wavefront>, items: seq<Item>, sx: nat, sy: nat, k: nat)
    requires WavefrontsOf(wfs, items, sx, sy) && k < |wfs|
    ensures Start(wfs, k + 1) == Start(wfs, k) + |wfs[k].items| && (k + 1 == |wfs| ==> Start(wfs, k + 1) == |items|)
  {
    hide WavefrontOk;
    hide Slice;
  }

  lemma ItsSlice(wfs: seq<Wavefront>, items: seq<Item>, sx: nat, sy: nat, k: nat)
    requires WavefrontsOf(wfs, items, sx, sy) && k < |wfs|
    ensures var s, n := Start(wfs, k), |wfs[k].items|;
            && n > 0 && s + n <= |items| && wfs[k].items == items[s..s + n]
            && wfs[k].firstWiFlatID == FlattenedID(items[s], sx, sy) && FlattenedID(items[s], sx, sy) % 64 == 0
  {
    hide FlattenedID;
    hide MaskOk;
    hide Start;
    assert WavefrontOk(wfs[k], sx, sy) && Slice(wfs, items, k);
    assert wfs[k].items[0] == items[Start(wfs, k)];
  }

  lemma ItemAt(wfs: seq<Wavefront>, items: seq<Item>, sx: nat, sy: nat, k: nat, j: nat)
    requires WavefrontsOf(wfs, items, sx, sy) && k < |wfs| && Start(wfs, k) <= j < Start(wfs, k) + |wfs[k].items|
    ensures j < |items| && wfs[k].items[j - Start(wfs, k)] == items[j]
    ensures j > Start(wfs, k) ==> FlattenedID(items[j], sx, sy) % 64 != 0
  {
    hide *;
    OkAndSlice(wfs, items, sx, sy, k);
    InSlice(wfs, items, k, j);
    NotFirst(wfs[k], sx, sy, j - Start(wfs, k));
  }

  lemma OkAndSlice(wfs: seq<Wavefront>, items: seq<Item>, sx: nat, sy: nat, k: nat)
    requires WavefrontsOf(wfs, items, sx, sy) && k < |wfs|
    ensures WavefrontOk(wfs[k], sx, sy) && Slice(wfs, items, k)
  {
    hide WavefrontOk;
    hide Slice;
    hide Start;
  }

  lemma InSlice(wfs: seq<Wavefront>, items: seq<Item>, k: nat, j: nat)
    requires k < |wfs| && Slice(wfs, items, k) && Start(wfs, k) <= j < Start(wfs, k) + |wfs[k].items|
    ensures j < |items| && wfs[k].items[j - Start(wfs, k)] == items[j]
  {
    hide Start;
  }

  lemma NotFirst(wf: Wavefront, sx: nat, sy: nat, j: nat)
    requires WavefrontOk(wf, sx, sy) && j < |wf.items|
    ensures j > 0 ==> FlattenedID(wf.items[j], sx, sy) % 64 != 0
  {
    hide FlattenedID;
    hide MaskOk;
  }

  lemma MaskIs(wfs: seq<Wavefront>, items: seq<Item>, sx: nat, sy: nat, k: nat)
    requires WavefrontsOf(wfs, items, sx, sy) && k < |wfs|
    ensures MaskOk(wfs[k].mask, wfs[k].items, sx, sy)
  {
    hide FlattenedID;
    hide MaskOk;
    hide Start;
    hide Slice;
    assert WavefrontOk(wfs[k], sx, sy);
  }

  /** Which wavefront item i is in. */
  lemma {:induction false} WavefrontWith(wfs: seq<Wavefront>, i: nat, n: nat) returns (k: nat)
    requires n <= |wfs| && i < Start(wfs, n)
    ensures k < n && Start(wfs, k) <= i < Start(wfs, k) + |wfs[k].items|
    decreases n
  {
    if i >= Start(wfs, n - 1) {
      k := n - 1;
    } else {
      k := WavefrontWith(wfs, i, n - 1);
    }
  }

  lemma AllItems(wfs: seq<Wavefront>, items: seq<Item>, sx: nat, sy: nat)
    requires WavefrontsOf(wfs, items, sx, sy)
    ensures Start(wfs, |wfs|) == |items|
  {
  }

  lemma InOrder(items: seq<Item>, sx: nat, sy: nat, a: nat, b: nat)
    requires Increasing(items, sx, sy) && a <= b < |items|
    ensures FlattenedID(items[a], sx, sy) <= FlattenedID(items[b], sx, sy)
            && (a < b ==> FlattenedID(items[a], sx, sy) < FlattenedID(items[b], sx, sy))
  {
    hide FlattenedID;
  }

  lemma PlaceBetween(items: seq<Item>, sx: nat, sy: nat, a: nat, i: nat, b: nat)
    requires Increasing(items, sx, sy) && a < |items| && i < |items| && b < |items|
    requires FlattenedID(items[a], sx, sy) < FlattenedID(items[i], sx, sy) <= FlattenedID(items[b], sx, sy)
    ensures a < i <= b
  {
    hide *;
    if i <= a {
      InOrder(items, sx, sy, i, a);
    }
    if b < i {
      InOrder(items, sx, sy, b, i);
    }
  }

  /** Within a wavefront no identifier is the first one of a later block. */
  lemma NoLaterBlock(wfs: seq<Wavefront>, items: seq<Item>, sx: nat, sy: nat, k: nat, i: nat, j: nat)
    requires WavefrontsOf(wfs, items, sx, sy) && Increasing(items, sx, sy) && k < |wfs| && i < |items|
    requires Start(wfs, k) <= j < Start(wfs, k) + |wfs[k].items| && j < |items|
    requires wfs[k].firstWiFlatID < FlattenedID(items[i], sx, sy) <= FlattenedID(items[j], sx, sy)
    ensures FlattenedID(items[i], sx, sy) % 64 != 0
  {
    hide *;
    Facts(wfs, items, sx, sy, k);
    PlaceBetween(items, sx, sy, Start(wfs, k), i, j);
    ItemAt(wfs, items, sx, sy, k, i);
  }

  /** The item at place j fits the lanes of its wavefront. */
  ghost predicate FitsAt(wfs: seq<Wavefront>, items: seq<Item>, sx: nat, sy: nat, k: nat, j: nat)
    requires k < |wfs| && j < |items|
  {
    wfs[k].firstWiFlatID <= FlattenedID(items[j], sx, sy) < wfs[k].firstWiFlatID + 64
  }

  lemma FitsByPlace(wfs: seq<Wavefront>, items: seq<Item>, sx: nat, sy: nat, k: nat)
    requires WavefrontsOf(wfs, items, sx, sy) && k < |wfs|
    ensures Start(wfs, k) + |wfs[k].items| <= |items|
    ensures FitsLanes(wfs[k], sx, sy) <==>
            forall j :: Start(wfs, k) <= j < Start(wfs, k) + |wfs[k].items| ==> FitsAt(wfs, items, sx, sy, k, j)
  {
    hide FlattenedID;
    hide Start;
    hide WavefrontsOf;
    Facts(wfs, items, sx, sy, k);
    var s, n := Start(wfs, k), |wfs[k].items|;
    if FitsLanes(wfs[k], sx, sy) {
      forall j | s <= j < s + n ensures FitsAt(wfs, items, sx, sy, k, j) {
        assert items[s..s + n][j - s] == items[j];
      }
    }
    if forall j :: s <= j < s + n ==> FitsAt(wfs, items, sx, sy, k, j) {
      forall w | w in wfs[k].items ensures wfs[k].firstWiFlatID <= FlattenedID(w, sx, sy) < wfs[k].firstWiFlatID + 64 {
        var j :| 0 <= j < n && wfs[k].items[j] == w;
        assert FitsAt(wfs, items, sx, sy, k, s + j);
      }
    }
  }

  /** The same by place: some item is the first of the block of item j. */
  ghost predicate HasBlock(items: seq<Item>, sx: nat, sy: nat, j: nat)
    requires j < |items|
  {
    exists i :: 0 <= i < |items| && FlattenedID(items[i], sx, sy) == FlattenedID(items[j], sx, sy) / 64 * 64
  }

  lemma BlocksByPlace(items: seq<Item>, sx: nat, sy: nat)
    ensures BlocksStart(items, sx, sy) <==> forall j :: 0 <= j < |items| ==> HasBlock(items, sx, sy, j)
  {
    hide FlattenedID;
    if BlocksStart(items, sx, sy) {
      forall j | 0 <= j < |items| ensures HasBlock(items, sx, sy, j) {
        assert items[j] in items;
        var v :| v in items && FlattenedID(v, sx, sy) == FlattenedID(items[j], sx, sy) / 64 * 64;
        var i :| 0 <= i < |items| && items[i] == v;
        HasBlockAt(items, sx, sy, i, j);
      }
    }
    if forall j :: 0 <= j < |items| ==> HasBlock(items, sx, sy, j) {
      forall w | w in items
        ensures exists v :: v in items && FlattenedID(v, sx, sy) == FlattenedID(w, sx, sy) / 64 * 64
      {
        var j :| 0 <= j < |items| && items[j] == w;
        assert HasBlock(items, sx, sy, j);
        var i :| 0 <= i < |items| && FlattenedID(items[i], sx, sy) == FlattenedID(items[j], sx, sy) / 64 * 64;
        assert items[i] in items;
      }
    }
  }

  lemma HasBlockAt(items: seq<Item>, sx: nat, sy: nat, i: nat, j: nat)
    requires i < |items| && j < |items| && FlattenedID(items[i], sx, sy) == FlattenedID(items[j], sx, sy) / 64 * 64
    ensures HasBlock(items, sx, sy, j)
  {
  }

  /** An item that has the first of its block fits, and the other way around. */
  lemma FitsIffBlock(wfs: seq<Wavefront>, items: seq<Item>, sx: nat, sy: nat, k: nat, j: nat)
    requires WavefrontsOf(wfs, items, sx, sy) && Increasing(items, sx, sy) && k < |wfs|
    requires Start(wfs, k) <= j < Start(wfs, k) + |wfs[k].items| && j < |items|
    ensures FitsAt(wfs, items, sx, sy, k, j) <==> HasBlock(items, sx, sy, j)
  {
    hide FlattenedID;
    hide Start;
    hide WavefrontsOf;
    hide Increasing;
    Facts(wfs, items, sx, sy, k);
    InOrder(items, sx, sy, Start(wfs, k), j);
    if FitsAt(wfs, items, sx, sy, k, j) {
      HasBlockAt(items, sx, sy, Start(wfs, k), j);
    } else if HasBlock(items, sx, sy, j) {
      LateHasNoBlock(wfs, items, sx, sy, k, j);
    }
  }

  lemma LateHasNoBlock(wfs: seq<Wavefront>, items: seq<Item>, sx: nat, sy: nat, k: nat, j: nat)
    requires WavefrontsOf(wfs, items, sx, sy) && Increasing(items, sx, sy) && k < |wfs|
    requires Start(wfs, k) <= j < Start(wfs, k) + |wfs[k].items| && j < |items|
    requires FlattenedID(items[j], sx, sy) >= wfs[k].firstWiFlatID + 64 && wfs[k].firstWiFlatID % 64 == 0
    ensures !HasBlock(items, sx, sy, j)
  {
    hide FlattenedID;
    hide Start;
    hide WavefrontsOf;
    hide Increasing;
    forall i | 0 <= i < |items| ensures FlattenedID(items[i], sx, sy) != FlattenedID(items[j], sx, sy) / 64 * 64 {
      if wfs[k].firstWiFlatID < FlattenedID(items[i], sx, sy) <= FlattenedID(items[j], sx, sy) {
        NoLaterBlock(wfs, items, sx, sy, k, i, j);
      }
    }
  }

  /** Every wavefront fits its lanes if and only if each occupied block of 64 identifiers has its first one. */
  lemma FitIffBlocksStart(wfs: seq<Wavefront>, items: seq<Item>, sx: nat, sy: nat)
    requires WavefrontsOf(wfs, items, sx, sy) && Increasing(items, sx, sy)
    ensures (forall k :: 0 <= k < |wfs| ==> FitsLanes(wfs[k], sx, sy)) <==> BlocksStart(items, sx, sy)
  {
    hide *;
    BlocksByPlace(items, sx, sy);
    if forall k :: 0 <= k < |wfs| ==> FitsLanes(wfs[k], sx, sy) {
      AllItems(wfs, items, sx, sy);
      forall j | 0 <= j < |items| ensures HasBlock(items, sx, sy, j) {
        var k := WavefrontWith(wfs, j, |wfs|);
        FitsByPlace(wfs, items, sx, sy, k);
        FitsIffBlock(wfs, items, sx, sy, k, j);
      }
    }
    if BlocksStart(items, sx, sy) {
      forall k | 0 <= k < |wfs| ensures FitsLanes(wfs[k], sx, sy) {
        BlocksFit(wfs, items, sx, sy, k);
      }
    }
  }

  lemma BlocksFit(wfs: seq<Wavefront>, items: seq<Item>, sx: nat, sy: nat, k: nat)
    requires WavefrontsOf(wfs, items, sx, sy) && Increasing(items, sx, sy) && BlocksStart(items, sx, sy) && k < |wfs|
    ensures FitsLanes(wfs[k], sx, sy)
  {
    hide *;
    BlocksByPlace(items, sx, sy);
    FitsByPlace(wfs, items, sx, sy, k);
    forall j | Start(wfs, k) <= j < Start(wfs, k) + |wfs[k].items| ensures FitsAt(wfs, items, sx, sy, k, j) {
      FitsIffBlock(wfs, items, sx, sy, k, j);
    }
  }

  /** Identifier first + l of the group, if it exists, is in wavefront k. */
  lemma BlockMember(wfs: seq<Wavefront>, items: seq<Item>, sx: nat, sy: nat, k: nat, i: nat)
    requires WavefrontsOf(wfs, items, sx, sy) && Increasing(items, sx, sy) && BlocksStart(items, sx, sy) && k < |wfs|
    requires i < |items| && wfs[k].firstWiFlatID <= FlattenedID(items[i], sx, sy) < wfs[k].firstWiFlatID + 64
    ensures Start(wfs, k) <= i < Start(wfs, k) + |wfs[k].items|
  {
    hide *;
    AllItems(wfs, items, sx, sy);
    var m := WavefrontWith(wfs, i, |wfs|);
    BlocksFit(wfs, items, sx, sy, m);
    FitsAtPlace(wfs, items, sx, sy, m, i);
    Facts(wfs, items, sx, sy, k);
    Facts(wfs, items, sx, sy, m);
    assert wfs[m].firstWiFlatID == wfs[k].firstWiFlatID;
    if Start(wfs, k) < Start(wfs, m) {
      InOrder(items, sx, sy, Start(wfs, k), Start(wfs, m));
    } else if Start(wfs, m) < Start(wfs, k) {
      InOrder(items, sx, sy, Start(wfs, m), Start(wfs, k));
    } else {
      SameStart(wfs, items, sx, sy, k, m);
    }
  }

  lemma FitsAtPlace(wfs: seq<Wavefront>, items: seq<Item>, sx: nat, sy: nat, k: nat, j: nat)
    requires WavefrontsOf(wfs, items, sx, sy) && k < |wfs| && FitsLanes(wfs[k], sx, sy)
    requires Start(wfs, k) <= j < Start(wfs, k) + |wfs[k].items|
    ensures j < |items| && wfs[k].firstWiFlatID <= FlattenedID(items[j], sx, sy) < wfs[k].firstWiFlatID + 64
  {
    hide FlattenedID;
    hide Start;
    hide WavefrontsOf;
    ItemAt(wfs, items, sx, sy, k, j);
    assert items[j] in wfs[k].items;
  }

  lemma {:induction false} StartStrict(wfs: seq<Wavefront>, items: seq<Item>, sx: nat, sy: nat, j: nat, k: nat)
    requires WavefrontsOf(wfs, items, sx, sy) && j < k <= |wfs|
    ensures Start(wfs, j) < Start(wfs, k)
    decreases k
  {
    hide *;
    Facts(wfs, items, sx, sy, k - 1);
    if j < k - 1 {
      StartStrict(wfs, items, sx, sy, j, k - 1);
    }
  }

  lemma SameStart(wfs: seq<Wavefront>, items: seq<Item>, sx: nat, sy: nat, k: nat, m: nat)
    requires WavefrontsOf(wfs, items, sx, sy) && k < |wfs| && m < |wfs| && Start(wfs, k) == Start(wfs, m)
    ensures k == m
  {
    hide *;
    if k < m {
      StartStrict(wfs, items, sx, sy, k, m);
    } else if m < k {
      StartStrict(wfs, items, sx, sy, m, k);
    }
  }

  /** Identifier id is in the group. */
  ghost predicate HasId(items: seq<Item>, sx: nat, sy: nat, id: nat) {
    exists w :: w in items && FlattenedID(w, sx, sy) == id
  }

  /** A wavefront that fits has lane l on exactly when it has identifier first + l. */
  lemma LaneOfMember(wf: Wavefront, sx: nat, sy: nat, l: nat)
    requires MaskOk(wf.mask, wf.items, sx, sy) && FitsLanes(wf, sx, sy) && wf.firstWiFlatID % 64 == 0 && l < 64
    ensures |wf.mask| == 64 && (wf.mask[l] <==> HasId(wf.items, sx, sy, wf.firstWiFlatID + l))
  {
    hide FlattenedID;
    forall w | w in wf.items
      ensures FlattenedID(w, sx, sy) % 64 == l <==> FlattenedID(w, sx, sy) == wf.firstWiFlatID + l
    {
      assert wf.firstWiFlatID <= FlattenedID(w, sx, sy) < wf.firstWiFlatID + 64;
      LaneOfId(wf.firstWiFlatID, FlattenedID(w, sx, sy), l);
    }
    hide FitsLanes;
    if w :| w in wf.items && FlattenedID(w, sx, sy) % 64 == l {
      assert FlattenedID(w, sx, sy) == wf.firstWiFlatID + l;
    }
  }

  lemma LaneOfId(first: nat, id: nat, l: nat)
    requires first % 64 == 0 && first <= id < first + 64 && l < 64
    ensures id % 64 == l <==> id == first + l
  {
  }

  /** It has identifier first + l exactly when the group has it. */
  lemma MemberOfGroup(wfs: seq<Wavefront>, items: seq<Item>, sx: nat, sy: nat, k: nat, l: nat)
    requires WavefrontsOf(wfs, items, sx, sy) && Increasing(items, sx, sy) && BlocksStart(items, sx, sy) && k < |wfs|
            && l < 64
    ensures HasId(wfs[k].items, sx, sy, wfs[k].firstWiFlatID + l) <==> HasId(items, sx, sy, wfs[k].firstWiFlatID + l)
  {
    hide FlattenedID;
    hide Start;
    hide WavefrontsOf;
    hide BlocksStart;
    hide Increasing;
    Facts(wfs, items, sx, sy, k);
    var id := wfs[k].firstWiFlatID + l;
    if w :| w in items && FlattenedID(w, sx, sy) == id {
      var i :| 0 <= i < |items| && items[i] == w;
      BlockMember(wfs, items, sx, sy, k, i);
      ItemAt(wfs, items, sx, sy, k, i);
      assert w in wfs[k].items;
    }
  }

  /** Lane l of a wavefront is on exactly when identifier first + l exists in the group. */
  lemma LanesAreItems(wfs: seq<Wavefront>, items: seq<Item>, sx: nat, sy: nat, k: nat, l: nat)
    requires WavefrontsOf(wfs, items, sx, sy) && Increasing(items, sx, sy) && BlocksStart(items, sx, sy) && k < |wfs|
            && l < 64
    ensures |wfs[k].mask| == 64 && (wfs[k].mask[l] <==> HasId(items, sx, sy, wfs[k].firstWiFlatID + l))
  {
    hide *;
    Facts(wfs, items, sx, sy, k);
    MaskIs(wfs, items, sx, sy, k);
    BlocksFit(wfs, items, sx, sy, k);
    LaneOfMember(wfs[k], sx, sy, l);
    MemberOfGroup(wfs, items, sx, sy, k, l);
  }

  /* ----- Groups that are full in x and y ----- */

  /** They satisfy the condition, whatever their size in z. */
  lemma FullGroupsBlocksStart(sx: nat, sy: nat, cz: nat)
    requires 0 < sx && 0 < sy
    ensures BlocksStart(Cuboid(sx, sy, cz), sx, sy)
  {
    hide *;
    var items := Cuboid(sx, sy, cz);
    BlocksByPlace(items, sx, sy);
    forall j | 0 <= j < |items| ensures HasBlock(items, sx, sy, j) {
      FullGroupIds(sx, sy, cz, j);
      FullGroupIds(sx, sy, cz, j / 64 * 64);
      HasBlockAt(items, sx, sy, j / 64 * 64, j);
    }
  }

  /** Where a wavefront starts in the items is where its identifiers start; it ends at the next multiple of 64. */
  lemma FullGroupSpan(wfs: seq<Wavefront>, sx: nat, sy: nat, cz: nat, k: nat)
    requires 0 < sx && 0 < sy && WavefrontsOf(wfs, Cuboid(sx, sy, cz), sx, sy) && k < |wfs|
    ensures var n, s := |Cuboid(sx, sy, cz)|, Start(wfs, k);
            && wfs[k].firstWiFlatID == s < n && s % 64 == 0
            && |wfs[k].items| == (if s + 64 < n then 64 else n - s)
            && Start(wfs, k + 1) == s + |wfs[k].items|
  {
    hide *;
    var items, s := Cuboid(sx, sy, cz), Start(wfs, k);
    Facts(wfs, items, sx, sy, k);
    var e := s + |wfs[k].items|;
    FullGroupIds(sx, sy, cz, s);
    if k + 1 < |wfs| {
      Facts(wfs, items, sx, sy, k + 1);
      FullGroupIds(sx, sy, cz, e);
    }
    if s + 64 < e {
      FullGroupIds(sx, sy, cz, s + 64);
      ItemAt(wfs, items, sx, sy, k, s + 64);
    }
  }

  lemma {:induction false} FullGroupStart(wfs: seq<Wavefront>, sx: nat, sy: nat, cz: nat, k: nat)
    requires 0 < sx && 0 < sy && WavefrontsOf(wfs, Cuboid(sx, sy, cz), sx, sy) && k < |wfs|
    ensures 64 * k == Start(wfs, k)
    decreases k
  {
    hide *;
    if k > 0 {
      FullGroupStart(wfs, sx, sy, cz, k - 1);
      FullGroupNext(wfs, sx, sy, cz, k - 1);
    } else {
      StartOfFirst(wfs);
    }
  }

  lemma StartOfFirst(wfs: seq<Wavefront>)
    ensures Start(wfs, 0) == 0
  {
  }

  lemma FullGroupNext(wfs: seq<Wavefront>, sx: nat, sy: nat, cz: nat, k: nat)
    requires 0 < sx && 0 < sy && WavefrontsOf(wfs, Cuboid(sx, sy, cz), sx, sy) && k + 1 < |wfs|
    ensures Start(wfs, k + 1) == Start(wfs, k) + 64
  {
    hide *;
    FullGroupSpan(wfs, sx, sy, cz, k);
    FullGroupSpan(wfs, sx, sy, cz, k + 1);
    NextBlock(Start(wfs, k), |wfs[k].items|, |Cuboid(sx, sy, cz)|);
  }

  /** A block that is followed by another is full. */
  lemma NextBlock(s: nat, len: nat, n: nat)
    requires len == (if s + 64 < n then 64 else n - s) && s + len < n
    ensures len == 64
  {
  }

  /** Wavefront k starts at 64k, holds exactly the identifiers from 64k to 64k + 63 that exist, and its mask has exactly
      their lanes. */
  lemma FullGroupWavefronts(wfs: seq<Wavefront>, sx: nat, sy: nat, cz: nat, k: nat)
    requires 0 < sx && 0 < sy && WavefrontsOf(wfs, Cuboid(sx, sy, cz), sx, sy) && k < |wfs|
    ensures wfs[k].firstWiFlatID == 64 * k < |Cuboid(sx, sy, cz)|
    ensures var n := |Cuboid(sx, sy, cz)|;
            && wfs[k].items == Cuboid(sx, sy, cz)[64 * k..if 64 * k + 64 < n then 64 * k + 64 else n]
            && |wfs[k].mask| == 64 && (forall l :: 0 <= l < 64 ==> (wfs[k].mask[l] <==> 64 * k + l < n))
  {
    hide *;
    var items := Cuboid(sx, sy, cz);
    FullGroupStart(wfs, sx, sy, cz, k);
    FullGroupSpan(wfs, sx, sy, cz, k);
    Facts(wfs, items, sx, sy, k);
    ItemsIncrease(sx, sy, cz, sx, sy);
    FullGroupsBlocksStart(sx, sy, cz);
    LanesAreItems(wfs, items, sx, sy, k, 0);
    forall l | 0 <= l < 64 ensures wfs[k].mask[l] <==> 64 * k + l < |items| {
      LanesAreItems(wfs, items, sx, sy, k, l);
      FullGroupLane(sx, sy, cz, 64 * k + l);
    }
  }

  lemma FullGroupLane(sx: nat, sy: nat, cz: nat, id: nat)
    requires 0 < sx && 0 < sy
    ensures HasId(Cuboid(sx, sy, cz), sx, sy, id) <==> id < |Cuboid(sx, sy, cz)|
  {
    hide FlattenedID;
    hide Cuboid;
    var items := Cuboid(sx, sy, cz);
    if id < |items| {
      FullGroupIds(sx, sy, cz, id);
      assert items[id] in items;
    }
    if w :| w in items && FlattenedID(w, sx, sy) == id {
      var i :| 0 <= i < |items| && items[i] == w;
      FullGroupIds(sx, sy, cz, i);
    }
  }

  /* ----- Identifiers in the vector registers ----- */

  /** The divisions of initWfRegs. */
  function LaneX(i: nat, sx: nat, sy: nat): nat
    requires sx > 0 && sy > 0
  {
    i % (sx * sy) % sx
  }

  function LaneY(i: nat, sx: nat, sy: nat): nat
    requires sx > 0 && sy > 0
  {
    i % (sx * sy) / sx
  }

  function LaneZ(i: nat, sx: nat, sy: nat): nat
    requires sx > 0 && sy > 0
  {
    i / (sx * sy)
  }

  /** They undo FlattenedID for every item of the group's nominal size. */
  lemma LanesInvertFlat(w: Item, sx: nat, sy: nat)
    requires w.x < sx && w.y < sy
    ensures var i := FlattenedID(w, sx, sy);
            LaneX(i, sx, sy) == w.x && LaneY(i, sx, sy) == w.y && LaneZ(i, sx, sy) == w.z
  {
    var r := w.y * sx + w.x;
    RowBound(w.x, w.y, sx, sy);
    assert w.z * sx * sy == w.z * (sx * sy);
    LanesOf(FlattenedID(w, sx, sy), w.z, r, sx, sy);
    DivModUnique(r, sx, w.y, w.x);
  }

  lemma RowBound(x: nat, y: nat, sx: nat, sy: nat)
    requires x < sx && y < sy
    ensures y * sx + x < sx * sy
  {
    MulMonotone(y + 1, sy, sx);
    assert (y + 1) * sx == y * sx + sx;
  }

  lemma LanesOf(i: nat, z: nat, r: nat, sx: nat, sy: nat)
    requires sx > 0 && sy > 0 && r < sx * sy && i == z * (sx * sy) + r
    ensures LaneX(i, sx, sy) == r % sx && LaneY(i, sx, sy) == r / sx && LaneZ(i, sx, sy) == z
  {
    DivModUnique(i, sx * sy, z, r);
  }

  /** Different identifiers have different digits. */
  lemma LanesDetermine(i: nat, sx: nat, sy: nat)
    requires sx > 0 && sy > 0
    ensures LaneX(i, sx, sy) < sx && LaneY(i, sx, sy) < sy
    ensures FlattenedID(Item(LaneX(i, sx, sy), LaneY(i, sx, sy), LaneZ(i, sx, sy)), sx, sy) == i
  {
    var z, r := i / (sx * sy), i % (sx * sy);
    assert i == z * (sx * sy) + r;
    var y, x := r / sx, r % sx;
    assert r == y * sx + x;
    if y >= sy {
      MulMonotone(sy, y, sx);
    }
  }

  /** What initWfRegs leaves in three registers when all are enabled. */
  ghost predicate AllWritten(first: nat, sx: nat, sy: nat, v0: seq<nat>, v1: seq<nat>, v2: seq<nat>)
    requires sx > 0 && sy > 0
  {
    |v0| == |v1| == |v2| == 64 &&
    forall l :: 0 <= l < 64 ==>
      && v0[l] == LaneX(first + l, sx, sy) % U32 && v1[l] == LaneY(first + l, sx, sy) % U32
      && v2[l] == LaneZ(first + l, sx, sy) % U32
  }

  /** The lane loop. `mode` is EnableVgprWorkItemID; the registers hold 32 bits per lane. */
  method InitWfRegs(first: nat, sx: nat, sy: nat, mode: nat, v0: array<nat>, v1: array<nat>, v2: array<nat>)
    requires sx > 0 && sy > 0 && v0.Length == v1.Length == v2.Length == 64 && v0 != v1 && v0 != v2 && v1 != v2
    modifies v0, v1, v2
    ensures forall l :: 0 <= l < 64 ==> v0[l] == LaneX(first + l, sx, sy) % U32
    ensures forall l :: 0 <= l < 64 ==> v1[l] == if mode > 0 then LaneY(first + l, sx, sy) % U32 else old(v1[l])
    ensures forall l :: 0 <= l < 64 ==> v2[l] == if mode > 1 then LaneZ(first + l, sx, sy) % U32 else old(v2[l])
    ensures mode > 1 ==> AllWritten(first, sx, sy, v0[..], v1[..], v2[..])
  {
    hide LaneX;
    hide LaneY;
    hide LaneZ;
    var i := first;
    while i < first + 64
      invariant first <= i <= first + 64
      invariant forall l :: 0 <= l < i - first ==> v0[l] == LaneX(first + l, sx, sy) % U32
      invariant forall l :: 0 <= l < i - first ==>
              v1[l] == if mode > 0 then LaneY(first + l, sx, sy) % U32 else old(v1[l])
      invariant forall l :: 0 <= l < i - first ==>
              v2[l] == if mode > 1 then LaneZ(first + l, sx, sy) % U32 else old(v2[l])
      invariant forall l :: i - first <= l < 64 ==> v1[l] == old(v1[l]) && v2[l] == old(v2[l])
    {
      var z := LaneZ(i, sx, sy);
      var y := LaneY(i, sx, sy);
      var x := LaneX(i, sx, sy);
      var laneID := i - first;
      v0[laneID] := x % U32;
      if mode > 0 {
        v1[laneID] := y % U32;
      }
      if mode > 1 {
        v2[laneID] := z % U32;
      }
      i := i + 1;
    }
  }

  /** With all three registers enabled, the lane the mask turns on for an item holds its identifiers if and only if the
      item lies within 64 of the wavefront's first one. */
  lemma LaneHoldsItemIffItFits(wf: Wavefront, w: Item, sx: nat, sy: nat)
    requires 0 < sx < U32 && 0 < sy < U32 && WavefrontOk(wf, sx, sy) && w in wf.items && w.x < sx && w.y < sy
            && w.z < U32
    requires FlattenedID(w, sx, sy) >= wf.firstWiFlatID
    ensures var l := FlattenedID(w, sx, sy) % 64; var i := wf.firstWiFlatID + l;
            && l < |wf.mask| && wf.mask[l]
            && (Holds(i, w, sx, sy) <==> FlattenedID(w, sx, sy) < wf.firstWiFlatID + 64)
  {
    hide *;
    var id := FlattenedID(w, sx, sy);
    var i := wf.firstWiFlatID + id % 64;
    MaskOf(wf, w, sx, sy);
    HoldsOnlyItself(i, w, sx, sy);
  }

  lemma MaskOf(wf: Wavefront, w: Item, sx: nat, sy: nat)
    requires WavefrontOk(wf, sx, sy) && w in wf.items
    ensures FlattenedID(w, sx, sy) % 64 < |wf.mask| && wf.mask[FlattenedID(w, sx, sy) % 64]
            && wf.firstWiFlatID % 64 == 0
  {
    hide FlattenedID;
  }

  /** The registers of the lane that stands for identifier i hold the identifiers of item w. */
  predicate Holds(i: nat, w: Item, sx: nat, sy: nat)
    requires sx > 0 && sy > 0
  {
    LaneX(i, sx, sy) % 0x1_0000_0000 == w.x && LaneY(i, sx, sy) % 0x1_0000_0000 == w.y
        && LaneZ(i, sx, sy) % 0x1_0000_0000 == w.z
  }

  lemma HoldsOnlyItself(i: nat, w: Item, sx: nat, sy: nat)
    requires 0 < sx < U32 && 0 < sy < U32 && w.x < sx && w.y < sy && w.z < U32 && i <= FlattenedID(w, sx, sy)
    ensures Holds(i, w, sx, sy) <==> i == FlattenedID(w, sx, sy)
  {
    hide *;
    LanesInvertFlat(w, sx, sy);
    LanesDetermine(i, sx, sy);
    LaneZMonotone(i, FlattenedID(w, sx, sy), sx, sy);
    HoldsPlainly(i, w, sx, sy);
  }

  /** For identifiers that fit 32 bits the registers hold them unchanged. */
  lemma HoldsPlainly(i: nat, w: Item, sx: nat, sy: nat)
    requires 0 < sx < U32 && 0 < sy < U32 && LaneX(i, sx, sy) < sx && LaneY(i, sx, sy) < sy && LaneZ(i, sx, sy) < U32
    ensures Holds(i, w, sx, sy) <==> Item(LaneX(i, sx, sy), LaneY(i, sx, sy), LaneZ(i, sx, sy)) == w
  {
    hide LaneX;
    hide LaneY;
    hide LaneZ;
  }

  lemma LaneZMonotone(i: nat, j: nat, sx: nat, sy: nat)
    requires sx > 0 && sy > 0 && i <= j
    ensures LaneZ(i, sx, sy) <= LaneZ(j, sx, sy)
  {
    DivMonotone(i, j, sx * sy);
  }

  lemma DivMonotone(i: nat, j: nat, n: nat)
    requires n > 0 && i <= j
    ensures i / n <= j / n
  {
    var a, b := i / n, j / n;
    assert i == a * n + i % n && j == b * n + j % n;
    if a > b {
      MulMonotone(b + 1, a, n);
    }
  }

  /** In a group that is full in x and y, item i is in wavefront i / 64, its lane i % 64 is on, and after initWfRegs
      the registers of this lane hold exactly its three identifiers. */
  lemma FullGroupLanes(wfs: seq<Wavefront>, sx: nat, sy: nat, cz: nat, i: nat, v0: seq<nat>, v1: seq<nat>, v2: seq<nat>)
    requires 0 < sx < U32 && 0 < sy < U32 && cz < U32 && WavefrontsOf(wfs, Cuboid(sx, sy, cz), sx, sy)
    requires i < |Cuboid(sx, sy, cz)|
    requires i / 64 < |wfs| ==> AllWritten(wfs[i / 64].firstWiFlatID, sx, sy, v0, v1, v2)
    ensures i / 64 < |wfs| && Cuboid(sx, sy, cz)[i] in wfs[i / 64].items
    ensures |wfs[i / 64].mask| == 64 && wfs[i / 64].mask[i % 64]
    ensures var w := Cuboid(sx, sy, cz)[i];
            |v0| == |v1| == |v2| == 64 && v0[i % 64] == w.x && v1[i % 64] == w.y && v2[i % 64] == w.z
  {
    ItemBounds(sx, sy, cz, i);
    hide *;
    FullGroupPlace(wfs, sx, sy, cz, i);
    LaneOfItem(wfs[i / 64], Cuboid(sx, sy, cz)[i], i, sx, sy, v0, v1, v2);
  }

  lemma FullGroupPlace(wfs: seq<Wavefront>, sx: nat, sy: nat, cz: nat, i: nat)
    requires 0 < sx && 0 < sy && WavefrontsOf(wfs, Cuboid(sx, sy, cz), sx, sy) && i < |Cuboid(sx, sy, cz)|
    ensures i / 64 < |wfs| && Cuboid(sx, sy, cz)[i] in wfs[i / 64].items && WavefrontOk(wfs[i / 64], sx, sy)
    ensures wfs[i / 64].firstWiFlatID == 64 * (i / 64) && FlattenedID(Cuboid(sx, sy, cz)[i], sx, sy) == i
  {
    hide *;
    var items := Cuboid(sx, sy, cz);
    AllItems(wfs, items, sx, sy);
    var k := WavefrontWith(wfs, i, |wfs|);
    FullGroupStart(wfs, sx, sy, cz, k);
    FullGroupSpan(wfs, sx, sy, cz, k);
    BlockOf(i, k);
    ItemAt(wfs, items, sx, sy, k, i);
    Member(wfs[k].items, i - Start(wfs, k), items[i]);
    FullGroupIds(sx, sy, cz, i);
    OkAndSlice(wfs, items, sx, sy, k);
  }

  lemma Member(items: seq<Item>, j: nat, w: Item)
    requires j < |items| && items[j] == w
    ensures w in items
  {
  }

  lemma LaneOfItem(wf: Wavefront, w: Item, i: nat, sx: nat, sy: nat, v0: seq<nat>, v1: seq<nat>, v2: seq<nat>)
    requires 0 < sx < U32 && 0 < sy < U32 && w.x < sx && w.y < sy && w.z < U32
    requires WavefrontOk(wf, sx, sy) && w in wf.items && FlattenedID(w, sx, sy) == i
    requires wf.firstWiFlatID == 64 * (i / 64) && AllWritten(wf.firstWiFlatID, sx, sy, v0, v1, v2)
    ensures |wf.mask| == 64 && wf.mask[i % 64]
    ensures |v0| == |v1| == |v2| == 64 && v0[i % 64] == w.x && v1[i % 64] == w.y && v2[i % 64] == w.z
  {
    hide *;
    MaskSize(wf, sx, sy);
    LaneHoldsItemIffItFits(wf, w, sx, sy);
    HeldInRegisters(wf.firstWiFlatID, i % 64, w, sx, sy, v0, v1, v2);
  }

  lemma BlockOf(i: nat, k: nat)
    requires 64 * k <= i < 64 * k + 64
    ensures k == i / 64 && i == 64 * k + i % 64
  {
  }

  lemma ItemBounds(sx: nat, sy: nat, cz: nat, i: nat)
    requires 0 < sx && 0 < sy && i < |Cuboid(sx, sy, cz)|
    ensures var w := Cuboid(sx, sy, cz)[i]; w.x < sx && w.y < sy && w.z < cz
  {
    hide Volume;
    DigitZBound(i, sx, sy, cz);
  }

  lemma HeldInRegisters(first: nat, l: nat, w: Item, sx: nat, sy: nat, v0: seq<nat>, v1: seq<nat>, v2: seq<nat>)
    requires sx > 0 && sy > 0 && l < 64 && AllWritten(first, sx, sy, v0, v1, v2) && Holds(first + l, w, sx, sy)
    ensures |v0| == |v1| == |v2| == 64 && v0[l] == w.x && v1[l] == w.y && v2[l] == w.z
  {
    hide LaneX;
    hide LaneY;
    hide LaneZ;
  }

  /* ----- A group that is cut off in x ----- */

  /** The items of a group of 10 by 2 items whose size is 100 by 2. */
  ghost predicate Ragged(items: seq<Item>) {
    && |items| == 20 && items[10] == Item(0, 1, 0) && Increasing(items, 100, 2)
    && forall i :: 0 <= i < 20 ==> FlattenedID(items[i], 100, 2) == if i < 10 then i else i + 90
  }

  lemma RaggedItems()
    ensures Ragged(Cuboid(10, 2, 1))
  {
    ItemsIncrease(10, 2, 1, 100, 2);
    CuboidAt(10, 2, 1, 0, 1, 0);
    hide Increasing;
    assert |Cuboid(10, 2, 1)| == 20;
    forall i | 0 <= i < 20 ensures FlattenedID(Cuboid(10, 2, 1)[i], 100, 2) == if i < 10 then i else i + 90 {
      RaggedItem(i);
    }
  }

  lemma RaggedItem(i: nat)
    requires i < |Cuboid(10, 2, 1)|
    ensures FlattenedID(Cuboid(10, 2, 1)[i], 100, 2) == if i < 10 then i else i + 90
  {
  }

  /** No item has identifier 64. */
  lemma RaggedHasNoBlock(items: seq<Item>)
    requires Ragged(items)
    ensures !HasBlock(items, 100, 2, 10)
  {
    hide FlattenedID;
    hide Increasing;
  }

  /** Item (0, 1, 0), with identifier 100, is in the wavefront that starts with 0. Its lane 36 is switched on, but holds
      the identifiers (36, 0, 0), which no item of the group has. */
  lemma RaggedGroupOverflows(wfs: seq<Wavefront>) returns (k: nat)
    requires WavefrontsOf(wfs, Cuboid(10, 2, 1), 100, 2)
    ensures !BlocksStart(Cuboid(10, 2, 1), 100, 2)
    ensures k < |wfs| && !FitsLanes(wfs[k], 100, 2) && Item(0, 1, 0) in wfs[k].items && wfs[k].firstWiFlatID == 0
    ensures |wfs[k].mask| == 64 && wfs[k].mask[36]
    ensures !Holds(36, Item(0, 1, 0), 100, 2) && Holds(36, Item(36, 0, 0), 100, 2)
  {
    RaggedItems();
    hide Cuboid;
    var items := Cuboid(10, 2, 1);
    k := RaggedWavefront(wfs, items);
    RaggedLane(wfs[k]);
  }

  lemma RaggedWavefront(wfs: seq<Wavefront>, items: seq<Item>) returns (k: nat)
    requires Ragged(items) && WavefrontsOf(wfs, items, 100, 2)
    ensures !BlocksStart(items, 100, 2)
    ensures k < |wfs| && !FitsLanes(wfs[k], 100, 2) && Item(0, 1, 0) in wfs[k].items
    ensures wfs[k].firstWiFlatID == 0 && WavefrontOk(wfs[k], 100, 2)
  {
    RaggedHasNoBlock(items);
    RaggedAt(items);
    hide *;
    BlocksByPlace(items, 100, 2);
    AllItems(wfs, items, 100, 2);
    k := WavefrontWith(wfs, 10, |wfs|);
    Facts(wfs, items, 100, 2, k);
    ItemAt(wfs, items, 100, 2, k, 10);
    RaggedStart(items, Start(wfs, k));
    LateItem(wfs[k], items[10]);
    IsOk(wfs, items, k);
  }

  lemma RaggedAt(items: seq<Item>)
    requires Ragged(items)
    ensures |items| == 20 && items[10] == Item(0, 1, 0) && FlattenedID(items[10], 100, 2) == 100
  {
    hide FlattenedID;
  }

  lemma RaggedStart(items: seq<Item>, i: nat)
    requires Ragged(items) && i <= 10 && FlattenedID(items[i], 100, 2) % 64 == 0
    ensures FlattenedID(items[i], 100, 2) == 0
  {
    hide FlattenedID;
  }

  lemma LateItem(wf: Wavefront, w: Item)
    requires w in wf.items && FlattenedID(w, 100, 2) == 100 && wf.firstWiFlatID == 0
    ensures !FitsLanes(wf, 100, 2)
  {
    hide FlattenedID;
  }

  lemma IsOk(wfs: seq<Wavefront>, items: seq<Item>, k: nat)
    requires WavefrontsOf(wfs, items, 100, 2) && k < |wfs|
    ensures WavefrontOk(wfs[k], 100, 2)
  {
    hide WavefrontOk;
    hide Slice;
    hide Start;
  }

  lemma RaggedLane(wf: Wavefront)
    requires WavefrontOk(wf, 100, 2) && wf.firstWiFlatID == 0 && Item(0, 1, 0) in wf.items
    ensures |wf.mask| == 64 && wf.mask[36]
    ensures !Holds(36, Item(0, 1, 0), 100, 2) && Holds(36, Item(36, 0, 0), 100, 2)
  {
    RaggedId();
    RaggedRegisters();
    hide *;
    MaskSize(wf, 100, 2);
    MaskOf(wf, Item(0, 1, 0), 100, 2);
  }

  lemma RaggedId()
    ensures FlattenedID(Item(0, 1, 0), 100, 2) == 100
  {
  }

  lemma RaggedRegisters()
    ensures !Holds(36, Item(0, 1, 0), 100, 2) && Holds(36, Item(36, 0, 0), 100, 2)
  {
  }
}
