/** Cutting one grid over many GPUs: distributeWGToGPUs and processUnifiedMultiGPULaunchKernelCommand of
    mgpusim/driver/driver.go. */
module Dispatch {
  import opened Wrappers
  import opened Arith
  import opened Bags
  import opened MixedRadix
  import opened Grid
  import opened GridBuilders

  function CUCount(cus: seq<nat>): nat {
    if cus == [] then 0 else cus[0] + CUCount(cus[1..])
  }

  lemma {:induction false} TotalAppend(cus: seq<nat>, c: nat)
    ensures CUCount(cus + [c]) == CUCount(cus) + c
  {
    if cus == [] {
      assert [c][1..] == [];
    } else {
      TotalAppend(cus[1..], c);
      TailOfConcat(cus, [c]);
    }
  }

  /** Go's integer division. */
  function TruncDiv(a: int, b: int): int
    requires b > 0
  {
    if a >= 0 then a / b else -((-a) / b)
  }

  /** int(numWGX * numWGY * numWGZ), a product on uint32. */
  function WrappedTotal(p: Packet): nat
    requires PacketOk(p)
  {
    CountedTotal(p) % U32
  }

  function PerCU(p: Packet, totalCU: nat): int
    requires PacketOk(p) && totalCU > 0
  {
    TruncDiv(WrappedTotal(p) - 1, totalCU) + 1
  }

  /** Enough per CU for the wrapped total, by less than one round. */
  lemma PerCUFacts(t: nat, n: nat)
    requires n > 0
    ensures var per := TruncDiv(t - 1, n) + 1;
            per >= 0 && t <= per * n && per * n < t + n + (if t == 0 then 1 else 0)
  {
    if t > 0 {
      var q, r := (t - 1) / n, (t - 1) % n;
      assert t - 1 == q * n + r;
      assert (q + 1) * n == q * n + n;
    } else if n == 1 {
      assert 1 / n == 1;
    } else {
      assert 1 / n == 0;
    }
  }

  /** A CU gets as many groups as are needed for the grid and no more: one less would leave some out. */
  lemma PerCUIsLeast(p: Packet, n: nat)
    requires PacketOk(p) && n > 0 && p.gridX > 0 && p.gridY > 0 && p.gridZ > 0 && Total(p) < U32
    ensures (PerCU(p, n) - 1) * n < Total(p) <= PerCU(p, n) * n
  {
    assert WrappedTotal(p) == Total(p) > 0;
    PerCUFacts(WrappedTotal(p), n);
    hide Total;
    hide WrappedTotal;
    hide TruncDiv;
    var per := PerCU(p, n);
    hide PerCU;
    assert (per - 1) * n == per * n - n;
  }

  /** wgDist: GPU i gets the groups from Bound(i) to Bound(i + 1). */
  function Bound(cus: seq<nat>, per: nat, i: nat): nat
    requires i <= |cus|
  {
    if i == 0 then 0 else Bound(cus, per, i - 1) + cus[i - 1] * per
  }

  lemma {:induction false} BoundIsTotal(cus: seq<nat>, per: nat, i: nat)
    requires i <= |cus|
    ensures Bound(cus, per, i) == CUCount(cus[..i]) * per
  {
    if i > 0 {
      BoundIsTotal(cus, per, i - 1);
      assert cus[..i] == cus[..i - 1] + [cus[i - 1]];
      TotalAppend(cus[..i - 1], cus[i - 1]);
      assert (CUCount(cus[..i - 1]) + cus[i - 1]) * per == CUCount(cus[..i - 1]) * per + cus[i - 1] * per;
    }
  }

  /** Where the last GPU's part ends. */
  function Allocated(cus: seq<nat>, p: Packet): nat
    requires PacketOk(p) && CUCount(cus) > 0
  {
    PerCUFacts(WrappedTotal(p), CUCount(cus));
    Bound(cus, PerCU(p, CUCount(cus)), |cus|)
  }

  /** The panic "not all wg allocated" cannot happen. */
  lemma AllAllocated(cus: seq<nat>, p: Packet)
    requires PacketOk(p) && CUCount(cus) > 0
    ensures PerCU(p, CUCount(cus)) >= 0
    ensures WrappedTotal(p) <= Allocated(cus, p) == CUCount(cus) * PerCU(p, CUCount(cus))
  {
    hide WrappedTotal;
    hide TruncDiv;
    hide Bound;
    hide CUCount;
    PerCUFacts(WrappedTotal(p), CUCount(cus));
    BoundIsTotal(cus, PerCU(p, CUCount(cus)), |cus|);
    assert cus[..|cus|] == cus;
  }

  lemma WrappedIsTotal(p: Packet)
    requires PacketOk(p) && p.gridX > 0 && p.gridY > 0 && p.gridZ > 0
    ensures WrappedTotal(p) == Total(p) % U32
  {
    CountedIsExact(p.gridX, p.wgX);
    CountedIsExact(p.gridY, p.wgY);
    CountedIsExact(p.gridZ, p.wgZ);
    hide CountedGroups;
    hide Groups;
  }

  /** The distribution reaches the end of the grid exactly when the number of groups fits in 32 bits. */
  lemma CoversIffNoWrap(cus: seq<nat>, p: Packet)
    requires PacketOk(p) && 0 < CUCount(cus) < U32 && p.gridX > 0 && p.gridY > 0 && p.gridZ > 0
    ensures Total(p) <= Allocated(cus, p) <==> Total(p) < U32
  {
    SomeGroups(p);
    hide *;
    WrappedIsTotal(p);
    AllocatedBounds(cus, p);
    WrapGap(Total(p), WrappedTotal(p), CUCount(cus), Allocated(cus, p));
  }

  lemma SomeGroups(p: Packet)
    requires PacketOk(p) && p.gridX > 0 && p.gridY > 0 && p.gridZ > 0
    ensures Total(p) > 0
  {
    VolumePositive(NX(p), NY(p), NZ(p));
  }

  /** The distribution ends behind the wrapped total, by less than one round. */
  lemma AllocatedBounds(cus: seq<nat>, p: Packet)
    requires PacketOk(p) && CUCount(cus) > 0
    ensures var w := WrappedTotal(p);
            w <= Allocated(cus, p) < w + CUCount(cus) + (if w == 0 then 1 else 0)
  {
    hide WrappedTotal;
    hide Allocated;
    hide CUCount;
    AllAllocated(cus, p);
    PerCUFacts(WrappedTotal(p), CUCount(cus));
    var per := PerCU(p, CUCount(cus));
    assert per == TruncDiv(WrappedTotal(p) - 1, CUCount(cus)) + 1;
    assert CUCount(cus) * per == per * CUCount(cus);
  }

  lemma WrapGap(t: nat, w: nat, n: nat, a: nat)
    requires w == t % U32 && 0 < n < U32 && t > 0 && w <= a && a < w + n + (if w == 0 then 1 else 0)
    ensures t <= a <==> t < U32
  {
    if t >= U32 {
      assert t >= w + U32;
    }
  }

  /** The closure stored in a launch request, for the groups from lo to hi. */
  function WGFilter(p: Packet, lo: nat, hi: nat): Filter
    requires PacketOk(p)
  {
    var nx, ny := CountedGroups(p.gridX, p.wgX) % U32, CountedGroups(p.gridY, p.wgY) % U32;
    Some((x: nat, y: nat, z: nat) => lo <= z * nx * ny + y * nx + x < hi)
  }

  lemma FilterValue(p: Packet, lo: nat, hi: nat, x: nat, y: nat, z: nat)
    requires PacketOk(p) && p.gridX > 0 && p.gridY > 0
    ensures WGFilter(p, lo, hi).Some?
            && (WGFilter(p, lo, hi).value(x, y, z) <==> lo <= Flat(x, y, z, NX(p), NY(p)) < hi)
  {
    CountedIsExact(p.gridX, p.wgX);
    CountedIsExact(p.gridY, p.wgY);
    FitsU32(p.gridX, p.wgX);
    FitsU32(p.gridY, p.wgY);
    hide CountedGroups;
    hide Groups;
    assert CountedGroups(p.gridX, p.wgX) % U32 == NX(p);
    assert CountedGroups(p.gridY, p.wgY) % U32 == NY(p);
  }

  lemma FilterIsInterval(p: Packet, lo: nat, hi: nat, i: nat)
    requires PacketOk(p) && i < Total(p)
    ensures Accepts(p, WGFilter(p, lo, hi), i) <==> lo <= i < hi
  {
    hide WGFilter;
    hide Flat;
    hide DigitX;
    hide DigitY;
    hide DigitZ;
    FilterValue(p, lo, hi, DigitX(i, NX(p)), DigitY(i, NX(p), NY(p)), DigitZ(i, NX(p), NY(p)));
    FlatOfDigits(i, NX(p), NY(p));
  }

  lemma FitsU32(g: nat, s: nat)
    requires s > 0 && g < U32
    ensures Groups(g, s) < U32
  {
    if g > 0 {
      var q := (g - 1) / s;
      assert g - 1 == q * s + (g - 1) % s;
      if q > 0 {
        MulMonotone(1, s, q);
      }
    }
  }

  function Min(a: nat, b: nat): nat {
    if a < b then a else b
  }

  function Max(a: nat, b: nat): nat {
    if a > b then a else b
  }

  /** Group i and the ones behind it, as far as they are between lo and hi and exist. */
  lemma RangeHead(lo: nat, hi: nat, t: nat, i: nat)
    requires i < t
    ensures Range(Max(i, lo), Min(hi, t)) ==
            (if lo <= i < hi then multiset{i} else multiset{}) + Range(Max(i + 1, lo), Min(hi, t))
  {
    var a, b, c := Max(i, lo), Max(i + 1, lo), Min(hi, t);
    var one: multiset<nat> := if lo <= i < hi then multiset{i} else multiset{};
    hide Range;
    forall x: nat ensures Range(a, c)[x] == (one + Range(b, c))[x] {
      RangeCount(a, c, x);
      RangeCount(b, c, x);
    }
  }

  lemma WantedHead(p: Packet, f: Filter, i: nat)
    requires PacketOk(p) && i < Total(p)
    ensures multiset(Wanted(p, f, i)) ==
            (if Accepts(p, f, i) then multiset{i} else multiset{}) + multiset(Wanted(p, f, i + 1))
  {
    hide Accepts;
    hide Total;
  }

  lemma WantedEnd(p: Packet, f: Filter, i: nat)
    requires PacketOk(p) && i >= Total(p)
    ensures multiset(Wanted(p, f, i)) == multiset{}
  {
  }

  /** A GPU with the groups from lo to hi produces exactly those that exist, each once. */
  lemma {:induction false} WantedIsInterval(p: Packet, lo: nat, hi: nat, i: nat)
    requires PacketOk(p)
    ensures multiset(Wanted(p, WGFilter(p, lo, hi), i)) == Range(Max(i, lo), Min(hi, Total(p)))
    decreases Total(p) - i
  {
    hide *;
    if i < Total(p) {
      FilterIsInterval(p, lo, hi, i);
      WantedIsInterval(p, lo, hi, i + 1);
      WantedHead(p, WGFilter(p, lo, hi), i);
      RangeHead(lo, hi, Total(p), i);
    } else {
      WantedEnd(p, WGFilter(p, lo, hi), i);
      EmptyBehind(lo, hi, Total(p), i);
    }
  }

  lemma EmptyBehind(lo: nat, hi: nat, t: nat, i: nat)
    requires i >= t
    ensures Range(Max(i, lo), Min(hi, t)) == multiset{}
  {
    RangeEmpty(Max(i, lo), Min(hi, t));
  }

  lemma RangeJoins(a: nat, b: nat, c: nat)
    requires a <= b <= c
    ensures Range(a, b) + Range(b, c) == Range(a, c)
  {
    hide Range;
    forall x: nat ensures (Range(a, b) + Range(b, c))[x] == Range(a, c)[x] {
      RangeCount(a, b, x);
      RangeCount(b, c, x);
      RangeCount(a, c, x);
    }
  }

  /** One more interval of groups, as far as groups exist. */
  lemma RangeUpTo(lo: nat, hi: nat, t: nat)
    requires lo <= hi
    ensures Range(0, Min(lo, t)) + Range(Max(0, lo), Min(hi, t)) == Range(0, Min(hi, t))
  {
    hide Range;
    if lo < t {
      RangeJoins(0, lo, Min(hi, t));
    } else {
      RangeEmpty(lo, Min(hi, t));
    }
  }

  lemma RangeEmpty(a: nat, b: nat)
    requires a >= b
    ensures Range(a, b) == multiset{}
  {
  }

  /** What GPU i produces. */
  function Share(p: Packet, cus: seq<nat>, per: nat, i: nat): multiset<nat>
    requires PacketOk(p) && i < |cus|
  {
    multiset(Wanted(p, WGFilter(p, Bound(cus, per, i), Bound(cus, per, i + 1)), 0))
  }

  function Shares(p: Packet, cus: seq<nat>, per: nat, n: nat): multiset<nat>
    requires PacketOk(p) && n <= |cus|
  {
    if n == 0 then multiset{} else Shares(p, cus, per, n - 1) + Share(p, cus, per, n - 1)
  }

  lemma NoShares(p: Packet, cus: seq<nat>, per: nat)
    requires PacketOk(p)
    ensures Shares(p, cus, per, 0) == multiset{} == Range(0, Min(Bound(cus, per, 0), Total(p)))
  {
    RangeEmpty(0, 0);
  }

  lemma {:induction false} SharesAre(p: Packet, cus: seq<nat>, per: nat, n: nat)
    requires PacketOk(p) && n <= |cus|
    ensures Shares(p, cus, per, n) == Range(0, Min(Bound(cus, per, n), Total(p)))
  {
    hide *;
    if n == 0 {
      NoShares(p, cus, per);
    } else {
      SharesAre(p, cus, per, n - 1);
      NextShare(p, cus, per, n - 1);
      WantedIsInterval(p, Bound(cus, per, n - 1), Bound(cus, per, n), 0);
      BoundGrows(cus, per, n - 1, n);
      RangeUpTo(Bound(cus, per, n - 1), Bound(cus, per, n), Total(p));
    }
  }

  /** Together the GPUs produce every group of the grid exactly once, if and only if the groups can be counted in
      32 bits. */
  lemma LaunchPartitionsGrid(p: Packet, cus: seq<nat>)
    requires PacketOk(p) && 0 < CUCount(cus) < U32 && p.gridX > 0 && p.gridY > 0 && p.gridZ > 0
    ensures PerCU(p, CUCount(cus)) >= 0
    ensures Shares(p, cus, PerCU(p, CUCount(cus)), |cus|) == Range(0, Total(p)) <==> Total(p) < U32
  {
    AllAllocated(cus, p);
    CoversIffNoWrap(cus, p);
    var a, t := Allocated(cus, p), Total(p);
    SharesAre(p, cus, PerCU(p, CUCount(cus)), |cus|);
    hide Total;
    if a < t {
      RangeCount(0, t, a);
      RangeCount(0, Min(a, t), a);
      assert Range(0, t)[a] != Range(0, Min(a, t))[a];
    }
  }

  /** A grid of 2^32 groups. The counted product is 0, so each of the n CUs gets one group, and all others get lost. */
  predicate Huge(p: Packet) {
    p == Packet(0x1_0000, 0x1_0000, 1, 1, 1, 1)
  }

  lemma HugeLaunchLosesGroups(p: Packet, cus: seq<nat>, n: nat)
    requires Huge(p) && 1 < CUCount(cus) == n < U32
    ensures Total(p) == U32 && WrappedTotal(p) == 0 && PerCU(p, n) == 1
    ensures Shares(p, cus, 1, |cus|) == Range(0, n) != Range(0, Total(p))
  {
    HugeCounts(p, n);
    hide *;
    AllAllocated(cus, p);
    DistributionSteps(cus, p);
    SharesAre(p, cus, 1, |cus|);
    MinIs(n, Total(p));
    RangeCount(0, n, n);
    RangeCount(0, Total(p), n);
  }

  lemma MinIs(a: nat, b: nat)
    requires a <= b
    ensures Min(a, b) == a
  {
  }

  lemma HugeCounts(p: Packet, n: nat)
    requires Huge(p) && n > 1
    ensures PacketOk(p) && Total(p) == U32 && WrappedTotal(p) == 0 && PerCU(p, n) == 1
  {
    assert NX(p) == 0x1_0000 && NY(p) == 0x1_0000 && NZ(p) == 1;
    assert Volume(0x1_0000, 0x1_0000, 1) == U32;
    WrappedIsTotal(p);
    PerCUFacts(0, n);
  }

  /** Every group below the end of the distribution passes exactly one GPU's filter. */
  lemma {:induction false} OneGPUAccepts(p: Packet, cus: seq<nat>, per: nat, n: nat, i: nat) returns (g: nat)
    requires PacketOk(p) && n <= |cus| && i < Total(p) && i < Bound(cus, per, n)
    ensures g < n && Accepts(p, WGFilter(p, Bound(cus, per, g), Bound(cus, per, g + 1)), i)
    ensures forall h :: 0 <= h < n && h != g ==> !Accepts(p, WGFilter(p, Bound(cus, per, h), Bound(cus, per, h + 1)), i)
  {
    hide Accepts;
    hide WGFilter;
    hide Total;
    if i < Bound(cus, per, n - 1) {
      g := OneGPUAccepts(p, cus, per, n - 1, i);
    } else {
      g := n - 1;
      forall h | 0 <= h < g ensures !Accepts(p, WGFilter(p, Bound(cus, per, h), Bound(cus, per, h + 1)), i) {
        BoundGrows(cus, per, h + 1, g);
        FilterIsInterval(p, Bound(cus, per, h), Bound(cus, per, h + 1), i);
      }
    }
    FilterIsInterval(p, Bound(cus, per, n - 1), Bound(cus, per, n), i);
  }

  lemma {:induction false} BoundGrows(cus: seq<nat>, per: nat, i: nat, j: nat)
    requires i <= j <= |cus|
    ensures Bound(cus, per, i) <= Bound(cus, per, j)
    decreases j
  {
    if i < j {
      BoundGrows(cus, per, i, j - 1);
    }
  }

  /* ----- The loops ----- */

  method TotalCUCount(cus: seq<nat>) returns (totalCUCount: nat)
    ensures totalCUCount == CUCount(cus)
  {
    totalCUCount := 0;
    var i := 0;
    while i < |cus|
      invariant i <= |cus| && totalCUCount == CUCount(cus[..i])
    {
      assert cus[..i + 1] == cus[..i] + [cus[i]];
      TotalAppend(cus[..i], cus[i]);
      totalCUCount := totalCUCount + cus[i];
      i := i + 1;
    }
    assert cus[..i] == cus;
  }

  lemma DistributionSteps(cus: seq<nat>, p: Packet)
    requires PacketOk(p) && CUCount(cus) > 0
    ensures PerCU(p, CUCount(cus)) == TruncDiv(WrappedTotal(p) - 1, CUCount(cus)) + 1 >= 0
    ensures Allocated(cus, p) == Bound(cus, PerCU(p, CUCount(cus)), |cus|) && Bound(cus, PerCU(p, CUCount(cus)), 0) == 0
  {
    hide WrappedTotal;
    hide TruncDiv;
    AllAllocated(cus, p);
  }

  lemma NextBound(cus: seq<nat>, per: nat, i: nat)
    requires i < |cus|
    ensures Bound(cus, per, i + 1) == Bound(cus, per, i) + cus[i] * per
  {
  }

  /** wgDist; the source panics when not all groups are allocated. */
  method DistributeWGToGPUs(cus: seq<nat>, p: Packet) returns (wgDist: array<nat>, panics: bool)
    requires PacketOk(p) && CUCount(cus) > 0
    ensures fresh(wgDist) && wgDist.Length == |cus| + 1 && !panics
    ensures PerCU(p, CUCount(cus)) >= 0
    ensures forall i :: 0 <= i <= |cus| ==> wgDist[i] == Bound(cus, PerCU(p, CUCount(cus)), i)
  {
    hide *;
    AllAllocated(cus, p);
    DistributionSteps(cus, p);
    wgDist := new nat[|cus| + 1](_ => 0);
    var wgAllocated := 0;
    var totalCUCount := TotalCUCount(cus);
    var totalWGCount: int := WrappedTotal(p);
    var wgPerCU := TruncDiv(totalWGCount - 1, totalCUCount) + 1;
    var i := 0;
    while i < |cus|
      invariant i <= |cus| && wgDist.Length == |cus| + 1
      invariant wgAllocated == Bound(cus, wgPerCU, i)
      invariant forall j :: 0 <= j <= i ==> wgDist[j] == Bound(cus, wgPerCU, j)
    {
      NextBound(cus, wgPerCU, i);
      var wgToAllocate := cus[i] * wgPerCU;
      wgDist[i + 1] := wgAllocated + wgToAllocate;
      wgAllocated := wgAllocated + wgToAllocate;
      i := i + 1;
    }
    panics := wgAllocated < totalWGCount;
  }

  /** A launch request for the i-th GPU of the unified device. */
  datatype LaunchReq = LaunchReq(i: nat, filter: Filter)

  function Launched(p: Packet, reqs: seq<LaunchReq>): multiset<nat>
    requires PacketOk(p)
  {
    if reqs == [] then multiset{} else Launched(p, reqs[..|reqs| - 1]) + multiset(Wanted(p, reqs[|reqs| - 1].filter, 0))
  }

  lemma LaunchNone(p: Packet, cus: seq<nat>)
    requires PacketOk(p)
    ensures Launched(p, []) == multiset{} && forall per :: Shares(p, cus, per, 0) == multiset{}
  {
  }

  lemma LaunchMore(p: Packet, reqs: seq<LaunchReq>, req: LaunchReq)
    requires PacketOk(p)
    ensures Launched(p, reqs + [req]) == Launched(p, reqs) + multiset(Wanted(p, req.filter, 0))
  {
    assert (reqs + [req])[..|reqs|] == reqs;
  }

  lemma NextShare(p: Packet, cus: seq<nat>, per: nat, i: nat)
    requires PacketOk(p) && i < |cus|
    ensures Shares(p, cus, per, i + 1) == Shares(p, cus, per, i) + Share(p, cus, per, i)
    ensures Share(p, cus, per, i) == multiset(Wanted(p, WGFilter(p, Bound(cus, per, i), Bound(cus, per, i + 1)), 0))
  {
  }

  lemma EmptyShare(p: Packet, cus: seq<nat>, per: nat, i: nat)
    requires PacketOk(p) && i < |cus| && Bound(cus, per, i) == Bound(cus, per, i + 1)
    ensures Share(p, cus, per, i) == multiset{}
  {
    WantedIsInterval(p, Bound(cus, per, i), Bound(cus, per, i + 1), 0);
    RangeEmpty(Bound(cus, per, i), Min(Bound(cus, per, i), Total(p)));
  }

  /** A request accepts exactly the groups of its own GPU's part, and these are no more than the GPU's CUs take. */
  ghost predicate GetsItsPart(p: Packet, cus: seq<nat>, per: nat, r: LaunchReq)
    requires PacketOk(p)
  {
    && r.i < |cus|
    && (forall j :: 0 <= j < Total(p) ==>
          (Accepts(p, r.filter, j) <==> CUCount(cus[..r.i]) * per <= j < CUCount(cus[..r.i + 1]) * per))
    && |Wanted(p, r.filter, 0)| <= cus[r.i] * per
  }

  predicate HasRequest(reqs: seq<LaunchReq>, i: nat) {
    exists a :: 0 <= a < |reqs| && reqs[a].i == i
  }

  lemma NoneYet(reqs: seq<LaunchReq>, i: nat)
    requires forall a :: 0 <= a < |reqs| ==> reqs[a].i < i
    ensures !HasRequest(reqs, i)
  {
  }

  lemma OneMoreRequest(reqs: seq<LaunchReq>, req: LaunchReq)
    ensures forall i: nat :: HasRequest(reqs + [req], i) <==> HasRequest(reqs, i) || req.i == i
  {
    forall i: nat ensures HasRequest(reqs + [req], i) <==> HasRequest(reqs, i) || req.i == i {
      if req.i == i {
        assert (reqs + [req])[|reqs|].i == i;
      }
      if a :| 0 <= a < |reqs| && reqs[a].i == i {
        assert (reqs + [req])[a].i == i;
      }
    }
  }

  lemma ItsPart(p: Packet, cus: seq<nat>, per: nat, r: LaunchReq)
    requires PacketOk(p) && r.i < |cus| && r.filter == WGFilter(p, Bound(cus, per, r.i), Bound(cus, per, r.i + 1))
    ensures GetsItsPart(p, cus, per, r)
  {
    var lo, hi := Bound(cus, per, r.i), Bound(cus, per, r.i + 1);
    hide *;
    NextBound(cus, per, r.i);
    BoundIsTotal(cus, per, r.i);
    BoundIsTotal(cus, per, r.i + 1);
    PartSize(p, lo, hi);
    forall j | 0 <= j < Total(p)
      ensures Accepts(p, r.filter, j) <==> CUCount(cus[..r.i]) * per <= j < CUCount(cus[..r.i + 1]) * per
    {
      FilterIsInterval(p, lo, hi, j);
    }
    MakesItsPart(p, cus, per, r);
  }

  lemma MakesItsPart(p: Packet, cus: seq<nat>, per: nat, r: LaunchReq)
    requires PacketOk(p) && r.i < |cus| && |Wanted(p, r.filter, 0)| <= cus[r.i] * per
    requires forall j :: 0 <= j < Total(p) ==>
               (Accepts(p, r.filter, j) <==> CUCount(cus[..r.i]) * per <= j < CUCount(cus[..r.i + 1]) * per)
    ensures GetsItsPart(p, cus, per, r)
  {
  }

  lemma PartSize(p: Packet, lo: nat, hi: nat)
    requires PacketOk(p) && lo <= hi
    ensures |Wanted(p, WGFilter(p, lo, hi), 0)| <= hi - lo
  {
    hide Wanted;
    hide WGFilter;
    hide Total;
    hide Range;
    WantedIsInterval(p, lo, hi, 0);
    var a, b := Max(0, lo), Min(hi, Total(p));
    assert |multiset(Wanted(p, WGFilter(p, lo, hi), 0))| == |Range(a, b)|;
    if a <= b {
      RangeSize(a, b);
    } else {
      RangeEmpty(a, b);
    }
  }

  /** One request per GPU with a non-empty part. Leaving out the others loses nothing: the requests together produce
      every group of the grid exactly once, if and only if the groups can be counted in 32 bits. Each GPU gets the
      groups behind those of the GPUs before it, as many as its CUs take, and a CU takes no more than is needed. */
  method ProcessUnifiedLaunch(cus: seq<nat>, p: Packet) returns (reqs: seq<LaunchReq>)
    requires PacketOk(p) && 0 < CUCount(cus) < U32 && p.gridX > 0 && p.gridY > 0 && p.gridZ > 0
    ensures Launched(p, reqs) == Range(0, Total(p)) <==> Total(p) < U32
    ensures forall a, b :: 0 <= a < b < |reqs| ==> reqs[a].i < reqs[b].i < |cus|
    ensures PerCU(p, CUCount(cus)) >= 0
    ensures Total(p) < U32 ==> (PerCU(p, CUCount(cus)) - 1) * CUCount(cus) < Total(p)
    ensures forall a :: 0 <= a < |reqs| ==> GetsItsPart(p, cus, PerCU(p, CUCount(cus)), reqs[a])
    ensures forall i :: 0 <= i < |cus| ==> (HasRequest(reqs, i) <==> cus[i] * PerCU(p, CUCount(cus)) > 0)
  {
    hide *;
    LaunchPartitionsGrid(p, cus);
    LaunchNone(p, cus);
    if Total(p) < U32 {
      PerCUIsLeast(p, CUCount(cus));
    }
    var dist, _ := DistributeWGToGPUs(cus, p);
    var wgDist := dist[..];
    ghost var per := PerCU(p, CUCount(cus));
    reqs := [];
    var i := 0;
    NoneYet(reqs, 0);
    while i < |cus|
      invariant i <= |cus| && Launched(p, reqs) == Shares(p, cus, per, i)
      invariant forall a, b :: 0 <= a < b < |reqs| ==> reqs[a].i < reqs[b].i
      invariant forall a :: 0 <= a < |reqs| ==> reqs[a].i < i
      invariant forall a :: 0 <= a < |reqs| ==> GetsItsPart(p, cus, per, reqs[a])
      invariant forall j :: 0 <= j < i ==> (HasRequest(reqs, j) <==> cus[j] * per > 0)
      invariant !HasRequest(reqs, i)
    {
      var lo, hi := wgDist[i], wgDist[i + 1];
      BoundGrows(cus, per, i, i + 1);
      NextBound(cus, per, i);
      NextShare(p, cus, per, i);
      if hi - lo == 0 {
        EmptyShare(p, cus, per, i);
        NoneYet(reqs, i + 1);
      } else {
        var req := LaunchReq(i, WGFilter(p, lo, hi));
        LaunchMore(p, reqs, req);
        ItsPart(p, cus, per, req);
        OneMoreRequest(reqs, req);
        reqs := reqs + [req];
        NoneYet(reqs, i + 1);
      }
      i := i + 1;
    }
  }
}
