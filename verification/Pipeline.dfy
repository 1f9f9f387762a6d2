/** The multi-lane pipeline of akita/pipelining/pipeline.go, on values. A lane is its stages in order;
    `post` is the post-pipeline buffer with room for `cap` items. */
module PipelineModel {
  import opened Wrappers
  import Bags

  datatype Stage<T> = Stage(elem: Option<T>, cycleLeft: int)

  type Lane<T> = seq<Stage<T>>

  datatype Out<T> = Out(lanes: seq<Lane<T>>, post: seq<T>, progress: bool)

  datatype LaneOut<T> = LaneOut(lane: Lane<T>, post: seq<T>, progress: bool)

  /** One visit of Tick's inner loop body, at stage i. */
  function TickStage<T>(cps: nat, lane: Lane<T>, i: nat, post: seq<T>, cap: nat): (o: LaneOut<T>)
    requires i < |lane|
    ensures |o.lane| == |lane|
  {
    var stage := lane[i];
    if stage.elem.None? then LaneOut(lane, post, false)
    else if stage.cycleLeft > 0 then LaneOut(lane[i := stage.(cycleLeft := stage.cycleLeft - 1)], post, true)
    else if i == |lane| - 1 then
      if |post| < cap then LaneOut(lane[i := stage.(elem := None)], post + [stage.elem.value], true)
      else LaneOut(lane, post, false)
    else if lane[i + 1].elem.Some? then LaneOut(lane, post, false)
    else LaneOut(lane[i + 1 := Stage(stage.elem, cps - 1)][i := stage.(elem := None)], post, true)
  }

  /** The inner loop, from stage k - 1 down to stage 0. */
  function TickLane<T>(cps: nat, lane: Lane<T>, k: nat, post: seq<T>, cap: nat): (o: LaneOut<T>)
    requires k <= |lane|
    ensures |o.lane| == |lane|
    decreases k
  {
    if k == 0 then LaneOut(lane, post, false)
    else
      var a := TickStage(cps, lane, k - 1, post, cap);
      var b := TickLane(cps, a.lane, k - 1, a.post, cap);
      b.(progress := a.progress || b.progress)
  }

  /** The outer loop, from lane l to the last lane. */
  function TickLanes<T>(cps: nat, lanes: seq<Lane<T>>, l: nat, post: seq<T>, cap: nat): (o: Out<T>)
    requires l <= |lanes|
    ensures |o.lanes| == |lanes|
    ensures forall j :: 0 <= j < |lanes| ==> |o.lanes[j]| == |lanes[j]|
    decreases |lanes| - l
  {
    if l == |lanes| then Out(lanes, post, false)
    else
      var a := TickLane(cps, lanes[l], |lanes[l]|, post, cap);
      var b := TickLanes(cps, lanes[l := a.lane], l + 1, a.post, cap);
      b.(progress := a.progress || b.progress)
  }

  function Tick<T>(cps: nat, lanes: seq<Lane<T>>, post: seq<T>, cap: nat): Out<T> {
    TickLanes(cps, lanes, 0, post, cap)
  }

  ghost predicate Shape<T>(numStage: nat, lanes: seq<Lane<T>>) {
    forall l :: 0 <= l < |lanes| ==> |lanes[l]| == numStage
  }

  /** The first lane from l on whose stage 0 is free, or the number of lanes. */
  function FreeLane<T>(lanes: seq<Lane<T>>, l: nat): (r: nat)
    requires l <= |lanes| && forall j :: 0 <= j < |lanes| ==> |lanes[j]| > 0
    ensures l <= r <= |lanes|
    ensures r < |lanes| ==> lanes[r][0].elem.None?
    ensures forall j :: l <= j < r ==> lanes[j][0].elem.Some?
    decreases |lanes| - l
  {
    if l == |lanes| || lanes[l][0].elem.None? then l else FreeLane(lanes, l + 1)
  }

  predicate CanAccept<T>(numStage: nat, lanes: seq<Lane<T>>, post: seq<T>, cap: nat)
    requires Shape(numStage, lanes)
  {
    if numStage == 0 then |post| < cap else FreeLane(lanes, 0) < |lanes|
  }

  function Accept<T>(cps: nat, numStage: nat, lanes: seq<Lane<T>>, post: seq<T>, cap: nat, x: T): (o: Out<T>)
    requires Shape(numStage, lanes) && CanAccept(numStage, lanes, post, cap)
    ensures Shape(numStage, o.lanes) && |o.lanes| == |lanes|
  {
    if numStage == 0 then Out(lanes, post + [x], true)
    else
      var l := FreeLane(lanes, 0);
      Out(lanes[l := lanes[l][0 := Stage(Some(x), cps - 1)]], post, true)
  }

  function EmptyLanes<T>(width: nat, numStage: nat): (lanes: seq<Lane<T>>)
    ensures |lanes| == width && Shape(numStage, lanes)
  {
    seq(width, _ => seq(numStage, _ => Stage(None, 0)))
  }

  /* ----- What is inside ----- */

  function One<T>(stage: Stage<T>): seq<T> {
    if stage.elem.Some? then [stage.elem.value] else []
  }

  /** The items of a lane in leaving order, furthest stage first. */
  function LaneItems<T>(lane: Lane<T>): (r: seq<T>) {
    if lane == [] then [] else LaneItems(lane[1..]) + One(lane[0])
  }

  function Items<T>(lanes: seq<Lane<T>>): seq<T> {
    if lanes == [] then [] else LaneItems(lanes[0]) + Items(lanes[1..])
  }

  lemma {:induction false} LaneItemsSplit<T>(lane: Lane<T>, k: nat)
    requires k <= |lane|
    ensures LaneItems(lane) == LaneItems(lane[k..]) + LaneItems(lane[..k])
  {
    if k == 0 {
      assert lane[0..] == lane;
    } else {
      LaneItemsSplit(lane[1..], k - 1);
      assert lane[1..][k - 1..] == lane[k..];
      assert lane[1..][..k - 1] == lane[..k][1..];
    }
  }

  lemma LaneItemsAt<T>(lane: Lane<T>, i: nat)
    requires i < |lane|
    ensures LaneItems(lane) == LaneItems(lane[i + 1..]) + One(lane[i]) + LaneItems(lane[..i])
  {
    LaneItemsSplit(lane, i);
    assert lane[i..][1..] == lane[i + 1..];
  }

  /** One stage visit keeps the items of the lane, read behind the post buffer, as one sequence. */
  lemma TickStageKeepsOrder<T>(cps: nat, lane: Lane<T>, i: nat, post: seq<T>, cap: nat)
    requires i < |lane|
    ensures var o := TickStage(cps, lane, i, post, cap); o.post + LaneItems(o.lane) == post + LaneItems(lane)
  {
    var o := TickStage(cps, lane, i, post, cap);
    if o.progress {
      LaneItemsAt(lane, i);
      LaneItemsAt(o.lane, i);
      assert lane[..i] == o.lane[..i];
      var front, back := LaneItems(lane[i + 1..]), LaneItems(lane[..i]);
      if lane[i].cycleLeft > 0 {
        assert lane[i + 1..] == o.lane[i + 1..];
      } else if i == |lane| - 1 {
        assert lane[i + 1..] == [] && o.lane[i + 1..] == [];
        MoveOut(post, lane[i].elem.value, back);
      } else {
        MoveOn(lane[i + 1..], o.lane[i + 1..], lane[i].elem.value);
        Regroup(post, front, lane[i].elem.value, back);
      }
    }
  }

  lemma MoveOut<T>(post: seq<T>, x: T, back: seq<T>)
    ensures (post + [x]) + ([] + [] + back) == post + ([] + [x] + back)
  {
  }

  lemma MoveOn<T>(ahead: Lane<T>, ahead': Lane<T>, x: T)
    requires ahead != [] && |ahead'| == |ahead| && ahead'[1..] == ahead[1..]
    requires ahead[0].elem.None? && ahead'[0].elem == Some(x)
    ensures LaneItems(ahead') == LaneItems(ahead) + [x]
  {
  }

  lemma Regroup<T>(post: seq<T>, front: seq<T>, x: T, back: seq<T>)
    ensures post + ((front + [x]) + [] + back) == post + (front + [x] + back)
  {
  }

  lemma {:induction false} TickLaneKeepsOrder<T>(cps: nat, lane: Lane<T>, k: nat, post: seq<T>, cap: nat)
    requires k <= |lane|
    ensures var o := TickLane(cps, lane, k, post, cap); o.post + LaneItems(o.lane) == post + LaneItems(lane)
    decreases k
  {
    if k > 0 {
      var a := TickStage(cps, lane, k - 1, post, cap);
      TickStageKeepsOrder(cps, lane, k - 1, post, cap);
      TickLaneKeepsOrder(cps, a.lane, k - 1, a.post, cap);
    }
  }

  /** A width-1 pipeline is a FIFO: what has left followed by what is inside never changes in Tick. */
  lemma TickIsFifo<T>(cps: nat, lanes: seq<Lane<T>>, post: seq<T>, cap: nat)
    requires |lanes| == 1
    ensures var o := Tick(cps, lanes, post, cap); o.post + Items(o.lanes) == post + Items(lanes)
  {
    TickLaneKeepsOrder(cps, lanes[0], |lanes[0]|, post, cap);
    OneLane(lanes);
    OneLane(Tick(cps, lanes, post, cap).lanes);
    TickOneLane(cps, lanes, post, cap);
  }

  lemma OneLane<T>(lanes: seq<Lane<T>>)
    requires |lanes| == 1
    ensures Items(lanes) == LaneItems(lanes[0])
  {
    assert lanes[1..] == [];
  }

  lemma TickOneLane<T>(cps: nat, lanes: seq<Lane<T>>, post: seq<T>, cap: nat)
    requires |lanes| == 1
    ensures var a := TickLane(cps, lanes[0], |lanes[0]|, post, cap);
            Tick(cps, lanes, post, cap) == Out([a.lane], a.post, a.progress)
  {
    var a := TickLane(cps, lanes[0], |lanes[0]|, post, cap);
    assert lanes[0 := a.lane] == [a.lane];
    assert TickLanes(cps, [a.lane], 1, a.post, cap) == Out([a.lane], a.post, false);
  }

  lemma ItemsCons<T>(lanes: seq<Lane<T>>)
    requires lanes != []
    ensures multiset(Items(lanes)) == multiset(LaneItems(lanes[0])) + multiset(Items(lanes[1..]))
  {
  }

  lemma {:induction false} ItemsUpdate<T>(lanes: seq<Lane<T>>, l: nat, lane: Lane<T>)
    requires l < |lanes|
    ensures multiset(Items(lanes[l := lane])) + multiset(LaneItems(lanes[l])) ==
            multiset(Items(lanes)) + multiset(LaneItems(lane))
  {
    hide Items;
    hide LaneItems;
    ItemsCons(lanes);
    ItemsCons(lanes[l := lane]);
    if l == 0 {
      assert lanes[0 := lane][1..] == lanes[1..];
    } else {
      ItemsUpdate(lanes[1..], l - 1, lane);
      assert lanes[l := lane][1..] == lanes[1..][l - 1 := lane] && lanes[1..][l - 1] == lanes[l];
      Bags.Under(multiset(LaneItems(lanes[0])), multiset(Items(lanes[1..])),
          multiset(Items(lanes[1..][l - 1 := lane])), multiset(LaneItems(lanes[l])), multiset(LaneItems(lane)));
    }
  }

  lemma {:induction false} TickLanesConserve<T>(cps: nat, lanes: seq<Lane<T>>, l: nat, post: seq<T>, cap: nat)
    requires l <= |lanes|
    ensures var o := TickLanes(cps, lanes, l, post, cap);
            multiset(o.post) + multiset(Items(o.lanes)) == multiset(post) + multiset(Items(lanes))
    decreases |lanes| - l
  {
    if l < |lanes| {
      var a := TickLane(cps, lanes[l], |lanes[l]|, post, cap);
      TickLaneKeepsOrder(cps, lanes[l], |lanes[l]|, post, cap);
      assert multiset(a.post) + multiset(LaneItems(a.lane)) == multiset(post) + multiset(LaneItems(lanes[l])) by {
        assert multiset(a.post + LaneItems(a.lane)) == multiset(post + LaneItems(lanes[l]));
      }
      ItemsUpdate(lanes, l, a.lane);
      TickLanesConserve(cps, lanes[l := a.lane], l + 1, a.post, cap);
      MultisetShift(multiset(post), multiset(a.post), multiset(LaneItems(lanes[l])), multiset(LaneItems(a.lane)),
                    multiset(Items(lanes)), multiset(Items(lanes[l := a.lane])));
    }
  }

  lemma MultisetShift<T>(p: multiset<T>, p': multiset<T>, x: multiset<T>, x': multiset<T>, m: multiset<T>,
      m': multiset<T>)
    requires p' + x' == p + x && m' + x == m + x'
    ensures p' + m' == p + m
  {
    forall t: T ensures (p' + m')[t] == (p + m)[t] {
      assert (p' + x')[t] == (p + x)[t];
      assert (m' + x)[t] == (m + x')[t];
    }
  }

  /** Nothing is lost or duplicated by Tick, at any width. */
  lemma TickConserves<T>(cps: nat, lanes: seq<Lane<T>>, post: seq<T>, cap: nat)
    ensures var o := Tick(cps, lanes, post, cap);
            multiset(o.post) + multiset(Items(o.lanes)) == multiset(post) + multiset(Items(lanes))
  {
    TickLanesConserve(cps, lanes, 0, post, cap);
  }

  /** Accept puts exactly the new item in. */
  lemma AcceptAdds<T>(cps: nat, numStage: nat, lanes: seq<Lane<T>>, post: seq<T>, cap: nat, x: T)
    requires Shape(numStage, lanes) && CanAccept(numStage, lanes, post, cap)
    ensures var o := Accept(cps, numStage, lanes, post, cap, x);
            multiset(o.post) + multiset(Items(o.lanes)) == multiset(post) + multiset(Items(lanes)) + multiset{x}
  {
    if numStage == 0 {
      assert multiset(post + [x]) == multiset(post) + multiset{x};
    } else {
      InsertAdds(lanes, FreeLane(lanes, 0), x, cps - 1);
    }
  }

  lemma InsertAdds<T>(lanes: seq<Lane<T>>, l: nat, x: T, left: int)
    requires l < |lanes| && lanes[l] != [] && lanes[l][0].elem.None?
    ensures multiset(Items(lanes[l := lanes[l][0 := Stage(Some(x), left)]])) == multiset(Items(lanes)) + multiset{x}
  {
    var lane := lanes[l][0 := Stage(Some(x), left)];
    AppendedAtTail(lanes[l], x, left);
    ItemsUpdate(lanes, l, lane);
    assert multiset(LaneItems(lane)) == multiset(LaneItems(lanes[l])) + multiset{x};
    MultisetShift(multiset{x}, multiset{}, multiset(LaneItems(lanes[l])), multiset(LaneItems(lane)),
        multiset(Items(lanes)), multiset(Items(lanes[l := lane])));
    assert multiset{} + multiset(Items(lanes[l := lane])) == multiset(Items(lanes[l := lane]));
  }

  /** With one lane the new item goes behind everything. */
  lemma AcceptIsFifo<T>(cps: nat, numStage: nat, lanes: seq<Lane<T>>, post: seq<T>, cap: nat, x: T)
    requires Shape(numStage, lanes) && CanAccept(numStage, lanes, post, cap) && |lanes| == 1
    ensures var o := Accept(cps, numStage, lanes, post, cap, x); o.post + Items(o.lanes) == post + Items(lanes) + [x]
  {
    hide Items;
    hide LaneItems;
    OneLane(lanes);
    if numStage == 0 {
      assert lanes[0] == [];
      assert post + [] + [x] == post + [x] + [];
      NoItems(lanes[0]);
    } else {
      AppendedAtTail(lanes[0], x, cps - 1);
      var after := lanes[0 := lanes[0][0 := Stage(Some(x), cps - 1)]];
      OneLane(after);
      assert Accept(cps, numStage, lanes, post, cap, x) == Out(after, post, true);
      assert post + (LaneItems(lanes[0]) + [x]) == post + LaneItems(lanes[0]) + [x];
    }
  }

  lemma NoItems<T>(lane: Lane<T>)
    requires lane == []
    ensures LaneItems(lane) == []
  {
  }

  lemma AppendedAtTail<T>(lane: Lane<T>, x: T, left: int)
    requires lane != [] && lane[0].elem.None?
    ensures LaneItems(lane[0 := Stage(Some(x), left)]) == LaneItems(lane) + [x]
  {
    assert lane[0 := Stage(Some(x), left)][1..] == lane[1..];
  }

  /** The post buffer never grows beyond its capacity in Tick. */
  lemma {:induction false} TickLaneNoOverflow<T>(cps: nat, lane: Lane<T>, k: nat, post: seq<T>, cap: nat)
    requires k <= |lane| && |post| <= cap
    ensures post <= TickLane(cps, lane, k, post, cap).post && |TickLane(cps, lane, k, post, cap).post| <= cap
    decreases k
  {
    if k > 0 {
      var a := TickStage(cps, lane, k - 1, post, cap);
      TickLaneNoOverflow(cps, a.lane, k - 1, a.post, cap);
    }
  }

  lemma {:induction false} TickLanesNoOverflow<T>(cps: nat, lanes: seq<Lane<T>>, l: nat, post: seq<T>, cap: nat)
    requires l <= |lanes| && |post| <= cap
    ensures post <= TickLanes(cps, lanes, l, post, cap).post && |TickLanes(cps, lanes, l, post, cap).post| <= cap
    decreases |lanes| - l
  {
    if l < |lanes| {
      var a := TickLane(cps, lanes[l], |lanes[l]|, post, cap);
      TickLaneNoOverflow(cps, lanes[l], |lanes[l]|, post, cap);
      TickLanesNoOverflow(cps, lanes[l := a.lane], l + 1, a.post, cap);
    }
  }

  /* ----- Progress ----- */

  function Max0(x: int): nat { if x > 0 then x else 0 }

  /** Cycles a stage really takes: a stage of 0 cycles is passed in one Tick like a stage of 1. */
  function Cycles(cps: nat): nat { if cps == 0 then 1 else cps }

  /** Ticks needed to pass k whole stages. */
  function Ahead(cps: nat, k: nat): nat {
    if k == 0 then 0 else Cycles(cps) + Ahead(cps, k - 1)
  }

  lemma {:induction false} AheadIsProduct(cps: nat, k: nat)
    ensures Ahead(cps, k) == k * Cycles(cps)
  {
    if k > 0 {
      AheadIsProduct(cps, k - 1);
      assert k * Cycles(cps) == (k - 1) * Cycles(cps) + Cycles(cps);
    }
  }

  /** Ticks an item in stage i of n still needs when nothing blocks it. */
  function Remaining<T>(cps: nat, n: nat, i: nat, stage: Stage<T>): nat
    requires i < n
  {
    Max0(stage.cycleLeft) + Ahead(cps, n - 1 - i) + 1
  }

  function StageWork<T>(cps: nat, n: nat, i: nat, stage: Stage<T>): nat
    requires i < n
  {
    if stage.elem.Some? then Remaining(cps, n, i, stage) else 0
  }

  function LaneWork<T>(cps: nat, lane: Lane<T>, i: nat): nat
    requires i <= |lane|
    decreases |lane| - i
  {
    if i == |lane| then 0 else StageWork(cps, |lane|, i, lane[i]) + LaneWork(cps, lane, i + 1)
  }

  function Work<T>(cps: nat, lanes: seq<Lane<T>>): nat {
    if lanes == [] then 0 else LaneWork(cps, lanes[0], 0) + Work(cps, lanes[1..])
  }

  lemma {:induction false} LaneWorkUpdate<T>(cps: nat, lane: Lane<T>, from: nat, i: nat, stage: Stage<T>)
    requires from <= |lane| && i < |lane|
    ensures LaneWork(cps, lane[i := stage], from) ==
            LaneWork(cps, lane, from) +
                (if from <= i then StageWork(cps, |lane|, i, stage) - StageWork(cps, |lane|, i, lane[i]) else 0)
    decreases |lane| - from
  {
    if from < |lane| {
      LaneWorkUpdate(cps, lane, from + 1, i, stage);
    }
  }

  /** A stage visit reports progress exactly when it takes one unit of work away; otherwise it changes nothing. */
  lemma TickStageWork<T>(cps: nat, lane: Lane<T>, i: nat, post: seq<T>, cap: nat)
    requires i < |lane|
    ensures var o := TickStage(cps, lane, i, post, cap);
            if o.progress then LaneWork(cps, o.lane, 0) < LaneWork(cps, lane, 0) else o.lane == lane && o.post == post
  {
    var o := TickStage(cps, lane, i, post, cap);
    var n := |lane|;
    if o.progress {
      if i + 1 < n && lane[i].cycleLeft <= 0 {
        var mid := lane[i + 1 := Stage(lane[i].elem, cps - 1)];
        LaneWorkUpdate(cps, lane, 0, i + 1, mid[i + 1]);
        LaneWorkUpdate(cps, mid, 0, i, lane[i].(elem := None));
        assert n - 1 - (i + 1) == n - 1 - i - 1;
      } else {
        LaneWorkUpdate(cps, lane, 0, i, o.lane[i]);
      }
    }
  }

  lemma {:induction false} TickLaneWork<T>(cps: nat, lane: Lane<T>, k: nat, post: seq<T>, cap: nat)
    requires k <= |lane|
    ensures var o := TickLane(cps, lane, k, post, cap);
            if o.progress then LaneWork(cps, o.lane, 0) < LaneWork(cps, lane, 0) else o.lane == lane && o.post == post
    decreases k
  {
    if k > 0 {
      var a := TickStage(cps, lane, k - 1, post, cap);
      TickStageWork(cps, lane, k - 1, post, cap);
      TickLaneWork(cps, a.lane, k - 1, a.post, cap);
    }
  }

  lemma {:induction false} WorkUpdate<T>(cps: nat, lanes: seq<Lane<T>>, l: nat, lane: Lane<T>)
    requires l < |lanes|
    ensures Work(cps, lanes[l := lane]) == Work(cps, lanes) - LaneWork(cps, lanes[l], 0) + LaneWork(cps, lane, 0)
  {
    if l == 0 {
      assert lanes[0 := lane][1..] == lanes[1..];
    } else {
      WorkUpdate(cps, lanes[1..], l - 1, lane);
      assert lanes[l := lane][1..] == lanes[1..][l - 1 := lane];
    }
  }

  lemma {:induction false} TickLanesWork<T>(cps: nat, lanes: seq<Lane<T>>, l: nat, post: seq<T>, cap: nat)
    requires l <= |lanes|
    ensures var o := TickLanes(cps, lanes, l, post, cap);
            if o.progress then Work(cps, o.lanes) < Work(cps, lanes) else o.lanes == lanes && o.post == post
    decreases |lanes| - l
  {
    if l < |lanes| {
      var a := TickLane(cps, lanes[l], |lanes[l]|, post, cap);
      TickLaneWork(cps, lanes[l], |lanes[l]|, post, cap);
      WorkUpdate(cps, lanes, l, a.lane);
      TickLanesWork(cps, lanes[l := a.lane], l + 1, a.post, cap);
      assert !a.progress ==> lanes[l := a.lane] == lanes;
    }
  }

  /** Tick reports progress exactly when the total remaining work strictly drops, and is a no-op otherwise. */
  lemma TickProgress<T>(cps: nat, lanes: seq<Lane<T>>, post: seq<T>, cap: nat)
    ensures var o := Tick(cps, lanes, post, cap);
            && (o.progress <==> Work(cps, o.lanes) < Work(cps, lanes))
            && (!o.progress ==> o.lanes == lanes && o.post == post)
  {
    TickLanesWork(cps, lanes, 0, post, cap);
  }

  /** A lane that makes no progress while the post buffer has room is empty. */
  lemma {:induction false} StuckLaneIsEmpty<T>(cps: nat, lane: Lane<T>, k: nat, post: seq<T>, cap: nat)
    requires k <= |lane| && |post| < cap
    requires forall i :: k <= i < |lane| ==> lane[i].elem.None?
    requires !TickLane(cps, lane, k, post, cap).progress
    ensures forall i :: 0 <= i < |lane| ==> lane[i].elem.None?
    decreases k
  {
    if k > 0 {
      TickStageWork(cps, lane, k - 1, post, cap);
      StuckLaneIsEmpty(cps, lane, k - 1, post, cap);
    }
  }

  lemma {:induction false} StuckLanesAreEmpty<T>(cps: nat, lanes: seq<Lane<T>>, l: nat, post: seq<T>, cap: nat)
    requires l <= |lanes| && |post| < cap
    requires !TickLanes(cps, lanes, l, post, cap).progress
    ensures forall j, i :: l <= j < |lanes| && 0 <= i < |lanes[j]| ==> lanes[j][i].elem.None?
    decreases |lanes| - l
  {
    if l < |lanes| {
      var a := TickLane(cps, lanes[l], |lanes[l]|, post, cap);
      TickLaneWork(cps, lanes[l], |lanes[l]|, post, cap);
      StuckLaneIsEmpty(cps, lanes[l], |lanes[l]|, post, cap);
      assert lanes[l := a.lane] == lanes;
      StuckLanesAreEmpty(cps, lanes, l + 1, post, cap);
    }
  }

  ghost predicate Empty<T>(lanes: seq<Lane<T>>) {
    forall j, i :: 0 <= j < |lanes| && 0 <= i < |lanes[j]| ==> lanes[j][i].elem.None?
  }
}
