/** When items leave the pipeline of akita/pipelining/pipeline.go, as long as the post buffer never refuses one. */
module PipelineTiming {
  import opened Wrappers
  import opened PipelineModel

  /** No item can catch up with the one ahead of it. */
  ghost predicate Smooth<T>(cps: nat, lane: Lane<T>) {
    && (forall i :: 0 <= i < |lane| && lane[i].elem.Some? ==> Max0(lane[i].cycleLeft) < Cycles(cps))
    && (forall i :: 0 <= i < |lane| - 1 && lane[i].elem.Some? && lane[i + 1].elem.Some? ==>
         Max0(lane[i].cycleLeft) >= Max0(lane[i + 1].cycleLeft))
  }

  predicate Waiting<T>(stage: Stage<T>) {
    stage.elem.Some? && stage.cycleLeft > 0
  }

  /** The stage's item is due to move in the next Tick. */
  predicate Ready<T>(stage: Stage<T>) {
    stage.elem.Some? && stage.cycleLeft <= 0
  }

  /** What stage i holds after an unobstructed Tick of the lane. */
  function After<T>(cps: nat, before: Lane<T>, i: nat): Stage<T>
    requires i < |before|
  {
    if Waiting(before[i]) then before[i].(cycleLeft := before[i].cycleLeft - 1)
    else if i > 0 && Ready(before[i - 1]) then Stage(before[i - 1].elem, cps - 1)
    else before[i].(elem := None)
  }

  function Advance<T>(cps: nat, lane: Lane<T>): Lane<T> {
    seq(|lane|, i requires 0 <= i < |lane| => After(cps, lane, i))
  }

  function LeavesNow<T>(lane: Lane<T>): seq<T> {
    if lane != [] && Ready(lane[|lane| - 1]) then [lane[|lane| - 1].elem.value] else []
  }

  /** The inner loop, entered with stages k.. already visited. */
  lemma {:induction false} LoopUnobstructed<T>(cps: nat, before: Lane<T>, lane: Lane<T>, k: nat, post: seq<T>, cap: nat)
    requires Smooth(cps, before) && k <= |before| == |lane|
    requires forall i :: 0 <= i < k ==> lane[i] == before[i]
    requires forall i :: k < i < |before| ==> lane[i] == After(cps, before, i)
    requires k < |before| ==> lane[k] == if Waiting(before[k]) then After(cps, before, k) else before[k].(elem := None)
    requires k == |before| ==> |post| + |LeavesNow(before)| <= cap
    ensures var o := TickLane(cps, lane, k, post, cap);
            && o.lane == Advance(cps, before)
            && o.post == if k == |before| then post + LeavesNow(before) else post
    decreases k
  {
    if k > 0 {
      var a := TickStage(cps, lane, k - 1, post, cap);
      assert lane[k - 1] == before[k - 1];
      if k < |before| && Ready(before[k - 1]) {
        assert !Waiting(before[k]);
      }
      LoopUnobstructed(cps, before, a.lane, k - 1, a.post, cap);
    }
  }

  /** An unobstructed Tick of a smooth lane moves every item that is due; the lane stays smooth. */
  lemma LaneUnobstructed<T>(cps: nat, lane: Lane<T>, post: seq<T>, cap: nat)
    requires Smooth(cps, lane) && |post| + |LeavesNow(lane)| <= cap
    ensures var o := TickLane(cps, lane, |lane|, post, cap);
            o.lane == Advance(cps, lane) && o.post == post + LeavesNow(lane)
    ensures Smooth(cps, Advance(cps, lane))
  {
    LoopUnobstructed(cps, lane, lane, |lane|, post, cap);
  }

  /** x sits somewhere in the lane with r unobstructed Ticks to go. */
  ghost predicate Sits<T>(cps: nat, lane: Lane<T>, x: T, r: nat) {
    exists i :: 0 <= i < |lane| && lane[i].elem == Some(x) && Remaining(cps, |lane|, i, lane[i]) == r
  }

  /** One unobstructed Tick brings an item exactly one Tick closer, or out. */
  lemma OneTickCloser<T>(cps: nat, lane: Lane<T>, x: T, r: nat)
    requires Smooth(cps, lane) && Sits(cps, lane, x, r)
    ensures r > 0
    ensures r > 1 ==> Sits(cps, Advance(cps, lane), x, r - 1)
    ensures r == 1 ==> LeavesNow(lane) == [x]
  {
    var next := Advance(cps, lane);
    var n := |lane|;
    var i :| 0 <= i < n && lane[i].elem == Some(x) && Remaining(cps, n, i, lane[i]) == r;
    if Waiting(lane[i]) {
      assert Remaining(cps, n, i, next[i]) == r - 1;
    } else if i + 1 < n {
      assert !Waiting(lane[i + 1]);
      assert Ahead(cps, n - 1 - i) == Cycles(cps) + Ahead(cps, n - 1 - (i + 1));
      assert Remaining(cps, n, i + 1, next[i + 1]) == r - 1;
    }
  }

  /* ----- The whole pipeline ----- */

  ghost predicate AllSmooth<T>(cps: nat, lanes: seq<Lane<T>>) {
    forall l :: 0 <= l < |lanes| ==> Smooth(cps, lanes[l])
  }

  /** Everything that leaves in the next Tick, lane by lane. */
  function Leaving<T>(lanes: seq<Lane<T>>, l: nat): seq<T>
    requires l <= |lanes|
    decreases |lanes| - l
  {
    if l == |lanes| then [] else LeavesNow(lanes[l]) + Leaving(lanes, l + 1)
  }

  lemma {:induction false} LeavingUnchanged<T>(a: seq<Lane<T>>, b: seq<Lane<T>>, l: nat)
    requires |a| == |b| && l <= |a|
    requires forall j :: l <= j < |a| ==> a[j] == b[j]
    ensures Leaving(a, l) == Leaving(b, l)
    decreases |a| - l
  {
    if l < |a| {
      LeavingUnchanged(a, b, l + 1);
    }
  }

  /** The stages before the last one put nothing into the post buffer. */
  lemma {:induction false} OthersKeepPost<T>(cps: nat, lane: Lane<T>, k: nat, post: seq<T>, cap: nat)
    requires k < |lane|
    ensures TickLane(cps, lane, k, post, cap).post == post
    decreases k
  {
    if k > 0 {
      OthersKeepPost(cps, TickStage(cps, lane, k - 1, post, cap).lane, k - 1, post, cap);
    }
  }

  lemma LaneLeaves<T>(cps: nat, lane: Lane<T>, post: seq<T>, cap: nat)
    ensures TickLane(cps, lane, |lane|, post, cap).post == post + if |post| < cap then LeavesNow(lane) else []
  {
    if lane == [] {
      ConcatNil(post);
    } else {
      var a := TickStage(cps, lane, |lane| - 1, post, cap);
      OthersKeepPost(cps, a.lane, |lane| - 1, a.post, cap);
    }
  }

  /** The first n of s, or all. */
  function First<T>(s: seq<T>, n: int): seq<T> {
    if n <= 0 then [] else if n < |s| then s[..n] else s
  }

  lemma FirstOfBoth<T>(post: seq<T>, now: seq<T>, later: seq<T>, cap: nat)
    requires |now| <= 1
    ensures var post' := post + if |post| < cap then now else [];
            post' + First(later, cap - |post'|) == post + First(now + later, cap - |post|)
  {
    if |post| < cap {
      assert (post + now) + First(later, cap - |post + now|) == post + (now + First(later, cap - |post + now|));
      assert now + First(later, cap - |post + now|) == First(now + later, cap - |post|);
    } else {
      ConcatNil(post);
    }
  }

  /** Whatever the post buffer's room: what is due leaves in the order of the lanes, as far as there is room. */
  lemma {:induction false} LanesLeaveInOrder<T>(cps: nat, lanes: seq<Lane<T>>, l: nat, post: seq<T>, cap: nat)
    requires l <= |lanes|
    ensures TickLanes(cps, lanes, l, post, cap).post == post + First(Leaving(lanes, l), cap - |post|)
    decreases |lanes| - l
  {
    if l == |lanes| {
      ConcatNil(post);
    } else {
      hide TickLane;
      var a := TickLane(cps, lanes[l], |lanes[l]|, post, cap);
      var next := lanes[l := a.lane];
      LaneLeaves(cps, lanes[l], post, cap);
      LanesLeaveInOrder(cps, next, l + 1, a.post, cap);
      LeavingUnchanged(lanes, next, l + 1);
      FirstOfBoth(post, LeavesNow(lanes[l]), Leaving(lanes, l + 1), cap);
      hide First;
    }
  }

  lemma {:induction false} LeavingContains<T>(lanes: seq<Lane<T>>, from: nat, l: nat)
    requires from <= l < |lanes|
    ensures forall x :: x in LeavesNow(lanes[l]) ==> x in Leaving(lanes, from)
    decreases l - from
  {
    if from < l {
      LeavingContains(lanes, from + 1, l);
    }
  }

  /** All lanes from l on advance, and what is due leaves them. */
  ghost predicate Unobstructed<T>(cps: nat, lanes: seq<Lane<T>>, l: nat, post: seq<T>, o: Out<T>)
    requires l <= |lanes|
  {
    o.lanes == lanes[..l] + Advanced(cps, lanes[l..]) && o.post == post + Leaving(lanes, l)
  }

  lemma LanesDone<T>(cps: nat, lanes: seq<Lane<T>>, post: seq<T>, cap: nat)
    ensures Unobstructed(cps, lanes, |lanes|, post, TickLanes(cps, lanes, |lanes|, post, cap))
  {
    ConcatNil(post);
    ConcatNil(lanes);
    assert lanes[|lanes|..] == [] && lanes[..|lanes|] == lanes;
  }

  /** Lane l advances and then those behind it. */
  lemma LanesStep<T>(cps: nat, lanes: seq<Lane<T>>, l: nat, post: seq<T>, cap: nat)
    requires l < |lanes| && Smooth(cps, lanes[l]) && |post| + |LeavesNow(lanes[l])| <= cap
    ensures var next, post' := lanes[l := Advance(cps, lanes[l])], post + LeavesNow(lanes[l]);
            var o, o' := TickLanes(cps, lanes, l, post, cap), TickLanes(cps, next, l + 1, post', cap);
            o.lanes == o'.lanes && o.post == o'.post
  {
    hide TickLane;
    hide Smooth;
    hide Advance;
    hide LeavesNow;
    LaneUnobstructed(cps, lanes[l], post, cap);
  }

  lemma LanesJoin<T>(cps: nat, lanes: seq<Lane<T>>, l: nat, post: seq<T>, o: Out<T>)
    requires l < |lanes|
    requires Unobstructed(cps, lanes[l := Advance(cps, lanes[l])], l + 1, post + LeavesNow(lanes[l]), o)
    ensures Unobstructed(cps, lanes, l, post, o)
  {
    hide Advance;
    hide LeavesNow;
    var lane := Advance(cps, lanes[l]);
    var next := lanes[l := lane];
    LeavingUnchanged(lanes, next, l + 1);
    assert next[l + 1..] == lanes[l + 1..] == lanes[l..][1..];
    assert next[..l + 1] == lanes[..l] + [lane];
    var rest := Advanced(cps, lanes[l + 1..]);
    assert Advanced(cps, lanes[l..]) == [lane] + rest;
    assert (lanes[..l] + [lane]) + rest == lanes[..l] + ([lane] + rest);
    var now, then' := LeavesNow(lanes[l]), Leaving(lanes, l + 1);
    assert (post + now) + then' == post + (now + then');
  }

  lemma LeavingHead<T>(lanes: seq<Lane<T>>, l: nat)
    requires l < |lanes|
    ensures |Leaving(lanes, l)| == |LeavesNow(lanes[l])| + |Leaving(lanes, l + 1)|
  {
  }

  lemma {:induction false} LanesUnobstructed<T>(cps: nat, lanes: seq<Lane<T>>, l: nat, post: seq<T>, cap: nat)
    requires l <= |lanes| && (forall j :: l <= j < |lanes| ==> Smooth(cps, lanes[j]))
    requires |post| + |Leaving(lanes, l)| <= cap
    ensures Unobstructed(cps, lanes, l, post, TickLanes(cps, lanes, l, post, cap))
    decreases |lanes| - l
  {
    hide *;
    if l == |lanes| {
      LanesDone(cps, lanes, post, cap);
    } else {
      var next, post' := lanes[l := Advance(cps, lanes[l])], post + LeavesNow(lanes[l]);
      LeavingHead(lanes, l);
      LeavingUnchanged(lanes, next, l + 1);
      LanesStep(cps, lanes, l, post, cap);
      LanesUnobstructed(cps, next, l + 1, post', cap);
      LanesJoin(cps, lanes, l, post, TickLanes(cps, next, l + 1, post', cap));
      SameOutcome(cps, lanes, l, post, TickLanes(cps, next, l + 1, post', cap), TickLanes(cps, lanes, l, post, cap));
    }
  }

  lemma SameOutcome<T>(cps: nat, lanes: seq<Lane<T>>, l: nat, post: seq<T>, a: Out<T>, b: Out<T>)
    requires l <= |lanes| && Unobstructed(cps, lanes, l, post, a) && b.lanes == a.lanes && b.post == a.post
    ensures Unobstructed(cps, lanes, l, post, b)
  {
    hide Advanced;
    hide Leaving;
  }

  /** One Tick of the whole pipeline. */
  lemma TickUnobstructed<T>(cps: nat, lanes: seq<Lane<T>>, post: seq<T>, cap: nat)
    requires AllSmooth(cps, lanes) && |post| + |Leaving(lanes, 0)| <= cap
    ensures var o := Tick(cps, lanes, post, cap); o.lanes == Advanced(cps, lanes) && o.post == post + Leaving(lanes, 0)
  {
    hide Smooth;
    hide Advanced;
    hide Leaving;
    hide TickLanes;
    LanesUnobstructed(cps, lanes, 0, post, cap);
    assert lanes[0..] == lanes;
    assert lanes[..0] + Advanced(cps, lanes) == Advanced(cps, lanes);
  }

  function Advanced<T>(cps: nat, lanes: seq<Lane<T>>): (r: seq<Lane<T>>)
    ensures |r| == |lanes| && forall j :: 0 <= j < |r| ==> r[j] == Advance(cps, lanes[j])
  {
    if lanes == [] then [] else [Advance(cps, lanes[0])] + Advanced(cps, lanes[1..])
  }

  /** What happens to the pipeline: its own Tick, an Accept, or its owner taking k items from the post buffer. */
  datatype Op<T> = TickOp | AcceptOp(x: T) | DrainOp(k: nat)

  datatype Pipe<T> = Pipe(lanes: seq<Lane<T>>, post: seq<T>)

  /** A Tick is allowed when the post buffer has room for all that leaves in it. */
  ghost predicate Allowed<T>(numStage: nat, cap: nat, p: Pipe<T>, op: Op<T>) {
    Shape(numStage, p.lanes) &&
    match op
    case TickOp => |p.post| + |Leaving(p.lanes, 0)| <= cap
    case AcceptOp(x) => CanAccept(numStage, p.lanes, p.post, cap)
    case DrainOp(k) => k <= |p.post|
  }

  ghost function Apply<T>(cps: nat, numStage: nat, cap: nat, p: Pipe<T>, op: Op<T>): Pipe<T>
    requires Allowed(numStage, cap, p, op)
  {
    match op
    case TickOp => var o := Tick(cps, p.lanes, p.post, cap); Pipe(o.lanes, o.post)
    case AcceptOp(x) => var o := Accept(cps, numStage, p.lanes, p.post, cap, x); Pipe(o.lanes, o.post)
    case DrainOp(k) => Pipe(p.lanes, p.post[k..])
  }

  ghost predicate AllAllowed<T>(cps: nat, numStage: nat, cap: nat, p: Pipe<T>, ops: seq<Op<T>>)
    decreases |ops|
  {
    ops == [] || (Allowed(numStage, cap, p, ops[0])
        && AllAllowed(cps, numStage, cap, Apply(cps, numStage, cap, p, ops[0]), ops[1..]))
  }

  ghost function Run<T>(cps: nat, numStage: nat, cap: nat, p: Pipe<T>, ops: seq<Op<T>>): Pipe<T>
    requires AllAllowed(cps, numStage, cap, p, ops)
    decreases |ops|
  {
    if ops == [] then p else Run(cps, numStage, cap, Apply(cps, numStage, cap, p, ops[0]), ops[1..])
  }

  function Ticks<T(==)>(ops: seq<Op<T>>): nat {
    if ops == [] then 0 else (if ops[0].TickOp? then 1 else 0) + Ticks(ops[1..])
  }

  lemma StepKeepsSmooth<T>(cps: nat, numStage: nat, cap: nat, p: Pipe<T>, op: Op<T>)
    requires Allowed(numStage, cap, p, op) && AllSmooth(cps, p.lanes)
    ensures var q := Apply(cps, numStage, cap, p, op);
            AllSmooth(cps, q.lanes) && Shape(numStage, q.lanes) && |q.lanes| == |p.lanes|
  {
    match op
    case TickOp =>
      TickUnobstructed(cps, p.lanes, p.post, cap);
      forall l | 0 <= l < |p.lanes| ensures Smooth(cps, Advance(cps, p.lanes[l])) {
        LaneUnobstructed(cps, p.lanes[l], [], 1);
      }
    case DrainOp(_) =>
    case AcceptOp(x) =>
      if numStage > 0 {
        var l := FreeLane(p.lanes, 0);
        var lane := p.lanes[l][0 := Stage(Some(x), cps - 1)];
        assert Smooth(cps, lane);
      }
  }

  lemma TickKeepsSeat<T>(cps: nat, numStage: nat, cap: nat, p: Pipe<T>, l: nat, x: T, r: nat)
    requires Allowed(numStage, cap, p, TickOp) && AllSmooth(cps, p.lanes) && l < |p.lanes|
    requires Sits(cps, p.lanes[l], x, r) && r > 1
    ensures var q := Apply(cps, numStage, cap, p, TickOp); l < |q.lanes| && Sits(cps, q.lanes[l], x, r - 1)
  {
    hide Sits;
    hide Smooth;
    hide Advance;
    hide Tick;
    hide Leaving;
    TickUnobstructed(cps, p.lanes, p.post, cap);
    OneTickCloser(cps, p.lanes[l], x, r);
  }

  lemma AcceptKeepsSeat<T>(cps: nat, numStage: nat, cap: nat, p: Pipe<T>, y: T, l: nat, x: T, r: nat)
    requires Allowed(numStage, cap, p, AcceptOp(y)) && l < |p.lanes| && Sits(cps, p.lanes[l], x, r)
    ensures var q := Apply(cps, numStage, cap, p, AcceptOp(y)); l < |q.lanes| && Sits(cps, q.lanes[l], x, r)
  {
    hide Leaving;
    hide Remaining;
    var q := Apply(cps, numStage, cap, p, AcceptOp(y));
    if numStage > 0 {
      var i :| 0 <= i < |p.lanes[l]| && p.lanes[l][i].elem == Some(x)
          && Remaining(cps, |p.lanes[l]|, i, p.lanes[l][i]) == r;
      assert q.lanes[l][i] == p.lanes[l][i];
    }
  }

  lemma StepKeepsSeat<T>(cps: nat, numStage: nat, cap: nat, p: Pipe<T>, op: Op<T>, l: nat, x: T, r: nat)
    requires Allowed(numStage, cap, p, op) && AllSmooth(cps, p.lanes) && l < |p.lanes| && Sits(cps, p.lanes[l], x, r)
    requires op.TickOp? ==> r > 1
    ensures var q := Apply(cps, numStage, cap, p, op);
            l < |q.lanes| && Sits(cps, q.lanes[l], x, if op.TickOp? then r - 1 else r)
  {
    match op
    case TickOp =>
      hide *;
      TickKeepsSeat(cps, numStage, cap, p, l, x, r);
    case AcceptOp(y) =>
      hide *;
      AcceptKeepsSeat(cps, numStage, cap, p, y, l, x, r);
    case DrainOp(_) =>
  }

  lemma {:induction false} RunKeepsSeat<T>(cps: nat, numStage: nat, cap: nat, p: Pipe<T>, ops: seq<Op<T>>, l: nat,
      x: T, r: nat)
    requires AllAllowed(cps, numStage, cap, p, ops) && AllSmooth(cps, p.lanes) && l < |p.lanes|
    requires Sits(cps, p.lanes[l], x, r) && Ticks(ops) < r
    ensures var q := Run(cps, numStage, cap, p, ops);
            && AllSmooth(cps, q.lanes) && l < |q.lanes| && Sits(cps, q.lanes[l], x, r - Ticks(ops))
    decreases |ops|
  {
    if ops != [] {
      StepKeepsSmooth(cps, numStage, cap, p, ops[0]);
      StepKeepsSeat(cps, numStage, cap, p, ops[0], l, x, r);
      RunKeepsSeat(cps, numStage, cap, Apply(cps, numStage, cap, p, ops[0]), ops[1..], l, x,
          if ops[0].TickOp? then r - 1 else r);
    }
  }

  lemma {:induction false} RunKeepsSmooth<T>(cps: nat, numStage: nat, cap: nat, p: Pipe<T>, ops: seq<Op<T>>)
    requires AllAllowed(cps, numStage, cap, p, ops) && AllSmooth(cps, p.lanes)
    ensures AllSmooth(cps, Run(cps, numStage, cap, p, ops).lanes)
    decreases |ops|
  {
    if ops != [] {
      StepKeepsSmooth(cps, numStage, cap, p, ops[0]);
      RunKeepsSmooth(cps, numStage, cap, Apply(cps, numStage, cap, p, ops[0]), ops[1..]);
    }
  }

  /** The Tick that ends the latency pushes the item into the post buffer. */
  lemma LastTick<T>(cps: nat, numStage: nat, cap: nat, q: Pipe<T>, l: nat, x: T)
    requires AllSmooth(cps, q.lanes) && Allowed(numStage, cap, q, TickOp) && l < |q.lanes|
            && Sits(cps, q.lanes[l], x, 1)
    ensures var t := Apply(cps, numStage, cap, q, TickOp); q.post <= t.post && x in t.post[|q.post|..]
  {
    TickUnobstructed(cps, q.lanes, q.post, cap);
    LeavingContains(q.lanes, 0, l);
    OneTickCloser(cps, q.lanes[l], x, 1);
    assert x in LeavesNow(q.lanes[l]);
    assert Apply(cps, numStage, cap, q, TickOp).post[|q.post|..] == Leaving(q.lanes, 0);
  }

  lemma LatencyFrom<T>(cps: nat, numStage: nat, cap: nat, p: Pipe<T>, x: T, ops: seq<Op<T>>)
    requires numStage > 0 && AllSmooth(cps, p.lanes) && Allowed(numStage, cap, p, AcceptOp(x))
    requires AllAllowed(cps, numStage, cap, Apply(cps, numStage, cap, p, AcceptOp(x)), ops)
    requires Ticks(ops) < Ahead(cps, numStage)
    ensures var q := Run(cps, numStage, cap, Apply(cps, numStage, cap, p, AcceptOp(x)), ops);
            var l := FreeLane(p.lanes, 0);
            AllSmooth(cps, q.lanes) && l < |q.lanes| && Sits(cps, q.lanes[l], x, Ahead(cps, numStage) - Ticks(ops))
  {
    StepKeepsSmooth(cps, numStage, cap, p, AcceptOp(x));
    var l := FreeLane(p.lanes, 0);
    FreshSeat(cps, p.lanes[l], x);
    RunKeepsSeat(cps, numStage, cap, Apply(cps, numStage, cap, p, AcceptOp(x)), ops, l, x, Ahead(cps, numStage));
  }

  /** From a fresh pipeline, over any run in which the post buffer refuses nothing: an item accepted after `warm`
      is still inside after fewer than numStage * cycles Ticks, and leaves in exactly that Tick, whatever else
      shares the pipeline. A cycle count of 0 behaves as 1. */
  lemma ExactLatency<T>(cps: nat, numStage: nat, width: nat, cap: nat, warm: seq<Op<T>>, x: T, ops: seq<Op<T>>)
    requires numStage > 0 && AllAllowed(cps, numStage, cap, Pipe(EmptyLanes(width, numStage), []), warm)
    requires Allowed(numStage, cap, Run(cps, numStage, cap, Pipe(EmptyLanes(width, numStage), []), warm), AcceptOp(x))
    requires var p := Run(cps, numStage, cap, Pipe(EmptyLanes(width, numStage), []), warm);
             AllAllowed(cps, numStage, cap, Apply(cps, numStage, cap, p, AcceptOp(x)), ops)
    requires Ticks(ops) < numStage * Cycles(cps)
    ensures var p := Run(cps, numStage, cap, Pipe(EmptyLanes(width, numStage), []), warm);
            var q := Run(cps, numStage, cap, Apply(cps, numStage, cap, p, AcceptOp(x)), ops);
            && (exists l :: 0 <= l < |q.lanes| && Sits(cps, q.lanes[l], x, numStage * Cycles(cps) - Ticks(ops)))
            && (Ticks(ops) + 1 == numStage * Cycles(cps) && Allowed(numStage, cap, q, TickOp) ==>
                 var t := Apply(cps, numStage, cap, q, TickOp);
                 q.post <= t.post && x in t.post[|q.post|..])
  {
    AheadIsProduct(cps, numStage);
    var p0 := Pipe(EmptyLanes<T>(width, numStage), []);
    assert AllSmooth(cps, p0.lanes);
    RunKeepsSmooth(cps, numStage, cap, p0, warm);
    var p := Run(cps, numStage, cap, p0, warm);
    LatencyFrom(cps, numStage, cap, p, x, ops);
    var q := Run(cps, numStage, cap, Apply(cps, numStage, cap, p, AcceptOp(x)), ops);
    if Ticks(ops) + 1 == numStage * Cycles(cps) && Allowed(numStage, cap, q, TickOp) {
      LastTick(cps, numStage, cap, q, FreeLane(p.lanes, 0), x);
    }
  }

  lemma FreshSeat<T>(cps: nat, lane: Lane<T>, x: T)
    requires lane != []
    ensures Sits(cps, lane[0 := Stage(Some(x), cps - 1)], x, Ahead(cps, |lane|))
  {
    var after := lane[0 := Stage(Some(x), cps - 1)];
    assert Remaining(cps, |after|, 0, after[0]) == Ahead(cps, |lane|);
  }
}
