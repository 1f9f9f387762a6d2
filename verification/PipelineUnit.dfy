/** akita/pipelining/pipeline.go as an object that updates its stages in place. */
module Pipelines {
  import opened Wrappers
  import M = PipelineModel

  /** `stages` holds the lanes; `post` is the post-pipeline buffer, with room for `cap` items. */
  class Pipeline<T> {
    const width: nat
    const numStage: nat
    const cyclePerStage: nat
    const cap: nat
    var stages: seq<seq<M.Stage<T>>>
    var post: seq<T>

    ghost predicate Valid()
      reads this
    {
      |stages| == width && M.Shape(numStage, stages)
    }

    constructor (width: nat, numStage: nat, cyclePerStage: nat, cap: nat)
      ensures Valid() && stages == M.EmptyLanes(width, numStage) && post == []
      ensures this.width == width && this.numStage == numStage && this.cyclePerStage == cyclePerStage && this.cap == cap
    {
      this.width, this.numStage, this.cyclePerStage, this.cap := width, numStage, cyclePerStage, cap;
      stages, post := M.EmptyLanes(width, numStage), [];
    }

    method SetStage(lane: nat, i: nat, stage: M.Stage<T>)
      requires Valid() && lane < width && i < numStage
      modifies this`stages
      ensures Valid() && stages == old(stages)[lane := old(stages)[lane][i := stage]]
    {
      stages := stages[lane := stages[lane][i := stage]];
    }

    method TryMoveToPostPipelineBuffer(lane: nat, i: nat) returns (succeed: bool)
      requires Valid() && lane < width && i == numStage - 1 && stages[lane][i].elem.Some?
              && stages[lane][i].cycleLeft <= 0
      modifies this`stages, this`post
      ensures Valid()
      ensures var o := M.TickStage(cyclePerStage, old(stages)[lane], i, old(post), cap);
              stages == old(stages)[lane := o.lane] && post == o.post && succeed == o.progress
    {
      if |post| >= cap {
        assert stages == stages[lane := stages[lane]];
        return false;
      }
      post := post + [stages[lane][i].elem.value];
      SetStage(lane, i, stages[lane][i].(elem := None));
      return true;
    }

    method TryMoveToNextStage(lane: nat, i: nat) returns (succeed: bool)
      requires Valid() && lane < width && i + 1 < numStage && stages[lane][i].elem.Some?
              && stages[lane][i].cycleLeft <= 0
      modifies this`stages
      ensures Valid()
      ensures var o := M.TickStage(cyclePerStage, old(stages)[lane], i, post, cap);
              stages == old(stages)[lane := o.lane] && post == o.post && succeed == o.progress
    {
      if stages[lane][i + 1].elem.Some? {
        assert stages == stages[lane := stages[lane]];
        return false;
      }
      SetStage(lane, i + 1, M.Stage(stages[lane][i].elem, cyclePerStage - 1));
      SetStage(lane, i, stages[lane][i].(elem := None));
      return true;
    }

    /** One visit of the inner loop. */
    method TickStage(lane: nat, i: nat) returns (madeProgress: bool)
      requires Valid() && lane < width && i < numStage
      modifies this`stages, this`post
      ensures Valid()
      ensures var o := M.TickStage(cyclePerStage, old(stages)[lane], i, old(post), cap);
              stages == old(stages)[lane := o.lane] && post == o.post && madeProgress == o.progress
    {
      var stage := stages[lane][i];
      if stage.elem.None? {
        assert stages == stages[lane := stages[lane]];
        return false;
      }
      if stage.cycleLeft > 0 {
        SetStage(lane, i, stage.(cycleLeft := stage.cycleLeft - 1));
        return true;
      }
      if i == numStage - 1 {
        madeProgress := TryMoveToPostPipelineBuffer(lane, i);
      } else {
        madeProgress := TryMoveToNextStage(lane, i);
      }
    }

    method TickLane(lane: nat) returns (madeProgress: bool)
      requires Valid() && lane < width
      modifies this`stages, this`post
      ensures Valid()
      ensures var o := M.TickLane(cyclePerStage, old(stages)[lane], numStage, old(post), cap);
              stages == old(stages)[lane := o.lane] && post == o.post && madeProgress == o.progress
    {
      hide M.TickStage;
      ghost var o := M.TickLane(cyclePerStage, stages[lane], numStage, post, cap);
      madeProgress := false;
      var i := numStage;
      while i > 0
        invariant Valid() && 0 <= i <= numStage && stages == old(stages)[lane := stages[lane]]
        invariant var r := M.TickLane(cyclePerStage, stages[lane], i, post, cap);
                  o.lane == r.lane && o.post == r.post && o.progress == (madeProgress || r.progress)
      {
        i := i - 1;
        var progress := TickStage(lane, i);
        madeProgress := progress || madeProgress;
      }
    }

    /** Moves the elements of every lane forward, the last stage first. */
    method Tick() returns (madeProgress: bool)
      requires Valid()
      modifies this`stages, this`post
      ensures Valid()
      ensures var o := M.Tick(cyclePerStage, old(stages), old(post), cap);
              stages == o.lanes && post == o.post && madeProgress == o.progress
    {
      hide M.TickLane;
      ghost var o := M.TickLanes(cyclePerStage, stages, 0, post, cap);
      madeProgress := false;
      var lane := 0;
      while lane < width
        invariant Valid() && lane <= width
        invariant var r := M.TickLanes(cyclePerStage, stages, lane, post, cap);
                  o.lanes == r.lanes && o.post == r.post && o.progress == (madeProgress || r.progress)
      {
        var progress := TickLane(lane);
        madeProgress := progress || madeProgress;
        lane := lane + 1;
      }
    }

    method CanAccept() returns (can: bool)
      requires Valid()
      ensures can == M.CanAccept(numStage, stages, post, cap)
    {
      if numStage == 0 {
        return |post| < cap;
      }
      var lane := 0;
      while lane < width
        invariant lane <= width
        invariant M.FreeLane(stages, 0) == M.FreeLane(stages, lane)
      {
        if stages[lane][0].elem.None? {
          return true;
        }
        lane := lane + 1;
      }
      return false;
    }

    /** Panics unless CanAccept, which callers must rule out. */
    method Accept(elem: T)
      requires Valid() && M.CanAccept(numStage, stages, post, cap)
      modifies this`stages, this`post
      ensures Valid()
      ensures var o := M.Accept(cyclePerStage, numStage, old(stages), old(post), cap, elem);
              stages == o.lanes && post == o.post
    {
      if numStage == 0 {
        post := post + [elem];
        return;
      }
      var lane := 0;
      while stages[lane][0].elem.Some?
        invariant lane < width && M.FreeLane(stages, 0) == M.FreeLane(stages, lane)
        decreases width - lane
      {
        lane := lane + 1;
      }
      SetStage(lane, 0, M.Stage(Some(elem), cyclePerStage - 1));
    }
  }
}
