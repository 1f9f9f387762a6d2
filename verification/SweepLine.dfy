/** Average task counts of akita/daisen/componentinfo.go: a sweep over sorted time stamps against the time that tasks
    overlap a bin. Times are exact. */
module SweepLine {
  import opened Wrappers

  datatype Task = Task(start: real, end: real)

  datatype Timestamp = Timestamp(time: real, isStart: bool)

  ghost predicate Ordered(tasks: seq<Task>) {
    forall t :: t in tasks ==> t.start <= t.end
  }

  function Min(a: real, b: real): real {
    if a < b then a else b
  }

  function Max(a: real, b: real): real {
    if a > b then a else b
  }

  /** How long a task lies in the bin from b to e. */
  function Overlap(t: Task, b: real, e: real): real {
    Max(0.0, Min(t.end, e) - Max(t.start, b))
  }

  function TotalOverlap(tasks: seq<Task>, b: real, e: real): real {
    if tasks == [] then 0.0 else Overlap(tasks[0], b, e) + TotalOverlap(tasks[1..], b, e)
  }

  /* ----- Time stamps ----- */

  function Stamps(tasks: seq<Task>): seq<Timestamp> {
    if tasks == [] then [] else [Timestamp(tasks[0].start, true), Timestamp(tasks[0].end, false)] + Stamps(tasks[1..])
  }

  /** sort.Sort orders by time only; stamps of equal time may come in any order. */
  ghost predicate SortedStamps(l: seq<Timestamp>) {
    forall i, j :: 0 <= i < j < |l| ==> l[i].time <= l[j].time
  }

  /** How much of the bin lies behind t. */
  function Behind(t: real, b: real, e: real): real {
    if t < b then e - b else if t >= e then 0.0 else e - t
  }

  function Signed(ts: Timestamp, b: real, e: real): real {
    if ts.isStart then Behind(ts.time, b, e) else -Behind(ts.time, b, e)
  }

  function SignedSum(l: seq<Timestamp>, b: real, e: real): real {
    if l == [] then 0.0 else Signed(l[0], b, e) + SignedSum(l[1..], b, e)
  }

  lemma {:induction false} SumAppend(a: seq<Timestamp>, c: seq<Timestamp>, b: real, e: real)
    ensures SignedSum(a + c, b, e) == SignedSum(a, b, e) + SignedSum(c, b, e)
  {
    hide Signed;
    if a == [] {
      ConcatNil(c);
    } else {
      SumAppend(a[1..], c, b, e);
      TailOfConcat(a, c);
    }
  }

  lemma SumOne(ts: Timestamp, b: real, e: real)
    ensures SignedSum([ts], b, e) == Signed(ts, b, e)
  {
    assert [ts][1..] == [];
  }

  /** The sum does not depend on the order. */
  lemma {:induction false} SumOfPermutation(a: seq<Timestamp>, c: seq<Timestamp>, b: real, e: real)
    requires multiset(a) == multiset(c)
    ensures SignedSum(a, b, e) == SignedSum(c, b, e)
  {
    hide Signed;
    if a == [] {
      assert |multiset(c)| == 0;
    } else {
      var i := MatchFirst(a, c);
      SumOfPermutation(a[1..], c[..i] + c[i + 1..], b, e);
      SumAppend(c[..i], c[i + 1..], b, e);
      SumAppend(c[..i], [c[i]] + c[i + 1..], b, e);
      SumAppend([c[i]], c[i + 1..], b, e);
      SumOne(c[i], b, e);
      assert c == c[..i] + ([c[i]] + c[i + 1..]);
    }
  }

  lemma MatchFirst(a: seq<Timestamp>, c: seq<Timestamp>) returns (i: nat)
    requires multiset(a) == multiset(c) && a != []
    ensures i < |c| && c[i] == a[0] && multiset(a[1..]) == multiset(c[..i] + c[i + 1..])
  {
    assert a[0] in multiset(c);
    i :| 0 <= i < |c| && c[i] == a[0];
    assert c == c[..i] + [c[i]] + c[i + 1..];
    assert a == [a[0]] + a[1..];
    Cancel(multiset(a[1..]), multiset(c[..i] + c[i + 1..]), a[0]);
  }

  lemma Cancel(a: multiset<Timestamp>, c: multiset<Timestamp>, x: Timestamp)
    requires multiset{x} + a == c + multiset{x}
    ensures a == c
  {
    forall y: Timestamp ensures a[y] == c[y] {
      assert (multiset{x} + a)[y] == (c + multiset{x})[y];
    }
  }

  /** Start minus end is the overlap. */
  lemma {:induction false} StampsGiveOverlap(tasks: seq<Task>, b: real, e: real)
    requires b <= e && Ordered(tasks)
    ensures SignedSum(Stamps(tasks), b, e) == TotalOverlap(tasks, b, e)
  {
    if tasks != [] {
      var t := tasks[0];
      assert t in tasks;
      StampsGiveOverlap(tasks[1..], b, e);
      var two := [Timestamp(t.start, true), Timestamp(t.end, false)];
      SumAppend(two, Stamps(tasks[1..]), b, e);
      assert two[1..] == [Timestamp(t.end, false)];
      SumOne(Timestamp(t.end, false), b, e);
    }
  }

  /* ----- The algorithms ----- */

  method TaskToTimeStamps(tasks: seq<Task>) returns (timestampList: seq<Timestamp>)
    ensures SortedStamps(timestampList) && multiset(timestampList) == multiset(Stamps(tasks))
  {
    var unsorted := [];
    var i := 0;
    assert tasks[0..] == tasks;
    while i < |tasks|
      invariant i <= |tasks| && Stamps(tasks) == unsorted + Stamps(tasks[i..])
    {
      assert tasks[i..][1..] == tasks[i + 1..];
      unsorted := unsorted + [Timestamp(tasks[i].start, true), Timestamp(tasks[i].end, false)];
      i := i + 1;
    }
    assert tasks[i..] == [];
    timestampList := Sort(unsorted);
  }

  /** Stands for sort.Sort; its users rely on nothing but the order by time and the contents. */
  method Sort(l: seq<Timestamp>) returns (r: seq<Timestamp>)
    ensures SortedStamps(r) && multiset(r) == multiset(l)
  {
    hide SortedStamps;
    NothingSorted();
    r := [];
    var i := 0;
    while i < |l|
      invariant i <= |l| && SortedStamps(r) && multiset(r) == multiset(l[..i])
    {
      PrefixBag(l, i);
      r := InsertStamp(r, l[i]);
      i := i + 1;
    }
    assert l[..i] == l;
  }

  method InsertStamp(l: seq<Timestamp>, ts: Timestamp) returns (r: seq<Timestamp>)
    requires SortedStamps(l)
    ensures SortedStamps(r) && multiset(r) == multiset(l) + multiset{ts}
  {
    hide SortedStamps;
    var j := 0;
    while j < |l| && l[j].time <= ts.time
      invariant j <= |l| && forall k :: 0 <= k < j ==> l[k].time <= ts.time
    {
      j := j + 1;
    }
    Inserted(l, j, ts);
    r := l[..j] + [ts] + l[j..];
  }

  lemma PrefixBag(l: seq<Timestamp>, i: nat)
    requires i < |l|
    ensures multiset(l[..i + 1]) == multiset(l[..i]) + multiset{l[i]}
  {
    assert l[..i + 1] == l[..i] + [l[i]];
  }

  lemma NothingSorted()
    ensures SortedStamps([])
  {
  }

  lemma Inserted(r: seq<Timestamp>, j: nat, ts: Timestamp)
    requires SortedStamps(r) && j <= |r| && (forall k :: 0 <= k < j ==> r[k].time <= ts.time)
            && (j < |r| ==> r[j].time > ts.time)
    ensures SortedStamps(r[..j] + [ts] + r[j..]) && multiset(r[..j] + [ts] + r[j..]) == multiset(r) + multiset{ts}
  {
    InsertedSorted(r, j, ts);
    assert r == r[..j] + r[j..];
  }

  lemma InsertedSorted(r: seq<Timestamp>, j: nat, ts: Timestamp)
    requires SortedStamps(r) && j <= |r| && (forall k :: 0 <= k < j ==> r[k].time <= ts.time)
            && (j < |r| ==> r[j].time > ts.time)
    ensures SortedStamps(r[..j] + [ts] + r[j..])
  {
    var r' := r[..j] + [ts] + r[j..];
    forall a, b | 0 <= a < b < |r'| ensures r'[a].time <= r'[b].time {
      if b > j {
        assert r[j].time <= r[b - 1].time;
      }
    }
  }

  method IsTaskOverlapsWithBin(t: Task, binStart: real, binEnd: real) returns (overlaps: bool)
    ensures overlaps <==> t.end >= binStart && t.start <= binEnd
  {
    if t.end < binStart {
      return false;
    }
    if t.start > binEnd {
      return false;
    }
    return true;
  }

  /** Leaving out the other tasks does not change the overlap. */
  method GetTasksInBin(tasks: seq<Task>, binStart: real, binEnd: real) returns (tasksInBin: seq<Task>)
    requires binStart <= binEnd && Ordered(tasks)
    ensures Ordered(tasksInBin) && TotalOverlap(tasksInBin, binStart, binEnd) == TotalOverlap(tasks, binStart, binEnd)
    ensures forall t :: t in tasksInBin <==> t in tasks && t.end >= binStart && t.start <= binEnd
  {
    tasksInBin := [];
    var i := 0;
    while i < |tasks|
      invariant i <= |tasks| && TotalOverlap(tasksInBin, binStart, binEnd) == TotalOverlap(tasks[..i], binStart, binEnd)
      invariant forall t :: t in tasksInBin <==> t in tasks[..i] && t.end >= binStart && t.start <= binEnd
    {
      var keep := IsTaskOverlapsWithBin(tasks[i], binStart, binEnd);
      assert tasks[..i + 1] == tasks[..i] + [tasks[i]];
      OverlapAppend(tasks[..i], tasks[i], binStart, binEnd);
      if keep {
        OverlapAppend(tasksInBin, tasks[i], binStart, binEnd);
        tasksInBin := tasksInBin + [tasks[i]];
      }
      i := i + 1;
    }
    assert tasks[..i] == tasks;
  }

  lemma {:induction false} OverlapAppend(tasks: seq<Task>, t: Task, b: real, e: real)
    ensures TotalOverlap(tasks + [t], b, e) == TotalOverlap(tasks, b, e) + Overlap(t, b, e)
  {
    hide Overlap;
    if tasks == [] {
      assert [t][1..] == [];
    } else {
      OverlapAppend(tasks[1..], t, b, e);
      TailOfConcat(tasks, [t]);
    }
  }

  /** Nothing behind the end of the bin counts. */
  lemma {:induction false} NothingBehind(l: seq<Timestamp>, b: real, e: real)
    requires b <= e && forall ts :: ts in l ==> ts.time >= e
    ensures SignedSum(l, b, e) == 0.0
  {
    if l != [] {
      assert l[0] in l;
      NothingBehind(l[1..], b, e);
    }
  }

  /** The count after a time stamp. */
  function Counted(count: int, ts: Timestamp): int {
    if ts.isStart then count + 1 else count - 1
  }

  /** The area swept so far, plus what the present count would add up to the end of the bin. */
  function Area(timeByCount: real, prevTime: real, e: real, count: int): real {
    timeByCount + (e - prevTime) * (count as real)
  }

  lemma AreaBefore(timeByCount: real, b: real, e: real, count: int, ts: Timestamp)
    requires b < e && ts.time < b
    ensures Area(timeByCount, b, e, Counted(count, ts)) == Area(timeByCount, b, e, count) + Signed(ts, b, e)
  {
    Extend(e - b, count, if ts.isStart then 1 else -1);
  }

  lemma AreaInside(timeByCount: real, prevTime: real, duration: real, b: real, e: real, count: int, ts: Timestamp)
    requires b <= ts.time < e && duration == ts.time - prevTime
    ensures Area(timeByCount + duration * (count as real), ts.time, e, Counted(count, ts)) ==
            Area(timeByCount, prevTime, e, count) + Signed(ts, b, e)
  {
    Extend(e - ts.time, count, if ts.isStart then 1 else -1);
    Split(e, ts.time, prevTime, count);
  }

  lemma OneMore(l: seq<Timestamp>, i: nat, b: real, e: real)
    requires i < |l|
    ensures SignedSum(l[..i + 1], b, e) == SignedSum(l[..i], b, e) + Signed(l[i], b, e)
  {
    assert l[..i + 1] == l[..i] + [l[i]];
    SumAppend(l[..i], [l[i]], b, e);
    SumOne(l[i], b, e);
  }

  lemma StartArea(l: seq<Timestamp>, b: real, e: real)
    ensures Area(0.0, b, e, 0) == SignedSum(l[..0], b, e)
  {
  }

  /** The average times the length of the bin is the signed sum, for any order of stamps of equal time. The panic on a
      negative duration cannot happen. */
  method CalculateAvgTaskCount(timestamps: seq<Timestamp>, binStartTime: real, binEndTime: real)
      returns (avgCount: real, panics: bool)
    requires SortedStamps(timestamps) && binStartTime < binEndTime
    ensures !panics && avgCount * (binEndTime - binStartTime) == SignedSum(timestamps, binStartTime, binEndTime)
  {
    hide SignedSum;
    hide Signed;
    hide Area;
    var count: int := 0;
    var timeByCount := 0.0;
    var prevTime := binStartTime;
    var i := 0;
    ghost var b, e := binStartTime, binEndTime;
    panics := false;
    StartArea(timestamps, b, e);
    while i < |timestamps|
      invariant i <= |timestamps| && b <= prevTime <= e
      invariant prevTime == if i == 0 then b else Max(b, timestamps[i - 1].time)
      invariant Area(timeByCount, prevTime, e, count) == SignedSum(timestamps[..i], b, e)
    {
      var ts := timestamps[i];
      OneMore(timestamps, i, b, e);
      assert i > 0 ==> timestamps[i - 1].time <= ts.time;
      if ts.time < binStartTime {
        assert prevTime == b;
        AreaBefore(timeByCount, b, e, count, ts);
        count := if ts.isStart then count + 1 else count - 1;
      } else if ts.time >= binEndTime {
        break;
      } else {
        var duration := ts.time - prevTime;
        if duration < 0.0 {
          return 0.0, true;
        }
        AreaInside(timeByCount, prevTime, duration, b, e, count, ts);
        timeByCount := timeByCount + duration * (count as real);
        prevTime := ts.time;
        count := if ts.isStart then count + 1 else count - 1;
      }
      i := i + 1;
    }
    RestBehind(timestamps, i, b, e);
    var duration := binEndTime - prevTime;
    EndArea(timeByCount, prevTime, e, count);
    timeByCount := timeByCount + duration * (count as real);
    avgCount := timeByCount / (binEndTime - binStartTime);
  }

  lemma EndArea(timeByCount: real, prevTime: real, e: real, count: int)
    ensures Area(timeByCount, prevTime, e, count) == timeByCount + (e - prevTime) * (count as real)
  {
  }

  /** What the loop leaves when it breaks off. */
  lemma RestBehind(l: seq<Timestamp>, i: nat, b: real, e: real)
    requires SortedStamps(l) && i <= |l| && b < e && (i < |l| ==> l[i].time >= e)
    ensures SignedSum(l, b, e) == SignedSum(l[..i], b, e)
  {
    assert l == l[..i] + l[i..];
    SumAppend(l[..i], l[i..], b, e);
    forall ts | ts in l[i..] ensures ts.time >= e {
      var j :| 0 <= j < |l[i..]| && l[i..][j] == ts;
      assert l[i].time <= l[i + j].time;
    }
    NothingBehind(l[i..], b, e);
  }

  lemma Extend(d: real, count: int, step: int)
    requires step == 1 || step == -1
    ensures d * ((count + step) as real) == d * (count as real) + (if step == 1 then d else -d)
  {
    assert (count + step) as real == (count as real) + (step as real);
  }

  lemma Split(e: real, t: real, p: real, count: int)
    ensures (e - p) * (count as real) == (t - p) * (count as real) + (e - t) * (count as real)
  {
  }

  /** One bin: the average count is the total overlap divided by the length of the bin. */
  method AverageInBin(tasks: seq<Task>, binStart: real, binEnd: real) returns (avg: real)
    requires binStart < binEnd && Ordered(tasks)
    ensures avg * (binEnd - binStart) == TotalOverlap(tasks, binStart, binEnd)
  {
    var inBin := GetTasksInBin(tasks, binStart, binEnd);
    var stamps := TaskToTimeStamps(inBin);
    StampsGiveOverlap(inBin, binStart, binEnd);
    SumOfPermutation(stamps, Stamps(inBin), binStart, binEnd);
    var value, _ := CalculateAvgTaskCount(stamps, binStart, binEnd);
    avg := value;
  }

  /** Neighbouring bins share nothing and leave nothing out. */
  lemma {:induction false} BinsAdd(tasks: seq<Task>, b: real, m: real, e: real)
    requires b <= m <= e && Ordered(tasks)
    ensures TotalOverlap(tasks, b, m) + TotalOverlap(tasks, m, e) == TotalOverlap(tasks, b, e)
  {
    if tasks != [] {
      assert tasks[0] in tasks;
      BinsAdd(tasks[1..], b, m, e);
    }
  }

  function Sum(values: seq<real>): real {
    if values == [] then 0.0 else Sum(values[..|values| - 1]) + values[|values| - 1]
  }

  /** The whole diagram: however many bins there are, their values times the length of a bin add up to the time all
      tasks overlap the whole interval. */
  method Diagram(tasks: seq<Task>, startTime: real, endTime: real, numDots: nat) returns (values: seq<real>)
    requires startTime < endTime && numDots > 0 && Ordered(tasks)
    ensures |values| == numDots
    ensures Sum(values) * ((endTime - startTime) / (numDots as real)) == TotalOverlap(tasks, startTime, endTime)
  {
    hide TotalOverlap;
    var totalDuration := endTime - startTime;
    var binDuration := totalDuration / (numDots as real);
    LastBinEnds(totalDuration, numDots);
    values := [];
    var i := 0;
    EmptyBin(tasks, startTime);
    while i < numDots
      invariant i <= numDots && |values| == i
      invariant Sum(values) * binDuration == TotalOverlap(tasks, startTime, (i as real) * binDuration + startTime)
    {
      var binStartTime := (i as real) * binDuration + startTime;
      var binEndTime := ((i + 1) as real) * binDuration + startTime;
      BinGrid(i, binDuration, startTime);
      var avgCount := AverageInBin(tasks, binStartTime, binEndTime);
      BinsAdd(tasks, startTime, binStartTime, binEndTime);
      assert binEndTime - binStartTime == binDuration;
      assert avgCount * binDuration == TotalOverlap(tasks, binStartTime, binEndTime);
      MoreValues(values, avgCount, binDuration);
      values := values + [avgCount];
      i := i + 1;
    }
  }

  lemma EmptyBin(tasks: seq<Task>, b: real)
    ensures TotalOverlap(tasks, b, b) == 0.0
  {
    if tasks != [] {
      EmptyBin(tasks[1..], b);
    }
  }

  lemma LastBinEnds(total: real, n: nat)
    requires n > 0 && total > 0.0
    ensures total / (n as real) > 0.0 && (n as real) * (total / (n as real)) == total
  {
  }

  lemma BinGrid(i: nat, d: real, s: real)
    requires d > 0.0
    ensures ((i + 1) as real) * d + s == (i as real) * d + s + d && (i as real) * d >= 0.0
  {
    assert (i + 1) as real == (i as real) + 1.0;
  }

  lemma MoreValues(values: seq<real>, v: real, d: real)
    ensures Sum(values + [v]) * d == Sum(values) * d + v * d
  {
    assert (values + [v])[..|values|] == values;
  }
}
