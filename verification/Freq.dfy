/** Clock arithmetic of akita/sim/freq.go over exact reals. */
module Freq {
  type Frequency = f: real | f > 0.0 witness 1.0

  /** Go's math.Round: nearest integer, halves away from zero. */
  function Round(x: real): (r: int)
    ensures x - 0.5 <= r as real <= x + 0.5
  {
    if x >= 0.0 then (x + 0.5).Floor else -((0.5 - x).Floor)
  }

  /** math.Floor(float64(n) / 10), the whole number of cycles in n tenths of a cycle. */
  function FloorTenth(n: int): (r: int)
    ensures 10 * r <= n < 10 * r + 10
  {
    n / 10
  }

  /** math.Ceil(float64(n) / 10). */
  function CeilTenth(n: int): (r: int)
    ensures 10 * r - 10 < n <= 10 * r
  {
    -((-n) / 10)
  }

  /** Now in tenths of a cycle, math.Round(now * 10 * f). */
  function Tenths(f: Frequency, now: real): int {
    Round(now * 10.0 * f)
  }

  /** The tick strictly after now, after snapping now to a tenth of a cycle. */
  function NextTick(f: Frequency, now: real): real
  {
    (FloorTenth(Tenths(f, now)) + 1) as real / f
  }

  /** The tick at or after now, after snapping now to a tenth of a cycle. */
  function ThisTick(f: Frequency, now: real): real
  {
    CeilTenth(Tenths(f, now)) as real / f
  }

  function NCyclesLater(f: Frequency, n: int, now: real): real
  {
    ThisTick(f, now + n as real / f)
  }

  lemma RoundMonotone(x: real, y: real)
    requires x <= y
    ensures Round(x) <= Round(y)
  {
    if x < 0.0 && y >= 0.0 {
      assert Round(x) <= 0 <= Round(y);
    }
  }

  lemma DivideBounds(f: Frequency, a: real, b: real)
    requires a <= b
    ensures a / f <= b / f
  {
    assert a / f * f == a && b / f * f == b;
  }

  lemma DivideStrict(f: Frequency, a: real, b: real)
    requires a < b
    ensures a / f < b / f
  {
    assert a / f * f == a && b / f * f == b;
  }

  /** NextTick lies between 0.05 and 1.05 periods after its input. */
  lemma NextTickWindow(f: Frequency, now: real)
    ensures now + 0.05 / f <= NextTick(f, now) <= now + 1.05 / f
    ensures NextTick(f, now) > now
  {
    var x := now * f;
    assert now * 10.0 * f == 10.0 * x;
    var count := FloorTenth(Tenths(f, now)) + 1;
    assert x + 0.05 <= count as real <= x + 1.05;
    DivideBounds(f, x + 0.05, count as real);
    DivideBounds(f, count as real, x + 1.05);
    assert (x + 0.05) / f == now + 0.05 / f;
    assert (x + 1.05) / f == now + 1.05 / f;
    DivideStrict(f, x, count as real);
  }

  lemma NextTickMonotone(f: Frequency, a: real, b: real)
    requires a <= b
    ensures NextTick(f, a) <= NextTick(f, b)
  {
    assert a * 10.0 * f <= b * 10.0 * f by {
      assert a * 10.0 <= b * 10.0;
    }
    RoundMonotone(a * 10.0 * f, b * 10.0 * f);
    DivideBounds(f, (FloorTenth(Tenths(f, a)) + 1) as real, (FloorTenth(Tenths(f, b)) + 1) as real);
  }

  /* ----- Clock edges ----- */

  /** The time of edge k of the clock. */
  function Edge(f: Frequency, k: int): real {
    k as real / f
  }

  lemma RoundBetween(x: real, lo: int, hi: int)
    requires x >= 0.0 && lo as real - 0.5 <= x < hi as real + 0.5
    ensures lo <= Round(x) <= hi
  {
  }

  lemma TenthsBetween(f: Frequency, now: real, x: real, lo: int, hi: int)
    requires x == now * f && x >= 0.0 && lo as real - 0.5 <= 10.0 * x < hi as real + 0.5
    ensures lo <= Tenths(f, now) <= hi
  {
    assert now * 10.0 * f == 10.0 * x;
    hide Round;
    RoundBetween(10.0 * x, lo, hi);
  }

  lemma NotBeforeZero(f: Frequency, now: real)
    requires now >= 0.0
    ensures now * f >= 0.0
  {
  }

  lemma OnlyFloor(n: int, k: int)
    requires 10 * k <= n <= 10 * k + 9
    ensures FloorTenth(n) == k
  {
    hide FloorTenth;
  }

  lemma OnlyCeil(n: int, k: int)
    requires 10 * k - 9 <= n <= 10 * k
    ensures CeilTenth(n) == k
  {
    hide CeilTenth;
  }

  /** From just before edge k on, and until just before the next one, NextTick is the next edge. */
  lemma NextTickIsNextEdge(f: Frequency, now: real, k: int)
    requires now >= 0.0 && k as real - 0.05 <= now * f < k as real + 0.95
    ensures NextTick(f, now) == Edge(f, k + 1)
  {
    var x, lo := now * f, 10 * k;
    NotBeforeZero(f, now);
    hide Tenths;
    hide FloorTenth;
    assert lo as real - 0.5 <= 10.0 * x < (lo + 9) as real + 0.5;
    TenthsBetween(f, now, x, lo, lo + 9);
    OnlyFloor(Tenths(f, now), k);
  }

  /** From just behind the edge before k on, and until just behind edge k, ThisTick is edge k. */
  lemma ThisTickIsThisEdge(f: Frequency, now: real, k: int)
    requires now >= 0.0 && k as real - 0.95 <= now * f < k as real + 0.05
    ensures ThisTick(f, now) == Edge(f, k)
  {
    var x, hi := now * f, 10 * k;
    NotBeforeZero(f, now);
    hide Tenths;
    hide CeilTenth;
    assert (hi - 9) as real - 0.5 <= 10.0 * x < hi as real + 0.5;
    TenthsBetween(f, now, x, hi - 9, hi);
    OnlyCeil(Tenths(f, now), k);
  }

  /** NCyclesLater is n edges behind that. */
  lemma NCyclesLaterIsEdge(f: Frequency, n: int, now: real, k: int)
    requires now >= 0.0 && now * f + n as real >= 0.0 && k as real - 0.95 <= now * f < k as real + 0.05
    ensures NCyclesLater(f, n, now) == Edge(f, k + n)
  {
    var later := now + n as real / f;
    assert n as real / f * f == n as real;
    assert later * f == now * f + n as real;
    NotNegative(f, later);
    ThisTickIsThisEdge(f, later, k + n);
  }

  lemma NotNegative(f: Frequency, t: real)
    requires t * f >= 0.0
    ensures t >= 0.0
  {
    DivideBounds(f, 0.0, t * f);
    assert 0.0 / f == 0.0 && t * f / f == t;
  }

  /** Whatever the input, the results are edges: they cover all cases above. */
  lemma AlwaysAnEdge(f: Frequency, now: real) returns (k: nat, j: nat)
    requires now >= 0.0
    ensures k as real - 0.05 <= now * f < k as real + 0.95 && NextTick(f, now) == Edge(f, k + 1)
    ensures j as real - 0.95 <= now * f < j as real + 0.05 && ThisTick(f, now) == Edge(f, j)
  {
    assert now * f >= 0.0;
    k := (now * f + 0.05).Floor;
    j := (now * f + 0.95).Floor;
    NextTickIsNextEdge(f, now, k);
    ThisTickIsThisEdge(f, now, j);
  }

  /** On the clock grid the three functions agree: k cycles step to k + 1, stay at k, and shift by n. */
  lemma GridSteps(f: Frequency, k: int, n: int)
    ensures NextTick(f, k as real / f) == (k + 1) as real / f
    ensures ThisTick(f, k as real / f) == k as real / f
    ensures NCyclesLater(f, n, k as real / f) == (k + n) as real / f
  {
    OnGrid(f, k);
    OnGrid(f, k + n);
    assert k as real / f + n as real / f == (k + n) as real / f;
  }

  lemma OnGridTenths(f: Frequency, k: int)
    ensures Tenths(f, k as real / f) == 10 * k
  {
    var now := k as real / f;
    assert now * f == k as real;
    assert now * 10.0 * f == 10.0 * (k as real);
  }

  lemma OnGrid(f: Frequency, k: int)
    ensures NextTick(f, k as real / f) == (k + 1) as real / f
    ensures ThisTick(f, k as real / f) == k as real / f
  {
    OnGridTenths(f, k);
    assert FloorTenth(10 * k) == k && CeilTenth(10 * k) == k;
  }
}
