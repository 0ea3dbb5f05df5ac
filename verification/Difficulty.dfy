/** Per-block difficulty adjustment: a linearly weighted average of solve times over a window. */
module Difficulty {
  import opened Types
  import opened Target

  datatype Params = Params(blockTime: nat, window: nat) {
    predicate Valid() {
      blockTime > 0 && window >= 2
    }
  }

  /** The part of a header that difficulty depends on. */
  datatype Sample = Sample(timestamp: int, target: U256)

  function Clamp(x: int, lo: int, hi: int): int {
    if x < lo then lo else if x > hi then hi else x
  }

  function SolveTime(w: seq<Sample>, i: nat, t: nat): (s: int)
    requires 0 < i < |w| && t > 0
    ensures 1 <= s <= 6 * t
  {
    Clamp(w[i].timestamp - w[i - 1].timestamp, 1, 6 * t)
  }

  /** Solve times up to interval `i`, each weighted by its place. */
  function WeightedTime(w: seq<Sample>, i: nat, t: nat): int
    requires i < |w| && t > 0
  {
    if i == 0 then 0 else WeightedTime(w, i - 1, t) + i * SolveTime(w, i, t)
  }

  /** Work of the blocks after the first up to `i`. */
  function DifficultySum(w: seq<Sample>, i: nat): (s: int)
    requires i < |w|
    ensures s >= i
  {
    if i == 0 then 0 else
      WorkPositive(w[i].target);
      DifficultySum(w, i - 1) + WorkForTarget(w[i].target)
  }

  function Triangle(n: nat): nat {
    n * (n + 1) / 2
  }

  function SaturatingMul(a: int, b: int): (p: int) {
    if a * b > U256_MAX then U256_MAX else a * b
  }

  function DifficultyToTarget(d: int): (t: U256)
    requires d >= 0
  {
    if d == 0 then U256_MAX else
      DivBounds(U256_MAX, d);
      Mul(U256_MAX / d, d);
      U256_MAX / d
  }

  /** The difficulty that a window of `n + 1` headers asks for. */
  function NextDifficulty(w: seq<Sample>, p: Params): (d: int)
    requires p.Valid() && |w| == p.window + 1
    ensures d >= 0
  {
    var n := p.window;
    var average := DifficultySum(w, n) / n;
    var weighted := if WeightedTime(w, n, p.blockTime) < 1 then 1 else WeightedTime(w, n, p.blockTime);
    DivBounds(DifficultySum(w, n), n);
    MulNat(average, p.blockTime * Triangle(n));
    SaturatingMul(average, p.blockTime * Triangle(n)) / weighted
  }

  /** The target after the given headers: the last one's while the chain is short, then the window's. */
  function TargetAfter(recent: seq<Sample>, p: Params, genesisTarget: U256): U256
    requires p.Valid()
  {
    if |recent| <= p.window then
      if |recent| == 0 then genesisTarget else recent[|recent| - 1].target
    else
      DifficultyToTarget(NextDifficulty(Last(recent, p.window + 1), p))
  }

  /** The original's loop over the window. */
  method NextTarget(recent: seq<Sample>, p: Params, genesisTarget: U256) returns (r: U256)
    requires p.Valid()
    ensures r == TargetAfter(recent, p, genesisTarget)
    ensures |recent| == 0 ==> r == genesisTarget
    ensures 0 < |recent| <= p.window ==> r == recent[|recent| - 1].target
  {
    var n, t := p.window, p.blockTime;
    if |recent| <= n {
      if |recent| == 0 {
        return genesisTarget;
      }
      return recent[|recent| - 1].target;
    }
    var window := recent[|recent| - (n + 1)..];
    assert window == Last(recent, n + 1);
    var weightedTime, difficultySum := SumUp(window, n, t);
    hide WeightedTime, DifficultySum, Triangle;
    var average := difficultySum / n;
    var k := t * Triangle(n);
    if weightedTime < 1 {
      weightedTime := 1;
    }
    DivBounds(difficultySum, n);
    MulNat(average, k);
    return DifficultyToTarget(SaturatingMul(average, k) / weightedTime);
  }

  method SumUp(window: seq<Sample>, n: nat, t: nat) returns (weightedTime: int, difficultySum: int)
    requires |window| == n + 1 && t > 0
    ensures weightedTime == WeightedTime(window, n, t) && difficultySum == DifficultySum(window, n)
  {
    weightedTime, difficultySum := 0, 0;
    for i := 1 to n + 1
      invariant weightedTime == WeightedTime(window, i - 1, t)
      invariant difficultySum == DifficultySum(window, i - 1)
    {
      var solveTime := Clamp(window[i].timestamp - window[i - 1].timestamp, 1, 6 * t);
      weightedTime := weightedTime + i * solveTime;
      difficultySum := difficultySum + WorkForTarget(window[i].target);
    }
  }

  /** Only the last window and one header matter. */
  lemma {:induction false} WindowSuffices(all: seq<Sample>, p: Params, genesisTarget: U256)
    requires p.Valid()
    ensures TargetAfter(Last(all, p.window + 1), p, genesisTarget) == TargetAfter(all, p, genesisTarget)
  {
    var recent := Last(all, p.window + 1);
    if |all| > p.window + 1 {
      assert Last(recent, p.window + 1) == recent;
    }
  }

  // ---------- what the sums mean ----------

  /** Every interval counts with its timestamps' difference, cut to one second and six block times and
      multiplied by its place; every block but the first counts with its work. */
  lemma {:induction false} WindowSums(w: seq<Sample>, i: nat, t: nat)
    requires 0 < i < |w| && t > 0
    ensures var gap := w[i].timestamp - w[i - 1].timestamp;
      WeightedTime(w, i, t) - WeightedTime(w, i - 1, t) ==
        i * (if gap <= 1 then 1 else if gap >= 6 * t then 6 * t else gap)
    ensures DifficultySum(w, i) - DifficultySum(w, i - 1) == WorkForTarget(w[i].target)
    ensures WeightedTime(w, 0, t) == 0 && DifficultySum(w, 0) == 0
  {
    assert WeightedTime(w, i, t) == WeightedTime(w, i - 1, t) + i * SolveTime(w, i, t);
  }

  /** Blocks at equal distances `s` weigh `s` times what blocks a second apart weigh. */
  lemma {:induction false} EvenWeight(w: seq<Sample>, s: int, i: nat, t: nat)
    requires i < |w| && 1 <= s <= 6 * t
    requires forall j {:trigger w[j]} :: 0 < j < |w| ==> w[j].timestamp - w[j - 1].timestamp == s
    ensures WeightedTime(w, i, t) == s * Triangle(i)
  {
    if i > 0 {
      hide Triangle;
      EvenWeight(w, s, i - 1, t);
      assert w[i].timestamp - w[i - 1].timestamp == s;
      TriangleStep(i);
      assert WeightedTime(w, i, t) == WeightedTime(w, i - 1, t) + i * SolveTime(w, i, t);
      hide WeightedTime;
      EvenStep(s, Triangle(i - 1), i);
    }
  }

  lemma {:induction false} EvenStep(s: int, tri: int, i: int)
    ensures s * tri + i * s == s * (tri + i)
  {
  }

  /** Blocks at equal distances `s`: the average work changes by the ratio of the block time and `s`,
      unless the product leaves 256 bits. */
  lemma {:induction false} EvenGaps(w: seq<Sample>, s: int, p: Params)
    requires p.Valid() && |w| == p.window + 1 && 1 <= s <= 6 * p.blockTime
    requires forall j {:trigger w[j]} :: 0 < j < |w| ==> w[j].timestamp - w[j - 1].timestamp == s
    requires DifficultySum(w, p.window) / p.window * (p.blockTime * (p.window * (p.window + 1) / 2)) <= U256_MAX
    ensures NextDifficulty(w, p) == DifficultySum(w, p.window) / p.window * p.blockTime / s
  {
    var n, t := p.window, p.blockTime;
    EvenWeight(w, s, n, t);
    TrianglePositive(n);
    DivBounds(DifficultySum(w, n), n);
    hide WeightedTime, DifficultySum, Triangle;
    MulLe(1, s, Triangle(n));
    EvenRatio(DifficultySum(w, n) / n, t, s, Triangle(n));
  }

  lemma {:induction false} EvenRatio(average: int, t: nat, s: int, tri: int)
    requires average >= 0 && s >= 1 && tri > 0
    ensures average * (t * tri) / (s * tri) == average * t / s && average * (t * tri) >= 0 && s * tri >= 1
  {
    MulNat(average, t);
    MulLe(1, s, tri);
    DivScaled(average * t, s, tri);
    MulNat(average * t, tri);
    assert average * (t * tri) == (average * t) * tri;
  }

  /** The sum over blocks of one work, and its average. */
  lemma {:induction false} EvenWork(w: seq<Sample>, work: int, i: nat)
    requires i < |w| && forall j {:trigger w[j]} :: 0 < j < |w| ==> WorkForTarget(w[j].target) == work
    ensures DifficultySum(w, i) == work * i && (i > 0 ==> DifficultySum(w, i) / i == work)
  {
    if i > 0 {
      EvenWork(w, work, i - 1);
      assert WorkForTarget(w[i].target) == work;
      assert work * i == work * (i - 1) + work;
      DivUnique(work * i, i, work);
    }
  }

  /** Once the window is full, on-time blocks of one work keep it, but for the loss of at most one on
      the way to a target and back. */
  lemma {:induction false} OnTimeKept(recent: seq<Sample>, work: int, p: Params, genesisTarget: U256)
    requires p.Valid() && |recent| > p.window && 1 <= work && work * work <= TWO_256
    requires forall j {:trigger recent[j]} :: |recent| - p.window <= j < |recent| ==>
      recent[j].timestamp - recent[j - 1].timestamp == p.blockTime && WorkForTarget(recent[j].target) == work
    requires work * (p.blockTime * (p.window * (p.window + 1) / 2)) <= U256_MAX
    ensures var back := WorkForTarget(TargetAfter(recent, p, genesisTarget)); back == work || back == work - 1
  {
    var w, d := Last(recent, p.window + 1), |recent| - (p.window + 1);
    forall j {:trigger w[j]} | 0 < j < |w|
      ensures w[j].timestamp - w[j - 1].timestamp == p.blockTime && WorkForTarget(w[j].target) == work
    {
      assert w[j] == recent[d + j] && w[j - 1] == recent[d + j - 1];
    }
    EvenWork(w, work, p.window);
    EvenGaps(w, p.blockTime, p);
    DivUnique(work * p.blockTime, p.blockTime, work);
    RoundTrip(work);
  }

  lemma {:induction false} DivScaled(a: int, b: int, c: int)
    requires a >= 0 && b > 0 && c > 0
    ensures b * c > 0 && (a * c) / (b * c) == a / b
  {
    MulLe(1, b, c);
    DivBounds(a, b);
    var q, r := a / b, a - a / b * b;
    MulNat(r, c);
    MulLe(r + 1, b, c);
    assert a * c == q * (b * c) + r * c;
    DivUnique(a * c, b * c, q);
  }

  // ---------- bounds ----------

  lemma {:induction false} TriangleStep(n: nat)
    requires n > 0
    ensures Triangle(n) == Triangle(n - 1) + n
  {
    assert n * (n + 1) == (n - 1) * n + 2 * n;
  }

  /** On-time weight is the triangle; every solve time is between one second and six block times. */
  lemma {:induction false} WeightBounds(w: seq<Sample>, i: nat, t: nat)
    requires i < |w| && t > 0
    ensures Triangle(i) <= WeightedTime(w, i, t) <= 6 * (t * Triangle(i))
  {
    if i > 0 {
      WeightBounds(w, i - 1, t);
      TriangleStep(i);
      assert WeightedTime(w, i, t) == WeightedTime(w, i - 1, t) + i * SolveTime(w, i, t);
      hide WeightedTime, Triangle;
      WeightStep(Triangle(i - 1), WeightedTime(w, i - 1, t), i, SolveTime(w, i, t), t);
    }
  }

  lemma {:induction false} WeightStep(tri: int, weight: int, i: nat, s: int, t: nat)
    requires tri <= weight <= 6 * (t * tri) && 1 <= s <= 6 * t
    ensures tri + i <= weight + i * s <= 6 * (t * (tri + i))
  {
    MulLe(1, s, i);
    MulLe(s, 6 * t, i);
    assert i * s == s * i;
    assert t * (tri + i) == t * tri + t * i;
  }

  /** Past warm-up and without saturation the next difficulty is at least a sixth of the average and
      at most the average times the block time. */
  lemma {:induction false} DifficultyBounds(w: seq<Sample>, p: Params)
    requires p.Valid() && |w| == p.window + 1
    requires (DifficultySum(w, p.window) / p.window) * (p.blockTime * Triangle(p.window)) <= U256_MAX
    ensures var average := DifficultySum(w, p.window) / p.window;
      average / 6 <= NextDifficulty(w, p) <= average * p.blockTime
  {
    var n, t := p.window, p.blockTime;
    var average, tri, weighted := DifficultySum(w, n) / n, Triangle(n), WeightedTime(w, n, t);
    WeightBounds(w, n, t);
    TrianglePositive(n);
    DivBounds(DifficultySum(w, n), n);
    DivBounds(average, 6);
    hide WeightedTime, Triangle, DifficultySum;
    QuotientLow(average, t * tri, weighted);
    QuotientHigh(average, t, tri, weighted);
  }

  lemma {:induction false} QuotientLow(average: int, k: int, weighted: int)
    requires average >= 0 && 0 < weighted <= 6 * k
    ensures average / 6 <= (average * k) / weighted
  {
    var q := average / 6;
    MulLe(weighted, 6 * k, q);
    MulLe(q * 6, average, k);
    assert q * (6 * k) == (q * 6) * k;
    assert weighted * q == q * weighted && 6 * k * q == q * (6 * k);
    DivAtLeast(average * k, weighted, q);
  }

  lemma {:induction false} QuotientHigh(average: int, t: nat, tri: int, weighted: int)
    requires average >= 0 && 0 < tri <= weighted
    ensures (average * (t * tri)) / weighted <= average * t
  {
    MulNat(average, t);
    MulLe(tri, weighted, average * t);
    assert tri * (average * t) == average * (t * tri);
    assert weighted * (average * t) == (average * t) * weighted;
    MulNat(t, tri);
    MulNat(average, t * tri);
    DivAtMost(average * (t * tri), weighted, average * t);
  }

  lemma {:induction false} TrianglePositive(n: nat)
    requires n > 0
    ensures Triangle(n) >= n
  {
    TriangleStep(n);
  }

  lemma {:induction false} DivAtMost(a: int, b: int, q: int)
    requires b > 0 && a >= 0 && a <= q * b
    ensures a / b <= q
  {
    var r := a / b;
    assert r * b <= a;
    if r > q {
      MulLe(q + 1, r, b);
    }
  }

  /** A larger difficulty gives a target that is no easier. */
  lemma {:induction false} TargetAntitone(d: int, e: int)
    requires 0 <= d <= e
    ensures DifficultyToTarget(d) >= DifficultyToTarget(e)
  {
    if d > 0 {
      DivBounds(U256_MAX, e);
      MulLe(d, e, U256_MAX / e);
      DivAtLeast(U256_MAX, d, U256_MAX / e);
    }
  }

  /** The same targets, and no gap between two timestamps is shorter in `v` than in `w`. */
  ghost predicate Slower(w: seq<Sample>, v: seq<Sample>) {
    && |w| == |v|
    && forall i {:trigger w[i]} {:trigger v[i]} :: 0 < i < |w| ==>
      w[i].target == v[i].target && w[i].timestamp - w[i - 1].timestamp <= v[i].timestamp - v[i - 1].timestamp
  }

  lemma {:induction false} SlowerSums(w: seq<Sample>, v: seq<Sample>, i: nat, t: nat)
    requires t > 0 && Slower(w, v) && i < |w|
    ensures WeightedTime(w, i, t) <= WeightedTime(v, i, t) && DifficultySum(w, i) == DifficultySum(v, i)
  {
    if i > 0 {
      SlowerSums(w, v, i - 1, t);
      assert w[i].target == v[i].target;
      assert SolveTime(w, i, t) <= SolveTime(v, i, t);
      hide Slower, SolveTime;
      MulLe(SolveTime(w, i, t), SolveTime(v, i, t), i);
      assert i * SolveTime(w, i, t) == SolveTime(w, i, t) * i && i * SolveTime(v, i, t) == SolveTime(v, i, t) * i;
    }
  }

  /** Slower blocks with the same targets never make the next target harder. */
  lemma {:induction false} SlowerIsEasier(w: seq<Sample>, v: seq<Sample>, p: Params)
    requires p.Valid() && |w| == p.window + 1 && Slower(w, v)
    ensures DifficultyToTarget(NextDifficulty(w, p)) <= DifficultyToTarget(NextDifficulty(v, p))
  {
    var n, t := p.window, p.blockTime;
    SlowerSums(w, v, n, t);
    WeightBounds(w, n, t);
    TrianglePositive(n);
    var average := DifficultySum(w, n) / n;
    DivBounds(DifficultySum(w, n), n);
    MulNat(average, t * Triangle(n));
    DivAntitone(SaturatingMul(average, t * Triangle(n)), WeightedTime(w, n, t), WeightedTime(v, n, t));
    TargetAntitone(NextDifficulty(v, p), NextDifficulty(w, p));
  }

  lemma {:induction false} DivAntitone(a: int, b: int, c: int)
    requires a >= 0 && 0 < b <= c
    ensures 0 <= a / c <= a / b
  {
    DivBounds(a, c);
    MulLe(b, c, a / c);
    DivAtLeast(a, b, a / c);
  }

  /** Difficulties up to `2^128` survive the way to a target and back, but for a loss of at most one. */
  lemma {:induction false} RoundTrip(d: int)
    requires 1 <= d && d * d <= TWO_256
    ensures var back := WorkForTarget(DifficultyToTarget(d)); back == d || back == d - 1
  {
    var t := DifficultyToTarget(d);
    DivBounds(U256_MAX, d);
    Mul(d, d);
    DivAtLeast(U256_MAX, d, 1);
    WorkIsExpectation(t);
    var q := t + 1;
    assert q * d == t * d + d;
    DivAtMost(TWO_256, q, d);
    assert (d - 1) * q == q * d - q;
    LowerHalf(d, t);
    DivAtLeast(TWO_256, q, d - 1);
  }

  lemma {:induction false} LowerHalf(d: int, t: int)
    requires 1 <= d && d * d <= TWO_256 && t * d <= U256_MAX < t * d + d && t >= 1
    ensures (d - 1) * (t + 1) <= TWO_256
  {
    assert (d - 1) * (t + 1) == t * d + d - t - 1;
    assert (t + 1) * d == t * d + d;
    Cancel(d, t + 1, d);
  }

  lemma {:induction false} Cancel(x: int, y: int, d: int)
    requires d > 0 && x * d <= y * d
    ensures x <= y
  {
    if y < x {
      MulLe(y + 1, x, d);
    }
  }
}
