/** Label intervals and the rules that split one interval among several children. */
module Intervals {
  import opened Types

  const U64_MAX: int := 0xFFFF_FFFF_FFFF_FFFF

  /** The labels `start..end`, both included; `end == start - 1` is the empty interval. */
  datatype Interval = Interval(start: int, end: int) {

    /** What the original asserts of every interval it builds: no bound leaves the `u64` range,
        even after one more label is given up at either end. */
    predicate Valid() {
      0 < start && start - 1 <= end && end < U64_MAX
    }

    function Size(): int {
      end + 1 - start
    }

    predicate IsEmpty() {
      Size() == 0
    }

    predicate Contains(other: Interval) {
      start <= other.start && other.end <= end
    }

    predicate StrictlyContains(other: Interval) {
      start <= other.start && other.end < end
    }

    function Shift(offset: int): Interval {
      Interval(start + offset, end + offset)
    }
  }

  const MAXIMAL := Interval(1, U64_MAX - 1)

  /** `parts` cover `whole` from left to right without gaps. */
  ghost predicate Tiles(parts: seq<Interval>, whole: Interval) {
    && (|parts| > 0 ==> parts[0].start == whole.start && parts[|parts| - 1].end == whole.end)
    && forall i, j :: 0 <= i && j == i + 1 && j < |parts| ==> parts[i].end + 1 == parts[j].start
  }

  /** Splits the interval into parts of exactly the given sizes. */
  method SplitExact(whole: Interval, sizes: seq<int>) returns (parts: seq<Interval>)
    requires whole.Valid() && Sum(sizes) == whole.Size()
    requires forall i :: 0 <= i < |sizes| ==> sizes[i] >= 0
    ensures |parts| == |sizes| && Tiles(parts, whole)
    ensures forall i :: 0 <= i < |parts| ==> parts[i].Size() == sizes[i]
  {
    parts := [];
    var start := whole.start;
    for i := 0 to |sizes|
      invariant |parts| == i && start == whole.start + Sum(sizes[..i])
      invariant forall j :: 0 <= j < i ==> parts[j].Size() == sizes[j]
      invariant i > 0 ==> parts[0].start == whole.start && parts[i - 1].end + 1 == start
      invariant forall j, k :: 0 <= j && k == j + 1 && k < i ==> parts[j].end + 1 == parts[k].start
    {
      parts := parts + [Interval(start, start + sizes[i] - 1)];
      start := start + sizes[i];
      assert sizes[..i + 1] == sizes[..i] + [sizes[i]];
      SumSnoc(sizes[..i], sizes[i]);
    }
    assert sizes[..|sizes|] == sizes;
  }

  /** The sizes with all of `surplus` handed out. The original weighs the shares with floating-point
      powers; here each share is arbitrary, cut to what remains, and the last size takes the rest. */
  method Biased(sizes: seq<int>, surplus: nat) returns (biased: seq<int>)
    requires |sizes| > 0
    ensures |biased| == |sizes| && Sum(biased) == Sum(sizes) + surplus && forall i :: 0 <= i < |sizes| ==>
      biased[i] >= sizes[i]
  {
    hide Sum;
    var remaining := surplus;
    biased := [];
    assert sizes[..0] == biased;
    for i := 0 to |sizes|
      invariant |biased| == i && 0 <= remaining
      invariant forall j :: 0 <= j < i ==> biased[j] >= sizes[j]
      invariant Sum(biased) + remaining == Sum(sizes[..i]) + surplus
      invariant i == |sizes| ==> remaining == 0
    {
      var share: int :| share >= 0;
      var bias := if i == |sizes| - 1 || remaining < share then remaining else share;
      SumSnoc(biased, sizes[i] + bias);
      SumSnoc(sizes[..i], sizes[i]);
      assert sizes[..i + 1] == sizes[..i] + [sizes[i]];
      biased := biased + [sizes[i] + bias];
      remaining := remaining - bias;
    }
    assert sizes[..|sizes|] == sizes;
  }

  /** Splits the interval so that every part has at least its size; the surplus goes out in
      rounded shares, never more than remains, and the last part takes what is left. The
      shares come from floating point in the original and are arbitrary here. */
  method SplitExponential(whole: Interval, sizes: seq<int>) returns (r: Status, parts: seq<Interval>)
    requires whole.Valid()
    requires forall i :: 0 <= i < |sizes| ==> sizes[i] >= 0
    ensures r == if whole.Size() >= Sum(sizes) > 0 then Ok else Panic
    ensures r == Ok ==> |parts| == |sizes| && Tiles(parts, whole)
    ensures r == Ok ==> forall i :: 0 <= i < |parts| ==> parts[i].Size() >= sizes[i]
  {
    var sum := Sum(sizes);
    if !(whole.Size() >= sum > 0) {
      return Panic, [];
    }
    if whole.Size() == sum {
      parts := SplitExact(whole, sizes);
      return Ok, parts;
    }
    var biased := Biased(sizes, whole.Size() - sum);
    parts := SplitExact(whole, biased);
    return Ok, parts;
  }

  /** Splits the interval in two, the left half taking at least one label. Where exactly the
      halves meet is a matter of `f32` rounding in the original. */
  method SplitHalf(whole: Interval) returns (left: Interval, right: Interval)
    requires whole.Valid() && !whole.IsEmpty()
    ensures left.Size() >= 1 && right.Size() >= 0 && Tiles([left, right], whole)
  {
    var leftSize: int :| 1 <= leftSize <= whole.Size();
    left := Interval(whole.start, whole.start + leftSize - 1);
    right := Interval(whole.start + leftSize, whole.end);
  }
}
