/**
 * The histogram of a numerical field: between 3 and 10 equal-width bins
 * spanning the smallest to the largest value, and how many values fall
 * into each. Bin arithmetic is done over `real`; the text of the labels
 * (one decimal place) is not modelled, only the interval each one names.
 */
module Binner {
  import opened ResponseValues

  function Max(a: int, b: int): int { if a <= b then b else a }

  /** `Math.ceil(Math.sqrt(n))` for a count `n`, by counting up from 0. */
  function CeilSqrt(n: nat): nat
  {
    CeilSqrtFrom(n, 0)
  }

  function CeilSqrtFrom(n: nat, r: nat): nat
    requires r > 0 ==> (r - 1) * (r - 1) < n
    decreases n - r
  {
    if r * r >= n then r
    else
      SquareAtLeast(r);
      assert (r + 1) - 1 == r;
      CeilSqrtFrom(n, r + 1)
  }

  /** The rounded-up root is the least `r` with `r * r >= n`. */
  lemma CeilSqrtIsLeastRoot(n: nat)
    ensures CeilSqrt(n) * CeilSqrt(n) >= n
    ensures CeilSqrt(n) > 0 ==> (CeilSqrt(n) - 1) * (CeilSqrt(n) - 1) < n
  {
    CeilSqrtFromIsLeast(n, 0);
  }

  lemma {:induction false} CeilSqrtFromIsLeast(n: nat, r: nat)
    requires r > 0 ==> (r - 1) * (r - 1) < n
    ensures CeilSqrtFrom(n, r) * CeilSqrtFrom(n, r) >= n
    ensures CeilSqrtFrom(n, r) > 0 ==> (CeilSqrtFrom(n, r) - 1) * (CeilSqrtFrom(n, r) - 1) < n
    decreases n - r
  {
    if r * r < n {
      SquareAtLeast(r);
      assert (r + 1) - 1 == r;
      CeilSqrtFromIsLeast(n, r + 1);
    }
  }

  lemma SquareAtLeast(r: nat)
    ensures r <= r * r
  {
    if r > 0 {
      assert r * r == r * (r - 1) + r;
    }
  }

  lemma {:induction false} SquareMonotone(a: nat, b: nat)
    requires a <= b
    ensures a * a <= b * b
  {
    if a < b {
      SquareMonotone(a, b - 1);
      assert b * b == (b - 1) * (b - 1) + 2 * b - 1;
    }
  }

  /** `binCount`: the square root of the number of values, rounded up and clamped to [3, 10]. */
  function BinCount(n: nat): (k: nat)
    ensures 3 <= k <= 10
  {
    Min(10, Max(3, CeilSqrt(n)))
  }

  /** Up to 9 values give 3 bins, more than 81 give 10, and in between the rounded-up root. */
  lemma BinCountIsClampedRoot(n: nat)
    ensures BinCount(n) == 3 <==> n <= 9
    ensures BinCount(n) == 10 <==> n > 81
    ensures var k := BinCount(n); 3 < k < 10 ==> (k - 1) * (k - 1) < n <= k * k
  {
    var r := CeilSqrt(n);
    CeilSqrtIsLeastRoot(n);
    if r <= 3 {
      SquareMonotone(r, 3);
    } else {
      SquareMonotone(3, r - 1);
      if r >= 10 {
        SquareMonotone(9, r - 1);
      } else {
        SquareMonotone(r, 9);
      }
    }
  }

  /** `binCount` for ten values is four. */
  lemma TenValuesGiveFourBins()
    ensures BinCount(10) == 4
  {
    assert CeilSqrt(10) == 4 by {
      var r := CeilSqrt(10);
      CeilSqrtIsLeastRoot(10);
      if r <= 3 { SquareMonotone(r, 3); }
      if r >= 5 { SquareMonotone(4, r - 1); }
    }
  }

  /** `Math.min(...values)` */
  function SeqMin(s: seq<real>): (m: real)
    requires |s| > 0
    ensures m in s
    ensures forall x :: x in s ==> m <= x
  {
    if |s| == 1 then s[0]
    else
      var m := SeqMin(s[..|s| - 1]);
      assert forall x :: x in s ==> x in s[..|s| - 1] || x == s[|s| - 1];
      if s[|s| - 1] < m then s[|s| - 1] else m
  }

  /** `Math.max(...values)` */
  function SeqMax(s: seq<real>): (m: real)
    requires |s| > 0
    ensures m in s
    ensures forall x :: x in s ==> x <= m
  {
    if |s| == 1 then s[0]
    else
      var m := SeqMax(s[..|s| - 1]);
      assert forall x :: x in s ==> x in s[..|s| - 1] || x == s[|s| - 1];
      if s[|s| - 1] > m then s[|s| - 1] else m
  }

  /** The interval a bin label names: from `binStart` to `binEnd`. */
  datatype BinRange = BinRange(start: real, end: real)

  datatype Histogram = Histogram(labels: seq<BinRange>, bins: seq<nat>)

  /** `i * size`, written as repeated addition so that reasoning about bins stays linear. */
  function Scale(i: nat, size: real): real
  {
    if i == 0 then 0.0 else Scale(i - 1, size) + size
  }

  lemma {:induction false} ScaleIsProduct(i: nat, size: real)
    ensures Scale(i, size) == (i as real) * size
  {
    if i > 0 {
      ScaleIsProduct(i - 1, size);
    }
  }

  /** `binStart` and `binEnd` of bin `i`: `min + i * binSize` and `min + (i + 1) * binSize`. */
  function BinRangeAt(lo: real, size: real, i: nat): BinRange
  {
    BinRange(lo + Scale(i, size), lo + Scale(i + 1, size))
  }

  /** The labels of bins 0 to k - 1. */
  function Labels(lo: real, size: real, k: nat): (r: seq<BinRange>)
    ensures |r| == k
    ensures forall i :: 0 <= i < k ==> r[i] == BinRangeAt(lo, size, i)
  {
    if k == 0 then [] else Labels(lo, size, k - 1) + [BinRangeAt(lo, size, k - 1)]
  }

  /**
   * `Math.min(Math.floor((v - min) / binSize), binCount - 1)`. When every
   * value is equal, `binSize` is 0 and the index is NaN (`None`): no bin.
   */
  function BinIndex(v: real, lo: real, size: real, k: nat): (r: Option<nat>)
    requires lo <= v && 0.0 <= size && 1 <= k
    ensures r.None? <==> size == 0.0
    ensures r.Some? ==> r.value < k
  {
    if size == 0.0 then None
    else
      assert (v - lo) / size >= 0.0;
      Some(Min(((v - lo) / size).Floor, k - 1))
  }

  /** `bins[binIndex]++`, which adds nothing for a NaN index. */
  function Increment(bins: seq<nat>, index: Option<nat>): (r: seq<nat>)
    requires index.Some? ==> index.value < |bins|
    ensures |r| == |bins|
  {
    match index
    case None => bins
    case Some(i) => bins[i := bins[i] + 1]
  }

  ghost predicate AtLeast(vs: seq<real>, lo: real)
  {
    forall i :: 0 <= i < |vs| ==> lo <= vs[i]
  }

  /** The bin counts after the values, one `bins[binIndex]++` each. */
  function Tally(vs: seq<real>, lo: real, size: real, k: nat): (r: seq<nat>)
    requires AtLeast(vs, lo) && 0.0 <= size && 1 <= k
    ensures |r| == k
  {
    if vs == [] then seq(k, _ => 0)
    else
      Increment(Tally(vs[..|vs| - 1], lo, size, k), BinIndex(vs[|vs| - 1], lo, size, k))
  }

  /** `binSize`: the range of the values divided by the number of bins. */
  function BinSizeOf(values: seq<real>): real
    requires |values| > 0
  {
    (SeqMax(values) - SeqMin(values)) / (BinCount(|values|) as real)
  }

  /** The labels and bins `createChart` computes for a numerical field. */
  function HistogramOf(values: seq<real>): Histogram
    requires |values| > 0
  {
    var lo := SeqMin(values);
    var k := BinCount(|values|);
    var size := BinSizeOf(values);
    assert AtLeast(values, lo) by {
      assert forall i :: 0 <= i < |values| ==> values[i] in values;
    }
    Histogram(Labels(lo, size, k), Tally(values, lo, size, k))
  }

  /** The numerical branch of `createChart`: a labelling loop, then a counting loop. */
  method BuildHistogram(values: seq<real>) returns (h: Histogram)
    requires |values| > 0
    ensures h == HistogramOf(values)
  {
    var lo := SeqMin(values);
    var hi := SeqMax(values);
    var range := hi - lo;
    var binCount := BinCount(|values|);
    var binSize := range / (binCount as real);
    assert binSize == BinSizeOf(values);
    var bins := new nat[binCount];
    var binLabels: seq<BinRange> := [];
    for i := 0 to binCount
      invariant binLabels == Labels(lo, binSize, i)
      invariant forall j :: 0 <= j < i ==> bins[j] == 0
    {
      bins[i] := 0;
      binLabels := binLabels + [BinRangeAt(lo, binSize, i)];
    }
    assert AtLeast(values, lo) by {
      assert forall i :: 0 <= i < |values| ==> values[i] in values;
    }
    assert bins[..] == Tally(values[..0], lo, binSize, binCount);
    for j := 0 to |values|
      invariant bins[..] == Tally(values[..j], lo, binSize, binCount)
    {
      assert values[..j + 1][..j] == values[..j];
      var binIndex := BinIndex(values[j], lo, binSize, binCount);
      if binIndex.Some? {
        bins[binIndex.value] := bins[binIndex.value] + 1;
      }
    }
    assert values[..|values|] == values;
    h := Histogram(binLabels, bins[..]);
  }

  // ---------------------------------------------------------------------
  // What the histogram promises

  function Sum(s: seq<nat>): nat
  {
    if s == [] then 0 else Sum(s[..|s| - 1]) + s[|s| - 1]
  }

  lemma {:induction false} SumIncrement(s: seq<nat>, i: nat)
    requires i < |s|
    ensures Sum(s[i := s[i] + 1]) == Sum(s) + 1
  {
    var t := s[i := s[i] + 1];
    assert t[..|t| - 1] == if i < |s| - 1 then s[..|s| - 1][i := s[i] + 1] else s[..|s| - 1];
    if i < |s| - 1 {
      SumIncrement(s[..|s| - 1], i);
    }
  }

  lemma {:induction false} SumZeros(k: nat)
    ensures Sum(seq(k, _ => 0)) == 0
  {
    if k > 0 {
      assert seq(k, _ => 0)[..k - 1] == seq(k - 1, _ => 0);
      SumZeros(k - 1);
    }
  }

  /** The label list and the bin list both have `binCount` entries, between 3 and 10. */
  lemma HistogramShape(values: seq<real>)
    requires |values| > 0
    ensures |HistogramOf(values).labels| == |HistogramOf(values).bins| == BinCount(|values|)
    ensures 3 <= |HistogramOf(values).bins| <= 10
  {
  }

  /** Bin `i` runs from `min + i * binSize` to `min + (i + 1) * binSize`: all bins have width `binSize`. */
  lemma LabelsEqualWidth(values: seq<real>, i: nat)
    requires |values| > 0 && i < BinCount(|values|)
    ensures HistogramOf(values).labels[i] == BinRangeAt(SeqMin(values), BinSizeOf(values), i)
    ensures HistogramOf(values).labels[i].end - HistogramOf(values).labels[i].start == BinSizeOf(values)
  {
    var h := HistogramOf(values);
    assert h.labels == Labels(SeqMin(values), BinSizeOf(values), BinCount(|values|));
  }

  /** The first bin starts at the minimum and the last ends at the maximum. */
  lemma LabelsSpanRange(values: seq<real>)
    requires |values| > 0
    ensures HistogramOf(values).labels[0].start == SeqMin(values)
    ensures HistogramOf(values).labels[BinCount(|values|) - 1].end == SeqMax(values)
  {
    LabelsEqualWidth(values, 0);
    LastLabelEnd(values);
    BinsCoverRange(values);
  }

  lemma LastLabelEnd(values: seq<real>)
    requires |values| > 0
    ensures HistogramOf(values).labels[BinCount(|values|) - 1].end ==
      SeqMin(values) + Scale(BinCount(|values|), BinSizeOf(values))
  {
    LabelsEqualWidth(values, BinCount(|values|) - 1);
  }

  /** `binCount` bins of width `binSize` from the minimum end at the maximum. */
  lemma BinsCoverRange(values: seq<real>)
    requires |values| > 0
    ensures SeqMin(values) + Scale(BinCount(|values|), BinSizeOf(values)) == SeqMax(values)
  {
    LastBinEnd(SeqMin(values), SeqMax(values), BinCount(|values|));
  }

  /** `k` bins of width `(hi - lo) / k` from `lo` end exactly at `hi`. */
  lemma LastBinEnd(lo: real, hi: real, k: nat)
    requires 1 <= k
    ensures lo + Scale(k, (hi - lo) / (k as real)) == hi
  {
    var size := (hi - lo) / (k as real);
    ScaleIsProduct(k, size);
    DivideThenMultiply(hi - lo, k);
  }

  lemma DivideThenMultiply(d: real, k: nat)
    requires k >= 1
    ensures (k as real) * (d / (k as real)) == d
  {
  }

  /**
   * When the values are not all equal, every value has a bin, and the bin it
   * lands in starts at or below it and, unless it is the last bin, ends above it.
   */
  lemma BinHoldsValue(v: real, lo: real, hi: real, k: nat)
    requires lo <= v <= hi && lo < hi && 1 <= k
    ensures var size := (hi - lo) / (k as real);
      var index := BinIndex(v, lo, size, k);
      && index.Some? && index.value < k
      && lo + Scale(index.value, size) <= v
      && (index.value < k - 1 ==> v < lo + Scale(index.value + 1, size))
  {
    var size := (hi - lo) / (k as real);
    PositiveWidth(hi - lo, k);
    var f := ((v - lo) / size).Floor;
    FloorBounds(v - lo, size);
    if f > k - 1 {
      ScaleMonotone(k - 1, f, size);
    }
  }

  /** `Math.floor(d / size)` is the number of whole widths that fit below `d`. */
  lemma FloorBounds(d: real, size: real)
    requires 0.0 <= d && 0.0 < size
    ensures var f := (d / size).Floor;
      f >= 0 && Scale(f, size) <= d < Scale(f + 1, size)
  {
    var q := d / size;
    DivideThenMultiplyBy(d, size);
    assert q * size == d;
    var f := q.Floor;
    assert 0.0 <= q;
    assert f >= 0;
    var n: nat := f;
    assert (n as real) <= q < (n as real) + 1.0;
    assert ((n + 1) as real) == (n as real) + 1.0;
    ScaleIsProduct(n, size);
    ScaleIsProduct(n + 1, size);
    MultiplyMonotone(n as real, q, size);
    MultiplyStrict(q, (n + 1) as real, size);
    assert Scale(n, size) <= d;
    assert d < Scale(n + 1, size);
  }

  lemma {:induction false} ScaleMonotone(i: nat, j: nat, size: real)
    requires i <= j && 0.0 <= size
    ensures Scale(i, size) <= Scale(j, size)
    decreases j
  {
    if i < j {
      ScaleMonotone(i, j - 1, size);
    }
  }

  lemma PositiveWidth(d: real, k: nat)
    requires 0.0 < d && 1 <= k
    ensures d / (k as real) > 0.0
  {
  }

  lemma DivideThenMultiplyBy(d: real, size: real)
    requires size > 0.0
    ensures (d / size) * size == d
  {
  }

  lemma MultiplyMonotone(a: real, b: real, c: real)
    requires a <= b && 0.0 < c
    ensures a * c <= b * c
  {
  }

  lemma MultiplyStrict(a: real, b: real, c: real)
    requires a < b && 0.0 < c
    ensures a * c < b * c
  {
  }

  /** A value equal to the maximum lands in the last bin, not one past it. */
  lemma MaximumInLastBin(lo: real, hi: real, k: nat)
    requires lo < hi && 1 <= k
    ensures BinIndex(hi, lo, (hi - lo) / (k as real), k) == Some(k - 1)
  {
    var size := (hi - lo) / (k as real);
    var q := (hi - lo) / size;
    assert q * size == hi - lo;
    assert (k as real) * size == hi - lo;
    assert q == k as real;
  }

  /** With a non-zero bin width every value is counted once: the bins sum to the number of values. */
  lemma {:induction false} TallySum(vs: seq<real>, lo: real, size: real, k: nat)
    requires AtLeast(vs, lo) && 0.0 < size && 1 <= k
    ensures Sum(Tally(vs, lo, size, k)) == |vs|
  {
    if vs == [] {
      SumZeros(k);
    } else {
      var p := vs[..|vs| - 1];
      assert AtLeast(p, lo) by {
        assert forall i :: 0 <= i < |p| ==> p[i] == vs[i];
      }
      TallySum(p, lo, size, k);
      var idx := BinIndex(vs[|vs| - 1], lo, size, k);
      SumIncrement(Tally(p, lo, size, k), idx.value);
    }
  }

  /** With a zero bin width (all values equal) every index is NaN and no bin is counted. */
  lemma {:induction false} TallyZeroWidth(vs: seq<real>, lo: real, k: nat)
    requires AtLeast(vs, lo) && 1 <= k
    ensures Tally(vs, lo, 0.0, k) == seq(k, _ => 0)
  {
    if vs != [] {
      var p := vs[..|vs| - 1];
      assert AtLeast(p, lo) by {
        assert forall i :: 0 <= i < |p| ==> p[i] == vs[i];
      }
      TallyZeroWidth(p, lo, k);
    }
  }

  /** Values not all equal: the bins sum to the number of values. All equal: every bin stays 0. */
  lemma HistogramCounts(values: seq<real>)
    requires |values| > 0
    ensures SeqMin(values) < SeqMax(values) ==> Sum(HistogramOf(values).bins) == |values|
    ensures SeqMin(values) == SeqMax(values) ==>
      forall i :: 0 <= i < |HistogramOf(values).bins| ==> HistogramOf(values).bins[i] == 0
  {
    var lo, hi, k := SeqMin(values), SeqMax(values), BinCount(|values|);
    assert AtLeast(values, lo) by {
      assert forall i :: 0 <= i < |values| ==> values[i] in values;
    }
    var size := (hi - lo) / (k as real);
    var h := HistogramOf(values);
    assert h.bins == Tally(values, lo, size, k);
    if lo < hi {
      assert size > 0.0;
      TallySum(values, lo, size, k);
      assert Sum(h.bins) == |values|;
    } else {
      assert size == 0.0;
      TallyZeroWidth(values, lo, k);
      assert forall i :: 0 <= i < |h.bins| ==> h.bins[i] == 0;
    }
  }

  /** The ten values 1, 2, ..., 10. */
  function OneToTen(): seq<real>
  {
    [1.0, 2.0, 3.0, 4.0, 5.0, 6.0, 7.0, 8.0, 9.0, 10.0]
  }

  lemma OneToTenRange()
    ensures SeqMin(OneToTen()) == 1.0 && SeqMax(OneToTen()) == 10.0
  {
    var vs := OneToTen();
    assert forall i :: 0 <= i < |vs| ==> 1.0 <= vs[i] <= 10.0;
    assert forall x :: x in vs ==> 1.0 <= x <= 10.0;
    assert vs[0] in vs && vs[9] in vs;
  }

  /** Ten values 1..10: four bins of width 2.25, and the value 10 (the maximum) goes into bin 3. */
  lemma OneToTenExample()
    ensures |OneToTen()| == 10 && BinCount(|OneToTen()|) == 4
    ensures SeqMin(OneToTen()) == 1.0 && SeqMax(OneToTen()) == 10.0
    ensures BinSizeOf(OneToTen()) == 2.25
    ensures BinIndex(10.0, SeqMin(OneToTen()), BinSizeOf(OneToTen()), BinCount(|OneToTen()|)) == Some(3)
  {
    TenValuesGiveFourBins();
    OneToTenRange();
    MaximumInLastBin(1.0, 10.0, 4);
  }

  /** Counting the values 1..10 into the four bins gives 3, 2, 2 and 3. */
  lemma OneToTenBins()
    ensures HistogramOf(OneToTen()).bins == [3, 2, 2, 3]
  {
    OneToTenExample();
    var vs := OneToTen();
    OneToTenTally();
    assert HistogramOf(vs).bins == Tally(vs, 1.0, 2.25, 4);
    assert vs[..10] == vs;
  }

  /** The bins of the values 1 to 5. */
  lemma OneToTenLowIndices()
    ensures BinIndex(1.0, 1.0, 2.25, 4) == Some(0) && BinIndex(2.0, 1.0, 2.25, 4) == Some(0)
    ensures BinIndex(3.0, 1.0, 2.25, 4) == Some(0) && BinIndex(4.0, 1.0, 2.25, 4) == Some(1)
    ensures BinIndex(5.0, 1.0, 2.25, 4) == Some(1)
  {
  }

  /** The bins of the values 6 to 10. */
  lemma OneToTenHighIndices()
    ensures BinIndex(6.0, 1.0, 2.25, 4) == Some(2) && BinIndex(7.0, 1.0, 2.25, 4) == Some(2)
    ensures BinIndex(8.0, 1.0, 2.25, 4) == Some(3) && BinIndex(9.0, 1.0, 2.25, 4) == Some(3)
    ensures BinIndex(10.0, 1.0, 2.25, 4) == Some(3)
  {
  }

  /** One more value, falling into bin `b`, adds one to that bin. */
  lemma TallyStep(vs: seq<real>, lo: real, size: real, k: nat, j: nat, before: seq<nat>, b: nat, after: seq<nat>)
    requires AtLeast(vs, lo) && 0.0 <= size && 1 <= k && j < |vs|
    requires AtLeast(vs[..j], lo) && Tally(vs[..j], lo, size, k) == before
    requires BinIndex(vs[j], lo, size, k) == Some(b) && b < k
    requires |before| == |after| == k && after == before[b := before[b] + 1]
    ensures AtLeast(vs[..j + 1], lo)
    ensures Tally(vs[..j + 1], lo, size, k) == after
  {
    assert vs[..j + 1][..j] == vs[..j];
  }

  /** The values 1, 2 and 3 fill bin 0. */
  lemma OneToTenBinZero()
    ensures AtLeast(OneToTen(), 1.0) && AtLeast(OneToTen()[..3], 1.0)
    ensures Tally(OneToTen()[..3], 1.0, 2.25, 4) == [3, 0, 0, 0]
  {
    var vs := OneToTen();
    assert AtLeast(vs, 1.0);
    assert AtLeast(vs[..0], 1.0) && Tally(vs[..0], 1.0, 2.25, 4) == [0, 0, 0, 0];
    OneToTenLowIndices();
    TallyStep(vs, 1.0, 2.25, 4, 0, [0, 0, 0, 0], 0, [1, 0, 0, 0]);
    TallyStep(vs, 1.0, 2.25, 4, 1, [1, 0, 0, 0], 0, [2, 0, 0, 0]);
    TallyStep(vs, 1.0, 2.25, 4, 2, [2, 0, 0, 0], 0, [3, 0, 0, 0]);
  }

  /** The values 4 and 5 go into bin 1. */
  lemma OneToTenBinOne()
    ensures AtLeast(OneToTen(), 1.0) && AtLeast(OneToTen()[..5], 1.0)
    ensures Tally(OneToTen()[..5], 1.0, 2.25, 4) == [3, 2, 0, 0]
  {
    var vs := OneToTen();
    OneToTenBinZero();
    OneToTenLowIndices();
    TallyStep(vs, 1.0, 2.25, 4, 3, [3, 0, 0, 0], 1, [3, 1, 0, 0]);
    TallyStep(vs, 1.0, 2.25, 4, 4, [3, 1, 0, 0], 1, [3, 2, 0, 0]);
  }

  /** The values 6 and 7 go into bin 2. */
  lemma OneToTenBinTwo()
    ensures AtLeast(OneToTen(), 1.0) && AtLeast(OneToTen()[..7], 1.0)
    ensures Tally(OneToTen()[..7], 1.0, 2.25, 4) == [3, 2, 2, 0]
  {
    var vs := OneToTen();
    OneToTenBinOne();
    OneToTenHighIndices();
    TallyStep(vs, 1.0, 2.25, 4, 5, [3, 2, 0, 0], 2, [3, 2, 1, 0]);
    TallyStep(vs, 1.0, 2.25, 4, 6, [3, 2, 1, 0], 2, [3, 2, 2, 0]);
  }

  /** The values 8, 9 and 10 go into bin 3. */
  lemma OneToTenTally()
    ensures AtLeast(OneToTen(), 1.0) && AtLeast(OneToTen()[..10], 1.0)
    ensures Tally(OneToTen()[..10], 1.0, 2.25, 4) == [3, 2, 2, 3]
  {
    var vs := OneToTen();
    OneToTenBinTwo();
    OneToTenHighIndices();
    TallyStep(vs, 1.0, 2.25, 4, 7, [3, 2, 2, 0], 3, [3, 2, 2, 1]);
    TallyStep(vs, 1.0, 2.25, 4, 8, [3, 2, 2, 1], 3, [3, 2, 2, 2]);
    TallyStep(vs, 1.0, 2.25, 4, 9, [3, 2, 2, 2], 3, [3, 2, 2, 3]);
  }
}
