/** Aggregates of one rollup bucket, and the grouping of samples into buckets. */
module Rollup {
  import opened Common
  import opened Sorting

  datatype BucketStats = BucketStats(sent: nat, lost: nat, rttAvgUs: int, rttMinUs: int, rttMaxUs: int, rttP95Us: int, jitterUs: int)

  /** The round-trip times of the successes, in order. */
  function Rtts(samples: seq<Sample>): seq<int> {
    if |samples| == 0 then []
    else if samples[|samples| - 1].success then Rtts(samples[..|samples| - 1]) + [samples[|samples| - 1].rttUs]
    else Rtts(samples[..|samples| - 1])
  }

  /** Consecutive differences count only after a non-negative value, because a negative one stands for no value yet. */
  function JitterSum(rtts: seq<int>): nat {
    if |rtts| < 2 then 0
    else JitterSum(rtts[..|rtts| - 1]) +
         (if rtts[|rtts| - 2] >= 0 then Abs(rtts[|rtts| - 1] - rtts[|rtts| - 2]) else 0)
  }

  function JitterCount(rtts: seq<int>): nat {
    if |rtts| < 2 then 0 else JitterCount(rtts[..|rtts| - 1]) + (if rtts[|rtts| - 2] >= 0 then 1 else 0)
  }

  /** The 1-based nearest rank of the 95th percentile among n values: 0.95 n rounded up. */
  function Rank95(n: nat): nat {
    (95 * n + 99) / 100
  }

  function Stats(samples: seq<Sample>): BucketStats {
    var rtts := Rtts(samples);
    var n := |rtts|;
    var lost := Count(samples, Failure());
    if n == 0 then BucketStats(|samples|, lost, 0, 0, 0, 0, 0)
    else
      var sorted := Sort(rtts, Itself());
      BucketStats(|samples|, lost, TruncDiv(Sum(rtts, Itself()), n), sorted[0], sorted[n - 1], sorted[Rank95(n) - 1],
                  if JitterCount(rtts) > 0 then TruncDiv(JitterSum(rtts), JitterCount(rtts)) else 0)
  }

  method ComputeBucket(samples: seq<Sample>) returns (st: BucketStats)
    ensures st == Stats(samples)
  {
    var lost := 0;
    var rtts: seq<int> := [];
    var sum, prev, jitterSum, jitterN := 0, -1, 0, 0;
    for k := 0 to |samples|
      invariant lost == Count(samples[..k], Failure())
      invariant rtts == Rtts(samples[..k])
      invariant sum == Sum(rtts, Itself())
      invariant prev == if |rtts| > 0 then rtts[|rtts| - 1] else -1
      invariant jitterSum == JitterSum(rtts) && jitterN == JitterCount(rtts)
    {
      var s := samples[k];
      assert samples[..k + 1][..k] == samples[..k];
      if !s.success {
        lost := lost + 1;
        continue;
      }
      ghost var before := rtts;
      rtts := rtts + [s.rttUs];
      assert rtts[..|rtts| - 1] == before;
      sum := sum + s.rttUs;
      if prev >= 0 {
        var d := s.rttUs - prev;
        if d < 0 {
          d := -d;
        }
        jitterSum := jitterSum + d;
        jitterN := jitterN + 1;
      }
      prev := s.rttUs;
    }
    assert samples[..|samples|] == samples;
    if |rtts| == 0 {
      return BucketStats(|samples|, lost, 0, 0, 0, 0, 0);
    }
    var sorted := Sort(rtts, Itself());
    var rank := (95 * |sorted| + 99) / 100;
    if rank < 1 {
      rank := 1;
    }
    st := BucketStats(|samples|, lost, TruncDiv(sum, |rtts|), sorted[0], sorted[|sorted| - 1], sorted[rank - 1],
                      if jitterN > 0 then TruncDiv(jitterSum, jitterN) else 0);
  }

  // ----- what the figures mean -----

  function AtMost(v: int): int -> bool {
    (x: int) => x <= v
  }

  lemma {:induction false} SentIsLostPlusRtts(samples: seq<Sample>)
    ensures |samples| == Count(samples, Failure()) + |Rtts(samples)|
  {
    if |samples| > 0 {
      SentIsLostPlusRtts(samples[..|samples| - 1]);
    }
  }

  lemma SortedIsMonotone(rtts: seq<int>)
    ensures var sorted := Sort(rtts, Itself());
      (forall i, j :: 0 <= i <= j < |sorted| ==> sorted[i] <= sorted[j]) && forall x :: x in sorted <==> x in rtts
  {
    SortKeepsMembers(rtts, Itself());
    SortIsOrdered(rtts, Itself());
    var sorted := Sort(rtts, Itself());
    forall i, j | 0 <= i <= j < |sorted| ensures sorted[i] <= sorted[j] {
      assert i < j ==> Itself()(sorted[i]) <= Itself()(sorted[j]);
    }
  }

  /** The extremes are attained bounds of the successful round-trip times. */
  lemma Extremes(samples: seq<Sample>)
    requires |Rtts(samples)| > 0
    ensures var st, rtts := Stats(samples), Rtts(samples);
      && st.rttMinUs in rtts && st.rttMaxUs in rtts
      && forall x :: x in rtts ==> st.rttMinUs <= x <= st.rttMaxUs
  {
    var rtts := Rtts(samples);
    SortedIsMonotone(rtts);
    var sorted := Sort(rtts, Itself());
    assert sorted[0] in sorted && sorted[|sorted| - 1] in sorted;
    forall x | x in rtts ensures sorted[0] <= x <= sorted[|sorted| - 1] {
      assert x in sorted;
      var i :| 0 <= i < |sorted| && sorted[i] == x;
    }
  }

  /** The 95th percentile is the least round-trip time that at least 95 of 100 successes do not exceed. */
  lemma Percentile95(samples: seq<Sample>, v: int)
    requires |Rtts(samples)| > 0
    ensures var rtts, p95 := Rtts(samples), Stats(samples).rttP95Us;
      && p95 in rtts
      && 100 * Count(rtts, AtMost(p95)) >= 95 * |rtts|
      && (100 * Count(rtts, AtMost(v)) >= 95 * |rtts| ==> p95 <= v)
  {
    var rtts := Rtts(samples);
    var sorted, rank := Sort(rtts, Itself()), Rank95(|rtts|);
    SortedIsMonotone(rtts);
    var p95 := sorted[rank - 1];
    assert p95 in sorted;
    CountSort(rtts, Itself(), AtMost(p95));
    CountSort(rtts, Itself(), AtMost(v));
    CountAll(sorted, AtMost(p95), rank);
    if v < p95 {
      CountUpTo(sorted, AtMost(v), rank - 1);
    }
  }

  lemma {:induction false} CountAll(s: seq<int>, p: int -> bool, n: nat)
    requires n <= |s| && forall k :: 0 <= k < n ==> p(s[k])
    ensures Count(s, p) >= n
  {
    if |s| > n {
      CountAll(s[..|s| - 1], p, n);
    } else if |s| > 0 {
      CountAll(s[..|s| - 1], p, n - 1);
    }
  }

  ghost predicate Within(rtts: seq<int>, lo: int, hi: int) {
    forall i :: 0 <= i < |rtts| ==> lo <= rtts[i] <= hi
  }

  lemma OneMore(d: int, n: int)
    ensures d * (n + 1) == d * n + d
  {
  }

  lemma {:induction false} SumWithin(rtts: seq<int>, lo: int, hi: int)
    requires Within(rtts, lo, hi)
    ensures lo * |rtts| <= Sum(rtts, Itself()) <= hi * |rtts|
  {
    if |rtts| > 0 {
      SumWithin(rtts[..|rtts| - 1], lo, hi);
      OneMore(lo, |rtts| - 1);
      OneMore(hi, |rtts| - 1);
    }
  }

  lemma {:induction false} JitterWithin(rtts: seq<int>, lo: int, hi: int, d: nat)
    requires Within(rtts, lo, hi) && d == hi - lo
    ensures JitterSum(rtts) <= d * JitterCount(rtts)
  {
    if |rtts| >= 2 {
      JitterWithin(rtts[..|rtts| - 1], lo, hi, d);
      OneMore(d, JitterCount(rtts[..|rtts| - 1]));
    }
  }

  lemma TruncDivWithin(sum: int, n: int, lo: int, hi: int)
    requires n > 0 && lo * n <= sum <= hi * n
    ensures lo <= TruncDiv(sum, n) <= hi
  {
    var q := TruncDiv(sum, n);
    TruncDivBounds(sum, n);
    OneMore(n, q);
    OneMore(n, q - 1);
    if q < lo {
      Multiply(q + 1, lo, n);
    } else if q > hi {
      Multiply(hi, q - 1, n);
    }
  }

  lemma AverageWithin(rtts: seq<int>, lo: int, hi: int)
    requires Within(rtts, lo, hi) && |rtts| > 0
    ensures lo <= TruncDiv(Sum(rtts, Itself()), |rtts|) <= hi
    ensures JitterCount(rtts) > 0 ==> 0 <= TruncDiv(JitterSum(rtts), JitterCount(rtts)) <= hi - lo
  {
    SumWithin(rtts, lo, hi);
    TruncDivWithin(Sum(rtts, Itself()), |rtts|, lo, hi);
    assert lo <= rtts[0] <= hi;
    JitterWithin(rtts, lo, hi, hi - lo);
    if JitterCount(rtts) > 0 {
      TruncDivWithin(JitterSum(rtts), JitterCount(rtts), 0, hi - lo);
    }
  }

  /** The average and the 95th percentile lie between the extremes, and the jitter does not exceed their distance. */
  lemma FiguresAreOrdered(samples: seq<Sample>)
    requires |Rtts(samples)| > 0
    ensures var st := Stats(samples);
      && st.rttMinUs <= st.rttAvgUs <= st.rttMaxUs
      && st.rttMinUs <= st.rttP95Us <= st.rttMaxUs
      && 0 <= st.jitterUs <= st.rttMaxUs - st.rttMinUs
  {
    var st, rtts := Stats(samples), Rtts(samples);
    Extremes(samples);
    forall i | 0 <= i < |rtts| ensures st.rttMinUs <= rtts[i] <= st.rttMaxUs {
      assert rtts[i] in rtts;
    }
    AverageWithin(rtts, st.rttMinUs, st.rttMaxUs);
    Percentile95(samples, 0);
  }

  // ----- grouping by bucket -----

  /** The start of the bucket of a time stamp, with Go's remainder, which takes the sign of the dividend. */
  function BucketStart(width: int): Sample -> int
    requires width > 0
  {
    (s: Sample) => TruncDiv(s.ts, width) * width
  }

  function ByTime(): Sample -> int {
    (s: Sample) => s.ts
  }

  function InBucket(bucket: Sample -> int, k: int): Sample -> bool {
    (s: Sample) => bucket(s) == k
  }

  function Keys(samples: seq<Sample>, bucket: Sample -> int): seq<int> {
    if |samples| == 0 then []
    else
      var before, k := Keys(samples[..|samples| - 1], bucket), bucket(samples[|samples| - 1]);
      if k in before then before else before + [k]
  }

  method BucketSamples(samples: seq<Sample>, width: int) returns (keys: seq<int>, buckets: map<int, seq<Sample>>)
    requires width > 0
    ensures keys == Keys(samples, BucketStart(width))
    ensures forall k :: k in buckets <==> k in keys
    ensures forall k :: k in buckets ==> buckets[k] == Filter(samples, InBucket(BucketStart(width), k))
  {
    keys, buckets := [], map[];
    ghost var bucket := BucketStart(width);
    for n := 0 to |samples|
      invariant keys == Keys(samples[..n], bucket)
      invariant forall k :: k in buckets <==> k in keys
      invariant forall k :: k in buckets ==> buckets[k] == Filter(samples[..n], InBucket(bucket, k))
      invariant forall k :: k !in buckets ==> Filter(samples[..n], InBucket(bucket, k)) == []
    {
      var s := samples[n];
      assert samples[..n + 1][..n] == samples[..n];
      var b := TruncDiv(s.ts, width) * width;
      assert b == bucket(s);
      if b !in buckets {
        keys := keys + [b];
        buckets := buckets[b := []];
      }
      buckets := buckets[b := buckets[b] + [s]];
    }
    assert samples[..|samples|] == samples;
  }

  /** The buckets of the given keys, one after the other. */
  function Concat(samples: seq<Sample>, keys: seq<int>, bucket: Sample -> int): seq<Sample> {
    if |keys| == 0 then []
    else Concat(samples, keys[..|keys| - 1], bucket) + Filter(samples, InBucket(bucket, keys[|keys| - 1]))
  }

  lemma BucketStartIsMonotone(a: Sample, b: Sample, width: int)
    requires width > 0 && a.ts <= b.ts
    ensures BucketStart(width)(a) <= BucketStart(width)(b)
  {
    TruncDivMonotone(a.ts, b.ts, width);
    Multiply(TruncDiv(a.ts, width), TruncDiv(b.ts, width), width);
  }

  lemma {:induction false} ConcatStep(samples: seq<Sample>, s: Sample, keys: seq<int>, bucket: Sample -> int)
    requires bucket(s) !in keys
    ensures Concat(samples + [s], keys, bucket) == Concat(samples, keys, bucket)
  {
    if |keys| > 0 {
      assert bucket(s) != keys[|keys| - 1];
      ConcatStep(samples, s, keys[..|keys| - 1], bucket);
      FilterStep(samples, s, InBucket(bucket, keys[|keys| - 1]));
    }
  }

  lemma {:induction false} KeysAreNonempty(samples: seq<Sample>, bucket: Sample -> int, k: int)
    ensures k in Keys(samples, bucket) <==> |Filter(samples, InBucket(bucket, k))| > 0
  {
    if |samples| > 0 {
      KeysAreNonempty(samples[..|samples| - 1], bucket, k);
    }
  }

  ghost predicate StrictlyIncreasing(keys: seq<int>) {
    |keys| > 1 ==> keys[|keys| - 2] < keys[|keys| - 1] && StrictlyIncreasing(keys[..|keys| - 1])
  }

  lemma {:induction false} IncreasingKeysBelow(keys: seq<int>)
    requires StrictlyIncreasing(keys)
    ensures forall i :: 0 <= i < |keys| - 1 ==> keys[i] < keys[|keys| - 1]
  {
    if |keys| > 1 {
      IncreasingKeysBelow(keys[..|keys| - 1]);
    }
  }

  ghost predicate Monotone(samples: seq<Sample>, bucket: Sample -> int) {
    |samples| > 1 ==> bucket(samples[|samples| - 2]) <= bucket(samples[|samples| - 1]) && Monotone(samples[..|samples| - 1], bucket)
  }

  lemma {:induction false} OrderedIsMonotone(samples: seq<Sample>, width: int)
    requires width > 0 && Ordered(samples, ByTime())
    ensures Monotone(samples, BucketStart(width))
  {
    if |samples| > 1 {
      assert ByTime()(samples[|samples| - 2]) <= ByTime()(samples[|samples| - 1]);
      BucketStartIsMonotone(samples[|samples| - 2], samples[|samples| - 1], width);
      OrderedIsMonotone(samples[..|samples| - 1], width);
    }
  }

  lemma {:induction false} MonotoneConcatenates(samples: seq<Sample>, bucket: Sample -> int)
    requires Monotone(samples, bucket)
    ensures var keys := Keys(samples, bucket);
      && StrictlyIncreasing(keys)
      && (|samples| > 0 ==> |keys| > 0 && keys[|keys| - 1] == bucket(samples[|samples| - 1]))
      && Concat(samples, keys, bucket) == samples
  {
    if |samples| > 0 {
      var front, s := samples[..|samples| - 1], samples[|samples| - 1];
      var before, b := Keys(front, bucket), bucket(s);
      assert samples == front + [s];
      MonotoneConcatenates(front, bucket);
      IncreasingKeysBelow(before);
      KeysAreNonempty(front, bucket, b);
      FilterStep(front, s, InBucket(bucket, b));
      if b in before {
        ConcatLast(front, s, before, bucket);
      } else {
        ConcatStep(front, s, before, bucket);
        assert (before + [b])[..|before|] == before;
      }
    }
  }

  lemma ConcatLast(samples: seq<Sample>, s: Sample, keys: seq<int>, bucket: Sample -> int)
    requires |keys| > 0 && keys[|keys| - 1] == bucket(s) && bucket(s) !in keys[..|keys| - 1]
    ensures Concat(samples + [s], keys, bucket) == Concat(samples, keys, bucket) + [s]
  {
    ConcatStep(samples, s, keys[..|keys| - 1], bucket);
    FilterStep(samples, s, InBucket(bucket, bucket(s)));
  }

  /** Grouping ordered samples loses and reorders nothing: keys increase strictly, and the buckets in key order are the samples. */
  lemma BucketsConcatenate(samples: seq<Sample>, width: int)
    requires width > 0 && Ordered(samples, ByTime())
    ensures var keys := Keys(samples, BucketStart(width));
      StrictlyIncreasing(keys) && Concat(samples, keys, BucketStart(width)) == samples
  {
    OrderedIsMonotone(samples, width);
    MonotoneConcatenates(samples, BucketStart(width));
  }
}
