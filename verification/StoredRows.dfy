/** What a stored rollup row shows, in terms of nothing but the samples that were on time for its bucket. */
module StoredRows {
  import opened Common
  import opened Sorting
  import opened Rollup
  import opened RollupTables
  import opened Aggregator

  function Success(): Sample -> bool {
    (x: Sample) => x.success
  }

  function RttOf(): Sample -> int {
    (x: Sample) => x.rttUs
  }

  function RttAtMost(v: int): Sample -> bool {
    (x: Sample) => x.rttUs <= v
  }

  /** How much each round-trip time differs from the one before it, if that was not negative. */
  function Differences(answered: seq<Sample>): seq<int> {
    if |answered| < 2 then []
    else
      var before, a, b := Differences(answered[..|answered| - 1]), answered[|answered| - 2].rttUs, answered[|answered| - 1].rttUs;
      if a < 0 then before else before + [if a < b then b - a else a - b]
  }

  /** The figures of a row with successes. */
  ghost predicate FiguresShow(f: Figures, answered: seq<Sample>) {
    && |answered| > 0
    && f.avgUs == TruncDiv(Sum(answered, RttOf()), |answered|)
    && (exists x :: x in answered && x.rttUs == f.minUs) && (forall x :: x in answered ==> f.minUs <= x.rttUs)
    && (exists x :: x in answered && x.rttUs == f.maxUs) && (forall x :: x in answered ==> x.rttUs <= f.maxUs)
    && (exists x :: x in answered && x.rttUs == f.p95Us)
    && 100 * Count(answered, RttAtMost(f.p95Us)) >= 95 * |answered|
    && (forall v :: 100 * Count(answered, RttAtMost(v)) >= 95 * |answered| ==> f.p95Us <= v)
    && f.jitterUs == (if |Differences(answered)| > 0 then TruncDiv(Sum(Differences(answered), Itself()), |Differences(answered)|) else 0)
  }

  /** A row counts its samples and its losses, and has figures exactly if some sample succeeded. */
  ghost predicate RowShows(row: Row, samples: seq<Sample>) {
    && row.sent == |samples| && row.lost == |samples| - Count(samples, Success())
    && (row.figures.Some? <==> exists x :: x in samples && x.success)
    && (row.figures.Some? ==> FiguresShow(row.figures.value, Filter(samples, Success())))
  }

  // ----- the statistics of a bucket in terms of its samples -----

  /** The list holds the round-trip times of the samples, in the same order. */
  ghost predicate AreRtts(rtts: seq<int>, answered: seq<Sample>) {
    |rtts| == |answered| && forall i :: 0 <= i < |rtts| ==> rtts[i] == answered[i].rttUs
  }

  lemma {:induction false} RttsAreAnswered(samples: seq<Sample>)
    ensures AreRtts(Rtts(samples), Filter(samples, Success()))
    ensures Count(samples, Failure()) == |samples| - |Filter(samples, Success())|
  {
    if |samples| > 0 {
      RttsAreAnswered(samples[..|samples| - 1]);
    }
  }

  lemma {:induction false} SumsAgree(rtts: seq<int>, answered: seq<Sample>)
    requires AreRtts(rtts, answered)
    ensures Sum(rtts, Itself()) == Sum(answered, RttOf())
  {
    if |rtts| > 0 {
      SumsAgree(rtts[..|rtts| - 1], answered[..|answered| - 1]);
    }
  }

  lemma {:induction false} CountsAgree(rtts: seq<int>, answered: seq<Sample>, v: int)
    requires AreRtts(rtts, answered)
    ensures Count(rtts, AtMost(v)) == Count(answered, RttAtMost(v))
  {
    if |rtts| > 0 {
      CountsAgree(rtts[..|rtts| - 1], answered[..|answered| - 1], v);
    }
  }

  lemma {:induction false} DifferencesAgree(rtts: seq<int>, answered: seq<Sample>)
    requires AreRtts(rtts, answered)
    ensures JitterCount(rtts) == |Differences(answered)| && JitterSum(rtts) == Sum(Differences(answered), Itself())
  {
    if |rtts| >= 2 {
      var before := Differences(answered[..|answered| - 1]);
      DifferencesAgree(rtts[..|rtts| - 1], answered[..|answered| - 1]);
      var a, b := answered[|answered| - 2].rttUs, answered[|answered| - 1].rttUs;
      if a >= 0 {
        SumStep(before, if a < b then b - a else a - b, Itself());
      }
    }
  }

  lemma RttIsOfSample(rtts: seq<int>, answered: seq<Sample>, r: int)
    requires AreRtts(rtts, answered)
    ensures r in rtts <==> exists x :: x in answered && x.rttUs == r
  {
    if r in rtts {
      var i :| 0 <= i < |rtts| && rtts[i] == r;
      assert answered[i] in answered;
    }
    if x :| x in answered && x.rttUs == r {
      var i :| 0 <= i < |answered| && answered[i] == x;
      assert rtts[i] == r;
    }
  }

  lemma BoundsAgree(rtts: seq<int>, answered: seq<Sample>, lo: int, hi: int)
    requires AreRtts(rtts, answered) && forall r :: r in rtts ==> lo <= r <= hi
    ensures forall x :: x in answered ==> lo <= x.rttUs <= hi
  {
    forall x | x in answered ensures lo <= x.rttUs <= hi {
      var i :| 0 <= i < |answered| && answered[i] == x;
      assert rtts[i] in rtts;
    }
  }

  lemma FiguresMean(samples: seq<Sample>)
    requires |Rtts(samples)| > 0
    ensures var st := Stats(samples);
      FiguresShow(Figures(st.rttAvgUs, st.rttMinUs, st.rttMaxUs, st.rttP95Us, st.jitterUs), Filter(samples, Success()))
  {
    var st, rtts, answered := Stats(samples), Rtts(samples), Filter(samples, Success());
    RttsAreAnswered(samples);
    Extremes(samples);
    BoundsAgree(rtts, answered, st.rttMinUs, st.rttMaxUs);
    RttIsOfSample(rtts, answered, st.rttMinUs);
    RttIsOfSample(rtts, answered, st.rttMaxUs);
    Percentile95(samples, 0);
    RttIsOfSample(rtts, answered, st.rttP95Us);
    CountsAgree(rtts, answered, st.rttP95Us);
    forall v | 100 * Count(answered, RttAtMost(v)) >= 95 * |answered| ensures st.rttP95Us <= v {
      CountsAgree(rtts, answered, v);
      Percentile95(samples, v);
    }
    AverageAndJitter(samples);
  }

  lemma AverageAndJitter(samples: seq<Sample>)
    requires |Rtts(samples)| > 0
    ensures var st, answered := Stats(samples), Filter(samples, Success());
      && |answered| > 0 && st.rttAvgUs == TruncDiv(Sum(answered, RttOf()), |answered|)
      && st.jitterUs == if |Differences(answered)| > 0 then TruncDiv(Sum(Differences(answered), Itself()), |Differences(answered)|) else 0
  {
    RttsAreAnswered(samples);
    SumsAgree(Rtts(samples), Filter(samples, Success()));
    DifferencesAgree(Rtts(samples), Filter(samples, Success()));
  }

  lemma StatsShow(samples: seq<Sample>)
    ensures RowShows(RowOf(Stats(samples)), samples)
  {
    RttsAreAnswered(samples);
    CountIsFilterLength(samples, Success());
    FilterMembers(samples, Success());
    var answered := Filter(samples, Success());
    forall x | x in samples && x.success ensures |answered| > 0 {
      assert x in answered;
    }
    if |answered| > 0 {
      assert answered[0] in answered;
      FiguresMean(samples);
    }
  }

  // ----- the rows of the store -----

  /** Milliseconds of a bucket. */
  function BucketMs(res: Res): int {
    if res == Minute then 60_000 else 3_600_000
  }

  /** The samples that count for a bucket: those of its target and time that were not taken during a speed test. */
  function Counts(c: Cell): Sample -> bool {
    (x: Sample) =>
      x.target == c.series.target && c.bucket <= x.ts < c.bucket + BucketMs(c.series.res) && !x.duringSpeedtest
  }

  lemma BatchIsOrdered(d: Data, c: Cell) returns (samples: seq<Sample>)
    ensures samples == Batch(OnTime(d, c.series.res), c.series.target, c.bucket, c.bucket + Width(c.series.res))
    ensures Ordered(samples, (x: Sample) => x.ts)
    ensures multiset(samples) == multiset(Filter(OnTime(d, c.series.res), Counts(c)))
  {
    var onTime := OnTime(d, c.series.res);
    var counted := CountedIn(c.series.target, c.bucket, c.bucket + Width(c.series.res));
    samples := Batch(onTime, c.series.target, c.bucket, c.bucket + Width(c.series.res));
    SameFilter(onTime, counted, Counts(c));
    SortIsOrdered(Filter(onTime, counted), ByTime());
    SortPermutes(Filter(onTime, counted), ByTime());
    forall i, j | 0 <= i < j < |samples| ensures samples[i].ts <= samples[j].ts {
      assert ByTime()(samples[i]) <= ByTime()(samples[j]);
    }
  }

  lemma RowIsBatch(d: Data, c: Cell, samples: seq<Sample>)
    requires Right(d) && c.series.target in d.targets
    requires samples == Batch(OnTime(d, c.series.res), c.series.target, c.bucket, c.bucket + Width(c.series.res))
    ensures c in d.rollups ==>
      && 0 <= c.bucket < CursorOf(d.cursors, c.series) && Aligned(c.bucket, c.series.res)
      && |samples| > 0 && d.rollups[c] == RowOf(Stats(samples))
    ensures 0 <= c.bucket < CursorOf(d.cursors, c.series) && Aligned(c.bucket, c.series.res) && |samples| > 0 ==>
      c in d.rollups || (c.series.res == Minute && c.bucket < d.horizon)
  {
    assert IsRight(d, c.series) && c == Cell(c.series, c.bucket);
  }

  /**
   Every row of a listed target shows the samples of its bucket that were on time and not taken during a speed test, in
   the order of their times; and outside the deleted part of the 1m table every bucket below the cursor that has such a
   sample has a row.
   */
  lemma RowsShowTheirSamples(d: Data, c: Cell) returns (samples: seq<Sample>)
    requires Right(d) && c.series.target in d.targets
    ensures Ordered(samples, (x: Sample) => x.ts)
    ensures multiset(samples) == multiset(Filter(OnTime(d, c.series.res), Counts(c)))
    ensures c in d.rollups ==>
      && 0 <= c.bucket < CursorOf(d.cursors, c.series) && Aligned(c.bucket, c.series.res)
      && |samples| > 0 && RowShows(d.rollups[c], samples)
    ensures 0 <= c.bucket < CursorOf(d.cursors, c.series) && Aligned(c.bucket, c.series.res) && |samples| > 0 ==>
      c in d.rollups || (c.series.res == Minute && c.bucket < d.horizon)
  {
    samples := BatchIsOrdered(d, c);
    RowIsBatch(d, c, samples);
    if c in d.rollups {
      ShownRow(d.rollups[c], samples);
    }
  }

  lemma ShownRow(row: Row, samples: seq<Sample>)
    requires row == RowOf(Stats(samples))
    ensures RowShows(row, samples)
  {
    StatsShow(samples);
  }
}
