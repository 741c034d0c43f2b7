/**
 The three resolutions of a summary. Totals are computed from raw samples, from 1m rows or from 1h rows, depending on
 the length of the range; where the rollups are complete all of them give the same figures.
 */
module SummaryViews {
  import opened Common
  import opened Sorting
  import opened Rollup
  import opened RollupTables
  import opened Aggregator

  /** What is being added up. */
  datatype Figure = Sent | Lost

  /** What one sample adds: samples outside [lo, hi) and those taken during a speed test add nothing. */
  function OfSample(f: Figure, s: Sample, t: int, lo: int, hi: int): nat {
    if s.target != t || s.ts < lo || hi <= s.ts || s.duringSpeedtest then 0
    else if f == Sent || !s.success then 1 else 0
  }

  /** The raw view. */
  function RawTotal(f: Figure, samples: seq<Sample>, t: int, lo: int, hi: int): nat {
    if |samples| == 0 then 0
    else RawTotal(f, samples[..|samples| - 1], t, lo, hi) + OfSample(f, samples[|samples| - 1], t, lo, hi)
  }

  function OfCell(f: Figure, rollups: map<Cell, Row>, s: Series, k: int): nat {
    if Cell(s, k) !in rollups then 0 else if f == Sent then rollups[Cell(s, k)].sent else rollups[Cell(s, k)].lost
  }

  /** The rollup view: the rows whose bucket starts in [from, to], both ends included. */
  function RowsTotal(f: Figure, rollups: map<Cell, Row>, s: Series, from: int, to: int): nat
    decreases 1 + to - from
  {
    if to < from then 0 else RowsTotal(f, rollups, s, from, to - 1) + OfCell(f, rollups, s, to)
  }

  function LostIn(t: int, lo: int, hi: int): Sample -> bool {
    (s: Sample) => CountedIn(t, lo, hi)(s) && !s.success
  }

  /** The samples that add one to a figure. */
  function Adds(f: Figure, t: int, lo: int, hi: int): Sample -> bool {
    if f == Sent then CountedIn(t, lo, hi) else LostIn(t, lo, hi)
  }

  lemma AddsOne(f: Figure, s: Sample, t: int, lo: int, hi: int)
    ensures OfSample(f, s, t, lo, hi) == if Adds(f, t, lo, hi)(s) then 1 else 0
  {
    if f == Sent {
      assert CountedIn(t, lo, hi)(s) <==> (s.target == t && lo <= s.ts < hi && !s.duringSpeedtest);
    } else {
      assert LostIn(t, lo, hi)(s) <==> (CountedIn(t, lo, hi)(s) && !s.success);
    }
  }

  lemma {:induction false} RawTotalIsCount(f: Figure, samples: seq<Sample>, t: int, lo: int, hi: int)
    ensures RawTotal(f, samples, t, lo, hi) == Count(samples, Adds(f, t, lo, hi))
  {
    if |samples| > 0 {
      RawTotalIsCount(f, samples[..|samples| - 1], t, lo, hi);
      AddsOne(f, samples[|samples| - 1], t, lo, hi);
    }
  }

  lemma RawTotalOfBatch(f: Figure, samples: seq<Sample>, t: int, lo: int, hi: int)
    ensures var batch := Batch(samples, t, lo, hi);
      RawTotal(f, samples, t, lo, hi) == if f == Sent then |batch| else Count(batch, Failure())
  {
    RawTotalIsCount(f, samples, t, lo, hi);
    var counted := Filter(samples, CountedIn(t, lo, hi));
    CountSort(counted, ByTime(), Failure());
    CountIsFilterLength(samples, CountedIn(t, lo, hi));
    CountIsFilterLength(samples, LostIn(t, lo, hi));
    CountIsFilterLength(counted, Failure());
    FilterFilter(samples, CountedIn(t, lo, hi), Failure(), LostIn(t, lo, hi));
  }

  lemma {:induction false} RawTotalSplit(f: Figure, samples: seq<Sample>, t: int, lo: int, mid: int, hi: int)
    requires lo <= mid <= hi
    ensures RawTotal(f, samples, t, lo, hi) == RawTotal(f, samples, t, lo, mid) + RawTotal(f, samples, t, mid, hi)
  {
    if |samples| > 0 {
      RawTotalSplit(f, samples[..|samples| - 1], t, lo, mid, hi);
    }
  }

  lemma {:induction false} NothingInEmptyRange(f: Figure, samples: seq<Sample>, t: int, lo: int, hi: int)
    requires hi <= lo || (hi <= 0 && forall x :: x in samples ==> x.ts >= 0)
    ensures RawTotal(f, samples, t, lo, hi) == 0
  {
    if |samples| > 0 {
      assert samples[|samples| - 1] in samples;
      NothingInEmptyRange(f, samples[..|samples| - 1], t, lo, hi);
    }
  }

  lemma CellIsRaw(f: Figure, onTime: seq<Sample>, rollups: map<Cell, Row>, s: Series, cursor: int, horizon: int, k: int)
    requires RowsRight(onTime, rollups, s, cursor, horizon)
    requires 0 <= k < cursor && Aligned(k, s.res) && (s.res == Minute ==> k >= horizon)
    ensures OfCell(f, rollups, s, k) == RawTotal(f, onTime, s.target, k, k + Width(s.res))
  {
    RawTotalOfBatch(f, onTime, s.target, k, k + Width(s.res));
    if Cell(s, k) in rollups {
      assert rollups[Cell(s, k)] == BatchRow(onTime, s, k);
    }
  }

  lemma NextIsAligned(k: int, res: Res)
    requires Aligned(k, res)
    ensures Aligned(k + Width(res), res)
  {
    match res
    case Minute =>
    case Hour =>
  }

  /** The first bucket start at or after k. */
  function FirstStart(k: int, res: Res): int {
    Floor(k - 1, res) + Width(res)
  }

  lemma BeforeMinute(k: int)
    ensures (k - 1) % 60_000 == if k % 60_000 == 0 then 59_999 else k % 60_000 - 1
  {
    var q := k / 60_000;
    assert k == q * 60_000 + k % 60_000;
  }

  lemma BeforeHour(k: int)
    ensures (k - 1) % 3_600_000 == if k % 3_600_000 == 0 then 3_599_999 else k % 3_600_000 - 1
  {
    var q := k / 3_600_000;
    assert k == q * 3_600_000 + k % 3_600_000;
  }

  lemma Starts(k: int, res: Res)
    ensures FirstStart(k, res) == if Aligned(k, res) then k else Floor(k, res) + Width(res)
    ensures Aligned(k, res) ==> Floor(k, res) == k && Floor(k - 1, res) == k - Width(res)
    ensures !Aligned(k, res) ==> Floor(k - 1, res) == Floor(k, res)
    ensures Floor(k, res) <= k < Floor(k, res) + Width(res)
  {
    match res
    case Minute => BeforeMinute(k);
    case Hour => BeforeHour(k);
  }

  lemma MinuteMultiple(q: int)
    ensures q * 60_000 % 60_000 == 0
  {
  }

  lemma HourMultiple(q: int)
    ensures q * 3_600_000 % 3_600_000 == 0
  {
  }

  lemma FirstStartIsAligned(k: int, res: Res)
    ensures Aligned(FirstStart(k, res), res)
  {
    match res
    case Minute =>
      var q := (k - 1) / 60_000 + 1;
      MinuteMultiple(q);
      assert FirstStart(k, res) == q * 60_000;
    case Hour =>
      var q := (k - 1) / 3_600_000 + 1;
      HourMultiple(q);
      assert FirstStart(k, res) == q * 3_600_000;
  }

  /** The end of the bucket that contains to, or the cursor if that bucket has not been rolled up yet. */
  function RolledEnd(to: int, res: Res, cursor: int): int {
    Min(cursor, Floor(to, res) + Width(res))
  }

  lemma RolledEnds(to: int, res: Res, cursor: int)
    requires Aligned(cursor, res)
    ensures if Aligned(to, res) && to < cursor then RolledEnd(to - 1, res, cursor) == to && RolledEnd(to, res, cursor) == to + Width(res)
      else RolledEnd(to, res, cursor) == RolledEnd(to - 1, res, cursor)
  {
    Starts(to, res);
    if Aligned(to, res) && to < cursor {
      AlignedGap(to, cursor, res);
    }
  }

  /** One more row: the buckets that start at or before to end where those that start before it end, or one bucket later. */
  lemma OneMoreStart(f: Figure, onTime: seq<Sample>, rollups: map<Cell, Row>, s: Series, cursor: int, horizon: int,
                     from: int, to: int)
    requires RowsRight(onTime, rollups, s, cursor, horizon) && Aligned(cursor, s.res) && from <= to
    requires s.res == Minute ==> horizon <= from
    requires forall x :: x in onTime ==> x.ts >= 0
    ensures var first := FirstStart(from, s.res);
      RawTotal(f, onTime, s.target, first, RolledEnd(to, s.res, cursor)) ==
      RawTotal(f, onTime, s.target, first, RolledEnd(to - 1, s.res, cursor)) + OfCell(f, rollups, s, to)
  {
    RolledEnds(to, s.res, cursor);
    if Aligned(to, s.res) && to < cursor {
      FirstStartIsFirst(from, to, s.res);
      RawTotalSplit(f, onTime, s.target, FirstStart(from, s.res), to, to + Width(s.res));
      CellIsBucket(f, onTime, rollups, s, cursor, horizon, to);
    } else {
      assert Cell(s, to) !in rollups;
    }
  }

  lemma CellIsBucket(f: Figure, onTime: seq<Sample>, rollups: map<Cell, Row>, s: Series, cursor: int, horizon: int, k: int)
    requires RowsRight(onTime, rollups, s, cursor, horizon) && Aligned(k, s.res) && k < cursor && (s.res == Minute ==> k >= horizon)
    requires forall x :: x in onTime ==> x.ts >= 0
    ensures OfCell(f, rollups, s, k) == RawTotal(f, onTime, s.target, k, k + Width(s.res))
  {
    if k >= 0 {
      CellIsRaw(f, onTime, rollups, s, cursor, horizon, k);
    } else {
      NextIsAligned(k, s.res);
      BelowZero(k, s.res);
      NothingInEmptyRange(f, onTime, s.target, k, k + Width(s.res));
    }
  }

  lemma BelowZero(k: int, res: Res)
    requires Aligned(k, res) && k < 0
    ensures k + Width(res) <= 0
  {
    AlignedGap(k, 0, res);
  }

  lemma FirstStartIsFirst(from: int, to: int, res: Res)
    requires Aligned(to, res) && from <= to
    ensures FirstStart(from, res) <= to
  {
    Starts(from, res);
    FirstStartIsAligned(from, res);
    if to < FirstStart(from, res) {
      AlignedGap(to, FirstStart(from, res), res);
    }
  }

  lemma FloorIsAlignedAnywhere(k: int, res: Res)
    ensures Aligned(Floor(k, res), res)
  {
    FirstStartIsAligned(k + 1, res);
    match res
    case Minute => assert Floor(k, res) + 60_000 == FirstStart(k + 1, res);
    case Hour => assert Floor(k, res) + 3_600_000 == FirstStart(k + 1, res);
  }

  lemma EmptyRange(from: int, to: int, res: Res, cursor: int)
    requires to < from
    ensures RolledEnd(to, res, cursor) <= FirstStart(from, res)
  {
    Starts(from, res);
    Starts(to, res);
    FirstStartIsAligned(from, res);
    FloorIsAlignedAnywhere(to, res);
    AlignedGap(Floor(to, res), FirstStart(from, res), res);
  }

  lemma {:induction false} RowsAreBuckets(f: Figure, onTime: seq<Sample>, rollups: map<Cell, Row>, s: Series,
                                          cursor: int, horizon: int, from: int, to: int)
    requires RowsRight(onTime, rollups, s, cursor, horizon) && Aligned(cursor, s.res)
    requires s.res == Minute ==> horizon <= from
    requires forall x :: x in onTime ==> x.ts >= 0
    ensures RowsTotal(f, rollups, s, from, to) == RawTotal(f, onTime, s.target, FirstStart(from, s.res), RolledEnd(to, s.res, cursor))
    decreases 1 + to - from
  {
    if from <= to {
      RowsAreBuckets(f, onTime, rollups, s, cursor, horizon, from, to - 1);
      OneMoreStart(f, onTime, rollups, s, cursor, horizon, from, to);
    } else {
      EmptyRange(from, to, s.res, cursor);
      NothingInEmptyRange(f, onTime, s.target, FirstStart(from, s.res), RolledEnd(to, s.res, cursor));
    }
  }

  /** The part of a range whose rows have not been deleted: only the 1m table loses rows. */
  function KeptFrom(d: Data, res: Res, from: int): int {
    if res == Minute then Max(from, d.horizon) else from
  }

  /**
   For every store with right tables and every range: the rows whose bucket starts in [from, to] add up to the on-time
   samples from the first bucket start at or after from, to the end of the bucket that contains to, or to the cursor if
   that is earlier. So the bucket that contains from is left out unless it starts there, and the one that contains to
   is counted whole as soon as it has been rolled up.
   */
  lemma InclusiveRange(f: Figure, d: Data, s: Series, from: int, to: int)
    requires Right(d) && s.target in d.targets
    ensures var start := KeptFrom(d, s.res, from);
      RowsTotal(f, d.rollups, s, start, to) ==
      RawTotal(f, OnTime(d, s.res), s.target, FirstStart(start, s.res), RolledEnd(to, s.res, CursorOf(d.cursors, s)))
  {
    assert IsRight(d, s);
    RowsAreBuckets(f, OnTime(d, s.res), d.rollups, s, CursorOf(d.cursors, s), d.horizon, KeptFrom(d, s.res, from), to);
  }

  /** Over whole buckets below the cursor a rollup view is exactly the raw view over all on-time samples, pruned or not. */
  lemma RollupIsRaw(f: Figure, d: Data, s: Series, lo: int, hi: int)
    requires Right(d) && s.target in d.targets && KeptFrom(d, s.res, lo) == lo
    requires lo <= hi <= CursorOf(d.cursors, s) && Aligned(lo, s.res) && Aligned(hi, s.res)
    ensures RowsTotal(f, d.rollups, s, lo, hi - 1) == RawTotal(f, OnTime(d, s.res), s.target, lo, hi)
  {
    InclusiveRange(f, d, s, lo, hi - 1);
    Starts(lo, s.res);
    Starts(hi, s.res);
  }

  // ----- the views over whole runs -----

  /** What the late samples of a run add to a figure. */
  ghost function LateTotal(f: Figure, steps: seq<Step>, trace: seq<Data>, res: Res, t: int, lo: int, hi: int): nat
    requires |trace| == |steps| + 1
  {
    if |steps| == 0 then 0
    else
      var front, step, d := LateTotal(f, steps[..|steps| - 1], trace[..|steps|], res, t, lo, hi), steps[|steps| - 1], trace[|steps| - 1];
      if step.Written? && Accepts(d, step.x) && Late(d, step.x, res) then front + OfSample(f, step.x, t, lo, hi) else front
  }

  /** No sample of the range that counts was late. */
  ghost predicate NoneLate(steps: seq<Step>, trace: seq<Data>, res: Res, t: int, lo: int, hi: int)
    requires |trace| == |steps| + 1
  {
    |steps| > 0 ==>
      var step, d := steps[|steps| - 1], trace[|steps| - 1];
      && NoneLate(steps[..|steps| - 1], trace[..|steps|], res, t, lo, hi)
      && (step.Written? && Accepts(d, step.x) && Late(d, step.x, res) ==> !CountedIn(t, lo, hi)(step.x))
  }

  lemma {:induction false} NoneLateIsZero(f: Figure, steps: seq<Step>, trace: seq<Data>, res: Res, t: int, lo: int, hi: int)
    requires |trace| == |steps| + 1
    ensures LateTotal(Sent, steps, trace, res, t, lo, hi) == 0 <==> NoneLate(steps, trace, res, t, lo, hi)
    ensures NoneLate(steps, trace, res, t, lo, hi) ==> LateTotal(f, steps, trace, res, t, lo, hi) == 0
  {
    if |steps| > 0 {
      NoneLateIsZero(f, steps[..|steps| - 1], trace[..|steps|], res, t, lo, hi);
      if steps[|steps| - 1].Written? {
        AddsOne(Sent, steps[|steps| - 1].x, t, lo, hi);
      }
    }
  }

  lemma RawTotalStep(f: Figure, samples: seq<Sample>, x: Sample, t: int, lo: int, hi: int)
    ensures RawTotal(f, samples + [x], t, lo, hi) == RawTotal(f, samples, t, lo, hi) + OfSample(f, x, t, lo, hi)
  {
    assert (samples + [x])[..|samples|] == samples;
  }

  lemma OnTimeStep(f: Figure, d: Data, step: Step, d': Data, res: Res, t: int, lo: int, hi: int)
    requires StepTo(d, step, d')
    ensures RawTotal(f, OnTime(d', res), t, lo, hi) == RawTotal(f, OnTime(d, res), t, lo, hi) +
      if step.Written? && Accepts(d, step.x) && !Late(d, step.x, res) then OfSample(f, step.x, t, lo, hi) else 0
  {
    StepRemembers(d, step, d');
    if step.Written? {
      RawTotalStep(f, OnTime(d, res), step.x, t, lo, hi);
    }
  }

  lemma StoredStep(f: Figure, before: seq<Sample>, step: Step, accepted: bool, after: seq<Sample>, t: int, lo: int, hi: int)
    requires accepted ==> step.Written?
    requires after == if accepted then before + [step.x] else before
    ensures RawTotal(f, after, t, lo, hi) == RawTotal(f, before, t, lo, hi) + if accepted then OfSample(f, step.x, t, lo, hi) else 0
  {
    if accepted {
      RawTotalStep(f, before, step.x, t, lo, hi);
    }
  }

  /** Every stored sample is on time or late. */
  lemma {:induction false} StoredIsOnTimeOrLate(f: Figure, steps: seq<Step>, trace: seq<Data>, res: Res, t: int, lo: int, hi: int)
    requires IsRun(steps, trace)
    ensures RawTotal(f, Stored(steps), t, lo, hi) ==
      RawTotal(f, OnTime(trace[|steps|], res), t, lo, hi) + LateTotal(f, steps, trace, res, t, lo, hi)
  {
    if |steps| > 0 {
      StoredIsOnTimeOrLate(f, steps[..|steps| - 1], trace[..|steps|], res, t, lo, hi);
      RunCountsIds(steps[..|steps| - 1], trace[..|steps|]);
      OnTimeStep(f, trace[|steps| - 1], steps[|steps| - 1], trace[|steps|], res, t, lo, hi);
      var step := steps[|steps| - 1];
      StoredStep(f, Stored(steps[..|steps| - 1]), step, step.Written? && Accepts(trace[|steps| - 1], step.x), Stored(steps), t, lo, hi);
    }
  }

  /** At and above the raw cutoff the raw view is that of everything ever stored. */
  lemma RawViewIsStored(f: Figure, steps: seq<Step>, trace: seq<Data>, t: int, lo: int, hi: int)
    requires IsRun(steps, trace) && trace[|steps|].rawCutoff <= lo
    ensures RawTotal(f, trace[|steps|].samples, t, lo, hi) == RawTotal(f, Stored(steps), t, lo, hi)
  {
    var d := trace[|steps|];
    RunRetains(steps, trace);
    RawTotalOfBatch(f, d.samples, t, lo, hi);
    RawTotalOfBatch(f, Stored(steps), t, lo, hi);
    FilterFilter(d.samples, NotBefore(d.rawCutoff), CountedIn(t, lo, hi), CountedIn(t, lo, hi));
    FilterFilter(Stored(steps), NotBefore(d.rawCutoff), CountedIn(t, lo, hi), CountedIn(t, lo, hi));
  }

  /** After every run a rollup view and the late samples together give what was ever stored in the range. */
  lemma RollupAndLateAreStored(f: Figure, steps: seq<Step>, trace: seq<Data>, s: Series, lo: int, hi: int)
    requires IsRun(steps, trace) && RetainsAnHour(steps)
    requires var d := trace[|steps|];
      s.target in d.targets && KeptFrom(d, s.res, lo) == lo <= hi <= CursorOf(d.cursors, s) && Aligned(lo, s.res) && Aligned(hi, s.res)
    ensures RowsTotal(f, trace[|steps|].rollups, s, lo, hi - 1) + LateTotal(f, steps, trace, s.res, s.target, lo, hi) ==
      RawTotal(f, Stored(steps), s.target, lo, hi)
  {
    RunKeepsTablesRight(steps, trace);
    RollupIsRaw(f, trace[|steps|], s, lo, hi);
    StoredIsOnTimeOrLate(f, steps, trace, s.res, s.target, lo, hi);
  }

  /** A range of whole hours that both cursors have passed, and of which nothing has been deleted. */
  ghost predicate FullyRolled(d: Data, t: int, lo: int, hi: int) {
    && lo <= hi <= CursorOf(d.cursors, Series(Minute, t)) && hi <= CursorOf(d.cursors, Series(Hour, t))
    && Aligned(lo, Hour) && Aligned(hi, Hour) && d.horizon <= lo && d.rawCutoff <= lo
  }

  /**
   After every run, over whole hours that are rolled up and retained: each rollup view shows as many samples as the raw
   view if and only if no sample of the range that counts was late for it, and then it shows the same losses too.
   */
  lemma ViewsAgree(f: Figure, steps: seq<Step>, trace: seq<Data>, t: int, res: Res, lo: int, hi: int)
    requires IsRun(steps, trace) && RetainsAnHour(steps)
    requires t in trace[|steps|].targets && FullyRolled(trace[|steps|], t, lo, hi)
    ensures var d := trace[|steps|];
      && (RowsTotal(Sent, d.rollups, Series(res, t), lo, hi - 1) == RawTotal(Sent, d.samples, t, lo, hi) <==>
          NoneLate(steps, trace, res, t, lo, hi))
      && (NoneLate(steps, trace, res, t, lo, hi) ==>
          RowsTotal(f, d.rollups, Series(res, t), lo, hi - 1) == RawTotal(f, d.samples, t, lo, hi))
  {
    HourIsWholeMinutes(lo);
    HourIsWholeMinutes(hi);
    RollupAndLateAreStored(Sent, steps, trace, Series(res, t), lo, hi);
    RollupAndLateAreStored(f, steps, trace, Series(res, t), lo, hi);
    RawViewIsStored(Sent, steps, trace, t, lo, hi);
    RawViewIsStored(f, steps, trace, t, lo, hi);
    NoneLateIsZero(f, steps, trace, res, t, lo, hi);
  }

  /** If samples are prompt, all three views agree on every figure. */
  lemma PromptViewsAgree(f: Figure, steps: seq<Step>, trace: seq<Data>, t: int, lo: int, hi: int)
    requires IsRun(steps, trace) && RetainsAnHour(steps) && Prompt(steps)
    requires t in trace[|steps|].targets && FullyRolled(trace[|steps|], t, lo, hi)
    ensures var d := trace[|steps|];
      && RowsTotal(f, d.rollups, Series(Minute, t), lo, hi - 1) == RawTotal(f, d.samples, t, lo, hi)
      && RowsTotal(f, d.rollups, Series(Hour, t), lo, hi - 1) == RawTotal(f, d.samples, t, lo, hi)
  {
    forall res ensures NoneLate(steps, trace, res, t, lo, hi) {
      PromptIsNeverLate(steps, trace, res);
      NeverLateIsNoneLate(steps, trace, res, t, lo, hi);
    }
    ViewsAgree(f, steps, trace, t, Minute, lo, hi);
    ViewsAgree(f, steps, trace, t, Hour, lo, hi);
  }

  lemma {:induction false} NeverLateIsNoneLate(steps: seq<Step>, trace: seq<Data>, res: Res, t: int, lo: int, hi: int)
    requires |trace| == |steps| + 1 && NeverLate(steps, trace, res)
    ensures NoneLate(steps, trace, res, t, lo, hi)
  {
    if |steps| > 0 {
      NeverLateIsNoneLate(steps[..|steps| - 1], trace[..|steps|], res, t, lo, hi);
    }
  }

  // ----- extremes -----

  lemma {:induction false} RttsAreOfSuccesses(samples: seq<Sample>, r: int)
    ensures r in Rtts(samples) <==> exists s :: s in samples && s.success && s.rttUs == r
  {
    if |samples| > 0 {
      assert samples == samples[..|samples| - 1] + [samples[|samples| - 1]];
      RttsAreOfSuccesses(samples[..|samples| - 1], r);
    }
  }

  lemma RttsOfBatch(samples: seq<Sample>, t: int, lo: int, hi: int, r: int)
    ensures r in Rtts(Batch(samples, t, lo, hi)) <==> exists s :: s in samples && CountedIn(t, lo, hi)(s) && s.success && s.rttUs == r
  {
    RttsAreOfSuccesses(Batch(samples, t, lo, hi), r);
    BatchMembers(samples, t, lo, hi);
  }

  /** A round-trip time that occurs in an hour occurs in one of its minutes. */
  lemma RttInMinute(samples: seq<Sample>, t: int, k: int, r: int) returns (m: int)
    requires 0 <= k && Aligned(k, Hour) && r in Rtts(Batch(samples, t, k, k + 3_600_000))
    ensures k <= m < k + 3_600_000 && Aligned(m, Minute) && r in Rtts(Batch(samples, t, m, m + 60_000))
  {
    RttsOfBatch(samples, t, k, k + 3_600_000, r);
    var s :| s in samples && CountedIn(t, k, k + 3_600_000)(s) && s.success && s.rttUs == r;
    m := Floor(s.ts, Minute);
    FloorIsAligned(s.ts, Minute);
    HourIsWholeMinutes(k);
    if m < k {
      AlignedGap(m, k, Minute);
    }
    RttsOfBatch(samples, t, m, m + 60_000, r);
  }

  /** A round-trip time that occurs in a minute occurs in its hour. */
  lemma RttInHour(samples: seq<Sample>, t: int, k: int, m: int, r: int)
    requires 0 <= k <= m < k + 3_600_000 && Aligned(k, Hour) && Aligned(m, Minute)
    requires r in Rtts(Batch(samples, t, m, m + 60_000))
    ensures r in Rtts(Batch(samples, t, k, k + 3_600_000))
  {
    NextIsAligned(k, Hour);
    HourIsWholeMinutes(k + 3_600_000);
    AlignedGap(m, k + 3_600_000, Minute);
    RttsOfBatch(samples, t, m, m + 60_000, r);
    var s :| s in samples && CountedIn(t, m, m + 60_000)(s) && s.success && s.rttUs == r;
    assert CountedIn(t, k, k + 3_600_000)(s);
    RttsOfBatch(samples, t, k, k + 3_600_000, r);
  }

  /** The extremes of an hour are the extremes of its minutes that had successes. */
  lemma HourExtremes(samples: seq<Sample>, t: int, k: int)
    requires 0 <= k && Aligned(k, Hour) && |Rtts(Batch(samples, t, k, k + 3_600_000))| > 0
    ensures var hour := Stats(Batch(samples, t, k, k + 3_600_000));
      && (forall m :: k <= m < k + 3_600_000 && Aligned(m, Minute) && |Rtts(Batch(samples, t, m, m + 60_000))| > 0 ==>
           hour.rttMinUs <= Stats(Batch(samples, t, m, m + 60_000)).rttMinUs &&
           Stats(Batch(samples, t, m, m + 60_000)).rttMaxUs <= hour.rttMaxUs)
      && (exists m :: k <= m < k + 3_600_000 && Aligned(m, Minute) && |Rtts(Batch(samples, t, m, m + 60_000))| > 0
           && Stats(Batch(samples, t, m, m + 60_000)).rttMinUs == hour.rttMinUs)
      && (exists m :: k <= m < k + 3_600_000 && Aligned(m, Minute) && |Rtts(Batch(samples, t, m, m + 60_000))| > 0
           && Stats(Batch(samples, t, m, m + 60_000)).rttMaxUs == hour.rttMaxUs)
  {
    var hi := k + 3_600_000;
    var hour := Stats(Batch(samples, t, k, hi));
    NextIsAligned(k, Hour);
    Extremes(Batch(samples, t, k, hi));
    forall m | k <= m < hi && Aligned(m, Minute) && |Rtts(Batch(samples, t, m, m + 60_000))| > 0
      ensures hour.rttMinUs <= Stats(Batch(samples, t, m, m + 60_000)).rttMinUs
      ensures Stats(Batch(samples, t, m, m + 60_000)).rttMaxUs <= hour.rttMaxUs
    {
      MinuteInHour(samples, t, k, m);
    }
    var low := AttainedBy(samples, t, k, hour.rttMinUs);
    var high := AttainedBy(samples, t, k, hour.rttMaxUs);
    MinuteInHour(samples, t, k, low);
    MinuteInHour(samples, t, k, high);
    assert Stats(Batch(samples, t, low, low + 60_000)).rttMinUs == hour.rttMinUs;
    assert Stats(Batch(samples, t, high, high + 60_000)).rttMaxUs == hour.rttMaxUs;
  }

  lemma AttainedBy(samples: seq<Sample>, t: int, k: int, r: int) returns (m: int)
    requires 0 <= k && Aligned(k, Hour) && r in Rtts(Batch(samples, t, k, k + 3_600_000))
    ensures k <= m < k + 3_600_000 && Aligned(m, Minute) && r in Rtts(Batch(samples, t, m, m + 60_000))
    ensures var st := Stats(Batch(samples, t, m, m + 60_000)); st.rttMinUs <= r <= st.rttMaxUs
  {
    m := RttInMinute(samples, t, k, r);
    Extremes(Batch(samples, t, m, m + 60_000));
  }

  lemma MinuteInHour(samples: seq<Sample>, t: int, k: int, m: int)
    requires 0 <= k <= m < k + 3_600_000 && Aligned(k, Hour) && Aligned(m, Minute)
    requires |Rtts(Batch(samples, t, m, m + 60_000))| > 0 && |Rtts(Batch(samples, t, k, k + 3_600_000))| > 0
    ensures var hour, minute := Stats(Batch(samples, t, k, k + 3_600_000)), Stats(Batch(samples, t, m, m + 60_000));
      hour.rttMinUs <= minute.rttMinUs && minute.rttMaxUs <= hour.rttMaxUs
  {
    var minute := Stats(Batch(samples, t, m, m + 60_000));
    Extremes(Batch(samples, t, m, m + 60_000));
    Extremes(Batch(samples, t, k, k + 3_600_000));
    RttInHour(samples, t, k, m, minute.rttMinUs);
    RttInHour(samples, t, k, m, minute.rttMaxUs);
  }
}
