/**
 The rollup tables as values: what it means for the rows of a series to be what rolling up everything at once would
 give, and why storing a sample, rolling up a range and pruning keep them so.
 */
module RollupTables {
  import opened Common
  import opened Sorting
  import opened Rollup

  datatype Res = Minute | Hour

  function Width(res: Res): (w: int)
    ensures w > 0
  {
    match res
    case Minute => 60_000
    case Hour => 3_600_000
  }

  datatype Series = Series(res: Res, target: int)

  datatype Cell = Cell(series: Series, bucket: int)

  /** Figures about round-trip times are NULL when no ping of the bucket succeeded. */
  datatype Figures = Figures(avgUs: int, minUs: int, maxUs: int, p95Us: int, jitterUs: int)

  datatype Row = Row(sent: nat, lost: nat, figures: Option<Figures>)

  function RowOf(st: BucketStats): Row {
    Row(st.sent, st.lost,
        if st.sent > st.lost then Some(Figures(st.rttAvgUs, st.rttMinUs, st.rttMaxUs, st.rttP95Us, st.jitterUs)) else None)
  }

  // ----- what a table should hold -----

  /** Samples of a target in a time range. */
  function InRange(t: int, lo: int, hi: int): Sample -> bool {
    (s: Sample) => s.target == t && lo <= s.ts < hi
  }

  function From(t: int, lo: int): Sample -> bool {
    (s: Sample) => s.target == t && lo <= s.ts
  }

  function CountedIn(t: int, lo: int, hi: int): Sample -> bool {
    (s: Sample) => s.target == t && lo <= s.ts < hi && !s.duringSpeedtest
  }

  /** The samples of a range that count, in order of time. */
  function Batch(samples: seq<Sample>, t: int, lo: int, hi: int): seq<Sample> {
    Sort(Filter(samples, CountedIn(t, lo, hi)), ByTime())
  }

  function BatchRow(samples: seq<Sample>, s: Series, k: int): Row {
    RowOf(Stats(Batch(samples, s.target, k, k + Width(s.res))))
  }

  ghost predicate HasBatch(samples: seq<Sample>, s: Series, k: int) {
    |Batch(samples, s.target, k, k + Width(s.res))| > 0
  }

  ghost predicate Aligned(k: int, res: Res) {
    match res
    case Minute => k % 60_000 == 0
    case Hour => k % 3_600_000 == 0
  }

  /**
   The rows of a series below its cursor: each is what the batch gives, and, outside the pruned part of the 1m table,
   each bucket with a sample that counts has one.
   */
  ghost predicate RowsRight(onTime: seq<Sample>, rollups: map<Cell, Row>, s: Series, cursor: int, horizon: int) {
    && (forall k :: Cell(s, k) in rollups ==>
         0 <= k < cursor && Aligned(k, s.res) && HasBatch(onTime, s, k) && rollups[Cell(s, k)] == BatchRow(onTime, s, k))
    && (forall k :: 0 <= k < cursor && Aligned(k, s.res) && HasBatch(onTime, s, k) && (s.res == Minute ==> k >= horizon) ==>
         Cell(s, k) in rollups)
  }

  /** Nothing at or above the cursor has been pruned. */
  ghost predicate NothingLost(onTime: seq<Sample>, samples: seq<Sample>, t: int, cursor: int) {
    Filter(samples, From(t, cursor)) == Filter(onTime, From(t, cursor))
  }

  ghost predicate SeriesRight(onTime: seq<Sample>, samples: seq<Sample>, rollups: map<Cell, Row>, s: Series,
                              cursor: int, horizon: int) {
    && 0 <= cursor && Aligned(cursor, s.res)
    && NothingLost(onTime, samples, s.target, cursor)
    && RowsRight(onTime, rollups, s, cursor, horizon)
  }

  // ----- buckets are aligned ranges -----

  lemma AlignedGap(k: int, cursor: int, res: Res)
    requires Aligned(k, res) && Aligned(cursor, res) && k < cursor
    ensures k + Width(res) <= cursor
  {
    match res
    case Minute =>
    case Hour =>
  }

  function Floor(ts: int, res: Res): int {
    match res
    case Minute => ts - ts % 60_000
    case Hour => ts - ts % 3_600_000
  }

  lemma FloorIsAligned(ts: int, res: Res)
    requires ts >= 0
    ensures 0 <= Floor(ts, res) <= ts < Floor(ts, res) + Width(res) && Aligned(Floor(ts, res), res)
  {
    match res
    case Minute =>
    case Hour =>
  }

  lemma MinuteRange(ts: int, k: int)
    requires ts >= 0
    ensures ts / 60_000 * 60_000 == k <==> k % 60_000 == 0 && k <= ts < k + 60_000
  {
  }

  lemma HourRange(ts: int, k: int)
    requires ts >= 0
    ensures ts / 3_600_000 * 3_600_000 == k <==> k % 3_600_000 == 0 && k <= ts < k + 3_600_000
  {
  }

  lemma BucketIsRange(s: Sample, res: Res, k: int)
    requires s.ts >= 0
    ensures BucketStart(Width(res))(s) == k <==> Aligned(k, res) && k <= s.ts < k + Width(res)
  {
    match res
    case Minute => MinuteRange(s.ts, k);
    case Hour => HourRange(s.ts, k);
  }

  /** Querying, dropping the speed-test samples, and grouping by bucket gives the batch of each bucket. */
  lemma BucketOfBatch(samples: seq<Sample>, t: int, lo: int, hi: int, res: Res, k: int)
    requires 0 <= lo && Aligned(k, res) && lo <= k && k + Width(res) <= hi
    ensures Filter(Batch(samples, t, lo, hi), InBucket(BucketStart(Width(res)), k)) == Batch(samples, t, k, k + Width(res))
  {
    var bucket := InBucket(BucketStart(Width(res)), k);
    FilterSort(Filter(samples, CountedIn(t, lo, hi)), ByTime(), bucket);
    forall s ensures CountedIn(t, k, k + Width(res))(s) <==> CountedIn(t, lo, hi)(s) && bucket(s) {
      if s.ts >= 0 {
        BucketIsRange(s, res, k);
      }
    }
    FilterFilter(samples, CountedIn(t, lo, hi), bucket, CountedIn(t, k, k + Width(res)));
  }

  lemma QueryIsBatch(samples: seq<Sample>, t: int, lo: int, hi: int)
    ensures Filter(Sort(Filter(samples, InRange(t, lo, hi)), ByTime()), NotDuringSpeedtest()) == Batch(samples, t, lo, hi)
  {
    FilterSort(Filter(samples, InRange(t, lo, hi)), ByTime(), NotDuringSpeedtest());
    FilterFilter(samples, InRange(t, lo, hi), NotDuringSpeedtest(), CountedIn(t, lo, hi));
  }

  lemma BatchMembers(samples: seq<Sample>, t: int, lo: int, hi: int)
    ensures forall s :: s in Batch(samples, t, lo, hi) <==> s in samples && CountedIn(t, lo, hi)(s)
  {
    SortKeepsMembers(Filter(samples, CountedIn(t, lo, hi)), ByTime());
    FilterMembers(samples, CountedIn(t, lo, hi));
  }

  /** As long as nothing at or above the cursor was pruned, the remaining samples give the same batches there. */
  lemma SameBatch(onTime: seq<Sample>, samples: seq<Sample>, t: int, cursor: int, lo: int, hi: int)
    requires NothingLost(onTime, samples, t, cursor) && cursor <= lo
    ensures Batch(samples, t, lo, hi) == Batch(onTime, t, lo, hi)
  {
    FilterFilter(samples, From(t, cursor), CountedIn(t, lo, hi), CountedIn(t, lo, hi));
    FilterFilter(onTime, From(t, cursor), CountedIn(t, lo, hi), CountedIn(t, lo, hi));
  }

  lemma LaterCursor(onTime: seq<Sample>, samples: seq<Sample>, t: int, cursor: int, later: int)
    requires NothingLost(onTime, samples, t, cursor) && cursor <= later
    ensures NothingLost(onTime, samples, t, later)
  {
    FilterFilter(samples, From(t, cursor), From(t, later), From(t, later));
    FilterFilter(onTime, From(t, cursor), From(t, later), From(t, later));
  }

  // ----- a new sample -----

  lemma BatchStep(samples: seq<Sample>, s: Sample, t: int, lo: int, hi: int)
    ensures !CountedIn(t, lo, hi)(s) ==> Batch(samples + [s], t, lo, hi) == Batch(samples, t, lo, hi)
  {
    FilterStep(samples, s, CountedIn(t, lo, hi));
  }

  lemma InsertKeepsRows(onTime: seq<Sample>, rollups: map<Cell, Row>, s: Series, cursor: int, horizon: int,
                        x: Sample, longer: seq<Sample>)
    requires RowsRight(onTime, rollups, s, cursor, horizon) && Aligned(cursor, s.res) && longer == onTime + [x]
    requires x.target == s.target ==> x.ts >= cursor
    ensures RowsRight(longer, rollups, s, cursor, horizon)
  {
    forall k | 0 <= k < cursor && Aligned(k, s.res)
      ensures Batch(longer, s.target, k, k + Width(s.res)) == Batch(onTime, s.target, k, k + Width(s.res))
    {
      AlignedGap(k, cursor, s.res);
      BatchStep(onTime, x, s.target, k, k + Width(s.res));
    }
  }

  /** A sample that arrives at or above the cursor joins the batches, and leaves those below the cursor alone. */
  lemma InsertOnTime(onTime: seq<Sample>, samples: seq<Sample>, rollups: map<Cell, Row>, s: Series, cursor: int,
                     horizon: int, x: Sample)
    requires SeriesRight(onTime, samples, rollups, s, cursor, horizon)
    requires x.target == s.target ==> x.ts >= cursor
    ensures SeriesRight(onTime + [x], samples + [x], rollups, s, cursor, horizon)
  {
    FilterStep(samples, x, From(s.target, cursor));
    FilterStep(onTime, x, From(s.target, cursor));
    InsertKeepsRows(onTime, rollups, s, cursor, horizon, x, onTime + [x]);
  }

  /** A sample that arrives below the cursor is stored but never counts. */
  lemma InsertLate(onTime: seq<Sample>, samples: seq<Sample>, rollups: map<Cell, Row>, s: Series, cursor: int,
                   horizon: int, x: Sample)
    requires SeriesRight(onTime, samples, rollups, s, cursor, horizon)
    requires x.target == s.target ==> x.ts < cursor
    ensures SeriesRight(onTime, samples + [x], rollups, s, cursor, horizon)
  {
    FilterStep(samples, x, From(s.target, cursor));
  }

  // ----- a rollup -----

  /** The buckets that rolling up [lo, hi) writes, and what it finds in each. */
  lemma KeysAreBuckets(samples: seq<Sample>, s: Series, lo: int, hi: int)
    requires 0 <= lo < hi && Aligned(lo, s.res) && Aligned(hi, s.res)
    ensures var list, bucket := Batch(samples, s.target, lo, hi), BucketStart(Width(s.res));
      && (forall k :: k in Keys(list, bucket) <==> lo <= k < hi && Aligned(k, s.res) && HasBatch(samples, s, k))
      && (forall k :: k in Keys(list, bucket) ==> Filter(list, InBucket(bucket, k)) == Batch(samples, s.target, k, k + Width(s.res)))
  {
    var list, bucket := Batch(samples, s.target, lo, hi), BucketStart(Width(s.res));
    forall k
      ensures k in Keys(list, bucket) <==> lo <= k < hi && Aligned(k, s.res) && HasBatch(samples, s, k)
      ensures k in Keys(list, bucket) ==> Filter(list, InBucket(bucket, k)) == Batch(samples, s.target, k, k + Width(s.res))
    {
      KeyIsBucket(samples, s, lo, hi, k);
    }
  }

  lemma KeyIsBucket(samples: seq<Sample>, s: Series, lo: int, hi: int, k: int)
    requires 0 <= lo < hi && Aligned(lo, s.res) && Aligned(hi, s.res)
    ensures var list, bucket := Batch(samples, s.target, lo, hi), BucketStart(Width(s.res));
      && (k in Keys(list, bucket) <==> lo <= k < hi && Aligned(k, s.res) && HasBatch(samples, s, k))
      && (k in Keys(list, bucket) ==> Filter(list, InBucket(bucket, k)) == Batch(samples, s.target, k, k + Width(s.res)))
  {
    var list, bucket := Batch(samples, s.target, lo, hi), BucketStart(Width(s.res));
    KeysAreNonempty(list, bucket, k);
    if k in Keys(list, bucket) {
      KeyInRange(samples, s, lo, hi, k);
    }
    if lo <= k < hi && Aligned(k, s.res) {
      AlignedGap(k, hi, s.res);
      BucketOfBatch(samples, s.target, lo, hi, s.res, k);
    }
  }

  lemma KeyInRange(samples: seq<Sample>, s: Series, lo: int, hi: int, k: int)
    requires 0 <= lo < hi && Aligned(lo, s.res)
    requires |Filter(Batch(samples, s.target, lo, hi), InBucket(BucketStart(Width(s.res)), k))| > 0
    ensures lo <= k < hi && Aligned(k, s.res)
  {
    var list, inBucket := Batch(samples, s.target, lo, hi), InBucket(BucketStart(Width(s.res)), k);
    FilterMembers(list, inBucket);
    var x := Filter(list, inBucket)[0];
    assert x in Filter(list, inBucket);
    BatchMembers(samples, s.target, lo, hi);
    BucketIsRange(x, s.res, k);
    if k < lo {
      AlignedGap(k, lo, s.res);
    }
  }

  /** The table after rolling up the buckets of [lo, hi) of a series. */
  ghost predicate RolledUp(samples: seq<Sample>, rollups: map<Cell, Row>, s: Series, lo: int, hi: int, next: map<Cell, Row>) {
    && (forall c: Cell :: c.series != s ==> (c in next <==> c in rollups) && (c in next ==> next[c] == rollups[c]))
    && (forall k :: if lo <= k < hi && Aligned(k, s.res) && HasBatch(samples, s, k)
         then Cell(s, k) in next && next[Cell(s, k)] == BatchRow(samples, s, k)
         else (Cell(s, k) in next <==> Cell(s, k) in rollups) && (Cell(s, k) in next ==> next[Cell(s, k)] == rollups[Cell(s, k)]))
  }

  /** Inserting or replacing the row of each key in turn. */
  function Upserts(rollups: map<Cell, Row>, s: Series, list: seq<Sample>, keys: seq<int>): map<Cell, Row> {
    if |keys| == 0 then rollups
    else
      var k := keys[|keys| - 1];
      Upserts(rollups, s, list, keys[..|keys| - 1])[Cell(s, k) := RowOf(Stats(Filter(list, InBucket(BucketStart(Width(s.res)), k))))]
  }

  lemma UpsertsStep(rollups: map<Cell, Row>, s: Series, list: seq<Sample>, keys: seq<int>, n: nat)
    requires n < |keys|
    ensures Upserts(rollups, s, list, keys[..n + 1]) ==
      Upserts(rollups, s, list, keys[..n])[Cell(s, keys[n]) := RowOf(Stats(Filter(list, InBucket(BucketStart(Width(s.res)), keys[n]))))]
  {
    assert keys[..n + 1][..n] == keys[..n];
  }

  lemma {:induction false} UpsertsAt(rollups: map<Cell, Row>, s: Series, list: seq<Sample>, keys: seq<int>, c: Cell)
    ensures var next := Upserts(rollups, s, list, keys);
      if c.series == s && c.bucket in keys
      then c in next && next[c] == RowOf(Stats(Filter(list, InBucket(BucketStart(Width(s.res)), c.bucket))))
      else (c in next <==> c in rollups) && (c in next ==> next[c] == rollups[c])
  {
    if |keys| > 0 {
      assert keys == keys[..|keys| - 1] + [keys[|keys| - 1]];
      UpsertsAt(rollups, s, list, keys[..|keys| - 1], c);
    }
  }

  lemma UpsertsRollUp(samples: seq<Sample>, rollups: map<Cell, Row>, s: Series, lo: int, hi: int)
    requires 0 <= lo < hi && Aligned(lo, s.res) && Aligned(hi, s.res)
    ensures var list := Batch(samples, s.target, lo, hi);
      RolledUp(samples, rollups, s, lo, hi, Upserts(rollups, s, list, Keys(list, BucketStart(Width(s.res)))))
  {
    var list := Batch(samples, s.target, lo, hi);
    var keys := Keys(list, BucketStart(Width(s.res)));
    KeysAreBuckets(samples, s, lo, hi);
    forall c: Cell
      ensures var next := Upserts(rollups, s, list, keys);
        if c.series == s && c.bucket in keys then c in next && next[c] == BatchRow(samples, s, c.bucket)
        else (c in next <==> c in rollups) && (c in next ==> next[c] == rollups[c])
    {
      UpsertsAt(rollups, s, list, keys, c);
    }
    forall k ensures Cell(s, k).bucket == k && Cell(s, k).series == s {
    }
  }

  lemma RolledBatches(onTime: seq<Sample>, samples: seq<Sample>, s: Series, cursor: int, lo: int, k: int)
    requires NothingLost(onTime, samples, s.target, cursor) && cursor <= k && Aligned(k, s.res) && Aligned(lo, s.res)
    requires forall x :: x in onTime && x.target == s.target && x.ts >= cursor ==> x.ts >= lo
    ensures HasBatch(onTime, s, k) <==> lo <= k && HasBatch(samples, s, k)
    ensures BatchRow(onTime, s, k) == BatchRow(samples, s, k)
  {
    SameBatch(onTime, samples, s.target, cursor, k, k + Width(s.res));
    if k < lo {
      AlignedGap(k, lo, s.res);
      FilterNone(onTime, CountedIn(s.target, k, k + Width(s.res)));
    }
  }

  lemma RollRight(onTime: seq<Sample>, samples: seq<Sample>, rollups: map<Cell, Row>, s: Series, cursor: int, horizon: int,
                  lo: int, hi: int, next: map<Cell, Row>)
    requires SeriesRight(onTime, samples, rollups, s, cursor, horizon)
    requires cursor <= lo < hi && Aligned(lo, s.res) && Aligned(hi, s.res)
    requires forall x :: x in onTime && x.target == s.target && x.ts >= cursor ==> x.ts >= lo
    requires RolledUp(samples, rollups, s, lo, hi, next)
    ensures SeriesRight(onTime, samples, next, s, hi, horizon)
  {
    LaterCursor(onTime, samples, s.target, cursor, hi);
    forall k | cursor <= k && Aligned(k, s.res)
      ensures HasBatch(onTime, s, k) <==> lo <= k && HasBatch(samples, s, k)
      ensures BatchRow(onTime, s, k) == BatchRow(samples, s, k)
    {
      RolledBatches(onTime, samples, s, cursor, lo, k);
    }
  }

  lemma OnTimeIsStored(onTime: seq<Sample>, samples: seq<Sample>, t: int, cursor: int)
    requires NothingLost(onTime, samples, t, cursor)
    ensures forall x: Sample :: x.target == t && x.ts >= cursor ==> (x in onTime <==> x in samples)
  {
    FilterMembers(onTime, From(t, cursor));
    FilterMembers(samples, From(t, cursor));
    forall x: Sample | x.target == t && x.ts >= cursor ensures x in onTime <==> x in samples {
      assert From(t, cursor)(x);
      assert x in Filter(onTime, From(t, cursor)) <==> x in Filter(samples, From(t, cursor));
    }
  }

  lemma OtherSeriesRight(onTime: seq<Sample>, samples: seq<Sample>, rollups: map<Cell, Row>, u: Series, cursor: int, horizon: int,
                         s: Series, lo: int, hi: int, next: map<Cell, Row>)
    requires SeriesRight(onTime, samples, rollups, u, cursor, horizon) && u != s
    requires RolledUp(samples, rollups, s, lo, hi, next)
    ensures SeriesRight(onTime, samples, next, u, cursor, horizon)
  {
    forall k ensures Cell(u, k) in next <==> Cell(u, k) in rollups
             ensures Cell(u, k) in next ==> next[Cell(u, k)] == rollups[Cell(u, k)]
    {
      assert Cell(u, k).series != s;
    }
  }

  lemma KnownCells(samples: seq<Sample>, rollups: map<Cell, Row>, s: Series, lo: int, hi: int, next: map<Cell, Row>,
                   nextTarget: int)
    requires RolledUp(samples, rollups, s, lo, hi, next) && s.target < nextTarget
    requires forall c :: c in rollups ==> c.series.target < nextTarget
    ensures forall c :: c in next ==> c.series.target < nextTarget
  {
  }

  /** Removing old samples is harmless to a series whose cursor, or whose oldest sample, is past the cutoff. */
  lemma PruneRight(onTime: seq<Sample>, samples: seq<Sample>, rollups: map<Cell, Row>, s: Series, cursor: int,
                   horizon: int, cutoff: int)
    requires SeriesRight(onTime, samples, rollups, s, cursor, horizon)
    requires cutoff <= cursor || forall x :: x in samples && x.target == s.target ==> x.ts >= cutoff
    ensures SeriesRight(onTime, Filter(samples, NotBefore(cutoff)), rollups, s, cursor, horizon)
  {
    FilterFilter(samples, NotBefore(cutoff), From(s.target, cursor), From(s.target, cursor));
  }

  function NotBefore(cutoff: int): Sample -> bool {
    (s: Sample) => s.ts >= cutoff
  }

  function KeptRows(rollups: map<Cell, Row>, cutoff: int): map<Cell, Row> {
    map c | c in rollups && (c.series.res == Hour || c.bucket >= cutoff) :: rollups[c]
  }

  lemma PruneRowsRight(onTime: seq<Sample>, samples: seq<Sample>, rollups: map<Cell, Row>, s: Series, cursor: int,
                       horizon: int, cutoff: int)
    requires SeriesRight(onTime, samples, rollups, s, cursor, horizon)
    ensures SeriesRight(onTime, samples, KeptRows(rollups, cutoff), s, cursor, Max(horizon, cutoff))
  {
  }

  // ----- single series -----

  /** The oldest time stamp of a target. */
  function MinTS(samples: seq<Sample>, t: int): (r: Option<int>)
    ensures forall x :: x in samples && x.target == t ==> r.Some? && r.value <= x.ts
    ensures r.Some? ==> exists x :: x in samples && x.target == t && x.ts == r.value
  {
    if |samples| == 0 then None
    else
      assert samples == samples[..|samples| - 1] + [samples[|samples| - 1]];
      var last, rest := samples[|samples| - 1], MinTS(samples[..|samples| - 1], t);
      if last.target != t then rest
      else if rest.Some? && rest.value <= last.ts then rest
      else Some(last.ts)
  }

  function CursorOf(cursors: map<Series, int>, s: Series): int {
    if s in cursors then cursors[s] else 0
  }

  /** The samples that count for a resolution once x has arrived: x joins them unless it is below its cursor. */
  function Arrived(onTime: seq<Sample>, cursors: map<Series, int>, res: Res, x: Sample): seq<Sample> {
    if x.ts >= CursorOf(cursors, Series(res, x.target)) then onTime + [x] else onTime
  }

  lemma InsertSeriesRight(onTime: seq<Sample>, samples: seq<Sample>, rollups: map<Cell, Row>,
                          cursors: map<Series, int>, horizon: int, s: Series, x: Sample)
    requires SeriesRight(onTime, samples, rollups, s, CursorOf(cursors, s), horizon)
    ensures SeriesRight(Arrived(onTime, cursors, s.res, x), samples + [x], rollups, s, CursorOf(cursors, s), horizon)
  {
    assert s.target == x.target ==> s == Series(s.res, x.target);
    if x.ts >= CursorOf(cursors, Series(s.res, x.target)) {
      InsertOnTime(onTime, samples, rollups, s, CursorOf(cursors, s), horizon, x);
    } else {
      InsertLate(onTime, samples, rollups, s, CursorOf(cursors, s), horizon, x);
    }
  }

  /** A target without samples, rows or cursor is right at both resolutions. */
  lemma NewTargetRight(onTime: seq<Sample>, samples: seq<Sample>, rollups: map<Cell, Row>, s: Series, horizon: int)
    requires forall x :: x in onTime || x in samples ==> x.target != s.target
    requires forall c :: c in rollups ==> c.series != s
    ensures SeriesRight(onTime, samples, rollups, s, 0, horizon)
  {
    FilterNone(samples, From(s.target, 0));
    FilterNone(onTime, From(s.target, 0));
    forall k ensures !HasBatch(onTime, s, k) && Cell(s, k) !in rollups {
      FilterNone(onTime, CountedIn(s.target, k, k + Width(s.res)));
      assert Cell(s, k).series == s;
    }
  }

  /** A pass has covered the series: its cursor has reached hi, or every sample of its target is at or past hi. */
  ghost predicate Covered(samples: seq<Sample>, cursors: map<Series, int>, s: Series, hi: int) {
    hi <= CursorOf(cursors, s) || forall x :: x in samples && x.target == s.target ==> x.ts >= hi
  }

  lemma CoveredBelow(samples: seq<Sample>, cursors: map<Series, int>, s: Series, hi: int, lo: int)
    requires Covered(samples, cursors, s, hi) && lo <= hi
    ensures Covered(samples, cursors, s, lo)
  {
  }

  /** Samples belong to targets whose ids are taken, and their times are not negative. */
  ghost predicate Known(samples: seq<Sample>, nextTarget: int) {
    forall x :: x in samples ==> x.ts >= 0 && x.target < nextTarget
  }
}
