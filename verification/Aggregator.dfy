/**
 Incremental rollups with retention. A cursor per target and resolution marks how far the samples have been rolled
 up; passes run at any time, any store operation may fail, and old samples and rows are pruned. The tables must still
 be what rolling up everything at once would give.
 */
module Aggregator {
  import opened Common
  import opened Sorting
  import opened Rollup
  import opened RollupTables

  /**
   The store, and what the theorems remember of its past: per resolution the samples that arrived at or above their
   cursor, the largest cutoff ever applied to the raw samples, and the largest one applied to the 1m table.
   */
  datatype Data = Data(targets: set<int>, nextTarget: int, samples: seq<Sample>, rollups: map<Cell, Row>, cursors: map<Series, int>,
                       onTime1m: seq<Sample>, onTime1h: seq<Sample>, rawCutoff: int, horizon: int)

  const EMPTY := Data({}, 1, [], map[], map[], [], [], 0, 0)

  function OnTime(d: Data, res: Res): seq<Sample> {
    match res
    case Minute => d.onTime1m
    case Hour => d.onTime1h
  }

  // ----- what the operations do -----

  function Inserted(d: Data, x: Sample): Data {
    d.(samples := d.samples + [x], onTime1m := Arrived(d.onTime1m, d.cursors, Minute, x), onTime1h := Arrived(d.onTime1h, d.cursors, Hour, x))
  }

  /** Where rolling up a series goes on. A cursor of zero means never: the first time starts at the bucket of the oldest sample. */
  function Start(d: Data, s: Series): Option<int> {
    if CursorOf(d.cursors, s) != 0 then Some(CursorOf(d.cursors, s))
    else match MinTS(d.samples, s.target)
      case None => None
      case Some(ts) => Some(Floor(ts, s.res))
  }

  function RolledRange(d: Data, s: Series, lo: int, hi: int): Data {
    var list := Batch(d.samples, s.target, lo, hi);
    d.(rollups := Upserts(d.rollups, s, list, Keys(list, BucketStart(Width(s.res)))), cursors := d.cursors[s := hi])
  }

  /** One target at one resolution, up to the bucket that contains now. */
  function Rolled(d: Data, s: Series, now: int): Data {
    match Start(d, s)
    case None => d
    case Some(lo) => if lo >= Floor(now, s.res) then d else RolledRange(d, s, lo, Floor(now, s.res))
  }

  /** Which operations of a pass work: the rollups of the n-th target, and the two deletions. */
  datatype Works = Works(minute: nat -> bool, hour: nat -> bool, raw: bool, rows: bool)

  datatype Progress = Progress(data: Data, ok: bool)

  /** One target: first the minutes, then the hours. */
  function RolledBoth(d: Data, t: int, now: int, minute: bool, hour: bool): Progress {
    if !minute then Progress(d, false)
    else if !hour then Progress(Rolled(d, Series(Minute, t), now), false)
    else Progress(Rolled(Rolled(d, Series(Minute, t), now), Series(Hour, t), now), true)
  }

  /** The first n targets of a pass. The first operation that fails ends it. */
  function RolledFirst(d: Data, listed: seq<int>, now: int, works: Works, n: nat): Progress
    requires n <= |listed|
  {
    if n == 0 then Progress(d, true)
    else
      var p := RolledFirst(d, listed, now, works, n - 1);
      if p.ok then RolledBoth(p.data, listed[n - 1], now, works.minute(n - 1), works.hour(n - 1)) else p
  }

  function PrunedRaw(d: Data, cutoff: int): Data {
    d.(samples := Filter(d.samples, NotBefore(cutoff)), rawCutoff := Max(d.rawCutoff, cutoff))
  }

  function PrunedRows(d: Data, cutoff: int): Data {
    d.(rollups := KeptRows(d.rollups, cutoff), horizon := Max(d.horizon, cutoff))
  }

  /** The two deletions. If the first fails the second is not tried. */
  function Deleted(d: Data, rawCutoff: int, rowCutoff: int, works: Works): Data {
    if !works.raw then d
    else if !works.rows then PrunedRaw(d, rawCutoff)
    else PrunedRows(PrunedRaw(d, rawCutoff), rowCutoff)
  }

  /** One pass: the rollups, then the deletions. */
  function Pass(d: Data, listed: seq<int>, now: int, rawHours: int, rollup1mDays: int, works: Works): Data {
    var rolled := RolledFirst(d, listed, now, works, |listed|);
    if rolled.ok then Deleted(rolled.data, now - rawHours * 3_600_000, now - rollup1mDays * 86_400_000, works) else rolled.data
  }

  // ----- what holds of the store -----

  ghost predicate Sane(d: Data) {
    && Known(d.onTime1m, d.nextTarget) && Known(d.onTime1h, d.nextTarget) && Known(d.samples, d.nextTarget)
    && (forall c :: c in d.rollups ==> c.series.target < d.nextTarget)
    && (forall s :: s in d.cursors ==> s.target < d.nextTarget)
    && (forall t :: t in d.targets ==> t < d.nextTarget)
  }

  /** The rows of the series are what a batch over its on-time samples would give. */
  ghost predicate IsRight(d: Data, s: Series) {
    SeriesRight(OnTime(d, s.res), d.samples, d.rollups, s, CursorOf(d.cursors, s), d.horizon)
  }

  /** So it is for both series of every target that is listed. */
  ghost predicate Right(d: Data) {
    Sane(d) && forall s: Series {:trigger IsRight(d, s)} :: s.target in d.targets ==> IsRight(d, s)
  }

  /** Cursors never go back, and never past the bucket that contains now. */
  ghost predicate Advanced(before: map<Series, int>, after: map<Series, int>, now: int) {
    forall s :: CursorOf(before, s) <= CursorOf(after, s) <= Max(CursorOf(before, s), Floor(now, s.res))
  }

  /** Only the tables and their cursors differ. */
  ghost predicate SameButTables(d: Data, d': Data) {
    d' == d.(rollups := d'.rollups, cursors := d'.cursors)
  }

  lemma RolledRangeRight(d: Data, s: Series, lo: int, hi: int)
    requires Right(d) && s.target in d.targets
    requires CursorOf(d.cursors, s) <= lo < hi && Aligned(lo, s.res) && Aligned(hi, s.res)
    requires forall x :: x in OnTime(d, s.res) && x.target == s.target && x.ts >= CursorOf(d.cursors, s) ==> x.ts >= lo
    ensures Right(RolledRange(d, s, lo, hi))
  {
    var d' := RolledRange(d, s, lo, hi);
    assert IsRight(d, s);
    UpsertsRollUp(d.samples, d.rollups, s, lo, hi);
    RollRight(OnTime(d, s.res), d.samples, d.rollups, s, CursorOf(d.cursors, s), d.horizon, lo, hi, d'.rollups);
    KnownCells(d.samples, d.rollups, s, lo, hi, d'.rollups, d.nextTarget);
    forall u: Series | u.target in d.targets && u != s ensures IsRight(d', u) {
      assert IsRight(d, u);
      OtherSeriesRight(OnTime(d, u.res), d.samples, d.rollups, u, CursorOf(d.cursors, u), d.horizon, s, lo, hi, d'.rollups);
    }
  }

  /** The range begins at the cursor, or with the oldest sample, and no on-time sample lies between. */
  lemma StartIsRight(d: Data, s: Series)
    requires Right(d) && s.target in d.targets && Start(d, s).Some?
    ensures var lo := Start(d, s).value;
      && CursorOf(d.cursors, s) <= lo && Aligned(lo, s.res)
      && (forall x :: x in OnTime(d, s.res) && x.target == s.target && x.ts >= CursorOf(d.cursors, s) ==> x.ts >= lo)
      && (CursorOf(d.cursors, s) != lo ==> forall x :: x in d.samples && x.target == s.target ==> x.ts >= lo)
  {
    assert IsRight(d, s);
    OnTimeIsStored(OnTime(d, s.res), d.samples, s.target, CursorOf(d.cursors, s));
    if CursorOf(d.cursors, s) == 0 {
      var ts := MinTS(d.samples, s.target).value;
      FloorIsAligned(ts, s.res);
    }
  }

  /** Rolling up a listed target keeps every series right, and leaves nothing below the current bucket to be rolled up. */
  lemma RolledRight(d: Data, s: Series, now: int)
    requires Right(d) && s.target in d.targets && now >= 0
    ensures Right(Rolled(d, s, now)) && SameButTables(d, Rolled(d, s, now))
    ensures Covered(d.samples, Rolled(d, s, now).cursors, s, Floor(now, s.res))
    ensures Advanced(d.cursors, Rolled(d, s, now).cursors, now)
  {
    FloorIsAligned(now, s.res);
    if Start(d, s).Some? {
      StartIsRight(d, s);
      var lo, hi := Start(d, s).value, Floor(now, s.res);
      if lo < hi {
        RolledRangeRight(d, s, lo, hi);
      }
    }
  }

  /** The targets, each once, in any order. */
  ghost predicate IsListing<T(!new)>(listed: seq<T>, targets: set<T>) {
    && (forall t :: t in listed <==> t in targets)
    && (forall i, j :: 0 <= i < j < |listed| ==> listed[i] != listed[j])
  }

  /** Both series of the target have been rolled up to the bucket that contains now. */
  ghost predicate TargetCovered(d: Data, t: int, now: int) {
    && Covered(d.samples, d.cursors, Series(Minute, t), Floor(now, Minute))
    && Covered(d.samples, d.cursors, Series(Hour, t), Floor(now, Hour))
  }

  lemma RolledBothRight(d: Data, t: int, now: int, minute: bool, hour: bool)
    requires Right(d) && t in d.targets && now >= 0
    ensures var p := RolledBoth(d, t, now, minute, hour);
      && Right(p.data) && SameButTables(d, p.data) && Advanced(d.cursors, p.data.cursors, now)
      && (p.ok ==> TargetCovered(p.data, t, now))
  {
    RolledRight(d, Series(Minute, t), now);
    var m := Rolled(d, Series(Minute, t), now);
    RolledRight(m, Series(Hour, t), now);
    var h := Rolled(m, Series(Hour, t), now);
    AdvancedTwice(d.cursors, m.cursors, h.cursors, now);
    CoveredLater(d.samples, m.cursors, h.cursors, Series(Minute, t), now);
  }

  lemma {:induction false} RolledFirstRight(d: Data, listed: seq<int>, now: int, works: Works, n: nat)
    requires Right(d) && IsListing(listed, d.targets) && now >= 0 && n <= |listed|
    ensures var p := RolledFirst(d, listed, now, works, n);
      && Right(p.data) && SameButTables(d, p.data) && Advanced(d.cursors, p.data.cursors, now)
      && (p.ok ==> forall i :: 0 <= i < n ==> TargetCovered(p.data, listed[i], now))
  {
    if n > 0 {
      RolledFirstRight(d, listed, now, works, n - 1);
      var p := RolledFirst(d, listed, now, works, n - 1);
      assert listed[n - 1] in listed;
      RolledBothRight(p.data, listed[n - 1], now, works.minute(n - 1), works.hour(n - 1));
      if p.ok {
        OneMoreTarget(d, p.data, listed, now, n, RolledBoth(p.data, listed[n - 1], now, works.minute(n - 1), works.hour(n - 1)));
      }
    }
  }

  lemma OneMoreTarget(d: Data, r: Data, listed: seq<int>, now: int, n: nat, p: Progress)
    requires 0 < n <= |listed|
    requires SameButTables(d, r) && Advanced(d.cursors, r.cursors, now)
    requires forall i :: 0 <= i < n - 1 ==> TargetCovered(r, listed[i], now)
    requires SameButTables(r, p.data) && Advanced(r.cursors, p.data.cursors, now) && (p.ok ==> TargetCovered(p.data, listed[n - 1], now))
    ensures SameButTables(d, p.data) && Advanced(d.cursors, p.data.cursors, now)
    ensures p.ok ==> forall i :: 0 <= i < n ==> TargetCovered(p.data, listed[i], now)
  {
    AdvancedTwice(d.cursors, r.cursors, p.data.cursors, now);
    forall i | 0 <= i < n - 1 ensures TargetCovered(p.data, listed[i], now) {
      CoveredLater(r.samples, r.cursors, p.data.cursors, Series(Minute, listed[i]), now);
      CoveredLater(r.samples, r.cursors, p.data.cursors, Series(Hour, listed[i]), now);
    }
  }

  lemma AdvancedTwice(a: map<Series, int>, b: map<Series, int>, c: map<Series, int>, now: int)
    requires Advanced(a, b, now) && Advanced(b, c, now)
    ensures Advanced(a, c, now)
  {
  }

  lemma CoveredLater(samples: seq<Sample>, before: map<Series, int>, after: map<Series, int>, s: Series, now: int)
    requires Advanced(before, after, now) && Covered(samples, before, s, Floor(now, s.res))
    ensures Covered(samples, after, s, Floor(now, s.res))
  {
    assert CursorOf(before, s) <= CursorOf(after, s);
  }

  /** Every series of the targets has been rolled up to the bucket that contains now. */
  ghost predicate UpToDate(d: Data, now: int) {
    forall s: Series :: s.target in d.targets ==> Covered(d.samples, d.cursors, s, Floor(now, s.res))
  }

  lemma AllTargetsCovered(d: Data, listed: seq<int>, now: int)
    requires IsListing(listed, d.targets) && forall i :: 0 <= i < |listed| ==> TargetCovered(d, listed[i], now)
    ensures UpToDate(d, now)
  {
    forall s: Series | s.target in d.targets ensures Covered(d.samples, d.cursors, s, Floor(now, s.res)) {
      var i :| 0 <= i < |listed| && listed[i] == s.target;
      assert TargetCovered(d, listed[i], now);
      assert s == Series(s.res, s.target);
    }
  }

  /** Being up to date means having passed every cutoff that is at least an hour back. */
  lemma UpToDateIsPastCutoff(d: Data, now: int, cutoff: int, s: Series)
    requires UpToDate(d, now) && now >= 0 && cutoff <= now - 3_600_000 && s.target in d.targets
    ensures Covered(d.samples, d.cursors, s, cutoff)
  {
    FloorIsAligned(now, s.res);
    CoveredBelow(d.samples, d.cursors, s, Floor(now, s.res), cutoff);
  }

  /** A listed target loses a sample only after both of its cursors have passed it. */
  ghost predicate OnlyRolledUpLost(before: Data, after: Data) {
    forall s: Series, x :: s.target in after.targets && x in before.samples && x !in after.samples && x.target == s.target ==>
      x.ts < CursorOf(after.cursors, s)
  }

  lemma PrunedRawRight(d: Data, cutoff: int)
    requires Right(d)
    requires forall s: Series :: s.target in d.targets ==> Covered(d.samples, d.cursors, s, cutoff)
    ensures Right(PrunedRaw(d, cutoff)) && OnlyRolledUpLost(d, PrunedRaw(d, cutoff))
  {
    var d' := PrunedRaw(d, cutoff);
    FilterMembers(d.samples, NotBefore(cutoff));
    forall s: Series | s.target in d.targets ensures IsRight(d', s) {
      assert IsRight(d, s) && Covered(d.samples, d.cursors, s, cutoff);
      PruneRight(OnTime(d, s.res), d.samples, d.rollups, s, CursorOf(d.cursors, s), d.horizon, cutoff);
    }
    forall s: Series, x | s.target in d'.targets && x in d.samples && x !in d'.samples && x.target == s.target
      ensures x.ts < CursorOf(d'.cursors, s)
    {
      assert Covered(d.samples, d.cursors, s, cutoff);
    }
  }

  lemma PrunedRowsRight(d: Data, cutoff: int)
    requires Right(d)
    ensures Right(PrunedRows(d, cutoff))
  {
    forall s: Series | s.target in d.targets ensures IsRight(PrunedRows(d, cutoff), s) {
      assert IsRight(d, s);
      PruneRowsRight(OnTime(d, s.res), d.samples, d.rollups, s, CursorOf(d.cursors, s), d.horizon, cutoff);
    }
  }

  lemma PrunedStaysUpToDate(d: Data, now: int, cutoff: int)
    requires UpToDate(d, now)
    ensures UpToDate(PrunedRaw(d, cutoff), now)
  {
    FilterMembers(d.samples, NotBefore(cutoff));
    forall s: Series | s.target in d.targets ensures Covered(PrunedRaw(d, cutoff).samples, d.cursors, s, Floor(now, s.res)) {
      assert Covered(d.samples, d.cursors, s, Floor(now, s.res));
    }
  }

  /** Deleting raw samples after complete rollups, and old rows after that, is safe. */
  lemma DeletionsRight(d: Data, now: int, rawCutoff: int, rowCutoff: int)
    requires Right(d) && UpToDate(d, now) && now >= 0 && rawCutoff <= now - 3_600_000
    ensures var d' := PrunedRaw(d, rawCutoff);
      && Right(d') && OnlyRolledUpLost(d, d') && UpToDate(d', now)
      && Right(PrunedRows(d', rowCutoff)) && OnlyRolledUpLost(d, PrunedRows(d', rowCutoff)) && UpToDate(PrunedRows(d', rowCutoff), now)
  {
    forall s: Series | s.target in d.targets ensures Covered(d.samples, d.cursors, s, rawCutoff) {
      UpToDateIsPastCutoff(d, now, rawCutoff, s);
    }
    PrunedRawRight(d, rawCutoff);
    PrunedStaysUpToDate(d, now, rawCutoff);
    PrunedRowsRight(PrunedRaw(d, rawCutoff), rowCutoff);
  }

  /** All rollups of a pass over n targets work. */
  ghost predicate AllWork(works: Works, n: nat) {
    forall i :: 0 <= i < n ==> works.minute(i) && works.hour(i)
  }

  lemma {:induction false} RolledFirstIsOk(d: Data, listed: seq<int>, now: int, works: Works, n: nat)
    requires n <= |listed|
    ensures RolledFirst(d, listed, now, works, n).ok <==> AllWork(works, n)
    ensures SameButTables(d, RolledFirst(d, listed, now, works, n).data)
  {
    if n > 0 {
      RolledFirstIsOk(d, listed, now, works, n - 1);
    }
  }

  /** Every series is right, no cursor went back, and no sample of a listed target is lost that its cursors have not passed. */
  ghost predicate Kept(d: Data, d': Data, now: int) {
    Right(d') && OnlyRolledUpLost(d, d') && Advanced(d.cursors, d'.cursors, now)
  }

  /**
   Whichever operation of a pass fails: every series stays right, and no sample of a listed target is deleted before
   both of its cursors have passed it. A pass whose rollups all work brings every series up to date.
   */
  lemma PassRight(d: Data, listed: seq<int>, now: int, rawHours: int, rollup1mDays: int, works: Works)
    requires Right(d) && IsListing(listed, d.targets) && now >= 0 && rawHours >= 1
    ensures var d' := Pass(d, listed, now, rawHours, rollup1mDays, works);
      Kept(d, d', now) && (AllWork(works, |listed|) ==> UpToDate(d', now))
  {
    RollupsRight(d, listed, now, works);
    var rolled := RolledFirst(d, listed, now, works, |listed|);
    if rolled.ok {
      AfterRollups(d, rolled.data, now, now - rawHours * 3_600_000, now - rollup1mDays * 86_400_000, works,
                   Pass(d, listed, now, rawHours, rollup1mDays, works));
    }
  }

  lemma RollupsRight(d: Data, listed: seq<int>, now: int, works: Works)
    requires Right(d) && IsListing(listed, d.targets) && now >= 0
    ensures var r := RolledFirst(d, listed, now, works, |listed|);
      && SameButTables(d, r.data) && Kept(d, r.data, now)
      && (r.ok <==> AllWork(works, |listed|)) && (r.ok ==> UpToDate(r.data, now))
  {
    var r := RolledFirst(d, listed, now, works, |listed|);
    RolledFirstRight(d, listed, now, works, |listed|);
    RolledFirstIsOk(d, listed, now, works, |listed|);
    if r.ok {
      AllTargetsCovered(r.data, listed, now);
    }
  }

  /** The deletions keep what the rollups of a pass achieved. */
  lemma AfterRollups(d: Data, r: Data, now: int, rawCutoff: int, rowCutoff: int, works: Works, d': Data)
    requires SameButTables(d, r) && Kept(d, r, now)
    requires UpToDate(r, now) && now >= 0 && rawCutoff <= now - 3_600_000
    requires d' == Deleted(r, rawCutoff, rowCutoff, works)
    ensures Kept(d, d', now) && UpToDate(d', now)
  {
    DeletionsRight(r, now, rawCutoff, rowCutoff);
    OnlyRolledUp(d, r, PrunedRaw(r, rawCutoff));
    OnlyRolledUp(d, r, PrunedRows(PrunedRaw(r, rawCutoff), rowCutoff));
  }

  lemma OnlyRolledUp(d: Data, r: Data, d': Data)
    requires SameButTables(d, r) && OnlyRolledUpLost(r, d')
    ensures OnlyRolledUpLost(d, r) && OnlyRolledUpLost(d, d')
  {
  }

  /**
   What a pass that gets to its end deletes: a raw sample stays exactly if it is not older than the retention in hours,
   and a 1m row exactly if its bucket does not start before the retention in days. Nothing else is touched after the
   rollups.
   */
  lemma PassDeletes(d: Data, listed: seq<int>, now: int, rawHours: int, rollup1mDays: int, works: Works)
    requires AllWork(works, |listed|) && works.raw && works.rows
    ensures var rolled, d' := RolledFirst(d, listed, now, works, |listed|).data, Pass(d, listed, now, rawHours, rollup1mDays, works);
      && rolled.samples == d.samples
      && (forall x :: x in d'.samples <==> x in d.samples && x.ts >= now - rawHours * 3_600_000)
      && (forall c: Cell :: c in d'.rollups <==>
           c in rolled.rollups && (c.series.res == Hour || c.bucket >= now - rollup1mDays * 86_400_000))
      && (forall c :: c in d'.rollups ==> d'.rollups[c] == rolled.rollups[c])
      && d'.cursors == rolled.cursors && d'.targets == d.targets
  {
    RolledFirstIsOk(d, listed, now, works, |listed|);
    FilterMembers(d.samples, NotBefore(now - rawHours * 3_600_000));
  }

  // ----- whole runs -----

  /** A pass that cannot read the list of targets does nothing. */
  datatype Step =
    | Created
    | Removed(t: int)
    | Written(x: Sample)
    | Passed(now: nat, rawHours: int, rollup1mDays: int, readable: bool, works: Works)

  /** Only targets that exist or once existed are pinged, so no other sample reaches the writer. */
  predicate Accepts(d: Data, x: Sample) {
    x.ts >= 0 && x.target < d.nextTarget
  }

  ghost predicate StepTo(d: Data, step: Step, d': Data) {
    match step
    case Created => d' == d.(targets := d.targets + {d.nextTarget}, nextTarget := d.nextTarget + 1)
    case Removed(t) => d' == d.(targets := d.targets - {t})
    case Written(x) => d' == if Accepts(d, x) then Inserted(d, x) else d
    case Passed(now, rawHours, days, readable, works) =>
      if readable then exists listed :: IsListing(listed, d.targets) && d' == Pass(d, listed, now, rawHours, days, works)
      else d' == d
  }

  /** The store before the first step and after each one. */
  ghost predicate IsRun(steps: seq<Step>, trace: seq<Data>) {
    && |trace| == |steps| + 1
    && if |steps| == 0 then trace[0] == EMPTY
       else IsRun(steps[..|steps| - 1], trace[..|steps|]) && StepTo(trace[|steps| - 1], steps[|steps| - 1], trace[|steps|])
  }

  /** Raw samples are retained for at least an hour. */
  ghost predicate RetainsAnHour(steps: seq<Step>) {
    |steps| > 0 ==> RetainsAnHour(steps[..|steps| - 1]) && (steps[|steps| - 1].Passed? ==> steps[|steps| - 1].rawHours >= 1)
  }

  lemma CreatedRight(d: Data)
    requires Right(d)
    ensures Right(d.(targets := d.targets + {d.nextTarget}, nextTarget := d.nextTarget + 1))
  {
    forall s: Series | s.target in d.targets + {d.nextTarget}
      ensures IsRight(d, s)
    {
      if s.target == d.nextTarget {
        NewTargetRight(OnTime(d, s.res), d.samples, d.rollups, s, d.horizon);
      }
    }
  }

  lemma InsertedRight(d: Data, x: Sample)
    requires Right(d) && Accepts(d, x)
    ensures Right(Inserted(d, x))
  {
    forall s: Series | s.target in d.targets ensures IsRight(Inserted(d, x), s) {
      assert IsRight(d, s);
      InsertSeriesRight(OnTime(d, s.res), d.samples, d.rollups, d.cursors, d.horizon, s, x);
    }
  }

  lemma StepRight(d: Data, step: Step, d': Data)
    requires Right(d) && StepTo(d, step, d') && (step.Passed? ==> step.rawHours >= 1)
    ensures Right(d')
  {
    match step
    case Created => CreatedRight(d);
    case Removed(_) =>
      forall s: Series | s.target in d'.targets ensures IsRight(d', s) {
        assert IsRight(d, s);
      }
    case Written(x) =>
      if Accepts(d, x) {
        InsertedRight(d, x);
      }
    case Passed(now, rawHours, days, readable, works) =>
      if readable {
        var listed :| IsListing(listed, d.targets) && d' == Pass(d, listed, now, rawHours, days, works);
        PassRight(d, listed, now, rawHours, days, works);
      }
  }

  /** After every run both tables of every listed target are what a batch over its on-time samples would give. */
  lemma {:induction false} RunKeepsTablesRight(steps: seq<Step>, trace: seq<Data>)
    requires IsRun(steps, trace) && RetainsAnHour(steps)
    ensures Right(trace[|steps|])
  {
    if |steps| > 0 {
      RunKeepsTablesRight(steps[..|steps| - 1], trace[..|steps|]);
      StepRight(trace[|steps| - 1], steps[|steps| - 1], trace[|steps|]);
    }
  }

  // ----- what a run remembers -----

  lemma {:induction false} ListingLength<T(!new)>(s: seq<T>, elements: set<T>)
    requires IsListing(s, elements)
    ensures |s| == |elements|
  {
    if |s| == 0 {
      assert elements == {};
    } else {
      var front, last := s[..|s| - 1], s[|s| - 1];
      assert s == front + [last];
      ListingLength(front, elements - {last});
    }
  }

  /** The pass gets past its rollups and deletes raw samples. */
  ghost predicate DeletesRaw(d: Data, step: Step) {
    step.Passed? && step.readable && AllWork(step.works, |d.targets|) && step.works.raw
  }

  /** The pass gets to its end, and deletes rows of the 1m table too. */
  ghost predicate DeletesRows(d: Data, step: Step) {
    DeletesRaw(d, step) && step.works.rows
  }

  /** What a pass does besides rolling up. */
  lemma PassRemembers(d: Data, listed: seq<int>, step: Step)
    requires IsListing(listed, d.targets) && step.Passed? && step.readable
    ensures var d' := Pass(d, listed, step.now, step.rawHours, step.rollup1mDays, step.works);
      d' == d.(rollups := d'.rollups, cursors := d'.cursors,
               samples := if DeletesRaw(d, step) then Filter(d.samples, NotBefore(step.now - step.rawHours * 3_600_000)) else d.samples,
               rawCutoff := if DeletesRaw(d, step) then Max(d.rawCutoff, step.now - step.rawHours * 3_600_000) else d.rawCutoff,
               horizon := if DeletesRows(d, step) then Max(d.horizon, step.now - step.rollup1mDays * 86_400_000) else d.horizon)
  {
    ListingLength(listed, d.targets);
    RolledFirstIsOk(d, listed, step.now, step.works, |listed|);
  }

  /** What a step does to the samples and to what is remembered of the past. */
  lemma StepRemembers(d: Data, step: Step, d': Data)
    requires StepTo(d, step, d')
    ensures d'.nextTarget == d.nextTarget + if step.Created? then 1 else 0
    ensures step.Written? && Accepts(d, step.x) ==> d' == Inserted(d, step.x)
    ensures !(step.Written? && Accepts(d, step.x)) ==>
      && d'.onTime1m == d.onTime1m && d'.onTime1h == d.onTime1h
      && d'.samples == if DeletesRaw(d, step) then Filter(d.samples, NotBefore(step.now - step.rawHours * 3_600_000)) else d.samples
    ensures d'.rawCutoff == if DeletesRaw(d, step) then Max(d.rawCutoff, step.now - step.rawHours * 3_600_000) else d.rawCutoff
    ensures d'.horizon == if DeletesRows(d, step) then Max(d.horizon, step.now - step.rollup1mDays * 86_400_000) else d.horizon
  {
    if step.Passed? && step.readable {
      var listed :| IsListing(listed, d.targets) && d' == Pass(d, listed, step.now, step.rawHours, step.rollup1mDays, step.works);
      PassRemembers(d, listed, step);
    }
  }

  /** The id that the next target will get. */
  function NextTarget(steps: seq<Step>): int {
    if |steps| == 0 then 1
    else NextTarget(steps[..|steps| - 1]) + if steps[|steps| - 1].Created? then 1 else 0
  }

  /** All samples that were ever stored. */
  function Stored(steps: seq<Step>): seq<Sample> {
    if |steps| == 0 then []
    else
      var front, step := steps[..|steps| - 1], steps[|steps| - 1];
      if step.Written? && step.x.ts >= 0 && step.x.target < NextTarget(front) then Stored(front) + [step.x] else Stored(front)
  }

  /** The cutoffs of all deletions of raw samples. */
  ghost function RawCutoffs(steps: seq<Step>, trace: seq<Data>): seq<int>
    requires |trace| == |steps| + 1
  {
    if |steps| == 0 then []
    else
      var front, step := RawCutoffs(steps[..|steps| - 1], trace[..|steps|]), steps[|steps| - 1];
      if DeletesRaw(trace[|steps| - 1], step) then front + [step.now - step.rawHours * 3_600_000] else front
  }

  /** The cutoffs of all deletions of 1m rows. */
  ghost function RowCutoffs(steps: seq<Step>, trace: seq<Data>): seq<int>
    requires |trace| == |steps| + 1
  {
    if |steps| == 0 then []
    else
      var front, step := RowCutoffs(steps[..|steps| - 1], trace[..|steps|]), steps[|steps| - 1];
      if DeletesRows(trace[|steps| - 1], step) then front + [step.now - step.rollup1mDays * 86_400_000] else front
  }

  /** The largest of them, or zero, before which there are no samples. */
  function Largest(cutoffs: seq<int>): int {
    if |cutoffs| == 0 then 0 else Max(Largest(cutoffs[..|cutoffs| - 1]), cutoffs[|cutoffs| - 1])
  }

  lemma LargestStep(cutoffs: seq<int>, c: int)
    ensures Largest(cutoffs + [c]) == Max(Largest(cutoffs), c)
  {
    assert (cutoffs + [c])[..|cutoffs|] == cutoffs;
  }

  lemma {:induction false} RawCutoffIsTheLargest(steps: seq<Step>, trace: seq<Data>)
    requires IsRun(steps, trace)
    ensures trace[|steps|].rawCutoff == Largest(RawCutoffs(steps, trace))
  {
    if |steps| > 0 {
      var front, step, d := steps[..|steps| - 1], steps[|steps| - 1], trace[|steps| - 1];
      var before := RawCutoffs(front, trace[..|steps|]);
      RawCutoffIsTheLargest(front, trace[..|steps|]);
      StepRemembers(d, step, trace[|steps|]);
      if DeletesRaw(d, step) {
        var cutoff := step.now - step.rawHours * 3_600_000;
        LargestStep(before, cutoff);
        assert RawCutoffs(steps, trace) == before + [cutoff];
      } else {
        assert RawCutoffs(steps, trace) == before;
      }
    }
  }

  lemma {:induction false} HorizonIsTheLargest(steps: seq<Step>, trace: seq<Data>)
    requires IsRun(steps, trace)
    ensures trace[|steps|].horizon == Largest(RowCutoffs(steps, trace))
  {
    if |steps| > 0 {
      var front, step, d := steps[..|steps| - 1], steps[|steps| - 1], trace[|steps| - 1];
      var before := RowCutoffs(front, trace[..|steps|]);
      HorizonIsTheLargest(front, trace[..|steps|]);
      StepRemembers(d, step, trace[|steps|]);
      if DeletesRows(d, step) {
        var cutoff := step.now - step.rollup1mDays * 86_400_000;
        LargestStep(before, cutoff);
        assert RowCutoffs(steps, trace) == before + [cutoff];
      } else {
        assert RowCutoffs(steps, trace) == before;
      }
    }
  }

  /** The raw cutoff and the horizon are the largest cutoffs that were really applied. */
  lemma CutoffsAreTheLargest(steps: seq<Step>, trace: seq<Data>)
    requires IsRun(steps, trace)
    ensures trace[|steps|].rawCutoff == Largest(RawCutoffs(steps, trace))
    ensures trace[|steps|].horizon == Largest(RowCutoffs(steps, trace))
  {
    RawCutoffIsTheLargest(steps, trace);
    HorizonIsTheLargest(steps, trace);
  }

  /** At and above the raw cutoff everything that was ever stored is still there, in the same order. */
  ghost predicate Retained(d: Data, stored: seq<Sample>) {
    Filter(d.samples, NotBefore(d.rawCutoff)) == Filter(stored, NotBefore(d.rawCutoff))
  }

  lemma PruneRetains(samples: seq<Sample>, stored: seq<Sample>, before: int, cutoff: int)
    requires Filter(samples, NotBefore(before)) == Filter(stored, NotBefore(before))
    ensures var after := Max(before, cutoff);
      Filter(Filter(samples, NotBefore(cutoff)), NotBefore(after)) == Filter(stored, NotBefore(after))
  {
    var after := Max(before, cutoff);
    FilterFilter(samples, NotBefore(cutoff), NotBefore(after), NotBefore(after));
    FilterFilter(samples, NotBefore(before), NotBefore(after), NotBefore(after));
    FilterFilter(stored, NotBefore(before), NotBefore(after), NotBefore(after));
  }

  lemma {:induction false} RunCountsIds(steps: seq<Step>, trace: seq<Data>)
    requires IsRun(steps, trace)
    ensures trace[|steps|].nextTarget == NextTarget(steps)
  {
    if |steps| > 0 {
      RunCountsIds(steps[..|steps| - 1], trace[..|steps|]);
      StepRemembers(trace[|steps| - 1], steps[|steps| - 1], trace[|steps|]);
    }
  }

  /** Over every run nothing at or above the raw cutoff is lost, whatever the retention is. */
  lemma {:induction false} RunRetains(steps: seq<Step>, trace: seq<Data>)
    requires IsRun(steps, trace)
    ensures Retained(trace[|steps|], Stored(steps))
  {
    if |steps| > 0 {
      var front := steps[..|steps| - 1];
      RunRetains(front, trace[..|steps|]);
      RunCountsIds(front, trace[..|steps|]);
      StepRetains(trace[|steps| - 1], steps[|steps| - 1], trace[|steps|], Stored(front));
    }
  }

  lemma StepRetains(d: Data, step: Step, d': Data, stored: seq<Sample>)
    requires StepTo(d, step, d') && Retained(d, stored)
    ensures Retained(d', if step.Written? && Accepts(d, step.x) then stored + [step.x] else stored)
  {
    StepRemembers(d, step, d');
    if step.Written? {
      FilterStep(d.samples, step.x, NotBefore(d.rawCutoff));
      FilterStep(stored, step.x, NotBefore(d.rawCutoff));
    } else if DeletesRaw(d, step) {
      PruneRetains(d.samples, stored, d.rawCutoff, step.now - step.rawHours * 3_600_000);
    }
  }

  /** The sample arrives below the cursor of its series. */
  ghost predicate Late(d: Data, x: Sample, res: Res) {
    x.ts < CursorOf(d.cursors, Series(res, x.target))
  }

  ghost predicate NeverLate(steps: seq<Step>, trace: seq<Data>, res: Res)
    requires |trace| == |steps| + 1
  {
    |steps| > 0 ==>
      var step, d := steps[|steps| - 1], trace[|steps| - 1];
      && NeverLate(steps[..|steps| - 1], trace[..|steps|], res)
      && (step.Written? && Accepts(d, step.x) ==> !Late(d, step.x, res))
  }

  /** The on-time samples are everything that was stored if and only if every sample arrived at or above its cursor. */
  lemma {:induction false} OnTimeIsEverything(steps: seq<Step>, trace: seq<Data>, res: Res)
    requires IsRun(steps, trace)
    ensures |OnTime(trace[|steps|], res)| <= |Stored(steps)|
    ensures OnTime(trace[|steps|], res) == Stored(steps) <==> NeverLate(steps, trace, res)
  {
    if |steps| > 0 {
      var front, step := steps[..|steps| - 1], steps[|steps| - 1];
      OnTimeIsEverything(front, trace[..|steps|], res);
      RunCountsIds(front, trace[..|steps|]);
      StepRemembers(trace[|steps| - 1], step, trace[|steps|]);
      var onTime, stored := OnTime(trace[|steps| - 1], res), Stored(front);
      if step.Written? && Accepts(trace[|steps| - 1], step.x) {
        assert (onTime + [step.x])[..|onTime|] == onTime && (stored + [step.x])[..|stored|] == stored;
      }
    }
  }

  // ----- a sufficient condition that needs no cursor -----

  /** The start of the latest minute in which a pass has run; zero before the first pass. */
  function LatestPass(steps: seq<Step>): int {
    if |steps| == 0 then 0
    else
      var front, step := steps[..|steps| - 1], steps[|steps| - 1];
      if step.Passed? then Max(LatestPass(front), Floor(step.now, Minute)) else LatestPass(front)
  }

  /** No sample is older than the minute of a pass that ran before it was stored. */
  ghost predicate Prompt(steps: seq<Step>) {
    |steps| > 0 ==>
      var front, step := steps[..|steps| - 1], steps[|steps| - 1];
      Prompt(front) && (step.Written? ==> LatestPass(front) <= step.x.ts)
  }

  ghost predicate CursorsBelow(cursors: map<Series, int>, limit: int) {
    forall s :: CursorOf(cursors, s) <= limit
  }

  lemma HourBeginsFirst(now: nat)
    ensures Floor(now, Hour) <= Floor(now, Minute)
  {
    var h := Floor(now, Hour);
    FloorIsAligned(now, Hour);
    FloorIsAligned(now, Minute);
    HourIsWholeMinutes(h);
    if Floor(now, Minute) < h {
      AlignedGap(Floor(now, Minute), h, Minute);
    }
  }

  lemma HourIsWholeMinutes(k: int)
    requires Aligned(k, Hour)
    ensures Aligned(k, Minute)
  {
    assert k == k / 3_600_000 * 60 * 60_000;
  }

  /** Cursors never pass the minute of the latest pass. */
  lemma {:induction false} RunKeepsCursorsBelow(steps: seq<Step>, trace: seq<Data>)
    requires IsRun(steps, trace) && RetainsAnHour(steps)
    ensures CursorsBelow(trace[|steps|].cursors, LatestPass(steps))
  {
    if |steps| > 0 {
      var front, step, d := steps[..|steps| - 1], steps[|steps| - 1], trace[|steps| - 1];
      RunKeepsCursorsBelow(front, trace[..|steps|]);
      if step.Passed? && step.readable {
        var listed :| IsListing(listed, d.targets) && trace[|steps|] == Pass(d, listed, step.now, step.rawHours, step.rollup1mDays, step.works);
        RunKeepsTablesRight(front, trace[..|steps|]);
        PassRight(d, listed, step.now, step.rawHours, step.rollup1mDays, step.works);
        PassKeepsCursorsBelow(d.cursors, trace[|steps|].cursors, step.now, LatestPass(front));
      }
    }
  }

  lemma PassKeepsCursorsBelow(before: map<Series, int>, after: map<Series, int>, now: nat, limit: int)
    requires CursorsBelow(before, limit) && Advanced(before, after, now)
    ensures CursorsBelow(after, Max(limit, Floor(now, Minute)))
  {
    HourBeginsFirst(now);
    forall s ensures CursorOf(after, s) <= Max(limit, Floor(now, Minute)) {
      assert CursorOf(before, s) <= limit;
    }
  }

  lemma {:induction false} PromptIsNeverLate(steps: seq<Step>, trace: seq<Data>, res: Res)
    requires IsRun(steps, trace) && RetainsAnHour(steps) && Prompt(steps)
    ensures NeverLate(steps, trace, res)
  {
    if |steps| > 0 {
      PromptIsNeverLate(steps[..|steps| - 1], trace[..|steps|], res);
      RunKeepsCursorsBelow(steps[..|steps| - 1], trace[..|steps|]);
    }
  }

  // ----- the store and the aggregator -----

  class Store {
    var targets: set<int>
    var nextTarget: int
    var samples: seq<Sample>
    var rollups: map<Cell, Row>
    var cursors: map<Series, int>
    ghost var onTime1m: seq<Sample>
    ghost var onTime1h: seq<Sample>
    ghost var rawCutoff: int
    ghost var horizon: int

    ghost function Content(): Data
      reads this
    {
      Data(targets, nextTarget, samples, rollups, cursors, onTime1m, onTime1h, rawCutoff, horizon)
    }

    constructor ()
      ensures Content() == EMPTY
    {
      targets, nextTarget, samples, rollups, cursors := {}, 1, [], map[], map[];
      onTime1m, onTime1h, rawCutoff, horizon := [], [], 0, 0;
    }

    /** A new target gets an id that was never used. */
    method CreateTarget() returns (t: int)
      modifies this
      ensures StepTo(old(Content()), Created, Content()) && t == old(nextTarget)
    {
      t := nextTarget;
      targets, nextTarget := targets + {t}, nextTarget + 1;
    }

    /** Deleting a target keeps its samples and rows. */
    method DeleteTarget(t: int)
      modifies this
      ensures StepTo(old(Content()), Removed(t), Content())
    {
      targets := targets - {t};
    }

    /** The writer stores a sample, on time or late. */
    method Insert(x: Sample)
      modifies this
      ensures Content() == Inserted(old(Content()), x)
    {
      samples := samples + [x];
      onTime1m := Arrived(onTime1m, cursors, Minute, x);
      onTime1h := Arrived(onTime1h, cursors, Hour, x);
    }

    /** Inserts or replaces one row per non-empty bucket of the list. */
    method UpsertRows(s: Series, list: seq<Sample>)
      modifies this`rollups
      ensures rollups == Upserts(old(rollups), s, list, Keys(list, BucketStart(Width(s.res))))
    {
      var keys, buckets := BucketSamples(list, Width(s.res));
      assert keys[..0] == [];
      for n := 0 to |keys|
        invariant rollups == Upserts(old(rollups), s, list, keys[..n])
      {
        var k := keys[n];
        assert k in keys && k in buckets;
        UpsertsStep(old(rollups), s, list, keys, n);
        var st := ComputeBucket(buckets[k]);
        rollups := rollups[Cell(s, k) := RowOf(st)];
      }
      assert keys[..|keys|] == keys;
    }

    /** Queries a range, drops the samples taken during speed tests, and writes the rows and the cursor in one transaction. */
    method RollupRange(s: Series, lo: int, hi: int)
      modifies this
      ensures Content() == RolledRange(old(Content()), s, lo, hi)
    {
      QueryIsBatch(samples, s.target, lo, hi);
      var list := Filter(Sort(Filter(samples, InRange(s.target, lo, hi)), ByTime()), NotDuringSpeedtest());
      if |list| > 0 {
        UpsertRows(s, list);
      }
      cursors := cursors[s := hi];
    }

    /**
     One target at one resolution. A cursor of zero means that the target was never rolled up; the first run then
     starts at the bucket of its oldest sample.
     */
    method RollupTarget(s: Series, now: int, works: bool) returns (ok: bool)
      modifies this
      ensures ok == works
      ensures Content() == if works then Rolled(old(Content()), s, now) else old(Content())
    {
      if !works {
        return false;
      }
      ok := true;
      var cursor := CursorOf(cursors, s);
      if cursor == 0 {
        var minTS := MinTS(samples, s.target);
        if minTS.None? {
          return;
        }
        cursor := Floor(minTS.value, s.res);
      }
      var currentBucket := Floor(now, s.res);
      if cursor >= currentBucket {
        return;
      }
      RollupRange(s, cursor, currentBucket);
    }

    method RollupBoth(t: int, now: int, minute: bool, hour: bool) returns (ok: bool)
      modifies this
      ensures Progress(Content(), ok) == RolledBoth(old(Content()), t, now, minute, hour)
    {
      ok := RollupTarget(Series(Minute, t), now, minute);
      if ok {
        ok := RollupTarget(Series(Hour, t), now, hour);
      }
    }

    /** The rollups of a pass, up to the first one that fails. */
    method RollupAll(listed: seq<int>, now: int, works: Works) returns (ok: bool)
      modifies this
      ensures Progress(Content(), ok) == RolledFirst(old(Content()), listed, now, works, |listed|)
    {
      ok := true;
      for n := 0 to |listed|
        invariant Progress(Content(), ok) == RolledFirst(old(Content()), listed, now, works, n)
      {
        if ok {
          ok := RollupBoth(listed[n], now, works.minute(n), works.hour(n));
        }
      }
    }

    /** Retention: old raw samples, and old rows of the 1m table. Each deletion may fail, which ends the pass. */
    method Prune(now: int, rawHours: int, rollup1mDays: int, rawWorks: bool, rowsWork: bool) returns (ok: bool)
      modifies this
      ensures ok == (rawWorks && rowsWork)
      ensures !rawWorks ==> Content() == old(Content())
      ensures rawWorks ==> samples == Filter(old(samples), (x: Sample) => x.ts >= now - rawHours * 3_600_000)
      ensures forall c: Cell ::
        c in rollups <==> c in old(rollups) && (ok ==> c.series.res == Hour || c.bucket >= now - rollup1mDays * 86_400_000)
      ensures forall c :: c in rollups ==> rollups[c] == old(rollups)[c]
      ensures rawWorks && !rowsWork ==> Content() == PrunedRaw(old(Content()), now - rawHours * 3_600_000)
      ensures ok ==> Content() == PrunedRows(PrunedRaw(old(Content()), now - rawHours * 3_600_000), now - rollup1mDays * 86_400_000)
    {
      if !rawWorks {
        return false;
      }
      ghost var cutoff := now - rawHours * 3_600_000;
      SameFilter(samples, NotBefore(cutoff), (x: Sample) => x.ts >= now - rawHours * 3_600_000);
      samples := Filter(samples, NotBefore(now - rawHours * 3_600_000));
      rawCutoff := Max(rawCutoff, now - rawHours * 3_600_000);
      if !rowsWork {
        return false;
      }
      rollups := KeptRows(rollups, now - rollup1mDays * 86_400_000);
      horizon := Max(horizon, now - rollup1mDays * 86_400_000);
      ok := true;
    }

    /** The rollups of the listed targets, then retention. The first operation that fails ends the pass. */
    method RunPass(listed: seq<int>, now: int, rawHours: int, rollup1mDays: int, works: Works) returns (ok: bool)
      modifies this
      ensures Content() == Pass(old(Content()), listed, now, rawHours, rollup1mDays, works)
      ensures ok <==> AllWork(works, |listed|) && works.raw && works.rows
    {
      RolledFirstIsOk(Content(), listed, now, works, |listed|);
      ok := RollupAll(listed, now, works);
      if ok {
        ok := Prune(now, rawHours, rollup1mDays, works.raw, works.rows);
      }
    }

    /** One pass over all targets, if they can be read. */
    method RunOnce(now: nat, rawHours: int, rollup1mDays: int, readable: bool, works: Works) returns (ok: bool)
      modifies this
      ensures StepTo(old(Content()), Passed(now, rawHours, rollup1mDays, readable, works), Content())
      ensures ok <==> DeletesRows(old(Content()), Passed(now, rawHours, rollup1mDays, readable, works))
    {
      if !readable {
        return false;
      }
      var listed := Elements(targets);
      ListingLength(listed, targets);
      ok := RunPass(listed, now, rawHours, rollup1mDays, works);
    }
  }

  /** The elements of a set, each once, in some order. */
  method Elements<T(==,!new)>(s: set<T>) returns (listed: seq<T>)
    ensures IsListing(listed, s)
  {
    listed := [];
    var todo := s;
    while todo != {}
      invariant todo <= s
      invariant forall t :: t in s <==> t in todo || t in listed
      invariant forall t :: t in listed ==> t !in todo
      invariant forall i, j :: 0 <= i < j < |listed| ==> listed[i] != listed[j]
      decreases |todo|
    {
      var t := Pick(todo);
      todo := todo - {t};
      listed := listed + [t];
    }
  }

  method Perform(store: Store, step: Step)
    modifies store
    ensures StepTo(old(store.Content()), step, store.Content())
  {
    match step
    case Created => var _ := store.CreateTarget();
    case Removed(t) => store.DeleteTarget(t);
    case Written(x) =>
      if x.ts >= 0 && x.target < store.nextTarget {
        store.Insert(x);
      }
    case Passed(now, rawHours, days, readable, works) =>
      var _ := store.RunOnce(now, rawHours, days, readable, works);
  }

  /**
   A run of the real store and aggregator is a run of the machine that the lemmas above are about. So both tables of
   every listed target are right after it, and if no sample was late they are those of a batch over everything stored.
   */
  method RunAggregator(steps: seq<Step>) returns (store: Store, ghost trace: seq<Data>)
    ensures fresh(store) && IsRun(steps, trace) && trace[|steps|] == store.Content()
    ensures RetainsAnHour(steps) ==> Right(store.Content())
    ensures forall res :: OnTime(store.Content(), res) == Stored(steps) <==> NeverLate(steps, trace, res)
    ensures store.Content().rawCutoff == Largest(RawCutoffs(steps, trace)) && store.Content().horizon == Largest(RowCutoffs(steps, trace))
  {
    if |steps| == 0 {
      store := new Store();
      trace := [EMPTY];
    } else {
      store, trace := RunAggregator(steps[..|steps| - 1]);
      ghost var before := trace;
      Perform(store, steps[|steps| - 1]);
      trace := before + [store.Content()];
      assert trace[..|steps|] == before;
    }
    if RetainsAnHour(steps) {
      RunKeepsTablesRight(steps, trace);
    }
    forall res ensures OnTime(store.Content(), res) == Stored(steps) <==> NeverLate(steps, trace, res) {
      OnTimeIsEverything(steps, trace, res);
    }
    CutoffsAreTheLargest(steps, trace);
  }
}
